/** What one operation on a run leaves behind (internal/journey/runtime.go TickNext and the transactions of
    internal/postgres/journey_runtime.go): the late policies, the execution on time, the retry of a failed
    step, an event that wakes the run, a cancellation. */
module JourneyEffects {
  import opened Common
  import opened JourneyGraph
  import opened JourneyNodes
  import opened JourneyRuntime

  /** A claimed step of the run's current node, and nothing that fails. */
  ghost predicate Undisturbed(v: Version, db: DB, e: Env) {
    db.held.Some? && HoldsOnly(db, db.held.value) && !e.loadFails && !e.crashBeforeTx && !e.txFails
  }

  ghost predicate HoldsOnly(db: DB, h: Held) {
    && h.index < |db.steps| && db.steps[h.index] == h.step && h.step.status == Processing
    && h.run == db.run && RunMatches(db.run, h.step)
    && forall j :: 0 <= j < |db.steps| && j != h.index ==> db.steps[j].status !in {Pending, Processing}
  }

  ghost predicate At(v: Version, h: Held, n: Node) {
    FindNode(v.graph.nodes, h.step.node) == Some(n)
  }

  /** Later than the threshold, a day when none is set. */
  ghost predicate Late(v: Version, h: Held, now: int) {
    now > h.step.availableAt + if v.lateThreshold == 0 then 86_400_000_000_000 else v.lateThreshold
  }

  /** The first edge out of a node, whatever its branch. */
  ghost predicate FirstOut(edges: seq<Edge>, id: string, k: int) {
    0 <= k < |edges| && edges[k].src == id && forall j :: 0 <= j < k ==> edges[j].src != id
  }

  ghost predicate Finishes(db: DB, k: nat, db': DB, more: seq<Step>) {
    k < |db.steps| && db'.steps == db.steps[k := db.steps[k].(status := Finished, lockedUntil := None)] + more
  }

  lemma {:induction false} FirstTargetOut(edges: seq<Edge>, id: string, k: int)
    ensures FirstOut(edges, id, k) ==> FirstTarget(edges, id) == Some(edges[k].dst)
    ensures (forall j :: 0 <= j < |edges| ==> edges[j].src != id) ==> FirstTarget(edges, id).None?
  {
    if edges != [] && edges[0].src != id {
      FirstTargetOut(edges[1..], id, k - 1);
      assert forall j :: 0 < j < |edges| ==> edges[1..][j - 1] == edges[j];
    }
  }

  /** Under `skip` a late step executes nothing: the run goes along the first edge out of the node, due at
      once, and completes at a node without one. */
  lemma LateIsSkipped(v: Version, db: DB, e: Env, n: Node, k: int)
    requires Undisturbed(v, db, e) && At(v, db.held.value, n) && v.latePolicy == Skip
    requires Late(v, db.held.value, db.held.value.claimedAt + e.elapsed)
    ensures var h, db' := db.held.value, AfterProcess(v, db, e);
            var now := h.claimedAt + e.elapsed;
            && db'.actionEvents == db.actionEvents && db'.held.None?
            && (FirstOut(v.graph.edges, n.id, k) ==>
                  && db'.run == db.run.(current := v.graph.edges[k].dst, status := Active)
                  && Finishes(db, h.index, db', [Step(v.graph.edges[k].dst, Advance, Pending, 0, now, None)]))
            && ((forall j :: 0 <= j < |v.graph.edges| ==> v.graph.edges[j].src != n.id) ==>
                  && db'.run == db.run.(status := Completed, completedAt := Some(now))
                  && Finishes(db, h.index, db', []))
  {
    hide FindNode, FirstTarget;
    FirstTargetOut(v.graph.edges, n.id, k);
    assert !OtherBusy(db.steps, db.held.value.index);
  }

  /** Under `reschedule` a late step is put back with all its attempts and executes nothing: a delay for its
      own duration, any other node for the threshold. */
  lemma LateIsRescheduled(v: Version, db: DB, e: Env, n: Node)
    requires Undisturbed(v, db, e) && At(v, db.held.value, n) && v.latePolicy == Reschedule
    requires Late(v, db.held.value, db.held.value.claimedAt + e.elapsed)
    ensures var h, db' := db.held.value, AfterProcess(v, db, e);
            var wait := if n.config.Delay? && n.config.duration.Nanos? && n.config.duration.n != 0
                        then n.config.duration.n
                        else if v.lateThreshold == 0 then 86_400_000_000_000 else v.lateThreshold;
            && db'.run == db.run && db'.actionEvents == db.actionEvents && db'.held.None?
            && db'.steps == db.steps[h.index := Step(h.step.node, h.step.kind, Pending, 0,
                                                     h.claimedAt + e.elapsed + wait, None)]
  {
    hide FindNode;
    assert !OtherBusy(db.steps, db.held.value.index);
  }

  /** What executing the node gives. */
  ghost function Outcome(v: Version, db: DB, e: Env, n: Node): Result
    requires db.held.Some?
  {
    var h := db.held.value;
    var now := h.claimedAt + e.elapsed;
    Execute(v.graph, n, h.run, now, h.step.kind, AnswersAt(v, db.(held := None), n, now, e))
  }

  /** On time, or under `run_anyway`, the node is executed: the run becomes what the execution says, the step
      is finished, and the next step, if any, is pending with all its attempts at its own time. */
  lemma OnTimeIsExecuted(v: Version, db: DB, e: Env, n: Node, r: Result)
    requires Undisturbed(v, db, e) && At(v, db.held.value, n)
    requires v.latePolicy == RunAnyway || !Late(v, db.held.value, db.held.value.claimedAt + e.elapsed)
    requires r == Outcome(v, db, e, n) && r.Executed?
    ensures var h, db' := db.held.value, AfterProcess(v, db, e);
            && db'.run.status == r.status && db'.run.goalReached == r.goalReached
            && db'.run.completedAt == r.completedAt && db'.run.waitUntil == r.waitUntil
            && db'.run.current == (if r.next == "" then db.run.current else r.next)
            && Finishes(db, h.index, db',
                        if r.step.None? then []
                        else [Step(r.step.value.node, r.step.value.kind, Pending, 0, r.step.value.availableAt, None)])
            && db'.actionEvents == (if n.config.Action?
                                    then db.actionEvents[n.id := (h.claimedAt + e.elapsed) / 1000] else db.actionEvents)
  {
    hide FindNode, Execute, AnswersAt;
    assert !OtherBusy(db.steps, db.held.value.index);
  }

  /** The node is executed and the execution fails. */
  ghost predicate Errs(v: Version, db: DB, e: Env)
    requires db.held.Some?
  {
    var h := db.held.value;
    var n := FindNode(v.graph.nodes, h.step.node);
    && n.Some? && (v.latePolicy == RunAnyway || !Late(v, h, h.claimedAt + e.elapsed))
    && Outcome(v, db, e, n.value) == ExecError
  }

  /** A step whose version or node cannot be loaded, whose execution errors, or whose transaction fails moves
      nothing: it is retried a minute later, and given up once ten attempts were made. */
  lemma FailureIsRetried(v: Version, db: DB, e: Env)
    requires db.held.Some? && db.held.value.index < |db.steps| && !e.writeFails && !e.crashBeforeTx
    requires var s := db.steps[db.held.value.index]; s == db.held.value.step && s.status == Processing
    requires e.loadFails || FindNode(v.graph.nodes, db.held.value.step.node).None? || e.txFails || Errs(v, db, e)
    ensures var h, db' := db.held.value, AfterProcess(v, db, e);
            && db'.run == db.run && db'.visits == db.visits
            && db'.steps == db.steps[h.index := h.step.(status := if h.step.attempts >= 10 then Dead else Failed,
                                                        availableAt := h.claimedAt + e.elapsed + 60_000_000_000,
                                                        lockedUntil := None)]
  {
    hide FindNode, FirstTarget, Execute, AnswersAt;
  }

  // ---------------------------------------------------------------------------
  // Events and cancellations

  ghost predicate SuccessEdge(edges: seq<Edge>, id: string, k: int) {
    && 0 <= k < |edges| && edges[k].src == id && edges[k].branch == "success"
    && forall j :: 0 <= j < k ==> !(edges[j].src == id && edges[j].branch == "success")
  }

  lemma {:induction false} FirstSuccess(edges: seq<Edge>, id: string, k: int)
    ensures SuccessEdge(edges, id, k) ==> FindNext(edges, id, "success") == Some(edges[k].dst)
    ensures (forall j :: 0 <= j < |edges| ==> !(edges[j].src == id && edges[j].branch == "success")) ==>
              FindNext(edges, id, "success").None?
  {
    if edges != [] && !(edges[0].src == id && edges[0].branch == "success") {
      FirstSuccess(edges[1..], id, k - 1);
      assert forall j :: 0 < j < |edges| ==> edges[1..][j - 1] == edges[j];
    }
  }

  /** An advance step that is pending or being worked on. */
  ghost predicate Advancing(s: Step) {
    s.kind == Advance && s.status in {Pending, Processing}
  }

  /** A matching event moves a waiting run along the first success edge, due at once, and finishes its
      timeouts; it changes nothing when the run does not wait, has no such edge or has an advance step
      open. */
  lemma EventWakesIff(v: Version, db: DB, now: int, k: int)
    ensures var db', g := AfterWake(v, db, now), v.graph.edges;
            if db.run.status == Waiting && (forall j :: 0 <= j < |db.steps| ==> !Advancing(db.steps[j])) then
              && (SuccessEdge(g, db.run.current, k) ==>
                    && db'.run == db.run.(status := Active, current := g[k].dst, waitUntil := None)
                    && |db'.steps| == |db.steps| + 1
                    && db'.steps[|db.steps|] == Step(g[k].dst, Advance, Pending, 0, now, None)
                    && (forall j :: 0 <= j < |db.steps| ==>
                          db'.steps[j] == if db.steps[j].kind == Timeout && Live(db.steps[j])
                                          then db.steps[j].(status := Finished) else db.steps[j]))
              && ((forall j :: 0 <= j < |g| ==> !(g[j].src == db.run.current && g[j].branch == "success")) ==>
                    db' == db)
            else db' == db
  {
    hide FindNext;
    FirstSuccess(v.graph.edges, db.run.current, k);
    var steps := FinishTimeouts(db.steps);
    if OtherBusy(steps, |db.steps|) {
      var j :| 0 <= j < |steps| && j != |db.steps| && Busy(steps[j]);
      assert Advancing(db.steps[j]);
    } else {
      forall j | 0 <= j < |db.steps| ensures !Advancing(db.steps[j]) {
        assert !Busy(steps[j]);
      }
    }
  }

  /** A cancellation ends a run that has not ended and removes every step it has not finished. */
  lemma CancelEnds(db: DB, now: int)
    ensures var db' := AfterCancel(db, now);
            if db.run.status in {Active, Waiting} then
              && db'.run == db.run.(status := Canceled, completedAt := Some(now)) && |db'.steps| == |db.steps|
              && forall j :: 0 <= j < |db.steps| ==>
                   && db'.steps[j].status in {Finished, Deleted}
                   && (db.steps[j].status == Finished ==> db'.steps[j] == db.steps[j])
            else db' == db
  {
    assert db.run.status.Active? || db.run.status.Waiting? || db.run.status.Completed? || db.run.status.Canceled?;
  }

  lemma EndedStep(v: Version, db: DB, op: Op)
    requires db.run.status in {Completed, Canceled}
    ensures After(v, db, op).run == db.run && After(v, db, op).visits == db.visits
  {
    hide FindNode, FindNext, FirstTarget, Execute, AnswersAt, OtherBusy;
  }

  /** A run that has ended is never moved again, whatever is still claimed, retried or woken. */
  lemma {:induction false} EndedForever(v: Version, db: DB, ops: seq<Op>)
    requires db.run.status in {Completed, Canceled}
    ensures RunOps(v, db, ops).run == db.run && RunOps(v, db, ops).visits == db.visits
  {
    if ops != [] {
      EndedForever(v, db, ops[..|ops| - 1]);
      EndedStep(v, RunOps(v, db, ops[..|ops| - 1]), ops[|ops| - 1]);
    }
  }
}
