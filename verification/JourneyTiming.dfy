/** Where and when runs end and move: completion only at exits, delays never shortened, and what a
    repeated action does. */
module JourneyTiming {
  import opened Common
  import opened JourneyGraph
  import opened JourneyValidate
  import opened JourneyNodes
  import opened JourneyRuntime
  import opened JourneyRuns

  // ---------------------------------------------------------------------------
  // Completion

  ghost predicate AtExit(g: Graph, id: string) {
    FindNode(g.nodes, id).Some? && FindNode(g.nodes, id).value.config.Exit?
  }

  ghost predicate EndsAtExit(v: Version, db: DB) {
    db.run.status == Completed ==> AtExit(v.graph, db.run.current)
  }

  /** Only exits have no outgoing edge. */
  ghost predicate OnlyExitsEnd(g: Graph) {
    forall n | n in g.nodes :: FirstTarget(g.edges, n.id).None? ==> n.config.Exit?
  }

  /** A late skip can complete a run at an exit only. */
  ghost predicate SkipsEndAtExits(v: Version) {
    v.latePolicy != Skip || OnlyExitsEnd(v.graph)
  }

  /** The validator accepts two kinds of node without an edge besides exits. */
  predicate DeadEnd(n: Node, edges: seq<Edge>) {
    (n.config.Split? && n.config.branches == []) || (n.config.FeatureFlag? && FirstTarget(edges, n.id).None?)
  }

  /** On an accepted graph only exits end exactly when no split is without branches and no feature flag
      without edges. */
  lemma OnlyExitsEndIff(g: Graph)
    requires WellFormed(g)
    ensures OnlyExitsEnd(g) <==> forall n | n in g.nodes :: !DeadEnd(n, g.edges)
  {
    forall n | n in g.nodes
      ensures FirstTarget(g.edges, n.id).None? <==> n.config.Exit? || DeadEnd(n, g.edges)
    {
      FirstTargetExact(g.edges, n.id);
      var i :| 0 <= i < |g.nodes| && g.nodes[i] == n;
      assert ValidOutgoing(g.nodes[i].config, Outgoing(g.edges, g.nodes[i].id));
      if FirstTarget(g.edges, n.id).None? {
        EmptyOutgoing(n.config);
      } else {
        FirstEdge(g.edges, n.id);
        if n.config.Split? && n.config.branches == [] { NoBranches(Outgoing(g.edges, n.id)); }
      }
    }
  }

  lemma FirstEdge(edges: seq<Edge>, id: string)
    requires FirstTarget(edges, id).Some?
    ensures Outgoing(edges, id) != []
  {
    FirstTargetExact(edges, id);
    var e :| e in edges && e.src == id;
    OutgoingExact(edges, id, e);
  }

  lemma RunnableEndsAtExits(g: Graph)
    requires Runnable(g)
    ensures OnlyExitsEnd(g)
  {
    forall n | n in g.nodes ensures !DeadEnd(n, g.edges) {
      var i :| 0 <= i < |g.nodes| && g.nodes[i] == n;
      assert RunnableConfig(g.nodes[i].config);
    }
    OnlyExitsEndIff(g);
  }

  lemma NoLabels(labels: seq<string>)
    requires ExactBranches([], labels)
    ensures labels == []
  {
    assert |multiset(labels)| == |multiset(Branches([]))|;
  }

  lemma EmptyOutgoing(c: Config)
    requires ValidOutgoing(c, [])
    ensures c.Exit? || c.FeatureFlag? || (c.Split? && c.branches == [])
  {
    match c
    case Condition => NoLabels(["true", "false"]);
    case Split(_, _, bs) => NoLabels(SplitLabels(bs));
    case WaitEvent(_, _) => NoLabels(["success", "timeout"]);
    case AIDecision(_, _, _, options, _) => NoLabels(options);
    case Extension(_, _, _, options, _) => NoLabels(options);
    case _ =>
  }

  lemma AdvanceEnds(v: Version, db: DB, k: nat, run: Run, next: Option<NextStep>, vis: Visit, now: int, e: Env)
    requires k < |db.steps| && EndsAtExit(v, db)
    requires db.steps[k].status == Processing && run.status == Completed ==> AtExit(v.graph, run.current)
    ensures EndsAtExit(v, AdvanceTx(db, k, run, next, vis, now, e))
  {}

  lemma SkipEnds(v: Version, db: DB, h: Held, n: Node, now: int, e: Env)
    requires OnlyExitsEnd(v.graph) && n in v.graph.nodes && EndsAtExit(v, db) && h.index < |db.steps|
    requires FindNode(v.graph.nodes, n.id) == Some(n)
    requires db.steps[h.index].status == Processing ==> h.run.current == n.id
    ensures EndsAtExit(v, SkipLate(v, db, h, n, now, e))
  {
    var target := FirstTarget(v.graph.edges, n.id);
    if target.None? {
      AdvanceEnds(v, db, h.index, h.run.(status := Completed, completedAt := Some(now)), None,
          Visit(n.id, now, 0, false), now, e);
    } else {
      AdvanceEnds(v, db, h.index, h.run.(current := target.value, status := Active),
          Some(NextStep(target.value, Advance, now)), Visit(n.id, now, 0, false), now, e);
    }
  }

  lemma ConcludeEnds(v: Version, db: DB, h: Held, n: Node, now: int, e: Env, r: Result)
    requires h.index < |db.steps| && EndsAtExit(v, db) && FindNode(v.graph.nodes, n.id) == Some(n)
    requires db.steps[h.index].status == Processing && r.Executed? && r.status == Completed ==>
               n.config.Exit? && r.next == "" && h.run.current == n.id
    ensures EndsAtExit(v, Conclude(db, h, n, now, e, r))
  {
    if r.Executed? {
      var db1 := if n.config.Action? then db.(actionEvents := db.actionEvents[n.id := now / 1000]) else db;
      AdvanceEnds(v, db1, h.index, RunAfter(h, r), r.step, Visit(n.id, now, HoldOf(n.config, h.step.kind), false),
          now, e);
    }
  }

  lemma NodeEnds(v: Version, db: DB, h: Held, n: Node, now: int, e: Env)
    requires SkipsEndAtExits(v) && Workable(db, h.index) && Located(v, db) && EndsAtExit(v, db)
    requires FindNode(v.graph.nodes, h.step.node) == Some(n) && n.id == h.step.node && n in v.graph.nodes
    requires db.steps[h.index].status == Processing ==> Fresh(db, h)
    ensures EndsAtExit(v, AfterNode(v, db, h, n, now, e))
  {
    if now - h.step.availableAt > Threshold(v) && v.latePolicy == Skip {
      SkipEnds(v, db, h, n, now, e);
    } else {
      var a := AnswersAt(v, db, n, now, e);
      var r := Execute(v.graph, n, h.run, now, h.step.kind, a);
      if db.steps[h.index].status == Processing && r.Executed? { ExecuteShape(v.graph, n, h.run, now, h.step.kind, a); }
      ConcludeEnds(v, db, h, n, now, e, r);
    }
  }

  lemma ProcessEnds(v: Version, db: DB, e: Env)
    requires SkipsEndAtExits(v) && Inv(v, db) && EndsAtExit(v, db) && db.held.Some?
    ensures EndsAtExit(v, AfterProcess(v, db, e))
  {
    hide AfterProcess, AfterNode;
    HeldIsWorkable(v, db);
    var h := db.held.value;
    var now, db0 := h.claimedAt + e.elapsed, db.(held := None);
    var found, p := FindNode(v.graph.nodes, h.step.node), (d: DB) => EndsAtExit(v, d);
    FindNodeExact(v.graph.nodes, h.step.node);
    if found.Some? && !e.loadFails {
      NodeEnds(v, db0, h, found.value, now, e);
      ProcessAsNode(v, db, e, h, found.value, p);
    } else {
      ProcessAsFail(v, db, e, h, p);
    }
    assert p(AfterProcess(v, db, e));
  }

  lemma EndsStep(v: Version, db: DB, op: Op)
    requires SkipsEndAtExits(v) && Inv(v, db) && EndsAtExit(v, db)
    ensures EndsAtExit(v, After(v, db, op))
  {
    if op.Process? && db.held.Some? { ProcessEnds(v, db, op.env); }
  }

  /** On an accepted graph a run completes only at an exit node; on the late-skip path as well, when no
      other node is without an edge. */
  lemma {:induction false} CompletesOnlyAtExit(v: Version, enrolledAt: int, ops: seq<Op>)
    requires WellFormed(v.graph) && SkipsEndAtExits(v) && NothingReopened(v, Enrolled(v, enrolledAt), ops)
    ensures EndsAtExit(v, RunOps(v, Enrolled(v, enrolledAt), ops))
  {
    if ops != [] {
      var n := |ops| - 1;
      CompletesOnlyAtExit(v, enrolledAt, ops[..n]);
      TokenConserved(v, enrolledAt, ops[..n]);
      EndsStep(v, RunOps(v, Enrolled(v, enrolledAt), ops[..n]), ops[n]);
    }
  }

  /** The same without wake-ups and retries, for every run. */
  lemma UndisturbedCompletesOnlyAtExit(v: Version, enrolledAt: int, ops: seq<Op>)
    requires WellFormed(v.graph) && SkipsEndAtExits(v) && Undisturbed(ops)
    ensures EndsAtExit(v, RunOps(v, Enrolled(v, enrolledAt), ops))
  {
    UndisturbedReopensNothing(v, enrolledAt, ops);
    CompletesOnlyAtExit(v, enrolledAt, ops);
  }

  // ---------------------------------------------------------------------------
  // Delays

  /** The earliest time the next move by a step is allowed. */
  function Due(visits: seq<Visit>): int
    requires visits != []
  {
    visits[|visits| - 1].at + visits[|visits| - 1].hold
  }

  /** No step moves the run before the hold time of the node before it is over; only an event may cut
      short a wait, and then it leaves the very node that was waiting. */
  ghost predicate Spaced(visits: seq<Visit>) {
    forall i :: 0 <= i < |visits| - 1 ==>
      if visits[i + 1].byEvent then visits[i + 1].node == visits[i].node
      else visits[i + 1].at >= visits[i].at + visits[i].hold
  }

  ghost predicate StepTimed(s: Step, due: int) {
    s.availableAt >= due && (s.status == Processing ==> s.lockedUntil.Some? && s.lockedUntil.value >= due)
  }

  ghost predicate Timed(db: DB) {
    && db.visits != [] && Spaced(db.visits)
    && (db.run.status in {Active, Waiting} && db.steps != [] ==> StepTimed(db.steps[|db.steps| - 1], Due(db.visits)))
    && (db.held.Some? && db.held.value.index < |db.steps| && Live(db.steps[db.held.value.index]) ==>
          db.held.value.claimedAt >= Due(db.visits))
    && (db.run.status == Waiting ==> db.visits[|db.visits| - 1].node == db.run.current)
  }

  lemma Extend(visits: seq<Visit>, x: Visit)
    requires visits != [] && Spaced(visits)
    requires if x.byEvent then x.node == visits[|visits| - 1].node else x.at >= Due(visits)
    ensures Spaced(visits + [x]) && Due(visits + [x]) == x.at + x.hold
  {}

  lemma FailTimed(db: DB, k: nat, now: int, e: Env)
    requires Workable(db, k) && Timed(db) && (Live(db.steps[k]) ==> now >= Due(db.visits))
    ensures Timed(FailStep(db, k, now, e))
  {}

  lemma RescheduleTimed(db: DB, k: nat, at: int, now: int, e: Env)
    requires Workable(db, k) && Timed(db) && (Live(db.steps[k]) ==> now >= Due(db.visits) && at >= now)
    ensures Timed(RescheduleStep(db, k, at, now, e))
  {
    FailTimed(db, k, now, e);
  }

  lemma AdvanceTimed(db: DB, k: nat, run: Run, next: Option<NextStep>, vis: Visit, now: int, e: Env)
    requires Workable(db, k) && Timed(db) && !vis.byEvent && vis.at == now
    requires Live(db.steps[k]) ==> now >= Due(db.visits)
    requires db.steps[k].status == Processing ==>
               && Agrees(run, next)
               && (next.Some? ==> next.value.availableAt == now + vis.hold)
               && (run.status == Waiting ==> vis.node == run.current)
    ensures Timed(AdvanceTx(db, k, run, next, vis, now, e))
  {
    FailTimed(db, k, now, e);
    if db.steps[k].status == Processing { Extend(db.visits, vis); }
  }

  lemma ConcludeTimed(db: DB, h: Held, n: Node, now: int, e: Env, r: Result)
    requires Workable(db, h.index) && Timed(db)
    requires Live(db.steps[h.index]) ==> now >= Due(db.visits)
    requires db.steps[h.index].status == Processing && r.Executed? ==>
               && Agrees(RunAfter(h, r), r.step)
               && (r.step.Some? ==> r.step.value.availableAt == now + HoldOf(n.config, h.step.kind))
               && (r.status == Waiting ==> RunAfter(h, r).current == n.id)
    ensures Timed(Conclude(db, h, n, now, e, r))
  {
    FailTimed(db, h.index, now, e);
    if r.Executed? {
      var db1 := if n.config.Action? then db.(actionEvents := db.actionEvents[n.id := now / 1000]) else db;
      AdvanceTimed(db1, h.index, RunAfter(h, r), r.step, Visit(n.id, now, HoldOf(n.config, h.step.kind), false), now,
          e);
    }
  }

  lemma ResultTimed(v: Version, db: DB, h: Held, n: Node, now: int, a: Answers)
    requires Solid(v.graph) && Located(v, db) && h.run == db.run && RunMatches(db.run, h.step)
    requires FindNode(v.graph.nodes, h.step.node) == Some(n) && n.id == h.step.node
    requires Execute(v.graph, n, h.run, now, h.step.kind, a).Executed?
    ensures var r := Execute(v.graph, n, h.run, now, h.step.kind, a);
            && Agrees(RunAfter(h, r), r.step)
            && (r.step.Some? ==> r.step.value.availableAt == now + HoldOf(n.config, h.step.kind))
            && (r.status == Waiting ==> RunAfter(h, r).current == n.id)
  {
    ExecuteShape(v.graph, n, h.run, now, h.step.kind, a);
    ResultAgrees(v, db, h, n, now, a);
  }

  lemma RunNodeTimed(v: Version, db: DB, h: Held, n: Node, now: int, e: Env)
    requires Solid(v.graph) && Workable(db, h.index) && Located(v, db) && Timed(db)
    requires FindNode(v.graph.nodes, h.step.node) == Some(n) && n.id == h.step.node
    requires db.steps[h.index].status == Processing ==> Fresh(db, h)
    requires Live(db.steps[h.index]) ==> now >= Due(db.visits)
    ensures Timed(RunNode(v, db, h, n, now, e))
  {
    var a := AnswersAt(v, db, n, now, e);
    var r := Execute(v.graph, n, h.run, now, h.step.kind, a);
    if db.steps[h.index].status == Processing && r.Executed? { ResultTimed(v, db, h, n, now, a); }
    ConcludeTimed(db, h, n, now, e, r);
  }

  lemma NodeTimed(v: Version, db: DB, h: Held, n: Node, now: int, e: Env)
    requires Solid(v.graph) && Workable(db, h.index) && Located(v, db) && Timed(db) && RescheduleDelay(v, n) >= 0
    requires FindNode(v.graph.nodes, h.step.node) == Some(n) && n.id == h.step.node
    requires db.steps[h.index].status == Processing ==> Fresh(db, h)
    requires Live(db.steps[h.index]) ==> now >= Due(db.visits)
    ensures Timed(AfterNode(v, db, h, n, now, e))
  {
    var late := now - h.step.availableAt > Threshold(v);
    if late && v.latePolicy == Skip {
      SkipTimed(v, db, h, n, now, e);
    } else if late && v.latePolicy == Reschedule {
      RescheduleTimed(db, h.index, now + RescheduleDelay(v, n), now, e);
    } else {
      RunNodeTimed(v, db, h, n, now, e);
      assert AfterNode(v, db, h, n, now, e) == RunNode(v, db, h, n, now, e);
    }
  }

  lemma SkipTimed(v: Version, db: DB, h: Held, n: Node, now: int, e: Env)
    requires Workable(db, h.index) && Timed(db)
    requires db.steps[h.index].status == Processing ==> Fresh(db, h)
    requires Live(db.steps[h.index]) ==> now >= Due(db.visits)
    ensures Timed(SkipLate(v, db, h, n, now, e))
  {
    var target := FirstTarget(v.graph.edges, n.id);
    if target.Some? {
      AdvanceTimed(db, h.index, h.run.(current := target.value, status := Active),
          Some(NextStep(target.value, Advance, now)), Visit(n.id, now, 0, false), now, e);
    } else {
      AdvanceTimed(db, h.index, h.run.(status := Completed, completedAt := Some(now)), None,
          Visit(n.id, now, 0, false), now, e);
    }
  }

  lemma DelayNotNegative(v: Version, n: Node)
    requires WellFormed(v.graph) && n in v.graph.nodes && v.lateThreshold >= 0
    ensures RescheduleDelay(v, n) >= 0
  {
    var i :| 0 <= i < |v.graph.nodes| && v.graph.nodes[i] == n;
    assert ValidConfig(v.graph.nodes[i].config);
  }

  lemma ProcessTimed(v: Version, db: DB, e: Env)
    requires Solid(v.graph) && Inv(v, db) && Timed(db) && db.held.Some?
    requires forall n :: n in v.graph.nodes ==> RescheduleDelay(v, n) >= 0
    ensures Timed(AfterProcess(v, db, e))
  {
    hide AfterProcess, AfterNode;
    HeldIsWorkable(v, db);
    var h := db.held.value;
    var now, db0 := h.claimedAt + e.elapsed, db.(held := None);
    var found, p := FindNode(v.graph.nodes, h.step.node), (d: DB) => Timed(d);
    if e.loadFails || found.None? {
      FailTimed(db0, h.index, now, e);
      ProcessAsFail(v, db, e, h, p);
    } else {
      FindNodeExact(v.graph.nodes, h.step.node);
      NodeTimed(v, db0, h, found.value, now, e);
      ProcessAsNode(v, db, e, h, found.value, p);
    }
    assert p(AfterProcess(v, db, e));
  }

  lemma OthersTimed(v: Version, db: DB, op: Op)
    requires Token(db) && HeldOk(db) && Timed(db) && !op.Process? && !op.Retry?
    ensures Timed(After(v, db, op))
  {
    if op.Wake? && db.run.status == Waiting {
      Extend(db.visits, Visit(db.run.current, op.now, 0, true));
    }
  }

  lemma TimedStep(v: Version, db: DB, op: Op)
    requires WellFormed(v.graph) && v.lateThreshold >= 0 && Inv(v, db) && Timed(db) && !op.Retry?
    ensures Timed(After(v, db, op))
  {
    if !op.Process? {
      OthersTimed(v, db, op);
    } else if db.held.Some? {
      WellFormedIsSolid(v.graph);
      forall m | m in v.graph.nodes ensures RescheduleDelay(v, m) >= 0 { DelayNotNegative(v, m); }
      ProcessTimed(v, db, op.env);
    }
  }

  /** Over every run without retries by hand: delays and waits are never shortened, however often steps
      fail, are rescheduled, skipped or reclaimed, and whatever the clock reads at each claim; within one
      tick it does not go back. */
  lemma {:induction false} DelaysNeverShortened(v: Version, enrolledAt: int, ops: seq<Op>)
    requires WellFormed(v.graph) && v.lateThreshold >= 0 && NothingReopened(v, Enrolled(v, enrolledAt), ops)
    requires forall i :: 0 <= i < |ops| ==> !ops[i].Retry?
    ensures Timed(RunOps(v, Enrolled(v, enrolledAt), ops))
  {
    if ops != [] {
      var n := |ops| - 1;
      DelaysNeverShortened(v, enrolledAt, ops[..n]);
      TokenConserved(v, enrolledAt, ops[..n]);
      TimedStep(v, RunOps(v, Enrolled(v, enrolledAt), ops[..n]), ops[n]);
    }
  }

  lemma UndisturbedDelaysNeverShortened(v: Version, enrolledAt: int, ops: seq<Op>)
    requires WellFormed(v.graph) && v.lateThreshold >= 0 && Undisturbed(ops)
    ensures Timed(RunOps(v, Enrolled(v, enrolledAt), ops))
  {
    UndisturbedReopensNothing(v, enrolledAt, ops);
    DelaysNeverShortened(v, enrolledAt, ops);
  }

  // ---------------------------------------------------------------------------
  // Repeated actions

  /** Executing an action, with every other call succeeding, moves the run exactly when the store
      accepts its event: the event names an application, and it is new or reads the microsecond it was
      stored with. Otherwise the step fails. */
  lemma ActionMovesIff(v: Version, db: DB, h: Held, n: Node, now: int, e: Env)
    requires n.config == Action("profile_update") && FindNext(v.graph.edges, n.id, "").Some?
    requires Solid(v.graph) && Token(db) && h.index < |db.steps| && Fresh(db, h) && RunMatches(db.run, h.step)
    requires !e.answers.fails && !e.crashBeforeTx && !e.txFails
    ensures var db' := RunNode(v, db, h, n, now, e);
            && (db'.visits != db.visits <==>
                  v.actionApp != "" && (n.id in db.actionEvents ==> now / 1000 == db.actionEvents[n.id]))
            && (db'.visits != db.visits ==> db'.run.current == FindNext(v.graph.edges, n.id, "").value)
            && (db'.visits == db.visits ==> db' == FailStep(db, h.index, now, e))
  {
    assert !OtherBusy(db.steps, h.index);
    if !EventRefused(v, db, n, now) {
      var r := Execute(v.graph, n, h.run, now, h.step.kind, AnswersAt(v, db, n, now, e));
      assert r == Follow(v.graph, n, h.run, "", now, 0);
      FollowLinks(v.graph, n, h.run, "", now, 0);
      var vis := Visit(n.id, now, HoldOf(n.config, h.step.kind), false);
      assert RunNode(v, db, h, n, now, e).visits == db.visits + [vis];
    }
  }

  /** The run stands at an action whose event the store refuses: it names no application, or was stored
      at microsecond `at`. */
  ghost predicate Wedged(v: Version, db: DB, n: Node, at: int) {
    && FindNode(v.graph.nodes, n.id) == Some(n) && n.config.Action?
    && db.run.current == n.id && db.run.status in {Active, Canceled}
    && (v.actionApp == "" || (n.id in db.actionEvents && db.actionEvents[n.id] == at))
    && (db.held.Some? ==>
          && db.held.value.index < |db.steps|
          && db.steps[db.held.value.index].node == db.held.value.step.node)
  }

  /** The operation executes no node at that microsecond; without an application every time is such. */
  predicate AtOtherTime(v: Version, db: DB, op: Op, at: int) {
    v.actionApp != "" && op.Process? && db.held.Some? ==> (db.held.value.claimedAt + op.env.elapsed) / 1000 != at
  }

  lemma OtherNodeLeavesRun(db: DB, k: nat, run: Run, next: Option<NextStep>, vis: Visit, now: int, e: Env)
    requires k < |db.steps| && db.steps[k].node != db.run.current
    ensures var db' := AdvanceTx(db, k, run, next, vis, now, e);
            db'.run == db.run && db'.visits == db.visits && db'.held == db.held && db'.actionEvents == db.actionEvents
  {}

  lemma WedgedNode(v: Version, db: DB, h: Held, m: Node, now: int, e: Env, n: Node, at: int)
    requires Wedged(v, db, n, at) && db.held.None? && v.latePolicy != Skip && (v.actionApp != "" ==> now / 1000 != at)
    requires h.index < |db.steps| && db.steps[h.index].node == h.step.node == m.id
    requires FindNode(v.graph.nodes, m.id) == Some(m)
    ensures var db' := AfterNode(v, db, h, m, now, e);
            Wedged(v, db', n, at) && db'.held.None? && db'.visits == db.visits
  {
    if m.id == n.id {
      assert EventRefused(v, db, m, now);
    } else {
      var r := Execute(v.graph, m, h.run, now, h.step.kind, AnswersAt(v, db, m, now, e));
      if r.Executed? {
        var db1 := if m.config.Action? then db.(actionEvents := db.actionEvents[m.id := now / 1000]) else db;
        OtherNodeLeavesRun(db1, h.index, RunAfter(h, r), r.step,
            Visit(m.id, now, HoldOf(m.config, h.step.kind), false), now, e);
      }
    }
  }

  lemma WedgedProcess(v: Version, db: DB, e: Env, n: Node, at: int)
    requires Wedged(v, db, n, at) && v.latePolicy != Skip && db.held.Some? && AtOtherTime(v, db, Process(e), at)
    ensures Wedged(v, AfterProcess(v, db, e), n, at) && AfterProcess(v, db, e).visits == db.visits
  {
    hide AfterProcess, AfterNode;
    var h, db0 := db.held.value, db.(held := None);
    var found, now := FindNode(v.graph.nodes, h.step.node), h.claimedAt + e.elapsed;
    var p := (d: DB) => Wedged(v, d, n, at) && d.visits == db.visits;
    FindNodeExact(v.graph.nodes, h.step.node);
    if e.loadFails || found.None? {
      ProcessAsFail(v, db, e, h, p);
    } else {
      WedgedNode(v, db0, h, found.value, now, e, n, at);
      ProcessAsNode(v, db, e, h, found.value, p);
    }
    assert p(AfterProcess(v, db, e));
  }

  lemma WedgedStep(v: Version, db: DB, op: Op, n: Node, at: int)
    requires Wedged(v, db, n, at) && v.latePolicy != Skip && AtOtherTime(v, db, op, at)
    ensures Wedged(v, After(v, db, op), n, at) && After(v, db, op).visits == db.visits
  {
    if op.Process? && db.held.Some? { WedgedProcess(v, db, op.env, n, at); }
  }

  /** No sequence of claims, processings, crashes, wake-ups, retries and sweeps moves a wedged run: it
      stays at the action, active, until it is cancelled. */
  lemma {:induction false} WedgedForever(v: Version, db: DB, ops: seq<Op>, n: Node, at: int)
    requires Wedged(v, db, n, at) && v.latePolicy != Skip
    requires forall i :: 0 <= i < |ops| ==> AtOtherTime(v, RunOps(v, db, ops[..i]), ops[i], at)
    ensures Wedged(v, RunOps(v, db, ops), n, at) && RunOps(v, db, ops).visits == db.visits
  {
    hide After;
    if ops != [] {
      var k := |ops| - 1;
      assert forall i :: 0 <= i < k ==> ops[..k][..i] == ops[..i];
      WedgedForever(v, db, ops[..k], n, at);
      WedgedStep(v, RunOps(v, db, ops[..k]), ops[k], n, at);
    }
  }

  /** As the code stands: a run that comes to an action, with nobody holding a step, never leaves it by
      any sequence of operations, unless the version skips late steps or the run is cancelled. */
  lemma ActionNeverLeft(v: Version, db: DB, n: Node, ops: seq<Op>)
    requires v.actionApp == ACTION_APP && v.latePolicy != Skip && db.held.None?
    requires FindNode(v.graph.nodes, n.id) == Some(n) && n.config.Action?
    requires db.run.current == n.id && db.run.status == Active
    ensures var db' := RunOps(v, db, ops);
            db'.run.current == n.id && db'.run.status in {Active, Canceled} && db'.visits == db.visits
  {
    WedgedForever(v, db, ops, n, 0);
  }

  lemma CrashStoresEvent(v: Version, db: DB, h: Held, e: Env, n: Node)
    requires db.held == Some(h) && h.index < |db.steps| && h.step.node == n.id && v.latePolicy != Skip
    requires FindNode(v.graph.nodes, n.id) == Some(n) && n.config == Action("profile_update") && v.actionApp != ""
    requires FindNext(v.graph.edges, n.id, "").Some? && n.id !in db.actionEvents
    requires !e.loadFails && !e.answers.fails && e.crashBeforeTx && !(Late(v, h, e) && v.latePolicy == Reschedule)
    ensures AfterProcess(v, db, e) ==
              db.(held := None, actionEvents := db.actionEvents[n.id := (h.claimedAt + e.elapsed) / 1000])
  {
    var now := h.claimedAt + e.elapsed;
    assert AnswersAt(v, db.(held := None), n, now, e) == e.answers;
    assert Execute(v.graph, n, h.run, now, h.step.kind, e.answers) == Follow(v.graph, n, h.run, "", now, 0);
  }

  /** Were the events of actions accepted, a crash between the event and its transaction would still
      wedge the run: whatever follows, with nodes executed at other microseconds and no late-skip, it
      never leaves the action. */
  lemma CrashAfterActionWedges(v: Version, db: DB, h: Held, e: Env, n: Node, ops: seq<Op>)
    requires db.held == Some(h) && h.index < |db.steps| && h.step.node == n.id && v.latePolicy != Skip
    requires db.run.current == n.id && db.run.status == Active
    requires FindNode(v.graph.nodes, n.id) == Some(n) && n.config == Action("profile_update") && v.actionApp != ""
    requires FindNext(v.graph.edges, n.id, "").Some? && n.id !in db.actionEvents
    requires !e.loadFails && !e.answers.fails && e.crashBeforeTx && !(Late(v, h, e) && v.latePolicy == Reschedule)
    requires var crashed, at := AfterProcess(v, db, e), (h.claimedAt + e.elapsed) / 1000;
             forall i :: 0 <= i < |ops| ==> AtOtherTime(v, RunOps(v, crashed, ops[..i]), ops[i], at)
    ensures var db' := RunOps(v, AfterProcess(v, db, e), ops);
            db'.run.current == n.id && db'.run.status in {Active, Canceled} && db'.visits == db.visits
  {
    hide AfterProcess, After;
    CrashStoresEvent(v, db, h, e, n);
    WedgedForever(v, AfterProcess(v, db, e), ops, n, (h.claimedAt + e.elapsed) / 1000);
  }

  // ---------------------------------------------------------------------------
  // Action nodes over a whole run

  predicate IsAction(v: Version, id: string) {
    var n := FindNode(v.graph.nodes, id);
    n.Some? && n.value.config.Action?
  }

  /** Every step that left an action read the microsecond its event is stored with. */
  ghost predicate ActionsTimed(v: Version, db: DB) {
    forall i :: 0 < i < |db.visits| && !db.visits[i].byEvent && IsAction(v, db.visits[i].node) ==>
      && db.visits[i].node in db.actionEvents
      && db.actionEvents[db.visits[i].node] == db.visits[i].at / 1000
  }

  ghost predicate ActionInv(v: Version, db: DB) {
    db.visits != [] && ActionsTimed(v, db) && (v.actionApp == "" ==> db.actionEvents == map[])
  }

  lemma AdvanceKeepsActions(v: Version, db: DB, k: nat, run: Run, next: Option<NextStep>, vis: Visit, now: int, e: Env)
    requires k < |db.steps| && ActionInv(v, db)
    requires !vis.byEvent && IsAction(v, vis.node) ==>
               vis.node in db.actionEvents && db.actionEvents[vis.node] == vis.at / 1000
    ensures ActionInv(v, AdvanceTx(db, k, run, next, vis, now, e))
  {}

  lemma ConcludeKeepsActions(v: Version, db: DB, h: Held, n: Node, now: int, e: Env, r: Result)
    requires h.index < |db.steps| && ActionInv(v, db) && FindNode(v.graph.nodes, n.id) == Some(n)
    requires r.Executed? ==> !EventRefused(v, db, n, now)
    ensures ActionInv(v, Conclude(db, h, n, now, e, r))
  {
    if r.Executed? {
      var db1 := if n.config.Action? then db.(actionEvents := db.actionEvents[n.id := now / 1000]) else db;
      assert ActionInv(v, db1);
      AdvanceKeepsActions(v, db1, h.index, RunAfter(h, r), r.step,
          Visit(n.id, now, HoldOf(n.config, h.step.kind), false), now, e);
    }
  }

  lemma NodeKeepsActions(v: Version, db: DB, h: Held, n: Node, now: int, e: Env)
    requires h.index < |db.steps| && ActionInv(v, db) && v.latePolicy != Skip
    requires FindNode(v.graph.nodes, n.id) == Some(n)
    ensures ActionInv(v, AfterNode(v, db, h, n, now, e))
  {
    var r := Execute(v.graph, n, h.run, now, h.step.kind, AnswersAt(v, db, n, now, e));
    ConcludeKeepsActions(v, db, h, n, now, e, r);
  }

  lemma ProcessKeepsActions(v: Version, db: DB, e: Env)
    requires ActionInv(v, db) && v.latePolicy != Skip && db.held.Some? && db.held.value.index < |db.steps|
    ensures ActionInv(v, AfterProcess(v, db, e))
  {
    hide AfterProcess, AfterNode;
    var h, db0 := db.held.value, db.(held := None);
    var found, p := FindNode(v.graph.nodes, h.step.node), (d: DB) => ActionInv(v, d);
    FindNodeExact(v.graph.nodes, h.step.node);
    if e.loadFails || found.None? {
      ProcessAsFail(v, db, e, h, p);
    } else {
      NodeKeepsActions(v, db0, h, found.value, h.claimedAt + e.elapsed, e);
      ProcessAsNode(v, db, e, h, found.value, p);
    }
    assert p(AfterProcess(v, db, e));
  }

  lemma {:induction false} RunKeepsActions(v: Version, enrolledAt: int, ops: seq<Op>)
    requires v.latePolicy != Skip
    ensures ActionInv(v, RunOps(v, Enrolled(v, enrolledAt), ops))
  {
    if ops != [] {
      var n := |ops| - 1;
      RunKeepsActions(v, enrolledAt, ops[..n]);
      var db := RunOps(v, Enrolled(v, enrolledAt), ops[..n]);
      if ops[n].Process? && db.held.Some? && db.held.value.index < |db.steps| {
        ProcessKeepsActions(v, db, ops[n].env);
      }
    }
  }

  /** Without late-skip, over every sequence of operations: all steps that leave one action read one
      microsecond, so a cycle through an action is never passed twice at different times; and as the
      code stands no step ever leaves an action. */
  lemma ActionLeftAtOneTime(v: Version, enrolledAt: int, ops: seq<Op>, i: nat, j: nat)
    requires v.latePolicy != Skip
    requires var visits := RunOps(v, Enrolled(v, enrolledAt), ops).visits;
             && 0 < i < |visits| && 0 < j < |visits| && visits[i].node == visits[j].node
             && IsAction(v, visits[i].node) && !visits[i].byEvent && !visits[j].byEvent
    ensures var visits := RunOps(v, Enrolled(v, enrolledAt), ops).visits;
            visits[i].at / 1000 == visits[j].at / 1000 && v.actionApp != ACTION_APP
  {
    RunKeepsActions(v, enrolledAt, ops);
  }
}
