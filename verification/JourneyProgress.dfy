/** What successful ticks achieve: each moves the run, unless the store refuses the event of an action,
    and on a graph without cycles they bring it to an exit within a bound. */
module JourneyProgress {
  import opened Common
  import opened JourneyGraph
  import opened JourneyNodes
  import opened JourneyRuntime
  import opened JourneyRuns
  import opened JourneyTiming

  /** The run's step is due, every store call succeeds, and the late policy does not put the step off. */
  ghost predicate Smooth(v: Version, db: DB, now: int, e: Env) {
    && db.held.None? && db.steps != [] && Claimable(db, |db.steps| - 1, now)
    && Works(e)
    && !(v.latePolicy == Reschedule && now + e.elapsed - db.steps[|db.steps| - 1].availableAt > Threshold(v))
  }

  /** A claim of the newest step and its processing. */
  function Tick(v: Version, db: DB, now: int, e: Env): DB
    requires db.steps != []
  {
    After(v, After(v, db, Claim(|db.steps| - 1, now, true)), Process(e))
  }

  /** The run has completed at an exit, has begun to wait, or has followed an edge. */
  ghost predicate Moved(g: Graph, before: Run, after: Run) {
    || (AtExit(g, before.current) && after.status == Completed && after.current == before.current)
    || (before.status == Active && after.status == Waiting && after.current == before.current)
    || (after.status == Active && Linked(g.edges, before.current, after.current))
  }

  /** Nobody holds a step, and a run that has not ended waits for a step with all its attempts. */
  ghost predicate Idle(db: DB) {
    && db.held.None? && db.steps != []
    && (db.run.status in {Active, Waiting} ==>
          db.steps[|db.steps| - 1].status == Pending && db.steps[|db.steps| - 1].attempts == 0)
  }

  /** The run has moved once, and no action but that of a node it left by an edge has been recorded. */
  ghost predicate Progress(g: Graph, before: DB, db: DB) {
    && Idle(db) && Moved(g, before.run, db.run) && |db.visits| == |before.visits| + 1
    && forall id :: id in db.actionEvents ==>
         id in before.actionEvents || (id == before.run.current && db.run.status == Active)
  }

  predicate Stays(before: DB, db: DB) {
    db.run == before.run && db.visits == before.visits
  }

  /** A worker has the run's step in hand, and `n` is its node. */
  ghost predicate InHand(v: Version, db: DB, h: Held, n: Node) {
    && n in v.graph.nodes && FindNode(v.graph.nodes, n.id) == Some(n) && n.id == h.step.node
    && db.held.None? && h.index < |db.steps| && !OtherBusy(db.steps, h.index)
    && Fresh(db, h) && RunMatches(db.run, h.step) && (db.run.status == Waiting ==> n.config.WaitEvent?)
  }

  predicate Works(e: Env) {
    !e.loadFails && !e.answers.fails && !e.crashBeforeTx && !e.txFails
  }

  lemma AdvanceMoves(db: DB, k: nat, run: Run, next: Option<NextStep>, vis: Visit, now: int, e: Env)
    requires k < |db.steps| && db.steps[k].status == Processing && RunMatches(db.run, db.steps[k]) && !e.txFails
    requires !OtherBusy(db.steps, k)
    ensures var db' := AdvanceTx(db, k, run, next, vis, now, e);
            && db'.run == run && db'.actionEvents == db.actionEvents && |db'.visits| == |db.visits| + 1
            && (db.held.None? && (run.status in {Active, Waiting} ==> next.Some?) ==> Idle(db'))
  {}

  lemma SkipMoves(v: Version, db: DB, h: Held, n: Node, now: int, e: Env)
    requires OnlyExitsEnd(v.graph) && InHand(v, db, h, n) && Works(e)
    ensures Progress(v.graph, db, SkipLate(v, db, h, n, now, e))
  {
    FirstTargetExact(v.graph.edges, n.id);
  }

  lemma NodesAreNamed(g: Graph, n: Node)
    requires Runnable(g) && n in g.nodes
    ensures n.id != "" && forall b | Linked(g.edges, n.id, b) :: b != ""
  {
    var k :| 0 <= k < |g.nodes| && g.nodes[k] == n;
    WellFormedIsSolid(g);
  }

  lemma RunMoves(v: Version, db: DB, h: Held, n: Node, now: int, e: Env)
    requires Runnable(v.graph) && InHand(v, db, h, n) && Works(e) && !EventRefused(v, db, n, now)
    ensures Progress(v.graph, db, RunNode(v, db, h, n, now, e))
  {
    hide Runnable, AdvanceTx, Execute;
    var a := AnswersAt(v, db, n, now, e);
    assert a == e.answers;
    var k :| 0 <= k < |v.graph.nodes| && v.graph.nodes[k] == n;
    NodesAreNamed(v.graph, n);
    ExecuteProgresses(v.graph, k, h.run, now, h.step.kind, a);
    var r := Execute(v.graph, n, h.run, now, h.step.kind, a);
    if r.status != Completed && r.next != n.id { assert Linked(v.graph.edges, n.id, r.next); }
    var db1 := if n.config.Action? then db.(actionEvents := db.actionEvents[n.id := now / 1000]) else db;
    AdvanceMoves(db1, h.index, RunAfter(h, r), r.step, Visit(n.id, now, HoldOf(n.config, h.step.kind), false), now, e);
  }

  lemma RefusedStays(v: Version, db: DB, h: Held, n: Node, now: int, e: Env)
    requires h.index < |db.steps| && EventRefused(v, db, n, now)
    ensures Stays(db, RunNode(v, db, h, n, now, e))
  {}

  /** The processing skips the step as late. */
  predicate Skipped(v: Version, now: int, availableAt: int) {
    v.latePolicy == Skip && now - availableAt > Threshold(v)
  }

  /** What the claim of a due step leaves behind. */
  ghost predicate Claimed(v: Version, db: DB, e: Env) {
    && Inv(v, db) && db.held.Some?
    && Fresh(db.(held := None), db.held.value) && RunMatches(db.run, db.held.value.step)
    && !(v.latePolicy == Reschedule && Late(v, db.held.value, e))
  }

  lemma RunnableIsSolid(g: Graph)
    requires Runnable(g)
    ensures Solid(g)
  {
    WellFormedIsSolid(g);
  }

  lemma ClaimIsFresh(v: Version, db: DB, now: int, e: Env)
    requires Solid(v.graph) && Inv(v, db) && Smooth(v, db, now, e)
    ensures var db1 := After(v, db, Claim(|db.steps| - 1, now, true));
            && Claimed(v, db1, e) && db1.run == db.run && db1.actionEvents == db.actionEvents && db1.visits == db.visits
            && db1.held.value.claimedAt == now
            && db1.held.value.step.availableAt == db.steps[|db.steps| - 1].availableAt
  {
    InvStep(v, db, Claim(|db.steps| - 1, now, true));
  }

  lemma NodeMoves(v: Version, db: DB, h: Held, n: Node, now: int, e: Env)
    requires Runnable(v.graph) && OnlyExitsEnd(v.graph) && InHand(v, db, h, n) && Works(e)
    requires !(v.latePolicy == Reschedule && now - h.step.availableAt > Threshold(v))
    ensures var db' := AfterNode(v, db, h, n, now, e);
            if Skipped(v, now, h.step.availableAt) || !EventRefused(v, db, n, now)
            then Progress(v.graph, db, db') else Stays(db, db')
  {
    if Skipped(v, now, h.step.availableAt) {
      SkipMoves(v, db, h, n, now, e);
    } else {
      assert AfterNode(v, db, h, n, now, e) == RunNode(v, db, h, n, now, e);
      if EventRefused(v, db, n, now) { RefusedStays(v, db, h, n, now, e); } else { RunMoves(v, db, h, n, now, e); }
    }
  }

  /** The node of the held step is the run's node in the graph. */
  lemma HeldInHand(v: Version, db: DB, e: Env) returns (n: Node)
    requires Claimed(v, db, e)
    ensures FindNode(v.graph.nodes, db.run.current) == Some(n) && db.held.value.step.node == db.run.current
    ensures InHand(v, db.(held := None), db.held.value, n)
  {
    FindNodeExact(v.graph.nodes, db.run.current);
    n := FindNode(v.graph.nodes, db.run.current).value;
  }

  /** The tick moves or keeps the run as the node and the time decide. */
  ghost predicate Outcome(v: Version, before: DB, passes: bool, db: DB) {
    if passes then Progress(v.graph, before, db) else Stays(before, db)
  }

  lemma ProcessMoves(v: Version, db: DB, e: Env, n: Node)
    requires Runnable(v.graph) && Claimed(v, db, e) && Works(e)
    requires FindNode(v.graph.nodes, db.run.current) == Some(n)
    ensures var now := db.held.value.claimedAt + e.elapsed;
            var passes := Skipped(v, now, db.held.value.step.availableAt) || !EventRefused(v, db, n, now);
            Outcome(v, db, passes, AfterProcess(v, db, e))
  {
    hide AfterProcess, AfterNode, Runnable, OnlyExitsEnd, InHand, Inv, FindNode;
    var h, db0 := db.held.value, db.(held := None);
    var now := h.claimedAt + e.elapsed;
    var m := HeldInHand(v, db, e);
    RunnableEndsAtExits(v.graph);
    NodeMoves(v, db0, h, n, now, e);
    var passes := Skipped(v, now, h.step.availableAt) || !EventRefused(v, db, n, now);
    var p := (d: DB) => Outcome(v, db, passes, d);
    ProcessAsNode(v, db, e, h, n, p);
    assert p(AfterProcess(v, db, e));
  }

  /** The run's node is no action, or the store accepts its event now, or the step is skipped as late. */
  predicate Passes(v: Version, db: DB, now: int, e: Env)
    requires db.steps != []
  {
    var n := FindNode(v.graph.nodes, db.run.current);
    && n.Some?
    && (|| Skipped(v, now + e.elapsed, db.steps[|db.steps| - 1].availableAt)
        || !EventRefused(v, db, n.value, now + e.elapsed))
  }

  /** On every runnable graph, in every state the invariant allows, a tick whose store calls succeed
      moves the run if and only if its node is no action, or the event of the action is accepted at that
      time, or the step is skipped as late; otherwise the run stays as it is. */
  lemma TickMovesIff(v: Version, db: DB, now: int, e: Env)
    requires Runnable(v.graph) && Inv(v, db) && Smooth(v, db, now, e)
    ensures var db' := Tick(v, db, now, e);
            && Inv(v, db') && (db'.visits != db.visits <==> Passes(v, db, now, e))
            && Outcome(v, db, Passes(v, db, now, e), db')
  {
    RunnableIsSolid(v.graph);
    hide AfterProcess, AfterClaim, Runnable, Moved, FindNode;
    ClaimIsFresh(v, db, now, e);
    var db1 := After(v, db, Claim(|db.steps| - 1, now, true));
    var n := HeldInHand(v, db1, e);
    ProcessMoves(v, db1, e, n);
    InvStep(v, db1, Process(e));
  }

  // ---------------------------------------------------------------------------
  // Graphs without cycles

  /** Every edge goes down. */
  ghost predicate Ranked(g: Graph, rank: string -> nat) {
    forall e :: e in g.edges ==> rank(e.dst) < rank(e.src)
  }

  /** How many successful ticks a run can still take: two for a node, since a wait takes one to begin. */
  function Remaining(db: DB, rank: string -> nat): nat {
    match db.run.status
    case Active => 2 * rank(db.run.current) + 2
    case Waiting => 2 * rank(db.run.current) + 1
    case _ => 0
  }

  datatype Moment = Moment(now: int, env: Env)

  function Ticks(v: Version, db: DB, ms: seq<Moment>): DB
    decreases |ms|
  {
    if ms == [] || db.steps == [] then db else Ticks(v, Tick(v, db, ms[0].now, ms[0].env), ms[1..])
  }

  ghost predicate AllSmooth(v: Version, db: DB, ms: seq<Moment>)
    decreases |ms|
  {
    ms == [] || (Smooth(v, db, ms[0].now, ms[0].env) && AllSmooth(v, Tick(v, db, ms[0].now, ms[0].env), ms[1..]))
  }

  /** Only nodes above the run's have run their action. */
  ghost predicate ActionsAbove(db: DB, rank: string -> nat) {
    forall id :: id in db.actionEvents ==> rank(id) > rank(db.run.current)
  }

  lemma MoveDescends(v: Version, db: DB, db': DB, rank: string -> nat)
    requires Ranked(v.graph, rank) && ActionsAbove(db, rank) && db.run.status in {Active, Waiting}
    requires Progress(v.graph, db, db')
    ensures Remaining(db', rank) < Remaining(db, rank) && ActionsAbove(db', rank)
  {
    if Linked(v.graph.edges, db.run.current, db'.run.current) {
      var e :| e in v.graph.edges && e.src == db.run.current && e.dst == db'.run.current;
    }
  }

  /** The store accepts the events of actions, or there are none. As the code stands they are refused. */
  ghost predicate ActionsAccepted(v: Version) {
    v.actionApp != "" || forall n :: n in v.graph.nodes ==> !n.config.Action?
  }

  lemma DescentPasses(v: Version, db: DB, now: int, e: Env, rank: string -> nat)
    requires Inv(v, db) && ActionsAccepted(v) && ActionsAbove(db, rank) && db.steps != []
    ensures Passes(v, db, now, e)
  {
    FindNodeExact(v.graph.nodes, db.run.current);
  }

  lemma {:induction false} TicksDescend(v: Version, db: DB, ms: seq<Moment>, rank: string -> nat)
    requires Runnable(v.graph) && Ranked(v.graph, rank) && ActionsAccepted(v)
    requires Inv(v, db) && Idle(db) && ActionsAbove(db, rank) && EndsAtExit(v, db) && AllSmooth(v, db, ms)
    ensures var db' := Ticks(v, db, ms);
            && Inv(v, db') && Idle(db') && EndsAtExit(v, db')
            && Remaining(db', rank) + |ms| <= Remaining(db, rank)
            && (db.run.status != Canceled ==> db'.run.status != Canceled)
    decreases |ms|
  {
    if ms != [] {
      var db1 := Tick(v, db, ms[0].now, ms[0].env);
      TickMovesIff(v, db, ms[0].now, ms[0].env);
      DescentPasses(v, db, ms[0].now, ms[0].env, rank);
      MoveDescends(v, db, db1, rank);
      TicksDescend(v, db1, ms[1..], rank);
    }
  }

  /** A moment at which the next tick succeeds: any time the step is due, unless it is put off as late. */
  ghost predicate Calm(v: Version, db: DB, m: Moment)
    requires db.steps != []
  {
    var due := db.steps[|db.steps| - 1].availableAt;
    && due <= m.now && (v.latePolicy == Reschedule ==> m.now + m.env.elapsed - due <= Threshold(v))
    && Works(m.env)
  }

  /** A run that has not ended can always be moved on. */
  lemma IdleCanGoOn(v: Version, db: DB, m: Moment)
    requires Inv(v, db) && Idle(db) && db.run.status in {Active, Waiting} && Calm(v, db, m)
    ensures Smooth(v, db, m.now, m.env)
  {}

  /** A journey without cycles ends: successful ticks bring a run to an exit within twice the rank of
      the entry plus two, and until then the run is never stuck. */
  lemma {:induction false} AcyclicJourneysEnd(v: Version, enrolledAt: int, ms: seq<Moment>, rank: string -> nat)
    requires Runnable(v.graph) && Ranked(v.graph, rank) && ActionsAccepted(v)
    requires AllSmooth(v, Enrolled(v, enrolledAt), ms)
    ensures var db := Ticks(v, Enrolled(v, enrolledAt), ms);
            && |ms| <= 2 * rank(v.graph.entryNodeID) + 2 && db.steps != []
            && (if db.run.status == Completed then AtExit(v.graph, db.run.current)
                else
                  && |ms| < 2 * rank(v.graph.entryNodeID) + 2
                  && forall m :: Calm(v, db, m) ==> Smooth(v, db, m.now, m.env))
  {
    EnrolledInv(v, enrolledAt);
    TicksDescend(v, Enrolled(v, enrolledAt), ms, rank);
    var db := Ticks(v, Enrolled(v, enrolledAt), ms);
    if db.run.status != Completed {
      forall m | Calm(v, db, m) ensures Smooth(v, db, m.now, m.env) { IdleCanGoOn(v, db, m); }
    }
  }
}
