/** What every run of a journey keeps, over every sequence of claims, processings, crashes, lost
    writes, wake-ups, cancellations and retries. */
module JourneyRuns {
  import opened Common
  import opened JourneyGraph
  import opened JourneyValidate
  import opened JourneyNodes
  import opened JourneyRuntime

  // ---------------------------------------------------------------------------
  // Graph facts

  lemma {:induction false} FindNodeExact(nodes: seq<Node>, id: string)
    ensures var r := FindNode(nodes, id);
            && (r.Some? ==> r.value in nodes && r.value.id == id)
            && (r.None? ==> !HasID(nodes, id))
  {
    if nodes != [] {
      FindNodeExact(nodes[1..], id);
      assert nodes == [nodes[0]] + nodes[1..];
    }
  }

  lemma {:induction false} FirstTargetExact(edges: seq<Edge>, id: string)
    ensures var r := FirstTarget(edges, id);
            && (r.Some? ==> Linked(edges, id, r.value))
            && (r.None? ==> Outgoing(edges, id) == [])
  {
    if edges != [] {
      FirstTargetExact(edges[1..], id);
      assert edges == [edges[0]] + edges[1..];
      assert edges[0] in edges && forall e :: e in edges[1..] ==> e in edges;
      if FirstTarget(edges, id).None? && Outgoing(edges, id) != [] {
        var e := Outgoing(edges, id)[0];
        OutgoingExact(edges, id, e);
        OutgoingExact(edges[1..], id, e);
      }
    }
  }

  lemma TargetIsNode(g: Graph, a: string, b: string)
    requires WellFormed(g) && Linked(g.edges, a, b)
    ensures b != "" && HasID(g.nodes, b)
  {
    var e :| e in g.edges && e.src == a && e.dst == b;
    var i :| 0 <= i < |g.edges| && g.edges[i] == e;
    assert HasID(g.nodes, g.edges[i].dst);
  }

  /** What the runs need of an accepted graph. */
  ghost predicate Solid(g: Graph) {
    && (forall a, b | Linked(g.edges, a, b) :: b != "" && HasID(g.nodes, b))
    && (forall id | FindNode(g.nodes, id).Some? :: id != "")
  }

  lemma WellFormedIsSolid(g: Graph)
    requires WellFormed(g)
    ensures Solid(g)
  {
    forall a, b | Linked(g.edges, a, b)
      ensures b != "" && HasID(g.nodes, b)
    {
      TargetIsNode(g, a, b);
    }
    forall id | FindNode(g.nodes, id).Some?
      ensures id != ""
    {
      FindNodeExact(g.nodes, id);
      var i :| 0 <= i < |g.nodes| && g.nodes[i] == FindNode(g.nodes, id).value;
    }
  }

  lemma FollowLinks(g: Graph, n: Node, run: Run, branch: string, now: int, delay: int)
    requires Follow(g, n, run, branch, now, delay).Executed?
    ensures Linked(g.edges, n.id, Follow(g, n, run, branch, now, delay).next)
  {
    FindNextExact(g.edges, n.id, branch);
    assert Edge(n.id, FindNext(g.edges, n.id, branch).value, branch) in g.edges;
  }

  /** The run status and step kind a claim allows. */
  ghost predicate InStep(run: Run, kind: Kind, n: Node) {
    (run.status == Active && kind == Advance) || (run.status == Waiting && kind == Timeout && n.config.WaitEvent?)
  }

  /** Whatever the store answers, on any graph: an execution ends the run at an exit, waits where it
      is, or goes along an edge; the next step waits out the node's hold time. */
  ghost predicate Shaped(g: Graph, n: Node, r: Result, now: int, kind: Kind)
    requires r.Executed?
  {
    if r.step.None? then r.status == Completed && r.next == "" && n.config.Exit?
    else
      && r.step.value.node == r.next
      && r.step.value.availableAt == now + HoldOf(n.config, kind)
      && (if n.config.WaitEvent? && kind == Advance
          then r.status == Waiting && r.step.value.kind == Timeout && r.next == n.id
          else r.status == Active && r.step.value.kind == Advance && Linked(g.edges, n.id, r.next))
  }

  lemma ExecuteShape(g: Graph, n: Node, run: Run, now: int, kind: Kind, a: Answers)
    requires InStep(run, kind, n) && Execute(g, n, run, now, kind, a).Executed?
    ensures Shaped(g, n, Execute(g, n, run, now, kind, a), now, kind)
  {
    var r := Execute(g, n, run, now, kind, a);
    match n.config {
      case Exit =>
      case WaitEvent(_, _) => if kind == Timeout { FollowLinks(g, n, run.(status := Active), "timeout", now, 0); }
      case Goal => FollowLinks(g, n, run.(goalReached := true), "", now, 0);
      case Condition => FollowLinks(g, n, run, if a.matched then "true" else "false", now, 0);
      case Split(_, _, _) => FollowLinks(g, n, run, SplitChoice(n.config, a).value, now, 0);
      case AIDecision(_, _, _, options, fallback) =>
          FollowLinks(g, n, run, Declared(options, fallback, a.reply), now, 0);
      case Extension(_, _, _, options, fallback) =>
          FollowLinks(g, n, run, Declared(options, fallback, a.reply), now, 0);
      case FeatureFlag(_) => FollowLinks(g, n, run, if a.flagVariant == "" then "default" else a.flagVariant, now, 0);
      case _ => FollowLinks(g, n, run, "", now, HoldTime(n.config));
    }
  }

  // ---------------------------------------------------------------------------
  // The token

  /** While the run is active or waiting, its newest step is the one token: live or in the dead-letter
      queue, at the run's node and of the kind its status calls for. No older step is live, and after
      the end of the run none is. */
  ghost predicate Token(db: DB) {
    var n := |db.steps| - 1;
    && n >= 0
    && (forall j :: 0 <= j < n ==> !Live(db.steps[j]))
    && (if db.run.status in {Active, Waiting}
        then (Live(db.steps[n]) || db.steps[n].status == Dead) && RunMatches(db.run, db.steps[n])
        else db.steps[n].status in {Finished, Deleted})
  }

  /** The held step is untouched since its claim, or something else has closed or requeued it meanwhile. */
  ghost predicate HeldOk(db: DB) {
    db.held.Some? ==>
      var h := db.held.value;
      && h.index < |db.steps| && db.steps[h.index].status != Dead
      && (db.steps[h.index].status == Finished ==> h.index < |db.steps| - 1)
      && (db.steps[h.index].status == Processing ==> Fresh(db, h))
  }

  ghost predicate Fresh(db: DB, h: Held) {
    h.index == |db.steps| - 1 && db.steps[h.index] == h.step && h.run == db.run && h.step.status == Processing
  }

  /** The run stands at a node of the graph that is reachable from the entry, at a wait_event when it
      waits. */
  ghost predicate Located(v: Version, db: DB) {
    && HasID(v.graph.nodes, db.run.current)
    && Reachable(v.graph.edges, v.graph.entryNodeID, db.run.current)
    && (db.run.status == Waiting ==>
          var n := FindNode(v.graph.nodes, db.run.current);
          n.Some? && n.value.config.WaitEvent?)
  }

  ghost predicate Inv(v: Version, db: DB) {
    Token(db) && HeldOk(db) && Located(v, db)
  }

  predicate Late(v: Version, h: Held, e: Env) {
    h.claimedAt + e.elapsed - h.step.availableAt > Threshold(v)
  }

  /** Processing the held step puts it back as late. */
  predicate Requeues(v: Version, db: DB, h: Held, e: Env) {
    && !e.loadFails && FindNode(v.graph.nodes, h.step.node).Some?
    && Late(v, h, e) && v.latePolicy == Reschedule && !e.txFails && !OtherBusy(db.steps, h.index)
  }

  /** Processing the held step ends in FailJourneyStep, when the step has been finished meanwhile. */
  predicate Fails(v: Version, db: DB, h: Held, e: Env) {
    var found, now := FindNode(v.graph.nodes, h.step.node), h.claimedAt + e.elapsed;
    || e.loadFails || found.None?
    || (if Late(v, h, e) && v.latePolicy == Skip then e.txFails
        else if Late(v, h, e) && v.latePolicy == Reschedule then e.txFails || OtherBusy(db.steps, h.index)
        else
          || Execute(v.graph, found.value, h.run, now, h.step.kind, AnswersAt(v, db, found.value, now, e)).ExecError?
          || (!e.crashBeforeTx && e.txFails))
  }

  /** The writes that look at no status. Failing or rescheduling a held step that an event has finished
      meanwhile, and retrying a superseded or finished step that the index lets through. */
  predicate Reopens(v: Version, db: DB, op: Op) {
    match op
    case Process(e) =>
      && db.held.Some? && db.held.value.index < |db.steps|
      && var s := db.steps[db.held.value.index];
      && s.status == Finished
      && (|| Requeues(v, db, db.held.value, e)
          || (Fails(v, db, db.held.value, e) && !e.writeFails && s.attempts < MAX_ATTEMPTS))
    case Retry(k, _) =>
      && k < |db.steps| && db.steps[k].status != Deleted && !OtherBusy(db.steps, k)
      && (k < |db.steps| - 1 || db.steps[k].status == Finished)
    case _ => false
  }

  /** What a store transaction on step `k` leaves behind: the invariant, unless it reopened the step. */
  ghost predicate Keeps(v: Version, db: DB, db': DB, k: nat) {
    && k < |db.steps| && k < |db'.steps| && db'.held.None?
    && (Live(db.steps[k]) || !Live(db'.steps[k]) ==> Token(db') && Located(v, db'))
  }

  /** Step `k` may be worked on: it is the token, or closed and superseded, or deleted. */
  ghost predicate Workable(db: DB, k: nat) {
    && k < |db.steps| && db.steps[k].status != Dead && db.held.None? && Token(db)
    && (Live(db.steps[k]) ==> k == |db.steps| - 1)
    && (db.steps[k].status == Finished ==> k < |db.steps| - 1)
  }

  lemma FailKeeps(v: Version, db: DB, k: nat, now: int, e: Env)
    requires Workable(db, k) && Located(v, db)
    ensures Keeps(v, db, FailStep(db, k, now, e), k)
  {}

  lemma RescheduleKeeps(v: Version, db: DB, k: nat, at: int, now: int, e: Env)
    requires Workable(db, k) && Located(v, db)
    ensures Keeps(v, db, RescheduleStep(db, k, at, now, e), k)
  {
    FailKeeps(v, db, k, now, e);
  }

  /** The run and its next step agree. */
  ghost predicate Agrees(run: Run, next: Option<NextStep>) {
    if next.None? then run.status == Completed
    else
      && next.value.node == run.current
      && ((run.status == Active && next.value.kind == Advance) || (run.status == Waiting && next.value.kind == Timeout))
  }

  lemma AdvanceKeeps(v: Version, db: DB, k: nat, run: Run, next: Option<NextStep>, vis: Visit, now: int, e: Env)
    requires Workable(db, k) && Located(v, db)
    requires db.steps[k].status == Processing ==> Agrees(run, next) && Located(v, db.(run := run))
    ensures Keeps(v, db, AdvanceTx(db, k, run, next, vis, now, e), k)
  {
    FailKeeps(v, db, k, now, e);
  }

  lemma MoveLocates(v: Version, db: DB, run: Run)
    requires Solid(v.graph) && Located(v, db) && run.status != Waiting
    requires run.current == db.run.current || Linked(v.graph.edges, db.run.current, run.current)
    ensures Located(v, db.(run := run))
  {
    if run.current != db.run.current {
      var e :| e in v.graph.edges && e.src == db.run.current && e.dst == run.current;
      ReachableStep(v.graph.edges, v.graph.entryNodeID, db.run.current, e);
    }
  }

  lemma SkipKeeps(v: Version, db: DB, h: Held, n: Node, now: int, e: Env)
    requires Solid(v.graph) && Workable(db, h.index) && Located(v, db) && n.id == h.step.node
    requires db.steps[h.index].status == Processing ==> Fresh(db, h)
    ensures Keeps(v, db, SkipLate(v, db, h, n, now, e), h.index)
  {
    FirstTargetExact(v.graph.edges, n.id);
    var target := FirstTarget(v.graph.edges, n.id);
    var run := if target.Some? then h.run.(current := target.value, status := Active)
               else h.run.(status := Completed, completedAt := Some(now));
    var next := if target.Some? then Some(NextStep(target.value, Advance, now)) else None;
    if db.steps[h.index].status == Processing { MoveLocates(v, db, run); }
    AdvanceKeeps(v, db, h.index, run, next, Visit(n.id, now, 0, false), now, e);
  }

  lemma ResultAgrees(v: Version, db: DB, h: Held, n: Node, now: int, a: Answers)
    requires Solid(v.graph) && Located(v, db) && h.run == db.run && RunMatches(db.run, h.step)
    requires FindNode(v.graph.nodes, h.step.node) == Some(n) && n.id == h.step.node
    requires Execute(v.graph, n, h.run, now, h.step.kind, a).Executed?
    ensures var r := Execute(v.graph, n, h.run, now, h.step.kind, a);
            Agrees(RunAfter(h, r), r.step) && Located(v, db.(run := RunAfter(h, r)))
  {
    var r := Execute(v.graph, n, h.run, now, h.step.kind, a);
    ExecuteShape(v.graph, n, h.run, now, h.step.kind, a);
    if r.step.None? {
      MoveLocates(v, db, RunAfter(h, r));
    } else if r.status == Active {
      MoveLocates(v, db, RunAfter(h, r));
    } else {
      assert n.id != "";
    }
  }

  lemma ConcludeKeeps(v: Version, db: DB, h: Held, n: Node, now: int, e: Env, r: Result)
    requires Workable(db, h.index) && Located(v, db)
    requires db.steps[h.index].status == Processing && r.Executed? ==>
               Agrees(RunAfter(h, r), r.step) && Located(v, db.(run := RunAfter(h, r)))
    ensures Keeps(v, db, Conclude(db, h, n, now, e, r), h.index)
  {
    FailKeeps(v, db, h.index, now, e);
    if r.Executed? {
      var db1 := if n.config.Action? then db.(actionEvents := db.actionEvents[n.id := now / 1000]) else db;
      AdvanceKeeps(v, db1, h.index, RunAfter(h, r), r.step, Visit(n.id, now, HoldOf(n.config, h.step.kind), false),
          now, e);
    }
  }

  lemma NodeKeeps(v: Version, db: DB, h: Held, n: Node, now: int, e: Env)
    requires Solid(v.graph) && Workable(db, h.index) && Located(v, db)
    requires FindNode(v.graph.nodes, h.step.node) == Some(n) && n.id == h.step.node
    requires db.steps[h.index].status == Processing ==> Fresh(db, h)
    ensures Keeps(v, db, AfterNode(v, db, h, n, now, e), h.index)
  {
    if now - h.step.availableAt > Threshold(v) && v.latePolicy == Skip {
      SkipKeeps(v, db, h, n, now, e);
    } else if now - h.step.availableAt > Threshold(v) && v.latePolicy == Reschedule {
      RescheduleKeeps(v, db, h.index, now + RescheduleDelay(v, n), now, e);
    } else {
      var a := AnswersAt(v, db, n, now, e);
      var r := Execute(v.graph, n, h.run, now, h.step.kind, a);
      if db.steps[h.index].status == Processing && r.Executed? { ResultAgrees(v, db, h, n, now, a); }
      ConcludeKeeps(v, db, h, n, now, e, r);
      assert AfterNode(v, db, h, n, now, e) == Conclude(db, h, n, now, e, r);
    }
  }

  lemma HeldIsWorkable(v: Version, db: DB)
    requires Inv(v, db) && db.held.Some?
    ensures var h, db0 := db.held.value, db.(held := None);
            && Workable(db0, h.index) && Located(v, db0)
            && (db0.steps[h.index].status == Processing ==> Fresh(db0, h))
  {}

  /** Processing a held step fails it or goes on to its node; what holds of that outcome holds of the
      processing. */
  lemma ProcessAsFail(v: Version, db: DB, e: Env, h: Held, p: DB -> bool)
    requires db.held == Some(h) && h.index < |db.steps| && (e.loadFails || FindNode(v.graph.nodes, h.step.node).None?)
    requires p(FailStep(db.(held := None), h.index, h.claimedAt + e.elapsed, e))
    ensures p(AfterProcess(v, db, e))
  {}

  lemma ProcessAsNode(v: Version, db: DB, e: Env, h: Held, n: Node, p: DB -> bool)
    requires db.held == Some(h) && h.index < |db.steps|
    requires !e.loadFails && FindNode(v.graph.nodes, h.step.node) == Some(n)
    requires p(AfterNode(v, db.(held := None), h, n, h.claimedAt + e.elapsed, e))
    ensures p(AfterProcess(v, db, e))
  {
    assert db.held.value == h && FindNode(v.graph.nodes, h.step.node).value == n;
  }

  lemma ProcessKeeps(v: Version, db: DB, e: Env)
    requires Solid(v.graph) && Inv(v, db) && db.held.Some?
    ensures Keeps(v, db.(held := None), AfterProcess(v, db, e), db.held.value.index)
  {
    hide AfterProcess, AfterNode;
    HeldIsWorkable(v, db);
    var h := db.held.value;
    var now, db0 := h.claimedAt + e.elapsed, db.(held := None);
    var found := FindNode(v.graph.nodes, h.step.node);
    if e.loadFails || found.None? {
      FailKeeps(v, db0, h.index, now, e);
      ProcessAsFail(v, db, e, h, d => Keeps(v, db0, d, h.index));
    } else {
      FindNodeExact(v.graph.nodes, h.step.node);
      NodeKeeps(v, db0, h, found.value, now, e);
      ProcessAsNode(v, db, e, h, found.value, d => Keeps(v, db0, d, h.index));
    }
  }

  lemma WakeToken(v: Version, db: DB, now: int)
    requires Token(db) && HeldOk(db)
    ensures Token(AfterWake(v, db, now)) && HeldOk(AfterWake(v, db, now))
  {}

  lemma WakeKeeps(v: Version, db: DB, now: int)
    requires Solid(v.graph) && Inv(v, db)
    ensures Inv(v, AfterWake(v, db, now))
  {
    WakeToken(v, db, now);
    var r := FindNext(v.graph.edges, db.run.current, "success");
    FindNextExact(v.graph.edges, db.run.current, "success");
    if r.Some? && db.run.status == Waiting {
      assert Edge(db.run.current, r.value, "success") in v.graph.edges;
      MoveLocates(v, db, db.run.(status := Active, current := r.value, waitUntil := None));
    }
  }

  lemma OthersKeep(v: Version, db: DB, op: Op)
    requires Token(db) && HeldOk(db) && !op.Process? && !op.Wake?
    requires !Reopens(v, db, op)
    ensures Token(After(v, db, op)) && HeldOk(After(v, db, op))
  {}

  lemma InvStep(v: Version, db: DB, op: Op)
    requires Solid(v.graph) && Inv(v, db) && !Reopens(v, db, op)
    ensures Inv(v, After(v, db, op))
  {
    if op.Process? {
      ProcessStep(v, db, op.env);
    } else if op.Wake? {
      WakeKeeps(v, db, op.now);
    } else {
      OthersKeep(v, db, op);
      OthersLocate(v, db, op);
    }
  }

  lemma FailReopens(db: DB, k: nat, now: int, e: Env)
    requires k < |db.steps| && db.steps[k].status == Finished
    ensures var db' := FailStep(db, k, now, e);
            |db'.steps| == |db.steps| && (Live(db'.steps[k]) <==> !e.writeFails && db.steps[k].attempts < MAX_ATTEMPTS)
  {}

  lemma NodeReopens(v: Version, db: DB, h: Held, n: Node, e: Env)
    requires h.index < |db.steps| && db.steps[h.index].status == Finished &&
             FindNode(v.graph.nodes, h.step.node) == Some(n)
    requires !e.loadFails
    ensures var db' := AfterNode(v, db, h, n, h.claimedAt + e.elapsed, e);
            && |db'.steps| == |db.steps|
            && (Live(db'.steps[h.index]) <==>
                || Requeues(v, db, h, e)
                || (Fails(v, db, h, e) && !e.writeFails && db.steps[h.index].attempts < MAX_ATTEMPTS))
  {
    FailReopens(db, h.index, h.claimedAt + e.elapsed, e);
  }

  /** A held step that was finished meanwhile is live again exactly when the guard says so. */
  lemma ProcessReopens(v: Version, db: DB, e: Env)
    requires db.held.Some? && db.held.value.index < |db.steps| && db.steps[db.held.value.index].status == Finished
    ensures var db' := AfterProcess(v, db, e);
            |db'.steps| == |db.steps| && (Live(db'.steps[db.held.value.index]) <==> Reopens(v, db, Process(e)))
  {
    hide AfterProcess, AfterNode;
    var h, db0 := db.held.value, db.(held := None);
    var found := FindNode(v.graph.nodes, h.step.node);
    var p := (d: DB) => |d.steps| == |db.steps| && (Live(d.steps[h.index]) <==> Reopens(v, db, Process(e)));
    if e.loadFails || found.None? {
      FailReopens(db0, h.index, h.claimedAt + e.elapsed, e);
      ProcessAsFail(v, db, e, h, p);
    } else {
      NodeReopens(v, db0, h, found.value, e);
      SameGuard(v, db, db0, h, found.value, e);
      ProcessAsNode(v, db, e, h, found.value, p);
    }
    assert p(AfterProcess(v, db, e));
  }

  /** The guard does not depend on who holds the step. */
  lemma SameGuard(v: Version, db: DB, db0: DB, h: Held, n: Node, e: Env)
    requires db0 == db.(held := None) && FindNode(v.graph.nodes, h.step.node) == Some(n)
    ensures Requeues(v, db, h, e) == Requeues(v, db0, h, e) && Fails(v, db, h, e) == Fails(v, db0, h, e)
  {
    assert AnswersAt(v, db, n, h.claimedAt + e.elapsed, e) == AnswersAt(v, db0, n, h.claimedAt + e.elapsed, e);
  }

  lemma ProcessStep(v: Version, db: DB, e: Env)
    requires Solid(v.graph) && Inv(v, db) && !Reopens(v, db, Process(e))
    ensures Inv(v, AfterProcess(v, db, e))
  {
    if db.held.Some? {
      ProcessKeeps(v, db, e);
      if db.steps[db.held.value.index].status == Finished { ProcessReopens(v, db, e); }
    }
  }

  lemma OthersLocate(v: Version, db: DB, op: Op)
    requires Located(v, db) && !op.Process? && !op.Wake?
    ensures Located(v, After(v, db, op))
  {
    assert After(v, db, op).run.current == db.run.current;
  }

  /** The guard is exact: an operation keeps the one token if and only if it does not reopen a step. */
  lemma TokenKeptIff(v: Version, db: DB, op: Op)
    requires Solid(v.graph) && Inv(v, db)
    ensures Token(After(v, db, op)) <==> !Reopens(v, db, op)
  {
    if !Reopens(v, db, op) {
      InvStep(v, db, op);
    } else if op.Process? {
      ProcessReopens(v, db, op.env);
      assert Live(After(v, db, op).steps[db.held.value.index]);
    } else {
      assert Live(After(v, db, op).steps[op.index]);
    }
  }

  /** No operation of the run reopens a step. */
  predicate NothingReopened(v: Version, db: DB, ops: seq<Op>) {
    ops == [] ||
    var n := |ops| - 1;
    NothingReopened(v, db, ops[..n]) && !Reopens(v, RunOps(v, db, ops[..n]), ops[n])
  }

  lemma EnrolledInv(v: Version, now: int)
    requires WellFormed(v.graph)
    ensures Inv(v, Enrolled(v, now))
  {
    ReachableSelf(v.graph.edges, v.graph.entryNodeID);
    EntryIsNode(v.graph);
  }

  lemma {:induction false} OneEntry(nodes: seq<Node>)
    requires Entries(nodes) > 0
    ensures exists i :: 0 <= i < |nodes| && nodes[i].config.Entry?
  {
    var n := |nodes| - 1;
    if nodes[n].config.Entry? { assert nodes[n].config.Entry?; } else {
      OneEntry(nodes[..n]);
      var i :| 0 <= i < n && nodes[..n][i].config.Entry?;
      assert nodes[i].config.Entry?;
    }
  }

  lemma EntryIsNode(g: Graph)
    requires WellFormed(g)
    ensures HasID(g.nodes, g.entryNodeID)
  {
    OneEntry(g.nodes);
  }

  /** On every accepted graph, over every run in which nothing closed is reopened: exactly one token
      until the run ends and none after, always at a node reachable from the entry. */
  lemma {:induction false} TokenConserved(v: Version, enrolledAt: int, ops: seq<Op>)
    requires WellFormed(v.graph) && NothingReopened(v, Enrolled(v, enrolledAt), ops)
    ensures Inv(v, RunOps(v, Enrolled(v, enrolledAt), ops))
  {
    if ops == [] {
      EnrolledInv(v, enrolledAt);
    } else {
      var n := |ops| - 1;
      TokenConserved(v, enrolledAt, ops[..n]);
      WellFormedIsSolid(v.graph);
      InvStep(v, RunOps(v, Enrolled(v, enrolledAt), ops[..n]), ops[n]);
    }
  }

  // ---------------------------------------------------------------------------
  // Runs nobody disturbs

  /** No event wakes the run and nobody retries its steps. */
  ghost predicate Undisturbed(ops: seq<Op>) {
    forall i :: 0 <= i < |ops| ==> !ops[i].Wake? && !ops[i].Retry?
  }

  ghost predicate HeldUnfinished(db: DB) {
    db.held.Some? && db.held.value.index < |db.steps| ==> db.steps[db.held.value.index].status != Finished
  }

  lemma ProcessReleases(v: Version, db: DB, e: Env)
    requires db.held.Some? && db.held.value.index < |db.steps|
    ensures AfterProcess(v, db, e).held.None?
  {}

  lemma {:induction false} HeldStaysUnfinished(v: Version, db: DB, ops: seq<Op>)
    requires HeldUnfinished(db) && Undisturbed(ops)
    ensures HeldUnfinished(RunOps(v, db, ops))
  {
    if ops != [] {
      var n := |ops| - 1;
      HeldStaysUnfinished(v, db, ops[..n]);
      var db1 := RunOps(v, db, ops[..n]);
      if ops[n].Process? && db1.held.Some? && db1.held.value.index < |db1.steps| {
        ProcessReleases(v, db1, ops[n].env);
      }
    }
  }

  lemma {:induction false} UndisturbedReopensNothing(v: Version, enrolledAt: int, ops: seq<Op>)
    requires Undisturbed(ops)
    ensures NothingReopened(v, Enrolled(v, enrolledAt), ops)
  {
    if ops != [] {
      HeldStaysUnfinished(v, Enrolled(v, enrolledAt), ops[..|ops| - 1]);
      UndisturbedReopensNothing(v, enrolledAt, ops[..|ops| - 1]);
    }
  }

  /** Without wake-ups and retries nothing more is asked: every run keeps its one token. */
  lemma UndisturbedTokenConserved(v: Version, enrolledAt: int, ops: seq<Op>)
    requires WellFormed(v.graph) && Undisturbed(ops)
    ensures Inv(v, RunOps(v, Enrolled(v, enrolledAt), ops))
  {
    UndisturbedReopensNothing(v, enrolledAt, ops);
    TokenConserved(v, enrolledAt, ops);
  }

  // ---------------------------------------------------------------------------
  // What holds of every run

  ghost predicate OneBusy(steps: seq<Step>) {
    forall i, j :: 0 <= i < j < |steps| ==> !(Busy(steps[i]) && Busy(steps[j]))
  }

  /** A write to one step that leaves it not busy, or finds no other busy step. */
  lemma OneBusyUpdate(steps: seq<Step>, k: nat, s: Step)
    requires OneBusy(steps) && k < |steps| && (Busy(s) && !Busy(steps[k]) ==> !OtherBusy(steps, k))
    ensures OneBusy(steps[k := s])
  {}

  lemma OneBusyInsert(steps: seq<Step>, s: Step)
    requires OneBusy(steps) && !OtherBusy(steps, |steps|)
    ensures OneBusy(steps + [s])
  {}

  lemma FailOneBusy(db: DB, k: nat, now: int, e: Env)
    requires k < |db.steps| && OneBusy(db.steps)
    ensures OneBusy(FailStep(db, k, now, e).steps)
  {}

  lemma AdvanceOneBusy(db: DB, k: nat, run: Run, next: Option<NextStep>, vis: Visit, now: int, e: Env)
    requires k < |db.steps| && OneBusy(db.steps)
    ensures OneBusy(AdvanceTx(db, k, run, next, vis, now, e).steps)
  {
    FailOneBusy(db, k, now, e);
    var done := db.steps[k := db.steps[k].(status := Finished, lockedUntil := None)];
    OneBusyUpdate(db.steps, k, done[k]);
    if next.Some? && !OtherBusy(db.steps, k) { OneBusyInsert(done, Pend(next.value)); }
  }

  lemma NodeOneBusy(v: Version, db: DB, h: Held, n: Node, now: int, e: Env)
    requires h.index < |db.steps| && OneBusy(db.steps)
    ensures OneBusy(AfterNode(v, db, h, n, now, e).steps)
  {
    FailOneBusy(db, h.index, now, e);
    if now - h.step.availableAt > Threshold(v) && v.latePolicy == Skip {
      var next := FirstTarget(v.graph.edges, n.id);
      var run := if next.Some? then h.run.(current := next.value, status := Active)
                 else h.run.(status := Completed, completedAt := Some(now));
      var step := if next.Some? then Some(NextStep(next.value, Advance, now)) else None;
      AdvanceOneBusy(db, h.index, run, step, Visit(n.id, now, 0, false), now, e);
    } else if now - h.step.availableAt > Threshold(v) && v.latePolicy == Reschedule {
    } else {
      ConcludeOneBusy(db, h, n, now, e, Execute(v.graph, n, h.run, now, h.step.kind, AnswersAt(v, db, n, now, e)));
    }
  }

  lemma ConcludeOneBusy(db: DB, h: Held, n: Node, now: int, e: Env, r: Result)
    requires h.index < |db.steps| && OneBusy(db.steps)
    ensures OneBusy(Conclude(db, h, n, now, e, r).steps)
  {
    FailOneBusy(db, h.index, now, e);
    if r.Executed? {
      var db1 := if n.config.Action? then db.(actionEvents := db.actionEvents[n.id := now / 1000]) else db;
      AdvanceOneBusy(db1, h.index, RunAfter(h, r), r.step, Visit(n.id, now, HoldOf(n.config, h.step.kind), false),
          now, e);
    }
  }

  lemma ProcessOneBusy(v: Version, db: DB, e: Env)
    requires OneBusy(db.steps) && db.held.Some? && db.held.value.index < |db.steps|
    ensures OneBusy(AfterProcess(v, db, e).steps)
  {
    hide AfterProcess, AfterNode;
    var h, db0 := db.held.value, db.(held := None);
    var now, found := h.claimedAt + e.elapsed, FindNode(v.graph.nodes, h.step.node);
    var p := (d: DB) => OneBusy(d.steps);
    if e.loadFails || found.None? {
      FailOneBusy(db0, h.index, now, e);
      ProcessAsFail(v, db, e, h, p);
    } else {
      NodeOneBusy(v, db0, h, found.value, now, e);
      ProcessAsNode(v, db, e, h, found.value, p);
    }
    assert p(AfterProcess(v, db, e));
  }

  lemma WakeOneBusy(v: Version, db: DB, now: int)
    requires OneBusy(db.steps)
    ensures OneBusy(AfterWake(v, db, now).steps)
  {
    var done := FinishTimeouts(db.steps);
    assert OneBusy(done);
    var next := FindNext(v.graph.edges, db.run.current, "success");
    if next.Some? && !OtherBusy(done, |done|) { OneBusyInsert(done, Pend(NextStep(next.value, Advance, now))); }
  }

  /** Over every sequence of operations on any graph, with no other hypothesis: a run never has two
      pending or processing steps. */
  lemma {:induction false} AtMostOneBusy(v: Version, enrolledAt: int, ops: seq<Op>)
    ensures OneBusy(RunOps(v, Enrolled(v, enrolledAt), ops).steps)
  {
    if ops != [] {
      var n := |ops| - 1;
      AtMostOneBusy(v, enrolledAt, ops[..n]);
      var db := RunOps(v, Enrolled(v, enrolledAt), ops[..n]);
      match ops[n]
      case Process(e) =>
        if db.held.Some? && db.held.value.index < |db.steps| { ProcessOneBusy(v, db, e); }
      case Wake(now) => WakeOneBusy(v, db, now);
      case _ =>
    }
  }
}
