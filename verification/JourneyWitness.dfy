/** Two accepted journeys that go wrong: an event that overtakes a failing timeout leaves a second live
    step, and a split without branches can only be left by a late skip, which completes the run there. */
module JourneyWitness {
  import opened Common
  import opened JourneyGraph
  import opened JourneyValidate
  import opened JourneyNodes
  import opened JourneyRuntime
  import opened JourneyRuns
  import opened JourneyTiming

  // ---------------------------------------------------------------------------
  // Reached states

  ghost predicate Reached(v: Version, enrolledAt: int, db: DB) {
    exists ops :: RunOps(v, Enrolled(v, enrolledAt), ops) == db
  }

  lemma ReachedStart(v: Version, enrolledAt: int)
    ensures Reached(v, enrolledAt, Enrolled(v, enrolledAt))
  {
    assert RunOps(v, Enrolled(v, enrolledAt), []) == Enrolled(v, enrolledAt);
  }

  lemma ReachedStep(v: Version, enrolledAt: int, db: DB, op: Op, db': DB)
    requires Reached(v, enrolledAt, db) && db' == After(v, db, op)
    ensures Reached(v, enrolledAt, db')
  {
    var ops :| RunOps(v, Enrolled(v, enrolledAt), ops) == db;
    assert (ops + [op])[..|ops|] == ops;
    assert RunOps(v, Enrolled(v, enrolledAt), ops + [op]) == db';
  }

  const SUCCEEDS: Env := Env(0, false, Answers(false, true, None, 0, {}, "", ""), false, false, false)

  /** The newest step, as a claim leaves it. */
  function ClaimedStep(s: Step, now: int): Step {
    s.(status := Processing, attempts := s.attempts + 1, lockedUntil := Some(now + LEASE))
  }

  /** An idle run whose only open step is its newest, due now. */
  ghost predicate Ready(db: DB, now: int) {
    && db.held.None? && db.steps != []
    && (forall j :: 0 <= j < |db.steps| - 1 ==> db.steps[j].status == Finished)
    && var s := db.steps[|db.steps| - 1];
    s.status == Pending && s.attempts == 0 && s.availableAt == now && RunMatches(db.run, s)
  }

  lemma ClaimReady(v: Version, db: DB, now: int)
    requires Ready(db, now)
    ensures var k := |db.steps| - 1;
            var s := ClaimedStep(db.steps[k], now);
            After(v, db, Claim(k, now, true)) == db.(steps := db.steps[k := s], held := Some(Held(k, s, db.run, now)))
  {
    assert Claimable(db, |db.steps| - 1, now);
  }

  /** A successful tick that is not late, at a node without an action event. */
  lemma TickReady(v: Version, enrolledAt: int, db: DB, now: int, n: Node, r: Result, db': DB)
    requires Reached(v, enrolledAt, db) && Ready(db, now) && Threshold(v) >= 0
    requires FindNode(v.graph.nodes, db.run.current) == Some(n) && !n.config.Action?
    requires r == Execute(v.graph, n, db.run, now, db.steps[|db.steps| - 1].kind, SUCCEEDS.answers)
    requires r.Executed? && r.step.Some? && r.next != ""
    requires var k := |db.steps| - 1;
             && db'.run == Run(r.status, r.next, r.goalReached, r.completedAt, r.waitUntil)
             && db'.steps == db.steps[k := db.steps[k].(status := Finished, attempts := 1, lockedUntil := None)] +
                  [Pend(r.step.value)]
             && db'.held.None? && db'.actionEvents == db.actionEvents
             && db'.visits == db.visits + [Visit(n.id, now, HoldOf(n.config, db.steps[k].kind), false)]
    ensures Reached(v, enrolledAt, db')
  {
    var k := |db.steps| - 1;
    ClaimReady(v, db, now);
    var db1 := After(v, db, Claim(k, now, true));
    ReachedStep(v, enrolledAt, db, Claim(k, now, true), db1);
    var h := db1.held.value;
    assert db1.(held := None).steps[k].(status := Finished, lockedUntil := None)
        == db.steps[k].(status := Finished, attempts := 1, lockedUntil := None);
    assert AnswersAt(v, db1.(held := None), n, now, SUCCEEDS) == SUCCEEDS.answers;
    TickConcludes(v, db, db1.(held := None), h, n, now, r, db');
    ProcessAsNode(v, db1, SUCCEEDS, h, n, d => d == db');
    ReachedStep(v, enrolledAt, db1, Process(SUCCEEDS), db');
  }

  lemma TickConcludes(v: Version, db: DB, db0: DB, h: Held, n: Node, now: int, r: Result, db': DB)
    requires Ready(db, now) && !n.config.Action? && Threshold(v) >= 0
    requires var k := |db.steps| - 1;
             db0 == db.(steps := db.steps[k := ClaimedStep(db.steps[k], now)]) &&
                 h == Held(k, db0.steps[k], db.run, now)
    requires r == Execute(v.graph, n, db.run, now, h.step.kind, SUCCEEDS.answers) && r.Executed? && r.step.Some? &&
             r.next != ""
    requires var k := |db.steps| - 1;
             && db'.run == Run(r.status, r.next, r.goalReached, r.completedAt, r.waitUntil)
             && db'.steps == db.steps[k := db.steps[k].(status := Finished, attempts := 1, lockedUntil := None)] +
                  [Pend(r.step.value)]
             && db'.held.None? && db'.actionEvents == db.actionEvents
             && db'.visits == db.visits + [Visit(n.id, now, HoldOf(n.config, db.steps[k].kind), false)]
    ensures AfterNode(v, db0, h, n, now, SUCCEEDS) == db'
  {
    var k := |db.steps| - 1;
    assert AnswersAt(v, db0, n, now, SUCCEEDS) == SUCCEEDS.answers;
    assert !OtherBusy(db0.steps, k);
    assert db0.steps[k := db0.steps[k].(status := Finished, lockedUntil := None)]
        == db.steps[k := db.steps[k].(status := Finished, attempts := 1, lockedUntil := None)];
  }

  // ---------------------------------------------------------------------------
  // Small graphs

  lemma FindNodeAt(nodes: seq<Node>, i: nat)
    requires UniqueIDs(nodes) && i < |nodes|
    ensures FindNode(nodes, nodes[i].id) == Some(nodes[i])
  {
    FindNodeExact(nodes, nodes[i].id);
  }

  function Own(e: Edge, id: string): seq<Edge> {
    if e.src == id then [e] else []
  }

  lemma OutgoingAppend(edges: seq<Edge>, e: Edge, id: string, all: seq<Edge>)
    requires all == edges + [e]
    ensures Outgoing(all, id) == Outgoing(edges, id) + Own(e, id)
  {
    assert all[..|edges|] == edges;
  }

  lemma OutgoingOfTwo(a: Edge, b: Edge, id: string)
    ensures Outgoing([a, b], id) == Own(a, id) + Own(b, id)
  {
    OutgoingAppend([], a, id, [a]);
    OutgoingAppend([a], b, id, [a, b]);
  }

  lemma OutgoingOfThree(a: Edge, b: Edge, c: Edge, id: string)
    ensures Outgoing([a, b, c], id) == Own(a, id) + Own(b, id) + Own(c, id)
  {
    OutgoingOfTwo(a, b, id);
    OutgoingAppend([a, b], c, id, [a, b, c]);
  }

  lemma EntriesAppend(nodes: seq<Node>, n: Node)
    ensures Entries(nodes + [n]) == Entries(nodes) + if n.config.Entry? then 1 else 0
  {
    assert (nodes + [n])[..|nodes|] == nodes;
  }

  // ---------------------------------------------------------------------------
  // An event overtakes a timeout

  const IN: Node := Node("in", Entry("event", "", true))
  const WAIT: Node := Node("wait", WaitEvent("reply", Nanos(1)))
  const OUT: Node := Node("out", Exit)
  const TO_WAIT: Edge := Edge("in", "wait", "")
  const ON_REPLY: Edge := Edge("wait", "out", "success")
  const ON_TIMEOUT: Edge := Edge("wait", "out", "timeout")
  const WAITING: Graph := Graph("in", [IN, WAIT, OUT], [TO_WAIT, ON_REPLY, ON_TIMEOUT])

  lemma WaitingIds()
    ensures "in" != "wait" && "in" != "out" && "wait" != "out" && "success" != "timeout" && "success" != ""
    ensures UniqueIDs(WAITING.nodes)
  {
    assert "in"[0] != "wait"[0] && "in"[0] != "out"[0] && "wait"[0] != "out"[0] && "success"[0] != "timeout"[0];
  }

  lemma WaitingOutgoing()
    ensures Outgoing(WAITING.edges, "in") == [TO_WAIT]
    ensures Outgoing(WAITING.edges, "wait") == [ON_REPLY, ON_TIMEOUT]
    ensures Outgoing(WAITING.edges, "out") == []
  {
    WaitingIds();
    OutgoingOfThree(TO_WAIT, ON_REPLY, ON_TIMEOUT, "in");
    OutgoingOfThree(TO_WAIT, ON_REPLY, ON_TIMEOUT, "wait");
    OutgoingOfThree(TO_WAIT, ON_REPLY, ON_TIMEOUT, "out");
  }

  lemma WaitingNodesOk()
    ensures NodesOk(WAITING, 3) && Entries(WAITING.nodes) == 1
  {
    WaitingIds();
    EntriesAppend([], IN);
    EntriesAppend([IN], WAIT);
    EntriesAppend([IN, WAIT], OUT);
    assert [] + [IN] == [IN] && [IN] + [WAIT] == [IN, WAIT] && [IN, WAIT] + [OUT] == WAITING.nodes;
    assert WAITING.nodes[..3] == WAITING.nodes;
    assert Entries([]) == 0;
  }

  lemma WaitingEdgesOk()
    ensures EdgesOk(WAITING, 3)
  {
    var g := WAITING;
    assert HasID(g.nodes, "in") by { assert g.nodes[0].id == "in"; }
    assert HasID(g.nodes, "wait") by { assert g.nodes[1].id == "wait"; }
    assert HasID(g.nodes, "out") by { assert g.nodes[2].id == "out"; }
  }

  lemma WaitingOutgoingOk()
    ensures OutgoingOk(WAITING, 3)
  {
    WaitingIds();
    WaitingOutgoing();
    assert Branches([ON_REPLY, ON_TIMEOUT]) == ["success", "timeout"];
    assert ExactBranches([ON_REPLY, ON_TIMEOUT], ["success", "timeout"]);
  }

  lemma WaitingConnected()
    ensures Connected(WAITING)
  {
    var g := WAITING;
    ReachableSelf(g.edges, "in");
    ReachableStep(g.edges, "in", "in", TO_WAIT);
    ReachableStep(g.edges, "in", "wait", ON_REPLY);
    assert g.nodes[2].config.Exit?;
  }

  lemma WaitingIsAccepted()
    ensures WellFormed(WAITING)
  {
    WaitingNodesOk();
    WaitingEdgesOk();
    WaitingOutgoingOk();
    WaitingConnected();
  }

  /** The run waits at the wait_event, its timeout due at `at + 1`. */
  ghost predicate AtWait(db: DB, at: int) {
    && db.run == Run(Waiting, "wait", false, None, Some(at + 1)) && db.held.None? && |db.steps| == 3
    && db.steps[0].status == db.steps[1].status == Finished && db.steps[2] == Pend(NextStep("wait", Timeout, at + 1))
  }

  lemma ReachWait(v: Version, at: int) returns (db: DB)
    requires v.graph == WAITING && Threshold(v) >= 0
    ensures Reached(v, at, db) && AtWait(db, at)
  {
    WaitingIds();
    FindNodeAt(WAITING.nodes, 0);
    FindNodeAt(WAITING.nodes, 1);
    assert FindNext(WAITING.edges, "in", "") == Some("wait");
    ReachedStart(v, at);
    var db0 := Enrolled(v, at);
    var r0 := Execute(WAITING, IN, db0.run, at, Advance, SUCCEEDS.answers);
    var db1 := DB(Run(Active, "wait", false, None, None),
                  db0.steps[0 := db0.steps[0].(status := Finished, attempts := 1, lockedUntil := None)] +
                      [Pend(r0.step.value)],
                  map[], None, db0.visits + [Visit("in", at, 0, false)]);
    TickReady(v, at, db0, at, IN, r0, db1);
    var r1 := Execute(WAITING, WAIT, db1.run, at, Advance, SUCCEEDS.answers);
    db := DB(Run(Waiting, "wait", false, None, Some(at + 1)),
             db1.steps[1 := db1.steps[1].(status := Finished, attempts := 1, lockedUntil := None)] +
                 [Pend(r1.step.value)],
             map[], None, db1.visits + [Visit("wait", at, 1, false)]);
    TickReady(v, at, db1, at, WAIT, r1, db);
  }

  const LOAD_FAILS: Env := SUCCEEDS.(loadFails := true)

  /** The held timeout has been finished by the event, and the next step waits. */
  ghost predicate Overtaken(db: DB) {
    && |db.steps| == 4 && db.steps[2].status == Finished && db.steps[2].attempts == 1 && db.steps[3].status == Pending
    && db.held.Some? && db.held.value.index == 2
  }

  lemma EventOvertakes(v: Version, at: int, db: DB) returns (db': DB)
    requires v.graph == WAITING && Reached(v, at, db) && AtWait(db, at)
    ensures Reached(v, at, db') && Overtaken(db')
  {
    WaitingIds();
    ClaimReady(v, db, at + 1);
    var held := After(v, db, Claim(2, at + 1, true));
    ReachedStep(v, at, db, Claim(2, at + 1, true), held);
    assert FindNext(WAITING.edges[1..], "wait", "success") == Some("out");
    assert FindNext(WAITING.edges, "wait", "success") == Some("out");
    db' := After(v, held, Wake(at + 1));
    ReachedStep(v, at, held, Wake(at + 1), db');
  }

  /** A timeout is claimed, the awaited event finishes it and adds the next step, and then the worker
      cannot load the run: FailJourneyStep reopens the finished timeout beside the new step. */
  lemma OvertakenTimeoutReopens(v: Version, at: int) returns (db: DB)
    requires v.graph == WAITING && Threshold(v) >= 0
    ensures Reached(v, at, db) && WellFormed(v.graph)
    ensures |db.steps| == 4 && db.steps[2].status == Failed && db.steps[3].status == Pending && !Token(db)
  {
    WaitingIsAccepted();
    var waiting := ReachWait(v, at);
    var overtaken := EventOvertakes(v, at, waiting);
    db := FailOvertaken(v, overtaken);
    ReachedStep(v, at, overtaken, Process(LOAD_FAILS), db);
  }

  lemma FailOvertaken(v: Version, overtaken: DB) returns (db: DB)
    requires Overtaken(overtaken)
    ensures db == After(v, overtaken, Process(LOAD_FAILS))
    ensures |db.steps| == 4 && db.steps[2].status == Failed && db.steps[3].status == Pending && !Token(db)
  {
    hide AfterProcess;
    var h := overtaken.held.value;
    db := FailStep(overtaken.(held := None), h.index, h.claimedAt + LOAD_FAILS.elapsed, LOAD_FAILS);
    var p := (d: DB) => d == db;
    ProcessAsFail(v, overtaken, LOAD_FAILS, h, p);
    assert p(AfterProcess(v, overtaken, LOAD_FAILS));
    assert Live(db.steps[2]);
  }

  // ---------------------------------------------------------------------------
  // A split without branches

  const COND: Node := Node("cond", Condition)
  const SPLIT: Node := Node("split", Split("random", "", []))
  const TO_COND: Edge := Edge("in", "cond", "")
  const ON_TRUE: Edge := Edge("cond", "split", "true")
  const ON_FALSE: Edge := Edge("cond", "out", "false")
  const STUCK: Graph := Graph("in", [IN, COND, SPLIT, OUT], [TO_COND, ON_TRUE, ON_FALSE])

  lemma StuckIds()
    ensures "in" != "cond" && "in" != "split" && "in" != "out" && "cond" != "split" && "cond" != "out" &&
            "split" != "out"
    ensures "true" != "false" && "true" != "" && UniqueIDs(STUCK.nodes)
  {
    assert "in"[0] != "cond"[0] && "in"[0] != "split"[0] && "in"[0] != "out"[0];
    assert "cond"[0] != "split"[0] && "cond"[0] != "out"[0] && "split"[0] != "out"[0] && "true"[0] != "false"[0];
  }

  lemma StuckOutgoing()
    ensures Outgoing(STUCK.edges, "in") == [TO_COND] && Outgoing(STUCK.edges, "cond") == [ON_TRUE, ON_FALSE]
    ensures Outgoing(STUCK.edges, "split") == [] && Outgoing(STUCK.edges, "out") == []
  {
    StuckIds();
    OutgoingOfThree(TO_COND, ON_TRUE, ON_FALSE, "in");
    OutgoingOfThree(TO_COND, ON_TRUE, ON_FALSE, "cond");
    OutgoingOfThree(TO_COND, ON_TRUE, ON_FALSE, "split");
    OutgoingOfThree(TO_COND, ON_TRUE, ON_FALSE, "out");
  }

  lemma StuckNodesOk()
    ensures NodesOk(STUCK, 4) && Entries(STUCK.nodes) == 1
  {
    StuckIds();
    EntriesAppend([], IN);
    EntriesAppend([IN], COND);
    EntriesAppend([IN, COND], SPLIT);
    EntriesAppend([IN, COND, SPLIT], OUT);
    assert [] + [IN] == [IN] && [IN] + [COND] == [IN, COND] && [IN, COND] + [SPLIT] == [IN, COND, SPLIT];
    assert [IN, COND, SPLIT] + [OUT] == STUCK.nodes && STUCK.nodes[..4] == STUCK.nodes;
    assert Entries([]) == 0;
  }

  lemma StuckEdgesOk()
    ensures EdgesOk(STUCK, 3)
  {
    var g := STUCK;
    assert HasID(g.nodes, "in") by { assert g.nodes[0].id == "in"; }
    assert HasID(g.nodes, "cond") by { assert g.nodes[1].id == "cond"; }
    assert HasID(g.nodes, "split") by { assert g.nodes[2].id == "split"; }
    assert HasID(g.nodes, "out") by { assert g.nodes[3].id == "out"; }
  }

  lemma StuckBranches()
    ensures ValidOutgoing(IN.config, [TO_COND]) && ValidOutgoing(COND.config, [ON_TRUE, ON_FALSE])
    ensures ValidOutgoing(SPLIT.config, []) && ValidOutgoing(OUT.config, [])
  {
    StuckIds();
    assert Branches([ON_TRUE, ON_FALSE]) == ["true", "false"] && Branches([]) == [] && SplitLabels([]) == [];
    assert ExactBranches([ON_TRUE, ON_FALSE], ["true", "false"]) && ExactBranches([], []);
  }

  lemma StuckOutgoingOk()
    ensures OutgoingOk(STUCK, 4)
  {
    hide Outgoing, ValidOutgoing;
    StuckBranches();
    StuckOutgoing();
    forall i | 0 <= i < 4 ensures ValidOutgoing(STUCK.nodes[i].config, Outgoing(STUCK.edges, STUCK.nodes[i].id)) {
      assert STUCK.nodes[i] in [IN, COND, SPLIT, OUT];
    }
  }

  lemma StuckConnected()
    ensures Connected(STUCK)
  {
    var g := STUCK;
    ReachableSelf(g.edges, "in");
    ReachableStep(g.edges, "in", "in", TO_COND);
    ReachableStep(g.edges, "in", "cond", ON_TRUE);
    ReachableStep(g.edges, "in", "cond", ON_FALSE);
    assert g.nodes[3].config.Exit?;
  }

  /** The validator accepts the graph, and no execution of the split ever succeeds. */
  lemma EmptySplitIsAcceptedAndStuck(run: Run, now: int, kind: Kind, a: Answers)
    ensures WellFormed(STUCK) && SPLIT in STUCK.nodes
    ensures Execute(STUCK, SPLIT, run, now, kind, a) == ExecError
  {
    StuckNodesOk();
    StuckEdgesOk();
    StuckOutgoingOk();
    StuckConnected();
    assert STUCK.nodes[2] == SPLIT;
    StuckOutgoing();
    StuckBranches();
    EmptySplitFails(STUCK, SPLIT, run, now, kind, a);
  }

  ghost predicate AtSplit(db: DB, at: int) {
    && db.run == Run(Active, "split", false, None, None) && db.held.None? && |db.steps| == 3
    && db.steps[0].status == db.steps[1].status == Finished && db.steps[2] == Pend(NextStep("split", Advance, at))
  }

  lemma ReachSplit(v: Version, at: int) returns (db: DB)
    requires v.graph == STUCK && Threshold(v) >= 0
    ensures Reached(v, at, db) && AtSplit(db, at)
  {
    StuckIds();
    FindNodeAt(STUCK.nodes, 0);
    FindNodeAt(STUCK.nodes, 1);
    assert FindNext(STUCK.edges, "in", "") == Some("cond");
    assert FindNext(STUCK.edges[1..], "cond", "true") == Some("split");
    assert FindNext(STUCK.edges, "cond", "true") == Some("split");
    ReachedStart(v, at);
    var db0 := Enrolled(v, at);
    var r0 := Execute(STUCK, IN, db0.run, at, Advance, SUCCEEDS.answers);
    var db1 := DB(Run(Active, "cond", false, None, None),
                  db0.steps[0 := db0.steps[0].(status := Finished, attempts := 1, lockedUntil := None)] +
                      [Pend(r0.step.value)],
                  map[], None, db0.visits + [Visit("in", at, 0, false)]);
    TickReady(v, at, db0, at, IN, r0, db1);
    var r1 := Execute(STUCK, COND, db1.run, at, Advance, SUCCEEDS.answers);
    db := DB(Run(Active, "split", false, None, None),
             db1.steps[1 := db1.steps[1].(status := Finished, attempts := 1, lockedUntil := None)] +
                 [Pend(r1.step.value)],
             map[], None, db1.visits + [Visit("cond", at, 0, false)]);
    TickReady(v, at, db1, at, COND, r1, db);
  }

  lemma NoTarget()
    ensures FirstTarget(STUCK.edges, "split") == None
  {
    StuckOutgoing();
    FirstTargetExact(STUCK.edges, "split");
    if FirstTarget(STUCK.edges, "split").Some? {
      var e :| e in STUCK.edges && e.src == "split";
      OutgoingExact(STUCK.edges, "split", e);
    }
  }

  /** Under `skip` a claim that is processed late completes the run at the split, which is no exit. */
  lemma LateSkipCompletesAtSplit(v: Version, at: int) returns (db: DB)
    requires v.graph == STUCK && Threshold(v) >= 0 && v.latePolicy == Skip
    ensures Reached(v, at, db) && db.run.status == Completed && db.run.current == "split" && !AtExit(v.graph, "split")
  {
    var split := ReachSplit(v, at);
    StuckIds();
    FindNodeAt(STUCK.nodes, 2);
    ClaimReady(v, split, at);
    var held := After(v, split, Claim(2, at, true));
    ReachedStep(v, at, split, Claim(2, at, true), held);
    var late := SUCCEEDS.(elapsed := Threshold(v) + 1);
    db := After(v, held, Process(late));
    NoTarget();
    var h := held.held.value;
    var skipped := SkipLate(v, held.(held := None), h, SPLIT, h.claimedAt + late.elapsed, late);
    ProcessAsNode(v, held, late, h, SPLIT, d => d == skipped);
    ReachedStep(v, at, held, Process(late), db);
  }
}
