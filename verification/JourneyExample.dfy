/** The shortest journey, an entry and an exit: accepted, runnable, and completed by two ticks. */
module JourneyExample {
  import opened Common
  import opened JourneyGraph
  import opened JourneyValidate
  import opened JourneyNodes
  import opened JourneyRuntime
  import opened JourneyProgress
  import opened JourneyWitness

  const SHORTEST: Graph := Graph("in", [Node("in", Entry("event", "", true)), Node("out", Exit)],
      [Edge("in", "out", "")])

  function Height(id: string): nat {
    if id == "in" then 1 else 0
  }

  lemma ShortestOutgoing()
    ensures Outgoing(SHORTEST.edges, "in") == [Edge("in", "out", "")] && Outgoing(SHORTEST.edges, "out") == []
  {
    assert SHORTEST.edges[..0] == [];
    assert Outgoing([], "in") == [] && Outgoing([], "out") == [];
    assert "in"[0] != "out"[0];
  }

  lemma ShortestEntries()
    ensures Entries(SHORTEST.nodes) == 1
  {
    assert SHORTEST.nodes[..1] == [SHORTEST.nodes[0]] && [SHORTEST.nodes[0]][..0] == [];
    assert Entries([]) == 0 && Entries([SHORTEST.nodes[0]]) == 1;
  }

  lemma ShortestIsRunnable()
    ensures Runnable(SHORTEST) && Ranked(SHORTEST, Height)
  {
    var g := SHORTEST;
    ShortestOutgoing();
    ShortestEntries();
    assert "in"[0] != "out"[0];
    assert g.nodes[..2] == g.nodes;
    assert HasID(g.nodes, "in") by { assert g.nodes[0].id == "in"; }
    assert HasID(g.nodes, "out") by { assert g.nodes[1].id == "out"; }
    ReachableSelf(g.edges, "in");
    ReachableStep(g.edges, "in", "in", Edge("in", "out", ""));
    assert g.nodes[1].config.Exit?;
  }

  lemma FirstTick(v: Version, now: int)
    requires v.graph == SHORTEST && v.lateThreshold >= 0
    ensures Smooth(v, Enrolled(v, now), now, SUCCEEDS)
    ensures var db := Tick(v, Enrolled(v, now), now, SUCCEEDS);
            && db.run == Run(Active, "out", false, None, None) && db.held.None?
            && |db.steps| == 2 && db.steps[0].status == Finished && db.steps[1] == Pend(NextStep("out", Advance, now))
  {
    var db := After(v, Enrolled(v, now), Claim(0, now, true));
    assert FindNode(SHORTEST.nodes, "in") == Some(SHORTEST.nodes[0]);
    assert FindNext(SHORTEST.edges, "in", "") == Some("out");
    assert db.held == Some(Held(0, db.steps[0], db.run, now));
  }

  lemma SecondTick(v: Version, db: DB, now: int)
    requires v.graph == SHORTEST && v.lateThreshold >= 0
    requires db.run == Run(Active, "out", false, None, None) && db.held.None?
    requires |db.steps| == 2 && db.steps[0].status == Finished && db.steps[1] == Pend(NextStep("out", Advance, now))
    ensures Smooth(v, db, now, SUCCEEDS)
    ensures Tick(v, db, now, SUCCEEDS).run == Run(Completed, "out", false, Some(now), None)
  {
    assert "in"[0] != "out"[0];
    assert SHORTEST.nodes[1..] == [SHORTEST.nodes[1]];
    assert FindNode(SHORTEST.nodes[1..], "out") == Some(SHORTEST.nodes[1]);
    assert FindNode(SHORTEST.nodes, "out") == Some(SHORTEST.nodes[1]);
    var db1 := After(v, db, Claim(1, now, true));
    assert db1.held == Some(Held(1, db1.steps[1], db.run, now));
  }

  /** From any time on, two successful ticks complete the run. */
  lemma ShortestCompletes(v: Version, now: int)
    requires v.graph == SHORTEST && v.lateThreshold >= 0
    ensures var ms := [Moment(now, SUCCEEDS), Moment(now, SUCCEEDS)];
            && AllSmooth(v, Enrolled(v, now), ms)
            && Ticks(v, Enrolled(v, now), ms).run == Run(Completed, "out", false, Some(now), None)
  {
    var m := Moment(now, SUCCEEDS);
    var db0 := Enrolled(v, now);
    FirstTick(v, now);
    var db1 := Tick(v, db0, now, SUCCEEDS);
    SecondTick(v, db1, now);
    var db2 := Tick(v, db1, now, SUCCEEDS);
    assert [m, m][1..] == [m] && [m][1..] == [];
    assert AllSmooth(v, db2, []) && Ticks(v, db2, []) == db2;
    assert AllSmooth(v, db1, [m]) && Ticks(v, db1, [m]) == db2;
  }
}
