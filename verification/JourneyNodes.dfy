/** Node execution (internal/journey/nodes.go, execute). The profile update and event of an action and
    the intents of a message are not part of the result; every store answer is a parameter. */
module JourneyNodes {
  import opened Common
  import opened JourneyGraph
  import opened JourneyValidate

  const U64: nat := 0x1_0000_0000_0000_0000

  datatype RunStatus = Active | Waiting | Completed | Canceled

  datatype Kind = Advance | Timeout

  datatype NextStep = NextStep(node: string, kind: Kind, availableAt: int)

  datatype Run = Run(status: RunStatus, current: string, goalReached: bool, completedAt: Option<int>,
      waitUntil: Option<int>)

  datatype Result = ExecError | Executed(next: string, step: Option<NextStep>, status: RunStatus,
                                         completedAt: Option<int>, goalReached: bool, waitUntil: Option<int>)

  /** What the store, the gateway and the extension host answer: does a store call fail, does the
      condition match, the branch a model or extension names, the split bucket (below 100), the
      profile's segments, the stored experiment variant and the flag variant. */
  datatype Answers = Answers(
    fails: bool, matched: bool, reply: Option<string>, bucket: nat, segments: set<string>, variant: string,
    flagVariant: string)

  // ---------------------------------------------------------------------------
  // Branch choice

  function RandomPick(bs: seq<SplitBranch>, bucket: nat, i: nat, cumulative: nat): string
    requires i <= |bs|
    decreases |bs| - i
  {
    if i == |bs| then ""
    else
      var c := (cumulative + bs[i].weight) % U64;
      if bucket < c then bs[i].name else RandomPick(bs, bucket, i + 1, c)
  }

  /** A branch without a segment is a default that a later match still overrides. */
  function AudiencePick(bs: seq<SplitBranch>, segments: set<string>, i: nat, branch: string): string
    requires i <= |bs|
    decreases |bs| - i
  {
    if i == |bs| then branch
    else if bs[i].segmentID == "" then AudiencePick(bs, segments, i + 1, bs[i].name)
    else if bs[i].segmentID in segments then bs[i].name
    else AudiencePick(bs, segments, i + 1, branch)
  }

  function OrLast(bs: seq<SplitBranch>, branch: string): string {
    if branch == "" && bs != [] then bs[|bs| - 1].name else branch
  }

  function SplitChoice(c: Config, a: Answers): Option<string>
    requires c.Split?
  {
    if c.experimentID != "" then Some(a.variant)
    else if c.mode == "random" then Some(OrLast(c.branches, RandomPick(c.branches, a.bucket, 0, 0)))
    else if c.mode == "audience" then Some(OrLast(c.branches, AudiencePick(c.branches, a.segments, 0, "")))
    else None
  }

  method ChooseSplit(c: Config, a: Answers) returns (r: Option<string>)
    requires c.Split?
    ensures r == SplitChoice(c, a)
  {
    if c.experimentID != "" { return Some(a.variant); }
    var bs, branch := c.branches, "";
    if c.mode == "random" {
      var cumulative: nat := 0;
      for i := 0 to |bs|
        invariant branch == "" && RandomPick(bs, a.bucket, 0, 0) == RandomPick(bs, a.bucket, i, cumulative)
      {
        cumulative := (cumulative + bs[i].weight) % U64;
        if a.bucket < cumulative {
          return Some(OrLast(bs, bs[i].name));
        }
      }
    } else if c.mode == "audience" {
      for i := 0 to |bs|
        invariant AudiencePick(bs, a.segments, 0, "") == AudiencePick(bs, a.segments, i, branch)
      {
        if bs[i].segmentID == "" {
          branch := bs[i].name;
          continue;
        }
        if bs[i].segmentID in a.segments {
          return Some(OrLast(bs, bs[i].name));
        }
      }
    } else {
      return None;
    }
    return Some(OrLast(bs, branch));
  }

  /** A model or extension can only pick a declared branch; anything else is the fallback. */
  function Declared(options: seq<string>, fallback: string, reply: Option<string>): string {
    if reply.Some? && reply.value in options then reply.value else fallback
  }

  // ---------------------------------------------------------------------------
  // execute

  /** Follow the edge with this branch; the next step is due `delay` later. */
  function Follow(g: Graph, n: Node, run: Run, branch: string, now: int, delay: int): Result {
    match FindNext(g.edges, n.id, branch)
    case None => ExecError
    case Some(next) => Executed(next, Some(NextStep(next, Advance, now + delay)), run.status, run.completedAt,
        run.goalReached, None)
  }

  function Execute(g: Graph, n: Node, run: Run, now: int, kind: Kind, a: Answers): Result {
    match n.config
    case Entry(_, _, _) => Follow(g, n, run, "", now, 0)
    case Delay(d) => if d.BadDuration? then ExecError else Follow(g, n, run, "", now, d.n)
    case Condition => if a.fails then ExecError else Follow(g, n, run, if a.matched then "true" else "false", now, 0)
    case Split(_, _, _) =>
      if a.fails then ExecError
      else (match SplitChoice(n.config, a) case None => ExecError case Some(b) => Follow(g, n, run, b, now, 0))
    case Message => if a.fails then ExecError else Follow(g, n, run, "", now, 0)
    case WaitEvent(_, d) =>
      if d.BadDuration? then ExecError
      else if kind == Timeout then Follow(g, n, run.(status := Active), "timeout", now, 0)
      else Executed(n.id, Some(NextStep(n.id, Timeout, now + d.n)), Waiting, run.completedAt, run.goalReached,
          Some(now + d.n))
    case Action(action) => if action != "profile_update" || a.fails then ExecError else Follow(g, n, run, "", now, 0)
    case Goal => Follow(g, n, run.(goalReached := true), "", now, 0)
    case Exit => Executed("", None, Completed, Some(now), run.goalReached, None)
    case AIDecision(_, _, _, options, fallback) => Follow(g, n, run, Declared(options, fallback, a.reply), now, 0)
    case Extension(_, _, _, options, fallback) => Follow(g, n, run, Declared(options, fallback, a.reply), now, 0)
    case FeatureFlag(key) =>
      if key == "" || a.fails then ExecError
      else Follow(g, n, run, if a.flagVariant == "" then "default" else a.flagVariant, now, 0)
    case Undecodable => ExecError
  }

  // ---------------------------------------------------------------------------
  // Progress

  /** The graphs on which progress is promised: accepted ones without feature flags, experiment or
      empty splits, unsupported split modes or unsupported actions. */
  ghost predicate Runnable(g: Graph) {
    WellFormed(g) && forall i :: 0 <= i < |g.nodes| ==> RunnableConfig(g.nodes[i].config)
  }

  predicate RunnableConfig(c: Config) {
    match c
    case FeatureFlag(_) => false
    case Split(mode, experimentID, branches) => experimentID == "" && mode in {"random", "audience"} && branches != []
    case Action(action) => action == "profile_update"
    case _ => true
  }

  lemma {:induction false} RandomPickIsBranch(bs: seq<SplitBranch>, bucket: nat, i: nat, cumulative: nat)
    requires i <= |bs|
    ensures var r := RandomPick(bs, bucket, i, cumulative); r == "" || r in SplitLabels(bs)
    decreases |bs| - i
  {
    if i < |bs| {
      assert SplitLabels(bs)[i] == bs[i].name;
      RandomPickIsBranch(bs, bucket, i + 1, (cumulative + bs[i].weight) % U64);
    }
  }

  lemma {:induction false} AudiencePickIsBranch(bs: seq<SplitBranch>, segments: set<string>, i: nat, branch: string)
    requires i <= |bs| && (branch == "" || branch in SplitLabels(bs))
    ensures var r := AudiencePick(bs, segments, i, branch); r == "" || r in SplitLabels(bs)
    decreases |bs| - i
  {
    if i < |bs| {
      assert SplitLabels(bs)[i] == bs[i].name;
      AudiencePickIsBranch(bs, segments, i + 1, if bs[i].segmentID == "" then bs[i].name else branch);
    }
  }

  lemma SplitChoosesBranch(c: Config, a: Answers)
    requires c.Split? && RunnableConfig(c)
    ensures SplitChoice(c, a).Some? && SplitChoice(c, a).value in SplitLabels(c.branches)
  {
    var bs := c.branches;
    RandomPickIsBranch(bs, a.bucket, 0, 0);
    AudiencePickIsBranch(bs, a.segments, 0, "");
    assert SplitLabels(bs)[|bs| - 1] == bs[|bs| - 1].name;
  }

  lemma BranchHasEdge(edges: seq<Edge>, id: string, labels: seq<string>, b: string)
    requires ExactBranches(Outgoing(edges, id), labels) && b in labels
    ensures FindNext(edges, id, b).Some?
  {
    var out := Outgoing(edges, id);
    assert b in multiset(labels);
    assert b in Branches(out);
    var k :| 0 <= k < |out| && Branches(out)[k] == b;
    OutgoingExact(edges, id, out[k]);
    FindNextExact(edges, id, b);
  }

  lemma SingleEdge(edges: seq<Edge>, id: string)
    requires |Outgoing(edges, id)| == 1 && Outgoing(edges, id)[0].branch == ""
    ensures FindNext(edges, id, "").Some?
  {
    OutgoingExact(edges, id, Outgoing(edges, id)[0]);
    FindNextExact(edges, id, "");
  }

  /** A step that moves the run along an edge of the graph, due no earlier than `now + delay`. */
  ghost predicate Moves(g: Graph, n: Node, r: Result, now: int, delay: int) {
    && r.Executed? && r.step == Some(NextStep(r.next, Advance, now + delay))
    && exists e :: e in g.edges && e.src == n.id && e.dst == r.next
  }

  lemma FollowMoves(g: Graph, n: Node, run: Run, branch: string, now: int, delay: int)
    requires FindNext(g.edges, n.id, branch).Some?
    ensures Moves(g, n, Follow(g, n, run, branch, now, delay), now, delay)
    ensures Follow(g, n, run, branch, now, delay).status == run.status
  {
    FindNextExact(g.edges, n.id, branch);
    assert Edge(n.id, FindNext(g.edges, n.id, branch).value, branch) in g.edges;
  }

  /** How long a node holds its run before the next step is due. */
  function HoldTime(c: Config): int {
    if c.Delay? && c.duration.Nanos? then c.duration.n else 0
  }

  /** The three ways an execution can go. */
  ghost predicate Progresses(g: Graph, n: Node, run: Run, now: int, kind: Kind, r: Result) {
    if n.config.Exit? then
      r.Executed? && r.next == "" && r.step.None? && r.status == Completed && r.completedAt == Some(now)
    else if n.config.WaitEvent? && kind == Advance then
      && r.Executed? && r.next == n.id && r.status == Waiting
      && n.config.timeout.Nanos? && n.config.timeout.n >= 0
      && r.step == Some(NextStep(n.id, Timeout, now + n.config.timeout.n))
    else
      && Moves(g, n, r, now, HoldTime(n.config)) && HoldTime(n.config) >= 0
      && r.status == if n.config.WaitEvent? then Active else run.status
  }

  lemma BranchProgresses(g: Graph, n: Node, run: Run, now: int, kind: Kind, a: Answers, labels: seq<string>, b: string)
    requires ExactBranches(Outgoing(g.edges, n.id), labels) && b in labels
    requires Branching(n.config)
    requires Execute(g, n, run, now, kind, a) == Follow(g, n, run, b, now, 0)
    ensures Progresses(g, n, run, now, kind, Execute(g, n, run, now, kind, a))
  {
    BranchHasEdge(g.edges, n.id, labels, b);
    FollowMoves(g, n, run, b, now, 0);
  }

  predicate Branching(c: Config) {
    c.Condition? || c.Split? || c.AIDecision? || c.Extension?
  }

  lemma BranchingProgresses(g: Graph, n: Node, run: Run, now: int, kind: Kind, a: Answers)
    requires Branching(n.config) && RunnableConfig(n.config) && !a.fails
    requires ValidOutgoing(n.config, Outgoing(g.edges, n.id))
    ensures Progresses(g, n, run, now, kind, Execute(g, n, run, now, kind, a))
  {
    hide Follow, Outgoing, SplitChoice, Progresses;
    match n.config {
      case Condition =>
        BranchProgresses(g, n, run, now, kind, a, ["true", "false"], if a.matched then "true" else "false");
      case Split(_, _, bs) =>
        SplitChoosesBranch(n.config, a);
        BranchProgresses(g, n, run, now, kind, a, SplitLabels(bs), SplitChoice(n.config, a).value);
      case AIDecision(_, _, _, options, fallback) =>
        BranchProgresses(g, n, run, now, kind, a, options, Declared(options, fallback, a.reply));
      case Extension(_, _, _, options, fallback) =>
        BranchProgresses(g, n, run, now, kind, a, options, Declared(options, fallback, a.reply));
    }
  }

  lemma WaitProgresses(g: Graph, n: Node, run: Run, now: int, kind: Kind, a: Answers)
    requires n.config.WaitEvent? && ValidConfig(n.config) && ValidOutgoing(n.config, Outgoing(g.edges, n.id))
    ensures Progresses(g, n, run, now, kind, Execute(g, n, run, now, kind, a))
  {
    hide Follow, Outgoing;
    BranchHasEdge(g.edges, n.id, ["success", "timeout"], "timeout");
    FollowMoves(g, n, run.(status := Active), "timeout", now, 0);
  }

  lemma SingleProgresses(g: Graph, n: Node, run: Run, now: int, kind: Kind, a: Answers)
    requires RunnableConfig(n.config) && ValidConfig(n.config) && !a.fails
    requires !Branching(n.config) && !n.config.WaitEvent? && ValidOutgoing(n.config, Outgoing(g.edges, n.id))
    ensures Progresses(g, n, run, now, kind, Execute(g, n, run, now, kind, a))
  {
    hide Follow, Outgoing;
    if !n.config.Exit? {
      SingleEdge(g.edges, n.id);
      FollowMoves(g, n, if n.config.Goal? then run.(goalReached := true) else run, "", now, HoldTime(n.config));
    }
  }

  lemma NodeProgresses(g: Graph, n: Node, run: Run, now: int, kind: Kind, a: Answers)
    requires RunnableConfig(n.config) && ValidConfig(n.config) && !a.fails
    requires ValidOutgoing(n.config, Outgoing(g.edges, n.id))
    ensures Progresses(g, n, run, now, kind, Execute(g, n, run, now, kind, a))
  {
    hide Execute, Progresses, Outgoing;
    if Branching(n.config) {
      BranchingProgresses(g, n, run, now, kind, a);
    } else if n.config.WaitEvent? {
      WaitProgresses(g, n, run, now, kind, a);
    } else {
      SingleProgresses(g, n, run, now, kind, a);
    }
  }

  /** On a runnable graph every execution whose store calls succeed completes at an exit, waits at a
      wait_event with a timeout step, or follows an edge, never earlier than the node's hold time. */
  lemma ExecuteProgresses(g: Graph, k: nat, run: Run, now: int, kind: Kind, a: Answers)
    requires Runnable(g) && k < |g.nodes| && !a.fails
    ensures Progresses(g, g.nodes[k], run, now, kind, Execute(g, g.nodes[k], run, now, kind, a))
  {
    var n := g.nodes[k];
    assert RunnableConfig(n.config) && ValidConfig(n.config);
    assert ValidOutgoing(n.config, Outgoing(g.edges, n.id));
    NodeProgresses(g, n, run, now, kind, a);
  }

  lemma NoBranches(edges: seq<Edge>)
    requires ExactBranches(edges, SplitLabels([]))
    ensures edges == []
  {
    assert SplitLabels([]) == [];
    assert |multiset(Branches(edges))| == |multiset(SplitLabels([]))|;
  }

  lemma NoBranchNoEdge(edges: seq<Edge>, id: string)
    requires ExactBranches(Outgoing(edges, id), SplitLabels([]))
    ensures FindNext(edges, id, "").None?
  {
    NoBranches(Outgoing(edges, id));
    FindNextExact(edges, id, "");
    if FindNext(edges, id, "").Some? { OutgoingExact(edges, id, Edge(id, FindNext(edges, id, "").value, "")); }
  }

  lemma EmptySplitFails(g: Graph, n: Node, run: Run, now: int, kind: Kind, a: Answers)
    requires n.config.Split? && n.config.experimentID == "" && n.config.branches == []
    requires ValidOutgoing(n.config, Outgoing(g.edges, n.id))
    ensures Execute(g, n, run, now, kind, a) == ExecError
  {
    NoBranchNoEdge(g.edges, n.id);
    assert RandomPick([], a.bucket, 0, 0) == "" && AudiencePick([], a.segments, 0, "") == "";
  }

  /** On every accepted graph, a split without an experiment and of a supported mode, with working store
      calls, fails exactly when it has no branches; the validator accepts it all the same. */
  lemma SplitFailsIff(g: Graph, k: nat, run: Run, now: int, kind: Kind, a: Answers)
    requires WellFormed(g) && k < |g.nodes| && g.nodes[k].config.Split? && !a.fails
    requires g.nodes[k].config.experimentID == "" && g.nodes[k].config.mode in {"random", "audience"}
    ensures Execute(g, g.nodes[k], run, now, kind, a).ExecError? <==> g.nodes[k].config.branches == []
  {
    hide Execute, Outgoing, Connected;
    var n := g.nodes[k];
    assert ValidConfig(n.config) && ValidOutgoing(n.config, Outgoing(g.edges, n.id));
    if n.config.branches == [] {
      EmptySplitFails(g, n, run, now, kind, a);
    } else {
      NodeProgresses(g, n, run, now, kind, a);
    }
  }
}
