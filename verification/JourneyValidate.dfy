/** The graph validator (internal/journey/validate.go) against a declarative specification. */
module JourneyValidate {
  import opened Common
  import opened JourneyGraph

  const MILLISECOND: int := 1_000_000
  const MAX_AI_TIMEOUT: int := 5_000_000_000
  const MAX_EXTENSION_TIMEOUT: int := 10_000_000_000

  /** int64 wrap-around, as in time.Duration(ms) * time.Millisecond. */
  function Int64(x: int): int {
    (x + 0x8000_0000_0000_0000) % 0x1_0000_0000_0000_0000 - 0x8000_0000_0000_0000
  }

  predicate ValidDuration(d: Duration) {
    d.Nanos? && d.n >= 0
  }

  predicate ValidConfig(c: Config) {
    match c
    case Undecodable => false
    case Entry(trigger, segmentID, scheduleOk) => trigger == "scheduled" ==> segmentID != "" && scheduleOk
    case Delay(d) => ValidDuration(d)
    case WaitEvent(_, d) => ValidDuration(d)
    case AIDecision(prompt, ms, cost, _, _) =>
      prompt != "" && ms > 0 && Int64(ms * MILLISECOND) <= MAX_AI_TIMEOUT && cost > 0
    case Extension(id, version, ms, _, _) =>
      id != "" && version > 0 && ms > 0 && Int64(ms * MILLISECOND) <= MAX_EXTENSION_TIMEOUT
    case _ => true
  }

  function SplitLabels(bs: seq<SplitBranch>): seq<string> {
    seq(|bs|, i requires 0 <= i < |bs| => bs[i].name)
  }

  function Branches(edges: seq<Edge>): seq<string> {
    seq(|edges|, i requires 0 <= i < |edges| => edges[i].branch)
  }

  ghost predicate Distinct(xs: seq<string>) {
    forall i, j :: 0 <= i < j < |xs| ==> xs[i] != xs[j]
  }

  /** The edges carry exactly the labels, each once, and no label is empty or repeated. */
  ghost predicate ExactBranches(edges: seq<Edge>, labels: seq<string>) {
    "" !in labels && Distinct(labels) && multiset(Branches(edges)) == multiset(labels)
  }

  ghost predicate ValidOutgoing(c: Config, edges: seq<Edge>) {
    match c
    case Condition => ExactBranches(edges, ["true", "false"])
    case Split(_, _, bs) => ExactBranches(edges, SplitLabels(bs))
    case WaitEvent(_, _) => ExactBranches(edges, ["success", "timeout"])
    case AIDecision(_, _, _, options, fallback) =>
      fallback != "" && fallback in options && ExactBranches(edges, options)
    case Extension(_, _, _, options, fallback) => fallback != "" && fallback in options && ExactBranches(edges, options)
    case Exit => edges == []
    case FeatureFlag(_) => true
    case Undecodable => false
    case _ => |edges| == 1 && edges[0].branch == ""
  }

  ghost predicate UniqueIDs(nodes: seq<Node>) {
    forall i, j :: 0 <= i < j < |nodes| ==> nodes[i].id != nodes[j].id
  }

  predicate HasID(nodes: seq<Node>, id: string) {
    exists i :: 0 <= i < |nodes| && nodes[i].id == id
  }

  function Entries(nodes: seq<Node>): nat {
    if nodes == [] then 0
    else Entries(nodes[..|nodes| - 1]) + if nodes[|nodes| - 1].config.Entry? then 1 else 0
  }

  ghost predicate NodesOk(g: Graph, n: nat)
    requires n <= |g.nodes|
  {
    && UniqueIDs(g.nodes[..n])
    && forall i :: 0 <= i < n ==>
         && g.nodes[i].id != "" && ValidConfig(g.nodes[i].config)
         && (g.nodes[i].config.Entry? ==> g.nodes[i].id == g.entryNodeID)
  }

  ghost predicate EdgesOk(g: Graph, n: nat)
    requires n <= |g.edges|
  {
    forall i :: 0 <= i < n ==> HasID(g.nodes, g.edges[i].src) && HasID(g.nodes, g.edges[i].dst)
  }

  ghost predicate OutgoingOk(g: Graph, n: nat)
    requires n <= |g.nodes|
  {
    forall i :: 0 <= i < n ==> ValidOutgoing(g.nodes[i].config, Outgoing(g.edges, g.nodes[i].id))
  }

  /** What an accepted graph is. */
  ghost predicate WellFormed(g: Graph) {
    && NodesOk(g, |g.nodes|) && Entries(g.nodes) == 1
    && EdgesOk(g, |g.edges|) && OutgoingOk(g, |g.nodes|)
    && Connected(g)
  }

  ghost predicate Connected(g: Graph) {
    && (forall i :: 0 <= i < |g.nodes| ==> Reachable(g.edges, g.entryNodeID, g.nodes[i].id))
    && (exists i :: 0 <= i < |g.nodes| && g.nodes[i].config.Exit?)
  }

  // ---------------------------------------------------------------------------
  // validateExactBranches

  /** The first loop: the set of wanted labels, unless one is empty or repeated. */
  method WantedLabels(labels: seq<string>) returns (ok: bool, want: set<string>)
    ensures ok <==> "" !in labels && Distinct(labels)
    ensures ok ==> want == set x | x in labels
  {
    want := {};
    for i := 0 to |labels|
      invariant "" !in labels[..i] && Distinct(labels[..i])
      invariant want == set x | x in labels[..i]
    {
      if labels[i] == "" || labels[i] in want { return false, want; }
      want := want + {labels[i]};
      assert labels[..i + 1] == labels[..i] + [labels[i]];
    }
    assert labels[..|labels|] == labels;
    ok := true;
  }

  method ValidateExactBranches(edges: seq<Edge>, labels: seq<string>) returns (ok: bool)
    ensures ok <==> ExactBranches(edges, labels)
  {
    var bs := Branches(edges);
    if |edges| != |labels| {
      assert |multiset(bs)| != |multiset(labels)|;
      return false;
    }
    var labelsOk, want := WantedLabels(labels);
    if !labelsOk { return false; }
    DistinctMultiset(labels);
    for i := 0 to |edges|
      invariant multiset(bs[..i]) + multiset(want) == multiset(labels)
    {
      assert bs[..i + 1] == bs[..i] + [bs[i]];
      if edges[i].branch !in want {
        assert multiset(bs[..i + 1])[bs[i]] > multiset(labels)[bs[i]];
        CountPrefix(bs, i + 1, bs[i]);
        return false;
      }
      TakeOut(want, edges[i].branch);
      want := want - {edges[i].branch};
    }
    assert bs[..|edges|] == bs;
    // As many edges as labels, so the code's last check, that nothing is left to want, always passes.
    assert |multiset(bs) + multiset(want)| == |multiset(labels)|;
    return true;
  }

  lemma TakeOut(want: set<string>, x: string)
    requires x in want
    ensures multiset(want) == multiset{x} + multiset(want - {x})
  {}

  lemma DistinctMultiset(xs: seq<string>)
    requires Distinct(xs)
    ensures multiset(set x | x in xs) == multiset(xs)
  {
    DistinctCounts(xs);
  }

  lemma DistinctCounts(xs: seq<string>)
    requires Distinct(xs)
    ensures forall x :: multiset(xs)[x] == if x in xs then 1 else 0
  {
    if xs != [] {
      var n := |xs| - 1;
      assert xs == xs[..n] + [xs[n]];
      DistinctCounts(xs[..n]);
    }
  }

  lemma CountPrefix(xs: seq<string>, n: nat, x: string)
    requires n <= |xs|
    ensures multiset(xs[..n])[x] <= multiset(xs)[x]
  {
    assert xs == xs[..n] + xs[n..];
  }

  // ---------------------------------------------------------------------------
  // reachableNodes

  function Index(outgoing: map<string, seq<Edge>>, id: string): seq<Edge> {
    if id in outgoing then outgoing[id] else []
  }

  ghost predicate Indexes(outgoing: map<string, seq<Edge>>, edges: seq<Edge>) {
    forall id :: Index(outgoing, id) == Outgoing(edges, id)
  }

  lemma IndexOneMore(outgoing: map<string, seq<Edge>>, edges: seq<Edge>, e: Edge)
    requires Indexes(outgoing, edges)
    ensures Indexes(outgoing[e.src := Index(outgoing, e.src) + [e]], edges + [e])
  {
    assert (edges + [e])[..|edges|] == edges;
    forall id
      ensures Index(outgoing[e.src := Index(outgoing, e.src) + [e]], id) == Outgoing(edges + [e], id)
    {
      assert Index(outgoing, id) == Outgoing(edges, id);
    }
  }

  /** What the search keeps: everything seen is reachable, and everything linked from a node that is
      seen and not waiting in `queue` is seen; `pending` exempts the node being expanded. */
  ghost predicate SearchInv(edges: seq<Edge>, entry: string, seen: set<string>, queue: seq<string>,
      pending: Option<string>) {
    && entry in seen
    && (forall x :: x in queue ==> x in seen)
    && (forall x :: x in seen ==> Reachable(edges, entry, x))
    && (forall e :: e in edges && e.src in seen && e.src !in queue && pending != Some(e.src) ==> e.dst in seen)
  }

  /** The inner loop: queue every unseen target of `current`. */
  method Expand(current: string, out: seq<Edge>, seen0: set<string>, queue0: seq<string>, entry: string,
                ghost edges: seq<Edge>, ghost all: set<string>)
    returns (seen: set<string>, queue: seq<string>)
    requires out == Outgoing(edges, current) && current in seen0 && seen0 <= all
    requires SearchInv(edges, entry, seen0, queue0, Some(current))
    requires forall e :: e in edges ==> e.dst in all
    ensures SearchInv(edges, entry, seen, queue, None)
    ensures seen0 <= seen <= all
    ensures seen == seen0 ==> queue == queue0
  {
    seen, queue := seen0, queue0;
    for i := 0 to |out|
      invariant seen0 <= seen <= all && (seen == seen0 ==> queue == queue0)
      invariant SearchInv(edges, entry, seen, queue, Some(current))
      invariant forall j :: 0 <= j < i ==> out[j].dst in seen
    {
      OutgoingExact(edges, current, out[i]);
      if out[i].dst in seen { continue; }
      ReachableStep(edges, entry, current, out[i]);
      seen := seen + {out[i].dst};
      queue := queue + [out[i].dst];
    }
    forall e | e in edges && e.src == current
      ensures e.dst in seen
    {
      OutgoingExact(edges, current, e);
    }
  }

  /** Breadth-first search; `outgoing` is the edge index built by Validate. */
  method ReachableNodes(entry: string, outgoing: map<string, seq<Edge>>, ghost edges: seq<Edge>)
    returns (seen: set<string>)
    requires Indexes(outgoing, edges)
    ensures forall x :: x in seen <==> Reachable(edges, entry, x)
  {
    seen := {entry};
    var queue := [entry];
    ReachableSelf(edges, entry);
    ghost var all := {entry} + set e | e in edges :: e.dst;
    while queue != []
      invariant SearchInv(edges, entry, seen, queue, None) && seen <= all
      decreases all - seen, |queue|
    {
      var current := queue[0];
      assert queue == [current] + queue[1..];
      assert Index(outgoing, current) == Outgoing(edges, current);
      seen, queue := Expand(current, Index(outgoing, current), seen, queue[1..], entry, edges, all);
    }
    forall x | Reachable(edges, entry, x)
      ensures x in seen
    {
      var p :| IsPath(edges, p) && p[0] == entry && p[|p| - 1] == x;
      PathStaysIn(edges, seen, p);
    }
  }

  // ---------------------------------------------------------------------------
  // Validate

  method ValidateOutgoing(c: Config, edges: seq<Edge>) returns (ok: bool)
    ensures ok <==> ValidOutgoing(c, edges)
  {
    match c {
      case Condition => ok := ValidateExactBranches(edges, ["true", "false"]);
      case Split(_, _, bs) => ok := ValidateExactBranches(edges, SplitLabels(bs));
      case WaitEvent(_, _) => ok := ValidateExactBranches(edges, ["success", "timeout"]);
      case AIDecision(_, _, _, options, fallback) =>
        if fallback == "" || fallback !in options { return false; }
        ok := ValidateExactBranches(edges, options);
      case Extension(_, _, _, options, fallback) =>
        if fallback == "" || fallback !in options { return false; }
        ok := ValidateExactBranches(edges, options);
      case Exit => ok := edges == [];
      case FeatureFlag(_) => ok := true;
      case Undecodable => ok := false;
      case _ => ok := |edges| == 1 && edges[0].branch == "";
    }
  }

  /** The first loop of Validate: nodes, their ids and their configs. */
  method ValidateNodes(g: Graph) returns (ok: bool, ids: set<string>)
    ensures ok <==> NodesOk(g, |g.nodes|) && Entries(g.nodes) == 1
    ensures ok ==> forall x :: x in ids <==> HasID(g.nodes, x)
  {
    ids := {};
    var entryCount := 0;
    for n := 0 to |g.nodes|
      invariant NodesOk(g, n)
      invariant ids == set i | 0 <= i < n :: g.nodes[i].id
      invariant entryCount == Entries(g.nodes[..n])
    {
      var node := g.nodes[n];
      assert g.nodes[..n + 1][..n] == g.nodes[..n];
      if node.id == "" { return false, ids; }
      if node.id in ids {
        var i :| 0 <= i < n && g.nodes[i].id == node.id;
        assert g.nodes[..|g.nodes|][i].id == g.nodes[..|g.nodes|][n].id;
        return false, ids;
      }
      if !ValidConfig(node.config) { return false, ids; }
      if node.config.Entry? {
        entryCount := entryCount + 1;
        if node.id != g.entryNodeID { return false, ids; }
      }
      ids := ids + {node.id};
    }
    assert g.nodes[..|g.nodes|] == g.nodes;
    ok := entryCount == 1;
  }

  ghost predicate Within(edges: seq<Edge>, ids: set<string>) {
    forall i :: 0 <= i < |edges| ==> edges[i].src in ids && edges[i].dst in ids
  }

  lemma WithinIsEdgesOk(g: Graph, ids: set<string>)
    requires forall x :: x in ids <==> HasID(g.nodes, x)
    ensures Within(g.edges, ids) <==> EdgesOk(g, |g.edges|)
  {}

  /** The second loop: edges name known nodes and are indexed by source. */
  method IndexEdges(edges: seq<Edge>, ids: set<string>) returns (ok: bool, outgoing: map<string, seq<Edge>>)
    ensures ok <==> Within(edges, ids)
    ensures ok ==> Indexes(outgoing, edges)
  {
    outgoing := map[];
    for n := 0 to |edges|
      invariant Within(edges[..n], ids)
      invariant Indexes(outgoing, edges[..n])
    {
      var e := edges[n];
      if e.src !in ids || e.dst !in ids { return false, outgoing; }
      IndexOneMore(outgoing, edges[..n], e);
      assert edges[..n + 1] == edges[..n] + [e];
      outgoing := outgoing[e.src := Index(outgoing, e.src) + [e]];
    }
    assert edges[..|edges|] == edges;
    ok := true;
  }

  /** The last two loops: no unreachable node, and an exit. */
  method CheckReachable(g: Graph, seen: set<string>) returns (ok: bool)
    requires forall x :: x in seen <==> Reachable(g.edges, g.entryNodeID, x)
    ensures ok <==> Connected(g)
  {
    for n := 0 to |g.nodes|
      invariant forall i :: 0 <= i < n ==> g.nodes[i].id in seen
    {
      if g.nodes[n].id !in seen { return false; }
    }
    for n := 0 to |g.nodes|
      invariant forall i :: 0 <= i < n ==> !g.nodes[i].config.Exit?
    {
      if g.nodes[n].id in seen && g.nodes[n].config.Exit? { return true; }
    }
    return false;
  }

  method CheckOutgoing(g: Graph, outgoing: map<string, seq<Edge>>) returns (ok: bool)
    requires Indexes(outgoing, g.edges)
    ensures ok <==> OutgoingOk(g, |g.nodes|)
  {
    for n := 0 to |g.nodes|
      invariant OutgoingOk(g, n)
    {
      assert Index(outgoing, g.nodes[n].id) == Outgoing(g.edges, g.nodes[n].id);
      var nodeOk := ValidateOutgoing(g.nodes[n].config, Index(outgoing, g.nodes[n].id));
      if !nodeOk { return false; }
    }
    ok := true;
  }

  method Validate(g: Graph) returns (ok: bool)
    ensures ok <==> WellFormed(g)
  {
    var nodesOk, ids := ValidateNodes(g);
    if !nodesOk { return false; }
    var edgesOk, outgoing := IndexEdges(g.edges, ids);
    WithinIsEdgesOk(g, ids);
    if !edgesOk { return false; }
    var outOk := CheckOutgoing(g, outgoing);
    if !outOk { return false; }
    var seen := ReachableNodes(g.entryNodeID, outgoing, g.edges);
    ok := CheckReachable(g, seen);
  }
}
