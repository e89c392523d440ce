/** Journey graphs (internal/journey/graph.go and the node configs of internal/journey/nodes.go).
    A node carries its decoded configuration; `Undecodable` stands for bad JSON and for unknown or
    unsupported node types, `BadDuration` for text time.ParseDuration rejects. */
module JourneyGraph {
  import opened Common

  datatype Duration = BadDuration | Nanos(n: int)

  datatype SplitBranch = SplitBranch(name: string, weight: int, segmentID: string)

  datatype Config =
    | Entry(trigger: string, segmentID: string, scheduleOk: bool)
    | Delay(duration: Duration)
    | Condition
    | Split(mode: string, experimentID: string, branches: seq<SplitBranch>)
    | Message
    | WaitEvent(eventType: string, timeout: Duration)
    | Action(action: string)
    | Goal
    | Exit
    | AIDecision(promptVersionID: string, timeoutMS: int, maxCostCents: int, options: seq<string>, fallback: string)
    | Extension(extensionID: string, version: int, timeoutMS: int, options: seq<string>, fallback: string)
    | FeatureFlag(flagKey: string)
    | Undecodable

  datatype Node = Node(id: string, config: Config)

  datatype Edge = Edge(src: string, dst: string, branch: string)

  datatype Graph = Graph(entryNodeID: string, nodes: seq<Node>, edges: seq<Edge>)

  /** The edges that leave `id`, in order. */
  function Outgoing(edges: seq<Edge>, id: string): seq<Edge> {
    if edges == [] then []
    else Outgoing(edges[..|edges| - 1], id) + if edges[|edges| - 1].src == id then [edges[|edges| - 1]] else []
  }

  lemma {:induction false} OutgoingExact(edges: seq<Edge>, id: string, e: Edge)
    ensures e in Outgoing(edges, id) <==> e in edges && e.src == id
  {
    if edges != [] {
      var n := |edges| - 1;
      OutgoingExact(edges[..n], id, e);
      assert edges == edges[..n] + [edges[n]];
    }
  }

  ghost predicate IsPath(edges: seq<Edge>, p: seq<string>) {
    p != [] && forall i :: 0 <= i < |p| - 1 ==> Linked(edges, p[i], p[i + 1])
  }

  ghost predicate Linked(edges: seq<Edge>, a: string, b: string) {
    exists e :: e in edges && e.src == a && e.dst == b
  }

  /** There is a path of edges from `a` to `b`. */
  ghost predicate Reachable(edges: seq<Edge>, a: string, b: string) {
    exists p :: IsPath(edges, p) && p[0] == a && p[|p| - 1] == b
  }

  lemma ReachableSelf(edges: seq<Edge>, a: string)
    ensures Reachable(edges, a, a)
  {
    assert IsPath(edges, [a]) && [a][0] == a && [a][|[a]| - 1] == a;
  }

  lemma ReachableStep(edges: seq<Edge>, a: string, b: string, e: Edge)
    requires Reachable(edges, a, b) && e in edges && e.src == b
    ensures Reachable(edges, a, e.dst)
  {
    var p :| IsPath(edges, p) && p[0] == a && p[|p| - 1] == b;
    var q := p + [e.dst];
    forall i | 0 <= i < |q| - 1
      ensures Linked(edges, q[i], q[i + 1])
    {
      if i < |p| - 1 { assert Linked(edges, p[i], p[i + 1]); }
    }
    assert IsPath(edges, q) && q[0] == a && q[|q| - 1] == e.dst;
  }

  ghost predicate Closed(edges: seq<Edge>, s: set<string>) {
    forall e :: e in edges && e.src in s ==> e.dst in s
  }

  lemma {:induction false} PathStaysIn(edges: seq<Edge>, s: set<string>, p: seq<string>)
    requires Closed(edges, s) && IsPath(edges, p) && p[0] in s
    ensures p[|p| - 1] in s
    decreases |p|
  {
    if |p| > 1 {
      var q := p[..|p| - 1];
      assert forall i :: 0 <= i < |q| - 1 ==> Linked(edges, p[i], p[i + 1]);
      PathStaysIn(edges, s, q);
      assert Linked(edges, p[|p| - 2], p[|p| - 1]);
    }
  }

  /** findNextNode: the first edge with the wanted branch. */
  function FindNext(edges: seq<Edge>, id: string, branch: string): Option<string> {
    if edges == [] then None
    else if edges[0].src == id && edges[0].branch == branch then Some(edges[0].dst)
    else FindNext(edges[1..], id, branch)
  }

  method FindNextNode(edges: seq<Edge>, id: string, branch: string) returns (r: Option<string>)
    ensures r == FindNext(edges, id, branch)
  {
    for i := 0 to |edges|
      invariant FindNext(edges, id, branch) == FindNext(edges[i..], id, branch)
    {
      if edges[i].src == id && edges[i].branch == branch { return Some(edges[i].dst); }
    }
    return None;
  }

  /** It finds the target of some edge with that branch exactly when there is one. */
  lemma {:induction false} FindNextExact(edges: seq<Edge>, id: string, branch: string)
    ensures var r := FindNext(edges, id, branch);
            && (r.Some? ==> Edge(id, r.value, branch) in edges)
            && (r.None? ==> forall e :: e in edges ==> !(e.src == id && e.branch == branch))
  {
    if edges != [] {
      FindNextExact(edges[1..], id, branch);
      assert edges == [edges[0]] + edges[1..];
    }
  }
}
