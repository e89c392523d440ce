/** Which branch a node takes (internal/journey/nodes.go): shares of a random split, the first matching
    segment of an audience split, stored experiment variants, declared replies and flag variants. */
module JourneyBranches {
  import opened Common
  import opened JourneyGraph
  import opened JourneyValidate
  import opened JourneyNodes

  /** The label shown for a branch: an empty one counts as no choice, which the last branch stands in for. */
  function Shown(bs: seq<SplitBranch>, i: nat): string
    requires i < |bs|
  {
    if bs[i].name == "" then bs[|bs| - 1].name else bs[i].name
  }

  /** What the validator demands of a split's labels. */
  ghost predicate Labelled(bs: seq<SplitBranch>) {
    "" !in SplitLabels(bs) && Distinct(SplitLabels(bs))
  }

  lemma AcceptedIsLabelled(g: Graph, k: nat)
    requires WellFormed(g) && k < |g.nodes| && g.nodes[k].config.Split?
    ensures Labelled(g.nodes[k].config.branches)
  {
    assert ValidOutgoing(g.nodes[k].config, Outgoing(g.edges, g.nodes[k].id));
  }

  lemma LabelledNames(bs: seq<SplitBranch>, i: nat, j: nat)
    requires Labelled(bs) && i < |bs| && j < |bs|
    ensures bs[i].name != "" && (bs[i].name == bs[j].name ==> i == j)
  {
    assert SplitLabels(bs)[i] == bs[i].name && SplitLabels(bs)[j] == bs[j].name;
  }

  // ---------------------------------------------------------------------------
  // Random splits

  /** The weights of the first `i` branches together. */
  function WeightTo(bs: seq<SplitBranch>, i: nat): int
    requires i <= |bs|
  {
    if i == 0 then 0 else WeightTo(bs, i - 1) + bs[i - 1].weight
  }

  ghost predicate NoWrap(bs: seq<SplitBranch>) {
    (forall i :: 0 <= i < |bs| ==> bs[i].weight >= 0) && WeightTo(bs, |bs|) < U64
  }

  lemma {:induction false} WeightsOrdered(bs: seq<SplitBranch>, i: nat, j: nat)
    requires NoWrap(bs) && i <= j <= |bs|
    ensures 0 <= WeightTo(bs, i) <= WeightTo(bs, j)
    decreases j
  {
    if i < j {
      WeightsOrdered(bs, i, j - 1);
    } else if j > 0 {
      WeightsOrdered(bs, i - 1, j - 1);
    }
  }

  ghost predicate Random(c: Config) {
    c.Split? && c.experimentID == "" && c.mode == "random"
  }

  /** Below the weights through `i` and not below those before it. */
  ghost predicate InShare(bs: seq<SplitBranch>, i: nat, bucket: nat)
    requires i < |bs|
  {
    WeightTo(bs, i) <= bucket && (bucket < WeightTo(bs, i + 1) || i == |bs| - 1)
  }

  lemma {:induction false} PickFrom(bs: seq<SplitBranch>, bucket: nat, j: nat, i: nat)
    requires NoWrap(bs) && j <= i < |bs| && WeightTo(bs, i) <= bucket && WeightTo(bs, j) >= 0
    ensures RandomPick(bs, bucket, j, WeightTo(bs, j)) ==
            if bucket < WeightTo(bs, i + 1) then bs[i].name
            else RandomPick(bs, bucket, i + 1, WeightTo(bs, i + 1) % U64)
    decreases i - j
  {
    WeightsOrdered(bs, j, j + 1);
    WeightsOrdered(bs, j + 1, |bs|);
    if j < i {
      WeightsOrdered(bs, j + 1, i);
      PickFrom(bs, bucket, j + 1, i);
    }
  }

  /** A bucket from the weights before a branch up to those through it takes that branch; the last branch
      also takes what is left over. */
  lemma RandomSplitAt(c: Config, a: Answers, i: nat)
    requires Random(c) && NoWrap(c.branches) && i < |c.branches| && InShare(c.branches, i, a.bucket)
    ensures SplitChoice(c, a) == Some(Shown(c.branches, i))
  {
    var bs := c.branches;
    PickFrom(bs, a.bucket, 0, i);
  }

  lemma {:induction false} ShareOf(bs: seq<SplitBranch>, bucket: nat, n: nat) returns (i: nat)
    requires NoWrap(bs) && n < |bs| && (bucket < WeightTo(bs, n + 1) || n == |bs| - 1)
    ensures i < |bs| && InShare(bs, i, bucket)
  {
    if WeightTo(bs, n) <= bucket {
      i := n;
    } else {
      i := ShareOf(bs, bucket, n - 1);
    }
  }

  /** With the labels of an accepted graph the branch is chosen for exactly those buckets. */
  lemma RandomSplitIff(c: Config, a: Answers, i: nat)
    requires Random(c) && NoWrap(c.branches) && Labelled(c.branches) && i < |c.branches|
    ensures SplitChoice(c, a) == Some(c.branches[i].name) <==> InShare(c.branches, i, a.bucket)
  {
    var bs := c.branches;
    var j := ShareOf(bs, a.bucket, |bs| - 1);
    RandomSplitAt(c, a, j);
    LabelledNames(bs, i, j);
    LabelledNames(bs, j, j);
    if InShare(bs, i, a.bucket) { RandomSplitAt(c, a, i); }
  }

  /** How many of the first `n` buckets choose this label. */
  ghost function Chosen(c: Config, a: Answers, branch: string, n: nat): nat
    requires c.Split?
  {
    if n == 0 then 0
    else Chosen(c, a, branch, n - 1) + if SplitChoice(c, a.(bucket := n - 1)) == Some(branch) then 1 else 0
  }

  function Least(x: int, y: int): int {
    if x < y then x else y
  }

  lemma {:induction false} ChosenUpTo(c: Config, a: Answers, i: nat, n: nat)
    requires Random(c) && NoWrap(c.branches) && Labelled(c.branches) && i < |c.branches|
    requires n <= WeightTo(c.branches, |c.branches|)
    ensures Chosen(c, a, c.branches[i].name, n) ==
            Least(n, WeightTo(c.branches, i + 1)) - Least(n, WeightTo(c.branches, i))
    decreases n
  {
    WeightsOrdered(c.branches, i, i + 1);
    WeightsOrdered(c.branches, i + 1, |c.branches|);
    if n > 0 {
      ChosenUpTo(c, a, i, n - 1);
      RandomSplitIff(c, a.(bucket := n - 1), i);
    }
  }

  /** When the weights sum to 100 each branch takes as many of the 100 buckets as its weight says. */
  lemma RandomShares(c: Config, a: Answers, i: nat)
    requires Random(c) && NoWrap(c.branches) && Labelled(c.branches) && i < |c.branches|
    requires WeightTo(c.branches, |c.branches|) == 100
    ensures Chosen(c, a, c.branches[i].name, 100) == c.branches[i].weight
  {
    ChosenUpTo(c, a, i, 100);
    WeightsOrdered(c.branches, i, i + 1);
    WeightsOrdered(c.branches, i + 1, |c.branches|);
  }

  // ---------------------------------------------------------------------------
  // Audience splits and experiments

  ghost predicate ByAudience(c: Config) {
    c.Split? && c.experimentID == "" && c.mode == "audience"
  }

  predicate Hit(b: SplitBranch, segments: set<string>) {
    b.segmentID != "" && b.segmentID in segments
  }

  /** The last branch without a segment. */
  predicate LastDefault(bs: seq<SplitBranch>, i: nat)
    requires i < |bs|
  {
    bs[i].segmentID == "" && forall k :: i < k < |bs| ==> bs[k].segmentID != ""
  }

  lemma {:induction false} AudienceToMatch(bs: seq<SplitBranch>, segments: set<string>, j: nat, i: nat, branch: string)
    requires j <= i < |bs| && Hit(bs[i], segments) && forall k :: j <= k < i ==> !Hit(bs[k], segments)
    ensures AudiencePick(bs, segments, j, branch) == bs[i].name
    decreases i - j
  {
    if j < i { AudienceToMatch(bs, segments, j + 1, i, if bs[j].segmentID == "" then bs[j].name else branch); }
  }

  /** Whatever came before, the last branch without a segment decides when none matches. */
  lemma {:induction false} AudienceToDefault(bs: seq<SplitBranch>, segments: set<string>, j: nat, branch: string)
    requires j <= |bs| && forall k :: j <= k < |bs| ==> !Hit(bs[k], segments)
    ensures (forall k :: j <= k < |bs| ==> bs[k].segmentID != "") ==> AudiencePick(bs, segments, j, branch) == branch
    ensures forall i :: j <= i < |bs| && LastDefault(bs, i) ==>
              AudiencePick(bs, segments, j, branch) == bs[i].name
    decreases |bs| - j
  {
    if j < |bs| { AudienceToDefault(bs, segments, j + 1, if bs[j].segmentID == "" then bs[j].name else branch); }
  }

  /** The first branch whose segment holds the profile; failing that the last branch without a segment;
      failing that the last branch. */
  lemma AudienceSplitAt(c: Config, a: Answers, i: nat)
    requires ByAudience(c) && i < |c.branches|
    ensures var bs := c.branches;
            && (Hit(bs[i], a.segments) && (forall k :: 0 <= k < i ==> !Hit(bs[k], a.segments)) ==>
                  SplitChoice(c, a) == Some(Shown(bs, i)))
            && ((forall k :: 0 <= k < |bs| ==> !Hit(bs[k], a.segments)) ==>
                  && (LastDefault(bs, i) ==> SplitChoice(c, a) == Some(Shown(bs, i)))
                  && ((forall k :: 0 <= k < |bs| ==> bs[k].segmentID != "") ==>
                        SplitChoice(c, a) == Some(bs[|bs| - 1].name)))
  {
    var bs := c.branches;
    if Hit(bs[i], a.segments) && (forall k :: 0 <= k < i ==> !Hit(bs[k], a.segments)) {
      AudienceToMatch(bs, a.segments, 0, i, "");
    }
    if forall k :: 0 <= k < |bs| ==> !Hit(bs[k], a.segments) {
      AudienceToDefault(bs, a.segments, 0, "");
    }
  }

  // ---------------------------------------------------------------------------
  // The edge that is followed

  /** The run goes to the target of the first edge with this branch; without one the step fails. */
  ghost predicate Takes(g: Graph, n: Node, branch: string, r: Result) {
    if exists e :: e in g.edges && e.src == n.id && e.branch == branch then
      exists k :: 0 <= k < |g.edges| && FirstEdge(g.edges, n.id, branch, k) && r.Executed? && r.next == g.edges[k].dst
    else r == ExecError
  }

  ghost predicate FirstEdge(edges: seq<Edge>, id: string, branch: string, k: int) {
    && 0 <= k < |edges| && edges[k].src == id && edges[k].branch == branch
    && forall j :: 0 <= j < k ==> !(edges[j].src == id && edges[j].branch == branch)
  }

  lemma {:induction false} FindNextFirst(edges: seq<Edge>, id: string, branch: string) returns (k: nat)
    requires FindNext(edges, id, branch).Some?
    ensures FirstEdge(edges, id, branch, k) && FindNext(edges, id, branch).value == edges[k].dst
  {
    if edges[0].src == id && edges[0].branch == branch {
      k := 0;
    } else {
      var rest := FindNextFirst(edges[1..], id, branch);
      k := rest + 1;
      forall j | 0 <= j < k ensures !(edges[j].src == id && edges[j].branch == branch) {
        if j > 0 { assert edges[1..][j - 1] == edges[j]; }
      }
    }
  }

  lemma FollowTakes(g: Graph, n: Node, run: Run, branch: string, now: int, delay: int)
    ensures Takes(g, n, branch, Follow(g, n, run, branch, now, delay))
  {
    FindNextExact(g.edges, n.id, branch);
    if FindNext(g.edges, n.id, branch).Some? {
      var k := FindNextFirst(g.edges, n.id, branch);
      assert g.edges[k] in g.edges;
    }
  }

  /** A model or an extension names one of the declared branches or the fallback is taken. */
  lemma ReplyTaken(g: Graph, n: Node, run: Run, now: int, kind: Kind, a: Answers, options: seq<string>,
                   fallback: string)
    requires || (n.config.AIDecision? && n.config.options == options && n.config.fallback == fallback)
             || (n.config.Extension? && n.config.options == options && n.config.fallback == fallback)
    ensures var r := Execute(g, n, run, now, kind, a);
            && (forall b :: a.reply == Some(b) && b in options ==> Takes(g, n, b, r))
            && ((forall b :: a.reply == Some(b) ==> b !in options) ==> Takes(g, n, fallback, r))
  {
    if a.reply.Some? && a.reply.value in options {
      FollowTakes(g, n, run, a.reply.value, now, 0);
    } else {
      FollowTakes(g, n, run, fallback, now, 0);
    }
  }

  /** A feature flag takes the branch of its variant, `default` when it has none. */
  lemma FlagTaken(g: Graph, n: Node, run: Run, now: int, kind: Kind, a: Answers)
    requires n.config.FeatureFlag?
    ensures var r := Execute(g, n, run, now, kind, a);
            && (n.config.flagKey == "" || a.fails ==> r == ExecError)
            && (n.config.flagKey != "" && !a.fails && a.flagVariant != "" ==> Takes(g, n, a.flagVariant, r))
            && (n.config.flagKey != "" && !a.fails && a.flagVariant == "" ==> Takes(g, n, "default", r))
  {
    FollowTakes(g, n, run, a.flagVariant, now, 0);
    FollowTakes(g, n, run, "default", now, 0);
  }

  /** A condition takes `true` when the profile matches and `false` when it does not. */
  lemma ConditionTaken(g: Graph, n: Node, run: Run, now: int, kind: Kind, a: Answers)
    requires n.config.Condition? && !a.fails
    ensures var r := Execute(g, n, run, now, kind, a);
            (a.matched ==> Takes(g, n, "true", r)) && (!a.matched ==> Takes(g, n, "false", r))
  {
    FollowTakes(g, n, run, "true", now, 0);
    FollowTakes(g, n, run, "false", now, 0);
  }

  /** A split takes the chosen branch; with an experiment that is the stored variant, whatever the mode,
      weights and segments. */
  lemma SplitTaken(g: Graph, n: Node, run: Run, now: int, kind: Kind, a: Answers, b: string)
    requires n.config.Split? && !a.fails
    requires n.config.experimentID == "" ==> SplitChoice(n.config, a) == Some(b)
    requires n.config.experimentID != "" ==> b == a.variant
    ensures Takes(g, n, b, Execute(g, n, run, now, kind, a))
  {
    FollowTakes(g, n, run, b, now, 0);
  }

  /** Exactly goal nodes set the goal; every other node leaves it as it was. */
  lemma GoalReachedIff(g: Graph, n: Node, run: Run, now: int, kind: Kind, a: Answers)
    requires Execute(g, n, run, now, kind, a).Executed?
    ensures Execute(g, n, run, now, kind, a).goalReached <==> run.goalReached || n.config.Goal?
  {
    hide FindNext, SplitChoice, Declared;
  }
}
