/** Feature-flag evaluation (internal/flags/evaluate.go). */
module Flags {
  import opened Experiment

  datatype FlagVariant = FlagVariant(name: string, weight: int, value: string)

  datatype Flag = Flag(
    status: string, enabled: bool, ruleVariants: seq<string>, variants: seq<FlagVariant>,
    rolloutPct: int, defaultValue: string)

  /** What the audience evaluator answers for one targeting rule. */
  datatype RuleAnswer = EvalError | Answer(matches: bool)

  datatype Reason = Disabled | Targeted | Rollout | RolloutExcluded

  datatype Evaluation = Failed | Result(variant: string, value: string, reason: Reason)

  function Lookup(vs: seq<FlagVariant>, name: string, j: nat := 0): (r: int)
    requires j <= |vs|
    ensures r == -1 || (j <= r < |vs| && vs[r].name == name)
    ensures r == -1 ==> forall i :: j <= i < |vs| ==> vs[i].name != name
    ensures r >= 0 ==> forall i :: j <= i < r ==> vs[i].name != name
    decreases |vs| - j
  {
    if j == |vs| then -1 else if vs[j].name == name then j else Lookup(vs, name, j + 1)
  }

  function AsExperiment(vs: seq<FlagVariant>): seq<Variant> {
    seq(|vs|, i requires 0 <= i < |vs| => Variant(vs[i].name, vs[i].weight))
  }

  /** uint64(flag.RolloutPct * 100) */
  function Threshold(pct: int): nat {
    (pct * 100) % U64
  }

  function Default(flag: Flag, reason: Reason): Evaluation {
    Result("", flag.defaultValue, reason)
  }

  function TargetRules(flag: Flag, answers: seq<RuleAnswer>, digest: nat, k: nat): Evaluation
    requires |answers| == |flag.ruleVariants| && k <= |answers|
    decreases |answers| - k
  {
    if k == |answers| then RolloutResult(flag, digest)
    else match answers[k]
      case EvalError => Failed
      case Answer(true) =>
        var i := Lookup(flag.variants, flag.ruleVariants[k]);
        if i >= 0 then Result(flag.ruleVariants[k], flag.variants[i].value, Targeted) else Failed
      case Answer(false) => TargetRules(flag, answers, digest, k + 1)
  }

  function AssignedLabel(flag: Flag, digest: nat): string {
    var vs := AsExperiment(flag.variants);
    var o := OutcomeOf(BucketOf(digest, BUCKETS), vs, 0);
    OutcomeInRange(BucketOf(digest, BUCKETS), vs, 0);
    LabelOf(vs, o).0
  }

  function RolloutResult(flag: Flag, digest: nat): Evaluation {
    if BucketOf(digest, BUCKETS) >= Threshold(flag.rolloutPct) then Default(flag, RolloutExcluded)
    else
      var name := AssignedLabel(flag, digest);
      if name == "" || name == "holdout" then Default(flag, RolloutExcluded)
      else
        var i := Lookup(flag.variants, name);
        if i >= 0 then Result(name, flag.variants[i].value, Rollout) else Default(flag, RolloutExcluded)
  }

  function EvaluationOf(flag: Flag, answers: seq<RuleAnswer>, digest: nat): Evaluation
    requires |answers| == |flag.ruleVariants|
  {
    if flag.status == "disabled" || !flag.enabled then Default(flag, Disabled)
    else TargetRules(flag, answers, digest, 0)
  }

  method FindVariant(vs: seq<FlagVariant>, name: string) returns (r: int)
    ensures r == Lookup(vs, name)
  {
    for i := 0 to |vs|
      invariant Lookup(vs, name) == Lookup(vs, name, i)
    {
      if vs[i].name == name { return i; }
    }
    return -1;
  }

  method Evaluate(flag: Flag, answers: seq<RuleAnswer>, digest: nat) returns (e: Evaluation)
    requires |answers| == |flag.ruleVariants|
    ensures e == EvaluationOf(flag, answers, digest)
  {
    if flag.status == "disabled" || !flag.enabled {
      return Default(flag, Disabled);
    }
    for k := 0 to |answers|
      invariant EvaluationOf(flag, answers, digest) == TargetRules(flag, answers, digest, k)
    {
      if answers[k].EvalError? { return Failed; }
      if answers[k].matches {
        var i := FindVariant(flag.variants, flag.ruleVariants[k]);
        if i >= 0 { return Result(flag.ruleVariants[k], flag.variants[i].value, Targeted); }
        return Failed;
      }
    }
    var bucket := BucketOf(digest, BUCKETS);
    if bucket < Threshold(flag.rolloutPct) {
      var expVariants: seq<Variant> := [];
      for i := 0 to |flag.variants|
        invariant expVariants == AsExperiment(flag.variants)[..i]
      {
        expVariants := expVariants + [Variant(flag.variants[i].name, flag.variants[i].weight)];
      }
      assert expVariants == AsExperiment(flag.variants);
      var name, _ := Assign(digest, expVariants, 0);
      assert name == AssignedLabel(flag, digest);
      if name == "" || name == "holdout" { return Default(flag, RolloutExcluded); }
      var i := FindVariant(flag.variants, name);
      if i >= 0 { return Result(name, flag.variants[i].value, Rollout); }
      return Default(flag, RolloutExcluded);
    }
    return Default(flag, RolloutExcluded);
  }

  // ---------------------------------------------------------------------------
  // Kill switch and targeting

  predicate Off(flag: Flag) {
    flag.status == "disabled" || !flag.enabled
  }

  /** Rule `k` matches or errors, and none before it does. */
  ghost predicate Decides(answers: seq<RuleAnswer>, k: int) {
    0 <= k < |answers| && answers[k] != Answer(false) && forall j :: 0 <= j < k ==> answers[j] == Answer(false)
  }

  ghost predicate FirstNamed(vs: seq<FlagVariant>, name: string, i: int) {
    0 <= i < |vs| && vs[i].name == name && forall j :: 0 <= j < i ==> vs[j].name != name
  }

  ghost predicate HasVariant(flag: Flag, name: string) {
    exists i :: 0 <= i < |flag.variants| && flag.variants[i].name == name
  }

  lemma {:induction false} DecidesFrom(flag: Flag, answers: seq<RuleAnswer>, digest: nat, i: nat, k: nat)
    requires |answers| == |flag.ruleVariants| && i <= k <= |answers|
    requires forall j :: i <= j < k ==> answers[j] == Answer(false)
    ensures TargetRules(flag, answers, digest, i) == TargetRules(flag, answers, digest, k)
    decreases k - i
  {
    if i < k { DecidesFrom(flag, answers, digest, i + 1, k); }
  }

  lemma FirstDecision(answers: seq<RuleAnswer>) returns (k: nat)
    ensures k <= |answers| && forall j :: 0 <= j < k ==> answers[j] == Answer(false)
    ensures k < |answers| ==> Decides(answers, k)
  {
    k := 0;
    while k < |answers| && answers[k] == Answer(false)
      invariant k <= |answers| && forall j :: 0 <= j < k ==> answers[j] == Answer(false)
    {
      k := k + 1;
    }
  }

  /** A flag that is off answers its default, whatever rules and rollout say, and only such a flag answers
      with that reason. */
  lemma OffAnswersDefault(flag: Flag, answers: seq<RuleAnswer>, digest: nat)
    requires |answers| == |flag.ruleVariants|
    ensures var e := EvaluationOf(flag, answers, digest);
            && (Off(flag) ==> e == Result("", flag.defaultValue, Disabled))
            && (e.Result? && e.reason == Disabled ==> Off(flag))
  {
    if !Off(flag) {
      var k := FirstDecision(answers);
      DecidesFrom(flag, answers, digest, 0, k);
      RolloutReason(flag, digest);
    }
  }

  lemma RolloutReason(flag: Flag, digest: nat)
    ensures var e := RolloutResult(flag, digest);
            e.Result? && (e.reason == Rollout || e == Result("", flag.defaultValue, RolloutExcluded))
  {}

  /** The reason is `Targeted` exactly when the flag is on and the first rule that matches or errors is a
      match whose variant exists; variant and value are then the ones that rule names. */
  lemma TargetedIff(flag: Flag, answers: seq<RuleAnswer>, digest: nat, name: string, value: string)
    requires |answers| == |flag.ruleVariants|
    ensures EvaluationOf(flag, answers, digest) == Result(name, value, Targeted) <==>
            && !Off(flag)
            && exists k, i :: Decides(answers, k) && answers[k] == Answer(true) && flag.ruleVariants[k] == name
                              && FirstNamed(flag.variants, name, i) && flag.variants[i].value == value
  {
    if !Off(flag) {
      var k := FirstDecision(answers);
      DecidesFrom(flag, answers, digest, 0, k);
      if k == |answers| {
        RolloutReason(flag, digest);
      } else if answers[k] == Answer(true) {
        var i := Lookup(flag.variants, flag.ruleVariants[k]);
        if i >= 0 { assert FirstNamed(flag.variants, flag.ruleVariants[k], i); }
      }
      forall k' | Decides(answers, k') ensures k' == k {}
    }
  }

  /** Evaluation errors exactly when the flag is on and the first rule that does not answer no errors or
      names a variant the flag has not. */
  lemma FailedIff(flag: Flag, answers: seq<RuleAnswer>, digest: nat)
    requires |answers| == |flag.ruleVariants|
    ensures EvaluationOf(flag, answers, digest) == Failed <==>
            && !Off(flag)
            && exists k :: Decides(answers, k) && (answers[k] == EvalError || !HasVariant(flag, flag.ruleVariants[k]))
  {
    if !Off(flag) {
      var k := FirstDecision(answers);
      DecidesFrom(flag, answers, digest, 0, k);
      if k == |answers| { RolloutReason(flag, digest); }
      forall k' | Decides(answers, k') ensures k' == k {}
    }
  }

  /** With every rule answering no, the flag gives the rollout's result. */
  lemma UntargetedIsRollout(flag: Flag, answers: seq<RuleAnswer>, digest: nat)
    requires |answers| == |flag.ruleVariants| && !Off(flag)
    requires forall k :: 0 <= k < |answers| ==> answers[k] == Answer(false)
    ensures EvaluationOf(flag, answers, digest) == RolloutResult(flag, digest)
  {
    DecidesFrom(flag, answers, digest, 0, |answers|);
  }

  // ---------------------------------------------------------------------------
  // Rollout

  /** Raising the percentage never changes what a subject already in the rollout gets,
      whatever the rules answer, even with repeated labels. */
  lemma RolloutIsSticky(flag: Flag, pct: int, answers: seq<RuleAnswer>, digest: nat)
    requires |answers| == |flag.ruleVariants|
    requires 0 <= flag.rolloutPct <= pct <= 100
    ensures var before := EvaluationOf(flag, answers, digest);
            var after := EvaluationOf(flag.(rolloutPct := pct), answers, digest);
            before == after || before == Default(flag, RolloutExcluded)
  {
    if flag.status != "disabled" && flag.enabled { StickyFrom(flag, pct, answers, digest, 0); }
  }

  lemma {:induction false} StickyFrom(flag: Flag, pct: int, answers: seq<RuleAnswer>, digest: nat, k: nat)
    requires |answers| == |flag.ruleVariants| && k <= |answers|
    requires 0 <= flag.rolloutPct <= pct <= 100
    ensures var before := TargetRules(flag, answers, digest, k);
            before == TargetRules(flag.(rolloutPct := pct), answers, digest, k) ||
                before == Default(flag, RolloutExcluded)
    decreases |answers| - k
  {
    if k < |answers| { StickyFrom(flag, pct, answers, digest, k + 1); } else { StickyRollout(flag, pct, digest); }
  }

  lemma StickyRollout(flag: Flag, pct: int, digest: nat)
    requires 0 <= flag.rolloutPct <= pct <= 100
    ensures var before := RolloutResult(flag, digest);
            before == RolloutResult(flag.(rolloutPct := pct), digest) || before == Default(flag, RolloutExcluded)
  {
    assert AssignedLabel(flag, digest) == AssignedLabel(flag.(rolloutPct := pct), digest);
    assert Threshold(flag.rolloutPct) == 100 * flag.rolloutPct && Threshold(pct) == 100 * pct;
  }

  ghost predicate WellLabelled(flag: Flag) {
    && (forall i :: 0 <= i < |flag.variants| ==> flag.variants[i].name !in {"", "holdout"})
    && (forall i, j :: 0 <= i < j < |flag.variants| ==> flag.variants[i].name != flag.variants[j].name)
  }

  /** The subjects a variant reaches at `pct` are its interval cut off at the rollout threshold. */
  lemma ServedAt(flag: Flag, digest: nat, j: nat)
    requires WellLabelled(flag) && Fits(AsExperiment(flag.variants)) && j < |flag.variants|
    requires 0 <= flag.rolloutPct <= 100
    ensures var vs, b := AsExperiment(flag.variants), BucketOf(digest, BUCKETS);
            RolloutResult(flag, digest) == Result(flag.variants[j].name, flag.variants[j].value, Rollout) <==>
            b < 100 * flag.rolloutPct && Bound(vs, 0, j) <= b < Bound(vs, 0, j + 1)
  {
    var vs, b := AsExperiment(flag.variants), BucketOf(digest, BUCKETS);
    ServedInterval(vs, 0, b, j);
    OutcomeInRange(b, vs, 0);
    var o := OutcomeOf(b, vs, 0);
    assert o.Chosen?;
    assert AssignedLabel(flag, digest) == flag.variants[o.index].name;
  }

  /** The gate and the assignment share one bucket, so a partial rollout fills the variants in
      order: once variant `j` reaches anyone, every earlier variant reaches everyone it ever will. */
  lemma RolloutFillsInOrder(flag: Flag, digest: nat, j: nat, other: nat, i: nat)
    requires WellLabelled(flag) && Fits(AsExperiment(flag.variants)) && i < j < |flag.variants|
    requires 0 <= flag.rolloutPct <= 100
    requires RolloutResult(flag, digest) == Result(flag.variants[j].name, flag.variants[j].value, Rollout)
    requires RolloutResult(flag.(rolloutPct := 100), other) ==
             Result(flag.variants[i].name, flag.variants[i].value, Rollout)
    ensures RolloutResult(flag, other) == RolloutResult(flag.(rolloutPct := 100), other)
  {
    ServedAt(flag, digest, j);
    ServedAt(flag, other, i);
    ServedAt(flag.(rolloutPct := 100), other, i);
    BoundMonotone(AsExperiment(flag.variants), i + 1, j);
  }

  lemma {:induction false} BoundMonotone(vs: seq<Variant>, i: nat, j: nat)
    requires Fits(vs) && i <= j <= |vs|
    ensures Bound(vs, 0, i) <= Bound(vs, 0, j)
    decreases j
  {
    if i < j {
      BoundMonotone(vs, i, j - 1);
      BoundsOrdered(vs, 0, j - 1);
    }
  }

  ghost predicate AdmitsEveryone(pct: int) {
    forall digest: nat :: BucketOf(digest, BUCKETS) < Threshold(pct)
  }

  /** The gate admits every bucket exactly at 100 and above, and below zero, where the conversion wraps;
      the store accepts percentages from 0 to 100 only, and of those only 100 admits everyone. */
  lemma AdmitsEveryoneIff(pct: int)
    requires -(U64 / 2) <= pct * 100 < U64 / 2
    ensures AdmitsEveryone(pct) <==> pct < 0 || pct >= 100
  {
    if pct < 0 {
      assert (pct * 100) % U64 == pct * 100 + U64;
    } else {
      assert Threshold(pct) == pct * 100;
      assert BucketOf(9_999, BUCKETS) == 9_999;
    }
  }
}
