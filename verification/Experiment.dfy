/** Deterministic weighted assignment (internal/experiment/assign.go).

    The SHA-256 digest is a parameter: everything here holds for every digest.
    Go's uint64 arithmetic is written out with `% U64`. */
module Experiment {

  const BUCKETS: nat := 10_000
  const U64: nat := 0x1_0000_0000_0000_0000

  datatype Variant = Variant(name: string, weight: int)

  /** What one call decides; `Fallback` is the return after the last loop. */
  datatype Outcome = Holdout | NoVariant | Chosen(index: nat) | Fallback

  function BucketOf(digest: nat, modulus: nat): (b: nat)
    ensures modulus != 0 ==> b < modulus
  {
    if modulus == 0 then 0 else digest % modulus
  }

  function ClampPct(pct: int): nat {
    if pct < 0 then 0 else if pct > 100 then 100 else pct
  }

  function Positive(w: int): nat {
    if w > 0 then w else 0
  }

  /** The sum of the positive weights of the first `j` variants. */
  function Cum(vs: seq<Variant>, j: nat): nat
    requires j <= |vs|
  {
    if j == 0 then 0 else Cum(vs, j - 1) + Positive(vs[j - 1].weight)
  }

  function Total(vs: seq<Variant>): nat {
    Cum(vs, |vs|)
  }

  function AddU64(x: nat, y: nat): nat {
    (x + y) % U64
  }

  /** The same sum as the loops accumulate it, in uint64. */
  function CumU64(vs: seq<Variant>, j: nat): nat
    requires j <= |vs|
  {
    if j == 0 then 0
    else if vs[j - 1].weight > 0 then AddU64(CumU64(vs, j - 1), vs[j - 1].weight)
    else CumU64(vs, j - 1)
  }

  function FirstBelow(vs: seq<Variant>, target: nat, j: nat): Outcome
    requires j <= |vs|
    decreases |vs| - j
  {
    if j == |vs| then Fallback
    else if target < CumU64(vs, j + 1) then Chosen(j)
    else FirstBelow(vs, target, j + 1)
  }

  /** uint64 multiplication. */
  function MulU64(x: nat, y: nat): (p: nat)
    ensures p < U64
    ensures x * y < U64 ==> p == x * y
  {
    (x * y) % U64
  }

  function Scale(x: nat, total: nat, remaining: nat): nat
    requires remaining > 0
  {
    MulU64(x, total) / remaining
  }

  function OutcomeOf(bucket: nat, vs: seq<Variant>, holdoutPct: int): Outcome {
    var held := ClampPct(holdoutPct) * 100;
    if bucket < held then Holdout
    else
      var total := CumU64(vs, |vs|);
      if total == 0 || BUCKETS == held then NoVariant
      else FirstBelow(vs, Scale(bucket - held, total, BUCKETS - held), 0)
  }

  function LabelOf(vs: seq<Variant>, o: Outcome): (string, bool)
    requires o.Chosen? ==> o.index < |vs|
    requires o.Fallback? ==> vs != []
  {
    match o
    case Holdout => ("holdout", true)
    case NoVariant => ("", false)
    case Chosen(i) => (vs[i].name, false)
    case Fallback => (vs[|vs| - 1].name, false)
  }

  lemma OutcomeInRange(bucket: nat, vs: seq<Variant>, holdoutPct: int)
    ensures OutcomeOf(bucket, vs, holdoutPct).Chosen? ==> OutcomeOf(bucket, vs, holdoutPct).index < |vs|
    ensures OutcomeOf(bucket, vs, holdoutPct).Fallback? ==> vs != []
  {
    var held := ClampPct(holdoutPct) * 100;
    var total := CumU64(vs, |vs|);
    if held <= bucket && total != 0 && BUCKETS != held {
      FirstInRange(vs, Scale(bucket - held, total, BUCKETS - held), 0);
    }
  }

  lemma {:induction false} FirstInRange(vs: seq<Variant>, target: nat, j: nat)
    requires j <= |vs|
    ensures var o := FirstBelow(vs, target, j);
            o == Fallback || (o.Chosen? && j <= o.index < |vs|)
    decreases |vs| - j
  {
    if j < |vs| && !(target < CumU64(vs, j + 1)) {
      FirstInRange(vs, target, j + 1);
    }
  }

  method Assign(digest: nat, variants: seq<Variant>, holdoutPct: int) returns (variant: string, holdout: bool)
    ensures var o := OutcomeOf(BucketOf(digest, BUCKETS), variants, holdoutPct);
            && (o.Chosen? ==> o.index < |variants|)
            && (o.Fallback? ==> variants != [])
            && (variant, holdout) == LabelOf(variants, o)
  {
    var pct := holdoutPct;
    if pct < 0 {
      pct := 0;
    } else if pct > 100 {
      pct := 100;
    }
    var bucket := BucketOf(digest, BUCKETS);
    ghost var o := OutcomeOf(bucket, variants, holdoutPct);
    OutcomeInRange(bucket, variants, holdoutPct);
    var holdoutBuckets := pct * 100;
    if bucket < holdoutBuckets {
      return "holdout", true;
    }
    var totalWeight := 0;
    for i := 0 to |variants|
      invariant totalWeight == CumU64(variants, i)
    {
      if variants[i].weight > 0 {
        totalWeight := AddU64(totalWeight, variants[i].weight);
      }
    }
    var remaining := BUCKETS - holdoutBuckets;
    if totalWeight == 0 || remaining == 0 {
      return "", false;
    }
    var weighted := Scale(bucket - holdoutBuckets, totalWeight, remaining);
    var cumulative := 0;
    for i := 0 to |variants|
      invariant cumulative == CumU64(variants, i)
      invariant o == FirstBelow(variants, weighted, i)
    {
      if variants[i].weight > 0 {
        cumulative := AddU64(cumulative, variants[i].weight);
      }
      if weighted < cumulative {
        return variants[i].name, false;
      }
    }
    return variants[|variants| - 1].name, false;
  }

  // ---------------------------------------------------------------------------
  // Exact apportionment

  function CeilDiv(a: nat, b: nat): nat
    requires b > 0
  {
    if a <= b then if a == 0 then 0 else 1
    else 1 + CeilDiv(a - b, b)
  }

  /** First bucket (after the holdout) that no longer belongs to the first `j` variants. */
  function Bound(vs: seq<Variant>, holdoutPct: int, j: nat): nat
    requires j <= |vs| && Total(vs) > 0
  {
    CeilDiv(Cum(vs, j) * (BUCKETS - 100 * ClampPct(holdoutPct)), Total(vs))
  }

  /** The totals for which every product stays below 2^64. */
  ghost predicate Fits(vs: seq<Variant>) {
    0 < Total(vs) <= (U64 - 1) / BUCKETS
  }

  lemma {:induction false} CumMonotone(vs: seq<Variant>, i: nat, j: nat)
    requires i <= j <= |vs|
    ensures Cum(vs, i) <= Cum(vs, j)
    decreases j
  {
    if i < j { CumMonotone(vs, i, j - 1); }
  }

  lemma {:induction false} CeilBelow(x: nat, a: nat, b: nat)
    requires b > 0
    ensures x < CeilDiv(a, b) <==> x * b < a
    decreases a
  {
    if a > b {
      if x > 0 {
        CeilBelow(x - 1, a - b, b);
        assert x * b == (x - 1) * b + b;
      }
    } else if x > 0 {
      MulMono(1, x, b);
    }
  }

  lemma MulMono(a: nat, b: nat, c: nat)
    requires a <= b
    ensures a * c <= b * c
  {}

  lemma DivBelow(n: nat, r: nat, c: nat)
    requires r > 0
    ensures n / r < c <==> n < c * r
  {
    var q := n / r;
    assert n == q * r + n % r;
    if q < c {
      MulMono(q + 1, c, r);
      assert (q + 1) * r == q * r + r;
    } else {
      MulMono(c, q, r);
    }
  }

  lemma {:induction false} CumExact(vs: seq<Variant>, j: nat)
    requires j <= |vs| && Total(vs) < U64
    ensures CumU64(vs, j) == Cum(vs, j)
  {
    if j > 0 {
      CumExact(vs, j - 1);
      CumMonotone(vs, j, |vs|);
    }
  }

  /** Scaling a bucket and comparing with a cumulative weight is comparing the bucket with a bound. */
  lemma ScaleBelow(x: nat, t: nat, r: nat, c: nat)
    requires r > 0 && t > 0 && x * t < U64
    ensures Scale(x, t, r) < c <==> x < CeilDiv(c * r, t)
  {
    DivBelow(x * t, r, c);
    CeilBelow(x, c * r, t);
  }

  lemma {:induction false} FirstIsInterval(vs: seq<Variant>, target: nat, from: nat, j: nat)
    requires from <= |vs| && j < |vs|
    requires Total(vs) < U64 && Cum(vs, from) <= target
    ensures FirstBelow(vs, target, from) == Chosen(j) <==> Cum(vs, j) <= target < Cum(vs, j + 1)
    ensures target < Total(vs) ==> FirstBelow(vs, target, from) != Fallback
    decreases |vs| - from
  {
    if from == |vs| {
      CumMonotone(vs, j + 1, from);
    } else {
      CumMonotone(vs, from + 1, |vs|);
      CumExact(vs, from + 1);
      if target < Cum(vs, from + 1) {
        if j < from {
          CumMonotone(vs, j + 1, from);
        } else if from < j {
          CumMonotone(vs, from + 1, j);
        }
      } else {
        FirstIsInterval(vs, target, from + 1, j);
      }
    }
  }

  /** A bucket gets variant `j` exactly when it lies in the variant's interval. */
  lemma ServedInterval(vs: seq<Variant>, holdoutPct: int, bucket: nat, j: nat)
    requires Fits(vs) && j < |vs| && bucket < BUCKETS
    ensures var held := 100 * ClampPct(holdoutPct);
            OutcomeOf(bucket, vs, holdoutPct) == Chosen(j) <==>
            held + Bound(vs, holdoutPct, j) <= bucket < held + Bound(vs, holdoutPct, j + 1)
    ensures OutcomeOf(bucket, vs, holdoutPct) !in {Fallback, NoVariant}
    ensures OutcomeOf(bucket, vs, holdoutPct) == Holdout <==> bucket < 100 * ClampPct(holdoutPct)
  {
    var held := 100 * ClampPct(holdoutPct);
    if held <= bucket {
      var x, t, r := bucket - held, Total(vs), BUCKETS - held;
      NoOverflow(x, t);
      CumExact(vs, |vs|);
      var target := Scale(x, t, r);
      FirstInRange(vs, target, 0);
      FirstIsInterval(vs, target, 0, j);
      ScaleBelow(x, t, r, Cum(vs, j));
      ScaleBelow(x, t, r, Cum(vs, j + 1));
      ScaleBelow(x, t, r, t);
      CeilExact(r, t);
    }
  }

  lemma NoOverflow(x: nat, t: nat)
    requires x < BUCKETS && t <= (U64 - 1) / BUCKETS
    ensures t < U64 && x * t < U64
  {
    MulMono(x, BUCKETS, t);
  }

  /** The buckets served variant `j`. */
  ghost function Served(vs: seq<Variant>, holdoutPct: int, j: nat): set<int> {
    set b: int | 0 <= b < BUCKETS && OutcomeOf(b, vs, holdoutPct) == Chosen(j)
  }

  ghost function Held(vs: seq<Variant>, holdoutPct: int): set<int> {
    set b: int | 0 <= b < BUCKETS && OutcomeOf(b, vs, holdoutPct) == Holdout
  }

  ghost function Interval(lo: nat, hi: nat): (s: set<int>)
    requires lo <= hi
    ensures forall b {:trigger b in s} :: b in s <==> lo <= b < hi
    ensures |s| == hi - lo
    decreases hi
  {
    if lo == hi then {} else Interval(lo, hi - 1) + {hi - 1}
  }

  lemma BoundsOrdered(vs: seq<Variant>, holdoutPct: int, j: nat)
    requires Fits(vs) && j < |vs|
    ensures Bound(vs, holdoutPct, j) <= Bound(vs, holdoutPct, j + 1) <= BUCKETS - 100 * ClampPct(holdoutPct)
    ensures Bound(vs, holdoutPct, 0) == 0
    ensures Bound(vs, holdoutPct, |vs|) == BUCKETS - 100 * ClampPct(holdoutPct)
  {
    var r, t := BUCKETS - 100 * ClampPct(holdoutPct), Total(vs);
    CumMonotone(vs, j, j + 1);
    CumMonotone(vs, j + 1, |vs|);
    CeilMono(Cum(vs, j) * r, Cum(vs, j + 1) * r, t) by { MulMono(Cum(vs, j), Cum(vs, j + 1), r); }
    CeilMono(Cum(vs, j + 1) * r, t * r, t) by { MulMono(Cum(vs, j + 1), t, r); }
    CeilExact(r, t);
  }

  lemma CeilMono(a: nat, a': nat, b: nat)
    requires a <= a' && b > 0
    ensures CeilDiv(a, b) <= CeilDiv(a', b)
  {
    if CeilDiv(a', b) < CeilDiv(a, b) {
      CeilBelow(CeilDiv(a', b), a, b);
      CeilBelow(CeilDiv(a', b), a', b);
      assert false;
    }
  }

  lemma CeilExact(r: nat, t: nat)
    requires t > 0
    ensures CeilDiv(t * r, t) == r
  {
    CeilBelow(r, t * r, t);
    if r > 0 { CeilBelow(r - 1, t * r, t); assert (r - 1) * t < t * r; }
  }

  lemma ServedSize(vs: seq<Variant>, holdoutPct: int, j: nat)
    requires Fits(vs) && j < |vs|
    ensures |Served(vs, holdoutPct, j)| == Bound(vs, holdoutPct, j + 1) - Bound(vs, holdoutPct, j)
  {
    var held := 100 * ClampPct(holdoutPct);
    var lo, hi := Bound(vs, holdoutPct, j), Bound(vs, holdoutPct, j + 1);
    BoundsOrdered(vs, holdoutPct, j);
    forall b: nat | b < BUCKETS
      ensures OutcomeOf(b, vs, holdoutPct) == Chosen(j) <==> held + lo <= b < held + hi
    {
      ServedInterval(vs, holdoutPct, b, j);
    }
    assert Served(vs, holdoutPct, j) == Interval(held + lo, held + hi);
  }

  lemma HoldsBelow(b: nat, vs: seq<Variant>, holdoutPct: int)
    ensures OutcomeOf(b, vs, holdoutPct) == Holdout <==> b < 100 * ClampPct(holdoutPct)
  {
    var held, total := ClampPct(holdoutPct) * 100, CumU64(vs, |vs|);
    if held <= b && total != 0 && BUCKETS != held { FirstInRange(vs, Scale(b - held, total, BUCKETS - held), 0); }
  }

  /** The holdout takes its share whatever the weights are. */
  lemma HeldSize(vs: seq<Variant>, holdoutPct: int)
    ensures |Held(vs, holdoutPct)| == 100 * ClampPct(holdoutPct)
  {
    var held := 100 * ClampPct(holdoutPct);
    forall b: nat | b < BUCKETS
      ensures OutcomeOf(b, vs, holdoutPct) == Holdout <==> b < held
    {
      HoldsBelow(b, vs, holdoutPct);
    }
    assert Held(vs, holdoutPct) == Interval(0, held);
  }

  lemma CeilGap(a: nat, d: nat, t: nat)
    requires t > 0 && CeilDiv(a, t) <= CeilDiv(a + d, t)
    ensures var n := CeilDiv(a + d, t) - CeilDiv(a, t);
            n * t - t < d < n * t + t
  {
    var lo, n := CeilDiv(a, t), CeilDiv(a + d, t) - CeilDiv(a, t);
    CeilBracket(a, t);
    CeilBracket(a + d, t);
    assert (lo + n) * t == lo * t + n * t by { Distribute(lo, n, t); }
  }

  /** Each variant's share of the buckets is its exact quota, rounded by less than one. */
  lemma ExactApportionment(vs: seq<Variant>, holdoutPct: int, j: nat)
    requires Fits(vs) && j < |vs|
    ensures var n := |Served(vs, holdoutPct, j)|;
            var quota := Positive(vs[j].weight) * (BUCKETS - 100 * ClampPct(holdoutPct));
            n * Total(vs) - Total(vs) < quota < n * Total(vs) + Total(vs)
    ensures vs[j].weight <= 0 ==> Served(vs, holdoutPct, j) == {}
  {
    BoundsOrdered(vs, holdoutPct, j);
    ServedSize(vs, holdoutPct, j);
    var c, w, t := Cum(vs, j), Positive(vs[j].weight), Total(vs);
    var r := BUCKETS - 100 * ClampPct(holdoutPct);
    ApportionStep(c, w, r, t, |Served(vs, holdoutPct, j)|);
  }

  lemma ApportionStep(c: nat, w: nat, r: nat, t: nat, n: nat)
    requires t > 0 && CeilDiv((c + w) * r, t) == CeilDiv(c * r, t) + n
    ensures n * t - t < w * r < n * t + t
  {
    Distribute(c, w, r);
    CeilGap(c * r, w * r, t);
  }

  lemma Distribute(a: nat, b: nat, c: nat)
    ensures (a + b) * c == a * c + b * c
  {}

  lemma CeilBracket(a: nat, b: nat)
    requires b > 0
    ensures a <= CeilDiv(a, b) * b < a + b
  {
    var q := CeilDiv(a, b);
    CeilBelow(q, a, b);
    if q > 0 { CeilBelow(q - 1, a, b); assert (q - 1) * b == q * b - b; }
  }

  ghost function ServedTotal(vs: seq<Variant>, holdoutPct: int, j: nat): nat
    requires Fits(vs) && j <= |vs|
  {
    if j == 0 then 0 else ServedTotal(vs, holdoutPct, j - 1) + |Served(vs, holdoutPct, j - 1)|
  }

  /** No bucket is lost and none is counted twice. */
  lemma SharesSumToAllBuckets(vs: seq<Variant>, holdoutPct: int)
    requires Fits(vs)
    ensures |Held(vs, holdoutPct)| + ServedTotal(vs, holdoutPct, |vs|) == BUCKETS
  {
    ServedPrefix(vs, holdoutPct, |vs|);
    BoundsOrdered(vs, holdoutPct, 0);
    HeldSize(vs, holdoutPct);
  }

  lemma {:induction false} ServedPrefix(vs: seq<Variant>, holdoutPct: int, j: nat)
    requires Fits(vs) && j <= |vs|
    ensures ServedTotal(vs, holdoutPct, j) == Bound(vs, holdoutPct, j)
  {
    if j == 0 {
      assert vs != [];
      BoundsOrdered(vs, holdoutPct, 0);
    } else {
      ServedPrefix(vs, holdoutPct, j - 1);
      ServedSize(vs, holdoutPct, j - 1);
    }
  }

  lemma {:induction false} CumIsMod(vs: seq<Variant>, j: nat)
    requires j <= |vs|
    ensures CumU64(vs, j) == Cum(vs, j) % U64
  {
    if j > 0 { CumIsMod(vs, j - 1); }
  }

  /** Nobody is served exactly when the uint64 total is zero: no weight at all, or weights whose sum
      wraps to it. */
  lemma NoVariantIff(vs: seq<Variant>, holdoutPct: int, bucket: nat)
    requires bucket < BUCKETS
    ensures OutcomeOf(bucket, vs, holdoutPct) == NoVariant <==>
            bucket >= 100 * ClampPct(holdoutPct) && Total(vs) % U64 == 0
  {
    var held, total := ClampPct(holdoutPct) * 100, CumU64(vs, |vs|);
    CumIsMod(vs, |vs|);
    if held <= bucket && total != 0 { FirstInRange(vs, Scale(bucket - held, total, BUCKETS - held), 0); }
  }

  /** Such weights exist. */
  lemma WrappedTotalServesNobody(bucket: nat)
    requires bucket < BUCKETS
    ensures var vs := [Variant("a", U64 / 2 - 1), Variant("b", U64 / 2 - 1), Variant("c", 2)];
            OutcomeOf(bucket, vs, 0) == NoVariant && Total(vs) > 0
  {
    var vs := [Variant("a", U64 / 2 - 1), Variant("b", U64 / 2 - 1), Variant("c", 2)];
    assert Cum(vs, 0) == 0 && Cum(vs, 1) == U64 / 2 - 1 && Cum(vs, 2) == U64 - 2;
    NoVariantIff(vs, 0, bucket);
  }
}
