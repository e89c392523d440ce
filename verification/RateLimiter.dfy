/** The per-IP token bucket (internal/httpapi/publicguard.go). Times are seconds; float64 is `real`. */
module RateLimiter {

  datatype Bucket = Bucket(tokens: real, seen: real)

  type Buckets = map<string, Bucket>

  datatype Request = Request(ip: string, now: real)

  datatype Params = Params(rate: real, burst: real)

  function Min(a: real, b: real): real {
    if a < b then a else b
  }

  function Refill(p: Params, b: Bucket, now: real): Bucket {
    if now > b.seen then Bucket(Min(p.burst, b.tokens + (now - b.seen) * p.rate), now) else b
  }

  /** The bucket a request finds, after refilling. */
  function Refilled(p: Params, m: Buckets, r: Request): Bucket {
    if r.ip !in m then Bucket(p.burst, r.now)
    else Refill(p, m[r.ip], r.now)
  }

  predicate Admitted(p: Params, m: Buckets, r: Request) {
    Refilled(p, m, r).tokens >= 1.0
  }

  function Next(p: Params, m: Buckets, r: Request): Buckets {
    var b := Refilled(p, m, r);
    m[r.ip := if b.tokens < 1.0 then b else b.(tokens := b.tokens - 1.0)]
  }

  class IPRateLimiter {
    const params: Params
    var bucket: Buckets

    ghost predicate Valid()
      reads this
    {
      GoodParams(params) && InRange(params, bucket)
    }

    constructor (ratePerSecond: real, burst: int)
      ensures Valid() && bucket == map[]
      ensures params.rate == (if ratePerSecond <= 0.0 then 1.0 else ratePerSecond)
      ensures params.burst == (if burst < 1 then 1.0 else burst as real)
    {
      params := Params(if ratePerSecond <= 0.0 then 1.0 else ratePerSecond, if burst < 1 then 1.0 else burst as real);
      bucket := map[];
    }

    method Allow(ip: string, now: real) returns (ok: bool)
      requires Valid()
      modifies this
      ensures Valid()
      ensures bucket == Next(params, old(bucket), Request(ip, now))
      ensures ok <==> Admitted(params, old(bucket), Request(ip, now))
    {
      var b: Bucket;
      if ip !in bucket {
        b := Bucket(params.burst, now);
      } else {
        b := bucket[ip];
        var elapsed := now - b.seen;
        if elapsed > 0.0 {
          b := Bucket(Min(params.burst, b.tokens + elapsed * params.rate), now);
        }
      }
      assert b == Refilled(params, bucket, Request(ip, now));
      StepInRange(params, bucket, Request(ip, now));
      if b.tokens < 1.0 {
        bucket := bucket[ip := b];
        return false;
      }
      b := b.(tokens := b.tokens - 1.0);
      bucket := bucket[ip := b];
      return true;
    }
  }

  ghost predicate GoodParams(p: Params) {
    p.rate > 0.0 && p.burst >= 1.0
  }

  ghost predicate InRange(p: Params, m: Buckets) {
    forall ip :: ip in m ==> 0.0 <= m[ip].tokens <= p.burst
  }

  // ---------------------------------------------------------------------------
  // Whole runs

  function Run(p: Params, m: Buckets, reqs: seq<Request>): Buckets
    decreases reqs
  {
    if reqs == [] then m else Run(p, Next(p, m, reqs[0]), reqs[1..])
  }

  /** How many requests of `ip` a run admits. */
  function Admissions(p: Params, m: Buckets, reqs: seq<Request>, ip: string): nat
    decreases reqs
  {
    if reqs == [] then 0
    else Cost(p, m, reqs[0], ip) + Admissions(p, Next(p, m, reqs[0]), reqs[1..], ip)
  }

  function Tokens(p: Params, m: Buckets, ip: string): real {
    if ip in m then m[ip].tokens else p.burst
  }

  /** A refill adds at most `rate` times the advance of `seen`, and never empties or overfills. */
  lemma RefillBounds(p: Params, b: Bucket, now: real)
    requires GoodParams(p) && 0.0 <= b.tokens <= p.burst
    ensures var b' := Refill(p, b, now);
            && b.tokens <= b'.tokens <= p.burst
            && b.seen <= b'.seen
            && b'.tokens <= b.tokens + Gain(p.rate, b.seen, b'.seen)
  {
    if now > b.seen {
      var gain := (now - b.seen) * p.rate;
      assert gain >= 0.0;
    }
  }

  lemma StepInRange(p: Params, m: Buckets, r: Request)
    requires GoodParams(p) && InRange(p, m)
    ensures InRange(p, Next(p, m, r))
  {
    if r.ip in m { RefillBounds(p, m[r.ip], r.now); }
  }

  lemma {:induction false} RunInRange(p: Params, m: Buckets, reqs: seq<Request>)
    requires GoodParams(p) && InRange(p, m)
    ensures InRange(p, Run(p, m, reqs))
    decreases reqs
  {
    if reqs != [] {
      StepInRange(p, m, reqs[0]);
      RunInRange(p, Next(p, m, reqs[0]), reqs[1..]);
    }
  }

  /** 1 when the request is one of `ip` and is admitted. */
  function Cost(p: Params, m: Buckets, r: Request, ip: string): nat {
    if r.ip == ip && Admitted(p, m, r) then 1 else 0
  }

  lemma StepPays(p: Params, m: Buckets, r: Request, ip: string)
    requires GoodParams(p) && InRange(p, m) && ip in m
    ensures var m' := Next(p, m, r);
            && ip in m' && m'[ip].seen >= m[ip].seen
            && Cost(p, m, r, ip) as real + m'[ip].tokens <= m[ip].tokens + Gain(p.rate, m[ip].seen, m'[ip].seen)
  {
    RefillBounds(p, m[ip], r.now);
  }

  /** The tokens that accrue while `seen` moves from `a` to `b`. */
  function Gain(rate: real, a: real, b: real): real {
    rate * (b - a)
  }

  lemma AddUp(c: nat, n: nat, t0: real, t1: real, t2: real, g: real, g': real)
    requires c as real + t1 <= t0 + g && n as real + t2 <= t1 + g'
    ensures (c + n) as real + t2 <= t0 + (g' + g)
  {}

  lemma GainMono(rate: real, a: real, b: real, lo: real, hi: real)
    requires rate > 0.0 && b - a <= hi - lo
    ensures Gain(rate, a, b) <= Gain(rate, lo, hi)
  {}

  lemma SplitAdvance(rate: real, a: real, b: real, c: real)
    ensures Gain(rate, a, c) == Gain(rate, b, c) + Gain(rate, a, b)
  {}

  /** Admissions are paid for: over any run, and any order of clock readings, what is admitted plus
      what is left is at most what was there plus the refill for the advance of `seen`. */
  lemma {:induction false} TokensPayForAdmissions(p: Params, m: Buckets, reqs: seq<Request>, ip: string)
    requires GoodParams(p) && InRange(p, m) && ip in m
    ensures var end := Run(p, m, reqs);
            && ip in end && end[ip].seen >= m[ip].seen
            && Admissions(p, m, reqs, ip) as real + end[ip].tokens <= m[ip].tokens +
                 Gain(p.rate, m[ip].seen, end[ip].seen)
    decreases reqs
  {
    if reqs != [] {
      var m' := Next(p, m, reqs[0]);
      StepInRange(p, m, reqs[0]);
      StepPays(p, m, reqs[0], ip);
      TokensPayForAdmissions(p, m', reqs[1..], ip);
      var end := Run(p, m', reqs[1..]);
      var c, n := Cost(p, m, reqs[0], ip), Admissions(p, m', reqs[1..], ip);
      var g, g' := Gain(p.rate, m[ip].seen, m'[ip].seen), Gain(p.rate, m'[ip].seen, end[ip].seen);
      SplitAdvance(p.rate, m[ip].seen, m'[ip].seen, end[ip].seen);
      assert Admissions(p, m, reqs, ip) == c + n && Run(p, m, reqs) == end;
      AddUp(c, n, m[ip].tokens, m'[ip].tokens, end[ip].tokens, g, g');
    } else {
      assert Gain(p.rate, m[ip].seen, m[ip].seen) == 0.0;
    }
  }

  /** However the clock jumps, `seen` never passes the largest reading. */
  lemma {:induction false} SeenBounded(p: Params, m: Buckets, reqs: seq<Request>, ip: string, hi: real)
    requires ip in m && forall i :: 0 <= i < |reqs| && reqs[i].ip == ip ==> reqs[i].now <= hi
    ensures ip in Run(p, m, reqs)
    ensures Run(p, m, reqs)[ip].seen <= (if hi < m[ip].seen then m[ip].seen else hi)
    decreases reqs
  {
    if reqs != [] {
      SeenBounded(p, Next(p, m, reqs[0]), reqs[1..], ip, hi);
    }
  }

  /** The promise of the limiter: requests whose clock readings lie in one window of length `hi - lo`
      are admitted at most `burst + rate * (hi - lo)` times, from every reachable state. */
  lemma {:induction false} WindowBound(p: Params, m: Buckets, reqs: seq<Request>, ip: string, lo: real, hi: real)
    requires GoodParams(p) && InRange(p, m) && lo <= hi
    requires forall i :: 0 <= i < |reqs| && reqs[i].ip == ip ==> lo <= reqs[i].now <= hi
    ensures Admissions(p, m, reqs, ip) as real <= p.burst + Gain(p.rate, lo, hi)
    decreases reqs
  {
    if reqs == [] {
      GainMono(p.rate, lo, lo, lo, hi);
      assert Gain(p.rate, lo, lo) == 0.0;
    } else {
      var r, m' := reqs[0], Next(p, m, reqs[0]);
      StepInRange(p, m, r);
      if r.ip != ip {
        WindowBound(p, m', reqs[1..], ip, lo, hi);
      } else {
        TokensPayForAdmissions(p, m', reqs[1..], ip);
        SeenBounded(p, m', reqs[1..], ip, hi);
        var end := Run(p, m', reqs[1..]);
        RunInRange(p, m', reqs[1..]);
        assert end[ip].seen - m'[ip].seen <= hi - lo && end[ip].tokens >= 0.0;
        GainMono(p.rate, m'[ip].seen, end[ip].seen, lo, hi);
        if ip in m { RefillBounds(p, m[ip], r.now); }
        var c, n := Cost(p, m, r, ip), Admissions(p, m', reqs[1..], ip);
        assert c as real + m'[ip].tokens <= p.burst;
        assert Admissions(p, m, reqs, ip) == c + n;
        assert (c + n) as real <= p.burst + Gain(p.rate, lo, hi);
      }
    }
  }

  function Only(reqs: seq<Request>, ip: string): seq<Request> {
    if reqs == [] then [] else (if reqs[0].ip == ip then [reqs[0]] else []) + Only(reqs[1..], ip)
  }

  ghost predicate SameFor(m: Buckets, n: Buckets, ip: string) {
    (ip in m <==> ip in n) && (ip in m ==> m[ip] == n[ip])
  }

  /** Other addresses have no influence: dropping all their requests changes nothing for `ip`. */
  lemma {:induction false} OthersHaveNoInfluence(p: Params, m: Buckets, n: Buckets, reqs: seq<Request>, ip: string)
    requires SameFor(m, n, ip)
    ensures Admissions(p, m, reqs, ip) == Admissions(p, n, Only(reqs, ip), ip)
    ensures SameFor(Run(p, m, reqs), Run(p, n, Only(reqs, ip)), ip)
    decreases reqs
  {
    if reqs != [] {
      var rest := Only(reqs[1..], ip);
      if reqs[0].ip == ip {
        assert Only(reqs, ip)[1..] == rest;
        OthersHaveNoInfluence(p, Next(p, m, reqs[0]), Next(p, n, reqs[0]), reqs[1..], ip);
      } else {
        assert Only(reqs, ip) == rest;
        OthersHaveNoInfluence(p, Next(p, m, reqs[0]), n, reqs[1..], ip);
      }
    }
  }

  // ---------------------------------------------------------------------------
  // Admission

  /** A request is admitted exactly when its address is new, or what its bucket held and what the clock has
      added since make a whole token. */
  lemma AdmittedIff(p: Params, m: Buckets, r: Request)
    requires GoodParams(p) && InRange(p, m)
    ensures Admitted(p, m, r) <==>
            r.ip !in m || m[r.ip].tokens >= 1.0
            || (r.now > m[r.ip].seen && m[r.ip].tokens + Gain(p.rate, m[r.ip].seen, r.now) >= 1.0)
  {
    if r.ip in m {
      var b := m[r.ip];
      RefillBounds(p, b, r.now);
      assert Gain(p.rate, b.seen, r.now) == (r.now - b.seen) * p.rate;
    }
  }

  /** As many requests as there are tokens are all admitted, whatever the clock and other addresses do. */
  lemma {:induction false} TokensAdmit(p: Params, m: Buckets, reqs: seq<Request>, ip: string)
    requires GoodParams(p) && InRange(p, m) && |Only(reqs, ip)| as real <= Tokens(p, m, ip)
    ensures Admissions(p, m, reqs, ip) == |Only(reqs, ip)|
    decreases reqs
  {
    if reqs != [] {
      var r, m' := reqs[0], Next(p, m, reqs[0]);
      StepInRange(p, m, r);
      if r.ip == ip {
        if ip in m { RefillBounds(p, m[ip], r.now); }
        assert |Only(reqs, ip)| == 1 + |Only(reqs[1..], ip)|;
        assert Admitted(p, m, r) && m'[ip].tokens == Refilled(p, m, r).tokens - 1.0;
      }
      TokensAdmit(p, m', reqs[1..], ip);
    }
  }

  /** The first `burst` requests of a new address are admitted. */
  lemma FirstBurstAdmitted(p: Params, m: Buckets, reqs: seq<Request>, ip: string)
    requires GoodParams(p) && InRange(p, m) && ip !in m && |Only(reqs, ip)| as real <= p.burst
    ensures Admissions(p, m, reqs, ip) == |Only(reqs, ip)|
  {
    TokensAdmit(p, m, reqs, ip);
  }
}
