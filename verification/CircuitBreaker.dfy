/** The extension host's circuit breaker (internal/extension/host.go, invoke). Times are nanoseconds. */
module CircuitBreaker {

  const COOL_DOWN: int := 30_000_000_000
  const TRIP: nat := 5

  datatype Opened = Never | At(time: int)

  datatype Circuit = Closed | Open | HalfOpen

  datatype Health = Health(circuit: Circuit, failures: nat, openedAt: Opened)

  /** Resolving the extension, its version, its config and its health. */
  datatype Resolution = Unresolved | Disabled | Resolved

  /** The scope, rate and budget checks between the circuit and the transport. */
  datatype Gate = GateError | DeniedScope | DeniedRate | DeniedBudget | Pass

  datatype Transport = Succeeds | Fails | TimesOut

  /** Everything the surroundings decide about one invocation. */
  datatype Call = Call(
    resolution: Resolution, checkAt: int, halfOpenStored: bool, gate: Gate,
    startAt: int, transport: Transport, endAt: int, resultStored: bool, auditStored: bool)

  datatype Decision = Error | CircuitOpen | ScopeDenied | RateDenied | BudgetDenied | Timeout | Allowed

  datatype Attempt = Attempt(startAt: int, ok: bool, endAt: int)

  /** The stored health, the transport calls made and the audit rows written. */
  datatype State = State(health: Health, attempts: seq<Attempt>, audit: seq<Decision>)

  function Recorded(s: State, d: Decision, c: Call): State {
    if c.auditStored then s.(audit := s.audit + [d]) else s
  }

  /** The health this invocation works on after the circuit check. */
  function Checked(h: Health, now: int): Health {
    if h.circuit == Open && h.openedAt.At? && now - h.openedAt.time > COOL_DOWN then h.(circuit := HalfOpen) else h
  }

  function AfterAttempt(h: Health, c: Call): Health {
    if c.transport == Succeeds then Health(Closed, 0, Never)
    else if h.failures + 1 >= TRIP then Health(Open, h.failures + 1, At(c.endAt))
    else h.(failures := h.failures + 1)
  }

  function GateDecision(g: Gate): Decision
    requires g != Pass
  {
    match g
    case GateError => Error
    case DeniedScope => ScopeDenied
    case DeniedRate => RateDenied
    case DeniedBudget => BudgetDenied
  }

  function After(s: State, c: Call): State {
    if c.resolution == Unresolved then Recorded(s, Error, c)
    else if c.resolution == Disabled then Recorded(s, CircuitOpen, c)
    else
      var h := Checked(s.health, c.checkAt);
      if h.circuit == Open then Recorded(s, CircuitOpen, c)
      else
        var s1 := if h != s.health && c.halfOpenStored then s.(health := h) else s;
        if c.gate != Pass then Recorded(s1, GateDecision(c.gate), c)
        else
          var s2 := s1.(attempts := s1.attempts + [Attempt(c.startAt, c.transport == Succeeds, c.endAt)]);
          var s3 := if c.resultStored then s2.(health := AfterAttempt(h, c)) else s2;
          Recorded(s3, match c.transport case Succeeds => Allowed case Fails => Error case TimesOut => Timeout, c)
  }

  class Host {
    var health: Health
    var attempts: seq<Attempt>
    var audit: seq<Decision>

    ghost function Value(): State
      reads this
    {
      State(health, attempts, audit)
    }

    constructor ()
      ensures Value() == Fresh()
    {
      health, attempts, audit := Health(Closed, 0, Never), [], [];
    }

    method Record(c: Call, d: Decision)
      modifies `audit
      ensures Value() == Recorded(old(Value()), d, c)
    {
      if c.auditStored { audit := audit + [d]; }
    }

    /** `output` tells whether the caller receives the extension's answer. */
    method Invoke(c: Call) returns (output: bool)
      modifies this
      ensures Value() == After(old(Value()), c)
      ensures output ==> audit == old(audit) + [Allowed] && |attempts| == |old(attempts)| + 1
    {
      output := false;
      if c.resolution == Unresolved {
        Record(c, Error);
        return;
      }
      if c.resolution == Disabled {
        Record(c, CircuitOpen);
        return;
      }
      var h := health;
      if h.circuit == Open {
        if h.openedAt.At? && c.checkAt - h.openedAt.time > COOL_DOWN {
          h := h.(circuit := HalfOpen);
          if c.halfOpenStored { health := h; }
        } else {
          Record(c, CircuitOpen);
          return;
        }
      }
      if c.gate != Pass {
        Record(c, GateDecision(c.gate));
        return;
      }
      attempts := attempts + [Attempt(c.startAt, c.transport == Succeeds, c.endAt)];
      if c.transport != Succeeds {
        h := h.(failures := h.failures + 1);
        if h.failures >= TRIP {
          h := h.(circuit := Open, openedAt := At(c.endAt));
        }
        if c.resultStored { health := h; }
        Record(c, if c.transport == TimesOut then Timeout else Error);
        return;
      }
      h := Health(Closed, 0, Never);
      if c.resultStored { health := h; }
      Record(c, Allowed);
      output := c.auditStored;
    }
  }

  // ---------------------------------------------------------------------------
  // Whole runs

  function Fresh(): State {
    State(Health(Closed, 0, Never), [], [])
  }

  function Run(s: State, calls: seq<Call>): State {
    if calls == [] then s else After(Run(s, calls[..|calls| - 1]), calls[|calls| - 1])
  }

  /** A monotone clock: readings never go back, within one call or between calls. */
  ghost predicate Monotone(calls: seq<Call>) {
    && (forall i :: 0 <= i < |calls| ==> calls[i].checkAt <= calls[i].startAt <= calls[i].endAt)
    && (forall i, j :: 0 <= i < j < |calls| ==> calls[i].endAt <= calls[j].checkAt)
  }

  /** The failures whose health write is lost. */
  function LostFailures(calls: seq<Call>): nat {
    if calls == [] then 0
    else
      var n := |calls| - 1;
      LostFailures(calls[..n]) + if calls[n].transport != Succeeds && !calls[n].resultStored then 1 else 0
  }

  /** Failed transport calls at the end of the log. */
  function Streak(attempts: seq<Attempt>): nat {
    if attempts == [] || attempts[|attempts| - 1].ok then 0 else 1 + Streak(attempts[..|attempts| - 1])
  }

  /** The promise, read off the log of transport calls alone: after five failures in a row, every
      further transport call starts more than 30 seconds after the failure before it. */
  ghost predicate CoolsDown(attempts: seq<Attempt>) {
    forall i :: 0 < i < |attempts| && Streak(attempts[..i]) >= TRIP ==>
      attempts[i].startAt > attempts[i - 1].endAt + COOL_DOWN
  }

  ghost predicate Inv(s: State, last: int) {
    var h, a := s.health, s.attempts;
    && h.failures >= Streak(a)
    && (h.failures < TRIP ==> h.circuit == Closed && h.openedAt == Never)
    && (h.failures >= TRIP ==> h.circuit != Closed && h.openedAt.At?)
    && (h.failures >= TRIP && Streak(a) > 0 ==> h.openedAt == At(a[|a| - 1].endAt))
    && (h.circuit == HalfOpen ==> last > h.openedAt.time + COOL_DOWN)
    && CoolsDown(a)
  }

  lemma ExtendLog(a: seq<Attempt>, x: Attempt)
    requires CoolsDown(a)
    requires a != [] && Streak(a) >= TRIP ==> x.startAt > a[|a| - 1].endAt + COOL_DOWN
    ensures CoolsDown(a + [x])
    ensures Streak(a + [x]) == if x.ok then 0 else Streak(a) + 1
  {
    var a' := a + [x];
    assert a'[..|a|] == a;
    assert forall i :: 0 <= i <= |a| ==> a'[..i] == a[..i];
  }

  lemma InvAttempt(s: State, c: Call, s': State)
    requires Inv(s, c.startAt) && s.health.circuit != Open && c.startAt <= c.endAt
    requires s'.attempts == s.attempts + [Attempt(c.startAt, c.transport == Succeeds, c.endAt)]
    requires s'.health == AfterAttempt(s.health, c) || (c.transport == Succeeds && s'.health == s.health)
    ensures Inv(s', c.endAt)
  {
    ExtendLog(s.attempts, Attempt(c.startAt, c.transport == Succeeds, c.endAt));
  }

  /** The health a call works on may differ from the stored one by an unstored half-open. */
  lemma InvUnstored(s: State, s1: State, c: Call, s': State)
    requires Inv(s, c.startAt) && Inv(s1, c.startAt) && s1.health.circuit != Open && s1.attempts == s.attempts
    requires s'.attempts == s.attempts + [Attempt(c.startAt, true, c.endAt)] && s'.health == s.health &&
             c.startAt <= c.endAt
    ensures Inv(s', c.endAt)
  {
    ExtendLog(s.attempts, Attempt(c.startAt, true, c.endAt));
  }

  lemma InvStep(s: State, c: Call, last: int)
    requires Inv(s, last) && last <= c.checkAt <= c.startAt <= c.endAt
    requires c.transport == Succeeds || c.resultStored
    ensures Inv(After(s, c), c.endAt)
  {
    var s1 := s.(health := Checked(s.health, c.checkAt));
    assert Inv(s1, c.startAt);
    var s' := After(s, c);
    if c.resolution == Resolved && s1.health.circuit != Open && c.gate == Pass {
      if c.resultStored || s'.health == s1.health {
        InvAttempt(s1, c, s');
      } else {
        InvUnstored(s, s1, c, s');
      }
    } else {
      assert s'.attempts == s.attempts && s'.health in {s.health, s1.health};
    }
  }

  lemma {:induction false} RunInv(calls: seq<Call>, last: int)
    requires Monotone(calls) && LostFailures(calls) == 0
    requires forall i :: 0 <= i < |calls| ==> calls[i].endAt <= last
    ensures Inv(Run(Fresh(), calls), last)
  {
    if calls != [] {
      var n := |calls| - 1;
      RunInv(calls[..n], calls[n].checkAt);
      InvStep(Run(Fresh(), calls[..n]), calls[n], calls[n].checkAt);
    }
  }

  /** Every run with a monotone clock whose failures are stored cools down, whatever denials fall in
      between and whatever other health writes are lost. */
  lemma BreakerCoolsDown(calls: seq<Call>)
    requires Monotone(calls) && LostFailures(calls) == 0
    ensures CoolsDown(Run(Fresh(), calls).attempts)
  {
    RunInv(calls, if calls == [] then 0 else calls[|calls| - 1].endAt);
  }

  /** One failed probe reopens the circuit at the time of that failure. */
  lemma FailedProbeReopens(calls: seq<Call>, c: Call)
    requires Monotone(calls + [c]) && LostFailures(calls + [c]) == 0
    requires var s := Run(Fresh(), calls);
             Streak(s.attempts) + 1 >= TRIP && c.transport != Succeeds && |After(s, c).attempts| > |s.attempts|
    ensures var s := Run(Fresh(), calls);
            var h := After(s, c).health;
            h.circuit == Open && h.openedAt == At(c.endAt) && h.failures > Streak(s.attempts)
  {
    var all := calls + [c];
    assert all[..|calls|] == calls;
    assert c == all[|calls|] && forall i :: 0 <= i < |calls| ==> calls[i] == all[i];
    RunInv(calls, c.checkAt);
  }

  // What survives even when health writes are lost.

  ghost predicate StoredInv(s: State, last: int) {
    var h := s.health;
    && (h.circuit != Closed ==> h.failures >= TRIP && h.openedAt.At?)
    && (h.circuit == HalfOpen ==> last > h.openedAt.time + COOL_DOWN)
    && (h.circuit == Closed ==> h.failures < TRIP)
  }

  lemma StoredStep(s: State, c: Call, last: int)
    requires StoredInv(s, last) && last <= c.checkAt <= c.startAt <= c.endAt
    ensures StoredInv(After(s, c), c.endAt)
    ensures |After(s, c).attempts| > |s.attempts| && s.health.failures >= TRIP ==>
              s.health.openedAt.At? && c.startAt > s.health.openedAt.time + COOL_DOWN
  {
    var h := Checked(s.health, c.checkAt);
    if c.resolution == Resolved && h.circuit != Open {
      var h' := After(s, c).health;
      assert h' in {s.health, h, AfterAttempt(h, c)};
    }
  }

  /** Whatever writes are lost: `open` always carries its time, and a transport call made while the
      stored record shows five failures comes more than 30 seconds after the stored opening. */
  lemma {:induction false} LostWritesStayGuarded(calls: seq<Call>, last: int)
    requires Monotone(calls)
    requires forall i :: 0 <= i < |calls| ==> calls[i].endAt <= last
    ensures StoredInv(Run(Fresh(), calls), last)
    ensures calls != [] ==>
              var before, c := Run(Fresh(), calls[..|calls| - 1]), calls[|calls| - 1];
              |After(before, c).attempts| > |before.attempts| && before.health.failures >= TRIP ==>
              before.health.openedAt.At? && c.startAt > before.health.openedAt.time + COOL_DOWN
  {
    if calls != [] {
      var n := |calls| - 1;
      LostWritesStayGuarded(calls[..n], calls[n].checkAt);
      StoredStep(Run(Fresh(), calls[..n]), calls[n], calls[n].checkAt);
    }
  }

  /** Every monotone run that loses at most `k` failures cools down. */
  ghost predicate CoolDownHolds(k: nat) {
    forall calls :: Monotone(calls) && LostFailures(calls) <= k ==> CoolsDown(Run(Fresh(), calls).attempts)
  }

  /** A failing call at time 0, its result stored or not. */
  function FailureAtZero(stored: bool): Call {
    Call(Resolved, 0, true, Pass, 0, Fails, 0, stored, true)
  }

  /** One lost failure and then `n` stored ones, all at the same instant. */
  function Burst(n: nat): (calls: seq<Call>)
    ensures |calls| == n + 1 && forall i :: 0 <= i <= n ==> calls[i] == FailureAtZero(i != 0)
  {
    seq(n + 1, i => FailureAtZero(i != 0))
  }

  ghost predicate AllFailed(a: seq<Attempt>, n: nat) {
    Streak(a) == |a| == n && forall i :: 0 <= i < n ==> a[i] == Attempt(0, false, 0)
  }

  lemma FailureStep(s: State, n: nat, m: nat, stored: bool)
    requires AllFailed(s.attempts, n) && s.health == Health(Closed, m, Never) && m < TRIP
    ensures var s' := After(s, FailureAtZero(stored));
            && AllFailed(s'.attempts, n + 1)
            && s'.health ==
               if !stored then s.health
               else if m + 1 < TRIP then Health(Closed, m + 1, Never)
               else Health(Open, m + 1, At(0))
  {
    assert (s.attempts + [Attempt(0, false, 0)])[..n] == s.attempts;
  }

  lemma {:induction false} BurstRuns(n: nat)
    requires n <= TRIP
    ensures var s := Run(Fresh(), Burst(n));
            && AllFailed(s.attempts, n + 1)
            && s.health == if n < TRIP then Health(Closed, n, Never) else Health(Open, n, At(0))
    ensures LostFailures(Burst(n)) == 1
  {
    var calls := Burst(n);
    if n == 0 {
      assert calls[..0] == [];
      FailureStep(Fresh(), 0, 0, false);
    } else {
      BurstRuns(n - 1);
      assert calls[..n] == Burst(n - 1) && calls[n] == FailureAtZero(true);
      FailureStep(Run(Fresh(), calls[..n]), n, n - 1, true);
    }
  }

  /** The condition is exact: with a single lost failure a sixth call can reach the transport in the
      same instant as the fifth failure. */
  lemma CoolDownIffNoFailureLost(k: nat)
    ensures CoolDownHolds(k) <==> k == 0
  {
    if k == 0 {
      forall calls | Monotone(calls) && LostFailures(calls) <= 0 ensures CoolsDown(Run(Fresh(), calls).attempts) {
        BreakerCoolsDown(calls);
      }
    } else {
      BurstRuns(4);
      BurstRuns(5);
      var calls := Burst(5);
      assert calls[..5] == Burst(4);
      var a := Run(Fresh(), calls).attempts;
      assert a[..5] == Run(Fresh(), calls[..5]).attempts;
      assert Streak(a[..5]) == 5 && a[5].startAt <= a[4].endAt + COOL_DOWN;
      assert Monotone(calls) by {
        assert forall i :: 0 <= i < |calls| ==> calls[i].checkAt == calls[i].startAt == calls[i].endAt == 0;
      }
    }
  }

  // ---------------------------------------------------------------------------
  // When calls pass, and what trips the circuit

  /** The circuit lets the call pass: it is not open, or it opened more than 30 seconds ago. */
  ghost predicate LetsPass(h: Health, now: int) {
    h.circuit != Open || (h.openedAt.At? && now > h.openedAt.time + 30_000_000_000)
  }

  /** The transport is called exactly when the extension resolves, the circuit lets the call pass and no
      check denies it, and then once. */
  lemma AttemptedIff(s: State, c: Call)
    ensures After(s, c).attempts ==
            if c.resolution == Resolved && LetsPass(s.health, c.checkAt) && c.gate == Pass
            then s.attempts + [Attempt(c.startAt, c.transport == Succeeds, c.endAt)] else s.attempts
  {}

  /** The audit row names what decided the invocation. */
  lemma AuditedAs(s: State, c: Call)
    requires c.auditStored
    ensures var s' := After(s, c);
            |s'.audit| == |s.audit| + 1 && s'.audit[..|s.audit|] == s.audit &&
            var d := s'.audit[|s.audit|];
            && (d == CircuitOpen <==>
                  c.resolution == Disabled || (c.resolution == Resolved && !LetsPass(s.health, c.checkAt)))
            && (d == Allowed <==> |s'.attempts| > |s.attempts| && c.transport == Succeeds)
            && (d == Timeout <==> |s'.attempts| > |s.attempts| && c.transport == TimesOut)
            && (d in {ScopeDenied, RateDenied, BudgetDenied} ==>
                  c.resolution == Resolved && LetsPass(s.health, c.checkAt)
                  && c.gate == (match d case ScopeDenied => DeniedScope case RateDenied => DeniedRate
                                        case _ => DeniedBudget))
  {}

  /** The results of the transport calls of a run whose health was stored, oldest first. */
  ghost function StoredResults(s: State, calls: seq<Call>): seq<bool> {
    if calls == [] then []
    else
      var n := |calls| - 1;
      var c, before := calls[n], Run(s, calls[..n]);
      StoredResults(s, calls[..n]) +
      if |After(before, c).attempts| > |before.attempts| && c.resultStored then [c.transport == Succeeds] else []
  }

  /** Failures at the end. */
  ghost function TrailingFailures(results: seq<bool>): nat {
    if results == [] || results[|results| - 1] then 0 else 1 + TrailingFailures(results[..|results| - 1])
  }

  ghost predicate Counts(h: Health, failures: nat) {
    && h.failures == failures && (h.circuit == Closed <==> failures < 5)
    && (h.openedAt == Never <==> failures < 5)
  }

  lemma TrailingStep(results: seq<bool>, ok: bool)
    ensures TrailingFailures(results + [ok]) == if ok then 0 else TrailingFailures(results) + 1
  {
    assert (results + [ok])[..|results|] == results;
  }

  lemma CountsStep(s: State, c: Call, failures: nat)
    requires Counts(s.health, failures)
    ensures var s' := After(s, c);
            Counts(s'.health,
                   if |s'.attempts| > |s.attempts| && c.resultStored
                   then (if c.transport == Succeeds then 0 else failures + 1) else failures)
  {}

  /** Over every run the stored health counts the stored failures since the last stored success, and the
      circuit is closed exactly while there are fewer than five: it opens only after five in a row, and one
      stored success closes it. */
  lemma {:induction false} TripsAfterFive(calls: seq<Call>)
    ensures Counts(Run(Fresh(), calls).health, TrailingFailures(StoredResults(Fresh(), calls)))
  {
    if calls != [] {
      var n := |calls| - 1;
      TripsAfterFive(calls[..n]);
      var results := StoredResults(Fresh(), calls[..n]);
      CountsStep(Run(Fresh(), calls[..n]), calls[n], TrailingFailures(results));
      TrailingStep(results, calls[n].transport == Succeeds);
      assert results + [] == results;
    }
  }
}
