/** Suppression, consent and fatigue (internal/policy/policy.go). Times are nanoseconds. */
module Policy {

  const DAY: int := 86_400_000_000_000
  const WEEK: int := 604_800_000_000_000

  datatype Lookup<T> = Failed | NotFound | Found(value: T)

  datatype Caps = Caps(max24h: int, max7d: int)

  /** What the store answers for one recipient at one moment. */
  datatype Facts = Facts(suppressed: Lookup<bool>, consent: Lookup<string>, sends24h: Lookup<int>, sends7d: Lookup<int>)

  datatype Decision = Sent | Suppressed | NoConsent | Fatigued | SendFailed

  datatype Entry = Flag(flag: bool) | Word(word: string) | Number(number: int)

  datatype Verdict = Verdict(decision: Decision, snapshot: map<string, Entry>)

  /** The cap check on one count: nothing to check, a failed read, or a comparison. */
  function CapDecision(cap: int, sends: Lookup<int>): Decision {
    if cap <= 0 then Sent
    else if !sends.Found? then SendFailed
    else if sends.value >= cap then Fatigued
    else Sent
  }

  function DecisionOf(f: Facts, caps: Caps): Decision {
    if !f.suppressed.Found? then SendFailed
    else if f.suppressed.value then Suppressed
    else if f.consent.Failed? then SendFailed
    else if f.consent.NotFound? || f.consent.value != "subscribed" then NoConsent
    else if CapDecision(caps.max24h, f.sends24h) != Sent then CapDecision(caps.max24h, f.sends24h)
    else CapDecision(caps.max7d, f.sends7d)
  }

  /** The snapshot justifies the decision: what was checked is in it, with the value that decided. */
  ghost predicate Explains(v: Verdict, f: Facts, caps: Caps) {
    var m := v.snapshot;
    && ("suppressed" in m <==> f.suppressed.Found?)
    && ("suppressed" in m ==> m["suppressed"] == Flag(f.suppressed.value))
    && ("consent" in m ==> m["consent"] == Word(if f.consent.Found? then f.consent.value else "missing"))
    && ("sends_24h" in m ==> f.sends24h.Found? && m["sends_24h"] == Number(f.sends24h.value))
    && ("sends_7d" in m ==> f.sends7d.Found? && m["sends_7d"] == Number(f.sends7d.value))
    && ("max_sends_24h" in m ==> m["max_sends_24h"] == Number(caps.max24h))
    && ("max_sends_7d" in m ==> m["max_sends_7d"] == Number(caps.max7d))
    && (v.decision == Suppressed ==> m == map["suppressed" := Flag(true)])
    && (v.decision == NoConsent ==> "consent" in m && m["consent"] != Word("subscribed"))
    && (v.decision == Fatigued ==>
          || ("sends_24h" in m && "max_sends_24h" in m && m["sends_24h"].number >= m["max_sends_24h"].number)
          || ("sends_7d" in m && "max_sends_7d" in m && m["sends_7d"].number >= m["max_sends_7d"].number))
  }

  method Evaluate(f: Facts, caps: Caps) returns (v: Verdict)
    ensures v.decision == DecisionOf(f, caps)
    ensures Explains(v, f, caps)
  {
    var snapshot: map<string, Entry> := map[];
    if !f.suppressed.Found? {
      return Verdict(SendFailed, snapshot);
    }
    snapshot := snapshot["suppressed" := Flag(f.suppressed.value)];
    if f.suppressed.value {
      return Verdict(Suppressed, snapshot);
    }
    if f.consent.NotFound? {
      snapshot := snapshot["consent" := Word("missing")];
      return Verdict(NoConsent, snapshot);
    }
    if f.consent.Failed? {
      return Verdict(SendFailed, snapshot);
    }
    snapshot := snapshot["consent" := Word(f.consent.value)];
    if f.consent.value != "subscribed" {
      return Verdict(NoConsent, snapshot);
    }
    if caps.max24h > 0 {
      if !f.sends24h.Found? { return Verdict(SendFailed, snapshot); }
      snapshot := snapshot["sends_24h" := Number(f.sends24h.value)]["max_sends_24h" := Number(caps.max24h)];
      if f.sends24h.value >= caps.max24h { return Verdict(Fatigued, snapshot); }
    }
    if caps.max7d > 0 {
      if !f.sends7d.Found? { return Verdict(SendFailed, snapshot); }
      snapshot := snapshot["sends_7d" := Number(f.sends7d.value)]["max_sends_7d" := Number(caps.max7d)];
      if f.sends7d.value >= caps.max7d { return Verdict(Fatigued, snapshot); }
    }
    return Verdict(Sent, snapshot);
  }

  // ---------------------------------------------------------------------------
  // Sliding windows over whole runs of one profile

  /** One evaluation followed, when eligible, by a send. `now` is the clock of the evaluation;
      `recordedAt` is the time the send is later counted under (attempted_at of a campaign attempt,
      updated_at of a journey intent), when it is `counted` at all: a send left at provider_sent, or
      recorded as fatigued, is not. */
  datatype Attempt = Attempt(
    now: int, recordedAt: int, suppressed: Lookup<bool>, consent: Lookup<string>, readable: bool, counted: bool)

  /** SentCountSince */
  function CountSince(log: seq<int>, since: int): nat {
    if log == [] then 0
    else CountSince(log[..|log| - 1], since) + if log[|log| - 1] >= since then 1 else 0
  }

  function CountBetween(log: seq<int>, lo: int, hi: int): nat {
    if log == [] then 0
    else CountBetween(log[..|log| - 1], lo, hi) + if lo <= log[|log| - 1] <= hi then 1 else 0
  }

  function FactsAt(log: seq<int>, a: Attempt): Facts {
    if a.readable
    then Facts(a.suppressed, a.consent, Found(CountSince(log, a.now - DAY)), Found(CountSince(log, a.now - WEEK)))
    else Facts(a.suppressed, a.consent, Failed, Failed)
  }

  /** The sends of a serialised run by recorded time: those the store counts, and those it does not. */
  datatype Log = Log(counted: seq<int>, uncounted: seq<int>)

  function Sends(attempts: seq<Attempt>, caps: Caps): Log {
    if attempts == [] then Log([], [])
    else AfterAttempt(Sends(attempts[..|attempts| - 1], caps), attempts[|attempts| - 1], caps)
  }

  function AfterAttempt(log: Log, a: Attempt, caps: Caps): Log {
    if DecisionOf(FactsAt(log.counted, a), caps) != Sent then log
    else if a.counted then log.(counted := log.counted + [a.recordedAt])
    else log.(uncounted := log.uncounted + [a.recordedAt])
  }

  function AllBetween(log: Log, lo: int, hi: int): nat {
    CountBetween(log.counted, lo, hi) + CountBetween(log.uncounted, lo, hi)
  }

  /** No send is recorded earlier than `lag` before its evaluation. */
  ghost predicate LagAtMost(attempts: seq<Attempt>, lag: int) {
    forall i :: 0 <= i < |attempts| ==> attempts[i].now - attempts[i].recordedAt <= lag
  }

  lemma {:induction false} WindowWithin(log: seq<int>, lo: int, hi: int, since: int)
    requires since <= lo
    ensures CountBetween(log, lo, hi) <= CountSince(log, since)
  {
    if log != [] { WindowWithin(log[..|log| - 1], lo, hi, since); }
  }

  lemma CountAppend(log: seq<int>, x: int, lo: int, hi: int)
    ensures CountBetween(log + [x], lo, hi) == CountBetween(log, lo, hi) + if lo <= x <= hi then 1 else 0
  {
    assert (log + [x])[..|log|] == log;
  }

  lemma SentBelowCaps(log: seq<int>, a: Attempt, caps: Caps)
    requires DecisionOf(FactsAt(log, a), caps) == Sent
    ensures caps.max24h > 0 ==> CountSince(log, a.now - DAY) < caps.max24h
    ensures caps.max7d > 0 ==> CountSince(log, a.now - WEEK) < caps.max7d
  {}

  /** One more send in a window whose length, with the lag, lies within the counted one. */
  lemma OneMore(log: seq<int>, a: Attempt, cap: int, lag: nat, lo: int, length: int)
    requires a.now - a.recordedAt <= lag && cap > 0 && CountSince(log, a.now - length) < cap
    requires CountBetween(log, lo, lo + length - lag) <= cap
    ensures CountBetween(log + [a.recordedAt], lo, lo + length - lag) <= cap
  {
    CountAppend(log, a.recordedAt, lo, lo + length - lag);
    if lo <= a.recordedAt <= lo + length - lag { WindowWithin(log, lo, lo + length - lag, a.now - length); }
  }

  lemma {:induction false} CountedWindows(attempts: seq<Attempt>, caps: Caps, lag: nat, lo: int)
    requires LagAtMost(attempts, lag)
    ensures var log := Sends(attempts, caps).counted;
            && (caps.max24h > 0 ==> CountBetween(log, lo, lo + DAY - lag) <= caps.max24h)
            && (caps.max7d > 0 ==> CountBetween(log, lo, lo + WEEK - lag) <= caps.max7d)
  {
    hide DecisionOf, FactsAt;
    if attempts != [] {
      var before, a := attempts[..|attempts| - 1], attempts[|attempts| - 1];
      CountedWindows(before, caps, lag, lo);
      var log := Sends(before, caps).counted;
      if DecisionOf(FactsAt(log, a), caps) == Sent {
        SentBelowCaps(log, a, caps);
        if caps.max24h > 0 { OneMore(log, a, caps.max24h, lag, lo, DAY); }
        if caps.max7d > 0 { OneMore(log, a, caps.max7d, lag, lo, WEEK); }
      }
    }
  }

  /** Over every run and every order of clock readings, a window of 24 hours less the recording lag holds
      at most `max24h` sends and those the store does not count, and a window of 7 days less the lag at
      most `max7d` and those. */
  lemma FatigueWindows(attempts: seq<Attempt>, caps: Caps, lag: nat, lo: int)
    requires LagAtMost(attempts, lag)
    ensures var log := Sends(attempts, caps);
            var day, week := lo + DAY - lag, lo + WEEK - lag;
            && (caps.max24h > 0 ==> AllBetween(log, lo, day) <= caps.max24h + CountBetween(log.uncounted, lo, day))
            && (caps.max7d > 0 ==> AllBetween(log, lo, week) <= caps.max7d + CountBetween(log.uncounted, lo, week))
  {
    CountedWindows(attempts, caps, lag, lo);
  }

  ghost predicate WindowCapped(attempts: seq<Attempt>, caps: Caps, lo: int, weekly: bool) {
    var cap, length := if weekly then caps.max7d else caps.max24h, if weekly then WEEK else DAY;
    cap > 0 ==> AllBetween(Sends(attempts, caps), lo, lo + length) <= cap
  }

  /** Over every run whose recording lag is at most `lag` and that leaves at most `lost` sends uncounted,
      no full window holds more sends than its cap. */
  ghost predicate CapHolds(lag: int, lost: nat, weekly: bool) {
    forall attempts, caps, lo | LagAtMost(attempts, lag) && |Sends(attempts, caps).uncounted| <= lost ::
      WindowCapped(attempts, caps, lo, weekly)
  }

  function OneSend(weekly: bool): Caps {
    if weekly then Caps(0, 1) else Caps(1, 0)
  }

  function Welcome(now: int, recordedAt: int, counted: bool): Attempt {
    Attempt(now, recordedAt, Found(false), Found("subscribed"), true, counted)
  }

  lemma EligibleWhenWindowEmpty(log: seq<int>, a: Attempt, weekly: bool)
    requires a == Welcome(a.now, a.recordedAt, a.counted) && CountSince(log, a.now - if weekly then WEEK else DAY) == 0
    ensures DecisionOf(FactsAt(log, a), OneSend(weekly)) == Sent
  {}

  /** An evaluation that finds no send in the window sends. */
  lemma SendsWhenWindowEmpty(attempts: seq<Attempt>, a: Attempt, weekly: bool)
    requires a == Welcome(a.now, a.recordedAt, a.counted)
    requires CountSince(Sends(attempts, OneSend(weekly)).counted, a.now - if weekly then WEEK else DAY) == 0
    ensures var log, log' := Sends(attempts, OneSend(weekly)), Sends(attempts + [a], OneSend(weekly));
            log' == if a.counted then Log(log.counted + [a.recordedAt], log.uncounted)
                    else Log(log.counted, log.uncounted + [a.recordedAt])
  {
    EligibleWhenWindowEmpty(Sends(attempts, OneSend(weekly)).counted, a, weekly);
    hide DecisionOf, FactsAt, CountSince;
    assert (attempts + [a])[..|attempts|] == attempts;
  }

  lemma FirstSends(a: Attempt, weekly: bool)
    requires a == Welcome(a.now, a.recordedAt, a.counted)
    ensures Sends([a], OneSend(weekly)) == if a.counted then Log([a.recordedAt], []) else Log([], [a.recordedAt])
  {
    SendsWhenWindowEmpty([], a, weekly);
    assert [] + [a] == [a];
  }

  /** A send and, a window later, a retried one that keeps the time of its first try. */
  lemma RetryBreaksCap(lag: int, lost: nat, weekly: bool)
    requires lag > 0
    ensures !CapHolds(lag, lost, weekly)
  {
    var length := if weekly then WEEK else DAY;
    var first, retried := Welcome(0, 0, true), Welcome(length + 1, length, true);
    FirstSends(first, weekly);
    assert [0][..0] == [] && CountSince([0], 1) == 0;
    SendsWhenWindowEmpty([first], retried, weekly);
    CountAppend([0], length, 0, length);
    CountAppend([], 0, 0, length);
    assert [] + [0] == [0];
    assert !WindowCapped([first] + [retried], OneSend(weekly), 0, weekly);
  }

  /** A send that is not counted, and the next one in the same instant. */
  lemma UncountedBreaksCap(lag: int, lost: nat, weekly: bool)
    requires lost > 0
    ensures !CapHolds(lag, lost, weekly)
  {
    var at := if lag < 0 then -lag else 0;
    var first, second := Welcome(0, at, false), Welcome(0, at, true);
    FirstSends(first, weekly);
    SendsWhenWindowEmpty([first], second, weekly);
    var length := if weekly then WEEK else DAY;
    CountAppend([], at, at, at + length);
    assert [] + [at] == [at];
    assert !WindowCapped([first] + [second], OneSend(weekly), at, weekly);
  }

  /** The full 24-hour and 7-day windows are capped for every run exactly when no send is recorded
      before it was evaluated and every send is counted. A campaign attempt keeps the time of its first
      try, and a send left at provider_sent is not counted, so both break them. */
  lemma FullWindowIff(lag: int, lost: nat, weekly: bool)
    ensures CapHolds(lag, lost, weekly) <==> lag <= 0 && lost == 0
  {
    if lag > 0 {
      RetryBreaksCap(lag, lost, weekly);
    } else if lost > 0 {
      UncountedBreaksCap(lag, lost, weekly);
    } else {
      forall attempts, caps, lo | LagAtMost(attempts, lag) && |Sends(attempts, caps).uncounted| <= lost
        ensures WindowCapped(attempts, caps, lo, weekly)
      {
        FatigueWindows(attempts, caps, 0, lo);
      }
    }
  }

  predicate UnderCap(cap: int, sends: Lookup<int>) {
    cap <= 0 || (sends.Found? && sends.value < cap)
  }

  predicate CapReached(cap: int, sends: Lookup<int>) {
    cap > 0 && sends.Found? && sends.value >= cap
  }

  /** The facts allow a marketing message: readable and not suppressed, subscribed, below every positive
      cap. */
  predicate Permits(f: Facts, caps: Caps) {
    && f.suppressed == Found(false) && f.consent == Found("subscribed")
    && UnderCap(caps.max24h, f.sends24h) && UnderCap(caps.max7d, f.sends7d)
  }

  /** Why a message is refused, when it is: each reason exactly on its facts, the first that applies. */
  ghost predicate Refused(d: Decision, f: Facts, caps: Caps) {
    && d != Sent
    && (d == Suppressed <==> f.suppressed == Found(true))
    && (d == NoConsent <==>
          f.suppressed == Found(false) && !f.consent.Failed? && f.consent != Found("subscribed"))
    && (d == Fatigued <==>
          && f.suppressed == Found(false) && f.consent == Found("subscribed")
          && (CapReached(caps.max24h, f.sends24h)
              || (UnderCap(caps.max24h, f.sends24h) && CapReached(caps.max7d, f.sends7d))))
  }

  /** Eligibility is exactly what the facts allow, and a refusal names the first fact that forbids it; a
      fact that cannot be read refuses as `send_failed`. */
  lemma EligibleIff(f: Facts, caps: Caps)
    ensures DecisionOf(f, caps) == Sent <==> Permits(f, caps)
    ensures !Permits(f, caps) ==> Refused(DecisionOf(f, caps), f, caps)
  {}
}
