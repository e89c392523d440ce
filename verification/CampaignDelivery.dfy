/** Campaign delivery to one profile (internal/campaigns/deliver.go, internal/postgres/campaigns.go):
    the attempts of its endpoints, the sticky experiment variant and the shared message.sent event.
    Store calls may fail, workers may crash or panic; re-deliveries of a job do not overlap. */
module CampaignDelivery {
  import opened Common
  import Policy

  datatype Key = Key(channel: string, endpoint: string)

  datatype Decision =
    | InProgress | ProviderSent | RetryableFailed | EventEmitted | Holdout
    | Sent | Suppressed | NoConsent | Fatigued | RenderFailed | SendFailed | FailedDelivery

  /** The stored event: its time to the microsecond and the endpoint its payload names. */
  datatype Event = Event(micros: int, key: Key)

  /** Stored rows, plus the provider's log: calls of Send per attempt, those it accepted, and accepted
      ones whose outcome no write ever stored. */
  datatype State = State(
    attempts: map<Key, Decision>, variant: Option<string>, event: Option<Event>,
    calls: multiset<Key>, sends: multiset<Key>, lost: multiset<Key>)

  datatype SendResult = Accepted | InvalidToken | Transient | Permanent | SendPanic(accepted: bool)

  /** Everything the surroundings decide about one recipient in one delivery of the job.
      `experiment` is the variant computed by Assign, when the campaign has an experiment. */
  datatype Env = Env(
    key: Key, micros: int, experiment: Option<string>, assignFails: bool, setupFails: bool,
    createFails: bool, crashAfterCreate: bool, getFails: bool, stampFails: bool, profileLoads: bool,
    facts: Policy.Facts, caps: Policy.Caps, renders: bool, send: SendResult, firstWrite: bool,
    crashAfterSend: bool, crashBeforeEmit: bool, acceptFails: bool, lastWrite: bool)

  predicate Terminal(d: Decision) {
    d in {Sent, Suppressed, NoConsent, Fatigued, RenderFailed, SendFailed, FailedDelivery}
  }

  /** The decisions a re-delivery takes up again. */
  predicate Open(d: Decision) {
    d in {InProgress, ProviderSent, RetryableFailed}
  }

  function Rejection(d: Policy.Decision): Decision {
    match d
    case Sent => Sent
    case Suppressed => Suppressed
    case NoConsent => NoConsent
    case Fatigued => Fatigued
    case SendFailed => SendFailed
  }

  function Write(s: State, k: Key, d: Decision, ok: bool): State {
    if ok then s.(attempts := s.attempts[k := d]) else s
  }

  predicate EventAccepted(s: State, e: Env) {
    !e.acceptFails && (s.event.None? || s.event.value == Event(e.micros, e.key))
  }

  function Emit(s: State, e: Env): State {
    if !EventAccepted(s, e) then s
    else Write(s.(event := Some(Event(e.micros, e.key))), e.key, Sent, e.lastWrite)
  }

  /** Does any write of this pass store the outcome of an accepted send? */
  predicate OutcomeStored(s: State, e: Env) {
    || (e.send == Accepted && !e.crashAfterSend &&
        (e.firstWrite || (!e.crashBeforeEmit && EventAccepted(s, e) && e.lastWrite)))
  }

  /** The provider's log after the call. */
  function Logged(s: State, e: Env): State {
    var accepted := e.send == Accepted || e.send == SendPanic(true);
    s.(calls := s.calls + multiset{e.key},
       sends := if accepted then s.sends + multiset{e.key} else s.sends,
       lost := if accepted && !OutcomeStored(s, e) then s.lost + multiset{e.key} else s.lost)
  }

  /** What is stored after the call. */
  function Recorded(s: State, e: Env): State {
    match e.send
    case SendPanic(_) => s
    case Accepted =>
      if e.crashAfterSend then s
      else
        var s1 := Write(s, e.key, ProviderSent, e.firstWrite);
        if e.crashBeforeEmit then s1 else Emit(s1, e)
    case InvalidToken => Write(s, e.key, FailedDelivery, e.firstWrite)
    case Transient => Write(s, e.key, RetryableFailed, e.firstWrite)
    case Permanent => Write(s, e.key, SendFailed, e.firstWrite)
  }

  function SendAndRecord(s: State, e: Env): State {
    Recorded(Logged(s, e), e)
  }

  /** From the experiment stamp on, for an attempt whose stored decision is `d`. */
  function Process(s: State, d: Decision, e: Env): State {
    if e.experiment.Some? && e.stampFails then s
    else if e.experiment.Some? && s.variant == Some("holdout") then Write(s, e.key, Holdout, e.firstWrite)
    else if !e.profileLoads then Write(s, e.key, FailedDelivery, e.firstWrite)
    else if Policy.DecisionOf(e.facts, e.caps) != Policy.Sent then
      Write(s, e.key, Rejection(Policy.DecisionOf(e.facts, e.caps)), e.firstWrite)
    else if !e.renders then Write(s, e.key, RenderFailed, e.firstWrite)
    else if d == ProviderSent then (if e.crashBeforeEmit then s else Emit(s, e))
    else SendAndRecord(s, e)
  }

  /** The state after the experiment assignment. */
  function Assigned(s: State, e: Env): State {
    if e.experiment.Some? && s.variant.None? then s.(variant := e.experiment) else s
  }

  /** Up to the attempt's row: the recipient is skipped, or its attempt is taken up. */
  datatype Preparation = Stop(state: State, crashed: bool) | Go(state: State, decision: Decision)

  function Prepare(s: State, e: Env): Preparation {
    if e.experiment.Some? && e.assignFails then Stop(s, false)
    else
      var s0 := Assigned(s, e);
      if e.setupFails || e.createFails then Stop(s0, false)
      else if e.key !in s0.attempts then
        var s1 := s0.(attempts := s0.attempts[e.key := InProgress]);
        if e.crashAfterCreate then Stop(s1, true) else Go(s1, InProgress)
      else if e.getFails || !Open(s0.attempts[e.key]) then Stop(s0, false)
      else Go(s0, s0.attempts[e.key])
  }

  function After(s: State, e: Env): State {
    match Prepare(s, e)
    case Stop(s', _) => s'
    case Go(s', d) => Process(s', d, e)
  }

  class Delivery {
    var attempts: map<Key, Decision>
    var variant: Option<string>
    var event: Option<Event>
    ghost var calls: multiset<Key>
    ghost var sends: multiset<Key>
    ghost var lost: multiset<Key>

    ghost function Value(): State
      reads this
    {
      State(attempts, variant, event, calls, sends, lost)
    }

    constructor ()
      ensures Value() == Start()
    {
      attempts, variant, event := map[], None, None;
      calls, sends, lost := multiset{}, multiset{}, multiset{};
    }

    method Update(k: Key, d: Decision, ok: bool)
      modifies `attempts
      ensures Value() == Write(old(Value()), k, d, ok)
    {
      if ok { attempts := attempts[k := d]; }
    }

    method Publish(e: Env)
      modifies `attempts, `event
      ensures Value() == Emit(old(Value()), e)
    {
      if e.acceptFails || (event.Some? && event.value != Event(e.micros, e.key)) { return; }
      event := Some(Event(e.micros, e.key));
      Update(e.key, Sent, e.lastWrite);
    }

    ghost method Log(e: Env)
      modifies `calls, `sends, `lost
      ensures Value() == Logged(old(Value()), e)
    {
      var s := Logged(Value(), e);
      calls, sends, lost := s.calls, s.sends, s.lost;
    }

    method SendMessage(e: Env) returns (retry: bool, crashed: bool)
      modifies this
      ensures Value() == SendAndRecord(old(Value()), e)
      ensures retry == (e.send == Transient) && crashed == SendCrashes(e)
    {
      retry, crashed := false, false;
      Log(e);
      match e.send {
        case SendPanic(_) => crashed := true;
        case InvalidToken => Update(e.key, FailedDelivery, e.firstWrite);
        case Transient =>
          Update(e.key, RetryableFailed, e.firstWrite);
          retry := true;
        case Permanent => Update(e.key, SendFailed, e.firstWrite);
        case Accepted =>
          if e.crashAfterSend { return false, true; }
          Update(e.key, ProviderSent, e.firstWrite);
          if e.crashBeforeEmit { return false, true; }
          Publish(e);
      }
    }

    method PrepareRecipient(e: Env) returns (go: bool, crashed: bool, d: Decision)
      modifies `attempts, `variant
      ensures Prepare(old(Value()), e) == if go then Go(Value(), d) else Stop(Value(), crashed)
    {
      go, crashed, d := false, false, InProgress;
      if e.experiment.Some? {
        if e.assignFails { return; }
        if variant.None? { variant := e.experiment; }
      }
      if e.setupFails || e.createFails { return; }
      if e.key !in attempts {
        attempts := attempts[e.key := InProgress];
        if e.crashAfterCreate { return false, true, d; }
      } else {
        if e.getFails { return; }
        d := attempts[e.key];
        if !Open(d) { return; }
      }
      go := true;
    }

    /** One iteration of the recipient loop. */
    method DeliverRecipient(e: Env) returns (retry: bool, crashed: bool)
      modifies this
      ensures Value() == After(old(Value()), e)
      ensures retry == Retryable(old(Value()), e) && crashed == Crashes(old(Value()), e)
    {
      retry := false;
      var go, d;
      go, crashed, d := PrepareRecipient(e);
      if go { retry, crashed := ProcessAttempt(d, e); }
    }

    /** From the experiment stamp on. */
    method ProcessAttempt(d: Decision, e: Env) returns (retry: bool, crashed: bool)
      modifies this
      ensures Value() == Process(old(Value()), d, e)
      ensures retry == (Passes(old(Value()), e) && d != ProviderSent && e.send == Transient)
      ensures crashed == (Passes(old(Value()), e) && if d == ProviderSent then e.crashBeforeEmit else SendCrashes(e))
    {
      retry, crashed := false, false;
      if e.experiment.Some? {
        if e.stampFails { return; }
        if variant == Some("holdout") {
          Update(e.key, Holdout, e.firstWrite);
          return;
        }
      }
      if !e.profileLoads {
        Update(e.key, FailedDelivery, e.firstWrite);
        return;
      }
      var verdict := Policy.DecisionOf(e.facts, e.caps);
      if verdict != Policy.Sent {
        Update(e.key, Rejection(verdict), e.firstWrite);
        return;
      }
      if !e.renders {
        Update(e.key, RenderFailed, e.firstWrite);
        return;
      }
      if d == ProviderSent {
        if e.crashBeforeEmit { return false, true; }
        Publish(e);
      } else {
        retry, crashed := SendMessage(e);
      }
    }

    /** One delivery of a job: a crash ends it, a transient failure marks it for retry. */
    method DeliverJob(recipients: seq<Env>) returns (outcome: JobOutcome)
      modifies this
      ensures (Value(), outcome) == Job(old(Value()), recipients, false)
    {
      var hasRetryableError := false;
      for n := 0 to |recipients|
        invariant Job(old(Value()), recipients, false) == Job(Value(), recipients[n..], hasRetryableError)
      {
        assert recipients[n..][0] == recipients[n] && recipients[n..][1..] == recipients[n + 1..];
        var retry, crashed := DeliverRecipient(recipients[n]);
        if crashed { return Interrupted; }
        hasRetryableError := hasRetryableError || retry;
      }
      return if hasRetryableError then MarkedForRetry else JobCompleted;
    }
  }

  // ---------------------------------------------------------------------------
  // Jobs

  datatype JobOutcome = JobCompleted | MarkedForRetry | Interrupted

  predicate SendCrashes(e: Env) {
    e.send.SendPanic? || (e.send == Accepted && (e.crashAfterSend || e.crashBeforeEmit))
  }

  /** Nothing between the attempt's row and the message stops the recipient. */
  predicate Passes(s: State, e: Env) {
    && (e.experiment.Some? ==> !e.stampFails && s.variant != Some("holdout"))
    && e.profileLoads && Policy.DecisionOf(e.facts, e.caps) == Policy.Sent && e.renders
  }

  /** The recipient's message fails in a way that is retried. */
  predicate Retryable(s: State, e: Env) {
    var p := Prepare(s, e);
    p.Go? && Passes(p.state, e) && p.decision != ProviderSent && e.send == Transient
  }

  predicate Crashes(s: State, e: Env) {
    match Prepare(s, e)
    case Stop(_, crashed) => crashed
    case Go(s', d) => Passes(s', e) && if d == ProviderSent then e.crashBeforeEmit else SendCrashes(e)
  }

  function Job(s: State, es: seq<Env>, retry: bool): (State, JobOutcome)
    decreases |es|
  {
    if es == [] then (s, if retry then MarkedForRetry else JobCompleted)
    else if Crashes(s, es[0]) then (After(s, es[0]), Interrupted)
    else Job(After(s, es[0]), es[1..], retry || Retryable(s, es[0]))
  }

  /** A job runs a prefix of its recipients, all of them unless it is interrupted. */
  lemma {:induction false} JobIsRun(s: State, es: seq<Env>, retry: bool) returns (n: nat)
    ensures n <= |es| && Job(s, es, retry).0 == Run(s, es[..n])
    ensures Job(s, es, retry).1 != Interrupted ==> n == |es|
    decreases |es|
  {
    if es == [] {
      n := 0;
    } else if Crashes(s, es[0]) {
      n := 1;
      assert es[..1][1..] == [];
      assert Run(After(s, es[0]), []) == After(s, es[0]);
    } else {
      var m := JobIsRun(After(s, es[0]), es[1..], retry || Retryable(s, es[0]));
      n := m + 1;
      assert es[..n][1..] == es[1..][..m];
    }
  }

  // ---------------------------------------------------------------------------
  // What a job leaves closed

  predicate Closed(s: State, k: Key) {
    k in s.attempts && !Open(s.attempts[k])
  }

  /** The event is accepted and the last write stored. */
  predicate Completes(s: State, e: Env) {
    !e.crashBeforeEmit && EventAccepted(s, e) && e.lastWrite
  }

  /** From the attempt's row on, the pass stores a decision that is final. */
  predicate Concludes(s: State, d: Decision, e: Env) {
    if e.experiment.Some? && e.stampFails then false
    else if !Passes(s, e) then e.firstWrite
    else if d == ProviderSent then Completes(s, e)
    else match e.send
      case Accepted => !e.crashAfterSend && Completes(s, e)
      case InvalidToken => e.firstWrite
      case Permanent => e.firstWrite
      case Transient => false
      case SendPanic(_) => false
  }

  /** One delivery of a recipient leaves its attempt closed. */
  predicate Closes(s: State, e: Env) {
    match Prepare(s, e)
    case Stop(s', _) => Closed(s', e.key)
    case Go(s', d) => Concludes(s', d, e)
  }

  /** A recipient's attempt is closed after a delivery exactly when it was before, or the delivery
      stores a final decision. */
  lemma ClosedAfterIff(s: State, e: Env)
    ensures Closed(After(s, e), e.key) <==> Closes(s, e)
  {
    var p := Prepare(s, e);
    if p.Go? { ProcessClosesIff(p.state, p.decision, e); }
  }

  lemma ProcessClosesIff(s: State, d: Decision, e: Env)
    requires e.key in s.attempts && s.attempts[e.key] == d && Open(d)
    ensures Closed(Process(s, d, e), e.key) <==> Concludes(s, d, e)
  {
    if Passes(s, e) && d != ProviderSent {
      assert Process(s, d, e) == SendAndRecord(s, e);
      RecordedClosesIff(Logged(s, e), e);
    }
  }

  lemma RecordedClosesIff(s: State, e: Env)
    requires e.key in s.attempts && Open(s.attempts[e.key])
    ensures Closed(Recorded(s, e), e.key) <==>
            (match e.send
             case Accepted => !e.crashAfterSend && Completes(s, e)
             case InvalidToken => e.firstWrite
             case Permanent => e.firstWrite
             case Transient => false
             case SendPanic(_) => false)
  {}

  /** Some delivery to `k` among these closes its attempt. */
  predicate ClosesSome(s: State, es: seq<Env>, k: Key)
    decreases |es|
  {
    es != [] && ((es[0].key == k && Closes(s, es[0])) || ClosesSome(After(s, es[0]), es[1..], k))
  }

  lemma {:induction false} RunClosesIff(s: State, es: seq<Env>, k: Key)
    ensures Closed(Run(s, es), k) <==> Closed(s, k) || ClosesSome(s, es, k)
    decreases |es|
  {
    if es != [] {
      RunClosesIff(After(s, es[0]), es[1..], k);
      if es[0].key == k {
        ClosedAfterIff(s, es[0]);
        if Closed(s, k) { SettledStays(s, es[0], k); }
      } else {
        OnlyItsOwnKey(s, es[0], k);
      }
    }
  }

  /** Only a transient send failure marks a job for retry. A job that is completed has every recipient's
      attempt closed exactly when each was closed before it or stored a final decision in it. */
  lemma CompletedJobIsClosedIff(s: State, es: seq<Env>)
    requires Job(s, es, false).1 == JobCompleted
    ensures (forall i :: 0 <= i < |es| ==> Closed(Job(s, es, false).0, es[i].key)) <==>
            (forall i :: 0 <= i < |es| ==> Closed(s, es[i].key) || ClosesSome(s, es, es[i].key))
  {
    var n := JobIsRun(s, es, false);
    assert es[..n] == es;
    forall i | 0 <= i < |es|
      ensures Closed(Run(s, es), es[i].key) <==> Closed(s, es[i].key) || ClosesSome(s, es, es[i].key)
    {
      RunClosesIff(s, es, es[i].key);
    }
  }

  /** So a completed job can leave an attempt open: an accepted message whose event is refused. */
  lemma CompletedJobLeavesOpenAttempt(s: State, e: Env)
    requires var p := Prepare(s, e);
             p.Go? && p.decision != ProviderSent && Passes(p.state, e) && !EventAccepted(p.state, e)
    requires e.send == Accepted && !e.crashAfterSend && !e.crashBeforeEmit
    ensures Job(s, [e], false) == (After(s, e), JobCompleted) && !Closed(After(s, e), e.key)
  {
    ClosedAfterIff(s, e);
    hide After;
    assert [e][1..] == [] && Job(After(s, e), [], false) == (After(s, e), JobCompleted);
  }

  // ---------------------------------------------------------------------------
  // Whole runs

  function Start(): State {
    State(map[], None, None, multiset{}, multiset{}, multiset{})
  }

  function Run(s: State, es: seq<Env>): State
    decreases |es|
  {
    if es == [] then s else Run(After(s, es[0]), es[1..])
  }

  /** The outcome of some send of `k` is on record, or the attempt is closed for other reasons. */
  ghost predicate Settled(s: State, k: Key) {
    k in s.attempts && (s.attempts[k] == ProviderSent || !Open(s.attempts[k]))
  }

  ghost predicate KeyInv(s: State, k: Key) {
    && s.lost[k] <= s.sends[k] <= s.lost[k] + 1 && s.sends[k] <= s.calls[k]
    && (s.sends[k] == s.lost[k] + 1 ==> Settled(s, k))
    && (k in s.attempts && s.attempts[k] == Sent ==> s.event.Some? && s.event.value.key == k)
  }

  ghost predicate Inv(s: State) {
    forall k :: KeyInv(s, k)
  }

  ghost predicate SameAt(s: State, s': State, k: Key) {
    && (k in s'.attempts <==> k in s.attempts) && (k in s.attempts ==> s'.attempts[k] == s.attempts[k])
    && s'.calls[k] == s.calls[k] && s'.sends[k] == s.sends[k] && s'.lost[k] == s.lost[k]
  }

  lemma LoggedOwnKey(s: State, e: Env, k: Key)
    requires k != e.key
    ensures SameAt(s, Logged(s, e), k)
  {}

  lemma RecordedOwnKey(s: State, e: Env, k: Key)
    requires k != e.key
    ensures SameAt(s, Recorded(s, e), k)
  {}

  lemma SendOwnKey(s: State, e: Env, k: Key)
    requires k != e.key
    ensures SameAt(s, SendAndRecord(s, e), k)
  {
    LoggedOwnKey(s, e, k);
    RecordedOwnKey(Logged(s, e), e, k);
  }

  lemma ProcessOwnKey(s: State, d: Decision, e: Env, k: Key)
    requires k != e.key
    ensures SameAt(s, Process(s, d, e), k)
  {
    if Passes(s, e) && d != ProviderSent {
      SendOwnKey(s, e, k);
      assert Process(s, d, e) == SendAndRecord(s, e);
    }
  }

  lemma OnlyItsOwnKey(s: State, e: Env, k: Key)
    requires k != e.key
    ensures SameAt(s, After(s, e), k)
  {
    var p := Prepare(s, e);
    assert SameAt(s, p.state, k);
    if p.Go? { ProcessOwnKey(p.state, p.decision, e, k); }
  }

  lemma RecordedEvent(s: State, e: Env)
    ensures s.event.Some? ==> Recorded(s, e).event == s.event
  {}

  lemma ProcessEvent(s: State, d: Decision, e: Env)
    ensures s.event.Some? ==> Process(s, d, e).event == s.event
  {
    RecordedEvent(Logged(s, e), e);
  }

  lemma EventIsStable(s: State, e: Env)
    ensures s.event.Some? ==> After(s, e).event == s.event
  {
    var p := Prepare(s, e);
    if p.Go? { ProcessEvent(p.state, p.decision, e); }
  }

  lemma ReconcileKeeps(s: State, e: Env)
    requires e.key in s.attempts && s.attempts[e.key] == ProviderSent
    ensures var s' := Process(s, ProviderSent, e);
            && Settled(s', e.key) && s'.calls == s.calls && s'.sends == s.sends && s'.lost == s.lost
            && (s'.attempts[e.key] == Sent ==> s'.event.Some? && s'.event.value.key == e.key)
  {}

  lemma SettledStays(s: State, e: Env, k: Key)
    requires Settled(s, k)
    ensures var s' := After(s, e);
            && Settled(s', k) && s'.calls[k] == s.calls[k] && s'.sends[k] == s.sends[k] && s'.lost[k] == s.lost[k]
            && (s.attempts[k] != ProviderSent ==> s'.attempts[k] == s.attempts[k])
  {
    if k != e.key {
      OnlyItsOwnKey(s, e, k);
    } else if s.attempts[k] == ProviderSent {
      ReconcileKeeps(Assigned(s, e), e);
    }
  }

  /** What the log says of the attempt a call concerns. */
  lemma LoggedStep(s: State, e: Env)
    ensures var s' := Logged(s, e);
            var accepted := e.send == Accepted || e.send == SendPanic(true);
            && s'.calls[e.key] == s.calls[e.key] + 1
            && s'.sends[e.key] == s.sends[e.key] + (if accepted then 1 else 0)
            && s'.lost[e.key] == s.lost[e.key] + (if accepted && !OutcomeStored(s, e) then 1 else 0)
  {}

  lemma RecordedStep(s: State, e: Env)
    requires e.key in s.attempts && Open(s.attempts[e.key])
    ensures var s' := Recorded(s, e);
            && s'.calls == s.calls && s'.sends == s.sends && s'.lost == s.lost && e.key in s'.attempts
            && (e.send == Accepted && OutcomeStored(s, e) ==> Settled(s', e.key))
            && (s'.attempts[e.key] == Sent ==> s'.event.Some? && s'.event.value.key == e.key)
  {}

  /** The send itself, on the attempt it concerns. */
  lemma SendStep(s: State, e: Env)
    requires s.lost[e.key] == s.sends[e.key] <= s.calls[e.key] && e.key in s.attempts && Open(s.attempts[e.key])
    ensures KeyInv(SendAndRecord(s, e), e.key)
  {
    LoggedStep(s, e);
    RecordedStep(Logged(s, e), e);
  }

  lemma StopStep(s: State, d: Decision, e: Env)
    requires !Passes(s, e)
    ensures var s' := Process(s, d, e);
            && s'.calls == s.calls && s'.sends == s.sends && s'.lost == s.lost && s'.event == s.event
            && (s'.attempts == s.attempts ||
                exists x :: !Open(x) && x != Sent && s'.attempts == s.attempts[e.key := x])
  {
    if e.experiment.Some? && e.stampFails {
    } else if e.experiment.Some? && s.variant == Some("holdout") {
      assert !Open(Holdout);
    } else if !e.profileLoads {
      assert !Open(FailedDelivery);
    } else if Policy.DecisionOf(e.facts, e.caps) != Policy.Sent {
      assert !Open(Rejection(Policy.DecisionOf(e.facts, e.caps)));
    } else {
      assert !Open(RenderFailed);
    }
  }

  lemma ProcessStep(s: State, d: Decision, e: Env)
    requires KeyInv(s, e.key) && e.key in s.attempts && s.attempts[e.key] == d && Open(d)
    ensures KeyInv(Process(s, d, e), e.key)
  {
    if d == ProviderSent {
      ReconcileKeeps(s, e);
    } else if Passes(s, e) {
      SendStep(s, e);
      assert Process(s, d, e) == SendAndRecord(s, e);
    } else {
      StopStep(s, d, e);
    }
  }

  lemma OwnKeyStep(s: State, e: Env)
    requires KeyInv(s, e.key)
    ensures KeyInv(After(s, e), e.key)
  {
    var p := Prepare(s, e);
    assert KeyInv(p.state, e.key);
    if p.Go? { ProcessStep(p.state, p.decision, e); }
  }

  lemma InvStep(s: State, e: Env)
    requires Inv(s)
    ensures Inv(After(s, e))
  {
    forall k: Key
      ensures KeyInv(After(s, e), k)
    {
      if k != e.key {
        OnlyItsOwnKey(s, e, k);
        EventIsStable(s, e);
        assert KeyInv(s, k);
      } else {
        OwnKeyStep(s, e);
      }
    }
  }

  lemma {:induction false} RunInv(s: State, es: seq<Env>)
    requires Inv(s)
    ensures Inv(Run(s, es))
    decreases |es|
  {
    if es != [] {
      InvStep(s, es[0]);
      RunInv(After(s, es[0]), es[1..]);
    }
  }

  /** Over any number of re-deliveries with arbitrary failures, each endpoint gets at most one send
      more than the sends whose outcome no write stored. */
  lemma DuplicateSuppression(es: seq<Env>, k: Key)
    ensures Run(Start(), es).sends[k] <= Run(Start(), es).lost[k] + 1
  {
    RunInv(Start(), es);
    assert KeyInv(Run(Start(), es), k);
  }

  /** A stored decision other than the three open ones is never changed, and neither it nor
      provider_sent ever leads to another call of Send. */
  lemma {:induction false} ClosedStaysClosed(s: State, es: seq<Env>, k: Key)
    requires Settled(s, k)
    ensures var s' := Run(s, es);
            && Settled(s', k) && s'.calls[k] == s.calls[k] && s'.sends[k] == s.sends[k]
            && (s.attempts[k] != ProviderSent ==> s'.attempts[k] == s.attempts[k])
    decreases |es|
  {
    if es != [] {
      SettledStays(s, es[0], k);
      ClosedStaysClosed(After(s, es[0]), es[1..], k);
    }
  }

  /** A profile whose stored variant is `holdout` is never sent to by a campaign with an experiment,
      whatever later computations of the variant say. */
  lemma {:induction false} HoldoutNeverSent(s: State, es: seq<Env>)
    requires s.variant == Some("holdout")
    requires forall i :: 0 <= i < |es| ==> es[i].experiment.Some?
    ensures Run(s, es).variant == s.variant && Run(s, es).calls == s.calls
    decreases |es|
  {
    if es != [] { HoldoutNeverSent(After(s, es[0]), es[1..]); }
  }

  /** All endpoints of a profile share one idempotency key, so at most one of them is ever recorded
      as sent, whatever the provider accepted. */
  lemma OnlyOneEndpointIsRecordedSent(es: seq<Env>, k: Key, k': Key)
    requires var s := Run(Start(), es);
             k in s.attempts && s.attempts[k] == Sent && k' in s.attempts && s.attempts[k'] == Sent
    ensures k == k'
  {
    RunInv(Start(), es);
    assert KeyInv(Run(Start(), es), k) && KeyInv(Run(Start(), es), k');
  }

  /** Reconciling provider_sent runs the policy again first: a delivered message whose recipient has
      since reached a cap is recorded as fatigued, and no event is ever published for it. */
  lemma DeliveredButRecordedFatigued(s: State, e: Env)
    requires e.key in s.attempts && s.attempts[e.key] == ProviderSent
    requires e.experiment.Some? ==> !e.assignFails && !e.stampFails && Assigned(s, e).variant != Some("holdout")
    requires !e.setupFails && !e.createFails && !e.getFails && e.profileLoads && e.firstWrite
    ensures After(s, e).attempts[e.key] == Fatigued <==> Policy.DecisionOf(e.facts, e.caps) == Policy.Fatigued
    ensures Policy.DecisionOf(e.facts, e.caps) == Policy.Fatigued ==> After(s, e).event == s.event
  {}
}
