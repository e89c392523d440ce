/** When a delivery of a campaign job calls the provider for a recipient, what every outcome stores, and
    when the job is retried (internal/campaigns/deliver.go), stated on the facts the delivery finds. */
module CampaignGate {
  import opened Common
  import opened CampaignDelivery
  import Policy

  /** The variant on record after the assignment: the stored one is kept. */
  ghost function Drawn(s: State, e: Env): Option<string> {
    if s.variant.Some? || e.experiment.None? then s.variant else e.experiment
  }

  /** The recipient's attempt is created or taken up again. */
  ghost predicate Reached(s: State, e: Env) {
    && !(e.experiment.Some? && e.assignFails) && !e.setupFails && !e.createFails
    && (e.key !in s.attempts ==> !e.crashAfterCreate)
    && (e.key in s.attempts ==> !e.getFails && s.attempts[e.key] in {InProgress, ProviderSent, RetryableFailed})
  }

  /** Not kept back by the experiment. */
  ghost predicate Served(s: State, e: Env) {
    Reached(s, e) && (e.experiment.Some? ==> !e.stampFails && Drawn(s, e) != Some("holdout"))
  }

  ghost predicate Delivered(s: State, k: Key) {
    k in s.attempts && s.attempts[k] == ProviderSent
  }

  /** Ready to be sent to, or to be reconciled when it already was. */
  ghost predicate Eligible(s: State, e: Env) {
    Served(s, e) && e.profileLoads && Policy.Permits(e.facts, e.caps) && e.renders
  }

  ghost predicate Gate(s: State, e: Env) {
    Eligible(s, e) && !Delivered(s, e.key)
  }

  lemma PreparedIff(s: State, e: Env)
    ensures var p := Prepare(s, e);
            && (p.Go? <==> Reached(s, e))
            && (p.Go? ==> p.state.variant == Drawn(s, e) && p.state.event == s.event && e.key in p.state.attempts
                          && p.state.calls == s.calls && p.state.sends == s.sends
                          && p.state.attempts[e.key] == p.decision
                          && (p.decision == ProviderSent <==> Delivered(s, e.key)))
            && (!p.Go? ==> p.state.calls == s.calls && p.state.sends == s.sends)
  {}

  lemma PassesIff(s: State, e: Env)
    ensures Eligible(s, e) <==> Reached(s, e) && Passes(Prepare(s, e).state, e)
  {
    hide Prepare;
    PreparedIff(s, e);
    Policy.EligibleIff(e.facts, e.caps);
  }

  lemma ProcessCalls(s: State, d: Decision, e: Env)
    ensures var s' := Process(s, d, e);
            if Passes(s, e) && d != ProviderSent
            then s' == SendAndRecord(s, e) else s'.calls == s.calls && s'.sends == s.sends
  {
    hide SendAndRecord, Policy.DecisionOf, Rejection;
  }

  lemma RecordedCalls(s: State, e: Env)
    ensures Recorded(s, e).calls == s.calls && Recorded(s, e).sends == s.sends
  {}

  /** A delivery calls the provider for a recipient if and only if nothing fails before it, the attempt is
      new or open and not already delivered, the profile is not held out, the facts allow the message and
      it renders. */
  lemma CallsIff(s: State, e: Env)
    ensures var s' := After(s, e);
            && s'.calls == s.calls + (if Gate(s, e) then multiset{e.key} else multiset{})
            && s'.sends == s.sends + (if Gate(s, e) && e.send in {Accepted, SendPanic(true)}
                                      then multiset{e.key} else multiset{})
  {
    hide Prepare, Process, Reached, Eligible, Passes, Recorded;
    var p := Prepare(s, e);
    PreparedIff(s, e);
    PassesIff(s, e);
    if p.Go? {
      ProcessCalls(p.state, p.decision, e);
      RecordedCalls(Logged(p.state, e), e);
    }
  }

  /** The recipients of a run that met the gate when their turn came. */
  ghost function Gated(s: State, es: seq<Env>): multiset<Key>
    decreases |es|
  {
    if es == [] then multiset{}
    else (if Gate(s, es[0]) then multiset{es[0].key} else multiset{}) + Gated(After(s, es[0]), es[1..])
  }

  /** Over any number of deliveries the provider is called for exactly those. */
  lemma {:induction false} CallsAreGated(s: State, es: seq<Env>)
    ensures Run(s, es).calls == s.calls + Gated(s, es)
    decreases |es|
  {
    hide After, Gate;
    if es != [] {
      CallsIff(s, es[0]);
      CallsAreGated(After(s, es[0]), es[1..]);
    }
  }

  // ---------------------------------------------------------------------------
  // What is stored

  ghost predicate Stores(s: State, e: Env, d: Decision) {
    var a := After(s, e).attempts;
    e.key in a && a[e.key] == d
  }

  /** The decision a refusal is recorded as. */
  function StoredReason(r: Policy.Decision): Decision {
    match r
    case Suppressed => Suppressed
    case NoConsent => NoConsent
    case Fatigued => Fatigued
    case _ => SendFailed
  }

  /** What stands in the way of a recipient is stored, the first obstacle before the others: the holdout,
      a profile that does not load, the policy's refusal, a message that does not render. */
  lemma RefusalStored(s: State, e: Env)
    requires Reached(s, e) && e.firstWrite && (e.experiment.Some? ==> !e.stampFails) && !Eligible(s, e)
    ensures if !Served(s, e) then Stores(s, e, Holdout)
            else if !e.profileLoads then Stores(s, e, FailedDelivery)
            else if !Policy.Permits(e.facts, e.caps) then
              exists r :: Policy.Refused(r, e.facts, e.caps) && Stores(s, e, StoredReason(r))
            else Stores(s, e, RenderFailed)
    ensures After(s, e).event == s.event
  {
    hide Prepare, Reached;
    var p := Prepare(s, e);
    PreparedIff(s, e);
    Policy.EligibleIff(e.facts, e.caps);
    if Served(s, e) && e.profileLoads && !Policy.Permits(e.facts, e.caps) {
      assert Policy.Refused(Policy.DecisionOf(e.facts, e.caps), e.facts, e.caps);
      assert Stores(s, e, StoredReason(Policy.DecisionOf(e.facts, e.caps)));
    }
  }

  /** The event of the profile's message is free or the very one of this attempt and microsecond. */
  ghost predicate EventFits(s: State, e: Env) {
    !e.acceptFails && (s.event.None? || (s.event.value.micros == e.micros && s.event.value.key == e.key))
  }

  /** After an accepted send: `sent` once the event and the decision are stored, `provider_sent` when only
      the first write was, and otherwise the decision from before. */
  ghost predicate StoresAccepted(s: State, e: Env, before: Decision) {
    var kept := if e.firstWrite then ProviderSent else before;
    if e.crashBeforeEmit || !EventFits(s, e) then Stores(s, e, kept) && After(s, e).event == s.event
    else
      && Stores(s, e, if e.lastWrite then Sent else kept)
      && After(s, e).event == Some(Event(e.micros, e.key))
  }

  ghost function Before(s: State, e: Env): Decision {
    if e.key in s.attempts then s.attempts[e.key] else InProgress
  }

  lemma RecordedStores(s: State, e: Env, before: Decision)
    requires e.key in s.attempts && s.attempts[e.key] == before
    ensures var s', written := Recorded(s, e), e.firstWrite;
            && e.key in s'.attempts
            && (e.send != Accepted ==> s'.event == s.event)
            && match e.send
               case Accepted =>
                 var kept := if written then ProviderSent else before;
                 if e.crashAfterSend then s' == s
                 else if e.crashBeforeEmit || !EventFits(s, e) then s'.attempts[e.key] == kept && s'.event == s.event
                 else
                   && s'.attempts[e.key] == (if e.lastWrite then Sent else kept)
                   && s'.event == Some(Event(e.micros, e.key))
               case InvalidToken => s'.attempts[e.key] == if written then FailedDelivery else before
               case Permanent => s'.attempts[e.key] == if written then SendFailed else before
               case Transient => s'.attempts[e.key] == if written then RetryableFailed else before
               case SendPanic(_) => s' == s
  {}

  /** What each answer of the provider stores. */
  lemma SendStored(s: State, e: Env)
    requires Gate(s, e)
    ensures match e.send
            case Accepted => if e.crashAfterSend then Stores(s, e, Before(s, e)) else StoresAccepted(s, e, Before(s, e))
            case InvalidToken => Stores(s, e, if e.firstWrite then FailedDelivery else Before(s, e))
            case Permanent => Stores(s, e, if e.firstWrite then SendFailed else Before(s, e))
            case Transient => Stores(s, e, if e.firstWrite then RetryableFailed else Before(s, e))
            case SendPanic(_) => Stores(s, e, Before(s, e))
  {
    hide Process, Eligible, Passes, Recorded;
    var p := Prepare(s, e);
    PreparedIff(s, e);
    PassesIff(s, e);
    ProcessCalls(p.state, p.decision, e);
    RecordedStores(Logged(p.state, e), e, Before(s, e));
  }

  /** A delivered attempt that is still eligible is not sent again: its event is published. */
  lemma ReconciliationStored(s: State, e: Env)
    requires Eligible(s, e) && Delivered(s, e.key)
    ensures if e.crashBeforeEmit || !EventFits(s, e) then
              Stores(s, e, ProviderSent) && After(s, e).event == s.event
            else
              && Stores(s, e, if e.lastWrite then Sent else ProviderSent)
              && After(s, e).event == Some(Event(e.micros, e.key))
  {
    hide Prepare, Eligible, Passes;
    PreparedIff(s, e);
    PassesIff(s, e);
    ProcessReconciles(Prepare(s, e).state, e);
  }

  lemma ProcessReconciles(s: State, e: Env)
    requires Passes(s, e) && Delivered(s, e.key)
    ensures var s' := Process(s, ProviderSent, e);
            e.key in s'.attempts &&
            if e.crashBeforeEmit || !EventFits(s, e) then s'.attempts[e.key] == ProviderSent && s'.event == s.event
            else
              && s'.attempts[e.key] == (if e.lastWrite then Sent else ProviderSent)
              && s'.event == Some(Event(e.micros, e.key))
  {}

  // ---------------------------------------------------------------------------
  // The job

  lemma RetryableIff(s: State, e: Env)
    ensures Retryable(s, e) <==> TransientFailure(s, e)
  {
    hide Prepare, Eligible, Passes;
    PreparedIff(s, e);
    PassesIff(s, e);
  }

  /** The recipient's message fails in a way that is retried. */
  ghost predicate TransientFailure(s: State, e: Env) {
    Gate(s, e) && e.send == Transient
  }

  /** The worker dies on this recipient: after creating its attempt, in the call of the provider, after it
      or before the event. */
  ghost predicate DiesOn(s: State, e: Env) {
    if Eligible(s, e) then
      if Delivered(s, e.key) then e.crashBeforeEmit
      else e.send.SendPanic? || (e.send == Accepted && (e.crashAfterSend || e.crashBeforeEmit))
    else
      && !(e.experiment.Some? && e.assignFails) && !e.setupFails && !e.createFails
      && e.key !in s.attempts && e.crashAfterCreate
  }

  lemma CrashesIff(s: State, e: Env)
    ensures Crashes(s, e) <==> DiesOn(s, e)
  {
    hide Eligible, Passes;
    PreparedIff(s, e);
    PassesIff(s, e);
  }

  /** It happens to some recipient when its turn comes. */
  ghost predicate Sometime(s: State, es: seq<Env>, what: (State, Env) -> bool) {
    exists k :: 0 <= k < |es| && what(Run(s, es[..k]), es[k])
  }

  lemma SometimeStep(s: State, es: seq<Env>, what: (State, Env) -> bool)
    requires es != []
    ensures Sometime(s, es, what) <==> what(s, es[0]) || Sometime(After(s, es[0]), es[1..], what)
  {
    hide After;
    assert Run(s, es[..0]) == s;
    if k :| 0 <= k < |es| && what(Run(s, es[..k]), es[k]) {
      if k > 0 {
        RunHead(s, es, k - 1);
        assert es[1..][k - 1] == es[k];
      }
    }
    if j :| 0 <= j < |es| - 1 && what(Run(After(s, es[0]), es[1..][..j]), es[1..][j]) {
      RunHead(s, es, j);
      assert es[1..][j] == es[j + 1];
    }
  }

  lemma RunHead(s: State, es: seq<Env>, k: nat)
    requires k < |es|
    ensures Run(s, es[..k + 1]) == Run(After(s, es[0]), es[1..][..k])
  {
    assert es[..k + 1][1..] == es[1..][..k];
  }

  lemma {:induction false} OutcomeFrom(s: State, es: seq<Env>, retry: bool)
    ensures Job(s, es, retry).1 == Interrupted <==> Sometime(s, es, DiesOn)
    ensures Job(s, es, retry).1 == MarkedForRetry <==>
              !Sometime(s, es, DiesOn) && (retry || Sometime(s, es, TransientFailure))
    decreases |es|
  {
    hide Gate, DiesOn, After, Crashes, Retryable;
    if es != [] {
      SometimeStep(s, es, DiesOn);
      SometimeStep(s, es, TransientFailure);
      CrashesIff(s, es[0]);
      RetryableIff(s, es[0]);
      OutcomeFrom(After(s, es[0]), es[1..], retry || Retryable(s, es[0]));
    }
  }

  /** A job is interrupted exactly when its worker dies on some recipient. Otherwise it is marked for retry
      exactly when some recipient's message failed transiently, and completed when none did. */
  lemma OutcomeIff(s: State, es: seq<Env>)
    ensures Job(s, es, false).1 ==
            if Sometime(s, es, DiesOn) then Interrupted
            else if Sometime(s, es, TransientFailure) then MarkedForRetry else JobCompleted
  {
    OutcomeFrom(s, es, false);
  }
}
