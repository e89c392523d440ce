/** When a pass over a journey message calls the provider, and what every other outcome stores
    (internal/journey/deliver.go), stated on the facts the pass finds. */
module JourneyGate {
  import opened Common
  import opened JourneyDelivery
  import Policy
  import QuietHours

  /** The pass gets as far as deciding about a send. */
  ghost predicate TakenUp(s: State, e: Env) {
    && Claimable(s.intent, e.now) && !Settled(s.intent)
    && !e.crashAfterClaim && e.setup == Ready && e.profileLoads
  }

  /** A marketing message inside the tenant's quiet window, in the recipient's local time. */
  ghost predicate Hushed(i: Intent, e: Env) {
    && !i.transactional && e.quietStart.Some? && e.quietEnd.Some? && e.quietStart != e.quietEnd
    && QuietHours.InWindow(e.now, e.offset, e.quietStart.value, e.quietEnd.value)
  }

  /** A transactional message asks for suppression only. */
  ghost predicate Allowed(i: Intent, e: Env) {
    if i.transactional then e.facts.suppressed == Policy.Found(false) else Policy.Permits(e.facts, e.caps)
  }

  ghost predicate Gate(s: State, e: Env) {
    TakenUp(s, e) && !Hushed(s.intent, e) && Allowed(s.intent, e) && e.rendering == Rendered
  }

  lemma QuietIff(i: Intent, e: Env)
    ensures QuietAnswer(i, e).Quiet? <==> Hushed(i, e)
  {}

  lemma VerdictIff(i: Intent, e: Env)
    ensures VerdictOf(i, e) == Policy.Sent <==> Allowed(i, e)
  {
    Policy.EligibleIff(e.facts, e.caps);
  }

  lemma DeliverCalls(s: State, i: Intent, e: Env)
    ensures var s' := Deliver(s, i, e);
            var through := !Hushed(i, e) && Allowed(i, e) && e.rendering == Rendered;
            && s'.calls == s.calls + (if through then 1 else 0)
            && s'.sends == s.sends + (if through && e.send in {Accepted, SendPanic(true)} then 1 else 0)
  {
    hide QuietAnswer, VerdictOf, Hushed, Allowed;
    QuietIff(i, e);
    VerdictIff(i, e);
  }

  /** A pass calls the provider if and only if the intent is claimable and unsettled, nothing fails on the
      way, the instant is outside the quiet window, the facts allow the message and it renders. */
  lemma CallsIff(s: State, e: Env)
    ensures var s' := AfterPass(s, e);
            && s'.calls == s.calls + (if Gate(s, e) then 1 else 0)
            && s'.sends == s.sends + (if Gate(s, e) && e.send in {Accepted, SendPanic(true)} then 1 else 0)
  {
    hide Deliver, Hushed, Allowed;
    var i := Claimed(s.intent, e.now);
    assert Hushed(i, e) == Hushed(s.intent, e) && Allowed(i, e) == Allowed(s.intent, e) by {
      GateIgnoresClaim(s.intent, e);
    }
    DeliverCalls(s.(intent := i), i, e);
  }

  lemma GateIgnoresClaim(i: Intent, e: Env)
    ensures var c := Claimed(i, e.now); (Hushed(c, e) <==> Hushed(i, e)) && (Allowed(c, e) <==> Allowed(i, e))
  {}

  /** The passes of a run that met the gate when they began. */
  ghost function Gated(s: State, ops: seq<Op>): nat {
    if ops == [] then 0
    else
      var before, op := ops[..|ops| - 1], ops[|ops| - 1];
      Gated(s, before) + if op.Pass? && Gate(Run(s, before), op.env) then 1 else 0
  }

  /** Over every run of passes and retries the provider is called once for each pass that meets the gate and
      never otherwise. */
  lemma {:induction false} CallsAreGated(s: State, ops: seq<Op>)
    ensures Run(s, ops).calls == s.calls + Gated(s, ops)
  {
    if ops != [] {
      var before, op := ops[..|ops| - 1], ops[|ops| - 1];
      CallsAreGated(s, before);
      if op.Pass? { CallsIff(Run(s, before), op.env); }
    }
  }

  // ---------------------------------------------------------------------------
  // What is stored

  ghost predicate Stores(i: Intent, status: Status, d: Decision) {
    i.status == status && i.decision == Some(d)
  }

  ghost predicate Decided(i: Intent) {
    i.decision.Some? && Terminal(i.decision.value)
  }

  /** Gives up for now, and for good after the last attempt. */
  ghost predicate GivesUp(i: Intent, attempts: int) {
    && i.status == (if attempts >= 3 then Dead else Failed)
    && i.lockedUntil.None? && i.decision == Some(FailedDelivery)
  }

  /** A refused message is completed with the reason the facts give. */
  ghost predicate StoresRefusal(i: Intent, e: Env, d: Option<Decision>) {
    if i.transactional then
      d == Some(if e.facts.suppressed == Policy.Found(true) then Suppressed else SendFailed)
    else
      exists r :: Policy.Refused(r, e.facts, e.caps) && d == Some(match r
        case Suppressed => Suppressed
        case NoConsent => NoConsent
        case Fatigued => Fatigued
        case _ => SendFailed)
  }

  lemma RefusalStored(s: State, e: Env)
    requires TakenUp(s, e) && !Hushed(s.intent, e) && !Allowed(s.intent, e) && e.firstWrite
    ensures var i := AfterPass(s, e).intent;
            && i.status == Completed && StoresRefusal(s.intent, e, i.decision)
            && AfterPass(s, e).calls == s.calls && AfterPass(s, e).event == s.event
  {
    var i := Claimed(s.intent, e.now);
    GateIgnoresClaim(s.intent, e);
    QuietIff(i, e);
    VerdictIff(i, e);
    Policy.EligibleIff(e.facts, e.caps);
    assert !i.transactional ==> Policy.Refused(VerdictOf(i, e), e.facts, e.caps);
  }

  /** What an accepted message stores, by what happens to its event: `sent` once the event is stored,
      `provider_sent` while it is not, and a failure when the worker panics. */
  ghost predicate StoresAccepted(s: State, e: Env, s': State, attempts: int) {
    var i := s'.intent;
    var eventFits := !e.acceptFails && (s.event.None? || s.event == Some(e.now / 1000));
    match e.emission
    case CrashesBefore => i.status == Processing && i.decision == Some(ProviderSent)
    case Panics(_) => if e.lastWrite then GivesUp(i, attempts) else i.decision == Some(ProviderSent)
    case Emits =>
      if eventFits then
        && s'.event == Some(e.now / 1000)
        && (if e.lastWrite then i.status == Completed && i.decision == Some(Sent) else i.decision == Some(ProviderSent))
      else
        && s'.event == s.event && i.decision == Some(ProviderSent)
        && (e.lastWrite ==> i.status == if attempts >= 3 then Dead else Pending)
  }

  /** What each answer of the provider stores. */
  lemma SendStored(s: State, e: Env)
    requires Gate(s, e) && e.firstWrite
    ensures var s', n := AfterPass(s, e), s.intent.attempts + 1;
            var i := s'.intent;
            match e.send
            case Accepted => s'.recorded && StoresAccepted(s, e, s', n)
            case InvalidToken => Stores(i, Completed, FailedDelivery)
            case Permanent => Stores(i, Completed, SendFailed)
            case Transient => if n >= 3 then Stores(i, Dead, SendFailed) else Stores(i, Failed, RetryableFailed)
            case SendPanic(_) => GivesUp(i, n)
  {
    hide Hushed, Allowed, QuietAnswer, VerdictOf;
    var i := Claimed(s.intent, e.now);
    GateIgnoresClaim(s.intent, e);
    QuietIff(i, e);
    VerdictIff(i, e);
  }

  /** A message that does not render is not sent: an error completes it, a panic gives it up. */
  lemma RenderingStored(s: State, e: Env)
    requires TakenUp(s, e) && !Hushed(s.intent, e) && Allowed(s.intent, e) && e.rendering != Rendered && e.firstWrite
    ensures var s' := AfterPass(s, e);
            && s'.calls == s.calls
            && (e.rendering == RenderError ==> Stores(s'.intent, Completed, RenderFailed))
            && (e.rendering == RenderPanic ==> GivesUp(s'.intent, s.intent.attempts + 1))
  {
    hide Hushed, Allowed, QuietAnswer, VerdictOf;
    var i := Claimed(s.intent, e.now);
    GateIgnoresClaim(s.intent, e);
    QuietIff(i, e);
    VerdictIff(i, e);
  }

  /** What a claimed intent stores when the pass ends before the decision. */
  lemma SetupStored(s: State, e: Env)
    requires Claimable(s.intent, e.now) && !e.crashAfterClaim && e.firstWrite
    ensures var i := AfterPass(s, e).intent;
            && (e.setup == SetupPanic ==> GivesUp(i, s.intent.attempts + 1))
            && (e.setup in {AppMissing, TokensUnreadable} ==> Stores(i, Failed, FailedDelivery))
            && (e.setup in {TemplateMissing, IdentityMissing} ==> Stores(i, Failed, RenderFailed))
            && (e.setup == TokenInactive ==> Stores(i, Completed, FailedDelivery))
            && (e.setup == Ready && !Decided(s.intent) && !e.profileLoads ==> Stores(i, Failed, FailedDelivery))
            && (e.setup == Ready && Decided(s.intent) ==> Stores(i, Completed, s.intent.decision.value))
  {
    hide Deliver, Emit;
  }

  /** A pass whose first write fails, or that dies after its claim, leaves the claim alone. */
  lemma UnstoredIsClaimed(s: State, e: Env)
    requires Claimable(s.intent, e.now)
    requires e.crashAfterClaim || (!e.firstWrite && s.intent.decision != Some(ProviderSent))
    ensures AfterPass(s, e).intent == s.intent.(status := Processing, attempts := s.intent.attempts + 1,
                                                lockedUntil := Some(e.now + 300_000_000_000))
    ensures AfterPass(s, e).event == s.event
  {}

  /** An intent that cannot be claimed is left as it is. */
  lemma UnclaimedStays(s: State, e: Env)
    requires !Claimable(s.intent, e.now)
    ensures AfterPass(s, e) == s
  {}
}
