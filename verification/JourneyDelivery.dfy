/** Delivery of one journey message intent (internal/journey/deliver.go, and the claim, update, retry
    and AcceptEvents statements of internal/postgres). Every store call may fail and the worker may
    crash or panic; passes over one intent do not overlap. Times are nanoseconds. */
module JourneyDelivery {
  import opened Common
  import Policy
  import QuietHours

  const LEASE: int := 300_000_000_000
  const MAX_ATTEMPTS: int := 3

  datatype Status = Pending | Processing | Completed | Failed | Dead

  datatype Decision =
    | Sent | Suppressed | NoConsent | Fatigued | RenderFailed | SendFailed | FailedDelivery
    | Holdout | ProviderSent | RetryableFailed

  datatype Intent = Intent(
    status: Status, attempts: int, availableAt: int, lockedUntil: Option<int>, decision: Option<Decision>,
    transactional: bool)

  /** The stored intent and event, and the history a reader of the provider's log would see:
      calls of Send, those the provider accepted, accepted sends after which no decision was stored,
      whether provider_sent was ever stored. */
  datatype State = State(intent: Intent, event: Option<int>, calls: nat, sends: nat, lost: nat, recorded: bool)

  datatype Setup = SetupPanic | AppMissing | TemplateMissing | TokensUnreadable | TokenInactive | IdentityMissing
      | Ready

  datatype Rendering = Rendered | RenderError | RenderPanic

  datatype SendResult = Accepted | InvalidToken | Transient | Permanent | SendPanic(accepted: bool)

  /** What happens to the publication of message.sent: a panic may come before or after AcceptEvents. */
  datatype Emission = Emits | CrashesBefore | Panics(afterAccept: bool)

  /** Everything the surroundings decide about one pass. */
  datatype Env = Env(
    now: int, crashAfterClaim: bool, setup: Setup, profileLoads: bool,
    quietStart: Option<int>, quietEnd: Option<int>, offset: int,
    facts: Policy.Facts, caps: Policy.Caps, rendering: Rendering, send: SendResult,
    firstWrite: bool, emission: Emission, acceptFails: bool, lastWrite: bool)

  datatype Op = Pass(env: Env) | Retry(now: int)

  predicate Terminal(d: Decision) {
    d in {Sent, Suppressed, NoConsent, Fatigued, RenderFailed, SendFailed, FailedDelivery}
  }

  /** A decision after which the code promises not to send again. */
  predicate Settled(i: Intent) {
    i.decision.Some? && (Terminal(i.decision.value) || i.decision.value == ProviderSent)
  }

  predicate Claimable(i: Intent, now: int) {
    || (i.status in {Pending, Failed} && i.attempts < MAX_ATTEMPTS && i.availableAt <= now)
    || (i.status == Processing && i.lockedUntil.Some? && i.lockedUntil.value <= now)
  }

  function Claimed(i: Intent, now: int): Intent {
    i.(status := Processing, attempts := i.attempts + 1, lockedUntil := Some(now + LEASE))
  }

  function SetupFailure(i: Intent, setup: Setup): Intent
    requires setup != Ready
  {
    match setup
    case SetupPanic => Recovered(i)
    case AppMissing => i.(status := Failed, decision := Some(FailedDelivery))
    case TemplateMissing => i.(status := Failed, decision := Some(RenderFailed))
    case TokensUnreadable => i.(status := Failed, decision := Some(FailedDelivery))
    case TokenInactive => i.(status := Completed, decision := Some(FailedDelivery))
    case IdentityMissing => i.(status := Failed, decision := Some(RenderFailed))
  }

  function VerdictOf(i: Intent, e: Env): Policy.Decision {
    if i.transactional then
      (if !e.facts.suppressed.Found? then Policy.SendFailed
       else if e.facts.suppressed.value then Policy.Suppressed else Policy.Sent)
    else Policy.DecisionOf(e.facts, e.caps)
  }

  function Rejection(d: Policy.Decision): Decision {
    match d
    case Sent => Sent
    case Suppressed => Suppressed
    case NoConsent => NoConsent
    case Fatigued => Fatigued
    case SendFailed => SendFailed
  }

  function QuietAnswer(i: Intent, e: Env): QuietHours.Answer {
    if i.transactional then QuietHours.OpenNow
    else QuietHours.IsInQuietHours(e.now, e.offset, e.quietStart, e.quietEnd)
  }

  function Postponed(i: Intent, until: int): Intent {
    i.(availableAt := until, status := Pending, attempts := if i.attempts > 0 then i.attempts - 1 else i.attempts)
  }

  function Recovered(i: Intent): Intent {
    i.(status := if i.attempts >= MAX_ATTEMPTS then Dead else Failed, lockedUntil := None,
        decision := Some(FailedDelivery))
  }

  function SendFailure(i: Intent, r: SendResult): Intent
    requires r in {InvalidToken, Transient, Permanent}
  {
    match r
    case InvalidToken => i.(status := Completed, decision := Some(FailedDelivery))
    case Transient =>
      if i.attempts >= MAX_ATTEMPTS then i.(status := Dead, decision := Some(SendFailed))
      else i.(status := Failed, decision := Some(RetryableFailed))
    case Permanent => i.(status := Completed, decision := Some(SendFailed))
  }

  function Write(s: State, i: Intent, ok: bool): State {
    if ok then s.(intent := i) else s
  }

  /** Event times are stored to the microsecond. */
  function Micros(t: int): int {
    t / 1000
  }

  /** AcceptEvents: a repeated key is accepted only with the same occurrence time. */
  predicate EventAccepted(s: State, e: Env) {
    !e.acceptFails && (s.event.None? || s.event.value == Micros(e.now))
  }

  function Emit(s: State, i: Intent, e: Env): State {
    match e.emission
    case CrashesBefore => s
    case Panics(afterAccept) =>
      var s1 := if afterAccept && EventAccepted(s, e) then s.(event := Some(Micros(e.now))) else s;
      Write(s1, Recovered(i), e.lastWrite)
    case Emits =>
      if EventAccepted(s, e) then
        Write(s.(event := Some(Micros(e.now))), i.(status := Completed, decision := Some(Sent)), e.lastWrite)
      else
        Write(s, i.(status := if i.attempts >= MAX_ATTEMPTS then Dead else Pending, decision := Some(ProviderSent)),
            e.lastWrite)
  }

  function SendAndRecord(s: State, i: Intent, e: Env): State {
    var s0 := s.(calls := s.calls + 1);
    match e.send
    case SendPanic(accepted) =>
      var s1 := if accepted then s0.(sends := s.sends + 1, lost := s.lost + if e.firstWrite then 0 else 1) else s0;
      Write(s1, Recovered(i), e.firstWrite)
    case Accepted =>
      var s1 := s0.(sends := s.sends + 1);
      var i1 := i.(decision := Some(ProviderSent));
      if !e.firstWrite then s1.(lost := s1.lost + 1) else Emit(s1.(intent := i1, recorded := true), i1, e)
    case _ => Write(s0, SendFailure(i, e.send), e.firstWrite)
  }

  function Deliver(s: State, i: Intent, e: Env): State {
    if QuietAnswer(i, e).Quiet? then Write(s, Postponed(i, QuietAnswer(i, e).until), e.firstWrite)
    else if VerdictOf(i, e) != Policy.Sent then
      Write(s, i.(status := Completed, decision := Some(Rejection(VerdictOf(i, e)))), e.firstWrite)
    else if e.rendering == RenderPanic then Write(s, Recovered(i), e.firstWrite)
    else if e.rendering == RenderError then
      Write(s, i.(status := Completed, decision := Some(RenderFailed)), e.firstWrite)
    else SendAndRecord(s, i, e)
  }

  function AfterPass(s: State, e: Env): State {
    if !Claimable(s.intent, e.now) then s
    else
      var i := Claimed(s.intent, e.now);
      var s0 := s.(intent := i);
      if e.crashAfterClaim then s0
      else if e.setup != Ready then Write(s0, SetupFailure(i, e.setup), e.firstWrite)
      else if i.decision.Some? && Terminal(i.decision.value) then Write(s0, i.(status := Completed), e.firstWrite)
      else if !e.profileLoads then Write(s0, i.(status := Failed, decision := Some(FailedDelivery)), e.firstWrite)
      else if i.decision == Some(ProviderSent) then Emit(s0, i, e)
      else Deliver(s0, i, e)
  }

  function After(s: State, op: Op): State {
    match op
    case Pass(e) => AfterPass(s, e)
    case Retry(now) =>
      s.(intent := s.intent.(status := Pending, attempts := 0, availableAt := now, lockedUntil := None))
  }

  class Worker {
    var row: Intent
    var event: Option<int>
    ghost var calls: nat
    ghost var sends: nat
    ghost var lost: nat
    ghost var recorded: bool

    ghost function Value(): State
      reads this
    {
      State(row, event, calls, sends, lost, recorded)
    }

    constructor (i: Intent)
      ensures Value() == State(i, None, 0, 0, 0, false)
    {
      row, event := i, None;
      calls, sends, lost, recorded := 0, 0, 0, false;
    }

    method Update(i: Intent, ok: bool)
      modifies `row
      ensures Value() == Write(old(Value()), i, ok)
    {
      if ok { row := i; }
    }

    method Publish(i: Intent, e: Env)
      modifies `row, `event
      ensures Value() == Emit(old(Value()), i, e)
    {
      var intent := i;
      if e.emission == CrashesBefore { return; }
      if e.emission.Panics? {
        if e.emission.afterAccept && !e.acceptFails && event.None? { event := Some(Micros(e.now)); }
        Update(Recovered(intent), e.lastWrite);
        return;
      }
      if e.acceptFails || (event.Some? && event.value != Micros(e.now)) {
        intent := intent.(status := Pending);
        if intent.attempts >= MAX_ATTEMPTS {
          intent := intent.(status := Dead);
        }
        intent := intent.(decision := Some(ProviderSent));
        Update(intent, e.lastWrite);
        return;
      }
      event := Some(Micros(e.now));
      intent := intent.(status := Completed, decision := Some(Sent));
      Update(intent, e.lastWrite);
    }

    method SendMessage(i: Intent, e: Env)
      modifies this
      ensures Value() == SendAndRecord(old(Value()), i, e)
    {
      var intent := i;
      calls := calls + 1;
      if e.send == Accepted || e.send == SendPanic(true) {
        sends := sends + 1;
        if !e.firstWrite { lost := lost + 1; }
      }
      if e.send.SendPanic? {
        intent := intent.(status := Failed);
        if intent.attempts >= MAX_ATTEMPTS {
          intent := intent.(status := Dead);
        }
        intent := intent.(lockedUntil := None, decision := Some(FailedDelivery));
        Update(intent, e.firstWrite);
        return;
      }
      if e.send != Accepted {
        Update(SendFailure(intent, e.send), e.firstWrite);
        return;
      }
      intent := intent.(decision := Some(ProviderSent));
      Update(intent, e.firstWrite);
      if !e.firstWrite { return; }
      recorded := true;
      Publish(intent, e);
    }

    method DeliverNext(e: Env)
      modifies this
      ensures Value() == AfterPass(old(Value()), e)
    {
      if !Claimable(row, e.now) { return; }
      row := Claimed(row, e.now);
      if e.crashAfterClaim { return; }
      var intent := row;
      if e.setup != Ready {
        Update(SetupFailure(intent, e.setup), e.firstWrite);
        return;
      }
      if intent.decision.Some? && Terminal(intent.decision.value) {
        intent := intent.(status := Completed);
        Update(intent, e.firstWrite);
        return;
      }
      if !e.profileLoads {
        intent := intent.(status := Failed, decision := Some(FailedDelivery));
        Update(intent, e.firstWrite);
        return;
      }
      if intent.decision == Some(ProviderSent) {
        Publish(intent, e);
        return;
      }
      if !intent.transactional {
        var quiet := QuietHours.IsInQuietHours(e.now, e.offset, e.quietStart, e.quietEnd);
        if quiet.Quiet? {
          intent := intent.(availableAt := quiet.until, status := Pending);
          if intent.attempts > 0 { intent := intent.(attempts := intent.attempts - 1); }
          Update(intent, e.firstWrite);
          return;
        }
      }
      var verdict := VerdictOf(intent, e);
      if verdict != Policy.Sent {
        intent := intent.(status := Completed, decision := Some(Rejection(verdict)));
        Update(intent, e.firstWrite);
        return;
      }
      if e.rendering == RenderPanic {
        Update(Recovered(intent), e.firstWrite);
        return;
      }
      if e.rendering == RenderError {
        intent := intent.(status := Completed, decision := Some(RenderFailed));
        Update(intent, e.firstWrite);
        return;
      }
      SendMessage(intent, e);
    }
  }

  // ---------------------------------------------------------------------------
  // Whole runs

  function Run(s: State, ops: seq<Op>): State {
    if ops == [] then s else After(Run(s, ops[..|ops| - 1]), ops[|ops| - 1])
  }

  function Start(i: Intent): State {
    State(i, None, 0, 0, 0, false)
  }

  ghost predicate Inv(s: State) {
    && s.lost <= s.sends <= s.lost + 1 && s.sends <= s.calls
    && (s.sends == s.lost + 1 ==> Settled(s.intent))
    && (s.recorded ==> s.sends > 0 && Settled(s.intent))
    && (s.event.Some? ==> s.recorded)
    && (s.intent.decision == Some(Sent) ==> s.event.Some?)
    && (s.intent.decision == Some(ProviderSent) ==> s.recorded)
  }

  lemma SettledStays(s: State, op: Op)
    requires Settled(s.intent)
    ensures var s' := After(s, op);
            && Settled(s'.intent) && s'.calls == s.calls && s'.sends == s.sends && s'.lost == s.lost &&
                 s'.recorded == s.recorded
            && (Terminal(s.intent.decision.value) && s.intent.decision != s'.intent.decision ==>
                op.Pass? && op.env.setup != Ready)
  {}

  lemma InvStep(s: State, op: Op)
    requires Inv(s)
    ensures Inv(After(s, op))
  {
    if Settled(s.intent) {
      SettledStays(s, op);
    } else if op.Pass? {
      var e := op.env;
      var i := Claimed(s.intent, e.now);
      if Claimable(s.intent, e.now) && !e.crashAfterClaim && e.setup == Ready && e.profileLoads {
        DeliverInv(s.(intent := i), i, e);
      }
    }
  }

  lemma DeliverInv(s: State, i: Intent, e: Env)
    requires Inv(s) && s.intent == i && !Settled(i)
    ensures Inv(Deliver(s, i, e))
  {}

  lemma {:induction false} RunInv(s: State, ops: seq<Op>)
    requires Inv(s)
    ensures Inv(Run(s, ops))
  {
    if ops != [] {
      RunInv(s, ops[..|ops| - 1]);
      InvStep(Run(s, ops[..|ops| - 1]), ops[|ops| - 1]);
    }
  }

  /** Over every run from a fresh intent: sends are at most one more than the sends whose outcome was
      never stored; message.sent exists only when provider_sent was stored, and `sent` only with it. */
  lemma DuplicateSuppression(i: Intent, ops: seq<Op>)
    requires i.decision.None?
    ensures var s := Run(Start(i), ops);
            && s.sends <= s.lost + 1
            && (s.event.Some? ==> s.recorded && s.sends > 0)
            && (s.intent.decision == Some(Sent) ==> s.event.Some?)
  {
    RunInv(Start(i), ops);
  }

  /** Once provider_sent or a terminal decision is stored, no later pass or retry ever calls Send, even
      when a failing lookup or a panic overwrites provider_sent. */
  lemma {:induction false} NeverSentAgain(s: State, ops: seq<Op>)
    requires Settled(s.intent)
    ensures Run(s, ops).calls == s.calls && Run(s, ops).sends == s.sends && Settled(Run(s, ops).intent)
  {
    if ops != [] {
      NeverSentAgain(s, ops[..|ops| - 1]);
      SettledStays(Run(s, ops[..|ops| - 1]), ops[|ops| - 1]);
    }
  }

  lemma EventStays(s: State, op: Op)
    ensures s.event.Some? ==> After(s, op).event == s.event
    ensures op.Pass? && op.env.acceptFails ==> After(s, op).event == s.event
  {
    if op.Pass? && Claimable(s.intent, op.env.now) {
      var i := Claimed(s.intent, op.env.now);
      DeliverEvent(s.(intent := i), i, op.env);
    }
  }

  lemma DeliverEvent(s: State, i: Intent, e: Env)
    ensures s.event.Some? || e.acceptFails ==> Deliver(s, i, e).event == s.event
  {}

  /** The event is never replaced once stored. */
  lemma {:induction false} EventIsStable(s: State, ops: seq<Op>)
    requires s.event.Some?
    ensures Run(s, ops).event == s.event
  {
    hide After;
    if ops != [] {
      EventIsStable(s, ops[..|ops| - 1]);
      EventStays(Run(s, ops[..|ops| - 1]), ops[|ops| - 1]);
    }
  }

  /** Reconciliation completes an intent whose event is already stored only in a pass that reads the
      very same microsecond: when the last write is lost, no later pass at any other time reaches `sent`. */
  lemma {:induction false} LostLastWriteNeverCompletes(s: State, ops: seq<Op>)
    requires Settled(s.intent) && s.intent.decision != Some(Sent) && s.event.Some?
    requires forall k :: 0 <= k < |ops| && ops[k].Pass? ==> Micros(ops[k].env.now) != s.event.value
    ensures Run(s, ops).intent.decision != Some(Sent)
  {
    if ops != [] {
      var before := ops[..|ops| - 1];
      LostLastWriteNeverCompletes(s, before);
      EventIsStable(s, before);
      NeverSentAgain(s, before);
    }
  }

  /** A pass that takes up a delivered intent and in which nothing fails. */
  ghost predicate Reconciles(s: State, e: Env) {
    && s.intent.decision == Some(ProviderSent) && Claimable(s.intent, e.now)
    && !e.crashAfterClaim && e.setup == Ready && e.profileLoads
    && e.emission == Emits && !e.acceptFails && e.lastWrite
  }

  /** A delivered intent whose event is stored is completed by a pass in which nothing fails if and only
      if the pass reads the stored microsecond; otherwise it stays at provider_sent. */
  lemma ReconciledIff(s: State, e: Env)
    requires Reconciles(s, e) && s.event.Some?
    ensures var d := AfterPass(s, e).intent.decision;
            (d == Some(Sent) <==> Micros(e.now) == s.event.value) && (d != Some(Sent) ==> d == Some(ProviderSent))
  {}

  /** What an intent promises to a holdout profile. */
  lemma {:induction false} HoldoutNeverSent(s: State, ops: seq<Op>)
    requires s.intent.decision == Some(Holdout) && s.intent.status == Completed
    requires forall k :: 0 <= k < |ops| ==> ops[k].Pass?
    ensures Run(s, ops) == s
  {
    if ops != [] { HoldoutNeverSent(s, ops[..|ops| - 1]); }
  }

  /** A retry of the dead-letter queue breaks it: `holdout` is not among the terminal decisions, so a
      retried holdout intent is sent whenever any other intent would be. */
  lemma RetriedHoldoutIsSent(i: Intent, e: Env)
    requires i.decision == Some(Holdout) && !e.crashAfterClaim && e.setup == Ready && e.profileLoads
    requires !QuietAnswer(i, e).Quiet? && VerdictOf(i, e) == Policy.Sent && e.rendering == Rendered &&
             e.send == Accepted
    ensures Run(Start(i), [Retry(e.now), Pass(e)]).sends == 1
  {
    var ops := [Retry(e.now), Pass(e)];
    assert ops[..1] == [Retry(e.now)] && ops[..1][..0] == [];
    var s1 := After(Start(i), ops[0]);
    assert Run(Start(i), ops[..1]) == s1;
    assert Run(Start(i), ops) == AfterPass(s1, e);
  }

  // ---------------------------------------------------------------------------
  // Postponement

  /** A pass that finds the intent in quiet hours and stores the new time. */
  ghost predicate Postpones(s: State, e: Env) {
    && Claimable(s.intent, e.now) && s.intent.attempts >= 0
    && !e.crashAfterClaim && e.setup == Ready && e.profileLoads && !Settled(s.intent) && e.firstWrite
    && e.quietStart.Some? && e.quietEnd.Some? && QuietHours.Hours(e.quietStart.value, e.quietEnd.value)
    && QuietAnswer(s.intent, e).Quiet?
  }

  /** A postponed intent has spent no attempt and is not claimable while it is quiet; it is claimable
      at the new time, and then not postponed again, exactly when it had attempts left before the pass. */
  lemma PostponedUntilOpen(s: State, e: Env, t: int, e': Env)
    requires Postpones(s, e)
    requires e'.quietStart == e.quietStart && e'.quietEnd == e.quietEnd && e'.offset == e.offset
    requires e'.now == AfterPass(s, e).intent.availableAt
    ensures var s' := AfterPass(s, e);
            && s'.calls == s.calls && s'.intent.attempts == s.intent.attempts && s'.intent.decision == s.intent.decision
            && e.now < s'.intent.availableAt <= e.now + QuietHours.DAY
            && (e.now <= t < s'.intent.availableAt ==> !Claimable(s'.intent, t))
            && !QuietAnswer(s'.intent, e').Quiet?
            && (Claimable(s'.intent, e'.now) <==> s.intent.attempts < MAX_ATTEMPTS)
  {
    QuietHours.AnswerIsWindow(e.now, e.offset, e.quietStart.value, e.quietEnd.value);
    QuietHours.QuietEndsAtFirstOpenInstant(e.now, e.offset, e.quietStart.value, e.quietEnd.value);
  }

  lemma {:induction false} OutOfAttemptsStays(s: State, ops: seq<Op>)
    requires s.intent.status == Pending && s.intent.attempts >= MAX_ATTEMPTS
    requires forall k :: 0 <= k < |ops| ==> ops[k].Pass?
    ensures Run(s, ops) == s
  {
    if ops != [] { OutOfAttemptsStays(s, ops[..|ops| - 1]); }
  }

  /** The other side of that condition is reached: an intent on its last attempt is claimed, its worker
      dies, and the expired claim is taken up again, without a bound on attempts, in quiet hours. It is
      stored as pending with no attempts left, and no pass ever takes it again. */
  lemma ReclaimedInQuietHoursIsStranded(i: Intent, crash: Env, quiet: Env, ops: seq<Op>)
    requires i.status == Pending && i.attempts == MAX_ATTEMPTS - 1 && i.availableAt <= crash.now && i.decision.None?
    requires crash.crashAfterClaim && quiet.now >= crash.now + LEASE
    requires !quiet.crashAfterClaim && quiet.setup == Ready && quiet.profileLoads && quiet.firstWrite
    requires quiet.quietStart.Some? && quiet.quietEnd.Some?
    requires QuietHours.Hours(quiet.quietStart.value, quiet.quietEnd.value) && QuietAnswer(i, quiet).Quiet?
    requires forall k :: 0 <= k < |ops| ==> ops[k].Pass?
    ensures var s := Run(Start(i), [Pass(crash), Pass(quiet)]);
            && s.intent.status == Pending && s.intent.decision.None? && s.calls == 0
            && Run(s, ops) == s
  {
    var start := [Pass(crash), Pass(quiet)];
    assert start[..1] == [Pass(crash)] && start[..1][..0] == [];
    var s1 := AfterPass(Start(i), crash);
    assert Run(Start(i), start[..1]) == s1;
    var s := AfterPass(s1, quiet);
    assert Run(Start(i), start) == s;
    PostponedUntilOpen(s1, quiet, 0, quiet.(now := s.intent.availableAt));
    OutOfAttemptsStays(s, ops);
  }

  // ---------------------------------------------------------------------------
  // The endpoints of one message node

  /** The intents of a node, one for each endpoint, and the event they share: its key names the run and
      the node, its payload the endpoint. An intent's own `event` is the stored event when it is its own. */
  datatype Node = Node(states: map<string, State>, event: Option<(string, int)>)

  /** Another endpoint's event makes AcceptEvents refuse. */
  function LocalOp(n: Node, k: string, op: Op): Op {
    if op.Pass? && n.event.Some? && n.event.value.0 != k then Pass(op.env.(acceptFails := true)) else op
  }

  function NodeAfter(n: Node, k: string, op: Op): Node {
    if k !in n.states then n
    else
      var s := After(n.states[k], LocalOp(n, k, op));
      Node(n.states[k := s], if n.event.None? && s.event.Some? then Some((k, s.event.value)) else n.event)
  }

  datatype NodeOp = NodeOp(endpoint: string, op: Op)

  function NodeRun(n: Node, ops: seq<NodeOp>): Node
    decreases |ops|
  {
    if ops == [] then n else NodeRun(NodeAfter(n, ops[0].endpoint, ops[0].op), ops[1..])
  }

  /** Fresh intents and no event. */
  ghost predicate NodeStart(n: Node) {
    n.event.None? && forall k :: k in n.states ==>
      n.states[k] == Start(n.states[k].intent) && n.states[k].intent.decision.None?
  }

  function OwnEvent(n: Node, k: string): Option<int> {
    if n.event.Some? && n.event.value.0 == k then Some(n.event.value.1) else None
  }

  ghost predicate NodeInv(n: Node) {
    forall k :: k in n.states ==> Inv(n.states[k]) && n.states[k].event == OwnEvent(n, k)
  }

  lemma RetryKeepsEvent(s: State, op: Op)
    requires op.Retry?
    ensures After(s, op).event == s.event
  {}

  lemma NodeStep(n: Node, k: string, op: Op)
    requires NodeInv(n)
    ensures NodeInv(NodeAfter(n, k, op))
  {
    hide After;
    if k in n.states {
      var n', local := NodeAfter(n, k, op), LocalOp(n, k, op);
      InvStep(n.states[k], local);
      EventStays(n.states[k], local);
      if op.Retry? { RetryKeepsEvent(n.states[k], local); }
      forall j | j in n'.states ensures Inv(n'.states[j]) && n'.states[j].event == OwnEvent(n', j) {
        assert Inv(n.states[j]) && n.states[j].event == OwnEvent(n, j);
      }
    }
  }

  lemma {:induction false} NodeRunInv(n: Node, ops: seq<NodeOp>)
    requires NodeInv(n)
    ensures NodeInv(NodeRun(n, ops))
    decreases |ops|
  {
    if ops != [] {
      NodeStep(n, ops[0].endpoint, ops[0].op);
      NodeRunInv(NodeAfter(n, ops[0].endpoint, ops[0].op), ops[1..]);
    }
  }

  /** In every interleaving of passes and retries over the endpoints of a node, at most one endpoint is
      ever recorded as sent, whatever the provider accepted, and each endpoint's sends are at most one
      more than those whose outcome was never stored. */
  lemma OnlyOneEndpointIsRecordedSent(n: Node, ops: seq<NodeOp>, k: string, k': string)
    requires NodeStart(n)
    requires var m := NodeRun(n, ops).states; k in m && k' in m
    ensures var m := NodeRun(n, ops).states;
            && (m[k].intent.decision == Some(Sent) && m[k'].intent.decision == Some(Sent) ==> k == k')
            && m[k].sends <= m[k].lost + 1
  {
    NodeRunInv(n, ops);
  }
}
