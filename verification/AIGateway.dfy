/** The governed model gateway (internal/ai/gateway.go, Generate): monthly budget and audit trail. */
module AIGateway {

  /** Checks before the budget: prompt version, redaction, prompt assembly, provider config. */
  datatype PolicyCheck = PromptMissing | PromptUnusable | RedactionFailed | PromptRejected | ProviderUnavailable
      | Cleared

  /** Tokens in and out, and cents. */
  datatype Usage = Usage(input: int, output: int, cost: int)

  const NONE: Usage := Usage(0, 0, 0)

  function Sum(a: Usage, b: Usage): Usage {
    Usage(a.input + b.input, a.output + b.output, a.cost + b.cost)
  }

  datatype Reply = ProviderError(timedOut: bool) | Reply(spent: Usage, valid: bool)

  /** One call and everything its surroundings decide. `maxCost` <= 0 means no per-call limit. */
  datatype Call = Call(
    policy: PolicyCheck, budgetReadable: bool, maxCost: int, estimate: int,
    first: Reply, firstCharged: bool, budgetReadableAgain: bool, repair: Reply, repairCharged: bool, auditStored: bool)

  datatype Decision = DeniedPolicy | DeniedBudget | ExecutionError | SchemaReject | Allowed

  datatype Activity = Activity(decision: Decision, spent: Usage)

  /** Stored budget usage and activity rows, plus counters of what was attempted. */
  datatype State = State(usage: int, activities: seq<Activity>, auditAttempts: nat, providerCalls: nat)

  datatype Outcome = Refused | Returned(spent: Usage)

  predicate OverBudget(budget: int, usage: int, readable: bool) {
    budget > 0 && (!readable || usage >= budget)
  }

  predicate OverCall(maxCost: int, cost: int) {
    maxCost > 0 && cost > maxCost
  }

  function Record(s: State, c: Call, d: Decision, spent: Usage): State {
    var s' := s.(auditAttempts := s.auditAttempts + 1);
    if c.auditStored then s'.(activities := s.activities + [Activity(d, spent)]) else s'
  }

  function Charge(s: State, stored: bool, cost: int): State {
    if stored then s.(usage := s.usage + cost) else s
  }

  function Ask(s: State): State {
    s.(providerCalls := s.providerCalls + 1)
  }

  function Finish(s: State, c: Call, spent: Usage): (State, Outcome) {
    (Record(s, c, Allowed, spent), if c.auditStored then Returned(spent) else Refused)
  }

  /** The part after a first reply that failed validation. */
  function Repair(s: State, budget: int, c: Call): (State, Outcome)
    requires c.first.Reply?
  {
    var s1 := Charge(s, c.firstCharged, c.first.spent.cost);
    if OverBudget(budget, s1.usage, c.budgetReadableAgain) then (Record(s1, c, SchemaReject, c.first.spent), Refused)
    else
      var s2 := Ask(s1);
      if c.repair.ProviderError? then
        (Record(s2, c, if c.repair.timedOut then ExecutionError else SchemaReject, c.first.spent), Refused)
      else
        var total := Sum(c.first.spent, c.repair.spent);
        var s3 := Charge(s2, c.repairCharged, c.repair.spent.cost);
        if OverCall(c.maxCost, total.cost) then (Record(s3, c, DeniedBudget, total), Refused)
        else if !c.repair.valid then (Record(s3, c, SchemaReject, c.repair.spent), Refused)
        else Finish(s3, c, total)
  }

  function After(s: State, budget: int, c: Call): (State, Outcome) {
    if c.policy != Cleared then (Record(s, c, DeniedPolicy, NONE), Refused)
    else if OverBudget(budget, s.usage, c.budgetReadable) then (Record(s, c, DeniedBudget, NONE), Refused)
    else if OverCall(c.maxCost, c.estimate) then (Record(s, c, DeniedBudget, NONE), Refused)
    else
      var s1 := Ask(s);
      if c.first.ProviderError? then (Record(s1, c, ExecutionError, NONE), Refused)
      else if OverCall(c.maxCost, c.first.spent.cost) then
        (Record(Charge(s1, c.firstCharged, c.first.spent.cost), c, DeniedBudget, c.first.spent), Refused)
      else if c.first.valid then
        var (s2, out) := Finish(s1, c, c.first.spent);
        if out.Refused? then (s2, out) else (Charge(s2, c.firstCharged, c.first.spent.cost), out)
      else Repair(s1, budget, c)
  }

  class Gateway {
    const budget: int
    var usage: int
    var activities: seq<Activity>
    var auditAttempts: nat
    var providerCalls: nat

    ghost function Value(): State
      reads this
    {
      State(usage, activities, auditAttempts, providerCalls)
    }

    constructor (monthlyBudget: int, used: int)
      ensures budget == monthlyBudget && Value() == State(used, [], 0, 0)
    {
      budget, usage, activities, auditAttempts, providerCalls := monthlyBudget, used, [], 0, 0;
    }

    method RecordActivity(c: Call, d: Decision, spent: Usage) returns (ok: bool)
      modifies `activities, `auditAttempts
      ensures Value() == Record(old(Value()), c, d, spent) && ok == c.auditStored
    {
      auditAttempts := auditAttempts + 1;
      if c.auditStored { activities := activities + [Activity(d, spent)]; }
      return c.auditStored;
    }

    method Increment(stored: bool, cost: int)
      modifies `usage
      ensures Value() == Charge(old(Value()), stored, cost)
    {
      if stored { usage := usage + cost; }
    }

    method CheckBudget(readable: bool) returns (err: bool)
      ensures err == OverBudget(budget, usage, readable)
    {
      err := false;
      if budget > 0 {
        if !readable { return true; }
        if usage >= budget { return true; }
      }
    }

    method Generate(c: Call) returns (out: Outcome)
      modifies this
      ensures (Value(), out) == After(old(Value()), budget, c)
    {
      if c.policy != Cleared {
        var _ := RecordActivity(c, DeniedPolicy, NONE);
        return Refused;
      }
      var over := CheckBudget(c.budgetReadable);
      if over || (c.maxCost > 0 && c.estimate > c.maxCost) {
        var _ := RecordActivity(c, DeniedBudget, NONE);
        return Refused;
      }
      providerCalls := providerCalls + 1;
      if c.first.ProviderError? {
        var _ := RecordActivity(c, ExecutionError, NONE);
        return Refused;
      }
      var spent := c.first.spent;
      if c.maxCost > 0 && spent.cost > c.maxCost {
        Increment(c.firstCharged, spent.cost);
        var _ := RecordActivity(c, DeniedBudget, spent);
        return Refused;
      }
      if c.first.valid {
        var ok := RecordActivity(c, Allowed, spent);
        if !ok { return Refused; }
        Increment(c.firstCharged, spent.cost);
        return Returned(spent);
      }
      Increment(c.firstCharged, spent.cost);
      over := CheckBudget(c.budgetReadableAgain);
      if over {
        var _ := RecordActivity(c, SchemaReject, spent);
        return Refused;
      }
      providerCalls := providerCalls + 1;
      if c.repair.ProviderError? {
        var _ := RecordActivity(c, if c.repair.timedOut then ExecutionError else SchemaReject, spent);
        return Refused;
      }
      var total := Sum(spent, c.repair.spent);
      Increment(c.repairCharged, c.repair.spent.cost);
      if c.maxCost > 0 && total.cost > c.maxCost {
        var _ := RecordActivity(c, DeniedBudget, total);
        return Refused;
      }
      if !c.repair.valid {
        var _ := RecordActivity(c, SchemaReject, c.repair.spent);
        return Refused;
      }
      var ok := RecordActivity(c, Allowed, total);
      return if ok then Returned(total) else Refused;
    }
  }

  // ---------------------------------------------------------------------------
  // One call

  /** Every call attempts exactly one activity row and asks the provider at most twice. */
  lemma OneAuditTwoCalls(s: State, budget: int, c: Call)
    ensures var s' := After(s, budget, c).0;
            && s'.auditAttempts == s.auditAttempts + 1
            && s.providerCalls <= s'.providerCalls <= s.providerCalls + 2
            && s.activities <= s'.activities && |s'.activities| <= |s.activities| + 1
  {}

  /** A returned reply was validated, respects the per-call limit, and is audited with its whole usage. */
  lemma ReturnedIsAudited(s: State, budget: int, c: Call)
    requires After(s, budget, c).1.Returned?
    ensures var (s', out) := After(s, budget, c);
            && s'.activities == s.activities + [Activity(Allowed, out.spent)]
            && (c.maxCost > 0 ==> out.spent.cost <= c.maxCost)
            && c.policy == Cleared && (budget > 0 ==> s.usage < budget)
            && c.first.Reply?
            && (if c.first.valid then out.spent == c.first.spent
                else c.repair.Reply? && c.repair.valid && out.spent == Sum(c.first.spent, c.repair.spent))
  {}
  /** The provider is asked: nothing refuses the call before its first request. */
  ghost predicate Asked(s: State, budget: int, c: Call) {
    && c.policy == Cleared && (budget > 0 ==> c.budgetReadable && s.usage < budget)
    && (c.maxCost > 0 ==> c.estimate <= c.maxCost)
  }

  ghost predicate WithinCall(c: Call, cost: int) {
    c.maxCost > 0 ==> cost <= c.maxCost
  }

  /** The first reply is affordable but invalid, and the budget left after it allows a repair. */
  ghost predicate Repaired(s: State, budget: int, c: Call) {
    && Asked(s, budget, c) && c.first.Reply? && WithinCall(c, c.first.spent.cost) && !c.first.valid
    && (budget > 0 ==>
          c.budgetReadableAgain && s.usage + (if c.firstCharged then c.first.spent.cost else 0) < budget)
  }

  /** A reply is returned exactly when nothing refuses the call, the activity is stored, and the first reply
      is valid and affordable or its repair is. */
  lemma ReturnedIff(s: State, budget: int, c: Call)
    ensures After(s, budget, c).1.Returned? <==>
            && c.auditStored
            && ((Asked(s, budget, c) && c.first.Reply? && WithinCall(c, c.first.spent.cost) && c.first.valid)
                || (Repaired(s, budget, c) && c.repair.Reply? && c.repair.valid
                    && WithinCall(c, c.first.spent.cost + c.repair.spent.cost)))
  {}

  /** What the activity says of a call, by the facts that decided it. */
  lemma ActivityIff(s: State, budget: int, c: Call)
    requires c.auditStored
    ensures var a := After(s, budget, c).0.activities;
            |a| == |s.activities| + 1 &&
            var d := a[|s.activities|].decision;
            && (d == DeniedPolicy <==> c.policy != Cleared)
            && (d == DeniedBudget <==>
                  || (c.policy == Cleared && !Asked(s, budget, c))
                  || (Asked(s, budget, c) && c.first.Reply? && !WithinCall(c, c.first.spent.cost))
                  || (Repaired(s, budget, c) && c.repair.Reply?
                      && !WithinCall(c, c.first.spent.cost + c.repair.spent.cost)))
            && (d == ExecutionError <==>
                  || (Asked(s, budget, c) && c.first.ProviderError?)
                  || (Repaired(s, budget, c) && c.repair == ProviderError(true)))
            && (d == Allowed <==> After(s, budget, c).1.Returned?)
  {}

  // ---------------------------------------------------------------------------
  // Whole runs

  function Run(s: State, budget: int, calls: seq<Call>): State {
    if calls == [] then s else After(Run(s, budget, calls[..|calls| - 1]), budget, calls[|calls| - 1]).0
  }

  ghost predicate CostsWithin(c: Call, most: int) {
    (c.first.Reply? ==> 0 <= c.first.spent.cost <= most) && (c.repair.Reply? ==> 0 <= c.repair.spent.cost <= most)
  }

  lemma CallWithinBudget(s: State, budget: int, c: Call, most: int)
    requires budget > 0 && most >= 0 && CostsWithin(c, most) && s.usage <= budget - 1 + most
    ensures s.usage <= After(s, budget, c).0.usage <= budget - 1 + most
  {}

  /** Whatever writes fail, a run overshoots a positive monthly budget by less than one reply. */
  lemma {:induction false} BudgetOvershoot(s: State, budget: int, calls: seq<Call>, most: int)
    requires budget > 0 && most >= 0 && s.usage <= budget - 1 + most
    requires forall i :: 0 <= i < |calls| ==> CostsWithin(calls[i], most)
    ensures s.usage <= Run(s, budget, calls).usage <= budget - 1 + most
  {
    if calls != [] {
      var n := |calls| - 1;
      BudgetOvershoot(s, budget, calls[..n], most);
      CallWithinBudget(Run(s, budget, calls[..n]), budget, calls[n], most);
    }
  }

  function Audited(activities: seq<Activity>): int {
    if activities == [] then 0 else Audited(activities[..|activities| - 1]) + activities[|activities| - 1].spent.cost
  }

  ghost predicate AllStored(c: Call) {
    c.firstCharged && c.repairCharged && c.auditStored
  }

  /** The call reaches the repair and the repaired reply is invalid too, within the per-call limit. */
  ghost predicate TwiceInvalid(s: State, budget: int, c: Call) {
    && c.policy == Cleared && !OverBudget(budget, s.usage, c.budgetReadable) && !OverCall(c.maxCost, c.estimate)
    && c.first.Reply? && !OverCall(c.maxCost, c.first.spent.cost) && !c.first.valid
    && !OverBudget(budget, s.usage + c.first.spent.cost, c.budgetReadableAgain)
    && c.repair.Reply? && !OverCall(c.maxCost, c.first.spent.cost + c.repair.spent.cost) && !c.repair.valid
  }

  lemma AuditedAppend(a: seq<Activity>, x: Activity)
    ensures Audited(a + [x]) == Audited(a) + x.spent.cost
  {
    assert (a + [x])[..|a|] == a;
  }

  /** With successful writes one call charges what it audits, except that a twice-invalid call audits
      only the repaired reply. */
  lemma ChargeMatchesAudit(s: State, budget: int, c: Call)
    requires AllStored(c)
    ensures var s' := After(s, budget, c).0;
            s'.usage - s.usage == Audited(s'.activities) - Audited(s.activities) +
                                  if TwiceInvalid(s, budget, c) then c.first.spent.cost else 0
  {
    var s' := After(s, budget, c).0;
    var x := s'.activities[|s.activities|];
    assert s'.activities == s.activities + [x];
    AuditedAppend(s.activities, x);
  }

  /** What twice-invalid calls of a run charged without auditing it. */
  ghost function Unaudited(s: State, budget: int, calls: seq<Call>): int {
    if calls == [] then 0
    else
      var n := |calls| - 1;
      Unaudited(s, budget, calls[..n]) +
      if TwiceInvalid(Run(s, budget, calls[..n]), budget, calls[n]) then calls[n].first.spent.cost else 0
  }

  /** Conservation over a run: the ledger is the audit trail plus exactly the first replies of
      twice-invalid calls, so the two agree if and only if those cost nothing. */
  lemma {:induction false} LedgerVersusAudit(s: State, budget: int, calls: seq<Call>)
    requires forall i :: 0 <= i < |calls| ==> AllStored(calls[i])
    ensures var s' := Run(s, budget, calls);
            && s'.usage - s.usage == Audited(s'.activities) - Audited(s.activities) + Unaudited(s, budget, calls)
            && (s'.usage - s.usage == Audited(s'.activities) - Audited(s.activities) <==>
                  Unaudited(s, budget, calls) == 0)
  {
    if calls != [] {
      var n := |calls| - 1;
      LedgerVersusAudit(s, budget, calls[..n]);
      ChargeMatchesAudit(Run(s, budget, calls[..n]), budget, calls[n]);
    }
  }
}
