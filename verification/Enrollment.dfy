/** Enrolment of one profile into one journey version (internal/journey/enroll.go,
    internal/postgres/journey_runtime.go): several workers read the profile's runs, newest sequence
    first, and later insert. The table is unique on (entry key, reentry sequence). An event enrols in
    the transaction that holds the lock of its profile's row (internal/postgres/store.go), so the
    events of one profile take turns. */
module Enrollment {
  import opened Common

  datatype Status = Active | Waiting | Done

  /** The entry keys of the three enrolment paths: a schedule slot in minutes, a backfill call, an event. */
  datatype EntryKey = Sched(slot: int) | Backfill(segment: string, nanos: int) | Trigger(eventId: string)

  datatype RunRow = RunRow(key: EntryKey, seq_: int, status: Status)

  datatype Policy = Once | AfterExit | Always

  /** A version is entered by events or by a schedule, never both. */
  datatype EntryKind = OnEvent | Scheduled

  datatype Version = Version(kind: EntryKind, policy: Policy, maxReentries: int)

  /** Events look for versions of kind event, the scheduler for scheduled ones; a backfill takes any. */
  predicate Enters(v: Version, key: EntryKey) {
    match key
    case Sched(_) => v.kind == Scheduled
    case Trigger(_) => v.kind == OnEvent
    case Backfill(_, _) => true
  }

  predicate Live(r: RunRow) {
    r.status == Active || r.status == Waiting
  }

  /** The reentry sequence the code chooses from the runs it read, or None to skip the profile. */
  function Choose(v: Version, key: EntryKey, runs: seq<RunRow>): Option<int> {
    if v.policy == Always && key.Sched? then (if |runs| > v.maxReentries then None else Some(key.slot))
    else if runs == [] then Some(0)
    else if v.policy == Once then None
    else if v.policy == AfterExit && exists i :: 0 <= i < |runs| && Live(runs[i]) then None
    else if runs[0].seq_ + 1 > v.maxReentries then None
    else Some(runs[0].seq_ + 1)
  }

  method ChooseSequence(v: Version, key: EntryKey, runs: seq<RunRow>) returns (r: Option<int>)
    ensures r == Choose(v, key, runs)
  {
    if v.policy == Always && key.Sched? {
      if |runs| > v.maxReentries { return None; }
      return Some(key.slot);
    }
    if |runs| == 0 { return Some(0); }
    if v.policy == Once { return None; }
    if v.policy == AfterExit {
      var live := false;
      for i := 0 to |runs|
        invariant !live && forall j :: 0 <= j < i ==> !Live(runs[j])
      {
        if Live(runs[i]) {
          live := true;
          break;
        }
      }
      if live { return None; }
    }
    var next := runs[0].seq_ + 1;
    if next > v.maxReentries { return None; }
    return Some(next);
  }

  // ---------------------------------------------------------------------------
  // Interleaved workers

  datatype Plan = Plan(key: EntryKey, seq_: int)

  /** The rows, newest sequence first, and the plans of workers between their read and their insert. */
  datatype Table = Table(runs: seq<RunRow>, plans: map<nat, Plan>)

  datatype Step = Read(worker: nat, key: EntryKey) | Insert(worker: nat) | Abandon(worker: nat)
      | Move(index: nat, status: Status)

  /** The row lock lets one event of the profile enrol at a time. */
  predicate Ordered(a: EntryKey, b: EntryKey) {
    a.Trigger? && b.Trigger?
  }

  predicate Blocked(t: Table, w: nat, key: EntryKey) {
    exists other :: other in t.plans && other != w && Ordered(t.plans[other].key, key)
  }

  function InsertRow(runs: seq<RunRow>, r: RunRow): seq<RunRow> {
    if runs == [] || r.seq_ >= runs[0].seq_ then [r] + runs else [runs[0]] + InsertRow(runs[1..], r)
  }

  predicate Taken(runs: seq<RunRow>, p: Plan) {
    exists i :: 0 <= i < |runs| && runs[i].key == p.key && runs[i].seq_ == p.seq_
  }

  function After(v: Version, t: Table, s: Step): Table {
    match s
    case Read(w, key) =>
      var c := Choose(v, key, t.runs);
      if !Enters(v, key) || Blocked(t, w, key) then t
      else if c.None? then t.(plans := t.plans - {w})
      else t.(plans := t.plans[w := Plan(key, c.value)])
    case Abandon(w) => t.(plans := t.plans - {w})
    case Insert(w) =>
      if w !in t.plans then t
      else
        var p := t.plans[w];
        Table(if Taken(t.runs, p) then t.runs else InsertRow(t.runs, RunRow(p.key, p.seq_, Active)), t.plans - {w})
    case Move(i, status) =>
      if i < |t.runs| && Live(t.runs[i]) then t.(runs := t.runs[i := t.runs[i].(status := status)]) else t
  }

  class Store {
    const version: Version
    var runs: seq<RunRow>
    var plans: map<nat, Plan>

    ghost function Value(): Table
      reads this
    {
      Table(runs, plans)
    }

    constructor (v: Version)
      ensures version == v && Value() == Empty()
    {
      version, runs, plans := v, [], map[];
    }

    method ReadRuns(w: nat, key: EntryKey)
      modifies this
      ensures Value() == After(version, old(Value()), Read(w, key))
    {
      if !Enters(version, key) || Blocked(Table(runs, plans), w, key) { return; }
      var c := ChooseSequence(version, key, runs);
      if c.None? {
        plans := plans - {w};
      } else {
        plans := plans[w := Plan(key, c.value)];
      }
    }

    method EnrollJourneyRun(w: nat) returns (inserted: bool)
      modifies this
      ensures Value() == After(version, old(Value()), Insert(w))
      ensures inserted <==> runs != old(runs)
    {
      if w !in plans { return false; }
      var p := plans[w];
      plans := plans - {w};
      for i := 0 to |runs|
        invariant forall j :: 0 <= j < i ==> !(runs[j].key == p.key && runs[j].seq_ == p.seq_)
      {
        if runs[i].key == p.key && runs[i].seq_ == p.seq_ {
          assert Taken(runs, p);
          return false;
        }
      }
      InsertLength(runs, RunRow(p.key, p.seq_, Active));
      runs := InsertRow(runs, RunRow(p.key, p.seq_, Active));
      return true;
    }
  }

  lemma {:induction false} InsertLength(runs: seq<RunRow>, r: RunRow)
    ensures |InsertRow(runs, r)| == |runs| + 1
    ensures multiset(InsertRow(runs, r)) == multiset(runs) + multiset{r}
  {
    if !(runs == [] || r.seq_ >= runs[0].seq_) {
      InsertLength(runs[1..], r);
      assert runs == [runs[0]] + runs[1..];
    }
  }

  function Empty(): Table {
    Table([], map[])
  }

  function Run(v: Version, steps: seq<Step>): Table {
    if steps == [] then Empty() else After(v, Run(v, steps[..|steps| - 1]), steps[|steps| - 1])
  }

  // ---------------------------------------------------------------------------
  // One entry key

  /** The enrolments of the run that can enter the version use these keys. */
  ghost predicate KeysIn(v: Version, steps: seq<Step>, keys: iset<EntryKey>) {
    forall i :: 0 <= i < |steps| && steps[i].Read? && Enters(v, steps[i].key) ==> steps[i].key in keys
  }

  ghost predicate AtMostOneLive(runs: seq<RunRow>) {
    forall i, j :: 0 <= i < j < |runs| ==> !(Live(runs[i]) && Live(runs[j]))
  }

  /** With one key, sequences count the runs, and a plan that could still insert saw all of them. */
  ghost predicate Inv(v: Version, t: Table, key: EntryKey) {
    && (forall i :: 0 <= i < |t.runs| ==> t.runs[i].key == key && t.runs[i].seq_ == |t.runs| - 1 - i)
    && (forall w :: w in t.plans ==> PlanInv(v, t, key, t.plans[w]))
    && |t.runs| <= Most(v)
    && (v.policy == AfterExit ==> AtMostOneLive(t.runs))
  }

  ghost predicate PlanInv(v: Version, t: Table, key: EntryKey, p: Plan) {
    && p.key == key && 0 <= p.seq_ <= |t.runs| && p.seq_ < Most(v)
    && (v.policy == AfterExit && p.seq_ == |t.runs| ==> forall i :: 0 <= i < |t.runs| ==> !Live(t.runs[i]))
  }

  /** The most runs the policy allows. */
  function Most(v: Version): nat {
    if v.policy == Once || v.maxReentries < 0 then 1 else v.maxReentries + 1
  }

  lemma InvStep(v: Version, t: Table, s: Step, key: EntryKey)
    requires Inv(v, t, key) && (s.Read? && Enters(v, s.key) ==> s.key == key)
    requires v.policy == Always ==> !key.Sched?
    ensures Inv(v, After(v, t, s), key)
  {
    var t' := After(v, t, s);
    if s.Insert? && s.worker in t.plans {
      var p := t.plans[s.worker];
      assert PlanInv(v, t, key, p);
      if p.seq_ < |t.runs| {
        var i := |t.runs| - 1 - p.seq_;
        assert t.runs[i].seq_ == p.seq_;
        assert Taken(t.runs, p);
      } else {
        assert t'.runs == [RunRow(key, p.seq_, Active)] + t.runs;
      }
      forall w | w in t'.plans
        ensures PlanInv(v, t', key, t'.plans[w])
      {
        assert PlanInv(v, t, key, t.plans[w]);
      }
    } else if s.Read? {
      forall w | w in t'.plans
        ensures PlanInv(v, t', key, t'.plans[w])
      {
        if w != s.worker { assert PlanInv(v, t, key, t.plans[w]); }
      }
    } else if s.Move? {
      forall w | w in t'.plans
        ensures PlanInv(v, t', key, t'.plans[w])
      {
        assert PlanInv(v, t, key, t.plans[w]);
      }
    }
  }

  lemma {:induction false} RunInv(v: Version, steps: seq<Step>, key: EntryKey)
    requires KeysIn(v, steps, iset{key}) && (v.policy == Always ==> !key.Sched?)
    ensures Inv(v, Run(v, steps), key)
  {
    if steps != [] {
      var n := |steps| - 1;
      RunInv(v, steps[..n], key);
      InvStep(v, Run(v, steps[..n]), steps[n], key);
    }
  }

  // ---------------------------------------------------------------------------
  // Events

  /** At most one plan is open at a time, and it is as good as if read just now. */
  ghost predicate SerialInv(v: Version, t: Table) {
    && (forall i :: 0 <= i < |t.runs| ==> t.runs[i].seq_ == |t.runs| - 1 - i)
    && (forall a, b :: a in t.plans && b in t.plans ==> a == b)
    && (forall w :: w in t.plans ==> OpenPlan(v, t, t.plans[w]))
    && |t.runs| <= Most(v)
    && (v.policy == AfterExit ==> AtMostOneLive(t.runs))
  }

  ghost predicate OpenPlan(v: Version, t: Table, p: Plan) {
    && p.key.Trigger? && p.seq_ == |t.runs| < Most(v)
    && (v.policy == AfterExit ==> forall i :: 0 <= i < |t.runs| ==> !Live(t.runs[i]))
  }

  lemma SerialStep(v: Version, t: Table, s: Step)
    requires SerialInv(v, t) && (s.Read? && Enters(v, s.key) ==> s.key.Trigger?)
    ensures SerialInv(v, After(v, t, s))
  {
    var t' := After(v, t, s);
    if s.Insert? && s.worker in t.plans {
      var p := t.plans[s.worker];
      assert OpenPlan(v, t, p) && !Taken(t.runs, p);
      assert t'.runs == [RunRow(p.key, p.seq_, Active)] + t.runs;
      assert forall w :: w !in t'.plans;
    } else if s.Read? && Enters(v, s.key) && !Blocked(t, s.worker, s.key) {
      forall w | w in t.plans ensures w == s.worker {
        assert OpenPlan(v, t, t.plans[w]);
      }
    } else if s.Move? {
      forall w | w in t'.plans ensures OpenPlan(v, t', t'.plans[w]) {
        assert OpenPlan(v, t, t.plans[w]);
      }
    }
  }

  lemma {:induction false} SerialRun(v: Version, steps: seq<Step>)
    requires forall i :: 0 <= i < |steps| && steps[i].Read? && Enters(v, steps[i].key) ==> steps[i].key.Trigger?
    ensures SerialInv(v, Run(v, steps))
  {
    if steps != [] {
      var n := |steps| - 1;
      SerialRun(v, steps[..n]);
      SerialStep(v, Run(v, steps[..n]), steps[n]);
    }
  }

  // ---------------------------------------------------------------------------
  // Every interleaving, every key

  ghost predicate Unique(runs: seq<RunRow>) {
    forall i, j :: 0 <= i < j < |runs| ==> !(runs[i].key == runs[j].key && runs[i].seq_ == runs[j].seq_)
  }

  ghost predicate SlotInv(t: Table) {
    && Unique(t.runs)
    && (forall i :: 0 <= i < |t.runs| && t.runs[i].key.Sched? ==> t.runs[i].seq_ == t.runs[i].key.slot)
    && (forall w :: w in t.plans && t.plans[w].key.Sched? ==> t.plans[w].seq_ == t.plans[w].key.slot)
  }

  lemma {:induction false} InsertKeepsSlots(runs: seq<RunRow>, r: RunRow)
    requires Unique(runs) && !Taken(runs, Plan(r.key, r.seq_))
    requires forall i :: 0 <= i < |runs| && runs[i].key.Sched? ==> runs[i].seq_ == runs[i].key.slot
    requires r.key.Sched? ==> r.seq_ == r.key.slot
    ensures var out := InsertRow(runs, r);
            && Unique(out)
            && (forall i :: 0 <= i < |out| ==> out[i] == r || out[i] in runs)
            && (forall i :: 0 <= i < |out| && out[i].key.Sched? ==> out[i].seq_ == out[i].key.slot)
  {
    if !(runs == [] || r.seq_ >= runs[0].seq_) {
      InsertKeepsSlots(runs[1..], r);
    }
  }

  lemma SlotStep(v: Version, t: Table, s: Step)
    requires SlotInv(t) && v.policy == Always
    ensures SlotInv(After(v, t, s))
  {
    if s.Insert? && s.worker in t.plans && !Taken(t.runs, t.plans[s.worker]) {
      var p := t.plans[s.worker];
      InsertKeepsSlots(t.runs, RunRow(p.key, p.seq_, Active));
    }
  }

  lemma {:induction false} SlotRun(v: Version, steps: seq<Step>)
    requires v.policy == Always
    ensures SlotInv(Run(v, steps))
  {
    if steps != [] {
      SlotRun(v, steps[..|steps| - 1]);
      SlotStep(v, Run(v, steps[..|steps| - 1]), steps[|steps| - 1]);
    }
  }

  /** Under `always` a schedule slot fires at most once per profile, in every interleaving of any
      enrolment paths: the slot is the sequence, so a retried firing hits the unique key. */
  lemma {:induction false} SlotFiresOnce(v: Version, steps: seq<Step>, i: nat, j: nat)
    requires v.policy == Always
    requires var runs := Run(v, steps).runs;
             i < |runs| && j < |runs| && runs[i].key.Sched? && runs[i].key == runs[j].key
    ensures i == j
  {
    SlotRun(v, steps);
  }

  // ---------------------------------------------------------------------------
  // Which enrolments keep the policy

  /** The keys that can enter the version are one key, or all events. */
  ghost predicate Serial(v: Version, keys: iset<EntryKey>) {
    forall a, b :: a in keys && b in keys && Enters(v, a) && Enters(v, b) ==> a == b || Ordered(a, b)
  }

  ghost predicate PolicyKept(v: Version, runs: seq<RunRow>) {
    && |runs| <= Most(v)
    && (v.policy == AfterExit ==> AtMostOneLive(runs))
    && (forall i, j :: 0 <= i < j < |runs| ==> runs[i].seq_ != runs[j].seq_)
  }

  ghost predicate KeyedBy(t: Table, keys: iset<EntryKey>) {
    && (forall i :: 0 <= i < |t.runs| ==> t.runs[i].key in keys)
    && (forall w :: w in t.plans ==> t.plans[w].key in keys)
  }

  lemma KeyedStep(v: Version, t: Table, s: Step, keys: iset<EntryKey>)
    requires KeyedBy(t, keys) && (s.Read? && Enters(v, s.key) ==> s.key in keys)
    ensures KeyedBy(After(v, t, s), keys)
  {
    var t' := After(v, t, s);
    if s.Insert? && s.worker in t.plans && !Taken(t.runs, t.plans[s.worker]) {
      var p := t.plans[s.worker];
      var r := RunRow(p.key, p.seq_, Active);
      InsertMembers(t.runs, r);
      forall i | 0 <= i < |t'.runs| ensures t'.runs[i].key in keys {
        assert t'.runs[i] == r || t'.runs[i] in t.runs;
      }
    } else {
      forall i | 0 <= i < |t'.runs| ensures t'.runs[i].key in keys {
        assert t'.runs[i].key == t.runs[i].key;
      }
    }
  }

  lemma {:induction false} KeysStayIn(v: Version, steps: seq<Step>, keys: iset<EntryKey>)
    requires KeysIn(v, steps, keys)
    ensures KeyedBy(Run(v, steps), keys)
  {
    if steps != [] {
      var n := |steps| - 1;
      KeysStayIn(v, steps[..n], keys);
      KeyedStep(v, Run(v, steps[..n]), steps[n], keys);
    }
  }

  lemma {:induction false} InsertMembers(runs: seq<RunRow>, r: RunRow)
    ensures forall i :: 0 <= i < |InsertRow(runs, r)| ==> InsertRow(runs, r)[i] == r || InsertRow(runs, r)[i] in runs
  {
    if !(runs == [] || r.seq_ >= runs[0].seq_) { InsertMembers(runs[1..], r); }
  }

  /** Workers of one slot of an `always` schedule make at most one run. */
  lemma {:induction false} OneSlot(v: Version, steps: seq<Step>, key: EntryKey)
    requires KeysIn(v, steps, iset{key}) && key.Sched? && v.policy == Always
    ensures |Run(v, steps).runs| <= 1
  {
    KeysStayIn(v, steps, iset{key});
    var runs := Run(v, steps).runs;
    if |runs| > 1 {
      assert runs[0].key == key == runs[1].key;
      SlotFiresOnce(v, steps, 0, 1);
    }
  }

  /** In every interleaving of workers that share one entry key, or that enrol by events: `once` yields
      at most one run, `after_exit` never has two live runs, no policy exceeds MaxReentries + 1 runs, and
      sequences are distinct. */
  lemma {:induction false} SerialKeysKeepPolicy(v: Version, steps: seq<Step>, keys: iset<EntryKey>)
    requires KeysIn(v, steps, keys) && Serial(v, keys)
    ensures PolicyKept(v, Run(v, steps).runs)
  {
    if k :| k in keys && Enters(v, k) && k.Trigger? {
      SerialRun(v, steps);
    } else {
      var key := Backfill("", 0);
      if k :| k in keys && Enters(v, k) { key := k; }
      assert KeysIn(v, steps, iset{key});
      if v.policy == Always && key.Sched? { OneSlot(v, steps, key); } else { RunInv(v, steps, key); }
    }
  }

  /** A journey entered by events keeps its policy in every interleaving without a backfill. */
  lemma {:induction false} EventsKeepPolicy(v: Version, steps: seq<Step>)
    requires v.kind == OnEvent && forall i :: 0 <= i < |steps| && steps[i].Read? ==> !steps[i].key.Backfill?
    ensures PolicyKept(v, Run(v, steps).runs)
  {
    SerialKeysKeepPolicy(v, steps, iset k: EntryKey | k.Trigger?);
  }

  ghost predicate OnceHolds(v: Version, keys: iset<EntryKey>) {
    forall steps | KeysIn(v, steps, keys) :: |Run(v, steps).runs| <= 1
  }

  ghost predicate OneLiveHolds(v: Version, keys: iset<EntryKey>) {
    forall steps | KeysIn(v, steps, keys) :: AtMostOneLive(Run(v, steps).runs)
  }

  /** Two workers that both read before either inserts, with different keys. */
  function Race(a: EntryKey, b: EntryKey): seq<Step> {
    [Read(0, a), Read(1, b), Insert(0), Insert(1)]
  }

  lemma RaceMakesTwoLiveRuns(v: Version, a: EntryKey, b: EntryKey)
    requires a != b && Enters(v, a) && Enters(v, b) && !Ordered(a, b) && v.policy != Always
    ensures var runs := Run(v, Race(a, b)).runs;
            |runs| == 2 && Live(runs[0]) && Live(runs[1])
  {
    var steps := Race(a, b);
    assert steps[..1] == [Read(0, a)] && steps[..1][..0] == [];
    assert steps[..2][..1] == steps[..1] && steps[..3][..2] == steps[..2];
    var t1 := Table([], map[0 := Plan(a, 0)]);
    assert Run(v, steps[..1]) == t1;
    var t2 := After(v, t1, steps[1]);
    assert !Blocked(t1, 1, b);
    assert Run(v, steps[..2]) == t2 && t2.plans[1] == Plan(b, 0) && t2.plans[0] == Plan(a, 0);
    var t3 := After(v, t2, steps[2]);
    assert Run(v, steps[..3]) == t3 && t3.runs == [RunRow(a, 0, Active)] && t3.plans[1] == Plan(b, 0);
    assert !Taken(t3.runs, Plan(b, 0));
    assert Run(v, steps).runs == [RunRow(b, 0, Active), RunRow(a, 0, Active)];
  }

  /** `once` holds in every interleaving exactly when the keys that can enter the version are one key or
      all events. Schedule workers of one minute and any number of events are safe; a backfill beside
      them, a second backfill or the next minute's slot is not. */
  lemma OnceIffSerial(v: Version, keys: iset<EntryKey>)
    requires v.policy == Once
    ensures OnceHolds(v, keys) <==> Serial(v, keys)
  {
    if a, b :| a in keys && b in keys && Enters(v, a) && Enters(v, b) && a != b && !Ordered(a, b) {
      RaceMakesTwoLiveRuns(v, a, b);
      assert KeysIn(v, Race(a, b), keys);
    } else {
      forall steps | KeysIn(v, steps, keys)
        ensures |Run(v, steps).runs| <= 1
      {
        SerialKeysKeepPolicy(v, steps, keys);
      }
    }
  }

  /** The same for `after_exit` and its single live run. */
  lemma OneLiveIffSerial(v: Version, keys: iset<EntryKey>)
    requires v.policy == AfterExit
    ensures OneLiveHolds(v, keys) <==> Serial(v, keys)
  {
    if a, b :| a in keys && b in keys && Enters(v, a) && Enters(v, b) && a != b && !Ordered(a, b) {
      RaceMakesTwoLiveRuns(v, a, b);
      assert KeysIn(v, Race(a, b), keys);
    } else {
      forall steps | KeysIn(v, steps, keys)
        ensures AtMostOneLive(Run(v, steps).runs)
      {
        SerialKeysKeepPolicy(v, steps, keys);
      }
    }
  }

  // ---------------------------------------------------------------------------
  // Re-entry

  /** Sequences count down to zero, as every serial enrolment leaves them. */
  ghost predicate Counting(runs: seq<RunRow>) {
    forall i :: 0 <= i < |runs| ==> runs[i].seq_ == |runs| - 1 - i
  }

  ghost predicate BySlot(v: Version, key: EntryKey) {
    v.policy == Always && key.Sched?
  }

  /** One worker reads and inserts with no plan open beside its own. */
  function Enrolled(v: Version, runs: seq<RunRow>, w: nat, key: EntryKey): seq<RunRow> {
    After(v, After(v, Table(runs, map[]), Read(w, key)), Insert(w)).runs
  }

  /** Undisturbed, a profile is enrolled again exactly while the version takes the key, the policy's number
      of runs is not reached and, under `after_exit`, no run is live; the run added has the next sequence. */
  lemma EnrolledIff(v: Version, runs: seq<RunRow>, w: nat, key: EntryKey)
    requires Counting(runs) && !BySlot(v, key)
    ensures Enrolled(v, runs, w, key) ==
            if Enters(v, key) && |runs| < Most(v)
                && (v.policy == AfterExit ==> forall i :: 0 <= i < |runs| ==> !Live(runs[i]))
            then [RunRow(key, |runs|, Active)] + runs else runs
  {
    var t := Table(runs, map[]);
    assert !Blocked(t, w, key);
    assert !Taken(runs, Plan(key, |runs|));
  }

  /** Under `always` a schedule slot is enrolled exactly when at most MaxReentries runs exist and the slot
      has not fired for the profile; the slot is the sequence. */
  lemma SlotEnrolledIff(v: Version, runs: seq<RunRow>, w: nat, key: EntryKey)
    requires BySlot(v, key)
    ensures var fresh_ := forall i :: 0 <= i < |runs| && runs[i].key == key ==> runs[i].seq_ != key.slot;
            var out := Enrolled(v, runs, w, key);
            if v.kind == Scheduled && |runs| <= v.maxReentries && fresh_
            then multiset(out) == multiset(runs) + multiset{RunRow(key, key.slot, Active)} else out == runs
  {
    var t := Table(runs, map[]);
    assert !Blocked(t, w, key);
    InsertLength(runs, RunRow(key, key.slot, Active));
  }

  function DoneRows(key: EntryKey, n: nat): (runs: seq<RunRow>)
    ensures |runs| == n && Counting(runs) && forall i :: 0 <= i < n ==> runs[i].key == key && !Live(runs[i])
  {
    seq(n, i requires 0 <= i < n => RunRow(key, n - 1 - i, Done))
  }

  lemma RunAppend(v: Version, steps: seq<Step>, s: Step)
    ensures Run(v, steps + [s]) == After(v, Run(v, steps), s)
  {
    assert (steps + [s])[..|steps|] == steps;
  }

  lemma {:induction false} Reached(v: Version, key: EntryKey, n: nat) returns (steps: seq<Step>)
    requires Enters(v, key) && !BySlot(v, key) && n <= Most(v)
    ensures KeysIn(v, steps, iset{key}) && Run(v, steps) == Table(DoneRows(key, n), map[])
  {
    steps := [];
    if n > 0 {
      var before := Reached(v, key, n - 1);
      var runs := DoneRows(key, n - 1);
      RunAppend(v, before, Read(0, key));
      RunAppend(v, before + [Read(0, key)], Insert(0));
      RunAppend(v, before + [Read(0, key)] + [Insert(0)], Move(0, Done));
      EnrolledIff(v, runs, 0, key);
      steps := before + [Read(0, key)] + [Insert(0)] + [Move(0, Done)];
      assert ([RunRow(key, n - 1, Active)] + runs)[0 := RunRow(key, n - 1, Done)] == DoneRows(key, n);
    }
  }

  ghost predicate Attained(v: Version, key: EntryKey) {
    exists steps :: KeysIn(v, steps, iset{key}) && |Run(v, steps).runs| == Most(v)
  }

  /** The bound is attained by some run of workers that share one key, for every key the version takes that
      is not enrolled by slot; every version takes such a key. */
  lemma BoundAttained(v: Version, key: EntryKey)
    ensures Enters(v, key) && !BySlot(v, key) ==> Attained(v, key)
    ensures key.Backfill? ==> Enters(v, key) && !BySlot(v, key)
  {
    if Enters(v, key) && !BySlot(v, key) {
      var steps := Reached(v, key, Most(v));
      assert KeysIn(v, steps, iset{key}) && |Run(v, steps).runs| == Most(v);
    }
  }
}
