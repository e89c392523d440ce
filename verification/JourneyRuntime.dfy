/** The step loop of one run (internal/journey/runtime.go TickNext and the claim, advance, fail,
    reschedule, cancel and wake-up transactions of internal/postgres/journey_runtime.go).
    A tick is a claim followed, any time later, by its processing; wake-ups and cancellations may fall
    in between, a second claim may not (leases do not overlap). The unique index of
    internal/postgres/migrations/016_journey_runtime.sql refuses every write that would leave a run
    with two pending or processing steps. Times are nanoseconds. */
module JourneyRuntime {
  import opened Common
  import opened JourneyGraph
  import opened JourneyNodes

  const MINUTE: int := 60_000_000_000
  const LEASE: int := 300_000_000_000
  const MAX_ATTEMPTS: int := 10
  const DEFAULT_THRESHOLD: int := 86_400_000_000_000

  datatype LatePolicy = Skip | Reschedule | RunAnyway

  /** `actionApp` is the application the events of actions are accepted for. The code's principal has
      none (internal/journey/nodes.go:525), which is ACTION_APP. */
  datatype Version = Version(graph: Graph, latePolicy: LatePolicy, lateThreshold: int, actionApp: string)

  const ACTION_APP: string := ""

  /** `Deleted` stands for a row that a cancellation removed. */
  datatype StepStatus = Pending | Processing | Finished | Failed | Dead | Deleted

  datatype Step = Step(node: string, kind: Kind, status: StepStatus, attempts: int, availableAt: int,
      lockedUntil: Option<int>)

  /** What a worker holds between its claim and the end of its processing. */
  datatype Held = Held(index: nat, step: Step, run: Run, claimedAt: int)

  /** One move of the run: the node it left, when, how long the node asked to hold it, and whether an
      event (not a step) moved it. */
  datatype Visit = Visit(node: string, at: int, hold: int, byEvent: bool)

  datatype DB = DB(run: Run, steps: seq<Step>, actionEvents: map<string, int>, held: Option<Held>, visits: seq<Visit>)

  datatype Env = Env(elapsed: nat, loadFails: bool, answers: Answers, crashBeforeTx: bool, txFails: bool,
      writeFails: bool)

  datatype Op =
    | Claim(index: nat, now: int, active: bool) | Process(env: Env) | Crash
    | Wake(now: int) | Cancel(now: int) | Retry(index: nat, now: int) | Sweep(now: int)

  /** A step that is waiting to be worked on, or is being worked on. */
  predicate Live(s: Step) {
    s.status in {Pending, Processing, Failed}
  }

  predicate Busy(s: Step) {
    s.status in {Pending, Processing}
  }

  /** What journey_steps_one_live_per_run refuses: step `k` cannot become or stay busy beside another. */
  predicate OtherBusy(steps: seq<Step>, k: nat) {
    exists j :: 0 <= j < |steps| && j != k && Busy(steps[j])
  }

  predicate RunMatches(r: Run, s: Step) {
    s.node == r.current && ((s.kind == Advance && r.status == Active) || (s.kind == Timeout && r.status == Waiting))
  }

  predicate Claimable(db: DB, k: nat, now: int) {
    && k < |db.steps| && RunMatches(db.run, db.steps[k]) && db.steps[k].attempts < MAX_ATTEMPTS
    && !OtherBusy(db.steps, k)
    && (|| (db.steps[k].status in {Pending, Failed} && db.steps[k].availableAt <= now)
        || (db.steps[k].status == Processing && db.steps[k].lockedUntil.Some? && db.steps[k].lockedUntil.value <= now))
  }

  function FindNode(nodes: seq<Node>, id: string): Option<Node> {
    if nodes == [] then None else if nodes[0].id == id then Some(nodes[0]) else FindNode(nodes[1..], id)
  }

  function FirstTarget(edges: seq<Edge>, id: string): Option<string> {
    if edges == [] then None else if edges[0].src == id then Some(edges[0].dst) else FirstTarget(edges[1..], id)
  }

  function Threshold(v: Version): int {
    if v.lateThreshold == 0 then DEFAULT_THRESHOLD else v.lateThreshold
  }

  // ---------------------------------------------------------------------------
  // Store transactions

  /** FailJourneyStep does not look at the step's status. */
  function FailStep(db: DB, k: nat, now: int, e: Env): DB
    requires k < |db.steps|
  {
    var s := db.steps[k];
    if e.writeFails || s.status == Deleted then db
    else db.(steps := db.steps[k := s.(status := if s.attempts >= MAX_ATTEMPTS then Dead else Failed,
                                       availableAt := now + MINUTE, lockedUntil := None)])
  }

  function Pend(n: NextStep): Step {
    Step(n.node, n.kind, Pending, 0, n.availableAt, None)
  }

  /** AdvanceRunTx: only a step that is still processing and still matches its run moves the run; when
      the next step cannot be inserted, the transaction is rolled back and the step fails. */
  function AdvanceTx(db: DB, k: nat, run: Run, next: Option<NextStep>, v: Visit, now: int, e: Env): DB
    requires k < |db.steps|
  {
    var s := db.steps[k];
    if e.txFails || s.status !in {Finished, Processing} then FailStep(db, k, now, e)
    else if s.status == Finished then db
    else
      var done := db.steps[k := s.(status := Finished, lockedUntil := None)];
      if !RunMatches(db.run, s) then db.(steps := done)
      else if next.Some? && OtherBusy(db.steps, k) then FailStep(db, k, now, e)
      else db.(run := run, steps := done + (if next.Some? then [Pend(next.value)] else []), visits := db.visits + [v])
  }

  /** A step put back with all its attempts. */
  function Queued(s: Step, at: int): Step {
    s.(status := Pending, attempts := 0, lockedUntil := None, availableAt := at)
  }

  function RescheduleStep(db: DB, k: nat, at: int, now: int, e: Env): DB
    requires k < |db.steps|
  {
    if e.txFails then FailStep(db, k, now, e)
    else if db.steps[k].status == Deleted then db
    else if OtherBusy(db.steps, k) then FailStep(db, k, now, e)
    else db.(steps := db.steps[k := Queued(db.steps[k], at)])
  }

  // ---------------------------------------------------------------------------
  // TickNext

  function AfterClaim(db: DB, k: nat, now: int, active: bool): DB {
    if db.held.Some? || !active || !Claimable(db, k, now) then db
    else
      var s := db.steps[k].(status := Processing, attempts := db.steps[k].attempts + 1,
          lockedUntil := Some(now + LEASE));
      db.(steps := db.steps[k := s], held := Some(Held(k, s, db.run, now)))
  }

  function RescheduleDelay(v: Version, n: Node): int {
    var c := n.config;
    if c.Delay? && c.duration.Nanos? && c.duration.n != 0 then c.duration.n else Threshold(v)
  }

  function SkipLate(v: Version, db: DB, h: Held, n: Node, now: int, e: Env): DB
    requires h.index < |db.steps|
  {
    match FirstTarget(v.graph.edges, n.id)
    case Some(next) =>
      AdvanceTx(db, h.index, h.run.(current := next, status := Active), Some(NextStep(next, Advance, now)),
          Visit(n.id, now, 0, false), now, e)
    case None =>
      AdvanceTx(db, h.index, h.run.(status := Completed, completedAt := Some(now)), None, Visit(n.id, now, 0, false),
          now, e)
  }

  /** AcceptEvents on the event of an action: app_id must name an application, and a key that is known
      (there is one per run and node) needs the time it was stored with. */
  predicate EventRefused(v: Version, db: DB, n: Node, now: int) {
    n.config.Action? && (v.actionApp == "" || (n.id in db.actionEvents && db.actionEvents[n.id] != now / 1000))
  }

  function HoldOf(c: Config, kind: Kind): int {
    if c.WaitEvent? && kind == Advance && c.timeout.Nanos? then c.timeout.n else HoldTime(c)
  }

  function RunNode(v: Version, db: DB, h: Held, n: Node, now: int, e: Env): DB
    requires h.index < |db.steps|
  {
    Conclude(db, h, n, now, e, Execute(v.graph, n, h.run, now, h.step.kind, AnswersAt(v, db, n, now, e)))
  }

  function AnswersAt(v: Version, db: DB, n: Node, now: int, e: Env): Answers {
    e.answers.(fails := e.answers.fails || EventRefused(v, db, n, now))
  }

  /** The run an execution leads to. */
  function RunAfter(h: Held, r: Result): Run
    requires r.Executed?
  {
    Run(r.status, if r.next != "" then r.next else h.run.current, r.goalReached, r.completedAt, r.waitUntil)
  }

  /** What TickNext does with the result of the execution. */
  function Conclude(db: DB, h: Held, n: Node, now: int, e: Env, r: Result): DB
    requires h.index < |db.steps|
  {
    if r.ExecError? then FailStep(db, h.index, now, e)
    else
      var db1 := if n.config.Action? then db.(actionEvents := db.actionEvents[n.id := now / 1000]) else db;
      if e.crashBeforeTx then db1
      else AdvanceTx(db1, h.index, RunAfter(h, r), r.step, Visit(n.id, now, HoldOf(n.config, h.step.kind), false),
          now, e)
  }

  function AfterProcess(v: Version, db: DB, e: Env): DB {
    if db.held.None? || db.held.value.index >= |db.steps| then db
    else
      var h := db.held.value;
      var now := h.claimedAt + e.elapsed;
      var db0 := db.(held := None);
      if e.loadFails then FailStep(db0, h.index, now, e)
      else match FindNode(v.graph.nodes, h.step.node)
        case None => FailStep(db0, h.index, now, e)
        case Some(n) => AfterNode(v, db0, h, n, now, e)
  }

  function AfterNode(v: Version, db: DB, h: Held, n: Node, now: int, e: Env): DB
    requires h.index < |db.steps|
  {
    if now - h.step.availableAt > Threshold(v) && v.latePolicy == Skip then SkipLate(v, db, h, n, now, e)
    else if now - h.step.availableAt > Threshold(v) && v.latePolicy == Reschedule then
      RescheduleStep(db, h.index, now + RescheduleDelay(v, n), now, e)
    else RunNode(v, db, h, n, now, e)
  }

  // ---------------------------------------------------------------------------
  // The other transactions on a run

  function FinishTimeouts(steps: seq<Step>): seq<Step> {
    seq(|steps|, i requires 0 <= i < |steps| =>
      if steps[i].kind == Timeout && steps[i].status in {Pending, Processing, Failed}
          then steps[i].(status := Finished) else steps[i])
  }

  /** resolveWaitingRuns, for a run this event matches; a refused insert undoes it. */
  function AfterWake(v: Version, db: DB, now: int): DB {
    match FindNext(v.graph.edges, db.run.current, "success")
    case None => db
    case Some(next) =>
      if db.run.status != Waiting || OtherBusy(FinishTimeouts(db.steps), |db.steps|) then db
      else db.(run := db.run.(status := Active, current := next, waitUntil := None),
               steps := FinishTimeouts(db.steps) + [Pend(NextStep(next, Advance, now))],
               visits := db.visits + [Visit(db.run.current, now, 0, true)])
  }

  function AfterCancel(db: DB, now: int): DB {
    if db.run.status in {Completed, Canceled} then db
    else db.(run := db.run.(status := Canceled, completedAt := Some(now)),
             steps := seq(|db.steps|, i requires 0 <= i < |db.steps| =>
               if db.steps[i].status != Finished then db.steps[i].(status := Deleted) else db.steps[i]))
  }

  /** RetryJourneyStep looks at no status, only the index can refuse it. */
  function AfterRetry(db: DB, k: nat, now: int): DB {
    if k >= |db.steps| || db.steps[k].status == Deleted || OtherBusy(db.steps, k) then db
    else db.(steps := db.steps[k := Queued(db.steps[k], now)])
  }

  predicate Expired(s: Step, now: int) {
    s.status == Processing && s.attempts >= MAX_ATTEMPTS && s.lockedUntil.Some? && s.lockedUntil.value <= now
  }

  /** The claim's first statement: an expired step out of attempts is dead. */
  function AfterSweep(db: DB, now: int): DB {
    if db.held.Some? then db
    else db.(steps := seq(|db.steps|, i requires 0 <= i < |db.steps| =>
               if Expired(db.steps[i], now) then db.steps[i].(status := Dead, lockedUntil := None) else db.steps[i]))
  }

  function After(v: Version, db: DB, op: Op): DB {
    match op
    case Claim(k, now, active) => AfterClaim(db, k, now, active)
    case Process(e) => AfterProcess(v, db, e)
    case Crash => db.(held := None)
    case Wake(now) => AfterWake(v, db, now)
    case Cancel(now) => AfterCancel(db, now)
    case Retry(k, now) => AfterRetry(db, k, now)
    case Sweep(now) => AfterSweep(db, now)
  }

  /** EnrollJourneyRun; the first entry of the log is the enrolment itself. */
  function Enrolled(v: Version, now: int): DB {
    DB(Run(Active, v.graph.entryNodeID, false, None, None), [Pend(NextStep(v.graph.entryNodeID, Advance, now))],
       map[], None, [Visit("", now, 0, false)])
  }

  function RunOps(v: Version, db: DB, ops: seq<Op>): DB {
    if ops == [] then db else After(v, RunOps(v, db, ops[..|ops| - 1]), ops[|ops| - 1])
  }

  // ---------------------------------------------------------------------------
  // The same loop over stored fields

  class Runtime {
    const version: Version
    var run: Run
    var steps: seq<Step>
    var actionEvents: map<string, int>
    var held: Option<Held>
    var visits: seq<Visit>

    ghost function Value(): DB
      reads this
    {
      DB(run, steps, actionEvents, held, visits)
    }

    constructor (v: Version, now: int)
      ensures version == v && Value() == Enrolled(v, now)
    {
      version := v;
      run := Run(Active, v.graph.entryNodeID, false, None, None);
      steps, actionEvents, held := [Pend(NextStep(v.graph.entryNodeID, Advance, now))], map[], None;
      visits := [Visit("", now, 0, false)];
    }

    method ClaimJourneyStep(k: nat, now: int, active: bool) returns (claimed: bool)
      modifies this
      ensures Value() == AfterClaim(old(Value()), k, now, active)
      ensures claimed <==> old(held).None? && active && Claimable(old(Value()), k, now)
    {
      if held.Some? || !active || !Claimable(DB(run, steps, actionEvents, held, visits), k, now) { return false; }
      var s := steps[k];
      s := s.(status := Processing, attempts := s.attempts + 1, lockedUntil := Some(now + LEASE));
      steps := steps[k := s];
      held := Some(Held(k, s, run, now));
      return true;
    }

    method FailJourneyStep(k: nat, now: int, e: Env)
      requires k < |steps|
      modifies `steps
      ensures Value() == FailStep(old(Value()), k, now, e)
    {
      if e.writeFails || steps[k].status == Deleted { return; }
      var s := steps[k].(status := Failed);
      if s.attempts >= MAX_ATTEMPTS { s := s.(status := Dead); }
      steps := steps[k := s.(availableAt := now + MINUTE, lockedUntil := None)];
    }

    method AdvanceRunTx(k: nat, newRun: Run, next: Option<NextStep>, v: Visit, now: int, e: Env)
      requires k < |steps|
      modifies `run, `steps, `visits
      ensures Value() == AdvanceTx(old(Value()), k, newRun, next, v, now, e)
    {
      var s := steps[k];
      if e.txFails || (s.status != Finished && s.status != Processing) {
        FailJourneyStep(k, now, e);
        return;
      }
      if s.status == Finished { return; }
      var matches := RunMatches(run, s);
      if matches && next.Some? && OtherBusy(steps, k) {
        FailJourneyStep(k, now, e);
        return;
      }
      steps := steps[k := s.(status := Finished, lockedUntil := None)];
      if !matches { return; }
      run := newRun;
      if next.Some? { steps := steps + [Pend(next.value)]; }
      visits := visits + [v];
    }

    method RescheduleJourneyStep(k: nat, at: int, now: int, e: Env)
      requires k < |steps|
      modifies `steps
      ensures Value() == RescheduleStep(old(Value()), k, at, now, e)
    {
      if e.txFails || (steps[k].status != Deleted && OtherBusy(steps, k)) {
        FailJourneyStep(k, now, e);
      } else if steps[k].status != Deleted {
        steps := steps[k := steps[k].(status := Pending, attempts := 0, lockedUntil := None, availableAt := at)];
      }
    }

    /** RetryJourneyStep; `found` is false for a missing row and for one the index refuses. */
    method RetryJourneyStep(k: nat, now: int) returns (found: bool)
      modifies `steps
      ensures Value() == AfterRetry(old(Value()), k, now)
      ensures found <==> k < |old(steps)| && old(steps)[k].status != Deleted && !OtherBusy(old(steps), k)
    {
      found := k < |steps| && steps[k].status != Deleted && !OtherBusy(steps, k);
      if found {
        steps := steps[k := steps[k].(status := Pending, attempts := 0, lockedUntil := None, availableAt := now)];
      }
    }

    /** TickNext from the claimed step on. */
    method ProcessClaimed(e: Env)
      modifies this
      ensures Value() == AfterProcess(version, old(Value()), e)
    {
      hide AfterNode;
      if held.None? || held.value.index >= |steps| { return; }
      var h := held.value;
      var now := h.claimedAt + e.elapsed;
      held := None;
      if e.loadFails {
        FailJourneyStep(h.index, now, e);
        return;
      }
      var node := None;
      for i := 0 to |version.graph.nodes|
        invariant node == None && FindNode(version.graph.nodes, h.step.node) ==
                  FindNode(version.graph.nodes[i..], h.step.node)
        invariant Value() == old(Value()).(held := None)
      {
        if version.graph.nodes[i].id == h.step.node {
          node := Some(version.graph.nodes[i]);
          break;
        }
      }
      if node.None? {
        FailJourneyStep(h.index, now, e);
        return;
      }
      ProcessNode(h, node.value, now, e);
    }

    method ProcessNode(h: Held, n: Node, now: int, e: Env)
      requires h.index < |steps|
      modifies this
      ensures Value() == AfterNode(version, old(Value()), h, n, now, e)
    {
      if now - h.step.availableAt > Threshold(version) {
        if version.latePolicy == Skip {
          var next := FirstTarget(version.graph.edges, n.id);
          var newRun := h.run;
          if next.Some? {
            newRun := newRun.(current := next.value, status := Active);
          } else {
            newRun := newRun.(status := Completed, completedAt := Some(now));
          }
          AdvanceRunTx(h.index, newRun, if next.Some? then Some(NextStep(next.value, Advance, now)) else None,
                       Visit(n.id, now, 0, false), now, e);
          return;
        }
        if version.latePolicy == Reschedule {
          RescheduleJourneyStep(h.index, now + RescheduleDelay(version, n), now, e);
          return;
        }
      }
      ghost var before := Value();
      var refused := n.config.Action? &&
        (version.actionApp == "" || (n.id in actionEvents && actionEvents[n.id] != now / 1000));
      assert refused == EventRefused(version, before, n, now);
      var r := Execute(version.graph, n, h.run, now, h.step.kind, e.answers.(fails := e.answers.fails || refused));
      if r.ExecError? {
        FailJourneyStep(h.index, now, e);
        return;
      }
      if n.config.Action? { actionEvents := actionEvents[n.id := now / 1000]; }
      if e.crashBeforeTx { return; }
      var newRun := Run(r.status, if r.next != "" then r.next else h.run.current, r.goalReached, r.completedAt,
          r.waitUntil);
      AdvanceRunTx(h.index, newRun, r.step, Visit(n.id, now, HoldOf(n.config, h.step.kind), false), now, e);
    }
  }
}
