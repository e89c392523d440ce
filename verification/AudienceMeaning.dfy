/** What a compiled audience selects, in SQL's three-valued logic, against what Matches answers
    (internal/audience/compile_pg.go, internal/audience/evaluate.go). */
module AudienceMeaning {
  import opened Common
  import opened Audience
  import opened AudienceText

  datatype Tri = T | F | U

  function OfBool(b: bool): Tri { if b then T else F }

  function NotTri(a: Tri): Tri { match a case T => F case F => T case U => U }

  function AndTri(a: Tri, b: Tri): Tri { if a.F? || b.F? then F else if a.T? then b else U }

  function OrTri(a: Tri, b: Tri): Tri { if a.T? || b.T? then T else if a.F? then b else U }

  datatype Profile = Profile(
    tenant: string, workspace: string, app: string, id: string, external: string, attributes: map<string, string>)

  datatype ConsentRow = ConsentRow(
    tenant: string, app: string, profile: string, channel: string, topic: string, state: string, at: int)

  datatype ScoreRow = ScoreRow(
    tenant: string, workspace: string, profile: string, model: string, name: string, value: real)

  /** Whom Matches is asked about. */
  datatype Subject = Subject(tenant: string, workspace: string, app: string, profile: string)

  function SubjectOf(row: Profile): Subject {
    Subject(row.tenant, row.workspace, row.app, row.id)
  }

  /** Which of two equally new rows a query keeps: true for the second. */
  type Tie = (ConsentRow, ConsentRow) -> bool

  /** `compare` decides an operator on an attribute's text and a parameter (casts succeed); `member`
      says whether some company of the profile satisfies a condition; `events` counts behaviour events;
      the ties are those of the DISTINCT ON and the LIMIT 1 query; `fails` tells which leaf queries of
      Matches end in a store error. */
  datatype Database = Database(
    profiles: seq<Profile>,
    consents: seq<ConsentRow>,
    scores: seq<ScoreRow>,
    compare: (string, string, Value) -> Tri,
    member: (Value, Value, string, string, string, Value) -> bool,
    events: (Subject, string, int, string) -> nat,
    distinctTie: Tie,
    limitTie: Tie,
    fails: Node -> bool)

  // ---------------------------------------------------------------------------
  // Queries

  /** The value bound to $n. */
  function At(params: seq<Value>, n: nat): Value {
    if 1 <= n <= |params| then params[n - 1] else Null
  }

  /** A missing attribute and a null parameter are NULL. */
  function AttributeTri(db: Database, row: Profile, field: string, op: string, v: Value): Tri {
    if field !in row.attributes || v.Null? then U else db.compare(op, row.attributes[field], v)
  }

  datatype LedgerScope = LedgerScope(tenant: string, app: string, channel: Value, topic: Value)

  predicate InScope(c: ConsentRow, scope: LedgerScope) {
    c.tenant == scope.tenant && c.app == scope.app && Text(c.channel) == scope.channel && Text(c.topic) == scope.topic
  }

  predicate Replaces(tie: Tie, old_: ConsentRow, new_: ConsentRow) {
    new_.at > old_.at || (new_.at == old_.at && tie(old_, new_))
  }

  /** SELECT DISTINCT ON (profile_id) … ORDER BY profile_id, occurred_at DESC: one newest row for each
      profile. */
  function LatestByProfile(ledger: seq<ConsentRow>, scope: LedgerScope, tie: Tie): map<string, ConsentRow> {
    if ledger == [] then map[]
    else
      var so, c := LatestByProfile(ledger[..|ledger| - 1], scope, tie), ledger[|ledger| - 1];
      if InScope(c, scope) && (c.profile !in so || Replaces(tie, so[c.profile], c)) then so[c.profile := c] else so
  }

  /** ORDER BY occurred_at DESC LIMIT 1 for one profile. */
  function LatestOf(ledger: seq<ConsentRow>, scope: LedgerScope, profile: string, tie: Tie): Option<ConsentRow> {
    if ledger == [] then None
    else
      var so, c := LatestOf(ledger[..|ledger| - 1], scope, profile, tie), ledger[|ledger| - 1];
      if InScope(c, scope) && c.profile == profile && (so.None? || Replaces(tie, so.value, c)) then Some(c) else so
  }

  predicate ConsentSelected(db: Database, row: Profile, channel: Value, topic: Value, state: Value) {
    var latest := LatestByProfile(db.consents, LedgerScope(row.tenant, row.app, channel, topic), db.distinctTie);
    row.id in latest && Text(latest[row.id].state) == state
  }

  /** The query of CompileConsentSingle. */
  predicate ConsentMatches(db: Database, who: Subject, channel: string, topic: string, state: string) {
    var scope := LedgerScope(who.tenant, who.app, Text(channel), Text(topic));
    var latest := LatestOf(db.consents, scope, who.profile, db.limitTie);
    latest.Some? && latest.value.state == state
  }

  predicate ScoreCompares(op: string, value: real, bound: Value) {
    && bound.Num?
    && (if op == "greater_than" then value > bound.num
        else if op == "less_than" then value < bound.num
        else value == bound.num)
  }

  predicate ScoreSelected(db: Database, row: Profile, tenant: Value, workspace: Value, model: Value, name: Value,
                          op: string, bound: Value) {
    exists i :: 0 <= i < |db.scores| &&
      var s := db.scores[i];
      && s.profile == row.id && Text(s.tenant) == tenant && Text(s.workspace) == workspace
      && Text(s.model) == model && Text(s.name) == name && ScoreCompares(op, s.value, bound)
  }

  /** The condition's value on one row. */
  function Eval(db: Database, row: Profile, params: seq<Value>, s: Sql): Tri
    decreases s, 1
  {
    match s
    case SqlAnd(parts) => EvalAnd(db, row, params, parts)
    case SqlOr(parts) => EvalOr(db, row, params, parts)
    case SqlNot(part) => NotTri(Eval(db, row, params, part))
    case SqlAttribute(field, op, p) => AttributeTri(db, row, field, op, At(params, p))
    case SqlConsent(c, t, st) => OfBool(ConsentSelected(db, row, At(params, c), At(params, t), At(params, st)))
    case SqlScore(m, n, op, v) =>
      OfBool(ScoreSelected(db, row, At(params, 1), At(params, 2), At(params, m), At(params, n), op, At(params, v)))
    case SqlCompany(field, op, p) =>
      OfBool(db.member(At(params, 1), At(params, 2), row.id, field, op, At(params, p)))
  }

  function EvalAnd(db: Database, row: Profile, params: seq<Value>, parts: seq<Sql>): Tri
    decreases parts, 0
  {
    if parts == [] then T else AndTri(Eval(db, row, params, parts[0]), EvalAnd(db, row, params, parts[1..]))
  }

  function EvalOr(db: Database, row: Profile, params: seq<Value>, parts: seq<Sql>): Tri
    decreases parts, 0
  {
    if parts == [] then F else OrTri(Eval(db, row, params, parts[0]), EvalOr(db, row, params, parts[1..]))
  }

  predicate Where(db: Database, row: Profile, params: seq<Value>, sql: Option<Sql>) {
    sql.None? || Eval(db, row, params, sql.value).T?
  }

  /** The query of CompileProfile returns the row. */
  predicate Selects(db: Database, row: Profile, params: seq<Value>, sql: Option<Sql>) {
    && row in db.profiles
    && Text(row.tenant) == At(params, 1) && Text(row.workspace) == At(params, 2)
    && Where(db, row, params, sql)
  }

  /** The query of CompileProfileSingle returns a row. */
  predicate SingleFinds(db: Database, params: seq<Value>, sql: Option<Sql>) {
    exists i :: 0 <= i < |db.profiles| &&
      Text(db.profiles[i].id) == At(params, 3) && Selects(db, db.profiles[i], params, sql)
  }

  function ShiftSql(sql: Option<Sql>): Option<Sql> {
    if sql.None? then None else Some(Shift(sql.value))
  }

  /** The parameters of the full query, and those of the single-profile query. */
  function Short(tenant: Value, workspace: Value, args: seq<Value>): seq<Value> {
    [tenant, workspace] + args
  }

  function Long(tenant: Value, workspace: Value, profile: Value, args: seq<Value>): seq<Value> {
    [tenant, workspace, profile] + args
  }

  // ---------------------------------------------------------------------------
  // The interpreter. None stands for an error.

  function Leaf(db: Database, who: Subject, leaf: Node): Option<bool> {
    var r := Compile(leaf, []);
    if r.Rejected? || db.fails(leaf) then None
    else Some(SingleFinds(db, Long(Text(who.tenant), Text(who.workspace), Text(who.profile), r.args), ShiftSql(r.sql)))
  }

  /** GetProfileExternalID: the empty text when the profile is missing. */
  function ExternalId(profiles: seq<Profile>, who: Subject): string {
    if profiles == [] then ""
    else
      var p := profiles[0];
      if p.tenant == who.tenant && p.workspace == who.workspace && p.id == who.profile then p.external
      else ExternalId(profiles[1..], who)
  }

  predicate History(db: Database, who: Subject, eventType: string, op: string, days: int, minCount: int) {
    var external := ExternalId(db.profiles, who);
    if external == "" then op == "has_not_occurred"
    else
      var matched := db.events(who, eventType, days, external) >= (if minCount <= 0 then 1 else minCount);
      if op == "has_not_occurred" then !matched else matched
  }

  function Matches(db: Database, who: Subject, node: Node): Option<bool>
    decreases node, 1
  {
    match node
    case And(cs) => MatchesUntil(db, who, cs, false)
    case Or(cs) => MatchesUntil(db, who, cs, true)
    case Not(c) => (match Matches(db, who, c) case None => None case Some(b) => Some(!b))
    case ProfileAttribute(_, _, _) => Leaf(db, who, node)
    case Score(_, _, _, _) => Leaf(db, who, node)
    case Consent(channel, topic, state) =>
      if db.fails(node) then None else Some(ConsentMatches(db, who, channel, topic, state))
    case EventHistory(eventType, op, days, minCount) =>
      if db.fails(node) then None else Some(History(db, who, eventType, op, days, minCount))
    case Company(_, _, _) => None
  }

  /** The first condition that answers `stop`, or that fails, decides. */
  function MatchesUntil(db: Database, who: Subject, cs: seq<Node>, stop: bool): Option<bool>
    decreases cs, 0
  {
    if cs == [] then Some(!stop)
    else
      var m := Matches(db, who, cs[0]);
      if m.None? || m.value == stop then m else MatchesUntil(db, who, cs[1..], stop)
  }

  method EvaluateUntil(db: Database, who: Subject, cs: seq<Node>, stop: bool) returns (r: Option<bool>)
    ensures r == MatchesUntil(db, who, cs, stop)
    decreases cs, 0
  {
    for i := 0 to |cs|
      invariant MatchesUntil(db, who, cs, stop) == MatchesUntil(db, who, cs[i..], stop)
    {
      assert cs[i..][0] == cs[i] && cs[i..][1..] == cs[i + 1..];
      var m := Evaluate(db, who, cs[i]);
      if m.None? || m.value == stop { return m; }
    }
    return Some(!stop);
  }

  /** Matches, with its early returns. */
  method Evaluate(db: Database, who: Subject, node: Node) returns (r: Option<bool>)
    ensures r == Matches(db, who, node)
    decreases node, 1
  {
    match node {
      case And(cs) => r := EvaluateUntil(db, who, cs, false);
      case Or(cs) => r := EvaluateUntil(db, who, cs, true);
      case Not(c) =>
        r := Evaluate(db, who, c);
        if r.Some? { r := Some(!r.value); }
      case ProfileAttribute(_, _, _) => r := Leaf(db, who, node);
      case Score(_, _, _, _) => r := Leaf(db, who, node);
      case Consent(channel, topic, state) =>
        if db.fails(node) { return None; }
        r := Some(ConsentMatches(db, who, channel, topic, state));
      case EventHistory(eventType, op, days, minCount) =>
        if db.fails(node) { return None; }
        r := Some(History(db, who, eventType, op, days, minCount));
      case Company(_, _, _) => r := None;
    }
  }

  // ---------------------------------------------------------------------------
  // Three-valued meaning of a tree, without placeholders

  predicate IsLeaf(node: Node) {
    node.ProfileAttribute? || node.Consent? || node.Score? || node.Company?
  }

  function LeafTri(db: Database, row: Profile, leaf: Node): Tri
    requires IsLeaf(leaf)
  {
    match leaf
    case ProfileAttribute(field, op, v) => AttributeTri(db, row, field, op, v)
    case Consent(c, t, st) => OfBool(ConsentSelected(db, row, Text(c), Text(t), Text(st)))
    case Score(m, n, op, v) =>
      OfBool(ScoreSelected(db, row, Text(row.tenant), Text(row.workspace), Text(m), Text(n), op, Num(v)))
    case Company(field, op, v) => OfBool(db.member(Text(row.tenant), Text(row.workspace), row.id, field, op, v))
  }

  /** The tree without event-history conditions and the groups and negations left empty by that. */
  function Pruned(node: Node): Option<Node>
    decreases node, 1
  {
    match node
    case And(cs) => var kept := PrunedAll(cs); if kept == [] then None else Some(And(kept))
    case Or(cs) => var kept := PrunedAll(cs); if kept == [] then None else Some(Or(kept))
    case Not(c) => (match Pruned(c) case None => None case Some(p) => Some(Not(p)))
    case EventHistory(_, _, _, _) => None
    case _ => Some(node)
  }

  function PrunedAll(cs: seq<Node>): seq<Node>
    decreases cs, 0
  {
    if cs == [] then []
    else (match Pruned(cs[0]) case None => [] case Some(p) => [p]) + PrunedAll(cs[1..])
  }

  /** No event history and no empty group. */
  predicate Gapless(node: Node)
    decreases node, 1
  {
    match node
    case And(cs) => cs != [] && GaplessAll(cs)
    case Or(cs) => cs != [] && GaplessAll(cs)
    case Not(c) => Gapless(c)
    case EventHistory(_, _, _, _) => false
    case _ => true
  }

  predicate GaplessAll(cs: seq<Node>)
    decreases cs, 0
  {
    cs == [] || (Gapless(cs[0]) && GaplessAll(cs[1..]))
  }

  function TreeTri(db: Database, row: Profile, node: Node): Tri
    requires Gapless(node)
    decreases node, 1
  {
    match node
    case And(cs) => TreeAnd(db, row, cs)
    case Or(cs) => TreeOr(db, row, cs)
    case Not(c) => NotTri(TreeTri(db, row, c))
    case _ => LeafTri(db, row, node)
  }

  function TreeAnd(db: Database, row: Profile, cs: seq<Node>): Tri
    requires GaplessAll(cs)
    decreases cs, 0
  {
    if cs == [] then T else AndTri(TreeTri(db, row, cs[0]), TreeAnd(db, row, cs[1..]))
  }

  function TreeOr(db: Database, row: Profile, cs: seq<Node>): Tri
    requires GaplessAll(cs)
    decreases cs, 0
  {
    if cs == [] then F else OrTri(TreeTri(db, row, cs[0]), TreeOr(db, row, cs[1..]))
  }

  // ---------------------------------------------------------------------------
  // Pruning does not change what is compiled

  function CompilePruned(p: Option<Node>, args: seq<Value>): Compiled {
    match p case None => Compiled(None, args) case Some(n) => Compile(n, args)
  }

  lemma {:induction false} CompileIgnoresGaps(node: Node, args: seq<Value>)
    requires Compile(node, args).Compiled?
    ensures Compile(node, args) == CompilePruned(Pruned(node), args)
    ensures Pruned(node).Some? ==> Gapless(Pruned(node).value)
    ensures Pruned(node).Some? <==> Compile(node, args).sql.Some?
    decreases node, 1
  {
    match node
    case And(cs) => CompileAllIgnoresGaps(cs, args);
    case Or(cs) => CompileAllIgnoresGaps(cs, args);
    case Not(c) => CompileIgnoresGaps(c, args);
    case _ =>
  }

  lemma {:induction false} CompileAllIgnoresGaps(cs: seq<Node>, args: seq<Value>)
    requires CompileAll(cs, args).CompiledAll?
    ensures CompileAll(cs, args) == CompileAll(PrunedAll(cs), args)
    ensures GaplessAll(PrunedAll(cs))
    ensures PrunedAll(cs) == [] <==> CompileAll(cs, args).parts == []
    decreases cs, 0
  {
    if cs != [] {
      CompileIgnoresGaps(cs[0], args);
      var r := Compile(cs[0], args);
      CompileAllIgnoresGaps(cs[1..], r.args);
      var p, rest := Pruned(cs[0]), PrunedAll(cs[1..]);
      if p.Some? {
        assert ([p.value] + rest)[0] == p.value && ([p.value] + rest)[1..] == rest;
      } else {
        assert [] + rest == rest;
        assert [] + CompileAll(rest, r.args).parts == CompileAll(rest, r.args).parts;
      }
    }
  }

  // ---------------------------------------------------------------------------
  // Placeholder binding

  function Params(row: Profile, args: seq<Value>): seq<Value> {
    Short(Text(row.tenant), Text(row.workspace), args)
  }

  /** Each placeholder names its own leaf's argument: whatever arguments later conditions append, the
      compiled condition evaluates to the tree's own meaning. */
  lemma {:induction false} Binding(db: Database, row: Profile, node: Node, args: seq<Value>, params: seq<Value>)
    requires Gapless(node) && Compile(node, args).Compiled?
    requires Params(row, Compile(node, args).args) <= params
    ensures Compile(node, args).sql.Some?
    ensures Eval(db, row, params, Compile(node, args).sql.value) == TreeTri(db, row, node)
    decreases node, 1
  {
    match node
    case And(cs) => BindingAll(db, row, cs, args, params);
    case Or(cs) => BindingAll(db, row, cs, args, params);
    case Not(c) => Binding(db, row, c, args, params);
    case _ => LeafBinding(db, row, node, args, params);
  }

  lemma ArgumentAt(row: Profile, all: seq<Value>, params: seq<Value>, k: nat)
    requires Params(row, all) <= params && k < |all|
    ensures At(params, k + 3) == all[k]
  {
    assert params[k + 2] == Params(row, all)[k + 2];
  }

  lemma ScopeAt(row: Profile, all: seq<Value>, params: seq<Value>)
    requires Params(row, all) <= params
    ensures At(params, 1) == Text(row.tenant) && At(params, 2) == Text(row.workspace)
  {
    assert params[0] == Params(row, all)[0] && params[1] == Params(row, all)[1];
  }

  lemma LeafBinding(db: Database, row: Profile, node: Node, args: seq<Value>, params: seq<Value>)
    requires IsLeaf(node) && Compile(node, args).Compiled?
    requires Params(row, Compile(node, args).args) <= params
    ensures Compile(node, args).sql.Some?
    ensures Eval(db, row, params, Compile(node, args).sql.value) == LeafTri(db, row, node)
  {
    var all, n := Compile(node, args).args, |args|;
    ScopeAt(row, all, params);
    ArgumentAt(row, all, params, n);
    if node.Consent? || node.Score? {
      ArgumentAt(row, all, params, n + 1);
      ArgumentAt(row, all, params, n + 2);
    }
  }

  lemma {:induction false} BindingAll(db: Database, row: Profile, cs: seq<Node>, args: seq<Value>, params: seq<Value>)
    requires GaplessAll(cs) && CompileAll(cs, args).CompiledAll?
    requires Params(row, CompileAll(cs, args).args) <= params
    ensures var parts := CompileAll(cs, args).parts;
            && |parts| == |cs|
            && EvalAnd(db, row, params, parts) == TreeAnd(db, row, cs)
            && EvalOr(db, row, params, parts) == TreeOr(db, row, cs)
    decreases cs, 0
  {
    if cs != [] {
      var r := Compile(cs[0], args);
      var rest := CompileAll(cs[1..], r.args);
      PlaceholdersCountAll(cs[1..], r.args);
      assert Params(row, r.args) <= Params(row, rest.args);
      Binding(db, row, cs[0], args, params);
      BindingAll(db, row, cs[1..], r.args, params);
      assert ([r.sql.value] + rest.parts)[1..] == rest.parts;
    }
  }

  // ---------------------------------------------------------------------------
  // The shift keeps the meaning

  /** Parameters of a single-profile query that go with those of a full query. */
  ghost predicate Inserted(short: seq<Value>, long: seq<Value>) {
    forall n: nat :: At(long, ShiftNumber(n)) == At(short, n)
  }

  lemma ShiftedAt(tenant: Value, workspace: Value, profile: Value, args: seq<Value>)
    ensures Inserted(Short(tenant, workspace, args), Long(tenant, workspace, profile, args))
  {}

  lemma {:induction false} ShiftedEval(db: Database, row: Profile, short: seq<Value>, long: seq<Value>, s: Sql)
    requires Inserted(short, long)
    ensures Eval(db, row, long, Shift(s)) == Eval(db, row, short, s)
    decreases s, 1
  {
    assert At(long, ShiftNumber(1)) == At(short, 1) && At(long, ShiftNumber(2)) == At(short, 2);
    match s
    case SqlAnd(parts) => ShiftedEvalAll(db, row, short, long, parts);
    case SqlOr(parts) => ShiftedEvalAll(db, row, short, long, parts);
    case SqlNot(part) => ShiftedEval(db, row, short, long, part);
    case _ =>
  }

  lemma {:induction false} ShiftedEvalAll(db: Database, row: Profile, short: seq<Value>, long: seq<Value>,
                                          parts: seq<Sql>)
    requires Inserted(short, long)
    ensures EvalAnd(db, row, long, ShiftAll(parts)) == EvalAnd(db, row, short, parts)
    ensures EvalOr(db, row, long, ShiftAll(parts)) == EvalOr(db, row, short, parts)
    decreases parts, 0
  {
    if parts != [] {
      ShiftedEval(db, row, short, long, parts[0]);
      ShiftedEvalAll(db, row, short, long, parts[1..]);
      assert ShiftAll(parts)[0] == Shift(parts[0]) && ShiftAll(parts)[1..] == ShiftAll(parts[1..]);
    }
  }

  /** The shifted condition over [tenant, workspace, profile] + args is the condition over
      [tenant, workspace] + args. */
  lemma ShiftKeepsMeaning(db: Database, row: Profile, tenant: Value, workspace: Value, profile: Value,
                          args: seq<Value>, s: Sql)
    ensures Eval(db, row, Long(tenant, workspace, profile, args), Shift(s)) ==
            Eval(db, row, Short(tenant, workspace, args), s)
  {
    ShiftedAt(tenant, workspace, profile, args);
    ShiftedEval(db, row, Short(tenant, workspace, args), Long(tenant, workspace, profile, args), s);
  }

  /** profiles.id is the primary key. */
  ghost predicate UniqueIds(db: Database) {
    forall i, j :: 0 <= i < j < |db.profiles| ==> db.profiles[i].id != db.profiles[j].id
  }

  /** For every condition whatever, the single-profile query finds a row iff the full query selects
      that profile. */
  lemma SingleIsOriginal(db: Database, row: Profile, tenant: Value, workspace: Value, args: seq<Value>,
                         sql: Option<Sql>)
    requires UniqueIds(db) && row in db.profiles
    ensures SingleFinds(db, Long(tenant, workspace, Text(row.id), args), ShiftSql(sql))
            <==> Selects(db, row, Short(tenant, workspace, args), sql)
  {
    var long, short := Long(tenant, workspace, Text(row.id), args), Short(tenant, workspace, args);
    assert At(long, 1) == At(short, 1) == tenant && At(long, 2) == At(short, 2) == workspace;
    assert At(long, 3) == Text(row.id);
    if sql.Some? { ShiftKeepsMeaning(db, row, tenant, workspace, Text(row.id), args, sql.value); }
    assert Selects(db, row, long, ShiftSql(sql)) <==> Selects(db, row, short, sql);
    var k :| 0 <= k < |db.profiles| && db.profiles[k] == row;
    forall i | 0 <= i < |db.profiles| && Text(db.profiles[i].id) == At(long, 3) ensures i == k {}
  }
}
