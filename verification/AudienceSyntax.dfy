/** Which audiences compile to what they mean, read off the tree alone: for conditions on distinct
    attributes, consents and scores, exactly those with no attribute under an odd number of Nots. */
module AudienceSyntax {
  import opened Common
  import opened Audience
  import opened AudienceMeaning
  import opened AudienceAgreement

  /** Non-empty groups and negations of accepted attribute conditions with a value, of consents and of
      accepted scores. */
  predicate PlainTree(node: Node)
    decreases node, 1
  {
    match node
    case And(cs) => cs != [] && PlainTrees(cs)
    case Or(cs) => cs != [] && PlainTrees(cs)
    case Not(c) => PlainTree(c)
    case ProfileAttribute(field, op, v) => SafeField(field) && AttributeOperator(op) && !v.Null?
    case Consent(_, _, _) => true
    case Score(model, name, op, _) => model != "" && name != "" && ScoreOperator(op)
    case _ => false
  }

  predicate PlainTrees(cs: seq<Node>)
    decreases cs, 0
  {
    cs == [] || (PlainTree(cs[0]) && PlainTrees(cs[1..]))
  }

  lemma {:induction false} PlainTreeIsAccepted(node: Node, args: seq<Value>)
    requires PlainTree(node)
    ensures Gapless(node) && Companyless(node) && Compile(node, args).Compiled? && Compile(node, args).sql.Some?
    decreases node, 1
  {
    match node
    case And(cs) => PlainTreesAreAccepted(cs, args);
    case Or(cs) => PlainTreesAreAccepted(cs, args);
    case Not(c) => PlainTreeIsAccepted(c, args);
    case _ =>
  }

  lemma {:induction false} PlainTreesAreAccepted(cs: seq<Node>, args: seq<Value>)
    requires PlainTrees(cs)
    ensures GaplessAll(cs) && CompanylessAll(cs) && CompileAll(cs, args).CompiledAll?
    ensures cs != [] ==> CompileAll(cs, args).parts != []
    decreases cs, 0
  {
    if cs != [] {
      PlainTreeIsAccepted(cs[0], args);
      PlainTreesAreAccepted(cs[1..], Compile(cs[0], args).args);
    }
  }

  /** What a condition reads. */
  datatype Key = Field(field: string) | ConsentOn(channel: string, topic: string) | ScoreOf(model: string, name: string)

  function Keys(node: Node): set<Key>
    decreases node, 1
  {
    match node
    case And(cs) => KeysOfAll(cs)
    case Or(cs) => KeysOfAll(cs)
    case Not(c) => Keys(c)
    case ProfileAttribute(field, _, _) => {Field(field)}
    case Consent(channel, topic, _) => {ConsentOn(channel, topic)}
    case Score(model, name, _, _) => {ScoreOf(model, name)}
    case _ => {}
  }

  function KeysOfAll(cs: seq<Node>): set<Key>
    decreases cs, 0
  {
    if cs == [] then {} else Keys(cs[0]) + KeysOfAll(cs[1..])
  }

  /** No two conditions read the same. */
  predicate ReadOnce(node: Node)
    decreases node, 1
  {
    match node
    case And(cs) => ReadOnceAll(cs)
    case Or(cs) => ReadOnceAll(cs)
    case Not(c) => ReadOnce(c)
    case _ => true
  }

  predicate ReadOnceAll(cs: seq<Node>)
    decreases cs, 0
  {
    cs == [] || (ReadOnce(cs[0]) && ReadOnceAll(cs[1..]) && Keys(cs[0]) !! KeysOfAll(cs[1..]))
  }

  /** Some attribute stands under an odd number of Nots, counting one more when `odd`. */
  predicate Negates(node: Node, odd: bool)
    decreases node, 1
  {
    match node
    case And(cs) => NegatesAny(cs, odd)
    case Or(cs) => NegatesAny(cs, odd)
    case Not(c) => Negates(c, !odd)
    case _ => odd && node.ProfileAttribute?
  }

  predicate NegatesAny(cs: seq<Node>, odd: bool)
    decreases cs, 0
  {
    cs != [] && (Negates(cs[0], odd) || NegatesAny(cs[1..], odd))
  }

  // ---------------------------------------------------------------------------
  // Without negated attributes they agree

  lemma {:induction false} UnnegatedIsClear(db: Database, row: Profile, node: Node, odd: bool)
    requires PlainTree(node) && Gapless(node) && !Negates(node, odd)
    ensures Clear(db, row, node, odd)
    decreases node, 1
  {
    match node
    case And(cs) => UnnegatedAreClear(db, row, cs, odd);
    case Or(cs) => UnnegatedAreClear(db, row, cs, odd);
    case Not(c) => UnnegatedIsClear(db, row, c, !odd);
    case _ =>
  }

  lemma {:induction false} UnnegatedAreClear(db: Database, row: Profile, cs: seq<Node>, odd: bool)
    requires PlainTrees(cs) && GaplessAll(cs) && !NegatesAny(cs, odd)
    ensures ClearAll(db, row, cs, odd)
    decreases cs, 0
  {
    if cs != [] {
      UnnegatedIsClear(db, row, cs[0], odd);
      UnnegatedAreClear(db, row, cs[1..], odd);
    }
  }

  // ---------------------------------------------------------------------------
  // A database for every assignment of the keys

  /** A field's text, a consent's state or a score's value. */
  datatype Cell = Word(word: string) | Amount(amount: real)

  type Assignment = map<Key, Cell>

  const YES: string := "y"
  const NO: string := "n"

  /** A profile with the assigned fields; a missing field is NULL. */
  function RowOf(a: Assignment): Profile {
    Profile("t", "w", "a", "p", "", map k | k in a && k.Field? && a[k].Word? :: k.field := a[k].word)
  }

  function ConsentRowOf(k: Key, c: Cell): seq<ConsentRow> {
    if k.ConsentOn? && c.Word? then [ConsentRow("t", "a", "p", k.channel, k.topic, c.word, 0)] else []
  }

  function ScoreRowOf(k: Key, c: Cell): seq<ScoreRow> {
    if k.ScoreOf? && c.Amount? then [ScoreRow("t", "w", "p", k.model, k.name, c.amount)] else []
  }

  ghost function ConsentRows(a: Assignment): (rows: seq<ConsentRow>)
    ensures forall c :: c in rows <==> c.profile == "p" && ConsentRowAt(a, c)
  {
    if a == map[] then []
    else
      var k :| k in a;
      assert a == (a - {k})[k := a[k]];
      ConsentRows(a - {k}) + ConsentRowOf(k, a[k])
  }

  ghost predicate ConsentRowAt(a: Assignment, c: ConsentRow) {
    var k := ConsentOn(c.channel, c.topic);
    k in a && [c] == ConsentRowOf(k, a[k])
  }

  ghost function ScoreRows(a: Assignment): (rows: seq<ScoreRow>)
    ensures forall r :: r in rows <==> r.profile == "p" && ScoreRowAt(a, r)
  {
    if a == map[] then []
    else
      var k :| k in a;
      assert a == (a - {k})[k := a[k]];
      ScoreRows(a - {k}) + ScoreRowOf(k, a[k])
  }

  ghost predicate ScoreRowAt(a: Assignment, r: ScoreRow) {
    var k := ScoreOf(r.model, r.name);
    k in a && [r] == ScoreRowOf(k, a[k])
  }

  ghost function DbOf(a: Assignment): Database {
    Database([RowOf(a)], ConsentRows(a), ScoreRows(a), (op, text, v) => OfBool(text == YES),
             (t, w, id, field, op, v) => false, (who, event, days, external) => 0, (c, d) => false, (c, d) => false,
             leaf => false)
  }

  ghost function Value3(a: Assignment, node: Node): Tri
    requires Gapless(node)
  {
    TreeTri(DbOf(a), RowOf(a), node)
  }

  ghost predicate Value2(a: Assignment, node: Node)
    requires Gapless(node)
  {
    Reads(DbOf(a), RowOf(a), node, false, false)
  }

  predicate SameOn(a: Assignment, b: Assignment, keys: set<Key>) {
    forall k :: k in keys ==> (k in a <==> k in b) && (k in a && k in b ==> a[k] == b[k])
  }

  function CellTri(a: Assignment, leaf: Node): Tri {
    match leaf
    case ProfileAttribute(field, _, _) =>
      var k := Field(field);
      if k !in a || !a[k].Word? then U else OfBool(a[k].word == YES)
    case Consent(channel, topic, state) =>
      var k := ConsentOn(channel, topic);
      OfBool(k in a && a[k] == Word(state))
    case Score(model, name, op, number) =>
      var k := ScoreOf(model, name);
      OfBool(k in a && a[k].Amount? && ScoreCompares(op, a[k].amount, Num(number)))
    case _ => U
  }

  lemma FieldCell(a: Assignment, field: string, op: string, v: Value)
    requires !v.Null?
    ensures AttributeTri(DbOf(a), RowOf(a), field, op, v) == CellTri(a, ProfileAttribute(field, op, v))
  {
    var k := Field(field);
    if k in a && a[k].Word? { assert RowOf(a).attributes[field] == a[k].word; }
  }

  /** The row of a consent cell is in the ledger, and no other row has its key. */
  lemma ConsentLedger(a: Assignment, channel: string, topic: string)
    ensures var k, scope := ConsentOn(channel, topic), LedgerScope("t", "a", Text(channel), Text(topic));
            && (k in a && a[k].Word? ==>
                  var c := ConsentRow("t", "a", "p", channel, topic, a[k].word, 0);
                  c in ConsentRows(a) && Keyed(c, scope, "p"))
            && (forall c :: c in ConsentRows(a) && Keyed(c, scope, "p") ==> k in a && a[k] == Word(c.state))
  {
    var k, rows := ConsentOn(channel, topic), ConsentRows(a);
    if k in a && a[k].Word? { assert ConsentRowAt(a, ConsentRow("t", "a", "p", channel, topic, a[k].word, 0)); }
    forall c | c in rows && c.channel == channel && c.topic == topic ensures k in a && a[k] == Word(c.state) {
      assert ConsentRowAt(a, c);
      assert [c][0] == ConsentRowOf(k, a[k])[0];
    }
  }

  lemma ConsentCell(a: Assignment, channel: string, topic: string, state: string)
    ensures ConsentSelected(DbOf(a), RowOf(a), Text(channel), Text(topic), Text(state)) <==>
            CellTri(a, Consent(channel, topic, state)) == T
  {
    hide LatestByProfile, Newest, Keyed;
    var scope, db := LedgerScope("t", "a", Text(channel), Text(topic)), DbOf(a);
    ConsentLedger(a, channel, topic);
    LatestByProfileIsNewest(db.consents, scope, "p", db.distinctTie);
    var m := LatestByProfile(db.consents, scope, db.distinctTie);
    if "p" in m { NewestIsRow(db.consents, m["p"]); }
  }

  lemma NewestIsRow(ledger: seq<ConsentRow>, c: ConsentRow)
    requires Newest(ledger, c)
    ensures c in ledger
  {}

  lemma ScoreCell(a: Assignment, model: string, name: string, op: string, number: real)
    ensures ScoreSelected(DbOf(a), RowOf(a), Text("t"), Text("w"), Text(model), Text(name), op, Num(number)) <==>
            CellTri(a, Score(model, name, op, number)) == T
  {
    var rows, k := DbOf(a).scores, ScoreOf(model, name);
    if CellTri(a, Score(model, name, op, number)) == T {
      var r := ScoreRow("t", "w", "p", model, name, a[k].amount);
      assert ScoreRowAt(a, r) && r in rows;
      var i :| 0 <= i < |rows| && rows[i] == r;
    } else {
      forall i | 0 <= i < |rows| && rows[i].model == model && rows[i].name == name
        ensures !ScoreCompares(op, rows[i].value, Num(number))
      {
        assert rows[i] in rows && ScoreRowAt(a, rows[i]);
      }
    }
  }

  /** A condition has the value of its cell. */
  lemma LeafCell(a: Assignment, leaf: Node)
    requires PlainTree(leaf) && IsLeaf(leaf)
    ensures LeafTri(DbOf(a), RowOf(a), leaf) == CellTri(a, leaf)
  {
    match leaf
    case ProfileAttribute(field, op, v) => FieldCell(a, field, op, v);
    case Consent(channel, topic, state) => ConsentCell(a, channel, topic, state);
    case Score(model, name, op, number) => ScoreCell(a, model, name, op, number);
  }

  /** Only what a tree reads matters to it. */
  lemma {:induction false} ValueDependsOnKeys(a: Assignment, b: Assignment, node: Node)
    requires PlainTree(node) && Gapless(node) && SameOn(a, b, Keys(node))
    ensures Value3(a, node) == Value3(b, node) && Value2(a, node) == Value2(b, node)
    decreases node, 1
  {
    match node
    case And(cs) => ValuesDependOnKeys(a, b, cs);
    case Or(cs) => ValuesDependOnKeys(a, b, cs);
    case Not(c) => ValueDependsOnKeys(a, b, c);
    case _ =>
      LeafCell(a, node);
      LeafCell(b, node);
      SameCells(a, b, node);
  }

  lemma SameCells(a: Assignment, b: Assignment, leaf: Node)
    requires IsLeaf(leaf) && SameOn(a, b, Keys(leaf))
    ensures CellTri(a, leaf) == CellTri(b, leaf)
  {
    match leaf
    case ProfileAttribute(field, _, _) => assert Field(field) in Keys(leaf);
    case Consent(channel, topic, _) => assert ConsentOn(channel, topic) in Keys(leaf);
    case Score(model, name, _, _) => assert ScoreOf(model, name) in Keys(leaf);
    case _ =>
  }

  lemma {:induction false} ValuesDependOnKeys(a: Assignment, b: Assignment, cs: seq<Node>)
    requires PlainTrees(cs) && GaplessAll(cs) && SameOn(a, b, KeysOfAll(cs))
    ensures TreeAnd(DbOf(a), RowOf(a), cs) == TreeAnd(DbOf(b), RowOf(b), cs)
    ensures TreeOr(DbOf(a), RowOf(a), cs) == TreeOr(DbOf(b), RowOf(b), cs)
    ensures ReadsAll(DbOf(a), RowOf(a), cs, false, false) == ReadsAll(DbOf(b), RowOf(b), cs, false, false)
    ensures ReadsAny(DbOf(a), RowOf(a), cs, false, false) == ReadsAny(DbOf(b), RowOf(b), cs, false, false)
    decreases cs, 0
  {
    if cs != [] {
      assert forall k :: k in Keys(cs[0]) ==> k in KeysOfAll(cs);
      assert forall k :: k in KeysOfAll(cs[1..]) ==> k in KeysOfAll(cs);
      ValueDependsOnKeys(a, b, cs[0]);
      ValuesDependOnKeys(a, b, cs[1..]);
    }
  }

  // ---------------------------------------------------------------------------
  // Assignments with a wanted outcome

  /** The tree is plainly `want`. */
  ghost predicate Settles(a: Assignment, node: Node, want: bool)
    requires Gapless(node)
  {
    a.Keys <= Keys(node) && Value3(a, node) == OfBool(want) && Value2(a, node) == want
  }

  /** Every tree of the group is plainly `want`. */
  ghost predicate SettlesAll(a: Assignment, cs: seq<Node>, want: bool)
    requires GaplessAll(cs)
  {
    var db, row := DbOf(a), RowOf(a);
    && a.Keys <= KeysOfAll(cs)
    && (want ==> TreeAnd(db, row, cs) == T && ReadsAll(db, row, cs, false, false))
    && (!want ==> TreeOr(db, row, cs) == F && !ReadsAny(db, row, cs, false, false))
    && (cs != [] && want ==> TreeOr(db, row, cs) == T && ReadsAny(db, row, cs, false, false))
    && (cs != [] && !want ==> TreeAnd(db, row, cs) == F && !ReadsAll(db, row, cs, false, false))
  }

  /** Two assignments of disjoint keys, side by side. */
  lemma Beside(a: Assignment, b: Assignment, head: Node, tail: seq<Node>)
    requires PlainTree(head) && PlainTrees(tail) && Gapless(head) && GaplessAll(tail)
    requires a.Keys <= Keys(head) && b.Keys <= KeysOfAll(tail) && Keys(head) !! KeysOfAll(tail)
    ensures Value3(a + b, head) == Value3(a, head) && Value2(a + b, head) == Value2(a, head)
    ensures TreeAnd(DbOf(a + b), RowOf(a + b), tail) == TreeAnd(DbOf(b), RowOf(b), tail)
    ensures TreeOr(DbOf(a + b), RowOf(a + b), tail) == TreeOr(DbOf(b), RowOf(b), tail)
    ensures ReadsAll(DbOf(a + b), RowOf(a + b), tail, false, false) == ReadsAll(DbOf(b), RowOf(b), tail, false, false)
    ensures ReadsAny(DbOf(a + b), RowOf(a + b), tail, false, false) == ReadsAny(DbOf(b), RowOf(b), tail, false, false)
  {
    ValueDependsOnKeys(a + b, a, head);
    ValuesDependOnKeys(a + b, b, tail);
  }

  /** Any outcome can be had. */
  lemma {:induction false} Satisfy(node: Node, want: bool) returns (a: Assignment)
    requires PlainTree(node) && ReadOnce(node) && Gapless(node)
    ensures Settles(a, node, want)
    decreases node, 1
  {
    match node {
      case And(cs) => a := SatisfyAll(cs, want);
      case Or(cs) => a := SatisfyAll(cs, want);
      case Not(c) => a := Satisfy(c, !want);
      case _ =>
        a := SatisfyLeaf(node, want);
        LeafCell(a, node);
    }
  }

  lemma SatisfyLeaf(leaf: Node, want: bool) returns (a: Assignment)
    requires PlainTree(leaf) && IsLeaf(leaf)
    ensures a.Keys <= Keys(leaf) && CellTri(a, leaf) == OfBool(want)
  {
    match leaf {
      case ProfileAttribute(field, _, _) =>
        a := map[Field(field) := Word(if want then YES else NO)];
        assert YES[0] != NO[0];
      case Consent(channel, topic, state) =>
        a := if want then map[ConsentOn(channel, topic) := Word(state)] else map[];
      case Score(model, name, op, number) =>
        var amount := if op == "greater_than" then number + 1.0 else if op == "less_than" then number - 1.0 else number;
        a := if want then map[ScoreOf(model, name) := Amount(amount)] else map[];
    }
  }

  lemma {:induction false} SatisfyAll(cs: seq<Node>, want: bool) returns (a: Assignment)
    requires PlainTrees(cs) && ReadOnceAll(cs) && GaplessAll(cs)
    ensures SettlesAll(a, cs, want)
    decreases cs, 0
  {
    if cs == [] {
      a := map[];
    } else {
      var head := Satisfy(cs[0], want);
      var tail := SatisfyAll(cs[1..], want);
      Beside(head, tail, cs[0], cs[1..]);
      a := head + tail;
    }
  }

  /** With a negated attribute NULL and the others out of its way, SQL does not know and Matches reads
      the condition as false. */
  lemma {:induction false} Expose(node: Node, odd: bool) returns (a: Assignment)
    requires PlainTree(node) && ReadOnce(node) && Gapless(node) && Negates(node, odd)
    ensures a.Keys <= Keys(node) && Value3(a, node) == U && Value2(a, node) == !odd
    decreases node, 1
  {
    match node {
      case And(cs) => a := ExposeAny(cs, odd, true);
      case Or(cs) => a := ExposeAny(cs, odd, false);
      case Not(c) => a := Expose(c, !odd);
      case _ =>
        a := map[];
        LeafCell(a, node);
    }
  }

  lemma {:induction false} ExposeAny(cs: seq<Node>, odd: bool, conjunction: bool) returns (a: Assignment)
    requires PlainTrees(cs) && ReadOnceAll(cs) && GaplessAll(cs) && NegatesAny(cs, odd)
    ensures a.Keys <= KeysOfAll(cs)
    ensures conjunction ==> TreeAnd(DbOf(a), RowOf(a), cs) == U && ReadsAll(DbOf(a), RowOf(a), cs, false, false) == !odd
    ensures !conjunction ==> TreeOr(DbOf(a), RowOf(a), cs) == U && ReadsAny(DbOf(a), RowOf(a), cs, false, false) == !odd
    decreases cs, 0
  {
    var head, tail;
    if Negates(cs[0], odd) {
      head := Expose(cs[0], odd);
      tail := SatisfyAll(cs[1..], conjunction);
    } else {
      head := Satisfy(cs[0], conjunction);
      tail := ExposeAny(cs[1..], odd, conjunction);
    }
    Beside(head, tail, cs[0], cs[1..]);
    a := head + tail;
  }

  // ---------------------------------------------------------------------------
  // The condition

  /** On this database and row, the compiled query selects exactly when Matches says true. */
  ghost predicate AgreesOn(db: Database, row: Profile, node: Node) {
    var r := Compile(node, []);
    r.Compiled? && Matches(db, SubjectOf(row), node) == Some(Selects(db, row, Params(row, r.args), r.sql))
  }

  lemma DbIsConsistent(a: Assignment)
    ensures Consistent(DbOf(a)) && RowOf(a) in DbOf(a).profiles
  {
    var ledger := DbOf(a).consents;
    forall c, d | Newest(ledger, c) && Newest(ledger, d) && SameKey(c, d) ensures c.state == d.state {
      assert ConsentRowAt(a, c) && ConsentRowAt(a, d);
      assert [c][0] == [d][0];
    }
  }

  /** For conditions on distinct attributes, consents and scores, compiler and interpreter agree on every
      database and profile if and only if no attribute stands under an odd number of Nots. */
  lemma AgreesEverywhereIff(node: Node)
    requires PlainTree(node) && ReadOnce(node)
    ensures (forall db, row :: Consistent(db) && row in db.profiles ==> AgreesOn(db, row, node)) <==>
            !Negates(node, false)
  {
    PlainTreeIsAccepted(node, []);
    if Negates(node, false) {
      var a := Expose(node, false);
      DbIsConsistent(a);
      CompilerAgreesWithMatches(DbOf(a), RowOf(a), node);
      TriIsReading(DbOf(a), RowOf(a), node);
      assert !AgreesOn(DbOf(a), RowOf(a), node);
    } else {
      forall db, row | Consistent(db) && row in db.profiles ensures AgreesOn(db, row, node) {
        UnnegatedIsClear(db, row, node, false);
        CompilerAgreesWithMatches(db, row, node);
      }
    }
  }
}
