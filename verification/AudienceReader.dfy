/** A reader of the compiler's SQL text: a lexer and a recursive descent over SQL's grammar, in which NOT
    binds tighter than AND and AND tighter than OR. It is written without reference to the compiler's own
    fragments and recovers the expression from the text. */
module AudienceReader {
  import opened Common
  import opened Text
  import opened Audience
  import opened AudienceText
  import opened AudienceMeaning

  // ---------------------------------------------------------------------------
  // The lexer

  function WordRun(s: string): (n: nat)
    ensures n <= |s|
  {
    if s == "" || !WordChar(s[0]) then 0 else 1 + WordRun(s[1..])
  }

  /** Up to the closing quote or the end. A doubled quote ends one quotation and begins the next. */
  function QuoteRun(s: string): (n: nat)
    ensures n <= |s|
  {
    if s == "" || s[0] == '\'' then 0 else 1 + QuoteRun(s[1..])
  }

  function Lex(s: string): seq<Lexeme>
    decreases |s|
  {
    if s == "" then []
    else if IsBlank(s[0]) then Lex(s[1..])
    else if s[0] == '$' then
      var n := DigitRun(s[1..]);
      [Placeholder(DigitsValue(s[1..][..n]))] + Lex(s[1..][n..])
    else if s[0] == '\'' then
      var n := QuoteRun(s[1..]);
      [Quote(s[1..][..n])] + (if n < |s| - 1 then Lex(s[1..][n + 1..]) else [])
    else if WordChar(s[0]) then
      var n := WordRun(s[1..]);
      [Word(s[..n + 1])] + Lex(s[n + 1..])
    else [Mark(s[0])] + Lex(s[1..])
  }

  // ---------------------------------------------------------------------------
  // The grammar

  datatype Parse<T> = NoParse | Parsed(value: T, rest: seq<Lexeme>) {
    predicate IsFailure() { NoParse? }
    function PropagateFailure<U>(): Parse<U>
      requires NoParse?
    {
      NoParse
    }
    function Extract(): (T, seq<Lexeme>)
      requires Parsed?
    {
      (value, rest)
    }
  }

  function After(words: seq<Lexeme>, ls: seq<Lexeme>): (r: Parse<()>)
    ensures r.Parsed? ==> |r.rest| + |words| == |ls|
  {
    if words <= ls then Parsed((), ls[|words|..]) else NoParse
  }

  predicate Next(l: Lexeme, ls: seq<Lexeme>) {
    ls != [] && ls[0] == l
  }

  function ReadNumber(ls: seq<Lexeme>): (r: Parse<nat>)
    ensures r.Parsed? ==> |r.rest| < |ls|
  {
    if ls != [] && ls[0].Placeholder? then Parsed(ls[0].number, ls[1..]) else NoParse
  }

  /** The keyword and column = $n */
  function ReadKey(keyword: string, column: string, ls: seq<Lexeme>): (r: Parse<nat>)
    ensures r.Parsed? ==> |r.rest| < |ls|
  {
    var (_, rest) :- After([Word(keyword), Word(column), Mark('=')], ls);
    ReadNumber(rest)
  }

  /** column->>'field' */
  function ReadColumn(column: string, ls: seq<Lexeme>): (r: Parse<string>)
    ensures r.Parsed? ==> |r.rest| < |ls|
  {
    var (_, rest) :- After([Word(column), Mark('-'), Mark('>'), Mark('>')], ls);
    if rest != [] && rest[0].Quote? then Parsed(rest[0].text, rest[1..]) else NoParse
  }

  /** One of the signs > and <. */
  function ReadOrder(ls: seq<Lexeme>): (r: Parse<string>)
    ensures r.Parsed? ==> |r.rest| < |ls|
  {
    if Next(Mark('>'), ls) then Parsed("greater_than", ls[1..])
    else if Next(Mark('<'), ls) then Parsed("less_than", ls[1..])
    else NoParse
  }

  function ReadSign(ls: seq<Lexeme>): (r: Parse<string>)
    ensures r.Parsed? ==> |r.rest| < |ls|
  {
    if Next(Mark('='), ls) then Parsed("equals", ls[1..]) else ReadOrder(ls)
  }

  datatype Test = Test(field: string, operator: string, param: nat)

  function CastEnd(): seq<Lexeme> {
    [Mark(')'), Mark(':'), Mark(':'), Word("numeric")]
  }

  /** (column->>'field')::numeric > ($n)::numeric */
  function ReadCast(column: string, ls: seq<Lexeme>): (r: Parse<Test>)
    ensures r.Parsed? ==> |r.rest| < |ls|
  {
    var (_, a) :- After([Mark('(')], ls);
    var (field, b) :- ReadColumn(column, a);
    var (_, c) :- After(CastEnd(), b);
    var (op, d) :- ReadOrder(c);
    var (_, e) :- After([Mark('(')], d);
    var (n, f) :- ReadNumber(e);
    var (_, g) :- After(CastEnd(), f);
    Parsed(Test(field, op, n), g)
  }

  /** What may follow a column: LIKE '%' || $n || '%', = ANY($n), = $n */
  function ReadText(field: string, ls: seq<Lexeme>): (r: Parse<Test>)
    ensures r.Parsed? ==> |r.rest| < |ls|
  {
    if Next(Word("LIKE"), ls) then
      var (_, a) :- After([Quote("%"), Mark('|'), Mark('|')], ls[1..]);
      var (n, b) :- ReadNumber(a);
      var (_, c) :- After([Mark('|'), Mark('|'), Quote("%")], b);
      Parsed(Test(field, "contains", n), c)
    else
      var (_, a) :- After([Mark('=')], ls);
      if Next(Word("ANY"), a) then
        var (_, b) :- After([Mark('(')], a[1..]);
        var (n, c) :- ReadNumber(b);
        var (_, d) :- After([Mark(')')], c);
        Parsed(Test(field, "in", n), d)
      else
        var (n, b) :- ReadNumber(a);
        Parsed(Test(field, "equals", n), b)
  }

  function ReadTest(column: string, ls: seq<Lexeme>): (r: Parse<Test>)
    ensures r.Parsed? ==> |r.rest| < |ls|
  {
    if Next(Mark('('), ls) then ReadCast(column, ls)
    else
      var (field, rest) :- ReadColumn(column, ls);
      ReadText(field, rest)
  }

  function LedgerOfProfiles(): seq<Lexeme> {
    [Word("SELECT"), Word("latest.profile_id"), Word("FROM"), Mark('(')] +
    ([Word("SELECT"), Word("DISTINCT"), Word("ON"), Mark('(')] +
     ([Word("cl.profile_id"), Mark(')'), Word("cl.profile_id"), Mark(','), Word("cl.state")] +
      ([Word("FROM"), Word("consent_ledger"), Word("cl")] +
       ([Word("WHERE"), Word("cl.tenant_id"), Mark('='), Word("profiles.tenant_id"), Word("AND")] +
        [Word("cl.app_id"), Mark('='), Word("profiles.app_id")]))))
  }

  function NewestFirst(): seq<Lexeme> {
    [Word("ORDER"), Word("BY"), Word("cl.profile_id"), Mark(',')] + [Word("cl.occurred_at"), Word("DESC")]
  }

  /** The latest state of a channel and topic in the profile's own app. */
  function ReadConsent(ls: seq<Lexeme>): (r: Parse<Sql>)
    ensures r.Parsed? ==> |r.rest| < |ls|
  {
    var (_, a) :- After(LedgerOfProfiles(), ls);
    var (channel, b) :- ReadKey("AND", "cl.channel", a);
    var (topic, c) :- ReadKey("AND", "cl.topic", b);
    var (_, d) :- After(NewestFirst(), c);
    var (_, e) :- After([Mark(')'), Word("latest")], d);
    var (state, f) :- ReadKey("WHERE", "latest.state", e);
    var (_, g) :- After([Mark(')')], f);
    Parsed(SqlConsent(channel, topic, state), g)
  }

  function ScoresOfScope(): seq<Lexeme> {
    [Word("SELECT"), Word("profile_id"), Word("FROM"), Word("profile_scores")] +
    [Word("WHERE"), Word("tenant_id"), Mark('='), Placeholder(1),
     Word("AND"), Word("workspace_id"), Mark('='), Placeholder(2)]
  }

  /** A score of the tenant ($1) and workspace ($2). */
  function ReadScore(ls: seq<Lexeme>): (r: Parse<Sql>)
    ensures r.Parsed? ==> |r.rest| < |ls|
  {
    var (_, a) :- After(ScoresOfScope(), ls);
    var (model, b) :- ReadKey("AND", "scoring_model_id", a);
    var (name, c) :- ReadKey("AND", "score_name", b);
    var (_, d) :- After([Word("AND"), Word("value")], c);
    var (op, e) :- ReadSign(d);
    var (number, f) :- ReadNumber(e);
    var (_, g) :- After([Mark(')')], f);
    Parsed(SqlScore(model, name, op, number), g)
  }

  function MembersOfCompanies(): seq<Lexeme> {
    [Word("SELECT"), Word("m.profile_id"), Word("FROM")] + ([Word("company_members"), Word("m")] +
    ([Word("JOIN"), Word("companies"), Word("c"), Word("ON")] +
     [Word("c.id"), Mark('='), Word("m.company_id"), Word("WHERE")]))
  }

  function CompaniesOfScope(): seq<Lexeme> {
    [Word("m.tenant_id"), Mark('='), Placeholder(1), Word("AND")] +
    ([Word("c.tenant_id"), Mark('='), Placeholder(1), Word("AND")] +
     [Word("c.workspace_id"), Mark('='), Placeholder(2), Word("AND")])
  }

  /** A company of the tenant ($1) and workspace ($2) with the profile as a member. */
  function ReadCompany(ls: seq<Lexeme>): (r: Parse<Sql>)
    ensures r.Parsed? ==> |r.rest| < |ls|
  {
    var (_, a) :- After(MembersOfCompanies() + CompaniesOfScope(), ls);
    var (test, b) :- ReadTest("c.attributes", a);
    var (_, c) :- After([Mark(')')], b);
    Parsed(SqlCompany(test.field, test.operator, test.param), c)
  }

  /** A query in parentheses, told by the column it selects. */
  function ReadMembership(ls: seq<Lexeme>): (r: Parse<Sql>)
    ensures r.Parsed? ==> |r.rest| < |ls|
  {
    var (_, rest) :- After([Word("id"), Word("IN"), Mark('(')], ls);
    if After([Word("SELECT"), Word("latest.profile_id")], rest).Parsed? then ReadConsent(rest)
    else if After([Word("SELECT"), Word("m.profile_id")], rest).Parsed? then ReadCompany(rest)
    else ReadScore(rest)
  }

  function ReadPredicate(ls: seq<Lexeme>): (r: Parse<Sql>)
    ensures r.Parsed? ==> |r.rest| < |ls|
  {
    if Next(Word("id"), ls) then ReadMembership(ls)
    else
      var (test, rest) :- ReadTest("attributes", ls);
      Parsed(SqlAttribute(test.field, test.operator, test.param), rest)
  }

  /** The parenthesis encloses a column to be cast, not a condition. */
  predicate CastAhead(ls: seq<Lexeme>) {
    ls != [] &&
    var column := ReadColumn("attributes", ls[1..]);
    column.Parsed? && Next(Mark(')'), column.rest)
  }

  function ReadPrimary(ls: seq<Lexeme>): (r: Parse<Sql>)
    ensures r.Parsed? ==> |r.rest| < |ls|
    decreases |ls|, 0
  {
    if Next(Mark('('), ls) && !CastAhead(ls) then
      var (condition, a) :- ReadOr(ls[1..]);
      var (_, b) :- After([Mark(')')], a);
      Parsed(condition, b)
    else ReadPredicate(ls)
  }

  function ReadNot(ls: seq<Lexeme>): (r: Parse<Sql>)
    ensures r.Parsed? ==> |r.rest| < |ls|
    decreases |ls|, 1
  {
    if Next(Word("NOT"), ls) then
      var (part, rest) :- ReadNot(ls[1..]);
      Parsed(SqlNot(part), rest)
    else ReadPrimary(ls)
  }

  /** Conditions with AND between them. */
  function ReadConjuncts(ls: seq<Lexeme>): (r: Parse<seq<Sql>>)
    ensures r.Parsed? ==> r.value != [] && |r.rest| < |ls|
    decreases |ls|, 2
  {
    var (first, a) :- ReadNot(ls);
    if Next(Word("AND"), a) then
      var (others, b) :- ReadConjuncts(a[1..]);
      Parsed([first] + others, b)
    else Parsed([first], a)
  }

  function ReadAnd(ls: seq<Lexeme>): (r: Parse<Sql>)
    ensures r.Parsed? ==> |r.rest| < |ls|
    decreases |ls|, 3
  {
    var (parts, rest) :- ReadConjuncts(ls);
    Parsed(if |parts| == 1 then parts[0] else SqlAnd(parts), rest)
  }

  /** Conjunctions with OR between them. */
  function ReadDisjuncts(ls: seq<Lexeme>): (r: Parse<seq<Sql>>)
    ensures r.Parsed? ==> r.value != [] && |r.rest| < |ls|
    decreases |ls|, 4
  {
    var (first, a) :- ReadAnd(ls);
    if Next(Word("OR"), a) then
      var (others, b) :- ReadDisjuncts(a[1..]);
      Parsed([first] + others, b)
    else Parsed([first], a)
  }

  function ReadOr(ls: seq<Lexeme>): (r: Parse<Sql>)
    ensures r.Parsed? ==> |r.rest| < |ls|
    decreases |ls|, 5
  {
    var (parts, rest) :- ReadDisjuncts(ls);
    Parsed(if |parts| == 1 then parts[0] else SqlOr(parts), rest)
  }

  /** The condition a whole text states. */
  function ReadCondition(text: string): Option<Sql> {
    var r := ReadOr(Lex(text));
    if r.Parsed? && r.rest == [] then Some(r.value) else None
  }

  function Scope(): seq<Lexeme> {
    [Word("WHERE"), Word("tenant_id"), Mark('='), Placeholder(1), Word("AND"), Word("workspace_id"), Mark('='),
     Placeholder(2), Word("AND")]
  }

  /** The parenthesised condition that ends a query; None for TRUE. */
  function ReadWhere(ls: seq<Lexeme>): Parse<Option<Sql>> {
    if ls == [Mark('('), Word("TRUE"), Mark(')')] then Parsed(None, [])
    else
      var (_, a) :- After([Mark('(')], ls);
      var (condition, b) :- ReadOr(a);
      var (_, c) :- After([Mark(')')], b);
      Parsed(Some(condition), c)
  }

  /** Selects the profiles of the tenant ($1) and workspace ($2) that meet a condition. */
  function ReadFull(text: string): Parse<Option<Sql>> {
    var (_, a) :- After([Word("SELECT"), Word("external_id"), Word("FROM"), Word("profiles")] + Scope(), Lex(text));
    ReadWhere(a)
  }

  /** Selects the profile $3 of the tenant and workspace if it meets a condition. */
  function ReadSingle(text: string): Parse<Option<Sql>> {
    var (_, a) :- After([Word("SELECT"), Word("1"), Word("FROM"), Word("profiles")] + Scope(), Lex(text));
    var (_, b) :- After([Word("id"), Mark('='), Placeholder(3), Word("AND")], a);
    ReadWhere(b)
  }

  // ---------------------------------------------------------------------------
  // What the reader makes of each piece of the compiler's text

  function Lexemes(ts: seq<Token>): (r: seq<Lexeme>)
    ensures |r| == |ts|
  {
    seq(|ts|, i requires 0 <= i < |ts| => ts[i].lexeme)
  }

  lemma LexemesConcat(a: seq<Token>, b: seq<Token>)
    ensures Lexemes(a + b) == Lexemes(a) + Lexemes(b)
  {}

  lemma AfterOf(words: seq<Lexeme>, rest: seq<Lexeme>)
    ensures After(words, words + rest) == Parsed((), rest)
  {
    assert (words + rest)[|words|..] == rest;
  }

  function Key(keyword: string, column: string, n: nat): seq<Lexeme> {
    [Word(keyword), Word(column), Mark('='), Placeholder(n)]
  }

  lemma KeyOf(keyword: string, column: string, n: nat, rest: seq<Lexeme>)
    ensures ReadKey(keyword, column, Key(keyword, column, n) + rest) == Parsed(n, rest)
  {
    AfterOf([Word(keyword), Word(column), Mark('=')], [Placeholder(n)] + rest);
    assert Key(keyword, column, n) + rest == [Word(keyword), Word(column), Mark('=')] + ([Placeholder(n)] + rest);
  }

  lemma IdInLexemes()
    ensures Lexemes(IdIn()) == [Word("id"), Word("IN"), Mark('(')]
  {}

  lemma ConsentSelectLexemes()
    ensures Lexemes(ConsentSelect()) == [Word("SELECT"), Word("latest.profile_id"), Word("FROM"), Mark('(')]
  {}

  lemma ConsentDistinctLexemes()
    ensures Lexemes(ConsentDistinct()) == [Word("SELECT"), Word("DISTINCT"), Word("ON"), Mark('(')]
  {}

  lemma ConsentColumnsLexemes()
    ensures Lexemes(ConsentColumns()) ==
            [Word("cl.profile_id"), Mark(')'), Word("cl.profile_id"), Mark(','), Word("cl.state")]
  {}

  lemma ConsentFromLexemes()
    ensures Lexemes(ConsentFrom()) == [Word("FROM"), Word("consent_ledger"), Word("cl")]
  {}

  lemma ConsentScopeLexemes()
    ensures Lexemes(ConsentScope()) ==
            [Word("WHERE"), Word("cl.tenant_id"), Mark('='), Word("profiles.tenant_id"), Word("AND")]
  {}

  lemma ConsentAppLexemes()
    ensures Lexemes(ConsentApp()) == [Word("cl.app_id"), Mark('='), Word("profiles.app_id")]
  {}

  lemma ConsentSourceLexemes()
    ensures Lexemes(ConsentSource()) == [Word("id"), Word("IN"), Mark('(')] + LedgerOfProfiles()
  {
    hide IdIn, ConsentSelect, ConsentDistinct, ConsentColumns, ConsentFrom, ConsentScope, ConsentApp;
    hide Fragment, Apart, Steady, Lexemes;
    var f := ConsentScope() + ConsentApp();
    var e := ConsentFrom() + f;
    var d := ConsentColumns() + e;
    var c := ConsentDistinct() + d;
    var b := ConsentSelect() + c;
    LexemesConcat(IdIn(), b);
    LexemesConcat(ConsentSelect(), c);
    LexemesConcat(ConsentDistinct(), d);
    LexemesConcat(ConsentColumns(), e);
    LexemesConcat(ConsentFrom(), f);
    LexemesConcat(ConsentScope(), ConsentApp());
    IdInLexemes();
    ConsentSelectLexemes();
    ConsentDistinctLexemes();
    ConsentColumnsLexemes();
    ConsentFromLexemes();
    ConsentScopeLexemes();
    ConsentAppLexemes();
  }

  lemma ConsentKeyLexemes(c: nat, t: nat)
    ensures Lexemes(ConsentKey(c, t)) == Key("AND", "cl.channel", c) + Key("AND", "cl.topic", t)
  {}

  lemma ConsentOrderLexemes()
    ensures Lexemes(ConsentOrder()) == NewestFirst()
  {}

  lemma ConsentStateLexemes(st: nat)
    ensures Lexemes(ConsentState(st)) == [Mark(')'), Word("latest")] + (Key("WHERE", "latest.state", st) + [Mark(')')])
  {}

  lemma ScoreSourceLexemes()
    ensures Lexemes(ScoreSource()) == [Word("id"), Word("IN"), Mark('(')] + ScoresOfScope()
  {
    hide IdIn;
    IdInLexemes();
    LexemesConcat(IdIn(), ScoreSelect() + ScoreScope());
    LexemesConcat(ScoreSelect(), ScoreScope());
  }

  lemma ScoreKeyLexemes(m: nat, n: nat)
    ensures Lexemes(ScoreKey(m, n)) == Key("AND", "scoring_model_id", m) + Key("AND", "score_name", n)
  {}

  lemma ScoreValueLexemes(op: string, v: nat)
    ensures Lexemes(ScoreValue(Sign(op), v)) ==
            [Word("AND"), Word("value")] + ([Mark(Sign(op)), Placeholder(v)] + [Mark(')')])
  {}

  lemma CompanyFromLexemes()
    ensures Lexemes(CompanyFrom()) == MembersOfCompanies()
  {
    LexemesConcat(CompanySelect(), CompanyMembers() + (CompanyJoin() + CompanyOn()));
    LexemesConcat(CompanyMembers(), CompanyJoin() + CompanyOn());
    LexemesConcat(CompanyJoin(), CompanyOn());
  }

  lemma CompanyScopeLexemes()
    ensures Lexemes(CompanyScope()) == CompaniesOfScope()
  {}

  lemma CompanySourceLexemes()
    ensures Lexemes(CompanySource()) ==
            [Word("id"), Word("IN"), Mark('(')] + (MembersOfCompanies() + CompaniesOfScope())
  {
    hide IdIn, CompanyFrom, CompanyScope;
    IdInLexemes();
    CompanyFromLexemes();
    CompanyScopeLexemes();
    LexemesConcat(IdIn(), CompanyFrom() + CompanyScope());
    LexemesConcat(CompanyFrom(), CompanyScope());
  }

  // ---------------------------------------------------------------------------
  // Reading a leaf

  lemma ReadConsentOf(c: nat, t: nat, st: nat, rest: seq<Lexeme>)
    ensures ReadConsent(
              LedgerOfProfiles() + (Key("AND", "cl.channel", c) + (Key("AND", "cl.topic", t) + (NewestFirst() +
              ([Mark(')'), Word("latest")] + (Key("WHERE", "latest.state", st) + ([Mark(')')] + rest))))))) ==
            Parsed(SqlConsent(c, t, st), rest)
  {
    hide LedgerOfProfiles, NewestFirst, Key, After, ReadKey;
    var g := [Mark(')')] + rest;
    var f := Key("WHERE", "latest.state", st) + g;
    var e := [Mark(')'), Word("latest")] + f;
    var d := NewestFirst() + e;
    var b := Key("AND", "cl.topic", t) + d;
    var a := Key("AND", "cl.channel", c) + b;
    AfterOf(LedgerOfProfiles(), a);
    KeyOf("AND", "cl.channel", c, b);
    KeyOf("AND", "cl.topic", t, d);
    AfterOf(NewestFirst(), e);
    AfterOf([Mark(')'), Word("latest")], f);
    KeyOf("WHERE", "latest.state", st, g);
    AfterOf([Mark(')')], rest);
  }

  lemma ReadScoreOf(m: nat, n: nat, op: string, v: nat, rest: seq<Lexeme>)
    requires ScoreOperator(op)
    ensures ReadScore(ScoresOfScope() + (Key("AND", "scoring_model_id", m) + (Key("AND", "score_name", n) +
              ([Word("AND"), Word("value")] + ([Mark(Sign(op)), Placeholder(v)] + ([Mark(')')] + rest)))))) ==
            Parsed(SqlScore(m, n, op, v), rest)
  {
    hide ScoresOfScope, Key, After, ReadKey;
    var g := [Mark(')')] + rest;
    var e := [Mark(Sign(op)), Placeholder(v)] + g;
    var d := [Word("AND"), Word("value")] + e;
    var b := Key("AND", "score_name", n) + d;
    var a := Key("AND", "scoring_model_id", m) + b;
    AfterOf(ScoresOfScope(), a);
    KeyOf("AND", "scoring_model_id", m, b);
    KeyOf("AND", "score_name", n, d);
    AfterOf([Word("AND"), Word("value")], e);
    assert e[1..] == [Placeholder(v)] + g && ([Placeholder(v)] + g)[1..] == g;
    assert ReadSign(e) == Parsed(op, [Placeholder(v)] + g);
    assert ReadNumber([Placeholder(v)] + g) == Parsed(v, g);
    AfterOf([Mark(')')], rest);
  }

  lemma ReadColumnOf(column: string, field: string, rest: seq<Lexeme>)
    requires IsWord(column)
    ensures ReadColumn(column, Lexemes(Column(column, field)) + rest) == Parsed(field, rest)
  {
    AfterOf([Word(column), Mark('-'), Mark('>'), Mark('>')], [Quote(field)] + rest);
    assert Lexemes(Column(column, field)) + rest ==
           [Word(column), Mark('-'), Mark('>'), Mark('>')] + ([Quote(field)] + rest);
    assert ([Quote(field)] + rest)[1..] == rest;
  }

  lemma ContainsLexemes(p: nat)
    ensures Lexemes(Contains(p)) ==
            [Word("LIKE"), Quote("%"), Mark('|'), Mark('|'), Placeholder(p), Mark('|'), Mark('|'), Quote("%")]
  {}

  lemma ReadContainsOf(field: string, p: nat, rest: seq<Lexeme>)
    ensures ReadText(field, Lexemes(Contains(p)) + rest) == Parsed(Test(field, "contains", p), rest)
  {
    hide Contains, After;
    var open, close := [Quote("%"), Mark('|'), Mark('|')], [Mark('|'), Mark('|'), Quote("%")];
    var b := [Placeholder(p)] + (close + rest);
    var like := [Word("LIKE")] + (open + b);
    ContainsLexemes(p);
    assert Lexemes(Contains(p)) + rest == like;
    assert like[1..] == open + b && b[1..] == close + rest;
    AfterOf(open, b);
    AfterOf(close, rest);
  }

  lemma InLexemes(p: nat)
    ensures Lexemes(In(p)) == [Mark('='), Word("ANY"), Mark('('), Placeholder(p), Mark(')')]
  {}

  lemma ReadInOf(field: string, p: nat, rest: seq<Lexeme>)
    ensures ReadText(field, Lexemes(In(p)) + rest) == Parsed(Test(field, "in", p), rest)
  {
    hide In, After;
    var c := [Mark(')')] + rest;
    var b := [Placeholder(p)] + c;
    var a := [Mark('(')] + b;
    var word := [Word("ANY")] + a;
    InLexemes(p);
    assert Lexemes(In(p)) + rest == [Mark('=')] + word;
    AfterOf([Mark('=')], word);
    assert word[1..] == a && b[1..] == c;
    AfterOf([Mark('(')], b);
    AfterOf([Mark(')')], rest);
  }

  lemma ReadEqualsOf(field: string, p: nat, rest: seq<Lexeme>)
    ensures ReadText(field, [Mark('='), Placeholder(p)] + rest) == Parsed(Test(field, "equals", p), rest)
  {
    assert [Mark('='), Placeholder(p)] + rest == [Mark('=')] + ([Placeholder(p)] + rest);
    AfterOf([Mark('=')], [Placeholder(p)] + rest);
    assert ([Placeholder(p)] + rest)[1..] == rest;
  }

  lemma NumericLexemes()
    ensures Lexemes(Numeric()) == CastEnd()
  {}

  lemma CastSpread(column: seq<Token>, sign: char, p: nat, rest: seq<Lexeme>)
    requires IsMark(sign)
    ensures Lexemes(Cast(column, sign, p)) + rest ==
            [Mark('(')] + (Lexemes(column) + (CastEnd() +
              ([Mark(sign)] + ([Mark('(')] + ([Placeholder(p)] + (CastEnd() + rest))))))
  {
    hide Numeric, CastEnd;
    NumericLexemes();
  }

  lemma ReadCastOf(column: string, field: string, op: string, p: nat, rest: seq<Lexeme>)
    requires IsWord(column) && op in {"greater_than", "less_than"}
    ensures ReadCast(column, Lexemes(Cast(Column(column, field), Sign(op), p)) + rest) ==
            Parsed(Test(field, op, p), rest)
  {
    hide Column, CastEnd, After, ReadColumn;
    var f := CastEnd() + rest;
    var e := [Placeholder(p)] + f;
    var d := [Mark('(')] + e;
    var c := [Mark(Sign(op))] + d;
    var b := CastEnd() + c;
    CastSpread(Column(column, field), Sign(op), p, rest);
    AfterOf([Mark('(')], Lexemes(Column(column, field)) + b);
    ReadColumnOf(column, field, b);
    AfterOf(CastEnd(), c);
    assert c[1..] == d && ReadOrder(c) == Parsed(op, d);
    AfterOf([Mark('(')], e);
    assert e[1..] == f && ReadNumber(e) == Parsed(p, f);
    AfterOf(CastEnd(), rest);
  }

  lemma ReadTestOf(column: string, field: string, op: string, p: nat, rest: seq<Lexeme>)
    requires IsWord(column) && AttributeOperator(op)
    ensures ReadTest(column, Lexemes(Comparison(Column(column, field), op, p)) + rest) ==
            Parsed(Test(field, op, p), rest)
  {
    hide ReadColumn, ReadText, ReadCast, Contains, In, IsWord;
    var head := Column(column, field);
    var tail := if op == "contains" then Contains(p) else if op == "in" then In(p) else [Led(EQUALS), Dollar(p)];
    if op in {"greater_than", "less_than"} {
      ReadCastOf(column, field, op, p, rest);
    } else {
      ReadContainsOf(field, p, rest);
      ReadInOf(field, p, rest);
      ReadEqualsOf(field, p, rest);
      assert op == "equals" ==> Lexemes(tail) == [Mark('='), Placeholder(p)];
      LexemesConcat(head, tail);
      ReadColumnOf(column, field, Lexemes(tail) + rest);
      assert Lexemes(head) + Lexemes(tail) + rest == Lexemes(head) + (Lexemes(tail) + rest);
    }
  }

  lemma ReadConsentMembership(c: nat, t: nat, st: nat, rest: seq<Lexeme>)
    ensures ReadPredicate(Lexemes(ConsentTokens(c, t, st)) + rest) == Parsed(SqlConsent(c, t, st), rest)
  {
    hide ConsentSource, ConsentKey, ConsentOrder, ConsentState, NewestFirst, Key, ReadConsent, ReadScore, ReadCompany;
    var g := [Mark(')')] + rest;
    var e := [Mark(')'), Word("latest")] + (Key("WHERE", "latest.state", st) + g);
    var a := Key("AND", "cl.channel", c) + (Key("AND", "cl.topic", t) + (NewestFirst() + e));
    var x := LedgerOfProfiles() + a;
    ConsentSpread(c, t, st, rest);
    assert x == [Word("SELECT"), Word("latest.profile_id")] + x[2..];
    AfterOf([Word("SELECT"), Word("latest.profile_id")], x[2..]);
    AfterOf([Word("id"), Word("IN"), Mark('(')], x);
    ReadConsentOf(c, t, st, rest);
  }

  lemma ConsentSpread(c: nat, t: nat, st: nat, rest: seq<Lexeme>)
    ensures Lexemes(ConsentTokens(c, t, st)) + rest ==
            [Word("id"), Word("IN"), Mark('(')] + (LedgerOfProfiles() +
              (Key("AND", "cl.channel", c) + (Key("AND", "cl.topic", t) + (NewestFirst() +
                ([Mark(')'), Word("latest")] + (Key("WHERE", "latest.state", st) + ([Mark(')')] + rest)))))))
  {
    hide ConsentSource, ConsentKey, ConsentOrder, ConsentState, NewestFirst, Key, LedgerOfProfiles;
    ConsentSourceLexemes();
    ConsentKeyLexemes(c, t);
    ConsentOrderLexemes();
    ConsentStateLexemes(st);
    LexemesConcat(ConsentSource(), ConsentKey(c, t) + (ConsentOrder() + ConsentState(st)));
    LexemesConcat(ConsentKey(c, t), ConsentOrder() + ConsentState(st));
    LexemesConcat(ConsentOrder(), ConsentState(st));
  }

  lemma ScoreSpread(m: nat, n: nat, op: string, v: nat, rest: seq<Lexeme>)
    ensures Lexemes(ScoreTokens(m, n, op, v)) + rest ==
            [Word("id"), Word("IN"), Mark('(')] + (ScoresOfScope() +
              (Key("AND", "scoring_model_id", m) + (Key("AND", "score_name", n) +
                ([Word("AND"), Word("value")] + ([Mark(Sign(op)), Placeholder(v)] + ([Mark(')')] + rest))))))
  {
    hide ScoreSource, ScoreKey, ScoreValue, ScoresOfScope, Key, Sign;
    ScoreSourceLexemes();
    ScoreKeyLexemes(m, n);
    ScoreValueLexemes(op, v);
    LexemesConcat(ScoreSource(), ScoreKey(m, n) + ScoreValue(Sign(op), v));
    LexemesConcat(ScoreKey(m, n), ScoreValue(Sign(op), v));
  }

  lemma ReadScoreMembership(m: nat, n: nat, op: string, v: nat, rest: seq<Lexeme>)
    requires ScoreOperator(op)
    ensures ReadPredicate(Lexemes(ScoreTokens(m, n, op, v)) + rest) == Parsed(SqlScore(m, n, op, v), rest)
  {
    hide ScoreSource, ScoreKey, ScoreValue, Key, Sign, ReadConsent, ReadScore, ReadCompany;
    var x := ScoresOfScope() + (Key("AND", "scoring_model_id", m) + (Key("AND", "score_name", n) +
               ([Word("AND"), Word("value")] + ([Mark(Sign(op)), Placeholder(v)] + ([Mark(')')] + rest)))));
    ScoreSpread(m, n, op, v, rest);
    AfterOf([Word("id"), Word("IN"), Mark('(')], x);
    assert x[1] == Word("profile_id");
    ReadScoreOf(m, n, op, v, rest);
  }

  lemma CompanySpread(field: string, op: string, p: nat, rest: seq<Lexeme>)
    ensures Lexemes(CompanyTokens(field, op, p)) + rest ==
            [Word("id"), Word("IN"), Mark('(')] + ((MembersOfCompanies() + CompaniesOfScope()) +
              (Lexemes(Comparison(CompanyColumn(field), op, p)) + ([Mark(')')] + rest)))
  {
    hide CompanySource, MembersOfCompanies, CompaniesOfScope, CompanyColumn, Comparison;
    CompanySourceLexemes();
    var test := Comparison(CompanyColumn(field), op, p);
    LexemesConcat(CompanySource() + test, [M(')')]);
    LexemesConcat(CompanySource(), test);
    assert Lexemes([M(')')]) == [Mark(')')];
  }

  lemma ReadCompanyMembership(field: string, op: string, p: nat, rest: seq<Lexeme>)
    requires CompanyOperator(op)
    ensures ReadPredicate(Lexemes(CompanyTokens(field, op, p)) + rest) == Parsed(SqlCompany(field, op, p), rest)
  {
    hide CompanyTokens, CompaniesOfScope, Comparison, ReadConsent, ReadScore, ReadTest;
    var test := Lexemes(Comparison(CompanyColumn(field), op, p)) + ([Mark(')')] + rest);
    var x := MembersOfCompanies() + CompaniesOfScope() + test;
    CompanySpread(field, op, p, rest);
    AfterOf([Word("id"), Word("IN"), Mark('(')], x);
    assert x[0] == Word("SELECT") && x[1] == Word("m.profile_id");
    assert x == [Word("SELECT"), Word("m.profile_id")] + x[2..];
    AfterOf([Word("SELECT"), Word("m.profile_id")], x[2..]);
    AfterOf(MembersOfCompanies() + CompaniesOfScope(), test);
    ReadTestOf("c.attributes", field, op, p, [Mark(')')] + rest);
    AfterOf([Mark(')')], rest);
  }

  // ---------------------------------------------------------------------------
  // Reading a whole condition

  /** Groups are not empty and operators are among the supported ones. */
  ghost predicate Regular(s: Sql)
    decreases s, 1
  {
    match s
    case SqlAnd(parts) => parts != [] && RegularAll(parts)
    case SqlOr(parts) => parts != [] && RegularAll(parts)
    case SqlNot(part) => Regular(part)
    case SqlAttribute(_, op, _) => AttributeOperator(op)
    case SqlConsent(_, _, _) => true
    case SqlScore(_, _, op, _) => ScoreOperator(op)
    case SqlCompany(_, op, _) => CompanyOperator(op)
  }

  ghost predicate RegularAll(parts: seq<Sql>)
    decreases parts, 0
  {
    parts == [] || (Regular(parts[0]) && RegularAll(parts[1..]))
  }

  /** The expression with every group of one condition replaced by the condition: the text does not tell
      whether such a group was one of And or of Or. */
  function Flat(s: Sql): Sql
    decreases s, 1
  {
    match s
    case SqlAnd(parts) => if |parts| == 1 then Flat(parts[0]) else SqlAnd(FlatAll(parts))
    case SqlOr(parts) => if |parts| == 1 then Flat(parts[0]) else SqlOr(FlatAll(parts))
    case SqlNot(part) => SqlNot(Flat(part))
    case _ => s
  }

  function FlatAll(parts: seq<Sql>): (r: seq<Sql>)
    ensures |r| == |parts|
    decreases parts, 0
  {
    if parts == [] then [] else [Flat(parts[0])] + FlatAll(parts[1..])
  }

  /** No cast of a column begins here. */
  ghost predicate NoCast(ls: seq<Lexeme>) {
    var column := ReadColumn("attributes", ls);
    !(column.Parsed? && Next(Mark(')'), column.rest))
  }

  lemma NoColumn(ls: seq<Lexeme>)
    requires ls != [] && ls[0] != Word("attributes")
    ensures NoCast(ls)
  {}

  lemma ComparisonIsNoCast(field: string, op: string, p: nat, rest: seq<Lexeme>)
    ensures Comparison(ProfileColumn(field), op, p) != []
    ensures NoCast(Lexemes(Comparison(ProfileColumn(field), op, p)) + rest)
  {
    hide ReadColumn;
    var head := ProfileColumn(field);
    if op in {"greater_than", "less_than"} {
      assert Lexemes(Comparison(head, op, p))[0] == Mark('(');
      assert Word("attributes") != Mark('(');
      NoColumn(Lexemes(Comparison(head, op, p)) + rest);
    } else {
      var tail := if op == "contains" then Contains(p) else if op == "in" then In(p) else [Led(EQUALS), Dollar(p)];
      LexemesConcat(head, tail);
      ReadColumnOf("attributes", field, Lexemes(tail) + rest);
      assert Lexemes(head) + Lexemes(tail) + rest == Lexemes(head) + (Lexemes(tail) + rest);
    }
  }

  lemma NotOpenLexemes()
    ensures Lexemes(NotOpen()) == [Word("NOT"), Mark('(')]
  {}

  lemma MembershipIsNoCast(query: seq<Lexeme>)
    ensures NoCast([Word("id"), Word("IN"), Mark('(')] + query)
  {
    NoColumn([Word("id"), Word("IN"), Mark('(')] + query);
  }

  lemma LeafIsNoCast(s: Sql, rest: seq<Lexeme>)
    requires s.SqlConsent? || s.SqlScore? || s.SqlCompany?
    ensures Tokens(s) != [] && NoCast(Lexemes(Tokens(s)) + rest)
  {
    hide NoCast, ConsentTokens, ScoreTokens, CompanyTokens, Lexemes;
    var ls := Lexemes(Tokens(s)) + rest;
    match s
    case SqlConsent(c, t, st) => ConsentSpread(c, t, st, rest); MembershipIsNoCast(ls[3..]);
    case SqlScore(m, n, op, v) => ScoreSpread(m, n, op, v, rest); MembershipIsNoCast(ls[3..]);
    case SqlCompany(field, op, p) => CompanySpread(field, op, p, rest); MembershipIsNoCast(ls[3..]);
    assert ls == [Word("id"), Word("IN"), Mark('(')] + ls[3..];
  }

  lemma GroupSpread(ts: seq<Token>, rest: seq<Lexeme>)
    ensures Lexemes([M('(')] + ts + [M(')')]) + rest == [Mark('(')] + (Lexemes(ts) + ([Mark(')')] + rest))
  {}

  lemma NotSpread(ts: seq<Token>, rest: seq<Lexeme>)
    ensures Lexemes(NotOpen() + ts + [M(')')]) + rest ==
            [Word("NOT")] + ([Mark('(')] + (Lexemes(ts) + ([Mark(')')] + rest)))
  {
    hide NotOpen;
    NotOpenLexemes();
    LexemesConcat(NotOpen() + ts, [M(')')]);
    LexemesConcat(NotOpen(), ts);
    assert Lexemes([M(')')]) == [Mark(')')];
  }

  /** The text of a condition begins with no cast. */
  lemma ConditionIsNoCast(s: Sql, rest: seq<Lexeme>)
    ensures Tokens(s) != [] && NoCast(Lexemes(Tokens(s)) + rest)
  {
    hide NoCast, ConsentTokens, ScoreTokens, CompanyTokens, Comparison, Lexemes;
    match s
    case SqlAttribute(field, op, p) => ComparisonIsNoCast(field, op, p, rest);
    case SqlAnd(parts) =>
      GroupSpread(Joined(parts, AndBetween()), rest);
      NoColumn([Mark('(')] + (Lexemes(Joined(parts, AndBetween())) + ([Mark(')')] + rest)));
    case SqlOr(parts) =>
      GroupSpread(Joined(parts, OrBetween()), rest);
      NoColumn([Mark('(')] + (Lexemes(Joined(parts, OrBetween())) + ([Mark(')')] + rest)));
    case SqlNot(part) =>
      NotSpread(Tokens(part), rest);
      NoColumn([Word("NOT")] + ([Mark('(')] + (Lexemes(Tokens(part)) + ([Mark(')')] + rest))));
    case SqlConsent(c, t, st) => LeafIsNoCast(s, rest);
    case SqlScore(m, n, op, v) => LeafIsNoCast(s, rest);
    case SqlCompany(field, op, p) => LeafIsNoCast(s, rest);
  }

  ghost predicate Ends(ls: seq<Lexeme>) {
    ls == [] || ls[0] == Mark(')')
  }

  /** From the condition to the parentheses around it. */
  lemma ReadParenthesised(ls: seq<Lexeme>, s: Sql, rest: seq<Lexeme>)
    requires NoCast(ls) && ReadOr(ls) == Parsed(s, [Mark(')')] + rest)
    ensures ReadNot([Mark('(')] + ls) == Parsed(s, rest)
  {
    hide ReadOr, ReadPredicate;
    var group := [Mark('(')] + ls;
    assert group[1..] == ls;
    AfterOf([Mark(')')], rest);
    assert ReadPrimary(group) == Parsed(s, rest);
  }

  lemma ReadOnly(s: Sql, ls: seq<Lexeme>, rest: seq<Lexeme>)
    requires Ends(rest) && ReadNot(ls) == Parsed(s, rest)
    ensures ReadConjuncts(ls) == Parsed([s], rest) && ReadDisjuncts(ls) == Parsed([s], rest)
    ensures ReadOr(ls) == Parsed(s, rest)
  {
    hide ReadNot;
  }

  lemma SeparatedSpread(a: seq<Token>, separator: Token, b: seq<Token>, rest: seq<Lexeme>)
    ensures Lexemes(a + [separator] + b) + rest == Lexemes(a) + ([separator.lexeme] + (Lexemes(b) + rest))
  {}

  lemma JoinedSpread(parts: seq<Sql>, separator: Token, rest: seq<Lexeme>)
    requires |parts| > 1
    ensures Lexemes(Joined(parts, separator)) + rest ==
            Lexemes(Tokens(parts[0])) + ([separator.lexeme] + (Lexemes(Joined(parts[1..], separator)) + rest))
  {
    hide Tokens, Lexemes;
    SeparatedSpread(Tokens(parts[0]), separator, Joined(parts[1..], separator), rest);
  }

  lemma {:induction false} JoinedIsNoCast(parts: seq<Sql>, separator: Token, rest: seq<Lexeme>)
    requires parts != []
    ensures NoCast(Lexemes(Joined(parts, separator)) + rest)
  {
    if |parts| > 1 {
      JoinedSpread(parts, separator, rest);
      ConditionIsNoCast(parts[0], [separator.lexeme] + (Lexemes(Joined(parts[1..], separator)) + rest));
    } else {
      ConditionIsNoCast(parts[0], rest);
    }
  }

  lemma PredicateReads(ls: seq<Lexeme>)
    requires ls != [] && ls[0] != Word("NOT") && (ls[0] == Mark('(') ==> CastAhead(ls))
    ensures ReadNot(ls) == ReadPredicate(ls)
  {
    hide ReadPredicate, CastAhead;
    assert ReadPrimary(ls) == ReadPredicate(ls);
  }

  lemma CastIsAhead(field: string, sign: char, p: nat, rest: seq<Lexeme>)
    requires IsMark(sign)
    ensures var ls := Lexemes(Cast(Column("attributes", field), sign, p)) + rest;
            ls != [] && ls[0] == Mark('(') && CastAhead(ls)
  {
    hide Column, ReadColumn, Cast;
    var column := Column("attributes", field);
    var b := CastEnd() + ([Mark(sign)] + ([Mark('(')] + ([Placeholder(p)] + (CastEnd() + rest))));
    CastSpread(column, sign, p, rest);
    ReadColumnOf("attributes", field, b);
    assert ([Mark('(')] + (Lexemes(column) + b))[1..] == Lexemes(column) + b;
  }

  lemma ColumnFirst(field: string, op: string, p: nat, rest: seq<Lexeme>)
    requires op !in {"greater_than", "less_than"}
    ensures var ls := Lexemes(Comparison(ProfileColumn(field), op, p)) + rest;
            ls != [] && ls[0] == Word("attributes")
  {
    hide Contains, In;
    assert ProfileColumn(field)[0].lexeme == Word("attributes");
  }

  lemma AttributeReads(field: string, op: string, p: nat, rest: seq<Lexeme>)
    requires AttributeOperator(op)
    ensures ReadNot(Lexemes(Comparison(ProfileColumn(field), op, p)) + rest) == Parsed(SqlAttribute(field, op, p), rest)
  {
    hide ReadNot, ReadTest, Lexemes, CastAhead, Column, Cast;
    var ls := Lexemes(Comparison(ProfileColumn(field), op, p)) + rest;
    if op in {"greater_than", "less_than"} {
      CastIsAhead(field, Sign(op), p, rest);
      assert Comparison(ProfileColumn(field), op, p) == Cast(Column("attributes", field), Sign(op), p);
    } else {
      ColumnFirst(field, op, p, rest);
    }
    assert ls != [] && ls[0] != Word("NOT") && ls[0] != Word("id");
    PredicateReads(ls);
    ReadTestOf("attributes", field, op, p, rest);
  }

  lemma MembershipReads(s: Sql, rest: seq<Lexeme>)
    requires Regular(s) && (s.SqlConsent? || s.SqlScore? || s.SqlCompany?)
    ensures ReadNot(Lexemes(Tokens(s)) + rest) == Parsed(s, rest)
  {
    hide ReadNot, ReadPredicate, Lexemes, ConsentTokens, ScoreTokens, CompanyTokens;
    match s
    case SqlConsent(c, t, st) =>
      ConsentSpread(c, t, st, rest);
      ReadConsentMembership(c, t, st, rest);
      PredicateReads(Lexemes(ConsentTokens(c, t, st)) + rest);
    case SqlScore(m, n, op, v) =>
      ScoreSpread(m, n, op, v, rest);
      ReadScoreMembership(m, n, op, v, rest);
      PredicateReads(Lexemes(ScoreTokens(m, n, op, v)) + rest);
    case SqlCompany(field, op, p) =>
      CompanySpread(field, op, p, rest);
      ReadCompanyMembership(field, op, p, rest);
      PredicateReads(Lexemes(CompanyTokens(field, op, p)) + rest);
  }

  /** In front of whatever follows, the condition is read as it stands. */
  lemma {:induction false} ConditionReads(s: Sql, rest: seq<Lexeme>)
    requires Regular(s)
    ensures ReadNot(Lexemes(Tokens(s)) + rest) == Parsed(Flat(s), rest)
    decreases s, 2
  {
    hide NoCast, ReadNot, ReadOr, ReadConjuncts, ReadDisjuncts, Lexemes;
    match s
    case SqlAnd(parts) =>
      GroupSpread(Joined(parts, AndBetween()), rest);
      JoinedIsNoCast(parts, AndBetween(), [Mark(')')] + rest);
      AndReads(parts, [Mark(')')] + rest);
      ReadParenthesised(Lexemes(Joined(parts, AndBetween())) + ([Mark(')')] + rest), Flat(s), rest);
    case SqlOr(parts) =>
      GroupSpread(Joined(parts, OrBetween()), rest);
      JoinedIsNoCast(parts, OrBetween(), [Mark(')')] + rest);
      OrReads(parts, [Mark(')')] + rest);
      ReadParenthesised(Lexemes(Joined(parts, OrBetween())) + ([Mark(')')] + rest), Flat(s), rest);
    case SqlNot(part) => NotReads(part, rest);
    case SqlAttribute(field, op, p) => AttributeReads(field, op, p, rest);
    case _ => MembershipReads(s, rest);
  }

  lemma {:induction false} NotReads(part: Sql, rest: seq<Lexeme>)
    requires Regular(part)
    ensures ReadNot(Lexemes(Tokens(SqlNot(part))) + rest) == Parsed(SqlNot(Flat(part)), rest)
    decreases part, 3
  {
    hide NoCast, ReadOr, Lexemes;
    var close := [Mark(')')] + rest;
    var ls := Lexemes(Tokens(part)) + close;
    NotSpread(Tokens(part), rest);
    ConditionIsNoCast(part, close);
    ConditionReads(part, close);
    ReadOnly(Flat(part), ls, close);
    ReadParenthesised(ls, Flat(part), rest);
    assert ([Word("NOT")] + ([Mark('(')] + ls))[1..] == [Mark('(')] + ls;
  }

  lemma ReadAndOf(first: Sql, ls: seq<Lexeme>, others: seq<Sql>, tail: seq<Lexeme>, rest: seq<Lexeme>)
    requires ReadNot(ls) == Parsed(first, [Word("AND")] + tail) && ReadConjuncts(tail) == Parsed(others, rest)
    ensures ReadConjuncts(ls) == Parsed([first] + others, rest)
  {
    hide ReadNot;
    assert ([Word("AND")] + tail)[1..] == tail;
  }

  lemma ReadOrOf(first: Sql, ls: seq<Lexeme>, others: seq<Sql>, tail: seq<Lexeme>, rest: seq<Lexeme>)
    requires ReadNot(ls) == Parsed(first, [Word("OR")] + tail) && ReadDisjuncts(tail) == Parsed(others, rest)
    ensures ReadDisjuncts(ls) == Parsed([first] + others, rest)
  {
    hide ReadNot;
    assert ([Word("OR")] + tail)[1..] == tail;
    assert ReadConjuncts(ls) == Parsed([first], [Word("OR")] + tail);
  }

  lemma {:induction false} ConjunctsRead(parts: seq<Sql>, rest: seq<Lexeme>)
    requires parts != [] && RegularAll(parts) && Ends(rest)
    ensures ReadConjuncts(Lexemes(Joined(parts, AndBetween())) + rest) == Parsed(FlatAll(parts), rest)
    decreases parts, 0
  {
    hide ReadNot, ReadConjuncts, Lexemes, Tokens, Ends;
    if |parts| > 1 {
      var tail := Lexemes(Joined(parts[1..], AndBetween())) + rest;
      JoinedSpread(parts, AndBetween(), rest);
      ConditionReads(parts[0], [Word("AND")] + tail);
      ConjunctsRead(parts[1..], rest);
      ReadAndOf(Flat(parts[0]), Lexemes(Joined(parts, AndBetween())) + rest, FlatAll(parts[1..]), tail, rest);
    } else {
      ConditionReads(parts[0], rest);
      ReadOnly(Flat(parts[0]), Lexemes(Tokens(parts[0])) + rest, rest);
      assert FlatAll(parts) == [Flat(parts[0])];
    }
  }

  lemma {:induction false} DisjunctsRead(parts: seq<Sql>, rest: seq<Lexeme>)
    requires parts != [] && RegularAll(parts) && Ends(rest)
    ensures ReadDisjuncts(Lexemes(Joined(parts, OrBetween())) + rest) == Parsed(FlatAll(parts), rest)
    decreases parts, 0
  {
    hide ReadNot, ReadDisjuncts, Lexemes, Tokens, Ends;
    if |parts| > 1 {
      var tail := Lexemes(Joined(parts[1..], OrBetween())) + rest;
      JoinedSpread(parts, OrBetween(), rest);
      ConditionReads(parts[0], [Word("OR")] + tail);
      DisjunctsRead(parts[1..], rest);
      ReadOrOf(Flat(parts[0]), Lexemes(Joined(parts, OrBetween())) + rest, FlatAll(parts[1..]), tail, rest);
    } else {
      ConditionReads(parts[0], rest);
      ReadOnly(Flat(parts[0]), Lexemes(Tokens(parts[0])) + rest, rest);
      assert FlatAll(parts) == [Flat(parts[0])];
    }
  }

  lemma {:induction false} AndReads(parts: seq<Sql>, rest: seq<Lexeme>)
    requires parts != [] && RegularAll(parts) && Ends(rest)
    ensures ReadOr(Lexemes(Joined(parts, AndBetween())) + rest) == Parsed(Flat(SqlAnd(parts)), rest)
    decreases parts, 1
  {
    hide ReadConjuncts, Lexemes, Joined;
    ConjunctsRead(parts, rest);
    var ls := Lexemes(Joined(parts, AndBetween())) + rest;
    assert FlatAll(parts)[0] == Flat(parts[0]);
    assert ReadAnd(ls) == Parsed(Flat(SqlAnd(parts)), rest);
  }

  lemma {:induction false} OrReads(parts: seq<Sql>, rest: seq<Lexeme>)
    requires parts != [] && RegularAll(parts) && Ends(rest)
    ensures ReadOr(Lexemes(Joined(parts, OrBetween())) + rest) == Parsed(Flat(SqlOr(parts)), rest)
    decreases parts, 1
  {
    hide ReadDisjuncts, Lexemes, Joined;
    DisjunctsRead(parts, rest);
    assert FlatAll(parts)[0] == Flat(parts[0]);
  }

  // ---------------------------------------------------------------------------
  // The lexer on the compiler's text

  lemma {:induction false} LexBlanks(blanks: string, s: string)
    requires Blank(blanks)
    ensures Lex(blanks + s) == Lex(s)
  {
    if blanks == "" {
      assert blanks + s == s;
    } else {
      assert (blanks + s)[1..] == blanks[1..] + s;
      LexBlanks(blanks[1..], s);
    }
  }

  lemma {:induction false} WordRunOf(word: string, s: string)
    requires (forall i :: 0 <= i < |word| ==> WordChar(word[i])) && (s == "" || !WordChar(s[0]))
    ensures WordRun(word + s) == |word|
  {
    if word == "" {
      assert word + s == s;
    } else {
      assert (word + s)[1..] == word[1..] + s;
      WordRunOf(word[1..], s);
    }
  }

  lemma {:induction false} QuoteRunOf(quoted: string, s: string)
    requires '\'' !in quoted
    ensures QuoteRun(quoted + ("'" + s)) == |quoted|
  {
    if quoted == "" {
      assert quoted + ("'" + s) == "'" + s;
    } else {
      assert (quoted + ("'" + s))[1..] == quoted[1..] + ("'" + s);
      QuoteRunOf(quoted[1..], s);
    }
  }

  /** The text after the lexeme does not continue it. */
  ghost predicate Follows(l: Lexeme, s: string) {
    s == "" || match l
      case Word(_) => !WordChar(s[0])
      case Placeholder(_) => !IsDigit(s[0])
      case _ => true
  }

  lemma LexWord(word: string, s: string)
    requires IsWord(word) && Follows(Word(word), s)
    ensures Lex(word + s) == [Word(word)] + Lex(s)
  {
    var t := word + s;
    assert t[1..] == word[1..] + s;
    WordRunOf(word[1..], s);
    assert t[..|word|] == word && t[|word|..] == s;
    assert WordChar(t[0]);
  }

  lemma LexMark(c: char, s: string)
    requires IsMark(c)
    ensures Lex([c] + s) == [Mark(c)] + Lex(s)
  {
    assert ([c] + s)[1..] == s;
  }

  lemma LexQuote(quoted: string, s: string)
    requires Quotable(quoted)
    ensures Lex("'" + (quoted + ("'" + s))) == [Quote(quoted)] + Lex(s)
  {
    var t := "'" + (quoted + ("'" + s));
    assert t[1..] == quoted + ("'" + s);
    QuoteRunOf(quoted, s);
    assert t[1..][..|quoted|] == quoted && t[1..][|quoted| + 1..] == s;
  }

  lemma LexPlaceholder(n: nat, s: string)
    requires Follows(Placeholder(n), s)
    ensures Lex("$" + (Itoa(n) + s)) == [Placeholder(n)] + Lex(s)
  {
    var t := "$" + (Itoa(n) + s);
    assert t[1..] == Itoa(n) + s;
    RunOfDigits(Itoa(n), s);
    assert t[1..][..|Itoa(n)|] == Itoa(n) && t[1..][|Itoa(n)|..] == s;
    DigitsRoundTrip(n);
  }

  lemma LexLexeme(l: Lexeme, s: string)
    requires GoodLexeme(l) && Follows(l, s)
    ensures Lex(LexemeText(l) + s) == [l] + Lex(s)
  {
    hide Lex;
    match l
    case Word(w) => LexWord(w, s);
    case Mark(c) => LexMark(c, s);
    case Quote(q) =>
      LexQuote(q, s);
      assert LexemeText(l) + s == "'" + (q + ("'" + s));
    case Placeholder(n) =>
      LexPlaceholder(n, s);
      assert LexemeText(l) + s == "$" + (Itoa(n) + s);
  }

  /** What follows a token in a text does not continue its lexeme. */
  lemma FollowsOf(t: Token, ts: seq<Token>)
    requires Apart([t] + ts)
    ensures Follows(t.lexeme, t.after + Render(ts))
  {
    assert Good(([t] + ts)[0]);
    if t.after == "" && ts != [] {
      var next := ts[0];
      assert ([t] + ts)[1] == next && !Glued(([t] + ts)[0], ([t] + ts)[1]) && Good(next);
      Spread(next, Render(ts[1..]));
      assert t.after + Render(ts) == next.before + (LexemeText(next.lexeme) + (next.after + Render(ts[1..])));
      assert LexemeText(next.lexeme) != "";
    }
  }

  /** The lexer recovers the lexemes of the text. */
  lemma {:induction false} LexRender(ts: seq<Token>)
    requires Apart(ts)
    ensures Lex(Render(ts)) == Lexemes(ts)
  {
    if ts != [] {
      hide Lex, TokenText, LexemeText, Good, Glued, Follows;
      var t, rest := ts[0], ts[1..];
      ApartTail(ts);
      assert Good(t) && Apart([t] + rest);
      LexRender(rest);
      FollowsOf(t, rest);
      LexToken(t, Render(rest));
      LexemesConcat([t], rest);
      assert Lexemes([t]) == [t.lexeme];
    }
  }

  lemma LexToken(t: Token, s: string)
    requires Good(t) && Follows(t.lexeme, t.after + s)
    ensures Lex(TokenText(t) + s) == [t.lexeme] + Lex(s)
  {
    hide Lex, LexemeText, Follows, Blank, GoodLexeme;
    Spread(t, s);
    LexBlanks(t.before, LexemeText(t.lexeme) + (t.after + s));
    LexLexeme(t.lexeme, t.after + s);
    LexBlanks(t.after, s);
  }

  // ---------------------------------------------------------------------------
  // Compiled conditions are regular

  lemma {:induction false} RegularConcat(a: seq<Sql>, b: seq<Sql>)
    requires RegularAll(a) && RegularAll(b)
    ensures RegularAll(a + b)
  {
    if a == [] { assert a + b == b; } else {
      assert (a + b)[1..] == a[1..] + b;
      RegularConcat(a[1..], b);
    }
  }

  lemma {:induction false} CompiledIsRegular(node: Node, args: seq<Value>)
    requires Compile(node, args).Compiled? && Compile(node, args).sql.Some?
    ensures Regular(Compile(node, args).sql.value)
    decreases node, 1
  {
    match node
    case And(cs) => CompiledAllIsRegular(cs, args);
    case Or(cs) => CompiledAllIsRegular(cs, args);
    case Not(c) => CompiledIsRegular(c, args);
    case _ =>
  }

  lemma {:induction false} CompiledAllIsRegular(cs: seq<Node>, args: seq<Value>)
    requires CompileAll(cs, args).CompiledAll?
    ensures RegularAll(CompileAll(cs, args).parts)
    decreases cs, 0
  {
    if cs != [] {
      var r := Compile(cs[0], args);
      CompiledAllIsRegular(cs[1..], r.args);
      if r.sql.Some? {
        CompiledIsRegular(cs[0], args);
        assert [r.sql.value][1..] == [];
        RegularConcat([r.sql.value], CompileAll(cs[1..], r.args).parts);
      } else {
        assert [] + CompileAll(cs[1..], r.args).parts == CompileAll(cs[1..], r.args).parts;
      }
    }
  }

  lemma ConditionTextReads(s: Sql)
    requires Safe(s) && Regular(s)
    ensures ReadCondition(Render(Tokens(s))) == Some(Flat(s))
  {
    hide Lex, ReadOr, ReadNot, ReadConjuncts, ReadDisjuncts, Tokens, Flat, Safe, Regular, Render, Lexemes;
    var ls := Lexemes(Tokens(s));
    TokensClean(s);
    LexRender(Tokens(s));
    ConditionReads(s, []);
    assert ls + [] == ls;
    ReadOnly(Flat(s), ls, []);
  }

  /** For every compiling audience the text reads back as the compiled expression. */
  lemma CompiledTextReads(node: Node, args: seq<Value>)
    requires Compile(node, args).Compiled? && Compile(node, args).sql.Some?
    ensures var s := Compile(node, args).sql.value;
            ReadCondition(Render(Tokens(s))) == Some(Flat(s))
  {
    CompiledIsSafe(node, args);
    CompiledIsRegular(node, args);
    ConditionTextReads(Compile(node, args).sql.value);
  }

  // ---------------------------------------------------------------------------
  // Whole queries

  ghost predicate Accepted(sql: Option<Sql>) {
    sql.Some? ==> Safe(sql.value) && Regular(sql.value)
  }

  function FlatOf(sql: Option<Sql>): Option<Sql> {
    if sql.None? then None else Some(Flat(sql.value))
  }

  lemma QueryScopeLexemes()
    ensures Lexemes(QueryScope()) == Scope()
  {}

  lemma FullHeadLexemes()
    ensures Lexemes(FullHead()) == [Word("SELECT"), Word("external_id"), Word("FROM"), Word("profiles")] +
            (Scope() + [Mark('(')])
  {
    hide QueryScope, Fragment;
    QueryScopeLexemes();
    LexemesConcat(FullSelect(), QueryScope() + [M('(')]);
    LexemesConcat(QueryScope(), [M('(')]);
  }

  lemma SingleHeadLexemes()
    ensures Lexemes(SingleHead()) == [Word("SELECT"), Word("1"), Word("FROM"), Word("profiles")] +
            (Scope() + [Word("id"), Mark('='), Placeholder(3), Word("AND"), Mark('(')])
  {
    hide QueryScope, Fragment;
    QueryScopeLexemes();
    LexemesConcat(SingleSelect(), QueryScope() + ProfileScope());
    LexemesConcat(QueryScope(), ProfileScope());
  }

  lemma ConditionClean(sql: Option<Sql>)
    requires Accepted(sql)
    ensures Fragment(Condition(sql))
  {
    hide Tokens, Safe, Regular;
    if sql.Some? { TokensClean(sql.value); }
  }

  lemma ClosingText()
    ensures Fragment([M(')')]) && Render([M(')')]) == ")" && Lexemes([M(')')]) == [Mark(')')]
  {}

  /** The text of a query lexes as its head, its condition and the closing parenthesis. */
  lemma QueryLexemes(head: seq<Token>, condition: seq<Token>)
    requires Fragment(head) && head[|head| - 1].lexeme.Mark? && Fragment(condition)
    ensures Lex(Render(head) + (Render(condition) + ")")) == Lexemes(head) + (Lexemes(condition) + [Mark(')')])
  {
    hide Lex, Apart, Lexemes, Render;
    var close := [M(')')];
    ClosingText();
    Append(condition, close);
    Append(head, condition + close);
    LexRender(head + (condition + close));
    RenderConcat(head, condition + close);
    RenderConcat(condition, close);
    LexemesConcat(head, condition + close);
    LexemesConcat(condition, close);
  }

  lemma TrueIsNoCondition()
    ensures ReadOr([Word("TRUE"), Mark(')')]).NoParse?
  {
    var ls := [Word("TRUE"), Mark(')')];
    assert ReadPredicate(ls).NoParse?;
    PredicateReads(ls);
    assert ReadConjuncts(ls).NoParse? && ReadDisjuncts(ls).NoParse?;
  }

  lemma ConditionWhere(s: Sql)
    requires Regular(s)
    ensures ReadWhere([Mark('(')] + (Lexemes(Tokens(s)) + [Mark(')')])) == Parsed(Some(Flat(s)), [])
  {
    hide ReadOr, ReadNot, ReadConjuncts, ReadDisjuncts, Tokens, Lexemes, Flat, Regular;
    var a := Lexemes(Tokens(s)) + [Mark(')')];
    ConditionReads(s, [Mark(')')]);
    ReadOnly(Flat(s), a, [Mark(')')]);
    TrueIsNoCondition();
    assert ([Mark('(')] + a)[1..] == a && [Mark('('), Word("TRUE"), Mark(')')][1..] == [Word("TRUE"), Mark(')')];
    AfterOf([Mark('(')], a);
    assert [Mark(')')] == [Mark(')')] + [];
    AfterOf([Mark(')')], []);
  }

  lemma WhereReads(sql: Option<Sql>)
    requires Accepted(sql)
    ensures ReadWhere([Mark('(')] + (Lexemes(Condition(sql)) + [Mark(')')])) == Parsed(FlatOf(sql), [])
  {
    hide Tokens, Regular, Safe, ReadOr;
    if sql.Some? {
      hide ReadWhere, Flat, Lexemes;
      ConditionWhere(sql.value);
    } else {
      assert [Mark('(')] + (Lexemes(Condition(sql)) + [Mark(')')]) == [Mark('('), Word("TRUE"), Mark(')')];
    }
  }

  lemma FullReads(sql: Option<Sql>)
    requires Accepted(sql)
    ensures ReadFull(FullText(sql)) == Parsed(FlatOf(sql), [])
  {
    hide ReadWhere, Lexemes, FullHead, Condition, Scope, Lex, Render;
    var where := [Mark('(')] + (Lexemes(Condition(sql)) + [Mark(')')]);
    var head := [Word("SELECT"), Word("external_id"), Word("FROM"), Word("profiles")] + Scope();
    ConditionClean(sql);
    QueryLexemes(FullHead(), Condition(sql));
    FullHeadLexemes();
    assert Lex(FullText(sql)) == head + where;
    AfterOf(head, where);
    WhereReads(sql);
  }

  /** Reads the query of a single profile whose condition's text is that of `sql`. */
  lemma SingleHeadReads(sql: Option<Sql>)
    requires Accepted(sql)
    ensures ReadSingle(Render(SingleHead()) + (Render(Condition(sql)) + ")")) == Parsed(FlatOf(sql), [])
  {
    hide ReadWhere, Lexemes, SingleHead, Condition, Scope, Lex, Render;
    var where := [Mark('(')] + (Lexemes(Condition(sql)) + [Mark(')')]);
    var head := [Word("SELECT"), Word("1"), Word("FROM"), Word("profiles")] + Scope();
    var profile := [Word("id"), Mark('='), Placeholder(3), Word("AND")];
    ConditionClean(sql);
    QueryLexemes(SingleHead(), Condition(sql));
    SingleHeadLexemes();
    assert Lex(Render(SingleHead()) + (Render(Condition(sql)) + ")")) == head + (profile + where);
    AfterOf(head, profile + where);
    AfterOf(profile, where);
    WhereReads(sql);
  }

  lemma {:induction false} ShiftKeepsForm(s: Sql)
    requires Safe(s) && Regular(s)
    ensures Safe(Shift(s)) && Regular(Shift(s))
    decreases s, 1
  {
    match s
    case SqlAnd(parts) => ShiftKeepsForms(parts);
    case SqlOr(parts) => ShiftKeepsForms(parts);
    case SqlNot(part) => ShiftKeepsForm(part);
    case _ =>
  }

  lemma {:induction false} ShiftKeepsForms(parts: seq<Sql>)
    requires SafeAll(parts) && RegularAll(parts)
    ensures SafeAll(ShiftAll(parts)) && RegularAll(ShiftAll(parts))
    decreases parts, 0
  {
    if parts != [] {
      ShiftKeepsForm(parts[0]);
      ShiftKeepsForms(parts[1..]);
      assert ShiftAll(parts)[1..] == ShiftAll(parts[1..]);
    }
  }

  lemma ShiftConditionText(sql: Option<Sql>)
    requires Accepted(sql)
    ensures ShiftText(Render(Condition(sql))) == Render(Condition(ShiftSql(sql))) && Accepted(ShiftSql(sql))
  {
    hide Tokens, ShiftText, Render, Safe, Regular;
    ConditionClean(sql);
    ShiftTextIsShiftTokens(Condition(sql));
    if sql.Some? {
      TokensOfShift(sql.value);
      ShiftKeepsForm(sql.value);
    } else {
      assert ShiftTokens(Condition(sql)) == Condition(sql);
    }
  }

  lemma SingleReads(sql: Option<Sql>)
    requires Accepted(sql)
    ensures ReadSingle(SingleText(sql)) == Parsed(FlatOf(ShiftSql(sql)), [])
  {
    hide ReadSingle, SingleHead, ShiftText, Render, Condition, FlatOf, ShiftSql, Accepted;
    ShiftConditionText(sql);
    SingleHeadReads(ShiftSql(sql));
  }

  /** For every compiling audience both query texts read back as the compiled expression, the single-profile
      query with its placeholders above $2 raised by one. */
  lemma QueriesRead(node: Node)
    requires Compile(node, []).Compiled?
    ensures var sql := Compile(node, []).sql;
            && ReadFull(FullText(sql)) == Parsed(FlatOf(sql), [])
            && ReadSingle(SingleText(sql)) == Parsed(FlatOf(ShiftSql(sql)), [])
  {
    var sql := Compile(node, []).sql;
    if sql.Some? {
      CompiledIsSafe(node, []);
      CompiledIsRegular(node, []);
    }
    FullReads(sql);
    SingleReads(sql);
  }

  // ---------------------------------------------------------------------------
  // What is read has the meaning of what was compiled

  lemma {:induction false} FlatKeepsMeaning(db: Database, row: Profile, params: seq<Value>, s: Sql)
    ensures Eval(db, row, params, Flat(s)) == Eval(db, row, params, s)
    decreases s, 1
  {
    match s
    case SqlAnd(parts) => FlatAllKeepsMeaning(db, row, params, parts); Alone(db, row, params, parts);
    case SqlOr(parts) => FlatAllKeepsMeaning(db, row, params, parts); Alone(db, row, params, parts);
    case SqlNot(part) => FlatKeepsMeaning(db, row, params, part);
    case _ =>
  }

  lemma Alone(db: Database, row: Profile, params: seq<Value>, parts: seq<Sql>)
    ensures |parts| == 1 ==> EvalAnd(db, row, params, parts) == Eval(db, row, params, parts[0])
    ensures |parts| == 1 ==> EvalOr(db, row, params, parts) == Eval(db, row, params, parts[0])
  {}

  lemma {:induction false} FlatAllKeepsMeaning(db: Database, row: Profile, params: seq<Value>, parts: seq<Sql>)
    ensures EvalAnd(db, row, params, FlatAll(parts)) == EvalAnd(db, row, params, parts)
    ensures EvalOr(db, row, params, FlatAll(parts)) == EvalOr(db, row, params, parts)
    ensures parts != [] ==> Eval(db, row, params, Flat(parts[0])) == Eval(db, row, params, parts[0])
    decreases parts, 0
  {
    if parts != [] {
      FlatKeepsMeaning(db, row, params, parts[0]);
      FlatAllKeepsMeaning(db, row, params, parts[1..]);
      assert FlatAll(parts)[0] == Flat(parts[0]) && FlatAll(parts)[1..] == FlatAll(parts[1..]);
    }
  }

  /** The text of the full query, read by itself, returns the row. */
  ghost predicate TextSelects(db: Database, row: Profile, params: seq<Value>, text: string) {
    var query := ReadFull(text);
    query.Parsed? && query.rest == [] && Selects(db, row, params, query.value)
  }

  ghost predicate TextFinds(db: Database, params: seq<Value>, text: string) {
    var query := ReadSingle(text);
    query.Parsed? && query.rest == [] && SingleFinds(db, params, query.value)
  }

  lemma FlatSelects(db: Database, row: Profile, params: seq<Value>, sql: Option<Sql>)
    ensures Selects(db, row, params, FlatOf(sql)) <==> Selects(db, row, params, sql)
  {
    if sql.Some? { FlatKeepsMeaning(db, row, params, sql.value); }
  }

  /** For every compiling audience, the texts select what the compiled expression selects. */
  lemma TextsKeepMeaning(db: Database, row: Profile, params: seq<Value>, node: Node)
    requires Compile(node, []).Compiled?
    ensures var sql := Compile(node, []).sql;
            && (TextSelects(db, row, params, FullText(sql)) <==> Selects(db, row, params, sql))
            && (TextFinds(db, params, SingleText(sql)) <==> SingleFinds(db, params, ShiftSql(sql)))
  {
    hide ReadFull, ReadSingle, FullText, SingleText, FlatOf, Selects;
    var sql := Compile(node, []).sql;
    QueriesRead(node);
    FlatSelects(db, row, params, sql);
    forall i | 0 <= i < |db.profiles|
      ensures Selects(db, db.profiles[i], params, FlatOf(ShiftSql(sql))) <==>
              Selects(db, db.profiles[i], params, ShiftSql(sql))
    {
      FlatSelects(db, db.profiles[i], params, ShiftSql(sql));
    }
  }
}
