/** The text of compiled conditions and the textual placeholder shift of CompileProfileSingle
    (internal/audience/compile_pg.go, internal/audience/evaluate.go). */
module AudienceText {
  import opened Common
  import opened Text
  import opened Audience

  /** What the text of a condition consists of: words, single characters, quoted text, placeholders. */
  datatype Lexeme = Word(text: string) | Mark(mark: char) | Quote(text: string) | Placeholder(number: nat)

  /** A lexeme with the blanks the compiler puts before and after it. */
  datatype Token = Token(before: string, lexeme: Lexeme, after: string)

  predicate IsBlank(c: char) {
    c in {' ', '\n', '\t'}
  }

  predicate Blank(s: string) {
    forall i :: 0 <= i < |s| ==> IsBlank(s[i])
  }

  predicate WordChar(c: char) {
    SafeChar(c) || c == '.'
  }

  predicate IsWord(s: string) {
    s != "" && forall i :: 0 <= i < |s| ==> WordChar(s[i])
  }

  predicate IsMark(c: char) {
    !WordChar(c) && !IsBlank(c) && c != '\'' && c != '$'
  }

  predicate Quotable(s: string) {
    '\'' !in s && '$' !in s
  }

  predicate GoodLexeme(l: Lexeme) {
    match l
    case Word(w) => IsWord(w)
    case Mark(c) => IsMark(c)
    case Quote(q) => Quotable(q)
    case Placeholder(_) => true
  }

  predicate Good(t: Token) {
    Blank(t.before) && GoodLexeme(t.lexeme) && Blank(t.after)
  }

  /** A word that runs into the word or number before it. */
  predicate Glued(a: Token, b: Token) {
    (a.lexeme.Word? || a.lexeme.Placeholder?) && b.lexeme.Word? && a.after == "" && b.before == ""
  }

  predicate Apart(ts: seq<Token>) {
    && (forall i :: 0 <= i < |ts| ==> Good(ts[i]))
    && (forall i :: 0 <= i < |ts| - 1 ==> !Glued(ts[i], ts[i + 1]))
  }

  predicate Fragment(ts: seq<Token>) {
    ts != [] && Apart(ts)
  }

  /** No placeholder above $2. */
  predicate Steady(ts: seq<Token>) {
    forall i :: 0 <= i < |ts| && ts[i].lexeme.Placeholder? ==> ts[i].lexeme.number <= 2
  }

  function LexemeText(l: Lexeme): string {
    match l
    case Word(w) => w
    case Mark(c) => [c]
    case Quote(q) => "'" + q + "'"
    case Placeholder(n) => "$" + Itoa(n)
  }

  function TokenText(t: Token): string {
    t.before + (LexemeText(t.lexeme) + t.after)
  }

  function Render(ts: seq<Token>): string {
    if ts == [] then "" else TokenText(ts[0]) + Render(ts[1..])
  }

  // ---------------------------------------------------------------------------
  // The compiler's text

  /** A word and the blank after it. */
  function W(word: string): (t: Token)
    requires IsWord(word)
    ensures Good(t) && t.before == "" && t.lexeme == Word(word) && t.after != ""
  {
    Token("", Word(word), " ")
  }

  function M(mark: char): (t: Token)
    requires IsMark(mark)
    ensures Good(t) && t.lexeme == Mark(mark)
  {
    Token("", Mark(mark), "")
  }

  function Dollar(n: nat): (t: Token)
    ensures Good(t) && t.lexeme == Placeholder(n)
  {
    Token("", Placeholder(n), "")
  }

  function Quoted(s: string): (t: Token)
    ensures t.lexeme == Quote(s) && (Quotable(s) ==> Good(t))
  {
    Token("", Quote(s), "")
  }

  function Led(t: Token): (r: Token)
    requires Good(t)
    ensures Good(r) && r.before != "" && r.lexeme == t.lexeme && r.after == t.after
  {
    Token(" ", t.lexeme, t.after)
  }

  function Spaced(t: Token): (r: Token)
    requires Good(t)
    ensures Good(r) && r.before == t.before && r.lexeme == t.lexeme && r.after != ""
  {
    Token(t.before, t.lexeme, " ")
  }

  function Tight(t: Token): (r: Token)
    requires Good(t)
    ensures Good(r) && r.before == t.before && r.lexeme == t.lexeme && r.after == ""
  {
    Token(t.before, t.lexeme, "")
  }

  function OnLine(indent: string, t: Token): (r: Token)
    requires Good(t) && Blank(indent)
    ensures Good(r) && r.before != "" && r.lexeme == t.lexeme && r.after == t.after
  {
    Token("\n" + indent, t.lexeme, t.after)
  }

  const EQUALS: Token := Spaced(M('='))

  function Plus(a: seq<Token>, b: seq<Token>): (ts: seq<Token>)
    requires Fragment(a) && Fragment(b) && !Glued(a[|a| - 1], b[0])
    ensures ts == a + b && Fragment(ts) && ts[0] == a[0] && ts[|ts| - 1] == b[|b| - 1]
    ensures Steady(a) && Steady(b) ==> Steady(ts)
  {
    a + b
  }

  function Column(column: string, field: string): (ts: seq<Token>)
    requires IsWord(column)
    ensures Steady(ts) && (Quotable(field) ==> Fragment(ts))
    ensures ts != [] && ts[|ts| - 1] == Quoted(field)
  {
    [Tight(W(column)), M('-'), M('>'), M('>'), Quoted(field)]
  }

  function Contains(p: nat): (ts: seq<Token>)
    ensures Fragment(ts) && ts[0].before != ""
  {
    [Led(W("LIKE")), Quoted("%"), Led(M('|')), Spaced(M('|')), Dollar(p), Led(M('|')), Spaced(M('|')), Quoted("%")]
  }

  function In(p: nat): (ts: seq<Token>)
    ensures Fragment(ts) && ts[0].before != ""
  {
    [Led(EQUALS), Tight(W("ANY")), M('('), Dollar(p), M(')')]
  }

  function Numeric(): (ts: seq<Token>)
    ensures Fragment(ts) && Steady(ts) && !ts[0].lexeme.Word?
  {
    [M(')'), M(':'), M(':'), Tight(W("numeric"))]
  }

  function Cast(column: seq<Token>, sign: char, p: nat): seq<Token>
    requires IsMark(sign)
  {
    [M('(')] + column + Numeric() + [Led(Spaced(M(sign))), M('('), Dollar(p)] + Numeric()
  }

  function Comparison(column: seq<Token>, op: string, p: nat): seq<Token> {
    if op == "contains" then column + Contains(p)
    else if op == "in" then column + In(p)
    else if op == "greater_than" then Cast(column, '>', p)
    else if op == "less_than" then Cast(column, '<', p)
    else column + [Led(EQUALS), Dollar(p)]
  }

  /** The profile's id is among those the query in parentheses returns. */
  function IdIn(): (ts: seq<Token>)
    ensures Fragment(ts) && Steady(ts) && ts[|ts| - 1].lexeme.Mark?
  {
    [W("id"), W("IN"), M('(')]
  }

  function ConsentSelect(): (ts: seq<Token>)
    ensures Fragment(ts) && Steady(ts)
  {
    [OnLine("\t\t\t", W("SELECT")), W("latest.profile_id"), W("FROM"), M('(')]
  }

  function ConsentDistinct(): (ts: seq<Token>)
    ensures Fragment(ts) && Steady(ts) && ts[0].before != ""
  {
    [OnLine("\t\t\t\t", W("SELECT")), W("DISTINCT"), W("ON"), M('(')]
  }

  function ConsentColumns(): (ts: seq<Token>)
    ensures Fragment(ts) && Steady(ts) && ts[|ts| - 1].lexeme.Word?
  {
    [Tight(W("cl.profile_id")), Spaced(M(')')), Tight(W("cl.profile_id")), Spaced(M(',')), Tight(W("cl.state"))]
  }

  function ConsentFrom(): (ts: seq<Token>)
    ensures Fragment(ts) && Steady(ts) && ts[0].before != ""
  {
    [OnLine("\t\t\t\t", W("FROM")), W("consent_ledger"), Tight(W("cl"))]
  }

  function ConsentScope(): (ts: seq<Token>)
    ensures Fragment(ts) && Steady(ts) && ts[0].before != ""
  {
    [OnLine("\t\t\t\t", W("WHERE")), W("cl.tenant_id"), EQUALS, W("profiles.tenant_id"), W("AND")]
  }

  function ConsentApp(): (ts: seq<Token>)
    ensures Fragment(ts) && Steady(ts)
  {
    [W("cl.app_id"), EQUALS, Tight(W("profiles.app_id"))]
  }

  function ConsentKey(c: nat, t: nat): (ts: seq<Token>)
    ensures Fragment(ts) && ts[0].before != ""
  {
    [OnLine("\t\t\t\t\t", W("AND")), W("cl.channel"), EQUALS, Spaced(Dollar(c)),
     W("AND"), W("cl.topic"), EQUALS, Dollar(t)]
  }

  function ConsentNewest(): (ts: seq<Token>)
    ensures Fragment(ts) && Steady(ts)
  {
    [W("cl.occurred_at"), Tight(W("DESC"))]
  }

  function ConsentOrder(): (ts: seq<Token>)
    ensures Fragment(ts) && Steady(ts) && ts[0].before != ""
  {
    Plus([OnLine("\t\t\t\t", W("ORDER")), W("BY"), Tight(W("cl.profile_id")), Spaced(M(','))], ConsentNewest())
  }

  function ConsentState(st: nat): (ts: seq<Token>)
    ensures Fragment(ts) && ts[0].before != ""
  {
    [OnLine("\t\t\t", Spaced(M(')'))), W("latest"), W("WHERE"), W("latest.state"), EQUALS, Dollar(st),
     OnLine("\t\t", M(')'))]
  }

  /** Up to the conditions on the ledger's key. */
  function ConsentSource(): (ts: seq<Token>)
    ensures Fragment(ts) && Steady(ts)
  {
    Plus(IdIn(), Plus(ConsentSelect(), Plus(ConsentDistinct(), Plus(ConsentColumns(), Plus(ConsentFrom(),
         Plus(ConsentScope(), ConsentApp()))))))
  }

  function ConsentTokens(c: nat, t: nat, st: nat): (ts: seq<Token>)
    ensures Fragment(ts)
  {
    Plus(ConsentSource(), Plus(ConsentKey(c, t), Plus(ConsentOrder(), ConsentState(st))))
  }

  function ScoreSelect(): (ts: seq<Token>)
    ensures Fragment(ts) && Steady(ts)
  {
    [W("SELECT"), W("profile_id"), W("FROM"), W("profile_scores")]
  }

  function ScoreScope(): (ts: seq<Token>)
    ensures Fragment(ts) && Steady(ts)
  {
    [W("WHERE"), W("tenant_id"), EQUALS, Spaced(Dollar(1)), W("AND"), W("workspace_id"), EQUALS, Spaced(Dollar(2))]
  }

  function ScoreKey(m: nat, n: nat): (ts: seq<Token>)
    ensures Fragment(ts)
  {
    [W("AND"), W("scoring_model_id"), EQUALS, Spaced(Dollar(m)), W("AND"), W("score_name"), EQUALS, Spaced(Dollar(n))]
  }

  function ScoreValue(sign: char, v: nat): (ts: seq<Token>)
    requires IsMark(sign)
    ensures Fragment(ts)
  {
    [W("AND"), W("value"), Spaced(M(sign)), Dollar(v), M(')')]
  }

  function Sign(op: string): (c: char)
    ensures IsMark(c)
  {
    if op == "greater_than" then '>' else if op == "less_than" then '<' else '='
  }

  /** Up to the conditions on the score's key. */
  function ScoreSource(): (ts: seq<Token>)
    ensures Fragment(ts) && Steady(ts)
  {
    Plus(IdIn(), Plus(ScoreSelect(), ScoreScope()))
  }

  function ScoreTokens(m: nat, n: nat, op: string, v: nat): (ts: seq<Token>)
    ensures Fragment(ts)
  {
    Plus(ScoreSource(), Plus(ScoreKey(m, n), ScoreValue(Sign(op), v)))
  }

  function CompanySelect(): (ts: seq<Token>)
    ensures Fragment(ts) && Steady(ts) && ts[|ts| - 1].after != ""
  {
    [W("SELECT"), W("m.profile_id"), W("FROM")]
  }

  function CompanyMembers(): (ts: seq<Token>)
    ensures Fragment(ts) && Steady(ts) && ts[|ts| - 1].after != ""
  {
    [W("company_members"), W("m")]
  }

  function CompanyJoin(): (ts: seq<Token>)
    ensures Fragment(ts) && Steady(ts) && ts[|ts| - 1].after != ""
  {
    [W("JOIN"), W("companies"), W("c"), W("ON")]
  }

  function CompanyOn(): (ts: seq<Token>)
    ensures Fragment(ts) && Steady(ts) && ts[|ts| - 1].after != ""
  {
    [Tight(W("c.id")), M('='), W("m.company_id"), W("WHERE")]
  }

  function CompanyKey(column: string, n: nat): (ts: seq<Token>)
    requires IsWord(column)
    ensures Fragment(ts) && (n <= 2 ==> Steady(ts))
    ensures ts[0].before == "" && ts[|ts| - 1].after != ""
  {
    [Tight(W(column)), M('='), Spaced(Dollar(n)), W("AND")]
  }

  function CompanyScope(): (ts: seq<Token>)
    ensures Fragment(ts) && Steady(ts) && ts[|ts| - 1].after != ""
  {
    Plus(CompanyKey("m.tenant_id", 1), Plus(CompanyKey("c.tenant_id", 1), CompanyKey("c.workspace_id", 2)))
  }

  function CompanyFrom(): (ts: seq<Token>)
    ensures Fragment(ts) && Steady(ts) && ts[|ts| - 1].after != ""
  {
    Plus(CompanySelect(), Plus(CompanyMembers(), Plus(CompanyJoin(), CompanyOn())))
  }

  function CompanyRows(): (ts: seq<Token>)
    ensures Fragment(ts) && Steady(ts) && ts[|ts| - 1].after != ""
  {
    Plus(CompanyFrom(), CompanyScope())
  }

  /** Up to the comparison. */
  function CompanySource(): (ts: seq<Token>)
    ensures Fragment(ts) && Steady(ts) && ts[|ts| - 1].after != ""
  {
    Plus(IdIn(), CompanyRows())
  }

  function CompanyColumn(field: string): (ts: seq<Token>)
    ensures Steady(ts) && (Quotable(field) ==> Fragment(ts))
  {
    Column("c.attributes", field)
  }

  function ProfileColumn(field: string): (ts: seq<Token>)
    ensures Steady(ts) && (Quotable(field) ==> Fragment(ts))
  {
    Column("attributes", field)
  }

  function CompanyTokens(field: string, op: string, p: nat): seq<Token> {
    CompanySource() + Comparison(CompanyColumn(field), op, p) + [M(')')]
  }

  function AndBetween(): (t: Token)
    ensures Good(t) && t.before != "" && t.lexeme.Word? && t.after != ""
  {
    Led(W("AND"))
  }

  function OrBetween(): (t: Token)
    ensures Good(t) && t.before != "" && t.lexeme.Word? && t.after != ""
  {
    Led(W("OR"))
  }

  function NotOpen(): (ts: seq<Token>)
    ensures Fragment(ts) && Steady(ts) && ts[|ts| - 1].lexeme.Mark?
  {
    [W("NOT"), M('(')]
  }

  /** The text of a compiled condition. */
  function Tokens(s: Sql): seq<Token>
    decreases s, 1
  {
    match s
    case SqlAnd(parts) => [M('(')] + Joined(parts, AndBetween()) + [M(')')]
    case SqlOr(parts) => [M('(')] + Joined(parts, OrBetween()) + [M(')')]
    case SqlNot(part) => NotOpen() + Tokens(part) + [M(')')]
    case SqlAttribute(field, op, p) => Comparison(ProfileColumn(field), op, p)
    case SqlConsent(c, t, st) => ConsentTokens(c, t, st)
    case SqlScore(m, n, op, v) => ScoreTokens(m, n, op, v)
    case SqlCompany(field, op, p) => CompanyTokens(field, op, p)
  }

  /** strings.Join */
  function Joined(parts: seq<Sql>, separator: Token): seq<Token>
    decreases parts, 0
  {
    if parts == [] then []
    else if |parts| == 1 then Tokens(parts[0])
    else Tokens(parts[0]) + [separator] + Joined(parts[1..], separator)
  }

  /** The condition, TRUE when there is none. */
  function Condition(sql: Option<Sql>): seq<Token> {
    if sql.None? then [Tight(W("TRUE"))] else Tokens(sql.value)
  }

  function TenantScope(): (ts: seq<Token>)
    ensures Fragment(ts) && Steady(ts) && ts[|ts| - 1].after != ""
  {
    [W("WHERE"), Tight(W("tenant_id")), M('='), Spaced(Dollar(1)), W("AND")]
  }

  function WorkspaceScope(): (ts: seq<Token>)
    ensures Fragment(ts) && Steady(ts) && ts[|ts| - 1].after != ""
  {
    [Tight(W("workspace_id")), M('='), Spaced(Dollar(2)), W("AND")]
  }

  function QueryScope(): (ts: seq<Token>)
    ensures Fragment(ts) && ts[|ts| - 1].after != ""
  {
    Plus(TenantScope(), WorkspaceScope())
  }

  function FullSelect(): (ts: seq<Token>)
    ensures Fragment(ts) && ts[|ts| - 1].after != ""
  {
    [W("SELECT"), W("external_id"), W("FROM"), W("profiles")]
  }

  function FullHead(): (ts: seq<Token>)
    ensures Fragment(ts) && ts[|ts| - 1].lexeme.Mark?
  {
    Plus(FullSelect(), Plus(QueryScope(), [M('(')]))
  }

  function SingleSelect(): (ts: seq<Token>)
    ensures Fragment(ts) && ts[|ts| - 1].after != ""
  {
    [W("SELECT"), W("1"), W("FROM"), W("profiles")]
  }

  function ProfileScope(): (ts: seq<Token>)
    ensures Fragment(ts) && ts[|ts| - 1].lexeme.Mark?
  {
    [Tight(W("id")), M('='), Spaced(Dollar(3)), W("AND"), M('(')]
  }

  function SingleHead(): (ts: seq<Token>)
    ensures Fragment(ts) && ts[|ts| - 1].lexeme.Mark?
  {
    Plus(SingleSelect(), Plus(QueryScope(), ProfileScope()))
  }

  /** The query of CompileProfile. */
  function FullText(sql: Option<Sql>): string {
    Render(FullHead()) + (Render(Condition(sql)) + ")")
  }

  /** The query of CompileProfileSingle: the placeholders of the condition are shifted, those of the head
      are not. */
  function SingleText(sql: Option<Sql>): string {
    Render(SingleHead()) + (ShiftText(Render(Condition(sql))) + ")")
  }

  // ---------------------------------------------------------------------------
  // The shift

  function ShiftNumber(n: nat): nat {
    if n > 2 then n + 1 else n
  }

  /** The expression with every placeholder above $2 moved up by one. */
  function Shift(s: Sql): Sql
    decreases s, 1
  {
    match s
    case SqlAnd(parts) => SqlAnd(ShiftAll(parts))
    case SqlOr(parts) => SqlOr(ShiftAll(parts))
    case SqlNot(part) => SqlNot(Shift(part))
    case SqlAttribute(field, op, p) => SqlAttribute(field, op, ShiftNumber(p))
    case SqlConsent(c, t, st) => SqlConsent(ShiftNumber(c), ShiftNumber(t), ShiftNumber(st))
    case SqlScore(m, n, op, v) => SqlScore(ShiftNumber(m), ShiftNumber(n), op, ShiftNumber(v))
    case SqlCompany(field, op, p) => SqlCompany(field, op, ShiftNumber(p))
  }

  function ShiftAll(parts: seq<Sql>): (r: seq<Sql>)
    ensures |r| == |parts|
    decreases parts, 0
  {
    if parts == [] then [] else [Shift(parts[0])] + ShiftAll(parts[1..])
  }

  /** The longest run of digits at the start of `s`. */
  function DigitRun(s: string): (n: nat)
    ensures n <= |s| && AllDigits(s[..n])
    ensures n < |s| ==> !IsDigit(s[n])
  {
    if s == "" || !IsDigit(s[0]) then 0 else
      var n := DigitRun(s[1..]);
      assert s[..n + 1] == [s[0]] + s[1..][..n];
      n + 1
  }

  /** ReplaceAllStringFunc with \$([0-9]+): leftmost, longest matches, the rest copied. */
  function ShiftText(s: string): string
    decreases |s|
  {
    if s == "" then ""
    else if s[0] != '$' then [s[0]] + ShiftText(s[1..])
    else
      var n := DigitRun(s[1..]);
      if n > 0 then "$" + ShiftedDigits(s[1..][..n]) + ShiftText(s[1 + n..])
      else "$" + ShiftText(s[1..])
  }

  function ShiftedDigits(digits: string): string
    requires AllDigits(digits)
  {
    if DigitsValue(digits) > 2 then Itoa(DigitsValue(digits) + 1) else digits
  }

  function ShiftToken(t: Token): Token {
    if t.lexeme.Placeholder? then t.(lexeme := Placeholder(ShiftNumber(t.lexeme.number))) else t
  }

  function ShiftTokens(ts: seq<Token>): (r: seq<Token>)
    ensures |r| == |ts|
  {
    seq(|ts|, i requires 0 <= i < |ts| => ShiftToken(ts[i]))
  }

  ghost predicate NoDollar(s: string) {
    '$' !in s
  }

  lemma {:induction false} ShiftCopies(c: char, s: string)
    requires c != '$'
    ensures ShiftText([c] + s) == [c] + ShiftText(s)
  {
    assert ([c] + s)[1..] == s;
  }

  lemma Regroup(lit: string, rest: string)
    requires lit != ""
    ensures lit + rest == [lit[0]] + (lit[1..] + rest)
  {}

  lemma {:induction false} ShiftLiteral(lit: string, rest: string)
    requires NoDollar(lit)
    ensures ShiftText(lit + rest) == lit + ShiftText(rest)
  {
    if lit == "" {
      assert lit + rest == rest;
    } else {
      ShiftLiteral(lit[1..], rest);
      Regroup(lit, rest);
      ShiftCopies(lit[0], lit[1..] + rest);
      Regroup(lit, ShiftText(rest));
    }
  }

  lemma {:induction false} RunOfDigits(digits: string, rest: string)
    requires AllDigits(digits) && (rest == "" || !IsDigit(rest[0]))
    ensures DigitRun(digits + rest) == |digits|
  {
    if digits == "" {
      assert digits + rest == rest;
    } else {
      assert (digits + rest)[1..] == digits[1..] + rest;
      RunOfDigits(digits[1..], rest);
    }
  }

  lemma {:induction false} ShiftPlaceholder(digits: string, rest: string)
    requires digits != "" && AllDigits(digits) && (rest == "" || !IsDigit(rest[0]))
    ensures ShiftText(['$'] + (digits + rest)) == "$" + ShiftedDigits(digits) + ShiftText(rest)
  {
    var s := ['$'] + (digits + rest);
    RunOfDigits(digits, rest);
    assert s[1..] == digits + rest;
    assert (digits + rest)[..|digits|] == digits;
    assert s[1 + |digits|..] == rest;
  }

  lemma {:induction false} ShiftDollar(n: nat, rest: string)
    requires rest == "" || !IsDigit(rest[0])
    ensures ShiftText(LexemeText(Placeholder(n)) + rest) == LexemeText(Placeholder(ShiftNumber(n))) + ShiftText(rest)
  {
    hide ShiftText;
    DigitsRoundTrip(n);
    ShiftPlaceholder(Itoa(n), rest);
    assert LexemeText(Placeholder(n)) + rest == ['$'] + (Itoa(n) + rest);
  }

  lemma RenderCons(t: Token, ts: seq<Token>)
    ensures Render([t] + ts) == TokenText(t) + Render(ts)
  {
    assert ([t] + ts)[1..] == ts;
  }

  lemma {:induction false} RenderConcat(a: seq<Token>, b: seq<Token>)
    ensures Render(a + b) == Render(a) + Render(b)
  {
    if a == [] {
      assert a + b == b;
    } else {
      assert (a + b)[1..] == a[1..] + b;
      RenderConcat(a[1..], b);
    }
  }

  lemma Spread(t: Token, rest: string)
    ensures TokenText(t) + rest == t.before + (LexemeText(t.lexeme) + (t.after + rest))
  {}

  lemma LexemeHasNoDollar(l: Lexeme)
    requires GoodLexeme(l) && !l.Placeholder?
    ensures NoDollar(LexemeText(l))
  {
    if l.Word? { assert forall i :: 0 <= i < |l.text| ==> WordChar(l.text[i]); }
  }

  /** What follows a placeholder does not begin with a digit. */
  lemma StartsPlain(t: Token, ts: seq<Token>)
    requires Apart([t] + ts) && t.lexeme.Placeholder?
    ensures var s := t.after + Render(ts); s == "" || !IsDigit(s[0])
  {
    assert Good(([t] + ts)[0]);
    if t.after == "" && ts != [] {
      var next := ts[0];
      assert [t] + ts == [t, next] + ts[1..];
      assert ([t] + ts)[0] == t && ([t] + ts)[1] == next && !Glued(t, next) && Good(next);
      Spread(next, Render(ts[1..]));
      assert t.after + Render(ts) == next.before + (LexemeText(next.lexeme) + (next.after + Render(ts[1..])));
      if next.before == "" {
        assert LexemeText(next.lexeme) != "" && !IsDigit(LexemeText(next.lexeme)[0]);
      }
    }
  }

  lemma ShiftLexeme(l: Lexeme, rest: string)
    requires GoodLexeme(l)
    requires rest == "" || !IsDigit(rest[0]) || !l.Placeholder?
    ensures ShiftText(LexemeText(l) + rest) ==
            LexemeText(if l.Placeholder? then Placeholder(ShiftNumber(l.number)) else l) + ShiftText(rest)
  {
    if l.Placeholder? {
      ShiftDollar(l.number, rest);
    } else {
      LexemeHasNoDollar(l);
      ShiftLiteral(LexemeText(l), rest);
    }
  }

  lemma ApartTail(ts: seq<Token>)
    requires Fragment(ts)
    ensures Good(ts[0]) && Apart(ts[1..]) && ts == [ts[0]] + ts[1..]
  {}

  lemma ShiftedTextCons(t: Token, ts: seq<Token>)
    ensures Render(ShiftTokens([t] + ts)) == TokenText(ShiftToken(t)) + Render(ShiftTokens(ts))
  {
    assert ShiftTokens([t] + ts) == [ShiftToken(t)] + ShiftTokens(ts);
    RenderCons(ShiftToken(t), ShiftTokens(ts));
  }

  lemma ShiftOneToken(t: Token, rest: string)
    requires Good(t) && (t.lexeme.Placeholder? ==> var s := t.after + rest; s == "" || !IsDigit(s[0]))
    ensures ShiftText(TokenText(t) + rest) == TokenText(ShiftToken(t)) + ShiftText(rest)
  {
    Spread(t, rest);
    Spread(ShiftToken(t), ShiftText(rest));
    ShiftLiteral(t.before, LexemeText(t.lexeme) + (t.after + rest));
    ShiftLexeme(t.lexeme, t.after + rest);
    ShiftLiteral(t.after, rest);
  }

  /** On the compiler's text the regular expression touches exactly the placeholders. */
  lemma {:induction false} ShiftTextIsShiftTokens(ts: seq<Token>)
    requires Apart(ts)
    ensures ShiftText(Render(ts)) == Render(ShiftTokens(ts))
  {
    if ts != [] {
      hide ShiftText, TokenText, Good, Glued;
      var t, rest := ts[0], ts[1..];
      ApartTail(ts);
      ShiftTextIsShiftTokens(rest);
      ShiftedTextCons(t, rest);
      if t.lexeme.Placeholder? { StartsPlain(t, rest); }
      ShiftOneToken(t, Render(rest));
    }
  }

  // ---------------------------------------------------------------------------
  // Compiled conditions are well formed

  /** Every field name in the expression passed the safety check. */
  ghost predicate Safe(s: Sql)
    decreases s, 1
  {
    match s
    case SqlAnd(parts) => SafeAll(parts)
    case SqlOr(parts) => SafeAll(parts)
    case SqlNot(part) => Safe(part)
    case SqlAttribute(field, _, _) => SafeField(field)
    case SqlCompany(field, _, _) => SafeField(field)
    case _ => true
  }

  ghost predicate SafeAll(parts: seq<Sql>)
    decreases parts, 0
  {
    parts == [] || (Safe(parts[0]) && SafeAll(parts[1..]))
  }

  lemma {:induction false} SafeConcat(a: seq<Sql>, b: seq<Sql>)
    requires SafeAll(a) && SafeAll(b)
    ensures SafeAll(a + b)
  {
    if a == [] { assert a + b == b; } else {
      assert (a + b)[1..] == a[1..] + b;
      SafeConcat(a[1..], b);
    }
  }

  lemma {:induction false} CompiledIsSafe(node: Node, args: seq<Value>)
    requires Compile(node, args).Compiled? && Compile(node, args).sql.Some?
    ensures Safe(Compile(node, args).sql.value)
    decreases node, 1
  {
    match node
    case And(cs) => CompiledAllIsSafe(cs, args);
    case Or(cs) => CompiledAllIsSafe(cs, args);
    case Not(c) => CompiledIsSafe(c, args);
    case _ =>
  }

  lemma {:induction false} CompiledAllIsSafe(cs: seq<Node>, args: seq<Value>)
    requires CompileAll(cs, args).CompiledAll?
    ensures SafeAll(CompileAll(cs, args).parts)
    decreases cs, 0
  {
    if cs != [] {
      var r := Compile(cs[0], args);
      CompiledAllIsSafe(cs[1..], r.args);
      if r.sql.Some? {
        CompiledIsSafe(cs[0], args);
        assert [r.sql.value][1..] == [];
        SafeConcat([r.sql.value], CompileAll(cs[1..], r.args).parts);
      } else {
        assert [] + CompileAll(cs[1..], r.args).parts == CompileAll(cs[1..], r.args).parts;
      }
    }
  }

  lemma Append(a: seq<Token>, b: seq<Token>)
    requires Fragment(a) && Fragment(b) && !Glued(a[|a| - 1], b[0])
    ensures Fragment(a + b)
  {}

  lemma SafeFieldIsQuotable(field: string)
    requires SafeField(field)
    ensures Quotable(field)
  {
    assert forall i :: 0 <= i < |field| ==> SafeChar(field[i]);
  }

  lemma CastClean(column: seq<Token>, sign: char, p: nat)
    requires Fragment(column) && IsMark(sign)
    ensures Fragment(Cast(column, sign, p))
  {
    var middle := [Led(Spaced(M(sign))), M('('), Dollar(p)];
    Append([M('(')], column);
    Append([M('(')] + column, Numeric());
    Append([M('(')] + column + Numeric(), middle);
    Append([M('(')] + column + Numeric() + middle, Numeric());
  }

  lemma ComparisonClean(column: seq<Token>, op: string, p: nat)
    requires Fragment(column)
    ensures Fragment(Comparison(column, op, p))
    ensures Comparison(column, op, p)[0] in [column[0], M('(')]
  {
    CastClean(column, '>', p);
    CastClean(column, '<', p);
    Append(column, Contains(p));
    Append(column, In(p));
    Append(column, [Led(EQUALS), Dollar(p)]);
  }

  lemma CompanyClean(field: string, op: string, p: nat)
    requires SafeField(field)
    ensures Fragment(CompanyTokens(field, op, p))
  {
    hide CompanySource, CompanyColumn, Comparison;
    var column := CompanyColumn(field);
    SafeFieldIsQuotable(field);
    ComparisonClean(column, op, p);
    Append(CompanySource(), Comparison(column, op, p));
    Append(CompanySource() + Comparison(column, op, p), [M(')')]);
  }

  lemma {:induction false} TokensClean(s: Sql)
    requires Safe(s)
    ensures Fragment(Tokens(s))
    decreases s, 1
  {
    hide NotOpen, AndBetween, OrBetween, ProfileColumn, Comparison, CompanyTokens, ConsentTokens, ScoreTokens;
    match s
    case SqlAnd(parts) => GroupClean(parts, AndBetween());
    case SqlOr(parts) => GroupClean(parts, OrBetween());
    case SqlNot(part) =>
      TokensClean(part);
      Append(NotOpen(), Tokens(part));
      Append(NotOpen() + Tokens(part), [M(')')]);
    case SqlAttribute(field, op, p) =>
      SafeFieldIsQuotable(field);
      ComparisonClean(ProfileColumn(field), op, p);
    case SqlCompany(field, op, p) => CompanyClean(field, op, p);
    case SqlConsent(c, t, st) =>
    case SqlScore(m, n, op, v) =>
  }

  lemma {:induction false} GroupClean(parts: seq<Sql>, separator: Token)
    requires SafeAll(parts) && Good(separator) && separator.before != "" && separator.after != ""
    ensures Fragment([M('(')] + Joined(parts, separator) + [M(')')])
    decreases parts, 1
  {
    if parts == [] {
      assert [M('(')] + [] == [M('(')];
    } else {
      JoinedClean(parts, separator);
      Append([M('(')], Joined(parts, separator));
    }
    Append([M('(')] + Joined(parts, separator), [M(')')]);
  }

  lemma {:induction false} JoinedClean(parts: seq<Sql>, separator: Token)
    requires parts != [] && SafeAll(parts) && Good(separator) && separator.before != "" && separator.after != ""
    ensures Fragment(Joined(parts, separator))
    decreases parts, 0
  {
    TokensClean(parts[0]);
    if |parts| > 1 {
      JoinedClean(parts[1..], separator);
      Append(Tokens(parts[0]), [separator]);
      Append(Tokens(parts[0]) + [separator], Joined(parts[1..], separator));
    }
  }

  // ---------------------------------------------------------------------------
  // Shifting the text is shifting the expression

  lemma ShiftTokensConcat(a: seq<Token>, b: seq<Token>)
    ensures ShiftTokens(a + b) == ShiftTokens(a) + ShiftTokens(b)
  {}

  lemma ShiftSteady(a: seq<Token>, b: seq<Token>)
    requires Steady(a)
    ensures ShiftTokens(a) == a && ShiftTokens(a + b) == a + ShiftTokens(b) && ShiftTokens(b + a) == ShiftTokens(b) + a
  {}

  lemma {:induction false} TokensOfShift(s: Sql)
    ensures Tokens(Shift(s)) == ShiftTokens(Tokens(s))
    decreases s, 1
  {
    hide NotOpen, AndBetween, OrBetween, ProfileColumn, Comparison, CompanyTokens, ConsentTokens, ScoreTokens;
    match s
    case SqlAnd(parts) => GroupOfShift(parts, AndBetween());
    case SqlOr(parts) => GroupOfShift(parts, OrBetween());
    case SqlNot(part) =>
      TokensOfShift(part);
      ShiftSteady(NotOpen(), Tokens(part));
      ShiftSteady([M(')')], NotOpen() + Tokens(part));
    case SqlAttribute(field, op, p) => ComparisonOfShift(ProfileColumn(field), op, p);
    case SqlCompany(field, op, p) => CompanyOfShift(field, op, p);
    case SqlConsent(c, t, st) => ConsentOfShift(c, t, st);
    case SqlScore(m, n, op, v) => ScoreOfShift(m, n, op, v);
  }

  lemma ConsentKeyOfShift(c: nat, t: nat)
    ensures ShiftTokens(ConsentKey(c, t)) == ConsentKey(ShiftNumber(c), ShiftNumber(t))
  {}

  lemma ConsentStateOfShift(st: nat)
    ensures ShiftTokens(ConsentState(st)) == ConsentState(ShiftNumber(st))
  {}

  lemma ConsentOfShift(c: nat, t: nat, st: nat)
    ensures ShiftTokens(ConsentTokens(c, t, st)) == ConsentTokens(ShiftNumber(c), ShiftNumber(t), ShiftNumber(st))
  {
    hide ConsentSource, ConsentKey, ConsentOrder, ConsentState, ShiftNumber;
    ShiftSteady(ConsentSource(), ConsentKey(c, t) + (ConsentOrder() + ConsentState(st)));
    ShiftTokensConcat(ConsentKey(c, t), ConsentOrder() + ConsentState(st));
    ShiftSteady(ConsentOrder(), ConsentState(st));
    ConsentKeyOfShift(c, t);
    ConsentStateOfShift(st);
  }

  lemma ScoreKeyOfShift(m: nat, n: nat)
    ensures ShiftTokens(ScoreKey(m, n)) == ScoreKey(ShiftNumber(m), ShiftNumber(n))
  {}

  lemma ScoreValueOfShift(sign: char, v: nat)
    requires IsMark(sign)
    ensures ShiftTokens(ScoreValue(sign, v)) == ScoreValue(sign, ShiftNumber(v))
  {}

  lemma ScoreOfShift(m: nat, n: nat, op: string, v: nat)
    ensures ShiftTokens(ScoreTokens(m, n, op, v)) == ScoreTokens(ShiftNumber(m), ShiftNumber(n), op, ShiftNumber(v))
  {
    hide ScoreSource, ScoreKey, ScoreValue, Sign, ShiftNumber;
    ShiftSteady(ScoreSource(), ScoreKey(m, n) + ScoreValue(Sign(op), v));
    ShiftTokensConcat(ScoreKey(m, n), ScoreValue(Sign(op), v));
    ScoreKeyOfShift(m, n);
    ScoreValueOfShift(Sign(op), v);
  }

  lemma CompanyOfShift(field: string, op: string, p: nat)
    ensures ShiftTokens(CompanyTokens(field, op, p)) == CompanyTokens(field, op, ShiftNumber(p))
  {
    hide CompanySource, CompanyColumn, Comparison, ShiftNumber;
    var column := CompanyColumn(field);
    ComparisonOfShift(column, op, p);
    ShiftSteady(CompanySource(), Comparison(column, op, p));
    ShiftSteady([M(')')], CompanySource() + Comparison(column, op, p));
  }

  lemma ComparisonOfShift(column: seq<Token>, op: string, p: nat)
    requires Steady(column)
    ensures ShiftTokens(Comparison(column, op, p)) == Comparison(column, op, ShiftNumber(p))
  {
    ShiftSteady(column, Contains(p));
    ShiftSteady(column, In(p));
    ShiftSteady(column, [Led(EQUALS), Dollar(p)]);
    assert ShiftTokens(Contains(p)) == Contains(ShiftNumber(p));
    assert ShiftTokens(In(p)) == In(ShiftNumber(p));
    CastOfShift(column, '>', p);
    CastOfShift(column, '<', p);
  }

  lemma CastOfShift(column: seq<Token>, sign: char, p: nat)
    requires Steady(column) && IsMark(sign)
    ensures ShiftTokens(Cast(column, sign, p)) == Cast(column, sign, ShiftNumber(p))
  {
    var head, middle := [M('(')] + column + Numeric(), [Led(Spaced(M(sign))), M('('), Dollar(p)];
    ShiftSteady(head, middle);
    ShiftSteady(Numeric(), head + middle);
    assert ShiftTokens(middle) == [Led(Spaced(M(sign))), M('('), Dollar(ShiftNumber(p))];
  }

  lemma {:induction false} GroupOfShift(parts: seq<Sql>, separator: Token)
    requires !separator.lexeme.Placeholder?
    ensures ShiftTokens([M('(')] + Joined(parts, separator) + [M(')')]) ==
            [M('(')] + Joined(ShiftAll(parts), separator) + [M(')')]
    decreases parts, 1
  {
    JoinedOfShift(parts, separator);
    ShiftSteady([M('(')], Joined(parts, separator));
    ShiftSteady([M(')')], [M('(')] + Joined(parts, separator));
  }

  lemma {:induction false} JoinedOfShift(parts: seq<Sql>, separator: Token)
    requires !separator.lexeme.Placeholder?
    ensures Joined(ShiftAll(parts), separator) == ShiftTokens(Joined(parts, separator))
    decreases parts, 0
  {
    if parts != [] {
      TokensOfShift(parts[0]);
      JoinedOfShift(parts[1..], separator);
      assert ShiftAll(parts)[1..] == ShiftAll(parts[1..]);
      ShiftTokensConcat(Tokens(parts[0]) + [separator], Joined(parts[1..], separator));
      ShiftSteady([separator], Tokens(parts[0]));
    }
  }

  /** The textual rewrite of a compiled condition is the text of the shifted expression. */
  lemma TextShiftIsExpressionShift(node: Node, args: seq<Value>)
    requires Compile(node, args).Compiled? && Compile(node, args).sql.Some?
    ensures var s := Compile(node, args).sql.value;
            ShiftText(Render(Tokens(s))) == Render(Tokens(Shift(s)))
  {
    var s := Compile(node, args).sql.value;
    CompiledIsSafe(node, args);
    TokensClean(s);
    ShiftTextIsShiftTokens(Tokens(s));
    TokensOfShift(s);
  }
}
