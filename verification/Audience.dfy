/** The audience compiler (internal/audience/ast.go, internal/audience/compile_pg.go): And/Or/Not trees
    to parameterised SQL. The SQL is an expression with numbered placeholders; its text is in
    AudienceText. */
module Audience {
  import opened Common

  datatype Value = Null | Text(text: string) | Num(num: real) | Truth(truth: bool) | List(items: seq<Value>)

  datatype Node =
    | And(conditions: seq<Node>)
    | Or(conditions: seq<Node>)
    | Not(condition: Node)
    | ProfileAttribute(field: string, operator: string, value: Value)
    | EventHistory(eventType: string, operator: string, days: int, minCount: int)
    | Consent(channel: string, topic: string, state: string)
    | Score(model: string, scoreName: string, operator: string, number: real)
    | Company(field: string, operator: string, value: Value)

  /** Placeholders are the numbers after the dollar sign. */
  datatype Sql =
    | SqlAnd(parts: seq<Sql>)
    | SqlOr(parts: seq<Sql>)
    | SqlNot(part: Sql)
    | SqlAttribute(field: string, operator: string, param: nat)
    | SqlConsent(channel: nat, topic: nat, state: nat)
    | SqlScore(model: nat, name: nat, operator: string, number: nat)
    | SqlCompany(field: string, operator: string, param: nat)

  /** `sql` is None for the empty text of a condition that is left out. */
  datatype Compiled = Rejected | Compiled(sql: Option<Sql>, args: seq<Value>)

  datatype CompiledAll = RejectedAll | CompiledAll(parts: seq<Sql>, args: seq<Value>)

  /** ^[a-zA-Z0-9_]+$ */
  predicate SafeField(s: string) {
    s != "" && forall i :: 0 <= i < |s| ==> SafeChar(s[i])
  }

  predicate SafeChar(c: char) {
    'a' <= c <= 'z' || 'A' <= c <= 'Z' || '0' <= c <= '9' || c == '_'
  }

  predicate AttributeOperator(op: string) {
    op in {"equals", "contains", "in", "greater_than", "less_than"}
  }

  predicate ScoreOperator(op: string) {
    op in {"greater_than", "less_than", "equals"}
  }

  predicate CompanyOperator(op: string) {
    op in {"equals", "contains", "in"}
  }

  function Compile(node: Node, args: seq<Value>): Compiled
    decreases node, 1
  {
    match node
    case And(cs) => Grouped(CompileAll(cs, args), true)
    case Or(cs) => Grouped(CompileAll(cs, args), false)
    case Not(c) =>
      (match Compile(c, args)
       case Rejected => Rejected
       case Compiled(None, args') => Compiled(None, args')
       case Compiled(Some(part), args') => Compiled(Some(SqlNot(part)), args'))
    case ProfileAttribute(field, op, value) =>
      if !SafeField(field) || !AttributeOperator(op) then Rejected
      else Compiled(Some(SqlAttribute(field, op, |args| + 3)), args + [value])
    case EventHistory(_, _, _, _) => Compiled(None, args)
    case Consent(channel, topic, state) =>
      Compiled(Some(SqlConsent(|args| + 3, |args| + 4, |args| + 5)), args + [Text(channel), Text(topic), Text(state)])
    case Score(model, name, op, number) =>
      if model == "" || name == "" || !ScoreOperator(op) then Rejected
      else
        var sql := SqlScore(|args| + 3, |args| + 4, op, |args| + 5);
        Compiled(Some(sql), args + [Text(model), Text(name), Num(number)])
    case Company(field, op, value) =>
      if !SafeField(field) || !CompanyOperator(op) then Rejected
      else Compiled(Some(SqlCompany(field, op, |args| + 3)), args + [value])
  }

  function CompileAll(cs: seq<Node>, args: seq<Value>): CompiledAll
    decreases cs, 0
  {
    if cs == [] then CompiledAll([], args)
    else match Compile(cs[0], args)
      case Rejected => RejectedAll
      case Compiled(part, args') => Prepend(Kept(part), CompileAll(cs[1..], args'))
  }

  function Kept(part: Option<Sql>): seq<Sql> {
    if part.Some? then [part.value] else []
  }

  function Prepend(parts: seq<Sql>, r: CompiledAll): CompiledAll {
    if r.RejectedAll? then r else CompiledAll(parts + r.parts, r.args)
  }

  function Grouped(r: CompiledAll, conjunction: bool): Compiled {
    if r.RejectedAll? then Rejected
    else if r.parts == [] then Compiled(None, r.args)
    else Compiled(Some(if conjunction then SqlAnd(r.parts) else SqlOr(r.parts)), r.args)
  }

  lemma PrependTwice(a: seq<Sql>, b: seq<Sql>, r: CompiledAll)
    ensures Prepend(a, Prepend(b, r)) == Prepend(a + b, r)
  {
    if r.CompiledAll? { assert a + (b + r.parts) == a + b + r.parts; }
  }

  lemma CompileAllAt(cs: seq<Node>, i: nat, args: seq<Value>)
    requires i < |cs|
    ensures CompileAll(cs[i..], args) ==
            (match Compile(cs[i], args)
             case Rejected => RejectedAll
             case Compiled(part, args') => Prepend(Kept(part), CompileAll(cs[i + 1..], args')))
  {
    assert cs[i..][0] == cs[i] && cs[i..][1..] == cs[i + 1..];
  }

  /** compileProfileNode with its shared argument list. */
  class Compiler {
    var args: seq<Value>

    constructor ()
      ensures args == []
    {
      args := [];
    }

    method CompileConditions(cs: seq<Node>) returns (ok: bool, parts: seq<Sql>)
      modifies this
      ensures var r := CompileAll(cs, old(args));
              && (ok <==> r.CompiledAll?)
              && (ok ==> parts == r.parts && args == r.args)
      decreases cs, 0
    {
      parts := [];
      for i := 0 to |cs|
        invariant CompileAll(cs, old(args)) == Prepend(parts, CompileAll(cs[i..], args))
      {
        CompileAllAt(cs, i, args);
        ghost var sofar := parts;
        var accepted, part := CompileNode(cs[i]);
        if !accepted { return false, parts; }
        if part.Some? { parts := parts + [part.value]; }
        PrependTwice(sofar, Kept(part), CompileAll(cs[i + 1..], args));
        assert parts == sofar + Kept(part);
      }
      assert parts + [] == parts;
      ok := true;
    }

    method CompileNode(node: Node) returns (ok: bool, sql: Option<Sql>)
      modifies this
      ensures var r := Compile(node, old(args));
              && (ok <==> r.Compiled?)
              && (ok ==> sql == r.sql && args == r.args)
      decreases node, 1
    {
      sql := None;
      match node {
        case And(cs) =>
          var parts;
          ok, parts := CompileConditions(cs);
          if ok && parts != [] { sql := Some(SqlAnd(parts)); }
        case Or(cs) =>
          var parts;
          ok, parts := CompileConditions(cs);
          if ok && parts != [] { sql := Some(SqlOr(parts)); }
        case Not(c) =>
          ok, sql := CompileNode(c);
          if ok && sql.Some? { sql := Some(SqlNot(sql.value)); }
        case ProfileAttribute(field, op, value) =>
          if !SafeField(field) { return false, None; }
          args := args + [value];
          var placeholder := |args| + 2;
          if !AttributeOperator(op) { return false, None; }
          ok, sql := true, Some(SqlAttribute(field, op, placeholder));
        case EventHistory(_, _, _, _) =>
          ok := true;
        case Consent(channel, topic, state) =>
          args := args + [Text(channel), Text(topic), Text(state)];
          ok, sql := true, Some(SqlConsent(|args|, |args| + 1, |args| + 2));
        case Score(model, name, op, number) =>
          if model == "" || name == "" || !ScoreOperator(op) { return false, None; }
          ghost var before := args;
          args := args + [Text(model)];
          var modelPlaceholder := |args| + 2;
          args := args + [Text(name)];
          var namePlaceholder := |args| + 2;
          args := args + [Num(number)];
          assert args == before + [Text(model), Text(name), Num(number)];
          ok, sql := true, Some(SqlScore(modelPlaceholder, namePlaceholder, op, |args| + 2));
        case Company(field, op, value) =>
          if !SafeField(field) { return false, None; }
          args := args + [value];
          if !CompanyOperator(op) { return false, None; }
          ok, sql := true, Some(SqlCompany(field, op, |args| + 2));
      }
    }
  }

  // ---------------------------------------------------------------------------
  // Placeholder binding

  /** The placeholders above $2, in the order the text shows them. */
  function Placeholders(s: Sql): seq<nat>
    decreases s, 1
  {
    match s
    case SqlAnd(parts) => PlaceholdersAll(parts)
    case SqlOr(parts) => PlaceholdersAll(parts)
    case SqlNot(part) => Placeholders(part)
    case SqlAttribute(_, _, p) => [p]
    case SqlConsent(c, t, st) => [c, t, st]
    case SqlScore(m, n, _, v) => [m, n, v]
    case SqlCompany(_, _, p) => [p]
  }

  function PlaceholdersAll(parts: seq<Sql>): seq<nat>
    decreases parts, 0
  {
    if parts == [] then [] else Placeholders(parts[0]) + PlaceholdersAll(parts[1..])
  }

  lemma {:induction false} PlaceholdersConcat(a: seq<Sql>, b: seq<Sql>)
    ensures PlaceholdersAll(a + b) == PlaceholdersAll(a) + PlaceholdersAll(b)
  {
    if a == [] {
      assert a + b == b;
    } else {
      assert (a + b)[1..] == a[1..] + b;
      PlaceholdersConcat(a[1..], b);
    }
  }

  /** $(from+3) .. $(upto+2) */
  function Numbers(from: nat, upto: nat): (r: seq<nat>)
    requires from <= upto
    ensures |r| == upto - from && forall i :: 0 <= i < |r| ==> r[i] == from + 3 + i
  {
    seq(upto - from, i requires 0 <= i < upto - from => from + 3 + i)
  }

  lemma NumbersConcat(a: nat, b: nat, c: nat)
    requires a <= b <= c
    ensures Numbers(a, b) + Numbers(b, c) == Numbers(a, c)
  {}

  /** Whenever compilation succeeds it only appends arguments, and the placeholders of its text read
      left to right are exactly $3.. of the appended arguments, each once. */
  lemma {:induction false} PlaceholdersCount(node: Node, args: seq<Value>)
    requires Compile(node, args).Compiled?
    ensures var r := Compile(node, args);
            && args <= r.args
            && (if r.sql.None? then r.args == args else Placeholders(r.sql.value) == Numbers(|args|, |r.args|))
    decreases node, 1
  {
    match node
    case And(cs) => PlaceholdersCountAll(cs, args);
    case Or(cs) => PlaceholdersCountAll(cs, args);
    case Not(c) => PlaceholdersCount(c, args);
    case _ =>
  }

  lemma {:induction false} PlaceholdersCountAll(cs: seq<Node>, args: seq<Value>)
    requires CompileAll(cs, args).CompiledAll?
    ensures var r := CompileAll(cs, args);
            args <= r.args && PlaceholdersAll(r.parts) == Numbers(|args|, |r.args|)
    decreases cs, 0
  {
    if cs != [] {
      var r := Compile(cs[0], args);
      PlaceholdersCount(cs[0], args);
      PlaceholdersCountAll(cs[1..], r.args);
      var rest := CompileAll(cs[1..], r.args);
      var head := if r.sql.Some? then [r.sql.value] else [];
      PlaceholdersConcat(head, rest.parts);
      if r.sql.Some? {
        assert [r.sql.value][1..] == [];
        assert PlaceholdersAll([r.sql.value]) == Placeholders(r.sql.value) + [];
      }
      NumbersConcat(|args|, |r.args|, |rest.args|);
    }
  }
}
