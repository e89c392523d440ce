/** When the compiled audience query and the interpreter agree on a profile. */
module AudienceAgreement {
  import opened Common
  import opened Audience
  import opened AudienceMeaning

  // ---------------------------------------------------------------------------
  // The newest consent

  ghost predicate SameKey(c: ConsentRow, d: ConsentRow) {
    c.tenant == d.tenant && c.app == d.app && c.profile == d.profile && c.channel == d.channel && c.topic == d.topic
  }

  ghost predicate Newest(ledger: seq<ConsentRow>, c: ConsentRow) {
    c in ledger && forall i :: 0 <= i < |ledger| && SameKey(ledger[i], c) ==> ledger[i].at <= c.at
  }

  /** Rows that share the newest instant for one key share their state. */
  ghost predicate Settled(ledger: seq<ConsentRow>) {
    forall c, d :: Newest(ledger, c) && Newest(ledger, d) && SameKey(c, d) ==> c.state == d.state
  }

  ghost predicate Keyed(c: ConsentRow, scope: LedgerScope, profile: string) {
    InScope(c, scope) && c.profile == profile
  }

  lemma NewestExtends(before: seq<ConsentRow>, c: ConsentRow, best: ConsentRow)
    requires Newest(before, best)
    requires SameKey(c, best) ==> c.at <= best.at
    ensures Newest(before + [c], best)
  {}

  lemma {:induction false} LatestByProfileIsNewest(ledger: seq<ConsentRow>, scope: LedgerScope, profile: string,
                                                   tie: Tie)
    ensures var m := LatestByProfile(ledger, scope, tie);
            if profile in m then Newest(ledger, m[profile]) && Keyed(m[profile], scope, profile)
            else forall i :: 0 <= i < |ledger| ==> !Keyed(ledger[i], scope, profile)
  {
    if ledger != [] {
      var before, c := ledger[..|ledger| - 1], ledger[|ledger| - 1];
      assert ledger == before + [c];
      LatestByProfileIsNewest(before, scope, profile, tie);
      var m, m' := LatestByProfile(before, scope, tie), LatestByProfile(ledger, scope, tie);
      if profile in m && profile in m' && m[profile] == m'[profile] { NewestExtends(before, c, m[profile]); }
    }
  }

  lemma {:induction false} LatestOfIsNewest(ledger: seq<ConsentRow>, scope: LedgerScope, profile: string, tie: Tie)
    ensures var m := LatestOf(ledger, scope, profile, tie);
            if m.Some? then Newest(ledger, m.value) && Keyed(m.value, scope, profile)
            else forall i :: 0 <= i < |ledger| ==> !Keyed(ledger[i], scope, profile)
  {
    if ledger != [] {
      var before, c := ledger[..|ledger| - 1], ledger[|ledger| - 1];
      assert ledger == before + [c];
      LatestOfIsNewest(before, scope, profile, tie);
      var m, m' := LatestOf(before, scope, profile, tie), LatestOf(ledger, scope, profile, tie);
      if m.Some? && m == m' { NewestExtends(before, c, m.value); }
    }
  }

  /** The two queries find a consent of the same state, or none. */
  ghost predicate SameConsent(ledger: seq<ConsentRow>, scope: LedgerScope, profile: string, a: Tie, b: Tie) {
    var m, s := LatestByProfile(ledger, scope, a), LatestOf(ledger, scope, profile, b);
    (profile in m <==> s.Some?) && (profile in m && s.Some? ==> m[profile].state == s.value.state)
  }

  lemma SettledQueriesAgree(ledger: seq<ConsentRow>, scope: LedgerScope, profile: string, a: Tie, b: Tie)
    requires Settled(ledger)
    ensures SameConsent(ledger, scope, profile, a, b)
  {
    LatestByProfileIsNewest(ledger, scope, profile, a);
    LatestOfIsNewest(ledger, scope, profile, b);
    var m, s := LatestByProfile(ledger, scope, a), LatestOf(ledger, scope, profile, b);
    if profile in m && s.Some? { assert SameKey(m[profile], s.value); }
  }

  /** The scope that a row's key belongs to, and the tie-break that keeps the row. */
  function ScopeOf(c: ConsentRow): LedgerScope {
    LedgerScope(c.tenant, c.app, Text(c.channel), Text(c.topic))
  }

  function Keep(c: ConsentRow): Tie {
    (old_, new_) => new_ == c
  }

  lemma {:induction false} DistinctKeeps(ledger: seq<ConsentRow>, c: ConsentRow)
    requires forall i :: 0 <= i < |ledger| && SameKey(ledger[i], c) ==> ledger[i].at <= c.at
    ensures var m := LatestByProfile(ledger, ScopeOf(c), Keep(c));
            c in ledger ==> c.profile in m && m[c.profile] == c
  {
    if ledger != [] {
      var before, d := ledger[..|ledger| - 1], ledger[|ledger| - 1];
      assert ledger == before + [d];
      DistinctKeeps(before, c);
      LatestByProfileIsNewest(before, ScopeOf(c), c.profile, Keep(c));
      var m := LatestByProfile(before, ScopeOf(c), Keep(c));
      if c.profile in m { assert SameKey(m[c.profile], c) && m[c.profile].at <= c.at; }
    }
  }

  lemma {:induction false} LimitKeeps(ledger: seq<ConsentRow>, c: ConsentRow)
    requires forall i :: 0 <= i < |ledger| && SameKey(ledger[i], c) ==> ledger[i].at <= c.at
    ensures c in ledger ==> LatestOf(ledger, ScopeOf(c), c.profile, Keep(c)) == Some(c)
  {
    if ledger != [] {
      var before, d := ledger[..|ledger| - 1], ledger[|ledger| - 1];
      assert ledger == before + [d];
      LimitKeeps(before, c);
      LatestOfIsNewest(before, ScopeOf(c), c.profile, Keep(c));
      var m := LatestOf(before, ScopeOf(c), c.profile, Keep(c));
      if m.Some? { assert SameKey(m.value, c) && m.value.at <= c.at; }
    }
  }

  /** DISTINCT ON over all profiles and LIMIT 1 for one profile agree, for every key and whichever of
      equally new rows each keeps, exactly when equally new rows agree. */
  lemma ConsentAgreesIff(ledger: seq<ConsentRow>)
    ensures Settled(ledger) <==> forall scope, profile, a, b :: SameConsent(ledger, scope, profile, a, b)
  {
    if Settled(ledger) {
      forall scope, profile, a, b ensures SameConsent(ledger, scope, profile, a, b) {
        SettledQueriesAgree(ledger, scope, profile, a, b);
      }
    } else {
      var c, d :| Newest(ledger, c) && Newest(ledger, d) && SameKey(c, d) && c.state != d.state;
      DistinctKeeps(ledger, c);
      LimitKeeps(ledger, d);
      assert !SameConsent(ledger, ScopeOf(c), c.profile, Keep(c), Keep(d));
    }
  }

  lemma ConsentAgrees(db: Database, row: Profile, channel: string, topic: string, state: string)
    requires Settled(db.consents)
    ensures ConsentSelected(db, row, Text(channel), Text(topic), Text(state))
            <==> ConsentMatches(db, SubjectOf(row), channel, topic, state)
  {
    var scope := LedgerScope(row.tenant, row.app, Text(channel), Text(topic));
    SettledQueriesAgree(db.consents, scope, row.id, db.distinctTie, db.limitTie);
  }

  // ---------------------------------------------------------------------------
  // Two-valued readings of a tree

  /** NULL conditions read as `nullAs`; with `flips`, a Not turns that reading round for what it negates. */
  predicate Reads(db: Database, row: Profile, node: Node, nullAs: bool, flips: bool)
    requires Gapless(node)
    decreases node, 1
  {
    match node
    case And(cs) => ReadsAll(db, row, cs, nullAs, flips)
    case Or(cs) => ReadsAny(db, row, cs, nullAs, flips)
    case Not(c) => !Reads(db, row, c, nullAs != flips, flips)
    case _ => var t := LeafTri(db, row, node); t.T? || (t.U? && nullAs)
  }

  predicate ReadsAll(db: Database, row: Profile, cs: seq<Node>, nullAs: bool, flips: bool)
    requires GaplessAll(cs)
    decreases cs, 0
  {
    cs == [] || (Reads(db, row, cs[0], nullAs, flips) && ReadsAll(db, row, cs[1..], nullAs, flips))
  }

  predicate ReadsAny(db: Database, row: Profile, cs: seq<Node>, nullAs: bool, flips: bool)
    requires GaplessAll(cs)
    decreases cs, 0
  {
    cs != [] && (Reads(db, row, cs[0], nullAs, flips) || ReadsAny(db, row, cs[1..], nullAs, flips))
  }

  /** SQL's TRUE, and SQL's not-FALSE, are two-valued readings that flip under Not. */
  lemma {:induction false} TriIsReading(db: Database, row: Profile, node: Node)
    requires Gapless(node)
    ensures TreeTri(db, row, node).T? <==> Reads(db, row, node, false, true)
    ensures !TreeTri(db, row, node).F? <==> Reads(db, row, node, true, true)
    decreases node, 1
  {
    match node
    case And(cs) => TriAllIsReading(db, row, cs);
    case Or(cs) => TriAllIsReading(db, row, cs);
    case Not(c) => TriIsReading(db, row, c);
    case _ =>
  }

  lemma {:induction false} TriAllIsReading(db: Database, row: Profile, cs: seq<Node>)
    requires GaplessAll(cs)
    ensures TreeAnd(db, row, cs).T? <==> ReadsAll(db, row, cs, false, true)
    ensures !TreeAnd(db, row, cs).F? <==> ReadsAll(db, row, cs, true, true)
    ensures TreeOr(db, row, cs).T? <==> ReadsAny(db, row, cs, false, true)
    ensures !TreeOr(db, row, cs).F? <==> ReadsAny(db, row, cs, true, true)
    decreases cs, 0
  {
    if cs != [] {
      TriIsReading(db, row, cs[0]);
      TriAllIsReading(db, row, cs[1..]);
    }
  }

  /** For every audience that compiles, the query of CompileProfile selects exactly the rows on which
      the pruned tree is true when NULL reads as false, and as true under an odd number of Nots; a tree
      pruned to nothing selects every row. */
  lemma SelectsIffReading(db: Database, row: Profile, node: Node)
    requires row in db.profiles && Compile(node, []).Compiled?
    ensures Pruned(node).Some? ==> Gapless(Pruned(node).value)
    ensures var r := Compile(node, []);
            Selects(db, row, Params(row, r.args), r.sql)
            <==> (Pruned(node).None? || Reads(db, row, Pruned(node).value, false, true))
  {
    var r := Compile(node, []);
    CompileIgnoresGaps(node, []);
    assert At(Params(row, r.args), 1) == Text(row.tenant) && At(Params(row, r.args), 2) == Text(row.workspace);
    if Pruned(node).Some? {
      Binding(db, row, Pruned(node).value, [], Params(row, r.args));
      TriIsReading(db, row, Pruned(node).value);
    }
  }

  // ---------------------------------------------------------------------------
  // The interpreter reads NULL as false everywhere

  predicate Companyless(node: Node)
    decreases node, 1
  {
    match node
    case And(cs) => CompanylessAll(cs)
    case Or(cs) => CompanylessAll(cs)
    case Not(c) => Companyless(c)
    case Company(_, _, _) => false
    case _ => true
  }

  predicate CompanylessAll(cs: seq<Node>)
    decreases cs, 0
  {
    cs == [] || (Companyless(cs[0]) && CompanylessAll(cs[1..]))
  }

  /** Ids are unique, equally new consents agree, and no query fails. */
  ghost predicate Consistent(db: Database) {
    UniqueIds(db) && Settled(db.consents) && forall leaf :: !db.fails(leaf)
  }

  lemma LeafIsReading(db: Database, row: Profile, leaf: Node, args: seq<Value>)
    requires Consistent(db) && row in db.profiles
    requires leaf.ProfileAttribute? || leaf.Score? || leaf.Consent?
    requires Compile(leaf, args).Compiled?
    ensures Matches(db, SubjectOf(row), leaf) == Some(LeafTri(db, row, leaf).T?)
  {
    if leaf.Consent? {
      ConsentAgrees(db, row, leaf.channel, leaf.topic, leaf.state);
    } else {
      var r := Compile(leaf, []);
      SingleIsOriginal(db, row, Text(row.tenant), Text(row.workspace), r.args, r.sql);
      assert At(Params(row, r.args), 1) == Text(row.tenant) && At(Params(row, r.args), 2) == Text(row.workspace);
      LeafBinding(db, row, leaf, [], Params(row, r.args));
    }
  }

  lemma {:induction false} MatchesIsReading(db: Database, row: Profile, node: Node, args: seq<Value>)
    requires Consistent(db) && row in db.profiles
    requires Gapless(node) && Companyless(node) && Compile(node, args).Compiled?
    ensures Matches(db, SubjectOf(row), node) == Some(Reads(db, row, node, false, false))
    decreases node, 1
  {
    match node
    case And(cs) => MatchesUntilIsReading(db, row, cs, args);
    case Or(cs) => MatchesUntilIsReading(db, row, cs, args);
    case Not(c) => MatchesIsReading(db, row, c, args);
    case _ => LeafIsReading(db, row, node, args);
  }

  lemma {:induction false} MatchesUntilIsReading(db: Database, row: Profile, cs: seq<Node>, args: seq<Value>)
    requires Consistent(db) && row in db.profiles
    requires GaplessAll(cs) && CompanylessAll(cs) && CompileAll(cs, args).CompiledAll?
    ensures MatchesUntil(db, SubjectOf(row), cs, false) == Some(ReadsAll(db, row, cs, false, false))
    ensures MatchesUntil(db, SubjectOf(row), cs, true) == Some(ReadsAny(db, row, cs, false, false))
    decreases cs, 0
  {
    if cs != [] {
      MatchesIsReading(db, row, cs[0], args);
      MatchesUntilIsReading(db, row, cs[1..], Compile(cs[0], args).args);
    }
  }

  // ---------------------------------------------------------------------------
  // Agreement

  lemma {:induction false} ReadingsAreOrdered(db: Database, row: Profile, node: Node)
    requires Gapless(node)
    ensures Reads(db, row, node, false, true) ==> Reads(db, row, node, false, false)
    ensures Reads(db, row, node, false, false) ==> Reads(db, row, node, true, true)
    decreases node, 1
  {
    match node
    case And(cs) => ReadingsOfAllAreOrdered(db, row, cs);
    case Or(cs) => ReadingsOfAllAreOrdered(db, row, cs);
    case Not(c) => ReadingsAreOrdered(db, row, c);
    case _ =>
  }

  lemma {:induction false} ReadingsOfAllAreOrdered(db: Database, row: Profile, cs: seq<Node>)
    requires GaplessAll(cs)
    ensures ReadsAll(db, row, cs, false, true) ==> ReadsAll(db, row, cs, false, false)
    ensures ReadsAll(db, row, cs, false, false) ==> ReadsAll(db, row, cs, true, true)
    ensures ReadsAny(db, row, cs, false, true) ==> ReadsAny(db, row, cs, false, false)
    ensures ReadsAny(db, row, cs, false, false) ==> ReadsAny(db, row, cs, true, true)
    decreases cs, 0
  {
    if cs != [] {
      ReadingsAreOrdered(db, row, cs[0]);
      ReadingsOfAllAreOrdered(db, row, cs[1..]);
    }
  }

  /** No NULL condition stands under an odd (`odd` false) or an even (`odd` true) number of Nots. */
  predicate Clear(db: Database, row: Profile, node: Node, odd: bool)
    requires Gapless(node)
    decreases node, 1
  {
    match node
    case And(cs) => ClearAll(db, row, cs, odd)
    case Or(cs) => ClearAll(db, row, cs, odd)
    case Not(c) => Clear(db, row, c, !odd)
    case _ => odd ==> !LeafTri(db, row, node).U?
  }

  predicate ClearAll(db: Database, row: Profile, cs: seq<Node>, odd: bool)
    requires GaplessAll(cs)
    decreases cs, 0
  {
    cs == [] || (Clear(db, row, cs[0], odd) && ClearAll(db, row, cs[1..], odd))
  }

  lemma {:induction false} ClearReadingsCoincide(db: Database, row: Profile, node: Node, odd: bool)
    requires Gapless(node) && Clear(db, row, node, odd)
    ensures Reads(db, row, node, odd, true) <==> Reads(db, row, node, false, false)
    decreases node, 1
  {
    match node
    case And(cs) => ClearReadingsOfAllCoincide(db, row, cs, odd);
    case Or(cs) => ClearReadingsOfAllCoincide(db, row, cs, odd);
    case Not(c) => ClearReadingsCoincide(db, row, c, !odd);
    case _ =>
  }

  lemma {:induction false} ClearReadingsOfAllCoincide(db: Database, row: Profile, cs: seq<Node>, odd: bool)
    requires GaplessAll(cs) && ClearAll(db, row, cs, odd)
    ensures ReadsAll(db, row, cs, odd, true) <==> ReadsAll(db, row, cs, false, false)
    ensures ReadsAny(db, row, cs, odd, true) <==> ReadsAny(db, row, cs, false, false)
    decreases cs, 0
  {
    if cs != [] {
      ClearReadingsCoincide(db, row, cs[0], odd);
      ClearReadingsOfAllCoincide(db, row, cs[1..], odd);
    }
  }

  lemma {:induction false} GaplessIsPruned(node: Node)
    requires Gapless(node)
    ensures Pruned(node) == Some(node)
    decreases node, 1
  {
    match node
    case And(cs) => GaplessAllIsPruned(cs);
    case Or(cs) => GaplessAllIsPruned(cs);
    case Not(c) => GaplessIsPruned(c);
    case _ =>
  }

  lemma {:induction false} GaplessAllIsPruned(cs: seq<Node>)
    requires GaplessAll(cs)
    ensures PrunedAll(cs) == cs
    decreases cs, 0
  {
    if cs != [] {
      GaplessIsPruned(cs[0]);
      GaplessAllIsPruned(cs[1..]);
    }
  }

  /** If the tree is true with NULL read as false, it stays true with the NULLs under an odd number of
      Nots read as true. */
  predicate KeptTrue(db: Database, row: Profile, node: Node)
    requires Gapless(node)
  {
    Reads(db, row, node, false, false) ==> Reads(db, row, node, false, true)
  }

  /** Compiler against interpreter, on every tree both accept. A selected profile always matches. The
      two agree exactly when the tree, if true with NULL read as false, is still true with the NULLs
      under an odd number of Nots read as true; with no NULL there they agree. */
  lemma CompilerAgreesWithMatches(db: Database, row: Profile, node: Node)
    requires Consistent(db) && row in db.profiles
    requires Gapless(node) && Companyless(node) && Compile(node, []).Compiled?
    ensures var r := Compile(node, []);
            var selected := Selects(db, row, Params(row, r.args), r.sql);
            var matched := Matches(db, SubjectOf(row), node);
            && matched.Some?
            && (selected ==> matched.value)
            && (selected == matched.value <==> KeptTrue(db, row, node))
            && (Clear(db, row, node, false) ==> selected == matched.value)
  {
    GaplessIsPruned(node);
    SelectsIffReading(db, row, node);
    MatchesIsReading(db, row, node, []);
    ReadingsAreOrdered(db, row, node);
    if Clear(db, row, node, false) { ClearReadingsCoincide(db, row, node, false); }
  }

  // ---------------------------------------------------------------------------
  // Trees with dropped conditions

  function Answer(db: Database, row: Profile, node: Node): Option<bool> {
    Matches(db, SubjectOf(row), node)
  }

  /** Every condition the compiler drops is true in its And, or false in its Or. */
  predicate Neutral(db: Database, row: Profile, node: Node)
    decreases node, 1
  {
    match node
    case And(cs) => NeutralAll(db, row, cs, false)
    case Or(cs) => NeutralAll(db, row, cs, true)
    case Not(c) => Neutral(db, row, c)
    case _ => true
  }

  predicate NeutralAll(db: Database, row: Profile, cs: seq<Node>, stop: bool)
    decreases cs, 0
  {
    cs == [] ||
    (&& (if Pruned(cs[0]).None? then Answer(db, row, cs[0]) == Some(!stop) else Neutral(db, row, cs[0]))
     && NeutralAll(db, row, cs[1..], stop))
  }

  lemma {:induction false} NeutralGapsDoNotMatter(db: Database, row: Profile, node: Node)
    requires Neutral(db, row, node) && Pruned(node).Some? && Companyless(node)
    ensures Answer(db, row, node) == Answer(db, row, Pruned(node).value)
    ensures Companyless(Pruned(node).value)
    decreases node, 1
  {
    match node
    case And(cs) => NeutralGapsOfAllDoNotMatter(db, row, cs, false);
    case Or(cs) => NeutralGapsOfAllDoNotMatter(db, row, cs, true);
    case Not(c) => NeutralGapsDoNotMatter(db, row, c);
    case _ =>
  }

  lemma {:induction false} NeutralGapsOfAllDoNotMatter(db: Database, row: Profile, cs: seq<Node>, stop: bool)
    requires NeutralAll(db, row, cs, stop) && CompanylessAll(cs)
    ensures MatchesUntil(db, SubjectOf(row), cs, stop)
            == MatchesUntil(db, SubjectOf(row), PrunedAll(cs), stop)
    ensures CompanylessAll(PrunedAll(cs))
    decreases cs, 0
  {
    if cs != [] {
      NeutralGapsOfAllDoNotMatter(db, row, cs[1..], stop);
      var p, rest := Pruned(cs[0]), PrunedAll(cs[1..]);
      if p.Some? {
        NeutralGapsDoNotMatter(db, row, cs[0]);
        assert ([p.value] + rest)[0] == p.value && ([p.value] + rest)[1..] == rest;
      } else {
        assert [] + rest == rest;
      }
    }
  }

  /** With event history and empty groups too, where each dropped condition is neutral: a selected
      profile matches, and the two agree exactly as on the tree that is left. A tree dropped altogether
      selects everyone. */
  lemma AgreementAcrossGaps(db: Database, row: Profile, node: Node)
    requires Consistent(db) && row in db.profiles
    requires Companyless(node) && Compile(node, []).Compiled?
    ensures Pruned(node).Some? ==> Gapless(Pruned(node).value)
    ensures var r := Compile(node, []);
            var selected := Selects(db, row, Params(row, r.args), r.sql);
            && (Pruned(node).None? ==> selected)
            && (Pruned(node).Some? && Neutral(db, row, node) ==>
                  && Answer(db, row, node).Some?
                  && (selected ==> Answer(db, row, node).value)
                  && (selected == Answer(db, row, node).value <==> KeptTrue(db, row, Pruned(node).value))
                  && (Clear(db, row, Pruned(node).value, false) ==> selected == Answer(db, row, node).value))
  {
    SelectsIffReading(db, row, node);
    if Pruned(node).Some? && Neutral(db, row, node) {
      var p := Pruned(node).value;
      NeutralGapsDoNotMatter(db, row, node);
      CompileIgnoresGaps(node, []);
      MatchesIsReading(db, row, p, []);
      ReadingsAreOrdered(db, row, p);
      if Clear(db, row, p, false) { ClearReadingsCoincide(db, row, p, false); }
    }
  }

  // ---------------------------------------------------------------------------
  // Where they part

  lemma NegatedAttributeReads(db: Database, row: Profile, field: string, op: string, v: Value)
    ensures var node := Not(ProfileAttribute(field, op, v));
            Gapless(node) && Companyless(node) && (KeptTrue(db, row, node) <==> !AttributeTri(db, row, field, op, v).U?)
  {
    var node := Not(ProfileAttribute(field, op, v));
    var t := LeafTri(db, row, node.condition);
    assert Reads(db, row, node, false, false) == !t.T? && Reads(db, row, node, false, true) == t.F?;
  }

  /** A negated attribute condition agrees exactly when the comparison is not NULL. */
  lemma NegatedAttribute(db: Database, row: Profile, field: string, op: string, v: Value)
    requires Consistent(db) && row in db.profiles && SafeField(field) && AttributeOperator(op)
    ensures var node := Not(ProfileAttribute(field, op, v));
            var r := Compile(node, []);
            && r.Compiled?
            && (Some(Selects(db, row, Params(row, r.args), r.sql)) == Matches(db, SubjectOf(row), node)
                <==> !AttributeTri(db, row, field, op, v).U?)
  {
    var node := Not(ProfileAttribute(field, op, v));
    assert Compile(node.condition, []).Compiled?;
    NegatedAttributeReads(db, row, field, op, v);
    CompilerAgreesWithMatches(db, row, node);
  }

  /** An empty Or selects every profile and matches none. */
  lemma EmptyOr(db: Database, row: Profile)
    requires row in db.profiles
    ensures var r := Compile(Or([]), []);
            && r.Compiled? && Selects(db, row, Params(row, r.args), r.sql)
            && Matches(db, SubjectOf(row), Or([])) == Some(false)
  {
    assert CompileAll([], []) == CompiledAll([], []);
    assert At(Params(row, []), 1) == Text(row.tenant) && At(Params(row, []), 2) == Text(row.workspace);
  }

  /** An event-history condition selects every profile, so it agrees exactly where the history holds. */
  lemma HistoryIsDropped(db: Database, row: Profile, eventType: string, op: string, days: int, minCount: int)
    requires row in db.profiles && !db.fails(EventHistory(eventType, op, days, minCount))
    ensures var node := EventHistory(eventType, op, days, minCount);
            var r := Compile(node, []);
            && r.Compiled? && Selects(db, row, Params(row, r.args), r.sql)
            && (Matches(db, SubjectOf(row), node) == Some(true)
                <==> History(db, SubjectOf(row), eventType, op, days, minCount))
  {
    assert At(Params(row, []), 1) == Text(row.tenant) && At(Params(row, []), 2) == Text(row.workspace);
  }

  /** The profile row a question is about. */
  ghost predicate IsSubject(row: Profile, who: Subject) {
    row.tenant == who.tenant && row.workspace == who.workspace && row.id == who.profile
  }

  lemma {:induction false} ExternalIdOf(profiles: seq<Profile>, who: Subject, external: string)
    requires forall i :: 0 <= i < |profiles| && IsSubject(profiles[i], who) ==> profiles[i].external == external
    requires external == "" || exists i :: 0 <= i < |profiles| && IsSubject(profiles[i], who)
    ensures ExternalId(profiles, who) == external
  {
    if profiles != [] && !IsSubject(profiles[0], who) {
      assert forall i :: 0 <= i < |profiles| - 1 ==> profiles[1..][i] == profiles[i + 1];
      if i :| 0 <= i < |profiles| && IsSubject(profiles[i], who) {
        assert profiles[1..][i - 1] == profiles[i];
      }
      ExternalIdOf(profiles[1..], who, external);
    }
  }

  /** An event-history condition on a profile with an external id asks for at least one event and at least
      `minCount` of them; `has_not_occurred`, and no other operator, answers the opposite. */
  lemma HistoryCountsEvents(db: Database, who: Subject, row: Profile, eventType: string, op: string, days: int,
                            minCount: int)
    requires UniqueIds(db) && row in db.profiles && IsSubject(row, who) && row.external != ""
    requires !db.fails(EventHistory(eventType, op, days, minCount))
    ensures var n := db.events(who, eventType, days, row.external);
            var enough := n > 0 && n >= minCount;
            Matches(db, who, EventHistory(eventType, op, days, minCount)) ==
            Some(if op == "has_not_occurred" then !enough else enough)
  {
    forall i | 0 <= i < |db.profiles| && IsSubject(db.profiles[i], who)
      ensures db.profiles[i].external == row.external
    {
      var k :| 0 <= k < |db.profiles| && db.profiles[k] == row;
      assert db.profiles[i].id == db.profiles[k].id;
    }
    ExternalIdOf(db.profiles, who, row.external);
  }

  /** Without an external id nothing can have occurred. */
  lemma HistoryWithoutExternalId(db: Database, who: Subject, eventType: string, op: string, days: int, minCount: int)
    requires forall i :: 0 <= i < |db.profiles| && IsSubject(db.profiles[i], who) ==> db.profiles[i].external == ""
    requires !db.fails(EventHistory(eventType, op, days, minCount))
    ensures Matches(db, who, EventHistory(eventType, op, days, minCount)) == Some(op == "has_not_occurred")
  {
    ExternalIdOf(db.profiles, who, "");
  }

  /** A company condition compiles, and Matches refuses it. */
  lemma CompanyIsRefused(db: Database, row: Profile, field: string, op: string, v: Value)
    requires SafeField(field) && CompanyOperator(op)
    ensures Compile(Company(field, op, v), []).Compiled?
    ensures Matches(db, SubjectOf(row), Company(field, op, v)) == None
  {}

  /** Evaluated for any app, Matches answers a consent condition as the query would if the profile
      belonged to that app; the two agree exactly when both apps' newest consents answer alike. */
  lemma ConsentOfApp(db: Database, row: Profile, app: string, channel: string, topic: string, state: string)
    requires Consistent(db)
    ensures var node := Consent(channel, topic, state);
            var matched := Matches(db, SubjectOf(row).(app := app), node);
            var own := ConsentSelected(db, row, Text(channel), Text(topic), Text(state));
            var other := ConsentSelected(db, row.(app := app), Text(channel), Text(topic), Text(state));
            matched == Some(other) && (matched == Some(own) <==> own == other)
  {
    assert SubjectOf(row.(app := app)) == SubjectOf(row).(app := app);
    ConsentAgrees(db, row.(app := app), channel, topic, state);
  }

  /** A consent given in the profile's app only is missed when evaluating for another app. */
  lemma OtherAppMisses(db: Database, row: Profile, app: string)
    requires app != row.app
    requires db.consents == [ConsentRow(row.tenant, row.app, row.id, "email", "news", "subscribed", 0)]
    ensures ConsentSelected(db, row, Text("email"), Text("news"), Text("subscribed"))
    ensures !ConsentSelected(db, row.(app := app), Text("email"), Text("news"), Text("subscribed"))
  {
    assert db.consents[..0] == [];
    assert LatestByProfile([], LedgerScope(row.tenant, row.app, Text("email"), Text("news")), db.distinctTie) == map[];
    assert LatestByProfile([], LedgerScope(row.tenant, app, Text("email"), Text("news")), db.distinctTie) == map[];
  }
}
