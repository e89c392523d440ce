/** Source events, their idempotency keys and the row accounting of a warehouse sync
    (internal/operations/operations.go, internal/postgres/store.go AcceptEvents). */
module SourceSync {
  import opened Text
  import opened S3Source

  datatype Event = Event(key: string, externalID: string, anonymousID: string, body: string, occurredAt: int)

  type EventStore = map<string, Event>

  datatype Accepted = Conflict | Stored(store: EventStore)

  datatype Status = Succeeded | AllRejected

  datatype RunReport = RunReport(rowsIn: nat, rowsOut: nat, rowsRejected: nat, commit: bool, status: Status)

  function IdempotencyKey(connector: string, version: nat, cursor: string, i: nat): string {
    connector + ":" + Itoa(version) + ":" + cursor + ":" + Itoa(i)
  }

  predicate Identified(row: Row) {
    row.externalID != "" || row.anonymousID != ""
  }

  /** `now` is the clock reading for this row, to the microsecond the store keeps. */
  function EventOf(connector: string, version: nat, cursor: string, row: Row, i: nat, now: int): Event {
    Event(IdempotencyKey(connector, version, cursor, i), row.externalID, row.anonymousID, row.body, now)
  }

  /** The events of the first `n` rows; the clock is read for each row. */
  function EventsOf(connector: string, version: nat, cursor: string, rows: seq<Row>, now: nat -> int,
      n: nat): seq<Event>
    requires n <= |rows|
  {
    if n == 0 then []
    else EventsOf(connector, version, cursor, rows, now, n - 1) +
         if Identified(rows[n - 1]) then [EventOf(connector, version, cursor, rows[n - 1], n - 1, now(n - 1))] else []
  }

  method MakeSourceEvents(rows: seq<Row>, connector: string, version: nat, cursor: string, now: nat -> int)
    returns (events: seq<Event>, rejects: seq<nat>)
    ensures events == EventsOf(connector, version, cursor, rows, now, |rows|)
    ensures |events| + |rejects| == |rows|
    ensures forall r: nat :: r in rejects <==> r < |rows| && !Identified(rows[r])
  {
    events, rejects := [], [];
    for i := 0 to |rows|
      invariant events == EventsOf(connector, version, cursor, rows, now, i)
      invariant |events| + |rejects| == i
      invariant forall r: nat :: r in rejects <==> r < i && !Identified(rows[r])
    {
      if !Identified(rows[i]) {
        rejects := rejects + [i];
      } else {
        events := events + [EventOf(connector, version, cursor, rows[i], i, now(i))];
      }
    }
  }

  /** The identified rows among the first `n`. */
  function Identifiable(rows: seq<Row>, n: nat): nat
    requires n <= |rows|
  {
    if n == 0 then 0 else Identifiable(rows, n - 1) + if Identified(rows[n - 1]) then 1 else 0
  }

  /** Every identified row has its event at its place among them, with the row's own identity, body and
      clock reading, under the key of its position on the page. */
  lemma {:induction false} EventMatchesRow(connector: string, version: nat, cursor: string, rows: seq<Row>,
                                           now: nat -> int, n: nat, i: nat)
    requires i < n <= |rows| && Identified(rows[i])
    ensures var events := EventsOf(connector, version, cursor, rows, now, n);
            && |events| == Identifiable(rows, n) && Identifiable(rows, i) < |events|
            && var e := events[Identifiable(rows, i)];
               && e.externalID == rows[i].externalID && e.anonymousID == rows[i].anonymousID
               && e.body == rows[i].body && e.occurredAt == now(i)
               && e.key == connector + ":" + Itoa(version) + ":" + cursor + ":" + Itoa(i)
  {
    EventCount(connector, version, cursor, rows, now, n - 1);
    if i < n - 1 { EventMatchesRow(connector, version, cursor, rows, now, n - 1, i); }
  }

  lemma {:induction false} EventCount(connector: string, version: nat, cursor: string, rows: seq<Row>,
                                      now: nat -> int, n: nat)
    requires n <= |rows|
    ensures |EventsOf(connector, version, cursor, rows, now, n)| == Identifiable(rows, n)
  {
    if n > 0 { EventCount(connector, version, cursor, rows, now, n - 1); }
  }

  // ---------------------------------------------------------------------------
  // Idempotency keys

  lemma KeyInjective(connector: string, version: nat, c: string, i: nat, c': string, i': nat)
    requires i <= MAX_INT && i' <= MAX_INT
    requires IdempotencyKey(connector, version, c, i) == IdempotencyKey(connector, version, c', i')
    ensures c == c' && i == i'
  {
    var prefix := connector + ":" + Itoa(version) + ":";
    assert IdempotencyKey(connector, version, c, i) == prefix + CursorText(c, i);
    assert IdempotencyKey(connector, version, c', i') == prefix + CursorText(c', i');
    assert (prefix + CursorText(c, i))[|prefix|..] == CursorText(c, i);
    assert (prefix + CursorText(c', i'))[|prefix|..] == CursorText(c', i');
    CursorRoundTrip(c, i);
    CursorRoundTrip(c', i');
  }

  /** The cursor page `n` of a sync is read from. */
  ghost function CursorAt(cursor: string, pages: seq<Page>, n: nat): string
    requires n <= |pages|
  {
    LastCursor(cursor, pages[..n])
  }

  /** A page leaves no more than there was, and less unless it is empty. */
  lemma PageLeaves(src: Source, cursor: string, limit: int, p: Page)
    requires IsPage(src, cursor, limit, p)
    ensures |Rest(src, p.next)| <= |Rest(src, cursor)|
    ensures p.rows != [] ==> |Rest(src, p.next)| < |Rest(src, cursor)|
  {}

  /** Page `n` of a sync is page `n - 1` of the sync that begins at the next cursor. */
  lemma NextCursorAt(cursor: string, pages: seq<Page>, n: nat)
    requires 0 < n <= |pages| && pages[0].Page?
    ensures CursorAt(cursor, pages, n) == CursorAt(pages[0].next, pages[1..], n - 1)
  {
    assert pages[..n][1..] == pages[1..][..n - 1] && pages[..n][0] == pages[0];
  }

  /** What is left at a cursor never grows from page to page, and shrinks with every row read. */
  ghost predicate Shrinks(left: string -> nat, cursor: string, pages: seq<Page>)
    decreases |pages|
  {
    pages == [] ||
    (&& pages[0].Page? && left(pages[0].next) <= left(cursor)
     && (pages[0].rows != [] ==> left(pages[0].next) < left(cursor))
     && Shrinks(left, pages[0].next, pages[1..]))
  }

  lemma {:induction false} NeverGrows(left: string -> nat, cursor: string, pages: seq<Page>, n: nat)
    requires Shrinks(left, cursor, pages) && n <= |pages|
    ensures left(CursorAt(cursor, pages, n)) <= left(cursor)
    decreases n
  {
    if n > 0 {
      NeverGrows(left, pages[0].next, pages[1..], n - 1);
      NextCursorAt(cursor, pages, n);
    }
  }

  lemma {:induction false} LaterIsLess(left: string -> nat, cursor: string, pages: seq<Page>, a: nat, b: nat)
    requires Shrinks(left, cursor, pages) && a < b < |pages| && pages[a].Page? && pages[a].rows != []
    ensures left(CursorAt(cursor, pages, b)) < left(CursorAt(cursor, pages, a))
    decreases a
  {
    NextCursorAt(cursor, pages, b);
    if a == 0 {
      NeverGrows(left, pages[0].next, pages[1..], b - 1);
    } else {
      NextCursorAt(cursor, pages, a);
      LaterIsLess(left, pages[0].next, pages[1..], a - 1, b - 1);
    }
  }

  lemma {:induction false} SyncShrinks(src: Source, cursor: string, limits: seq<int>, pages: seq<Page>)
    requires IsSync(src, cursor, limits, pages)
    ensures Shrinks(c => |Rest(src, c)|, cursor, pages)
    decreases |pages|
  {
    if pages != [] {
      PageLeaves(src, cursor, limits[0], pages[0]);
      SyncShrinks(src, pages[0].next, limits[1..], pages[1..]);
    }
  }

  /** Over a whole sync no two rows, of the same or of different pages, share an idempotency key. */
  lemma KeysUniqueOverSync(src: Source, limits: seq<int>, pages: seq<Page>, connector: string, version: nat,
                           a: nat, i: nat, b: nat, j: nat)
    requires IsSync(src, "", limits, pages) && a <= b < |pages|
    requires pages[a].Page? && i < |pages[a].rows| <= MAX_INT
    requires pages[b].Page? && j < |pages[b].rows| <= MAX_INT
    requires IdempotencyKey(connector, version, CursorAt("", pages, a), i) ==
             IdempotencyKey(connector, version, CursorAt("", pages, b), j)
    ensures a == b && i == j
  {
    KeyInjective(connector, version, CursorAt("", pages, a), i, CursorAt("", pages, b), j);
    if a < b {
      SyncShrinks(src, "", limits, pages);
      LaterIsLess(c => |Rest(src, c)|, "", pages, a, b);
    }
  }

  // ---------------------------------------------------------------------------
  // AcceptEvents

  /** One transaction: a known key with the same content is a no-op, with other content refuses the batch. */
  function Accept(store: EventStore, batch: seq<Event>): Accepted
    decreases batch
  {
    if batch == [] then Stored(store)
    else if batch[0].key !in store then Accept(store[batch[0].key := batch[0]], batch[1..])
    else if store[batch[0].key] == batch[0] then Accept(store, batch[1..])
    else Conflict
  }

  lemma {:induction false} AcceptKeeps(store: EventStore, batch: seq<Event>)
    requires Accept(store, batch).Stored?
    ensures var s := Accept(store, batch).store;
            && (forall k :: k in store ==> k in s && s[k] == store[k])
            && (forall k :: k in s && k !in store ==> exists i :: 0 <= i < |batch| && batch[i].key == k)
            && (forall i :: 0 <= i < |batch| ==> batch[i].key in s && s[batch[i].key] == batch[i])
    decreases batch
  {
    if batch != [] {
      var e := batch[0];
      var next := if e.key !in store then store[e.key := e] else store;
      AcceptKeeps(next, batch[1..]);
      var s := Accept(store, batch).store;
      assert e.key in next && s[e.key] == e;
      forall i | 0 <= i < |batch|
        ensures batch[i].key in s && s[batch[i].key] == batch[i]
      {
        if i > 0 { assert batch[1..][i - 1] == batch[i]; }
      }
      forall k | k in s && k !in store
        ensures exists i :: 0 <= i < |batch| && batch[i].key == k
      {
        if k != e.key {
          var i :| 0 <= i < |batch[1..]| && batch[1..][i].key == k;
          assert batch[i + 1].key == k;
        } else {
          assert batch[0].key == k;
        }
      }
    }
  }

  lemma {:induction false} AcceptKnown(store: EventStore, batch: seq<Event>)
    requires forall i :: 0 <= i < |batch| ==> batch[i].key in store
    ensures Accept(store, batch) ==
              if forall i :: 0 <= i < |batch| ==> store[batch[i].key] == batch[i] then Stored(store) else Conflict
    decreases batch
  {
    if batch != [] {
      assert forall i :: 0 <= i < |batch[1..]| ==> batch[1..][i] == batch[i + 1];
      if store[batch[0].key] == batch[0] {
        AcceptKnown(store, batch[1..]);
        assert (forall i :: 0 <= i < |batch| ==> store[batch[i].key] == batch[i]) <==>
               (forall i :: 0 <= i < |batch[1..]| ==> store[batch[1..][i].key] == batch[1..][i]);
      }
    }
  }

  // ---------------------------------------------------------------------------
  // Row accounting

  datatype Outcome = Outcome(store: EventStore, accepted: nat)

  function BatchEnd(n: nat, size: nat, start: nat): nat {
    if start + size > n then n else start + size
  }

  /** The events from `start` on, batch by batch; a batch is refused on a conflict, or when the store
      fails for another reason. */
  function Batches(store: EventStore, events: seq<Event>, size: nat, start: nat, fails: nat -> bool): Outcome
    requires size > 0
    decreases |events| - start
  {
    if start >= |events| then Outcome(store, 0)
    else
      var end := BatchEnd(|events|, size, start);
      var r := if fails(start) then Conflict else Accept(store, events[start..end]);
      var rest := Batches(if r.Stored? then r.store else store, events, size, start + size, fails);
      rest.(accepted := rest.accepted + if r.Stored? then end - start else 0)
  }

  /** The batch loop of a sync run. */
  method Sync(store: EventStore, rows: seq<Row>, connector: string, version: nat, cursor: string, now: nat -> int,
              size: nat, fails: nat -> bool)
    returns (report: RunReport, newStore: EventStore)
    requires size > 0
    ensures report.rowsIn == |rows| == report.rowsOut + report.rowsRejected
    ensures var events := EventsOf(connector, version, cursor, rows, now, |rows|);
            && Outcome(newStore, report.rowsOut) == Batches(store, events, size, 0, fails)
            && (report.commit <==> report.rowsOut == |events|)
    ensures report.status == AllRejected <==> rows != [] && report.rowsOut == 0
  {
    var events, rejects := MakeSourceEvents(rows, connector, version, cursor, now);
    var rowsOut: nat, rejected: nat, commit := 0, |rejects|, true;
    newStore := store;
    var start := 0;
    while start < |events|
      invariant rowsOut + rejected == |rejects| + (if start < |events| then start else |events|)
      invariant rejected >= |rejects| && (commit <==> rejected == |rejects|)
      invariant var rest := Batches(newStore, events, size, start, fails);
                rest.(accepted := rest.accepted + rowsOut) == Batches(store, events, size, 0, fails)
    {
      var end := BatchEnd(|events|, size, start);
      var r := if fails(start) then Conflict else Accept(newStore, events[start..end]);
      if r.Conflict? {
        commit := false;
        rejected := rejected + (end - start);
      } else {
        newStore := r.store;
        rowsOut := rowsOut + (end - start);
      }
      start := start + size;
    }
    report := RunReport(|rows|, rowsOut, rejected, commit,
      if rejected == |rows| && rows != [] then AllRejected else Succeeded);
  }

  // ---------------------------------------------------------------------------
  // Reading a page again

  lemma {:induction false} SameKeys(connector: string, version: nat, cursor: string, rows: seq<Row>,
                                    now: nat -> int, now': nat -> int, n: nat)
    requires n <= |rows|
    ensures var a, b := EventsOf(connector, version, cursor, rows, now, n),
            EventsOf(connector, version, cursor, rows, now', n);
            |a| == |b| && forall i :: 0 <= i < |a| ==> b[i] == a[i].(occurredAt := b[i].occurredAt)
  {
    if n > 0 { SameKeys(connector, version, cursor, rows, now, now', n - 1); }
  }

  predicate Holds(store: EventStore, e: Event) {
    e.key in store && store[e.key] == e
  }

  lemma {:induction false} BatchesKeep(store: EventStore, events: seq<Event>, size: nat, start: nat, fails: nat -> bool)
    requires size > 0
    ensures var r := Batches(store, events, size, start, fails);
            && r.accepted <= (if start < |events| then |events| - start else 0)
            && (forall k :: k in store ==> k in r.store && r.store[k] == store[k])
            && (start < |events| && r.accepted == |events| - start ==>
                  forall i :: start <= i < |events| ==> Holds(r.store, events[i]))
    decreases |events| - start
  {
    if start < |events| {
      var end := BatchEnd(|events|, size, start);
      var batch := events[start..end];
      var b := if fails(start) then Conflict else Accept(store, batch);
      var next := if b.Stored? then b.store else store;
      BatchesKeep(next, events, size, start + size, fails);
      if b.Stored? {
        AcceptKeeps(store, batch);
        forall i | start <= i < end ensures Holds(next, events[i]) { assert batch[i - start] == events[i]; }
      }
    }
  }

  /** The events of the batches that are not failing and carry the very same clock readings. */
  function Unchanged(a: seq<Event>, b: seq<Event>, size: nat, start: nat, fails: nat -> bool): nat
    requires size > 0 && |a| == |b|
    decreases |a| - start
  {
    if start >= |a| then 0
    else
      var end := BatchEnd(|a|, size, start);
      (if !fails(start) && a[start..end] == b[start..end] then end - start else 0) +
          Unchanged(a, b, size, start + size, fails)
  }

  /** A batch whose keys are all known is accepted again exactly when it is the same batch. */
  lemma AcceptAgain(store: EventStore, a: seq<Event>, b: seq<Event>)
    requires |a| == |b| && forall i :: 0 <= i < |a| ==> Holds(store, a[i]) && b[i].key == a[i].key
    ensures Accept(store, b) == if a == b then Stored(store) else Conflict
  {
    forall i | 0 <= i < |b| ensures b[i].key in store && store[b[i].key] == a[i] {
      assert Holds(store, a[i]);
    }
    AcceptKnown(store, b);
    if forall i :: 0 <= i < |b| ==> store[b[i].key] == b[i] {
      forall i | 0 <= i < |b| ensures a[i] == b[i] { assert store[b[i].key] == b[i]; }
    }
  }

  lemma {:induction false} KnownBatches(store: EventStore, a: seq<Event>, b: seq<Event>, size: nat, start: nat,
                                        fails: nat -> bool)
    requires size > 0 && |a| == |b|
    requires forall i :: 0 <= i < |a| ==> Holds(store, a[i]) && b[i].key == a[i].key
    ensures Batches(store, b, size, start, fails) == Outcome(store, Unchanged(a, b, size, start, fails))
    decreases |a| - start
  {
    if start < |a| {
      var end := BatchEnd(|a|, size, start);
      AcceptAgain(store, a[start..end], b[start..end]);
      KnownBatches(store, a, b, size, start + size, fails);
    }
  }

  /** Syncing an accepted page again leaves the store as it is. A batch is accepted again exactly when
      it does not fail and every one of its rows reads the same microsecond as the first time; any
      other batch is refused as a whole. */
  lemma ReplayedPage(store: EventStore, connector: string, version: nat, cursor: string, rows: seq<Row>,
                     now: nat -> int, now': nat -> int, size: nat, fails: nat -> bool, fails': nat -> bool)
    requires size > 0
    requires var events := EventsOf(connector, version, cursor, rows, now, |rows|);
             Batches(store, events, size, 0, fails).accepted == |events|
    ensures var a, b := EventsOf(connector, version, cursor, rows, now, |rows|),
            EventsOf(connector, version, cursor, rows, now', |rows|);
            var s := Batches(store, a, size, 0, fails).store;
            |a| == |b| && Batches(s, b, size, 0, fails') == Outcome(s, Unchanged(a, b, size, 0, fails'))
  {
    var a, b := EventsOf(connector, version, cursor, rows, now, |rows|),
        EventsOf(connector, version, cursor, rows, now', |rows|);
    SameKeys(connector, version, cursor, rows, now, now', |rows|);
    BatchesKeep(store, a, size, 0, fails);
    KnownBatches(Batches(store, a, size, 0, fails).store, a, b, size, 0, fails');
  }
}
