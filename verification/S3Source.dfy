/** Cursor paging over object rows (internal/connector/s3.go). Objects are already parsed into rows. */
module S3Source {
  import opened Text

  datatype Row = Row(externalID: string, anonymousID: string, body: string)

  /** An object's rows, or an open or parse error. */
  datatype Object = Unreadable | Rows(rows: seq<Row>)

  /** `keys` is the listing after sort.Strings. */
  datatype Source = Source(keys: seq<string>, objects: map<string, Object>)

  datatype Page = Failed(cursor: string) | Page(rows: seq<Row>, next: string)

  ghost predicate Valid(src: Source) {
    && (forall i, j :: 0 <= i < j < |src.keys| ==> Less(src.keys[i], src.keys[j]))
    && (forall i :: 0 <= i < |src.keys| ==> src.keys[i] in src.objects)
    && (forall k :: k in src.objects && src.objects[k].Rows? ==> |src.objects[k].rows| <= MAX_INT)
  }

  function Lower(s: string): string {
    seq(|s|, i requires 0 <= i < |s| => if 'A' <= s[i] <= 'Z' then (s[i] as int + 32) as char else s[i])
  }

  /** path.Ext of the first `n` characters. */
  function Ext(key: string, n: nat): string
    requires n <= |key|
  {
    if n == 0 || key[n - 1] == '/' then "" else if key[n - 1] == '.' then key[n - 1..] else Ext(key, n - 1)
  }

  predicate Supported(key: string) {
    Lower(Ext(key, |key|)) in {".csv", ".jsonl", ".ndjson"}
  }

  /** fmt.Sprintf("%s:%d", key, row) */
  function CursorText(key: string, row: nat): string {
    key + ":" + Itoa(row)
  }

  function CursorParts(cursor: string): (string, nat) {
    var i := LastIndex(cursor, ':');
    if i < 0 then ("", 0)
    else match Atoi(cursor[i + 1..])
      case NoNumber => (cursor, 0)
      case Number(n) => if n < 0 then (cursor, 0) else (cursor[..i], n)
  }

  /** The cursor survives its text form, also for keys that contain colons. */
  lemma CursorRoundTrip(key: string, row: nat)
    requires row <= MAX_INT
    ensures CursorParts(CursorText(key, row)) == (key, row)
  {
    var c := CursorText(key, row);
    AtoiRoundTrip(row);
    assert c[|key|] == ':';
    assert forall j :: |key| < j < |c| ==> c[j] == Itoa(row)[j - |key| - 1] && IsDigit(c[j]);
    assert LastIndex(c, ':') == |key|;
    assert c[|key| + 1..] == Itoa(row);
    assert c[..|key|] == key;
  }

  // ---------------------------------------------------------------------------
  // What is left to read

  function Drop(rows: seq<Row>, n: nat): seq<Row> {
    if n <= |rows| then rows[n..] else []
  }

  /** The rows of object `k` that a read starting at (`startKey`, `startRow`) still returns. */
  ghost function Share(src: Source, k: nat, startKey: string, startRow: nat): seq<Row>
    requires k < |src.keys|
  {
    var key := src.keys[k];
    if key !in src.objects || (startKey != "" && Less(key, startKey)) || !Supported(key) ||
        src.objects[key].Unreadable? then []
    else Drop(src.objects[key].rows, if key == startKey then startRow else 0)
  }

  ghost function From(src: Source, k: nat, startKey: string, startRow: nat): seq<Row>
    requires k <= |src.keys|
    decreases |src.keys| - k
  {
    if k == |src.keys| then [] else Share(src, k, startKey, startRow) + From(src, k + 1, startKey, startRow)
  }

  ghost function Rest(src: Source, cursor: string): seq<Row> {
    From(src, 0, CursorParts(cursor).0, CursorParts(cursor).1)
  }

  ghost function AllRows(src: Source): seq<Row> {
    From(src, 0, "", 0)
  }

  ghost predicate Readable(src: Source) {
    forall i :: 0 <= i < |src.keys| && Supported(src.keys[i]) ==>
      src.keys[i] in src.objects && src.objects[src.keys[i]].Rows?
  }

  lemma {:induction false} PastStart(src: Source, k: nat, startKey: string, startRow: nat)
    requires Valid(src) && k <= |src.keys|
    requires startKey == "" || forall j :: k <= j < |src.keys| ==> Less(startKey, src.keys[j])
    ensures From(src, k, startKey, startRow) == From(src, k, "", 0)
    decreases |src.keys| - k
  {
    if k < |src.keys| {
      PastStart(src, k + 1, startKey, startRow);
      if startKey != "" { LessAsymmetric(startKey, src.keys[k]); }
    }
  }

  lemma SkippedShare(src: Source, from: nat, k: nat, row: nat)
    requires Valid(src) && from < k < |src.keys| && src.keys[k] != ""
    ensures Share(src, from, src.keys[k], row) == []
  {}

  lemma {:induction false} SkipTo(src: Source, from: nat, k: nat, row: nat)
    requires Valid(src) && from <= k < |src.keys| && src.keys[k] != ""
    ensures From(src, from, src.keys[k], row) == From(src, k, src.keys[k], row)
    decreases k - from
  {
    if from < k {
      SkipTo(src, from + 1, k, row);
      SkippedShare(src, from, k, row);
    }
  }

  lemma SupportedNonEmpty(key: string)
    requires Supported(key)
    ensures key != ""
  {
    assert |Lower(Ext(key, |key|))| == |Ext(key, |key|)|;
  }

  /** The cursor text for row `i` of object `k` denotes exactly the rows from there on. */
  lemma RestAt(src: Source, k: nat, i: nat)
    requires Valid(src) && k < |src.keys| && Supported(src.keys[k])
    requires src.objects[src.keys[k]].Rows? && i <= |src.objects[src.keys[k]].rows|
    ensures Rest(src, CursorText(src.keys[k], i)) == src.objects[src.keys[k]].rows[i..] + From(src, k + 1, "", 0)
  {
    var key := src.keys[k];
    assert key != "" by { SupportedNonEmpty(key); }
    CursorRoundTrip(key, i);
    SkipTo(src, 0, k, i);
    LessIrreflexive(key);
    PastStart(src, k + 1, key, i);
  }

  /** The inner loop of Read over the rows of object `k`; `full` when the limit stops it. */
  method TakeRows(src: Source, k: nat, rowStart: nat, soFar: seq<Row>, cursor: string, limit: nat, ghost todo: seq<Row>)
    returns (out: seq<Row>, last: string, full: bool)
    requires Valid(src) && k < |src.keys| && Supported(src.keys[k]) && src.objects[src.keys[k]].Rows?
    requires |soFar| <= limit
    requires soFar + Rest(src, cursor) == todo
    requires Rest(src, cursor) == Drop(src.objects[src.keys[k]].rows, rowStart) + From(src, k + 1, "", 0)
    ensures |out| <= limit && out + Rest(src, last) == todo
    ensures full ==> |out| == limit
    ensures !full ==> Rest(src, last) == From(src, k + 1, "", 0)
  {
    out, last := soFar, cursor;
    var key, rows := src.keys[k], src.objects[src.keys[k]].rows;
    var i := rowStart;
    while i < |rows|
      invariant rowStart <= i && |out| <= limit
      invariant out + (Drop(rows, i) + From(src, k + 1, "", 0)) == todo
      invariant Rest(src, last) == Drop(rows, i) + From(src, k + 1, "", 0)
    {
      if |out| == limit {
        RestAt(src, k, i);
        return out, CursorText(key, i), true;
      }
      MoveRow(out, rows, i, From(src, k + 1, "", 0));
      out := out + [rows[i]];
      RestAt(src, k, i + 1);
      last := CursorText(key, i + 1);
      i := i + 1;
    }
    assert Drop(rows, i) == [];
    return out, last, false;
  }

  method Read(src: Source, cursor: string, limit: int) returns (p: Page)
    requires Valid(src)
    ensures limit <= 0 ==> p == Failed(cursor)
    ensures p.Failed? ==> p.cursor == cursor && (limit <= 0 || !Readable(src))
    ensures p.Page? ==> IsPage(src, cursor, limit, p)
  {
    if limit <= 0 { return Failed(cursor); }
    var (startKey, startRow) := CursorParts(cursor);
    ghost var todo := Rest(src, cursor);
    var out, last := [], cursor;
    for k := 0 to |src.keys|
      invariant |out| <= limit
      invariant out + Rest(src, last) == todo
      invariant Rest(src, last) == From(src, k, startKey, startRow)
    {
      var key := src.keys[k];
      if startKey != "" && Less(key, startKey) { continue; }
      var rowStart := if key == startKey then startRow else 0;
      if !Supported(key) { continue; }
      if src.objects[key].Unreadable? { return Failed(cursor); }
      AfterStart(src, k, startKey, startRow);
      var full;
      out, last, full := TakeRows(src, k, rowStart, out, last, limit, todo);
      if full {
        Split(todo, out, Rest(src, last));
        return Page(out, last);
      }
    }
    Split(todo, out, []);
    return Page(out, last);
  }

  lemma MoveRow(out: seq<Row>, rows: seq<Row>, i: nat, tail: seq<Row>)
    requires i < |rows|
    ensures out + (Drop(rows, i) + tail) == (out + [rows[i]]) + (Drop(rows, i + 1) + tail)
  {
    assert rows[i..] == [rows[i]] + rows[i + 1..];
  }

  lemma Split(s: seq<Row>, a: seq<Row>, b: seq<Row>)
    requires s == a + b
    ensures s[..|a|] == a && s[|a|..] == b
  {}

  /** Once a key is not skipped, the start position matters to no later key. */
  lemma AfterStart(src: Source, k: nat, startKey: string, startRow: nat)
    requires Valid(src) && k < |src.keys|
    requires startKey == "" || !Less(src.keys[k], startKey)
    ensures From(src, k + 1, startKey, startRow) == From(src, k + 1, "", 0)
  {
    if startKey != "" {
      forall j | k + 1 <= j < |src.keys|
        ensures Less(startKey, src.keys[j])
      {
        Total(src.keys[k], startKey);
        if startKey != src.keys[k] { LessTransitive(startKey, src.keys[k], src.keys[j]); }
      }
    }
    PastStart(src, k + 1, startKey, startRow);
  }

  lemma {:induction false} Total(a: string, b: string)
    ensures Less(a, b) || a == b || Less(b, a)
  {
    if a != "" && b != "" && a[0] == b[0] { Total(a[1..], b[1..]); }
  }

  /** A page is the next `limit` rows, and its cursor denotes exactly what follows. */
  ghost predicate IsPage(src: Source, cursor: string, limit: int, p: Page)
  {
    var todo := Rest(src, cursor);
    && limit > 0 && p.Page?
    && p.rows == todo[..if limit < |todo| then limit else |todo|]
    && Rest(src, p.next) == todo[|p.rows|..]
  }

  /** A sync: each page is read from the cursor the page before it returned, with any limits. */
  ghost predicate IsSync(src: Source, cursor: string, limits: seq<int>, pages: seq<Page>)
    decreases pages
  {
    && |limits| == |pages|
    && (pages != [] ==> IsPage(src, cursor, limits[0], pages[0]) && IsSync(src, pages[0].next, limits[1..], pages[1..]))
  }

  ghost function RowsOf(pages: seq<Page>): seq<Row> {
    if pages == [] then [] else (if pages[0].Page? then pages[0].rows else []) + RowsOf(pages[1..])
  }

  ghost function LastCursor(cursor: string, pages: seq<Page>): string
    decreases pages
  {
    if pages == [] then cursor else LastCursor(if pages[0].Page? then pages[0].next else cursor, pages[1..])
  }

  /** Whatever the limits, the pages of a sync concatenate to a prefix of what was left, in order and
      without loss or repetition, and the last cursor denotes the remainder. */
  lemma {:induction false} PagesPartitionRows(src: Source, cursor: string, limits: seq<int>, pages: seq<Page>)
    requires IsSync(src, cursor, limits, pages)
    ensures RowsOf(pages) + Rest(src, LastCursor(cursor, pages)) == Rest(src, cursor)
    decreases pages
  {
    if pages != [] {
      var p, todo := pages[0], Rest(src, cursor);
      PagesPartitionRows(src, p.next, limits[1..], pages[1..]);
      assert todo == p.rows + todo[|p.rows|..];
    }
  }

  /** A sync from the empty cursor whose last cursor has nothing left has read every row of every
      supported object exactly once, in key order. */
  lemma SyncReadsEverything(src: Source, limits: seq<int>, pages: seq<Page>, limit: int, last: Page)
    requires IsSync(src, "", limits, pages)
    requires IsPage(src, LastCursor("", pages), limit, last) && last.rows == []
    ensures RowsOf(pages) == AllRows(src)
  {
    PagesPartitionRows(src, "", limits, pages);
  }

  /** Progress: a page is empty only when nothing is left, so `n` rows need at most `n` pages. */
  lemma PageMakesProgress(src: Source, cursor: string, limit: int, p: Page)
    requires IsPage(src, cursor, limit, p)
    ensures p.rows == [] <==> Rest(src, cursor) == []
    ensures p.rows != [] ==> |Rest(src, p.next)| < |Rest(src, cursor)|
  {}

  /** A sync cannot go on for ever: it has at most as many non-empty pages as there are rows. */
  lemma {:induction false} SyncIsBounded(src: Source, cursor: string, limits: seq<int>, pages: seq<Page>)
    requires IsSync(src, cursor, limits, pages)
    requires forall i :: 0 <= i < |pages| ==> pages[i].Page? && pages[i].rows != []
    ensures |pages| <= |Rest(src, cursor)|
    decreases pages
  {
    if pages != [] { SyncIsBounded(src, pages[0].next, limits[1..], pages[1..]); }
  }
}
