/**
 Importing observations (internal/store/observations.go): rows are keyed by a canonical text, inserts
 skip what is there, and a whole file lands in one transaction.
 */
module Importing {
  import opened Domain
  import opened Seqs

  // ---- Canonical text ----

  /**
   A text form of a value: different values get different texts, and neither separator occurs.
   Instants are rendered as UTC timestamps, floats in their shortest exact form.
   */
  ghost predicate IsRendering(f: int -> string) {
    && (forall x, y :: f(x) == f(y) ==> x == y)
    && (forall x :: '|' !in f(x) && ',' !in f(x))
  }

  /** As many strokes as the value, after a sign: an injective rendering exists. */
  function Strokes(x: int): (s: string)
    ensures '|' !in s && ',' !in s
    ensures x >= 0 ==> |s| == x && (x > 0 ==> s[0] == '1')
    ensures x < 0 ==> |s| == 1 - x && s[0] == '-'
  {
    if x >= 0 then seq(x, _ => '1') else "-" + seq(-x, _ => '1')
  }

  lemma StrokesRender()
    ensures IsRendering(Strokes)
  {
  }

  type Rendering = f: int -> string | IsRendering(f) witness (StrokesRender(); Strokes)

  /** How instants and floats are written. */
  datatype Format = Format(instant: Rendering, float: Rendering)

  // ---- Rows ----

  /** A coordinate pair; a float64 is named by an integer. */
  datatype Place = Place(lat: int, lon: int)

  datatype Row =
    | VisitRow(start: Time, end: Time, loc: Option<Place>, semanticType: string)
    | ActivityRow(start: Time, end: Time, from: Option<Place>, to: Option<Place>, distance: int, mode: string)
    | PointRow(time: Time, loc: Option<Place>)
    | RawRow(time: Time, loc: Option<Place>, accuracy: int, source: string)

  datatype File = File(visits: seq<Row>, activities: seq<Row>, points: seq<Row>, raws: seq<Row>)

  function CanonTime(t: Time, fmt: Format): string { fmt.instant(t.ns) }

  function CanonLoc(loc: Option<Place>, fmt: Format): string {
    match loc
    case None => "-"
    case Some(p) => fmt.float(p.lat) + "," + fmt.float(p.lon)
  }

  function Parts(r: Row, fmt: Format): (parts: seq<string>)
    ensures parts != []
  {
    match r
    case VisitRow(start, end, loc, semanticType) =>
      ["v", CanonTime(start, fmt), CanonTime(end, fmt), CanonLoc(loc, fmt), semanticType]
    case ActivityRow(start, end, from, to, distance, mode) =>
      ["a", CanonTime(start, fmt), CanonTime(end, fmt), CanonLoc(from, fmt), CanonLoc(to, fmt), fmt.float(distance),
       mode]
    case PointRow(time, loc) => ["p", CanonTime(time, fmt), CanonLoc(loc, fmt)]
    case RawRow(time, loc, accuracy, source) =>
      ["r", CanonTime(time, fmt), CanonLoc(loc, fmt), fmt.float(accuracy), source]
  }

  function Join(parts: seq<string>): string
    requires parts != []
  {
    if |parts| == 1 then parts[0] else parts[0] + "|" + Join(parts[1..])
  }

  /** The text whose hash identifies a row. */
  function Canon(r: Row, fmt: Format): string { Join(Parts(r, fmt)) }

  function Utc(t: Time): Time { t.(offsetSec := 0) }

  /** The row without the offsets its instants were recorded in. */
  function Instants(r: Row): Row {
    match r
    case VisitRow(start, end, loc, semanticType) => VisitRow(Utc(start), Utc(end), loc, semanticType)
    case ActivityRow(start, end, from, to, distance, mode) =>
      ActivityRow(Utc(start), Utc(end), from, to, distance, mode)
    case PointRow(time, loc) => PointRow(Utc(time), loc)
    case RawRow(time, loc, accuracy, source) => RawRow(Utc(time), loc, accuracy, source)
  }

  // ---- Canonical text determines the row ----

  lemma FirstChar(a: string, r: string, c: char)
    requires c !in a
    ensures (a + [c] + r)[0] == c <==> a == []
  {
    if a != [] {
      assert (a + [c] + r)[0] == a[0] && a[0] in a;
    }
  }

  lemma {:induction false} SplitOnce(a: string, r: string, b: string, s: string, c: char)
    requires c !in a && c !in b && a + [c] + r == b + [c] + s
    ensures a == b && r == s
  {
    FirstChar(a, r, c);
    FirstChar(b, s, c);
    if a == [] || b == [] {
      assert a + [c] + r == [c] + r && b + [c] + s == [c] + s;
      assert r == ([c] + r)[1..] && s == ([c] + s)[1..];
    } else {
      assert (a + [c] + r)[0] == a[0] && (b + [c] + s)[0] == b[0];
      assert (a + [c] + r)[1..] == a[1..] + [c] + r && (b + [c] + s)[1..] == b[1..] + [c] + s;
      SplitOnce(a[1..], r, b[1..], s, c);
      assert a == [a[0]] + a[1..] && b == [b[0]] + b[1..];
    }
  }

  /** Only the last part of a list may contain the separator. */
  ghost predicate Separable(parts: seq<string>) { forall i | 0 <= i < |parts| - 1 :: '|' !in parts[i] }

  lemma {:induction false} JoinInjective(p: seq<string>, q: seq<string>)
    requires |p| == |q| > 0 && Separable(p) && Separable(q) && Join(p) == Join(q)
    ensures p == q
  {
    if |p| > 1 {
      assert '|' !in p[0] && '|' !in q[0];
      SplitOnce(p[0], Join(p[1..]), q[0], Join(q[1..]), '|');
      assert Separable(p[1..]) && Separable(q[1..]);
      JoinInjective(p[1..], q[1..]);
      assert p == [p[0]] + p[1..] && q == [q[0]] + q[1..];
    } else {
      assert p == [p[0]] && q == [q[0]];
    }
  }

  lemma CanonLocInjective(a: Option<Place>, b: Option<Place>, fmt: Format)
    ensures '|' !in CanonLoc(a, fmt)
    ensures CanonLoc(a, fmt) == CanonLoc(b, fmt) ==> a == b
  {
    if a.Some? && b.Some? && CanonLoc(a, fmt) == CanonLoc(b, fmt) {
      SplitOnce(fmt.float(a.value.lat), fmt.float(a.value.lon), fmt.float(b.value.lat), fmt.float(b.value.lon), ',');
    } else if a.Some? {
      assert CanonLoc(a, fmt)[|fmt.float(a.value.lat)|] == ',';
    } else if b.Some? {
      assert CanonLoc(b, fmt)[|fmt.float(b.value.lat)|] == ',';
    }
  }

  lemma PartsSeparable(r: Row, fmt: Format)
    ensures Separable(Parts(r, fmt))
  {
    match r
    case VisitRow(_, _, loc, _) => CanonLocInjective(loc, loc, fmt);
    case ActivityRow(_, _, from, to, _, _) => CanonLocInjective(from, from, fmt); CanonLocInjective(to, to, fmt);
    case PointRow(_, loc) => CanonLocInjective(loc, loc, fmt);
    case RawRow(_, loc, _, _) => CanonLocInjective(loc, loc, fmt);
  }

  lemma PartsDetermine(r: Row, s: Row, fmt: Format)
    requires Parts(r, fmt) == Parts(s, fmt)
    ensures Instants(r) == Instants(s)
  {
    assert Parts(r, fmt)[0] == Parts(s, fmt)[0];
    match r
    case VisitRow(_, _, loc, _) => CanonLocInjective(loc, s.loc, fmt);
    case ActivityRow(_, _, from, to, _, _) => CanonLocInjective(from, s.from, fmt); CanonLocInjective(to, s.to, fmt);
    case PointRow(_, loc) => CanonLocInjective(loc, s.loc, fmt);
    case RawRow(_, loc, _, _) => CanonLocInjective(loc, s.loc, fmt);
  }

  lemma FirstPart(r: Row, s: Row, fmt: Format)
    requires Canon(r, fmt) == Canon(s, fmt)
    ensures Parts(r, fmt)[0] == Parts(s, fmt)[0]
  {
    assert Canon(r, fmt)[0] == Parts(r, fmt)[0][0] && Canon(s, fmt)[0] == Parts(s, fmt)[0][0];
  }

  /** Two rows share a canonical text exactly when they agree up to the offsets of their instants. */
  lemma CanonIdentifies(r: Row, s: Row, fmt: Format)
    ensures Canon(r, fmt) == Canon(s, fmt) <==> Instants(r) == Instants(s)
  {
    if Canon(r, fmt) == Canon(s, fmt) {
      FirstPart(r, s, fmt);
      PartsSeparable(r, fmt);
      PartsSeparable(s, fmt);
      JoinInjective(Parts(r, fmt), Parts(s, fmt));
      PartsDetermine(r, s, fmt);
    }
  }

  // ---- Importing ----

  /** What the unique index compares: the owner and the canonical text. */
  datatype Key = Key(user: string, text: string)

  function KeyFor(user: string, r: Row, fmt: Format): Key { Key(user, Canon(r, fmt)) }

  /** INSERT ... ON CONFLICT DO NOTHING. */
  function InsertRow(stored: map<Key, Row>, user: string, r: Row, fmt: Format): map<Key, Row> {
    if KeyFor(user, r, fmt) in stored then stored else stored[KeyFor(user, r, fmt) := r]
  }

  function Imported(stored: map<Key, Row>, user: string, rows: seq<Row>, fmt: Format): map<Key, Row> {
    if rows == [] then stored else InsertRow(Imported(stored, user, Front(rows), fmt), user, Last(rows), fmt)
  }

  function KeysOf(user: string, rows: seq<Row>, fmt: Format): set<Key> { set r | r in rows :: KeyFor(user, r, fmt) }

  /** Stored rows sit under their own key. */
  ghost predicate Keyed(stored: map<Key, Row>, fmt: Format) {
    forall k | k in stored :: k == KeyFor(k.user, stored[k], fmt)
  }

  /** An import is a union of keys; what was there stays as it was. */
  lemma {:induction false} ImportIsUnion(stored: map<Key, Row>, user: string, rows: seq<Row>, fmt: Format)
    ensures Imported(stored, user, rows, fmt).Keys == stored.Keys + KeysOf(user, rows, fmt)
    ensures forall k | k in stored :: Imported(stored, user, rows, fmt)[k] == stored[k]
    ensures Keyed(stored, fmt) ==> Keyed(Imported(stored, user, rows, fmt), fmt)
  {
    hide Canon;
    if rows != [] {
      ImportIsUnion(stored, user, Front(rows), fmt);
      assert KeysOf(user, rows, fmt) == KeysOf(user, Front(rows), fmt) + {KeyFor(user, Last(rows), fmt)} by {
        assert forall r :: r in rows <==> r in Front(rows) || r == Last(rows);
      }
    }
  }

  /** Importing again what is already there, whole or overlapping, inserts nothing. */
  lemma {:induction false} ReimportInsertsNothing(stored: map<Key, Row>, user: string, rows: seq<Row>, fmt: Format)
    requires KeysOf(user, rows, fmt) <= stored.Keys
    ensures Imported(stored, user, rows, fmt) == stored
  {
    if rows != [] {
      assert forall r | r in Front(rows) :: KeyFor(user, r, fmt) in KeysOf(user, rows, fmt);
      assert Last(rows) in rows;
      ReimportInsertsNothing(stored, user, Front(rows), fmt);
    }
  }

  /** The same file twice is the file once. */
  lemma ImportTwice(stored: map<Key, Row>, user: string, rows: seq<Row>, fmt: Format)
    ensures Imported(Imported(stored, user, rows, fmt), user, rows, fmt) == Imported(stored, user, rows, fmt)
  {
    ImportIsUnion(stored, user, rows, fmt);
    hide Imported, KeysOf, Keyed;
    ReimportInsertsNothing(Imported(stored, user, rows, fmt), user, rows, fmt);
  }

  /** The same observations, whichever offset their instants are shown in. */
  ghost predicate SameObservations(a: map<Key, Row>, b: map<Key, Row>) {
    a.Keys == b.Keys && forall k | k in a :: Instants(a[k]) == Instants(b[k])
  }

  lemma KeyedAgree(a: map<Key, Row>, b: map<Key, Row>, fmt: Format)
    requires Keyed(a, fmt) && Keyed(b, fmt) && a.Keys == b.Keys
    ensures SameObservations(a, b)
  {
    forall k | k in a ensures Instants(a[k]) == Instants(b[k]) {
      CanonIdentifies(a[k], b[k], fmt);
    }
  }

  /** Two imports may land in either order, by the same user or not. */
  lemma ImportsCommute(stored: map<Key, Row>, u: string, rows: seq<Row>, v: string, others: seq<Row>, fmt: Format)
    requires Keyed(stored, fmt)
    ensures SameObservations(Imported(Imported(stored, u, rows, fmt), v, others, fmt),
                             Imported(Imported(stored, v, others, fmt), u, rows, fmt))
  {
    hide Imported;
    var first, second := Imported(stored, u, rows, fmt), Imported(stored, v, others, fmt);
    ImportIsUnion(stored, u, rows, fmt);
    ImportIsUnion(stored, v, others, fmt);
    ImportIsUnion(first, v, others, fmt);
    ImportIsUnion(second, u, rows, fmt);
    hide Keyed;
    KeyedAgree(Imported(first, v, others, fmt), Imported(second, u, rows, fmt), fmt);
  }

  /** A user's observations, up to the offset of their instants. */
  ghost function Observed(stored: map<Key, Row>, user: string): set<Row> {
    set k | k in stored && k.user == user :: Instants(stored[k])
  }

  /** To the importing user an import is exactly the union of observations; to anyone else nothing happened. */
  lemma ImportAddsObservations(stored: map<Key, Row>, user: string, rows: seq<Row>, fmt: Format, other: string)
    requires Keyed(stored, fmt)
    ensures Observed(Imported(stored, user, rows, fmt), user)
         == Observed(stored, user) + (set r | r in rows :: Instants(r))
    ensures other != user ==> Observed(Imported(stored, user, rows, fmt), other) == Observed(stored, other)
  {
    var after := Imported(stored, user, rows, fmt);
    ImportIsUnion(stored, user, rows, fmt);
    hide Imported;
    forall x | x in Observed(after, user) ensures x in Observed(stored, user) + (set r | r in rows :: Instants(r)) {
      var k :| k in after && k.user == user && Instants(after[k]) == x;
      if k !in stored {
        var r :| r in rows && k == KeyFor(user, r, fmt);
        CanonIdentifies(r, after[k], fmt);
      }
    }
    forall r | r in rows ensures Instants(r) in Observed(after, user) {
      var k := KeyFor(user, r, fmt);
      assert k in after;
      CanonIdentifies(r, after[k], fmt);
    }
    forall x | x in Observed(stored, user) ensures x in Observed(after, user) {
      var k :| k in stored && k.user == user && Instants(stored[k]) == x;
      assert k in after && after[k] == stored[k];
    }
    if other != user {
      assert forall k: Key | k.user == other :: k in after <==> k in stored;
    }
  }

  // ---- The import transaction ----

  const BATCH_SIZE := 2000

  datatype Status = Running | Completed | FailedImport(error: string)

  datatype ImportRow = ImportRow(user: string, sourceLabel: string, status: Status,
                                 visits: nat, activities: nat, points: nat,
                                 raws: nat, skipped: nat, format: Option<string>, inserted: Option<nat>)

  datatype ImportResult = ImportResult(importId: int, parsed: nat, inserted: nat)

  function AllRows(f: File): seq<Row> { f.visits + f.activities + f.points + f.raws }

  function MarkedFailed(row: ImportRow, format: string, message: string): ImportRow {
    row.(status := FailedImport(message), format := if format == "" then None else Some(format))
  }

  function Finished(row: ImportRow, f: File, format: string, skipped: nat, inserted: nat): ImportRow {
    row.(status := Completed,
         visits := |f.visits|, activities := |f.activities|, points := |f.points|, raws := |f.raws|,
         skipped := skipped, format := if format == "" then None else Some(format), inserted := Some(inserted))
  }

  /** What reading an uploaded export gives: its rows, or why it could not be read. */
  datatype Reading = Readable(file: File, format: string, skipped: nat) | Unreadable(format: string, message: string)

  /** The state of a transaction after `done` has been queued: a flushed prefix and a pending batch. */
  ghost predicate Queued(stored: map<Key, Row>, user: string, done: seq<Row>, tx: map<Key, Row>, batch: seq<Row>,
                         fmt: Format) {
    Imported(stored, user, done, fmt) == Imported(tx, user, batch, fmt)
  }

  lemma ImportedSnoc(stored: map<Key, Row>, user: string, rows: seq<Row>, r: Row, fmt: Format)
    ensures Imported(stored, user, rows + [r], fmt) == InsertRow(Imported(stored, user, rows, fmt), user, r, fmt)
  {
    hide InsertRow;
    assert Front(rows + [r]) == rows;
  }

  lemma QueuedOne(stored: map<Key, Row>, user: string, done: seq<Row>, tx: map<Key, Row>, batch: seq<Row>, r: Row,
                  fmt: Format)
    requires Queued(stored, user, done, tx, batch, fmt)
    ensures Queued(stored, user, done + [r], tx, batch + [r], fmt)
  {
    hide InsertRow, Imported;
    ImportedSnoc(stored, user, done, r, fmt);
    ImportedSnoc(tx, user, batch, r, fmt);
  }

  lemma QueuedFlushed(stored: map<Key, Row>, user: string, done: seq<Row>, tx: map<Key, Row>, batch: seq<Row>,
                      fmt: Format)
    requires Queued(stored, user, done, tx, batch, fmt)
    ensures Queued(stored, user, done, Imported(tx, user, batch, fmt), [], fmt)
  {
    hide Canon;
  }

  class ObservationStore {
    const fmt: Format
    var rows: map<Key, Row>
    var imports: map<int, ImportRow>
    var nextImport: int

    constructor (fmt: Format)
      ensures rows == map[] && imports == map[] && this.fmt == fmt
    {
      this.fmt, rows, imports, nextImport := fmt, map[], map[], 1;
    }

    /** Records the attempt before anything is parsed. */
    method BeginImport(user: string, sourceLabel: string) returns (id: int)
      modifies this`imports, this`nextImport
      ensures id == old(nextImport) && nextImport == id + 1
      ensures imports == old(imports)[id := ImportRow(user, sourceLabel, Running, 0, 0, 0, 0, 0, None, None)]
    {
      id := nextImport;
      imports := imports[id := ImportRow(user, sourceLabel, Running, 0, 0, 0, 0, 0, None, None)];
      nextImport := nextImport + 1;
    }

    method FailImport(user: string, id: int, format: string, message: string)
      modifies this`imports
      ensures imports == if id in old(imports) && old(imports)[id].user == user
                         then old(imports)[id := MarkedFailed(old(imports)[id], format, message)]
                         else old(imports)
    {
      if id in imports && imports[id].user == user {
        imports := imports[id := MarkedFailed(imports[id], format, message)];
      }
    }

    /** Sends a batch: each insert reports whether it added a row. */
    method Flush(tx: map<Key, Row>, user: string, batch: seq<Row>) returns (after: map<Key, Row>, inserted: nat)
      ensures after == Imported(tx, user, batch, fmt) && |after| == |tx| + inserted
    {
      after, inserted := tx, 0;
      for i := 0 to |batch|
        invariant after == Imported(tx, user, batch[..i], fmt) && |after| == |tx| + inserted
      {
        assert Front(batch[..i + 1]) == batch[..i];
        var key := KeyFor(user, batch[i], fmt);
        if key !in after {
          GrowsByOne(after, key, batch[i]);
          after := after[key := batch[i]];
          inserted := inserted + 1;
        }
      }
      assert batch[..|batch|] == batch;
    }

    /** Queues every row of one kind, flushing whenever the batch is full. */
    method QueueAll(list: seq<Row>, user: string, tx: map<Key, Row>, batch: seq<Row>,
                    inserted: nat, ghost done: seq<Row>)
      returns (outTx: map<Key, Row>, outBatch: seq<Row>, outInserted: nat)
      requires Queued(rows, user, done, tx, batch, fmt) && |tx| == |rows| + inserted && |batch| < BATCH_SIZE
      ensures Queued(rows, user, done + list, outTx, outBatch, fmt)
      ensures |outTx| == |rows| + outInserted && |outBatch| < BATCH_SIZE
    {
      hide Imported, Queued;
      outTx, outBatch, outInserted := tx, batch, inserted;
      assert done + [] == done;
      for i := 0 to |list|
        invariant Queued(rows, user, done + list[..i], outTx, outBatch, fmt)
        invariant |outTx| == |rows| + outInserted && |outBatch| < BATCH_SIZE
      {
        QueuedOne(rows, user, done + list[..i], outTx, outBatch, list[i], fmt);
        assert done + list[..i] + [list[i]] == done + list[..i + 1];
        outBatch := outBatch + [list[i]];
        if |outBatch| >= BATCH_SIZE {
          var n;
          QueuedFlushed(rows, user, done + list[..i + 1], outTx, outBatch, fmt);
          outTx, n := Flush(outTx, user, outBatch);
          outBatch, outInserted := [], outInserted + n;
        }
      }
      assert list[..|list|] == list;
    }

    /**
     One transaction: all rows in batches, then the import row, which must still be running. Batching
     changes nothing, and the reported count is exactly the growth of the store.
     */
    method ImportObservations(user: string, importId: int, format: string, f: File, skipped: nat)
      returns (result: Option<ImportResult>)
      modifies this`rows, this`imports
      ensures result.Some? <==> importId in old(imports) && old(imports)[importId].user == user
                                && old(imports)[importId].status == Running
      ensures result.None? ==> rows == old(rows) && imports == old(imports)
      ensures |old(rows)| <= |rows|
      ensures result.Some? ==>
                && rows == Imported(old(rows), user, AllRows(f), fmt)
                && result == Some(ImportResult(importId, |AllRows(f)|, |rows| - |old(rows)|))
                && (var added := |rows| - |old(rows)|;
                    imports == old(imports)[importId := Finished(old(imports)[importId], f, format, skipped, added)])
    {
      hide Imported, Canon;
      var tx, batch, inserted := rows, [], 0;
      assert Queued(rows, user, [], tx, batch, fmt);
      tx, batch, inserted := QueueAll(f.visits, user, tx, batch, inserted, []);
      tx, batch, inserted := QueueAll(f.activities, user, tx, batch, inserted, [] + f.visits);
      tx, batch, inserted := QueueAll(f.points, user, tx, batch, inserted, [] + f.visits + f.activities);
      tx, batch, inserted := QueueAll(f.raws, user, tx, batch, inserted, [] + f.visits + f.activities + f.points);
      assert [] + f.visits + f.activities + f.points + f.raws == AllRows(f);
      var n;
      tx, n := Flush(tx, user, batch);
      inserted := inserted + n;
      if importId !in imports || imports[importId].user != user || imports[importId].status != Running {
        return None;
      }
      imports := imports[importId := Finished(imports[importId], f, format, skipped, inserted)];
      rows := tx;
      result := Some(ImportResult(importId, |AllRows(f)|, inserted));
    }

    /**
     A whole attempt: the import row first, then the reading, then either all its rows or a reason. The row
     never stays running, and no other import row is touched.
     */
    method RunImport(user: string, sourceLabel: string, reading: Reading) returns (id: int)
      requires forall k | k in imports :: k < nextImport
      modifies this`rows, this`imports, this`nextImport
      ensures forall k | k in imports :: k < nextImport
      ensures id !in old(imports) && id in imports && imports[id].user == user && imports[id].status != Running
      ensures forall k | k in old(imports) :: k in imports && imports[k] == old(imports)[k]
      ensures reading.Unreadable? ==> rows == old(rows) && imports[id].status == FailedImport(reading.message)
      ensures reading.Readable? ==>
                && rows == Imported(old(rows), user, AllRows(reading.file), fmt)
                && imports[id].status == Completed && |old(rows)| <= |rows|
                && imports[id].inserted == Some(|rows| - |old(rows)|)
    {
      hide Imported, AllRows;
      id := BeginImport(user, sourceLabel);
      match reading {
        case Unreadable(format, message) =>
          FailImport(user, id, format, message);
        case Readable(file, format, skipped) =>
          var result := ImportObservations(user, id, format, file, skipped);
      }
    }
  }

  lemma GrowsByOne(m: map<Key, Row>, k: Key, r: Row)
    requires k !in m
    ensures |m[k := r]| == |m| + 1
  {
    assert m[k := r].Keys == m.Keys + {k};
    assert |m.Keys| == |m| && |m[k := r].Keys| == |m[k := r]|;
  }
}
