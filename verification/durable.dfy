/**
 Rows and files (internal/store/photos.go, internal/store/deletion.go, internal/api/photos.go,
 internal/api/deletion.go): every operation is a fixed order of atomic steps, so a crash leaves one of
 its prefixes behind.
 */
module Durable {
  import opened Domain
  import opened Seqs

  // ---- Tables ----

  datatype TableName =
    | Photos | ShareLinks | Decisions | PhotoRecords | RawPositions | PathPoints | Activities | Visits
    | Candidates | DetectionRuns | Imports | Sessions

  /** The order in which an account's rows are deleted. */
  const USER_DATA_TABLES: seq<TableName> := [
    Photos, ShareLinks, Decisions, PhotoRecords, RawPositions, PathPoints, Activities, Visits,
    Candidates, DetectionRuns, Imports, Sessions]

  /** The table a foreign key points into. */
  function References(t: TableName): Option<TableName> {
    match t
    case Photos => Some(Decisions)
    case ShareLinks => Some(Decisions)
    case PhotoRecords => Some(Imports)
    case Candidates => Some(DetectionRuns)
    case _ => None
  }

  /** Deleting a referenced row is refused, rather than passed on, for these referring tables. */
  predicate Restricts(t: TableName) { t == Photos || t == PhotoRecords }

  datatype RowId = RowId(table: TableName, id: int)

  /** A row's owner, its foreign key, the content hash it names, and whether it claims a thumbnail file. */
  datatype Row = Row(user: string, ref: Option<int>, hash: Option<string>, claims: bool)

  /** All rows, the accounts, and the two directories of content-addressed files. */
  datatype State = State(rows: map<RowId, Row>, users: set<string>, thumbs: set<string>, uploads: set<string>)

  function Target(k: RowId, r: Row): Option<RowId> {
    if r.ref.Some? && References(k.table).Some? then Some(RowId(References(k.table).value, r.ref.value)) else None
  }

  /** Every reference leads to a row of the same user. */
  ghost predicate KeysHold(rows: map<RowId, Row>) {
    forall k | k in rows && Target(k, rows[k]).Some? ::
      Target(k, rows[k]).value in rows && rows[Target(k, rows[k]).value].user == rows[k].user
  }

  ghost predicate WellFormed(st: State) {
    && KeysHold(st.rows)
    && (forall k | k in st.rows :: st.rows[k].user in st.users)
  }

  predicate ClaimsThumb(k: RowId, r: Row) { (k.table == Photos || k.table == PhotoRecords) && r.hash.Some? && r.claims }

  predicate NamesThumb(k: RowId, r: Row, h: string) {
    (k.table == Photos || k.table == PhotoRecords) && r.hash == Some(h)
  }

  predicate NamesUpload(k: RowId, r: Row, h: string) { k.table == Imports && r.hash == Some(h) }

  /** Every row that claims a thumbnail has its file, and every retained upload is there. */
  ghost predicate Safe(st: State) {
    && (forall k | k in st.rows && ClaimsThumb(k, st.rows[k]) :: st.rows[k].hash.value in st.thumbs)
    && (forall k, h | k in st.rows && NamesUpload(k, st.rows[k], h) :: h in st.uploads)
  }

  // ---- Deleting one user's rows ----

  function RowsOf(rows: map<RowId, Row>, t: TableName, user: string): set<RowId> {
    set k | k in rows && k.table == t && rows[k].user == user
  }

  /** Whether a row refers to one of `gone`. */
  predicate RefersInto(rows: map<RowId, Row>, k: RowId, gone: set<RowId>)
    requires k in rows
  {
    Target(k, rows[k]).Some? && Target(k, rows[k]).value in gone
  }

  /** DELETE FROM table WHERE user_id = user, with what the foreign keys do about it. */
  function DeleteFrom(rows: map<RowId, Row>, t: TableName, user: string): Option<map<RowId, Row>> {
    var gone := RowsOf(rows, t, user);
    if exists k | k in rows :: k !in gone && Restricts(k.table) && RefersInto(rows, k, gone) then None
    else Some(map k | k in rows && k !in gone && !RefersInto(rows, k, gone) :: rows[k])
  }

  function DeleteTables(rows: map<RowId, Row>, tables: seq<TableName>, user: string): Option<map<RowId, Row>> {
    if tables == [] then Some(rows)
    else
      match DeleteTables(rows, Front(tables), user)
      case None => None
      case Some(before) => DeleteFrom(before, Last(tables), user)
  }

  function Without(rows: map<RowId, Row>, tables: set<TableName>, user: string): map<RowId, Row> {
    map k | k in rows && !(k.table in tables && rows[k].user == user) :: rows[k]
  }

  lemma NothingRefers(rows: map<RowId, Row>, done: set<TableName>, t: TableName, user: string)
    requires KeysHold(rows)
    requires forall r | References(r) == Some(t) :: r in done
    ensures var part := Without(rows, done, user);
            forall k | k in part :: !RefersInto(part, k, RowsOf(part, t, user))
  {
  }

  /** Once every referring table is done, deleting from a table removes exactly the user's rows there. */
  lemma DeleteFromExact(rows: map<RowId, Row>, done: set<TableName>, t: TableName, user: string)
    requires KeysHold(rows)
    requires forall r | References(r) == Some(t) :: r in done
    ensures DeleteFrom(Without(rows, done, user), t, user) == Some(Without(rows, done + {t}, user))
    ensures t !in done ==> RowsOf(Without(rows, done, user), t, user) == RowsOf(rows, t, user)
  {
    NothingRefers(rows, done, t, user);
    hide RefersInto, KeysHold;
    var part := Without(rows, done, user);
    assert DeleteFrom(part, t, user).Some?;
    var after := DeleteFrom(part, t, user).value;
    var want := Without(rows, done + {t}, user);
    assert after.Keys == want.Keys;
    assert after == want;
  }

  lemma Reset(rows: map<RowId, Row>, user: string)
    ensures Without(rows, {}, user) == rows
  {
  }

  /** Tables already cleared by the first `n` deletions. */
  function Cleared(n: nat): set<TableName>
    requires n <= |USER_DATA_TABLES|
  {
    set i | 0 <= i < n :: USER_DATA_TABLES[i]
  }

  /** The deletion order never trips a foreign key: each table is cleared after everything that refers to it. */
  lemma {:induction false} OrderRespectsKeys(st: State, user: string, n: nat)
    requires WellFormed(st) && n <= |USER_DATA_TABLES|
    ensures DeleteTables(st.rows, USER_DATA_TABLES[..n], user) == Some(Without(st.rows, Cleared(n), user))
  {
    hide DeleteFrom, Without;
    if n == 0 {
      Reset(st.rows, user);
      assert Cleared(0) == {};
    } else {
      OrderRespectsKeys(st, user, n - 1);
      assert Front(USER_DATA_TABLES[..n]) == USER_DATA_TABLES[..n - 1];
      var t := USER_DATA_TABLES[n - 1];
      assert Cleared(n) == Cleared(n - 1) + {t};
      ReferringTablesFirst(n - 1);
      DeleteFromExact(st.rows, Cleared(n - 1), t, user);
    }
  }

  lemma ReferringTablesFirst(n: nat)
    requires n < |USER_DATA_TABLES|
    ensures forall r | References(r) == Some(USER_DATA_TABLES[n]) :: r in Cleared(n)
    ensures USER_DATA_TABLES[n] !in Cleared(n)
  {
    assert USER_DATA_TABLES[0] == Photos && USER_DATA_TABLES[1] == ShareLinks;
    assert USER_DATA_TABLES[3] == PhotoRecords && USER_DATA_TABLES[8] == Candidates;
  }

  lemma AllTables()
    ensures USER_DATA_TABLES[..|USER_DATA_TABLES|] == USER_DATA_TABLES
    ensures forall t: TableName :: t in Cleared(|USER_DATA_TABLES|)
  {
    var all := USER_DATA_TABLES;
    forall t: TableName ensures t in Cleared(|all|) {
      var i := match t
        case Photos => 0 case ShareLinks => 1 case Decisions => 2 case PhotoRecords => 3
        case RawPositions => 4 case PathPoints => 5 case Activities => 6 case Visits => 7
        case Candidates => 8 case DetectionRuns => 9 case Imports => 10 case Sessions => 11;
      assert all[i] == t;
    }
  }

  /** The rows of everyone else. */
  function OthersRows(rows: map<RowId, Row>, user: string): map<RowId, Row> {
    map k | k in rows && rows[k].user != user :: rows[k]
  }

  /** Deleting an account removes all of its rows and none of anyone else's. */
  lemma AccountRowsGo(st: State, user: string)
    requires WellFormed(st)
    ensures DeleteTables(st.rows, USER_DATA_TABLES, user) == Some(OthersRows(st.rows, user))
  {
    OrderRespectsKeys(st, user, |USER_DATA_TABLES|);
    AllTables();
    assert Without(st.rows, Cleared(|USER_DATA_TABLES|), user) == OthersRows(st.rows, user);
  }

  // ---- Which orders work ----

  /** Every table that restricts deletion comes before the table it refers to. */
  ghost predicate ReferrersFirst(order: seq<TableName>) {
    forall j, r | 0 <= j < |order| && Restricts(r) && References(r) == Some(order[j]) :: r in order[..j]
  }

  /** Some of the original rows, none of them the user's in a cleared table. */
  ghost predicate PartlyCleared(rest: map<RowId, Row>, rows: map<RowId, Row>, tables: seq<TableName>, user: string) {
    && (forall k | k in rest :: k in rows && rest[k] == rows[k])
    && (forall k | k in rest && k.table in tables :: rest[k].user != user)
  }

  lemma ClearingOne(rows: map<RowId, Row>, rest: map<RowId, Row>, tables: seq<TableName>, t: TableName, user: string)
    requires KeysHold(rows) && PartlyCleared(rest, rows, tables, user)
    requires forall r | Restricts(r) && References(r) == Some(t) :: r in tables
    ensures DeleteFrom(rest, t, user).Some?
    ensures PartlyCleared(DeleteFrom(rest, t, user).value, rows, tables + [t], user)
  {
    var gone := RowsOf(rest, t, user);
    forall k | k in rest && Restricts(k.table) && RefersInto(rest, k, gone) ensures k in gone {
      var q := Target(k, rest[k]).value;
      assert q in rows && rows[q].user == rows[k].user == user;
    }
  }

  lemma {:induction false} OrderWorks(rows: map<RowId, Row>, order: seq<TableName>, n: nat, user: string)
    requires KeysHold(rows) && ReferrersFirst(order) && n <= |order|
    ensures DeleteTables(rows, order[..n], user).Some?
    ensures PartlyCleared(DeleteTables(rows, order[..n], user).value, rows, order[..n], user)
  {
    hide DeleteFrom, PartlyCleared, KeysHold, Restricts, References;
    if n == 0 {
      AllThere(rows, user);
    } else {
      OrderWorks(rows, order, n - 1, user);
      assert Front(order[..n]) == order[..n - 1] && order[..n - 1] + [order[n - 1]] == order[..n];
      ClearingOne(rows, DeleteTables(rows, order[..n - 1], user).value, order[..n - 1], order[n - 1], user);
    }
  }

  lemma AllThere(rows: map<RowId, Row>, user: string)
    ensures PartlyCleared(rows, rows, [], user)
  {
  }

  /** Clearing tables in which the user has nothing changes nothing. */
  lemma {:induction false} Untouched(rows: map<RowId, Row>, tables: seq<TableName>, user: string)
    requires forall k | k in rows && rows[k].user == user :: k.table !in tables
    ensures DeleteTables(rows, tables, user) == Some(rows)
  {
    if tables != [] {
      assert tables == Front(tables) + [Last(tables)];
      Untouched(rows, Front(tables), user);
      assert RowsOf(rows, Last(tables), user) == {};
      assert DeleteFrom(rows, Last(tables), user).value == rows;
    }
  }

  lemma {:induction false} FailureStands(rows: map<RowId, Row>, order: seq<TableName>, n: nat, user: string)
    requires n <= |order| && DeleteTables(rows, order[..n], user).None?
    ensures DeleteTables(rows, order, user).None?
    decreases |order|
  {
    if n == |order| {
      assert order[..n] == order;
    } else {
      assert Front(order)[..n] == order[..n];
      FailureStands(rows, Front(order), n, user);
    }
  }

  /** A table cleared before one that restricts it: two rows are enough to be refused. */
  lemma TooEarly(order: seq<TableName>, j: nat, r: TableName, user: string) returns (st: State)
    requires j < |order| && Restricts(r) && References(r) == Some(order[j])
    requires r !in order[..j] && order[j] !in order[..j]
    ensures WellFormed(st) && DeleteTables(st.rows, order, user).None?
  {
    var t := order[j];
    var target, referrer := RowId(t, 1), RowId(r, 2);
    var rows := map[target := Row(user, None, None, false), referrer := Row(user, Some(1), None, false)];
    st := State(rows, {user}, {}, {});
    assert Target(referrer, rows[referrer]) == Some(target);
    Untouched(rows, order[..j], user);
    assert RefersInto(rows, referrer, RowsOf(rows, t, user));
    assert DeleteFrom(rows, t, user) == None;
    assert Front(order[..j + 1]) == order[..j];
    FailureStands(rows, order, j + 1, user);
  }

  ghost predicate AlwaysWorks(order: seq<TableName>) {
    forall st, user | WellFormed(st) :: DeleteTables(st.rows, order, user).Some?
  }

  /** An order of deletion never trips a foreign key if and only if restricting tables come first in it. */
  lemma OrderWorksIff(order: seq<TableName>)
    ensures AlwaysWorks(order) <==> ReferrersFirst(order)
  {
    hide DeleteTables, KeysHold, Restricts, References;
    if ReferrersFirst(order) {
      forall st, user | WellFormed(st) ensures DeleteTables(st.rows, order, user).Some? {
        OrderWorks(st.rows, order, |order|, user);
        assert order[..|order|] == order;
      }
    } else {
      var j, r :| 0 <= j < |order| && Restricts(r) && References(r) == Some(order[j]) && r !in order[..j];
      var i := FirstOf(order, j);
      assert order[..i] <= order[..j];
      assert r !in order[..i];
      var st := TooEarly(order, i, r, "");
    }
  }

  lemma {:induction false} FirstOf(order: seq<TableName>, j: nat) returns (i: nat)
    requires j < |order|
    ensures i <= j && order[i] == order[j] && order[j] !in order[..i]
  {
    if order[j] in order[..j] {
      var k :| 0 <= k < j && order[..j][k] == order[j];
      i := FirstOf(order, k);
    } else {
      i := j;
    }
  }

  // ---- Orphaned files ----

  function HashesOf(rows: map<RowId, Row>, user: string): set<string> {
    set k | k in rows && (k.table == Photos || k.table == PhotoRecords) && rows[k].user == user && rows[k].hash.Some?
      :: rows[k].hash.value
  }

  function UploadsOf(rows: map<RowId, Row>, user: string): set<string> {
    set k | k in rows && k.table == Imports && rows[k].user == user && rows[k].hash.Some? :: rows[k].hash.value
  }

  predicate ThumbNamed(rows: map<RowId, Row>, h: string) { exists k | k in rows :: NamesThumb(k, rows[k], h) }

  predicate UploadNamed(rows: map<RowId, Row>, h: string) { exists k | k in rows :: NamesUpload(k, rows[k], h) }

  /** The user's hashes that no remaining row, of anyone, names. */
  function OrphanThumbs(rows: map<RowId, Row>, user: string): set<string> {
    set h | h in HashesOf(rows, user) && !ThumbNamed(OthersRows(rows, user), h)
  }

  function OrphanUploads(rows: map<RowId, Row>, user: string): set<string> {
    set h | h in UploadsOf(rows, user) && !UploadNamed(OthersRows(rows, user), h)
  }
}
