/**
 A running instance: the rows and the two file directories, changed in place
 (internal/store/deletion.go, internal/store/photos.go, internal/api/photos.go, internal/api/deletion.go).
 */
module Instances {
  import opened Domain
  import opened Seqs
  import opened Durable
  import opened Operations

  /** What a deletion removed, by table, and the files nobody names any more. */
  datatype DeletionReport = DeletionReport(removed: map<TableName, nat>, users: nat,
                                           orphanThumbs: set<string>, orphanUploads: set<string>)

  datatype DeletionOutcome =
    | ImportInProgress
    | Deleted(removed: map<TableName, nat>, thumbnailsRemoved: nat, uploadsRemoved: nat)

  datatype StoreOutcome = Refused | Duplicate | Accepted

  lemma OrphansAfterCommit(st: State, user: string)
    ensures (set h | h in HashesOf(st.rows, user) && !ThumbNamed(OthersRows(st.rows, user), h))
         == OrphanThumbs(st.rows, user)
    ensures (set h | h in UploadsOf(st.rows, user) && !UploadNamed(OthersRows(st.rows, user), h))
         == OrphanUploads(st.rows, user)
  {
  }

  // ---- Who names a file ----

  /** A photo or photo-record row of the user names the thumbnail. */
  ghost predicate NamedBy(rows: map<RowId, Row>, h: string, user: string) {
    exists k :: k in rows && (k.table == Photos || k.table == PhotoRecords)
      && rows[k].user == user && rows[k].hash == Some(h)
  }

  ghost predicate NamedByOther(rows: map<RowId, Row>, h: string, user: string) {
    exists k :: k in rows && (k.table == Photos || k.table == PhotoRecords)
      && rows[k].user != user && rows[k].hash == Some(h)
  }

  /** An import row of the user names the retained upload. */
  ghost predicate UploadedBy(rows: map<RowId, Row>, h: string, user: string) {
    exists k :: k in rows && k.table == Imports && rows[k].user == user && rows[k].hash == Some(h)
  }

  ghost predicate UploadedByOther(rows: map<RowId, Row>, h: string, user: string) {
    exists k :: k in rows && k.table == Imports && rows[k].user != user && rows[k].hash == Some(h)
  }

  /** The user has a photo of these bytes. */
  ghost predicate HasPhoto(rows: map<RowId, Row>, user: string, h: string) {
    exists k :: k in rows && k.table == Photos && rows[k].user == user && rows[k].hash == Some(h)
  }

  /** The user has a photo record of these bytes. */
  ghost predicate HasRecord(rows: map<RowId, Row>, user: string, h: string) {
    exists k :: k in rows && k.table == PhotoRecords && rows[k].user == user && rows[k].hash == Some(h)
  }

  /** The thumbnails an account takes with it: only its own rows named them, and they can be removed. */
  ghost predicate OwnThumbs(gone: set<string>, rows: map<RowId, Row>, user: string, stuck: set<string>) {
    forall h :: h in gone <==> NamedBy(rows, h, user) && !NamedByOther(rows, h, user) && h !in stuck
  }

  ghost predicate OwnUploads(gone: set<string>, rows: map<RowId, Row>, user: string, stuck: set<string>) {
    forall h :: h in gone <==> UploadedBy(rows, h, user) && !UploadedByOther(rows, h, user) && h !in stuck
  }

  lemma OrphansAreOwn(rows: map<RowId, Row>, user: string, stuck: set<string>)
    ensures OwnThumbs(OrphanThumbs(rows, user) - stuck, rows, user, stuck)
    ensures OwnUploads(OrphanUploads(rows, user) - stuck, rows, user, stuck)
  {
    forall h ensures h in OrphanThumbs(rows, user) <==> NamedBy(rows, h, user) && !NamedByOther(rows, h, user) {
      ThumbOwners(rows, h, user);
    }
    forall h ensures h in OrphanUploads(rows, user) <==> UploadedBy(rows, h, user) && !UploadedByOther(rows, h, user) {
      UploadOwners(rows, h, user);
    }
    hide NamedBy, NamedByOther, UploadedBy, UploadedByOther, OrphanThumbs, OrphanUploads;
  }

  lemma ThumbOwners(rows: map<RowId, Row>, h: string, user: string)
    ensures h in HashesOf(rows, user) <==> NamedBy(rows, h, user)
    ensures ThumbNamed(OthersRows(rows, user), h) <==> NamedByOther(rows, h, user)
  {
    var others := OthersRows(rows, user);
    if NamedByOther(rows, h, user) {
      var k :| k in rows && (k.table == Photos || k.table == PhotoRecords) && rows[k].user != user
        && rows[k].hash == Some(h);
      assert k in others && NamesThumb(k, others[k], h);
    }
    if ThumbNamed(others, h) {
      var k :| k in others && NamesThumb(k, others[k], h);
      assert k in rows && rows[k].user != user;
    }
  }

  lemma UploadOwners(rows: map<RowId, Row>, h: string, user: string)
    ensures h in UploadsOf(rows, user) <==> UploadedBy(rows, h, user)
    ensures UploadNamed(OthersRows(rows, user), h) <==> UploadedByOther(rows, h, user)
  {
    var others := OthersRows(rows, user);
    if UploadedByOther(rows, h, user) {
      var k :| k in rows && k.table == Imports && rows[k].user != user && rows[k].hash == Some(h);
      assert k in others && NamesUpload(k, others[k], h);
    }
    if UploadNamed(others, h) {
      var k :| k in others && NamesUpload(k, others[k], h);
      assert k in rows && rows[k].user != user;
    }
  }

  lemma OthersAreOthers(rows: map<RowId, Row>, user: string)
    ensures OnlyOthers(rows, OthersRows(rows, user), user)
  {
  }

  /** The rows without those of the user. */
  ghost predicate OnlyOthers(was: map<RowId, Row>, rows: map<RowId, Row>, user: string) {
    && (forall k :: k in rows <==> k in was && was[k].user != user)
    && (forall k | k in rows :: rows[k] == was[k])
  }

  // ---- What a photo import leaves behind ----

  /** The row of this import, or the record of one of its photos. */
  ghost predicate FromImport(k: RowId, r: Row, importId: int, user: string, shots: seq<Shot>) {
    || (k == RowId(Imports, importId) && r == Row(user, None, None, false))
    || (exists s :: s in shots && k == RowId(PhotoRecords, s.id)
          && r == Row(user, Some(importId), Some(s.hash), s.hasThumb))
  }

  lemma {:induction false} InsertedHolds(rows: map<RowId, Row>, batch: seq<(RowId, Row)>)
    ensures var after := Inserted(rows, batch);
            && (forall k | k in rows :: k in after && after[k] == rows[k])
            && (forall k | k in after && k !in rows :: (k, after[k]) in batch)
            && (forall p | p in batch :: p.0 in after || Alike(after, p.0, p.1))
  {
    if batch != [] {
      InsertedHolds(rows, Front(batch));
      assert batch == Front(batch) + [Last(batch)];
      var before, after := Inserted(rows, Front(batch)), Inserted(rows, batch);
      forall p | p in batch ensures p.0 in after || Alike(after, p.0, p.1) {
        if p in Front(batch) && Alike(before, p.0, p.1) {
          var q :| q in before && q.table == p.0.table && before[q].user == p.1.user && before[q].hash == p.1.hash;
          assert q in after && after[q] == before[q];
        } else if p == Last(batch) && Conflicts(before, p.0, p.1) && p.0 !in before {
          var q :| q in before && q.table == p.0.table && before[q].user == p.1.user && before[q].hash == p.1.hash;
          assert Alike(after, p.0, p.1);
        }
      }
    }
  }

  /** A row of the same table, owner and bytes. */
  ghost predicate Alike(rows: map<RowId, Row>, k: RowId, r: Row) {
    exists q :: q in rows && q.table == k.table && rows[q].user == r.user && rows[q].hash == r.hash
  }

  /** With an account to own them, every photo of the batch is on record afterwards; nothing else is added. */
  ghost predicate BatchRecorded(was: map<RowId, Row>, rows: map<RowId, Row>, users: set<string>, importId: int,
                                user: string, shots: seq<Shot>)
  {
    && (forall k | k in was :: k in rows && rows[k] == was[k])
    && (forall k | k in rows && k !in was :: FromImport(k, rows[k], importId, user, shots))
    && (user !in users ==> rows == was)
    && (user in users ==> RowId(Imports, importId) in rows)
    && (user in users ==>
          forall s | s in shots :: RowId(PhotoRecords, s.id) in rows || HasRecord(rows, user, s.hash))
  }

  /** First the import row. */
  lemma RowLands(st: State, importId: int, user: string)
    ensures var k := RowId(Imports, importId);
            var mid := Do(st, InsertRows([(k, ImportRow(user))]));
            && mid.users == st.users
            && (user in st.users ==> k in mid.rows)
            && (forall q | q in st.rows :: q in mid.rows && mid.rows[q] == st.rows[q])
            && (forall q | q in mid.rows && q !in st.rows :: q == k && mid.rows[q] == ImportRow(user))
            && (user !in st.users ==> mid.rows == st.rows)
  {
    var k, r := RowId(Imports, importId), ImportRow(user);
    InsertedOne(st.rows, k, r);
    ImportRowStays(st.rows, k, r);
    assert (k, r) in [(k, r)];
    assert forall p | p in [(k, r)] :: p == (k, r);
    hide Conflicts, Inserted;
  }

  /** Then the batch, if its owner is an account. */
  lemma BatchLands(mid: State, importId: int, user: string, shots: seq<Shot>)
    requires user in mid.users ==> RowId(Imports, importId) in mid.rows
    ensures var after := Do(mid, InsertRows(ShotRows(user, importId, shots))).rows;
            && (user in mid.users ==> after == Inserted(mid.rows, ShotRows(user, importId, shots)))
            && (user !in mid.users ==> after == mid.rows)
  {
    ShotRowsAre(user, importId, shots);
    var batch := ShotRows(user, importId, shots);
    hide ShotRows, Inserted;
    if user in mid.users {
      assert forall p | p in batch :: KeyHolds(mid, p.0, p.1);
    } else if batch != [] {
      assert batch[0] in batch && !KeyHolds(mid, batch[0].0, batch[0].1);
    } else {
      NothingInserted(mid);
    }
  }

  /** What the batch adds to the rows it finds. */
  lemma ShotsLand(rows: map<RowId, Row>, importId: int, user: string, shots: seq<Shot>)
    ensures var after := Inserted(rows, ShotRows(user, importId, shots));
            && (forall k | k in rows :: k in after && after[k] == rows[k])
            && (forall k | k in after && k !in rows :: FromImport(k, after[k], importId, user, shots))
            && (forall s | s in shots :: RowId(PhotoRecords, s.id) in after || HasRecord(after, user, s.hash))
  {
    var batch := ShotRows(user, importId, shots);
    InsertedHolds(rows, batch);
    ShotRowsAre(user, importId, shots);
    hide ShotRows, Inserted;
    var after := Inserted(rows, batch);
    forall s | s in shots ensures RowId(PhotoRecords, s.id) in after || HasRecord(after, user, s.hash) {
      var p := ShotRow(user, importId, s);
      assert p in batch;
    }
    forall k | k in after && k !in rows ensures FromImport(k, after[k], importId, user, shots) {
      var s :| s in shots && (k, after[k]) == ShotRow(user, importId, s);
    }
  }

  lemma ImportLands(st: State, importId: int, user: string, shots: seq<Shot>)
    ensures var mid := Do(st, InsertRows([(RowId(Imports, importId), ImportRow(user))]));
            BatchRecorded(st.rows, Do(mid, InsertRows(ShotRows(user, importId, shots))).rows, st.users, importId, user,
                          shots)
  {
    var mid := Do(st, InsertRows([(RowId(Imports, importId), ImportRow(user))]));
    RowLands(st, importId, user);
    BatchLands(mid, importId, user, shots);
    ShotsLand(mid.rows, importId, user, shots);
    hide ShotRows, Inserted, Do, HasRecord;
  }

  lemma NothingInserted(st: State)
    ensures Do(st, InsertRows([])).rows == st.rows
  {
  }

  lemma ImportRowStays(rows: map<RowId, Row>, k: RowId, r: Row)
    requires k.table == Imports
    ensures k in if Conflicts(rows, k, r) then rows else rows[k := r]
  {
  }

  lemma ShotRowsAre(user: string, importId: int, shots: seq<Shot>)
    ensures forall s | s in shots :: ShotRow(user, importId, s) in ShotRows(user, importId, shots)
    ensures forall p | p in ShotRows(user, importId, shots) :: exists s :: s in shots && p == ShotRow(user, importId, s)
  {
    var rows := ShotRows(user, importId, shots);
    forall s | s in shots ensures ShotRow(user, importId, s) in rows {
      var i :| 0 <= i < |shots| && shots[i] == s;
      assert rows[i] == ShotRow(user, importId, s);
    }
    forall p | p in rows ensures exists s :: s in shots && p == ShotRow(user, importId, s) {
      var i :| 0 <= i < |rows| && rows[i] == p;
      assert shots[i] in shots;
    }
  }

  class Instance {
    var rows: map<RowId, Row>
    var users: set<string>
    var thumbs: set<string>
    var uploads: set<string>

    function Now(): State
      reads this
    {
      State(rows, users, thumbs, uploads)
    }

    /**
     One transaction: the hashes first, then table by table in foreign-key order, then what is now
     unreferenced. It never fails on a foreign key, and counts exactly the user's rows.
     */
    method DeleteUserData(user: string, dropUser: bool) returns (ok: bool, report: DeletionReport)
      requires WellFormed(Now())
      modifies this`rows, this`users
      ensures ok
      ensures Now() == Do(old(Now()), EraseUser(user, dropUser))
      ensures rows == OthersRows(old(rows), user) && OnlyOthers(old(rows), rows, user)
      ensures users == if dropUser then old(users) - {user} else old(users)
      ensures forall t: TableName :: t in report.removed && report.removed[t] == |RowsOf(old(rows), t, user)|
      ensures report.users == if dropUser && user in old(users) then 1 else 0
      ensures report.orphanThumbs == OrphanThumbs(old(rows), user)
      ensures report.orphanUploads == OrphanUploads(old(rows), user)
    {
      hide DeleteFrom, Without, RowsOf, HashesOf, UploadsOf, ThumbNamed, UploadNamed, KeysHold, OthersRows,
        OrphanThumbs, OrphanUploads;
      ghost var before := Now();
      var thumbHashes := HashesOf(rows, user);
      var uploadHashes := UploadsOf(rows, user);
      var working := rows;
      var removed: map<TableName, nat> := map[];
      var i := 0;
      Reset(rows, user);
      assert Cleared(0) == {};
      while i < |USER_DATA_TABLES|
        invariant 0 <= i <= |USER_DATA_TABLES| && Now() == before
        invariant working == Without(before.rows, Cleared(i), user)
        invariant forall t | t in Cleared(i) :: t in removed && removed[t] == |RowsOf(before.rows, t, user)|
      {
        var t := USER_DATA_TABLES[i];
        ReferringTablesFirst(i);
        DeleteFromExact(before.rows, Cleared(i), t, user);
        assert Cleared(i + 1) == Cleared(i) + {t};
        removed := removed[t := |RowsOf(working, t, user)|];
        match DeleteFrom(working, t, user) {
          case None => assert false;
          case Some(rest) => working := rest;
        }
        i := i + 1;
      }
      AllTables();
      AccountRowsGo(before, user);
      OrderRespectsKeys(before, user, |USER_DATA_TABLES|);
      assert DeleteTables(before.rows, USER_DATA_TABLES, user) == Some(working);
      assert working == OthersRows(before.rows, user);
      OthersAreOthers(before.rows, user);
      var dropped := if dropUser && user in users then 1 else 0;
      OrphansAfterCommit(before, user);
      report := DeletionReport(removed, dropped,
                               set h | h in thumbHashes && !ThumbNamed(working, h),
                               set h | h in uploadHashes && !UploadNamed(working, h));
      ok := true;
      rows := working;
      if dropUser {
        users := users - {user};
      }
      EraseIs(before, user, dropUser);
    }

    /** Rows first, then the files; `stuck` names the files whose removal fails. */
    method DeleteMyData(user: string, multiUser: bool, importing: bool, stuck: set<string>)
      returns (outcome: DeletionOutcome)
      requires Sound(Now())
      modifies this
      ensures Sound(Now())
      ensures importing ==> outcome == ImportInProgress && Now() == old(Now())
      ensures !importing ==>
                && outcome.Deleted?
                && rows == OthersRows(old(rows), user)
                && users == (if multiUser then old(users) - {user} else old(users))
                && thumbs == old(thumbs) - (OrphanThumbs(old(rows), user) - stuck)
                && uploads == old(uploads) - (OrphanUploads(old(rows), user) - stuck)
                && outcome.thumbnailsRemoved == |OrphanThumbs(old(rows), user) - stuck|
                && outcome.uploadsRemoved == |OrphanUploads(old(rows), user) - stuck|
                && forall t: TableName :: t in outcome.removed && outcome.removed[t] == |RowsOf(old(rows), t, user)|
      ensures !importing ==>
                && OnlyOthers(old(rows), rows, user)
                && (exists gone :: OwnThumbs(gone, old(rows), user, stuck)
                      && thumbs == old(thumbs) - gone && outcome.thumbnailsRemoved == |gone|)
                && (exists gone :: OwnUploads(gone, old(rows), user, stuck)
                      && uploads == old(uploads) - gone && outcome.uploadsRemoved == |gone|)
    {
      hide DeleteTables, OrphanThumbs, OrphanUploads, OthersRows, RowsOf, KeysHold, Safe, OwnThumbs, OwnUploads,
        OnlyOthers;
      if importing {
        return ImportInProgress;
      }
      OrphansAreOwn(rows, user, stuck);
      var ok, report := DeleteUserData(user, multiUser);
      var gone, goneUploads;
      thumbs, gone := RemoveFiles(thumbs, report.orphanThumbs, stuck);
      uploads, goneUploads := RemoveFiles(uploads, report.orphanUploads, stuck);
      outcome := Deleted(report.removed, gone, goneUploads);
      OrphansMayGo(old(Now()), user, multiUser, report.orphanThumbs - stuck, report.orphanUploads - stuck);
    }

    /** What is left of a directory after removing the orphans, and how many went. */
    static method RemoveFiles(files: set<string>, orphans: set<string>, stuck: set<string>)
      returns (left: set<string>, gone: nat)
      ensures left == files - (orphans - stuck)
      ensures gone == |orphans - stuck|
    {
      var todo := orphans;
      ghost var removed := {};
      left, gone := files, 0;
      while todo != {}
        invariant todo <= orphans
        invariant removed !! todo && orphans - stuck == removed + (todo - stuck)
        invariant left == files - removed
        invariant gone == |removed|
        decreases todo
      {
        var h :| h in todo;
        todo := todo - {h};
        if h !in stuck {
          left := left - {h};
          removed := removed + {h};
          gone := gone + 1;
        }
      }
      assert removed == orphans - stuck;
    }

    /** Thumbnail file first, then the row; identical bytes change no row. */
    method StorePhoto(id: int, user: string, decision: int, hash: string) returns (outcome: StoreOutcome)
      modifies this`rows, this`thumbs
      ensures Now() == Run(old(Now()), Steps(old(Now()), UploadPhoto(id, user, decision, hash)))
      ensures outcome == Accepted <==> RowId(Photos, id) !in old(rows) && RowId(Photos, id) in rows
      ensures outcome != Accepted ==> rows == old(rows)
      ensures thumbs == old(thumbs) + {hash}
      ensures outcome == Refused <==> user !in users || RowId(Decisions, decision) !in old(rows)
      ensures outcome == Duplicate ==> RowId(Photos, id) in old(rows) || HasPhoto(old(rows), user, hash)
      ensures outcome == Accepted ==>
        && !HasPhoto(old(rows), user, hash)
        && rows == old(rows)[RowId(Photos, id) := Row(user, Some(decision), Some(hash), true)]
    {
      hide DeleteTables;
      ghost var before := Now();
      ghost var steps := Steps(before, UploadPhoto(id, user, decision, hash));
      assert steps[..|steps|] == steps;
      RunOne(before, steps, 0);
      RunOne(before, steps, 1);
      var k, r := RowId(Photos, id), PhotoRow(user, decision, hash);
      thumbs := thumbs + {hash};
      InsertedOne(rows, k, r);
      assert forall p | p in [(k, r)] :: p == (k, r);
      if !KeyHolds(Now(), k, r) {
        assert (k, r) in [(k, r)];
        return Refused;
      }
      if Conflicts(rows, k, r) {
        return Duplicate;
      }
      rows := rows[k := r];
      return Accepted;
    }

    /** Row first, then the file. */
    method DeletePhoto(id: int, user: string) returns (found: bool)
      modifies this`rows, this`thumbs
      ensures Now() == Run(old(Now()), Steps(old(Now()), Op.DeletePhoto(id, user)))
      ensures found <==> RowId(Photos, id) in old(rows) && old(rows)[RowId(Photos, id)].user == user
      ensures old(Sound(Now())) ==> (Sound(Now()) <==> old(HeldOnce(Now(), id, user)))
      ensures rows == if found then old(rows) - {RowId(Photos, id)} else old(rows)
      ensures thumbs == if found && old(rows)[RowId(Photos, id)].hash.Some?
                        then old(thumbs) - {old(rows)[RowId(Photos, id)].hash.value} else old(thumbs)
    {
      hide DeleteTables;
      ghost var before := Now();
      ghost var op := Op.DeletePhoto(id, user);
      ghost var steps := Steps(before, op);
      assert steps[..|steps|] == steps;
      if Sound(before) {
        DeletePhotoSafeIff(before, id, user);
      }
      var k := RowId(Photos, id);
      if k !in rows || rows[k].user != user {
        return false;
      }
      RunOne(before, steps, 0);
      var hash := rows[k].hash;
      rows := rows - {k};
      if hash.Some? {
        RunOne(before, steps, 1);
        thumbs := thumbs - {hash.value};
      }
      return true;
    }

    /** Every thumbnail, then the import row, then the whole batch in one transaction. */
    method ImportPhotos(importId: int, user: string, shots: seq<Shot>)
      modifies this`rows, this`thumbs
      ensures Now() == Run(old(Now()), Steps(old(Now()), Op.ImportPhotos(importId, user, shots)))
      ensures thumbs == old(thumbs) + set s | s in shots && s.hasThumb :: s.hash
      ensures BatchRecorded(old(rows), rows, users, importId, user, shots)
    {
      ghost var before := Now();
      ghost var op := Op.ImportPhotos(importId, user, shots);
      ghost var steps := Steps(before, op);
      ImportShape(before, op);
      ThumbsWritten(before, op);
      hide Do, Steps, ShotRows, ThumbHashes, Thumbed;
      ghost var w := |Thumbed(shots)|;
      RunOne(before, steps, w);
      RunOne(before, steps, w + 1);
      assert steps[..w + 2] == steps;
      WriteThumbs(shots);
      ImportLands(Now(), importId, user, shots);
      hide BatchRecorded;
      InsertBatch([(RowId(Imports, importId), ImportRow(user))]);
      InsertBatch(ShotRows(user, importId, shots));
    }

    method WriteThumbs(shots: seq<Shot>)
      modifies this`thumbs
      ensures thumbs == old(thumbs) + ThumbHashes(shots)
    {
      for i := 0 to |shots|
        invariant thumbs == old(thumbs) + ThumbHashes(shots[..i])
      {
        if shots[i].hasThumb {
          thumbs := thumbs + {shots[i].hash};
        }
        assert shots[..i + 1] == shots[..i] + [shots[i]];
      }
      assert shots[..|shots|] == shots;
    }

    /** All rows of a transaction, or none when a foreign key fails. */
    method InsertBatch(batch: seq<(RowId, Row)>)
      modifies this`rows
      ensures Now() == Do(old(Now()), InsertRows(batch))
    {
      hide KeyHolds, Conflicts;
      var working, i := rows, 0;
      while i < |batch|
        invariant 0 <= i <= |batch|
        invariant forall j | 0 <= j < i :: KeyHolds(Now(), batch[j].0, batch[j].1)
        invariant working == Inserted(rows, batch[..i])
        invariant Now() == old(Now())
      {
        if !KeyHolds(Now(), batch[i].0, batch[i].1) {
          assert batch[i] in batch;
          return;
        }
        assert Front(batch[..i + 1]) == batch[..i];
        if !Conflicts(working, batch[i].0, batch[i].1) {
          working := working[batch[i].0 := batch[i].1];
        }
        i := i + 1;
      }
      assert batch[..i] == batch;
      rows := working;
    }
  }
}
