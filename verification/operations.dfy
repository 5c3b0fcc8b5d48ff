/**
 What each operation does to rows and files, one atomic step at a time (internal/api/photos.go,
 internal/api/photo_imports.go, internal/api/imports.go, internal/api/deletion.go,
 internal/backup/backup.go): a crash leaves one of the prefixes behind.
 */
module Operations {
  import opened Domain
  import opened Seqs
  import opened Durable

  // ---- Steps ----

  /** One atomic effect: a file operation, or a committed transaction. */
  datatype Step =
    | WriteThumb(h: string)
    | RemoveThumb(h: string)
    | KeepUpload(h: string)
    | RemoveUpload(h: string)
    | InsertRows(batch: seq<(RowId, Row)>)
    | DropPhoto(id: int)
    | EraseUser(user: string, dropUser: bool)

  /** Photos and photo records are unique per user and hash. */
  predicate Conflicts(rows: map<RowId, Row>, k: RowId, r: Row) {
    || k in rows
    || ((k.table == Photos || k.table == PhotoRecords)
        && exists q | q in rows :: q.table == k.table && rows[q].user == r.user && rows[q].hash == r.hash)
  }

  /** A batch of inserts, conflicts skipped. */
  function Inserted(rows: map<RowId, Row>, batch: seq<(RowId, Row)>): map<RowId, Row> {
    if batch == [] then rows
    else
      var before := Inserted(rows, Front(batch));
      var (k, r) := Last(batch);
      if Conflicts(before, k, r) then before else before[k := r]
  }

  /** The owner is an account and the referenced row exists. */
  predicate KeyHolds(st: State, k: RowId, r: Row) {
    r.user in st.users && (Target(k, r).Some? ==> Target(k, r).value in st.rows)
  }

  function Do(st: State, step: Step): State {
    match step
    case WriteThumb(h) => st.(thumbs := st.thumbs + {h})
    case RemoveThumb(h) => st.(thumbs := st.thumbs - {h})
    case KeepUpload(h) => st.(uploads := st.uploads + {h})
    case RemoveUpload(h) => st.(uploads := st.uploads - {h})
    case InsertRows(batch) =>
      if forall p | p in batch :: KeyHolds(st, p.0, p.1) then st.(rows := Inserted(st.rows, batch)) else st
    case DropPhoto(id) => st.(rows := st.rows - {RowId(Photos, id)})
    case EraseUser(user, dropUser) =>
      match DeleteTables(st.rows, USER_DATA_TABLES, user)
      case None => st
      case Some(rest) => st.(rows := rest, users := if dropUser then st.users - {user} else st.users)
  }

  function Run(st: State, steps: seq<Step>): State {
    if steps == [] then st else Do(Run(st, Front(steps)), Last(steps))
  }

  // ---- Operations ----

  datatype Shot = Shot(id: int, hash: string, hasThumb: bool)

  datatype Op =
    | RecordDecision(id: int, user: string)
    | UploadPhoto(id: int, user: string, decision: int, hash: string)
    | RestorePhoto(id: int, user: string, decision: int, hash: string, carried: bool)
    | ImportPhotos(importId: int, user: string, shots: seq<Shot>)
    | UploadTimeline(importId: int, user: string, hash: string)
    | DeletePhoto(id: int, user: string)
    | DeleteAccount(user: string, dropUser: bool, thumbs: seq<string>, uploads: seq<string>)

  function PhotoRow(user: string, decision: int, hash: string): Row { Row(user, Some(decision), Some(hash), true) }

  function ShotRow(user: string, importId: int, shot: Shot): (RowId, Row) {
    (RowId(PhotoRecords, shot.id), Row(user, Some(importId), Some(shot.hash), shot.hasThumb))
  }

  function ImportRow(user: string): Row { Row(user, None, None, false) }

  function Thumbed(shots: seq<Shot>): seq<Shot> { Filter(shots, (s: Shot) => s.hasThumb) }

  function ShotRows(user: string, importId: int, shots: seq<Shot>): seq<(RowId, Row)> {
    Map(shots, (s: Shot) => ShotRow(user, importId, s))
  }

  function Insertion(id: int, user: string, decision: int, hash: string): Step {
    InsertRows([(RowId(Photos, id), PhotoRow(user, decision, hash))])
  }

  /** The steps an operation takes from a state, in order. */
  function Steps(st: State, op: Op): seq<Step> {
    match op
    case RecordDecision(id, user) => [InsertRows([(RowId(Decisions, id), Row(user, None, None, false))])]
    case UploadPhoto(id, user, decision, hash) => [WriteThumb(hash), Insertion(id, user, decision, hash)]
    case RestorePhoto(id, user, decision, hash, carried) =>
      if hash in st.thumbs then [Insertion(id, user, decision, hash)]
      else if carried then [WriteThumb(hash), Insertion(id, user, decision, hash)]
      else []
    case ImportPhotos(importId, user, shots) =>
      Map(Thumbed(shots), (s: Shot) => WriteThumb(s.hash))
      + [InsertRows([(RowId(Imports, importId), ImportRow(user))])]
      + [InsertRows(ShotRows(user, importId, shots))]
    case UploadTimeline(importId, user, hash) =>
      [KeepUpload(hash), InsertRows([(RowId(Imports, importId), Row(user, None, Some(hash), false))])]
    case DeletePhoto(id, user) =>
      var k := RowId(Photos, id);
      if k !in st.rows || st.rows[k].user != user then []
      else if st.rows[k].hash.None? then [DropPhoto(id)]
      else [DropPhoto(id), RemoveThumb(st.rows[k].hash.value)]
    case DeleteAccount(user, dropUser, thumbs, uploads) =>
      [EraseUser(user, dropUser)]
      + Map(thumbs, (h: string) => RemoveThumb(h)) + Map(uploads, (h: string) => RemoveUpload(h))
  }

  // ---- Which steps keep the state sound ----

  ghost predicate Sound(st: State) { WellFormed(st) && Safe(st) }

  predicate Claimed(rows: map<RowId, Row>, h: string) {
    exists k | k in rows :: ClaimsThumb(k, rows[k]) && rows[k].hash == Some(h)
  }

  /** A row that may be inserted: it refers to its own user's row, and the files it claims are there. */
  predicate RowOk(st: State, k: RowId, r: Row) {
    && (Target(k, r).Some? && Target(k, r).value in st.rows ==> st.rows[Target(k, r).value].user == r.user)
    && (ClaimsThumb(k, r) ==> r.hash.value in st.thumbs)
    && (k.table == Imports && r.hash.Some? ==> r.hash.value in st.uploads)
  }

  predicate StepOk(st: State, step: Step) {
    match step
    case RemoveThumb(h) => !Claimed(st.rows, h)
    case RemoveUpload(h) => !UploadNamed(st.rows, h)
    case InsertRows(batch) => forall p | p in batch :: RowOk(st, p.0, p.1)
    case _ => true
  }

  lemma RowAddedSafe(st: State, k: RowId, r: Row)
    requires Safe(st) && k !in st.rows && RowOk(st, k, r)
    ensures Safe(st.(rows := st.rows[k := r]))
  {
    hide Target;
  }

  lemma RowAddedWellFormed(st: State, k: RowId, r: Row)
    requires WellFormed(st) && k !in st.rows && KeyHolds(st, k, r) && RowOk(st, k, r)
    ensures WellFormed(st.(rows := st.rows[k := r]))
  {
    hide ClaimsThumb;
  }

  lemma RowStillOk(st: State, later: State, k: RowId, r: Row)
    requires KeyHolds(st, k, r) && RowOk(st, k, r)
    requires later.users == st.users && later.thumbs == st.thumbs && later.uploads == st.uploads
    requires forall q | q in st.rows :: q in later.rows && later.rows[q] == st.rows[q]
    ensures KeyHolds(later, k, r) && RowOk(later, k, r)
  {
    hide ClaimsThumb;
  }

  lemma {:induction false} InsertedSound(st: State, batch: seq<(RowId, Row)>)
    requires Sound(st)
    requires forall p | p in batch :: KeyHolds(st, p.0, p.1) && RowOk(st, p.0, p.1)
    ensures Sound(st.(rows := Inserted(st.rows, batch)))
    ensures forall k | k in st.rows :: k in Inserted(st.rows, batch) && Inserted(st.rows, batch)[k] == st.rows[k]
  {
    hide WellFormed, Safe, RowOk, KeyHolds;
    if batch != [] {
      var (k, r) := Last(batch);
      assert (k, r) in batch;
      assert forall p | p in Front(batch) :: p in batch;
      InsertedSound(st, Front(batch));
      var before := st.(rows := Inserted(st.rows, Front(batch)));
      if !Conflicts(before.rows, k, r) {
        RowStillOk(st, before, k, r);
        RowAddedSafe(before, k, r);
        RowAddedWellFormed(before, k, r);
      }
    }
  }

  lemma FileStepSound(st: State, step: Step)
    requires Sound(st) && StepOk(st, step)
    requires step.WriteThumb? || step.RemoveThumb? || step.KeepUpload? || step.RemoveUpload?
    ensures Sound(Do(st, step))
  {
    hide KeysHold;
  }

  lemma DropSound(st: State, id: int)
    requires Sound(st)
    ensures Sound(Do(st, DropPhoto(id)))
  {
    NoReferrers(st.rows, RowId(Photos, id));
    hide DeleteTables, Target, ClaimsThumb;
    var rest := st.rows - {RowId(Photos, id)};
    assert forall k | k in rest :: k in st.rows && rest[k] == st.rows[k];
  }

  /** No row refers to a photo. */
  lemma NoReferrers(rows: map<RowId, Row>, photo: RowId)
    requires photo.table == Photos
    ensures forall k | k in rows && Target(k, rows[k]).Some? :: Target(k, rows[k]).value != photo
  {
  }

  lemma StepKeepsSound(st: State, step: Step)
    requires Sound(st) && StepOk(st, step)
    ensures Sound(Do(st, step))
  {
    hide KeysHold, Safe, RowOk, KeyHolds, DeleteTables;
    match step
    case InsertRows(batch) =>
      if forall p | p in batch :: KeyHolds(st, p.0, p.1) {
        InsertedSound(st, batch);
      }
    case EraseUser(user, dropUser) => EraseSound(st, user, dropUser);
    case DropPhoto(id) => DropSound(st, id);
    case _ => FileStepSound(st, step);
  }

  lemma EraseIs(st: State, user: string, dropUser: bool)
    requires WellFormed(st)
    ensures Do(st, EraseUser(user, dropUser))
         == st.(rows := OthersRows(st.rows, user), users := if dropUser then st.users - {user} else st.users)
  {
    AccountRowsGo(st, user);
    hide DeleteTables, OthersRows;
  }

  lemma EraseSound(st: State, user: string, dropUser: bool)
    requires Sound(st)
    ensures Sound(Do(st, EraseUser(user, dropUser)))
  {
    EraseIs(st, user, dropUser);
    hide Do;
  }

  lemma {:induction false} StepsKeepSound(st: State, steps: seq<Step>, n: nat)
    requires Sound(st) && n <= |steps|
    requires forall i | 0 <= i < n :: StepOk(Run(st, steps[..i]), steps[i])
    ensures Sound(Run(st, steps[..n]))
  {
    hide Do, StepOk, Sound;
    if n > 0 {
      StepsKeepSound(st, steps, n - 1);
      assert Front(steps[..n]) == steps[..n - 1];
      StepKeepsSound(Run(st, steps[..n - 1]), steps[n - 1]);
    }
  }

  // ---- Operations are crash-safe ----

  /** What a handler has established before it takes its first step. */
  ghost predicate Callable(st: State, op: Op) {
    match op
    case RecordDecision(_, _) => true
    case UploadPhoto(_, user, decision, _) => OwnDecision(st, user, decision)
    case RestorePhoto(_, user, decision, _, _) => OwnDecision(st, user, decision)
    case ImportPhotos(importId, _, _) => RowId(Imports, importId) !in st.rows
    case UploadTimeline(_, _, _) => true
    case DeletePhoto(_, _) => true
    case DeleteAccount(user, _, thumbs, uploads) =>
      && (forall h | h in thumbs :: h in OrphanThumbs(st.rows, user))
      && (forall h | h in uploads :: h in OrphanUploads(st.rows, user))
  }

  /** The one thing no handler establishes: that the thumbnail about to be removed is nobody else's. */
  ghost predicate Harmless(st: State, op: Op) { op.DeletePhoto? ==> HeldOnce(st, op.id, op.user) }

  predicate OwnDecision(st: State, user: string, decision: int) {
    RowId(Decisions, decision) in st.rows ==> st.rows[RowId(Decisions, decision)].user == user
  }

  /** No row but the photo itself claims the photo's thumbnail. */
  predicate HeldOnce(st: State, id: int, user: string) {
    var k := RowId(Photos, id);
    k in st.rows && st.rows[k].user == user && st.rows[k].hash.Some? ==>
      !Claimed(st.rows - {k}, st.rows[k].hash.value)
  }

  /** Steps that leave rows and accounts alone. */
  predicate TouchesFilesOnly(step: Step) {
    step.WriteThumb? || step.RemoveThumb? || step.KeepUpload? || step.RemoveUpload?
  }

  lemma {:induction false} FilesOnlyFrame(st: State, steps: seq<Step>, n: nat, m: nat)
    requires n <= m <= |steps|
    requires forall i | n <= i < m :: TouchesFilesOnly(steps[i])
    ensures Run(st, steps[..m]).rows == Run(st, steps[..n]).rows
    ensures Run(st, steps[..m]).users == Run(st, steps[..n]).users
  {
    if n < m {
      FilesOnlyFrame(st, steps, n, m - 1);
      assert Front(steps[..m]) == steps[..m - 1];
    }
  }

  lemma {:induction false} WritesLand(st: State, steps: seq<Step>, n: nat)
    requires n <= |steps|
    requires forall i | 0 <= i < n :: steps[i].WriteThumb?
    ensures Run(st, steps[..n]) == st.(thumbs := st.thumbs + (set i | 0 <= i < n :: steps[i].h))
  {
    if n > 0 {
      WritesLand(st, steps, n - 1);
      assert Front(steps[..n]) == steps[..n - 1];
      assert (set i | 0 <= i < n :: steps[i].h) == (set i | 0 <= i < n - 1 :: steps[i].h) + {steps[n - 1].h};
    }
  }

  lemma RunOne(st: State, steps: seq<Step>, n: nat)
    requires n < |steps|
    ensures Run(st, steps[..0]) == st
    ensures Run(st, steps[..n + 1]) == Do(Run(st, steps[..n]), steps[n])
  {
    assert Front(steps[..n + 1]) == steps[..n];
  }

  lemma ImportShape(st: State, op: Op)
    requires op.ImportPhotos?
    ensures var steps := Steps(st, op); var w := |Thumbed(op.shots)|;
            && |steps| == w + 2
            && (forall i | 0 <= i < w :: steps[i] == WriteThumb(Thumbed(op.shots)[i].hash))
            && steps[w] == InsertRows([(RowId(Imports, op.importId), ImportRow(op.user))])
            && steps[w + 1] == InsertRows(ShotRows(op.user, op.importId, op.shots))
  {
  }

  /** A shot's record refers to its import and claims only a thumbnail that was written. */
  lemma ShotRowsOk(st: State, user: string, importId: int, shots: seq<Shot>)
    requires RowId(Imports, importId) in st.rows ==> st.rows[RowId(Imports, importId)].user == user
    requires forall s | s in shots && s.hasThumb :: s.hash in st.thumbs
    ensures forall p | p in ShotRows(user, importId, shots) :: RowOk(st, p.0, p.1)
  {
    forall p | p in ShotRows(user, importId, shots) ensures RowOk(st, p.0, p.1) {
      var i :| 0 <= i < |shots| && p == ShotRow(user, importId, shots[i]);
      assert Target(p.0, p.1) == Some(RowId(Imports, importId));
    }
  }

  function ThumbHashes(shots: seq<Shot>): set<string> { set s | s in shots && s.hasThumb :: s.hash }

  lemma ThumbsWritten(st: State, op: Op)
    requires op.ImportPhotos?
    ensures var w := |Thumbed(op.shots)|;
            w <= |Steps(st, op)| && Run(st, Steps(st, op)[..w]) == st.(thumbs := st.thumbs + ThumbHashes(op.shots))
  {
    ImportShape(st, op);
    hide Steps, Do;
    var steps := Steps(st, op);
    var w := |Thumbed(op.shots)|;
    WritesLand(st, steps, w);
    FilterElements(op.shots, (s: Shot) => s.hasThumb);
    var written := set i | 0 <= i < w :: steps[i].h;
    forall s | s in op.shots && s.hasThumb ensures s.hash in written {
      var i :| 0 <= i < w && Thumbed(op.shots)[i] == s;
      assert steps[i].h == s.hash;
    }
    forall h | h in written ensures h in ThumbHashes(op.shots) {
      var i :| 0 <= i < w && steps[i].h == h;
      assert Thumbed(op.shots)[i] in Thumbed(op.shots);
    }
    assert written == ThumbHashes(op.shots);
  }

  /** Inserting the import row leaves the files alone, and whoever holds that id is the importer. */
  lemma ImportRowIn(st: State, importId: int, user: string)
    requires RowId(Imports, importId) !in st.rows
    ensures var k := RowId(Imports, importId); var now := Do(st, InsertRows([(k, ImportRow(user))]));
            now.thumbs == st.thumbs && (k in now.rows ==> now.rows[k].user == user)
  {
    hide KeyHolds, Conflicts;
    InsertedOne(st.rows, RowId(Imports, importId), ImportRow(user));
  }

  lemma ImportRowOk(st: State, importId: int, user: string)
    ensures RowOk(st, RowId(Imports, importId), ImportRow(user))
  {
  }

  lemma HashesIn(shots: seq<Shot>)
    ensures forall s | s in shots && s.hasThumb :: s.hash in ThumbHashes(shots)
  {
  }

  lemma InsertedOne(rows: map<RowId, Row>, k: RowId, r: Row)
    ensures Inserted(rows, [(k, r)]) == if Conflicts(rows, k, r) then rows else rows[k := r]
  {
    assert Front([(k, r)]) == [];
  }

  lemma AccountStepsOk(st: State, op: Op, n: nat)
    requires Sound(st) && op.DeleteAccount? && Callable(st, op) && n < |Steps(st, op)|
    ensures StepOk(Run(st, Steps(st, op)[..n]), Steps(st, op)[n])
    ensures n >= 1 ==> Run(st, Steps(st, op)[..n]).rows == OthersRows(st.rows, op.user)
  {
    hide DeleteTables;
    var steps := Steps(st, op);
    if n >= 1 {
      AccountRowsGo(st, op.user);
      RunOne(st, steps, 0);
      FilesOnlyFrame(st, steps, 1, n);
      if steps[n].RemoveThumb? {
        assert steps[n].h in op.thumbs;
      } else {
        assert steps[n].h in op.uploads;
      }
    }
  }

  lemma ImportStepOk(st: State, importId: int, user: string, shots: seq<Shot>, n: nat)
    requires RowId(Imports, importId) !in st.rows
    requires n < |Thumbed(shots)| + 2 == |Steps(st, ImportPhotos(importId, user, shots))|
    ensures var steps := Steps(st, ImportPhotos(importId, user, shots)); StepOk(Run(st, steps[..n]), steps[n])
  {
    var op := ImportPhotos(importId, user, shots);
    ImportShape(st, op);
    ThumbsWritten(st, op);
    hide Steps, Thumbed, ShotRows, ThumbHashes, Do, RowOk, Run;
    var steps := Steps(st, op);
    var w := |Thumbed(shots)|;
    if n == w {
      ImportRowOk(Run(st, steps[..n]), importId, user);
    } else if n > w {
      RunOne(st, steps, w);
      ImportRowIn(Run(st, steps[..w]), importId, user);
      HashesIn(shots);
      ShotRowsOk(Run(st, steps[..n]), user, importId, shots);
    }
  }

  /** No step of an operation removes a file that is still claimed, or inserts a row before its file. */
  lemma StepsOk(st: State, op: Op, n: nat)
    requires Sound(st) && Callable(st, op) && Harmless(st, op) && n < |Steps(st, op)|
    ensures StepOk(Run(st, Steps(st, op)[..n]), Steps(st, op)[n])
  {
    match op
    case ImportPhotos(importId, user, shots) =>
      ImportShape(st, op);
      ImportStepOk(st, importId, user, shots, n);
    case DeleteAccount(_, _, _, _) => AccountStepsOk(st, op, n);
    case _ =>
      hide DeleteTables, Sound;
      RunOne(st, Steps(st, op), 0);
  }

  lemma HarmlessIsSafe(st: State, op: Op, n: nat)
    requires Sound(st) && Callable(st, op) && Harmless(st, op) && n <= |Steps(st, op)|
    ensures Sound(Run(st, Steps(st, op)[..n]))
  {
    hide Sound, Callable, Harmless, StepOk;
    forall i | 0 <= i < n ensures StepOk(Run(st, Steps(st, op)[..i]), Steps(st, op)[i]) {
      StepsOk(st, op, i);
    }
    StepsKeepSound(st, Steps(st, op), n);
  }

  /** Deleting a photo is safe exactly when no other row claims its thumbnail. */
  lemma DeletePhotoSafeIff(st: State, id: int, user: string)
    requires Sound(st)
    ensures Sound(Run(st, Steps(st, DeletePhoto(id, user)))) <==> HeldOnce(st, id, user)
  {
    var op := DeletePhoto(id, user);
    var steps := Steps(st, op);
    assert steps[..|steps|] == steps;
    if HeldOnce(st, id, user) {
      HarmlessIsSafe(st, op, |steps|);
    } else {
      hide DeleteTables;
      var k := RowId(Photos, id);
      RunOne(st, steps, 0);
      RunOne(st, steps, 1);
      var h := st.rows[k].hash.value;
      var q :| q in st.rows - {k} && ClaimsThumb(q, st.rows[q]) && st.rows[q].hash == Some(h);
      var after := Run(st, steps);
      assert q in after.rows && h !in after.thumbs;
    }
  }

  /**
   Whatever prefix of its steps a crash leaves behind, every claimed file is there: for every operation
   unconditionally, but for deleting a photo exactly when no other row claims its thumbnail.
   */
  lemma CrashSafe(st: State, op: Op)
    requires Sound(st) && Callable(st, op)
    ensures (forall n | 0 <= n <= |Steps(st, op)| :: Sound(Run(st, Steps(st, op)[..n]))) <==> Harmless(st, op)
  {
    hide Sound, Callable, HeldOnce, Steps;
    var steps := Steps(st, op);
    if Harmless(st, op) {
      forall n | 0 <= n <= |steps| ensures Sound(Run(st, steps[..n])) {
        HarmlessIsSafe(st, op, n);
      }
    } else {
      DeletePhotoSafeIff(st, op.id, op.user);
      assert steps[..|steps|] == steps;
    }
  }

  // ---- Histories ----

  /** An operation, and how many of its steps were taken before it ended or crashed. */
  datatype Event = Event(op: Op, taken: nat)

  function After(st: State, e: Event): State {
    var steps := Steps(st, e.op);
    Run(st, steps[..if e.taken <= |steps| then e.taken else |steps|])
  }

  function Replay(st: State, history: seq<Event>): State {
    if history == [] then st else After(Replay(st, Front(history)), Last(history))
  }

  /** Each operation was one its handler would have started. */
  ghost predicate CallableHistory(st: State, history: seq<Event>) {
    history != [] ==> CallableHistory(st, Front(history)) && Callable(Replay(st, Front(history)), Last(history).op)
  }

  /** The event removes a thumbnail another row claims. */
  ghost predicate Hurts(st: State, e: Event) { e.op.DeletePhoto? && e.taken >= 2 && !HeldOnce(st, e.op.id, e.op.user) }

  ghost predicate NeverHurts(st: State, history: seq<Event>) {
    history != [] ==> NeverHurts(st, Front(history)) && !Hurts(Replay(st, Front(history)), Last(history))
  }

  ghost predicate SoundThroughout(st: State, history: seq<Event>) {
    Sound(Replay(st, history)) && (history != [] ==> SoundThroughout(st, Front(history)))
  }

  lemma EventSafeIff(st: State, e: Event)
    requires Sound(st) && Callable(st, e.op)
    ensures Sound(After(st, e)) <==> !Hurts(st, e)
  {
    var steps := Steps(st, e.op);
    var n := if e.taken <= |steps| then e.taken else |steps|;
    if Harmless(st, e.op) {
      HarmlessIsSafe(st, e.op, n);
    } else {
      var k := RowId(Photos, e.op.id);
      assert steps == [DropPhoto(e.op.id), RemoveThumb(st.rows[k].hash.value)];
      RunOne(st, steps, 0);
      DropSound(st, e.op.id);
      DeletePhotoSafeIff(st, e.op.id, e.op.user);
      assert steps[..|steps|] == steps;
      hide Sound, HeldOnce, Steps, Do;
    }
  }

  /**
   Through any sequence of operations, each ended or crashed anywhere, every claimed file is always there
   if and only if no photo deletion ever removes a thumbnail that another row claims.
   */
  lemma {:induction false} HistorySafe(st: State, history: seq<Event>)
    requires Sound(st) && CallableHistory(st, history)
    ensures SoundThroughout(st, history) <==> NeverHurts(st, history)
  {
    hide Sound, Callable, After, Hurts;
    if history != [] {
      HistorySafe(st, Front(history));
      if SoundThroughout(st, Front(history)) {
        EventSafeIff(Replay(st, Front(history)), Last(history));
      }
    }
  }

  // ---- Two rows, one thumbnail ----

  ghost predicate NewInstance(st: State, user: string) {
    st.rows == map[] && st.users == {user} && st.thumbs == {} && st.uploads == {}
  }

  lemma InsertedAlone(st: State, k: RowId, r: Row)
    requires r.user in st.users && (Target(k, r).Some? ==> Target(k, r).value in st.rows)
    requires !Conflicts(st.rows, k, r)
    ensures Do(st, InsertRows([(k, r)])) == st.(rows := st.rows[k := r])
  {
    hide Conflicts;
    InsertedOne(st.rows, k, r);
    assert forall p | p in [(k, r)] :: p == (k, r);
  }

  lemma WholeEvent(st: State, e: Event)
    requires e.taken >= |Steps(st, e.op)|
    ensures After(st, e) == Run(st, Steps(st, e.op))
  {
    assert Steps(st, e.op)[..|Steps(st, e.op)|] == Steps(st, e.op);
  }

  lemma RunTwo(st: State, a: Step, b: Step)
    ensures Run(st, [a]) == Do(st, a) && Run(st, [a, b]) == Do(Do(st, a), b)
  {
    assert Front([a, b]) == [a] && Front([a]) == [];
    hide Do;
  }

  lemma RunThree(st: State, a: Step, b: Step, c: Step)
    ensures Run(st, [a, b, c]) == Do(Do(Do(st, a), b), c)
  {
    RunTwo(st, a, b);
    assert Front([a, b, c]) == [a, b];
    hide Do;
  }

  const KEPT: RowId := RowId(Decisions, 1)
  const PHOTO: RowId := RowId(Photos, 1)
  const IMPORT: RowId := RowId(Imports, 1)
  const RECORD: RowId := RowId(PhotoRecords, 1)

  /** A decision with one photo. */
  lemma PhotoUploaded(st: State, user: string, h: string)
    requires NewInstance(st, user)
    ensures var decided := After(st, Event(RecordDecision(1, user), 1));
            After(decided, Event(UploadPhoto(1, user, 1, h), 2)) == WithPhoto(user, h)
  {
    var one := Event(RecordDecision(1, user), 1);
    WholeEvent(st, one);
    RunTwo(st, InsertRows([(KEPT, Row(user, None, None, false))]), KeepUpload(h));
    InsertedAlone(st, KEPT, Row(user, None, None, false));
    var decided := After(st, one);
    assert decided.rows == map[KEPT := Row(user, None, None, false)];
    var two := Event(UploadPhoto(1, user, 1, h), 2);
    WholeEvent(decided, two);
    RunTwo(decided, WriteThumb(h), Insertion(1, user, 1, h));
    InsertedAlone(decided.(thumbs := {h}), PHOTO, PhotoRow(user, 1, h));
  }

  function RecordRow(user: string, h: string): Row { Row(user, Some(1), Some(h), true) }

  /** One trip with one photo, and the same photo again as evidence. */
  function WithPhoto(user: string, h: string): State {
    State(map[KEPT := Row(user, None, None, false), PHOTO := PhotoRow(user, 1, h)], {user}, {h}, {})
  }

  function WithRecord(user: string, h: string): State {
    State(WithPhoto(user, h).rows[IMPORT := ImportRow(user)][RECORD := RecordRow(user, h)], {user}, {h}, {})
  }

  lemma OneShotSteps(st: State, user: string, h: string)
    ensures Steps(st, ImportPhotos(1, user, [Shot(1, h, true)]))
         == [WriteThumb(h), InsertRows([(IMPORT, ImportRow(user))]), InsertRows([(RECORD, RecordRow(user, h))])]
  {
    var shots := [Shot(1, h, true)];
    FilterAll(shots, (s: Shot) => s.hasThumb);
    ImportShape(st, ImportPhotos(1, user, shots));
    assert ShotRows(user, 1, shots) == [(RECORD, RecordRow(user, h))];
    hide Steps, ShotRows;
  }

  lemma NothingInTheWay(user: string, h: string)
    ensures var rows := WithPhoto(user, h).rows;
            && !Conflicts(rows, IMPORT, ImportRow(user))
            && !Conflicts(rows[IMPORT := ImportRow(user)], RECORD, RecordRow(user, h))
  {
  }

  /** The same bytes, imported as evidence. */
  lemma PhotoImported(user: string, h: string)
    ensures After(WithPhoto(user, h), Event(ImportPhotos(1, user, [Shot(1, h, true)]), 3)) == WithRecord(user, h)
  {
    var st, e := WithPhoto(user, h), Event(ImportPhotos(1, user, [Shot(1, h, true)]), 3);
    OneShotSteps(st, user, h);
    NothingInTheWay(user, h);
    hide Steps, After, Conflicts;
    WholeEvent(st, e);
    RunThree(st, WriteThumb(h), InsertRows([(IMPORT, ImportRow(user))]), InsertRows([(RECORD, RecordRow(user, h))]));
    assert st.thumbs + {h} == st.thumbs;
    assert Do(st, WriteThumb(h)) == st;
    var imported := st.(rows := st.rows[IMPORT := ImportRow(user)]);
    InsertedAlone(st, IMPORT, ImportRow(user));
    InsertedAlone(imported, RECORD, RecordRow(user, h));
  }

  lemma HeldTwice(user: string, h: string)
    ensures !HeldOnce(WithRecord(user, h), 1, user)
  {
    var rows := WithRecord(user, h).rows;
    assert RECORD in rows - {PHOTO} && ClaimsThumb(RECORD, rows[RECORD]);
    assert (rows - {PHOTO})[RECORD] == RecordRow(user, h);
  }

  lemma ReplayMore(st: State, history: seq<Event>, e: Event)
    ensures Replay(st, history + [e]) == After(Replay(st, history), e)
    ensures CallableHistory(st, history + [e]) <==> CallableHistory(st, history) && Callable(Replay(st, history), e.op)
    ensures NeverHurts(st, history + [e]) <==> NeverHurts(st, history) && !Hurts(Replay(st, history), e)
    ensures SoundThroughout(st, history + [e]) <==> SoundThroughout(st, history) && Sound(After(Replay(st, history), e))
  {
    assert Front(history + [e]) == history;
    hide After, Callable, Hurts, Sound;
  }

  /** A trip, and a photo on it. */
  lemma PhotoHistory(st: State, user: string, h: string) returns (history: seq<Event>)
    requires NewInstance(st, user)
    ensures |history| == 2 && CallableHistory(st, history) && NeverHurts(st, history)
    ensures Replay(st, history) == WithPhoto(user, h)
  {
    var a, b := Event(RecordDecision(1, user), 1), Event(UploadPhoto(1, user, 1, h), 2);
    PhotoUploaded(st, user, h);
    DecisionIsOwn(st, user);
    hide After, OwnDecision;
    ReplayMore(st, [], a);
    ReplayMore(st, [a], b);
    assert [] + [a] == [a] && [a] + [b] == [a, b];
    history := [a, b];
  }

  /**
   From an empty instance: keep a trip, add a photo to it, import the same photo as evidence, delete the
   first. The handlers accept every step, and the record's thumbnail is gone.
   */
  lemma SharedBytesBreak(st: State, user: string, h: string) returns (history: seq<Event>)
    requires NewInstance(st, user)
    ensures Sound(st) && CallableHistory(st, history) && |history| == 4
    ensures SoundThroughout(st, Front(history)) && !Sound(Replay(st, history))
  {
    hide *;
    var c, d := Event(ImportPhotos(1, user, [Shot(1, h, true)]), 3), Event(DeletePhoto(1, user), 2);
    NewIsSound(st, user);
    var two := PhotoHistory(st, user, h);
    PhotoImported(user, h);
    EventsCallable(user, h);
    LastHurts(st, two, c, d);
    history := two + [c] + [d];
    FrontOfMore(two + [c], d);
  }

  lemma FrontOfMore(history: seq<Event>, e: Event)
    ensures Front(history + [e]) == history
  {
  }

  lemma NewIsSound(st: State, user: string)
    requires NewInstance(st, user)
    ensures Sound(st)
  {
  }

  lemma EventsCallable(user: string, h: string)
    ensures var c := Event(ImportPhotos(1, user, [Shot(1, h, true)]), 3);
            Callable(WithPhoto(user, h), c.op) && !Hurts(WithPhoto(user, h), c)
    ensures var d := Event(DeletePhoto(1, user), 2);
            Callable(WithRecord(user, h), d.op) && Hurts(WithRecord(user, h), d)
  {
    HeldTwice(user, h);
    hide HeldOnce;
  }

  lemma LastHurts(st: State, history: seq<Event>, c: Event, d: Event)
    requires Sound(st) && CallableHistory(st, history) && NeverHurts(st, history)
    requires var now := Replay(st, history);
             Callable(now, c.op) && !Hurts(now, c) && Callable(After(now, c), d.op) && Hurts(After(now, c), d)
    ensures CallableHistory(st, history + [c] + [d])
    ensures SoundThroughout(st, history + [c]) && !Sound(Replay(st, history + [c] + [d]))
  {
    hide Sound, After, Callable, Hurts, CallableHistory, NeverHurts, Replay, SoundThroughout;
    ReplayMore(st, history, c);
    ReplayMore(st, history + [c], d);
    HistorySafe(st, history + [c]);
    HistorySafe(st, history + [c] + [d]);
  }

  lemma DecisionIsOwn(st: State, user: string)
    requires NewInstance(st, user)
    ensures OwnDecision(After(st, Event(RecordDecision(1, user), 1)), user, 1)
  {
    var one := Event(RecordDecision(1, user), 1);
    WholeEvent(st, one);
    RunTwo(st, InsertRows([(KEPT, Row(user, None, None, false))]), RemoveUpload(""));
    InsertedAlone(st, KEPT, Row(user, None, None, false));
  }

  // ---- Deleting an account ----

  lemma {:induction false} RemovalsLand(st: State, steps: seq<Step>, n: nat)
    requires 1 <= n <= |steps|
    requires forall i | 1 <= i < n :: steps[i].RemoveThumb? || steps[i].RemoveUpload?
    ensures var first, last := Run(st, steps[..1]), Run(st, steps[..n]);
            && last.thumbs == first.thumbs - (set i | 1 <= i < n && steps[i].RemoveThumb? :: steps[i].h)
            && last.uploads == first.uploads - (set i | 1 <= i < n && steps[i].RemoveUpload? :: steps[i].h)
  {
    hide DeleteTables;
    RunOne(st, steps, n - 1);
    if n > 1 {
      RemovalsLand(st, steps, n - 1);
    }
  }

  lemma AccountShape(st: State, op: Op)
    requires op.DeleteAccount?
    ensures var steps := Steps(st, op); var n := |steps|;
            && n >= 1 && steps[0] == EraseUser(op.user, op.dropUser)
            && (forall i | 1 <= i < n :: steps[i].RemoveThumb? || steps[i].RemoveUpload?)
            && (set i | 1 <= i < n && steps[i].RemoveThumb? :: steps[i].h) == (set h | h in op.thumbs)
            && (set i | 1 <= i < n && steps[i].RemoveUpload? :: steps[i].h) == (set h | h in op.uploads)
  {
    var steps := Steps(st, op);
    var n := |steps|;
    forall h | h in op.thumbs ensures h in (set i | 1 <= i < n && steps[i].RemoveThumb? :: steps[i].h) {
      var j :| 0 <= j < |op.thumbs| && op.thumbs[j] == h;
      assert steps[1 + j] == RemoveThumb(h);
    }
    forall h | h in op.uploads ensures h in (set i | 1 <= i < n && steps[i].RemoveUpload? :: steps[i].h) {
      var j :| 0 <= j < |op.uploads| && op.uploads[j] == h;
      assert steps[1 + |op.thumbs| + j] == RemoveUpload(h);
    }
  }

  /**
   Deleting an account removes all of its rows and none of anyone else's, and only files that no
   remaining row names.
   */
  lemma AccountDeleted(st: State, user: string, dropUser: bool, thumbs: seq<string>, uploads: seq<string>)
    requires Sound(st) && Callable(st, DeleteAccount(user, dropUser, thumbs, uploads))
    ensures var after := Run(st, Steps(st, DeleteAccount(user, dropUser, thumbs, uploads)));
            && after.rows == OthersRows(st.rows, user)
            && after.users == (if dropUser then st.users - {user} else st.users)
            && after.thumbs == st.thumbs - (set h | h in thumbs)
            && after.uploads == st.uploads - (set h | h in uploads)
            && (forall h | h in st.thumbs && h !in after.thumbs :: !ThumbNamed(after.rows, h))
            && (forall h | h in st.uploads && h !in after.uploads :: !UploadNamed(after.rows, h))
  {
    var op := DeleteAccount(user, dropUser, thumbs, uploads);
    var steps := Steps(st, op);
    AccountRowsGo(st, user);
    AccountShape(st, op);
    hide DeleteTables, Sound, Steps, OthersRows, ThumbNamed, UploadNamed;
    var n := |steps|;
    assert steps[..n] == steps;
    RunOne(st, steps, 0);
    FilesOnlyFrame(st, steps, 1, n);
    RemovalsLand(st, steps, n);
  }

  /** With the account's rows gone, any of its orphaned files may go too. */
  lemma OrphansMayGo(st: State, user: string, dropUser: bool, thumbs: set<string>, uploads: set<string>)
    requires Sound(st) && thumbs <= OrphanThumbs(st.rows, user) && uploads <= OrphanUploads(st.rows, user)
    ensures Sound(State(OthersRows(st.rows, user), if dropUser then st.users - {user} else st.users,
                        st.thumbs - thumbs, st.uploads - uploads))
  {
    EraseIs(st, user, dropUser);
    EraseSound(st, user, dropUser);
    var erased := Do(st, EraseUser(user, dropUser));
    hide Do, KeysHold, HashesOf, UploadsOf, OthersRows;
    assert forall h | h in thumbs :: !ThumbNamed(erased.rows, h);
    assert forall h | h in uploads :: !UploadNamed(erased.rows, h);
    FilesMayGo(erased, thumbs, uploads);
  }

  lemma FilesMayGo(st: State, thumbs: set<string>, uploads: set<string>)
    requires Sound(st)
    requires forall h | h in thumbs :: !ThumbNamed(st.rows, h)
    requires forall h | h in uploads :: !UploadNamed(st.rows, h)
    ensures Sound(st.(thumbs := st.thumbs - thumbs, uploads := st.uploads - uploads))
  {
    hide KeysHold;
    forall k | k in st.rows && ClaimsThumb(k, st.rows[k]) ensures st.rows[k].hash.value !in thumbs {
      assert NamesThumb(k, st.rows[k], st.rows[k].hash.value);
    }
  }
}
