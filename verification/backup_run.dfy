/** Writing an archive and restoring one, step by step, against the specifications in Backups. */
module BackupRuns {
  import opened Domain
  import opened Seqs
  import opened Decisions
  import opened Backups
  import opened RoundTrip

  // ---- Byte-wise string order ----

  predicate LexLess(a: string, b: string) {
    b != [] && (a == [] || a[0] < b[0] || (a[0] == b[0] && LexLess(a[1..], b[1..])))
  }

  lemma {:induction false} LexTotal(a: string, b: string)
    ensures LexLess(a, b) ==> !LexLess(b, a)
    ensures a == b <==> !LexLess(a, b) && !LexLess(b, a)
  {
    if a != [] && b != [] {
      LexTotal(a[1..], b[1..]);
      assert a == [a[0]] + a[1..] && b == [b[0]] + b[1..];
    }
  }

  lemma {:induction false} LexTransitive(a: string, b: string, c: string)
    requires LexLess(a, b) && LexLess(b, c)
    ensures LexLess(a, c)
  {
    if a != [] && a[0] == b[0] == c[0] {
      LexTransitive(a[1..], b[1..], c[1..]);
    }
  }

  lemma LexOrders(elems: set<string>)
    ensures Orders(LexLess, elems)
  {
    forall x, y | x in elems && y in elems ensures !LexLess(x, x) && (LexLess(x, y) ==> !LexLess(y, x)) {
      LexTotal(x, x);
      LexTotal(x, y);
    }
    forall x, y, z | x in elems && y in elems && z in elems && !LexLess(y, x) && !LexLess(z, y) ensures !LexLess(z, x) {
      LexTotal(x, y);
      LexTotal(y, z);
      LexTotal(x, z);
      if LexLess(x, y) && LexLess(y, z) {
        LexTransitive(x, y, z);
      }
    }
  }

  /** The keys of a map in ascending order, each once. */
  method SortedKeys(m: map<string, string>) returns (keys: seq<string>)
    ensures Distinct(keys) && (forall h :: h in keys <==> h in m)
    ensures forall i, j | 0 <= i < j < |keys| :: LexLess(keys[i], keys[j])
  {
    var found, left := [], m.Keys;
    while left != {}
      invariant left <= m.Keys && Distinct(found)
      invariant forall h :: h in found <==> h in m && h !in left
      decreases left
    {
      var h :| h in left;
      found := found + [h];
      left := left - {h};
    }
    var a := new string[|found|](i requires 0 <= i < |found| => found[i]);
    assert a[..] == found;
    LexOrders(m.Keys);
    SortByLess(a, LexLess, m.Keys);
    keys := a[..];
    SortedDistinct(found, keys);
  }

  lemma SortedDistinct(found: seq<string>, keys: seq<string>)
    requires multiset(keys) == multiset(found) && Distinct(found) && Ranked(keys, LexLess)
    ensures Distinct(keys) && (forall h :: h in keys <==> h in found)
    ensures forall i, j | 0 <= i < j < |keys| :: LexLess(keys[i], keys[j])
  {
    PermutedDistinct(found, keys);
    forall i, j | 0 <= i < j < |keys| ensures LexLess(keys[i], keys[j]) {
      assert !LexLess(keys[j], keys[i]);
      LexTotal(keys[i], keys[j]);
    }
  }

  // ---- A failed prefix is the whole outcome ----

  lemma {:induction false} DecisionsStop(p: Progress, ds: seq<ArchivedDecision>, k: nat)
    requires k <= |ds| && ManyDecisions(p, ds[..k]).Failed?
    ensures ManyDecisions(p, ds) == ManyDecisions(p, ds[..k])
    decreases |ds|
  {
    if k == |ds| {
      assert ds[..k] == ds;
    } else {
      assert Front(ds)[..k] == ds[..k];
      DecisionsStop(p, Front(ds), k);
    }
  }

  lemma {:induction false} EntriesStop(p: Progress, es: seq<Entry>, k: nat)
    requires k <= |es| && ManyEntries(p, es[..k]).Failed?
    ensures ManyEntries(p, es) == ManyEntries(p, es[..k])
    decreases |es|
  {
    if k == |es| {
      assert es[..k] == es;
    } else {
      assert Front(es)[..k] == es[..k];
      EntriesStop(p, Front(es), k);
    }
  }

  lemma {:induction false} LeftoversStop(p: Progress, ps: seq<ArchivedPhoto>, k: nat)
    requires k <= |ps| && ManyLeftovers(p, ps[..k]).Failed?
    ensures ManyLeftovers(p, ps) == ManyLeftovers(p, ps[..k])
    decreases |ps|
  {
    if k == |ps| {
      assert ps[..k] == ps;
    } else {
      assert Front(ps)[..k] == ps[..k];
      LeftoversStop(p, Front(ps), k);
    }
  }

  lemma {:induction false} DistinctSize(s: seq<string>)
    requires Distinct(s)
    ensures |(set x | x in s)| == |s|
  {
    if s != [] {
      DistinctSize(Front(s));
      assert (set x | x in s) == (set x | x in Front(s)) + {Last(s)};
    }
  }

  lemma SameSize(s: seq<string>, t: seq<string>)
    requires Distinct(s) && Distinct(t) && forall h :: h in s <==> h in t
    ensures |s| == |t|
  {
    DistinctSize(s);
    DistinctSize(t);
    assert (set x | x in s) == (set x | x in t);
  }

  lemma NamesCollected(kept: seq<Photo>, named: seq<string>)
    requires |named| == |kept| && forall i | 0 <= i < |kept| :: named[i] == kept[i].hash
    ensures forall h :: h in named <==> HashNamed(kept, h)
  {
    forall h | HashNamed(kept, h) ensures h in named {
      var i :| 0 <= i < |kept| && kept[i].hash == h;
    }
    forall h | h in named ensures HashNamed(kept, h) {
      var i :| 0 <= i < |named| && named[i] == h;
      assert kept[i] in kept;
    }
  }

  lemma OrderFromNames(v: Vault, hashes: seq<string>)
    requires Distinct(hashes) && forall h :: h in hashes <==> HashNamed(WithThumb(v), h)
    ensures ThumbOrder(v, hashes)
  {
    assert forall p | p in WithThumb(v) :: HashNamed(WithThumb(v), p.hash);
  }

  lemma NamedHaveFiles(v: Vault, files: map<string, string>)
    requires ValidVault(v)
    requires files == map h | h in v.thumbs && HashNamed(WithThumb(v), h) :: v.thumbs[h]
    ensures forall h :: h in files <==> HashNamed(WithThumb(v), h)
  {
    WithThumbValid(v);
    hide WithThumb, ValidVault;
    forall h | HashNamed(WithThumb(v), h) ensures h in v.thumbs {
      var p :| p in WithThumb(v) && p.hash == h;
    }
  }

  lemma KeptSize(v: Vault, hashes: seq<string>)
    requires ValidVault(v) && Distinct(hashes) && forall h :: h in hashes <==> HashNamed(WithThumb(v), h)
    ensures |WithThumb(v)| == |hashes|
  {
    var kept := WithThumb(v);
    WithThumbValid(v);
    hide WithThumb, ValidVault;
    var named := seq(|kept|, i requires 0 <= i < |kept| => kept[i].hash);
    NamesCollected(kept, named);
    hide HashNamed;
    SameSize(named, hashes);
  }

  lemma FilesAreKept(v: Vault, files: map<string, string>, hashes: seq<string>)
    requires ValidVault(v)
    requires files == map h | h in v.thumbs && HashNamed(WithThumb(v), h) :: v.thumbs[h]
    requires Distinct(hashes) && forall h :: h in hashes <==> h in files
    ensures ThumbOrder(v, hashes) && |WithThumb(v)| == |hashes| == |files|
    ensures forall h | h in hashes :: h in v.thumbs && files[h] == v.thumbs[h]
  {
    hide WithThumb, ValidVault, HashNamed;
    NamedHaveFiles(v, files);
    OrderFromNames(v, hashes);
    KeptSize(v, hashes);
    DistinctSize(hashes);
    assert (set x | x in hashes) == files.Keys;
  }

  /** A photo row whose thumbnail file is missing. */
  datatype Warning = Warning(name: string, hash: string)

  /** One warning for each photo a backup leaves out. */
  function Excluded(v: Vault): seq<Warning> {
    var missing := Filter(v.photos, (p: Photo) => p.hash !in v.thumbs);
    seq(|missing|, i requires 0 <= i < |missing| => Warning(missing[i].meta.name, missing[i].hash))
  }

  /** One user's store: decision rows, photo rows in id order, and the thumbnail directory. */
  class VaultStore {
    var rows: map<int, Decision>
    var nextId: int
    var photos: seq<Photo>
    var thumbs: map<string, string>

    function Contents(): Vault
      reads this
    {
      Vault(Table(rows, nextId), photos, thumbs)
    }

    method RestoreDecision(d: ArchivedDecision) returns (landed: Landed)
      modifies this`rows, this`nextId
      ensures (Contents().table, landed) == LandDecision(old(Contents().table), d)
    {
      if !DecisionOk(d) {
        return Refused;
      }
      var existing := IdWithKey(rows, nextId, d.key);
      if existing.Some? {
        return Row(existing.value, false);
      }
      landed := Row(nextId, true);
      rows := rows[nextId := Decision(nextId, d.action, d.name, d.key.start, d.key.end, d.key.dest,
                                      d.createdAt, d.updatedAt)];
      nextId := nextId + 1;
    }

    method RestorePhoto(p: Photo) returns (landed: Landed)
      modifies this`photos
      ensures (Contents(), landed) == LandPhoto(old(Contents()), p)
    {
      if !MetaOk(p.meta) {
        return Refused;
      }
      if HashStored(photos, p.hash) {
        return Row(p.decision, false);
      }
      if p.decision !in rows {
        return Refused;
      }
      photos := photos + [p];
      landed := Row(p.decision, true);
    }

    /** Archives the decisions in id order, the photos that have a file, and the files in hash order. */
    method Write(now: int, schema: int) returns (archive: seq<Entry>, hashes: seq<string>, warnings: seq<Warning>)
      requires ValidVault(Contents())
      ensures ThumbOrder(Contents(), hashes) && (forall h | h in hashes :: h in thumbs)
      ensures forall i, j | 0 <= i < j < |hashes| :: LexLess(hashes[i], hashes[j])
      ensures var m := Manifest(FORMAT_VERSION, schema, now, |Listed(Contents().table)|, |hashes|, |hashes|);
              archive == Archive(Contents(), m, hashes)
      ensures warnings == Excluded(Contents())
    {
      var v := Contents();
      WithThumbValid(v);
      hide ValidVault, WithThumb, Excluded, ThumbOrder, LexLess, HashNamed, Listed, Distinct, MetaOk, ValidTable,
        Archive, ArchivedPhotos, ArchivedAll;
      var kept: seq<Photo>, files: map<string, string>;
      kept, files, warnings := CollectPhotos();
      hashes := SortedKeys(files);
      FilesAreKept(v, files, hashes);
      var decisions := ArchivedAll(Listed(v.table));
      var entries := FileEntries(hashes, files);
      SameEntries(hashes, files, thumbs);
      ArchiveIs(v, Manifest(FORMAT_VERSION, schema, now, |decisions|, |kept|, |files|), hashes);
      archive := [ManifestEntry(Manifest(FORMAT_VERSION, schema, now, |decisions|, |kept|, |files|)),
                  DecisionsEntry(decisions), PhotosEntry(ArchivedPhotos(kept, rows))] + entries;
    }

    static method FileEntries(hashes: seq<string>, files: map<string, string>) returns (entries: seq<Entry>)
      requires forall h | h in hashes :: h in files
      ensures entries == ThumbEntries(hashes, files)
    {
      entries := [];
      for i := 0 to |hashes|
        invariant entries == ThumbEntries(hashes[..i], files)
      {
        entries := entries + [ThumbEntry(hashes[i], files[hashes[i]])];
      }
      assert hashes[..|hashes|] == hashes;
    }

    /** The photos whose file can be read, those files, and a warning for each of the others. */
    method CollectPhotos() returns (kept: seq<Photo>, files: map<string, string>, warnings: seq<Warning>)
      ensures kept == WithThumb(Contents()) && warnings == Excluded(Contents())
      ensures files == map h | h in thumbs && HashNamed(kept, h) :: thumbs[h]
    {
      kept, files, warnings := [], map[], [];
      for i := 0 to |photos|
        invariant kept == WithThumb(Contents().(photos := photos[..i]))
        invariant warnings == Excluded(Contents().(photos := photos[..i]))
        invariant files == map h | h in thumbs && HashNamed(kept, h) :: thumbs[h]
      {
        var p := photos[i];
        assert Front(photos[..i + 1]) == photos[..i];
        if p.hash in thumbs {
          KeptGrows(kept, p, thumbs);
          kept := kept + [p];
          files := files[p.hash := thumbs[p.hash]];
        } else {
          warnings := warnings + [Warning(p.meta.name, p.hash)];
        }
      }
      assert photos[..|photos|] == photos;
    }

    /** Every decision of the list; stops at the first the table refuses. */
    method RestoreDecisions(ds: seq<ArchivedDecision>, ids: map<AnchorKey, int>, report: Report, ghost p: Progress)
      returns (outIds: map<AnchorKey, int>, outReport: Report, ok: bool)
      requires p.vault == Contents() && p.ids == ids && p.report == report
      modifies this`rows, this`nextId
      ensures var o := ManyDecisions(p, ds);
              o.p == p.(vault := Contents(), ids := outIds, report := outReport) && (ok <==> o.Going?)
      ensures !ok ==> ManyDecisions(p, ds).error == Constraint
    {
      hide LandDecision, DecisionOk;
      outIds, outReport, ok := ids, report, true;
      for i := 0 to |ds|
        invariant ManyDecisions(p, ds[..i]) == Going(p.(vault := Contents(), ids := outIds, report := outReport))
      {
        assert Front(ds[..i + 1]) == ds[..i];
        var landed := RestoreDecision(ds[i]);
        match landed {
          case Refused =>
            RefusedLeaves(ManyDecisions(p, ds[..i]).p.vault.table, ds[i]);
            DecisionsStop(p, ds, i + 1);
            ok := false;
            return;
          case Row(id, inserted) =>
            outIds := outIds[ds[i].key := id];
            outReport := if inserted then outReport.(decisionsRestored := outReport.decisionsRestored + 1)
                         else outReport.(decisionsSkipped := outReport.decisionsSkipped + 1);
        }
      }
      assert ds[..|ds|] == ds;
    }

    method RestoreArchivedPhoto(photo: ArchivedPhoto, ids: map<AnchorKey, int>, report: Report, ghost p: Progress)
      returns (outReport: Report, error: Option<Error>)
      requires p.vault == Contents() && p.ids == ids && p.report == report
      modifies this`photos
      ensures OnePhoto(p, photo)
           == (var q := p.(vault := Contents(), report := outReport);
               if error.None? then Going(q) else Failed(q, error.value))
    {
      outReport, error := report, None;
      if photo.key !in ids {
        return outReport, Some(UnknownDecision);
      }
      var landed := RestorePhoto(Photo(ids[photo.key], photo.hash, photo.meta));
      match landed {
        case Refused => error := Some(Constraint);
        case Row(_, inserted) =>
          outReport := if inserted then report.(photosRestored := report.photosRestored + 1)
                       else report.(photosSkipped := report.photosSkipped + 1);
      }
    }

    /** Reads the archive entry by entry; decisions land first, each photo's file before its row. */
    method Restore(archive: seq<Entry>) returns (report: Report, error: Option<Error>)
      modifies this
      ensures Restored(old(Contents()), archive)
           == (var p := Restored(old(Contents()), archive).p.(vault := Contents(), report := report);
               if error.None? then Going(p) else Failed(p, error.value))
    {
      hide OneEntry, OneLeftover, OnePhoto, ManyDecisions, Indexed;
      ghost var start := Start(Contents());
      report, error := EMPTY_REPORT, None;
      var listed: seq<ArchivedPhoto>, byHash: map<string, ArchivedPhoto> := [], map[];
      var inArchive: set<string>, ids: map<AnchorKey, int> := {}, map[];
      for i := 0 to |archive|
        invariant error.None?
        invariant ManyEntries(start, archive[..i])
               == Going(Progress(Contents(), listed, byHash, inArchive, ids, report))
      {
        assert Front(archive[..i + 1]) == archive[..i];
        listed, byHash, inArchive, ids, report, error :=
          RestoreEntry(archive[i], listed, byHash, inArchive, ids, report);
        if error.Some? {
          EntriesStop(start, archive, i + 1);
          return;
        }
      }
      assert archive[..|archive|] == archive;
      ghost var read := Progress(Contents(), listed, byHash, inArchive, ids, report);
      assert ManyEntries(start, archive) == Going(read);
      if report.manifest.None? {
        error := Some(NoManifest);
        return;
      }
      assert Restored(start.vault, archive) == ManyLeftovers(read, listed);
      for i := 0 to |listed|
        invariant error.None?
        invariant ManyLeftovers(read, listed[..i]) == Going(read.(vault := Contents(), report := report))
      {
        assert Front(listed[..i + 1]) == listed[..i];
        report, error := RestoreLeftover(listed[i], inArchive, ids, report,
                                         read.(vault := Contents(), report := report));
        if error.Some? {
          LeftoversStop(read, listed, i + 1);
          return;
        }
      }
      assert listed[..|listed|] == listed;
    }

    method RestoreLeftover(photo: ArchivedPhoto, inArchive: set<string>, ids: map<AnchorKey, int>, report: Report,
                           ghost p: Progress)
      returns (outReport: Report, error: Option<Error>)
      requires p.vault == Contents() && p.ids == ids && p.report == report && p.inArchive == inArchive
      modifies this`photos
      ensures OneLeftover(p, photo)
           == (var q := p.(vault := Contents(), report := outReport);
               if error.None? then Going(q) else Failed(q, error.value))
    {
      hide OnePhoto;
      outReport, error := report, None;
      if photo.hash in inArchive {
        return;
      }
      if photo.hash in thumbs {
        outReport := report.(thumbsExisting := report.thumbsExisting + 1);
        outReport, error := RestoreArchivedPhoto(photo, ids, outReport, p.(report := outReport));
      } else {
        outReport := report.(missingThumb := report.missingThumb + [photo.meta.name]);
      }
    }

    method RestoreEntry(e: Entry, listed: seq<ArchivedPhoto>, byHash: map<string, ArchivedPhoto>,
                        inArchive: set<string>, ids: map<AnchorKey, int>, report: Report)
      returns (outListed: seq<ArchivedPhoto>, outByHash: map<string, ArchivedPhoto>, outInArchive: set<string>,
               outIds: map<AnchorKey, int>, outReport: Report, error: Option<Error>)
      modifies this
      ensures OneEntry(old(Progress(Contents(), listed, byHash, inArchive, ids, report)), e)
           == (var q := Progress(Contents(), outListed, outByHash, outInArchive, outIds, outReport);
               if error.None? then Going(q) else Failed(q, error.value))
    {
      hide OnePhoto, ManyDecisions;
      ghost var p := Progress(Contents(), listed, byHash, inArchive, ids, report);
      outListed, outByHash, outInArchive, outIds, outReport, error := listed, byHash, inArchive, ids, report, None;
      match e
      case ManifestEntry(m) =>
        outReport := report.(manifest := Some(m));
        if m.formatVersion > FORMAT_VERSION {
          error := Some(NewerFormat);
        }
      case DecisionsEntry(ds) =>
        if report.manifest.None? {
          error := Some(DecisionsBeforeManifest);
          return;
        }
        var ok;
        outIds, outReport, ok := RestoreDecisions(ds, ids, report, p);
        if !ok {
          error := Some(Constraint);
        }
      case PhotosEntry(ps) =>
        outListed := ps;
        for i := 0 to |ps|
          invariant outByHash == Indexed(byHash, ps[..i]) && Contents() == p.vault
        {
          assert Front(ps[..i + 1]) == ps[..i];
          outByHash := outByHash[ps[i].hash := ps[i]];
        }
        assert ps[..|ps|] == ps;
      case ThumbEntry(h, jpeg) =>
        if h !in byHash {
          return;
        }
        outInArchive := inArchive + {h};
        if h in thumbs {
          outReport := report.(thumbsExisting := report.thumbsExisting + 1);
        } else {
          thumbs := thumbs[h := jpeg];
          outReport := report.(thumbsWritten := report.thumbsWritten + 1);
        }
        assert PlaceThumb(p, h, jpeg) == Progress(Contents(), listed, byHash, outInArchive, ids, outReport);
        outReport, error := RestoreArchivedPhoto(byHash[h], ids, outReport, PlaceThumb(p, h, jpeg));
      case OtherEntry =>
      case Unreadable => error := Some(Corrupt);
    }
  }

  lemma SameEntries(hashes: seq<string>, files: map<string, string>, thumbs: map<string, string>)
    requires forall h | h in hashes :: h in files && h in thumbs && files[h] == thumbs[h]
    ensures ThumbEntries(hashes, files) == ThumbEntries(hashes, thumbs)
  {
  }

  lemma ArchiveIs(v: Vault, m: Manifest, hashes: seq<string>)
    requires (forall p | p in v.photos :: p.decision in v.table.rows) && forall h | h in hashes :: h in v.thumbs
    ensures forall p | p in WithThumb(v) :: p.decision in v.table.rows
    ensures Archive(v, m, hashes)
         == [ManifestEntry(m), DecisionsEntry(ArchivedAll(Listed(v.table))),
             PhotosEntry(ArchivedPhotos(WithThumb(v), v.table.rows))] + ThumbEntries(hashes, v.thumbs)
  {
    FilterElements(v.photos, (p: Photo) => p.hash in v.thumbs);
    hide Listed;
  }

  lemma KeptGrows(kept: seq<Photo>, p: Photo, thumbs: map<string, string>)
    requires p.hash in thumbs
    ensures (map h | h in thumbs && HashNamed(kept + [p], h) :: thumbs[h])
         == (map h | h in thumbs && HashNamed(kept, h) :: thumbs[h])[p.hash := thumbs[p.hash]]
  {
    assert p in kept + [p];
    assert forall h :: HashNamed(kept + [p], h) <==> HashNamed(kept, h) || h == p.hash by {
      assert forall q :: q in kept + [p] <==> q in kept || q == p;
    }
  }

  lemma RefusedLeaves(t: Table, d: ArchivedDecision)
    requires LandDecision(t, d).1.Refused?
    ensures LandDecision(t, d).0 == t
  {
  }
}
