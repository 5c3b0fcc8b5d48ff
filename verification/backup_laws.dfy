/** What a restore promises: it only adds, it adds files before rows, and a second one adds nothing. */
module BackupLaws {
  import opened Domain
  import opened Seqs
  import opened Decisions
  import opened Backups

  // ---- A restore only adds ----

  ghost predicate TableGrows(t: Table, u: Table) {
    t.nextId <= u.nextId && forall id | id in t.rows :: id in u.rows && u.rows[id] == t.rows[id]
  }

  /** Every row and file of `v` is in `w`, unchanged. */
  ghost predicate Grows(v: Vault, w: Vault) {
    && TableGrows(v.table, w.table)
    && v.photos <= w.photos
    && (forall h | h in v.thumbs :: h in w.thumbs && w.thumbs[h] == v.thumbs[h])
  }

  /** A restore in progress: rows added since `v` have their files, and anchors lead to their rows. */
  ghost predicate Merging(v: Vault, p: Progress) {
    && Grows(v, p.vault)
    && ValidVault(p.vault)
    && (forall i | |v.photos| <= i < |p.vault.photos| :: p.vault.photos[i].hash in p.vault.thumbs)
    && (forall k | k in p.ids :: p.ids[k] in p.vault.table.rows && KeyOf(p.vault.table.rows[p.ids[k]]) == k)
  }

  lemma LandDecisionValid(t: Table, d: ArchivedDecision)
    requires ValidTable(t)
    ensures ValidTable(LandDecision(t, d).0) && TableGrows(t, LandDecision(t, d).0)
    ensures var (u, landed) := LandDecision(t, d);
            landed.Row? ==> landed.id in u.rows && KeyOf(u.rows[landed.id]) == d.key
    ensures LandDecision(t, d).1.Refused? <==> !DecisionOk(d)
  {
  }

  lemma OneDecisionMerges(v: Vault, p: Progress, d: ArchivedDecision)
    requires Merging(v, p)
    ensures Merging(v, OneDecision(p, d).p) && Grows(p.vault, OneDecision(p, d).p.vault)
  {
    hide LandDecision, ValidTable, MetaOk;
    LandDecisionValid(p.vault.table, d);
    var (t, landed) := LandDecision(p.vault.table, d);
    var q := OneDecision(p, d).p;
    if landed.Row? {
      assert landed.id in t.rows && KeyOf(t.rows[landed.id]) == d.key;
      assert q.ids == p.ids[d.key := landed.id];
      forall k | k in q.ids ensures q.ids[k] in t.rows && KeyOf(t.rows[q.ids[k]]) == k {
        if k != d.key {
          assert q.ids[k] == p.ids[k] && t.rows[p.ids[k]] == p.vault.table.rows[p.ids[k]];
        }
      }
    }
  }

  lemma {:induction false} ManyDecisionsMerge(v: Vault, p: Progress, ds: seq<ArchivedDecision>)
    requires Merging(v, p)
    ensures Merging(v, ManyDecisions(p, ds).p) && Grows(p.vault, ManyDecisions(p, ds).p.vault)
  {
    hide OneDecision, ValidVault;
    if ds != [] {
      ManyDecisionsMerge(v, p, Front(ds));
      var q := ManyDecisions(p, Front(ds));
      if q.Going? {
        OneDecisionMerges(v, q.p, Last(ds));
      }
    }
  }

  /** A photo row lands only next to its file. */
  lemma OnePhotoMerges(v: Vault, p: Progress, photo: ArchivedPhoto)
    requires Merging(v, p) && photo.hash in p.vault.thumbs
    ensures Merging(v, OnePhoto(p, photo).p) && Grows(p.vault, OnePhoto(p, photo).p.vault)
  {
    hide ValidTable, MetaOk;
  }

  lemma PlaceThumbMerges(v: Vault, p: Progress, h: string, jpeg: string)
    requires Merging(v, p)
    ensures Merging(v, PlaceThumb(p, h, jpeg)) && Grows(p.vault, PlaceThumb(p, h, jpeg).vault)
    ensures h in PlaceThumb(p, h, jpeg).vault.thumbs
  {
    hide ValidTable, MetaOk;
  }

  /** The index holds each photo under its own hash. */
  ghost predicate IndexOk(m: map<string, ArchivedPhoto>) { forall h | h in m :: m[h].hash == h }

  lemma {:induction false} IndexedOk(m: map<string, ArchivedPhoto>, ps: seq<ArchivedPhoto>)
    requires IndexOk(m)
    ensures IndexOk(Indexed(m, ps))
  {
    if ps != [] {
      IndexedOk(m, Front(ps));
    }
  }

  lemma OneEntryMerges(v: Vault, p: Progress, e: Entry)
    requires Merging(v, p) && IndexOk(p.byHash)
    ensures Merging(v, OneEntry(p, e).p) && IndexOk(OneEntry(p, e).p.byHash) && Grows(p.vault, OneEntry(p, e).p.vault)
  {
    match e
    case ManifestEntry(_) =>
    case DecisionsEntry(ds) =>
      hide ManyDecisions;
      ManyDecisionsMerge(v, p, ds);
      DecisionsKeepIndex(p, ds);
    case PhotosEntry(ps) => IndexedOk(p.byHash, ps);
    case ThumbEntry(h, jpeg) =>
      if h in p.byHash {
        hide Merging, PlaceThumb;
        PlaceThumbMerges(v, p, h, jpeg);
        PlaceKeepsIndex(p, h, jpeg);
        OnePhotoMerges(v, PlaceThumb(p, h, jpeg), p.byHash[h]);
        GrowsThrough(p.vault, PlaceThumb(p, h, jpeg).vault, OneEntry(p, e).p.vault);
      }
    case OtherEntry =>
    case Unreadable =>
  }

  lemma PlaceKeepsIndex(p: Progress, h: string, jpeg: string)
    ensures PlaceThumb(p, h, jpeg).byHash == p.byHash
  {
  }

  lemma {:induction false} DecisionsKeepIndex(p: Progress, ds: seq<ArchivedDecision>)
    ensures ManyDecisions(p, ds).p.byHash == p.byHash
  {
    hide LandDecision;
    if ds != [] {
      DecisionsKeepIndex(p, Front(ds));
    }
  }

  lemma GrowsThrough(u: Vault, v: Vault, w: Vault)
    requires Grows(u, v) && Grows(v, w)
    ensures Grows(u, w)
  {
  }

  lemma {:induction false} ManyEntriesMerge(v: Vault, p: Progress, es: seq<Entry>)
    requires Merging(v, p) && IndexOk(p.byHash)
    ensures var q := ManyEntries(p, es).p; Merging(v, q) && IndexOk(q.byHash) && Grows(p.vault, q.vault)
  {
    hide OneEntry, Merging, Grows;
    if es != [] {
      ManyEntriesMerge(v, p, Front(es));
      var q := ManyEntries(p, Front(es));
      if q.Going? {
        OneEntryMerges(v, q.p, Last(es));
        GrowsThrough(p.vault, q.p.vault, ManyEntries(p, es).p.vault);
      }
    } else {
      GrowsSelf(p.vault);
    }
  }

  lemma GrowsSelf(v: Vault)
    ensures Grows(v, v)
  {
  }

  lemma OneLeftoverMerges(v: Vault, p: Progress, photo: ArchivedPhoto)
    requires Merging(v, p)
    ensures Merging(v, OneLeftover(p, photo).p) && Grows(p.vault, OneLeftover(p, photo).p.vault)
  {
    if photo.hash !in p.inArchive && photo.hash in p.vault.thumbs {
      OnePhotoMerges(v, p.(report := p.report.(thumbsExisting := p.report.thumbsExisting + 1)), photo);
    }
  }

  lemma {:induction false} ManyLeftoversMerge(v: Vault, p: Progress, ps: seq<ArchivedPhoto>)
    requires Merging(v, p)
    ensures Merging(v, ManyLeftovers(p, ps).p) && Grows(p.vault, ManyLeftovers(p, ps).p.vault)
  {
    hide OneLeftover, Merging, Grows;
    if ps != [] {
      ManyLeftoversMerge(v, p, Front(ps));
      var q := ManyLeftovers(p, Front(ps));
      if q.Going? {
        OneLeftoverMerges(v, q.p, Last(ps));
        GrowsThrough(p.vault, q.p.vault, ManyLeftovers(p, ps).p.vault);
      }
    } else {
      GrowsSelf(p.vault);
    }
  }

  /** Whatever the archive holds and however the restore ends, nothing that was there changes. */
  lemma RestoreOnlyAdds(v: Vault, archive: seq<Entry>)
    requires ValidVault(v)
    ensures var w := Restored(v, archive).p.vault;
            && ValidVault(w) && Grows(v, w)
            && forall i | |v.photos| <= i < |w.photos| :: w.photos[i].hash in w.thumbs
  {
    ManyEntriesMerge(v, Start(v), archive);
    var o := ManyEntries(Start(v), archive);
    if o.Going? {
      ManyLeftoversMerge(v, o.p, o.p.photos);
    }
  }

  // ---- A second restore adds nothing ----

  /** Two runs of the same archive, one from the start and one from where the first ended. */
  ghost predicate Alike(p: Progress, q: Progress, done: Vault) {
    && Grows(p.vault, done) && q.vault == done
    && p.photos == q.photos && p.byHash == q.byHash && p.inArchive == q.inArchive
    && p.ids.Keys == q.ids.Keys
    && (forall k | k in q.ids :: q.ids[k] in done.table.rows)
    && p.report.manifest == q.report.manifest
    && p.report.missingThumb == q.report.missingThumb
    && q.report.decisionsRestored == 0 && q.report.photosRestored == 0 && q.report.thumbsWritten == 0
  }

  ghost predicate SameOutcome(o: Outcome, r: Outcome, done: Vault) {
    && Alike(o.p, r.p, done)
    && (o.Going? <==> r.Going?)
    && (o.Failed? ==> o.error == r.error)
  }

  /** An anchor that is stored is found, and its row is left alone. */
  lemma LandAgain(t: Table, d: ArchivedDecision)
    requires ValidTable(t) && DecisionOk(d) && KeyTaken(t.rows, d.key)
    ensures LandDecision(t, d).0 == t && LandDecision(t, d).1.Row? && !LandDecision(t, d).1.inserted
    ensures LandDecision(t, d).1.id in t.rows
  {
  }

  lemma OneDecisionAgain(p: Progress, q: Progress, d: ArchivedDecision, done: Vault)
    requires ValidTable(p.vault.table) && ValidVault(done)
    requires Alike(p, q, done) && Grows(OneDecision(p, d).p.vault, done)
    ensures SameOutcome(OneDecision(p, d), OneDecision(q, d), done)
  {
    LandDecisionValid(p.vault.table, d);
    if DecisionOk(d) {
      var (u, landed) := LandDecision(p.vault.table, d);
      assert landed.id in done.table.rows && KeyOf(done.table.rows[landed.id]) == d.key;
      LandAgain(done.table, d);
    }
    hide LandDecision, ValidTable, MetaOk, KeyTaken, DecisionOk;
    LandDecisionValid(done.table, d);
  }

  lemma {:induction false} ManyDecisionsAgain(v: Vault, p: Progress, q: Progress, ds: seq<ArchivedDecision>,
                                              done: Vault)
    requires Merging(v, p) && ValidVault(done)
    requires Alike(p, q, done) && Grows(ManyDecisions(p, ds).p.vault, done)
    ensures SameOutcome(ManyDecisions(p, ds), ManyDecisions(q, ds), done)
  {
    hide OneDecision, Merging, Grows, ValidVault, Alike;
    if ds != [] {
      var o := ManyDecisions(p, Front(ds));
      ManyDecisionsMerge(v, p, Front(ds));
      if o.Going? {
        OneDecisionMerges(v, o.p, Last(ds));
        GrowsThrough(o.p.vault, OneDecision(o.p, Last(ds)).p.vault, done);
      }
      ManyDecisionsAgain(v, p, q, Front(ds), done);
      if o.Going? {
        MergingTable(v, o.p);
        OneDecisionAgain(o.p, ManyDecisions(q, Front(ds)).p, Last(ds), done);
      }
    }
  }

  lemma MergingTable(v: Vault, p: Progress)
    requires Merging(v, p)
    ensures ValidVault(p.vault) && ValidTable(p.vault.table)
    ensures forall k | k in p.ids :: p.ids[k] in p.vault.table.rows
  {
  }

  lemma OnePhotoAgain(v: Vault, p: Progress, q: Progress, photo: ArchivedPhoto, done: Vault)
    requires Merging(v, p) && ValidVault(done)
    requires Alike(p, q, done) && Grows(OnePhoto(p, photo).p.vault, done)
    ensures SameOutcome(OnePhoto(p, photo), OnePhoto(q, photo), done)
  {
    hide ValidTable, MetaOk;
    if photo.key in p.ids && MetaOk(photo.meta) {
      assert p.ids[photo.key] in p.vault.table.rows;
      assert q.ids[photo.key] in done.table.rows;
      var after := OnePhoto(p, photo).p.vault.photos;
      assert HashStored(after, photo.hash) by {
        if !HashStored(p.vault.photos, photo.hash) {
          assert after[|p.vault.photos|].hash == photo.hash;
        }
      }
      StoredStays(after, done.photos, photo.hash);
    }
  }

  lemma StoredStays(photos: seq<Photo>, more: seq<Photo>, h: string)
    requires HashStored(photos, h) && photos <= more
    ensures HashStored(more, h)
  {
    var i :| 0 <= i < |photos| && photos[i].hash == h;
    assert more[i].hash == h;
  }

  lemma OneEntryAgain(v: Vault, p: Progress, q: Progress, e: Entry, done: Vault)
    requires Merging(v, p) && IndexOk(p.byHash) && ValidVault(done)
    requires Alike(p, q, done) && Grows(OneEntry(p, e).p.vault, done)
    ensures SameOutcome(OneEntry(p, e), OneEntry(q, e), done)
  {
    match e
    case DecisionsEntry(ds) =>
      if p.report.manifest.Some? {
        ManyDecisionsAgain(v, p, q, ds, done);
      }
    case ThumbEntry(h, jpeg) =>
      if h in p.byHash {
        var placed := PlaceThumb(p, h, jpeg);
        PlaceThumbMerges(v, p, h, jpeg);
        OnePhotoMerges(v, placed, p.byHash[h]);
        GrowsThrough(placed.vault, OneEntry(p, e).p.vault, done);
        PlaceAgain(p, q, h, jpeg, done);
        OnePhotoAgain(v, placed, PlaceThumb(q, h, jpeg), p.byHash[h], done);
      }
    case _ =>
  }

  lemma PlaceAgain(p: Progress, q: Progress, h: string, jpeg: string, done: Vault)
    requires Alike(p, q, done) && Grows(PlaceThumb(p, h, jpeg).vault, done)
    ensures Alike(PlaceThumb(p, h, jpeg), PlaceThumb(q, h, jpeg), done)
  {
    hide TableGrows;
  }

  lemma {:induction false} ManyEntriesAgain(v: Vault, p: Progress, q: Progress, es: seq<Entry>, done: Vault)
    requires Merging(v, p) && IndexOk(p.byHash) && ValidVault(done)
    requires Alike(p, q, done) && Grows(ManyEntries(p, es).p.vault, done)
    ensures SameOutcome(ManyEntries(p, es), ManyEntries(q, es), done)
  {
    hide OneEntry, Merging, Grows, ValidVault, Alike, IndexOk;
    if es != [] {
      var o := ManyEntries(p, Front(es));
      ManyEntriesMerge(v, p, Front(es));
      if o.Going? {
        OneEntryMerges(v, o.p, Last(es));
        GrowsThrough(o.p.vault, OneEntry(o.p, Last(es)).p.vault, done);
      }
      ManyEntriesAgain(v, p, q, Front(es), done);
      if o.Going? {
        OneEntryAgain(v, o.p, ManyEntries(q, Front(es)).p, Last(es), done);
      }
    }
  }

  lemma OneLeftoverAgain(v: Vault, p: Progress, q: Progress, photo: ArchivedPhoto, done: Vault)
    requires Merging(v, p) && ValidVault(done)
    requires done.thumbs == p.vault.thumbs
    requires Alike(p, q, done) && Grows(OneLeftover(p, photo).p.vault, done)
    ensures SameOutcome(OneLeftover(p, photo), OneLeftover(q, photo), done)
  {
    hide OnePhoto, Merging, ValidVault, TableGrows;
    if photo.hash !in p.inArchive && photo.hash in p.vault.thumbs {
      var p' := p.(report := p.report.(thumbsExisting := p.report.thumbsExisting + 1));
      var q' := q.(report := q.report.(thumbsExisting := q.report.thumbsExisting + 1));
      assert Merging(v, p') by { MergingReport(v, p, p'.report); }
      OnePhotoAgain(v, p', q', photo, done);
    }
  }

  lemma MergingReport(v: Vault, p: Progress, report: Report)
    requires Merging(v, p)
    ensures Merging(v, p.(report := report))
  {
  }

  /** Restoring leftovers writes no file. */
  lemma {:induction false} LeftoversKeepFiles(p: Progress, ps: seq<ArchivedPhoto>)
    ensures ManyLeftovers(p, ps).p.vault.thumbs == p.vault.thumbs
  {
    if ps != [] {
      LeftoversKeepFiles(p, Front(ps));
    }
  }

  lemma {:induction false} ManyLeftoversAgain(v: Vault, p: Progress, q: Progress, ps: seq<ArchivedPhoto>, done: Vault)
    requires Merging(v, p) && ValidVault(done) && done.thumbs == p.vault.thumbs
    requires Alike(p, q, done) && Grows(ManyLeftovers(p, ps).p.vault, done)
    ensures SameOutcome(ManyLeftovers(p, ps), ManyLeftovers(q, ps), done)
  {
    hide OneLeftover, Merging, Grows, ValidVault, Alike;
    if ps != [] {
      var o := ManyLeftovers(p, Front(ps));
      ManyLeftoversMerge(v, p, Front(ps));
      LeftoversKeepFiles(p, Front(ps));
      if o.Going? {
        OneLeftoverMerges(v, o.p, Last(ps));
        GrowsThrough(o.p.vault, OneLeftover(o.p, Last(ps)).p.vault, done);
      }
      ManyLeftoversAgain(v, p, q, Front(ps), done);
      if o.Going? {
        OneLeftoverAgain(v, o.p, ManyLeftovers(q, Front(ps)).p, Last(ps), done);
      }
    }
  }

  /** Restoring an archive again, however the first restore ended, changes nothing and reports so. */
  lemma SecondRestoreAddsNothing(v: Vault, archive: seq<Entry>)
    requires ValidVault(v)
    ensures var once := Restored(v, archive);
            var twice := Restored(once.p.vault, archive);
            && twice.p.vault == once.p.vault
            && twice.p.report.decisionsRestored == 0
            && twice.p.report.photosRestored == 0
            && twice.p.report.thumbsWritten == 0
            && twice.p.report.missingThumb == once.p.report.missingThumb
            && (once.Going? <==> twice.Going?)
            && (once.Failed? ==> once.error == twice.error)
  {
    var done := Restored(v, archive).p.vault;
    RestoreOnlyAdds(v, archive);
    var p, q := Start(v), Start(done);
    assert Merging(v, p);
    ManyEntriesMerge(v, p, archive);
    hide Merging, Grows, ValidVault, OneEntry;
    var o := ManyEntries(p, archive);
    GrowsSelf(done);
    if o.Going? && o.p.report.manifest.Some? {
      ManyLeftoversMerge(v, o.p, o.p.photos);
      LeftoversKeepFiles(o.p, o.p.photos);
    }
    ManyEntriesAgain(v, p, q, archive, done);
    if o.Going? && o.p.report.manifest.Some? {
      ManyLeftoversAgain(v, o.p, ManyEntries(q, archive).p, o.p.photos, done);
    }
  }
}
