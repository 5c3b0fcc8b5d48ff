/** Backup then restore into an empty instance gives the same decisions, photos, files and matching. */
module RoundTrip {
  import opened Domain
  import opened Seqs
  import opened Matching
  import opened MatchingLaws
  import opened Decisions
  import opened Triage
  import opened Backups
  import opened BackupLaws

  function ArchivedAll(ds: seq<Decision>): seq<ArchivedDecision> {
    seq(|ds|, i requires 0 <= i < |ds| => ArchivedOf(ds[i]))
  }

  /** The entries of a backup, thumbnails in the given order of their hashes. */
  function Archive(v: Vault, m: Manifest, hashes: seq<string>): seq<Entry>
    requires forall p | p in v.photos :: p.decision in v.table.rows
    requires forall h | h in hashes :: h in v.thumbs
  {
    FilterElements(v.photos, (p: Photo) => p.hash in v.thumbs);
    [ManifestEntry(m), DecisionsEntry(ArchivedAll(Listed(v.table))),
     PhotosEntry(ArchivedPhotos(WithThumb(v), v.table.rows))]
    + ThumbEntries(hashes, v.thumbs)
  }

  /** The archived thumbnails are those of the archived photos, each once. */
  ghost predicate ThumbOrder(v: Vault, hashes: seq<string>) {
    && Distinct(hashes)
    && (forall h | h in hashes :: exists p | p in WithThumb(v) :: p.hash == h)
    && (forall p | p in WithThumb(v) :: p.hash in hashes)
  }

  // ---- Decisions ----

  function Renamed(d: Decision, id: int): Decision { d.(id := id) }

  /** The rows a restore into an empty table produces: the same decisions, numbered from `n` on. */
  function FreshRows(ds: seq<Decision>, n: int): map<int, Decision> {
    if ds == [] then map[] else FreshRows(Front(ds), n)[n + |ds| - 1 := Renamed(Last(ds), n + |ds| - 1)]
  }

  function FreshTable(ds: seq<Decision>, n: int): Table { Table(FreshRows(ds, n), n + |ds|) }

  lemma {:induction false} FreshRowsExact(ds: seq<Decision>, n: int)
    ensures forall id :: id in FreshRows(ds, n) <==> n <= id < n + |ds|
    ensures forall id | id in FreshRows(ds, n) :: FreshRows(ds, n)[id] == Renamed(ds[id - n], id)
  {
    if ds != [] {
      FreshRowsExact(Front(ds), n);
    }
  }

  function FreshIds(ds: seq<Decision>, n: int): map<AnchorKey, int> {
    if ds == [] then map[] else FreshIds(Front(ds), n)[KeyOf(Last(ds)) := n + |ds| - 1]
  }

  ghost predicate DistinctKeys(ds: seq<Decision>) { forall i, j | 0 <= i < j < |ds| :: KeyOf(ds[i]) != KeyOf(ds[j]) }

  lemma {:induction false} FreshIdsExact(ds: seq<Decision>, n: int)
    requires DistinctKeys(ds)
    ensures forall i | 0 <= i < |ds| :: KeyOf(ds[i]) in FreshIds(ds, n) && FreshIds(ds, n)[KeyOf(ds[i])] == n + i
  {
    if ds != [] {
      FreshIdsExact(Front(ds), n);
      assert forall i | 0 <= i < |ds| - 1 :: Front(ds)[i] == ds[i];
    }
  }

  lemma LandFresh(ds: seq<Decision>, n: int, d: Decision)
    requires 1 <= n && (d.action == Confirmed ==> d.name.Some?)
    requires forall e | e in ds :: KeyOf(e) != KeyOf(d)
    ensures LandDecision(FreshTable(ds, n), ArchivedOf(d)) == (FreshTable(ds + [d], n), Row(n + |ds|, true))
  {
    var t := FreshTable(ds, n);
    FreshRowsExact(ds, n);
    forall id | id in t.rows ensures KeyOf(t.rows[id]) != KeyOf(d) {
      assert ds[id - n] in ds;
    }
    assert IdWithKey(t.rows, t.nextId, KeyOf(d)) == None;
    assert Front(ds + [d]) == ds;
  }

  lemma LastKeyNew(ds: seq<Decision>)
    requires ds != [] && DistinctKeys(ds)
    ensures DistinctKeys(Front(ds)) && forall e | e in Front(ds) :: KeyOf(e) != KeyOf(Last(ds))
  {
    forall e | e in Front(ds) ensures KeyOf(e) != KeyOf(Last(ds)) {
      var i :| 0 <= i < |ds| - 1 && ds[i] == e;
    }
  }

  /** Progress after `ds` have been restored into an instance without decisions. */
  function AfterDecisions(p: Progress, ds: seq<Decision>, n: int): Progress {
    p.(vault := p.vault.(table := FreshTable(ds, n)), ids := FreshIds(ds, n),
       report := p.report.(decisionsRestored := p.report.decisionsRestored + |ds|))
  }

  lemma OneDecisionLands(p: Progress, ds: seq<Decision>, d: Decision, n: int)
    requires 1 <= n && (d.action == Confirmed ==> d.name.Some?)
    requires forall e | e in ds :: KeyOf(e) != KeyOf(d)
    ensures OneDecision(AfterDecisions(p, ds, n), ArchivedOf(d)) == Going(AfterDecisions(p, ds + [d], n))
  {
    LandFresh(ds, n, d);
    hide LandDecision, FreshTable;
    assert Front(ds + [d]) == ds;
  }

  lemma {:induction false} DecisionsLand(p: Progress, ds: seq<Decision>, n: int)
    requires p.vault.table == FreshTable([], n) && 1 <= n && p.ids == map[]
    requires DistinctKeys(ds) && forall d | d in ds :: d.action == Confirmed ==> d.name.Some?
    ensures ManyDecisions(p, ArchivedAll(ds)) == Going(AfterDecisions(p, ds, n))
  {
    if ds != [] {
      hide OneDecision, AfterDecisions, FreshTable, DistinctKeys;
      LastKeyNew(ds);
      assert Last(ds) in ds && forall d | d in Front(ds) :: d in ds;
      DecisionsLand(p, Front(ds), n);
      assert Front(ArchivedAll(ds)) == ArchivedAll(Front(ds));
      OneDecisionLands(p, Front(ds), Last(ds), n);
      assert Front(ds) + [Last(ds)] == ds;
    } else {
      assert ArchivedAll(ds) == [];
    }
  }

  lemma {:induction false} ListedFresh(ds: seq<Decision>, n: int, m: int)
    requires 1 <= n && n <= m <= n + |ds|
    ensures ListedUpTo(FreshTable(ds, n).rows, m) == seq(m - n, i requires 0 <= i < m - n => Renamed(ds[i], n + i))
    decreases m - n
  {
    FreshRowsExact(ds, n);
    if m == n {
      NoneBelow(ds, n, n);
    } else {
      ListedFresh(ds, n, m - 1);
    }
  }

  lemma {:induction false} NoneBelow(ds: seq<Decision>, n: int, m: int)
    requires m <= n
    ensures ListedUpTo(FreshTable(ds, n).rows, m) == []
    decreases m
  {
    FreshRowsExact(ds, n);
    if m > 1 {
      NoneBelow(ds, n, m - 1);
    }
  }

  lemma ListedIsTable(t: Table)
    requires ValidTable(t)
    ensures DistinctKeys(Listed(t))
    ensures forall d | d in Listed(t) :: d.action == Confirmed ==> d.name.Some?
    ensures forall i, j | 0 <= i < j < |Listed(t)| :: Listed(t)[i].id < Listed(t)[j].id
    ensures forall i | 0 <= i < |Listed(t)| :: Listed(t)[i].id in t.rows && t.rows[Listed(t)[i].id] == Listed(t)[i]
    ensures forall id | id in t.rows :: t.rows[id] in Listed(t)
  {
    ListedRows(t.rows, t.nextId);
  }

  // ---- Photos ----

  lemma {:induction false} IndexedFinds(m: map<string, ArchivedPhoto>, ps: seq<ArchivedPhoto>)
    requires forall i, j | 0 <= i < j < |ps| :: ps[i].hash != ps[j].hash
    ensures forall i | 0 <= i < |ps| :: ps[i].hash in Indexed(m, ps) && Indexed(m, ps)[ps[i].hash] == ps[i]
    ensures forall h | h in Indexed(m, ps) :: h in m || exists i | 0 <= i < |ps| :: ps[i].hash == h
  {
    if ps != [] {
      IndexedFinds(m, Front(ps));
      assert forall i | 0 <= i < |ps| - 1 :: Front(ps)[i] == ps[i];
      assert ps[|ps| - 1].hash == Last(ps).hash;
    }
  }

  /** The row a photo comes back as. */
  function Returned(photo: ArchivedPhoto, ids: map<AnchorKey, int>): Photo
    requires photo.key in ids
  {
    Photo(ids[photo.key], photo.hash, photo.meta)
  }

  /** Every hash is indexed under its own name, with a decision to attach to and a valid row. */
  ghost predicate Attachable(p: Progress, hashes: seq<string>) {
    forall h | h in hashes :: h in p.byHash && p.byHash[h].hash == h && p.byHash[h].key in p.ids
      && p.ids[p.byHash[h].key] in p.vault.table.rows && MetaOk(p.byHash[h].meta)
  }

  function ReturnedAll(p: Progress, hashes: seq<string>): seq<Photo>
    requires forall h | h in hashes :: h in p.byHash && p.byHash[h].key in p.ids
  {
    seq(|hashes|, i requires 0 <= i < |hashes| => Returned(p.byHash[hashes[i]], p.ids))
  }

  function Restricted(thumbs: map<string, string>, hashes: seq<string>): map<string, string> {
    map h | h in thumbs && h in hashes :: thumbs[h]
  }

  /** Progress after the thumbnails of `hashes` have been read into an instance without files or photos. */
  function AfterThumbs(p: Progress, hashes: seq<string>, thumbs: map<string, string>): Progress
    requires forall h | h in hashes :: h in p.byHash && p.byHash[h].key in p.ids
  {
    p.(vault := p.vault.(photos := ReturnedAll(p, hashes), thumbs := Restricted(thumbs, hashes)),
       inArchive := (set h | h in hashes),
       report := p.report.(photosRestored := p.report.photosRestored + |hashes|,
                           thumbsWritten := p.report.thumbsWritten + |hashes|))
  }

  lemma OneThumbLands(p: Progress, hashes: seq<string>, h: string, thumbs: map<string, string>)
    requires Attachable(p, hashes + [h]) && h !in hashes && h in thumbs
    ensures Attachable(p, hashes)
    ensures OneEntry(AfterThumbs(p, hashes, thumbs), ThumbEntry(h, thumbs[h]))
         == Going(AfterThumbs(p, hashes + [h], thumbs))
  {
    assert forall g | g in hashes :: g in hashes + [h];
    assert h in hashes + [h];
    var before := AfterThumbs(p, hashes, thumbs);
    assert !HashStored(before.vault.photos, h);
    assert Restricted(thumbs, hashes)[h := thumbs[h]] == Restricted(thumbs, hashes + [h]);
    assert ReturnedAll(p, hashes) + [Returned(p.byHash[h], p.ids)] == ReturnedAll(p, hashes + [h]);
    assert (set g | g in hashes) + {h} == set g | g in hashes + [h];
  }

  lemma NoThumbsYet(p: Progress, thumbs: map<string, string>)
    requires p.vault.photos == [] && p.vault.thumbs == map[] && p.inArchive == {}
    ensures AfterThumbs(p, [], thumbs) == p
  {
    assert Restricted(thumbs, []) == map[];
  }

  lemma {:induction false} ThumbsLand(p: Progress, hashes: seq<string>, thumbs: map<string, string>)
    requires p.vault.photos == [] && p.vault.thumbs == map[] && p.inArchive == {}
    requires Attachable(p, hashes) && Distinct(hashes) && forall h | h in hashes :: h in thumbs
    ensures ManyEntries(p, ThumbEntries(hashes, thumbs)) == Going(AfterThumbs(p, hashes, thumbs))
  {
    hide OneEntry, AfterThumbs;
    if hashes == [] {
      NoThumbsYet(p, thumbs);
    } else {
      var init := Front(hashes);
      assert forall h | h in init :: h in hashes;
      assert Attachable(p, init);
      assert hashes == init + [Last(hashes)];
      ThumbsLand(p, init, thumbs);
      assert Front(ThumbEntries(hashes, thumbs)) == ThumbEntries(init, thumbs);
      OneThumbLands(p, init, Last(hashes), thumbs);
    }
  }

  lemma {:induction false} NoLeftovers(p: Progress, ps: seq<ArchivedPhoto>)
    requires forall photo | photo in ps :: photo.hash in p.inArchive
    ensures ManyLeftovers(p, ps) == Going(p)
  {
    if ps != [] {
      assert Last(ps) in ps;
      assert forall photo | photo in Front(ps) :: photo in ps;
      NoLeftovers(p, Front(ps));
    }
  }

  lemma {:induction false} EntriesConcat(p: Progress, es: seq<Entry>, fs: seq<Entry>)
    requires ManyEntries(p, es).Going?
    ensures ManyEntries(p, es + fs) == ManyEntries(ManyEntries(p, es).p, fs)
  {
    if fs == [] {
      assert es + fs == es;
    } else {
      EntriesConcat(p, es, Front(fs));
      assert Front(es + fs) == es + Front(fs);
    }
  }

  lemma EntriesThree(p: Progress, a: Entry, b: Entry, c: Entry)
    requires OneEntry(p, a).Going? && OneEntry(OneEntry(p, a).p, b).Going?
    ensures ManyEntries(p, [a, b, c]) == OneEntry(OneEntry(OneEntry(p, a).p, b).p, c)
  {
    hide OneEntry;
    assert Front([a, b, c]) == [a, b] && Front([a, b]) == [a] && Front([a]) == [];
    assert ManyEntries(p, [a]) == OneEntry(p, a);
    assert ManyEntries(p, [a, b]) == OneEntry(OneEntry(p, a).p, b);
  }

  // ---- The round trip ----

  ghost predicate EmptyVault(w: Vault) {
    w.table.rows == map[] && 1 <= w.table.nextId && w.photos == [] && w.thumbs == map[]
  }

  /** The progress once manifest, decisions and photo list of `v` have been read into an empty instance. */
  function RowsRead(v: Vault, w: Vault, m: Manifest): Progress
    requires forall p | p in WithThumb(v) :: p.decision in v.table.rows
  {
    var ds, ps := Listed(v.table), ArchivedPhotos(WithThumb(v), v.table.rows);
    Progress(w.(table := FreshTable(ds, w.table.nextId)), ps, Indexed(map[], ps), {}, FreshIds(ds, w.table.nextId),
             EMPTY_REPORT.(manifest := Some(m), decisionsRestored := |ds|))
  }

  lemma WithThumbValid(v: Vault)
    requires ValidVault(v)
    ensures forall p | p in WithThumb(v) :: p in v.photos && p.hash in v.thumbs && p.decision in v.table.rows
    ensures forall p | p in v.photos && p.hash in v.thumbs :: p in WithThumb(v)
    ensures forall i, j | 0 <= i < j < |WithThumb(v)| :: WithThumb(v)[i].hash != WithThumb(v)[j].hash
  {
    FilterElements(v.photos, (p: Photo) => p.hash in v.thumbs);
    FilterDistinct(v.photos, (p: Photo) => p.hash in v.thumbs);
  }

  lemma {:induction false} FilterDistinct(ps: seq<Photo>, keep: Photo -> bool)
    requires forall i, j | 0 <= i < j < |ps| :: ps[i].hash != ps[j].hash
    ensures forall i, j | 0 <= i < j < |Filter(ps, keep)| :: Filter(ps, keep)[i].hash != Filter(ps, keep)[j].hash
    ensures forall p | p in Filter(ps, keep) :: p in ps
  {
    if ps != [] {
      FilterDistinct(Front(ps), keep);
      forall p | p in Front(ps) ensures p.hash != Last(ps).hash {
        var i :| 0 <= i < |ps| - 1 && Front(ps)[i] == p;
        assert ps[i] == p;
      }
    }
  }

  lemma RowsReadReached(v: Vault, w: Vault, m: Manifest, hashes: seq<string>)
    requires ValidVault(v) && EmptyVault(w) && m.formatVersion == FORMAT_VERSION
    requires forall p | p in WithThumb(v) :: p.decision in v.table.rows
    ensures var es := [ManifestEntry(m), DecisionsEntry(ArchivedAll(Listed(v.table))),
                       PhotosEntry(ArchivedPhotos(WithThumb(v), v.table.rows))];
            ManyEntries(Start(w), es) == Going(RowsRead(v, w, m))
  {
    var ds, n := Listed(v.table), w.table.nextId;
    ListedIsTable(v.table);
    var a := ManifestEntry(m);
    var b := DecisionsEntry(ArchivedAll(ds));
    var c := PhotosEntry(ArchivedPhotos(WithThumb(v), v.table.rows));
    var p := OneEntry(Start(w), a).p;
    assert p.vault.table == FreshTable([], n);
    DecisionsLand(p, ds, n);
    EntriesThree(Start(w), a, b, c);
    hide ManyDecisions, FreshTable, FreshIds, Indexed, WithThumb, Listed, ManyEntries;
  }

  lemma AnchorIsFresh(ds: seq<Decision>, n: int, d: Decision)
    requires DistinctKeys(ds) && d in ds
    ensures KeyOf(d) in FreshIds(ds, n) && FreshIds(ds, n)[KeyOf(d)] in FreshRows(ds, n)
    ensures KeyOf(FreshRows(ds, n)[FreshIds(ds, n)[KeyOf(d)]]) == KeyOf(d)
  {
    FreshIdsExact(ds, n);
    FreshRowsExact(ds, n);
    hide FreshRows, FreshIds;
    var j :| 0 <= j < |ds| && ds[j] == d;
    assert FreshIds(ds, n)[KeyOf(d)] == n + j;
  }

  lemma PhotoFound(v: Vault, w: Vault, m: Manifest, photo: Photo)
    requires ValidVault(v) && EmptyVault(w) && photo in WithThumb(v)
    requires forall p | p in WithThumb(v) :: p.decision in v.table.rows
    ensures FoundAt(RowsRead(v, w, m), photo, v)
  {
    var ps := ArchivedPhotos(WithThumb(v), v.table.rows);
    WithThumbValid(v);
    IndexedFinds(map[], ps);
    hide Indexed, FreshRows, FreshIds, WithThumb, Listed;
    var i :| 0 <= i < |ps| && WithThumb(v)[i] == photo;
    assert ps[i] == ArchivedPhotoOf(photo, v.table.rows);
    ListedIsTable(v.table);
    AnchorIsFresh(Listed(v.table), w.table.nextId, v.table.rows[photo.decision]);
  }

  lemma RowsReadAttachable(v: Vault, w: Vault, m: Manifest, hashes: seq<string>)
    requires ValidVault(v) && EmptyVault(w) && ThumbOrder(v, hashes)
    requires forall p | p in WithThumb(v) :: p.decision in v.table.rows
    ensures Attachable(RowsRead(v, w, m), hashes)
    ensures forall p | p in WithThumb(v) :: FoundAt(RowsRead(v, w, m), p, v)
  {
    hide RowsRead, ValidVault, WithThumb;
    forall photo | photo in WithThumb(v) ensures FoundAt(RowsRead(v, w, m), photo, v) {
      PhotoFound(v, w, m, photo);
    }
    forall h | h in hashes ensures exists p | p in WithThumb(v) :: p.hash == h && FoundAt(RowsRead(v, w, m), p, v) {
      var p :| p in WithThumb(v) && p.hash == h;
    }
  }

  /** The photo is indexed, under the anchor of its own decision, which is stored. */
  ghost predicate FoundAt(p: Progress, photo: Photo, v: Vault) {
    && photo.decision in v.table.rows && photo.hash in p.byHash
    && p.byHash[photo.hash] == ArchivedPhotoOf(photo, v.table.rows)
    && p.byHash[photo.hash].key in p.ids
    && p.ids[p.byHash[photo.hash].key] in p.vault.table.rows
    && KeyOf(p.vault.table.rows[p.ids[p.byHash[photo.hash].key]]) == p.byHash[photo.hash].key
    && MetaOk(photo.meta)
  }

  /** The same photograph on the same decision, whatever the row ids. */
  ghost predicate Counterpart(v: Vault, p: Photo, w: Vault, q: Photo) {
    && p.hash == q.hash && p.meta == q.meta
    && p.decision in v.table.rows && q.decision in w.table.rows
    && KeyOf(DecisionOf(v, p)) == KeyOf(DecisionOf(w, q))
  }

  ghost function DecisionOf(v: Vault, p: Photo): Decision
    requires p.decision in v.table.rows
  {
    v.table.rows[p.decision]
  }

  ghost predicate BroughtBack(v: Vault, p: Photo, w: Vault) { exists q | q in w.photos :: Counterpart(v, p, w, q) }

  ghost predicate CameFrom(v: Vault, w: Vault, q: Photo) {
    exists p | p in v.photos && p.hash in v.thumbs :: Counterpart(v, p, w, q)
  }

  ghost predicate HashNamed(photos: seq<Photo>, h: string) { exists p | p in photos :: p.hash == h }

  /** `w` holds the decisions of `v`, its photos that have a thumbnail, and their files, and no more. */
  ghost predicate SameBelongings(v: Vault, w: Vault) {
    && ArchivedAll(Listed(w.table)) == ArchivedAll(Listed(v.table))
    && SamePhotos(v, w)
    && (forall h | h in w.thumbs :: h in v.thumbs && w.thumbs[h] == v.thumbs[h])
    && (forall h :: h in w.thumbs <==> HashNamed(w.photos, h))
  }

  ghost predicate SamePhotos(v: Vault, w: Vault) {
    && (forall p | p in v.photos && p.hash in v.thumbs :: BroughtBack(v, p, w))
    && (forall q | q in w.photos :: CameFrom(v, w, q))
  }

  lemma AllArchived(v: Vault, w: Vault, m: Manifest, hashes: seq<string>)
    requires ThumbOrder(v, hashes) && forall p | p in WithThumb(v) :: p.decision in v.table.rows
    ensures forall photo | photo in RowsRead(v, w, m).photos :: photo.hash in hashes
  {
    hide WithThumb, Indexed, FreshIds, FreshTable;
    forall photo | photo in RowsRead(v, w, m).photos ensures photo.hash in hashes {
      var i :| 0 <= i < |WithThumb(v)| && photo == ArchivedPhotoOf(WithThumb(v)[i], v.table.rows);
      assert WithThumb(v)[i] in WithThumb(v);
    }
  }

  lemma RestoredIs(v: Vault, w: Vault, m: Manifest, hashes: seq<string>)
    requires ValidVault(v) && EmptyVault(w) && ThumbOrder(v, hashes) && m.formatVersion == FORMAT_VERSION
    requires forall p | p in WithThumb(v) :: p.decision in v.table.rows
    requires forall h | h in hashes :: h in v.thumbs
    ensures Attachable(RowsRead(v, w, m), hashes)
    ensures Restored(w, Archive(v, m, hashes)) == Going(AfterThumbs(RowsRead(v, w, m), hashes, v.thumbs))
  {
    RowsReadReached(v, w, m, hashes);
    RowsReadAttachable(v, w, m, hashes);
    var p := RowsRead(v, w, m);
    var es := [ManifestEntry(m), DecisionsEntry(ArchivedAll(Listed(v.table))),
               PhotosEntry(ArchivedPhotos(WithThumb(v), v.table.rows))];
    assert p.vault.photos == [] && p.vault.thumbs == map[] && p.inArchive == {} && p.report.manifest.Some?;
    AllArchived(v, w, m, hashes);
    hide RowsRead, ManyEntries, ManyLeftovers, WithThumb, Attachable, AfterThumbs, OneEntry, Listed, ValidVault;
    ThumbsLand(p, hashes, v.thumbs);
    EntriesConcat(Start(w), es, ThumbEntries(hashes, v.thumbs));
    NoLeftovers(AfterThumbs(p, hashes, v.thumbs), p.photos);
  }

  /** What a backup archives is there: each photo's decision, each thumbnail's file. */
  lemma ArchiveDefined(v: Vault, hashes: seq<string>)
    requires ValidVault(v) && ThumbOrder(v, hashes)
    ensures forall p | p in v.photos :: p.decision in v.table.rows
    ensures forall h | h in hashes :: h in v.thumbs
  {
    WithThumbValid(v);
    forall h | h in hashes ensures h in v.thumbs {
      var p :| p in WithThumb(v) && p.hash == h;
    }
  }

  /** Backup, then restore into an empty instance: everything with a durable identity comes back. */
  lemma BackupRoundTrip(v: Vault, w: Vault, m: Manifest, hashes: seq<string>)
    requires ValidVault(v) && EmptyVault(w) && ThumbOrder(v, hashes) && m.formatVersion == FORMAT_VERSION
    ensures forall p | p in v.photos :: p.decision in v.table.rows
    ensures forall h | h in hashes :: h in v.thumbs
    ensures var r := Restored(w, Archive(v, m, hashes));
            && r.Going? && SameBelongings(v, r.p.vault)
            && r.p.report.decisionsRestored == |Listed(v.table)| && r.p.report.decisionsSkipped == 0
            && r.p.report.photosRestored == |hashes| && r.p.report.photosSkipped == 0
            && r.p.report.thumbsWritten == |hashes| && r.p.report.missingThumb == []
  {
    WithThumbValid(v);
    ArchiveDefined(v, hashes);
    RestoredIs(v, w, m, hashes);
    DecisionsReturn(v, w);
    RowsReadAttachable(v, w, m, hashes);
    PhotosReturn(v, RowsRead(v, w, m), hashes);
    FilesReturn(v, RowsRead(v, w, m), hashes);
  }

  lemma DecisionsReturn(v: Vault, w: Vault)
    requires ValidVault(v) && EmptyVault(w)
    ensures ArchivedAll(Listed(FreshTable(Listed(v.table), w.table.nextId))) == ArchivedAll(Listed(v.table))
  {
    var ds, n := Listed(v.table), w.table.nextId;
    ListedFresh(ds, n, n + |ds|);
  }

  /** Each restored row is the counterpart of the photo with its hash. */
  lemma ReturnedMatches(v: Vault, p: Progress, q: Photo, i: nat, hashes: seq<string>)
    requires Attachable(p, hashes) && i < |hashes| && hashes[i] == q.hash && FoundAt(p, q, v)
    ensures var after := AfterThumbs(p, hashes, v.thumbs).vault; Counterpart(v, q, after, after.photos[i])
  {
  }

  lemma PhotosReturn(v: Vault, p: Progress, hashes: seq<string>)
    requires ThumbOrder(v, hashes) && Attachable(p, hashes)
    requires forall q | q in WithThumb(v) :: q in v.photos && q.hash in v.thumbs && FoundAt(p, q, v)
    requires forall q | q in v.photos && q.hash in v.thumbs :: q in WithThumb(v)
    ensures SamePhotos(v, AfterThumbs(p, hashes, v.thumbs).vault)
  {
    hide WithThumb, FoundAt, Counterpart;
    var after := AfterThumbs(p, hashes, v.thumbs).vault;
    assert |after.photos| == |hashes|;
    forall q | q in v.photos && q.hash in v.thumbs ensures BroughtBack(v, q, after) {
      var i :| 0 <= i < |hashes| && hashes[i] == q.hash;
      ReturnedMatches(v, p, q, i, hashes);
      assert after.photos[i] in after.photos;
    }
    forall r | r in after.photos ensures CameFrom(v, after, r) {
      var i :| 0 <= i < |hashes| && after.photos[i] == r;
      assert hashes[i] in hashes;
      var q :| q in WithThumb(v) && q.hash == hashes[i];
      ReturnedMatches(v, p, q, i, hashes);
    }
  }

  lemma FilesReturn(v: Vault, p: Progress, hashes: seq<string>)
    requires Attachable(p, hashes) && forall h | h in hashes :: h in v.thumbs
    ensures var after := AfterThumbs(p, hashes, v.thumbs).vault;
            forall h :: h in after.thumbs <==> HashNamed(after.photos, h)
  {
    var after := AfterThumbs(p, hashes, v.thumbs).vault;
    forall h ensures h in after.thumbs <==> HashNamed(after.photos, h) {
      if h in after.thumbs {
        var i :| 0 <= i < |hashes| && hashes[i] == h;
        assert after.photos[i] in after.photos;
      }
    }
  }

  // ---- Matching survives ----

  function IdsOf(ds: seq<Decision>): seq<int> { seq(|ds|, i requires 0 <= i < |ds| => ds[i].id) }

  /** The given ids, in order, mapped to `n`, `n + 1`, and so on. */
  function Numbered(olds: seq<int>, n: int): map<int, int> {
    if olds == [] then map[] else Numbered(Front(olds), n)[Last(olds) := n + |olds| - 1]
  }

  /** Old decision id to restored decision id. */
  function NewIds(t: Table, n: int): map<int, int> { Numbered(IdsOf(Listed(t)), n) }

  lemma {:induction false} NumberedAt(olds: seq<int>, n: int, i: nat)
    requires Increasing(olds) && i < |olds|
    ensures olds[i] in Numbered(olds, n) && Numbered(olds, n)[olds[i]] == n + i
  {
    if i < |olds| - 1 {
      NumberedAt(Front(olds), n, i);
    }
  }

  lemma {:induction false} NumberedFrom(olds: seq<int>, n: int, id: int)
    requires id in Numbered(olds, n)
    ensures id in olds
  {
    if id != Last(olds) {
      NumberedFrom(Front(olds), n, id);
    }
  }

  lemma NumberedAscends(olds: seq<int>, n: int)
    requires Increasing(olds)
    ensures OrderPreserving(Numbered(olds, n))
  {
    hide Numbered;
    forall a, b | a in Numbered(olds, n) && b in Numbered(olds, n) && a < b
      ensures Numbered(olds, n)[a] < Numbered(olds, n)[b]
    {
      NumberedFrom(olds, n, a);
      NumberedFrom(olds, n, b);
      var i :| 0 <= i < |olds| && olds[i] == a;
      var j :| 0 <= j < |olds| && olds[j] == b;
      NumberedAt(olds, n, i);
      NumberedAt(olds, n, j);
    }
  }

  /** The `i`-th listed decision comes back as row `n + i`, with the same anchor. */
  lemma AnchorReturns(t: Table, n: int, i: nat)
    requires ValidTable(t) && i < |Listed(t)|
    ensures Listed(t)[i].id in NewIds(t, n) && NewIds(t, n)[Listed(t)[i].id] == n + i
    ensures n + i in FreshTable(Listed(t), n).rows
    ensures FreshTable(Listed(t), n).rows[n + i] == Renamed(Listed(t)[i], n + i)
    ensures AnchorOf(FreshTable(Listed(t), n).rows[n + i]) == Renumbered(AnchorOf(Listed(t)[i]), NewIds(t, n))
  {
    ListedIsTable(t);
    NumberedAt(IdsOf(Listed(t)), n, i);
    FreshRowsExact(Listed(t), n);
  }

  lemma AnchorThere(t: Table, n: int, d: Anchor)
    requires ValidTable(t) && d in AnchorsOf(t)
    ensures d.id in NewIds(t, n) && Renumbered(d, NewIds(t, n)) in AnchorsOf(FreshTable(Listed(t), n))
  {
    var id :| id in t.rows && AnchorOf(t.rows[id]) == d;
    assert t.rows[id] in Listed(t) by { ListedIsTable(t); }
    var i :| 0 <= i < |Listed(t)| && Listed(t)[i] == t.rows[id];
    hide NewIds, FreshRows, Listed, ValidTable;
    AnchorReturns(t, n, i);
  }

  lemma AnchorBack(t: Table, n: int, d: Anchor) returns (e: Anchor)
    requires ValidTable(t) && d in AnchorsOf(FreshTable(Listed(t), n))
    ensures e in AnchorsOf(t) && e.id in NewIds(t, n) && d == Renumbered(e, NewIds(t, n))
  {
    var rows := FreshTable(Listed(t), n).rows;
    var id :| id in rows && AnchorOf(rows[id]) == d;
    var i := id - n;
    assert 0 <= i < |Listed(t)| by { FreshRowsExact(Listed(t), n); }
    assert Listed(t)[i].id in t.rows && t.rows[Listed(t)[i].id] == Listed(t)[i] by { ListedIsTable(t); }
    hide NewIds, FreshRows, Listed, ValidTable;
    AnchorReturns(t, n, i);
    e := AnchorOf(Listed(t)[i]);
  }

  lemma AnchorsReturn(t: Table, n: int)
    requires ValidTable(t)
    ensures Covers(NewIds(t, n), AnchorsOf(t))
    ensures AnchorsOf(FreshTable(Listed(t), n)) == RenumberedDecs(AnchorsOf(t), NewIds(t, n))
  {
    hide NewIds, FreshTable, Listed, AnchorsOf, ValidTable;
    forall d | d in AnchorsOf(t)
      ensures d.id in NewIds(t, n) && Renumbered(d, NewIds(t, n)) in AnchorsOf(FreshTable(Listed(t), n))
    {
      AnchorThere(t, n, d);
    }
    forall d | d in AnchorsOf(FreshTable(Listed(t), n)) ensures d in RenumberedDecs(AnchorsOf(t), NewIds(t, n)) {
      var e := AnchorBack(t, n, d);
    }
  }

  lemma ValidVaultTable(v: Vault)
    requires ValidVault(v)
    ensures ValidTable(v.table)
  {
  }

  lemma RestoredTable(v: Vault, w: Vault, m: Manifest, hashes: seq<string>)
    requires ValidVault(v) && EmptyVault(w) && ThumbOrder(v, hashes) && m.formatVersion == FORMAT_VERSION
    requires forall p | p in v.photos :: p.decision in v.table.rows
    requires forall h | h in hashes :: h in v.thumbs
    ensures Restored(w, Archive(v, m, hashes)).p.vault.table == FreshTable(Listed(v.table), w.table.nextId)
  {
    WithThumbValid(v);
    RestoredIs(v, w, m, hashes);
    hide Archive, ValidVault, Listed, WithThumb, Restored, Attachable, FreshTable;
  }

  /** Matching on freshly numbered copies of the rows. */
  lemma FreshRowsMatch(t: Table, n: int, run: Triage.Run)
    requires ValidTable(t) && ValidTable(FreshTable(Listed(t), n)) && DistinctCands(run.cands)
    ensures var after, ids := FreshTable(Listed(t), n), NewIds(t, n);
            && OrderPreserving(ids) && EdgesCovered(Assoc(t, run), ids)
            && Assoc(after, run) == RenumberedEdges(Assoc(t, run), ids)
  {
    ListedIsTable(t);
    NumberedAscends(IdsOf(Listed(t)), n);
    AnchorsReturn(t, n);
    AnchorsDistinct(t);
    hide ValidTable, Listed, Association, NewIds, FreshTable, AnchorsOf;
    RenumberingIsHarmless(run.cands, AnchorsOf(t), NewIds(t, n), run.p, run.dist);
  }

  /** Every candidate is matched after the restore to the copy of the decision it was matched to before. */
  lemma MatchingSurvivesRestore(v: Vault, w: Vault, m: Manifest, hashes: seq<string>, run: Triage.Run)
    requires ValidVault(v) && EmptyVault(w) && ThumbOrder(v, hashes) && m.formatVersion == FORMAT_VERSION
    requires DistinctCands(run.cands)
    ensures forall p | p in v.photos :: p.decision in v.table.rows
    ensures forall h | h in hashes :: h in v.thumbs
    ensures var after, ids := Restored(w, Archive(v, m, hashes)).p.vault.table, NewIds(v.table, w.table.nextId);
            && ValidTable(after) && OrderPreserving(ids)
            && EdgesCovered(Assoc(v.table, run), ids)
            && Assoc(after, run) == RenumberedEdges(Assoc(v.table, run), ids)
  {
    ArchiveDefined(v, hashes);
    RestoredTable(v, w, m, hashes);
    ValidVaultTable(v);
    EmptyIsValid(w);
    RestoreOnlyAdds(w, Archive(v, m, hashes));
    ValidVaultTable(Restored(w, Archive(v, m, hashes)).p.vault);
    hide Archive, ValidVault, ValidTable, Listed, Restored, NewIds, FreshTable, Assoc, ThumbOrder, EmptyVault, Grows;
    FreshRowsMatch(v.table, w.table.nextId, run);
  }

  lemma EmptyIsValid(w: Vault)
    requires EmptyVault(w)
    ensures ValidVault(w)
  {
  }

  lemma RenumberedIds(m: set<Edge>, ids: map<int, int>)
    requires EdgesCovered(m, ids) && Identified(m) && OneToOne(m)
    requires Identified(RenumberedEdges(m, ids)) && OneToOne(RenumberedEdges(m, ids))
    ensures forall k | k in Ids(m) :: Ids(m)[k] in ids
    ensures Ids(RenumberedEdges(m, ids)) == map k | k in Ids(m) :: ids[Ids(m)[k]]
  {
    var m' := RenumberedEdges(m, ids);
    forall e | e in m ensures Ids(m)[e.cand.id] in ids && e.cand.id in Ids(m') && Ids(m')[e.cand.id] == ids[e.dec.id] {
      assert RenumberedEdge(e, ids) in m';
    }
    forall k | k in Ids(m') ensures k in Ids(m) {
      var e' :| e' in m' && e'.cand.id == k;
      var e :| e in m && e' == RenumberedEdge(e, ids);
    }
  }

  lemma RowReturns(t: Table, n: int, id: int)
    requires ValidTable(t) && id in t.rows
    ensures id in NewIds(t, n) && NewIds(t, n)[id] in FreshTable(Listed(t), n).rows
    ensures FreshTable(Listed(t), n).rows[NewIds(t, n)[id]] == Renamed(t.rows[id], NewIds(t, n)[id])
  {
    assert t.rows[id].id == id && t.rows[id] in Listed(t) by { ListedIsTable(t); }
    var i :| 0 <= i < |Listed(t)| && Listed(t)[i] == t.rows[id];
    hide NewIds, FreshRows, Listed, ValidTable;
    AnchorReturns(t, n, i);
  }

  lemma SameVerdicts(t: Table, t': Table, ids: map<int, int>, run: Triage.Run)
    requires ValidTable(t) && ValidTable(t') && DistinctCands(run.cands)
    requires forall k | k in Links(t, run) :: Links(t, run)[k] in t.rows && Links(t, run)[k] in ids
    requires Links(t', run) == map k | k in Links(t, run) :: ids[Links(t, run)[k]]
    requires forall k | k in Links(t, run) ::
      var id := Links(t, run)[k]; ids[id] in t'.rows && t'.rows[ids[id]] == Renamed(t.rows[id], ids[id])
    ensures Verdicts(t', run) == Verdicts(t, run)
  {
    hide Links, ValidTable, DistinctCands;
    LinksAreRows(t', run);
    var l := Links(t, run);
    assert Links(t', run).Keys == l.Keys;
    forall k | k in l
      ensures var r, r' := t.rows[l[k]], t'.rows[ids[l[k]]];
              Verdict(r'.action, r'.name) == Verdict(r.action, r.name)
    {
      assert t'.rows[ids[l[k]]] == Renamed(t.rows[l[k]], ids[l[k]]);
    }
    var a, b := VerdictsOf(t'.rows, Links(t', run)), VerdictsOf(t.rows, l);
    assert a.Keys == b.Keys;
    forall k | k in b ensures a[k] == b[k] {
      assert k in l;
    }
  }

  /** What triage shows after the restore: the same links under the new ids, the same verdict on every candidate. */
  lemma TriageSurvivesRestore(v: Vault, w: Vault, m: Manifest, hashes: seq<string>, run: Triage.Run)
    requires ValidVault(v) && EmptyVault(w) && ThumbOrder(v, hashes) && m.formatVersion == FORMAT_VERSION
    requires DistinctCands(run.cands)
    ensures forall p | p in v.photos :: p.decision in v.table.rows
    ensures forall h | h in hashes :: h in v.thumbs
    ensures var after, ids := Restored(w, Archive(v, m, hashes)).p.vault.table, NewIds(v.table, w.table.nextId);
            && ValidTable(v.table) && ValidTable(after)
            && (forall k | k in Links(v.table, run) :: Links(v.table, run)[k] in ids)
            && Links(after, run) == (map k | k in Links(v.table, run) :: ids[Links(v.table, run)[k]])
            && Verdicts(after, run) == Verdicts(v.table, run)
  {
    ArchiveDefined(v, hashes);
    MatchingSurvivesRestore(v, w, m, hashes, run);
    RestoredTable(v, w, m, hashes);
    var after, ids := Restored(w, Archive(v, m, hashes)).p.vault.table, NewIds(v.table, w.table.nextId);
    hide Archive, ValidVault, Listed, WithThumb, NewIds, Restored, Assoc, ThumbOrder, EmptyVault, FreshTable;
    RenumberedIds(Assoc(v.table, run), ids);
    LinksAreRows(v.table, run);
    forall k | k in Links(v.table, run)
      ensures var id := Links(v.table, run)[k];
              ids[id] in after.rows && after.rows[ids[id]] == Renamed(v.table.rows[id], ids[id])
    {
      RowReturns(v.table, w.table.nextId, Links(v.table, run)[k]);
    }
    SameVerdicts(v.table, after, ids, run);
  }
}
