/**
 The product backup (internal/backup/backup.go, internal/store/backup.go): decisions, photo rows and
 thumbnail bytes leave as an ordered list of entries and are merged back by durable identity.
 */
module Backups {
  import opened Domain
  import opened Seqs
  import opened Decisions

  const FORMAT_VERSION := 1

  // ---- One user's irreplaceable state ----

  datatype PhotoMeta = PhotoMeta(name: string, takenAt: Option<Time>, timeSource: string, loc: Option<LatLng>,
                                 posSource: string, thumbW: int, thumbH: int, uploadedAt: int)

  /** What the photos table checks of a row. */
  predicate MetaOk(m: PhotoMeta) {
    && m.timeSource in ["gps", "exif_offset", "sidecar", "exif_local", "none"]
    && m.posSource in ["exif", "sidecar", "none"]
  }

  datatype Photo = Photo(decision: int, hash: string, meta: PhotoMeta)

  /** The decisions table, the photo rows in id order, and the thumbnail directory. */
  datatype Vault = Vault(table: Table, photos: seq<Photo>, thumbs: map<string, string>)

  ghost predicate ValidVault(v: Vault) {
    && ValidTable(v.table)
    && (forall p | p in v.photos :: p.decision in v.table.rows && MetaOk(p.meta))
    && (forall i, j | 0 <= i < j < |v.photos| :: v.photos[i].hash != v.photos[j].hash)
  }

  predicate HashStored(photos: seq<Photo>, h: string) { exists i | 0 <= i < |photos| :: photos[i].hash == h }

  function Listed(t: Table): seq<Decision> { ListedUpTo(t.rows, t.nextId) }

  // ---- The archive ----

  datatype Manifest = Manifest(formatVersion: int, schemaVersion: int, createdAt: int,
                               decisions: nat, photos: nat, thumbnails: nat)

  /** A decision by its anchor, never by row id. */
  datatype ArchivedDecision = ArchivedDecision(action: Action, name: Option<string>, key: AnchorKey,
                                               createdAt: int, updatedAt: int)

  /** A photo by content hash, attached to an anchor. */
  datatype ArchivedPhoto = ArchivedPhoto(hash: string, meta: PhotoMeta, key: AnchorKey)

  datatype Entry =
    | ManifestEntry(manifest: Manifest)
    | DecisionsEntry(decisions: seq<ArchivedDecision>)
    | PhotosEntry(photos: seq<ArchivedPhoto>)
    | ThumbEntry(hash: string, jpeg: string)
    | OtherEntry
    | Unreadable

  datatype Error = Corrupt | NewerFormat | DecisionsBeforeManifest | NoManifest | UnknownDecision | Constraint

  // ---- Writing ----

  function ArchivedOf(d: Decision): ArchivedDecision {
    ArchivedDecision(d.action, d.name, KeyOf(d), d.createdAt, d.updatedAt)
  }

  function ArchivedPhotoOf(p: Photo, rows: map<int, Decision>): ArchivedPhoto
    requires p.decision in rows
  {
    ArchivedPhoto(p.hash, p.meta, KeyOf(rows[p.decision]))
  }

  function WithThumb(v: Vault): seq<Photo> { Filter(v.photos, (p: Photo) => p.hash in v.thumbs) }

  function ArchivedPhotos(photos: seq<Photo>, rows: map<int, Decision>): seq<ArchivedPhoto>
    requires forall p | p in photos :: p.decision in rows
  {
    seq(|photos|, i requires 0 <= i < |photos| => ArchivedPhotoOf(photos[i], rows))
  }

  function ThumbEntries(hashes: seq<string>, thumbs: map<string, string>): seq<Entry>
    requires forall h | h in hashes :: h in thumbs
  {
    seq(|hashes|, i requires 0 <= i < |hashes| => ThumbEntry(hashes[i], thumbs[hashes[i]]))
  }

  // ---- Restoring ----

  datatype Report = Report(manifest: Option<Manifest>, decisionsRestored: nat, decisionsSkipped: nat,
                           photosRestored: nat, photosSkipped: nat, thumbsWritten: nat, thumbsExisting: nat,
                           missingThumb: seq<string>)

  const EMPTY_REPORT := Report(None, 0, 0, 0, 0, 0, 0, [])

  /** A restore part of the way through the archive. */
  datatype Progress = Progress(vault: Vault, photos: seq<ArchivedPhoto>, byHash: map<string, ArchivedPhoto>,
                               inArchive: set<string>, ids: map<AnchorKey, int>, report: Report)

  datatype Outcome = Going(p: Progress) | Failed(p: Progress, error: Error)

  /** The row an anchor names. */
  function IdWithKey(rows: map<int, Decision>, n: int, key: AnchorKey): (id: Option<int>)
    ensures id.Some? ==> id.value in rows && KeyOf(rows[id.value]) == key && 1 <= id.value < n
    ensures id.None? ==> forall i | i in rows && 1 <= i < n :: KeyOf(rows[i]) != key
    decreases n
  {
    if n <= 1 then None
    else if n - 1 in rows && KeyOf(rows[n - 1]) == key then Some(n - 1)
    else IdWithKey(rows, n - 1, key)
  }

  /** What a stored-row write did: refused by a constraint, or the row's id and whether it is new. */
  datatype Landed = Refused | Row(id: int, inserted: bool)

  predicate DecisionOk(d: ArchivedDecision) { d.action == Confirmed ==> d.name.Some? }

  /** INSERT ... ON CONFLICT DO NOTHING: an existing anchor keeps its row untouched. */
  function LandDecision(t: Table, d: ArchivedDecision): (Table, Landed) {
    if !DecisionOk(d) then (t, Refused)
    else
      match IdWithKey(t.rows, t.nextId, d.key)
      case Some(id) => (t, Row(id, false))
      case None =>
        var row := Decision(t.nextId, d.action, d.name, d.key.start, d.key.end, d.key.dest, d.createdAt, d.updatedAt);
        (Table(t.rows[t.nextId := row], t.nextId + 1), Row(t.nextId, true))
  }

  function LandPhoto(v: Vault, p: Photo): (Vault, Landed) {
    if !MetaOk(p.meta) then (v, Refused)
    else if HashStored(v.photos, p.hash) then (v, Row(p.decision, false))
    else if p.decision !in v.table.rows then (v, Refused)
    else (v.(photos := v.photos + [p]), Row(p.decision, true))
  }

  function OneDecision(p: Progress, d: ArchivedDecision): Outcome {
    var (t, landed) := LandDecision(p.vault.table, d);
    match landed
    case Refused => Failed(p, Constraint)
    case Row(id, inserted) =>
      var rep := if inserted then p.report.(decisionsRestored := p.report.decisionsRestored + 1)
                 else p.report.(decisionsSkipped := p.report.decisionsSkipped + 1);
      Going(p.(vault := p.vault.(table := t), ids := p.ids[d.key := id], report := rep))
  }

  function ManyDecisions(p: Progress, ds: seq<ArchivedDecision>): Outcome {
    if ds == [] then Going(p)
    else
      match ManyDecisions(p, Front(ds))
      case Failed(q, e) => Failed(q, e)
      case Going(q) => OneDecision(q, Last(ds))
  }

  function OnePhoto(p: Progress, photo: ArchivedPhoto): Outcome {
    if photo.key !in p.ids then Failed(p, UnknownDecision)
    else
      var (v, landed) := LandPhoto(p.vault, Photo(p.ids[photo.key], photo.hash, photo.meta));
      match landed
      case Refused => Failed(p, Constraint)
      case Row(_, inserted) =>
        var rep := if inserted then p.report.(photosRestored := p.report.photosRestored + 1)
                   else p.report.(photosSkipped := p.report.photosSkipped + 1);
        Going(p.(vault := v, report := rep))
  }

  function Indexed(m: map<string, ArchivedPhoto>, ps: seq<ArchivedPhoto>): map<string, ArchivedPhoto> {
    if ps == [] then m else Indexed(m, Front(ps))[Last(ps).hash := Last(ps)]
  }

  /** The thumbnail file is in place before its row is restored. */
  function PlaceThumb(p: Progress, h: string, jpeg: string): Progress {
    if h in p.vault.thumbs then
      p.(inArchive := p.inArchive + {h}, report := p.report.(thumbsExisting := p.report.thumbsExisting + 1))
    else
      p.(inArchive := p.inArchive + {h}, vault := p.vault.(thumbs := p.vault.thumbs[h := jpeg]),
         report := p.report.(thumbsWritten := p.report.thumbsWritten + 1))
  }

  function OneEntry(p: Progress, e: Entry): Outcome {
    match e
    case ManifestEntry(m) =>
      var q := p.(report := p.report.(manifest := Some(m)));
      // The failed read still leaves the manifest in the report.
      if m.formatVersion > FORMAT_VERSION then Failed(q, NewerFormat) else Going(q)
    case DecisionsEntry(ds) =>
      if p.report.manifest.None? then Failed(p, DecisionsBeforeManifest) else ManyDecisions(p, ds)
    case PhotosEntry(ps) => Going(p.(photos := ps, byHash := Indexed(p.byHash, ps)))
    case ThumbEntry(h, jpeg) => if h !in p.byHash then Going(p) else OnePhoto(PlaceThumb(p, h, jpeg), p.byHash[h])
    case OtherEntry => Going(p)
    case Unreadable => Failed(p, Corrupt)
  }

  function ManyEntries(p: Progress, es: seq<Entry>): Outcome {
    if es == [] then Going(p)
    else
      match ManyEntries(p, Front(es))
      case Failed(q, e) => Failed(q, e)
      case Going(q) => OneEntry(q, Last(es))
  }

  /** A row whose thumbnail the archive did not carry is restored only when the file is already here. */
  function OneLeftover(p: Progress, photo: ArchivedPhoto): Outcome {
    if photo.hash in p.inArchive then Going(p)
    else if photo.hash in p.vault.thumbs then
      OnePhoto(p.(report := p.report.(thumbsExisting := p.report.thumbsExisting + 1)), photo)
    else Going(p.(report := p.report.(missingThumb := p.report.missingThumb + [photo.meta.name])))
  }

  function ManyLeftovers(p: Progress, ps: seq<ArchivedPhoto>): Outcome {
    if ps == [] then Going(p)
    else
      match ManyLeftovers(p, Front(ps))
      case Failed(q, e) => Failed(q, e)
      case Going(q) => OneLeftover(q, Last(ps))
  }

  function Start(v: Vault): Progress { Progress(v, [], map[], {}, map[], EMPTY_REPORT) }

  /** A whole restore. */
  function Restored(v: Vault, archive: seq<Entry>): Outcome {
    match ManyEntries(Start(v), archive)
    case Failed(p, e) => Failed(p, e)
    case Going(p) => if p.report.manifest.None? then Failed(p, NoManifest) else ManyLeftovers(p, p.photos)
  }
}
