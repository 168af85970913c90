/** The transactions of the store as functions on the tables, the invariant that ties the
    tables to the remote vault, and why every transaction keeps it. */
module Vault {
  import opened Tables
  import opened Layout
  import opened Capsules

  // ---- What clients see -----------------------------------------------------------------

  type Namespace = map<Path, Bytes>

  /** The plaintext drive the tables describe: each live path and the bytes of its manifest. */
  function View(db: Db): Namespace {
    Plaintext(db.files, db.manifests)
  }

  function Plaintext(files: Files, manifests: Manifests): Namespace {
    map p | p in files && files[p].manifest in manifests :: Plain(manifests[files[p].manifest])
  }

  /** What committed operations did to the drive. */
  datatype Event =
    | Wrote(path: Path, content: Bytes)
    | Removed(path: Path)
    | Renamed(from: Path, to: Path)

  function Apply(ns: Namespace, event: Event): Namespace {
    match event
    case Wrote(path, content) => ns[path := content]
    case Removed(path) => Without(ns, path)
    case Renamed(from, to) => if from in ns then Without(ns, from)[to := ns[from]] else ns
  }

  /** A plain drive, with no chunks, versions or keys: the fold of the committed events. */
  function Replay(journal: seq<Event>): Namespace {
    if journal == [] then map[]
    else Apply(Replay(journal[..|journal| - 1]), journal[|journal| - 1])
  }

  lemma ReplaySnoc(journal: seq<Event>, event: Event)
    ensures Replay(journal + [event]) == Apply(Replay(journal), event)
  {
    assert (journal + [event])[..|journal|] == journal;
  }

  // ---- The invariant --------------------------------------------------------------------

  type Files = map<Path, FileRow>
  type Versions = map<VersionKey, VersionRow>
  type Manifests = map<Id, ManifestRow>
  type Uploads = map<Id, UploadRow>

  ghost predicate RefsHaveRows(files: Files, versions: Versions, manifests: Manifests) {
    && (forall p :: p in files ==> files[p].manifest in manifests && files[p].version >= 1)
    && (forall k :: k in versions ==> versions[k].manifest in manifests && k.version >= 1)
  }

  /** Each manifest is named at most once by `cas_files` and `cas_versions` together. */
  ghost predicate OneReference(files: Files, versions: Versions) {
    && (forall p, q :: p in files && q in files && p != q ==> files[p].manifest != files[q].manifest)
    && (forall j, k :: j in versions && k in versions && j != k ==> versions[j].manifest != versions[k].manifest)
    && (forall p, k :: p in files && k in versions ==> files[p].manifest != versions[k].manifest)
  }

  ghost predicate AllLaid(manifests: Manifests, rows: SlotTable, chunks: ChunkTable) {
    && (forall m :: m in manifests ==> WellLaid(rows, chunks, m, manifests[m]))
    && (forall s :: s in rows ==> s.owner in manifests)
  }

  /** `UNIQUE(size, sha256, sha512)`, and digests that belong to the same bytes. */
  ghost predicate ChunksGood(chunks: ChunkTable) {
    && (forall c :: c in chunks ==> GoodChunk(chunks[c]))
    && (forall c, d :: c in chunks && d in chunks && c != d ==> chunks[c].sha256 != chunks[d].sha256)
  }

  ghost predicate PinsGood(uploads: Uploads, pins: map<Slot, Id>, chunks: ChunkTable, manifests: Manifests) {
    && (forall s :: s in pins ==> s.owner in uploads && pins[s] in chunks)
    && (forall u :: u in uploads && uploads[u].status.InFlight() && uploads[u].manifest.Some? ==>
          uploads[u].manifest.value in manifests)
  }

  ghost predicate TablesInv(db: Db) {
    && RefsHaveRows(db.files, db.versions, db.manifests)
    && OneReference(db.files, db.versions)
    && AllLaid(db.manifests, db.manifestChunks, db.chunks)
    && ChunksGood(db.chunks)
    && PinsGood(db.uploads, db.uploadChunks, db.chunks, db.manifests)
    && db.manifests.Keys !! db.chunks.Keys
  }

  /** Present in the vault, unless somebody outside the gateway removed it. */
  ghost predicate Has(held: Held, lost: set<Part>, part: Part) {
    part in held || part in lost
  }

  ghost predicate Backed(rows: SlotTable, held: Held, lost: set<Part>, m: Id) {
    && Has(held, lost, Manifest(m)) && Has(held, lost, Key(m))
    && (forall s :: s in rows && s.owner == m ==>
          Has(held, lost, Object(rows[s].chunk)) && Has(held, lost, Key(rows[s].chunk)))
  }

  /** Every object and key of every referenced manifest is in the vault. */
  ghost predicate AllBacked(files: Files, versions: Versions, rows: SlotTable, held: Held, lost: set<Part>) {
    && (forall p :: p in files ==> Backed(rows, held, lost, files[p].manifest))
    && (forall k :: k in versions ==> Backed(rows, held, lost, versions[k].manifest))
  }

  function ChunkIds(list: seq<ManifestChunkRow>): seq<Id> {
    seq(|list|, i requires 0 <= i < |list| => list[i].chunk)
  }

  ghost predicate GoodKey(content: Content, id: Id, gateway: Gateway) {
    && content.KeyFile? && Faithful(content.capsule, id, DekOf(id))
    && Unwrap(content.capsule, id, gateway) == Some(DekOf(id))
  }

  /** What is in the vault under an id with a row is what was stored under that id, and the object is as
      long as the row says. */
  ghost predicate AuthenticChunks(chunks: ChunkTable, held: Held, gateway: Gateway) {
    forall c :: c in chunks ==>
      && (Object(c) in held ==>
            held[Object(c)].content == Sealed(DekOf(c), ChunkPayload(c, chunks[c].sha256.of), chunks[c].storedSize))
      && (Key(c) in held ==> GoodKey(held[Key(c)].content, c, gateway))
  }

  ghost predicate AuthenticManifests(manifests: Manifests, rows: SlotTable, held: Held, gateway: Gateway) {
    forall m :: m in manifests ==>
      && (Manifest(m) in held ==>
            held[Manifest(m)].content ==
              Sealed(DekOf(m), ManifestPayload(m, ChunkIds(ChunkList(rows, m, 0))), manifests[m].storedSize))
      && (Key(m) in held ==> GoodKey(held[Key(m)].content, m, gateway))
  }

  ghost predicate VaultInv(db: Db, held: Held, lost: set<Part>, gateway: Gateway) {
    && TablesInv(db)
    && AllBacked(db.files, db.versions, db.manifestChunks, held, lost)
    && AuthenticChunks(db.chunks, held, gateway)
    && AuthenticManifests(db.manifests, db.manifestChunks, held, gateway)
  }

  lemma VaultInvTables(db: Db, held: Held, lost: set<Part>, gateway: Gateway)
    requires VaultInv(db, held, lost, gateway)
    ensures TablesInv(db)
    ensures RefsHaveRows(db.files, db.versions, db.manifests) && OneReference(db.files, db.versions)
    ensures AllLaid(db.manifests, db.manifestChunks, db.chunks) && ChunksGood(db.chunks)
    ensures PinsGood(db.uploads, db.uploadChunks, db.chunks, db.manifests)
    ensures db.manifests.Keys !! db.chunks.Keys
  {
  }

  /** Ids not drawn yet have no rows. */
  ghost predicate FreshFrom(db: Db, nextId: Id) {
    && (forall m :: m in db.manifests ==> m < nextId)
    && (forall c :: c in db.chunks ==> c < nextId)
    && (forall u :: u in db.uploads ==> u < nextId)
  }

  // ---- Upload ---------------------------------------------------------------------------

  function InsertUpload(db: Db, u: Id, row: UploadRow): Db {
    db.(uploads := db.uploads[u := row])
  }

  /** `_set_upload_status`: the manifest column keeps its value when none is given. */
  function WithStatus(uploads: Uploads, u: Id, status: Status, manifest: Option<Id>): Uploads {
    if u in uploads then
      uploads[u := uploads[u].(status := status,
                               manifest := if manifest.Some? then manifest else uploads[u].manifest)]
    else uploads
  }

  function SetStatus(db: Db, u: Id, status: Status, manifest: Option<Id>): Db {
    db.(uploads := WithStatus(db.uploads, u, status, manifest))
  }

  function InsertChunk(db: Db, c: Id, row: ChunkRow): Db {
    db.(chunks := db.chunks[c := row])
  }

  function PinChunk(db: Db, u: Id, position: nat, c: Id): Db {
    db.(uploadChunks := db.uploadChunks[Slot(u, position) := c])
  }

  function Unpin(db: Db, u: Id): Db {
    db.(uploadChunks := WithoutOwner(db.uploadChunks, u))
  }

  function InsertManifest(db: Db, m: Id, row: ManifestRow, list: seq<ManifestChunkRow>, u: Id): Db {
    db.(manifests := db.manifests[m := row],
        manifestChunks := Inserted(db.manifestChunks, m, list),
        uploads := WithStatus(db.uploads, u, VERIFYING, Some(m)))
  }

  function ManifestOf(row: Option<FileRow>): Option<Id> {
    if row.Some? then Some(row.value.manifest) else None
  }

  /** `_file_row`, without the columns of the manifest. */
  function CurrentRow(db: Db, path: Path): Option<FileRow> {
    if path in db.files then Some(db.files[path]) else None
  }

  function CurrentManifest(db: Db, path: Path): Option<Id> {
    ManifestOf(CurrentRow(db, path))
  }

  /** `INSERT INTO cas_versions ... ON CONFLICT(path, version) DO UPDATE`. */
  function Archive(versions: Versions, path: Path, row: FileRow, now: Time): Versions {
    versions[VersionKey(path, row.version) := VersionRow(row.manifest, row.modified, now)]
  }

  /** The commit transaction of an upload, after its check of the current manifest. */
  function CommitVersion(db: Db, path: Path, previous: Option<FileRow>, current: FileRow, now: Time, u: Id): Db {
    db.(versions := if previous.Some? then Archive(db.versions, path, previous.value, now) else db.versions,
        files := db.files[path := current],
        deleted := Without(db.deleted, path),
        uploads := WithStatus(db.uploads, u, ACTIVE, None),
        uploadChunks := WithoutOwner(db.uploadChunks, u))
  }

  // ---- Namespace ------------------------------------------------------------------------

  /** The transaction of `delete` for a file, which reads the clock twice. */
  function DeleteFile(db: Db, path: Path, archived: Time, deleted: Time): Db
    requires path in db.files
  {
    db.(versions := Archive(db.versions, path, db.files[path], archived),
        files := Without(db.files, path),
        deleted := db.deleted[path := deleted])
  }

  /** What `_reconcile` does to a confirmed-missing file: `ON CONFLICT ... DO NOTHING`. */
  function TombstoneMissing(db: Db, path: Path, now: Time): Db
    requires path in db.files
  {
    db.(versions := if VersionKey(path, db.files[path].version) in db.versions then db.versions
                    else Archive(db.versions, path, db.files[path], now),
        files := Without(db.files, path),
        deleted := db.deleted[path := now])
  }

  /** `UPDATE cas_versions SET path=? WHERE path=?`. */
  function RelabelVersions(versions: map<VersionKey, VersionRow>, from: Path, to: Path)
    : map<VersionKey, VersionRow>
  {
    map k | k in (set j | j in versions.Keys :: if j.path == from then VersionKey(to, j.version) else j) ::
      if k.path == to && VersionKey(from, k.version) in versions then versions[VersionKey(from, k.version)]
      else versions[k]
  }

  /** `UPDATE cas_files SET path=? WHERE path=?` and the same for its history. */
  function RelabelFile(db: Db, from: Path, to: Path): Db
    requires from in db.files
  {
    db.(files := Without(db.files, from)[to := db.files[from]],
        versions := RelabelVersions(db.versions, from, to))
  }

  /** Neither `UPDATE` of a rename hits a primary key that is taken. */
  predicate RelabelAllowed(db: Db, from: Path, to: Path) {
    from == to ||
    (to !in db.files &&
     forall k :: k in db.versions && k.path == from ==> VersionKey(to, k.version) !in db.versions)
  }

  // ---- Retention and collection ---------------------------------------------------------

  function DropVersions(db: Db, drop: set<VersionKey>): Db {
    db.(versions := map k | k in db.versions && k !in drop :: db.versions[k])
  }

  function DropManifest(db: Db, m: Id): Db {
    db.(manifests := Without(db.manifests, m),
        manifestChunks := WithoutOwner(db.manifestChunks, m))
  }

  function DropChunk(db: Db, c: Id): Db {
    db.(chunks := Without(db.chunks, c))
  }

  predicate InFiles(files: Files, m: Id) {
    exists p :: p in files && files[p].manifest == m
  }

  predicate InVersions(versions: Versions, m: Id) {
    exists k :: k in versions && versions[k].manifest == m
  }

  predicate InFlight(uploads: Uploads, m: Id) {
    exists u :: u in uploads && uploads[u].manifest == Some(m) && uploads[u].status.InFlight()
  }

  /** Named by a current file, by history, or by an upload not yet finished. */
  predicate Kept(files: Files, versions: Versions, uploads: Uploads, m: Id) {
    InFiles(files, m) || InVersions(versions, m) || InFlight(uploads, m)
  }

  /** Named by a chunk list or pinned by an upload. */
  predicate Used(rows: SlotTable, pins: map<Slot, Id>, c: Id) {
    || (exists s :: s in rows && rows[s].chunk == c)
    || (exists s :: s in pins && pins[s] == c)
  }

  /** Some manifests went, each with its whole chunk list; what is left is untouched. */
  ghost predicate Trimmed(manifests: Manifests, rows: SlotTable, manifests': Manifests, rows': SlotTable) {
    && (forall m :: m in manifests' ==> m in manifests && manifests'[m] == manifests[m])
    && (forall s :: s in rows' <==> s in rows && s.owner in manifests')
    && (forall s :: s in rows' ==> rows'[s] == rows[s])
  }

  /** Some rows went; what is left is untouched. */
  ghost predicate Subtable<K(!new), V>(part: map<K, V>, whole: map<K, V>) {
    forall k :: k in part ==> k in whole && part[k] == whole[k]
  }

  /** A chunk some file, version or unfinished upload needs. */
  predicate Reachable(db: Db, c: Id) {
    || (exists s :: s in db.manifestChunks && db.manifestChunks[s].chunk == c &&
                    Kept(db.files, db.versions, db.uploads, s.owner))
    || (exists s :: s in db.uploadChunks && db.uploadChunks[s] == c)
  }

  /** Nothing left to collect. */
  predicate Swept(db: Db) {
    && (forall m :: m in db.manifests ==> Kept(db.files, db.versions, db.uploads, m))
    && (forall c :: c in db.chunks ==> Used(db.manifestChunks, db.uploadChunks, c))
  }

  // ---- Why the transactions keep the invariant ------------------------------------------

  /** A transaction that only rewrites which manifests are named. */
  lemma ReferencesKeep(db: Db, db': Db, held: Held, lost: set<Part>, gateway: Gateway)
    requires VaultInv(db, held, lost, gateway)
    requires db'.manifests == db.manifests && db'.manifestChunks == db.manifestChunks && db'.chunks == db.chunks
    requires PinsGood(db'.uploads, db'.uploadChunks, db.chunks, db.manifests)
    requires RefsHaveRows(db'.files, db'.versions, db.manifests)
    requires OneReference(db'.files, db'.versions)
    requires AllBacked(db'.files, db'.versions, db.manifestChunks, held, lost)
    ensures VaultInv(db', held, lost, gateway)
  {
  }

  lemma InsertChunkKeeps(db: Db, held: Held, lost: set<Part>, gateway: Gateway, c: Id, row: ChunkRow)
    requires VaultInv(db, held, lost, gateway)
    requires c !in db.chunks && c !in db.manifests && GoodChunk(row)
    requires forall d :: d in db.chunks ==> db.chunks[d].sha256 != row.sha256
    requires Object(c) in held && held[Object(c)].content == Sealed(DekOf(c), ChunkPayload(c, row.sha256.of), row.storedSize)
    requires Key(c) in held && GoodKey(held[Key(c)].content, c, gateway)
    ensures VaultInv(InsertChunk(db, c, row), held, lost, gateway)
    ensures View(InsertChunk(db, c, row)) == View(db)
  {
    var db' := InsertChunk(db, c, row);
    forall m | m in db'.manifests
      ensures WellLaid(db'.manifestChunks, db'.chunks, m, db'.manifests[m])
    {
      WellLaidFrame(db.manifestChunks, db.manifestChunks, db.chunks, db'.chunks, m, db.manifests[m]);
    }
  }

  lemma InsertedLaid(manifests: Manifests, rows: SlotTable, chunks: ChunkTable, m: Id, row: ManifestRow,
                     list: seq<ManifestChunkRow>)
    requires AllLaid(manifests, rows, chunks) && m !in manifests && Known(chunks, list)
    requires row.sha256 == Sha256(Spelled(chunks, list)) && row.sha512 == Sha512(Spelled(chunks, list))
    requires row.size == |Spelled(chunks, list)|
    ensures AllLaid(manifests[m := row], Inserted(rows, m, list), chunks)
    ensures ChunkList(Inserted(rows, m, list), m, 0) == list
    ensures forall n :: n in manifests ==> ChunkList(Inserted(rows, m, list), n, 0) == ChunkList(rows, n, 0)
  {
    var rows' := Inserted(rows, m, list);
    InsertedList(rows, m, list);
    forall n | n in manifests
      ensures WellLaid(rows', chunks, n, manifests[n])
      ensures ChunkList(rows', n, 0) == ChunkList(rows, n, 0)
    {
      WellLaidFrame(rows, rows', chunks, chunks, n, manifests[n]);
    }
    assert WellLaid(rows', chunks, m, row);
  }

  lemma InsertedBacked(files: Files, versions: Versions, manifests: Manifests, rows: SlotTable, held: Held,
                       lost: set<Part>, m: Id, list: seq<ManifestChunkRow>)
    requires AllBacked(files, versions, rows, held, lost) && RefsHaveRows(files, versions, manifests)
    requires m !in manifests
    ensures AllBacked(files, versions, Inserted(rows, m, list), held, lost)
  {
    var rows' := Inserted(rows, m, list);
    assert forall s :: s in rows' && s.owner != m ==> s in rows && rows'[s] == rows[s];
  }

  lemma InsertedAuthentic(manifests: Manifests, rows: SlotTable, chunks: ChunkTable, held: Held, gateway: Gateway,
                          m: Id, row: ManifestRow, list: seq<ManifestChunkRow>)
    requires AllLaid(manifests, rows, chunks) && m !in manifests
    requires AuthenticManifests(manifests, rows, held, gateway)
    requires ChunkList(Inserted(rows, m, list), m, 0) == list
    requires forall n :: n in manifests ==> ChunkList(Inserted(rows, m, list), n, 0) == ChunkList(rows, n, 0)
    requires Manifest(m) in held && held[Manifest(m)].content == Sealed(DekOf(m), ManifestPayload(m, ChunkIds(list)), row.storedSize)
    requires Key(m) in held && GoodKey(held[Key(m)].content, m, gateway)
    ensures AuthenticManifests(manifests[m := row], Inserted(rows, m, list), held, gateway)
  {
    hide WellLaid, GoodKey;
  }

  lemma InsertedPins(uploads: Uploads, pins: map<Slot, Id>, chunks: ChunkTable, manifests: Manifests, m: Id,
                     row: ManifestRow, u: Id)
    requires PinsGood(uploads, pins, chunks, manifests)
    ensures PinsGood(WithStatus(uploads, u, VERIFYING, Some(m)), pins, chunks, manifests[m := row])
  {
  }

  lemma InsertManifestKeeps(db: Db, held: Held, lost: set<Part>, gateway: Gateway, m: Id, row: ManifestRow,
                            list: seq<ManifestChunkRow>, u: Id)
    requires VaultInv(db, held, lost, gateway)
    requires m !in db.manifests && m !in db.chunks && u in db.uploads
    requires Known(db.chunks, list)
    requires row.sha256 == Sha256(Spelled(db.chunks, list)) && row.sha512 == Sha512(Spelled(db.chunks, list))
    requires row.size == |Spelled(db.chunks, list)|
    requires Manifest(m) in held && held[Manifest(m)].content == Sealed(DekOf(m), ManifestPayload(m, ChunkIds(list)), row.storedSize)
    requires Key(m) in held && GoodKey(held[Key(m)].content, m, gateway)
    ensures VaultInv(InsertManifest(db, m, row, list, u), held, lost, gateway)
    ensures View(InsertManifest(db, m, row, list, u)) == View(db)
    ensures ChunkList(InsertManifest(db, m, row, list, u).manifestChunks, m, 0) == list
  {
    hide AllLaid, ChunksGood, AuthenticChunks, AuthenticManifests, OneReference, AllBacked, PinsGood, GoodKey,
         Inserted, WithStatus, ChunkList, ChunkIds, Known, Spelled;
    InsertedLaid(db.manifests, db.manifestChunks, db.chunks, m, row, list);
    InsertedBacked(db.files, db.versions, db.manifests, db.manifestChunks, held, lost, m, list);
    InsertedAuthentic(db.manifests, db.manifestChunks, db.chunks, held, gateway, m, row, list);
    InsertedPins(db.uploads, db.uploadChunks, db.chunks, db.manifests, m, row, u);
  }

  /** The history once the current version of `path`, if any, joins it. */
  function ArchivedAs(files: Files, versions: Versions, path: Path, now: Time): Versions {
    if path in files then Archive(versions, path, files[path], now) else versions
  }

  lemma CommitReferences(files: Files, versions: Versions, manifests: Manifests, path: Path, current: FileRow, now: Time)
    requires RefsHaveRows(files, versions, manifests) && OneReference(files, versions)
    requires current.manifest in manifests && current.version >= 1
    requires forall p :: p in files ==> files[p].manifest != current.manifest
    requires forall k :: k in versions ==> versions[k].manifest != current.manifest
    ensures RefsHaveRows(files[path := current], ArchivedAs(files, versions, path, now), manifests)
    ensures OneReference(files[path := current], ArchivedAs(files, versions, path, now))
  {
  }

  lemma CommitBacked(files: Files, versions: Versions, rows: SlotTable, held: Held, lost: set<Part>,
                     path: Path, current: FileRow, now: Time)
    requires AllBacked(files, versions, rows, held, lost) && Backed(rows, held, lost, current.manifest)
    ensures AllBacked(files[path := current], ArchivedAs(files, versions, path, now), rows, held, lost)
  {
  }

  lemma FinishPins(uploads: Uploads, pins: map<Slot, Id>, chunks: ChunkTable, manifests: Manifests, u: Id,
                   status: Status, manifest: Option<Id>)
    requires PinsGood(uploads, pins, chunks, manifests) && !status.InFlight()
    ensures PinsGood(WithStatus(uploads, u, status, manifest), pins, chunks, manifests)
    ensures PinsGood(WithStatus(uploads, u, status, manifest), WithoutOwner(pins, u), chunks, manifests)
  {
  }

  lemma CommitVersionKeeps(db: Db, held: Held, lost: set<Part>, gateway: Gateway, path: Path,
                           previous: Option<FileRow>, current: FileRow, now: Time, u: Id)
    requires VaultInv(db, held, lost, gateway)
    requires previous == if path in db.files then Some(db.files[path]) else None
    requires current.manifest in db.manifests && current.version >= 1
    requires !InFiles(db.files, current.manifest) && !InVersions(db.versions, current.manifest)
    requires Backed(db.manifestChunks, held, lost, current.manifest)
    ensures VaultInv(CommitVersion(db, path, previous, current, now, u), held, lost, gateway)
    ensures View(CommitVersion(db, path, previous, current, now, u)) ==
            View(db)[path := Plain(db.manifests[current.manifest])]
  {
    hide AllLaid, ChunksGood, AuthenticChunks, AuthenticManifests, WellLaid, Backed, PinsGood, OneReference,
         AllBacked, Archive, WithStatus, WithoutOwner;
    CommitReferences(db.files, db.versions, db.manifests, path, current, now);
    CommitBacked(db.files, db.versions, db.manifestChunks, held, lost, path, current, now);
    FinishPins(db.uploads, db.uploadChunks, db.chunks, db.manifests, u, ACTIVE, None);
    ReferencesKeep(db, CommitVersion(db, path, previous, current, now, u), held, lost, gateway);
  }

  lemma TombstoneReferences(files: Files, versions: Versions, manifests: Manifests, path: Path, now: Time)
    requires OneReference(files, versions) && RefsHaveRows(files, versions, manifests) && path in files
    ensures OneReference(Without(files, path), Archive(versions, path, files[path], now))
    ensures OneReference(Without(files, path), versions)
    ensures RefsHaveRows(Without(files, path), Archive(versions, path, files[path], now), manifests)
    ensures RefsHaveRows(Without(files, path), versions, manifests)
  {
  }

  lemma TombstoneBacked(files: Files, versions: Versions, rows: SlotTable, held: Held, lost: set<Part>,
                        path: Path, now: Time)
    requires AllBacked(files, versions, rows, held, lost) && path in files
    ensures AllBacked(Without(files, path), Archive(versions, path, files[path], now), rows, held, lost)
    ensures AllBacked(Without(files, path), versions, rows, held, lost)
  {
    hide Backed;
  }

  lemma DeleteFileKeeps(db: Db, held: Held, lost: set<Part>, gateway: Gateway, path: Path, now: Time,
                        deleted: Time)
    requires VaultInv(db, held, lost, gateway) && path in db.files
    ensures VaultInv(DeleteFile(db, path, now, deleted), held, lost, gateway)
    ensures View(DeleteFile(db, path, now, deleted)) == Without(View(db), path)
  {
    hide AllLaid, ChunksGood, AuthenticChunks, AuthenticManifests, PinsGood, OneReference, AllBacked, Archive;
    TombstoneReferences(db.files, db.versions, db.manifests, path, now);
    TombstoneBacked(db.files, db.versions, db.manifestChunks, held, lost, path, now);
    ReferencesKeep(db, DeleteFile(db, path, now, deleted), held, lost, gateway);
  }

  lemma TombstoneMissingKeeps(db: Db, held: Held, lost: set<Part>, gateway: Gateway, path: Path, now: Time)
    requires VaultInv(db, held, lost, gateway) && path in db.files
    ensures VaultInv(TombstoneMissing(db, path, now), held, lost, gateway)
    ensures View(TombstoneMissing(db, path, now)) == Without(View(db), path)
  {
    hide AllLaid, ChunksGood, AuthenticChunks, AuthenticManifests, PinsGood, OneReference, AllBacked, Archive;
    TombstoneReferences(db.files, db.versions, db.manifests, path, now);
    TombstoneBacked(db.files, db.versions, db.manifestChunks, held, lost, path, now);
    ReferencesKeep(db, TombstoneMissing(db, path, now), held, lost, gateway);
  }

  /** The rows of the history after a relabelling, each under its new key. */
  lemma RelabelVersionsRows(versions: Versions, from: Path, to: Path)
    requires from != to
    requires forall k :: k in versions && k.path == from ==> VersionKey(to, k.version) !in versions
    ensures var versions' := RelabelVersions(versions, from, to);
      && (forall k :: k in versions' <==>
            (k.path != from && k in versions) || (k.path == to && VersionKey(from, k.version) in versions))
      && (forall k :: k in versions' && k in versions ==> versions'[k] == versions[k])
      && (forall k :: k in versions' && k.path == to && VersionKey(from, k.version) in versions ==>
            versions'[k] == versions[VersionKey(from, k.version)])
  {
    var versions' := RelabelVersions(versions, from, to);
    forall k
      ensures k in versions' <==>
        (k.path != from && k in versions) || (k.path == to && VersionKey(from, k.version) in versions)
    {
      if k.path != from && k in versions {
        assert k in versions.Keys;
      }
      if k.path == to && VersionKey(from, k.version) in versions {
        assert VersionKey(from, k.version) in versions.Keys;
      }
    }
  }

  /** The key a history row had before the relabelling. */
  function KeyBefore(versions: Versions, from: Path, to: Path, k: VersionKey): VersionKey {
    if k.path == to && VersionKey(from, k.version) in versions then VersionKey(from, k.version) else k
  }

  lemma RelabelKeys(versions: Versions, from: Path, to: Path)
    requires from != to
    requires forall k :: k in versions && k.path == from ==> VersionKey(to, k.version) !in versions
    ensures var versions' := RelabelVersions(versions, from, to);
      forall k :: k in versions' ==>
        && KeyBefore(versions, from, to, k) in versions
        && versions'[k] == versions[KeyBefore(versions, from, to, k)]
        && (k.path == to || KeyBefore(versions, from, to, k) == k)
        && (k.path == to ==> KeyBefore(versions, from, to, k) in {VersionKey(from, k.version), VersionKey(to, k.version)})
        && k.path != from
  {
    RelabelVersionsRows(versions, from, to);
  }

  lemma RelabelReferences(files: Files, versions: Versions, from: Path, to: Path)
    requires OneReference(files, versions) && from in files && from != to && to !in files
    requires forall k :: k in versions && k.path == from ==> VersionKey(to, k.version) !in versions
    ensures OneReference(Without(files, from)[to := files[from]], RelabelVersions(versions, from, to))
  {
    hide RelabelVersions, KeyBefore;
    RelabelKeys(versions, from, to);
    var versions' := RelabelVersions(versions, from, to);
    forall j, k | j in versions' && k in versions' && j != k
      ensures versions'[j].manifest != versions'[k].manifest
    {
      var j', k' := KeyBefore(versions, from, to, j), KeyBefore(versions, from, to, k);
      assert j' != k' by {
        assert j == VersionKey(j.path, j.version) && k == VersionKey(k.path, k.version);
      }
    }
  }

  lemma RelabelBacked(files: Files, versions: Versions, manifests: Manifests, rows: SlotTable, held: Held,
                      lost: set<Part>, from: Path, to: Path)
    requires RefsHaveRows(files, versions, manifests) && AllBacked(files, versions, rows, held, lost)
    requires from in files && from != to
    requires forall k :: k in versions && k.path == from ==> VersionKey(to, k.version) !in versions
    ensures RefsHaveRows(Without(files, from)[to := files[from]], RelabelVersions(versions, from, to), manifests)
    ensures AllBacked(Without(files, from)[to := files[from]], RelabelVersions(versions, from, to), rows, held, lost)
  {
    hide RelabelVersions, Backed;
    RelabelKeys(versions, from, to);
  }

  lemma RelabelPlaintext(files: Files, manifests: Manifests, from: Path, to: Path)
    requires from in files && files[from].manifest in manifests && from != to
    ensures Plaintext(Without(files, from)[to := files[from]], manifests) ==
            Apply(Plaintext(files, manifests), Renamed(from, to))
  {
  }

  lemma RelabelFileKeeps(db: Db, held: Held, lost: set<Part>, gateway: Gateway, from: Path, to: Path)
    requires VaultInv(db, held, lost, gateway)
    requires from in db.files && from != to && RelabelAllowed(db, from, to)
    ensures VaultInv(RelabelFile(db, from, to), held, lost, gateway)
    ensures View(RelabelFile(db, from, to)) == Apply(View(db), Renamed(from, to))
  {
    hide AllLaid, ChunksGood, AuthenticChunks, AuthenticManifests, Backed, PinsGood, OneReference, AllBacked,
         RelabelVersions, Plaintext, Apply;
    RelabelPlaintext(db.files, db.manifests, from, to);
    RelabelReferences(db.files, db.versions, from, to);
    RelabelBacked(db.files, db.versions, db.manifests, db.manifestChunks, held, lost, from, to);
    ReferencesKeep(db, RelabelFile(db, from, to), held, lost, gateway);
  }

  lemma DropVersionsKeeps(db: Db, held: Held, lost: set<Part>, gateway: Gateway, drop: set<VersionKey>)
    requires VaultInv(db, held, lost, gateway)
    ensures VaultInv(DropVersions(db, drop), held, lost, gateway)
    ensures View(DropVersions(db, drop)) == View(db)
  {
    hide AllLaid, ChunksGood, AuthenticChunks, AuthenticManifests, PinsGood, Backed;
    ReferencesKeep(db, DropVersions(db, drop), held, lost, gateway);
  }

  lemma DroppedLaid(manifests: Manifests, rows: SlotTable, chunks: ChunkTable, m: Id)
    requires AllLaid(manifests, rows, chunks)
    ensures AllLaid(Without(manifests, m), WithoutOwner(rows, m), chunks)
    ensures forall n :: n in manifests && n != m ==>
      ChunkList(WithoutOwner(rows, m), n, 0) == ChunkList(rows, n, 0)
  {
    forall n | n in manifests && n != m
      ensures WellLaid(WithoutOwner(rows, m), chunks, n, manifests[n])
      ensures ChunkList(WithoutOwner(rows, m), n, 0) == ChunkList(rows, n, 0)
    {
      WellLaidFrame(rows, WithoutOwner(rows, m), chunks, chunks, n, manifests[n]);
    }
  }

  lemma DroppedReferences(db: Db, held: Held, lost: set<Part>, m: Id)
    requires RefsHaveRows(db.files, db.versions, db.manifests)
    requires AllBacked(db.files, db.versions, db.manifestChunks, held, lost)
    requires PinsGood(db.uploads, db.uploadChunks, db.chunks, db.manifests)
    requires !Kept(db.files, db.versions, db.uploads, m)
    ensures RefsHaveRows(db.files, db.versions, Without(db.manifests, m))
    ensures AllBacked(db.files, db.versions, WithoutOwner(db.manifestChunks, m), held, lost)
    ensures PinsGood(db.uploads, db.uploadChunks, db.chunks, Without(db.manifests, m))
    ensures Plaintext(db.files, Without(db.manifests, m)) == Plaintext(db.files, db.manifests)
  {
  }

  lemma DropManifestKeeps(db: Db, held: Held, lost: set<Part>, gateway: Gateway, m: Id)
    requires VaultInv(db, held, lost, gateway) && !Kept(db.files, db.versions, db.uploads, m)
    ensures VaultInv(DropManifest(db, m), held, lost, gateway)
    ensures View(DropManifest(db, m)) == View(db)
  {
    hide AllLaid, ChunksGood, AuthenticChunks, OneReference, AllBacked, PinsGood, RefsHaveRows, GoodKey, Kept;
    DroppedLaid(db.manifests, db.manifestChunks, db.chunks, m);
    DroppedReferences(db, held, lost, m);
  }

  lemma SlotChunkKnown(db: Db, s: Slot)
    requires TablesInv(db) && s in db.manifestChunks
    ensures db.manifestChunks[s].chunk in db.chunks
  {
    assert WellLaid(db.manifestChunks, db.chunks, s.owner, db.manifests[s.owner]);
    ChunkListRows(db.manifestChunks, s.owner, 0);
    var list := ChunkList(db.manifestChunks, s.owner, 0);
    assert Slot(s.owner, s.position) == s;
    assert db.manifestChunks[s] == list[s.position];
  }

  lemma DropChunkKeeps(db: Db, held: Held, lost: set<Part>, gateway: Gateway, c: Id)
    requires VaultInv(db, held, lost, gateway) && !Used(db.manifestChunks, db.uploadChunks, c)
    ensures VaultInv(DropChunk(db, c), held, lost, gateway)
    ensures View(DropChunk(db, c)) == View(db)
  {
    var db' := DropChunk(db, c);
    forall m | m in db'.manifests
      ensures WellLaid(db'.manifestChunks, db'.chunks, m, db'.manifests[m])
    {
      WellLaidFrame(db.manifestChunks, db'.manifestChunks, db.chunks, db'.chunks, m, db.manifests[m]);
    }
  }

  /** Parts whose removal no file and no version can notice. */
  ghost predicate Expendable(db: Db, part: Part) {
    match part
    case Object(c) => c !in db.chunks || !Used(db.manifestChunks, db.uploadChunks, c)
    case Manifest(m) => m !in db.manifests || !Kept(db.files, db.versions, db.uploads, m)
    case Key(id) =>
      && (id !in db.chunks || !Used(db.manifestChunks, db.uploadChunks, id))
      && (id !in db.manifests || !Kept(db.files, db.versions, db.uploads, id))
  }

  lemma SweptFilesExpendable(db: Db)
    requires db.manifests.Keys !! db.chunks.Keys
    ensures forall m :: m in db.manifests && !Kept(db.files, db.versions, db.uploads, m) ==>
      Expendable(db, Manifest(m)) && Expendable(db, Key(m))
    ensures forall c :: c in db.chunks && !Used(db.manifestChunks, db.uploadChunks, c) ==>
      Expendable(db, Object(c)) && Expendable(db, Key(c))
  {
    hide Kept, Used;
  }

  lemma BackedWithout(db: Db, held: Held, lost: set<Part>, m: Id, part: Part)
    requires TablesInv(db) && m in db.manifests && Kept(db.files, db.versions, db.uploads, m)
    requires Backed(db.manifestChunks, held, lost, m) && Expendable(db, part)
    ensures Backed(db.manifestChunks, Without(held, part), lost, m)
  {
    hide WellLaid, OneReference, ChunksGood, PinsGood, RefsHaveRows, AllLaid;
    forall s | s in db.manifestChunks && s.owner == m
      ensures db.manifestChunks[s].chunk in db.chunks && Used(db.manifestChunks, db.uploadChunks, db.manifestChunks[s].chunk)
    {
      SlotChunkKnown(db, s);
    }
  }

  lemma AuthenticLess(db: Db, held: Held, held': Held, gateway: Gateway)
    requires AuthenticChunks(db.chunks, held, gateway)
    requires AuthenticManifests(db.manifests, db.manifestChunks, held, gateway)
    requires forall p :: p in held' && (p.id in db.chunks || p.id in db.manifests) ==>
      p in held && held'[p] == held[p]
    ensures AuthenticChunks(db.chunks, held', gateway)
    ensures AuthenticManifests(db.manifests, db.manifestChunks, held', gateway)
  {
  }

  lemma RemoteDeleteKeeps(db: Db, held: Held, lost: set<Part>, gateway: Gateway, part: Part)
    requires VaultInv(db, held, lost, gateway) && Expendable(db, part)
    ensures VaultInv(db, Without(held, part), lost, gateway)
  {
    forall p | p in db.files
      ensures Backed(db.manifestChunks, Without(held, part), lost, db.files[p].manifest)
    {
      BackedWithout(db, held, lost, db.files[p].manifest, part);
    }
    forall k | k in db.versions
      ensures Backed(db.manifestChunks, Without(held, part), lost, db.versions[k].manifest)
    {
      BackedWithout(db, held, lost, db.versions[k].manifest, part);
    }
    AuthenticLess(db, held, Without(held, part), gateway);
  }

  lemma BackedMore(files: Files, versions: Versions, rows: SlotTable, held: Held, lost: set<Part>,
                   held': Held, lost': set<Part>)
    requires AllBacked(files, versions, rows, held, lost)
    requires held.Keys + lost <= held'.Keys + lost'
    ensures AllBacked(files, versions, rows, held', lost')
  {
    forall m | Backed(rows, held, lost, m)
      ensures Backed(rows, held', lost', m)
    {
      assert forall part :: Has(held, lost, part) ==> part in held.Keys + lost;
      assert forall part :: part in held'.Keys + lost' ==> Has(held', lost', part);
    }
  }

  /** Storing under an id without rows changes nothing for the rows there are. */
  lemma RemotePutKeeps(db: Db, held: Held, lost: set<Part>, gateway: Gateway, part: Part, stored: Stored)
    requires VaultInv(db, held, lost, gateway)
    requires part.id !in db.chunks && part.id !in db.manifests
    ensures VaultInv(db, held[part := stored], lost, gateway)
  {
    BackedMore(db.files, db.versions, db.manifestChunks, held, lost, held[part := stored], lost);
    AuthenticLess(db, held, held[part := stored], gateway);
  }

  /** Losing parts from outside only moves them to the lost. */
  lemma OutsideLossKeeps(db: Db, held: Held, lost: set<Part>, gateway: Gateway, gone: set<Part>)
    requires VaultInv(db, held, lost, gateway)
    ensures VaultInv(db, held - gone, lost + gone * held.Keys, gateway)
  {
    BackedMore(db.files, db.versions, db.manifestChunks, held, lost, held - gone, lost + gone * held.Keys);
    AuthenticLess(db, held, held - gone, gateway);
  }
}
