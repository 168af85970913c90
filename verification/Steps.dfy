/** What the operations of the gateway do to the tables and the vault, as relations, and the
    lemmas each operation is proved with. */
module Steps {
  import opened Tables
  import opened Layout
  import opened Capsules
  import opened Vault
  import opened Remote
  import opened Paths
  import opened History
  import opened Tree
  import opened Renames
  import opened Observations
  import opened Retention

  /** The tables that say which file is where, and what its history is, are untouched. */
  ghost predicate SameNames(before: Db, after: Db) {
    && after.files == before.files && after.versions == before.versions && after.deleted == before.deleted
    && after.directories == before.directories && after.missing == before.missing && after.lastGc == before.lastGc
  }

  /** A new version of `path` is current, the one it replaces is history, the rest is as before. */
  ghost predicate Committed(before: Db, after: Db, path: Path, version: nat, content: Bytes, u: Id) {
    && path in after.files
    && var row := after.files[path];
    && row.version == version
    && row.manifest !in before.manifests && row.manifest in after.manifests
    && Plain(after.manifests[row.manifest]) == content && after.manifests[row.manifest].size == |content|
    && after.files == before.files[path := row]
    && after.versions == ArchivedAs(before.files, before.versions, path, row.modified)
    && after.deleted == Without(before.deleted, path)
    && after.directories == before.directories && after.missing == before.missing && after.lastGc == before.lastGc
    && u in after.uploads && after.uploads[u].status == ACTIVE
    && (forall s :: s in after.uploadChunks ==> s.owner != u)
  }

  /** `_exists`. */
  predicate Exists(db: Db, path: Path) {
    DirectoryExists(db.directories, path) || path in db.files
  }

  /** A file may be put here: the parent is a directory, the path itself is not. */
  predicate MayHold(db: Db, path: Path) {
    path != "/" && path != "" && DirectoryExists(db.directories, Parent(path)) && !DirectoryExists(db.directories, path)
  }

  /** What `delete` may take away: a file, or a directory with nothing below it. */
  ghost predicate Deletable(db: Db, path: Path, directory: bool) {
    if directory then
      && path != "/" && path in db.directories
      && forall p :: p in db.directories || p in db.files ==> !Selects(path + "/", p)
    else path in db.files
  }

  /** What deleting a file does: it is the newest history of its path, under a tombstone. */
  ghost predicate FileDeleted(before: Db, after: Db, path: Path, archived: Time, deleted: Time) {
    && path in before.files
    && var row := before.files[path];
    after == before.(files := before.files - {path},
                     versions := before.versions[VersionKey(path, row.version) :=
                                                   VersionRow(row.manifest, row.modified, archived)],
                     deleted := before.deleted[path := deleted])
  }

  lemma DeleteFileIs(db: Db, path: Path, archived: Time, deleted: Time)
    requires path in db.files
    ensures FileDeleted(db, DeleteFile(db, path, archived, deleted), path, archived, deleted)
  {
    assert DeleteFile(db, path, archived, deleted).files == db.files - {path};
  }

  /** The key file opens for this gateway with the data key the object is sealed under. */
  ghost predicate Openable(held: Held, gateway: Gateway, part: Part) {
    && part in held && Key(part.id) in held
    && held[Key(part.id)].content.KeyFile? && held[part].content.Sealed?
    && Unwrap(held[Key(part.id)].content.capsule, part.id, gateway) == Some(held[part].content.dek)
  }

  /** Nobody outside removed an object or key of this manifest. */
  ghost predicate NoneLost(db: Db, lost: set<Part>, m: Id) {
    && Manifest(m) !in lost && Key(m) !in lost
    && forall s :: s in db.manifestChunks && s.owner == m ==>
         Object(db.manifestChunks[s].chunk) !in lost && Key(db.manifestChunks[s].chunk) !in lost
  }

  /** The checks of `download` on a decrypted chunk. */
  predicate VerifiedChunk(chunks: ChunkTable, row: ManifestChunkRow, payload: Payload) {
    && row.chunk in chunks
    && payload.ChunkPayload? && payload.id == row.chunk && |payload.content| == row.plainSize
    && Sha256(payload.content) == chunks[row.chunk].sha256
    && Sha512(payload.content) == chunks[row.chunk].sha512
  }

  /** A line of a listing. */
  datatype Entry = Entry(isDir: bool, size: nat, modified: Time)

  function FileEntry(db: Db, p: Path): Entry
    requires RefsHaveRows(db.files, db.versions, db.manifests) && p in db.files
  {
    Entry(false, db.manifests[db.files[p].manifest].size, db.files[p].modified)
  }

  /** The entry of a file shows how many bytes the path holds, and when they were written. */
  lemma FileEntryTells(db: Db, p: Path)
    requires TablesInv(db) && p in db.files
    ensures RefsHaveRows(db.files, db.versions, db.manifests)
    ensures p in View(db) && FileEntry(db, p) == Entry(false, |View(db)[p]|, db.files[p].modified)
  {
    hide TablesInv;
    TablesGood(db);
    LiveLayout(db, p);
  }

  /** The query picks `p`, and what is left of it after the prefix is a name. */
  predicate ListedAs(prefix: string, p: Path, name: string) {
    Selects(prefix, p) && ListedName(prefix, p) && Rest(p, |prefix|) == name
  }

  predicate ListedDirectory(db: Db, prefix: string, name: string) {
    exists p :: p in db.directories && ListedAs(prefix, p, name)
  }

  predicate ListedFile(db: Db, prefix: string, name: string) {
    exists p :: p in db.files && ListedAs(prefix, p, name)
  }

  /** The entries of `dir` are the last components of its children: a directory for a
      directory, a file with its size and time for a file. */
  ghost predicate ShowsChildren(db: Db, dir: Path, entries: map<string, Entry>) {
    && RefsHaveRows(db.files, db.versions, db.manifests)
    && (forall p :: p in db.directories && Parent(p) == dir ==>
          Rest(p, |Prefix(dir)|) in entries && entries[Rest(p, |Prefix(dir)|)] == Entry(true, 0, 0))
    && (forall p :: p in db.files && Parent(p) == dir ==>
          Rest(p, |Prefix(dir)|) in entries && entries[Rest(p, |Prefix(dir)|)] == FileEntry(db, p))
    && (forall name :: name in entries ==>
          var p := Prefix(dir) + name; (p in db.directories || p in db.files) && Parent(p) == dir)
  }

  /** A manifest with its row, and every part of it among the files seen. */
  predicate Whole(db: Db, seen: set<Part>, m: Id) {
    && m in db.manifests && Manifest(m) in seen && Key(m) in seen
    && var chunks := ChunkList(db.manifestChunks, m, 0);
       forall i :: 0 <= i < |chunks| ==> Object(chunks[i].chunk) in seen && Key(chunks[i].chunk) in seen
  }

  /** The scan settles exactly the paths it found missing at the end of a streak of at least
      `observations` scans that began at `before` or earlier. */
  ghost predicate Settles(scan: Scan, scans: seq<Scan>, observations: nat, before: Time) {
    var seen := scans + [Scan(scan.found, {}, scan.at)];
    forall p :: p in scan.confirmed <==>
      p in scan.found && Streak(seen, p) >= observations && Streak(seen, p) > 0 && StreakStart(seen, p) <= before
  }

  /** The live paths with a part that is not among the files seen. */
  function Incomplete(db: Db, seen: set<Part>): set<Path> {
    set p | p in db.files && !Whole(db, seen, db.files[p].manifest)
  }

  /** A scan is completed only when the interval since the last completed one has passed; and when
      `sure`, with no call failed and no stop, it is completed whenever the interval has passed, and the
      next one is due an interval after it. */
  ghost predicate ScannedWhenDue(lastReconcile0: Time, scans0: seq<Scan>, clock: Time, lastReconcile: Time,
                                 scans: seq<Scan>, sure: bool, interval: nat) {
    && (scans != scans0 ==> scans != [] && scans[|scans| - 1].at == clock >= lastReconcile0 + interval)
    && (sure ==>
          && (scans != scans0 <==> clock - lastReconcile0 >= interval)
          && lastReconcile == if scans != scans0 then clock else lastReconcile0)
  }

  /** What looking for missing files did: nothing, or one more scan. The scan gave up exactly the paths
      it settles, which then are history, and touched no other name; when `clean`, with no call failed,
      it found exactly the paths that had a part missing, which are none unless files were removed
      from outside. */
  ghost predicate Scanned(before: Db, clock0: Time, scans0: seq<Scan>, after: Db, clock: Time, scans: seq<Scan>,
                          clean: bool, held: Held, lost: set<Part>, observations: nat, grace: nat) {
    if scans == scans0 then after == before
    else
      && |scans| == |scans0| + 1 && scans[..|scans0|] == scans0
      && var scan := scans[|scans0|];
      && clock0 < scan.at <= clock && scan.confirmed <= scan.found <= before.files.Keys
      && Tombstoned(before, after.(missing := before.missing), scan.confirmed, scan.at)
      && (clean ==> scan.found == Incomplete(before, held.Keys) && (lost == {} ==> scan.found == {}))
      && (Counted(before.missing, scans0) ==> Settles(scan, scans0, observations, scan.at - grace))
  }

  /** Up to the collection of what nothing needs any more. */
  ghost predicate SameButCollected(before: Db, after: Db) {
    && after == before.(manifests := after.manifests, manifestChunks := after.manifestChunks, chunks := after.chunks)
    && Collected(before, after, false)
  }

  /** The tables `rename` works on: a tombstone at the destination, and the history of what was
      deleted there, may be gone. */
  ghost predicate DestinationCleared(before: Db, after: Db, destination: Path) {
    if destination in before.deleted && !Exists(before, destination)
    then after == before || SameButCollected(PurgePath(before, destination), after)
    else after == before
  }

  /** The same when nothing stopped it. */
  ghost predicate WhollyCleared(before: Db, after: Db, destination: Path) {
    if destination in before.deleted then SameButCollected(PurgePath(before, destination), after) else after == before
  }

  /** A rename that is refused with this error has gone past the two tests of the destination and has
      cleared it of a tombstone before it looked for its source. */
  predicate Forgets(db: Db, destination: Path, error: Error) {
    && destination in db.deleted && error in {NotFound, IntegrityError}
    && !Exists(db, destination) && DirectoryExists(db.directories, Parent(destination))
  }

  /** What a directory rename did: the selected rows moved, each with its history. */
  ghost predicate DirectoryRenamed(before: Db, after: Db, source: Path, destination: Path) {
    && after == before.(files := after.files, versions := after.versions, directories := after.directories)
    && FilesMoved(source, destination, Selected(source, before.files.Keys), before.files, after.files)
    && VersionsMoved(source, destination, Selected(source, before.files.Keys), before.versions, after.versions)
    && DirectoriesMoved(source, destination, SelectedDirectories(source, before.directories), before.directories,
                        after.directories)
  }

  /** Nothing but the files of object `id` differs. */
  ghost predicate OnlyFilesOf(id: Id, before: Held, after: Held) {
    forall p: Part :: p.id != id ==> (p in before <==> p in after) && (p in before ==> after[p] == before[p])
  }

  /** The files that are new have ids drawn from `n` on. */
  ghost predicate NewFilesFrom(n: Id, before: Held, after: Held) {
    forall p :: p in after && p !in before ==> p.id >= n
  }

  lemma NewFilesMore(n: Id, before: Held, middle: Held, after: Held, n': Id)
    requires NewFilesFrom(n, before, middle) && NewFilesFrom(n', middle, after) && n <= n'
    ensures NewFilesFrom(n, before, after)
  {
  }

  lemma NewFilesEarlier(n: Id, n': Id, before: Held, after: Held)
    requires NewFilesFrom(n', before, after) && n <= n'
    ensures NewFilesFrom(n, before, after)
  {
  }

  lemma NewFilesOf(n: Id, id: Id, before: Held, after: Held)
    requires OnlyFilesOf(id, before, after) && n <= id
    ensures NewFilesFrom(n, before, after)
  {
  }

  /** The chunk list of `m` has no chunk that was there before without its object or its key. */
  ghost predicate NoStaleChunk(before: Db, held: Held, after: Db, m: Id) {
    forall i :: 0 <= i < |ChunkList(after.manifestChunks, m, 0)| ==>
      var c := ChunkList(after.manifestChunks, m, 0)[i].chunk;
      c in before.chunks ==> Object(c) in held && Key(c) in held
  }

  /** A row whose files a broken sweep has taken away is never part of what is committed: nothing
      puts the files of an old row back, and the commit saw all of its own. */
  lemma StaleNeverCommits(before: Db, held: Held, after: Db, held': Held, nextId: Id, m: Id)
    requires FreshFrom(before, nextId) && NewFilesFrom(nextId, held, held') && Whole(after, held'.Keys, m)
    ensures NoStaleChunk(before, held, after, m)
  {
  }

  // ---- What an upload leaves alone ------------------------------------------------------

  /** Every other upload has its row and its pins as before, and there is none besides. */
  ghost predicate OtherUploads(before: Db, after: Db, u: Id) {
    && (forall v :: v != u ==> (v in after.uploads <==> v in before.uploads))
    && (forall v :: v != u && v in before.uploads ==> after.uploads[v] == before.uploads[v])
    && (forall s: Slot :: s.owner != u ==> (s in after.uploadChunks <==> s in before.uploadChunks))
    && (forall s: Slot :: s.owner != u && s in before.uploadChunks ==> after.uploadChunks[s] == before.uploadChunks[s])
  }

  /** Until it collects, an upload also leaves alone every row of a manifest, list or chunk that was
      there. */
  ghost predicate Beside(before: Db, after: Db, u: Id) {
    && OtherUploads(before, after, u)
    && Extends(before.manifests, after.manifests) && Extends(before.chunks, after.chunks)
    && (forall s: Slot :: s.owner in before.manifests ==> (s in after.manifestChunks <==> s in before.manifestChunks))
    && (forall s: Slot :: s.owner in before.manifests && s in before.manifestChunks ==>
          after.manifestChunks[s] == before.manifestChunks[s])
  }

  lemma BesideMore(before: Db, middle: Db, after: Db, u: Id)
    requires Beside(before, middle, u) && Beside(middle, after, u)
    ensures Beside(before, after, u)
  {
  }

  lemma BesideChunks(before: Db, after: Db, u: Id)
    requires after == before.(chunks := after.chunks) && Extends(before.chunks, after.chunks)
    ensures Beside(before, after, u)
  {
  }

  lemma BesidePin(before: Db, db: Db, u: Id, position: nat, c: Id)
    requires Beside(before, db, u)
    ensures Beside(before, PinChunk(db, u, position, c), u)
  {
  }

  lemma BesideManifest(db: Db, m: Id, row: ManifestRow, list: seq<ManifestChunkRow>, u: Id)
    requires m !in db.manifests
    ensures Beside(db, InsertManifest(db, m, row, list, u), u)
  {
  }

  lemma BesideCommit(db: Db, path: Path, previous: Option<FileRow>, current: FileRow, u: Id)
    ensures Beside(db, CommitVersion(db, path, previous, current, current.modified, u), u)
  {
  }

  lemma BesideStatus(db: Db, u: Id, status: Status, manifest: Option<Id>)
    ensures Beside(db, SetStatus(db, u, status, manifest), u)
  {
  }

  lemma BesideUnpin(db: Db, u: Id)
    ensures Beside(db, Unpin(db, u), u)
  {
  }

  lemma BesideBegin(db: Db, u: Id, row: UploadRow)
    ensures Beside(db, InsertUpload(db, u, row), u)
  {
  }

  lemma BesideOthers(before: Db, after: Db, u: Id)
    requires Beside(before, after, u)
    ensures OtherUploads(before, after, u)
  {
  }

  lemma OthersCollected(before: Db, middle: Db, after: Db, u: Id)
    requires OtherUploads(before, middle, u)
    requires after.uploads == middle.uploads && after.uploadChunks == middle.uploadChunks
    ensures OtherUploads(before, after, u)
  {
  }

  lemma OthersExtend(before: Db, after: Db, u: Id)
    requires OtherUploads(before, after, u) && u !in before.uploads
    ensures Extends(before.uploads, after.uploads)
  {
  }

  /** What storing pieces leaves alone: other uploads, old rows, and old files; and when every chunk row
      had its files, every one still has. */
  ghost predicate StoredBeside(before: Db, held: Held, n: Id, after: Db, held': Held, n': Id, u: Id) {
    && n <= n' && NewFilesFrom(n, held, held') && Beside(before, after, u)
    && (AllThere(before.chunks, held) ==> AllThere(after.chunks, held'))
  }

  lemma StoredBesideIs(before: Db, held: Held, n: Id, after: Db, held': Held, n': Id, u: Id)
    ensures StoredBeside(before, held, n, after, held', n', u) <==>
      && n <= n' && NewFilesFrom(n, held, held') && Beside(before, after, u)
      && (AllThere(before.chunks, held) ==> AllThere(after.chunks, held'))
  {
  }

  lemma StoredMore(before: Db, held: Held, n: Id, db: Db, held': Held, n': Id, after: Db, held'': Held, n'': Id, u: Id)
    requires StoredBeside(before, held, n, db, held', n', u) && StoredBeside(db, held', n', after, held'', n'', u)
    ensures StoredBeside(before, held, n, after, held'', n'', u)
  {
    hide NewFilesFrom, Beside, AllThere;
    NewFilesMore(n, held, held', held'', n');
    BesideMore(before, db, after, u);
  }

  lemma StoredNothing(db: Db, held: Held, n: Id, u: Id)
    ensures StoredBeside(db, held, n, db, held, n, u)
  {
  }

  lemma NonePinned(pins: map<Slot, Id>, u: Id)
    ensures Pinned(pins, u, [])
  {
  }

  lemma ExtendsItself<K(!new), V>(a: map<K, V>)
    ensures Extends(a, a)
  {
  }

  lemma ExtendsMore<K(!new), V>(a: map<K, V>, b: map<K, V>, c: map<K, V>)
    requires Extends(a, b) && Extends(b, c)
    ensures Extends(a, c)
  {
  }

  /** The rows left are exactly the manifests that were kept before and the chunks that could be
      reached before. */
  ghost predicate OnlyNeeded(before: Db, after: Db) {
    && (forall m :: m in after.manifests <==>
          m in before.manifests && Kept(before.files, before.versions, before.uploads, m))
    && (forall c :: c in after.chunks <==> c in before.chunks && Reachable(before, c))
  }

  /** After a failed upload whose own sweep met no failure, nothing is left that was not needed before
      it: neither what the upload stored, nor a chunk row that an earlier sweep left behind, unless
      another manifest or another upload holds on to it. */
  lemma FailureLeavesNeeded(before: Db, failed: Db, after: Db, u: Id)
    requires TablesInv(before) && TablesInv(failed) && SameNames(before, failed) && Beside(before, failed, u)
    requires u !in before.uploads && u in failed.uploads && failed.uploads[u].status == FAILED
    requires forall s :: s in failed.uploadChunks ==> s.owner != u
    requires SameButCollected(failed, after) && Collected(failed, after, true)
    ensures OnlyNeeded(before, after)
  {
    hide TablesInv, SameNames, Beside, SameButCollected, Collected, Kept, Reachable, Extends;
    SameButCollectedFields(failed, after);
    CollectionIsExact(failed, after);
    forall m
      ensures m in failed.manifests && Kept(failed.files, failed.versions, failed.uploads, m) <==>
              m in before.manifests && Kept(before.files, before.versions, before.uploads, m)
    {
      KeptAsBefore(before, failed, u, m);
    }
    forall c
      ensures c in failed.chunks && Reachable(failed, c) <==> c in before.chunks && Reachable(before, c)
    {
      ReachableAsBefore(before, failed, u, c);
    }
  }

  lemma SameButCollectedFields(before: Db, after: Db)
    requires SameButCollected(before, after)
    ensures after ==
      before.(manifests := after.manifests, manifestChunks := after.manifestChunks, chunks := after.chunks)
  {
  }

  lemma KeptAsBefore(before: Db, failed: Db, u: Id, m: Id)
    requires TablesInv(before) && SameNames(before, failed) && Beside(before, failed, u)
    requires u !in before.uploads && u in failed.uploads && failed.uploads[u].status == FAILED
    ensures Kept(failed.files, failed.versions, failed.uploads, m) ==>
      m in before.manifests && m in failed.manifests
    ensures Kept(failed.files, failed.versions, failed.uploads, m) <==>
            Kept(before.files, before.versions, before.uploads, m)
  {
    hide AllLaid, ChunksGood, OneReference;
    if InFlight(before.uploads, m) {
      var v :| v in before.uploads && before.uploads[v].manifest == Some(m) && before.uploads[v].status.InFlight();
      assert v in failed.uploads && failed.uploads[v] == before.uploads[v];
    }
    if InFlight(failed.uploads, m) {
      var v :| v in failed.uploads && failed.uploads[v].manifest == Some(m) && failed.uploads[v].status.InFlight();
      assert v in before.uploads && failed.uploads[v] == before.uploads[v];
    }
  }

  lemma ReachableAsBefore(before: Db, failed: Db, u: Id, c: Id)
    requires TablesInv(before) && SameNames(before, failed) && Beside(before, failed, u)
    requires u !in before.uploads && u in failed.uploads && failed.uploads[u].status == FAILED
    requires forall s :: s in failed.uploadChunks ==> s.owner != u
    ensures c in failed.chunks && Reachable(failed, c) <==> c in before.chunks && Reachable(before, c)
  {
    hide WellLaid, ChunksGood, OneReference, Kept, SameNames, RefsHaveRows;
    if Reachable(failed, c) {
      if s :| s in failed.manifestChunks && failed.manifestChunks[s].chunk == c &&
              Kept(failed.files, failed.versions, failed.uploads, s.owner) {
        KeptAsBefore(before, failed, u, s.owner);
        assert s in before.manifestChunks && before.manifestChunks[s].chunk == c;
        SlotChunkKnown(before, s);
      } else {
        var s :| s in failed.uploadChunks && failed.uploadChunks[s] == c;
        assert s in before.uploadChunks && before.uploadChunks[s] == c;
      }
    }
    if c in before.chunks && Reachable(before, c) {
      if s :| s in before.manifestChunks && before.manifestChunks[s].chunk == c &&
              Kept(before.files, before.versions, before.uploads, s.owner) {
        KeptAsBefore(before, failed, u, s.owner);
        assert s in failed.manifestChunks && failed.manifestChunks[s].chunk == c;
      } else {
        var s :| s in before.uploadChunks && before.uploadChunks[s] == c;
        assert s.owner in before.uploads;
        assert s in failed.uploadChunks && failed.uploadChunks[s] == c;
      }
    }
  }

  // ---- What an upload needs to find -----------------------------------------------------

  /** Every chunk row has its object and its key in the vault: none is stale, none was lost. */
  ghost predicate AllThere(chunks: ChunkTable, held: Held) {
    forall c :: c in chunks ==> Object(c) in held && Key(c) in held
  }

  lemma ThereBeside(chunks: ChunkTable, held: Held, held': Held, id: Id)
    requires OnlyFilesOf(id, held, held') && id !in chunks
    ensures AllThere(chunks, held) ==> AllThere(chunks, held')
  {
  }

  lemma ThereMore(chunks: ChunkTable, held: Held, c: Id, row: ChunkRow)
    requires Object(c) in held && Key(c) in held
    ensures AllThere(chunks, held) ==> AllThere(chunks[c := row], held)
  {
  }

  lemma ThereListed(chunks: ChunkTable, held: Held, list: seq<ManifestChunkRow>)
    requires AllThere(chunks, held) && Known(chunks, list)
    ensures forall i :: 0 <= i < |list| ==> Object(list[i].chunk) in held && Key(list[i].chunk) in held
  {
  }

  lemma MayHoldIs(db: Db, path: Path)
    requires Normal(path)
    ensures MayHold(db, path) <==>
      path != "/" && DirectoryExists(db.directories, Parent(path)) && !DirectoryExists(db.directories, path)
  {
  }

  /** Rows are only added. */
  ghost predicate Extends<K(!new), V>(before: map<K, V>, after: map<K, V>) {
    forall k :: k in before ==> k in after && after[k] == before[k]
  }

  /** Every chunk of the list is pinned to the upload, at its place. */
  ghost predicate Pinned(pins: map<Slot, Id>, u: Id, list: seq<ManifestChunkRow>) {
    forall k :: 0 <= k < |list| ==> Slot(u, k) in pins && pins[Slot(u, k)] == list[k].chunk
  }

  /** The row of `part`'s object, if any: what `_remove_unknown_remote_objects` calls known. */
  predicate KnownPart(db: Db, part: Part) {
    match part
    case Object(id) => id in db.chunks
    case Manifest(id) => id in db.manifests
    case Key(id) => id in db.chunks || id in db.manifests
  }

  /** No file of the vault that has a time, and was there at `cutoff`, is without its row. */
  ghost predicate NoOrphans(db: Db, held: Held, cutoff: Time) {
    forall p :: p in held && 0 < held[p].modified <= cutoff ==>
      match p
      case Object(id) => id in db.chunks
      case Manifest(id) => id in db.manifests
      case Key(id) => id in db.chunks || id in db.manifests
  }

  /** What a collection does to the rows: only what nothing needs goes, with its files; when
      `clean`, all of it goes. */
  ghost predicate Collected(before: Db, after: Db, clean: bool) {
    && Trimmed(before.manifests, before.manifestChunks, after.manifests, after.manifestChunks)
    && Subtable(after.chunks, before.chunks)
    && (forall m :: m in before.manifests && Kept(before.files, before.versions, before.uploads, m) ==>
          m in after.manifests)
    && (forall c :: c in before.chunks && Reachable(before, c) ==> c in after.chunks)
    && (clean ==> Swept(after))
  }

  /** One pass over the manifests and then one over the chunks is enough: a chunk only an
      uncollected manifest needed is free by the second pass, a reachable one never is. */
  lemma CollectedInTwoPasses(before: Db, middle: Db, after: Db, clean: bool)
    requires AllLaid(before.manifests, before.manifestChunks, before.chunks)
    requires middle == before.(manifests := middle.manifests, manifestChunks := middle.manifestChunks)
    requires after == middle.(chunks := after.chunks)
    requires Trimmed(before.manifests, before.manifestChunks, middle.manifests, middle.manifestChunks)
    requires Subtable(after.chunks, middle.chunks)
    requires forall m :: m in before.manifests && m !in middle.manifests ==>
      !Kept(before.files, before.versions, before.uploads, m)
    requires forall c :: c in middle.chunks && c !in after.chunks ==>
      !Used(middle.manifestChunks, middle.uploadChunks, c)
    requires clean ==> forall m :: m in middle.manifests ==> Kept(before.files, before.versions, before.uploads, m)
    requires clean ==> forall c :: c in after.chunks ==> Used(middle.manifestChunks, middle.uploadChunks, c)
    ensures Collected(before, after, clean)
  {
    hide WellLaid, Kept;
    forall c | c in before.chunks && Reachable(before, c)
      ensures Used(middle.manifestChunks, middle.uploadChunks, c)
    {
      if s :| s in before.manifestChunks && before.manifestChunks[s].chunk == c &&
              Kept(before.files, before.versions, before.uploads, s.owner) {
        assert s in middle.manifestChunks && middle.manifestChunks[s].chunk == c;
      }
    }
  }

  lemma DropChunkFresh(db: Db, nextId: Id, c: Id)
    requires FreshFrom(db, nextId)
    ensures FreshFrom(DropChunk(db, c), nextId)
  {
  }

  ghost predicate SweepingChunks(before: Db, db: Db, todo: set<Id>, held: Held, clean: bool) {
    && db == before.(chunks := db.chunks) && Subtable(db.chunks, before.chunks)
    && (forall c :: c in todo ==> c in db.chunks && !Used(db.manifestChunks, db.uploadChunks, c))
    && (clean ==> forall c :: c in db.chunks ==> c in todo || Used(db.manifestChunks, db.uploadChunks, c))
    && (forall c :: c in before.chunks && c !in db.chunks ==>
          !Used(db.manifestChunks, db.uploadChunks, c) && Object(c) !in held && Key(c) !in held)
  }

  lemma SweepChunkRound(before: Db, db: Db, db': Db, todo: set<Id>, held: Held, held': Held, clean: bool, c: Id)
    requires SweepingChunks(before, db, todo, held, clean) && c in todo
    requires held'.Keys <= held.Keys
    requires (db' == db && !clean) || (db' == DropChunk(db, c) && Object(c) !in held' && Key(c) !in held')
    ensures SweepingChunks(before, db', todo - {c}, held', clean)
  {
    hide Used;
  }

  lemma UnknownExpendable(db: Db, part: Part)
    requires !KnownPart(db, part)
    ensures Expendable(db, part)
  {
  }

  lemma NothingSpelled(chunks: ChunkTable)
    ensures Known(chunks, []) && Spelled(chunks, []) == []
  {
  }

  lemma ChunkListGrows(before: ChunkTable, chunks: ChunkTable, list: seq<ManifestChunkRow>, row: ManifestChunkRow,
                       content: Bytes)
    requires Known(before, list) && Extends(before, chunks) && ChunksGood(chunks)
    requires row.chunk in chunks && chunks[row.chunk].sha256 == Sha256(content) && row.plainSize == |content|
    ensures Known(chunks, list) && Known(chunks, list + [row])
    ensures Spelled(chunks, list + [row]) == Spelled(before, list) + content
  {
    assert GoodChunk(chunks[row.chunk]);
    SpelledFrame(before, chunks, list);
    SpelledSnoc(chunks, list, row);
  }

  lemma PinChunkKeeps(db: Db, held: Held, lost: set<Part>, gateway: Gateway, u: Id, position: nat, c: Id)
    requires VaultInv(db, held, lost, gateway) && u in db.uploads && c in db.chunks
    ensures VaultInv(PinChunk(db, u, position, c), held, lost, gateway)
    ensures View(PinChunk(db, u, position, c)) == View(db)
    ensures forall n :: FreshFrom(db, n) ==> FreshFrom(PinChunk(db, u, position, c), n)
  {
    hide AllLaid, AllBacked, AuthenticChunks, AuthenticManifests, ChunksGood, OneReference, RefsHaveRows;
  }

  lemma PinnedMore(pins: map<Slot, Id>, u: Id, list: seq<ManifestChunkRow>, row: ManifestChunkRow)
    requires Pinned(pins, u, list)
    ensures Pinned(pins[Slot(u, |list|) := row.chunk], u, list + [row])
  {
  }

  lemma FreshUnnamed(db: Db, m: Id, row: ManifestRow, list: seq<ManifestChunkRow>, u: Id)
    requires RefsHaveRows(db.files, db.versions, db.manifests) && AllLaid(db.manifests, db.manifestChunks, db.chunks)
    requires m !in db.manifests
    ensures !InFiles(db.files, m) && !InVersions(db.versions, m)
    ensures var db' := InsertManifest(db, m, row, list, u);
      && RunAt(db'.manifestChunks, m, 0, list)
      && (forall s :: s in db'.manifestChunks && s.owner == m ==> s.position < |list|)
      && m in db'.manifests && db'.manifests[m] == row && db'.files == db.files && db'.versions == db.versions
  {
    hide WellLaid;
    InsertedList(db.manifestChunks, m, list);
  }

  lemma InsertManifestFresh(db: Db, nextId: Id, m: Id, row: ManifestRow, list: seq<ManifestChunkRow>, u: Id)
    requires FreshFrom(db, nextId) && m < nextId
    ensures FreshFrom(InsertManifest(db, m, row, list, u), nextId)
  {
  }

  lemma CommitVersionFresh(db: Db, nextId: Id, path: Path, previous: Option<FileRow>, current: FileRow, now: Time, u: Id)
    requires FreshFrom(db, nextId)
    ensures FreshFrom(CommitVersion(db, path, previous, current, now, u), nextId)
  {
  }

  lemma ApplyWrote(ns: Namespace, path: Path, content: Bytes)
    ensures Apply(ns, Wrote(path, content)) == ns[path := content]
  {
  }

  lemma BackedByList(rows: SlotTable, held: Held, lost: set<Part>, m: Id, list: seq<ManifestChunkRow>)
    requires RunAt(rows, m, 0, list)
    requires forall s :: s in rows && s.owner == m ==> s.position < |list|
    requires Manifest(m) in held && Key(m) in held
    requires forall i :: 0 <= i < |list| ==> Object(list[i].chunk) in held && Key(list[i].chunk) in held
    ensures Backed(rows, held, lost, m)
  {
    forall s | s in rows && s.owner == m
      ensures Has(held, lost, Object(rows[s].chunk)) && Has(held, lost, Key(rows[s].chunk))
    {
      assert s == Slot(m, s.position) && rows[s] == list[s.position];
    }
  }

  lemma CommitWhole(db: Db, path: Path, previous: Option<FileRow>, current: FileRow, u: Id, seen: set<Part>)
    ensures Whole(db, seen, current.manifest) ==>
      Whole(CommitVersion(db, path, previous, current, current.modified, u), seen, current.manifest)
  {
  }

  lemma InsertManifestNames(db: Db, m: Id, row: ManifestRow, list: seq<ManifestChunkRow>, u: Id)
    ensures SameNames(db, InsertManifest(db, m, row, list, u))
    ensures u in db.uploads ==>
      var db' := InsertManifest(db, m, row, list, u);
      u in db'.uploads && db'.uploads[u] == db.uploads[u].(status := VERIFYING, manifest := Some(m))
  {
  }

  lemma CommittedAfter(before: Db, published: Db, path: Path, previous: Option<FileRow>, current: FileRow, u: Id,
                       full: Bytes)
    requires SameNames(before, published) && u in published.uploads && previous == CurrentRow(before, path)
    requires current.manifest !in before.manifests && current.manifest in published.manifests
    requires Plain(published.manifests[current.manifest]) == full
    requires published.manifests[current.manifest].size == |full|
    ensures Committed(before, CommitVersion(published, path, previous, current, current.modified, u), path,
                      current.version, full, u)
  {
    var after := CommitVersion(published, path, previous, current, current.modified, u);
    assert after.files == before.files[path := current];
  }

  /** Comparing the size and both digests of the current version decides whether the path holds just
      these bytes. */
  lemma UnchangedView(db: Db, path: Path, full: Bytes)
    requires TablesInv(db)
    ensures path in View(db) && View(db)[path] == full <==>
      && path in db.files
      && var m := db.files[path].manifest;
      && m in db.manifests && db.manifests[m].size == |full|
      && db.manifests[m].sha256 == Sha256(full) && db.manifests[m].sha512 == Sha512(full)
  {
    hide TablesInv;
    if path in db.files {
      LiveLayout(db, path);
    }
  }

  lemma FreshIds(db: Db, nextId: Id)
    requires FreshFrom(db, nextId)
    ensures nextId !in db.manifests && nextId !in db.chunks && nextId !in db.uploads
    ensures FreshFrom(db, nextId + 1)
  {
  }

  lemma StatusKeeps(db: Db, held: Held, lost: set<Part>, gateway: Gateway, u: Id, status: Status, manifest: Option<Id>)
    requires VaultInv(db, held, lost, gateway)
    requires status.InFlight() ==> manifest.None? && u in db.uploads && db.uploads[u].manifest.None?
    ensures VaultInv(SetStatus(db, u, status, manifest), held, lost, gateway)
    ensures View(SetStatus(db, u, status, manifest)) == View(db)
  {
    hide AllLaid, AllBacked, AuthenticChunks, AuthenticManifests, ChunksGood, OneReference, RefsHaveRows;
  }

  /** The manifest an upload's row names after a change of status. */
  function LastManifest(db: Db, u: Id, manifest: Option<Id>): Option<Id>
    requires u in db.uploads
  {
    if manifest == None then db.uploads[u].manifest else manifest
  }

  lemma StatusOnly(db: Db, u: Id, status: Status, manifest: Option<Id>)
    requires u in db.uploads
    ensures var db' := SetStatus(db, u, status, manifest);
      && db' == db.(uploads := db.uploads[u := db'.uploads[u]]) && u in db'.uploads
      && db'.uploads[u] == db.uploads[u].(status := status, manifest := LastManifest(db, u, manifest))
  {
  }

  lemma UnpinOnly(db: Db, u: Id)
    ensures var db' := Unpin(db, u);
      db' == db.(uploadChunks := db'.uploadChunks) && forall s :: s in db'.uploadChunks ==> s.owner != u
  {
  }

  lemma StatusFresh(db: Db, nextId: Id, u: Id, status: Status, manifest: Option<Id>)
    requires FreshFrom(db, nextId)
    ensures FreshFrom(SetStatus(db, u, status, manifest), nextId)
  {
  }

  lemma UnpinKeeps(db: Db, held: Held, lost: set<Part>, gateway: Gateway, u: Id)
    requires VaultInv(db, held, lost, gateway)
    ensures VaultInv(Unpin(db, u), held, lost, gateway)
    ensures View(Unpin(db, u)) == View(db)
    ensures forall n :: FreshFrom(db, n) ==> FreshFrom(Unpin(db, u), n)
  {
    hide AllLaid, AllBacked, AuthenticChunks, AuthenticManifests, ChunksGood, OneReference, RefsHaveRows;
  }

  lemma BeginKeeps(db: Db, held: Held, lost: set<Part>, gateway: Gateway, u: Id, row: UploadRow, nextId: Id)
    requires VaultInv(db, held, lost, gateway) && FreshFrom(db, nextId)
    requires u !in db.uploads && row.manifest.None? && u < nextId
    ensures VaultInv(InsertUpload(db, u, row), held, lost, gateway)
    ensures View(InsertUpload(db, u, row)) == View(db)
    ensures FreshFrom(InsertUpload(db, u, row), nextId)
  {
    hide AllLaid, AllBacked, AuthenticChunks, AuthenticManifests, ChunksGood, OneReference, RefsHaveRows;
  }

  lemma {:induction false} UnwrapWithoutBroker(primary: seq<Envelope>, capsule: Capsule, id: Id, gateway: Gateway)
    requires primary == [] || gateway.broker.None?
    ensures UnwrapFrom(primary, capsule, id, gateway) == Recover(capsule, id, gateway)
  {
    if primary != [] {
      UnwrapWithoutBroker(primary[1..], capsule, id, gateway);
    }
  }

  /** The chunk list of a live path spells what the path holds. */
  lemma LiveLayout(db: Db, path: Path)
    requires TablesInv(db) && path in db.files
    ensures db.files[path].manifest in db.manifests && path in View(db)
    ensures var m := db.files[path].manifest;
      var list := ChunkList(db.manifestChunks, m, 0);
      && Known(db.chunks, list) && Spelled(db.chunks, list) == View(db)[path]
      && |View(db)[path]| == db.manifests[m].size
      && Sha256(View(db)[path]) == db.manifests[m].sha256 && Sha512(View(db)[path]) == db.manifests[m].sha512
  {
    hide ChunkList;
    assert WellLaid(db.manifestChunks, db.chunks, db.files[path].manifest, db.manifests[db.files[path].manifest]);
  }

  /** What a download asks of the vault: the manifest object opens and lists the chunks of the tables, and
      each chunk's object opens and holds just that chunk. */
  ghost predicate Readable(db: Db, held: Held, gateway: Gateway, m: Id) {
    var list := ChunkList(db.manifestChunks, m, 0);
    && Openable(held, gateway, Manifest(m))
    && held[Manifest(m)].content.payload.ManifestPayload?
    && held[Manifest(m)].content.payload.chunks == ChunkIds(list)
    && forall i :: 0 <= i < |list| ==> ReadableChunk(db, held, gateway, list[i].chunk)
  }

  ghost predicate ReadableChunk(db: Db, held: Held, gateway: Gateway, c: Id) {
    && c in db.chunks && Openable(held, gateway, Object(c))
    && held[Object(c)].content.payload == ChunkPayload(c, db.chunks[c].sha256.of)
  }

  lemma ReadableIs(db: Db, held: Held, gateway: Gateway, list: seq<ManifestChunkRow>, n: nat)
    requires Known(db.chunks, list) && n < |list|
    ensures ReadableChunk(db, held, gateway, list[n].chunk) <==>
      && Openable(held, gateway, Object(list[n].chunk))
      && held[Object(list[n].chunk)].content.payload ==
           ChunkPayload(list[n].chunk, db.chunks[list[n].chunk].sha256.of)
  {
  }

  lemma TablesGood(db: Db)
    requires TablesInv(db)
    ensures ChunksGood(db.chunks) && RefsHaveRows(db.files, db.versions, db.manifests)
  {
  }

  /** The checks on a chunk let through exactly what was stored under its id. */
  lemma VerifiedIs(db: Db, list: seq<ManifestChunkRow>, n: nat, payload: Payload)
    requires ChunksGood(db.chunks) && Known(db.chunks, list) && n < |list|
    ensures list[n].chunk in db.chunks
    ensures VerifiedChunk(db.chunks, list[n], payload) <==>
      payload == ChunkPayload(list[n].chunk, db.chunks[list[n].chunk].sha256.of)
  {
    assert GoodChunk(db.chunks[list[n].chunk]);
  }

  /** Every part of a live path whose parts were not lost opens to what was stored. */
  lemma LiveOpenable(db: Db, held: Held, lost: set<Part>, gateway: Gateway, path: Path)
    requires VaultInv(db, held, lost, gateway) && path in db.files && NoneLost(db, lost, db.files[path].manifest)
    ensures Readable(db, held, gateway, db.files[path].manifest)
  {
    hide Unwrap, Faithful, OneReference, PinsGood, ChunksGood, ReadableChunk, WellLaid;
    var m := db.files[path].manifest;
    var list := ChunkList(db.manifestChunks, m, 0);
    assert Backed(db.manifestChunks, held, lost, m);
    assert m in db.manifests;
    ChunkListRows(db.manifestChunks, m, 0);
    forall i | 0 <= i < |list|
      ensures ReadableChunk(db, held, gateway, list[i].chunk)
    {
      assert Slot(m, i) in db.manifestChunks && db.manifestChunks[Slot(m, i)] == list[i];
      ChunkOpenable(db, held, lost, gateway, Slot(m, i));
    }
  }

  lemma ChunkOpenable(db: Db, held: Held, lost: set<Part>, gateway: Gateway, s: Slot)
    requires VaultInv(db, held, lost, gateway) && s in db.manifestChunks && NoneLost(db, lost, s.owner)
    requires Backed(db.manifestChunks, held, lost, s.owner)
    ensures ReadableChunk(db, held, gateway, db.manifestChunks[s].chunk)
  {
    hide Unwrap, Faithful, OneReference, PinsGood, RefsHaveRows, AuthenticManifests, AllBacked, ChunksGood;
    SlotChunkKnown(db, s);
  }

  lemma PrefixSpelled(chunks: ChunkTable, list: seq<ManifestChunkRow>, n: nat)
    requires Known(chunks, list) && n < |list|
    ensures Known(chunks, list[..n]) && Known(chunks, list[..n + 1]) && list[n].chunk in chunks
    ensures Spelled(chunks, list[..n + 1]) == Spelled(chunks, list[..n]) + chunks[list[n].chunk].sha256.of
    ensures Spelled(chunks, list[..n]) <= Spelled(chunks, list)
  {
    assert list[..n + 1][..n] == list[..n];
    SpelledPrefix(chunks, list, n);
  }

  lemma DirectoriesKeep(db: Db, directories: set<Path>, held: Held, lost: set<Part>, gateway: Gateway, nextId: Id)
    requires VaultInv(db, held, lost, gateway) && FreshFrom(db, nextId)
    ensures var db' := db.(directories := directories);
      && VaultInv(db', held, lost, gateway) && View(db') == View(db) && FreshFrom(db', nextId)
      && (forall t :: Tidy(db, t) ==> Tidy(db', t))
  {
    hide AllLaid, AllBacked, AuthenticChunks, AuthenticManifests, ChunksGood, OneReference, RefsHaveRows, PinsGood;
  }

  lemma MadeRooted(directories: set<Path>, files: Files, path: Path)
    requires Normal(path) && path != "/" && path !in files && DirectoryExists(directories, Parent(path))
    ensures Rooted(directories, files) ==> Rooted(directories + {path}, files)
  {
    hide Rooted;
    if Rooted(directories, files) {
      MakeDirectoryRooted(directories, files, path);
    }
  }

  lemma CollectedWeaker(before: Db, after: Db, clean: bool)
    requires Collected(before, after, clean)
    ensures Collected(before, after, false) && (clean ==> Swept(after))
  {
  }

  lemma RelabelFresh(db: Db, nextId: Id, from: Path, to: Path)
    requires FreshFrom(db, nextId) && from in db.files
    ensures FreshFrom(RelabelFile(db, from, to), nextId)
  {
  }

  lemma MovedFresh(db: Db, moved: Db, nextId: Id)
    requires FreshFrom(db, nextId) && moved == db.(files := moved.files, versions := moved.versions)
    ensures FreshFrom(moved, nextId)
  {
  }

  lemma RenamedFrom(before: Db, moved: Db, directories: set<Path>, source: Path, destination: Path)
    requires Moving(before, moved, source, destination, Selected(source, before.files.Keys))
    requires DirectoriesMoved(source, destination, SelectedDirectories(source, before.directories), before.directories,
                              directories)
    ensures DirectoryRenamed(before, moved.(directories := directories), source, destination)
    ensures moved == before.(files := moved.files, versions := moved.versions)
  {
    hide FilesMoved, VersionsMoved, DirectoriesMoved, Selected, SelectedDirectories;
  }

  /** A rename of the directory `source` picks its subtree and nothing else. */
  predicate PicksSubtree(directories: set<Path>, files: Files, source: Path) {
    PicksBelow(source, directories) && PicksBelow(source, files.Keys)
  }

  /** A rename under which a tree stays a tree: of a file, or of a directory whose subtree the query
      picks and which does not go into itself. */
  predicate StaysATree(db: Db, source: Path, destination: Path) {
    source in db.files || (PicksSubtree(db.directories, db.files, source) && !Under(source, destination))
  }

  lemma ClearedStaysATree(db: Db, cleared: Db, source: Path, destination: Path)
    requires cleared.files == db.files && cleared.directories == db.directories
    ensures StaysATree(cleared, source, destination) <==> StaysATree(db, source, destination)
  {
  }

  lemma WildcardFreePicksSubtree(directories: set<Path>, files: Files, source: Path)
    requires WildcardFree(source) && source != "/"
    ensures PicksSubtree(directories, files, source)
  {
    WildcardFreePicksBelow(source, directories);
    WildcardFreePicksBelow(source, files.Keys);
  }

  lemma NothingCleared(db: Db, destination: Path)
    ensures DestinationCleared(db, db, destination)
  {
  }

  lemma ClearedFields(before: Db, after: Db, destination: Path)
    requires DestinationCleared(before, after, destination)
    ensures after.files == before.files && after.directories == before.directories
  {
  }

  lemma TombstonedFresh(before: Db, after: Db, confirmed: set<Path>, now: Time, nextId: Id)
    requires Tombstoned(before, after, confirmed, now) && FreshFrom(before, nextId)
    ensures FreshFrom(after, nextId)
  {
  }

  lemma MissingKeeps(db: Db, missing: MissingTable, held: Held, lost: set<Part>, gateway: Gateway, nextId: Id)
    requires VaultInv(db, held, lost, gateway) && FreshFrom(db, nextId)
    ensures var db' := db.(missing := missing);
      VaultInv(db', held, lost, gateway) && View(db') == View(db) && FreshFrom(db', nextId)
  {
    hide AllLaid, AllBacked, AuthenticChunks, AuthenticManifests, ChunksGood, OneReference, RefsHaveRows, PinsGood;
  }

  lemma TombstonedView(before: Db, after: Db, confirmed: set<Path>, now: Time, missing: MissingTable)
    requires Tombstoned(before, after.(missing := missing), confirmed, now)
    ensures View(after) == View(before) - confirmed
  {
  }

  lemma LiveKeys(db: Db)
    requires RefsHaveRows(db.files, db.versions, db.manifests)
    ensures View(db).Keys == db.files.Keys
  {
  }

  lemma ScanSettles(scan: Scan, scans: seq<Scan>, recorded: MissingTable, observations: nat, before: Time)
    requires var seen := scans + [Scan(scan.found, {}, scan.at)];
      forall p :: p in scan.confirmed <==>
        p in scan.found && Streak(seen, p) >= observations && Streak(seen, p) > 0 && StreakStart(seen, p) <= before
    ensures Settles(scan, scans, observations, before)
  {
  }

  lemma OrderedTidy(before: Db, after: Db, missing: MissingTable, now: Time)
    requires OrderedSoFar(before, now) ==> OrderedSoFar(after, now)
    ensures OrderedSoFar(before, now) ==> Tidy(after.(missing := missing), now) && Tidy(before, now)
  {
  }

  lemma OrderedAtStart(db: Db, clock: Time, now: Time)
    requires clock < now
    ensures Tidy(db, clock) ==> OrderedSoFar(db, now)
  {
  }

  lemma TombstonedMissing(before: Db, after: Db, confirmed: set<Path>, now: Time, missing: MissingTable)
    requires Tombstoned(before, after, confirmed, now)
    ensures after.(missing := missing).(missing := before.missing) == after
  {
  }

  lemma TombstonedRooted(before: Db, after: Db, confirmed: set<Path>, now: Time)
    requires Tombstoned(before, after, confirmed, now)
    ensures Rooted(before.directories, before.files) ==> Rooted(after.directories, after.files)
  {
    hide Normal, Parent;
  }

  /** With nothing lost, a truthful listing finds every live file whole. */
  lemma NothingLostNothingMissing(db: Db, held: Held, gateway: Gateway, p: Path)
    requires VaultInv(db, held, {}, gateway) && p in db.files
    ensures Whole(db, held.Keys, db.files[p].manifest)
  {
    hide AuthenticChunks, AuthenticManifests, OneReference, PinsGood, ChunksGood, WellLaid;
    var m := db.files[p].manifest;
    ChunkListRows(db.manifestChunks, m, 0);
    var chunks := ChunkList(db.manifestChunks, m, 0);
    assert Backed(db.manifestChunks, held, {}, m);
    forall i | 0 <= i < |chunks|
      ensures Object(chunks[i].chunk) in held && Key(chunks[i].chunk) in held
    {
      assert Slot(m, i) in db.manifestChunks && db.manifestChunks[Slot(m, i)] == chunks[i];
    }
  }

  /** In a tree, a name in the listing comes from one path only. */
  lemma ListedPath(db: Db, dir: Path, p: Path, name: string)
    requires Rooted(db.directories, db.files) && DirectoryExists(db.directories, dir) && WildcardFree(dir) && Normal(dir)
    requires p in db.directories || p in db.files
    ensures Parent(p) == dir ==> ListedAs(Prefix(dir), p, Rest(p, |Prefix(dir)|))
    ensures ListedAs(Prefix(dir), p, name) ==> Parent(p) == dir && p == Prefix(dir) + name
  {
    hide Parent, Like;
    ListingIsChildren(db.directories, db.files, dir, p);
    if ListedAs(Prefix(dir), p, name) {
      LikeExact(Prefix(dir), p);
    }
  }

  /** What `list` builds: for each name some row of that name, a file's if there is one. */
  ghost predicate EntriesOf(db: Db, prefix: string, entries: map<string, Entry>) {
    && RefsHaveRows(db.files, db.versions, db.manifests)
    && (forall name :: name in entries <==> ListedDirectory(db, prefix, name) || ListedFile(db, prefix, name))
    && (forall name :: name in entries ==>
          if entries[name].isDir
          then ListedDirectory(db, prefix, name) && !ListedFile(db, prefix, name) && entries[name] == Entry(true, 0, 0)
          else exists p :: ListedAs(prefix, p, name) && p in db.files && entries[name] == FileEntry(db, p))
  }

  lemma ChildShown(db: Db, dir: Path, entries: map<string, Entry>, p: Path)
    requires Rooted(db.directories, db.files) && DirectoryExists(db.directories, dir) && WildcardFree(dir) && Normal(dir)
    requires EntriesOf(db, Prefix(dir), entries)
    requires (p in db.directories || p in db.files) && Parent(p) == dir
    ensures Rest(p, |Prefix(dir)|) in entries
    ensures entries[Rest(p, |Prefix(dir)|)] == if p in db.files then FileEntry(db, p) else Entry(true, 0, 0)
  {
    hide ListedAs, Parent, Normal, RefsHaveRows, Rest, Prefix, WildcardFree, Rooted;
    var prefix := Prefix(dir);
    var name := Rest(p, |prefix|);
    ListedPath(db, dir, p, name);
    if !entries[name].isDir {
      var q :| ListedAs(prefix, q, name) && q in db.files && entries[name] == FileEntry(db, q);
      ListedPath(db, dir, q, name);
    }
  }

  lemma EntriesAreChildren(db: Db, dir: Path, entries: map<string, Entry>)
    requires Rooted(db.directories, db.files) && DirectoryExists(db.directories, dir) && WildcardFree(dir) && Normal(dir)
    requires EntriesOf(db, Prefix(dir), entries)
    ensures ShowsChildren(db, dir, entries)
  {
    hide ListedAs, Parent, Normal, RefsHaveRows, Rest, Prefix, WildcardFree;
    var prefix := Prefix(dir);
    forall p | (p in db.directories || p in db.files) && Parent(p) == dir
      ensures Rest(p, |prefix|) in entries
      ensures entries[Rest(p, |prefix|)] == if p in db.files then FileEntry(db, p) else Entry(true, 0, 0)
    {
      ChildShown(db, dir, entries, p);
    }
    forall name | name in entries
      ensures (prefix + name in db.directories || prefix + name in db.files) && Parent(prefix + name) == dir
    {
      var p :| (p in db.directories || p in db.files) && ListedAs(prefix, p, name);
      ListedPath(db, dir, p, name);
    }
  }

  lemma DropVersionsFresh(db: Db, drop: set<VersionKey>, nextId: Id)
    requires FreshFrom(db, nextId)
    ensures FreshFrom(DropVersions(db, drop), nextId)
  {
  }

  lemma LastGcKeeps(db: Db, lastGc: Time, held: Held, lost: set<Part>, gateway: Gateway, nextId: Id)
    requires VaultInv(db, held, lost, gateway) && FreshFrom(db, nextId)
    ensures var db' := db.(lastGc := lastGc);
      && VaultInv(db', held, lost, gateway) && View(db') == View(db) && FreshFrom(db', nextId)
      && Usage(db') == Usage(db) && AllStored(db') == AllStored(db)
  {
    hide AllLaid, AllBacked, AuthenticChunks, AuthenticManifests, ChunksGood, OneReference, RefsHaveRows, PinsGood;
  }

  lemma FileHasManifest(db: Db, path: Path)
    requires RefsHaveRows(db.files, db.versions, db.manifests) && path in db.files
    ensures db.files[path].manifest in db.manifests
  {
  }

  lemma NewestSubtable(versions: Versions, versions': Versions)
    requires NewestStay(versions, versions')
    ensures Subtable(versions', versions)
  {
  }

  lemma FewerAt(versions: Versions, versions': Versions, path: Path)
    requires Subtable(versions', versions)
    ensures |VersionsAt(versions', path)| <= |VersionsAt(versions, path)|
  {
    SubsetSize(VersionsAt(versions', path), VersionsAt(versions, path));
  }

  /** What dropping the oldest version of all does. */
  lemma DroppedOldest(before: Db, db: Db, oldest: VersionKey)
    requires IsOldest(db.versions, oldest)
    ensures var next := DropVersions(db, {oldest});
      && (forall t :: Thinned(before, db, t) ==> Thinned(before, next, t))
      && Usage(next) <= Usage(db) && |next.versions| < |db.versions|
  {
    hide Thinned, Usage, Gapless, Homed, Aged, NewestStay;
    var next := DropVersions(db, {oldest});
    assert next.versions == Without(db.versions, oldest);
    assert |next.versions.Keys| < |db.versions.Keys|;
    UsageFalls(db, next);
    forall t | Thinned(before, db, t)
      ensures Thinned(before, next, t)
    {
      if Tidy(db, t) {
        OldestGoes(db.versions, t, oldest);
      }
      ThinnedMore(before, db, next, t);
    }
  }

  lemma ExpiredThinned(before: Db, after: Db, cutoff: Time)
    requires after == before || after == DropVersions(before, before.versions.Keys) ||
             after == DropVersions(before, Expired(before.versions, cutoff))
    ensures forall t :: Thinned(before, after, t)
  {
    forall t
      ensures Thinned(before, after, t)
    {
      hide Gapless, Homed;
      ThinnedNothing(before, t);
      if Tidy(before, t) {
        ExpiryGoes(before, t, cutoff);
      }
      ThinnedMore(before, before, after, t);
    }
  }

  lemma ExpiredLeft(db: Db, cutoff: Time)
    ensures DropVersions(db, db.versions.Keys).versions == map[]
    ensures forall k :: k in DropVersions(db, Expired(db.versions, cutoff)).versions <==>
      k in db.versions && db.versions[k].archived >= cutoff
    ensures DropVersions(db, db.versions.Keys).deleted == db.deleted
    ensures DropVersions(db, Expired(db.versions, cutoff)).deleted == db.deleted
  {
  }

  lemma ThinnedSame(db: Db)
    ensures forall t :: Thinned(db, db, t)
  {
    forall t
      ensures Thinned(db, db, t)
    {
      ThinnedNothing(db, t);
    }
  }

  lemma NewerSame(versions: Versions, versions': Versions, k: VersionKey)
    requires Subtable(versions', versions)
    requires forall j :: j in versions && j.path == k.path ==> j in versions'
    ensures Newer(versions', k) == Newer(versions, k)
  {
  }

  lemma DropNone(db: Db)
    ensures DropVersions(db, AsSet([])).versions == db.versions
  {
  }

  lemma PrunedIs(before: Db, after: Db, dropped: seq<VersionKey>, limit: nat)
    requires PrunedBy(before, after, dropped, limit)
    ensures after == DropVersions(before, AsSet(dropped)) && Subtable(after.versions, before.versions)
    ensures after.deleted == before.deleted && after.files == before.files && after.manifests == before.manifests
  {
  }

  lemma WholeByList(db: Db, seen: set<Part>, m: Id, list: seq<ManifestChunkRow>)
    requires m in db.manifests && Manifest(m) in seen && Key(m) in seen
    requires RunAt(db.manifestChunks, m, 0, list)
    requires forall s :: s in db.manifestChunks && s.owner == m ==> s.position < |list|
    requires forall i :: 0 <= i < |list| ==> Object(list[i].chunk) in seen && Key(list[i].chunk) in seen
    ensures Whole(db, seen, m)
  {
    assert Slot(m, |list|).position == |list|;
    ChunkListUnique(db.manifestChunks, m, 0, list);
  }

  lemma NamesKept(before: Db, after: Db, clock: Time, now: Time)
    requires SameNames(before, after) && clock <= now
    ensures Tidy(before, clock) ==> Tidy(after, now)
    ensures Rooted(before.directories, before.files) ==> Rooted(after.directories, after.files)
  {
  }

  /** A committed upload keeps histories in order and the tree a tree. */
  lemma CommittedNames(before: Db, after: Db, path: Path, version: nat, u: Id, clock: Time, now: Time)
    requires path in after.files
    requires Committed(before, after, path, version, Plain(ManifestRowOf(after, path)), u)
    requires NextVersion(before, path, version) && Normal(path) && MayHold(before, path)
    requires clock < after.files[path].modified <= now
    ensures Tidy(before, clock) ==> Tidy(after, now)
    ensures Rooted(before.directories, before.files) ==> Rooted(after.directories, after.files)
  {
    hide Homed, Gapless, Aged, Rooted, Archive;
    var row := after.files[path];
    if Tidy(before, clock) {
      CommitTidy(before, clock, path, CurrentRow(before, path), row, u);
      var next := CommitVersion(before, path, CurrentRow(before, path), row, row.modified, u);
      TidyKept(next, next, row.modified, now);
    }
    if Rooted(before.directories, before.files) {
      PutFileRooted(before.directories, before.files, path, row);
    }
  }

  function ManifestRowOf(db: Db, path: Path): ManifestRow {
    if path in db.files && db.files[path].manifest in db.manifests then db.manifests[db.files[path].manifest]
    else ManifestRow(0, 0, Sha256([]), Sha512([]), 0)
  }

  // ---- What a rename keeps --------------------------------------------------------------

  /** No tombstone lies below the path. */
  ghost predicate NoTombstoneBelow(deleted: map<Path, Time>, path: Path) {
    forall p :: p in deleted ==> !Under(path, p)
  }

  lemma ClearedNames(before: Db, cleared: Db, destination: Path, clock: Time, now: Time)
    requires DestinationCleared(before, cleared, destination) && clock <= now
    ensures Tidy(before, clock) ==> Tidy(cleared, now)
    ensures Rooted(before.directories, before.files) ==> Rooted(cleared.directories, cleared.files)
    ensures cleared.deleted.Keys <= before.deleted.Keys
  {
    hide Rooted, Collected, Homed, Gapless, Aged;
    if Tidy(before, clock) {
      TidyKept(before, before, clock, now);
      if destination in before.deleted && !Exists(before, destination) {
        PurgedTidy(before, destination, now);
        if cleared != before {
          TidyKept(PurgePath(before, destination), cleared, now, now);
        }
      }
    }
  }

  lemma PurgedTidy(db: Db, path: Path, clock: Time)
    requires Tidy(db, clock) && path !in db.files
    ensures Tidy(PurgePath(db, path), clock)
  {
    hide Tidy;
    PurgeTidy(db, PurgePath(db, path), clock, path);
  }

  lemma RenamedFileNames(before: Db, from: Path, to: Path, now: Time)
    requires from in before.files && !Exists(before, to) && to !in before.deleted
    requires Normal(to) && DirectoryExists(before.directories, Parent(to))
    ensures Tidy(before, now) ==> RelabelAllowed(before, from, to) && Tidy(RelabelFile(before, from, to), now)
    ensures Rooted(before.directories, before.files) ==>
      Rooted(before.directories, RelabelFile(before, from, to).files)
  {
    hide Rooted, RelabelVersions, RelabelAllowed, Homed, Gapless, Aged;
    if Tidy(before, now) {
      RelabelTidy(before, now, from, to);
    }
    if Rooted(before.directories, before.files) {
      RemoveFileRooted(before.directories, before.files, from);
      PutFileRooted(before.directories, Without(before.files, from), to, before.files[from]);
    }
  }

  /** When the query picks nothing else, renaming a directory moves its subtree and nothing else; the tree stays a tree exactly when the directory is not moved into itself; histories
      stay in order exactly when no file lands on a tombstone. */
  lemma RenamedDirectoryNames(before: Db, after: Db, source: Path, destination: Path, clock: Time)
    requires OneReference(before.files, before.versions)
    requires DirectoryRenamed(before, after, source, destination)
    ensures Tidy(before, clock) ==>
      (Tidy(after, clock) <==>
        forall p :: p in Selected(source, before.files.Keys) ==> Moved(source, destination, p) !in before.deleted)
    ensures MayRename(source, destination, before.directories, before.files) &&
            PicksSubtree(before.directories, before.files, source) ==>
      && SubtreeMoved(source, destination, before.directories, before.files, after.directories, after.files)
      && (Rooted(after.directories, after.files) <==> !Under(source, destination))
  {
    hide Moved, Rooted, OneReference, FilesMoved, VersionsMoved, DirectoriesMoved, Homed, Gapless, Aged, Selects,
         Normal, Parent;
    if Tidy(before, clock) {
      var files := before.(files := after.files, versions := after.versions);
      assert Moving(before, files, source, destination, Selected(source, before.files.Keys));
      MovedTidy(before, files, source, destination, Selected(source, before.files.Keys), clock);
      assert Tidy(after, clock) == Tidy(files, clock);
    }
    if MayRename(source, destination, before.directories, before.files) &&
       PicksSubtree(before.directories, before.files, source)
    {
      RootIsNoRow(source, destination, before.directories, before.files);
      SelectedIsSubtree(source, before.files.Keys);
      SelectedDirectoriesSubtree(source, before.directories);
      RenameRooted(source, destination, before.directories, before.files, after.directories, after.files);
    }
  }

  lemma RootIsNoRow(source: Path, destination: Path, directories: set<Path>, files: Files)
    requires MayRename(source, destination, directories, files)
    ensures source != "/" && source in directories
  {
  }

  /** In a tree with ordered histories, and no tombstone below the free destination, nothing is
      in the way of a directory rename. */
  lemma RenameClear(db: Db, source: Path, destination: Path, clock: Time)
    requires Tidy(db, clock) && Rooted(db.directories, db.files)
    requires source in db.directories && !Exists(db, destination) && Normal(destination)
    requires PicksSubtree(db.directories, db.files, source) && NoTombstoneBelow(db.deleted, destination)
    ensures MovesCleanly(source, destination, db) && DirectoriesClear(source, destination, db.directories)
  {
    hide Gapless, Aged, Parent, Under, Normal;
    forall p | p in db.directories || p in db.files
      ensures !Under(destination, p)
    {
      if Under(destination, p) {
        AncestorExists(db.directories, db.files, destination, p);
      }
    }
  }

  lemma RelabelledDirectories(db: Db, from: Path, to: Path)
    requires from in db.files
    ensures RelabelFile(db, from, to).directories == db.directories
  {
  }

  lemma MovedClearOfTombstones(db: Db, source: Path, destination: Path)
    requires destination != "/" && source !in db.files
    ensures NoTombstoneBelow(db.deleted, destination) ==>
      forall p :: p in Selected(source, db.files.Keys) ==> Moved(source, destination, p) !in db.deleted
  {
    hide Selects, Moved, Under;
    forall p | p in Selected(source, db.files.Keys)
      ensures Under(destination, Moved(source, destination, p))
    {
      MovedBelow(source, destination, p);
    }
  }

  lemma RootAboveAll(destination: Path)
    requires Normal(destination)
    ensures Under("/", destination)
  {
  }

  lemma FewerTombstones(deleted: map<Path, Time>, deleted': map<Path, Time>, path: Path)
    requires deleted'.Keys <= deleted.Keys
    ensures NoTombstoneBelow(deleted, path) ==> NoTombstoneBelow(deleted', path)
  {
  }

  lemma MovedBelow(source: Path, destination: Path, p: Path)
    requires destination != "/" && p != source
    ensures Under(destination, Moved(source, destination, p))
  {
  }

  // ---- Collection is exact --------------------------------------------------------------

  /** After a collection that met no failure, the manifests left are exactly the kept ones and
      the chunks left exactly the reachable ones. */
  lemma CollectionIsExact(before: Db, after: Db)
    requires TablesInv(before)
    requires after == before.(manifests := after.manifests, manifestChunks := after.manifestChunks, chunks := after.chunks)
    requires Collected(before, after, true)
    ensures forall m :: m in after.manifests <==>
      m in before.manifests && Kept(before.files, before.versions, before.uploads, m)
    ensures forall c :: c in after.chunks <==> c in before.chunks && Reachable(before, c)
  {
    hide AllLaid, PinsGood, ChunksGood, OneReference, RefsHaveRows, Kept;
    forall c | c in after.chunks
      ensures Reachable(before, c)
    {
      assert Used(after.manifestChunks, after.uploadChunks, c);
      if s :| s in after.manifestChunks && after.manifestChunks[s].chunk == c {
        assert s in before.manifestChunks && Kept(before.files, before.versions, before.uploads, s.owner);
      }
    }
  }

  /** Collecting again finds nothing: one pass over manifests and one over chunks is a fixed point. */
  lemma CollectionIsFixedPoint(db: Db, again: Db)
    requires TablesInv(db) && Swept(db)
    requires again == db.(manifests := again.manifests, manifestChunks := again.manifestChunks, chunks := again.chunks)
    requires Collected(db, again, false)
    ensures again == db
  {
    hide PinsGood, ChunksGood, OneReference, RefsHaveRows, Kept, WellLaid;
    forall c | c in db.chunks
      ensures Reachable(db, c)
    {
      assert Used(db.manifestChunks, db.uploadChunks, c);
      if s :| s in db.manifestChunks && db.manifestChunks[s].chunk == c {
        assert s.owner in db.manifests;
      }
    }
    assert again.manifests == db.manifests;
    assert again.manifestChunks == db.manifestChunks;
    assert again.chunks == db.chunks;
  }

  lemma ThinnedFields(before: Db, after: Db)
    requires forall t :: Thinned(before, after, t)
    ensures after == before.(versions := after.versions, deleted := after.deleted)
    ensures Subtable(after.versions, before.versions) && after.deleted.Keys <= before.deleted.Keys
  {
    assert Thinned(before, after, 0);
  }

  lemma ThinnedTwice(a: Db, b: Db, c: Db)
    requires (forall t :: Thinned(a, b, t)) && forall t :: Thinned(b, c, t)
    ensures forall t :: Thinned(a, c, t)
  {
    forall t
      ensures Thinned(a, c, t)
    {
      hide Tidy;
      assert Thinned(a, b, t) && Thinned(b, c, t);
    }
  }

  lemma ThinnedTidy(before: Db, after: Db, clock: Time, now: Time)
    requires clock <= now && forall t :: Thinned(before, after, t)
    ensures Tidy(before, clock) ==>
      Tidy(after, now) && NewestStayAtLive(before.files, before.versions, after.versions)
  {
    assert Thinned(before, after, clock);
  }

  lemma ThinnedTidyHere(db: Db, clock: Time)
    ensures NewestStayAtLive(db.files, db.versions, db.versions)
  {
  }

  lemma StampedSame(db: Db, now: Time)
    ensures Swept(db.(lastGc := now)) == Swept(db) && Quiet(db.(lastGc := now)) == Quiet(db)
    ensures Usage(db.(lastGc := now)) == Usage(db) && AllStored(db.(lastGc := now)) == AllStored(db)
    ensures forall held, t :: NoOrphans(db.(lastGc := now), held, t) <==> NoOrphans(db, held, t)
  {
    hide Kept, Used;
  }

  lemma AllWhole(db: Db, held: Held, lost: set<Part>, gateway: Gateway)
    requires VaultInv(db, held, lost, gateway)
    ensures lost == {} ==> Incomplete(db, held.Keys) == {}
  {
    hide VaultInv, Whole;
    forall p | p in db.files && lost == {}
      ensures Whole(db, held.Keys, db.files[p].manifest)
    {
      NothingLostNothingMissing(db, held, gateway, p);
    }
  }

  lemma DeleteFileFresh(db: Db, nextId: Id, path: Path, archived: Time, deleted: Time)
    requires FreshFrom(db, nextId) && path in db.files
    ensures FreshFrom(DeleteFile(db, path, archived, deleted), nextId)
  {
  }

  lemma DeletedTidy(db: Db, clock: Time, path: Path, archived: Time, deleted: Time)
    requires path in db.files && clock < archived < deleted
    ensures Tidy(db, clock) ==> Tidy(db, deleted) && Tidy(DeleteFile(db, path, archived, deleted), deleted)
  {
    hide Homed, Gapless, Aged;
    if Tidy(db, clock) {
      DeleteTidy(db, clock, path, archived, deleted);
      TidyKept(DeleteFile(db, path, archived, deleted), DeleteFile(db, path, archived, deleted), archived, deleted);
      TidyKept(db, db, clock, deleted);
    }
  }

  lemma DeletedRooted(db: Db, path: Path, archived: Time, deleted: Time)
    requires path in db.files
    ensures Rooted(db.directories, db.files) ==>
      var db' := DeleteFile(db, path, archived, deleted);
      Rooted(db'.directories, db'.files)
  {
    if Rooted(db.directories, db.files) {
      RemoveFileRooted(db.directories, db.files, path);
    }
  }

  lemma ChildlessRooted(directories: set<Path>, files: Files, path: Path)
    requires Rooted(directories, files) && path != "/" && path in directories
    requires !(exists p :: p in directories && Selects(path + "/", p))
    requires !(exists p :: p in files && Selects(path + "/", p))
    ensures Rooted(directories - {path}, files)
  {
    hide Rooted, Selects;
    RemoveDirectoryRooted(directories, files, path);
  }

  lemma PurgeKeeps(db: Db, held: Held, lost: set<Part>, gateway: Gateway, path: Path, nextId: Id)
    requires VaultInv(db, held, lost, gateway) && FreshFrom(db, nextId)
    ensures VaultInv(PurgePath(db, path), held, lost, gateway)
    ensures View(PurgePath(db, path)) == View(db) && FreshFrom(PurgePath(db, path), nextId)
  {
    hide AllLaid, AuthenticChunks, AuthenticManifests, ChunksGood, PinsGood, Backed;
    ReferencesKeep(db, PurgePath(db, path), held, lost, gateway);
  }

  lemma CollectedNothing(db: Db, held: Held, lost: set<Part>, gateway: Gateway)
    requires VaultInv(db, held, lost, gateway)
    ensures Collected(db, db, false)
  {
    TrimmedAll(db);
  }

  lemma DropManifestFresh(db: Db, nextId: Id, m: Id)
    requires FreshFrom(db, nextId)
    ensures FreshFrom(DropManifest(db, m), nextId)
  {
  }

  /** Midway through the sweep of the manifests: `todo` is still to come, and unless a removal
      has failed everything else left is kept. */
  ghost predicate SweepingManifests(before: Db, db: Db, todo: set<Id>, held: Held, clean: bool) {
    && db == before.(manifests := db.manifests, manifestChunks := db.manifestChunks)
    && Trimmed(before.manifests, before.manifestChunks, db.manifests, db.manifestChunks)
    && (forall m :: m in todo ==> m in db.manifests && !Kept(db.files, db.versions, db.uploads, m))
    && (clean ==> forall m :: m in db.manifests ==> m in todo || Kept(db.files, db.versions, db.uploads, m))
    && (forall m :: m in before.manifests && m !in db.manifests ==>
          && !Kept(db.files, db.versions, db.uploads, m)
          && Manifest(m) !in held && Key(m) !in held)
  }

  lemma TrimmedAll(db: Db)
    requires AllLaid(db.manifests, db.manifestChunks, db.chunks)
    ensures Trimmed(db.manifests, db.manifestChunks, db.manifests, db.manifestChunks)
  {
    hide WellLaid;
  }

  lemma TrimmedFurther(manifests: Manifests, rows: SlotTable, manifests': Manifests, rows': SlotTable, m: Id)
    requires Trimmed(manifests, rows, manifests', rows')
    ensures Trimmed(manifests, rows, Without(manifests', m), WithoutOwner(rows', m))
  {
  }

  lemma SweepManifestRound(before: Db, db: Db, db': Db, todo: set<Id>, held: Held, held': Held, clean: bool, m: Id)
    requires SweepingManifests(before, db, todo, held, clean) && m in todo
    requires held'.Keys <= held.Keys
    requires (db' == db && !clean) || (db' == DropManifest(db, m) && Manifest(m) !in held' && Key(m) !in held')
    ensures SweepingManifests(before, db', todo - {m}, held', clean)
  {
    hide Kept, Trimmed, WithoutOwner;
    TrimmedFurther(before.manifests, before.manifestChunks, db.manifests, db.manifestChunks, m);
  }

  /** What `_get_or_create_chunk` looks for: the same size and the same digests. */
  predicate SameContent(row: ChunkRow, content: Bytes) {
    row.size == |content| && row.sha256 == Sha256(content) && row.sha512 == Sha512(content)
  }

  /** No row with this size and these digests: no row with this content at all. */
  lemma NewContent(chunks: ChunkTable, content: Bytes, row: ChunkRow)
    requires ChunksGood(chunks)
    requires SameContent(row, content) && forall c :: c in chunks ==> !SameContent(chunks[c], content)
    ensures GoodChunk(row)
    ensures forall c :: c in chunks ==> chunks[c].sha256 != row.sha256
  {
    forall c | c in chunks
      ensures chunks[c].sha256 != row.sha256
    {
      assert GoodChunk(chunks[c]);
    }
  }
}
