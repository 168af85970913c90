/** Whole runs: any sequence of operations, with any call failing and the process stopping and
    coming back anywhere, does to the plaintext drive what the same operations do to a plain
    map from paths to bytes. */
module Runs {
  import opened Tables
  import opened Layout
  import opened Paths
  import opened Vault
  import opened Remote
  import opened History
  import opened Tree
  import opened Renames
  import opened Observations
  import opened Steps
  import opened Backend

  datatype Op =
    | Upload(name: string, body: Bytes, size: int)
    | Download(name: string)
    | Mkdir(name: string)
    | Delete(name: string, directory: bool)
    | Rename(from: string, to: string)
    | ListDirectory(name: string)
    | Gc(force: bool)
    | LoseFiles(gone: set<Part>)

  /** What the client got: an answer; the bytes of a download, all of them or, when it raised, those
      written before; an error; or nothing more than the bytes it had, because the process stopped. */
  datatype Answer =
    | Answered(changed: bool)
    | Received(content: Bytes, complete: bool)
    | Refused(error: Error)
    | Interrupted(content: Bytes)

  /** The drive with the rows in `done` moved and nothing else changed. */
  ghost predicate DriveMoved(source: Path, destination: Path, done: set<Path>, before: Namespace, after: Namespace) {
    && (forall p :: p in before ==> Place(source, destination, done, p) in after &&
                                    after[Place(source, destination, done, p)] == before[p])
    && (forall q :: q in after ==> exists p :: p in before && Place(source, destination, done, p) == q)
  }

  /** Between two operations: the drive as its users know it, the tables behind it, the clock, the
      scans completed so far, when this process completed one last, the vault, how many remote calls
      have failed so far, and the vault files that others have removed. */
  datatype Moment =
    Moment(drive: Namespace, db: Db, clock: Time, scans: seq<Scan>, lastReconcile: Time, held: Held, faults: nat,
           lost: set<Part>)

  /** No remote call failed in between, and nothing had been removed. */
  predicate Smooth(earlier: Moment, later: Moment) {
    later.faults == earlier.faults && earlier.lost == {}
  }

  /** An operation, its answer, whether it took effect, and the moments around it. Only `LoseFiles`
      removes vault files from outside, and no upload's row is ever changed by a later operation. */
  ghost predicate Explains(config: Config, op: Op, answer: Answer, went: bool, earlier: Moment, later: Moment) {
    && Tells(op, answer, went)
    && earlier.clock <= later.clock
    && (if op.ListDirectory? then ExplainsListing(config, answer, earlier, later)
        else
          && ExplainsDrive(op, went, earlier.drive, later.drive)
          && later.scans == earlier.scans && later.db.missing == earlier.db.missing
          && (!answer.Interrupted? ==> later.lastReconcile == earlier.lastReconcile))
    && (answer.Interrupted? ==> later.lastReconcile == 0)
    && ExplainsDirectories(op, went, earlier.db, later.db)
    && ExplainsRefusal(op, answer, earlier, later)
    && (op.Upload? ==> ExplainsUpload(op, answer, earlier, later))
    && (op.Download? ==> ExplainsDownload(op, answer, Smooth(earlier, later), earlier.drive))
    && KeepsOrder(op, earlier.db, earlier.clock, earlier.scans, later.db, later.clock, later.scans)
    && Extends(earlier.db.uploads, later.db.uploads)
    && later.lost == earlier.lost + if op.LoseFiles? then op.gone * later.lost else {}
  }

  /** When no remote call failed, what the tables say is the only reason to refuse an operation; uploads
      and downloads have theirs below. */
  ghost predicate ExplainsRefusal(op: Op, answer: Answer, earlier: Moment, later: Moment) {
    answer.Refused? && later.faults == earlier.faults ==>
      match op
      case Mkdir(name) => !MayHold(earlier.db, Normalize(name)) || Normalize(name) in earlier.db.files
      case Delete(name, directory) => !Deletable(earlier.db, Normalize(name), directory)
      case Rename(from, to) => !MovesFreely(earlier, Normalize(from), Normalize(to))
      case ListDirectory(name) => !DirectoryExists(earlier.db.directories, Normalize(name))
      case Gc(_) => false
      case LoseFiles(_) => false
      case _ => true
  }

  /** A rename to a free place, in a tree whose histories are in order: of a file, or of a directory whose
      subtree the query picks. No tombstone is below the destination. */
  ghost predicate MovesFreely(earlier: Moment, source: Path, destination: Path) {
    var db := earlier.db;
    && !Exists(db, destination) && DirectoryExists(db.directories, Parent(destination))
    && Tidy(db, earlier.clock) && Rooted(db.directories, db.files) && NoTombstoneBelow(db.deleted, destination)
    && (source in db.files || (source in db.directories && PicksSubtree(db.directories, db.files, source)))
  }

  /** What the client can conclude. An error means that nothing was done. When the process stopped,
      the operation may have taken effect or not. */
  predicate Tells(op: Op, answer: Answer, went: bool) {
    match answer
    case Answered(changed) => if op.Upload? then went == changed else went
    case Received(_, _) => op.Download?
    case Refused(_) => !went || op.ListDirectory?
    case Interrupted(content) => op.Download? || content == []
  }

  /** One operation on the plain drive, if it took effect; otherwise it changes nothing. */
  ghost predicate ExplainsDrive(op: Op, went: bool, before: Namespace, after: Namespace) {
    match op
    case Upload(name, body, size) =>
      var path := Normalize(name);
      if went then
        && 0 <= size <= |body| && after == before[path := body[..size]]
        && !(path in before && before[path] == body[..size])
      else after == before
    case Delete(name, directory) =>
      if went && !directory then Normalize(name) in before && after == Without(before, Normalize(name))
      else after == before
    case Rename(from, to) =>
      var source, destination := Normalize(from), Normalize(to);
      if went then
        && destination !in before
        && if source in before then after == Without(before, source)[destination := before[source]]
           else DriveMoved(source, destination, Selected(source, before.Keys), before, after)
      else after == before
    case _ => after == before
  }

  /** One operation on the directories, if it took effect. */
  ghost predicate ExplainsDirectories(op: Op, went: bool, before: Db, after: Db) {
    match op
    case Mkdir(name) =>
      after.directories == before.directories + if went then {Normalize(name)} else {}
    case Delete(name, directory) =>
      after.directories == before.directories - if went && directory then {Normalize(name)} else {}
    case Rename(from, to) =>
      var source, destination := Normalize(from), Normalize(to);
      if went && source !in before.files then
        DirectoriesMoved(source, destination, SelectedDirectories(source, before.directories), before.directories,
                         after.directories)
      else after.directories == before.directories
    case _ => after.directories == before.directories
  }

  /** An upload answers False for a body that the path holds already. It commits whenever the path may
      hold a file, the body is long enough and does not break off, no remote call fails, and no chunk
      is stale or lost. */
  ghost predicate ExplainsUpload(op: Op, answer: Answer, earlier: Moment, later: Moment)
    requires op.Upload?
  {
    && (answer == Answered(false) ==>
          && 0 <= op.size <= |op.body| && Normalize(op.name) in earlier.drive
          && earlier.drive[Normalize(op.name)] == op.body[..op.size])
    && ((answer.Refused? && Smooth(earlier, later) && AllThere(earlier.db.chunks, earlier.held)) ==>
          (MayHold(earlier.db, Normalize(op.name)) && 0 <= op.size <= |op.body|) ==> answer.error == BrokenBody)
  }

  /** What a client has of a download is always the beginning of the file; when all was smooth, it
      succeeds exactly for the live paths. */
  ghost predicate ExplainsDownload(op: Op, answer: Answer, smooth: bool, drive: Namespace)
    requires op.Download?
  {
    var path := Normalize(op.name);
    && (answer.Received? || answer.Interrupted?)
    && (path in drive ==> answer.content <= drive[path])
    && (path !in drive ==> answer.content == [])
    && (answer.Received? && answer.complete ==> path in drive && answer.content == drive[path])
    && (answer.Received? && smooth ==> (answer.complete <==> path in drive))
  }

  /** The paths a listing dropped from the drive: those its scan, if it completed one, gave up. */
  function Dropped(earlier: Moment, later: Moment): set<Path> {
    if |later.scans| > |earlier.scans| then later.scans[|later.scans| - 1].confirmed else {}
  }

  /** A listing completes a scan, or changes nothing; and it does complete one when one is due, no call
      fails and the process does not stop. */
  ghost predicate ExplainsListing(config: Config, answer: Answer, earlier: Moment, later: Moment) {
    var clean := later.faults == earlier.faults;
    && Scanned(earlier.db, earlier.clock, earlier.scans, later.db, later.clock, later.scans, clean, later.held,
               later.lost, config.missingObservations, config.missingGrace)
    && ScannedWhenDue(earlier.lastReconcile, earlier.scans, later.clock, later.lastReconcile, later.scans,
                      clean && !answer.Interrupted?, config.reconcileInterval)
    && later.drive == earlier.drive - Dropped(earlier, later) && later.held == earlier.held
  }

  /** What an operation keeps behind the drive: histories in order, unless a rename finds tombstones
      below its destination; the tree, unless a directory's rename picks more than its subtree or goes
      into itself; and the counters of missing files. */
  ghost predicate KeepsOrder(op: Op, before: Db, clock0: Time, scans0: seq<Scan>, after: Db, clock: Time, scans: seq<Scan>) {
    && ((Tidy(before, clock0) && FindsNoTombstones(op, before)) ==> Tidy(after, clock))
    && ((Rooted(before.directories, before.files) && KeepsTree(op, before)) ==> Rooted(after.directories, after.files))
    && (Counted(before.missing, scans0) ==> Counted(after.missing, scans))
  }

  ghost predicate FindsNoTombstones(op: Op, before: Db) {
    op.Rename? ==> NoTombstoneBelow(before.deleted, Normalize(op.to))
  }

  ghost predicate KeepsTree(op: Op, before: Db) {
    op.Rename? ==> StaysATree(before, Normalize(op.from), Normalize(op.to))
  }

  lemma SameFilesSameView(before: Db, after: Db)
    requires RefsHaveRows(before.files, before.versions, before.manifests)
    requires after.files == before.files
    requires forall p :: p in before.files ==>
      before.files[p].manifest in after.manifests &&
      after.manifests[before.files[p].manifest] == before.manifests[before.files[p].manifest]
    ensures View(after) == View(before)
  {
  }

  lemma ClearedView(before: Db, cleared: Db, destination: Path)
    requires RefsHaveRows(before.files, before.versions, before.manifests)
    requires DestinationCleared(before, cleared, destination)
    ensures View(cleared) == View(before)
  {
    hide InVersions, InFlight;
    forall p | p in before.files
      ensures before.files[p].manifest in cleared.manifests
      ensures cleared.manifests[before.files[p].manifest] == before.manifests[before.files[p].manifest]
    {
      assert InFiles(before.files, before.files[p].manifest);
    }
    SameFilesSameView(before, cleared);
  }

  lemma RenamedView(before: Db, after: Db, source: Path, destination: Path)
    requires RefsHaveRows(before.files, before.versions, before.manifests)
    requires DirectoryRenamed(before, after, source, destination)
    ensures DriveMoved(source, destination, Selected(source, before.files.Keys), View(before), View(after))
  {
    hide Moved, Selected, VersionsMoved, DirectoriesMoved;
  }

  lemma ClearedRefs(before: Db, cleared: Db, destination: Path)
    requires RefsHaveRows(before.files, before.versions, before.manifests)
    requires DestinationCleared(before, cleared, destination)
    ensures RefsHaveRows(cleared.files, cleared.versions, cleared.manifests)
  {
    hide InFlight;
    forall p | p in cleared.files
      ensures cleared.files[p].manifest in cleared.manifests && cleared.files[p].version >= 1
    {
      assert InFiles(before.files, before.files[p].manifest);
    }
    forall k | k in cleared.versions
      ensures cleared.versions[k].manifest in cleared.manifests && k.version >= 1
    {
      assert InVersions(cleared.versions, cleared.versions[k].manifest);
    }
  }

  lemma RenameExplained(before: Db, cleared: Db, after: Db, source: Path, destination: Path,
                        journal: seq<Event>, journal': seq<Event>)
    requires RefsHaveRows(before.files, before.versions, before.manifests)
    requires View(before) == Replay(journal) && View(after) == Replay(journal')
    requires DestinationCleared(before, cleared, destination) && !Exists(before, destination)
    requires cleared.files == before.files
    requires if source in before.files then journal' == journal + [Renamed(source, destination)]
             else DirectoryRenamed(cleared, after, source, destination)
    ensures destination !in View(before)
    ensures source in View(before) <==> source in before.files
    ensures if source in before.files
            then View(after) == Without(View(before), source)[destination := View(before)[source]]
            else DriveMoved(source, destination, Selected(source, View(before).Keys), View(before), View(after))
  {
    hide DestinationCleared, DirectoryRenamed, Replay, Selected;
    LiveKeys(before);
    ClearedView(before, cleared, destination);
    if source in before.files {
      ReplaySnoc(journal, Renamed(source, destination));
    } else {
      ClearedRefs(before, cleared, destination);
      RenamedView(cleared, after, source, destination);
    }
  }

  lemma UploadKeepsMissing(before: Db, after: Db)
    ensures SameNames(before, after) ==> after.missing == before.missing && after.directories == before.directories
    ensures forall path, version, content, u :: Committed(before, after, path, version, content, u) ==>
      after.missing == before.missing && after.directories == before.directories
  {
  }

  lemma RelabelKeepsTheRest(db: Db, source: Path, destination: Path)
    requires source in db.files
    ensures RelabelFile(db, source, destination).missing == db.missing
    ensures RelabelFile(db, source, destination).uploads == db.uploads
    ensures RelabelFile(db, source, destination).directories == db.directories
  {
    hide RelabelVersions;
  }

  lemma RenameKeepsTheRest(before: Db, cleared: Db, after: Db, source: Path, destination: Path, went: bool)
    requires DestinationCleared(before, cleared, destination) && cleared.files == before.files
    requires if !went then after == cleared
             else if source in before.files then after == RelabelFile(cleared, source, destination)
             else DirectoryRenamed(cleared, after, source, destination)
    ensures after.missing == before.missing && Extends(before.uploads, after.uploads)
    ensures if went && source !in before.files
            then DirectoriesMoved(source, destination, SelectedDirectories(source, before.directories),
                                  before.directories, after.directories)
            else after.directories == before.directories
  {
    hide Collected, FilesMoved, VersionsMoved, DirectoriesMoved, SelectedDirectories, RelabelFile;
    if source in before.files {
      RelabelKeepsTheRest(cleared, source, destination);
    }
  }

  lemma RenameKeepsOrder(op: Op, before: Db, clock0: Time, after: Db, clock: Time, scans: seq<Scan>)
    requires op.Rename? && after.missing == before.missing
    requires Tidy(before, clock0) && NoTombstoneBelow(before.deleted, Normalize(op.to)) ==> Tidy(after, clock)
    requires Rooted(before.directories, before.files) && StaysATree(before, Normalize(op.from), Normalize(op.to)) ==>
      Rooted(after.directories, after.files)
    ensures KeepsOrder(op, before, clock0, scans, after, clock, scans)
  {
    hide Tidy, Rooted, NoTombstoneBelow, StaysATree, Counted, Normalize;
  }

  /** An upload, for what it does to the drive. */
  method DoUpload(gateway: EncryptedBackend, op: Op) returns (answer: Answer, stopped: bool, ghost went: bool)
    requires gateway.Valid() && op.Upload?
    modifies gateway, gateway.cloud
    ensures gateway.Valid() && Tells(op, answer, went) && (stopped <==> answer.Interrupted?)
    ensures ExplainsDirectories(op, went, old(gateway.db), gateway.db)
    ensures ExplainsRefusal(op, answer, old(Now(gateway)), Now(gateway))
    ensures ExplainsDrive(op, went, old(View(gateway.db)), View(gateway.db))
    ensures ExplainsUpload(op, answer, old(Now(gateway)), Now(gateway))
    ensures OthersStay(gateway, op, old(Now(gateway)))
  {
    hide VaultInv, TablesInv, FreshFrom, Replay, View, Tidy, Rooted, Whole, Committed, SameNames, Normalize, MayHold,
         Counted, AllThere, NoStaleChunk, NextVersion, OnlyNeeded, Swept;
    var source := new Source(op.body);
    var r;
    r, went := gateway.UploadStream(op.name, source, op.size);
    UploadKeepsMissing(old(gateway.db), gateway.db);
    assert 0 <= op.size <= |op.body| ==> op.body[0..0 + op.size] == op.body[..op.size];
    if went {
      ReplaySnoc(old(gateway.journal), Wrote(Normalize(op.name), op.body[..op.size]));
    }
    stopped := r.Stopped?;
    answer := if r.Done? then Answered(r.value) else if stopped then Interrupted([]) else Refused(r.error);
  }

  /** A rename, for what it does to the drive. */
  method DoRename(gateway: EncryptedBackend, op: Op) returns (answer: Answer, stopped: bool, ghost went: bool)
    requires gateway.Valid() && op.Rename?
    modifies gateway, gateway.cloud
    ensures gateway.Valid() && Tells(op, answer, went) && (stopped <==> answer.Interrupted?)
    ensures ExplainsDirectories(op, went, old(gateway.db), gateway.db)
    ensures ExplainsRefusal(op, answer, old(Now(gateway)), Now(gateway))
    ensures ExplainsDrive(op, went, old(View(gateway.db)), View(gateway.db))
    ensures OthersStay(gateway, op, old(Now(gateway)))
  {
    hide VaultInv, TablesInv, FreshFrom, Replay, View, Tidy, Rooted, DirectoryRenamed, DestinationCleared, Normalize,
         StaysATree, PicksSubtree, Under, RefsHaveRows, OneReference, AllLaid, ChunksGood, PinsGood, RelabelFile,
         DriveMoved, NoTombstoneBelow, Counted, Forgets, MovesFreely, Parent, Selected, Exists,
         KeepsOrder, Extends, DirectoriesMoved, SelectedDirectories;
    ghost var before, source, destination := gateway.db, Normalize(op.from), Normalize(op.to);
    VaultInvTables(gateway.db, gateway.cloud.held, gateway.cloud.lost, gateway.gateway);
    var r;
    ghost var cleared;
    r, went, cleared := gateway.Rename(op.from, op.to);
    RenameKeepsTheRest(before, cleared, gateway.db, source, destination, went);
    RenameKeepsOrder(op, before, old(gateway.clock), gateway.db, gateway.clock, gateway.scans);
    if r.Raised? && r.error != RemoteFailure {
      RenameRefused(old(Now(gateway)), source, destination, r.error);
    }
    if went {
      RenameExplained(before, cleared, gateway.db, source, destination, old(gateway.journal), gateway.journal);
    }
    stopped := r.Stopped?;
    answer := if r.Done? then Answered(true) else if stopped then Interrupted([]) else Refused(r.error);
  }

  lemma RenameRefused(earlier: Moment, source: Path, destination: Path, error: Error)
    requires error ==
      if Exists(earlier.db, destination) then AlreadyExists
      else if DirectoryExists(earlier.db.directories, Parent(destination)) && Exists(earlier.db, source)
      then IntegrityError else NotFound
    requires Tidy(earlier.db, earlier.clock) && Rooted(earlier.db.directories, earlier.db.files) ==>
      NoTombstoneBelow(earlier.db.deleted, destination) ==>
      (source in earlier.db.files ||
       (source in earlier.db.directories && PicksSubtree(earlier.db.directories, earlier.db.files, source))) ==>
      error != IntegrityError
    ensures !MovesFreely(earlier, source, destination)
  {
    hide Tidy, Rooted, NoTombstoneBelow, PicksSubtree, Parent;
  }

  /** A download, for what the client gets. */
  method DoDownload(gateway: EncryptedBackend, op: Op) returns (answer: Answer, stopped: bool)
    requires gateway.Valid() && op.Download?
    modifies gateway, gateway.cloud
    ensures gateway.Valid() && (answer.Received? || answer.Interrupted?) && (stopped <==> answer.Interrupted?)
    ensures ExplainsDirectories(op, true, old(gateway.db), gateway.db)
    ensures ExplainsRefusal(op, answer, old(Now(gateway)), Now(gateway))
    ensures View(gateway.db) == old(View(gateway.db))
    ensures ExplainsDownload(op, answer, Smooth(old(Now(gateway)), Now(gateway)), View(gateway.db))
    ensures OthersStay(gateway, op, old(Now(gateway)))
  {
    hide VaultInv, TablesInv, FreshFrom, Replay, View, Normalize, RefsHaveRows, OneReference, AllLaid, ChunksGood,
         PinsGood, Tidy, Rooted, Counted;
    VaultInvTables(gateway.db, gateway.cloud.held, gateway.cloud.lost, gateway.gateway);
    LiveKeys(gateway.db);
    var r, written := gateway.Download(op.name);
    stopped := r.Stopped?;
    answer := if stopped then Interrupted(written) else Received(written, r.Done?);
  }

  /** A deletion, for what it does to the drive. */
  method DoDelete(gateway: EncryptedBackend, op: Op) returns (answer: Answer, stopped: bool, ghost went: bool)
    requires gateway.Valid() && op.Delete?
    modifies gateway, gateway.cloud
    ensures gateway.Valid() && Tells(op, answer, went) && (stopped <==> answer.Interrupted?)
    ensures ExplainsDirectories(op, went, old(gateway.db), gateway.db)
    ensures ExplainsRefusal(op, answer, old(Now(gateway)), Now(gateway))
    ensures ExplainsDrive(op, went, old(View(gateway.db)), View(gateway.db))
    ensures OthersStay(gateway, op, old(Now(gateway)))
  {
    hide VaultInv, TablesInv, FreshFrom, Replay, View, Tidy, Rooted, Normalize, RefsHaveRows, OneReference, AllLaid,
         ChunksGood, PinsGood, Counted;
    VaultInvTables(gateway.db, gateway.cloud.held, gateway.cloud.lost, gateway.gateway);
    LiveKeys(gateway.db);
    var r;
    r, went := gateway.Delete(op.name, op.directory);
    if went && !op.directory {
      ReplaySnoc(old(gateway.journal), Removed(Normalize(op.name)));
    }
    stopped := r.Stopped?;
    answer := if r.Done? then Answered(true) else if stopped then Interrupted([]) else Refused(r.error);
  }

  /** A listing, for what it does to the drive. */
  method DoList(gateway: EncryptedBackend, op: Op) returns (answer: Answer, stopped: bool)
    requires gateway.Valid() && op.ListDirectory?
    modifies gateway, gateway.cloud
    ensures gateway.Valid() && Tells(op, answer, true) && (stopped <==> answer.Interrupted?)
    ensures ExplainsDirectories(op, true, old(gateway.db), gateway.db)
    ensures ExplainsRefusal(op, answer, old(Now(gateway)), Now(gateway))
    ensures ExplainsListing(gateway.config, answer, old(Now(gateway)), Now(gateway))
    ensures KeepsOrder(op, old(gateway.db), old(gateway.clock), old(gateway.scans),
                       gateway.db, gateway.clock, gateway.scans)
    ensures gateway.db.uploads == old(gateway.db).uploads && gateway.cloud.lost == old(gateway.cloud.lost)
    ensures gateway.clock >= old(gateway.clock)
  {
    hide VaultInv, TablesInv, FreshFrom, Replay, View, Tidy, Rooted, Whole, Counted, Scanned, EntriesOf,
         ShowsChildren, RefsHaveRows, OneReference, AllLaid, ChunksGood, PinsGood;
    ghost var before := gateway.db;
    var r, gone := gateway.List(op.name);
    ScannedUploads(before, old(gateway.clock), old(gateway.scans), gateway.db, gateway.clock, gateway.scans,
                   gateway.cloud.faults == old(gateway.cloud.faults), gateway.cloud.held, gateway.cloud.lost,
                   gateway.config.missingObservations, gateway.config.missingGrace);
    stopped := r.Stopped?;
    answer := if r.Done? then Answered(true) else if stopped then Interrupted([]) else Refused(r.error);
  }

  lemma ScannedUploads(before: Db, clock0: Time, scans0: seq<Scan>, after: Db, clock: Time, scans: seq<Scan>,
                       clean: bool, held: Held, lost: set<Part>, observations: nat, grace: nat)
    requires Scanned(before, clock0, scans0, after, clock, scans, clean, held, lost, observations, grace)
    ensures after.uploads == before.uploads && after.directories == before.directories
    ensures scans == scans0 || |scans| == |scans0| + 1
  {
  }

  /** A new directory, a collection, or a vault file lost: nothing to see. */
  method DoOther(gateway: EncryptedBackend, op: Op) returns (answer: Answer, stopped: bool, ghost went: bool)
    requires gateway.Valid() && (op.Gc? || op.Mkdir? || op.LoseFiles?)
    modifies gateway, gateway.cloud
    ensures gateway.Valid() && Tells(op, answer, went) && (stopped <==> answer.Interrupted?)
    ensures ExplainsDirectories(op, went, old(gateway.db), gateway.db)
    ensures ExplainsRefusal(op, answer, old(Now(gateway)), Now(gateway))
    ensures View(gateway.db) == old(View(gateway.db))
    ensures OthersStay(gateway, op, old(Now(gateway)))
  {
    hide VaultInv, TablesInv, FreshFrom, Replay, View, Tidy, Rooted, Normalize, Swept, RefsHaveRows,
         OneReference, AllLaid, ChunksGood, PinsGood, MayHold, Counted;
    match op {
      case Gc(force) =>
        var r, _ := gateway.Gc(force);
        stopped, went := r.Stopped?, r.Done?;
        answer := if r.Done? then Answered(r.value.0) else if stopped then Interrupted([]) else Refused(r.error);
      case Mkdir(name) =>
        var r := gateway.Mkdir(name);
        TidyKept(old(gateway.db), gateway.db, gateway.clock, gateway.clock);
        stopped, went := r.Stopped?, gateway.db != old(gateway.db);
        answer := if r.Done? then Answered(true) else if stopped then Interrupted([]) else Refused(r.error);
      case LoseFiles(gone) =>
        OutsideLossKeeps(gateway.db, gateway.cloud.held, gateway.cloud.lost, gateway.gateway, gone);
        gateway.cloud.LoseFiles(gone);
        answer, stopped, went := Answered(true), false, true;
    }
  }

  ghost function Now(gateway: EncryptedBackend): Moment
    reads gateway, gateway.cloud
  {
    Moment(View(gateway.db), gateway.db, gateway.clock, gateway.scans, gateway.lastReconcile, gateway.cloud.held,
           gateway.cloud.faults, gateway.cloud.lost)
  }

  /** What an operation other than a listing leaves as it was at the moment before. */
  ghost predicate OthersStay(gateway: EncryptedBackend, op: Op, earlier: Moment)
    reads gateway, gateway.cloud
  {
    && gateway.scans == earlier.scans && gateway.db.missing == earlier.db.missing
    && gateway.lastReconcile == earlier.lastReconcile && gateway.clock >= earlier.clock
    && KeepsOrder(op, earlier.db, earlier.clock, earlier.scans, gateway.db, gateway.clock, gateway.scans)
    && Extends(earlier.db.uploads, gateway.db.uploads)
    && gateway.cloud.lost == earlier.lost + if op.LoseFiles? then op.gone * gateway.cloud.lost else {}
  }

  /** One operation of a run. The process may stop in it, or when all is done but the answer; then it
      comes back. */
  method Step(gateway: EncryptedBackend, op: Op) returns (answer: Answer, ghost went: bool)
    requires gateway.Valid()
    modifies gateway, gateway.cloud
    ensures gateway.Valid() && Explains(gateway.config, op, answer, went, old(Now(gateway)), Now(gateway))
  {
    hide VaultInv, FreshFrom, Replay, View, Normalize, DriveMoved, ExplainsUpload, ExplainsListing, KeepsOrder,
         Selected, ExplainsRefusal, ExplainsDirectories;
    var stopped;
    went := true;
    match op {
      case Upload(_, _, _) => answer, stopped, went := DoUpload(gateway, op);
      case Download(_) => answer, stopped := DoDownload(gateway, op);
      case Delete(_, _) => answer, stopped, went := DoDelete(gateway, op);
      case Rename(_, _) => answer, stopped, went := DoRename(gateway, op);
      case ListDirectory(_) => answer, stopped := DoList(gateway, op);
      case _ => answer, stopped, went := DoOther(gateway, op);
    }
    if * {
      CutShort(gateway.config, op, answer, old(Now(gateway)), Now(gateway));
      answer, stopped := Interrupted(if op.Download? then answer.content else []), true;
    }
    if stopped {
      CutShort(gateway.config, op, answer, old(Now(gateway)), Now(gateway));
      gateway.Restart();
    }
  }

  /** A stop says less than any answer. */
  lemma CutShort(config: Config, op: Op, answer: Answer, earlier: Moment, later: Moment)
    ensures op.Upload? ==> ExplainsUpload(op, Interrupted([]), earlier, later.(lastReconcile := 0))
    ensures forall content, t ::
      ExplainsRefusal(op, Interrupted(content), earlier, later.(lastReconcile := t))
    ensures op.ListDirectory? && ExplainsListing(config, answer, earlier, later) ==>
      ExplainsListing(config, Interrupted([]), earlier, later) &&
      ExplainsListing(config, Interrupted([]), earlier, later.(lastReconcile := 0))
  {
    hide Scanned;
  }

  /** The moments of a run, from the first to the last. */
  ghost predicate Explained(config: Config, ops: seq<Op>, answers: seq<Answer>, went: seq<bool>, moments: seq<Moment>) {
    && |answers| == |went| == |ops| && |moments| == |ops| + 1
    && (forall i :: 0 <= i <= |ops| ==> TablesInv(moments[i].db) && moments[i].drive == View(moments[i].db))
    && forall i :: 0 <= i < |ops| ==> Explains(config, ops[i], answers[i], went[i], moments[i], moments[i + 1])
  }

  /** Every run refines the plain drive: whatever failed and wherever the process stopped, each
      operation did what `Explains` says, and every download answered from that drive. */
  method Run(gateway: EncryptedBackend, ops: seq<Op>)
    returns (answers: seq<Answer>, ghost went: seq<bool>, ghost moments: seq<Moment>)
    requires gateway.Valid()
    modifies gateway, gateway.cloud
    ensures gateway.Valid() && Explained(gateway.config, ops, answers, went, moments)
    ensures moments[0] == old(Now(gateway)) && moments[|ops|] == Now(gateway)
  {
    hide Explains, VaultInv, TablesInv, FreshFrom, Replay, View;
    VaultInvTables(gateway.db, gateway.cloud.held, gateway.cloud.lost, gateway.gateway);
    answers, went, moments := [], [], [Now(gateway)];
    for n := 0 to |ops|
      invariant gateway.Valid() && Explained(gateway.config, ops[..n], answers, went, moments)
      invariant moments[0] == old(Now(gateway)) && moments[n] == Now(gateway)
    {
      ghost var did;
      var answer;
      answer, did := Step(gateway, ops[n]);
      VaultInvTables(gateway.db, gateway.cloud.held, gateway.cloud.lost, gateway.gateway);
      ExplainedMore(gateway.config, ops, n, answers, went, moments, answer, did, Now(gateway));
      answers, went, moments := answers + [answer], went + [did], moments + [Now(gateway)];
    }
    assert ops[..|ops|] == ops;
  }

  lemma ExplainedMore(config: Config, ops: seq<Op>, n: nat, answers: seq<Answer>, went: seq<bool>, moments: seq<Moment>,
                      answer: Answer, did: bool, last: Moment)
    requires n < |ops| && Explained(config, ops[..n], answers, went, moments)
    requires TablesInv(last.db) && last.drive == View(last.db)
    requires Explains(config, ops[n], answer, did, moments[n], last)
    ensures Explained(config, ops[..n + 1], answers + [answer], went + [did], moments + [last])
  {
    hide Explains, TablesInv;
    var ops', answers', went', moments' := ops[..n + 1], answers + [answer], went + [did], moments + [last];
    forall i | 0 <= i < |ops'|
      ensures Explains(config, ops'[i], answers'[i], went'[i], moments'[i], moments'[i + 1])
    {
      assert i < n ==> ops[..n][i] == ops'[i];
    }
  }

  // ---- What follows for whole runs ------------------------------------------------------

  /** When nothing is removed from outside, each download of a run that was not cut short, and in
      which no remote call failed, gives a live path's bytes and refuses every other path. */
  lemma {:induction false} DownloadsSucceed(config: Config, ops: seq<Op>, answers: seq<Answer>, went: seq<bool>,
                                            moments: seq<Moment>, n: nat)
    requires Explained(config, ops, answers, went, moments) && moments[0].lost == {}
    requires n < |ops| && ops[n].Download? && answers[n].Received? && moments[n + 1].faults == moments[n].faults
    requires forall i :: 0 <= i < n ==> !ops[i].LoseFiles?
    ensures var path, drive := Normalize(ops[n].name), moments[n].drive;
      answers[n] == if path in drive then Received(drive[path], true) else Received([], false)
  {
    hide TablesInv, ExplainsDrive, ExplainsDirectories, ExplainsRefusal, ExplainsListing, KeepsOrder, Extends, Normalize;
    NothingLostYet(config, ops, answers, went, moments, n);
    assert Explains(config, ops[n], answers[n], went[n], moments[n], moments[n + 1]);
  }

  lemma {:induction false} NothingLostYet(config: Config, ops: seq<Op>, answers: seq<Answer>, went: seq<bool>,
                                          moments: seq<Moment>, n: nat)
    requires Explained(config, ops, answers, went, moments) && moments[0].lost == {} && n <= |ops|
    requires forall i :: 0 <= i < n ==> !ops[i].LoseFiles?
    ensures moments[n].lost == {}
  {
    hide TablesInv, ExplainsDrive, ExplainsDirectories, ExplainsRefusal, ExplainsListing, ExplainsUpload,
         ExplainsDownload, KeepsOrder, Extends;
    if n > 0 {
      NothingLostYet(config, ops, answers, went, moments, n - 1);
      assert Explains(config, ops[n - 1], answers[n - 1], went[n - 1], moments[n - 1], moments[n]);
    }
  }

  /** A new gateway starts with everything in order. */
  lemma NothingIsInOrder()
    ensures Tidy(EMPTY_DB, 0) && Rooted(EMPTY_DB.directories, EMPTY_DB.files) && Counted(EMPTY_DB.missing, [])
    ensures InTime([], 0)
  {
  }

  /** At every moment of a run the counters of missing files count the scans of the run; histories are
      in order as long as each rename so far found no tombstones below its destination, and the tree
      is a tree as long as each directory renamed so far took just its subtree along and did not go
      into itself. */
  lemma {:induction false} OrderStays(config: Config, ops: seq<Op>, answers: seq<Answer>, went: seq<bool>,
                                      moments: seq<Moment>, n: nat)
    requires Explained(config, ops, answers, went, moments) && n <= |ops|
    ensures Counted(moments[0].db.missing, moments[0].scans) ==> Counted(moments[n].db.missing, moments[n].scans)
    ensures (forall i :: 0 <= i < n ==> FindsNoTombstones(ops[i], moments[i].db)) ==>
      (Tidy(moments[0].db, moments[0].clock) ==> Tidy(moments[n].db, moments[n].clock))
    ensures (forall i :: 0 <= i < n ==> KeepsTree(ops[i], moments[i].db)) ==>
      (Rooted(moments[0].db.directories, moments[0].db.files) ==> Rooted(moments[n].db.directories, moments[n].db.files))
  {
    hide Tidy, Rooted, Counted, FindsNoTombstones, KeepsTree, ExplainsDrive, ExplainsListing, ExplainsUpload,
         ExplainsDownload, ExplainsDirectories, ExplainsRefusal, Extends, TablesInv;
    if n > 0 {
      OrderStays(config, ops, answers, went, moments, n - 1);
      assert Explains(config, ops[n - 1], answers[n - 1], went[n - 1], moments[n - 1], moments[n]);
    }
  }

  /** Where the streak begins that made a scan give up a path. */
  lemma StreakShown(earlier: seq<Scan>, scan: Scan, observations: nat, before: Time, p: Path) returns (first: nat)
    requires Settles(scan, earlier, observations, before) && p in scan.confirmed
    ensures first <= |earlier| && |earlier| + 1 - first >= observations
    ensures forall i :: first <= i < |earlier| + 1 ==> p in (earlier + [scan])[i].found
    ensures (earlier + [scan])[first].at <= before
  {
    var seen := earlier + [Scan(scan.found, {}, scan.at)];
    hide Streak;
    StreakBound(seen, p);
    first := |seen| - Streak(seen, p);
    forall i | first <= i < |seen|
      ensures p in (earlier + [scan])[i].found && (earlier + [scan])[i].at == seen[i].at
    {
      assert p in seen[i].found;
    }
  }

  lemma DroppedOnce(config: Config, op: Op, answer: Answer, went: bool, earlier: Moment, later: Moment, p: Path)
    returns (first: nat)
    requires Explains(config, op, answer, went, earlier, later) && Counted(earlier.db.missing, earlier.scans)
    requires p in earlier.drive && p !in later.drive && !op.Delete? && !op.Rename?
    ensures op.ListDirectory? && |later.scans| == |earlier.scans| + 1
    ensures first < |later.scans| && |later.scans| - first >= config.missingObservations
    ensures forall i :: first <= i < |later.scans| ==> p in later.scans[i].found
    ensures later.scans[first].at <= later.scans[|later.scans| - 1].at - config.missingGrace
  {
    hide KeepsOrder, Extends, Tombstoned, Counted, Settles, ExplainsUpload, ExplainsDownload, DriveMoved, Selected,
         Normalize, ExplainsDirectories, ExplainsRefusal;
    var scan := later.scans[|earlier.scans|];
    assert later.scans == earlier.scans + [scan];
    first := StreakShown(earlier.scans, scan, config.missingObservations, scan.at - config.missingGrace, p);
  }

  /** A path that neither a deletion nor a rename took from the drive was dropped by a listing, and
      then it had been missed by enough scans in a row, the last of them the listing's own, and the
      first of these long enough before. One bad listing is not enough, whatever calls failed. */
  lemma {:induction false} DroppedWasMissed(config: Config, ops: seq<Op>, answers: seq<Answer>, went: seq<bool>,
                                            moments: seq<Moment>, n: nat, p: Path) returns (first: nat)
    requires Explained(config, ops, answers, went, moments) && n < |ops|
    requires Counted(moments[0].db.missing, moments[0].scans)
    requires p in moments[n].drive && p !in moments[n + 1].drive && !ops[n].Delete? && !ops[n].Rename?
    ensures var scans := moments[n + 1].scans;
      && ops[n].ListDirectory? && |scans| == |moments[n].scans| + 1
      && first < |scans| && |scans| - first >= config.missingObservations
      && (forall i :: first <= i < |scans| ==> p in scans[i].found)
      && scans[first].at <= scans[|scans| - 1].at - config.missingGrace
  {
    hide TablesInv, Explains, Counted, StreakStart, Streak;
    OrderStays(config, ops, answers, went, moments, n);
    first := DroppedOnce(config, ops[n], answers[n], went[n], moments[n], moments[n + 1], p);
  }

  /** Each scan is later than the one before, and none is yet to come. */
  ghost predicate InTime(scans: seq<Scan>, clock: Time) {
    && (forall i, j :: 0 <= i < j < |scans| ==> scans[i].at < scans[j].at)
    && (forall i :: 0 <= i < |scans| ==> scans[i].at <= clock)
  }

  lemma {:induction false} ScansInTime(config: Config, ops: seq<Op>, answers: seq<Answer>, went: seq<bool>,
                                       moments: seq<Moment>, n: nat)
    requires Explained(config, ops, answers, went, moments) && n <= |ops|
    requires InTime(moments[0].scans, moments[0].clock)
    ensures InTime(moments[n].scans, moments[n].clock)
  {
    hide TablesInv, ExplainsDrive, ExplainsDirectories, ExplainsRefusal, ExplainsUpload, ExplainsDownload, KeepsOrder,
         Extends, Tombstoned, Counted, Settles, Incomplete, View;
    if n > 0 {
      ScansInTime(config, ops, answers, went, moments, n - 1);
      assert Explains(config, ops[n - 1], answers[n - 1], went[n - 1], moments[n - 1], moments[n]);
    }
  }

  /** A listing that is due, meets no failing call and is not cut short: it looks for missing files. */
  predicate Looks(config: Config, op: Op, answer: Answer, earlier: Moment, later: Moment) {
    && op.ListDirectory? && !answer.Interrupted? && later.faults == earlier.faults
    && later.clock - earlier.lastReconcile >= config.reconcileInterval
  }

  /** How many of the operations from `from` up to `n` looked. */
  function LookedTimes(config: Config, ops: seq<Op>, answers: seq<Answer>, moments: seq<Moment>, from: nat, n: nat): nat
    requires from <= n <= |ops| == |answers| && |moments| == |ops| + 1
    decreases n
  {
    if n == from then 0
    else
      LookedTimes(config, ops, answers, moments, from, n - 1) +
      if Looks(config, ops[n - 1], answers[n - 1], moments[n - 1], moments[n]) then 1 else 0
  }

  /** From moment `from` up to moment `n`, whenever a listing begins with `p` on the drive, the file at
      `p` lacks a part in the vault; and no listing in between completed a scan in which a call failed. */
  ghost predicate LacksParts(ops: seq<Op>, moments: seq<Moment>, from: nat, n: nat, p: Path)
    requires from <= n <= |ops| && |moments| == |ops| + 1
  {
    forall i :: from <= i < n && ops[i].ListDirectory? ==>
      && (p in moments[i].drive ==> p in Incomplete(moments[i].db, moments[i].held.Keys))
      && (moments[i + 1].scans != moments[i].scans ==> moments[i + 1].faults == moments[i].faults)
  }

  lemma {:induction false} StreakAtLeast(scans: seq<Scan>, p: Path, from: nat)
    requires from <= |scans|
    requires forall i :: from <= i < |scans| ==> p in scans[i].found && p !in scans[i].confirmed
    ensures Streak(scans, p) >= |scans| - from
  {
    if from < |scans| {
      StreakAtLeast(scans[..|scans| - 1], p, from);
    }
  }

  lemma LookedOnce(config: Config, op: Op, answer: Answer, went: bool, earlier: Moment, later: Moment, p: Path)
    requires Explains(config, op, answer, went, earlier, later) && p in later.drive
    requires op.ListDirectory? ==>
      && (p in earlier.drive ==> p in Incomplete(earlier.db, earlier.held.Keys))
      && (later.scans != earlier.scans ==> later.faults == earlier.faults)
    ensures later.scans == earlier.scans ||
            (op.ListDirectory? && later.scans == earlier.scans + [later.scans[|earlier.scans|]] &&
             p in later.scans[|earlier.scans|].found && p !in later.scans[|earlier.scans|].confirmed)
    ensures Looks(config, op, answer, earlier, later) ==>
      |later.scans| == |earlier.scans| + 1 && later.scans[|earlier.scans|].at == later.clock
  {
    hide ExplainsDrive, ExplainsDirectories, ExplainsRefusal, ExplainsUpload, ExplainsDownload, KeepsOrder, Extends,
         Tombstoned, Counted, Settles, Incomplete;
    if later.scans != earlier.scans {
      assert later.scans == earlier.scans + [later.scans[|earlier.scans|]];
    }
  }

  /** While the path stays on the drive and lacks a part, each scan counts it, and each listing that
      looks makes one. */
  lemma {:induction false} LookedAndMissed(config: Config, ops: seq<Op>, answers: seq<Answer>, went: seq<bool>,
                                           moments: seq<Moment>, from: nat, n: nat, p: Path)
    requires Explained(config, ops, answers, went, moments) && from <= n <= |ops|
    requires LacksParts(ops, moments, from, n, p) && forall i :: from < i <= n ==> p in moments[i].drive
    ensures moments[from].scans <= moments[n].scans
    ensures |moments[n].scans| >= |moments[from].scans| + LookedTimes(config, ops, answers, moments, from, n)
    ensures forall i :: |moments[from].scans| <= i < |moments[n].scans| ==>
      p in moments[n].scans[i].found && p !in moments[n].scans[i].confirmed
    decreases n
  {
    hide Explains, TablesInv, Incomplete, View, Looks;
    if n > from {
      LookedAndMissed(config, ops, answers, went, moments, from, n - 1, p);
      assert Explains(config, ops[n - 1], answers[n - 1], went[n - 1], moments[n - 1], moments[n]);
      LookedOnce(config, ops[n - 1], answers[n - 1], went[n - 1], moments[n - 1], moments[n], p);
    }
  }

  /** The last listing of those that span the grace gives the path up. */
  lemma GivenUp(config: Config, op: Op, answer: Answer, earlier: Moment, later: Moment, p: Path, first: nat)
    requires op.ListDirectory? && ExplainsListing(config, answer, earlier, later)
    requires Looks(config, op, answer, earlier, later) && p in Incomplete(earlier.db, earlier.held.Keys)
    requires Counted(earlier.db.missing, earlier.scans) && InTime(later.scans, later.clock)
    requires first <= |earlier.scans| && |earlier.scans| + 1 - first >= config.missingObservations
    requires forall i :: first <= i < |earlier.scans| ==>
      p in earlier.scans[i].found && p !in earlier.scans[i].confirmed
    requires first < |later.scans| && later.clock - later.scans[first].at >= config.missingGrace
    ensures p !in later.drive
  {
    hide Tombstoned, Counted, Incomplete, Streak;
    var scan := later.scans[|earlier.scans|];
    var seen := earlier.scans + [Scan(scan.found, {}, scan.at)];
    StreakAtLeast(seen, p, first);
    var start := |seen| - Streak(seen, p);
    assert later.scans == earlier.scans + [scan];
    assert seen[start].at == later.scans[start].at <= later.scans[first].at;
  }

  /** A path that lacks a part is gone from the drive once enough listings looked, the first and the
      last of them the grace apart. */
  lemma {:induction false} MissedIsDropped(config: Config, ops: seq<Op>, answers: seq<Answer>, went: seq<bool>,
                                           moments: seq<Moment>, from: nat, n: nat, p: Path) returns (gone: nat)
    requires Explained(config, ops, answers, went, moments) && from <= n < |ops|
    requires Counted(moments[0].db.missing, moments[0].scans) && InTime(moments[0].scans, moments[0].clock)
    requires LacksParts(ops, moments, from, n + 1, p)
    requires Looks(config, ops[from], answers[from], moments[from], moments[from + 1])
    requires Looks(config, ops[n], answers[n], moments[n], moments[n + 1])
    requires LookedTimes(config, ops, answers, moments, from, n + 1) >= config.missingObservations
    requires moments[n + 1].clock - moments[from + 1].clock >= config.missingGrace
    ensures from < gone <= n + 1 && p !in moments[gone].drive
  {
    hide TablesInv, View, Counted, Incomplete, InTime, Explains, Looks, LacksParts, Tidy, Rooted, FindsNoTombstones,
         KeepsTree, LookedTimes;
    if g :| from < g <= n && p !in moments[g].drive {
      return g;
    }
    gone := n + 1;
    OrderStays(config, ops, answers, went, moments, n);
    ScansInTime(config, ops, answers, went, moments, n + 1);
    if p in moments[n + 1].drive {
      FirstAndLast(config, ops, answers, went, moments, from, n, p);
      ListingExplained(config, ops[n], answers[n], went[n], moments[n], moments[n + 1]);
      GivenUp(config, ops[n], answers[n], moments[n], moments[n + 1], p, |moments[from].scans|);
    }
  }

  /** The scans of a path that stays and lacks a part, from the listing `from` that looked to the
      listing `n` that did. */
  lemma {:induction false} FirstAndLast(config: Config, ops: seq<Op>, answers: seq<Answer>, went: seq<bool>,
                                        moments: seq<Moment>, from: nat, n: nat, p: Path)
    requires Explained(config, ops, answers, went, moments) && from <= n < |ops|
    requires LacksParts(ops, moments, from, n + 1, p) && forall i :: from < i <= n + 1 ==> p in moments[i].drive
    requires Looks(config, ops[from], answers[from], moments[from], moments[from + 1])
    requires Looks(config, ops[n], answers[n], moments[n], moments[n + 1])
    ensures ops[n].ListDirectory? && p in moments[n].drive && p in Incomplete(moments[n].db, moments[n].held.Keys)
    ensures |moments[from].scans| <= |moments[n].scans| < |moments[n + 1].scans|
    ensures |moments[n].scans| + 1 >= |moments[from].scans| + LookedTimes(config, ops, answers, moments, from, n + 1)
    ensures forall i :: |moments[from].scans| <= i < |moments[n].scans| ==>
      p in moments[n].scans[i].found && p !in moments[n].scans[i].confirmed
    ensures moments[n + 1].scans[|moments[from].scans|].at == moments[from + 1].clock
  {
    hide TablesInv, View, Counted, Incomplete, Explains, Looks;
    LookedAndMissed(config, ops, answers, went, moments, from, n, p);
    LookedAndMissed(config, ops, answers, went, moments, from + 1, n + 1, p);
    LookedOnce(config, ops[from], answers[from], went[from], moments[from], moments[from + 1], p);
    LookedOnce(config, ops[n], answers[n], went[n], moments[n], moments[n + 1], p);
    LooksIsListing(config, ops[n], answers[n], moments[n], moments[n + 1]);
    ListingExplained(config, ops[n], answers[n], went[n], moments[n], moments[n + 1]);
  }

  lemma LooksIsListing(config: Config, op: Op, answer: Answer, earlier: Moment, later: Moment)
    requires Looks(config, op, answer, earlier, later)
    ensures op.ListDirectory?
  {
  }

  lemma ListingExplained(config: Config, op: Op, answer: Answer, went: bool, earlier: Moment, later: Moment)
    requires Explains(config, op, answer, went, earlier, later) && op.ListDirectory?
    ensures ExplainsListing(config, answer, earlier, later) && later.drive.Keys <= earlier.drive.Keys
  {
    hide KeepsOrder, Scanned, ScannedWhenDue;
  }

  /** An upload that was stopped while its manifest was being verified keeps that manifest for good: at
      every later moment its row is the same, so the manifest and its whole chunk list are there. */
  lemma {:induction false} StoppedUploadPins(config: Config, ops: seq<Op>, answers: seq<Answer>, went: seq<bool>,
                                             moments: seq<Moment>, from: nat, n: nat, u: Id, m: Id)
    requires Explained(config, ops, answers, went, moments) && from <= n <= |ops| && u in moments[from].db.uploads
    requires moments[from].db.uploads[u].status == VERIFYING && moments[from].db.uploads[u].manifest == Some(m)
    ensures var db := moments[n].db;
      && u in db.uploads && db.uploads[u] == moments[from].db.uploads[u]
      && m in db.manifests && WellLaid(db.manifestChunks, db.chunks, m, db.manifests[m])
  {
    hide ExplainsDrive, ExplainsDirectories, ExplainsRefusal, ExplainsListing, ExplainsUpload, ExplainsDownload,
         KeepsOrder, WellLaid, View, ChunksGood, OneReference, RefsHaveRows;
    if n > from {
      StoppedUploadPins(config, ops, answers, went, moments, from, n - 1, u, m);
      assert Explains(config, ops[n - 1], answers[n - 1], went[n - 1], moments[n - 1], moments[n]);
    }
    assert TablesInv(moments[n].db);
  }

  /** Where an operation leaves the file that was at `p`. */
  function Follow(p: Path, op: Op, went: bool, drive: Namespace): Path {
    if op.Rename? && went then
      var source, destination := Normalize(op.from), Normalize(op.to);
      if source == p then destination
      else if source !in drive && p in Selected(source, drive.Keys) then Moved(source, destination, p)
      else p
    else p
  }

  /** The operation neither wrote nor deleted the file at `p`, nor gave it up as removed from the
      vault. */
  predicate Spares(p: Path, op: Op, went: bool, dropped: set<Path>) {
    match op
    case Upload(name, _, _) => Normalize(name) == p ==> !went
    case Delete(name, directory) => !directory && Normalize(name) == p ==> !went
    case ListDirectory(_) => p !in dropped
    case _ => true
  }

  lemma FollowOnce(p: Path, op: Op, went: bool, before: Namespace, after: Namespace)
    requires ExplainsDrive(op, went, before, after) && p in before && !op.ListDirectory? && Spares(p, op, went, {})
    ensures var q := Follow(p, op, went, before); q in after && after[q] == before[p]
  {
    hide Normalize, Selected, Moved;
  }

  /** `trail` follows one file through its renames and those of directories above it, from moment
      `from` to moment `n`, while it is neither written, nor deleted, nor given up. */
  ghost predicate Trailed(ops: seq<Op>, went: seq<bool>, moments: seq<Moment>, trail: seq<Path>, from: nat, n: nat)
    requires |went| == |ops| && |moments| == |trail| == |ops| + 1 && from <= n <= |ops|
  {
    forall i :: from <= i < n ==>
      && trail[i + 1] == Follow(trail[i], ops[i], went[i], moments[i].drive)
      && Spares(trail[i], ops[i], went[i], Dropped(moments[i], moments[i + 1]))
  }

  /** Bytes once at a path stay with their file, whatever calls fail and wherever the process stops. */
  lemma {:induction false} BytesFollowTheFile(config: Config, ops: seq<Op>, answers: seq<Answer>, went: seq<bool>,
                                              moments: seq<Moment>, trail: seq<Path>, from: nat, n: nat, content: Bytes)
    requires Explained(config, ops, answers, went, moments) && |trail| == |ops| + 1 && from <= n <= |ops|
    requires trail[from] in moments[from].drive && moments[from].drive[trail[from]] == content
    requires Trailed(ops, went, moments, trail, from, n)
    ensures trail[n] in moments[n].drive && moments[n].drive[trail[n]] == content
  {
    hide ExplainsDrive, ExplainsDirectories, ExplainsRefusal, ExplainsUpload, ExplainsDownload, Scanned, KeepsOrder,
         Follow, Extends, TablesInv, Normalize;
    if n > from {
      BytesFollowTheFile(config, ops, answers, went, moments, trail, from, n - 1, content);
      var i := n - 1;
      assert Explains(config, ops[i], answers[i], went[i], moments[i], moments[i + 1]);
      if ops[i].ListDirectory? {
        StaysInPlace(trail[i], ops[i], went[i], moments[i].drive);
      } else {
        assert Spares(trail[i], ops[i], went[i], {});
        FollowOnce(trail[i], ops[i], went[i], moments[i].drive, moments[i + 1].drive);
      }
    }
  }

  lemma StaysInPlace(p: Path, op: Op, went: bool, drive: Namespace)
    requires !op.Rename?
    ensures Follow(p, op, went, drive) == p
  {
  }

  /** From an upload that took effect to a later download of that file, wherever it is by then: the
      client gets exactly the bytes uploaded. */
  lemma {:induction false} UploadThenDownload(config: Config, ops: seq<Op>, answers: seq<Answer>, went: seq<bool>,
                                              moments: seq<Moment>, trail: seq<Path>, k: nat, n: nat)
    requires Explained(config, ops, answers, went, moments) && |trail| == |ops| + 1 && k < n < |ops|
    requires ops[k].Upload? && went[k] && trail[k + 1] == Normalize(ops[k].name)
    requires Trailed(ops, went, moments, trail, k + 1, n)
    requires ops[n].Download? && Normalize(ops[n].name) == trail[n] && answers[n].Received?
    requires moments[0].lost == {} && forall i :: 0 <= i < n ==> !ops[i].LoseFiles?
    requires moments[n + 1].faults == moments[n].faults
    ensures 0 <= ops[k].size <= |ops[k].body| && answers[n] == Received(ops[k].body[..ops[k].size], true)
  {
    hide TablesInv, ExplainsDirectories, ExplainsRefusal, ExplainsUpload, ExplainsDownload, ExplainsListing, KeepsOrder,
         Extends, Normalize, Trailed;
    assert Explains(config, ops[k], answers[k], went[k], moments[k], moments[k + 1]);
    BytesFollowTheFile(config, ops, answers, went, moments, trail, k + 1, n, ops[k].body[..ops[k].size]);
    DownloadsSucceed(config, ops, answers, went, moments, n);
  }
}
