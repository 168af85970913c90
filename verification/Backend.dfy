/** The gateway itself: every operation of `EncryptedBackend`, as a sequence of atomic steps on its
    database and on the vault. Each method may fail at any remote call and may be left by the
    process in any step, and each keeps `Valid` at every one of these ends. */
module Backend {
  import opened Tables
  import opened Layout
  import opened Capsules
  import opened Vault
  import opened Remote
  import opened Paths
  import opened History
  import opened Tree
  import opened Renames
  import opened Observations
  import opened Retention
  import opened Steps

  const MIB := 1024 * 1024

  /** The options of the constructor, after its clamping. */
  datatype Config = Config(
    chunkSize: nat,
    retentionDays: nat,
    smallVersions: nat,
    mediumVersions: nat,
    largeVersions: nat,
    mediumThreshold: nat,
    largeThreshold: nat,
    capacityLimit: nat,
    gcInterval: nat,
    orphanGrace: nat,
    reconcileInterval: nat,
    missingGrace: nat,
    missingObservations: nat)
  {
    /** What the constructor lets through. */
    predicate Valid() {
      && 4 * MIB <= chunkSize <= 16 * MIB
      && 0 < mediumThreshold < largeThreshold
      && gcInterval >= 60 && orphanGrace >= 60 && missingObservations >= 1
    }

    /** A file of this size may have an old version with so many newer ones. The current version counts
        too. */
    predicate Keeps(size: nat, newer: nat) {
      && (size < mediumThreshold ==> newer + 1 < smallVersions)
      && (mediumThreshold <= size <= largeThreshold ==> newer + 1 < mediumVersions)
      && (largeThreshold < size ==> newer + 1 < largeVersions)
    }
  }

  class EncryptedBackend {
    const cloud: Cloud
    const gateway: Gateway
    const config: Config

    /** The database. */
    var db: Db
    var clock: Time
    /** Every id below this one may have been drawn. */
    var nextId: Id

    /** Lost when the process stops. */
    var ready: bool
    var lastReconcile: Time

    /** What the committed operations have done, in order. */
    ghost var journal: seq<Event>
    /** How many remote calls had failed when the last collection began. */
    ghost var sweptFrom: nat
    /** The scans for missing files that were completed, in order. */
    ghost var scans: seq<Scan>

    ghost predicate Valid()
      reads this, cloud
    {
      && config.Valid() && (gateway.broker.Some? || gateway.root)
      && VaultInv(db, cloud.held, cloud.lost, gateway)
      && FreshFrom(db, nextId)
      && View(db) == Replay(journal)
    }

    /** A gateway on an empty vault and an empty database. */
    constructor (cloud: Cloud, gateway: Gateway, config: Config)
      requires config.Valid() && (gateway.broker.Some? || gateway.root)
      ensures Valid() && fresh(this)
      ensures this.cloud == cloud && this.gateway == gateway && this.config == config
      ensures db == EMPTY_DB && journal == [] && scans == []
    {
      this.cloud, this.gateway, this.config := cloud, gateway, config;
      db, clock, nextId, ready, lastReconcile, journal, sweptFrom, scans := EMPTY_DB, 0, 0, false, 0, [], 0, [];
    }

    // ---- Atomic steps -------------------------------------------------------------------

    /** A transaction: all of it or nothing. The process may stop before it or after it, and only
        the database then knows which: `went` says whether it took effect. */
    method Commit(next: Db, ghost events: seq<Event>) returns (r: Outcome<()>, ghost went: bool)
      modifies this`db, this`journal
      ensures !r.Raised? && (r.Done? ==> went)
      ensures db == if went then next else old(db)
      ensures journal == if went then old(journal) + events else old(journal)
      ensures events == [] ==> journal == old(journal)
    {
      if * {
        return Stopped, false;
      }
      db := next;
      journal := journal + events;
      if * {
        return Stopped, true;
      }
      r, went := Done(()), true;
    }

    /** `time.time()`. */
    method Now() returns (now: Time)
      modifies this`clock
      ensures now == clock > old(clock)
    {
      var ticks: nat :| true;
      clock := clock + 1 + ticks;
      now := clock;
    }

    /** `uuid.uuid4().hex`. */
    method DrawId() returns (id: Id)
      modifies this`nextId
      ensures id == old(nextId) && nextId == id + 1
    {
      id := nextId;
      nextId := nextId + 1;
    }

    method EnsureReady() returns (r: Outcome<()>)
      modifies this`ready, cloud`faults
      ensures cloud.faults >= old(cloud.faults)
      ensures r.Raised? ==> r.error == RemoteFailure && cloud.faults > old(cloud.faults)
      ensures old(ready) ==> r.Done? && cloud.faults == old(cloud.faults)
      ensures ready <==> old(ready) || r.Done?
    {
      if !ready {
        var _ :- cloud.List(Objects);
        ready := true;
      }
      r := Done(());
    }

    /** The process comes back: the database and the vault are as the stop left them. */
    method Restart()
      modifies this`ready, this`lastReconcile
      ensures !ready && lastReconcile == 0
    {
      ready, lastReconcile := false, 0;
    }

    // ---- Storing objects ----------------------------------------------------------------

    /** `_make_capsule`: a primary envelope if there is a broker, and the recovery wrap. */
    method MakeCapsule(id: Id) returns (r: Outcome<Capsule>)
      requires gateway.broker.Some? || gateway.root
      modifies cloud`faults
      ensures r.Done? ==> GoodKey(KeyFile(r.value), id, gateway)
      ensures r.Done? ==> forall other, g: Gateway ::
        Unwrap(r.value, other, g) ==
          if other == id && (g.root || (g.broker.Some? && g.broker == gateway.broker)) then Some(DekOf(id)) else None
      ensures r.Raised? ==> r.error == RemoteFailure
      ensures cloud.faults == old(cloud.faults) + if r.Raised? then 1 else 0
    {
      var primary: seq<Envelope> := [];
      if gateway.broker.Some? {
        var _ :- cloud.AskBroker();
        primary := [Envelope(gateway.broker.value, id, DekOf(id), true)];
      }
      var capsule := Capsule(primary, id, DekOf(id));
      forall other, g: Gateway
        ensures Unwrap(capsule, other, g) ==
          if other == id && (g.root || (g.broker.Some? && g.broker == gateway.broker)) then Some(DekOf(id)) else None
      {
        assert primary != [] ==> primary[1..] == [] && UnwrapFrom([], capsule, other, g) == Recover(capsule, other, g);
      }
      r := Done(capsule);
    }

    /** One upload under an id that has no row yet. */
    method PutFile(part: Part, content: Content) returns (r: Outcome<()>)
      requires Valid() && part.id !in db.chunks && part.id !in db.manifests
      modifies cloud
      ensures Valid() && cloud.lost == old(cloud.lost)
      ensures cloud.faults == old(cloud.faults) + if r.Raised? then 1 else 0
      ensures r.Raised? ==> r.error == RemoteFailure
      ensures cloud.held == old(cloud.held) ||
              (part in cloud.held && cloud.held[part].content == content &&
               cloud.held == old(cloud.held)[part := cloud.held[part]])
      ensures r.Done? ==> part in cloud.held && cloud.held[part].content == content
    {
      hide VaultInv, FreshFrom, Replay, View;
      ghost var before := cloud.held;
      r := cloud.Upload(part, content);
      if part in cloud.held {
        RemotePutKeeps(db, before, cloud.lost, gateway, part, cloud.held[part]);
      }
    }

    /** The body of the `try` in `_store_blob`. */
    method PutBlob(part: Part, payload: Payload) returns (r: Outcome<nat>, uploaded: bool)
      requires Valid() && !part.Key?
      requires part.id !in db.chunks && part.id !in db.manifests
      modifies cloud
      ensures VaultInv(db, cloud.held, cloud.lost, gateway) && cloud.lost == old(cloud.lost)
      ensures OnlyFilesOf(part.id, old(cloud.held), cloud.held)
      ensures r.Done? ==>
        && part in cloud.held && cloud.held[part].content == Sealed(DekOf(part.id), payload, r.value)
        && Key(part.id) in cloud.held && GoodKey(cloud.held[Key(part.id)].content, part.id, gateway)
      ensures cloud.faults == old(cloud.faults) + if r.Raised? then 1 else 0
      ensures r.Raised? ==> r.error == RemoteFailure
      ensures uploaded ==> part in cloud.held
      ensures !uploaded ==> (Key(part.id) in cloud.held <==> Key(part.id) in old(cloud.held))
    {
      hide VaultInv, TablesInv, AllLaid, PinsGood, RefsHaveRows, OneReference, ChunksGood, FreshFrom, Replay, View,
           GoodKey, Unwrap;
      uploaded := false;
      var capsule := MakeCapsule(part.id);
      if capsule.IsFailure() {
        return capsule.PropagateFailure(), false;
      }
      var length: nat :| true;
      var put := PutFile(part, Sealed(DekOf(part.id), payload, length));
      if put.IsFailure() {
        return put.PropagateFailure(), false;
      }
      uploaded := true;
      put := PutFile(Key(part.id), KeyFile(capsule.value));
      if put.IsFailure() {
        return put.PropagateFailure(), true;
      }
      r := Done(length);
    }

    /** `_store_blob`. An object that could not be stored whole is taken back as far as the
        vault lets us: when only one call failed, no key is left, and no object unless it was the upload
        of the object itself that failed. */
    method StoreBlob(part: Part, payload: Payload) returns (r: Outcome<nat>, ghost uploaded: bool)
      requires Valid() && !part.Key?
      requires part.id !in db.chunks && part.id !in db.manifests
      modifies cloud
      ensures Valid() && cloud.lost == old(cloud.lost)
      ensures OnlyFilesOf(part.id, old(cloud.held), cloud.held)
      ensures r.Done? ==>
        && part in cloud.held && cloud.held[part].content == Sealed(DekOf(part.id), payload, r.value)
        && Key(part.id) in cloud.held && GoodKey(cloud.held[Key(part.id)].content, part.id, gateway)
      ensures r.Raised? ==> r.error == RemoteFailure && cloud.faults > old(cloud.faults)
      ensures r.Done? ==> cloud.faults == old(cloud.faults)
      ensures cloud.faults >= old(cloud.faults)
      ensures !uploaded ==> Key(part.id) in cloud.held ==> Key(part.id) in old(cloud.held)
      ensures r.Raised? && cloud.faults == old(cloud.faults) + 1 ==>
        Key(part.id) !in cloud.held && (uploaded ==> part !in cloud.held)
    {
      hide VaultInv, TablesInv, AllLaid, PinsGood, RefsHaveRows, OneReference, ChunksGood, FreshFrom, Replay, View,
           GoodKey;
      var sent;
      r, sent := PutBlob(part, payload);
      uploaded := sent;
      if r.Raised? {
        if sent {
          RemoteDeleteKeeps(db, cloud.held, cloud.lost, gateway, part);
          var undone := cloud.Delete(part);
          if undone.Stopped? {
            return Stopped, uploaded;
          }
        }
        RemoteDeleteKeeps(db, cloud.held, cloud.lost, gateway, Key(part.id));
        var undone := cloud.Delete(Key(part.id));
        if undone.Stopped? {
          return Stopped, uploaded;
        }
      }
    }

    /** The second half of `_get_or_create_chunk`: a new object and its row. */
    method StoreChunk(content: Bytes) returns (r: Outcome<Id>)
      requires Valid()
      requires forall c :: c in db.chunks ==> !SameContent(db.chunks[c], content)
      modifies this`db, this`journal, this`nextId, this`clock, cloud
      ensures Valid() && cloud.lost == old(cloud.lost) && journal == old(journal)
      ensures db == old(db).(chunks := db.chunks) && Extends(old(db.chunks), db.chunks)
      ensures nextId == old(nextId) + 1 && clock >= old(clock)
      ensures OnlyFilesOf(old(nextId), old(cloud.held), cloud.held)
      ensures r.Done? ==> r.value == old(nextId) && r.value in db.chunks && db.chunks[r.value].sha256 == Sha256(content)
      ensures r.Raised? ==> r.error == RemoteFailure && cloud.faults > old(cloud.faults)
      ensures r.Done? ==> cloud.faults == old(cloud.faults)
      ensures cloud.faults >= old(cloud.faults)
      ensures old(AllThere(db.chunks, cloud.held)) ==> AllThere(db.chunks, cloud.held)
    {
      hide VaultInv, TablesInv, ChunksGood, AllLaid, PinsGood, RefsHaveRows, OneReference, GoodKey, Replay, View,
           GoodChunk,
           OnlyFilesOf, AllThere;
      var c := DrawId();
      ghost var held0 := cloud.held;
      FreshIds(db, c);
      var blob, _ := StoreBlob(Object(c), ChunkPayload(c, content));
      ThereBeside(db.chunks, held0, cloud.held, c);
      var stored :- blob;
      var now := Now();
      var row := ChunkRow(|content|, stored, Sha256(content), Sha512(content), now);
      VaultInvTables(db, cloud.held, cloud.lost, gateway);
      NewContent(db.chunks, content, row);
      InsertChunkKeeps(db, cloud.held, cloud.lost, gateway, c, row);
      ThereMore(db.chunks, cloud.held, c, row);
      var _, _ :- Commit(InsertChunk(db, c, row), []);
      r := Done(c);
    }

    /** `_get_or_create_chunk`: the row for this content, stored now if there was none. */
    method GetOrCreateChunk(content: Bytes) returns (r: Outcome<Id>)
      requires Valid()
      modifies this`db, this`journal, this`nextId, this`clock, cloud
      ensures Valid() && cloud.lost == old(cloud.lost) && journal == old(journal)
      ensures db == old(db).(chunks := db.chunks) && Extends(old(db.chunks), db.chunks)
      ensures nextId >= old(nextId) && clock >= old(clock)
      ensures NewFilesFrom(old(nextId), old(cloud.held), cloud.held)
      ensures r.Done? ==> r.value in db.chunks && db.chunks[r.value].sha256 == Sha256(content)
      ensures (exists c :: c in old(db).chunks && SameContent(old(db).chunks[c], content)) ==>
        r.Done? && db == old(db) && cloud.held == old(cloud.held)
      ensures r.Raised? ==> r.error == RemoteFailure && cloud.faults > old(cloud.faults)
      ensures r.Done? ==> cloud.faults == old(cloud.faults)
      ensures cloud.faults >= old(cloud.faults)
      ensures old(AllThere(db.chunks, cloud.held)) ==> AllThere(db.chunks, cloud.held)
    {
      hide VaultInv, TablesInv, ChunksGood, AllLaid, PinsGood, RefsHaveRows, OneReference, GoodKey, FreshFrom, Replay,
           View,
           GoodChunk, OnlyFilesOf, AllThere;
      var existing := set c | c in db.chunks && SameContent(db.chunks[c], content);
      if existing != {} {
        var c :| c in existing;
        return Done(c);
      }
      forall c | c in db.chunks
        ensures !SameContent(db.chunks[c], content)
      {
        assert c !in existing;
      }
      r := StoreChunk(content);
      NewFilesOf(old(nextId), old(nextId), old(cloud.held), cloud.held);
    }

    // ---- Upload -------------------------------------------------------------------------

    /** One round of that loop, once the piece is read: store it or find it, and pin it. */
    method AppendChunk(u: Id, list: seq<ManifestChunkRow>, plaintext: Bytes)
        returns (r: Outcome<seq<ManifestChunkRow>>)
      requires Valid() && u in db.uploads && Known(db.chunks, list) && Pinned(db.uploadChunks, u, list)
      modifies this`db, this`journal, this`nextId, this`clock, cloud
      ensures Valid() && cloud.lost == old(cloud.lost) && journal == old(journal)
      ensures db == old(db).(chunks := db.chunks, uploadChunks := db.uploadChunks)
      ensures Extends(old(db).chunks, db.chunks)
      ensures clock >= old(clock)
      ensures StoredBeside(old(db), old(cloud.held), old(nextId), db, cloud.held, nextId, u)
      ensures r.Raised? ==> r.error == RemoteFailure && cloud.faults > old(cloud.faults)
      ensures cloud.faults >= old(cloud.faults)
      ensures r.Done? ==>
        && |r.value| == |list| + 1 && r.value[..|list|] == list && r.value[|list|].plainSize == |plaintext|
        && Known(db.chunks, r.value)
        && Spelled(db.chunks, r.value) == Spelled(old(db).chunks, list) + plaintext
        && Pinned(db.uploadChunks, u, r.value)
    {
      hide VaultInv, TablesInv, AllLaid, PinsGood, RefsHaveRows, OneReference, ChunksGood, FreshFrom, Replay, View,
           GoodKey, Known, Spelled, Pinned,
           NewFilesFrom, AllThere, Beside, StoredBeside;
      ghost var before, held0, n0 := db, cloud.held, nextId;
      var got := GetOrCreateChunk(plaintext);
      BesideChunks(before, db, u);
      StoredBesideIs(before, held0, n0, db, cloud.held, nextId, u);
      var c :- got;
      VaultInvTables(db, cloud.held, cloud.lost, gateway);
      var row := ManifestChunkRow(c, |plaintext|);
      ChunkListGrows(old(db).chunks, db.chunks, list, row, plaintext);
      PinChunkKeeps(db, cloud.held, cloud.lost, gateway, u, |list|, c);
      BesidePin(before, db, u, |list|, c);
      StoredBesideIs(before, held0, n0, PinChunk(db, u, |list|, c), cloud.held, nextId, u);
      PinnedMore(db.uploadChunks, u, list, row);
      var _, _ :- Commit(PinChunk(db, u, |list|, c), []);
      r := Done(list + [row]);
    }

    /** The chunk loop of `upload_stream`: the next `size` bytes of the body, cut into chunks,
        each stored or found, and pinned to upload `u`. */
    method ReadChunks(source: Source, size: nat, u: Id) returns (r: Outcome<seq<ManifestChunkRow>>, full: Bytes)
      requires Valid() && source.Valid() && u in db.uploads
      modifies this`db, this`journal, this`nextId, this`clock, cloud, source
      ensures Valid() && source.Valid() && cloud.lost == old(cloud.lost) && journal == old(journal)
      ensures db == old(db).(chunks := db.chunks, uploadChunks := db.uploadChunks)
      ensures Extends(old(db).chunks, db.chunks)
      ensures clock >= old(clock)
      ensures StoredBeside(old(db), old(cloud.held), old(nextId), db, cloud.held, nextId, u)
      ensures r == Raised(EndOfStream) ==> |source.data| < old(source.pos) + size
      ensures r.Raised? && r.error !in {EndOfStream, BrokenBody} ==> cloud.faults > old(cloud.faults)
      ensures cloud.faults >= old(cloud.faults)
      ensures r.Done? ==>
        && old(source.pos) + size <= |source.data|
        && Known(db.chunks, r.value)
        && full == source.data[old(source.pos)..old(source.pos) + size]
        && Spelled(db.chunks, r.value) == full
        && Pinned(db.uploadChunks, u, r.value)
        && WellCut(r.value)
    {
      hide VaultInv, TablesInv, AllLaid, PinsGood, RefsHaveRows, OneReference, ChunksGood, FreshFrom, Replay, View,
           GoodKey, Known, Spelled,
           StoredBeside, Extends, Pinned;
      NothingSpelled(db.chunks);
      StoredNothing(db, cloud.held, nextId, u);
      NonePinned(db.uploadChunks, u);
      ExtendsItself(db.chunks);
      ghost var start, chunks0 := source.pos, db.chunks;
      var remaining := size;
      var list: seq<ManifestChunkRow> := [];
      full := [];
      while remaining > 0
        invariant Valid() && source.Valid() && cloud.lost == old(cloud.lost) && journal == old(journal)
        invariant db == old(db).(chunks := db.chunks, uploadChunks := db.uploadChunks)
        invariant Extends(chunks0, db.chunks) && clock >= old(clock) && cloud.faults >= old(cloud.faults)
        invariant StoredBeside(old(db), old(cloud.held), old(nextId), db, cloud.held, nextId, u)
        invariant 0 <= remaining <= size && source.pos == start + (size - remaining) <= |source.data|
        invariant Known(db.chunks, list) && Spelled(db.chunks, list) == full == source.data[start..source.pos]
        invariant Pinned(db.uploadChunks, u, list)
        invariant WellCut(list)
        invariant remaining > 0 && list != [] ==> list[|list| - 1].plainSize == config.chunkSize
        decreases remaining
      {
        var expected := if config.chunkSize < remaining then config.chunkSize else remaining;
        var piece := ReadExact(source, expected);
        if piece.IsFailure() {
          return piece.PropagateFailure(), full;
        }
        var plaintext := piece.value;
        if |plaintext| != expected {
          return Raised(EndOfStream), full;
        }
        assert source.data[start..source.pos] == full + plaintext;
        full := full + plaintext;
        ghost var held0, n0, db0 := cloud.held, nextId, db;
        r := AppendChunk(u, list, plaintext);
        StoredMore(old(db), old(cloud.held), old(nextId), db0, held0, n0, db, cloud.held, nextId, u);
        ExtendsMore(chunks0, db0.chunks, db.chunks);
        if r.IsFailure() {
          return;
        }
        list := r.value;
        remaining := remaining - expected;
      }
      assert source.pos == start + size;
      r := Done(list);
    }

    /** Every piece but the last is a whole chunk, and none is empty. */
    predicate WellCut(list: seq<ManifestChunkRow>) {
      forall i :: 0 <= i < |list| ==>
        0 < list[i].plainSize <= config.chunkSize && (i < |list| - 1 ==> list[i].plainSize == config.chunkSize)
    }

    /** Store the manifest object and insert its rows; the upload is then VERIFYING. */
    method PublishManifest(u: Id, m: Id, full: Bytes, list: seq<ManifestChunkRow>) returns (r: Outcome<Time>)
      requires Valid() && u in db.uploads && m < nextId
      requires m !in db.manifests && m !in db.chunks
      requires Known(db.chunks, list) && Spelled(db.chunks, list) == full
      modifies this`db, this`journal, this`clock, cloud
      ensures Valid() && cloud.lost == old(cloud.lost) && journal == old(journal) && clock >= old(clock)
      ensures r.Raised? ==> db == old(db) && cloud.faults > old(cloud.faults)
      ensures cloud.faults >= old(cloud.faults)
      ensures Beside(old(db), db, u)
      ensures SameNames(old(db), db) && u in db.uploads
      ensures OnlyFilesOf(m, old(cloud.held), cloud.held)
      ensures r.Done? ==> Manifest(m) in cloud.held && Key(m) in cloud.held
      ensures r.Done? ==>
        && old(clock) < r.value <= clock
        && m in db.manifests && Plain(db.manifests[m]) == full && db.manifests[m].size == |full|
        && db == InsertManifest(old(db), m, db.manifests[m], list, u)
        && db.uploads[u] == old(db).uploads[u].(status := VERIFYING, manifest := Some(m))
        && RunAt(db.manifestChunks, m, 0, list)
        && (forall s :: s in db.manifestChunks && s.owner == m ==> s.position < |list|)
        && !InFiles(db.files, m) && !InVersions(db.versions, m)
    {
      hide VaultInv, TablesInv, AllLaid, PinsGood, RefsHaveRows, OneReference, ChunksGood, FreshFrom, Replay, View,
           GoodKey, Known, Spelled, InFiles, InVersions, InsertManifest,
           Inserted, Beside;
      BesideChunks(db, db, u);
      var now := Now();
      var blob, _ := StoreBlob(Manifest(m), ManifestPayload(m, ChunkIds(list)));
      var stored :- blob;
      var row := ManifestRow(|full|, stored, Sha256(full), Sha512(full), now);
      VaultInvTables(db, cloud.held, cloud.lost, gateway);
      FreshUnnamed(db, m, row, list, u);
      InsertManifestKeeps(db, cloud.held, cloud.lost, gateway, m, row, list, u);
      InsertManifestFresh(db, nextId, m, row, list, u);
      BesideManifest(db, m, row, list, u);
      InsertManifestNames(db, m, row, list, u);
      var _, _ :- Commit(InsertManifest(db, m, row, list, u), []);
      r := Done(now);
    }

    /** Every object and key of the new version answers `stat`. */
    method VerifyParts(m: Id, list: seq<ManifestChunkRow>) returns (r: Outcome<()>)
      modifies cloud`faults
      ensures cloud.faults >= old(cloud.faults)
      ensures r.Raised? && cloud.faults == old(cloud.faults) ==>
        !(Manifest(m) in cloud.held && Key(m) in cloud.held &&
          forall i :: 0 <= i < |list| ==> Object(list[i].chunk) in cloud.held && Key(list[i].chunk) in cloud.held)
      ensures r.Done? ==>
        && Manifest(m) in cloud.held && Key(m) in cloud.held
        && forall i :: 0 <= i < |list| ==> Object(list[i].chunk) in cloud.held && Key(list[i].chunk) in cloud.held
    {
      var _ :- cloud.Stat(Manifest(m));
      var _ :- cloud.Stat(Key(m));
      for n := 0 to |list|
        invariant cloud.faults >= old(cloud.faults)
        invariant forall i :: 0 <= i < n ==> Object(list[i].chunk) in cloud.held && Key(list[i].chunk) in cloud.held
      {
        var _ :- cloud.Stat(Object(list[n].chunk));
        var _ :- cloud.Stat(Key(list[n].chunk));
      }
      r := Done(());
    }

    /** The last transaction of an upload: it goes through only if the version the upload began
        from is still the current one. */
    method CommitUpload(path: Path, previous: Option<FileRow>, current: FileRow, u: Id, ghost full: Bytes)
        returns (r: Outcome<bool>, ghost went: bool)
      requires Valid() && current.version >= 1
      requires current.manifest in db.manifests && Plain(db.manifests[current.manifest]) == full
      requires !InFiles(db.files, current.manifest) && !InVersions(db.versions, current.manifest)
      requires Backed(db.manifestChunks, cloud.held, cloud.lost, current.manifest)
      requires previous.Some? ==> path in db.files && db.files[path].manifest == previous.value.manifest ==>
        db.files[path] == previous.value
      modifies this`db, this`journal
      ensures Valid()
      ensures (r == Done(true) <==> r.Done?) && (r.Done? ==> went) && (r.Raised? ==> !went)
      ensures went ==>
        && CurrentManifest(old(db), path) == ManifestOf(previous)
        && db == CommitVersion(old(db), path, previous, current, current.modified, u)
        && journal == old(journal) + [Wrote(path, full)]
      ensures Beside(old(db), db, u)
      ensures !went ==> db == old(db) && journal == old(journal)
      ensures r.Raised? ==> CurrentManifest(old(db), path) != ManifestOf(previous)
    {
      hide VaultInv, TablesInv, AllLaid, PinsGood, RefsHaveRows, OneReference, ChunksGood, FreshFrom, Replay, View,
           Backed, InFiles, InVersions, CommitVersion, Apply, Beside;
      BesideChunks(db, db, u);
      if CurrentManifest(db, path) != ManifestOf(previous) {
        return Raised(ConcurrentUpdate), false;
      }
      CommitVersionKeeps(db, cloud.held, cloud.lost, gateway, path, previous, current, current.modified, u);
      CommitVersionFresh(db, nextId, path, previous, current, current.modified, u);
      BesideCommit(db, path, previous, current, u);
      ReplaySnoc(journal, Wrote(path, full));
      ApplyWrote(View(db), path, full);
      var committed;
      committed, went := Commit(CommitVersion(db, path, previous, current, current.modified, u), [Wrote(path, full)]);
      r := if committed.Done? then Done(true) else Stopped;
    }

    /** Publish the manifest, and see every part of it in the vault. */
    method PublishWhole(u: Id, m: Id, full: Bytes, list: seq<ManifestChunkRow>) returns (r: Outcome<Time>)
      requires Valid() && u in db.uploads && m < nextId
      requires m !in db.manifests && m !in db.chunks
      requires Known(db.chunks, list) && Spelled(db.chunks, list) == full
      modifies this`db, this`journal, this`clock, cloud
      ensures Valid() && cloud.lost == old(cloud.lost) && journal == old(journal) && clock >= old(clock)
      ensures cloud.faults >= old(cloud.faults)
      ensures old(AllThere(db.chunks, cloud.held)) && cloud.faults == old(cloud.faults) ==> !r.Raised?
      ensures SameNames(old(db), db) && u in db.uploads && Beside(old(db), db, u)
      ensures OnlyFilesOf(m, old(cloud.held), cloud.held)
      ensures r.Done? ==>
        && old(clock) < r.value <= clock
        && m in db.manifests && Plain(db.manifests[m]) == full && db.manifests[m].size == |full|
        && Backed(db.manifestChunks, cloud.held, cloud.lost, m) && Whole(db, cloud.held.Keys, m)
        && !InFiles(db.files, m) && !InVersions(db.versions, m)
    {
      hide VaultInv, TablesInv, AllLaid, PinsGood, RefsHaveRows, OneReference, ChunksGood, FreshFrom, Replay, View,
           GoodKey, Known, Spelled, InFiles, InVersions, RunAt, Backed, Whole, AllThere, Beside, OnlyFilesOf, SameNames;
      ghost var before, held0 := db, cloud.held;
      var told := PublishManifest(u, m, full, list);
      ThereBeside(before.chunks, held0, cloud.held, m);
      var now :- told;
      if AllThere(before.chunks, cloud.held) {
        ThereListed(before.chunks, cloud.held, list);
      }
      var _ :- VerifyParts(m, list);
      BackedByList(db.manifestChunks, cloud.held, cloud.lost, m, list);
      WholeByList(db, cloud.held.Keys, m, list);
      r := Done(now);
    }

    /** The tail of the `try` block, for content that is new: publish, verify, commit. */
    method StoreVersion(path: Path, previous: Option<FileRow>, newVersion: nat, u: Id, m: Id, full: Bytes,
                        list: seq<ManifestChunkRow>) returns (r: Outcome<bool>, ghost went: bool)
      requires Valid() && u in db.uploads && m < nextId && newVersion >= 1
      requires m !in db.manifests && m !in db.chunks
      requires Known(db.chunks, list) && Spelled(db.chunks, list) == full
      requires previous == CurrentRow(db, path)
      modifies this`db, this`journal, this`clock, cloud
      ensures Valid() && cloud.lost == old(cloud.lost) && clock >= old(clock) && u in db.uploads
      ensures (r == Done(true) <==> r.Done?) && (r.Done? ==> went) && (r.Raised? ==> !went)
      ensures cloud.faults >= old(cloud.faults)
      ensures old(AllThere(db.chunks, cloud.held)) && cloud.faults == old(cloud.faults) ==> !r.Raised?
      ensures Beside(old(db), db, u)
      ensures !went ==> SameNames(old(db), db) && journal == old(journal)
      ensures OnlyFilesOf(m, old(cloud.held), cloud.held)
      ensures went ==>
        && Committed(old(db), db, path, newVersion, full, u)
        && db.files[path].manifest == m && old(clock) < db.files[path].modified <= clock
        && Whole(db, cloud.held.Keys, m)
        && journal == old(journal) + [Wrote(path, full)]
    {
      hide VaultInv, TablesInv, AllLaid, PinsGood, RefsHaveRows, OneReference, ChunksGood, FreshFrom, Replay, View,
           Known, Spelled, InFiles, InVersions, Backed, Whole, AllThere, Beside, OnlyFilesOf;
      went := false;
      ghost var before := db;
      var now :- PublishWhole(u, m, full, list);
      ghost var published := db;
      var row := FileRow(m, now, newVersion);
      r, went := CommitUpload(path, previous, row, u, full);
      BesideMore(before, published, db, u);
      CommittedAfter(before, published, path, previous, row, u, full);
      CommitWhole(published, path, previous, row, u, cloud.held.Keys);
    }

    /** The `try` block of `upload_stream`; `manifest` is the id it had drawn when it ended. */
    method AttemptUpload(path: Path, source: Source, size: nat, previous: Option<FileRow>, newVersion: nat, u: Id)
        returns (r: Outcome<bool>, manifest: Option<Id>, ghost went: bool)
      requires Valid() && source.Valid() && u in db.uploads && newVersion >= 1
      requires previous == CurrentRow(db, path)
      modifies this`db, this`journal, this`nextId, this`clock, cloud, source
      ensures Valid() && source.Valid() && cloud.lost == old(cloud.lost) && u in db.uploads
      ensures nextId >= old(nextId) && clock >= old(clock)
      ensures NewFilesFrom(old(nextId), old(cloud.held), cloud.held)
      ensures cloud.faults >= old(cloud.faults)
      ensures old(AllThere(db.chunks, cloud.held)) && cloud.faults == old(cloud.faults) ==>
        old(source.pos) + size <= |source.data| ==> r.Raised? ==> r.error == BrokenBody
      ensures Beside(old(db), db, u)
      ensures (r == Done(true) ==> went) && (r == Done(false) || r.Raised? ==> !went)
      ensures went ==>
        && old(source.pos) + size <= |source.data|
        && var full := source.data[old(source.pos)..old(source.pos) + size];
        && Committed(old(db), db, path, newVersion, full, u)
        && !(path in old(View(db)) && old(View(db))[path] == full)
        && db.files[path].manifest >= old(nextId) && old(clock) < db.files[path].modified <= clock
        && Whole(db, cloud.held.Keys, db.files[path].manifest)
        && journal == old(journal) + [Wrote(path, full)]
      ensures !went ==> SameNames(old(db), db) && journal == old(journal)
      ensures r == Done(false) ==>
        && old(source.pos) + size <= |source.data|
        && path in View(db) && View(db)[path] == source.data[old(source.pos)..old(source.pos) + size]
        && previous.Some? && db.uploads[u].status == ACTIVE
        && db.uploads[u].manifest == Some(previous.value.manifest)
    {
      hide VaultInv, TablesInv, AllLaid, PinsGood, RefsHaveRows, OneReference, ChunksGood, FreshFrom, Replay, View,
           Known, Spelled, Pinned, WithStatus, Whole,
           NewFilesFrom, OnlyFilesOf, AllThere, Beside, StoredBeside;
      manifest, went := None, false;
      var read, full := ReadChunks(source, size, u);
      StoredBesideIs(old(db), old(cloud.held), old(nextId), db, cloud.held, nextId, u);
      if read.IsFailure() {
        return read.PropagateFailure(), None, false;
      }
      VaultInvTables(db, cloud.held, cloud.lost, gateway);
      UnchangedView(db, path, full);
      if previous.Some? && Unchanged(previous.value.manifest, size, Sha256(full), Sha512(full)) {
        ghost var db0 := db;
        var closed := CloseUpload(u, ACTIVE, Some(previous.value.manifest));
        BesideMore(old(db), db0, db, u);
        return if closed.Done? then Done(false) else Stopped, None, false;
      }
      var m := DrawId();
      FreshIds(db, m);
      ghost var held0, db1 := cloud.held, db;
      r, went := StoreVersion(path, previous, newVersion, u, m, full, read.value);
      BesideMore(old(db), db1, db, u);
      NewFilesOf(m, m, held0, cloud.held);
      NewFilesMore(old(nextId), old(cloud.held), held0, cloud.held, m);
      manifest := Some(m);
    }

    /** Same size and digests as the current version. */
    predicate Unchanged(m: Id, size: nat, sha256: Digest, sha512: Digest)
      reads this
    {
      m in db.manifests && db.manifests[m].size == size && db.manifests[m].sha256 == sha256 &&
      db.manifests[m].sha512 == sha512
    }

    /** `_set_upload_status`. */
    method SetUploadStatus(u: Id, status: Status, manifest: Option<Id>) returns (r: Outcome<()>)
      requires Valid()
      requires status.InFlight() ==> manifest.None? && u in db.uploads && db.uploads[u].manifest.None?
      modifies this`db, this`journal
      ensures Valid() && !r.Raised? && journal == old(journal)
      ensures Beside(old(db), db, u)
      ensures db == old(db) || db == SetStatus(old(db), u, status, manifest)
      ensures r.Done? ==> db == SetStatus(old(db), u, status, manifest)
    {
      hide VaultInv, TablesInv, AllLaid, PinsGood, RefsHaveRows, OneReference, ChunksGood, FreshFrom, Replay, View,
           SetStatus, Beside;
      BesideStatus(db, u, status, manifest);
      BesideChunks(db, db, u);
      StatusKeeps(db, cloud.held, cloud.lost, gateway, u, status, manifest);
      StatusFresh(db, nextId, u, status, manifest);
      ghost var went;
      r, went := Commit(SetStatus(db, u, status, manifest), []);
    }

    /** `DELETE FROM cas_upload_chunks WHERE upload_id=?`. */
    method UnpinUpload(u: Id) returns (r: Outcome<()>)
      requires Valid()
      modifies this`db, this`journal
      ensures Valid() && !r.Raised? && journal == old(journal)
      ensures Beside(old(db), db, u)
      ensures db == old(db) || db == Unpin(old(db), u)
      ensures r.Done? ==> db == Unpin(old(db), u)
    {
      hide VaultInv, TablesInv, AllLaid, PinsGood, RefsHaveRows, OneReference, ChunksGood, FreshFrom, Replay, View,
           Unpin, Beside;
      BesideUnpin(db, u);
      BesideChunks(db, db, u);
      UnpinKeeps(db, cloud.held, cloud.lost, gateway, u);
      ghost var went;
      r, went := Commit(Unpin(db, u), []);
    }

    /** What ends an upload that made no version: its last status, then its pins. */
    method CloseUpload(u: Id, status: Status, manifest: Option<Id>) returns (r: Outcome<()>)
      requires Valid() && u in db.uploads && !status.InFlight()
      modifies this`db, this`journal
      ensures Valid() && !r.Raised? && journal == old(journal)
      ensures db == old(db).(uploads := db.uploads, uploadChunks := db.uploadChunks) && u in db.uploads
      ensures Beside(old(db), db, u)
      ensures r.Done? ==>
        && db.uploads[u] == old(db).uploads[u].(status := status, manifest := LastManifest(old(db), u, manifest))
        && (forall s :: s in db.uploadChunks ==> s.owner != u)
      ensures db.uploadChunks == old(db).uploadChunks || db.uploads[u].status == status
    {
      hide VaultInv, TablesInv, AllLaid, PinsGood, RefsHaveRows, OneReference, ChunksGood, FreshFrom, Replay, View,
           Beside, SetStatus, Unpin, WithStatus, WithoutOwner;
      StatusOnly(db, u, status, manifest);
      var _ :- SetUploadStatus(u, status, manifest);
      ghost var db0 := db;
      UnpinOnly(db0, u);
      r := UnpinUpload(u);
      BesideMore(old(db), db0, db, u);
    }

    /** The number an upload to `path` gives its version. */
    method NextNumber(path: Path) returns (version: nat)
      requires Valid()
      ensures NextVersion(db, path, version) && version >= 1
    {
      hide VaultInv, TablesInv, AllLaid, PinsGood, RefsHaveRows, OneReference, ChunksGood, FreshFrom, Replay, View;
      if path in db.files {
        return db.files[path].version + 1;
      }
      var newest := NewestOf(db.versions, path);
      version := newest + 1;
    }

    /** The first transactions of `upload_stream`. */
    method BeginUpload(path: Path, version: nat, size: nat) returns (r: Outcome<()>, u: Id)
      requires Valid()
      modifies this`db, this`journal, this`nextId, this`clock
      ensures Valid() && !r.Raised? && u == old(nextId) && nextId > u && clock > old(clock)
      ensures db == old(db).(uploads := db.uploads) && journal == old(journal)
      ensures Beside(old(db), db, u)
      ensures r.Done? ==> db.uploads == old(db).uploads[u := UploadRow(path, version, UPLOADING, size, None)]
      ensures db.uploads == old(db).uploads ||
              db.uploads == old(db).uploads[u := UploadRow(path, version, PENDING, size, None)] ||
              db.uploads == old(db).uploads[u := UploadRow(path, version, UPLOADING, size, None)]
    {
      hide VaultInv, TablesInv, AllLaid, PinsGood, RefsHaveRows, OneReference, ChunksGood, FreshFrom, Replay, View,
           Beside;
      u := DrawId();
      FreshIds(db, u);
      var now := Now();
      var row := UploadRow(path, version, PENDING, size, None);
      VaultInvTables(db, cloud.held, cloud.lost, gateway);
      BesideBegin(db, u, row);
      BesideChunks(db, db, u);
      BeginKeeps(db, cloud.held, cloud.lost, gateway, u, row, nextId);
      ghost var went;
      r, went := Commit(InsertUpload(db, u, row), []);
      if r.IsFailure() {
        return;
      }
      ghost var db0 := db;
      r := SetUploadStatus(u, UPLOADING, None);
      BesideMore(old(db), db0, db, u);
      assert SetStatus(db0, u, UPLOADING, None).uploads == old(db).uploads[u := row.(status := UPLOADING)];
    }

    /** The handler of `upload_stream`: mark the upload FAILED, unpin its chunks, collect. */
    method FailUpload(u: Id, manifest: Option<Id>) returns (r: Outcome<()>, ghost failed: Db)
      requires Valid() && u in db.uploads
      modifies this`db, this`journal, this`clock, this`sweptFrom, cloud
      ensures Valid() && cloud.lost == old(cloud.lost) && clock >= old(clock)
      ensures cloud.faults >= old(cloud.faults)
      ensures Beside(old(db), failed, u) && TablesInv(failed) && SameNames(old(db), failed)
      ensures db.uploads == failed.uploads && db.uploadChunks == failed.uploadChunks
      ensures r.Done? ==> Collected(failed, db, cloud.faults == sweptFrom) && SameButCollected(failed, db)
      ensures !r.Raised? && SameNames(old(db), db) && journal == old(journal)
      ensures r.Done? ==>
        && u in db.uploads && db.uploads[u].status == FAILED && (forall s :: s in db.uploadChunks ==> s.owner != u)
        && (cloud.faults == sweptFrom ==> Swept(db))
    {
      hide VaultInv, TablesInv, AllLaid, PinsGood, RefsHaveRows, OneReference, ChunksGood, FreshFrom, Replay, View,
           Swept;
      var closed := CloseUpload(u, FAILED, manifest);
      failed := db;
      VaultInvTables(db, cloud.held, cloud.lost, gateway);
      var _ :- closed;
      r := CollectGarbage(false);
      CollectedWeaker(failed, db, r.Done? && cloud.faults == sweptFrom);
    }

    /** `upload_stream`. When its commit took effect, which Done(true) says and a process that stopped
        leaves open, the body is the new current version of the path, the old one is history, and
        every part of it has been seen in the vault. Done(false): the body is what the path holds
        already. Otherwise no file, version or tombstone has changed; and a raise has cleaned up, if
        the clean-up met no failure. */
    method UploadStream(name: string, source: Source, size: int) returns (r: Outcome<bool>, ghost went: bool)
      requires Valid() && source.Valid()
      modifies this`db, this`journal, this`nextId, this`clock, this`ready, this`sweptFrom, cloud, source
      ensures Valid() && source.Valid() && cloud.lost == old(cloud.lost) && clock >= old(clock)
      ensures cloud.faults >= old(cloud.faults)
      ensures old(AllThere(db.chunks, cloud.held)) && cloud.faults == old(cloud.faults) ==>
        MayHold(old(db), Normalize(name)) && 0 <= size && old(source.pos) + size <= |source.data| ==>
        r.Raised? ==> r.error == BrokenBody
      ensures Extends(old(db).uploads, db.uploads)
      ensures (r == Done(true) ==> went) && (r == Done(false) || r.Raised? ==> !went)
      ensures went ==>
        && 0 <= size && old(source.pos) + size <= |source.data|
        && var path, full := Normalize(name), source.data[old(source.pos)..old(source.pos) + size];
        && path in db.files && NextVersion(old(db), path, db.files[path].version)
        && Committed(old(db), db, path, db.files[path].version, full, old(nextId))
        && !(path in old(View(db)) && old(View(db))[path] == full)
        && old(clock) < db.files[path].modified <= clock
        && Whole(db, cloud.held.Keys, db.files[path].manifest)
        && NoStaleChunk(old(db), old(cloud.held), db, db.files[path].manifest)
        && journal == old(journal) + [Wrote(path, full)]
      ensures !went ==> SameNames(old(db), db) && journal == old(journal)
      ensures r == Done(false) ==>
        && 0 <= size && old(source.pos) + size <= |source.data|
        && Normalize(name) in View(db)
        && View(db)[Normalize(name)] == source.data[old(source.pos)..old(source.pos) + size]
      ensures r.Raised? && old(nextId) in db.uploads ==>
        && db.uploads[old(nextId)].status == FAILED
        && (forall s :: s in db.uploadChunks ==> s.owner != old(nextId))
        && (cloud.faults == sweptFrom ==> Swept(db) && OnlyNeeded(old(db), db))
      ensures size < 0 || !MayHold(old(db), Normalize(name)) ==>
        && !r.Done? && db == old(db) && cloud.held == old(cloud.held) && source.pos == old(source.pos)
        && (r.Raised? && cloud.faults == old(cloud.faults) ==>
              r.error == if size < 0 then InvalidValue
                         else if Normalize(name) != "/" && DirectoryExists(old(db).directories, Parent(Normalize(name)))
                         then IsDirectory else NotFound)
      ensures old(Tidy(db, clock)) ==> Tidy(db, clock)
      ensures old(Rooted(db.directories, db.files)) ==> Rooted(db.directories, db.files)
    {
      hide VaultInv, TablesInv, AllLaid, PinsGood, RefsHaveRows, OneReference, ChunksGood, FreshFrom, Replay, View,
           Swept, IsNewest, Whole, Tidy, Rooted, MayHold,
           NoStaleChunk, AllThere, OtherUploads, OnlyNeeded, NextVersion, Normalize, Parent, Normal, Extends;
      FreshIds(db, nextId);
      NamesKept(db, db, old(clock), clock);
      ExtendsItself(db.uploads);
      went := false;
      var _ :- EnsureReady();
      var path := Normalize(name);
      NormalizeIsNormal(name);
      MayHoldIs(db, path);
      if size < 0 {
        return Raised(InvalidValue), false;
      }
      if path == "/" || !DirectoryExists(db.directories, Parent(path)) {
        return Raised(NotFound), false;
      }
      if DirectoryExists(db.directories, path) {
        return Raised(IsDirectory), false;
      }
      var version := NextNumber(path);
      ghost var before, u := db, nextId;
      r, went := RunUpload(path, source, size, version);
      OthersExtend(before, db, u);
      if went {
        CommittedNames(old(db), db, path, version, old(nextId), old(clock), clock);
      } else {
        NamesKept(old(db), db, old(clock), clock);
      }
    }

    /** `upload_stream`, once path and version number are settled. */
    method RunUpload(path: Path, source: Source, size: nat, version: nat) returns (r: Outcome<bool>, ghost went: bool)
      requires Valid() && source.Valid() && version >= 1
      modifies this`db, this`journal, this`nextId, this`clock, this`sweptFrom, cloud, source
      ensures Valid() && source.Valid() && cloud.lost == old(cloud.lost) && clock >= old(clock)
      ensures cloud.faults >= old(cloud.faults)
      ensures old(AllThere(db.chunks, cloud.held)) && cloud.faults == old(cloud.faults) ==>
        old(source.pos) + size <= |source.data| ==> r.Raised? ==> r.error == BrokenBody
      ensures OtherUploads(old(db), db, old(nextId))
      ensures (r == Done(true) ==> went) && (r == Done(false) || r.Raised? ==> !went)
      ensures went ==>
        && old(source.pos) + size <= |source.data|
        && var full := source.data[old(source.pos)..old(source.pos) + size];
        && Committed(old(db), db, path, version, full, old(nextId))
        && !(path in old(View(db)) && old(View(db))[path] == full)
        && old(clock) < db.files[path].modified <= clock
        && Whole(db, cloud.held.Keys, db.files[path].manifest)
        && NoStaleChunk(old(db), old(cloud.held), db, db.files[path].manifest)
        && journal == old(journal) + [Wrote(path, full)]
      ensures !went ==> SameNames(old(db), db) && journal == old(journal)
      ensures r == Done(false) ==>
        && old(source.pos) + size <= |source.data|
        && path in View(db) && View(db)[path] == source.data[old(source.pos)..old(source.pos) + size]
      ensures r.Raised? ==>
        && old(nextId) in db.uploads && db.uploads[old(nextId)].status == FAILED
        && (forall s :: s in db.uploadChunks ==> s.owner != old(nextId))
        && (cloud.faults == sweptFrom ==> Swept(db) && OnlyNeeded(old(db), db))
    {
      hide VaultInv, TablesInv, AllLaid, PinsGood, RefsHaveRows, OneReference, ChunksGood, FreshFrom, Replay, View,
           Swept, Whole,
           NewFilesFrom, NoStaleChunk, AllThere, Beside, OtherUploads, OnlyNeeded, Collected;
      went := false;
      VaultInvTables(db, cloud.held, cloud.lost, gateway);
      FreshIds(db, nextId);
      ghost var before := db;
      var previous := CurrentRow(db, path);
      var begun, u := BeginUpload(path, version, size);
      BesideOthers(before, db, u);
      ghost var db0 := db;
      if begun.IsFailure() {
        return begun.PropagateFailure(), false;
      }
      var manifest;
      ghost var next := nextId;
      r, manifest, went := AttemptUpload(path, source, size, previous, version, u);
      ghost var db1 := db;
      BesideMore(before, db0, db1, u);
      BesideOthers(before, db1, u);
      if went {
        NewFilesEarlier(old(nextId), next, old(cloud.held), cloud.held);
        StaleNeverCommits(old(db), old(cloud.held), db, cloud.held, old(nextId), db.files[path].manifest);
      }
      if r.Raised? {
        var error := r.error;
        ghost var failed;
        var handled;
        handled, failed := FailUpload(u, manifest);
        BesideMore(before, db1, failed, u);
        BesideOthers(before, failed, u);
        OthersCollected(before, failed, db, u);
        if handled.Done? && cloud.faults == sweptFrom {
          FailureLeavesNeeded(before, failed, db, u);
        }
        return if handled.Stopped? then Stopped else Raised(error), false;
      }
    }

    // ---- Download -----------------------------------------------------------------------

    /** `_unwrap_capsule`. */
    method UnwrapCapsule(id: Id, content: Content) returns (r: Outcome<Dek>)
      modifies cloud`faults
      ensures cloud.faults >= old(cloud.faults)
      ensures cloud.faults == old(cloud.faults) && !r.Stopped? ==>
        (r.Done? <==> content.KeyFile? && Unwrap(content.capsule, id, gateway).Some?) &&
        (r.Done? ==> r.value == Unwrap(content.capsule, id, gateway).value)
      ensures gateway.root && content.KeyFile? && content.capsule.recoveryContext == id && !r.Stopped? ==> r.Done?
      ensures r.Done? ==>
        && content.KeyFile?
        && (forall dek :: Faithful(content.capsule, id, dek) ==> r.value == dek)
    {
      if !content.KeyFile? {
        return Raised(InvalidValue);
      }
      var capsule := content.capsule;
      var n := 0;
      while n < |capsule.primary| && gateway.broker.Some?
        invariant 0 <= n <= |capsule.primary| && cloud.faults >= old(cloud.faults)
        invariant cloud.faults == old(cloud.faults) ==>
          UnwrapFrom(capsule.primary[n..], capsule, id, gateway) == Unwrap(capsule, id, gateway)
        decreases |capsule.primary| - n
      {
        var envelope := capsule.primary[n];
        n := n + 1;
        if envelope.keyId == gateway.broker.value {
          var asked := cloud.AskBroker();
          if asked.Stopped? {
            return Stopped;
          }
          if asked.Done? && EnvelopeOpens(envelope, id) {
            return Done(envelope.dek);
          }
          if !gateway.root {
            return Raised(InvalidValue);
          }
        }
      }
      UnwrapWithoutBroker(capsule.primary[n..], capsule, id, gateway);
      var recovered := Recover(capsule, id, gateway);
      r := if recovered.Some? then Done(recovered.value) else Raised(InvalidValue);
    }

    /** `_load_blob`: the key file, then the object, opened with what the key file held. */
    method LoadBlob(part: Part) returns (r: Outcome<Payload>)
      modifies cloud`faults
      ensures cloud.faults >= old(cloud.faults)
      ensures r.Done? ==>
        && part in cloud.held && cloud.held[part].content.Sealed?
        && r.value == cloud.held[part].content.payload
        && Key(part.id) in cloud.held && cloud.held[Key(part.id)].content.KeyFile?
        && (forall dek :: Faithful(cloud.held[Key(part.id)].content.capsule, part.id, dek) ==>
              cloud.held[part].content.dek == dek)
      ensures cloud.faults == old(cloud.faults) && !r.Stopped? ==>
        (r.Done? <==> Openable(cloud.held, gateway, part))
    {
      var key :- cloud.Download(Key(part.id));
      var dek :- UnwrapCapsule(part.id, key);
      var sealed :- cloud.Download(part);
      r := if sealed.Sealed? && sealed.dek == dek then Done(sealed.payload) else Raised(InvalidValue);
    }

    /** `download`: what it writes, also when it fails halfway, is the beginning of the file's
        true content, whatever the vault holds; it succeeds only with all of it. When no call fails it
        succeeds exactly for the live paths whose parts in the vault are what was stored, and if none of
        them was lost they are. */
    method Download(name: string) returns (r: Outcome<()>, written: Bytes)
      requires TablesInv(db)
      modifies this`ready, cloud`faults
      ensures cloud.faults >= old(cloud.faults)
      ensures r.Done? ==> Normalize(name) in View(db) && written == View(db)[Normalize(name)]
      ensures Normalize(name) in View(db) ==> written <= View(db)[Normalize(name)]
      ensures Normalize(name) !in View(db) ==> written == [] && !r.Done?
      ensures cloud.faults == old(cloud.faults) && !r.Stopped? ==>
        (r.Done? <==> Normalize(name) in db.files &&
                      Readable(db, cloud.held, gateway, db.files[Normalize(name)].manifest))
      ensures cloud.faults == old(cloud.faults) && r.Raised? && Normalize(name) !in db.files ==> r.error == NotFound
      ensures VaultInv(db, cloud.held, cloud.lost, gateway) ==>
        (Normalize(name) in db.files && NoneLost(db, cloud.lost, db.files[Normalize(name)].manifest)) ==>
        (cloud.faults == old(cloud.faults) && !r.Stopped?) ==> r.Done?
    {
      hide VaultInv, TablesInv, Readable, NoneLost;
      written := [];
      var ready := EnsureReady();
      if ready.IsFailure() {
        return ready, written;
      }
      var path := Normalize(name);
      var row := CurrentRow(db, path);
      if row == None {
        return Raised(NotFound), written;
      }
      if VaultInv(db, cloud.held, cloud.lost, gateway) && NoneLost(db, cloud.lost, row.value.manifest) {
        LiveOpenable(db, cloud.held, cloud.lost, gateway, path);
      }
      r, written := DownloadManifest(path, row.value.manifest);
    }

    /** `download`, once the row is found. */
    method DownloadManifest(path: Path, m: Id) returns (r: Outcome<()>, written: Bytes)
      requires TablesInv(db) && path in db.files && db.files[path].manifest == m
      modifies cloud`faults
      ensures cloud.faults >= old(cloud.faults)
      ensures path in View(db)
      ensures r.Done? ==> written == View(db)[path]
      ensures written <= View(db)[path]
      ensures cloud.faults == old(cloud.faults) && !r.Stopped? ==> (r.Done? <==> Readable(db, cloud.held, gateway, m))
    {
      hide TablesInv, Openable, Spelled, Known, ChunkList, ChunksGood, AllLaid, OneReference, RefsHaveRows, PinsGood,
           VerifiedChunk, ReadableChunk, View;
      written := [];
      TablesGood(db);
      var chunks := ChunkList(db.manifestChunks, m, 0);
      LiveLayout(db, path);
      var descriptor := LoadBlob(Manifest(m));
      if descriptor.IsFailure() {
        return descriptor.PropagateFailure(), written;
      }
      if !descriptor.value.ManifestPayload? || descriptor.value.chunks != ChunkIds(chunks) {
        return Raised(InvalidValue), written;
      }
      NothingSpelled(db.chunks);
      ghost var faults := cloud.faults;
      for n := 0 to |chunks|
        invariant cloud.faults >= faults
        invariant Known(db.chunks, chunks[..n]) && written == Spelled(db.chunks, chunks[..n])
        invariant cloud.faults == old(cloud.faults) ==>
          forall i :: 0 <= i < n ==> ReadableChunk(db, cloud.held, gateway, chunks[i].chunk)
      {
        PrefixSpelled(db.chunks, chunks, n);
        var part := Object(chunks[n].chunk);
        var blob := LoadBlob(part);
        ReadableIs(db, cloud.held, gateway, chunks, n);
        if blob.IsFailure() {
          return blob.PropagateFailure(), written;
        }
        VerifiedIs(db, chunks, n, blob.value);
        if !VerifiedChunk(db.chunks, chunks[n], blob.value) {
          return Raised(InvalidValue), written;
        }
        written := written + blob.value.content;
      }
      assert chunks[..|chunks|] == chunks;
      r := if |written| == db.manifests[m].size && Sha256(written) == db.manifests[m].sha256 &&
              Sha512(written) == db.manifests[m].sha512
           then Done(()) else Raised(InvalidValue);
    }

    // ---- Namespace ----------------------------------------------------------------------

    /** `mkdir`. */
    method Mkdir(name: string) returns (r: Outcome<()>)
      requires Valid()
      modifies this`db, this`journal, this`ready, cloud`faults
      ensures Valid() && journal == old(journal) && cloud.faults >= old(cloud.faults)
      ensures r.Done? ==> db != old(db)
      ensures db != old(db) ==>
        && MayHold(old(db), Normalize(name)) && Normalize(name) !in old(db).files
        && db == old(db).(directories := old(db).directories + {Normalize(name)})
      ensures r.Raised? ==> db == old(db)
      ensures cloud.faults == old(cloud.faults) && r.Raised? ==>
        !MayHold(old(db), Normalize(name)) || Normalize(name) in old(db).files
      ensures r.Raised? && cloud.faults == old(cloud.faults) ==>
        r.error == if Exists(old(db), Normalize(name)) then AlreadyExists else NotFound
      ensures old(Rooted(db.directories, db.files)) ==> Rooted(db.directories, db.files)
    {
      hide VaultInv, TablesInv, AllLaid, PinsGood, RefsHaveRows, OneReference, ChunksGood, FreshFrom, Replay, View,
           Rooted, Parent, Normal;
      var _ :- EnsureReady();
      var path := Normalize(name);
      NormalizeIsNormal(name);
      if path == "/" || Exists(db, path) {
        return Raised(AlreadyExists);
      }
      if !DirectoryExists(db.directories, Parent(path)) {
        return Raised(NotFound);
      }
      MadeRooted(db.directories, db.files, path);
      DirectoriesKeep(db, db.directories + {path}, cloud.held, cloud.lost, gateway, nextId);
      var _, _ :- Commit(db.(directories := db.directories + {path}), []);
      r := Done(());
    }

    /** `delete`. A directory goes only when it is empty; a file becomes history, under a
        tombstone. */
    method Delete(name: string, directory: bool) returns (r: Outcome<()>, ghost went: bool)
      requires Valid()
      modifies this`db, this`journal, this`ready, this`clock, cloud`faults
      ensures Valid() && clock >= old(clock) && cloud.faults >= old(cloud.faults)
      ensures (r.Done? ==> went) && (r.Raised? ==> !went)
      ensures went ==> Deletable(old(db), Normalize(name), directory)
      ensures cloud.faults == old(cloud.faults) && !r.Stopped? ==>
        (r.Done? <==> Deletable(old(db), Normalize(name), directory))
      ensures r.Raised? && cloud.faults == old(cloud.faults) && !directory ==> r.error == NotFound
      ensures r.Raised? && cloud.faults == old(cloud.faults) && directory ==>
        r.error == if Normalize(name) == "/" then Forbidden
                   else if Normalize(name) !in old(db).directories then NotDirectory else NotEmpty
      ensures went && directory ==>
        && db == old(db).(directories := old(db).directories - {Normalize(name)}) && journal == old(journal)
      ensures went && !directory ==>
        && Normalize(name) in old(db).files && journal == old(journal) + [Removed(Normalize(name))]
        && exists archived, deleted: Time :: old(clock) < archived < deleted <= clock &&
             FileDeleted(old(db), db, Normalize(name), archived, deleted)
      ensures !went ==> db == old(db) && journal == old(journal)
      ensures old(Rooted(db.directories, db.files)) ==> Rooted(db.directories, db.files)
      ensures old(Tidy(db, clock)) ==> Tidy(db, clock)
    {
      hide VaultInv, TablesInv, AllLaid, PinsGood, RefsHaveRows, OneReference, ChunksGood, FreshFrom, Replay, View,
           Rooted, Tidy, Selects;
      went := false;
      var _ :- EnsureReady();
      var path := Normalize(name);
      TidyKept(db, db, old(clock), clock);
      if directory {
        r, went := DeleteDirectory(path);
        return;
      }
      if path !in db.files {
        return Raised(NotFound), false;
      }
      var archived := Now();
      var deleted := Now();
      DeleteFileKeeps(db, cloud.held, cloud.lost, gateway, path, archived, deleted);
      DeleteFileFresh(db, nextId, path, archived, deleted);
      DeleteFileIs(db, path, archived, deleted);
      DeletedTidy(db, old(clock), path, archived, deleted);
      DeletedRooted(db, path, archived, deleted);
      ReplaySnoc(journal, Removed(path));
      r, went := Commit(DeleteFile(db, path, archived, deleted), [Removed(path)]);
    }

    /** The directory half of `delete`. */
    method DeleteDirectory(path: Path) returns (r: Outcome<()>, ghost went: bool)
      requires Valid()
      modifies this`db, this`journal
      ensures Valid() && journal == old(journal)
      ensures (r.Done? ==> went) && (r.Raised? ==> !went)
      ensures r.Raised? ==>
        && !Deletable(old(db), path, true)
        && r.error == if path == "/" then Forbidden
                      else if path !in old(db).directories then NotDirectory else NotEmpty
      ensures went ==>
        && Deletable(old(db), path, true)
        && db == old(db).(directories := old(db).directories - {path})
      ensures !went ==> db == old(db)
      ensures old(Rooted(db.directories, db.files)) ==> Rooted(db.directories, db.files)
      ensures forall t :: Tidy(old(db), t) ==> Tidy(db, t)
    {
      hide VaultInv, TablesInv, AllLaid, PinsGood, RefsHaveRows, OneReference, ChunksGood, FreshFrom, Replay, View,
           Rooted, Selects, Tidy;
      if path == "/" {
        return Raised(Forbidden), false;
      }
      if path !in db.directories {
        return Raised(NotDirectory), false;
      }
      if (exists p :: p in db.directories && Selects(path + "/", p)) ||
         (exists p :: p in db.files && Selects(path + "/", p))
      {
        return Raised(NotEmpty), false;
      }
      if Rooted(db.directories, db.files) {
        ChildlessRooted(db.directories, db.files, path);
      }
      DirectoriesKeep(db, db.directories - {path}, cloud.held, cloud.lost, gateway, nextId);
      r, went := Commit(db.(directories := db.directories - {path}), []);
    }

    /** `_purge_deleted_path`. */
    method PurgeDeletedPath(path: Path) returns (r: Outcome<()>)
      requires Valid()
      modifies this`db, this`journal
      ensures Valid() && !r.Raised? && journal == old(journal)
      ensures db == old(db) || db == PurgePath(old(db), path)
      ensures r.Done? ==> db == PurgePath(old(db), path)
    {
      hide VaultInv, TablesInv, AllLaid, PinsGood, RefsHaveRows, OneReference, ChunksGood, FreshFrom, Replay, View;
      PurgeKeeps(db, cloud.held, cloud.lost, gateway, path, nextId);
      ghost var went;
      r, went := Commit(PurgePath(db, path), []);
    }

    /** What `rename` does first to a tombstoned destination. */
    method ClearDestination(destination: Path) returns (r: Outcome<()>)
      requires Valid() && !Exists(db, destination)
      modifies this`db, this`journal, this`clock, this`sweptFrom, cloud
      ensures Valid() && cloud.lost == old(cloud.lost) && journal == old(journal) && clock >= old(clock)
      ensures !r.Raised? && DestinationCleared(old(db), db, destination)
      ensures r.Done? ==> WhollyCleared(old(db), db, destination)
      ensures r.Done? && destination in old(db).deleted && cloud.faults == old(cloud.faults) ==> Swept(db)
      ensures cloud.faults >= old(cloud.faults)
    {
      hide VaultInv, TablesInv, AllLaid, PinsGood, RefsHaveRows, OneReference, ChunksGood, FreshFrom, Replay, View,
           Collected, Swept, PurgePath, Exists;
      if destination in db.deleted {
        ghost var before := db;
        r := PurgeDeletedPath(destination);
        CollectedNothing(db, cloud.held, cloud.lost, gateway);
        if r.IsFailure() {
          return;
        }
        ghost var purged := db;
        r := CollectGarbage(false);
        CollectedWeaker(purged, db, r.Done? && cloud.faults == sweptFrom);
        return;
      }
      r := Done(());
    }

    /** The file half of `rename`: the row and its history change path in one transaction. */
    method RenameFile(source: Path, destination: Path) returns (r: Outcome<()>, ghost went: bool)
      requires Valid() && source in db.files && destination !in db.files
      modifies this`db, this`journal
      ensures Valid()
      ensures (r.Done? ==> went) && (r.Raised? ==> !went)
      ensures went ==> db == RelabelFile(old(db), source, destination)
      ensures went ==> journal == old(journal) + [Renamed(source, destination)]
      ensures !went ==> db == old(db) && journal == old(journal)
      ensures r.Raised? ==> r.error == IntegrityError && !RelabelAllowed(db, source, destination)
    {
      hide VaultInv, TablesInv, AllLaid, PinsGood, RefsHaveRows, OneReference, ChunksGood, FreshFrom, Replay, View,
           RelabelFile, RelabelAllowed, Apply;
      if !RelabelAllowed(db, source, destination) {
        return Raised(IntegrityError), false;
      }
      RelabelFileKeeps(db, cloud.held, cloud.lost, gateway, source, destination);
      RelabelFresh(db, nextId, source, destination);
      ReplaySnoc(journal, Renamed(source, destination));
      r, went := Commit(RelabelFile(db, source, destination), [Renamed(source, destination)]);
    }

    /** The directory half of `rename`: one transaction over all rows, rolled back on a clash. */
    method RenameDirectory(source: Path, destination: Path) returns (r: Outcome<()>, ghost went: bool)
      requires Valid() && DirectoryExists(db.directories, source)
      modifies this`db, this`journal
      ensures Valid()
      ensures (r.Done? ==> went) && (r.Raised? ==> !went)
      ensures went ==> DirectoryRenamed(old(db), db, source, destination)
      ensures !went ==> db == old(db) && journal == old(journal)
      ensures r.Raised? ==> r.error == IntegrityError
      ensures MovesCleanly(source, destination, old(db)) ==>
        DirectoriesClear(source, destination, old(db).directories) && PicksBelow(source, old(db).directories) ==>
        !r.Raised?
    {
      hide VaultInv, TablesInv, AllLaid, PinsGood, RefsHaveRows, OneReference, ChunksGood, FreshFrom, Replay, View,
           MovesCleanly, DirectoriesClear, Moving, DirectoriesMoved, DirectoryRenamed,
           PicksBelow, Selected, SelectedDirectories;
      ghost var events;
      var moved;
      moved, events := MoveFiles(db, source, destination, cloud.held, cloud.lost, gateway, journal);
      if moved == None {
        return Raised(IntegrityError), false;
      }
      var directories := MoveDirectories(source, destination, db.directories);
      if directories == None {
        return Raised(IntegrityError), false;
      }
      RenamedFrom(db, moved.value, directories.value, source, destination);
      MovedFresh(db, moved.value, nextId);
      DirectoriesKeep(moved.value, directories.value, cloud.held, cloud.lost, gateway, nextId);
      r, went := Commit(moved.value.(directories := directories.value), events);
    }

    /** `rename`, once the destination is clear. */
    method RenameTo(source: Path, destination: Path) returns (r: Outcome<()>, ghost went: bool)
      requires Valid() && !Exists(db, destination) && destination !in db.deleted
      requires Normal(destination) && DirectoryExists(db.directories, Parent(destination))
      modifies this`db, this`journal
      ensures Valid()
      ensures (r.Done? ==> went) && (r.Raised? ==> !went)
      ensures went ==>
        if source in old(db).files
        then db == RelabelFile(old(db), source, destination) &&
             journal == old(journal) + [Renamed(source, destination)]
        else DirectoryExists(old(db).directories, source) && DirectoryRenamed(old(db), db, source, destination)
      ensures !went ==> db == old(db) && journal == old(journal)
      ensures r.Raised? ==> r.error in {NotFound, IntegrityError}
      ensures r == Raised(NotFound) <==> !Exists(old(db), source)
      ensures Tidy(old(db), clock) && NoTombstoneBelow(old(db).deleted, destination) ==> Tidy(db, clock)
      ensures Rooted(old(db).directories, old(db).files) && StaysATree(old(db), source, destination) ==>
        Rooted(db.directories, db.files)
      ensures Tidy(old(db), clock) && source in old(db).files ==> r != Raised(IntegrityError)
      ensures Tidy(old(db), clock) && Rooted(old(db).directories, old(db).files) ==>
        source in old(db).directories && PicksSubtree(old(db).directories, old(db).files, source) &&
        NoTombstoneBelow(old(db).deleted, destination) ==>
        r != Raised(IntegrityError)
    {
      hide VaultInv, TablesInv, AllLaid, PinsGood, RefsHaveRows, OneReference, ChunksGood, FreshFrom, Replay, View,
           RelabelFile, RelabelAllowed, MovesCleanly, DirectoriesClear,
           DirectoryRenamed, Parent, Normal, Tidy, Rooted, Moved, Under, Selects, SubtreeMoved;
      ghost var before := db;
      VaultInvTables(db, cloud.held, cloud.lost, gateway);
      if source in db.files {
        RenamedFileNames(db, source, destination, clock);
        RelabelledDirectories(db, source, destination);
        r, went := RenameFile(source, destination);
        return;
      }
      if !DirectoryExists(db.directories, source) {
        return Raised(NotFound), false;
      }
      if Tidy(db, clock) && Rooted(db.directories, db.files) && source in db.directories {
        if PicksSubtree(db.directories, db.files, source) && NoTombstoneBelow(db.deleted, destination) {
          RenameClear(db, source, destination, clock);
        }
      }
      r, went := RenameDirectory(source, destination);
      if went {
        RenamedDirectoryNames(before, db, source, destination, clock);
        MovedClearOfTombstones(before, source, destination);
        RootAboveAll(destination);
      }
    }

    /** `rename`. The destination must be free and its parent there; a tombstone at the
        destination is purged, with what was deleted there, before the source is looked at. */
    method Rename(from: string, to: string) returns (r: Outcome<()>, ghost went: bool, ghost cleared: Db)
      requires Valid()
      modifies this`db, this`journal, this`ready, this`clock, this`sweptFrom, cloud
      ensures Valid() && cloud.lost == old(cloud.lost) && clock >= old(clock)
      ensures cleared.files == old(db).files && cleared.directories == old(db).directories
      ensures (r.Done? ==> went) && (r.Raised? ==> !went)
      ensures went ==>
        && !Exists(old(db), Normalize(to)) && DirectoryExists(old(db).directories, Parent(Normalize(to)))
        && Normalize(to) !in cleared.deleted
        && if Normalize(from) in old(db).files
           then db == RelabelFile(cleared, Normalize(from), Normalize(to)) &&
                journal == old(journal) + [Renamed(Normalize(from), Normalize(to))]
           else DirectoryExists(old(db).directories, Normalize(from)) &&
                DirectoryRenamed(cleared, db, Normalize(from), Normalize(to))
      ensures !went ==> db == cleared && journal == old(journal)
      ensures old(Tidy(db, clock)) && NoTombstoneBelow(old(db).deleted, Normalize(to)) ==> Tidy(db, clock)
      ensures old(Rooted(db.directories, db.files)) && StaysATree(old(db), Normalize(from), Normalize(to)) ==>
        Rooted(db.directories, db.files)
      ensures old(Tidy(db, clock) && Rooted(db.directories, db.files)) ==>
        NoTombstoneBelow(old(db).deleted, Normalize(to)) ==>
        (Normalize(from) in old(db).files ||
         (Normalize(from) in old(db).directories &&
          PicksSubtree(old(db).directories, old(db).files, Normalize(from)))) ==>
        r != Raised(IntegrityError)
      ensures DestinationCleared(old(db), cleared, Normalize(to)) && cloud.faults >= old(cloud.faults)
      ensures went && Normalize(to) in old(db).deleted && cloud.faults == old(cloud.faults) ==> Swept(cleared)
      ensures r == Raised(RemoteFailure) ==> cloud.faults > old(cloud.faults)
      ensures r.Raised? && r.error != RemoteFailure ==>
        r.error ==
          if Exists(old(db), Normalize(to)) then AlreadyExists
          else if DirectoryExists(old(db).directories, Parent(Normalize(to))) && Exists(old(db), Normalize(from))
          then IntegrityError else NotFound
      ensures r.Raised? ==> (db == old(db) <==> !Forgets(old(db), Normalize(to), r.error))
      ensures r.Raised? && Forgets(old(db), Normalize(to), r.error) ==>
        Normalize(to) !in db.deleted && forall k :: k in db.versions ==> k.path != Normalize(to)
    {
      hide VaultInv, TablesInv, AllLaid, PinsGood, RefsHaveRows, OneReference, ChunksGood, FreshFrom, Replay, View,
           DestinationCleared, RelabelFile, DirectoryRenamed, Parent, Normal,
           Tidy, Rooted, Under, NoTombstoneBelow, PicksSubtree, StaysATree, Swept;
      went, cleared := false, db;
      var source, destination := Normalize(from), Normalize(to);
      NormalizeIsNormal(to);
      NothingCleared(db, destination);
      TidyKept(db, db, old(clock), clock);
      var ready := EnsureReady();
      if ready.IsFailure() {
        return ready, false, cleared;
      }
      if Exists(db, destination) {
        return Raised(AlreadyExists), false, cleared;
      }
      if !DirectoryExists(db.directories, Parent(destination)) {
        return Raised(NotFound), false, cleared;
      }
      r := ClearDestination(destination);
      ClearedFields(cleared, db, destination);
      ClearedNames(cleared, db, destination, old(clock), clock);
      FewerTombstones(cleared.deleted, db.deleted, destination);
      ClearedStaysATree(cleared, db, source, destination);
      cleared := db;
      if r.IsFailure() {
        return;
      }
      r, went := RenameTo(source, destination);
    }

    // ---- Reconciliation and listing -----------------------------------------------------

    /** The loop of `_reconcile` over the files: those with a part the listings do not show. */
    method FindMissing(seen: set<Part>) returns (found: set<Path>)
      ensures found == Incomplete(db, seen)
    {
      found := {};
      var todo := db.files.Keys;
      while todo != {}
        invariant todo <= db.files.Keys
        invariant found == set p | p in db.files.Keys - todo && !Whole(db, seen, db.files[p].manifest)
        decreases todo
      {
        var p :| p in todo;
        todo := todo - {p};
        var m := db.files[p].manifest;
        var present := m in db.manifests && Manifest(m) in seen && Key(m) in seen;
        if present {
          var chunks := ChunkList(db.manifestChunks, m, 0);
          var n := 0;
          while n < |chunks|
            invariant 0 <= n <= |chunks|
            invariant forall i :: 0 <= i < n ==> Object(chunks[i].chunk) in seen && Key(chunks[i].chunk) in seen
          {
            if Object(chunks[n].chunk) !in seen || Key(chunks[n].chunk) !in seen {
              present := false;
              break;
            }
            n := n + 1;
          }
        }
        if !present {
          found := found + {p};
        }
      }
    }

    /** The three listings of `_reconcile`. */
    method ListVault() returns (r: Outcome<set<Part>>)
      modifies cloud`faults
      ensures cloud.faults >= old(cloud.faults)
      ensures r.Raised? ==> cloud.faults > old(cloud.faults)
      ensures r.Done? && cloud.faults == old(cloud.faults) ==> r.value == cloud.held.Keys
    {
      var objects :- cloud.List(Objects);
      var manifests :- cloud.List(ManifestFiles);
      var keys :- cloud.List(Keys);
      r := Done(objects.Keys + manifests.Keys + keys.Keys);
    }

    /** The transaction of `_reconcile`. */
    method SettleMissing(found: set<Path>, now: Time) returns (r: Outcome<()>, ghost scan: Scan)
      requires Valid() && found <= db.files.Keys
      modifies this`db, this`journal, this`scans
      ensures Valid() && !r.Raised?
      ensures scan.found == found && scan.at == now && scan.confirmed <= found
      ensures r.Done? ==> scans != old(scans)
      ensures scans != old(scans) ==>
        && scans == old(scans) + [scan]
        && Tombstoned(old(db), db.(missing := old(db).missing), scan.confirmed, now)
        && (scan.confirmed == {} ==> journal == old(journal))
      ensures scans == old(scans) ==> db == old(db) && journal == old(journal)
      ensures scans != old(scans) && old(Counted(db.missing, scans)) ==>
        && Counted(db.missing, scans)
        && Settles(scan, old(scans), config.missingObservations, now - config.missingGrace)
      ensures OrderedSoFar(old(db), now) ==> Tidy(db, now)
    {
      hide VaultInv, TablesInv, AllLaid, PinsGood, RefsHaveRows, OneReference, ChunksGood, FreshFrom, Replay, View,
           Counted, Settles, Tidy, OrderedSoFar, Tombstoned, Observed;
      var recorded := RecordScan(db.missing, found, now);
      var confirmed := set p | p in recorded &&
                                Confirmed(recorded[p], config.missingObservations, now - config.missingGrace);
      scan := Scan(found, confirmed, now);
      var after, events := TombstoneAll(db, confirmed, now, cloud.held, cloud.lost, gateway, journal);
      TombstonedFresh(db, after, confirmed, now, nextId);
      var next := after.(missing := recorded - confirmed);
      MissingKeeps(after, recorded - confirmed, cloud.held, cloud.lost, gateway, nextId);
      if Counted(db.missing, scans) {
        ScanCounted(db.missing, scans, found, now, recorded, confirmed, config.missingObservations,
                    now - config.missingGrace);
        ScanSettles(scan, scans, recorded, config.missingObservations, now - config.missingGrace);
      }
      OrderedTidy(db, after, recorded - confirmed, now);
      TombstonedMissing(db, after, confirmed, now, recorded - confirmed);
      ghost var went;
      r, went := Commit(next, events);
      if went {
        scans := scans + [scan];
      }
    }

    /** `_reconcile`: every so often, look for live files with missing parts, and tombstone those
        missed in enough consecutive scans over a long enough time. */
    method Reconcile() returns (r: Outcome<()>)
      requires Valid()
      modifies this`db, this`journal, this`scans, this`ready, this`clock, this`lastReconcile, cloud`faults
      ensures Valid() && clock >= old(clock) && cloud.faults >= old(cloud.faults)
      ensures scans == old(scans) ==> db == old(db) && journal == old(journal)
      ensures scans != old(scans) ==>
        && !r.Raised? && |scans| == |old(scans)| + 1 && scans[..|old(scans)|] == old(scans)
        && var scan := scans[|old(scans)|];
        && old(clock) < scan.at == clock && scan.confirmed <= scan.found <= old(db).files.Keys
        && Tombstoned(old(db), db.(missing := old(db).missing), scan.confirmed, scan.at)
        && (scan.confirmed == {} ==> journal == old(journal))
        && (cloud.faults == old(cloud.faults) ==> scan.found == Incomplete(old(db), cloud.held.Keys))
        && (old(Counted(db.missing, scans)) ==>
              Settles(scan, old(scans), config.missingObservations, scan.at - config.missingGrace))
      ensures old(Counted(db.missing, scans)) ==> Counted(db.missing, scans)
      ensures old(Tidy(db, clock)) ==> Tidy(db, clock)
      ensures old(Rooted(db.directories, db.files)) ==> Rooted(db.directories, db.files)
      ensures r.Raised? ==> cloud.faults > old(cloud.faults)
      ensures scans != old(scans) ==> clock - old(lastReconcile) >= config.reconcileInterval
      ensures r.Done? ==>
        && (scans != old(scans) <==> clock - old(lastReconcile) >= config.reconcileInterval)
        && lastReconcile == if scans != old(scans) then scans[|scans| - 1].at else old(lastReconcile)
      ensures !r.Done? ==> lastReconcile == old(lastReconcile)
    {
      hide VaultInv, TablesInv, AllLaid, PinsGood, RefsHaveRows, OneReference, ChunksGood, FreshFrom, Replay, View,
           Counted, Settles, Tidy, Whole, Rooted, Tombstoned;
      var _ :- EnsureReady();
      var now := Now();
      TidyKept(db, db, old(clock), now);
      if now - lastReconcile < config.reconcileInterval {
        return Done(());
      }
      var seen :- ListVault();
      var found := FindMissing(seen);
      OrderedAtStart(db, old(clock), now);
      ghost var before := db;
      ghost var scan;
      r, scan := SettleMissing(found, now);
      if scans != old(scans) {
        TombstonedRooted(before, db.(missing := before.missing), scan.confirmed, now);
      }
      if r.IsFailure() {
        return;
      }
      lastReconcile := now;
    }

    /** The loops of `list` over the directory rows and then the file rows; a file replaces a
        directory of the same name. */
    method Entries(prefix: string) returns (entries: map<string, Entry>)
      requires TablesInv(db)
      ensures EntriesOf(db, prefix, entries)
    {
      hide AllLaid, PinsGood, OneReference, ChunksGood, Selects, Rest;
      entries := map[];
      var todo := db.directories;
      while todo != {}
        invariant todo <= db.directories
        invariant forall name :: name in entries <==> exists p :: p in db.directories - todo && ListedAs(prefix, p, name)
        invariant forall name :: name in entries ==> entries[name] == Entry(true, 0, 0)
        decreases todo
      {
        var p :| p in todo;
        todo := todo - {p};
        var remainder := Rest(p, |prefix|);
        if ListedAs(prefix, p, remainder) {
          entries := entries[remainder := Entry(true, 0, 0)];
        }
      }
      var files := db.files.Keys;
      while files != {}
        invariant files <= db.files.Keys
        invariant forall name :: name in entries <==>
          ListedDirectory(db, prefix, name) || exists p :: p in db.files.Keys - files && ListedAs(prefix, p, name)
        invariant forall name :: name in entries && entries[name].isDir ==>
          entries[name] == Entry(true, 0, 0) && ListedDirectory(db, prefix, name) &&
          !exists p :: p in db.files.Keys - files && ListedAs(prefix, p, name)
        invariant forall name :: name in entries && !entries[name].isDir ==>
          exists p :: ListedAs(prefix, p, name) && p in db.files && entries[name] == FileEntry(db, p)
        decreases files
      {
        var p :| p in files;
        files := files - {p};
        var remainder := Rest(p, |prefix|);
        if ListedAs(prefix, p, remainder) {
          entries := entries[remainder := FileEntry(db, p)];
        }
      }
    }

    /** `list`: reconcile, then show the directory. In a tree, for a name without wildcards, the
        entries are the children, each as what it is. */
    method List(name: string) returns (r: Outcome<map<string, Entry>>, ghost gone: set<Path>)
      requires Valid()
      modifies this`db, this`journal, this`scans, this`ready, this`clock, this`lastReconcile, cloud`faults
      ensures Valid()
      ensures gone <= old(View(db)).Keys && View(db) == old(View(db)) - gone
      ensures scans == old(scans) ==> gone == {}
      ensures scans != old(scans) ==> scans != [] && gone == scans[|scans| - 1].confirmed
      ensures Scanned(old(db), old(clock), old(scans), db, clock, scans, cloud.faults == old(cloud.faults),
                      cloud.held, cloud.lost, config.missingObservations, config.missingGrace)
      ensures ScannedWhenDue(old(lastReconcile), old(scans), clock, lastReconcile, scans,
                             cloud.faults == old(cloud.faults) && !r.Stopped?, config.reconcileInterval)
      ensures clock >= old(clock)
      ensures cloud.faults == old(cloud.faults) && !r.Stopped? ==>
        if DirectoryExists(db.directories, Normalize(name)) then r.Done? else r == Raised(NotDirectory)
      ensures r.Done? ==> DirectoryExists(db.directories, Normalize(name))
      ensures r.Done? ==> EntriesOf(db, Prefix(Normalize(name)), r.value)
      ensures r.Done? && Rooted(db.directories, db.files) && WildcardFree(Normalize(name)) ==>
        ShowsChildren(db, Normalize(name), r.value)
      ensures old(Rooted(db.directories, db.files)) ==> Rooted(db.directories, db.files)
      ensures old(Tidy(db, clock)) ==> Tidy(db, clock)
      ensures old(Counted(db.missing, scans)) ==> Counted(db.missing, scans)
      ensures cloud.faults >= old(cloud.faults)
    {
      hide VaultInv, TablesInv, AllLaid, PinsGood, RefsHaveRows, OneReference, ChunksGood, FreshFrom, Replay, View,
           Rooted, ShowsChildren, ListedFile, ListedDirectory, EntriesOf,
           Tombstoned, Settles, Counted, Whole, Incomplete, Tidy;
      ghost var before := db;
      VaultInvTables(db, cloud.held, cloud.lost, gateway);
      LiveKeys(db);
      var reconciled := Reconcile();
      gone := {};
      if scans != old(scans) {
        gone := scans[|scans| - 1].confirmed;
        AllWhole(before, cloud.held, cloud.lost, gateway);
        TombstonedView(before, db, gone, scans[|scans| - 1].at, before.missing);
      }
      if reconciled.IsFailure() {
        return reconciled.PropagateFailure(), gone;
      }
      var path := Normalize(name);
      NormalizeIsNormal(name);
      if !DirectoryExists(db.directories, path) {
        return Raised(NotDirectory), gone;
      }
      VaultInvTables(db, cloud.held, cloud.lost, gateway);
      var entries := Entries(Prefix(path));
      if Rooted(db.directories, db.files) && WildcardFree(path) {
        EntriesAreChildren(db, path, entries);
      }
      r := Done(entries);
    }

    // ---- Garbage collection -------------------------------------------------------------

    /** `_delete_remote_manifest` and `_delete_remote_chunk`: the object, then its key; what is
        already gone is no failure. */
    method DeleteRemote(part: Part) returns (r: Outcome<()>)
      requires Valid() && !part.Key?
      requires Expendable(db, part) && Expendable(db, Key(part.id))
      modifies cloud
      ensures Valid() && cloud.lost == old(cloud.lost)
      ensures OnlyFilesOf(part.id, old(cloud.held), cloud.held) && cloud.held.Keys <= old(cloud.held).Keys
      ensures r.Done? ==> part !in cloud.held && Key(part.id) !in cloud.held
      ensures part in cloud.held && Key(part.id) in old(cloud.held) ==> Key(part.id) in cloud.held
      ensures cloud.faults == old(cloud.faults) + if r.Raised? then 1 else 0
    {
      hide VaultInv, TablesInv, AllLaid, PinsGood, RefsHaveRows, OneReference, ChunksGood, FreshFrom, Replay, View,
           Expendable;
      RemoteDeleteKeeps(db, cloud.held, cloud.lost, gateway, part);
      r := cloud.Delete(part);
      if r.IsFailure() && r != Raised(NotFound) {
        return;
      }
      RemoteDeleteKeeps(db, cloud.held, cloud.lost, gateway, Key(part.id));
      r := cloud.Delete(Key(part.id));
      if r == Raised(NotFound) {
        r := Done(());
      }
    }

    /** One round of the first loop of `_collect_garbage`. A manifest whose files cannot be
        removed keeps its row. */
    method SweepManifest(m: Id) returns (r: Outcome<()>)
      requires Valid() && m in db.manifests && !Kept(db.files, db.versions, db.uploads, m)
      modifies this`db, this`journal, cloud
      ensures Valid() && cloud.lost == old(cloud.lost) && journal == old(journal)
      ensures OnlyFilesOf(m, old(cloud.held), cloud.held) && cloud.held.Keys <= old(cloud.held).Keys
      ensures cloud.faults == old(cloud.faults) + if r.Raised? then 1 else 0
      ensures r.Done? ==> db == DropManifest(old(db), m) && Manifest(m) !in cloud.held && Key(m) !in cloud.held
      ensures db == old(db) || (db == DropManifest(old(db), m) && Manifest(m) !in cloud.held && Key(m) !in cloud.held)
      ensures r.Raised? ==> db == old(db)
    {
      hide VaultInv, FreshFrom, Replay, View, Expendable, Kept, TablesInv, AllLaid, PinsGood, RefsHaveRows,
           OneReference, ChunksGood, DropManifest;
      VaultInvTables(db, cloud.held, cloud.lost, gateway);
      SweptFilesExpendable(db);
      var _ :- DeleteRemote(Manifest(m));
      DropManifestKeeps(db, cloud.held, cloud.lost, gateway, m);
      DropManifestFresh(db, nextId, m);
      var _, _ :- Commit(DropManifest(db, m), []);
      r := Done(());
    }

    /** The first loop of `_collect_garbage`: manifests nothing names. */
    method SweepManifests() returns (r: Outcome<()>)
      requires Valid()
      modifies this`db, this`journal, cloud
      ensures Valid() && cloud.lost == old(cloud.lost) && journal == old(journal)
      ensures !r.Raised? && cloud.faults >= old(cloud.faults)
      ensures db == old(db).(manifests := db.manifests, manifestChunks := db.manifestChunks)
      ensures Trimmed(old(db).manifests, old(db).manifestChunks, db.manifests, db.manifestChunks)
      ensures forall m :: m in old(db).manifests && m !in db.manifests ==>
        && !Kept(db.files, db.versions, db.uploads, m)
        && Manifest(m) !in cloud.held && Key(m) !in cloud.held
      ensures r.Done? && cloud.faults == old(cloud.faults) ==>
        forall m :: m in db.manifests ==> Kept(db.files, db.versions, db.uploads, m)
    {
      hide VaultInv, TablesInv, AllLaid, PinsGood, RefsHaveRows, OneReference, ChunksGood, FreshFrom, Replay, View,
           Kept, DropManifest, Trimmed;
      ghost var before := db;
      var todo := set m | m in db.manifests && !Kept(db.files, db.versions, db.uploads, m);
      VaultInvTables(db, cloud.held, cloud.lost, gateway);
      TrimmedAll(db);
      while todo != {}
        invariant Valid() && cloud.lost == old(cloud.lost) && journal == old(journal)
        invariant cloud.faults >= old(cloud.faults)
        invariant SweepingManifests(before, db, todo, cloud.held, cloud.faults == old(cloud.faults))
        decreases todo
      {
        var m :| m in todo;
        ghost var db0, held0 := db, cloud.held;
        var swept := SweepManifest(m);
        if swept.Stopped? {
          SweepManifestRound(before, db0, db, todo, held0, cloud.held, false, m);
          return Stopped;
        }
        SweepManifestRound(before, db0, db, todo, held0, cloud.held, cloud.faults == old(cloud.faults), m);
        todo := todo - {m};
      }
      r := Done(());
    }

    /** One round of the second loop of `_collect_garbage`. */
    method SweepChunk(c: Id) returns (r: Outcome<()>)
      requires Valid() && c in db.chunks && !Used(db.manifestChunks, db.uploadChunks, c)
      modifies this`db, this`journal, cloud
      ensures Valid() && cloud.lost == old(cloud.lost) && journal == old(journal)
      ensures OnlyFilesOf(c, old(cloud.held), cloud.held) && cloud.held.Keys <= old(cloud.held).Keys
      ensures cloud.faults == old(cloud.faults) + if r.Raised? then 1 else 0
      ensures r.Done? ==> db == DropChunk(old(db), c) && Object(c) !in cloud.held && Key(c) !in cloud.held
      ensures db == old(db) || (db == DropChunk(old(db), c) && Object(c) !in cloud.held && Key(c) !in cloud.held)
      ensures r.Raised? ==> db == old(db)
    {
      hide VaultInv, TablesInv, AllLaid, PinsGood, RefsHaveRows, OneReference, ChunksGood, FreshFrom, Replay, View,
           Expendable, Used, Kept, DropChunk;
      VaultInvTables(db, cloud.held, cloud.lost, gateway);
      SweptFilesExpendable(db);
      var _ :- DeleteRemote(Object(c));
      DropChunkKeeps(db, cloud.held, cloud.lost, gateway, c);
      DropChunkFresh(db, nextId, c);
      var _, _ :- Commit(DropChunk(db, c), []);
      r := Done(());
    }

    /** The second loop of `_collect_garbage`: chunks no list names and no upload pins. */
    method SweepChunks() returns (r: Outcome<()>)
      requires Valid()
      modifies this`db, this`journal, cloud
      ensures Valid() && cloud.lost == old(cloud.lost) && journal == old(journal)
      ensures !r.Raised? && cloud.faults >= old(cloud.faults) && cloud.held.Keys <= old(cloud.held).Keys
      ensures db == old(db).(chunks := db.chunks) && Subtable(db.chunks, old(db).chunks)
      ensures forall c :: c in old(db).chunks && c !in db.chunks ==>
        !Used(db.manifestChunks, db.uploadChunks, c) && Object(c) !in cloud.held && Key(c) !in cloud.held
      ensures r.Done? && cloud.faults == old(cloud.faults) ==>
        forall c :: c in db.chunks ==> Used(db.manifestChunks, db.uploadChunks, c)
    {
      hide VaultInv, TablesInv, AllLaid, PinsGood, RefsHaveRows, OneReference, ChunksGood, FreshFrom, Replay, View,
           Used, Kept, DropChunk;
      ghost var before := db;
      var todo := set c | c in db.chunks && !Used(db.manifestChunks, db.uploadChunks, c);
      while todo != {}
        invariant Valid() && cloud.lost == old(cloud.lost) && journal == old(journal)
        invariant cloud.faults >= old(cloud.faults) && cloud.held.Keys <= old(cloud.held).Keys
        invariant SweepingChunks(before, db, todo, cloud.held, cloud.faults == old(cloud.faults))
        decreases todo
      {
        var c :| c in todo;
        ghost var db0, held0 := db, cloud.held;
        var swept := SweepChunk(c);
        if swept.Stopped? {
          SweepChunkRound(before, db0, db, todo, held0, cloud.held, false, c);
          return Stopped;
        }
        SweepChunkRound(before, db0, db, todo, held0, cloud.held, cloud.faults == old(cloud.faults), c);
        todo := todo - {c};
      }
      r := Done(());
    }

    /** The scan of one directory in `_remove_unknown_remote_objects`. */
    method RemoveUnknownIn(directory: Directory, cutoff: Time) returns (r: Outcome<()>)
      requires Valid()
      modifies cloud
      ensures Valid() && cloud.lost == old(cloud.lost)
      ensures cloud.faults >= old(cloud.faults) && (r.Raised? ==> cloud.faults > old(cloud.faults))
      ensures Subtable(cloud.held, old(cloud.held))
      ensures forall p :: p in old(cloud.held) && p !in cloud.held ==>
        && DirectoryOf(p) == directory && !KnownPart(db, p)
      ensures r.Done? && cloud.faults == old(cloud.faults) ==> forall p :: p in old(cloud.held) ==>
        (p !in cloud.held <==>
          DirectoryOf(p) == directory && !KnownPart(db, p) && 0 < old(cloud.held)[p].modified <= cutoff)
    {
      hide VaultInv, TablesInv, AllLaid, PinsGood, RefsHaveRows, OneReference, ChunksGood, FreshFrom, Replay, View,
           Expendable;
      ghost var held0, faults0 := cloud.held, cloud.faults;
      var listing :- cloud.List(directory);
      ghost var exact := cloud.faults == faults0;
      var todo := set p | p in listing && !KnownPart(db, p) && 0 < listing[p] <= cutoff;
      ghost var all := todo;
      while todo != {}
        invariant Valid() && cloud.lost == old(cloud.lost) && cloud.faults >= old(cloud.faults)
        invariant exact <== cloud.faults == faults0
        invariant todo <= all && Subtable(cloud.held, held0)
        invariant forall p :: p in held0 && p !in cloud.held ==> p in all
        invariant cloud.faults == faults0 ==> forall p :: p in all - todo ==> p !in cloud.held
        decreases todo
      {
        var p :| p in todo;
        todo := todo - {p};
        UnknownExpendable(db, p);
        RemoteDeleteKeeps(db, cloud.held, cloud.lost, gateway, p);
        var deleted := cloud.Delete(p);
        if deleted.Stopped? {
          return Stopped;
        }
      }
      r := Done(());
    }

    /** `_remove_unknown_remote_objects`: files of the vault without a row, old enough. */
    method RemoveUnknown() returns (r: Outcome<()>)
      requires Valid()
      modifies this`clock, cloud
      ensures Valid() && cloud.lost == old(cloud.lost) && clock > old(clock)
      ensures cloud.faults >= old(cloud.faults) && (r.Raised? ==> cloud.faults > old(cloud.faults))
      ensures Subtable(cloud.held, old(cloud.held))
      ensures forall p :: p in old(cloud.held) && p !in cloud.held ==> !KnownPart(db, p)
      ensures r.Done? && cloud.faults == old(cloud.faults) ==> forall p :: p in old(cloud.held) ==>
        (p !in cloud.held <==>
          !KnownPart(db, p) && 0 < old(cloud.held)[p].modified <= clock - config.orphanGrace)
    {
      hide VaultInv, TablesInv, AllLaid, PinsGood, RefsHaveRows, OneReference, ChunksGood, FreshFrom, Replay, View;
      var now := Now();
      var cutoff := now - config.orphanGrace;
      var _ :- RemoveUnknownIn(Objects, cutoff);
      var _ :- RemoveUnknownIn(ManifestFiles, cutoff);
      var _ :- RemoveUnknownIn(Keys, cutoff);
      r := Done(());
    }

    /** `_collect_garbage`. It touches no file, version, tombstone, upload or pin; and if no
        call to the vault fails, exactly what is reachable stays. */
    method CollectGarbage(scanRemote: bool) returns (r: Outcome<()>)
      requires Valid()
      modifies this`db, this`journal, this`clock, this`sweptFrom, cloud
      ensures Valid() && cloud.lost == old(cloud.lost) && journal == old(journal) && clock >= old(clock)
      ensures cloud.faults >= old(cloud.faults) && sweptFrom == old(cloud.faults)
      ensures r.Raised? ==> scanRemote && cloud.faults > old(cloud.faults)
      ensures db == old(db).(manifests := db.manifests, manifestChunks := db.manifestChunks, chunks := db.chunks)
      ensures Collected(old(db), db, r.Done? && cloud.faults == old(cloud.faults))
      ensures scanRemote && r.Done? && cloud.faults == old(cloud.faults) ==>
        NoOrphans(db, cloud.held, clock - config.orphanGrace)
    {
      hide VaultInv, TablesInv, AllLaid, PinsGood, RefsHaveRows, OneReference, ChunksGood, FreshFrom, Replay, View,
           Used, Kept, Trimmed, Reachable,
           Swept;
      sweptFrom := cloud.faults;
      ghost var before := db;
      VaultInvTables(db, cloud.held, cloud.lost, gateway);
      r := SweepManifests();
      ghost var middle := db;
      if r.IsFailure() {
        CollectedInTwoPasses(before, middle, db, false);
        return;
      }
      r := SweepChunks();
      CollectedInTwoPasses(before, middle, db, r.Done? && cloud.faults == sweptFrom);
      if r.IsFailure() {
        return;
      }
      if scanRemote {
        var _ :- RemoveUnknown();
      }
      r := Done(());
    }

    // ---- Retention ----------------------------------------------------------------------

    /** One transaction that deletes rows of `cas_versions`. */
    method DropHistory(drop: set<VersionKey>) returns (r: Outcome<()>, ghost went: bool)
      requires Valid()
      modifies this`db, this`journal
      ensures Valid() && !r.Raised? && journal == old(journal)
      ensures r.Done? ==> went
      ensures db == if went then DropVersions(old(db), drop) else old(db)
    {
      hide VaultInv, TablesInv, AllLaid, PinsGood, RefsHaveRows, OneReference, ChunksGood, FreshFrom, Replay, View,
           DropVersions;
      DropVersionsKeeps(db, cloud.held, cloud.lost, gateway, drop);
      DropVersionsFresh(db, drop, nextId);
      r, went := Commit(DropVersions(db, drop), []);
    }

    /** `_version_limit`. */
    function VersionLimit(size: nat): nat {
      if size < config.mediumThreshold then config.smallVersions
      else if size <= config.largeThreshold then config.mediumVersions
      else config.largeVersions
    }

    /** How many old versions a live path may keep: the limit counts the current one. */
    function KeepHistory(files: Files, manifests: Manifests, path: Path): nat
      requires path in files && files[path].manifest in manifests
    {
      var limit := VersionLimit(manifests[files[path].manifest].size);
      if limit > 1 then limit - 1 else 0
    }

    /** `_apply_retention_for_path`. */
    method ApplyRetention(path: Path) returns (r: Outcome<()>)
      requires Valid()
      modifies this`db, this`journal
      ensures Valid() && !r.Raised? && journal == old(journal)
      ensures db == old(db).(versions := db.versions) && NewestStay(old(db).versions, db.versions)
      ensures forall k :: k in old(db).versions && k.path != path ==> k in db.versions
      ensures r.Done? && path in db.files ==>
        && db.files[path].manifest in db.manifests
        && (forall k :: k in old(db).versions && k.path == path ==>
              (k in db.versions <==>
                 config.Keeps(db.manifests[db.files[path].manifest].size, |Newer(old(db).versions, k)|)))
        && FewEnough(db, path)
    {
      hide VaultInv, TablesInv, AllLaid, PinsGood, RefsHaveRows, OneReference, ChunksGood, FreshFrom, Replay, View,
           Newer, Descending, KeysOf, VersionsAt;
      VaultInvTables(db, cloud.held, cloud.lost, gateway);
      if path !in db.files {
        return Done(());
      }
      FileHasManifest(db, path);
      var keep := KeepHistory(db.files, db.manifests, path);
      var rows := HistoryDescending(db.versions, path);
      KeepFirst(db, path, rows, keep);
      var n := if keep < |rows| then keep else |rows|;
      ghost var went;
      r, went := DropHistory(KeysOf(path, rows[n..]));
    }

    /** Within the limit of its path: a live path keeps so many of its newest old versions. */
    predicate WithinLimit(table: Db, versions: Versions, k: VersionKey) {
      k.path in table.files && table.files[k.path].manifest in table.manifests ==>
        config.Keeps(table.manifests[table.files[k.path].manifest].size, |Newer(versions, k)|)
    }

    /** A live path has no more old versions than a file of its size may have. */
    predicate FewEnough(table: Db, path: Path) {
      path in table.files ==>
        && var m := table.files[path].manifest;
        && m in table.manifests
        && (VersionsAt(table.versions, path) != {} ==>
              config.Keeps(table.manifests[m].size, |VersionsAt(table.versions, path)| - 1))
    }

    lemma FewerStillEnough(table: Db, table': Db, path: Path)
      requires FewEnough(table, path) && Subtable(table'.versions, table.versions)
      requires table'.files == table.files
      requires path in table.files && table.files[path].manifest in table.manifests ==>
        && table.files[path].manifest in table'.manifests
        && table'.manifests[table.files[path].manifest] == table.manifests[table.files[path].manifest]
      ensures FewEnough(table', path)
    {
      FewerAt(table.versions, table'.versions, path);
    }

    /** Step 2 of `gc`: the limit for every live path. */
    method ApplyRetentions() returns (r: Outcome<()>)
      requires Valid()
      modifies this`db, this`journal
      ensures Valid() && !r.Raised? && journal == old(journal)
      ensures forall t :: Thinned(old(db), db, t)
      ensures db == old(db).(versions := db.versions)
      ensures r.Done? ==> forall k :: k in old(db).versions ==>
        (k in db.versions <==> WithinLimit(db, old(db).versions, k))
      ensures r.Done? ==> forall p :: p in db.files ==> FewEnough(db, p)
    {
      hide VaultInv, TablesInv, AllLaid, PinsGood, RefsHaveRows, OneReference, ChunksGood, FreshFrom, Replay, View,
           FewEnough, NewestStay, Thinned, VersionsAt, Newer;
      ghost var before := db;
      var todo := db.files.Keys;
      ThinnedSame(db);
      while todo != {}
        invariant Valid() && journal == old(journal)
        invariant db == before.(versions := db.versions)
        invariant forall t :: Thinned(before, db, t)
        invariant Subtable(db.versions, before.versions)
        invariant forall k :: k in before.versions && k.path in todo ==> k in db.versions
        invariant forall k :: k in before.versions && k.path !in todo ==>
          (k in db.versions <==> WithinLimit(before, before.versions, k))
        invariant forall p :: p in db.files && p !in todo ==> FewEnough(db, p)
        decreases todo
      {
        var p :| p in todo;
        ghost var now := db;
        r := ApplyRetention(p);
        NewestSubtable(now.versions, db.versions);
        forall t {
          ThinnedMore(before, now, db, t);
        }
        if r.IsFailure() {
          return;
        }
        forall q | q in db.files && q !in todo
          ensures FewEnough(db, q)
        {
          FewerStillEnough(now, db, q);
        }
        forall k | k in before.versions && k.path == p
          ensures Newer(now.versions, k) == Newer(before.versions, k)
        {
          NewerSame(before.versions, now.versions, k);
        }
        todo := todo - {p};
      }
      r := Done(());
    }

    /** Step 3 of `gc`: the histories of deleted paths. */
    method PurgeAllDeleted() returns (r: Outcome<()>)
      requires Valid()
      modifies this`db, this`journal
      ensures Valid() && !r.Raised? && journal == old(journal)
      ensures forall t :: Thinned(old(db), db, t)
      ensures r.Done? ==> db.deleted == map[]
      ensures r.Done? ==> forall k :: k in db.versions <==> k in old(db).versions && k.path !in old(db).deleted
    {
      hide VaultInv, TablesInv, AllLaid, PinsGood, RefsHaveRows, OneReference, ChunksGood, FreshFrom, Replay, View,
           Thinned;
      ghost var before := db;
      var todo := db.deleted.Keys;
      forall t {
        ThinnedNothing(db, t);
      }
      while todo != {}
        invariant Valid() && journal == old(journal)
        invariant forall t :: Thinned(before, db, t)
        invariant db.deleted.Keys == todo <= before.deleted.Keys
        invariant forall k :: k in db.versions <==>
          k in before.versions && (k.path in before.deleted ==> k.path in todo)
        decreases todo
      {
        var p :| p in todo;
        forall t {
          ThinnedPurge(before, db, t, p);
        }
        var _ :- PurgeDeletedPath(p);
        todo := todo - {p};
      }
      r := Done(());
    }

    /** Step 4 of `gc`: while too much is stored, the oldest version of all goes. Current versions
        never do. */
    method PruneToCapacity() returns (r: Outcome<()>, ghost dropped: seq<VersionKey>)
      requires Valid()
      modifies this`db, this`journal
      ensures Valid() && !r.Raised? && journal == old(journal)
      ensures PrunedBy(old(db), db, dropped, config.capacityLimit) && Usage(db) <= Usage(old(db))
      ensures forall t :: Thinned(old(db), db, t)
      ensures r.Done? ==> Usage(db) <= config.capacityLimit || db.versions == map[]
    {
      hide VaultInv, TablesInv, AllLaid, PinsGood, RefsHaveRows, OneReference, ChunksGood, FreshFrom, Replay, View,
           Thinned, PrunedBy, Usage, DropVersions, IsOldest;
      ghost var before := db;
      dropped := [];
      PrunedNothing(db, config.capacityLimit);
      forall t {
        ThinnedNothing(db, t);
      }
      var usage := StoredUsage(db);
      while usage > config.capacityLimit
        invariant Valid() && journal == old(journal)
        invariant usage == Usage(db) <= Usage(before)
        invariant PrunedBy(before, db, dropped, config.capacityLimit)
        invariant forall t :: Thinned(before, db, t)
        decreases |db.versions|
      {
        if db.versions == map[] {
          break;
        }
        OldestExists(db.versions);
        var oldest :| oldest in db.versions && IsOldest(db.versions, oldest);
        ghost var now := db;
        DroppedOldest(before, db, oldest);
        PrunedOneMore(before, db, dropped, config.capacityLimit, oldest);
        ghost var went;
        r, went := DropHistory({oldest});
        if went {
          dropped := dropped + [oldest];
        }
        if r.IsFailure() {
          return;
        }
        usage := StoredUsage(db);
      }
      r := Done(());
    }

    /** Step 1 of `gc`: history that has expired. */
    method ExpireHistory(now: Time) returns (r: Outcome<()>)
      requires Valid()
      modifies this`db, this`journal
      ensures Valid() && !r.Raised? && journal == old(journal)
      ensures forall t :: Thinned(old(db), db, t)
      ensures db.deleted == old(db).deleted
      ensures r.Done? ==>
        if config.retentionDays == 0 then db.versions == map[]
        else forall k :: k in db.versions <==>
          k in old(db).versions && old(db).versions[k].archived >= now - config.retentionDays * 86400
    {
      hide VaultInv, TablesInv, AllLaid, PinsGood, RefsHaveRows, OneReference, ChunksGood, FreshFrom, Replay, View,
           Thinned, NewestStay, DropVersions, Expired;
      var cutoff := now - config.retentionDays * 86400;
      var drop := if config.retentionDays == 0 then db.versions.Keys else Expired(db.versions, cutoff);
      ghost var before := db;
      ExpiredLeft(db, cutoff);
      ghost var went;
      r, went := DropHistory(drop);
      ExpiredThinned(before, db, cutoff);
    }

    /** History after expiry. */
    function Unexpired(before: Db, now: Time): Versions {
      map k | k in before.versions && config.retentionDays > 0 &&
              before.versions[k].archived >= now - config.retentionDays * 86400 :: before.versions[k]
    }

    /** The tables after steps 1 to 3 of `gc`: of the history that has not expired, what is within
        its path's limit and does not belong to a deleted path. */
    function AfterLimits(before: Db, now: Time): Db {
      before.(deleted := map[],
              versions := map k | k in Unexpired(before, now) && k.path !in before.deleted &&
                                  WithinLimit(before, Unexpired(before, now), k) :: before.versions[k])
    }

    /** Steps 1 to 3 of `gc`. */
    method LimitHistory(now: Time) returns (r: Outcome<()>)
      requires Valid()
      modifies this`db, this`journal
      ensures Valid() && !r.Raised? && journal == old(journal)
      ensures forall t :: Thinned(old(db), db, t)
      ensures r.Done? ==>
        && db == AfterLimits(old(db), now)
        && forall p :: p in db.files ==> FewEnough(db, p)
    {
      hide VaultInv, TablesInv, AllLaid, PinsGood, RefsHaveRows, OneReference, ChunksGood, FreshFrom, Replay, View,
           Thinned, FewEnough, WithinLimit;
      ghost var before := db;
      r := ExpireHistory(now);
      if r.IsFailure() {
        return;
      }
      ghost var expired := db;
      r := ApplyRetentions();
      ThinnedTwice(before, expired, db);
      if r.IsFailure() {
        return;
      }
      ghost var limited := db;
      r := PurgeAllDeleted();
      ThinnedTwice(before, limited, db);
      if r.IsFailure() {
        return;
      }
      ThinnedFields(before, expired);
      ThinnedFields(expired, limited);
      ThinnedFields(limited, db);
      forall p | p in db.files
        ensures FewEnough(db, p)
      {
        FewerStillEnough(limited, db, p);
      }
      assert expired.versions == Unexpired(before, now);
      LimitSame(before, limited, now);
      assert db.versions == AfterLimits(before, now).versions;
      r := Done(());
    }

    lemma LimitSame(before: Db, expired: Db, now: Time)
      requires expired.files == before.files && expired.manifests == before.manifests
      ensures forall v, k :: WithinLimit(expired, v, k) == WithinLimit(before, v, k)
    {
    }

    /** Steps 1 to 4 of `gc`; `dropped` is what step 4 let go, in order. */
    method Retain(now: Time) returns (r: Outcome<()>, ghost dropped: seq<VersionKey>)
      requires Valid()
      modifies this`db, this`journal
      ensures Valid() && !r.Raised? && journal == old(journal)
      ensures forall t :: Thinned(old(db), db, t)
      ensures r.Done? ==> Retained(old(db), db, now, dropped)
    {
      hide VaultInv, TablesInv, AllLaid, PinsGood, RefsHaveRows, OneReference, ChunksGood, FreshFrom, Replay, View,
           Thinned, FewEnough, Usage, PrunedBy, WithinLimit, Unexpired, DropVersions;
      ghost var before := db;
      dropped := [];
      r := LimitHistory(now);
      if r.IsFailure() {
        return;
      }
      ghost var limited := db;
      DropNone(limited);
      if config.capacityLimit > 0 {
        r, dropped := PruneToCapacity();
        ThinnedTwice(before, limited, db);
        if r.IsFailure() {
          return;
        }
        PrunedIs(limited, db, dropped, config.capacityLimit);
      }
      forall p | p in db.files
        ensures FewEnough(db, p)
      {
        FewerStillEnough(limited, db, p);
      }
      r := Done(());
    }

    /** What the retention steps leave: the history within the limits, less what had to go, oldest
        first, for the capacity. */
    ghost predicate Retained(before: Db, after: Db, now: Time, dropped: seq<VersionKey>) {
      var limited := AfterLimits(before, now);
      && after.deleted == map[]
      && after.versions == DropVersions(limited, AsSet(dropped)).versions
      && (forall p :: p in after.files ==> FewEnough(after, p))
      && (config.capacityLimit == 0 ==> dropped == [])
      && (config.capacityLimit > 0 ==>
            && PrunedBy(limited, DropVersions(limited, AsSet(dropped)), dropped, config.capacityLimit)
            && (Usage(after) <= config.capacityLimit || after.versions == map[]))
    }

    /** `gc`. Returns whether it ran and the stored bytes it reports. Current files are never
        touched; what history is left obeys the limits; and after a run without failed calls
        exactly what is reachable is left. */
    method Gc(force: bool) returns (r: Outcome<(bool, nat)>, ghost dropped: seq<VersionKey>)
      requires Valid()
      modifies this`db, this`journal, this`ready, this`clock, this`sweptFrom, cloud
      ensures Valid() && cloud.lost == old(cloud.lost) && clock >= old(clock) && journal == old(journal)
      ensures db.files == old(db).files && db.directories == old(db).directories && db.missing == old(db).missing
      ensures db.uploads == old(db).uploads && db.uploadChunks == old(db).uploadChunks
      ensures old(Tidy(db, clock)) ==>
        Tidy(db, clock) && NewestStayAtLive(db.files, old(db).versions, db.versions)
      ensures r.Done? ==> r.value.1 == Usage(db)
      ensures r.Done? && !r.value.0 ==> db == old(db) && !force && clock - db.lastGc < config.gcInterval
      ensures r.Done? && r.value.0 ==> force || db.lastGc - old(db).lastGc >= config.gcInterval
      ensures cloud.faults >= old(cloud.faults) && (r.Raised? ==> cloud.faults > old(cloud.faults))
      ensures r.Done? && r.value.0 && cloud.faults == old(cloud.faults) ==>
        NoOrphans(db, cloud.held, clock - config.orphanGrace)
      ensures r.Done? && r.value.0 ==>
        && old(clock) < db.lastGc <= clock && Retained(old(db), db, db.lastGc, dropped)
        && RefsHaveRows(old(db).files, old(db).versions, old(db).manifests)
        && (forall k :: k in db.versions <==>
              && k in old(db).versions && config.retentionDays > 0
              && old(db).versions[k].archived >= db.lastGc - config.retentionDays * 86400
              && k.path !in old(db).deleted && k !in dropped
              && (k.path in db.files ==>
                    config.Keeps(old(db).manifests[db.files[k.path].manifest].size,
                                 |Newer(Unexpired(old(db), db.lastGc), k)|)))
        && (cloud.faults == old(cloud.faults) ==>
              Swept(db) && (Quiet(db) ==> r.value.1 == AllStored(db)))
    {
      hide VaultInv, TablesInv, AllLaid, PinsGood, RefsHaveRows, OneReference, ChunksGood, FreshFrom, Replay, View,
           Thinned, Tidy, Retained, Usage, AllStored, Swept, Collected, Quiet,
           NewestStayAtLive;
      ghost var faults0 := cloud.faults;
      TidyKept(db, db, old(clock), clock);
      ThinnedTidyHere(db, old(clock));
      dropped := [];
      var ready := EnsureReady();
      if ready.IsFailure() {
        return ready.PropagateFailure(), [];
      }
      var now := Now();
      TidyKept(db, db, old(clock), clock);
      if !force && now - db.lastGc < config.gcInterval {
        var usage := StoredUsage(db);
        return Done((false, usage)), [];
      }
      ghost var before := db;
      VaultInvTables(db, cloud.held, cloud.lost, gateway);
      r, dropped := FinishGc(now, before, old(clock));
      if r.Done? {
        RetainedVersions(before, db, now, dropped);
      }
    }

    /** The last transaction of `gc`: when it ran. */
    method StampGc(now: Time) returns (r: Outcome<()>)
      requires Valid()
      modifies this`db, this`journal
      ensures Valid() && !r.Raised? && journal == old(journal)
      ensures db == old(db) || db == old(db).(lastGc := now)
      ensures r.Done? ==> db == old(db).(lastGc := now)
    {
      hide VaultInv, TablesInv, AllLaid, PinsGood, RefsHaveRows, OneReference, ChunksGood, FreshFrom, Replay, View;
      LastGcKeeps(db, now, cloud.held, cloud.lost, gateway, nextId);
      ghost var went;
      r, went := Commit(db.(lastGc := now), []);
    }

    /** Step 5 of `gc`, and its last transaction. */
    method CollectAndStamp(now: Time) returns (r: Outcome<nat>)
      requires Valid()
      modifies this`db, this`journal, this`clock, this`sweptFrom, cloud
      ensures Valid() && cloud.lost == old(cloud.lost) && clock >= old(clock) && journal == old(journal)
      ensures cloud.faults >= old(cloud.faults) && (r.Raised? ==> cloud.faults > old(cloud.faults))
      ensures db == old(db).(manifests := db.manifests, manifestChunks := db.manifestChunks, chunks := db.chunks,
                             lastGc := db.lastGc)
      ensures Collected(old(db), db.(lastGc := old(db).lastGc), r.Done? && cloud.faults == old(cloud.faults))
      ensures r.Done? ==> db.lastGc == now && r.value == Usage(db)
      ensures r.Done? && cloud.faults == old(cloud.faults) ==>
        && NoOrphans(db, cloud.held, clock - config.orphanGrace)
        && Swept(db) && (Quiet(db) ==> r.value == AllStored(db))
    {
      hide VaultInv, TablesInv, AllLaid, PinsGood, RefsHaveRows, OneReference, ChunksGood, FreshFrom, Replay, View,
           Usage, AllStored, Swept, Trimmed, Reachable, Kept, Quiet, NoOrphans;
      var _ :- CollectGarbage(true);
      var usage := StoredUsage(db);
      VaultInvTables(db, cloud.held, cloud.lost, gateway);
      if Swept(db) && Quiet(db) {
        SweptUsage(db);
      }
      StampedSame(db, now);
      var _ :- StampGc(now);
      r := Done(usage);
    }

    /** `gc`, once it is due. */
    method FinishGc(now: Time, ghost before: Db, ghost clock0: Time)
        returns (r: Outcome<(bool, nat)>, ghost dropped: seq<VersionKey>)
      requires Valid() && before == db && clock0 < now == clock
      modifies this`db, this`journal, this`clock, this`sweptFrom, cloud
      ensures Valid() && cloud.lost == old(cloud.lost) && clock >= old(clock) && journal == old(journal)
      ensures cloud.faults >= old(cloud.faults) && (r.Raised? ==> cloud.faults > old(cloud.faults))
      ensures r.Done? && cloud.faults == old(cloud.faults) ==> NoOrphans(db, cloud.held, clock - config.orphanGrace)
      ensures db.files == before.files && db.directories == before.directories && db.missing == before.missing
      ensures db.uploads == before.uploads && db.uploadChunks == before.uploadChunks
      ensures Tidy(before, clock0) ==>
        Tidy(db, clock) && NewestStayAtLive(db.files, before.versions, db.versions)
      ensures r.Done? ==>
        && r.value == (true, Usage(db)) && db.lastGc == now && Retained(before, db, now, dropped)
        && (cloud.faults == old(cloud.faults) ==>
              Swept(db) && (Quiet(db) ==> r.value.1 == AllStored(db)))
    {
      hide VaultInv, TablesInv, AllLaid, PinsGood, RefsHaveRows, OneReference, ChunksGood, FreshFrom, Replay, View,
           Thinned, Tidy, Retained, Usage, AllStored, Swept, Collected, Quiet, NewestStayAtLive, NoOrphans;
      var retained;
      retained, dropped := Retain(now);
      ghost var thin := db;
      ThinnedFields(before, thin);
      ThinnedTidy(before, thin, clock0, now);
      if retained.IsFailure() {
        return retained.PropagateFailure(), dropped;
      }
      VaultInvTables(db, cloud.held, cloud.lost, gateway);
      var collected := CollectAndStamp(now);
      TidyKept(thin, db, now, clock);
      CollectedRetained(before, thin, db, now, dropped, collected.Done? && cloud.faults == old(cloud.faults));
      r := if collected.Done? then Done((true, collected.value)) else collected.PropagateFailure();
    }

    lemma CollectedRetained(before: Db, thin: Db, after: Db, now: Time, dropped: seq<VersionKey>, clean: bool)
      requires TablesInv(thin) && Retained(before, thin, now, dropped)
      requires after == thin.(manifests := after.manifests, manifestChunks := after.manifestChunks, chunks := after.chunks,
                              lastGc := after.lastGc)
      requires Collected(thin, after.(lastGc := thin.lastGc), clean)
      ensures Retained(before, after, now, dropped)
    {
      hide AllLaid, PinsGood, ChunksGood, OneReference, Swept, Usage, InVersions, InFlight, FewEnough,
           AfterLimits, PrunedBy, DropVersions;
      UsageCollected(thin, after.(lastGc := thin.lastGc));
      StampedSame(after.(lastGc := thin.lastGc), after.lastGc);
      forall p | p in after.files
        ensures after.files[p].manifest in after.manifests
        ensures after.manifests[after.files[p].manifest] == thin.manifests[after.files[p].manifest]
      {
        assert InFiles(thin.files, after.files[p].manifest);
      }
      forall p | p in after.files
        ensures FewEnough(after, p)
      {
        FewerStillEnough(thin, after, p);
      }
    }

    /** Which versions are left, from the sizes, the options and what the capacity took. */
    lemma RetainedVersions(before: Db, after: Db, now: Time, dropped: seq<VersionKey>)
      requires Retained(before, after, now, dropped) && RefsHaveRows(before.files, before.versions, before.manifests)
      ensures forall k :: k in after.versions <==>
        && k in before.versions && config.retentionDays > 0
        && before.versions[k].archived >= now - config.retentionDays * 86400
        && k.path !in before.deleted && k !in dropped
        && (k.path in before.files ==>
              config.Keeps(before.manifests[before.files[k.path].manifest].size, |Newer(Unexpired(before, now), k)|))
    {
      hide Newer, PrunedBy, Usage, FewEnough;
    }
  }
}
