/** How much the referenced versions take up, and which old versions are let go. */
module Retention {
  import opened Tables
  import opened Layout
  import opened Capsules
  import opened Vault
  import opened History

  // ---- Sums over sets of rows -----------------------------------------------------------

  type Sizes = map<Id, nat>

  function SizeOf(sizes: Sizes, id: Id): nat {
    if id in sizes then sizes[id] else 0
  }

  /** `SUM(stored_size) ... WHERE id IN ids`: each row once. */
  ghost function Sum(sizes: Sizes, ids: set<Id>): nat {
    if ids == {} then 0
    else
      var id :| id in ids;
      SizeOf(sizes, id) + Sum(sizes, ids - {id})
  }

  lemma {:induction false} SumPick(sizes: Sizes, ids: set<Id>, id: Id)
    requires id in ids
    ensures Sum(sizes, ids) == SizeOf(sizes, id) + Sum(sizes, ids - {id})
    decreases |ids|
  {
    var first :| first in ids && Sum(sizes, ids) == SizeOf(sizes, first) + Sum(sizes, ids - {first});
    if first != id {
      SumPick(sizes, ids - {first}, id);
      SumPick(sizes, ids - {id}, first);
      assert ids - {first} - {id} == ids - {id} - {first};
    }
  }

  lemma {:induction false} SumMonotone(sizes: Sizes, some: set<Id>, all: set<Id>)
    requires some <= all
    ensures Sum(sizes, some) <= Sum(sizes, all)
    decreases |some|
  {
    if some != {} {
      var id :| id in some;
      SumPick(sizes, some, id);
      SumPick(sizes, all, id);
      SumMonotone(sizes, some - {id}, all - {id});
    }
  }

  lemma {:induction false} SumFrame(sizes: Sizes, sizes': Sizes, ids: set<Id>)
    requires forall id :: id in ids ==> SizeOf(sizes, id) == SizeOf(sizes', id)
    ensures Sum(sizes, ids) == Sum(sizes', ids)
    decreases |ids|
  {
    if ids != {} {
      var id :| id in ids;
      SumPick(sizes, ids, id);
      SumPick(sizes', ids, id);
      SumFrame(sizes, sizes', ids - {id});
    }
  }

  /** The loop that adds up the rows of `ids`. */
  method Total(sizes: Sizes, ids: set<Id>) returns (sum: nat)
    ensures sum == Sum(sizes, ids)
  {
    sum := 0;
    var todo := ids;
    while todo != {}
      invariant todo <= ids
      invariant sum + Sum(sizes, todo) == Sum(sizes, ids)
      decreases todo
    {
      var id :| id in todo;
      SumPick(sizes, todo, id);
      sum := sum + SizeOf(sizes, id);
      todo := todo - {id};
    }
  }

  // ---- Usage ----------------------------------------------------------------------------

  function ManifestSizes(manifests: Manifests): Sizes {
    map m | m in manifests :: manifests[m].storedSize
  }

  function ChunkSizes(chunks: ChunkTable): Sizes {
    map c | c in chunks :: chunks[c].storedSize
  }

  /** The chunks of the referenced manifests, each shared chunk once. */
  function UsedChunks(rows: SlotTable, named: set<Id>): set<Id> {
    set s | s in rows && s.owner in named :: rows[s].chunk
  }

  /** `_stored_usage`. */
  ghost function Usage(db: Db): nat {
    var named := Named(db.files, db.versions);
    Sum(ManifestSizes(db.manifests), named) + Sum(ChunkSizes(db.chunks), UsedChunks(db.manifestChunks, named))
  }

  /** Everything there is a row for. */
  ghost function AllStored(db: Db): nat {
    Sum(ManifestSizes(db.manifests), db.manifests.Keys) + Sum(ChunkSizes(db.chunks), db.chunks.Keys)
  }

  method StoredUsage(db: Db) returns (usage: nat)
    ensures usage == Usage(db)
  {
    var refs := (set p | p in db.files :: db.files[p].manifest) + (set k | k in db.versions :: db.versions[k].manifest);
    var manifests := Total(ManifestSizes(db.manifests), refs);
    var chunks := Total(ChunkSizes(db.chunks), UsedChunks(db.manifestChunks, refs));
    usage := manifests + chunks;
  }

  /** What a manifest row adds to the usage: its stored size, once, if a file or a version names it. */
  lemma ManifestCounts(db: Db, m: Id, row: ManifestRow)
    requires m in db.manifests
    ensures var usage := Usage(db.(manifests := db.manifests[m := row]));
      if InFiles(db.files, m) || InVersions(db.versions, m)
      then usage + db.manifests[m].storedSize == Usage(db) + row.storedSize
      else usage == Usage(db)
  {
    NamedKept(db, m);
    SumChange(ManifestSizes(db.manifests), ManifestSizes(db.manifests[m := row]), Named(db.files, db.versions), m);
  }

  /** What a chunk row adds to the usage: its stored size, once, if some such manifest lists it. */
  lemma ChunkCounts(db: Db, c: Id, row: ChunkRow)
    requires c in db.chunks
    ensures var usage := Usage(db.(chunks := db.chunks[c := row]));
      if (exists s :: s in db.manifestChunks && db.manifestChunks[s].chunk == c &&
                      (InFiles(db.files, s.owner) || InVersions(db.versions, s.owner)))
      then usage + db.chunks[c].storedSize == Usage(db) + row.storedSize
      else usage == Usage(db)
  {
    hide InFiles, InVersions;
    var named := Named(db.files, db.versions);
    forall s | s in db.manifestChunks
      ensures s.owner in named <==> InFiles(db.files, s.owner) || InVersions(db.versions, s.owner)
    {
      NamedKept(db, s.owner);
    }
    SumChange(ChunkSizes(db.chunks), ChunkSizes(db.chunks[c := row]), UsedChunks(db.manifestChunks, named), c);
  }

  /** And nothing else does. */
  lemma NothingCounts(db: Db)
    requires db.manifests == map[] && db.chunks == map[]
    ensures Usage(db) == 0
  {
    var named := Named(db.files, db.versions);
    NoSizes(named);
    NoSizes(UsedChunks(db.manifestChunks, named));
  }

  lemma {:induction false} NoSizes(ids: set<Id>)
    ensures Sum(map[], ids) == 0
    decreases |ids|
  {
    if ids != {} {
      var id :| id in ids;
      SumPick(map[], ids, id);
      NoSizes(ids - {id});
    }
  }

  lemma SumChange(sizes: Sizes, sizes': Sizes, ids: set<Id>, id: Id)
    requires id in sizes && id in sizes' && forall i :: i != id ==> SizeOf(sizes, i) == SizeOf(sizes', i)
    ensures if id in ids then Sum(sizes', ids) + sizes[id] == Sum(sizes, ids) + sizes'[id]
            else Sum(sizes', ids) == Sum(sizes, ids)
  {
    if id in ids {
      SumPick(sizes, ids, id);
      SumPick(sizes', ids, id);
      SumFrame(sizes, sizes', ids - {id});
    } else {
      SumFrame(sizes, sizes', ids);
    }
  }

  lemma NamedFewer(files: Files, versions: Versions, versions': Versions)
    requires Subtable(versions', versions)
    ensures Named(files, versions') <= Named(files, versions)
  {
  }

  /** Letting history go never raises the usage. */
  lemma UsageFalls(db: Db, db': Db)
    requires db' == db.(versions := db'.versions, deleted := db'.deleted) && Subtable(db'.versions, db.versions)
    ensures Usage(db') <= Usage(db)
  {
    var named, named' := Named(db.files, db.versions), Named(db'.files, db'.versions);
    NamedFewer(db.files, db.versions, db'.versions);
    SumMonotone(ManifestSizes(db.manifests), named', named);
    SumMonotone(ChunkSizes(db.chunks), UsedChunks(db.manifestChunks, named'), UsedChunks(db.manifestChunks, named));
  }

  lemma NamedKept(db: Db, m: Id)
    ensures m in Named(db.files, db.versions) <==> InFiles(db.files, m) || InVersions(db.versions, m)
  {
  }

  /** Collecting what nothing names does not change the usage. */
  lemma UsageCollected(db: Db, db': Db)
    requires TablesInv(db)
    requires db' == db.(manifests := db'.manifests, manifestChunks := db'.manifestChunks, chunks := db'.chunks)
    requires Trimmed(db.manifests, db.manifestChunks, db'.manifests, db'.manifestChunks)
    requires Subtable(db'.chunks, db.chunks)
    requires forall m :: m in db.manifests && Kept(db.files, db.versions, db.uploads, m) ==> m in db'.manifests
    requires forall c :: c in db.chunks && Reachable(db, c) ==> c in db'.chunks
    ensures Usage(db') == Usage(db)
  {
    hide TablesInv, Trimmed, Subtable, Sum, ManifestSizes, ChunkSizes, UsedChunks, Kept, Reachable;
    var named := Named(db.files, db.versions);
    ManifestsCollected(db, db', named);
    ChunksCollected(db, db', named);
    SumFrame(ManifestSizes(db.manifests), ManifestSizes(db'.manifests), named);
    SumFrame(ChunkSizes(db.chunks), ChunkSizes(db'.chunks), UsedChunks(db.manifestChunks, named));
  }

  lemma ManifestsCollected(db: Db, db': Db, named: set<Id>)
    requires TablesInv(db) && named == Named(db.files, db.versions)
    requires Trimmed(db.manifests, db.manifestChunks, db'.manifests, db'.manifestChunks)
    requires forall m :: m in db.manifests && Kept(db.files, db.versions, db.uploads, m) ==> m in db'.manifests
    ensures forall m :: m in named ==>
      && m in ManifestSizes(db.manifests) && m in ManifestSizes(db'.manifests)
      && ManifestSizes(db'.manifests)[m] == ManifestSizes(db.manifests)[m]
    ensures forall m :: m in named ==> m in db.manifests && m in db'.manifests
    ensures UsedChunks(db'.manifestChunks, named) == UsedChunks(db.manifestChunks, named)
  {
    hide AllLaid, PinsGood, ChunksGood, OneReference, InFlight, InFiles, InVersions;
    forall m | m in named
      ensures m in db.manifests && m in db'.manifests && db'.manifests[m] == db.manifests[m]
    {
      NamedKept(db, m);
    }
  }

  lemma ChunksCollected(db: Db, db': Db, named: set<Id>)
    requires TablesInv(db) && named == Named(db.files, db.versions)
    requires Subtable(db'.chunks, db.chunks)
    requires forall c :: c in db.chunks && Reachable(db, c) ==> c in db'.chunks
    ensures forall c :: c in UsedChunks(db.manifestChunks, named) ==>
      && c in ChunkSizes(db.chunks) && c in ChunkSizes(db'.chunks)
      && ChunkSizes(db'.chunks)[c] == ChunkSizes(db.chunks)[c]
  {
    hide AllLaid, PinsGood, ChunksGood, OneReference, InFlight, InFiles, InVersions;
    forall c | c in UsedChunks(db.manifestChunks, named)
      ensures c in db.chunks && c in db'.chunks && db'.chunks[c] == db.chunks[c]
    {
      var s :| s in db.manifestChunks && s.owner in named && db.manifestChunks[s].chunk == c;
      NamedKept(db, s.owner);
      SlotChunkKnown(db, s);
      assert Reachable(db, c);
    }
  }

  /** No upload is unfinished. */
  ghost predicate Quiet(db: Db) {
    db.uploadChunks == map[] && forall u :: u in db.uploads ==> !db.uploads[u].status.InFlight()
  }

  /** After a sweep that missed nothing, with no upload unfinished, the usage is all there is. */
  lemma SweptUsage(db: Db)
    requires TablesInv(db) && Swept(db) && Quiet(db)
    ensures Usage(db) == AllStored(db)
  {
    hide AllLaid, PinsGood, ChunksGood, OneReference;
    var named := Named(db.files, db.versions);
    forall m
      ensures m in named <==> m in db.manifests
    {
      NamedKept(db, m);
    }
    assert named == db.manifests.Keys;
    forall c
      ensures c in UsedChunks(db.manifestChunks, named) <==> c in db.chunks
    {
      if c in UsedChunks(db.manifestChunks, named) {
        var s :| s in db.manifestChunks && s.owner in named && db.manifestChunks[s].chunk == c;
        SlotChunkKnown(db, s);
      }
      if c in db.chunks {
        assert Used(db.manifestChunks, db.uploadChunks, c);
        var s :| s in db.manifestChunks && db.manifestChunks[s].chunk == c;
        SlotOwner(db, s);
      }
    }
    assert UsedChunks(db.manifestChunks, named) == db.chunks.Keys;
  }

  lemma SlotOwner(db: Db, s: Slot)
    requires TablesInv(db) && s in db.manifestChunks
    ensures s.owner in db.manifests
  {
  }

  // ---- The oldest history ---------------------------------------------------------------

  predicate IsOldest(versions: Versions, k: VersionKey) {
    k in versions && forall j :: j in versions ==> versions[k].archived <= versions[j].archived
  }

  lemma {:induction false} OldestOf(versions: Versions, keys: set<VersionKey>)
    requires keys != {} && keys <= versions.Keys
    ensures exists k :: k in keys && forall j :: j in keys ==> versions[k].archived <= versions[j].archived
    decreases |keys|
  {
    var k :| k in keys;
    if keys != {k} {
      var rest := keys - {k};
      OldestOf(versions, rest);
      var o :| o in rest && forall j :: j in rest ==> versions[o].archived <= versions[j].archived;
      var w := if versions[k].archived <= versions[o].archived then k else o;
      assert forall j :: j in keys ==> j == k || j in rest;
      assert w in keys && forall j :: j in keys ==> versions[w].archived <= versions[j].archived;
    }
  }

  lemma OldestExists(versions: Versions)
    requires versions != map[]
    ensures exists k :: k in versions && IsOldest(versions, k)
  {
    OldestOf(versions, versions.Keys);
    var k :| k in versions.Keys && forall j :: j in versions.Keys ==> versions[k].archived <= versions[j].archived;
    assert IsOldest(versions, k);
  }

  /** Dropping the oldest of all leaves, at every path, the newest. */
  lemma OldestGoes(versions: Versions, clock: Time, k: VersionKey)
    requires Aged(versions, clock) && IsOldest(versions, k)
    ensures NewestStay(versions, Without(versions, k))
  {
  }

  /** History archived before the cutoff. */
  function Expired(versions: Versions, cutoff: Time): set<VersionKey> {
    set k | k in versions && versions[k].archived < cutoff
  }

  lemma ExpiryGoes(db: Db, clock: Time, cutoff: Time)
    requires Aged(db.versions, clock)
    ensures NewestStay(db.versions, DropVersions(db, Expired(db.versions, cutoff)).versions)
    ensures NewestStay(db.versions, DropVersions(db, db.versions.Keys).versions)
  {
  }

  // ---- The newest history ---------------------------------------------------------------

  function VersionsAt(versions: Versions, path: Path): set<VersionKey> {
    set k | k in versions && k.path == path
  }

  /** The versions of the same path above this one. */
  function Newer(versions: Versions, k: VersionKey): set<VersionKey> {
    set j | j in versions && j.path == k.path && j.version > k.version
  }

  /** `SELECT version ... WHERE path=? ORDER BY version DESC`. */
  ghost predicate Descending(versions: Versions, path: Path, rows: seq<nat>) {
    && (forall i, j :: 0 <= i < j < |rows| ==> rows[i] > rows[j])
    && (forall v: nat :: v in rows <==> VersionKey(path, v) in versions)
  }

  lemma {:induction false} HighestExists(keys: set<VersionKey>)
    requires keys != {}
    ensures exists k :: k in keys && forall j :: j in keys ==> j.version <= k.version
    decreases |keys|
  {
    var k :| k in keys;
    if keys != {k} {
      var rest := keys - {k};
      HighestExists(rest);
      var h :| h in rest && forall j :: j in rest ==> j.version <= h.version;
      var w := if h.version < k.version then k else h;
      assert forall j :: j in keys ==> j == k || j in rest;
      assert w in keys && forall j :: j in keys ==> j.version <= w.version;
    }
  }

  method HistoryDescending(versions: Versions, path: Path) returns (rows: seq<nat>)
    ensures Descending(versions, path, rows)
  {
    rows := [];
    var todo := VersionsAt(versions, path);
    while todo != {}
      invariant todo <= VersionsAt(versions, path)
      invariant forall i, j :: 0 <= i < j < |rows| ==> rows[i] > rows[j]
      invariant forall v: nat :: v in rows <==> VersionKey(path, v) in versions && VersionKey(path, v) !in todo
      invariant forall i, k :: 0 <= i < |rows| && k in todo ==> rows[i] > k.version
      decreases todo
    {
      HighestExists(todo);
      var k :| k in todo && forall j :: j in todo ==> j.version <= k.version;
      assert k == VersionKey(path, k.version);
      forall j | j in todo && j != k
        ensures j.version < k.version
      {
        assert j == VersionKey(path, j.version);
      }
      todo := todo - {k};
      rows := rows + [k.version];
    }
  }

  function KeysOf(path: Path, rows: seq<nat>): set<VersionKey> {
    set i | 0 <= i < |rows| :: VersionKey(path, rows[i])
  }

  lemma {:induction false} KeysOfSize(path: Path, rows: seq<nat>)
    requires forall i, j :: 0 <= i < j < |rows| ==> rows[i] > rows[j]
    ensures |KeysOf(path, rows)| == |rows|
  {
    if rows != [] {
      var front, last := rows[..|rows| - 1], rows[|rows| - 1];
      KeysOfSize(path, front);
      assert VersionKey(path, last) !in KeysOf(path, front);
      assert KeysOf(path, rows) == KeysOf(path, front) + {VersionKey(path, last)};
    } else {
      assert KeysOf(path, rows) == {};
    }
  }

  /** Row `i` of the descending list has exactly `i` newer versions. */
  lemma RankIsIndex(versions: Versions, path: Path, rows: seq<nat>, i: nat)
    requires Descending(versions, path, rows) && i < |rows|
    ensures |Newer(versions, VersionKey(path, rows[i]))| == i
  {
    var front := rows[..i];
    KeysOfSize(path, front);
    forall j | j in Newer(versions, VersionKey(path, rows[i]))
      ensures j in KeysOf(path, front)
    {
      assert j == VersionKey(path, j.version) && j.version in rows;
      var n :| 0 <= n < |rows| && rows[n] == j.version;
      assert n < i && front[n] == j.version;
    }
    forall j | j in KeysOf(path, front)
      ensures j in Newer(versions, VersionKey(path, rows[i]))
    {
      var n :| 0 <= n < |front| && j == VersionKey(path, front[n]);
      assert rows[n] in rows;
    }
    assert Newer(versions, VersionKey(path, rows[i])) == KeysOf(path, front);
  }

  /** Where a version is in the descending list, and what that says. */
  lemma RowOf(versions: Versions, path: Path, rows: seq<nat>, n: nat, k: VersionKey) returns (i: nat)
    requires Descending(versions, path, rows) && n <= |rows| && k in versions && k.path == path
    ensures i < |rows| && k == VersionKey(path, rows[i]) && |Newer(versions, k)| == i
    ensures k in KeysOf(path, rows[n..]) <==> i >= n
    ensures k in KeysOf(path, rows[..n]) <==> i < n
  {
    assert k == VersionKey(path, k.version) && k.version in rows;
    i :| 0 <= i < |rows| && rows[i] == k.version;
    RankIsIndex(versions, path, rows, i);
    if i >= n {
      assert rows[n..][i - n] == k.version;
    } else {
      assert rows[..n][i] == k.version;
    }
    if k in KeysOf(path, rows[n..]) {
      var j :| 0 <= j < |rows[n..]| && k == VersionKey(path, rows[n..][j]);
      assert rows[n + j] == rows[i];
    }
    if k in KeysOf(path, rows[..n]) {
      var j :| 0 <= j < |rows[..n]| && k == VersionKey(path, rows[..n][j]);
      assert rows[j] == rows[i];
    }
  }

  lemma KeysAtPath(path: Path, rows: seq<nat>)
    ensures forall k :: k in KeysOf(path, rows) ==> k.path == path
  {
  }

  /** Keeping the first `keep` rows of the descending list: exactly the versions with fewer than
      `keep` newer ones stay. */
  lemma KeepFirst(db: Db, path: Path, rows: seq<nat>, keep: nat)
    requires Descending(db.versions, path, rows)
    ensures var n := if keep < |rows| then keep else |rows|;
      var db' := DropVersions(db, KeysOf(path, rows[n..]));
      && NewestStay(db.versions, db'.versions)
      && (forall k :: k in db.versions && k.path != path ==> k in db'.versions)
      && (forall k :: k in db.versions && k.path == path ==> (k in db'.versions <==> |Newer(db.versions, k)| < keep))
      && |VersionsAt(db'.versions, path)| <= keep
  {
    hide Newer, Descending, KeysOf;
    var n := if keep < |rows| then keep else |rows|;
    var db' := DropVersions(db, KeysOf(path, rows[n..]));
    KeysAtPath(path, rows[n..]);
    forall k | k in db.versions && k.path == path
      ensures k in db'.versions <==> |Newer(db.versions, k)| < keep
    {
      var i := RowOf(db.versions, path, rows, n, k);
    }
    DescendingPart(db.versions, path, rows, n);
    forall k | k in VersionsAt(db'.versions, path)
      ensures k in KeysOf(path, rows[..n])
    {
      var i := RowOf(db.versions, path, rows, n, k);
    }
    SubsetSize(VersionsAt(db'.versions, path), KeysOf(path, rows[..n]));
    forall j, k | j in db'.versions && k in db.versions && k.path == j.path && k.version > j.version
      ensures k in db'.versions
    {
      if j.path == path {
        NewerFewer(db.versions, j, k);
      }
    }
  }

  lemma DescendingPart(versions: Versions, path: Path, rows: seq<nat>, n: nat)
    requires Descending(versions, path, rows) && n <= |rows|
    ensures |KeysOf(path, rows[..n])| == n
  {
    KeysOfSize(path, rows[..n]);
  }

  lemma NewerFewer(versions: Versions, j: VersionKey, k: VersionKey)
    requires j in versions && k in versions && k.path == j.path && k.version > j.version
    ensures |Newer(versions, k)| < |Newer(versions, j)|
  {
    SubsetSize(Newer(versions, k) + {k}, Newer(versions, j));
  }

  lemma {:induction false} SubsetSize<T>(a: set<T>, b: set<T>)
    requires a <= b
    ensures |a| <= |b|
    decreases |a|
  {
    if a != {} {
      var x :| x in a;
      SubsetSize(a - {x}, b - {x});
    }
  }

  // ---- Capacity -------------------------------------------------------------------------

  function AsSet(keys: seq<VersionKey>): set<VersionKey> {
    set k | k in keys
  }

  /** The history went oldest first, and each version only while the usage was above the limit:
      no shorter such prefix would have been enough. */
  ghost predicate PrunedBy(before: Db, after: Db, dropped: seq<VersionKey>, limit: nat) {
    && after == DropVersions(before, AsSet(dropped))
    && forall i :: 0 <= i < |dropped| ==>
         && IsOldest(DropVersions(before, AsSet(dropped[..i])).versions, dropped[i])
         && Usage(DropVersions(before, AsSet(dropped[..i]))) > limit
  }

  lemma PrunedNothing(db: Db, limit: nat)
    ensures PrunedBy(db, db, [], limit)
  {
    assert DropVersions(db, AsSet([])).versions == db.versions;
  }

  lemma DropTwice(db: Db, first: set<VersionKey>, second: set<VersionKey>)
    ensures DropVersions(DropVersions(db, first), second) == DropVersions(db, first + second)
  {
    assert DropVersions(DropVersions(db, first), second).versions == DropVersions(db, first + second).versions;
  }

  lemma PrunedOneMore(before: Db, now: Db, dropped: seq<VersionKey>, limit: nat, k: VersionKey)
    requires PrunedBy(before, now, dropped, limit) && IsOldest(now.versions, k) && Usage(now) > limit
    ensures PrunedBy(before, DropVersions(now, {k}), dropped + [k], limit)
  {
    hide Usage, IsOldest, DropVersions;
    var more := dropped + [k];
    assert AsSet(more) == AsSet(dropped) + {k};
    DropTwice(before, AsSet(dropped), {k});
    forall i | 0 <= i < |more|
      ensures IsOldest(DropVersions(before, AsSet(more[..i])).versions, more[i])
      ensures Usage(DropVersions(before, AsSet(more[..i]))) > limit
    {
      assert more[..i] == dropped[..i];
      assert dropped[..|dropped|] == dropped;
    }
  }

  // ---- Retention as a whole -------------------------------------------------------------

  /** Only history and tombstones went; and in a tidy history every live path keeps its newest
      versions. */
  ghost predicate Thinned(before: Db, now: Db, clock: Time) {
    && now == before.(versions := now.versions, deleted := now.deleted)
    && Subtable(now.versions, before.versions) && now.deleted.Keys <= before.deleted.Keys
    && (Tidy(before, clock) ==>
          Tidy(now, clock) && NewestStayAtLive(before.files, before.versions, now.versions))
  }

  lemma ThinnedNothing(db: Db, clock: Time)
    ensures Thinned(db, db, clock)
  {
  }

  lemma ThinnedMore(before: Db, now: Db, next: Db, clock: Time)
    requires Thinned(before, now, clock) && next == now.(versions := next.versions)
    requires Subtable(next.versions, now.versions)
    requires Tidy(now, clock) ==> NewestStay(now.versions, next.versions)
    ensures Thinned(before, next, clock)
  {
    hide Homed, Gapless, Aged;
    if Tidy(before, clock) {
      NewestStayTidy(now, next, clock);
    }
  }

  lemma ThinnedPurge(before: Db, now: Db, clock: Time, path: Path)
    requires Thinned(before, now, clock) && path in now.deleted
    ensures Thinned(before, PurgePath(now, path), clock)
  {
    hide Gapless, Aged;
    var next := PurgePath(now, path);
    if Tidy(before, clock) {
      PurgeTidy(now, next, clock, path);
      assert path !in before.files;
    }
  }

  /** The two statements of `_purge_deleted_path`. */
  function PurgePath(db: Db, path: Path): Db {
    db.(versions := map k | k in db.versions && k.path != path :: db.versions[k],
        deleted := Without(db.deleted, path))
  }
}
