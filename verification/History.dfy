/** Version history: which versions of a file there are, and that no transaction loses one by
    accident. */
module History {
  import opened Tables
  import opened Vault

  // ---- No manifest is lost --------------------------------------------------------------

  /** The manifests named by current files and by history. */
  ghost function Named(files: Files, versions: Versions): set<Id> {
    (set p | p in files :: files[p].manifest) + (set k | k in versions :: versions[k].manifest)
  }

  /** Archiving over an existing key would drop the manifest of the row it overwrites. */
  lemma ArchiveNamed(files: Files, versions: Versions, path: Path, now: Time)
    requires OneReference(files, versions) && path in files
    ensures var key := VersionKey(path, files[path].version);
      Named(Without(files, path), Archive(versions, path, files[path], now)) ==
      if key in versions then Named(files, versions) - {versions[key].manifest} else Named(files, versions)
  {
    var row := files[path];
    var key := VersionKey(path, row.version);
    var files', versions' := Without(files, path), Archive(versions, path, row, now);
    assert key in versions' && versions'[key].manifest == row.manifest;
    forall m | m in Named(files, versions) && !(key in versions && m == versions[key].manifest)
      ensures m in Named(files', versions')
    {
      if p :| p in files && files[p].manifest == m {
        if p != path {
          assert p in files' && files'[p].manifest == m;
        }
      } else {
        var k :| k in versions && versions[k].manifest == m;
        assert k in versions' && versions'[k].manifest == m;
      }
    }
  }

  /** A delete keeps every named manifest named, exactly when its version number is not in the
      path's history already. */
  lemma DeleteConserves(db: Db, path: Path, now: Time, deleted: Time)
    requires OneReference(db.files, db.versions) && path in db.files
    ensures var db' := DeleteFile(db, path, now, deleted);
      Named(db'.files, db'.versions) == Named(db.files, db.versions) <==>
      VersionKey(path, db.files[path].version) !in db.versions
  {
    ArchiveNamed(db.files, db.versions, path, now);
    var key := VersionKey(path, db.files[path].version);
    if key in db.versions {
      assert db.versions[key].manifest in Named(db.files, db.versions);
    }
  }

  /** The same for a tombstone set by reconciliation, which on a clash keeps the old history row
      and loses the current version instead. */
  lemma TombstoneConserves(db: Db, path: Path, now: Time)
    requires OneReference(db.files, db.versions) && path in db.files
    ensures var db' := TombstoneMissing(db, path, now);
      Named(db'.files, db'.versions) == Named(db.files, db.versions) <==>
      VersionKey(path, db.files[path].version) !in db.versions
  {
    var key := VersionKey(path, db.files[path].version);
    var m := db.files[path].manifest;
    var db' := TombstoneMissing(db, path, now);
    if key in db.versions {
      assert m in Named(db.files, db.versions);
      assert m !in Named(db'.files, db'.versions);
    } else {
      ArchiveNamed(db.files, db.versions, path, now);
    }
  }

  /** A committed upload adds its manifest and, unless its version number clashes, loses none. */
  lemma CommitConserves(db: Db, path: Path, previous: Option<FileRow>, current: FileRow, now: Time, u: Id)
    requires OneReference(db.files, db.versions) && !InFiles(db.files, current.manifest)
    requires !InVersions(db.versions, current.manifest)
    requires previous == if path in db.files then Some(db.files[path]) else None
    ensures var db' := CommitVersion(db, path, previous, current, now, u);
      Named(db'.files, db'.versions) == Named(db.files, db.versions) + {current.manifest} <==>
      previous.None? || VersionKey(path, previous.value.version) !in db.versions
  {
    var db' := CommitVersion(db, path, previous, current, now, u);
    assert path in db'.files && db'.files[path].manifest == current.manifest;
    if previous.Some? {
      ArchiveNamed(db.files, db.versions, path, now);
      var key := VersionKey(path, previous.value.version);
      NamedAdd(Without(db.files, path), db'.versions, path, current);
      assert Without(db.files, path)[path := current] == db'.files;
      if key in db.versions {
        assert db.versions[key].manifest in Named(db.files, db.versions);
        assert db.versions[key].manifest != current.manifest;
      }
    } else {
      NamedAdd(db.files, db.versions, path, current);
    }
  }

  lemma NamedAdd(files: Files, versions: Versions, path: Path, row: FileRow)
    requires path !in files
    ensures Named(files[path := row], versions) == Named(files, versions) + {row.manifest}
  {
    var files' := files[path := row];
    assert path in files' && files'[path].manifest == row.manifest;
    forall m | m in Named(files, versions)
      ensures m in Named(files', versions)
    {
      if p :| p in files && files[p].manifest == m {
        assert p in files' && files'[p].manifest == m;
      }
    }
  }

  /** Renaming a file loses nothing. */
  lemma RelabelConserves(db: Db, from: Path, to: Path)
    requires from in db.files && from != to && RelabelAllowed(db, from, to)
    ensures var db' := RelabelFile(db, from, to);
      Named(db'.files, db'.versions) == Named(db.files, db.versions)
  {
    hide RelabelVersions;
    RelabelKeys(db.versions, from, to);
    RelabelVersionsRows(db.versions, from, to);
    var db' := RelabelFile(db, from, to);
    forall m | m in Named(db.files, db.versions)
      ensures m in Named(db'.files, db'.versions)
    {
      if p :| p in db.files && db.files[p].manifest == m {
        var q := if p == from then to else p;
        assert q in db'.files && db'.files[q].manifest == m;
      } else {
        var k :| k in db.versions && db.versions[k].manifest == m;
        var k' := if k.path == from then VersionKey(to, k.version) else k;
        assert VersionKey(from, k.version) == k || k.path != from;
        assert k' in db'.versions && db'.versions[k'].manifest == m;
      }
    }
    forall m | m in Named(db'.files, db'.versions)
      ensures m in Named(db.files, db.versions)
    {
      if p :| p in db'.files && db'.files[p].manifest == m {
        var q := if p == to then from else p;
        assert q in db.files && db.files[q].manifest == m;
      } else {
        var k :| k in db'.versions && db'.versions[k].manifest == m;
        assert KeyBefore(db.versions, from, to, k) in db.versions;
      }
    }
  }

  // ---- History is the newest versions, in order -----------------------------------------

  /** History belongs to a path that is live or tombstoned, never both. */
  ghost predicate Homed(files: Files, versions: Versions, deleted: map<Path, Time>) {
    && (forall p :: p in files ==> p !in deleted)
    && (forall k :: k in versions ==> k.path in files || k.path in deleted)
  }

  /** The versions at one path have no gap, and at a live path they reach up to the current
      one, which is above them all. */
  ghost predicate Gapless(files: Files, versions: Versions) {
    && (forall j, k, w :: j in versions && k in versions && j.path == k.path && j.version < w < k.version ==>
          VersionKey(j.path, w) in versions)
    && (forall k :: k in versions && k.path in files ==> k.version < files[k.path].version)
    && (forall k, w :: k in versions && k.path in files && k.version < w < files[k.path].version ==>
          VersionKey(k.path, w) in versions)
  }

  /** Versions were archived in the order of their numbers, all in the past. */
  ghost predicate Aged(versions: Versions, clock: Time) {
    && (forall k :: k in versions ==> versions[k].archived <= clock)
    && (forall j, k :: j in versions && k in versions && j.path == k.path && j.version < k.version ==>
          versions[j].archived < versions[k].archived)
  }

  ghost predicate Tidy(db: Db, clock: Time) {
    Homed(db.files, db.versions, db.deleted) && Gapless(db.files, db.versions) && Aged(db.versions, clock)
  }

  /** In a tidy history no version number clashes: neither conflict clause ever fires. */
  lemma TidyNoClash(db: Db, clock: Time, path: Path)
    requires Tidy(db, clock) && path in db.files
    ensures VersionKey(path, db.files[path].version) !in db.versions
  {
  }

  /** Only the names and the history matter for order, and time may pass. */
  lemma TidyKept(before: Db, after: Db, clock: Time, now: Time)
    requires after.files == before.files && after.versions == before.versions && after.deleted == before.deleted
    requires clock <= now
    ensures Tidy(before, clock) ==> Tidy(after, now)
  {
  }

  ghost predicate IsNewest(versions: Versions, path: Path, n: nat) {
    && (forall k :: k in versions && k.path == path ==> k.version <= n)
    && (n == 0 || VersionKey(path, n) in versions)
  }

  /** `SELECT MAX(version) FROM cas_versions WHERE path=?`, or 0. */
  method NewestOf(versions: Versions, path: Path) returns (newest: nat)
    ensures IsNewest(versions, path, newest)
  {
    newest := 0;
    var todo := versions.Keys;
    while todo != {}
      invariant todo <= versions.Keys
      invariant forall k :: k in versions.Keys - todo && k.path == path ==> k.version <= newest
      invariant newest == 0 || VersionKey(path, newest) in versions
      decreases todo
    {
      var k :| k in todo;
      todo := todo - {k};
      if k.path == path && k.version > newest {
        newest := k.version;
      }
    }
  }

  /** The number the next version of `path` gets. */
  ghost predicate NextVersion(db: Db, path: Path, n: nat) {
    n >= 1 &&
    if path in db.files then n == db.files[path].version + 1 else IsNewest(db.versions, path, n - 1)
  }

  lemma ArchiveAged(versions: Versions, clock: Time, path: Path, row: FileRow, now: Time)
    requires Aged(versions, clock) && clock < now
    requires forall k :: k in versions && k.path == path ==> k.version < row.version
    ensures Aged(Archive(versions, path, row, now), now)
  {
  }

  /** Tombstoning a path whose history is all older than `now`. */
  lemma TombstoneTidy(db: Db, path: Path, now: Time)
    requires Tidy(db, now) && path in db.files
    requires forall k :: k in db.versions && k.path == path ==> db.versions[k].archived < now
    ensures Tidy(TombstoneMissing(db, path, now), now)
    ensures VersionKey(path, db.files[path].version) !in db.versions
  {
    ArchiveGapless(db.files, db.versions, path, now);
  }

  lemma ArchiveGapless(files: Files, versions: Versions, path: Path, now: Time)
    requires Gapless(files, versions) && path in files
    ensures Gapless(Without(files, path), Archive(versions, path, files[path], now))
  {
    var row := files[path];
    var key := VersionKey(path, row.version);
    var versions' := Archive(versions, path, row, now);
    forall j, k, w | j in versions' && k in versions' && j.path == k.path && j.version < w < k.version
      ensures VersionKey(j.path, w) in versions'
    {
      if k == key {
        assert j in versions;
      }
    }
  }

  lemma CommitTidy(db: Db, clock: Time, path: Path, previous: Option<FileRow>, current: FileRow, u: Id)
    requires Tidy(db, clock) && clock < current.modified
    requires previous == if path in db.files then Some(db.files[path]) else None
    requires NextVersion(db, path, current.version)
    ensures Tidy(CommitVersion(db, path, previous, current, current.modified, u), current.modified)
  {
    var now := current.modified;
    var db' := CommitVersion(db, path, previous, current, now, u);
    if previous.Some? {
      ArchiveAged(db.versions, clock, path, previous.value, now);
      ArchiveGapless(db.files, db.versions, path, now);
      assert Gapless(Without(db.files, path), db'.versions);
      AddGapless(Without(db.files, path), db'.versions, path, current);
      assert Without(db.files, path)[path := current] == db'.files;
    } else {
      AddGapless(db.files, db.versions, path, current);
    }
  }

  lemma AddGapless(files: Files, versions: Versions, path: Path, row: FileRow)
    requires Gapless(files, versions) && path !in files && row.version >= 1
    requires IsNewest(versions, path, row.version - 1)
    ensures Gapless(files[path := row], versions)
  {
    forall k, w | k in versions && k.path == path && k.version < w < row.version
      ensures VersionKey(path, w) in versions
    {
      if w < row.version - 1 {
        var top := VersionKey(path, row.version - 1);
        assert top in versions && k.version < w < top.version;
      }
    }
  }

  lemma DeleteTidy(db: Db, clock: Time, path: Path, now: Time, deleted: Time)
    requires Tidy(db, clock) && path in db.files && clock < now
    ensures Tidy(DeleteFile(db, path, now, deleted), now)
    ensures TombstoneMissing(db, path, now) == DeleteFile(db, path, now, now)
  {
    ArchiveAged(db.versions, clock, path, db.files[path], now);
    ArchiveGapless(db.files, db.versions, path, now);
    TidyNoClash(db, clock, path);
  }

  lemma RelabelTidy(db: Db, clock: Time, from: Path, to: Path)
    requires Tidy(db, clock) && from in db.files && from != to && to !in db.files
    ensures RelabelAllowed(db, from, to) || to in db.deleted
    ensures to !in db.deleted ==> Tidy(RelabelFile(db, from, to), clock)
    ensures RelabelAllowed(db, from, to) && to in db.deleted ==> !Tidy(RelabelFile(db, from, to), clock)
  {
    hide RelabelVersions, Gapless, Aged;
    if to !in db.deleted {
      RelabelVersionsRows(db.versions, from, to);
      RelabelGapless(db.files, db.versions, from, to);
      RelabelAged(db.versions, clock, from, to);
    }
  }

  lemma RelabelGapless(files: Files, versions: Versions, from: Path, to: Path)
    requires Gapless(files, versions) && from in files && from != to && to !in files
    requires forall k :: k in versions ==> k.path != to
    ensures Gapless(Without(files, from)[to := files[from]], RelabelVersions(versions, from, to))
  {
    hide RelabelVersions;
    RelabelVersionsRows(versions, from, to);
  }

  lemma RelabelAged(versions: Versions, clock: Time, from: Path, to: Path)
    requires Aged(versions, clock) && from != to
    requires forall k :: k in versions ==> k.path != to
    ensures Aged(RelabelVersions(versions, from, to), clock)
  {
    hide RelabelVersions;
    RelabelVersionsRows(versions, from, to);
  }

  // ---- Dropping old versions ------------------------------------------------------------

  /** At each path, what is left is the newest versions: whoever stays, all newer ones stay. */
  ghost predicate NewestStay(versions: Versions, versions': Versions) {
    && Subtable(versions', versions)
    && forall j, k :: j in versions' && k in versions && k.path == j.path && k.version > j.version ==> k in versions'
  }

  /** The same at live paths alone. */
  ghost predicate NewestStayAtLive(files: Files, versions: Versions, versions': Versions) {
    && Subtable(versions', versions)
    && forall j, k :: j in versions' && k in versions && k.path == j.path && k.version > j.version && j.path in files ==>
         k in versions'
  }

  lemma NewestStayTidy(db: Db, db': Db, clock: Time)
    requires Tidy(db, clock) && NewestStay(db.versions, db'.versions)
    requires db'.files == db.files && db'.deleted == db.deleted
    ensures Tidy(db', clock)
  {
    forall j, k, w | j in db'.versions && k in db'.versions && j.path == k.path && j.version < w < k.version
      ensures VersionKey(j.path, w) in db'.versions
    {
      assert VersionKey(j.path, w) in db.versions;
    }
  }

  /** Purging a path and its tombstone keeps a tidy history tidy. */
  lemma PurgeTidy(db: Db, db': Db, clock: Time, path: Path)
    requires Tidy(db, clock) && path !in db.files && db'.files == db.files
    requires db'.deleted == Without(db.deleted, path)
    requires forall k :: k in db'.versions <==> k in db.versions && k.path != path
    requires forall k :: k in db'.versions ==> db'.versions[k] == db.versions[k]
    ensures Tidy(db', clock)
  {
  }
}
