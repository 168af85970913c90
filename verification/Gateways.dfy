/** Several gateways on one database, taking turns transaction by transaction. Only the names are
    modelled here: what a replacement that was begun from one version does when others have been
    at work in between. */
module Gateways {
  import opened Tables
  import opened Vault
  import opened History

  /** An upload somewhere between its first look at the path and its commit. */
  datatype Session = Session(path: Path, previous: Option<FileRow>, newVersion: nat)

  /** A committed upload that replaced a current version. */
  datatype Replacement = Replacement(path: Path, was: FileRow, now: FileRow)

  /** No two current files share a manifest. */
  predicate Unshared(files: Files) {
    forall p, q :: p in files && q in files && files[p].manifest == files[q].manifest ==> p == q
  }

  /** What every transaction but an upload's commit does to the current files: it may drop rows and
      give rows other paths, but it makes no new row and no second copy. */
  predicate OnlyMoved(files: Files, files': Files) {
    && (forall q :: q in files' ==> exists p :: p in files && files[p] == files'[q])
    && Unshared(files')
  }

  lemma DeleteOnlyMoves(db: Db, path: Path, archived: Time, deleted: Time)
    requires Unshared(db.files) && path in db.files
    ensures OnlyMoved(db.files, DeleteFile(db, path, archived, deleted).files)
    ensures OnlyMoved(db.files, TombstoneMissing(db, path, deleted).files)
  {
    DropOnlyMoves(db.files, path);
  }

  lemma DropOnlyMoves(files: Files, path: Path)
    requires Unshared(files)
    ensures OnlyMoved(files, Without(files, path))
  {
    forall q | q in Without(files, path)
      ensures exists p :: p in files && files[p] == Without(files, path)[q]
    {
      assert files[q] == Without(files, path)[q];
    }
  }

  lemma RelabelOnlyMoves(db: Db, from: Path, to: Path)
    requires Unshared(db.files) && from in db.files && RelabelAllowed(db, from, to)
    ensures OnlyMoved(db.files, RelabelFile(db, from, to).files)
  {
    var files' := RelabelFile(db, from, to).files;
    forall q | q in files'
      ensures exists p :: p in db.files && db.files[p] == files'[q]
    {
      assert db.files[if q == to then from else q] == files'[q];
    }
  }

  /** The row an upload saw, as far as its manifest is still current anywhere. */
  ghost predicate Current(session: Session, files: Files, nextId: Id) {
    session.previous.Some? ==>
      && session.previous.value.manifest < nextId && session.newVersion == session.previous.value.version + 1
      && forall p :: p in files && files[p].manifest == session.previous.value.manifest ==>
           files[p] == session.previous.value
  }

  /** What was replaced is current nowhere. */
  ghost predicate Past(replacement: Replacement, files: Files, nextId: Id) {
    && replacement.was.manifest < nextId && replacement.now.version == replacement.was.version + 1
    && forall p :: p in files ==> files[p].manifest != replacement.was.manifest
  }

  ghost predicate InTurn(files: Files, sessions: map<Id, Session>, replacements: seq<Replacement>, nextId: Id) {
    && Unshared(files)
    && (forall p :: p in files ==> files[p].manifest < nextId)
    && (forall u :: u in sessions ==> u < nextId && Current(sessions[u], files, nextId))
    && (forall i :: 0 <= i < |replacements| ==> Past(replacements[i], files, nextId))
    && (forall i, j :: 0 <= i < j < |replacements| ==> replacements[i].was.manifest != replacements[j].was.manifest)
  }

  /** What the commit of a replacement leaves of the path's row and its history. */
  ghost predicate Replaced(before: Db, after: Db, path: Path, was: FileRow, archived: Time) {
    var key := VersionKey(path, was.version);
    && path in before.files && before.files[path] == was
    && path in after.files && after.files[path].version == was.version + 1
    && key in after.versions && after.versions[key] == VersionRow(was.manifest, was.modified, archived)
    && forall k :: k in before.versions && k != key ==> k in after.versions && after.versions[k] == before.versions[k]
  }

  /** What a commit adds to the list of replacements. */
  function Replacing(session: Session, row: FileRow): seq<Replacement> {
    if session.previous.Some? then [Replacement(session.path, session.previous.value, row)] else []
  }

  lemma CommitReplaces(db: Db, path: Path, previous: Option<FileRow>, row: FileRow, now: Time, u: Id)
    ensures var db' := CommitVersion(db, path, previous, row, now, u);
      && db'.files == db.files[path := row]
      && ((previous.Some? && path in db.files && db.files[path] == previous.value &&
           row.version == previous.value.version + 1) ==>
            Replaced(db, db', path, previous.value, now))
  {
  }

  /** The commit of an upload: it goes through exactly when the manifest at the path is still the one
      it began from; refused, it leaves everything as it was. */
  ghost predicate CommitAttempted(before: Db, after: Db, session: Session, row: FileRow, u: Id,
                                  replacements: seq<Replacement>, replacements': seq<Replacement>, done: bool) {
    && (done <==> CurrentManifest(before, session.path) == ManifestOf(session.previous))
    && (!done ==> after == before && replacements' == replacements)
    && (done ==>
          && after == CommitVersion(before, session.path, session.previous, row, row.modified, u)
          && (session.previous.Some? ==> Replaced(before, after, session.path, session.previous.value, row.modified))
          && replacements' == replacements + Replacing(session, row))
  }

  /** A commit keeps the turns in order, and one that its check lets through replaces just the row it
      began from. */
  lemma CommitInTurn(db: Db, sessions: map<Id, Session>, replacements: seq<Replacement>, nextId: Id, u: Id, row: FileRow)
    requires InTurn(db.files, sessions, replacements, nextId) && u in sessions
    requires row.manifest == nextId && row.version == sessions[u].newVersion
    ensures var session := sessions[u];
      if CurrentManifest(db, session.path) == ManifestOf(session.previous) then
        var db' := CommitVersion(db, session.path, session.previous, row, row.modified, u);
        && CommitAttempted(db, db', session, row, u, replacements, replacements + Replacing(session, row), true)
        && InTurn(db'.files, Without(sessions, u), replacements + Replacing(session, row), nextId + 1)
      else
        && CommitAttempted(db, db, session, row, u, replacements, replacements, false)
        && InTurn(db.files, Without(sessions, u), replacements, nextId)
  {
    var session := sessions[u];
    if CurrentManifest(db, session.path) == ManifestOf(session.previous) {
      var files, files' := db.files, db.files[session.path := row];
      assert Current(session, files, nextId);
      CommitReplaces(db, session.path, session.previous, row, row.modified, u);
      hide CommitVersion, Replaced;
      forall v | v in Without(sessions, u)
        ensures Current(sessions[v], files', nextId + 1)
      {
        assert Current(sessions[v], files, nextId);
      }
      forall i | 0 <= i < |replacements|
        ensures Past(replacements[i], files', nextId + 1)
      {
        assert Past(replacements[i], files, nextId);
      }
    }
  }

  class Deployment {
    var db: Db
    var clock: Time
    var nextId: Id
    var sessions: map<Id, Session>
    ghost var replacements: seq<Replacement>

    ghost predicate Valid()
      reads this
    {
      InTurn(db.files, sessions, replacements, nextId)
    }

    constructor (db: Db, nextId: Id)
      requires Unshared(db.files) && forall p :: p in db.files ==> db.files[p].manifest < nextId
      ensures Valid() && this.db == db && replacements == [] && sessions == map[]
    {
      this.db, this.nextId, clock, sessions, replacements := db, nextId, 0, map[], [];
    }

    /** `upload_stream` up to its first transaction: the row at the path, or without one the highest
        number in its history. */
    method Begin(path: Path, newest: nat) returns (u: Id)
      requires Valid() && (path !in db.files ==> IsNewest(db.versions, path, newest))
      modifies this`sessions, this`nextId
      ensures Valid() && u !in old(sessions) && u in sessions && sessions == old(sessions)[u := sessions[u]]
      ensures sessions[u].path == path && sessions[u].previous == CurrentRow(db, path)
      ensures NextVersion(db, path, sessions[u].newVersion)
    {
      u := nextId;
      nextId := nextId + 1;
      var previous := CurrentRow(db, path);
      sessions := sessions[u := Session(path, previous, if previous.Some? then previous.value.version + 1 else newest + 1)];
    }

    /** The commit transaction: it goes through exactly when the manifest at the path is still the
        one the upload began from. A replacement then puts exactly that version into history, under
        its own number, and takes the next number. */
    method Commit(u: Id) returns (r: Outcome<()>)
      requires Valid() && u in sessions
      modifies this
      ensures Valid() && sessions == Without(old(sessions), u) && !r.Stopped?
      ensures var row := FileRow(old(nextId), old(clock) + 1, old(sessions)[u].newVersion);
        CommitAttempted(old(db), db, old(sessions)[u], row, u, old(replacements), replacements, r.Done?)
    {
      hide InTurn, CommitVersion, CommitAttempted, Without, Replacing, CurrentManifest, ManifestOf;
      var session := sessions[u];
      var row := FileRow(nextId, clock + 1, session.newVersion);
      CommitInTurn(db, sessions, replacements, nextId, u, row);
      sessions := Without(sessions, u);
      if CurrentManifest(db, session.path) != ManifestOf(session.previous) {
        return Raised(ConcurrentUpdate);
      }
      nextId, clock := nextId + 1, clock + 1;
      db := CommitVersion(db, session.path, session.previous, row, clock, u);
      replacements := replacements + Replacing(session, row);
      r := Done(());
    }

    /** A transaction of any other operation of any gateway. */
    method Elsewhere(next: Db)
      requires Valid() && OnlyMoved(db.files, next.files)
      modifies this`db
      ensures Valid() && db == next
    {
      db := next;
    }
  }

  /** A turn of one of the gateways. */
  datatype Turn = Begins(path: Path) | Commits(u: Id) | Other(next: Db)

  /** In every interleaving no version is replaced twice: of all uploads begun from one version only
      one is ever committed, and what a replacement took the place of is current nowhere. */
  method TakeTurns(deployment: Deployment, turns: seq<Turn>)
    requires deployment.Valid() && deployment.replacements == []
    modifies deployment
    ensures deployment.Valid()
    ensures forall i, j :: 0 <= i < j < |deployment.replacements| ==>
      deployment.replacements[i].was.manifest != deployment.replacements[j].was.manifest
    ensures forall i, p :: 0 <= i < |deployment.replacements| && p in deployment.db.files ==>
      deployment.db.files[p].manifest != deployment.replacements[i].was.manifest
  {
    for n := 0 to |turns|
      invariant deployment.Valid()
    {
      match turns[n]
      case Begins(path) =>
        var newest := NewestOf(deployment.db.versions, path);
        var _ := deployment.Begin(path, newest);
      case Commits(u) =>
        if u in deployment.sessions {
          var _ := deployment.Commit(u);
        }
      case Other(next) =>
        if OnlyMoved(deployment.db.files, next.files) {
          deployment.Elsewhere(next);
        }
    }
    assert forall i :: 0 <= i < |deployment.replacements| ==>
      Past(deployment.replacements[i], deployment.db.files, deployment.nextId);
  }

  // ---- Where the check of the manifest is not enough --------------------------------------

  /** The commit check compares nothing when there was no file: an upload to a free path, overtaken
      by one that was committed and deleted again, comes out under a number that history has. The
      next replacement then archives over it and a version is lost. */
  lemma FirstCreationCanClash(path: Path)
    ensures var deletedOne := EMPTY_DB.(versions := map[VersionKey(path, 1) := VersionRow(7, 1, 2)],
                                        deleted := map[path := 2]);
            var mine := FileRow(8, 3, 1);
            var created := CommitVersion(deletedOne, path, None, mine, 3, 0);
            var replaced := CommitVersion(created, path, Some(mine), FileRow(9, 4, 2), 4, 1);
      && CurrentManifest(deletedOne, path) == None
      && 7 in Named(created.files, created.versions) && 7 !in Named(replaced.files, replaced.versions)
  {
    var deletedOne := EMPTY_DB.(versions := map[VersionKey(path, 1) := VersionRow(7, 1, 2)], deleted := map[path := 2]);
    var created := CommitVersion(deletedOne, path, None, FileRow(8, 3, 1), 3, 0);
    assert VersionKey(path, 1) in created.versions && created.versions[VersionKey(path, 1)].manifest == 7;
  }

  /** `delete` when its row was read before another gateway's transaction. */
  function DeleteWith(db: Db, path: Path, row: FileRow, archived: Time, deleted: Time): Db {
    db.(versions := Archive(db.versions, path, row, archived),
        files := Without(db.files, path),
        deleted := db.deleted[path := deleted])
  }

  /** A delete keeps every manifest exactly when the row it read is still the one at the path and its
      number is free in the history; or, when the file is gone already, exactly when its manifest is
      still named and no other one has its number. */
  lemma DeleteWithConserves(db: Db, path: Path, row: FileRow, archived: Time, deleted: Time)
    requires OneReference(db.files, db.versions)
    ensures var db' := DeleteWith(db, path, row, archived, deleted);
      var key := VersionKey(path, row.version);
      Named(db'.files, db'.versions) == Named(db.files, db.versions) <==>
        if path in db.files then row.manifest == db.files[path].manifest && key !in db.versions
        else row.manifest in Named(db.files, db.versions) &&
             (key in db.versions ==> db.versions[key].manifest == row.manifest)
  {
    var key := VersionKey(path, row.version);
    NamedDelete(db, path, row, archived, deleted);
    if path in db.files {
      assert db.files[path].manifest in Named(db.files, db.versions);
    }
    if key in db.versions {
      assert db.versions[key].manifest in Named(db.files, db.versions);
    }
  }

  /** What a delete with some row names afterwards: the row's manifest, and all it named before but
      that of the file it removes and that of the history row it writes over. */
  lemma NamedDelete(db: Db, path: Path, row: FileRow, archived: Time, deleted: Time)
    requires OneReference(db.files, db.versions)
    ensures var db' := DeleteWith(db, path, row, archived, deleted);
      var key := VersionKey(path, row.version);
      forall m :: m in Named(db'.files, db'.versions) <==>
        m == row.manifest ||
        (m in Named(db.files, db.versions) && !(path in db.files && db.files[path].manifest == m) &&
         !(key in db.versions && db.versions[key].manifest == m))
  {
    var db' := DeleteWith(db, path, row, archived, deleted);
    var key := VersionKey(path, row.version);
    assert key in db'.versions && db'.versions[key].manifest == row.manifest;
    forall m | m in Named(db.files, db.versions) && !(path in db.files && db.files[path].manifest == m) &&
               !(key in db.versions && db.versions[key].manifest == m)
      ensures m in Named(db'.files, db'.versions)
    {
      if p :| p in db.files && db.files[p].manifest == m {
        assert p in db'.files && db'.files[p].manifest == m;
      } else {
        var k :| k in db.versions && db.versions[k].manifest == m;
        assert k in db'.versions && db'.versions[k].manifest == m;
      }
    }
  }

  /** So a delete that read its row before another gateway replaced that version takes the new one
      away without a trace. */
  lemma StaleDeleteLosesAReplacement(path: Path)
    ensures var read := FileRow(7, 1, 1);
            var before := EMPTY_DB.(files := map[path := read]);
            var replaced := CommitVersion(before, path, Some(read), FileRow(8, 2, 2), 2, 0);
            var after := DeleteWith(replaced, path, read, 3, 4);
      && CurrentRow(before, path) == Some(read)
      && 8 in Named(replaced.files, replaced.versions) && 8 !in Named(after.files, after.versions)
  {
    var read := FileRow(7, 1, 1);
    var replaced := CommitVersion(EMPTY_DB.(files := map[path := read]), path, Some(read), FileRow(8, 2, 2), 2, 0);
    assert path in replaced.files && replaced.files[path].manifest == 8;
  }
}
