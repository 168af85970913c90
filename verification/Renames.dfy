/** The transaction of a directory rename: row by row, and abandoned whole when a row meets a
    primary key that is taken. */
module Renames {
  import opened Tables
  import opened Paths
  import opened Capsules
  import opened Vault
  import opened History
  import opened Tree

  /** The rows the subtree query picks. */
  function Selected(source: Path, paths: set<Path>): set<Path> {
    set p | p in paths && Selects(source + "/", p)
  }

  /** What the query picks of these paths is all below the source. */
  predicate PicksBelow(source: Path, paths: set<Path>) {
    forall p :: p in paths && Selects(source + "/", p) ==> Under(source, p)
  }

  /** The query picks the subtree exactly when it picks nothing else; it never picks less. */
  lemma SelectedIsSubtree(source: Path, paths: set<Path>)
    requires source != "/"
    ensures PicksBelow(source, paths) <==> Selected(source, paths) == Subtree(source, paths)
  {
    forall p | p in paths && Under(source, p)
      ensures Selects(source + "/", p)
    {
      LikeCoversPrefix(source + "/", p);
    }
    if !PicksBelow(source, paths) {
      var p :| p in paths && Selects(source + "/", p) && !Under(source, p);
      assert p in Selected(source, paths) && p !in Subtree(source, paths);
    }
    forall p | PicksBelow(source, paths) && p in Selected(source, paths)
      ensures p in Subtree(source, paths)
    {
    }
  }

  /** Without wildcards in the source it never does. */
  lemma WildcardFreePicksBelow(source: Path, paths: set<Path>)
    requires WildcardFree(source) && source != "/"
    ensures PicksBelow(source, paths)
  {
    forall p | p in paths
      ensures Selects(source + "/", p) <==> Under(source, p)
    {
      LikeExact(source + "/", p);
    }
  }

  /** Midway: the rows in `done` have moved, with their histories. */
  ghost predicate Moving(before: Db, now: Db, source: Path, destination: Path, done: set<Path>) {
    && now == before.(files := now.files, versions := now.versions)
    && done <= before.files.Keys
    && FilesMoved(source, destination, done, before.files, now.files)
    && VersionsMoved(source, destination, done, before.versions, now.versions)
  }

  /** Nothing is in the way below the destination. */
  ghost predicate ClearBelow(destination: Path, files: Files, versions: Versions) {
    && (forall p :: p in files ==> !Under(destination, p))
    && (forall k :: k in versions ==> !Under(destination, k.path))
  }

  ghost predicate MovesCleanly(source: Path, destination: Path, before: Db) {
    && source != "/" && destination != "/" && PicksBelow(source, before.files.Keys)
    && ClearBelow(destination, before.files, before.versions)
  }

  lemma MoveStep(before: Db, now: Db, source: Path, destination: Path, done: set<Path>, p: Path)
    requires OneReference(before.files, before.versions)
    requires Moving(before, now, source, destination, done) && p in before.files && p !in done
    ensures p in now.files
    ensures var q := Moved(source, destination, p);
      RelabelAllowed(now, p, q) ==>
        Moving(before, if q == p then now else RelabelFile(now, p, q), source, destination, done + {p})
  {
    hide Moved, RelabelVersions, FilesMoved, VersionsMoved, KeyPlace;
    var q := Moved(source, destination, p);
    assert Place(source, destination, done, p) == p;
    MovedSoFar(source, destination, done, before.files, now.files, p);
    if RelabelAllowed(now, p, q) {
      MoveOneFile(source, destination, done, before.files, now.files, p);
      if q == p {
        assert Without(now.files, p)[q := now.files[p]] == now.files;
        MoveNothing(source, destination, done, before.versions, now.versions, p);
      } else {
        MoveOneHistory(source, destination, done, before.files, now.files, before.versions, now.versions, p);
      }
    }
  }

  lemma MovedSoFar(source: Path, destination: Path, done: set<Path>, files: Files, files': Files, p: Path)
    requires FilesMoved(source, destination, done, files, files') && p in files && p !in done
    ensures p in files' && files'[p] == files[p]
  {
    assert Place(source, destination, done, p) == p;
  }

  lemma MoveNothing(source: Path, destination: Path, done: set<Path>, versions: Versions, versions': Versions, p: Path)
    requires VersionsMoved(source, destination, done, versions, versions') && Moved(source, destination, p) == p
    ensures VersionsMoved(source, destination, done + {p}, versions, versions')
  {
    hide Moved;
    forall k: VersionKey
      ensures KeyPlace(source, destination, done + {p}, k) == KeyPlace(source, destination, done, k)
    {
    }
  }

  /** With nothing in the way below the destination, no row of the subtree ever clashes. */
  lemma MoveAllowed(before: Db, now: Db, source: Path, destination: Path, done: set<Path>, p: Path)
    requires source != "/" && destination != "/"
    requires OneReference(before.files, before.versions)
    requires Moving(before, now, source, destination, done) && p in before.files && p !in done
    requires done <= Subtree(source, before.files.Keys) && Under(source, p)
    requires ClearBelow(destination, before.files, before.versions)
    ensures RelabelAllowed(now, p, Moved(source, destination, p))
  {
    hide Moved, Under;
    var q := Moved(source, destination, p);
    MovedUnder(source, destination, p, p);
    forall a | a in before.files
      ensures Place(source, destination, done, a) != q
    {
      if a in done {
        MovedUnder(source, destination, a, p);
      }
    }
    forall b | b in before.versions
      ensures KeyPlace(source, destination, done, b).path != q
    {
      if b.path in done {
        MovedUnder(source, destination, b.path, p);
      }
    }
    forall k | k in now.versions
      ensures k.path != q
    {
      assert exists b :: b in before.versions && KeyPlace(source, destination, done, b) == k;
    }
  }

  /** The loop over the file rows, in any order. */
  method MoveFiles(before: Db, source: Path, destination: Path, ghost held: Held, ghost lost: set<Part>,
                   ghost gateway: Gateway, ghost journal: seq<Event>)
      returns (moved: Option<Db>, ghost events: seq<Event>)
    requires VaultInv(before, held, lost, gateway) && View(before) == Replay(journal)
    ensures moved.Some? ==>
      && Moving(before, moved.value, source, destination, Selected(source, before.files.Keys))
      && VaultInv(moved.value, held, lost, gateway) && View(moved.value) == Replay(journal + events)
    ensures MovesCleanly(source, destination, before) ==> moved.Some?
  {
    hide VaultInv, TablesInv, OneReference, Moved, Replay, Moving, RelabelAllowed, ClearBelow, RelabelFile, View,
         Apply, Under, Selects;
    VaultInvTables(before, held, lost, gateway);
    NothingMoved(before, source, destination);
    var rows := Selected(source, before.files.Keys);
    var todo := rows;
    var next := before;
    events := [];
    assert journal + events == journal && rows - todo == {};
    while todo != {}
      invariant todo <= rows
      invariant Moving(before, next, source, destination, rows - todo)
      invariant VaultInv(next, held, lost, gateway) && View(next) == Replay(journal + events)
      decreases todo
    {
      var p :| p in todo;
      var q := Moved(source, destination, p);
      if MovesCleanly(source, destination, before) {
        SelectedIsSubtree(source, before.files.Keys);
        MoveAllowed(before, next, source, destination, rows - todo, p);
      }
      MoveStep(before, next, source, destination, rows - todo, p);
      if !RelabelAllowed(next, p, q) {
        return None, [];
      }
      if q != p {
        RelabelFileKeeps(next, held, lost, gateway, p, q);
        ReplaySnoc(journal + events, Renamed(p, q));
        assert journal + (events + [Renamed(p, q)]) == journal + events + [Renamed(p, q)];
        next := RelabelFile(next, p, q);
        events := events + [Renamed(p, q)];
      }
      assert rows - (todo - {p}) == rows - todo + {p};
      todo := todo - {p};
    }
    assert rows - todo == rows;
    moved := Some(next);
  }

  lemma NothingMoved(before: Db, source: Path, destination: Path)
    ensures Moving(before, before, source, destination, {})
  {
    hide Moved;
    forall p: Path
      ensures Place(source, destination, {}, p) == p
    {
    }
    forall k: VersionKey
      ensures KeyPlace(source, destination, {}, k) == k
    {
    }
  }

  /** Versions that meet at one path after the move were together before it. */
  lemma SameOrigin(before: Db, now: Db, source: Path, destination: Path, done: set<Path>, clock: Time,
                   j: VersionKey, k: VersionKey)
    requires OneReference(before.files, before.versions)
    requires Tidy(before, clock) && Moving(before, now, source, destination, done)
    requires forall p :: p in done ==> Moved(source, destination, p) !in before.deleted
    requires j in before.versions && k in before.versions
    requires Place(source, destination, done, j.path) == Place(source, destination, done, k.path)
    ensures j.path == k.path
  {
    hide Moved, Gapless, Aged;
    if j.path in before.files && k.path in before.files {
      SamePlace(source, destination, done, before.files, now.files, j.path, k.path);
    }
  }

  lemma SamePlace(source: Path, destination: Path, done: set<Path>, files: Files, files': Files, p: Path, q: Path)
    requires forall a, b :: a in files && b in files && a != b ==> files[a].manifest != files[b].manifest
    requires FilesMoved(source, destination, done, files, files') && p in files && q in files
    requires Place(source, destination, done, p) == Place(source, destination, done, q)
    ensures p == q
  {
    hide Moved;
    assert files'[Place(source, destination, done, p)] == files[p];
    assert files'[Place(source, destination, done, q)] == files[q];
  }

  /** A directory rename keeps histories in order exactly when no file lands on a tombstone. */
  lemma MovedTidy(before: Db, now: Db, source: Path, destination: Path, done: set<Path>, clock: Time)
    requires OneReference(before.files, before.versions)
    requires Tidy(before, clock) && Moving(before, now, source, destination, done)
    ensures Tidy(now, clock) <==> forall p :: p in done ==> Moved(source, destination, p) !in before.deleted
  {
    hide Moved, Gapless, Aged, OneReference;
    if p :| p in done && Moved(source, destination, p) in before.deleted {
      assert Place(source, destination, done, p) in now.files;
      assert !Homed(now.files, now.versions, now.deleted);
    } else {
      MovedHomed(before, now, source, destination, done, clock);
      MovedGapless(before, now, source, destination, done, clock);
      MovedAged(before, now, source, destination, done, clock);
    }
  }

  lemma MovedHomed(before: Db, now: Db, source: Path, destination: Path, done: set<Path>, clock: Time)
    requires Tidy(before, clock) && Moving(before, now, source, destination, done)
    requires forall p :: p in done ==> Moved(source, destination, p) !in before.deleted
    ensures Homed(now.files, now.versions, now.deleted)
  {
    hide Moved, Gapless, Aged;
    forall q | q in now.files
      ensures q !in now.deleted
    {
      var p :| p in before.files && Place(source, destination, done, p) == q;
    }
    forall k' | k' in now.versions
      ensures k'.path in now.files || k'.path in now.deleted
    {
      var k :| k in before.versions && KeyPlace(source, destination, done, k) == k';
      if k.path in before.files {
        assert Place(source, destination, done, k.path) in now.files;
      }
    }
  }

  lemma MovedGapless(before: Db, now: Db, source: Path, destination: Path, done: set<Path>, clock: Time)
    requires OneReference(before.files, before.versions)
    requires Tidy(before, clock) && Moving(before, now, source, destination, done)
    requires forall p :: p in done ==> Moved(source, destination, p) !in before.deleted
    ensures Gapless(now.files, now.versions)
  {
    hide Moved, Aged, OneReference;
    forall j', k', w | j' in now.versions && k' in now.versions && j'.path == k'.path && j'.version < w < k'.version
      ensures VersionKey(j'.path, w) in now.versions
    {
      var j :| j in before.versions && KeyPlace(source, destination, done, j) == j';
      var k :| k in before.versions && KeyPlace(source, destination, done, k) == k';
      SameOrigin(before, now, source, destination, done, clock, j, k);
      assert VersionKey(j.path, w) in before.versions;
      assert KeyPlace(source, destination, done, VersionKey(j.path, w)) == VersionKey(j'.path, w);
    }
    forall k' | k' in now.versions && k'.path in now.files
      ensures k'.version < now.files[k'.path].version
      ensures forall w :: k'.version < w < now.files[k'.path].version ==> VersionKey(k'.path, w) in now.versions
    {
      var k :| k in before.versions && KeyPlace(source, destination, done, k) == k';
      LiveOrigin(before, now, source, destination, done, clock, k);
      forall w | k'.version < w < now.files[k'.path].version
        ensures VersionKey(k'.path, w) in now.versions
      {
        assert VersionKey(k.path, w) in before.versions;
        assert KeyPlace(source, destination, done, VersionKey(k.path, w)) == VersionKey(k'.path, w);
      }
    }
  }

  /** Only the history of a live path ends up at a live path. */
  lemma LiveOrigin(before: Db, now: Db, source: Path, destination: Path, done: set<Path>, clock: Time, k: VersionKey)
    requires OneReference(before.files, before.versions)
    requires Tidy(before, clock) && Moving(before, now, source, destination, done)
    requires forall p :: p in done ==> Moved(source, destination, p) !in before.deleted
    requires k in before.versions && Place(source, destination, done, k.path) in now.files
    ensures k.path in before.files
    ensures now.files[Place(source, destination, done, k.path)] == before.files[k.path]
  {
    hide Moved, Gapless, Aged;
    var q := Place(source, destination, done, k.path);
    var p :| p in before.files && Place(source, destination, done, p) == q;
    if k.path in before.files {
      SamePlace(source, destination, done, before.files, now.files, p, k.path);
    }
  }

  lemma MovedAged(before: Db, now: Db, source: Path, destination: Path, done: set<Path>, clock: Time)
    requires OneReference(before.files, before.versions)
    requires Tidy(before, clock) && Moving(before, now, source, destination, done)
    requires forall p :: p in done ==> Moved(source, destination, p) !in before.deleted
    ensures Aged(now.versions, clock)
  {
    hide Moved, Homed, Gapless, OneReference;
    forall j', k' | j' in now.versions && k' in now.versions
      ensures now.versions[k'].archived <= clock
      ensures j'.path == k'.path && j'.version < k'.version ==>
        now.versions[j'].archived < now.versions[k'].archived
    {
      var j :| j in before.versions && KeyPlace(source, destination, done, j) == j';
      var k :| k in before.versions && KeyPlace(source, destination, done, k) == k';
      if j'.path == k'.path {
        SameOrigin(before, now, source, destination, done, clock, j, k);
      }
    }
  }

  /** Moving the rows of a subtree, each with its history, names exactly the manifests it named. */
  lemma MovedConserves(before: Db, now: Db, source: Path, destination: Path, done: set<Path>)
    requires Moving(before, now, source, destination, done)
    ensures Named(now.files, now.versions) == Named(before.files, before.versions)
  {
    hide Moved;
    forall m | m in Named(before.files, before.versions)
      ensures m in Named(now.files, now.versions)
    {
      if p :| p in before.files && before.files[p].manifest == m {
        var q := Place(source, destination, done, p);
        assert q in now.files && now.files[q].manifest == m;
      } else {
        var k :| k in before.versions && before.versions[k].manifest == m;
        var k' := KeyPlace(source, destination, done, k);
        assert k' in now.versions && now.versions[k'].manifest == m;
      }
    }
    forall m | m in Named(now.files, now.versions)
      ensures m in Named(before.files, before.versions)
    {
      if q :| q in now.files && now.files[q].manifest == m {
        var p :| p in before.files && Place(source, destination, done, p) == q;
        assert before.files[p].manifest == m;
      } else {
        var k' :| k' in now.versions && now.versions[k'].manifest == m;
        var k :| k in before.versions && KeyPlace(source, destination, done, k) == k';
        assert before.versions[k].manifest == m;
      }
    }
  }

  // ---- Directories ----------------------------------------------------------------------

  lemma {:induction false} LongestExists(paths: set<Path>)
    requires paths != {}
    ensures exists p :: p in paths && forall q :: q in paths ==> |q| <= |p|
  {
    var p :| p in paths;
    if paths != {p} {
      var rest := paths - {p};
      LongestExists(rest);
      var r :| r in rest && forall q :: q in rest ==> |q| <= |r|;
      assert forall q :: q in paths ==> q == p || q in rest;
      if |r| < |p| {
        assert forall q :: q in paths ==> |q| <= |p|;
      }
    }
  }

  /** The directory rows the query picks. */
  function SelectedDirectories(source: Path, directories: set<Path>): set<Path> {
    set p | p in directories && (p == source || Selects(source + "/", p))
  }

  /** Where the directories are midway, no two in one place. */
  ghost predicate MovingDirectories(source: Path, destination: Path, done: set<Path>, directories: set<Path>,
                                    directories': set<Path>) {
    && DirectoriesMoved(source, destination, done, directories, directories')
    && forall a, b :: a in directories && b in directories && a != b ==>
         Place(source, destination, done, a) != Place(source, destination, done, b)
  }

  ghost predicate DirectoriesClear(source: Path, destination: Path, directories: set<Path>) {
    && source != "/" && destination != "/" && destination !in directories
    && forall p :: p in directories ==> !Under(destination, p)
  }

  lemma MoveDirectoryStep(source: Path, destination: Path, done: set<Path>, directories: set<Path>,
                          directories': set<Path>, p: Path)
    requires MovingDirectories(source, destination, done, directories, directories')
    requires p in directories && p !in done
    ensures p in directories'
    ensures var q := Moved(source, destination, p);
      (q == p || q !in directories') ==>
        MovingDirectories(source, destination, done + {p}, directories, directories' - {p} + {q})
  {
    hide Moved;
    var q := Moved(source, destination, p);
    assert Place(source, destination, done, p) == p;
    if q == p || q !in directories' {
      forall a | a in directories && a != p
        ensures Place(source, destination, done + {p}, a) == Place(source, destination, done, a)
        ensures Place(source, destination, done, a) != p && Place(source, destination, done, a) in directories'
      {
      }
      var directories'' := directories' - {p} + {q};
      assert Place(source, destination, done + {p}, p) == q;
      forall b | b in directories''
        ensures exists a :: a in directories && Place(source, destination, done + {p}, a) == b
      {
        if b == q {
          assert Place(source, destination, done + {p}, p) == b;
        } else {
          var a :| a in directories && Place(source, destination, done, a) == b;
          assert a != p;
          assert Place(source, destination, done + {p}, a) == b;
        }
      }
    }
  }

  /** The loop over the directory rows, longest path first. */
  method MoveDirectories(source: Path, destination: Path, directories: set<Path>) returns (moved: Option<set<Path>>)
    ensures moved.Some? ==>
      DirectoriesMoved(source, destination, SelectedDirectories(source, directories), directories, moved.value)
    ensures PicksBelow(source, directories) && DirectoriesClear(source, destination, directories) ==> moved.Some?
  {
    hide Moved, Under, Selects, Place, MovingDirectories, DirectoriesClear, DirectoriesMoved, Moves;
    var rows := SelectedDirectories(source, directories);
    var todo, next := rows, directories;
    NoDirectoryMoved(source, destination, directories);
    assert rows - todo == {};
    while todo != {}
      invariant todo <= rows
      invariant MovingDirectories(source, destination, rows - todo, directories, next)
      decreases todo
    {
      LongestExists(todo);
      var p :| p in todo && forall q :: q in todo ==> |q| <= |p|;
      var q := Moved(source, destination, p);
      MoveDirectoryStep(source, destination, rows - todo, directories, next, p);
      if PicksBelow(source, directories) && DirectoriesClear(source, destination, directories) {
        DirectoriesRoot(source, destination, directories);
        SelectedAllMove(source, directories, rows);
        DirectoryMoveAllowed(source, destination, rows - todo, directories, next, p);
      }
      if q != p && q in next {
        return None;
      }
      next := next - {p} + {q};
      assert rows - (todo - {p}) == rows - todo + {p};
      todo := todo - {p};
    }
    assert rows - todo == rows;
    AllDirectoriesMoved(source, destination, rows, directories, next);
    moved := Some(next);
  }

  lemma SelectedDirectoriesSubtree(source: Path, directories: set<Path>)
    requires source in directories && PicksBelow(source, directories) && source != "/"
    ensures SelectedDirectories(source, directories) == Subtree(source, directories) + {source}
  {
    hide Selects, Subtree;
    SelectedIsSubtree(source, directories);
  }

  lemma SelectedDirectoryMoves(source: Path, directories: set<Path>, p: Path)
    requires p in SelectedDirectories(source, directories) && PicksBelow(source, directories) && source != "/"
    ensures p == source || Under(source, p)
  {
  }

  lemma SelectedAllMove(source: Path, directories: set<Path>, rows: set<Path>)
    requires rows == SelectedDirectories(source, directories) && PicksBelow(source, directories) && source != "/"
    ensures forall p :: p in rows ==> Moves(source, p)
  {
    forall p | p in rows
      ensures Moves(source, p)
    {
      SelectedDirectoryMoves(source, directories, p);
    }
  }

  lemma DirectoriesRoot(source: Path, destination: Path, directories: set<Path>)
    requires DirectoriesClear(source, destination, directories)
    ensures source != "/"
  {
  }

  lemma AllDirectoriesMoved(source: Path, destination: Path, done: set<Path>, directories: set<Path>,
                            directories': set<Path>)
    requires MovingDirectories(source, destination, done, directories, directories')
    ensures DirectoriesMoved(source, destination, done, directories, directories')
  {
  }

  lemma NoDirectoryMoved(source: Path, destination: Path, directories: set<Path>)
    ensures MovingDirectories(source, destination, {}, directories, directories)
  {
    hide Moved;
    forall p: Path
      ensures Place(source, destination, {}, p) == p
    {
    }
  }

  lemma DirectoryMoveAllowed(source: Path, destination: Path, done: set<Path>, directories: set<Path>,
                             next: set<Path>, p: Path)
    requires DirectoriesClear(source, destination, directories)
    requires MovingDirectories(source, destination, done, directories, next)
    requires p in directories && p !in done && Moves(source, p)
    requires forall a :: a in done ==> Moves(source, a)
    ensures Moved(source, destination, p) !in next
  {
    hide Moved;
    var q := Moved(source, destination, p);
    MovedSource(source, destination);
    forall a | a in directories
      ensures Place(source, destination, done, a) != q
    {
      if Under(source, p) {
        MovedUnder(source, destination, p, p);
        if a in done && a != source {
          MovedUnder(source, destination, a, p);
        }
      } else if a in done {
        MovedUnder(source, destination, a, a);
      }
    }
  }
}
