/** The virtual tree, and what renaming a directory does to it. */
module Tree {
  import opened Tables
  import opened Paths
  import opened Vault
  import opened History

  predicate DirectoryExists(directories: set<Path>, path: Path) {
    path == "/" || path in directories
  }

  /** Every path is normal and has its parent directory; no path is both file and directory. */
  ghost predicate Rooted(directories: set<Path>, files: Files) {
    && directories !! files.Keys && "/" !in directories && "/" !in files
    && (forall p :: p in directories ==> Normal(p) && DirectoryExists(directories, Parent(p)))
    && (forall p :: p in files ==> Normal(p) && DirectoryExists(directories, Parent(p)))
  }

  lemma MakeDirectoryRooted(directories: set<Path>, files: Files, path: Path)
    requires Rooted(directories, files) && Normal(path) && path != "/" && path !in files
    requires DirectoryExists(directories, Parent(path))
    ensures Rooted(directories + {path}, files)
  {
  }

  lemma PutFileRooted(directories: set<Path>, files: Files, path: Path, row: FileRow)
    requires Rooted(directories, files) && Normal(path) && path != "/" && path !in directories
    requires DirectoryExists(directories, Parent(path))
    ensures Rooted(directories, files[path := row])
  {
  }

  lemma RemoveFileRooted(directories: set<Path>, files: Files, path: Path)
    requires Rooted(directories, files)
    ensures Rooted(directories, Without(files, path))
  {
  }

  /** The emptiness query of `delete` may find too much, never too little: a directory it lets
      go has nothing under it, so the tree stays a tree. */
  lemma RemoveDirectoryRooted(directories: set<Path>, files: Files, path: Path)
    requires Rooted(directories, files) && path != "/" && path in directories
    requires forall p :: p in directories || p in files ==> !Selects(path + "/", p)
    ensures Rooted(directories - {path}, files)
  {
    hide Selects, LastSlash, Parent;
    forall p | p in directories || p in files
      ensures Parent(p) != path
    {
      NotSelectedNotChild(path, p);
    }
  }

  lemma NotSelectedNotChild(path: Path, p: Path)
    requires Normal(path) && Normal(p) && path != "/" && p != "/" && !Selects(path + "/", p)
    ensures Parent(p) != path
  {
    if Parent(p) == path {
      ListedIsChild(path, p);
      LikeCoversPrefix(path + "/", p);
    }
  }

  /** The listing of a directory whose name has no wildcard shows its children and nothing else. */
  lemma ListingIsChildren(directories: set<Path>, files: Files, dir: Path, p: Path)
    requires Rooted(directories, files) && DirectoryExists(directories, dir) && WildcardFree(dir)
    requires p in directories || p in files
    ensures Selects(Prefix(dir), p) && ListedName(Prefix(dir), p) <==> Parent(p) == dir
  {
    LikeExact(Prefix(dir), p);
    ListedIsChild(dir, p);
  }

  // ---- Renaming a directory -------------------------------------------------------------

  /** Where a path is once the rows in `done` have moved. */
  function Place(source: Path, destination: Path, done: set<Path>, p: Path): Path {
    if p in done then Moved(source, destination, p) else p
  }

  function KeyPlace(source: Path, destination: Path, done: set<Path>, k: VersionKey): VersionKey {
    VersionKey(Place(source, destination, done, k.path), k.version)
  }

  /** `files'` is `files` with the rows in `done` moved: each row once, none besides. */
  ghost predicate FilesMoved(source: Path, destination: Path, done: set<Path>, files: Files, files': Files) {
    && (forall p :: p in files ==> Place(source, destination, done, p) in files' &&
                                   files'[Place(source, destination, done, p)] == files[p])
    && (forall q :: q in files' ==> exists p :: p in files && Place(source, destination, done, p) == q)
  }

  ghost predicate VersionsMoved(source: Path, destination: Path, done: set<Path>, versions: Versions, versions': Versions) {
    && (forall k :: k in versions ==> KeyPlace(source, destination, done, k) in versions' &&
                                      versions'[KeyPlace(source, destination, done, k)] == versions[k])
    && (forall k' :: k' in versions' ==> exists k :: k in versions && KeyPlace(source, destination, done, k) == k')
  }

  ghost predicate DirectoriesMoved(source: Path, destination: Path, done: set<Path>, directories: set<Path>,
                                   directories': set<Path>) {
    && (forall p :: p in directories ==> Place(source, destination, done, p) in directories')
    && (forall q :: q in directories' ==> exists p :: p in directories && Place(source, destination, done, p) == q)
  }

  /** One more file moves. */
  lemma MoveOneFile(source: Path, destination: Path, done: set<Path>, files: Files, files': Files, p: Path)
    requires forall a, b :: a in files && b in files && a != b ==> files[a].manifest != files[b].manifest
    requires FilesMoved(source, destination, done, files, files') && p in files && p !in done
    requires var q := Moved(source, destination, p); q == p || q !in files'
    ensures p in files' && files'[p] == files[p]
    ensures FilesMoved(source, destination, done + {p}, files,
                       Without(files', p)[Moved(source, destination, p) := files'[p]])
  {
    hide Moved;
    var q := Moved(source, destination, p);
    assert Place(source, destination, done, p) == p;
    var files'' := Without(files', p)[q := files'[p]];
    forall a | a in files
      ensures Place(source, destination, done + {p}, a) in files'' &&
              files''[Place(source, destination, done + {p}, a)] == files[a]
    {
      if a != p {
        assert Place(source, destination, done + {p}, a) == Place(source, destination, done, a);
      }
    }
    forall b | b in files''
      ensures exists a :: a in files && Place(source, destination, done + {p}, a) == b
    {
      if b == q {
        assert Place(source, destination, done + {p}, p) == b;
      } else {
        var a :| a in files && Place(source, destination, done, a) == b;
        assert a != p;
        assert Place(source, destination, done + {p}, a) == b;
      }
    }
  }

  /** Its history moves with it, and only its own. */
  lemma MoveOneHistory(source: Path, destination: Path, done: set<Path>, files: Files, files': Files,
                       versions: Versions, versions': Versions, p: Path)
    requires forall a, b :: a in files && b in files && a != b ==> files[a].manifest != files[b].manifest
    requires forall j, k :: j in versions && k in versions && j != k ==> versions[j].manifest != versions[k].manifest
    requires FilesMoved(source, destination, done, files, files') && done <= files.Keys
    requires VersionsMoved(source, destination, done, versions, versions')
    requires p in files && p !in done
    requires var q := Moved(source, destination, p);
      q != p && forall k :: k in versions' && k.path == p ==> VersionKey(q, k.version) !in versions'
    ensures VersionsMoved(source, destination, done + {p}, versions,
                          RelabelVersions(versions', p, Moved(source, destination, p)))
  {
    hide Moved, RelabelVersions;
    var q := Moved(source, destination, p);
    RelabelVersionsRows(versions', p, q);
    var versions'' := RelabelVersions(versions', p, q);
    forall k | k in versions
      ensures KeyPlace(source, destination, done, k).path == p ==> k.path == p
    {
      if KeyPlace(source, destination, done, k).path == p && k.path in done {
        assert files'[Place(source, destination, done, k.path)] == files[k.path];
        assert Place(source, destination, done, p) == p;
        assert files'[p] == files[p];
      }
    }
    forall k | k in versions
      ensures KeyPlace(source, destination, done + {p}, k) in versions'' &&
              versions''[KeyPlace(source, destination, done + {p}, k)] == versions[k]
    {
      var now := KeyPlace(source, destination, done, k);
      assert now in versions' && versions'[now] == versions[k];
      if k.path == p {
        assert now == k && KeyPlace(source, destination, done + {p}, k) == VersionKey(q, k.version);
        assert VersionKey(p, k.version) == k;
      } else {
        assert KeyPlace(source, destination, done + {p}, k) == now && now.path != p;
      }
    }
    forall k' | k' in versions''
      ensures exists k :: k in versions && KeyPlace(source, destination, done + {p}, k) == k'
    {
      var before := KeyBefore(versions', p, q, k');
      assert before in versions';
      var k :| k in versions && KeyPlace(source, destination, done, k) == before;
      if before == k' {
        assert k.path != p;
        assert KeyPlace(source, destination, done + {p}, k) == k';
      } else {
        assert before == VersionKey(p, k'.version) && k.path == p;
        assert KeyPlace(source, destination, done + {p}, k) == k';
      }
    }
  }

  /** Whatever lies below an existing path lies below existing directories all the way up. */
  lemma {:induction false} AncestorExists(directories: set<Path>, files: Files, dir: Path, p: Path)
    requires Rooted(directories, files) && (p in directories || p in files)
    requires Normal(dir) && Under(dir, p)
    ensures DirectoryExists(directories, dir) || p == dir
    decreases |p|
  {
    if dir != "/" && p != dir {
      hide Selects, Moved;
      UnderParent(dir, p);
      if Parent(p) != dir {
        AncestorExists(directories, files, dir, Parent(p));
      }
    }
  }

  lemma UnderViaParent(dir: Path, p: Path)
    requires Normal(dir) && Normal(p) && p != "/"
    requires Parent(p) == dir || Under(dir, Parent(p))
    ensures Under(dir, p)
  {
    var cut := LastSlash(p);
    if Parent(p) == dir {
      ListedIsChild(dir, p);
    } else {
      assert Prefix(dir) <= p[..cut] <= p;
    }
  }

  lemma MovedNormal(source: Path, destination: Path, p: Path)
    requires Normal(source) && Normal(destination) && source != "/" && destination != "/"
    requires Normal(p) && Under(source, p)
    ensures Normal(Moved(source, destination, p)) && Under(destination, Moved(source, destination, p))
  {
    var n, d := |source| + 1, |destination| + 1;
    assert p[..n] == source + "/";
    var rest := p[n..];
    var q := Moved(source, destination, p);
    assert p[n - 1] == '/';
    assert |p| != n;
    assert p != source;
    assert q == destination + "/" + rest;
    assert q[..d] == destination + "/";
    assert forall j :: d <= j < |q| ==> q[j] == rest[j - d] == p[j - d + n];
    forall i | 0 < i < |q| && q[i] == '/'
      ensures q[i - 1] != '/'
    {
      if i >= d {
        assert p[i - d + n] == '/';
      } else if i == d - 1 {
        assert q[i - 1] == destination[|destination| - 1];
      } else {
        assert q[i] == destination[i] && q[i - 1] == destination[i - 1];
      }
    }
    assert q[|q| - 1] == p[|p| - 1];
    assert q[0] == destination[0];
  }

  lemma LastSlashTail(dir: Path, tail: string)
    requires dir != "" && tail != "" && tail[0] == '/'
    ensures LastSlash(dir + tail) == |dir| + LastSlash(tail)
    ensures Parent(dir + tail) == dir + tail[..LastSlash(tail)]
  {
    hide LastSlash;
    var p, i, k := dir + tail, LastSlash(dir + tail), LastSlash(tail);
    assert p[|dir| + k] == tail[k] == '/';
    assert i >= |dir| + k;
    assert p[i] == tail[i - |dir|];
    assert p[..|dir| + k] == dir + tail[..k];
  }

  lemma MovedTail(source: Path, destination: Path, tail: string)
    requires tail == "" || tail[0] == '/'
    ensures Moved(source, destination, source + tail) == destination + tail
  {
    if tail == "" {
      assert source + tail == source && destination + tail == destination;
    } else {
      assert (source + tail)[|source| + 1..] == tail[1..];
      assert destination + "/" + tail[1..] == destination + tail;
    }
  }

  /** Moving commutes with taking the parent. */
  lemma ParentMoved(source: Path, destination: Path, p: Path)
    requires source != "" && destination != "" && source != "/" && Under(source, p)
    ensures Parent(Moved(source, destination, p)) == Moved(source, destination, Parent(p))
    ensures Parent(p) == source || Under(source, Parent(p))
  {
    hide LastSlash, Parent, Moved;
    var tail := p[|source|..];
    assert p[..|source| + 1] == source + "/";
    assert p == source + tail && tail[0] == '/';
    LastSlashTail(source, tail);
    LastSlashTail(destination, tail);
    MovedTail(source, destination, tail);
    var up := tail[..LastSlash(tail)];
    MovedTail(source, destination, up);
    if up == "" {
      assert source + up == source;
    } else {
      assert (source + up)[..|source| + 1] == source + "/";
    }
  }

  /** The source or something below it. */
  predicate Moves(source: Path, p: Path) {
    p == source || Under(source, p)
  }

  function Placed(source: Path, destination: Path, p: Path): Path {
    if Moves(source, p) then Moved(source, destination, p) else p
  }

  function Subtree(source: Path, paths: set<Path>): set<Path> {
    set p | p in paths && Under(source, p)
  }

  /** What a rename of the directory `source` finds: it is there, the destination is not, and
      the destination's parent is. */
  ghost predicate MayRename(source: Path, destination: Path, directories: set<Path>, files: Files) {
    && Rooted(directories, files) && source in directories && Normal(destination) && destination != "/"
    && destination !in directories && destination !in files
    && DirectoryExists(directories, Parent(destination))
  }

  /** The whole subtree moved, and nothing else. */
  ghost predicate SubtreeMoved(source: Path, destination: Path, directories: set<Path>, files: Files,
                               directories': set<Path>, files': Files) {
    && FilesMoved(source, destination, Subtree(source, files.Keys), files, files')
    && DirectoriesMoved(source, destination, Subtree(source, directories) + {source}, directories, directories')
  }

  lemma PlacedPath(source: Path, destination: Path, directories: set<Path>, files: Files, p: Path)
    requires MayRename(source, destination, directories, files) && (p in directories || p in files)
    ensures Normal(Placed(source, destination, p)) && Placed(source, destination, p) != "/"
    ensures Moves(source, p) ==>
      Placed(source, destination, p) == destination || Under(destination, Placed(source, destination, p))
    ensures p != source ==>
      Parent(Placed(source, destination, p)) == Placed(source, destination, Parent(p))
  {
    hide LastSlash, Moved, Selects, Parent;
    if p == source {
      MovedSource(source, destination);
    } else if Under(source, p) {
      MovedNormal(source, destination, p);
      ParentMoved(source, destination, p);
    } else if Moves(source, Parent(p)) {
      UnderViaParent(source, p);
    }
  }

  lemma MovedSource(source: Path, destination: Path)
    ensures Moved(source, destination, source) == destination
  {
  }

  /** Nothing that stays is where something moves to, and no two meet. */
  lemma PlacedDistinct(source: Path, destination: Path, directories: set<Path>, files: Files, p: Path, q: Path)
    requires MayRename(source, destination, directories, files)
    requires (p in directories || p in files) && (q in directories || q in files)
    requires Placed(source, destination, p) == Placed(source, destination, q)
    ensures p == q
  {
    hide LastSlash, Moved, Selects, Parent;
    MovedSource(source, destination);
    PlacedPath(source, destination, directories, files, p);
    PlacedPath(source, destination, directories, files, q);
    if Moves(source, p) && Moves(source, q) {
      if Under(source, p) && Under(source, q) {
        MovedUnder(source, destination, p, q);
      } else if Under(source, p) {
        MovedUnder(source, destination, p, p);
      } else if Under(source, q) {
        MovedUnder(source, destination, q, q);
      }
    } else if Moves(source, p) {
      if Under(destination, q) {
        AncestorExists(directories, files, destination, q);
      }
    } else if Moves(source, q) {
      if Under(destination, p) {
        AncestorExists(directories, files, destination, p);
      }
    }
  }

  /** The tree stays a tree exactly when the directory is not moved into itself. */
  lemma RenameRooted(source: Path, destination: Path, directories: set<Path>, files: Files,
                     directories': set<Path>, files': Files)
    requires MayRename(source, destination, directories, files)
    requires SubtreeMoved(source, destination, directories, files, directories', files')
    ensures Rooted(directories', files') <==> !Under(source, destination)
  {
    hide LastSlash, Moved, Selects, Parent, Normal;
    if Under(source, destination) {
      RenameIntoItself(source, destination, directories, files, directories', files');
    } else {
      RenameElsewhere(source, destination, directories, files, directories', files');
    }
  }

  lemma PlacedFile(source: Path, destination: Path, directories: set<Path>, files: Files,
                   directories': set<Path>, files': Files, q: Path) returns (p: Path)
    requires MayRename(source, destination, directories, files)
    requires SubtreeMoved(source, destination, directories, files, directories', files')
    requires q in files'
    ensures p in files && q == Placed(source, destination, p)
  {
    hide Moved, Normal, Parent, Under;
    p :| p in files && Place(source, destination, Subtree(source, files.Keys), p) == q;
  }

  lemma PlacedDirectory(source: Path, destination: Path, directories: set<Path>, files: Files,
                        directories': set<Path>, files': Files, q: Path) returns (p: Path)
    requires MayRename(source, destination, directories, files)
    requires SubtreeMoved(source, destination, directories, files, directories', files')
    requires q in directories'
    ensures p in directories && q == Placed(source, destination, p)
  {
    hide Moved, Normal, Parent, Under;
    p :| p in directories && Place(source, destination, Subtree(source, directories) + {source}, p) == q;
  }

  lemma PlacedThere(source: Path, destination: Path, directories: set<Path>, files: Files,
                    directories': set<Path>, files': Files, p: Path)
    requires SubtreeMoved(source, destination, directories, files, directories', files')
    requires p in directories
    ensures Placed(source, destination, p) in directories'
  {
    hide Moved;
    assert Place(source, destination, Subtree(source, directories) + {source}, p) == Placed(source, destination, p);
  }

  lemma RenameIntoItself(source: Path, destination: Path, directories: set<Path>, files: Files,
                         directories': set<Path>, files': Files)
    requires MayRename(source, destination, directories, files)
    requires SubtreeMoved(source, destination, directories, files, directories', files')
    requires Under(source, destination)
    ensures !Rooted(directories', files')
  {
    hide LastSlash, Selects, Moved, Parent, SubtreeMoved;
    MovedSource(source, destination);
    PlacedThere(source, destination, directories, files, directories', files', source);
    var up := Parent(destination);
    UnderParent(source, destination);
    ParentShorter(destination);
    assert up != "/" && |source| <= |up|;
    if DirectoryExists(directories', up) {
      var p := PlacedDirectory(source, destination, directories, files, directories', files', up);
      PlacedPath(source, destination, directories, files, p);
    }
  }

  lemma ParentShorter(p: Path)
    requires Normal(p) && p != "/"
    ensures |Parent(p)| < |p|
  {
  }

  lemma RenameElsewhere(source: Path, destination: Path, directories: set<Path>, files: Files,
                        directories': set<Path>, files': Files)
    requires MayRename(source, destination, directories, files)
    requires SubtreeMoved(source, destination, directories, files, directories', files')
    requires !Under(source, destination)
    ensures Rooted(directories', files')
  {
    hide LastSlash, Selects, Moved, Parent, SubtreeMoved, Moves;
    forall q | q in directories'
      ensures Normal(q) && q != "/" && q !in files' && DirectoryExists(directories', Parent(q))
    {
      var p := PlacedDirectory(source, destination, directories, files, directories', files', q);
      PlacedPath(source, destination, directories, files, p);
      ParentPlaced(source, destination, directories, files, directories', files', p);
      if q in files' {
        var r := PlacedFile(source, destination, directories, files, directories', files', q);
        PlacedDistinct(source, destination, directories, files, p, r);
      }
    }
    forall q | q in files'
      ensures Normal(q) && q != "/" && DirectoryExists(directories', Parent(q))
    {
      var p := PlacedFile(source, destination, directories, files, directories', files', q);
      PlacedPath(source, destination, directories, files, p);
      ParentPlaced(source, destination, directories, files, directories', files', p);
    }
  }

  lemma ParentPlaced(source: Path, destination: Path, directories: set<Path>, files: Files,
                     directories': set<Path>, files': Files, p: Path)
    requires MayRename(source, destination, directories, files)
    requires SubtreeMoved(source, destination, directories, files, directories', files')
    requires !Under(source, destination) && (p in directories || p in files)
    ensures Normal(Placed(source, destination, p)) && Placed(source, destination, p) != "/"
    ensures DirectoryExists(directories', Parent(Placed(source, destination, p)))
  {
    hide LastSlash, Selects, Moved, Parent, SubtreeMoved;
    PlacedPath(source, destination, directories, files, p);
    if p == source {
      MovedSource(source, destination);
      var up := Parent(destination);
      if Moves(source, up) {
        UnderViaParent(source, destination);
      } else if up != "/" {
        PlacedThere(source, destination, directories, files, directories', files', up);
      }
    } else if Parent(p) != "/" {
      PlacedThere(source, destination, directories, files, directories', files', Parent(p));
    }
  }
}
