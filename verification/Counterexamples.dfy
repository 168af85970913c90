/** One small input for each condition that the theorems about renames and selections need. The
    theorems beside them say exactly when the condition holds. */
module Counterexamples {
  import opened Tables
  import opened Paths
  import opened Vault
  import opened History
  import opened Tree
  import opened Renames
  import opened Retention
  import opened Steps

  /** Renaming `/a` to `/a/b` is let through, and leaves a directory whose parent is gone. See
      `Tree.RenameRooted`. */
  lemma RenameIntoItselfBreaksTheTree()
    ensures MayRename("/a", "/a/b", {"/a"}, map[])
    ensures SubtreeMoved("/a", "/a/b", {"/a"}, map[], {"/a/b"}, map[])
    ensures !Rooted({"/a/b"}, map[])
  {
    assert "/a/b"[..3] == "/a/" && "/a"[..1] == "/";
    assert LastSlash("/a/b") == 2 && LastSlash("/a") == 0;
    assert Parent("/a/b") == "/a" && Parent("/a") == "/";
    assert Prefix("/a") == "/a/";
    assert Place("/a", "/a/b", {"/a"}, "/a") == "/a/b";
    assert Subtree("/a", {"/a"}) + {"/a"} == {"/a"};
    assert Subtree("/a", {}) == {};
    var none: Files := map[];
    assert none.Keys == {};
  }

  /** A drive with one file at `p` and one deleted file at `q`. */
  function OneDeleted(p: Path, q: Path, row: FileRow): Db {
    EMPTY_DB.(directories := {"/a"}, files := map[p := row], deleted := map[q := 1],
              versions := map[VersionKey(q, 1) := VersionRow(row.manifest + 1, 0, 1)])
  }

  lemma LandsOnATombstone(source: Path, destination: Path, p: Path, q: Path, row: FileRow)
    requires p != q && Moved(source, destination, p) == q
    ensures var before := OneDeleted(p, q, row);
            var after := before.(files := map[q := row]);
      Tidy(before, 1) && Moving(before, after, source, destination, {p}) && !Tidy(after, 1)
  {
    hide Moved;
    assert Place(source, destination, {p}, p) == q && Place(source, destination, {p}, q) == q;
    assert KeyPlace(source, destination, {p}, VersionKey(q, 1)) == VersionKey(q, 1);
  }

  /** With a file `/a/f` and a tombstone at `/b/f`, renaming `/a` to `/b` is let through, and leaves a
      path that is live and tombstoned at once. See `Renames.MovedTidy`. */
  lemma RenameOntoTombstonesMixesHistories(row: FileRow)
    ensures var before := OneDeleted("/a/f", "/b/f", row);
            var after := before.(files := map["/b/f" := row]);
      Tidy(before, 1) && Moving(before, after, "/a", "/b", {"/a/f"}) && !Tidy(after, 1)
  {
    assert "/a/f"[3..] == "f" && "/b" + "/" + "f" == "/b/f";
    assert Moved("/a", "/b", "/a/f") == "/b/f" && "/b/f"[1] != "/a/f"[1];
    LandsOnATombstone("/a", "/b", "/a/f", "/b/f", row);
  }

  /** Renaming `/a`, which is not there, to the tombstoned `/b` is refused, and yet what was kept of
      `/b` is gone: `Steps.Forgets` holds, so the tables that the refused rename leaves are those
      cleared of `/b`. See `Backend.EncryptedBackend.Rename`. */
  lemma RefusedRenameForgets(row: VersionRow)
    ensures var before := EMPTY_DB.(versions := map[VersionKey("/b", 1) := row], deleted := map["/b" := row.archived]);
      && !Exists(before, "/a") && Forgets(before, "/b", NotFound)
      && row.manifest in Named(before.files, before.versions)
      && forall after :: WhollyCleared(before, after, "/b") ==>
           after != before && row.manifest !in Named(after.files, after.versions)
  {
    var before := EMPTY_DB.(versions := map[VersionKey("/b", 1) := row], deleted := map["/b" := row.archived]);
    assert LastSlash("/b") == 0 && Parent("/b") == "/";
    assert VersionKey("/b", 1) in before.versions && before.versions[VersionKey("/b", 1)].manifest == row.manifest;
    assert PurgePath(before, "/b").versions == map[];
  }

  /** The query for what is below `/a_b` also picks `/axb/f`, which is not. See
      `Paths.LikeIsPrefixIffWildcardFree`. */
  lemma WildcardPicksAnotherSubtree()
    ensures Selects("/a_b" + "/", "/axb/f") && !Under("/a_b", "/axb/f")
  {
    var prefix := "/a_b" + "/";
    assert prefix == "/a_b/";
    assert AgreesUpTo(prefix, "/axb/f");
    LikeAgrees(prefix, "/axb/f");
    assert prefix[2] == '_' && "/axb/f"[2] == 'x';
  }

  /** A rename of `/a_b` therefore takes the files of `/axb` along. */
  lemma WildcardRenameTakesAnotherSubtree()
    ensures Selected("/a_b", {"/axb/f"}) == {"/axb/f"} && Moved("/a_b", "/c", "/axb/f") == "/c/f"
  {
    WildcardPicksAnotherSubtree();
    assert "/axb/f"[5..] == "f";
    assert "/c" + "/" + "f" == "/c/f";
  }
}
