/** Virtual paths: normal form, parents, and how `LIKE` selects a subtree. */
module Paths {
  import opened Tables

  // ---- Normal form ----------------------------------------------------------------------

  /** `str.split('/')`. */
  function Split(s: string): (parts: seq<string>)
    ensures |parts| >= 1
    ensures forall i :: 0 <= i < |parts| ==> '/' !in parts[i]
  {
    if s == "" then [""]
    else
      var rest := Split(s[1..]);
      if s[0] == '/' then [""] + rest else [[s[0]] + rest[0]] + rest[1..]
  }

  /** One step of `normpath` below an initial slash: empty and `.` components vanish, `..`
      drops the last one kept. */
  function Push(kept: seq<string>, part: string): seq<string> {
    if part == "" || part == "." then kept
    else if part == ".." then (if kept == [] then [] else kept[..|kept| - 1])
    else kept + [part]
  }

  function Collapse(parts: seq<string>): seq<string> {
    if parts == [] then []
    else Push(Collapse(parts[..|parts| - 1]), parts[|parts| - 1])
  }

  function Joined(parts: seq<string>): string {
    if parts == [] then "" else Joined(parts[..|parts| - 1]) + "/" + parts[|parts| - 1]
  }

  function Render(parts: seq<string>): Path {
    if parts == [] then "/" else Joined(parts)
  }

  function Slashes(s: string): string {
    seq(|s|, i requires 0 <= i < |s| => if s[i] == '\\' then '/' else s[i])
  }

  /** `EncryptedBackend._path`. */
  function Normalize(s: string): Path {
    Render(Collapse(Split(Slashes(s))))
  }

  predicate Component(part: string) {
    part != "" && part != "." && part != ".." && '/' !in part
  }

  predicate Components(parts: seq<string>) {
    forall i :: 0 <= i < |parts| ==> Component(parts[i])
  }

  /** Root, or slash-led with no empty component. */
  predicate Normal(p: Path) {
    p == "/" ||
    (|p| > 1 && p[0] == '/' && p[|p| - 1] != '/' &&
     forall i :: 0 < i < |p| && p[i] == '/' ==> p[i - 1] != '/')
  }

  lemma {:induction false} CollapseComponents(parts: seq<string>)
    requires forall i :: 0 <= i < |parts| ==> '/' !in parts[i]
    ensures Components(Collapse(parts))
  {
    if parts != [] {
      CollapseComponents(parts[..|parts| - 1]);
    }
  }

  lemma {:induction false} JoinedNormal(parts: seq<string>)
    requires Components(parts) && parts != []
    ensures Normal(Joined(parts)) && Joined(parts) != "/"
  {
    var front, last := parts[..|parts| - 1], parts[|parts| - 1];
    assert Component(last) && Components(front);
    var head, whole := Joined(front), Joined(parts);
    assert whole == head + ("/" + last);
    assert whole[|whole| - 1] == last[|last| - 1];
    if front != [] {
      JoinedNormal(front);
    }
    assert forall j :: |head| < j < |whole| ==> whole[j] == last[j - |head| - 1];
    forall i | 0 < i < |whole| && whole[i] == '/'
      ensures whole[i - 1] != '/'
    {
      if i < |head| {
        assert whole[i] == head[i] && whole[i - 1] == head[i - 1];
      }
    }
  }

  /** Whatever text a client sends, the path the gateway works on is in normal form. */
  lemma NormalizeIsNormal(s: string)
    ensures Normal(Normalize(s))
  {
    var parts := Split(Slashes(s));
    CollapseComponents(parts);
    if Collapse(parts) != [] {
      JoinedNormal(Collapse(parts));
    }
  }

  lemma {:induction false} SplitAppend(s: string, part: string)
    requires '/' !in part
    ensures Split(s + "/" + part) == Split(s) + [part]
  {
    var t := s + "/" + part;
    if s == "" {
      SplitPlain(part);
      assert t[1..] == part;
    } else {
      SplitAppend(s[1..], part);
      assert t[1..] == s[1..] + "/" + part;
    }
  }

  lemma {:induction false} SplitPlain(part: string)
    requires '/' !in part
    ensures Split(part) == [part]
  {
    if part != "" {
      SplitPlain(part[1..]);
      assert [part[0]] + part[1..] == part;
    }
  }

  lemma {:induction false} SplitJoined(parts: seq<string>)
    requires Components(parts)
    ensures Split(Joined(parts)) == [""] + parts
  {
    if parts != [] {
      var front, last := parts[..|parts| - 1], parts[|parts| - 1];
      assert Component(last) && Components(front);
      SplitJoined(front);
      SplitAppend(Joined(front), last);
      assert [""] + parts == [""] + front + [last];
    }
  }

  lemma {:induction false} CollapseKeeps(parts: seq<string>)
    requires Components(parts)
    ensures Collapse([""] + parts) == parts
  {
    var all := [""] + parts;
    if parts == [] {
      assert all[..0] == [];
      assert Collapse(all[..0]) == [];
    } else {
      var front, last := parts[..|parts| - 1], parts[|parts| - 1];
      assert Component(last) && Components(front);
      CollapseKeeps(front);
      assert all[..|all| - 1] == [""] + front;
      assert front + [last] == parts;
    }
  }

  lemma {:induction false} SplitNoBackslash(s: string)
    requires '\\' !in s
    ensures forall i :: 0 <= i < |Split(s)| ==> '\\' !in Split(s)[i]
  {
    if s != "" {
      SplitNoBackslash(s[1..]);
    }
  }

  lemma {:induction false} RenderNoBackslash(parts: seq<string>)
    requires forall i :: 0 <= i < |parts| ==> '\\' !in parts[i]
    ensures '\\' !in Joined(Collapse(parts))
    ensures forall i :: 0 <= i < |Collapse(parts)| ==> '\\' !in Collapse(parts)[i]
    ensures Collapse(parts) != [] ==> '\\' !in Joined(Collapse(parts)[..|Collapse(parts)| - 1])
    decreases |parts|
  {
    if parts != [] {
      RenderNoBackslash(parts[..|parts| - 1]);
      var kept, all := Collapse(parts[..|parts| - 1]), Collapse(parts);
      JoinedNoBackslash(all);
      if all != [] {
        JoinedNoBackslash(all[..|all| - 1]);
      }
    }
  }

  lemma {:induction false} JoinedNoBackslash(parts: seq<string>)
    requires forall i :: 0 <= i < |parts| ==> '\\' !in parts[i]
    ensures '\\' !in Joined(parts)
  {
    if parts != [] {
      JoinedNoBackslash(parts[..|parts| - 1]);
    }
  }

  /** Normalizing twice is normalizing once, so every operation names the same path. */
  lemma NormalizeIdempotent(s: string)
    ensures Normalize(Normalize(s)) == Normalize(s)
  {
    var clean := Slashes(s);
    var parts := Split(clean);
    var kept := Collapse(parts);
    CollapseComponents(parts);
    SplitNoBackslash(clean);
    RenderNoBackslash(parts);
    var p := Render(kept);
    assert Slashes(p) == p;
    if kept == [] {
      assert Split("/") == ["", ""] by {
        assert "/"[1..] == "" && Split("") == [""];
      }
      assert ["", ""][..1] == [""] && [""][..0] == [];
      assert Collapse([""]) == Push(Collapse([]), "");
    } else {
      SplitJoined(kept);
      CollapseKeeps(kept);
    }
  }

  // ---- Parents and children -------------------------------------------------------------

  /** Index of the last slash, or 0. */
  function LastSlash(p: Path): (i: nat)
    ensures p == "" || i < |p|
    ensures forall j :: i < j < |p| ==> p[j] != '/'
    ensures i > 0 ==> i < |p| && p[i] == '/'
  {
    if |p| <= 1 then 0
    else if p[|p| - 1] == '/' then |p| - 1
    else LastSlash(p[..|p| - 1])
  }

  /** `EncryptedBackend._parent`. */
  function Parent(p: Path): Path {
    if LastSlash(p) == 0 then "/" else p[..LastSlash(p)]
  }

  lemma ParentRendered(parts: seq<string>)
    requires Components(parts)
    ensures Parent(Render(parts)) == if parts == [] then "/" else Render(parts[..|parts| - 1])
  {
    if parts != [] {
      var head, last := Joined(parts[..|parts| - 1]), parts[|parts| - 1];
      var whole := Joined(parts);
      assert Component(last) && whole == head + ("/" + last);
      assert whole[|head|] == '/' && forall j :: |head| < j < |whole| ==> whole[j] == last[j - |head| - 1];
      assert LastSlash(whole) == |head| && whole[..|head|] == head;
      if parts[..|parts| - 1] != [] {
        JoinedNormal(parts[..|parts| - 1]);
      }
    }
  }

  /** What a path must start with to lie under `dir`. */
  function Prefix(dir: Path): string {
    if dir == "/" then "/" else dir + "/"
  }

  lemma SlashesAppend(s: string, part: string)
    ensures Slashes(s + "/" + part) == Slashes(s) + "/" + Slashes(part)
  {
  }

  /** How a name is read, component by component: an empty component and `.` stay where they are, `..`
      goes up, except from the root, and any other goes down. */
  lemma NormalizeStep(s: string, part: string)
    requires '/' !in part && '\\' !in part
    ensures Normalize(s + "/" + part) ==
      if part == "" || part == "." then Normalize(s)
      else if part == ".." then Parent(Normalize(s))
      else Prefix(Normalize(s)) + part
  {
    var clean := Slashes(s);
    var kept := Collapse(Split(clean));
    SlashesAppend(s, part);
    assert Slashes(part) == part;
    SplitAppend(clean, part);
    var all := Split(clean) + [part];
    assert all[..|all| - 1] == Split(clean) && all[|all| - 1] == part;
    CollapseComponents(Split(clean));
    ParentRendered(kept);
    RenderedDown(kept, part);
  }

  lemma RenderedDown(parts: seq<string>, part: string)
    requires Components(parts)
    ensures Render(parts + [part]) == Prefix(Render(parts)) + part
  {
    var all := parts + [part];
    assert all[..|all| - 1] == parts && all[|all| - 1] == part;
    assert Joined(all) == Joined(parts) + "/" + part;
    if parts == [] {
      assert "" + "/" + part == "/" + part;
    } else {
      JoinedNormal(parts);
    }
  }

  /** A name need not begin with a slash, a backslash is a slash, and nothing is the root. */
  lemma NormalizeStart(s: string, part: string)
    requires '/' !in part && '\\' !in part
    ensures Normalize("") == "/" && Normalize(part) == Normalize("/" + part)
    ensures Normalize(s + "\\" + part) == Normalize(s + "/" + part)
  {
    SplitPlain(part);
    assert Slashes(part) == part && "" + "/" + part == "/" + part;
    NormalizeStep("", part);
    assert [part][..0] == [] && Collapse([part]) == Push([], part);
    assert [""][..0] == [] && Collapse([""]) == Push([], "");
    assert Split(Slashes("")) == [""];
    assert part != "" && part != "." && part != ".." ==> Joined([part]) == "/" + part;
    assert Slashes(s + "\\" + part) == Slashes(s + "/" + part);
  }

  predicate Under(dir: Path, p: Path) {
    Prefix(dir) <= p
  }

  /** `text[n:]`, which is empty past the end. */
  function Rest(s: string, n: nat): string {
    if n <= |s| then s[n..] else ""
  }

  /** `remainder and "/" not in remainder`: what makes a row an entry of the listing. */
  predicate ListedName(prefix: string, p: Path) {
    Rest(p, |prefix|) != "" && '/' !in Rest(p, |prefix|)
  }

  /** For paths below `dir`, the test by remainder picks out exactly the children. */
  lemma ListedIsChild(dir: Path, p: Path)
    requires Normal(dir) && Normal(p)
    ensures Under(dir, p) && ListedName(Prefix(dir), p) <==> p != "/" && Parent(p) == dir
  {
    var prefix := Prefix(dir);
    var cut := LastSlash(p);
    if Under(dir, p) && ListedName(prefix, p) {
      var rest := Rest(p, |prefix|);
      assert p == prefix + rest;
      assert p[|prefix| - 1] == '/';
      assert forall j :: |prefix| <= j < |p| ==> p[j] == rest[j - |prefix|];
      assert cut == |prefix| - 1;
    }
    if p != "/" && Parent(p) == dir {
      if cut == 0 {
        assert prefix == "/" && p[0] == '/';
        assert p[..1] == "/";
        assert Rest(p, 1) == p[1..];
      } else {
        assert p[..cut][0] == p[0];
        assert dir != "/";
        assert prefix == p[..cut] + "/" == p[..cut + 1];
        assert cut != |p| - 1;
        assert Rest(p, |prefix|) == p[cut + 1..];
      }
    }
  }

  lemma UnderParent(dir: Path, p: Path)
    requires Normal(dir) && Normal(p) && p != "/" && Under(dir, p) && p != dir
    ensures Parent(p) == dir || Under(dir, Parent(p))
  {
    var cut := LastSlash(p);
    var prefix := Prefix(dir);
    assert p[|prefix| - 1] == '/';
    if cut == |prefix| - 1 {
      if dir != "/" {
        assert p[..cut] == dir;
      }
    } else {
      assert prefix == p[..|prefix|];
      assert p[..cut][..|prefix|] == p[..|prefix|];
    }
  }

  // ---- LIKE -----------------------------------------------------------------------------

  /** SQL `s LIKE pattern`: `_` is any one character, `%` any run of them. */
  predicate Like(pattern: string, s: string)
    decreases |pattern| + |s|
  {
    if pattern == "" then s == ""
    else if pattern[0] == '%' then
      Like(pattern[1..], s) || (s != "" && Like(pattern, s[1..]))
    else
      s != "" && (pattern[0] == '_' || pattern[0] == s[0]) && Like(pattern[1..], s[1..])
  }

  /** The subtree query `path LIKE prefix || '%'`. */
  predicate Selects(prefix: string, p: Path) {
    Like(prefix + "%", p)
  }

  predicate Wildcard(c: char) {
    c == '_' || c == '%'
  }

  predicate WildcardFree(s: string) {
    forall i :: 0 <= i < |s| ==> !Wildcard(s[i])
  }

  /** `s` agrees with `prefix` up to wildcards, character by character. */
  predicate AgreesUpTo(prefix: string, s: string) {
    |prefix| <= |s| && forall i :: 0 <= i < |prefix| ==> prefix[i] == s[i] || Wildcard(prefix[i])
  }

  lemma {:induction false} LikeEverything(s: string)
    ensures Like("%", s)
  {
    if s != "" {
      LikeEverything(s[1..]);
    } else {
      assert "%"[1..] == "";
    }
  }

  lemma {:induction false} LikeAgrees(prefix: string, s: string)
    requires AgreesUpTo(prefix, s)
    ensures Selects(prefix, s)
  {
    var pattern := prefix + "%";
    if prefix == "" {
      assert pattern == "%";
      LikeEverything(s);
    } else {
      LikeAgrees(prefix[1..], s[1..]);
      assert pattern[1..] == prefix[1..] + "%";
      if pattern[0] == '%' {
        LikeAgrees(prefix[1..], s[1..]);
        LikePercentFirst(pattern, s);
      }
    }
  }

  lemma LikePercentFirst(pattern: string, s: string)
    requires pattern != "" && pattern[0] == '%' && s != "" && Like(pattern[1..], s[1..])
    ensures Like(pattern, s)
  {
    assert Like(pattern, s[1..]);
  }

  lemma {:induction false} LikeExact(prefix: string, s: string)
    requires WildcardFree(prefix)
    ensures Selects(prefix, s) <==> prefix <= s
  {
    var pattern := prefix + "%";
    if prefix == "" {
      LikeEverything(s);
      assert pattern == "%";
    } else {
      assert pattern[1..] == prefix[1..] + "%";
      assert !Wildcard(pattern[0]);
      if s != "" {
        LikeExact(prefix[1..], s[1..]);
        assert prefix <= s <==> prefix[0] == s[0] && prefix[1..] <= s[1..];
      }
    }
  }

  /** The subtree query is a prefix test exactly for the prefixes without `_` and `%`. */
  lemma LikeIsPrefixIffWildcardFree(prefix: string)
    ensures WildcardFree(prefix) <==> forall s :: Selects(prefix, s) ==> prefix <= s
  {
    if WildcardFree(prefix) {
      forall s | Selects(prefix, s)
        ensures prefix <= s
      {
        LikeExact(prefix, s);
      }
    } else {
      var i :| 0 <= i < |prefix| && Wildcard(prefix[i]);
      var s := prefix[i := 'x'];
      LikeAgrees(prefix, s);
      assert s[i] != prefix[i] && Selects(prefix, s) && !(prefix <= s);
    }
  }

  /** Nothing under the prefix is ever missed, wildcards or not. */
  lemma LikeCoversPrefix(prefix: string, s: string)
    requires prefix <= s
    ensures Selects(prefix, s)
  {
    LikeAgrees(prefix, s);
  }

  // ---- Moving a subtree -----------------------------------------------------------------

  /** Where a directory rename puts a row its query selected. */
  function Moved(source: Path, destination: Path, p: Path): Path {
    if p == source then destination
    else destination + "/" + Rest(p, |source| + 1)
  }

  /** Moving is one-to-one below the source, and lands below the destination. */
  lemma MovedUnder(source: Path, destination: Path, p: Path, q: Path)
    requires source != "/" && destination != "/"
    requires Under(source, p) && Under(source, q)
    ensures Under(destination, Moved(source, destination, p))
    ensures Moved(source, destination, p) == Moved(source, destination, q) ==> p == q
  {
    var n := |source| + 1;
    assert p == Prefix(source) + p[n..] && q == Prefix(source) + q[n..];
    var p', q' := Moved(source, destination, p), Moved(source, destination, q);
    if p' == q' && p != source && q != source {
      assert p' [|destination| + 1..] == p[n..] && q'[|destination| + 1..] == q[n..];
    }
  }
}
