/** What joining an approved root and a relative path yields. */
module SshPaths {
  import opened Common
  import opened PythonText
  import opened SshCommands

  // ----- Names -----

  /** Names of path segments: no separator, not empty, not a single dot. */
  predicate Proper(names: seq<string>) {
    forall i | 0 <= i < |names| :: names[i] != "" && names[i] != "." && '/' !in names[i]
  }

  lemma {:induction false} NamesConcat(a: seq<string>, b: seq<string>)
    ensures Names(a + b) == Names(a) + Names(b)
    decreases |a|
  {
    if a == [] {
      assert a + b == b;
    } else {
      assert (a + b)[1..] == a[1..] + b;
      NamesConcat(a[1..], b);
    }
  }

  lemma {:induction false} NamesOfProper(names: seq<string>)
    requires Proper(names)
    ensures Names(names) == names
    decreases |names|
  {
    if names != [] {
      assert Proper(names[1..]) by { assert forall i | 0 <= i < |names| - 1 :: names[1..][i] == names[i + 1]; }
      NamesOfProper(names[1..]);
      assert names == [names[0]] + names[1..];
    }
  }

  lemma {:induction false} SplitHasNoSlash(s: string)
    ensures forall i | 0 <= i < |Split(s)| :: '/' !in Split(s)[i]
  {
    if s != "" { SplitHasNoSlash(s[1..]); }
  }

  lemma {:induction false} NamesAreProper(parts: seq<string>)
    requires forall i | 0 <= i < |parts| :: '/' !in parts[i]
    ensures Proper(Names(parts))
    decreases |parts|
  {
    if parts != [] {
      assert forall i | 0 <= i < |parts| - 1 :: parts[1..][i] == parts[i + 1];
      NamesAreProper(parts[1..]);
    }
  }

  // ----- Separators -----

  /** No two separators in a row. */
  predicate Tight(s: string) { forall i | 0 <= i < |s| - 1 :: !(s[i] == '/' && s[i + 1] == '/') }

  lemma TightMeansNoDouble(s: string)
    ensures Tight(s) <==> !Contains(s, "//")
  {
    if !Tight(s) {
      var i :| 0 <= i < |s| - 1 && s[i] == '/' && s[i + 1] == '/';
      assert s[i..i + 2] == "//";
      assert OccursAt(s, "//", i);
    }
    if Contains(s, "//") {
      var i :| 0 <= i <= |s| && OccursAt(s, "//", i);
      assert s[i..i + 2][0] == s[i] && s[i..i + 2][1] == s[i + 1];
    }
  }

  lemma {:induction false} JoinIsTight(names: seq<string>)
    requires Proper(names) && names != []
    ensures var s := Join(names); s != "" && s[0] != '/' && s[|s| - 1] != '/' && Tight(s)
    decreases |names|
  {
    assert names[0] != "" && '/' !in names[0];
    assert forall i | 0 <= i < |names[0]| :: names[0][i] in names[0];
    if |names| > 1 {
      assert Proper(names[1..]) by { assert forall i | 0 <= i < |names| - 1 :: names[1..][i] == names[i + 1]; }
      JoinIsTight(names[1..]);
      var a, b := names[0], Join(names[1..]);
      hide Join, Proper;
      assert Join(names) == a + "/" + b;
      forall i | 0 <= i < |a + "/" + b| - 1 ensures !((a + "/" + b)[i] == '/' && (a + "/" + b)[i + 1] == '/') {
        if i > |a| { assert (a + "/" + b)[i] == b[i - |a| - 1] && (a + "/" + b)[i + 1] == b[i - |a|]; }
      }
    }
  }

  // ----- Roots -----

  /** A valid root other than `//` is its anchor followed by its names. */
  lemma RootShape(u: Tables, root: string)
    requires AbsoluteRoot(u, root) == Some(root)
    ensures var names := Names(Split(root));
            && Proper(names) && root == Anchor(root) + Join(names)
            && (Anchor(root) == "/" || Anchor(root) == "//") && (StartsWith(root, "//") <==> Anchor(root) == "//")
            && (names == [] <==> root == "//")
            && (names != [] ==> root[|root| - 1] != '/' && |root| > |Anchor(root)| && root[|Anchor(root)|] != '/')
    ensures CleanInput(u, root) && ".." !in Names(Split(root))
  {
    var names := Names(Split(root));
    assert Strip(u, root) == root;
    SplitHasNoSlash(root);
    NamesAreProper(Split(root));
    hide Names, Split, Strip, CleanInput;
    if names != [] {
      JoinIsTight(names);
      var s := Join(names);
      assert root == Anchor(root) + s;
      assert root[|root| - 1] == s[|s| - 1];
      assert root[|Anchor(root)|] == s[0];
    }
  }

  lemma {:induction false} DoubleSlashSplits(p: string)
    ensures Split("//" + p) == ["", ""] + Split(p) && Names(Split("//" + p)) == Names(Split(p))
  {
    var s := "//" + p;
    assert s[1..] == "/" + p && ("/" + p)[1..] == p;
    assert Split("/" + p) == [""] + Split(p);
    NamesConcat(["", ""], Split(p));
    assert ["", ""][1..] == [""];
  }

  lemma JoinedBelowDoubleSlash(p: string)
    requires Proper(Split(p))
    ensures !StartsWith(Joined("//", p), "///") && Joined("//", p) != "//"
  {
    var s := "//" + p;
    DoubleSlashSplits(p);
    NamesOfProper(Split(p));
    JoinIsTight(Split(p));
    var rest := Join(Split(p));
    hide Names, Split, Join;
    assert s[0] == '/' && s[1] == '/';
    assert Joined("//", p) == Normal(s) == Anchor(s) + rest;
    assert Normal(s)[|Anchor(s)|] == rest[0];
  }

  /** A root of two separators has no approved path below it. */
  lemma DoubleSlashHasNoPaths(u: Tables, relative: string)
    requires AbsoluteRoot(u, "//") == Some("//")
    ensures JoinApproved(u, "//", relative).None?
  {
    if RelativePath(u, relative).Some? {
      var p := RelativePath(u, relative).value;
      assert Proper(Split(p)) by { SplitHasNoSlash(p); }
      hide Joined, AbsoluteRoot, RelativePath, Split;
      JoinedBelowDoubleSlash(p);
      assert "//" + "/" == "///";
    }
  }

  lemma AnchorStays(root: string, relative: string)
    requires Anchor(root) == "/" || Anchor(root) == "//"
    requires |root| > |Anchor(root)| && root[|Anchor(root)|] != '/'
    ensures Anchor(root + "/" + relative) == Anchor(root)
  {
    var path := root + "/" + relative;
    assert path[0] == root[0] && path[1] == root[1];
    assert |root| > 2 ==> path[2] == root[2];
  }

  lemma NormalOfJoin(root: string, relative: string)
    requires Proper(Names(Split(root))) && Names(Split(root)) != [] && Proper(Split(relative))
    requires root == Anchor(root) + Join(Names(Split(root))) && (Anchor(root) == "/" || Anchor(root) == "//")
    requires |root| > |Anchor(root)| && root[|Anchor(root)|] != '/'
    ensures var path := root + "/" + relative;
            && Normal(path) == path
            && Names(Split(path)) == Names(Split(root)) + Split(relative)
            && (Contains(path, "//") <==> Anchor(root) == "//")
  {
    var path := root + "/" + relative;
    var names, parts := Names(Split(root)), Split(relative);
    SplitAtSlash(root, relative);
    NamesConcat(Split(root), parts);
    NamesOfProper(parts);
    JoinConcat(names, parts);
    JoinSplit(relative);
    AnchorStays(root, relative);
    hide Names, Split, Anchor, Join;
    assert Normal(path) == Anchor(root) + Join(names + parts);
    assert Anchor(root) + (Join(names) + "/" + relative) == (Anchor(root) + Join(names)) + "/" + relative;
    assert Proper(names + parts);
    JoinIsTight(names + parts);
    hide Proper;
    TightMeansNoDouble(path);
    OneSeparatorAtATime(Anchor(root), Join(names + parts));
  }

  lemma RelativeShape(u: Tables, relative: string)
    requires RelativePath(u, relative) == Some(relative)
    ensures relative != "" && CleanInput(u, relative) && '\\' !in relative && Proper(Split(relative))
    ensures forall i | 0 <= i < |Split(relative)| :: Split(relative)[i] != ".." && !SecretPart(u, Split(relative)[i])
  {
    SplitHasNoSlash(relative);
    hide Split, CleanInput, SecretPart;
    assert Strip(u, relative) == relative;
  }

  lemma JoinIsApproved(u: Tables, root: string, relative: string)
    requires AbsoluteRoot(u, root) == Some(root) && RelativePath(u, relative) == Some(relative)
    requires root != "" && root[|root| - 1] != '/' && Normal(root + "/" + relative) == root + "/" + relative
    ensures JoinApproved(u, root, relative) == Some(root + "/" + relative)
  {
    hide AbsoluteRoot, RelativePath, Normal;
    var path := root + "/" + relative;
    assert path[..|root| + 1] == root + "/";
  }

  /** Below any other root the joined path is the root, a separator and the relative path, and is in
      normal form; it has a double separator only if the root begins with one. */
  lemma JoinedPath(u: Tables, root: string, relative: string)
    requires AbsoluteRoot(u, root) == Some(root) && RelativePath(u, relative) == Some(relative) && root != "//"
    ensures var path := root + "/" + relative;
            && JoinApproved(u, root, relative) == Some(path) && Normal(path) == path
            && Names(Split(path)) == Names(Split(root)) + Split(relative)
            && (Contains(path, "//") <==> StartsWith(root, "//"))
  {
    hide Names, Split, Strip, AbsoluteRoot, RelativePath, Anchor, Proper, Normal, CleanInput, Contains, StartsWith, JoinApproved;
    RootShape(u, root);
    RelativeShape(u, relative);
    NormalOfJoin(root, relative);
    JoinIsApproved(u, root, relative);
  }

  lemma OneSeparatorAtATime(anchor: string, rest: string)
    requires anchor == "/" || anchor == "//"
    requires rest != "" && rest[0] != '/' && Tight(rest)
    ensures Tight(anchor + rest) <==> anchor == "/"
  {
    var s := anchor + rest;
    if anchor == "/" {
      forall i | 0 <= i < |s| - 1 ensures !(s[i] == '/' && s[i + 1] == '/') {
        assert s[i + 1] == rest[i];
        if i > 0 { assert s[i] == rest[i - 1]; }
      }
    } else {
      assert s[0] == '/' && s[1] == '/';
    }
  }
}
