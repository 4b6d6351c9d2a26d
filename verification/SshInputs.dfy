/** Exactly which roots and relative paths the connector's input checks accept. */
module SshInputs {
  import opened Common
  import opened PythonText
  import opened SshCommands
  import opened SshPaths
  import SshAgreement
  import opened SshRefusals
  import opened SshSoundness

  /** No space, no control character, and none with a meaning for a shell but quotes and backslash. */
  predicate CleanText(u: Tables, s: string) {
    forall i | 0 <= i < |s| ::
      (s[i] as int) >= 32 && !u.space(s[i]) && s[i] !in ";|&$><*?{}[]()!`"
  }

  lemma CleanIsClean(u: Tables, s: string)
    ensures CleanInput(u, s) <==> CleanText(u, s)
  {
    forall c: char ensures (c !in INPUT_FORBIDDEN && (c as int) >= 32) <==> ((c as int) >= 32 && c !in ";|&$><*?{}[]()!`") {
      AllowedCharacter(c);
    }
    hide INPUT_FORBIDDEN;
  }

  lemma AllowedCharacter(c: char)
    ensures (c !in INPUT_FORBIDDEN && (c as int) >= 32) <==> ((c as int) >= 32 && c !in ";|&$><*?{}[]()!`")
  {
    assert ";|&$><*?{}[]()!`" == [';', '|', '&', '$', '>', '<', '*', '?', '{', '}', '[', ']', '(', ')', '!', '`'];
  }

  /** Segments of a path that stays below where it starts. */
  predicate Steps(names: seq<string>) {
    Proper(names) && ".." !in names
  }

  /** A root: one or two separators and segments between separators, in clean text without a comma,
      but not the top directory and none of the broad system directories. */
  ghost predicate RootText(u: Tables, r: string) {
    && CleanText(u, r) && ',' !in r
    && (exists names :: Steps(names) && ((names != [] && r == "/" + Join(names)) || r == "//" + Join(names)))
    && r != "/root" && r != "/home" && r != "/var" && r != "/etc" && r != "/proc" && r != "/sys"
  }

  ghost predicate Surrounded(u: Tables, value: string, s: string) {
    exists a, b :: Blank(u, a) && Blank(u, b) && value == a + s + b
  }

  lemma CleanEnds(u: Tables, s: string)
    requires s != "" && CleanText(u, s)
    ensures !u.space(s[0]) && !u.space(s[|s| - 1])
  {
  }

  lemma StrippedIsSurrounded(u: Tables, value: string)
    ensures Surrounded(u, value, Strip(u, value))
  {
    var a := StripLeftSplits(u, value);
    var b := StripRightSplits(u, StripLeft(u, value));
    assert value == a + Strip(u, value) + b;
  }

  lemma SurroundedStrips(u: Tables, value: string, s: string)
    requires s != "" && !u.space(s[0]) && !u.space(s[|s| - 1]) && Surrounded(u, value, s)
    ensures Strip(u, value) == s
  {
    var a, b :| Blank(u, a) && Blank(u, b) && value == a + s + b;
    assert value == a + (s + b) && (s + b)[0] == s[0];
    StripLeftBlanks(u, a, s + b);
    StripRightBlanks(u, s, b);
  }

  /** Stripping a value gives a clean text exactly when blanks surround that text. */
  lemma StripsTo(u: Tables, value: string, s: string)
    requires s != "" && CleanText(u, s)
    ensures Strip(u, value) == s <==> Surrounded(u, value, s)
    ensures Strip(u, s) == s
  {
    CleanEnds(u, s);
    hide CleanText, Strip, Surrounded;
    StripNothing(u, s);
    StrippedIsSurrounded(u, value);
    if Surrounded(u, value, s) { SurroundedStrips(u, value, s); }
  }

  lemma DoubleShape(names: seq<string>)
    requires Proper(names)
    ensures var r := "//" + Join(names); Normal(r) == r && Names(Split(r)) == names && r != "/"
  {
    var r := "//" + Join(names);
    if names == [] {
      DoubleSlashSplits("");
      assert r == "//" + "" && Names([""]) == [] by { assert [""][1..] == []; }
    } else {
      DoubleSlashSplits(Join(names));
      SplitJoin(names);
      NamesOfProper(names);
      JoinIsTight(names);
    }
    hide Names, Split, Join;
    assert |r| > 2 ==> r[2] == Join(names)[0];
    assert r[0] == '/' && r[1] == '/';
    assert Anchor(r) == "//";
  }

  lemma BroadRoots(r: string)
    ensures r in BROAD_ROOTS <==> (r == "/root" || r == "/home" || r == "/var" || r == "/etc" || r == "/proc" || r == "/sys")
  {
  }

  /** The checks on a stripped root. */
  lemma CheckedRoot(u: Tables, r: string)
    ensures AbsoluteRoot(u, r) == Some(r) <==> r != "" && Strip(u, r) == r && RootText(u, r)
  {
    CleanIsClean(u, r);
    BroadRoots(r);
    hide CleanText, CleanInput, BROAD_ROOTS, Strip;
    if AbsoluteRoot(u, r) == Some(r) {
      RootShape(u, r);
      hide Names, Split, Join;
      assert Steps(Names(Split(r)));
    }
    if r != "" && Strip(u, r) == r && RootText(u, r) {
      var names :| Steps(names) && ((names != [] && r == "/" + Join(names)) || r == "//" + Join(names));
      if names != [] && r == "/" + Join(names) { ShapeIsAbsolute(names); } else { DoubleShape(names); }
      hide Names, Split, Normal, Join;
      assert r[0] == '/';
      assert r != "/" by { if names != [] { JoinNotEmpty(names); } }
    }
  }

  lemma JoinNotEmpty(names: seq<string>)
    requires Proper(names) && names != []
    ensures Join(names) != ""
  {
    JoinIsTight(names);
  }

  /** A value is accepted as the root `r` exactly when it is `r` with blanks around it and `r` is a root
      text. */
  lemma RootsExactly(u: Tables, value: string, r: string)
    ensures AbsoluteRoot(u, value) == Some(r) <==> Surrounded(u, value, r) && RootText(u, r)
  {
    CheckedRoot(u, r);
    if AbsoluteRoot(u, value) == Some(r) {
      RootOfStripped(u, value, r);
      StripsTo(u, value, r);
    }
    if Surrounded(u, value, r) && RootText(u, r) {
      assert r != "" by { hide Join, CleanText; }
      StripsTo(u, value, r);
      SameStripped(u, value, r);
    }
    hide RootText, Surrounded, AbsoluteRoot, Strip;
  }

  lemma RootOfStripped(u: Tables, value: string, r: string)
    requires AbsoluteRoot(u, value) == Some(r)
    ensures r == Strip(u, value) && r != "" && CleanText(u, r) && AbsoluteRoot(u, r) == Some(r)
  {
    assert r == Strip(u, value) && CleanInput(u, r) && r != "" by { hide Strip, Normal, Names, Split, CleanInput; }
    CleanIsClean(u, r);
    StripsTo(u, r, r);
    hide Strip, Normal, Names, Split, CleanInput, CleanText;
  }

  // ----- Relative paths -----

  /** Open segments between separators, in clean text without a percent sign. */
  ghost predicate RelativeText(u: Tables, p: string) {
    CleanText(u, p) && '%' !in p && exists names :: OpenSegments(u, names) && p == Join(names)
  }

  lemma OpenIsChecked(u: Tables, name: string)
    requires '/' !in name && '\\' !in name
    ensures OpenSegment(u, name) <==> name != "" && name != "." && name != ".." && !SecretPart(u, name)
  {
  }

  lemma CheckedRelative(u: Tables, p: string)
    ensures RelativePath(u, p) == Some(p) <==> Strip(u, p) == p && RelativeText(u, p)
  {
    CleanIsClean(u, p);
    hide CleanText, CleanInput, Strip, SecretPart, OpenSegment;
    if RelativePath(u, p) == Some(p) {
      var names := Split(p);
      SplitHasNoSlash(p);
      JoinSplit(p);
      JoinHasSegments(names, '\\');
      forall i | 0 <= i < |names| ensures OpenSegment(u, names[i]) { OpenIsChecked(u, names[i]); }
      assert OpenSegments(u, names) && p == Join(names);
    }
    if Strip(u, p) == p && RelativeText(u, p) {
      var names :| OpenSegments(u, names) && p == Join(names);
      OpenIsProper(u, names);
      JoinIsTight(names);
      SplitJoin(names);
      JoinHasSegments(names, '\\');
      forall i | 0 <= i < |names| ensures names[i] != "" && names[i] != "." && names[i] != ".." && !SecretPart(u, names[i]) && '\\' !in names[i] {
        assert OpenSegment(u, names[i]);
        OpenHasNoBackslash(u, names[i]);
        OpenIsChecked(u, names[i]);
      }
      hide Split, Join, Proper;
    }
  }

  lemma OpenHasNoBackslash(u: Tables, name: string)
    requires OpenSegment(u, name)
    ensures '\\' !in name && '/' !in name
  {
  }

  /** A value is accepted as the relative path `p` exactly when it is `p` with blanks around it and `p`
      consists of open segments. */
  lemma RelativePathsExactly(u: Tables, value: string, p: string)
    ensures RelativePath(u, value) == Some(p) <==> Surrounded(u, value, p) && RelativeText(u, p)
  {
    CheckedRelative(u, p);
    if RelativePath(u, value) == Some(p) {
      RelativeOfStripped(u, value, p);
      StripsTo(u, value, p);
    }
    if Surrounded(u, value, p) && RelativeText(u, p) {
      RelativeNotEmpty(u, p);
      StripsTo(u, value, p);
      SameRelative(u, value, p);
    }
    hide RelativeText, Surrounded, RelativePath, Strip;
  }

  lemma RelativeNotEmpty(u: Tables, p: string)
    requires RelativeText(u, p)
    ensures p != "" && CleanText(u, p)
  {
    var names :| OpenSegments(u, names) && p == Join(names);
    OpenIsProper(u, names);
    JoinIsTight(names);
  }

  lemma RelativeOfStripped(u: Tables, value: string, p: string)
    requires RelativePath(u, value) == Some(p)
    ensures p == Strip(u, value) && p != "" && CleanText(u, p) && RelativePath(u, p) == Some(p)
  {
    assert p == Strip(u, value) && CleanInput(u, p) && p != "" by { hide Strip, Split, CleanInput, SecretPart; }
    CleanIsClean(u, p);
    StripsTo(u, p, p);
    hide Strip, Split, CleanInput, CleanText, SecretPart;
  }

  lemma SameRelative(u: Tables, value: string, p: string)
    requires Strip(u, value) == p && Strip(u, p) == p
    ensures RelativePath(u, value) == RelativePath(u, p)
  {
    hide Strip, Split, CleanInput, SecretPart;
  }

  // ----- Identifiers -----

  predicate Alphanumeric(c: char) { 'a' <= c <= 'z' || 'A' <= c <= 'Z' || '0' <= c <= '9' }

  /** Up to 128 letters, digits, underscores, hyphens, colons and single dots, the first a letter or
      digit. */
  predicate IdentifierText(s: string) {
    && 0 < |s| < 129 && Alphanumeric(s[0])
    && (forall i | 0 <= i < |s| :: Alphanumeric(s[i]) || s[i] == '_' || s[i] == '-' || s[i] == ':' || s[i] == '.')
    && forall i | 0 < i < |s| :: !(s[i - 1] == '.' && s[i] == '.')
  }

  lemma DotsApart(s: string)
    ensures Contains(s, "..") <==> exists i :: 0 < i < |s| && s[i - 1] == '.' && s[i] == '.'
  {
    if i :| 0 <= i <= |s| && OccursAt(s, "..", i) {
      assert s[i] == s[i..i + 2][0] && s[i + 1] == s[i..i + 2][1];
      assert s[(i + 1) - 1] == '.';
    }
    if i :| 0 < i < |s| && s[i - 1] == '.' && s[i] == '.' {
      assert s[i - 1..i - 1 + 2] == "..";
      assert OccursAt(s, "..", i - 1);
    }
  }

  lemma IdentifiersExactly(u: Tables, s: string)
    requires SshAgreement.Sane(u)
    ensures Identifier(u, s) <==> IdentifierText(s)
  {
    DotsApart(s);
    assert "_.:-" == ['_', '.', ':', '-'];
    forall c: char ensures IdentifierChar(c) <==> Alphanumeric(c) || c == '_' || c == '-' || c == ':' || c == '.' {}
  }

  // ----- Profiles -----

  /** A profile carries the target's roots and services and a file limit of at most one mebibyte. */
  lemma ProfilesAre(target: Target, limit: nat)
    ensures ProfileOf(target, limit) ==
              if 0 < limit && limit < 1048577 then Some(Profile(target.roots, target.services, limit)) else None
  {
  }
}
