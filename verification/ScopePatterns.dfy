/**
 The allowed-path patterns of a task packet: string tests on `/`-joined paths, and what
 they mean on path segments.
 */
module ScopePatterns {
  import opened PythonText

  /** A path segment: not empty and without a separator. */
  predicate Segment(s: string) {
    s != "" && '/' !in s && s != "." && s != ".."
  }

  predicate Segments(p: seq<string>) {
    p != [] && forall i | 0 <= i < |p| :: Segment(p[i])
  }

  predicate EndsWith(s: string, suffix: string) {
    |suffix| <= |s| && s[|s| - |suffix|..] == suffix
  }

  /** The string test `s.startswith(b + "/")` is the segment test "strictly below". */
  lemma PrefixIsBelow(s: string, b: string)
    ensures StartsWith(s, b + "/") <==> Split(b) < Split(s)
  {
    if StartsWith(s, b + "/") {
      var rest := s[|b| + 1..];
      assert s == b + "/" + rest;
      SplitAtSlash(b, rest);
    }
    if Split(b) < Split(s) {
      var tail := Split(s)[|Split(b)|..];
      assert Split(s) == Split(b) + tail;
      JoinConcat(Split(b), tail);
      JoinSplit(s);
      JoinSplit(b);
      assert s == b + "/" + Join(tail);
    }
  }

  // ----- Patterns -----

  function StripSlashes(s: string): string {
    if s != "" && s[|s| - 1] == '/' then StripSlashes(s[..|s| - 1]) else s
  }

  /** `PurePosixPath(s).parts` of a relative path: empty and `.` components disappear. */
  function PureParts(s: string): seq<string> {
    Kept(Split(s))
  }

  function Kept(parts: seq<string>): seq<string> {
    if parts == [] then []
    else (if parts[0] == "" || parts[0] == "." then [] else [parts[0]]) + Kept(parts[1..])
  }

  /** Slashes go from the end, and only they. */
  lemma {:induction false} SlashesStripped(s: string)
    ensures var r := StripSlashes(s);
            r <= s && (forall i | |r| <= i < |s| :: s[i] == '/') && (r != "" ==> r[|r| - 1] != '/')
    decreases |s|
  {
    if s != "" && s[|s| - 1] == '/' { SlashesStripped(s[..|s| - 1]); }
  }

  /** Empty and `.` components go, and only they, and the others keep their order. */
  lemma {:induction false} KeptParts(a: seq<string>, b: seq<string>)
    ensures Kept(a + b) == Kept(a) + Kept(b)
    ensures forall x :: Kept([x]) == if x == "" || x == "." then [] else [x]
    decreases |a|
  {
    forall x ensures Kept([x]) == if x == "" || x == "." then [] else [x] { assert [x][1..] == []; }
    if a == [] {
      assert a + b == b;
    } else {
      assert (a + b)[1..] == a[1..] + b;
      KeptParts(a[1..], b);
    }
  }

  predicate PatternAllows(path: string, pattern: string, directory: bool) {
    if ".." in PureParts(pattern) || StartsWith(pattern, "/") then false
    else if EndsWith(pattern, "/**") then
      var base := StripSlashes(pattern[..|pattern| - 3]);
      path == base || StartsWith(path, base + "/")
    else if EndsWith(pattern, "/*") then
      var base := StripSlashes(pattern[..|pattern| - 2]);
      var remainder := if StartsWith(path, base + "/") then path[|base| + 1..] else "";
      || (remainder != "" && '/' !in remainder)
      || (directory && path == base)
    else
      || PureParts(path) == PureParts(pattern)
      || (directory && StartsWith(pattern, StripSlashes(path) + "/"))
  }

  /** The source's loop over patterns. */
  method PathAllowed(path: string, patterns: seq<string>, directory: bool) returns (allowed: bool)
    ensures allowed <==> exists i :: 0 <= i < |patterns| && PatternAllows(path, patterns[i], directory)
  {
    for i := 0 to |patterns|
      invariant forall k | 0 <= k < i :: !PatternAllows(path, patterns[k], directory)
    {
      if PatternAllows(path, patterns[i], directory) {
        return true;
      }
    }
    return false;
  }

  // ----- What patterns mean on segments -----

  /** The meaning of one pattern: a subtree, the direct children of a directory, or one path
      together with the directories on the way to it. */
  predicate Covers(pattern: string, p: seq<string>, directory: bool) {
    if ".." in PureParts(pattern) || StartsWith(pattern, "/") then false
    else if EndsWith(pattern, "/**") then Split(StripSlashes(pattern[..|pattern| - 3])) <= p
    else if EndsWith(pattern, "/*") then
      var base := Split(StripSlashes(pattern[..|pattern| - 2]));
      (p != [] && p[..|p| - 1] == base) || (directory && p == base)
    else p == PureParts(pattern) || (directory && p < Split(pattern))
  }

  lemma {:induction false} KeptSegments(p: seq<string>)
    requires forall i | 0 <= i < |p| :: Segment(p[i])
    ensures Kept(p) == p
  {
    if p != [] {
      KeptSegments(p[1..]);
      assert p == [p[0]] + p[1..];
    }
  }

  lemma {:induction false} LastPart(p: seq<string>)
    requires Segments(p)
    ensures Join(p) != "" && Join(p)[|Join(p)| - 1] != '/'
  {
    assert Segment(p[0]);
    if |p| > 1 {
      LastPart(p[1..]);
    } else {
      assert p[0][|p[0]| - 1] in p[0];
    }
  }

  lemma JoinIsInjective(p: seq<string>, s: string)
    requires Segments(p)
    ensures Join(p) == s <==> p == Split(s)
  {
    SplitJoin(p);
    JoinSplit(s);
  }

  /** A single component strictly below `base`. */
  lemma ChildTest(p: seq<string>, base: string)
    requires Segments(p)
    ensures var path := Join(p);
            (StartsWith(path, base + "/") && path[|base| + 1..] != "" && '/' !in path[|base| + 1..])
            <==> p[..|p| - 1] == Split(base)
  {
    var path, last := Join(p), p[|p| - 1];
    assert Segment(last);
    if p[..|p| - 1] == Split(base) {
      assert p == Split(base) + [last];
      JoinConcat(Split(base), [last]);
      JoinSplit(base);
      assert path == base + "/" + last;
      assert path[|base| + 1..] == last;
    } else if StartsWith(path, base + "/") && '/' !in path[|base| + 1..] {
      ChildSplits(p, base);
      assert false;
    }
  }

  lemma ChildSplits(p: seq<string>, base: string)
    requires Segments(p) && StartsWith(Join(p), base + "/") && '/' !in Join(p)[|base| + 1..]
    ensures p[..|p| - 1] == Split(base)
  {
    var rest := Join(p)[|base| + 1..];
    assert Join(p) == base + "/" + rest;
    SplitJoin(p);
    SplitAtSlash(base, rest);
    SplitSlashFree(rest);
    assert p == Split(base) + [rest];
  }

  lemma DeepPattern(p: seq<string>, base: string)
    requires Segments(p)
    ensures (Join(p) == base || StartsWith(Join(p), base + "/")) <==> Split(base) <= p
  {
    SplitJoin(p);
    JoinIsInjective(p, base);
    PrefixIsBelow(Join(p), base);
  }

  lemma ChildPattern(p: seq<string>, base: string, directory: bool)
    requires Segments(p)
    ensures var path := Join(p);
            var remainder := if StartsWith(path, base + "/") then path[|base| + 1..] else "";
            ((remainder != "" && '/' !in remainder) || (directory && path == base))
            <==> p[..|p| - 1] == Split(base) || (directory && p == Split(base))
  {
    JoinIsInjective(p, base);
    ChildTest(p, base);
    hide Join, Split, Segments;
  }

  /** The string tests decide exactly the segment meaning, on every inventoried path. */
  lemma PatternsMeanSegments(p: seq<string>, pattern: string, directory: bool)
    requires Segments(p)
    ensures PatternAllows(Join(p), pattern, directory) <==> Covers(pattern, p, directory)
  {
    var path := Join(p);
    if EndsWith(pattern, "/**") {
      DeepPattern(p, StripSlashes(pattern[..|pattern| - 3]));
    } else if EndsWith(pattern, "/*") {
      ChildPattern(p, StripSlashes(pattern[..|pattern| - 2]), directory);
    } else {
      SplitJoin(p);
      KeptSegments(p);
      LastPart(p);
      PrefixIsBelow(pattern, path);
    }
  }
}
