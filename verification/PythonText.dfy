/** The string operations of Python that the modelled code relies on. */
module PythonText {
  /** The character tables Python's `str` methods consult, and UTF-8 widths. */
  datatype Tables = Tables(space: char -> bool, digit: char -> bool, fold: char -> string, width: char -> nat)

  function Fold(u: Tables, s: string): string {
    if s == "" then "" else u.fold(s[0]) + Fold(u, s[1..])
  }

  predicate OccursAt(s: string, part: string, i: nat) {
    i + |part| <= |s| && s[i..i + |part|] == part
  }

  predicate Contains(s: string, part: string) {
    exists i :: 0 <= i <= |s| && OccursAt(s, part, i)
  }

  function StripLeft(u: Tables, s: string): string {
    if s != "" && u.space(s[0]) then StripLeft(u, s[1..]) else s
  }

  function StripRight(u: Tables, s: string): string {
    if s != "" && u.space(s[|s| - 1]) then StripRight(u, s[..|s| - 1]) else s
  }

  // ----- Stripping -----

  predicate Blank(u: Tables, s: string) { forall i | 0 <= i < |s| :: u.space(s[i]) }

  lemma {:induction false} StripLeftBlanks(u: Tables, a: string, s: string)
    requires Blank(u, a) && (s != "" ==> !u.space(s[0]))
    ensures StripLeft(u, a + s) == s
    decreases |a|
  {
    if a == "" {
      assert a + s == s;
    } else {
      assert (a + s)[1..] == a[1..] + s;
      StripLeftBlanks(u, a[1..], s);
    }
  }

  lemma {:induction false} StripRightBlanks(u: Tables, s: string, b: string)
    requires Blank(u, b) && (s != "" ==> !u.space(s[|s| - 1]))
    ensures StripRight(u, s + b) == s
    decreases |b|
  {
    if b == "" {
      assert s + b == s;
    } else {
      assert (s + b)[..|s + b| - 1] == s + b[..|b| - 1];
      StripRightBlanks(u, s, b[..|b| - 1]);
    }
  }

  lemma {:induction false} StripLeftSplits(u: Tables, s: string) returns (a: string)
    ensures Blank(u, a) && s == a + StripLeft(u, s)
    decreases |s|
  {
    if s != "" && u.space(s[0]) {
      var rest := StripLeftSplits(u, s[1..]);
      a := [s[0]] + rest;
    } else {
      a := "";
    }
  }

  lemma {:induction false} StripRightSplits(u: Tables, s: string) returns (b: string)
    ensures Blank(u, b) && s == StripRight(u, s) + b
    decreases |s|
  {
    if s != "" && u.space(s[|s| - 1]) {
      var rest := StripRightSplits(u, s[..|s| - 1]);
      b := rest + [s[|s| - 1]];
    } else {
      b := "";
    }
  }

  // ----- Splitting and joining -----

  /** `s.split("/")`. */
  function Split(s: string): (parts: seq<string>)
    ensures |parts| >= 1
  {
    if s == "" then [""]
    else
      var rest := Split(s[1..]);
      if s[0] == '/' then [""] + rest else [[s[0]] + rest[0]] + rest[1..]
  }

  /** `"/".join(parts)`. */
  function Join(parts: seq<string>): string {
    if parts == [] then "" else if |parts| == 1 then parts[0] else parts[0] + "/" + Join(parts[1..])
  }

  lemma {:induction false} SplitAtSlash(a: string, b: string)
    ensures Split(a + "/" + b) == Split(a) + Split(b)
  {
    if a == "" {
      assert (a + "/" + b)[1..] == b;
    } else {
      assert (a + "/" + b)[1..] == a[1..] + "/" + b;
      SplitAtSlash(a[1..], b);
    }
  }

  lemma {:induction false} JoinConcat(a: seq<string>, b: seq<string>)
    requires a != [] && b != []
    ensures Join(a + b) == Join(a) + "/" + Join(b)
  {
    if |a| > 1 {
      assert (a + b)[1..] == a[1..] + b;
      JoinConcat(a[1..], b);
      assert Join(a + b) == a[0] + "/" + (Join(a[1..]) + "/" + Join(b));
    } else {
      assert (a + b)[1..] == b;
    }
  }

  lemma {:induction false} JoinPrependsChar(c: char, parts: seq<string>)
    requires parts != []
    ensures Join([[c] + parts[0]] + parts[1..]) == [c] + Join(parts)
  {
    var q := [[c] + parts[0]] + parts[1..];
    if |parts| > 1 {
      assert q[1..] == parts[1..];
    }
  }

  lemma {:induction false} JoinSplit(s: string)
    ensures Join(Split(s)) == s
  {
    if s != "" {
      JoinSplit(s[1..]);
      var rest := Split(s[1..]);
      if s[0] == '/' {
        assert ([""] + rest)[1..] == rest;
      } else {
        JoinPrependsChar(s[0], rest);
      }
    }
  }

  lemma {:induction false} SplitSlashFree(s: string)
    requires '/' !in s
    ensures Split(s) == [s]
  {
    if s != "" {
      assert s[0] in s && forall c | c in s[1..] :: c in s;
      SplitSlashFree(s[1..]);
      assert [s[0]] + s[1..] == s;
    }
  }

  lemma {:induction false} SplitJoin(p: seq<string>)
    requires p != [] && forall i | 0 <= i < |p| :: '/' !in p[i]
    ensures Split(Join(p)) == p
  {
    SplitSlashFree(p[0]);
    if |p| > 1 {
      SplitJoin(p[1..]);
      SplitAtSlash(p[0], Join(p[1..]));
      assert p == [p[0]] + p[1..];
    } else {
      assert p == [p[0]];
    }
  }

  predicate StartsWith(s: string, prefix: string) { prefix <= s }
}
