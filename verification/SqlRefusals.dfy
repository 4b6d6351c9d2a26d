/**
 What the statement policy refuses, read off the words of a statement: forbidden words and pairs at
 its start, forbidden spellings anywhere, and the name of a created table or view.
 */
module SqlRefusals {
  import opened Common
  import opened PythonText
  import opened SqlPolicy

  // ----- Words -----

  /** The words of a statement as the policy compares them. */
  function Folded(u: Tables, tokens: seq<string>): seq<string> {
    seq(|tokens|, i requires 0 <= i < |tokens| => Fold(u, tokens[i]))
  }

  /** Folding is a map on characters. */
  lemma {:induction false} FoldMaps(u: Tables, c: char, a: string, b: string)
    ensures Fold(u, "") == "" && Fold(u, [c]) == u.fold(c) && Fold(u, a + b) == Fold(u, a) + Fold(u, b)
    decreases |a|
  {
    assert Fold(u, [c]) == u.fold(c) + Fold(u, [c][1..]);
    if a == "" {
      assert a + b == b;
    } else {
      assert (a + b)[1..] == a[1..] + b;
      FoldMaps(u, c, a[1..], b);
    }
  }

  lemma {:induction false} FoldAllIsFolded(u: Tables, tokens: seq<string>)
    ensures FoldAll(u, tokens) == Folded(u, tokens)
  {
    if tokens != [] {
      FoldAllIsFolded(u, tokens[1..]);
      assert Folded(u, tokens) == [Fold(u, tokens[0])] + Folded(u, tokens[1..]);
    }
  }

  /** Read from character `k` of word `i` on, across the ends of words, the words begin with `part`. */
  predicate ReadsAt(words: seq<string>, i: nat, k: nat, part: string)
    requires i < |words| ==> k <= |words[i]|
    decreases |words| - i, if i < |words| then |words[i]| - k else 0
  {
    if part == "" then true
    else if i >= |words| then false
    else if k < |words[i]| then words[i][k] == part[0] && ReadsAt(words, i, k + 1, part[1..])
    else ReadsAt(words, i + 1, 0, part)
  }

  /** Somewhere the words spell `part`, within one word or across adjacent ones. */
  ghost predicate Spelled(words: seq<string>, part: string) {
    exists i, k :: 0 <= i < |words| && 0 <= k <= |words[i]| && ReadsAt(words, i, k, part)
  }

  lemma {:induction false} ConcatFrom(words: seq<string>, i: nat)
    requires i < |words|
    ensures Concat(words[i..]) == words[i] + Concat(words[i + 1..])
  {
    assert words[i..][0] == words[i] && words[i..][1..] == words[i + 1..];
  }

  lemma {:induction false} ReadsIsPrefix(words: seq<string>, i: nat, k: nat, part: string)
    requires i < |words| && k <= |words[i]|
    ensures ReadsAt(words, i, k, part) <==> part <= words[i][k..] + Concat(words[i + 1..])
    decreases |words| - i, |words[i]| - k
  {
    var tail := Concat(words[i + 1..]);
    if part == "" {
    } else if k < |words[i]| {
      ReadsIsPrefix(words, i, k + 1, part[1..]);
      assert words[i][k..] + tail == [words[i][k]] + (words[i][k + 1..] + tail);
      assert part == [part[0]] + part[1..];
    } else {
      assert words[i][k..] + tail == tail;
      if i + 1 < |words| {
        ReadsIsPrefix(words, i + 1, 0, part);
        ConcatFrom(words, i + 1);
        assert words[i + 1][0..] == words[i + 1];
      }
    }
  }

  /** Every position of the joined words lies in one of them. */
  lemma {:induction false} PositionInWord(words: seq<string>, m: nat) returns (i: nat, k: nat)
    requires words != [] && m <= |Concat(words)|
    ensures i < |words| && k <= |words[i]|
    ensures Concat(words)[m..] == words[i][k..] + Concat(words[i + 1..])
  {
    if m <= |words[0]| {
      i, k := 0, m;
    } else {
      assert words[1..] != [];
      i, k := PositionInWord(words[1..], m - |words[0]|);
      i := i + 1;
      assert words[1..][i..] == words[i + 1..];
      assert Concat(words)[m..] == Concat(words[1..])[m - |words[0]|..];
    }
  }

  lemma {:induction false} WordsHavePositions(words: seq<string>, i: nat, k: nat) returns (m: nat)
    requires i < |words| && k <= |words[i]|
    ensures m <= |Concat(words)| && Concat(words)[m..] == words[i][k..] + Concat(words[i + 1..])
  {
    if i == 0 {
      m := k;
    } else {
      var n := WordsHavePositions(words[1..], i - 1, k);
      m := |words[0]| + n;
      assert words[1..][i..] == words[i + 1..];
      assert Concat(words)[m..] == Concat(words[1..])[n..];
    }
  }

  /** What the policy looks for in the joined words is what the words spell. */
  lemma ContainsIsSpelled(words: seq<string>, part: string)
    requires words != []
    ensures Contains(Concat(words), part) <==> Spelled(words, part)
  {
    var all := Concat(words);
    if Contains(all, part) {
      var m :| 0 <= m <= |all| && OccursAt(all, part, m);
      var i, k := PositionInWord(words, m);
      assert part <= all[m..] by { assert all[m..][..|part|] == all[m..m + |part|]; }
      ReadsIsPrefix(words, i, k, part);
    }
    if Spelled(words, part) {
      var i, k :| 0 <= i < |words| && 0 <= k <= |words[i]| && ReadsAt(words, i, k, part);
      ReadsIsPrefix(words, i, k, part);
      var m := WordsHavePositions(words, i, k);
      assert all[m..m + |part|] == all[m..][..|part|];
      assert OccursAt(all, part, m);
    }
  }

  ghost predicate Mentions(word: string, part: string) {
    exists a, b :: word == a + part + b
  }

  /** Reading `part` stays within the word, or uses the rest of it and goes on in the next. */
  lemma {:induction false} ReadsWithinOrAcross(words: seq<string>, i: nat, k: nat, part: string)
    requires i < |words| && k <= |words[i]|
    ensures var n := |words[i]| - k;
            ReadsAt(words, i, k, part) <==>
              if |part| <= n then words[i][k..k + |part|] == part
              else words[i][k..] == part[..n] && ReadsAt(words, i + 1, 0, part[n..])
    decreases |words[i]| - k
  {
    if part == "" {
    } else if k < |words[i]| {
      var n := |words[i]| - k;
      ReadsWithinOrAcross(words, i, k + 1, part[1..]);
      if |part| <= n {
        assert words[i][k..k + |part|] == [words[i][k]] + words[i][k + 1..k + |part|];
        assert part == [part[0]] + part[1..];
      } else {
        assert words[i][k..] == [words[i][k]] + words[i][k + 1..];
        assert part[..n] == [part[0]] + part[1..][..n - 1];
        assert part[1..][n - 1..] == part[n..];
      }
    } else {
      assert words[i][k..] == "" && part[..0] == "" && part[0..] == part;
    }
  }

  /** Some word mentions `part`, or it begins at the end of one word and goes on in the next. */
  ghost predicate InOrAcross(words: seq<string>, part: string) {
    || (exists i :: 0 <= i < |words| && Mentions(words[i], part))
    || (exists i, n :: 0 <= i < |words| - 1 && 0 < n < |part| && n <= |words[i]|
                       && words[i][|words[i]| - n..] == part[..n] && ReadsAt(words, i + 1, 0, part[n..]))
  }

  lemma {:induction false} ReadingIsInOrAcross(words: seq<string>, i: nat, k: nat, part: string)
    requires part != "" && i < |words| && k <= |words[i]| && ReadsAt(words, i, k, part)
    ensures InOrAcross(words, part)
    decreases |words| - i
  {
    ReadsWithinOrAcross(words, i, k, part);
    var n := |words[i]| - k;
    if |part| <= n {
      assert words[i] == words[i][..k] + part + words[i][k + |part|..];
      assert Mentions(words[i], part);
    } else if n == 0 {
      assert part[0..] == part;
      ReadingIsInOrAcross(words, i + 1, 0, part);
    } else {
      assert words[i][|words[i]| - n..] == part[..n];
    }
  }

  lemma SpelledInOrAcross(words: seq<string>, part: string)
    requires part != ""
    ensures Spelled(words, part) <==> InOrAcross(words, part)
  {
    if Spelled(words, part) {
      var i, k :| 0 <= i < |words| && 0 <= k <= |words[i]| && ReadsAt(words, i, k, part);
      ReadingIsInOrAcross(words, i, k, part);
    }
    if i :| 0 <= i < |words| && Mentions(words[i], part) {
      var a, b :| words[i] == a + part + b;
      ReadsWithinOrAcross(words, i, |a|, part);
      assert words[i][|a|..|a| + |part|] == part;
    }
    if i, n :| && 0 <= i < |words| - 1 && 0 < n < |part| && n <= |words[i]|
               && words[i][|words[i]| - n..] == part[..n] && ReadsAt(words, i + 1, 0, part[n..]) {
      ReadsWithinOrAcross(words, i, |words[i]| - n, part);
    }
  }

  // ----- Forms -----

  /** Word `k` is `form`, semicolons after it aside. */
  predicate Is(words: seq<string>, k: nat, form: string) {
    k < |words| && form <= words[k] && forall i | |form| <= i < |words[k]| :: words[k][i] == ';'
  }

  lemma {:induction false} StrippedIs(s: string, form: string)
    requires form != "" && form[|form| - 1] != ';'
    ensures StripSemicolons(s) == form <==> form <= s && forall i | |form| <= i < |s| :: s[i] == ';'
    decreases |s|
  {
    if s != "" && s[|s| - 1] == ';' {
      StrippedIs(s[..|s| - 1], form);
      if form <= s && form != s { assert form <= s[..|s| - 1]; }
    }
  }

  lemma HeadIs(words: seq<string>, k: nat, form: string)
    requires form != "" && form[|form| - 1] != ';'
    ensures Head(words, k) == form <==> Is(words, k, form)
  {
    if k < |words| { StrippedIs(words[k], form); }
  }

  /** Definer clauses. */
  ghost predicate UsesDefiner(words: seq<string>) { Spelled(words, "definer") }

  /** Statements that create, alter or drop programmable objects. */
  ghost predicate Programmable(words: seq<string>) {
    && (Is(words, 0, "create") || Is(words, 0, "alter") || Is(words, 0, "drop"))
    && (Spelled(words, "procedure") || Spelled(words, "function") || Spelled(words, "event") || Spelled(words, "trigger"))
  }

  /** Statements and client commands that reach beyond the restored database. */
  predicate Directive(words: seq<string>) {
    || Is(words, 0, "use") || Is(words, 0, "grant") || Is(words, 0, "revoke") || Is(words, 0, "delimiter")
    || Is(words, 0, "source") || Is(words, 0, "system") || Is(words, 0, "pager") || Is(words, 0, "tee")
    || ((Is(words, 0, "create") || Is(words, 0, "drop")) &&
        (Is(words, 1, "database") || Is(words, 1, "schema") || Is(words, 1, "user")))
    || (Is(words, 0, "alter") && Is(words, 1, "user"))
    || (Is(words, 0, "set") && Is(words, 1, "global"))
    || (Is(words, 0, "install") && Is(words, 1, "plugin"))
    || (Is(words, 0, "load") && Is(words, 1, "data"))
  }

  // ----- Names -----

  predicate Letter(c: char) { 'a' <= c <= 'z' || 'A' <= c <= 'Z' || '0' <= c <= '9' }

  /** Up to 63 letters, digits, underscores, single dots and hyphens, the first a letter or digit. */
  predicate ValidName(u: Tables, name: string) {
    && 0 < |name| < 64
    && Letter(name[0])
    && (forall i | 0 <= i < |name| :: Letter(name[i]) || name[i] == '_' || name[i] == '.' || name[i] == '-')
    && (forall i | 0 < i < |name| :: !(name[i - 1] == '.' && name[i] == '.'))
    && (forall i | 0 <= i < |name| :: !u.space(name[i]))
  }

  /** The token is a valid name with blanks around it. */
  ghost predicate Holds(u: Tables, token: string, name: string) {
    ValidName(u, name) && exists a, b :: Blank(u, a) && Blank(u, b) && token == a + name + b
  }

  lemma NoDoubleDot(s: string)
    ensures Contains(s, "..") <==> exists i :: 0 < i < |s| && s[i - 1] == '.' && s[i] == '.'
  {
    if i :| 0 <= i <= |s| && OccursAt(s, "..", i) {
      assert s[i] == s[i..i + 2][0] && s[i + 1] == s[i..i + 2][1];
      assert s[(i + 1) - 1] == '.';
    }
    if i :| 0 < i < |s| && s[i - 1] == '.' && s[i] == '.' {
      assert s[i - 1..i - 1 + 2] == "..";
      assert OccursAt(s, "..", i - 1);
    }
  }

  /** Name validation accepts exactly the tokens that hold a valid name, and returns it. */
  lemma NameIsHeld(u: Tables, token: string, name: string)
    ensures DatabaseName(u, token) == Some(name) <==> Holds(u, token, name)
  {
    NoDoubleDot(name);
    if DatabaseName(u, token) == Some(name) {
      var a := StripLeftSplits(u, token);
      var b := StripRightSplits(u, StripLeft(u, token));
      assert token == a + name + b;
    }
    if Holds(u, token, name) {
      var a, b :| Blank(u, a) && Blank(u, b) && token == a + name + b;
      assert token == a + (name + b) && (name + b)[0] == name[0];
      StripLeftBlanks(u, a, name + b);
      StripRightBlanks(u, name, b);
    }
  }

  // ----- Statements -----

  /** The position of the name in a statement that creates a table or view. */
  function NameIndex(words: seq<string>): nat {
    if |words| >= 5 && words[2] == "if" && words[3] == "not" && words[4] == "exists" then 5 else 2
  }

  predicate CreatesNamed(words: seq<string>) {
    Is(words, 0, "create") && (Is(words, 1, "table") || Is(words, 1, "view")) && NameIndex(words) < |words|
  }

  /** The statement creates the table or view `name`. */
  ghost predicate Creates(u: Tables, tokens: seq<string>, name: string) {
    var words := Folded(u, tokens);
    CreatesNamed(words) && Holds(u, tokens[NameIndex(words)], name)
  }

  /** The policy refuses the statement, and for this reason. */
  ghost predicate Refuses(u: Tables, tokens: seq<string>, e: Error) {
    var words := Folded(u, tokens);
    && tokens != []
    && match e
       case UnsafeSecurity => UsesDefiner(words)
       case UnsafeObject => !UsesDefiner(words) && Programmable(words)
       case UnsafeDirective => !UsesDefiner(words) && !Programmable(words) && Directive(words)
       case InvalidName =>
         && !UsesDefiner(words) && !Programmable(words) && !Directive(words)
         && CreatesNamed(words) && forall name :: !Holds(u, tokens[NameIndex(words)], name)
       case _ => false
  }

  lemma DirectiveForms(words: seq<string>)
    ensures Directive(words) <==>
              || Head(words, 0) in UNSAFE_WORDS
              || (Head(words, 0), Head(words, 1)) in UNSAFE_STATEMENTS
  {
    forall k, form | form != "" && form[|form| - 1] != ';' ensures Head(words, k) == form <==> Is(words, k, form) {
      HeadIs(words, k, form);
    }
    hide Head, Is;
  }

  lemma BeginsSpelled(words: seq<string>, k: nat, form: string)
    requires Is(words, k, form)
    ensures Spelled(words, form)
  {
    ReadsWithinOrAcross(words, k, 0, form);
    assert words[k][0..0 + |form|] == form;
  }

  lemma ObjectForms(words: seq<string>)
    requires (Head(words, 0), Head(words, 1)) in UNSAFE_OBJECT_STATEMENTS
    ensures Programmable(words)
  {
    forall k, form | form != "" && form[|form| - 1] != ';' ensures Head(words, k) == form <==> Is(words, k, form) {
      HeadIs(words, k, form);
    }
    forall form | Is(words, 1, form) ensures Spelled(words, form) { BeginsSpelled(words, 1, form); }
    hide Head, Is, Spelled;
  }

  lemma ProgrammableForms(words: seq<string>)
    requires words != []
    ensures var all := Concat(words);
            Programmable(words) <==>
              && Head(words, 0) in {"create", "alter", "drop"}
              && (Contains(all, "procedure") || Contains(all, "function") || Contains(all, "event")
                  || Contains(all, "trigger"))
  {
    HeadIs(words, 0, "create");
    HeadIs(words, 0, "alter");
    HeadIs(words, 0, "drop");
    ContainsIsSpelled(words, "procedure");
    ContainsIsSpelled(words, "function");
    ContainsIsSpelled(words, "event");
    ContainsIsSpelled(words, "trigger");
    hide Head, Is, Spelled, Contains, Concat;
  }

  lemma ForbiddenForms(u: Tables, tokens: seq<string>)
    requires tokens != []
    ensures var words := Folded(u, tokens);
            Forbidden(u, tokens) ==
              if UsesDefiner(words) then Some(UnsafeSecurity)
              else if Programmable(words) then Some(UnsafeObject)
              else if Directive(words) then Some(UnsafeDirective)
              else None
  {
    var words := Folded(u, tokens);
    FoldAllIsFolded(u, tokens);
    ContainsIsSpelled(words, "definer");
    ProgrammableForms(words);
    DirectiveForms(words);
    if (Head(words, 0), Head(words, 1)) in UNSAFE_OBJECT_STATEMENTS { ObjectForms(words); }
    hide Head, Is, Spelled, Contains, Concat, Programmable, Directive, FoldAll, Folded;
  }

  lemma TargetForms(u: Tables, tokens: seq<string>)
    requires tokens != []
    ensures var words := Folded(u, tokens);
            Target(u, tokens) == if CreatesNamed(words) then Some(tokens[NameIndex(words)]) else None
  {
    var words := Folded(u, tokens);
    FoldAllIsFolded(u, tokens);
    HeadIs(words, 0, "create");
    HeadIs(words, 1, "table");
    HeadIs(words, 1, "view");
    assert |words| >= 5 ==> words[2..5] == [words[2], words[3], words[4]];
    hide Head, Is, FoldAll, Folded;
  }

  /** The verdict on every statement: the reason it is refused for, or the names with the one it
      creates, once each. */
  lemma StatementVerdict(u: Tables, tokens: seq<string>, names: seq<string>)
    ensures var v := InspectStatement(u, tokens, names);
            && (forall e :: v == Reject(e) <==> Refuses(u, tokens, e))
            && (forall name | v.Accept? && Creates(u, tokens, name) ::
                  v.names == if name in names then names else names + [name])
            && (v.Accept? && (forall name :: !Creates(u, tokens, name)) ==> v.names == names)
  {
    var words := Folded(u, tokens);
    if tokens != [] {
      ForbiddenForms(u, tokens);
      TargetForms(u, tokens);
      forall token, name ensures DatabaseName(u, token) == Some(name) <==> Holds(u, token, name) {
        NameIsHeld(u, token, name);
      }
      hide Forbidden, Target, DatabaseName, Holds, UsesDefiner, Programmable, Directive, Folded, Is, NameIndex;
      if CreatesNamed(words) {
        var token := tokens[NameIndex(words)];
        assert |words| == |tokens|;
        if name :| DatabaseName(u, token) == Some(name) { assert Creates(u, tokens, name); }
      }
    }
  }

  /** A definer clause is refused wherever it stands in the statement. */
  lemma DefinerIsRefused(u: Tables, tokens: seq<string>, names: seq<string>, i: nat)
    requires i < |tokens| && Mentions(Fold(u, tokens[i]), "definer")
    ensures InspectStatement(u, tokens, names) == Reject(UnsafeSecurity)
  {
    StatementVerdict(u, tokens, names);
    SpelledInOrAcross(Folded(u, tokens), "definer");
    assert Mentions(Folded(u, tokens)[i], "definer");
    assert Refuses(u, tokens, UnsafeSecurity);
  }
}
