/** What acceptance of a dump means, and which parts of a dump its verdict does not depend on. */
module SqlGuarantees {
  import opened Common
  import opened PythonText
  import opened SqlPolicy
  import opened SqlRefusals
  import opened SqlLexer
  import opened SqlTokenizer
  import opened SqlLines

  // ----- Acceptance -----

  /** The statements a text separates with semicolons, the one begun in `current` first. */
  function Statements(items: seq<Item>, current: seq<string>): seq<seq<string>> {
    if items == [] then [current]
    else match items[0]
      case Word(w) => Statements(items[1..], current + [w])
      case Semicolon => [current] + Statements(items[1..], [])
  }

  /** The policy has no reason to refuse the statement. */
  ghost predicate Permitted(u: Tables, statement: seq<string>) {
    forall e :: !Refuses(u, statement, e)
  }

  ghost predicate AllPermitted(u: Tables, statements: seq<seq<string>>) {
    forall i | 0 <= i < |statements| :: Permitted(u, statements[i])
  }

  /** The tables and views that statements create, in order and with repetitions. */
  ghost function Created(u: Tables, statements: seq<seq<string>>): seq<string> {
    if statements == [] then [] else CreatedBy(u, statements[0]) + Created(u, statements[1..])
  }

  ghost function CreatedBy(u: Tables, statement: seq<string>): seq<string> {
    if name :| Creates(u, statement, name) then [name] else []
  }

  function Collect(found: seq<string>, names: seq<string>): seq<string> {
    if found == [] then names
    else Collect(found[1..], if found[0] in names then names else names + [found[0]])
  }

  lemma {:induction false} CollectConcat(a: seq<string>, b: seq<string>, names: seq<string>)
    ensures Collect(a + b, names) == Collect(b, Collect(a, names))
    decreases |a|
  {
    if a == [] {
      assert a + b == b;
    } else {
      assert (a + b)[1..] == a[1..] + b;
      CollectConcat(a[1..], b, if a[0] in names then names else names + [a[0]]);
    }
  }

  lemma AllPermittedCons(u: Tables, statements: seq<seq<string>>)
    requires statements != []
    ensures AllPermitted(u, statements) <==> Permitted(u, statements[0]) && AllPermitted(u, statements[1..])
    ensures |statements| == 1 ==> (AllPermitted(u, statements) <==> Permitted(u, statements[0]))
  {
    hide Permitted;
    assert forall i | 0 < i < |statements| :: statements[i] == statements[1..][i - 1];
  }

  lemma InspectionAccepts(u: Tables, statement: seq<string>, names: seq<string>)
    ensures InspectStatement(u, statement, names) ==
              if Permitted(u, statement) then Accept(Collect(CreatedBy(u, statement), names))
              else InspectStatement(u, statement, names)
    ensures InspectStatement(u, statement, names).Accept? <==> Permitted(u, statement)
  {
    StatementVerdict(u, statement, names);
    hide InspectStatement, Refuses, Creates;
    var v := InspectStatement(u, statement, names);
    assert v.Reject? ==> v == Reject(v.error);
    if v.Accept? {
      var found := CreatedBy(u, statement);
      if found != [] { assert found[1..] == []; }
    }
  }

  lemma {:induction false} JudgeAccepts(u: Tables, t: Text, current: seq<string>, names: seq<string>)
    ensures var v := Judge(u, t, current, names);
            var statements := Statements(t.items, current);
            && (v.Accept? <==> t.ending == Complete && AllPermitted(u, statements))
            && (v.Accept? ==> v.names == Collect(Created(u, statements), names))
    decreases |t.items|
  {
    var statements := Statements(t.items, current);
    InspectionAccepts(u, current, names);
    hide InspectStatement, Permitted, CreatedBy, AllPermitted;
    if t.items == [] {
      assert statements == [current];
      AllPermittedCons(u, statements);
      assert Created(u, statements) == CreatedBy(u, current) + [];
      assert CreatedBy(u, current) + [] == CreatedBy(u, current);
    } else {
      var rest := Text(t.items[1..], t.ending);
      match t.items[0] {
        case Word(w) =>
          JudgeAccepts(u, rest, current + [w], names);
          assert Judge(u, t, current, names) == Judge(u, rest, current + [w], names);
          assert statements == Statements(rest.items, current + [w]);
        case Semicolon =>
          var v := InspectStatement(u, current, names);
          assert statements[0] == current && statements[1..] == Statements(rest.items, []);
          AllPermittedCons(u, statements);
          if v.Accept? {
            JudgeAccepts(u, rest, [], v.names);
            CollectConcat(CreatedBy(u, current), Created(u, statements[1..]), names);
          }
      }
    }
  }

  /** The position of a name's first appearance. */
  function FirstIndex(found: seq<string>, name: string): (i: nat)
    ensures i <= |found| && (name in found <==> i < |found|)
    ensures i < |found| ==> found[i] == name
  {
    if found == [] || found[0] == name then 0 else 1 + FirstIndex(found[1..], name)
  }

  predicate Distinct(names: seq<string>) {
    forall i, k | 0 <= i < k < |names| :: names[i] != names[k]
  }

  lemma {:induction false} CollectDistinct(found: seq<string>, names: seq<string>)
    requires Distinct(names)
    ensures var r := Collect(found, names);
            Distinct(r) && names <= r && forall x :: x in r <==> x in names || x in found
    decreases |found|
  {
    if found != [] {
      var more := if found[0] in names then names else names + [found[0]];
      CollectDistinct(found[1..], more);
    }
  }

  /** Names come in the order of their first appearance. */
  lemma {:induction false} CollectKeepsOrder(found: seq<string>, names: seq<string>, i: nat, k: nat)
    requires Distinct(names) && |names| <= i < k < |Collect(found, names)|
    ensures var r := Collect(found, names); FirstIndex(found, r[i]) < FirstIndex(found, r[k])
    decreases |found|
  {
    CollectDistinct(found, names);
    var r := Collect(found, names);
    if found != [] {
      var more := if found[0] in names then names else names + [found[0]];
      CollectDistinct(found[1..], more);
      if found[0] in names {
        var m :| 0 <= m < |names| && names[m] == found[0];
        assert r[m] == found[0];
      } else {
        assert r[|names|] == more[|names|] == found[0];
      }
      assert r[k] != found[0];
      if i >= |more| {
        CollectKeepsOrder(found[1..], more, i, k);
        assert r[i] != found[0] by { assert found[0] in more; var m :| 0 <= m < |more| && more[m] == found[0]; assert r[m] == found[0]; }
      } else {
        assert r[i] == found[0];
      }
    }
  }

  /** A dump is accepted exactly when it is within the limits, is complete, and none of its
      statements, executable comments included, has a forbidden form or an invalid object name;
      the names returned are the created tables and views, once each, in order of appearance. */
  lemma AcceptedDumps(u: Tables, text: string, expected: nat)
    requires Sane(u)
    ensures var v := Inspect(u, text, expected);
            var t := Code(u, Cleaned(text), false);
            var statements := Statements(t.items, []);
            && (v.Accept? <==>
                  WithinLimits(u, text, expected) && t.ending == Complete && AllPermitted(u, statements))
            && (v.Accept? ==>
                  && Distinct(v.names)
                  && (forall x :: x in v.names <==> x in Created(u, statements))
                  && forall i, k | 0 <= i < k < |v.names| ::
                       FirstIndex(Created(u, statements), v.names[i]) < FirstIndex(Created(u, statements), v.names[k]))
  {
    ScannerIsTokenizer(u, text, expected);
    var t := Code(u, Cleaned(text), false);
    JudgeAccepts(u, t, [], []);
    hide Inspect, Code, Cleaned, Judge, AllPermitted, WithinLimits;
    var found := Created(u, Statements(t.items, []));
    CollectDistinct(found, []);
    forall i, k | 0 <= i < k < |Collect(found, [])|
      ensures FirstIndex(found, Collect(found, [])[i]) < FirstIndex(found, Collect(found, [])[k])
    {
      CollectKeepsOrder(found, [], i, k);
    }
  }

  // ----- Interiors do not matter -----

  /** Run on `pre + tail`, the machine consumes exactly `pre` and is then in state `s`. */
  predicate Reaches(u: Tables, pre: string, tail: string, s0: Lexer, s: Lexer)
    decreases |pre|
  {
    if pre == "" then s0 == s
    else match WholeStep(u, pre + tail, s0)
      case Fail(_) => false
      case Advance(n, next) => n <= |pre| && Reaches(u, pre[n..], tail, next, s)
  }

  lemma {:induction false} ReachesRuns(u: Tables, pre: string, tail: string, s0: Lexer, s: Lexer)
    requires Reaches(u, pre, tail, s0, s)
    ensures ScanWhole(u, pre + tail, s0) == ScanWhole(u, tail, s)
    decreases |pre|
  {
    if pre == "" {
      assert pre + tail == tail;
    } else {
      var t := WholeStep(u, pre + tail, s0);
      assert (pre + tail)[t.count..] == pre[t.count..] + tail;
      ReachesRuns(u, pre[t.count..], tail, t.lexer, s);
    }
  }

  /** What follows may be replaced by anything that begins the same way. */
  predicate SameStart(a: string, b: string) {
    a != "" && b != "" && a[0] == b[0] && a[0] != '*'
  }

  lemma {:induction false} LineEndLocal(pre: string, a: string, b: string)
    requires a != "" && b != ""
    ensures LineEnd(pre + a) <= |pre| ==> LineEnd(pre + b) == LineEnd(pre + a)
    decreases |pre|
  {
    if pre != "" {
      assert (pre + a)[1..] == pre[1..] + a && (pre + b)[1..] == pre[1..] + b;
      LineEndLocal(pre[1..], a, b);
    } else {
      assert pre + a == a;
    }
  }

  lemma StepSeesStart(u: Tables, pre: string, a: string, b: string, s: Lexer)
    requires SameStart(a, b) && pre != "" && s.mode != LineComment
    ensures Step(u, pre + a, s) == Step(u, pre + b, s)
  {
    assert (pre + a)[0] == (pre + b)[0];
    assert (pre + a)[1] == (pre + b)[1];
    assert |pre| > 1 ==> (pre + a)[2] == (pre + b)[2];
    assert |pre| == 1 ==> (pre + a)[1] == a[0];
  }

  lemma {:induction false} ReachesAgain(u: Tables, pre: string, a: string, b: string, s0: Lexer, s: Lexer)
    requires Reaches(u, pre, a, s0, s) && SameStart(a, b)
    ensures Reaches(u, pre, b, s0, s)
    decreases |pre|
  {
    if pre != "" {
      var t := WholeStep(u, pre + a, s0);
      if s0.mode == LineComment {
        LineEndLocal(pre, a, b);
      } else {
        StepSeesStart(u, pre, a, b, s0);
      }
      assert WholeStep(u, pre + b, s0) == t;
      ReachesAgain(u, pre[t.count..], a, b, t.lexer, s);
    }
  }

  /** Two texts that differ only after a point the machine reaches have the same verdict when it
      goes on to the same state from there. */
  lemma SameFromHere(u: Tables, pre: string, a: string, b: string, s: Lexer)
    requires Reaches(u, pre, a, Start, s) && SameStart(a, b)
    requires Closed(ScanWhole(u, a, s)) == Closed(ScanWhole(u, b, s))
    ensures Outcome(u, pre + a, Start) == Outcome(u, pre + b, Start)
  {
    ReachesRuns(u, pre, a, Start, s);
    ReachesAgain(u, pre, a, b, Start, s);
    ReachesRuns(u, pre, b, Start, s);
  }

  lemma OutcomeIsReference(u: Tables, text: string)
    requires Sane(u)
    ensures Outcome(u, text, Start) == Reference(u, text)
  {
    MachineJudgesTokens(u, text, Start);
  }

  /** The text, followed by the quote, is a whole literal body. */
  predicate LiteralBody(body: string, quote: char) {
    LiteralEnd(body + [quote], quote) == Some(|body| + 1)
  }

  lemma {:induction false} LiteralEndExtends(rest: string, more: string, quote: char)
    requires LiteralEnd(rest, quote).Some? && quote != '\\'
    ensures LiteralEnd(rest + more, quote) == LiteralEnd(rest, quote)
    decreases |rest|
  {
    if rest[0] == '\\' && |rest| > 1 {
      assert (rest + more)[2..] == rest[2..] + more;
      LiteralEndExtends(rest[2..], more, quote);
    } else if rest[0] != quote {
      assert (rest + more)[1..] == rest[1..] + more;
      LiteralEndExtends(rest[1..], more, quote);
    }
  }

  /** From a state between tokens, a literal leads to the same place whatever it contains. */
  lemma LiteralSkipped(u: Tables, quote: char, body: string, post: string, s: Lexer)
    requires Sane(u) && (quote == '\'' || quote == '"') && LiteralBody(body, quote)
    requires s.mode == Default || s.mode == ExecutableComment
    ensures var exec := s.mode.ExecutableComment?;
            ScanWhole(u, [quote] + body + [quote] + post, s) ==
              ScanWhole(u, post, s.(prefix := if exec then false else s.prefix).Flushed().(returnTo := s.mode))
  {
    var exec := s.mode.ExecutableComment?;
    var text := [quote] + body + [quote] + post;
    var inside := s.(prefix := if exec then false else s.prefix).Flushed().(returnTo := s.mode, mode := Quoted(quote, exec));
    assert WholeStep(u, text, s) == Advance(1, inside);
    assert text[1..] == body + [quote] + post;
    LiteralEndExtends(body + [quote], post, quote);
    LiteralRun(u, text[1..], inside, quote);
    assert text[1..][|body| + 1..] == post;
  }

  /** The inside of a quoted literal, in or out of an executable comment, changes neither the
      verdict nor the names. */
  lemma LiteralsDoNotMatter(u: Tables, pre: string, quote: char, body: string, other: string, post: string, s: Lexer)
    requires Sane(u) && (quote == '\'' || quote == '"') && LiteralBody(body, quote) && LiteralBody(other, quote)
    requires Reaches(u, pre, [quote] + body + [quote] + post, Start, s)
    requires s.mode == Default || s.mode == ExecutableComment
    ensures Reference(u, pre + ([quote] + body + [quote] + post)) == Reference(u, pre + ([quote] + other + [quote] + post))
  {
    var a, b := [quote] + body + [quote] + post, [quote] + other + [quote] + post;
    LiteralSkipped(u, quote, body, post, s);
    LiteralSkipped(u, quote, other, post, s);
    SameFromHere(u, pre, a, b, s);
    OutcomeIsReference(u, pre + a);
    OutcomeIsReference(u, pre + b);
  }

  /** The text ends at its own comment end and does not begin an executable comment. */
  predicate CommentBody(body: string) {
    CommentEnd(body + "*/") == Some(|body| + 2) && !(body != "" && body[0] == '!')
  }

  lemma {:induction false} CommentEndExtends(rest: string, more: string)
    requires CommentEnd(rest).Some?
    ensures CommentEnd(rest + more) == CommentEnd(rest)
    decreases |rest|
  {
    if !(rest[0] == '*' && At(rest, 1) == Some('/')) {
      assert (rest + more)[1..] == rest[1..] + more;
      CommentEndExtends(rest[1..], more);
    }
  }

  lemma CommentSkipped(u: Tables, body: string, post: string, s: Lexer)
    requires Sane(u) && CommentBody(body) && s.mode == Default
    ensures ScanWhole(u, "/*" + body + "*/" + post, s) == ScanWhole(u, post, s.Flushed())
  {
    var text := "/*" + body + "*/" + post;
    var inside := s.Flushed().(mode := BlockComment);
    assert At(text, 2) != Some('!') by {
      if body != "" { assert text[2] == body[0]; } else { assert text[2] == '*'; }
    }
    assert WholeStep(u, text, s) == Advance(2, inside);
    assert text[2..] == body + "*/" + post;
    CommentEndExtends(body + "*/", post);
    CommentRun(u, text[2..], inside);
    assert text[2..][|body| + 2..] == post;
  }

  /** The inside of an ordinary block comment changes neither the verdict nor the names. */
  lemma BlockCommentsDoNotMatter(u: Tables, pre: string, body: string, other: string, post: string, s: Lexer)
    requires Sane(u) && CommentBody(body) && CommentBody(other)
    requires Reaches(u, pre, "/*" + body + "*/" + post, Start, s) && s.mode == Default
    ensures Reference(u, pre + ("/*" + body + "*/" + post)) == Reference(u, pre + ("/*" + other + "*/" + post))
  {
    var a, b := "/*" + body + "*/" + post, "/*" + other + "*/" + post;
    CommentSkipped(u, body, post, s);
    CommentSkipped(u, other, post, s);
    SameFromHere(u, pre, a, b, s);
    OutcomeIsReference(u, pre + a);
    OutcomeIsReference(u, pre + b);
  }

  lemma LineCommentSkipped(u: Tables, opener: string, body: string, post: string, s: Lexer)
    requires Sane(u) && (opener == "--" || opener == "#") && s.mode == Default
    requires forall i | 0 <= i < |body| :: body[i] != '\n'
    ensures ScanWhole(u, opener + body + "\n" + post, s) == ScanWhole(u, post, s.Flushed())
  {
    var text := opener + body + "\n" + post;
    var inside := s.Flushed().(mode := LineComment);
    assert WholeStep(u, text, s) == Advance(|opener|, inside) by {
      assert text[0] == opener[0];
      if |opener| == 2 { assert text[1] == '-'; }
    }
    assert text[|opener|..] == (body + "\n") + post;
    assert Terminated(body + "\n");
    LineEndOfTerminated(body + "\n", post);
    assert text[|opener|..][|body| + 1..] == post;
  }

  /** The rest of a line after `--` or `#` changes neither the verdict nor the names. */
  lemma LineCommentsDoNotMatter(u: Tables, pre: string, opener: string, body: string, other: string, post: string, s: Lexer)
    requires Sane(u) && (opener == "--" || opener == "#")
    requires forall i | 0 <= i < |body| :: body[i] != '\n'
    requires forall i | 0 <= i < |other| :: other[i] != '\n'
    requires Reaches(u, pre, opener + body + "\n" + post, Start, s) && s.mode == Default
    ensures Reference(u, pre + (opener + body + "\n" + post)) == Reference(u, pre + (opener + other + "\n" + post))
  {
    var a, b := opener + body + "\n" + post, opener + other + "\n" + post;
    LineCommentSkipped(u, opener, body, post, s);
    LineCommentSkipped(u, opener, other, post, s);
    SameFromHere(u, pre, a, b, s);
    OutcomeIsReference(u, pre + a);
    OutcomeIsReference(u, pre + b);
  }

  lemma {:induction false} LineEndOfLast(rest: string)
    requires forall i | 0 <= i < |rest| :: rest[i] != '\n'
    ensures LineEnd(rest) == |rest|
  {
    if rest != "" { LineEndOfLast(rest[1..]); }
  }

  lemma LastCommentSkipped(u: Tables, opener: string, body: string, s: Lexer)
    requires (opener == "--" || opener == "#") && s.mode == Default
    requires forall i | 0 <= i < |body| :: body[i] != '\n'
    ensures Closed(ScanWhole(u, opener + body, s)) == Scanned(s.Flushed())
  {
    var text := opener + body;
    var inside := s.Flushed().(mode := LineComment);
    assert WholeStep(u, text, s) == Advance(|opener|, inside) by {
      assert text[0] == opener[0];
      if |opener| == 2 { assert text[1] == '-'; }
    }
    assert text[|opener|..] == body;
    LineEndOfLast(body);
    assert body[|body|..] == "";
    assert ScanWhole(u, text, s) == ScanWhole(u, body, inside);
    assert inside.(mode := Default) == s.Flushed();
    if body != "" {
      assert WholeStep(u, body, inside) == Advance(|body|, s.Flushed());
      assert ScanWhole(u, body, inside) == ScanWhole(u, "", s.Flushed());
    }
  }

  /** The same on a last line that no line feed ends. */
  lemma LastCommentDoesNotMatter(u: Tables, pre: string, opener: string, body: string, other: string, s: Lexer)
    requires Sane(u) && (opener == "--" || opener == "#")
    requires forall i | 0 <= i < |body| :: body[i] != '\n'
    requires forall i | 0 <= i < |other| :: other[i] != '\n'
    requires Reaches(u, pre, opener + body, Start, s) && s.mode == Default
    ensures Reference(u, pre + (opener + body)) == Reference(u, pre + (opener + other))
  {
    var a, b := opener + body, opener + other;
    LastCommentSkipped(u, opener, body, s);
    LastCommentSkipped(u, opener, other, s);
    SameFromHere(u, pre, a, b, s);
    OutcomeIsReference(u, pre + a);
    OutcomeIsReference(u, pre + b);
  }

  // ----- All interiors, for the scanner itself -----

  /** `ToTextEnd` is a line comment on a last line without a line feed. */
  datatype Span = Literal(quote: char) | Block | ToLineEnd(opener: string) | ToTextEnd(opener: string)

  function Wrap(span: Span, body: string): string {
    match span
    case Literal(quote) => [quote] + body + [quote]
    case Block => "/*" + body + "*/"
    case ToLineEnd(opener) => opener + body + "\n"
    case ToTextEnd(opener) => opener + body
  }

  /** The body does not end the span early and does not turn it into another construct. */
  predicate Encloses(span: Span, body: string) {
    match span
    case Literal(quote) => (quote == '\'' || quote == '"') && LiteralBody(body, quote)
    case Block => CommentBody(body)
    case _ => (span.opener == "--" || span.opener == "#") && forall i | 0 <= i < |body| :: body[i] != '\n'
  }

  /** Literals may stand inside executable comments, comments may not. */
  predicate MayStand(span: Span, mode: Mode) {
    mode == Default || (span.Literal? && mode == ExecutableComment)
  }

  predicate Plausible(u: Tables, text: string, size: nat) {
    BOM !in text && WithinLimits(u, text, size)
  }

  /** Replacing the inside of a literal or of an ordinary comment by any text that does not close it
      changes neither the scanner's verdict nor the names it collects. */
  lemma InteriorsDoNotMatter(u: Tables, pre: string, span: Span, body: string, other: string, post: string,
                             s: Lexer, size: nat, otherSize: nat)
    requires Sane(u) && Encloses(span, body) && Encloses(span, other) && MayStand(span, s.mode)
    requires span.ToTextEnd? ==> post == ""
    requires Reaches(u, pre, Wrap(span, body) + post, Start, s)
    requires Plausible(u, pre + (Wrap(span, body) + post), size)
    requires Plausible(u, pre + (Wrap(span, other) + post), otherSize)
    ensures Inspect(u, pre + (Wrap(span, body) + post), size) == Inspect(u, pre + (Wrap(span, other) + post), otherSize)
  {
    var a, b := pre + (Wrap(span, body) + post), pre + (Wrap(span, other) + post);
    match span {
      case Literal(quote) => LiteralsDoNotMatter(u, pre, quote, body, other, post, s);
      case Block => BlockCommentsDoNotMatter(u, pre, body, other, post, s);
      case ToLineEnd(opener) => LineCommentsDoNotMatter(u, pre, opener, body, other, post, s);
      case ToTextEnd(opener) =>
        assert opener + body + post == opener + body && opener + other + post == opener + other;
        LastCommentDoesNotMatter(u, pre, opener, body, other, s);
    }
    ScannerIsTokenizer(u, a, size);
    ScannerIsTokenizer(u, b, otherSize);
    CleanedIsText(a);
    CleanedIsText(b);
  }
}
