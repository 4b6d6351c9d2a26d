/** Why a dump is refused, and which words a dump of plainly written statements is read as. */
module SqlDumps {
  import opened Common
  import opened PythonText
  import opened SqlPolicy
  import opened SqlRefusals
  import opened SqlLexer
  import opened SqlTokenizer
  import opened SqlLines
  import opened SqlGuarantees

  // ----- Refusal -----

  /** Statement `k` is the first that the policy refuses; an unfinished one is judged only at a
      complete end. */
  ghost predicate RefusedAt(u: Tables, statements: seq<seq<string>>, ending: Ending, k: int, e: Error) {
    && 0 <= k < |statements|
    && (k == |statements| - 1 ==> ending == Complete)
    && Refuses(u, statements[k], e)
    && forall i | 0 <= i < k :: Permitted(u, statements[i])
  }

  /** The reason a text is refused: its first refused statement's, or else its malformed end. */
  ghost predicate RefusedFor(u: Tables, statements: seq<seq<string>>, ending: Ending, e: Error) {
    || (exists k :: RefusedAt(u, statements, ending, k, e))
    || (&& ending != Complete && e == (if ending == Ambiguous then AmbiguousComment else Truncated)
        && forall i | 0 <= i < |statements| - 1 :: Permitted(u, statements[i]))
  }

  lemma StatementsExist(items: seq<Item>, current: seq<string>)
    ensures Statements(items, current) != []
  {
  }

  lemma RefusedStep(u: Tables, statements: seq<seq<string>>, ending: Ending, e: Error)
    requires |statements| > 1
    ensures RefusedFor(u, statements, ending, e) <==>
              Refuses(u, statements[0], e) || (Permitted(u, statements[0]) && RefusedFor(u, statements[1..], ending, e))
  {
    hide Refuses;
    var rest := statements[1..];
    if k :| RefusedAt(u, statements, ending, k, e) {
      if k > 0 {
        assert RefusedAt(u, rest, ending, k - 1, e);
      }
    }
    if Refuses(u, statements[0], e) { assert RefusedAt(u, statements, ending, 0, e); }
    if Permitted(u, statements[0]) {
      if k :| RefusedAt(u, rest, ending, k, e) { assert RefusedAt(u, statements, ending, k + 1, e); }
    }
    assert forall i | 0 <= i < |rest| :: rest[i] == statements[i + 1];
    assert forall i | 0 < i < |statements| :: statements[i] == rest[i - 1];
  }

  lemma {:induction false} JudgeRefuses(u: Tables, t: Text, current: seq<string>, names: seq<string>, e: Error)
    ensures Judge(u, t, current, names) == Reject(e) <==> RefusedFor(u, Statements(t.items, current), t.ending, e)
    decreases |t.items|
  {
    var statements := Statements(t.items, current);
    StatementVerdict(u, current, names);
    InspectionAccepts(u, current, names);
    hide InspectStatement, Refuses, Creates, CreatedBy, Permitted;
    if t.items == [] {
      assert statements == [current];
      if t.ending == Complete && Refuses(u, current, e) { assert RefusedAt(u, statements, t.ending, 0, e); }
    } else {
      var rest := Text(t.items[1..], t.ending);
      match t.items[0] {
        case Word(w) =>
          JudgeRefuses(u, rest, current + [w], names, e);
          assert statements == Statements(rest.items, current + [w]);
        case Semicolon =>
          var v := InspectStatement(u, current, names);
          assert statements[0] == current && statements[1..] == Statements(rest.items, []);
          StatementsExist(rest.items, []);
          RefusedStep(u, statements, t.ending, e);
          hide RefusedFor;
          if v.Accept? {
            JudgeRefuses(u, rest, [], v.names, e);
            assert Judge(u, t, current, names) == Judge(u, rest, [], v.names);
          } else {
            assert v == Reject(v.error);
          }
      }
    }
  }

  /** Within the limits a dump is refused for exactly one reason: that of the first statement the
      policy refuses, or, when every finished statement is permitted, its malformed end. */
  lemma RefusedDumps(u: Tables, text: string, expected: nat, e: Error)
    requires Sane(u) && WithinLimits(u, text, expected)
    ensures var t := Code(u, Cleaned(text), false);
            Inspect(u, text, expected) == Reject(e) <==> RefusedFor(u, Statements(t.items, []), t.ending, e)
  {
    ScannerIsTokenizer(u, text, expected);
    JudgeRefuses(u, Code(u, Cleaned(text), false), [], [], e);
  }

  // ----- Limits -----

  lemma ProperCons(first: string, rest: seq<string>)
    requires ProperLines(rest)
    requires Terminated(first) || (rest == [] && forall k | 0 <= k < |first| :: first[k] != '\n')
    ensures ProperLines([first] + rest)
  {
    hide Terminated;
    forall i | 0 <= i < |[first] + rest|
      ensures Terminated(([first] + rest)[i])
              || (i == |rest| && forall k | 0 <= k < |([first] + rest)[i]| :: ([first] + rest)[i][k] != '\n')
    {
      if i > 0 { assert ([first] + rest)[i] == rest[i - 1]; }
    }
  }

  /** The lines are the text, cut after every line feed and nowhere else. */
  lemma {:induction false} LinesAreText(text: string)
    ensures Flatten(Lines(text)) == text && ProperLines(Lines(text))
    decreases |text|
  {
    if text != "" {
      var n := LineEnd(text);
      var first, rest := text[..n], Lines(text[n..]);
      LineEndSplits(text);
      LinesAreText(text[n..]);
      if n == |text| { LinesOfNothing(text[n..]); }
      ProperCons(first, rest);
      assert Lines(text) == [first] + rest && ([first] + rest)[1..] == rest;
      assert first + text[n..] == text;
    }
  }

  /** A decoded line is the line without the byte order marks it begins with. */
  lemma {:induction false} StripBomStrips(line: string)
    ensures var r := StripBom(line);
            && |r| <= |line| && r == line[|line| - |r|..] && (r != "" ==> r[0] != '\U{FEFF}')
            && forall i | 0 <= i < |line| - |r| :: line[i] == '\U{FEFF}'
  {
    if line != "" { StripBomStrips(line[1..]); }
  }

  lemma LinesOfNothing(text: string)
    requires text == ""
    ensures Lines(text) == []
  {
  }

  /** More than 8193 bytes, or that many without a line feed at the end. */
  predicate TooLong(u: Tables, line: string) {
    Bytes(u, line) > 8193 || (Bytes(u, line) == 8193 && line[|line| - 1] != '\n')
  }

  /** The limits: the announced size, and no line too long. */
  lemma LimitsAre(u: Tables, text: string, expected: nat)
    ensures WithinLimits(u, text, expected) <==>
              Bytes(u, text) == expected && forall i | 0 <= i < |Lines(text)| :: !TooLong(u, Lines(text)[i])
  {
    hide Lines;
  }

  /** Reading stops at line `n`: every line before it fits and has been read, and it is the end, or too
      long, or its first 8193 bytes already exceed the announced size. */
  predicate StopsAt(u: Tables, lines: seq<string>, expected: int, n: nat) {
    && n <= |lines|
    && (forall i | 0 <= i < n :: !TooLong(u, lines[i]))
    && TotalBytes(u, lines[..n]) <= expected
    && (n < |lines| ==> TooLong(u, lines[n]) || TotalBytes(u, lines[..n]) + Bytes(u, lines[n]) > expected)
  }

  /** Outside the limits a refusal of what has been read so far comes first; else a line that is too
      long and still within the announced size is reported as such, and everything else as a size
      that changed. */
  lemma {:induction false} LimitErrors(u: Tables, lines: seq<string>, total: nat, expected: nat, s: Lexer, n: nat)
    requires StopsAt(u, lines, expected - total, n) && (n == |lines| ==> total + TotalBytes(u, lines) != expected)
    ensures InspectLines(u, lines, total, expected, s) ==
              match ScanLines(u, Decoded(lines[..n]), s)
              case Stopped(e) => Reject(e)
              case Scanned(_) =>
                if n < |lines| && TooLong(u, lines[n]) && total + TotalBytes(u, lines[..n]) + 8193 <= expected
                then Reject(OversizedLine) else Reject(SizeChanged)
    decreases n
  {
    if n > 0 {
      var rest := lines[1..];
      assert lines[..n][0] == lines[0] && lines[..n][1..] == rest[..n - 1];
      assert forall i | 0 <= i < n - 1 :: rest[i] == lines[i + 1];
      assert n < |lines| ==> rest[n - 1] == lines[n];
      var scan := ScanRest(u, StripBom(lines[0]), s);
      hide ScanRest, StripBom, TooLong;
      FirstLineRead(u, lines, total, expected, s);
      if scan.Scanned? { LimitErrors(u, rest, total + Bytes(u, lines[0]), expected, EndLine(scan.lexer), n - 1); }
    }
  }

  lemma FirstLineRead(u: Tables, lines: seq<string>, total: nat, expected: nat, s: Lexer)
    requires lines != [] && !TooLong(u, lines[0]) && total + Bytes(u, lines[0]) <= expected
    ensures InspectLines(u, lines, total, expected, s) ==
              match ScanRest(u, StripBom(lines[0]), s)
              case Stopped(e) => Reject(e)
              case Scanned(t) => InspectLines(u, lines[1..], total + Bytes(u, lines[0]), expected, EndLine(t))
  {
  }

  // ----- Plainly written statements -----

  predicate Gap(u: Tables, s: string) {
    s != "" && forall i | 0 <= i < |s| :: u.space(s[i]) || s[i] == ',' || s[i] == '(' || s[i] == ')'
  }

  predicate PlainWord(u: Tables, s: string) {
    s != "" && forall i | 0 <= i < |s| ::
      !u.space(s[i]) && s[i] !in {',', '(', ')', '\'', '"', '`', ';', '#', '-', '/', '*'}
  }

  /** A word as it is written: bare, or in backticks. */
  datatype Lexeme = Bare(text: string) | Ticked(text: string)
  {
    function Spelling(): string { if Bare? then text else "`" + text + "`" }

    ghost predicate Fits(u: Tables) { if Bare? then PlainWord(u, text) else text != "" && '`' !in text }
  }

  /** Words, each followed by blanks, commas or parentheses. */
  function Written(words: seq<Lexeme>, gaps: seq<string>): string {
    if words == [] || gaps == [] then "" else words[0].Spelling() + (gaps[0] + Written(words[1..], gaps[1..]))
  }

  ghost predicate WellWritten(u: Tables, words: seq<Lexeme>, gaps: seq<string>) {
    && |gaps| == |words|
    && (forall i | 0 <= i < |words| :: words[i].Fits(u))
    && (forall i | 0 <= i < |gaps| :: Gap(u, gaps[i]))
  }

  lemma {:induction false} WordEnds(u: Tables, word: string, rest: string, exec: bool)
    requires Sane(u) && (forall i | 0 <= i < |word| :: PlainWord(u, [word[i]])) && !Plain(u, rest, exec)
    ensures WordEnd(u, word + rest, exec) == |word|
    decreases |word|
  {
    if word == "" {
      assert word + rest == rest;
    } else {
      assert (word + rest)[1..] == word[1..] + rest;
      assert PlainWord(u, [word[0]]) && [word[0]][0] == word[0];
      assert Plain(u, word + rest, exec);
      WordEnds(u, word[1..], rest, exec);
    }
  }

  lemma WordIsRead(u: Tables, word: string, rest: string, exec: bool)
    requires Sane(u) && PlainWord(u, word) && !Plain(u, rest, exec)
    ensures Code(u, word + rest, exec) == Cons(Word(word), Code(u, rest, exec))
  {
    var text := word + rest;
    assert text[0] == word[0];
    WordEnds(u, word, rest, exec);
    assert text[..|word|] == word && text[|word|..] == rest;
  }

  lemma {:induction false} TickCloses(text: string, rest: string)
    requires '`' !in text
    ensures IdentifierEnd(text + "`" + rest) == Some(|text| + 1)
    decreases |text|
  {
    if text == "" {
      assert ("`" + rest)[0] == '`' && "" + "`" + rest == "`" + rest;
    } else {
      var all := text + "`" + rest;
      assert all[0] == text[0] && text[0] in text && all[1..] == text[1..] + "`" + rest;
      assert '`' !in text[1..] by { assert forall c | c in text[1..] :: c in text; }
      TickCloses(text[1..], rest);
    }
  }

  lemma TickedIsRead(u: Tables, text: string, rest: string, exec: bool)
    requires Sane(u) && text != "" && '`' !in text
    ensures Code(u, "`" + text + "`" + rest, exec) == Cons(Word(text), Code(u, rest, exec))
  {
    var all := "`" + text + "`" + rest;
    assert all[0] == '`' && all[1..] == text + "`" + rest;
    TickCloses(text, rest);
    assert all[1..][..|text|] == text && all[1..|text| + 1] == text && all[|text| + 2..] == rest;
  }

  lemma LexemeIsRead(u: Tables, word: Lexeme, rest: string, exec: bool)
    requires Sane(u) && word.Fits(u) && !Plain(u, rest, exec)
    ensures Code(u, word.Spelling() + rest, exec) == Cons(Word(word.text), Code(u, rest, exec))
  {
    if word.Bare? { WordIsRead(u, word.text, rest, exec); } else { TickedIsRead(u, word.text, rest, exec); }
  }

  lemma {:induction false} GapIsSkipped(u: Tables, gap: string, rest: string, exec: bool)
    requires Sane(u) && (gap == "" || Gap(u, gap))
    ensures Code(u, gap + rest, exec) == Code(u, rest, exec)
    decreases |gap|
  {
    if gap == "" {
      assert gap + rest == rest;
    } else {
      var text := gap + rest;
      assert text[0] == gap[0] && text[1..] == gap[1..] + rest;
      assert gap[0] !in {'/', '*', '#', '-', '\'', '"', '`', ';'};
      GapIsSkipped(u, gap[1..], rest, exec);
    }
  }

  function Texts(words: seq<Lexeme>): (texts: seq<string>)
    ensures |texts| == |words|
  {
    seq(|words|, i requires 0 <= i < |words| => words[i].text)
  }

  function AsItems(words: seq<string>): (items: seq<Item>)
    ensures |items| == |words|
  {
    seq(|words|, i requires 0 <= i < |words| => Word(words[i]))
  }

  function Before(items: seq<Item>, t: Text): Text { Text(items + t.items, t.ending) }

  lemma GapEndsWord(u: Tables, gap: string, tail: string, exec: bool)
    requires Gap(u, gap)
    ensures !Plain(u, gap + tail, exec)
  {
    assert (gap + tail)[0] == gap[0];
  }

  lemma FirstWritten(u: Tables, words: seq<Lexeme>, gaps: seq<string>, rest: string)
    requires words != [] && WellWritten(u, words, gaps)
    ensures words[0].Fits(u) && gaps != [] && Gap(u, gaps[0]) && WellWritten(u, words[1..], gaps[1..])
    ensures Written(words, gaps) + rest == words[0].Spelling() + (gaps[0] + (Written(words[1..], gaps[1..]) + rest))
  {
    hide Lexeme.Fits, Gap, Lexeme.Spelling;
  }

  /** Words written with gaps are read as themselves, in and out of executable comments. */
  lemma {:induction false} WordsAreRead(u: Tables, words: seq<Lexeme>, gaps: seq<string>, rest: string, exec: bool)
    requires Sane(u) && WellWritten(u, words, gaps)
    ensures Code(u, Written(words, gaps) + rest, exec) == Before(AsItems(Texts(words)), Code(u, rest, exec))
    decreases |words|
  {
    hide Code, Lexeme.Spelling, Lexeme.Fits, Gap, Sane, WellWritten, Plain;
    if words == [] {
      assert Written(words, gaps) + rest == rest;
    } else {
      FirstWritten(u, words, gaps, rest);
      var tail := Written(words[1..], gaps[1..]) + rest;
      GapEndsWord(u, gaps[0], tail, exec);
      LexemeIsRead(u, words[0], gaps[0] + tail, exec);
      GapIsSkipped(u, gaps[0], tail, exec);
      WordsAreRead(u, words[1..], gaps[1..], rest, exec);
      hide Written;
      ItemsOfWords(words, Code(u, rest, exec).items);
    }
  }

  lemma ItemsOfWords(words: seq<Lexeme>, more: seq<Item>)
    requires words != []
    ensures AsItems(Texts(words)) + more == [Word(words[0].text)] + (AsItems(Texts(words[1..])) + more)
  {
    assert AsItems(Texts(words)) == [Word(words[0].text)] + AsItems(Texts(words[1..]));
  }

  /** A statement as dump tools write it: its words, within an executable comment or not, and a
      semicolon. */
  datatype Sentence = Sentence(words: seq<Lexeme>, gaps: seq<string>, version: Option<string>)

  predicate Version(u: Tables, s: string) { forall i | 0 <= i < |s| :: u.digit(s[i]) || u.space(s[i]) }

  /** A bare word that begins with a digit would be read as part of the version. */
  ghost predicate BeginsUndigited(u: Tables, word: Lexeme) {
    word.Bare? && word.text != "" ==> !u.digit(word.text[0])
  }

  ghost predicate WellFormed(u: Tables, s: Sentence) {
    && WellWritten(u, s.words, s.gaps)
    && (s.version.Some? ==> Version(u, s.version.value) && s.words != [] && BeginsUndigited(u, s.words[0]))
  }

  function SentenceText(s: Sentence): string {
    match s.version
    case None => Written(s.words, s.gaps) + ";"
    case Some(v) => "/*!" + (v + (Written(s.words, s.gaps) + ("*/" + ";")))
  }

  function DumpText(sentences: seq<Sentence>): string {
    if sentences == [] then "" else SentenceText(sentences[0]) + DumpText(sentences[1..])
  }

  lemma {:induction false} VersionEnds(u: Tables, version: string, rest: string)
    requires Version(u, version) && rest != "" && !u.digit(rest[0]) && !u.space(rest[0])
    ensures PrefixEnd(u, version + rest) == |version|
  {
    if version == "" {
      assert version + rest == rest;
    } else {
      assert (version + rest)[1..] == version[1..] + rest;
      VersionEnds(u, version[1..], rest);
    }
  }

  lemma SemicolonIsRead(u: Tables, rest: string)
    ensures Code(u, ";" + rest, false) == Cons(Semicolon, Code(u, rest, false))
  {
    var closed := ";" + rest;
    assert closed[0] == ';' && closed[1..] == rest;
  }

  lemma ExecutableEnds(u: Tables, rest: string)
    ensures Code(u, "*/" + rest, true) == Code(u, rest, false)
  {
    var ending := "*/" + rest;
    assert ending[0] == '*' && ending[1] == '/' && ending[2..] == rest;
  }

  lemma ExecutableBegins(u: Tables, version: string, body: string)
    requires Version(u, version) && body != "" && !u.digit(body[0]) && !u.space(body[0])
    ensures Code(u, "/*!" + (version + body), false) == Code(u, body, true)
  {
    var text := "/*!" + (version + body);
    VersionEnds(u, version, body);
    assert text[3..] == version + body && text[3 + |version|..] == body;
    assert text[0] == '/' && text[1] == '*' && text[2] == '!';
  }

  lemma PlainSentenceIsRead(u: Tables, words: seq<Lexeme>, gaps: seq<string>, rest: string)
    requires Sane(u) && WellWritten(u, words, gaps)
    ensures Code(u, Written(words, gaps) + ";" + rest, false) == Before(AsItems(Texts(words)), Cons(Semicolon, Code(u, rest, false)))
  {
    hide Code, Written, WellWritten, Sane;
    SemicolonIsRead(u, rest);
    WordsAreRead(u, words, gaps, ";" + rest, false);
    assert Written(words, gaps) + ";" + rest == Written(words, gaps) + (";" + rest);
  }

  lemma BodyBegins(u: Tables, words: seq<Lexeme>, gaps: seq<string>, ending: string)
    requires Sane(u) && WellWritten(u, words, gaps) && words != [] && BeginsUndigited(u, words[0])
    ensures var body := Written(words, gaps) + ending; body != "" && !u.digit(body[0]) && !u.space(body[0])
  {
    assert words[0].Fits(u);
    hide WellWritten;
    var body := Written(words, gaps) + ending;
    assert body[0] == words[0].Spelling()[0];
  }

  lemma Regrouped(version: string, body: string, rest: string)
    ensures "/*!" + (version + (body + ("*/" + ";"))) + rest == "/*!" + (version + (body + ("*/" + (";" + rest))))
  {
    assert body + ("*/" + ";") + rest == body + ("*/" + (";" + rest));
    assert version + (body + ("*/" + ";")) + rest == version + (body + ("*/" + ";") + rest);
  }

  lemma ExecutableSentenceIsRead(u: Tables, version: string, words: seq<Lexeme>, gaps: seq<string>, rest: string)
    requires Sane(u) && WellWritten(u, words, gaps) && Version(u, version) && words != [] && BeginsUndigited(u, words[0])
    ensures Code(u, "/*!" + (version + (Written(words, gaps) + ("*/" + ";"))) + rest, false) ==
              Before(AsItems(Texts(words)), Cons(Semicolon, Code(u, rest, false)))
  {
    hide *;
    var body, closed := Written(words, gaps), ";" + rest;
    var ending := "*/" + closed;
    Regrouped(version, body, rest);
    BodyBegins(u, words, gaps, ending);
    ExecutableBegins(u, version, body + ending);
    WordsAreRead(u, words, gaps, ending, true);
    ExecutableEnds(u, closed);
    SemicolonIsRead(u, rest);
  }

  lemma SentenceIsRead(u: Tables, s: Sentence, rest: string)
    requires Sane(u) && WellFormed(u, s)
    ensures Code(u, SentenceText(s) + rest, false) == Before(AsItems(Texts(s.words)) + [Semicolon], Code(u, rest, false))
  {
    hide Code, Written, WellWritten, Sane, Version;
    match s.version {
      case None => PlainSentenceIsRead(u, s.words, s.gaps, rest);
      case Some(v) => ExecutableSentenceIsRead(u, v, s.words, s.gaps, rest);
    }
    var after := Code(u, rest, false);
    assert AsItems(Texts(s.words)) + ([Semicolon] + after.items) == (AsItems(Texts(s.words)) + [Semicolon]) + after.items;
  }

  lemma {:induction false} StatementsAfterWords(words: seq<string>, more: seq<Item>, current: seq<string>)
    ensures Statements(AsItems(words) + ([Semicolon] + more), current) == [current + words] + Statements(more, [])
    decreases |words|
  {
    var items := AsItems(words) + ([Semicolon] + more);
    if words == [] {
      assert items == [Semicolon] + more && items[1..] == more && current + words == current;
    } else {
      assert items[1..] == AsItems(words[1..]) + ([Semicolon] + more);
      StatementsAfterWords(words[1..], more, current + [words[0]]);
      assert current + [words[0]] + words[1..] == current + words;
    }
  }

  function WordsOf(sentences: seq<Sentence>): seq<seq<string>> {
    if sentences == [] then [] else [Texts(sentences[0].words)] + WordsOf(sentences[1..])
  }

  lemma SentenceThenRest(u: Tables, s: Sentence, rest: string)
    requires Sane(u) && WellFormed(u, s)
    ensures var t, after := Code(u, SentenceText(s) + rest, false), Code(u, rest, false);
            t.ending == after.ending && Statements(t.items, []) == [Texts(s.words)] + Statements(after.items, [])
  {
    SentenceIsRead(u, s, rest);
    hide Code, Statements, SentenceText, WellFormed;
    var after := Code(u, rest, false);
    StatementsAfterWords(Texts(s.words), after.items, []);
    assert (AsItems(Texts(s.words)) + [Semicolon]) + after.items == AsItems(Texts(s.words)) + ([Semicolon] + after.items);
    assert [] + Texts(s.words) == Texts(s.words);
  }

  /** A dump of plainly written statements is read as exactly those statements, whether or not they
      stand in executable comments and their words in backticks, and nothing else. */
  lemma {:induction false} DumpIsRead(u: Tables, sentences: seq<Sentence>)
    requires Sane(u) && forall i | 0 <= i < |sentences| :: WellFormed(u, sentences[i])
    ensures var t := Code(u, DumpText(sentences), false);
            t.ending == Complete && Statements(t.items, []) == WordsOf(sentences) + [[]]
    decreases |sentences|
  {
    hide Sane, WellFormed, SentenceText;
    if sentences != [] {
      SentenceThenRest(u, sentences[0], DumpText(sentences[1..]));
      DumpIsRead(u, sentences[1..]);
      hide Code, Statements;
      assert [Texts(sentences[0].words)] + (WordsOf(sentences[1..]) + [[]]) == WordsOf(sentences) + [[]];
    }
  }
}
