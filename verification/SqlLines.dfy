/**
 Reading a dump line by line: limits on line and file size, byte order marks, and the proof
 that where the lines break does not matter.
 */
module SqlLines {
  import opened Common
  import opened PythonText
  import opened SqlPolicy
  import opened SqlLexer
  import opened SqlTokenizer

  const MAX_LINE := 8192
  const BOM := '\U{FEFF}'

  // ----- Lines -----

  function Lines(text: string): seq<string>
    decreases |text|
  {
    if text == "" then [] else [text[..LineEnd(text)]] + Lines(text[LineEnd(text)..])
  }

  /** The line without the byte order marks it begins with. */
  function StripBom(line: string): string {
    if line != "" && line[0] == BOM then StripBom(line[1..]) else line
  }

  function Decoded(lines: seq<string>): seq<string> {
    if lines == [] then [] else [StripBom(lines[0])] + Decoded(lines[1..])
  }

  function Flatten(lines: seq<string>): string {
    if lines == [] then "" else lines[0] + Flatten(lines[1..])
  }

  function Bytes(u: Tables, s: string): nat {
    if s == "" then 0 else u.width(s[0]) + Bytes(u, s[1..])
  }

  predicate EndsLine(line: string) { line != "" && line[|line| - 1] == '\n' }

  /** What one `readline(MAX_LINE + 1)` returns of a line, in bytes. */
  function ReadLength(u: Tables, line: string): nat { Min(Bytes(u, line), MAX_LINE + 1) }

  predicate LineFits(u: Tables, line: string) {
    Bytes(u, line) <= MAX_LINE || (Bytes(u, line) == MAX_LINE + 1 && EndsLine(line))
  }

  /** `inspect_mariadb_restore_artifact` on the lines not yet read. */
  function InspectLines(u: Tables, lines: seq<string>, total: nat, expected: nat, s: Lexer): Verdict {
    if lines == [] then
      if total != expected then Reject(SizeChanged) else Conclude(u, s)
    else
      var n := ReadLength(u, lines[0]);
      if total + n > expected then Reject(SizeChanged)
      else if !LineFits(u, lines[0]) then Reject(OversizedLine)
      else match ScanRest(u, StripBom(lines[0]), s)
        case Stopped(e) => Reject(e)
        case Scanned(t) => InspectLines(u, lines[1..], total + n, expected, EndLine(t))
  }

  /** The inspection of a whole dump. */
  function Inspect(u: Tables, text: string, expected: nat): Verdict {
    InspectLines(u, Lines(text), 0, expected, Start)
  }

  // ----- Limits -----

  predicate LinesFit(u: Tables, lines: seq<string>) {
    forall i | 0 <= i < |lines| :: LineFits(u, lines[i])
  }

  function TotalBytes(u: Tables, lines: seq<string>): nat {
    if lines == [] then 0 else Bytes(u, lines[0]) + TotalBytes(u, lines[1..])
  }

  /** The limits reject, and only the limits come between the dump and the machine. */
  lemma {:induction false} LimitsDecide(u: Tables, lines: seq<string>, total: nat, expected: nat, s: Lexer)
    ensures var v := InspectLines(u, lines, total, expected, s);
            if LinesFit(u, lines) && total + TotalBytes(u, lines) == expected
            then v == VerdictOf(u, ScanLines(u, Decoded(lines), s))
            else v.Reject?
    decreases |lines|
  {
    if lines != [] {
      var n := ReadLength(u, lines[0]);
      assert LinesFit(u, lines) <==> LineFits(u, lines[0]) && LinesFit(u, lines[1..]) by {
        assert forall i | 0 <= i < |lines[1..]| :: lines[1..][i] == lines[i + 1];
        assert forall i | 0 < i < |lines| :: lines[i] == lines[1..][i - 1];
      }
      var scan := ScanRest(u, StripBom(lines[0]), s);
      if total + n <= expected && LineFits(u, lines[0]) && scan.Scanned? {
        LimitsDecide(u, lines[1..], total + n, expected, EndLine(scan.lexer));
      }
    }
  }

  // ----- Lines do not matter -----

  /** A line feed at the end of the text and nowhere else. */
  predicate Terminated(line: string) {
    EndsLine(line) && forall i | 0 <= i < |line| - 1 :: line[i] != '\n'
  }

  /** Every line but the last is terminated; the last may be cut off. */
  predicate ProperLines(lines: seq<string>) {
    forall i | 0 <= i < |lines| ::
      Terminated(lines[i]) || (i == |lines| - 1 && forall k | 0 <= k < |lines[i]| :: lines[i][k] != '\n')
  }

  /** No token is being collected in a literal, a line comment or a version prefix. */
  predicate Tidy(s: Lexer) {
    && (s.mode == LineComment || s.mode.SingleQuote? || s.mode.DoubleQuote? ==> s.token == "")
    && (s.mode == ExecutableComment && s.prefix ==> s.token == "")
  }

  lemma StepKeepsTidy(u: Tables, rest: string, s: Lexer)
    requires rest != "" && Tidy(s)
    ensures var t := Step(u, rest, s); t.Advance? ==> Tidy(t.lexer)
  {
  }

  lemma LineEndOfTerminated(rest: string, more: string)
    requires Terminated(rest)
    ensures LineEnd(rest + more) == |rest|
    decreases |rest|
  {
    if |rest| > 1 {
      assert (rest + more)[1..] == rest[1..] + more;
      assert rest[1..][|rest| - 2] == '\n';
      LineEndOfTerminated(rest[1..], more);
    }
  }

  /** On a terminated line no turn looks past the line. */
  lemma StepIsLocal(u: Tables, rest: string, more: string, s: Lexer)
    requires Terminated(rest) && s.mode != LineComment
    ensures Step(u, rest + more, s) == Step(u, rest, s)
  {
    assert (rest + more)[0] == rest[0];
    assert |rest| > 1 ==> (rest + more)[1] == rest[1];
    assert |rest| > 2 ==> (rest + more)[2] == rest[2];
    assert |rest| <= 2 ==> rest[|rest| - 1] == '\n';
  }

  /** The turn that consumes the line feed leaves nothing for the end of the line to do. */
  lemma LastTurnCloses(u: Tables, rest: string, s: Lexer)
    requires Sane(u) && Terminated(rest) && Tidy(s) && s.mode != LineComment
    ensures var t := Step(u, rest, s); t.Advance? && t.count == |rest| ==> EndLine(t.lexer) == t.lexer
  {
    assert |rest| == 1 ==> rest[0] == '\n';
    assert |rest| == 2 ==> rest[1] == '\n';
    assert |rest| == 3 ==> rest[2] == '\n';
    assert u.space('\n');
  }

  lemma TailOfTerminated(rest: string, n: nat)
    requires Terminated(rest) && n < |rest|
    ensures Terminated(rest[n..])
  {
  }

  lemma {:induction false} LineThenRest(u: Tables, rest: string, more: string, s: Lexer)
    requires Sane(u) && Terminated(rest) && Tidy(s)
    ensures ScanWhole(u, rest + more, s) ==
              match ScanRest(u, rest, s)
              case Stopped(e) => Stopped(e)
              case Scanned(t) => ScanWhole(u, more, EndLine(t))
    ensures var scan := ScanRest(u, rest, s); scan.Scanned? ==> Tidy(EndLine(scan.lexer)) && EndLine(EndLine(scan.lexer)) == EndLine(scan.lexer)
    decreases |rest|
  {
    if s.mode == LineComment {
      LineEndOfTerminated(rest, more);
      assert (rest + more)[|rest|..] == more;
      assert ScanRest(u, rest[|rest|..], s) == Scanned(s);
    } else {
      var t := Step(u, rest, s);
      StepIsLocal(u, rest, more, s);
      StepKeepsTidy(u, rest, s);
      LastTurnCloses(u, rest, s);
      hide Step, Sane;
      if t.Advance? {
        assert (rest + more)[t.count..] == rest[t.count..] + more;
        if t.count < |rest| {
          TailOfTerminated(rest, t.count);
          LineThenRest(u, rest[t.count..], more, t.lexer);
        } else {
          assert rest[t.count..] == "" && "" + more == more;
        }
      }
    }
  }

  lemma {:induction false} LastLine(u: Tables, rest: string, s: Lexer)
    requires Tidy(s) && forall k | 0 <= k < |rest| :: rest[k] != '\n'
    ensures Closed(ScanWhole(u, rest, s)) == Closed(ScanRest(u, rest, s))
    decreases |rest|
  {
    if rest != "" {
      if s.mode == LineComment {
        NoLineFeed(rest);
        assert rest[|rest|..] == "";
      } else {
        var t := Step(u, rest, s);
        StepKeepsTidy(u, rest, s);
        hide Step;
        if t.Advance? { LastLine(u, rest[t.count..], t.lexer); }
      }
    }
  }

  lemma {:induction false} NoLineFeed(rest: string)
    requires forall k | 0 <= k < |rest| :: rest[k] != '\n'
    ensures LineEnd(rest) == |rest|
  {
    if rest != "" { NoLineFeed(rest[1..]); }
  }

  /** Scanning line by line is scanning the lines joined. */
  lemma {:induction false} LinesAsOneText(u: Tables, lines: seq<string>, s: Lexer)
    requires Sane(u) && ProperLines(lines) && Tidy(s) && EndLine(s) == s
    ensures ScanLines(u, lines, s) == Closed(ScanWhole(u, Flatten(lines), s))
    decreases |lines|
  {
    if lines != [] {
      var line, rest := lines[0], lines[1..];
      hide Step, WholeStep, EndLine, Tidy, Terminated;
      if Terminated(line) {
        RestIsProper(lines);
        LineThenRest(u, line, Flatten(rest), s);
        var scan := ScanRest(u, line, s);
        if scan.Scanned? { LinesAsOneText(u, rest, EndLine(scan.lexer)); }
      } else {
        assert rest == [] && line + "" == line;
        LastLine(u, line, s);
        var scan := ScanRest(u, line, s);
        if scan.Scanned? { assert ScanLines(u, rest, EndLine(scan.lexer)) == Scanned(EndLine(scan.lexer)); }
      }
    }
  }

  lemma RestIsProper(lines: seq<string>)
    requires ProperLines(lines) && lines != []
    ensures ProperLines(lines[1..])
  {
    hide Terminated;
    forall i | 0 <= i < |lines[1..]|
      ensures Terminated(lines[1..][i])
              || (i == |lines[1..]| - 1 && forall k | 0 <= k < |lines[1..][i]| :: lines[1..][i][k] != '\n')
    {
      assert lines[1..][i] == lines[i + 1];
    }
  }

  // ----- Decoded lines -----

  lemma {:induction false} StripBomKeepsEnd(line: string)
    ensures Terminated(line) ==> Terminated(StripBom(line))
    ensures (forall k | 0 <= k < |line| :: line[k] != '\n') ==>
              forall k | 0 <= k < |StripBom(line)| :: StripBom(line)[k] != '\n'
    decreases |line|
  {
    if line != "" && line[0] == BOM {
      if Terminated(line) {
        assert |line| > 1;
        TailOfTerminated(line, 1);
      }
      StripBomKeepsEnd(line[1..]);
    }
  }

  lemma {:induction false} LineEndSplits(text: string)
    requires text != ""
    ensures var n := LineEnd(text);
            Terminated(text[..n]) || (n == |text| && forall k | 0 <= k < n :: text[..n][k] != '\n')
    decreases |text|
  {
    if text[0] != '\n' && |text| > 1 {
      var n := LineEnd(text[1..]);
      LineEndSplits(text[1..]);
      assert text[..1 + n] == [text[0]] + text[1..][..n];
    }
  }

  lemma {:induction false} DecodedLinesAreProper(text: string)
    ensures ProperLines(Decoded(Lines(text)))
    ensures |Decoded(Lines(text))| == |Lines(text)| && (text == "" <==> Lines(text) == [])
    decreases |text|
  {
    if text != "" {
      var n := LineEnd(text);
      LineEndSplits(text);
      StripBomKeepsEnd(text[..n]);
      DecodedLinesAreProper(text[n..]);
      var first, rest := StripBom(text[..n]), Decoded(Lines(text[n..]));
      assert Lines(text)[1..] == Lines(text[n..]);
      assert Decoded(Lines(text)) == [first] + rest;
      hide Terminated;
      forall i | 0 <= i < |[first] + rest|
        ensures Terminated(([first] + rest)[i])
                || (i == |rest| && forall k | 0 <= k < |([first] + rest)[i]| :: ([first] + rest)[i][k] != '\n')
      {
        if i > 0 { assert ([first] + rest)[i] == rest[i - 1]; }
      }
    }
  }

  /** The text the machine sees: the dump without byte order marks at line starts. */
  function Cleaned(text: string): string { Flatten(Decoded(Lines(text))) }

  lemma {:induction false} CleanedIsText(text: string)
    requires BOM !in text
    ensures Cleaned(text) == text
    decreases |text|
  {
    if text != "" {
      var n := LineEnd(text);
      assert Lines(text) == [text[..n]] + Lines(text[n..]);
      assert StripBom(text[..n]) == text[..n] by { assert text[..n][0] == text[0] && text[0] in text; }
      assert BOM !in text[n..];
      CleanedIsText(text[n..]);
      hide Lines, StripBom, LineEnd;
      assert Decoded(Lines(text)) == [text[..n]] + Decoded(Lines(text[n..]));
      assert text[..n] + text[n..] == text;
    }
  }

  lemma {:induction false} BytesConcat(u: Tables, a: string, b: string)
    ensures Bytes(u, a + b) == Bytes(u, a) + Bytes(u, b)
    decreases |a|
  {
    if a == "" {
      assert a + b == b;
    } else {
      assert (a + b)[1..] == a[1..] + b;
      BytesConcat(u, a[1..], b);
    }
  }

  lemma {:induction false} TotalIsBytes(u: Tables, text: string)
    ensures TotalBytes(u, Lines(text)) == Bytes(u, text)
    decreases |text|
  {
    if text != "" {
      var n := LineEnd(text);
      assert Lines(text)[1..] == Lines(text[n..]);
      TotalIsBytes(u, text[n..]);
      BytesConcat(u, text[..n], text[n..]);
      assert text[..n] + text[n..] == text;
    }
  }

  // ----- The scanner is the tokenizer -----

  predicate WithinLimits(u: Tables, text: string, expected: nat) {
    LinesFit(u, Lines(text)) && Bytes(u, text) == expected
  }

  /** What the recursive tokenizer makes of a whole text. */
  function Reference(u: Tables, text: string): Verdict {
    Judge(u, Code(u, text, false), [], [])
  }

  /** Within the limits the line-by-line scanner and the recursive tokenizer give the same verdict,
      error for error and name for name; outside the limits the scanner rejects. */
  lemma ScannerIsTokenizer(u: Tables, text: string, expected: nat)
    requires Sane(u)
    ensures if WithinLimits(u, text, expected)
            then Inspect(u, text, expected) == Reference(u, Cleaned(text))
            else Inspect(u, text, expected).Reject?
  {
    LimitsDecide(u, Lines(text), 0, expected, Start);
    TotalIsBytes(u, text);
    DecodedLinesAreProper(text);
    hide Step, WholeStep, ScanLines, Judge, Code, InspectLines;
    LinesAsOneText(u, Decoded(Lines(text)), Start);
    MachineJudgesTokens(u, Cleaned(text), Start);
  }
}
