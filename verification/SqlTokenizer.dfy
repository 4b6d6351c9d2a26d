/**
 A recursive tokenizer of SQL text, one function per construct and no modes, and the proof
 that the scanner's line-by-line state machine computes the same verdict.
 */
module SqlTokenizer {
  import opened Common
  import opened PythonText
  import opened SqlPolicy
  import opened SqlLexer

  // ----- Constructs -----

  /** Length of the rest of a quoted literal, closing quote included. */
  function LiteralEnd(rest: string, quote: char): (n: Option<nat>)
    ensures n.Some? ==> 0 < n.value <= |rest|
    decreases |rest|
  {
    if rest == "" then None
    else if rest[0] == '\\' && |rest| > 1 then Later(2, LiteralEnd(rest[2..], quote))
    else if rest[0] == quote then Some(1)
    else Later(1, LiteralEnd(rest[1..], quote))
  }

  /** Length of the rest of a quoted identifier, closing backtick included. */
  function IdentifierEnd(rest: string): (n: Option<nat>)
    ensures n.Some? ==> 0 < n.value <= |rest|
  {
    if rest == "" then None else if rest[0] == '`' then Some(1) else Later(1, IdentifierEnd(rest[1..]))
  }

  /** Length of the rest of a block comment, its end included. */
  function CommentEnd(rest: string): (n: Option<nat>)
    ensures n.Some? ==> 0 < n.value <= |rest|
  {
    if rest == "" then None
    else if rest[0] == '*' && At(rest, 1) == Some('/') then Some(2)
    else Later(1, CommentEnd(rest[1..]))
  }

  function Later(k: nat, n: Option<nat>): Option<nat> {
    match n case None => None case Some(m) => Some(k + m)
  }

  /** Length of the version digits and spaces that open an executable comment. */
  function PrefixEnd(u: Tables, rest: string): (n: nat)
    ensures n <= |rest|
  {
    if rest != "" && (u.digit(rest[0]) || u.space(rest[0])) then 1 + PrefixEnd(u, rest[1..]) else 0
  }

  predicate Opens(rest: string, a: char, b: char) { At(rest, 0) == Some(a) && At(rest, 1) == Some(b) }

  /** The text goes on with a character that belongs to a word. */
  predicate Plain(u: Tables, rest: string, exec: bool) {
    && rest != ""
    && !IsSeparator(u, rest[0]) && !IsQuote(rest[0]) && rest[0] != ';' && rest[0] != '#'
    && !Opens(rest, '-', '-') && !Opens(rest, '/', '*')
    && (exec ==> !Opens(rest, '*', '/'))
  }

  function WordEnd(u: Tables, rest: string, exec: bool): (n: nat)
    ensures n <= |rest| && (Plain(u, rest, exec) ==> n > 0)
  {
    if Plain(u, rest, exec) then 1 + WordEnd(u, rest[1..], exec) else 0
  }

  // ----- The tokenizer -----

  datatype Item = Word(text: string) | Semicolon
  datatype Ending = Complete | Ambiguous | Cut
  datatype Text = Text(items: seq<Item>, ending: Ending)

  function Cons(item: Item, t: Text): Text { Text([item] + t.items, t.ending) }

  function Named(word: string, t: Text): Text { if word == "" then t else Cons(Word(word), t) }

  /** The words and semicolons of the text, outside or inside an executable comment. */
  function Code(u: Tables, rest: string, exec: bool): Text
    decreases |rest|
  {
    if rest == "" then Text([], if exec then Cut else Complete)
    else if Opens(rest, '-', '-') || rest[0] == '#' then
      if exec then Text([], Ambiguous) else Code(u, rest[LineEnd(rest)..], false)
    else if Opens(rest, '/', '*') then
      if exec then Text([], Ambiguous)
      else if At(rest, 2) == Some('!') then
        Code(u, rest[3 + PrefixEnd(u, rest[3..])..], true)
      else
        (match CommentEnd(rest[2..])
         case None => Text([], Cut)
         case Some(n) => Code(u, rest[2 + n..], false))
    else if exec && Opens(rest, '*', '/') then Code(u, rest[2..], false)
    else if rest[0] == '\'' || rest[0] == '"' then
      (match LiteralEnd(rest[1..], rest[0])
       case None => Text([], Cut)
       case Some(n) => Code(u, rest[1 + n..], exec))
    else if rest[0] == '`' then
      (match IdentifierEnd(rest[1..])
       case None => Text([], Cut)
       case Some(n) => Named(rest[1..n], Code(u, rest[1 + n..], exec)))
    else if rest[0] == ';' then Cons(Semicolon, Code(u, rest[1..], exec))
    else if IsSeparator(u, rest[0]) then Code(u, rest[1..], exec)
    else
      var n := WordEnd(u, rest, exec);
      Cons(Word(rest[..n]), Code(u, rest[n..], exec))
  }

  /** Statements are judged in order; the first refusal or malformed end decides. */
  function Judge(u: Tables, t: Text, statement: seq<string>, names: seq<string>): Verdict
    decreases |t.items|, 0
  {
    if t.items == [] then
      match t.ending
      case Ambiguous => Reject(AmbiguousComment)
      case Cut => Reject(Truncated)
      case Complete => InspectStatement(u, statement, names)
    else JudgeItem(u, t.items[0], Text(t.items[1..], t.ending), statement, names)
  }

  function JudgeItem(u: Tables, item: Item, t: Text, statement: seq<string>, names: seq<string>): Verdict
    decreases |t.items|, 1
  {
    if item.Word? then Judge(u, t, statement + [item.text], names)
    else
      var verdict := InspectStatement(u, statement, names);
      if verdict.Reject? then verdict else Judge(u, t, [], verdict.names)
  }

  lemma JudgeCons(u: Tables, item: Item, t: Text, statement: seq<string>, names: seq<string>)
    ensures Judge(u, Cons(item, t), statement, names) == JudgeItem(u, item, t, statement, names)
  {
    assert Text(Cons(item, t).items[1..], t.ending) == t;
  }

  // ----- The state machine over a whole text -----

  /** As `Step`, with a line comment ending at its own line. */
  function WholeStep(u: Tables, rest: string, s: Lexer): (t: Turn)
    requires rest != ""
    ensures t.Advance? ==> 0 < t.count <= |rest|
  {
    if s.mode == LineComment then Advance(LineEnd(rest), s.(mode := Default)) else Step(u, rest, s)
  }

  function ScanWhole(u: Tables, rest: string, s: Lexer): Scan
    decreases |rest|
  {
    if rest == "" then Scanned(s)
    else match WholeStep(u, rest, s)
      case Fail(e) => Stopped(e)
      case Advance(n, next) => ScanWhole(u, rest[n..], next)
  }

  function Closed(scan: Scan): Scan {
    match scan case Stopped(e) => Stopped(e) case Scanned(s) => Scanned(EndLine(s))
  }

  /** The verdict of the state machine started in `s` on the text `rest`. */
  function Outcome(u: Tables, rest: string, s: Lexer): Verdict {
    VerdictOf(u, Closed(ScanWhole(u, rest, s)))
  }

  lemma {:induction false} LiteralRun(u: Tables, rest: string, s: Lexer, quote: char)
    requires (s.mode.SingleQuote? && quote == '\'') || (s.mode.DoubleQuote? && quote == '"')
    ensures ScanWhole(u, rest, s) ==
              match LiteralEnd(rest, quote)
              case None => Scanned(s)
              case Some(n) => ScanWhole(u, rest[n..], s.(mode := s.returnTo))
    decreases |rest|
  {
    if rest != "" {
      if rest[0] == '\\' && |rest| > 1 {
        LiteralRun(u, rest[2..], s, quote);
        if n :| LiteralEnd(rest[2..], quote) == Some(n) { assert rest[2..][n..] == rest[2 + n..]; }
      } else if rest[0] != quote {
        LiteralRun(u, rest[1..], s, quote);
        if n :| LiteralEnd(rest[1..], quote) == Some(n) { assert rest[1..][n..] == rest[1 + n..]; }
      }
    }
  }

  lemma {:induction false} BacktickRun(u: Tables, rest: string, s: Lexer)
    requires s.mode.Backtick?
    ensures match IdentifierEnd(rest)
            case None => ScanWhole(u, rest, s) == Scanned(s.(token := s.token + rest))
            case Some(n) =>
              ScanWhole(u, rest, s) ==
                ScanWhole(u, rest[n..], s.(token := s.token + rest[..n - 1]).Flushed().(mode := s.returnTo))
    decreases |rest|
  {
    hide DefaultTurn, ExecutableTurn, LiteralTurn;
    if rest == "" {
      assert s.token + rest == s.token;
    } else if rest[0] == '`' {
      assert s.token + rest[..0] == s.token;
    } else {
      var t := s.(token := s.token + [rest[0]]);
      assert WholeStep(u, rest, s) == Advance(1, t);
      BacktickRun(u, rest[1..], t);
      hide WholeStep;
      match IdentifierEnd(rest[1..]) {
        case None => assert t.token + rest[1..] == s.token + rest;
        case Some(n) =>
          assert rest[1..][n..] == rest[1 + n..];
          assert t.token + rest[1..][..n - 1] == s.token + rest[..n];
      }
    }
  }

  lemma {:induction false} CommentRun(u: Tables, rest: string, s: Lexer)
    requires s.mode == BlockComment
    ensures ScanWhole(u, rest, s) ==
              match CommentEnd(rest)
              case None => Scanned(s)
              case Some(n) => ScanWhole(u, rest[n..], s.(mode := Default))
    decreases |rest|
  {
    if rest != "" && !(rest[0] == '*' && At(rest, 1) == Some('/')) {
      CommentRun(u, rest[1..], s);
      if n :| CommentEnd(rest[1..]) == Some(n) { assert rest[1..][n..] == rest[1 + n..]; }
    }
  }

  lemma {:induction false} PrefixRun(u: Tables, rest: string, s: Lexer)
    requires Sane(u) && s.mode == ExecutableComment && s.prefix
    ensures ScanWhole(u, rest, s) == ScanWhole(u, rest[PrefixEnd(u, rest)..], s)
    decreases |rest|
  {
    if rest != "" && (u.digit(rest[0]) || u.space(rest[0])) {
      assert rest[0] !in {'/', '*', '#', '-'};
      PrefixRun(u, rest[1..], s);
      assert rest[1..][PrefixEnd(u, rest[1..])..] == rest[PrefixEnd(u, rest)..];
    } else {
      assert rest[0..] == rest;
    }
  }

  lemma PlainStep(u: Tables, rest: string, s: Lexer)
    requires s.mode == Default || (s.mode == ExecutableComment && !s.prefix)
    requires Plain(u, rest, s.mode.ExecutableComment?)
    ensures WholeStep(u, rest, s) == Advance(1, s.(token := s.token + [rest[0]]))
  {
  }

  lemma PlainScan(u: Tables, rest: string, s: Lexer)
    requires s.mode == Default || (s.mode == ExecutableComment && !s.prefix)
    requires Plain(u, rest, s.mode.ExecutableComment?)
    ensures rest != "" && ScanWhole(u, rest, s) == ScanWhole(u, rest[1..], s.(token := s.token + [rest[0]]))
    ensures WordEnd(u, rest, s.mode.ExecutableComment?) == 1 + WordEnd(u, rest[1..], s.mode.ExecutableComment?)
  {
    PlainStep(u, rest, s);
    hide WholeStep;
  }

  /** Collecting a word, outside or inside an executable comment. */
  lemma {:induction false} WordRun(u: Tables, rest: string, s: Lexer)
    requires s.mode == Default || (s.mode == ExecutableComment && !s.prefix)
    ensures var n := WordEnd(u, rest, s.mode.ExecutableComment?);
            ScanWhole(u, rest, s) == ScanWhole(u, rest[n..], s.(token := s.token + rest[..n]))
    decreases |rest|
  {
    hide ScanWhole, Plain;
    var exec := s.mode.ExecutableComment?;
    if Plain(u, rest, exec) {
      PlainScan(u, rest, s);
      var t := s.(token := s.token + [rest[0]]);
      hide WordEnd;
      WordRun(u, rest[1..], t);
      var n := WordEnd(u, rest[1..], exec);
      assert rest[1..][n..] == rest[1 + n..];
      assert t.token + rest[1..][..n] == s.token + rest[..1 + n];
    } else {
      assert rest[0..] == rest && s.token + rest[..0] == s.token;
    }
  }

  /** Where a word ends, its token is flushed whatever comes next. */
  lemma FlushAtBoundary(u: Tables, rest: string, s: Lexer)
    requires Sane(u) && (s.mode == Default || (s.mode == ExecutableComment && !s.prefix))
    requires !Plain(u, rest, s.mode.ExecutableComment?)
    ensures Closed(ScanWhole(u, rest, s)) == Closed(ScanWhole(u, rest, s.Flushed()))
  {
  }

  /** A state between words: nothing collected, and past any version prefix. */
  predicate Ready(u: Tables, rest: string, s: Lexer) {
    && s.token == ""
    && (s.mode == Default || s.mode == ExecutableComment)
    && (s.mode == ExecutableComment && s.prefix && rest != "" ==> !u.digit(rest[0]) && !u.space(rest[0]))
  }

  /** From a state between words the machine judges what the tokenizer reads. */
  lemma {:induction false} MachineJudgesTokens(u: Tables, rest: string, s: Lexer)
    requires Sane(u) && Ready(u, rest, s)
    ensures Outcome(u, rest, s) == Judge(u, Code(u, rest, s.mode.ExecutableComment?), s.statement, s.names)
    decreases |rest|
  {
    var exec := s.mode.ExecutableComment?;
    if rest == "" {
    } else if Opens(rest, '-', '-') || rest[0] == '#' {
      if !exec { LineCommentCase(u, rest, s); }
    } else if Opens(rest, '/', '*') {
      if !exec {
        if At(rest, 2) == Some('!') { ExecutableCase(u, rest, s); } else { BlockCase(u, rest, s); }
      }
    } else if exec && Opens(rest, '*', '/') {
      MachineJudgesTokens(u, rest[2..], s.(mode := Default));
    } else if rest[0] == '\'' || rest[0] == '"' {
      LiteralCase(u, rest, s);
    } else if rest[0] == '`' {
      IdentifierCase(u, rest, s);
    } else if rest[0] == ';' {
      SemicolonCase(u, rest, s);
    } else if IsSeparator(u, rest[0]) {
      MachineJudgesTokens(u, rest[1..], s.(prefix := if exec then false else s.prefix));
    } else {
      WordCase(u, rest, s);
    }
  }

  lemma {:induction false} LineCommentCase(u: Tables, rest: string, s: Lexer)
    requires Sane(u) && Ready(u, rest, s) && s.mode == Default && (Opens(rest, '-', '-') || At(rest, 0) == Some('#'))
    ensures Outcome(u, rest, s) == Judge(u, Code(u, rest, false), s.statement, s.names)
    decreases |rest|, 0
  {
    var k := if rest[0] == '#' then 1 else 2;
    var inside := s.(mode := LineComment);
    assert WholeStep(u, rest, s) == Advance(k, inside);
    assert ScanWhole(u, rest, s) == ScanWhole(u, rest[k..], inside);
    SameLine(rest, k);
    var tail := rest[LineEnd(rest)..];
    assert Code(u, rest, false) == Code(u, tail, false);
    if rest[k..] == "" {
      assert tail == "";
      assert Closed(Scanned(inside)) == Closed(Scanned(s));
    } else {
      assert ScanWhole(u, rest[k..], inside) == ScanWhole(u, tail, s);
    }
    MachineJudgesTokens(u, tail, s);
  }

  lemma SameLine(rest: string, k: nat)
    requires k <= |rest| && (k == 1 || k == 2) && forall i | 0 <= i < k :: rest[i] != '\n'
    ensures LineEnd(rest) == k + LineEnd(rest[k..])
    ensures rest[k..][LineEnd(rest[k..])..] == rest[LineEnd(rest)..]
  {
    if k == 2 { assert rest[1..][1..] == rest[2..]; }
  }

  lemma {:induction false} ExecutableCase(u: Tables, rest: string, s: Lexer)
    requires Sane(u) && Ready(u, rest, s) && s.mode == Default && Opens(rest, '/', '*') && At(rest, 2) == Some('!')
    ensures Outcome(u, rest, s) == Judge(u, Code(u, rest, false), s.statement, s.names)
    decreases |rest|, 0
  {
    var inside := s.(mode := ExecutableComment, prefix := true);
    assert WholeStep(u, rest, s) == Advance(3, inside);
    PrefixRun(u, rest[3..], inside);
    var n := PrefixEnd(u, rest[3..]);
    assert rest[3..][n..] == rest[3 + n..];
    PrefixIsOver(u, rest[3..]);
    MachineJudgesTokens(u, rest[3 + n..], inside);
  }

  lemma {:induction false} PrefixIsOver(u: Tables, rest: string)
    ensures var n := PrefixEnd(u, rest); n < |rest| ==> !u.digit(rest[n]) && !u.space(rest[n])
  {
    if rest != "" && (u.digit(rest[0]) || u.space(rest[0])) {
      PrefixIsOver(u, rest[1..]);
    }
  }

  lemma {:induction false} BlockCase(u: Tables, rest: string, s: Lexer)
    requires Sane(u) && Ready(u, rest, s) && s.mode == Default && Opens(rest, '/', '*') && At(rest, 2) != Some('!')
    ensures Outcome(u, rest, s) == Judge(u, Code(u, rest, false), s.statement, s.names)
    decreases |rest|, 0
  {
    var inside := s.(mode := BlockComment);
    assert WholeStep(u, rest, s) == Advance(2, inside);
    CommentRun(u, rest[2..], inside);
    if n :| CommentEnd(rest[2..]) == Some(n) {
      assert rest[2..][n..] == rest[2 + n..];
      MachineJudgesTokens(u, rest[2 + n..], s);
    }
  }

  lemma {:induction false} LiteralCase(u: Tables, rest: string, s: Lexer)
    requires Sane(u) && Ready(u, rest, s) && rest != "" && (rest[0] == '\'' || rest[0] == '"')
    ensures Outcome(u, rest, s) == Judge(u, Code(u, rest, s.mode.ExecutableComment?), s.statement, s.names)
    decreases |rest|, 0
  {
    var exec := s.mode.ExecutableComment?;
    var inside := s.(prefix := if exec then false else s.prefix, returnTo := s.mode, mode := Quoted(rest[0], exec));
    assert WholeStep(u, rest, s) == Advance(1, inside);
    LiteralRun(u, rest[1..], inside, rest[0]);
    if n :| LiteralEnd(rest[1..], rest[0]) == Some(n) {
      assert rest[1..][n..] == rest[1 + n..];
      MachineJudgesTokens(u, rest[1 + n..], inside.(mode := s.mode));
    }
  }

  lemma IdentifierOpens(u: Tables, rest: string, s: Lexer)
    requires Sane(u) && Ready(u, rest, s) && rest != "" && rest[0] == '`'
    ensures var exec := s.mode.ExecutableComment?;
            var inside := s.(prefix := if exec then false else s.prefix, returnTo := s.mode, mode := Backtick(exec));
            ScanWhole(u, rest, s) == ScanWhole(u, rest[1..], inside)
  {
    var exec := s.mode.ExecutableComment?;
    var inside := s.(prefix := if exec then false else s.prefix, returnTo := s.mode, mode := Backtick(exec));
    assert WholeStep(u, rest, s) == Advance(1, inside);
    hide WholeStep;
  }

  /** Where a quoted identifier leads. */
  lemma IdentifierScan(u: Tables, rest: string, s: Lexer)
    requires Sane(u) && Ready(u, rest, s) && rest != "" && rest[0] == '`'
    ensures match IdentifierEnd(rest[1..])
            case None => Outcome(u, rest, s) == Reject(Truncated)
            case Some(n) =>
              var exec := s.mode.ExecutableComment?;
              var after := s.(prefix := if exec then false else s.prefix, returnTo := s.mode, token := rest[1..n]).Flushed();
              ScanWhole(u, rest, s) == ScanWhole(u, rest[1 + n..], after)
  {
    hide WholeStep, ScanWhole, Sane, IdentifierEnd;
    var exec := s.mode.ExecutableComment?;
    var inside := s.(prefix := if exec then false else s.prefix, returnTo := s.mode, mode := Backtick(exec));
    IdentifierOpens(u, rest, s);
    BacktickRun(u, rest[1..], inside);
    if n :| IdentifierEnd(rest[1..]) == Some(n) {
      assert rest[1..][n..] == rest[1 + n..];
      assert inside.token + rest[1..][..n - 1] == rest[1..n];
      assert inside.(token := rest[1..n]).Flushed().(mode := s.mode)
          == s.(prefix := if exec then false else s.prefix, returnTo := s.mode, token := rest[1..n]).Flushed();
    }
  }

  lemma IdentifierCode(u: Tables, rest: string, exec: bool)
    requires Sane(u) && rest != "" && rest[0] == '`'
    ensures Code(u, rest, exec) ==
              match IdentifierEnd(rest[1..])
              case None => Text([], Cut)
              case Some(n) => Named(rest[1..n], Code(u, rest[1 + n..], exec))
  {
    hide IdentifierEnd;
  }

  lemma NamedJudged(u: Tables, word: string, t: Text, statement: seq<string>, names: seq<string>)
    ensures Judge(u, Named(word, t), statement, names) ==
              Judge(u, t, if word == "" then statement else statement + [word], names)
  {
    JudgeCons(u, Word(word), t, statement, names);
  }

  lemma {:induction false} IdentifierCase(u: Tables, rest: string, s: Lexer)
    requires Sane(u) && Ready(u, rest, s) && rest != "" && rest[0] == '`'
    ensures Outcome(u, rest, s) == Judge(u, Code(u, rest, s.mode.ExecutableComment?), s.statement, s.names)
    decreases |rest|, 0
  {
    var exec := s.mode.ExecutableComment?;
    assert Judge(u, Text([], Cut), s.statement, s.names) == Reject(Truncated);
    hide ScanWhole, Code, Judge, JudgeItem, IdentifierEnd, Sane, Named, Closed, VerdictOf;
    IdentifierScan(u, rest, s);
    IdentifierCode(u, rest, exec);
    if n :| IdentifierEnd(rest[1..]) == Some(n) {
      var after := s.(prefix := if exec then false else s.prefix, returnTo := s.mode, token := rest[1..n]).Flushed();
      MachineJudgesTokens(u, rest[1 + n..], after);
      NamedJudged(u, rest[1..n], Code(u, rest[1 + n..], exec), s.statement, s.names);
    }
  }

  lemma {:induction false} SemicolonCase(u: Tables, rest: string, s: Lexer)
    requires Sane(u) && Ready(u, rest, s) && rest != "" && rest[0] == ';'
    ensures Outcome(u, rest, s) == Judge(u, Code(u, rest, s.mode.ExecutableComment?), s.statement, s.names)
    decreases |rest|, 0
  {
    var exec := s.mode.ExecutableComment?;
    JudgeCons(u, Semicolon, Code(u, rest[1..], exec), s.statement, s.names);
    var verdict := InspectStatement(u, s.statement, s.names);
    if verdict.Accept? {
      var after := s.(prefix := if exec then false else s.prefix, statement := [], names := verdict.names);
      assert WholeStep(u, rest, s) == Advance(1, after);
      MachineJudgesTokens(u, rest[1..], after);
    }
  }

  lemma WordBegins(u: Tables, rest: string, s: Lexer)
    requires Sane(u) && Ready(u, rest, s) && Plain(u, rest, s.mode.ExecutableComment?)
    ensures var exec := s.mode.ExecutableComment?;
            var begun := s.(prefix := if exec then false else s.prefix, token := [rest[0]]);
            ScanWhole(u, rest, s) == ScanWhole(u, rest[1..], begun)
    ensures WordEnd(u, rest, s.mode.ExecutableComment?) == 1 + WordEnd(u, rest[1..], s.mode.ExecutableComment?)
  {
    var exec := s.mode.ExecutableComment?;
    var begun := s.(prefix := if exec then false else s.prefix, token := [rest[0]]);
    assert WholeStep(u, rest, s) == Advance(1, begun);
    hide WholeStep;
  }

  /** Where a word leads. */
  lemma WordScan(u: Tables, rest: string, s: Lexer)
    requires Sane(u) && Ready(u, rest, s) && Plain(u, rest, s.mode.ExecutableComment?)
    ensures var exec := s.mode.ExecutableComment?;
            var n := WordEnd(u, rest, exec);
            var word := s.(prefix := if exec then false else s.prefix, token := rest[..n]);
            ScanWhole(u, rest, s) == ScanWhole(u, rest[n..], word)
  {
    var exec := s.mode.ExecutableComment?;
    var n := WordEnd(u, rest, exec);
    var begun := s.(prefix := if exec then false else s.prefix, token := [rest[0]]);
    WordBegins(u, rest, s);
    hide ScanWhole, Plain, WordEnd, Sane;
    WordRun(u, rest[1..], begun);
    Shifted(rest, n);
    hide Ready;
    assert begun.(token := begun.token + rest[1..][..n - 1]) == s.(prefix := if exec then false else s.prefix, token := rest[..n]);
  }

  lemma Shifted(rest: string, n: nat)
    requires 0 < n <= |rest|
    ensures rest[1..][n - 1..] == rest[n..] && [rest[0]] + rest[1..][..n - 1] == rest[..n]
  {
  }

  lemma WordCode(u: Tables, rest: string, exec: bool)
    requires Plain(u, rest, exec)
    ensures var n := WordEnd(u, rest, exec); Code(u, rest, exec) == Cons(Word(rest[..n]), Code(u, rest[n..], exec))
  {
    hide WordEnd;
  }

  lemma {:induction false} WordCase(u: Tables, rest: string, s: Lexer)
    requires Sane(u) && Ready(u, rest, s) && Plain(u, rest, s.mode.ExecutableComment?)
    ensures Outcome(u, rest, s) == Judge(u, Code(u, rest, s.mode.ExecutableComment?), s.statement, s.names)
    decreases |rest|, 0
  {
    hide ScanWhole, Judge, InspectStatement, Code, Sane;
    var exec := s.mode.ExecutableComment?;
    var n := WordEnd(u, rest, exec);
    var word := s.(prefix := if exec then false else s.prefix, token := rest[..n]);
    WordScan(u, rest, s);
    WordCode(u, rest, exec);
    WordStops(u, rest, exec);
    assert n > 0;
    hide WordEnd, Plain;
    FlushAtBoundary(u, rest[n..], word);
    MachineJudgesTokens(u, rest[n..], word.Flushed());
    JudgeCons(u, Word(rest[..n]), Code(u, rest[n..], exec), s.statement, s.names);
  }

  lemma {:induction false} WordStops(u: Tables, rest: string, exec: bool)
    ensures !Plain(u, rest[WordEnd(u, rest, exec)..], exec)
  {
    if Plain(u, rest, exec) {
      WordStops(u, rest[1..], exec);
      assert rest[1..][WordEnd(u, rest[1..], exec)..] == rest[WordEnd(u, rest, exec)..];
    } else {
      assert rest[0..] == rest;
    }
  }
}
