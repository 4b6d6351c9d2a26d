/**
 The scanner's state machine: ten modes, a return mode, the executable-comment prefix flag,
 and the token, statement and names collected so far.  `Step` is one turn of the inner loop
 on the text that remains of the current line.
 */
module SqlLexer {
  import opened Common
  import opened PythonText
  import opened SqlPolicy

  datatype Mode =
    | Default | LineComment | BlockComment | ExecutableComment
    | SingleQuote(exec: bool) | DoubleQuote(exec: bool) | Backtick(exec: bool)

  datatype Lexer = Lexer(
    mode: Mode, returnTo: Mode, prefix: bool,
    token: string, statement: seq<string>, names: seq<string>)
  {
    /** `flush_token`. */
    function Flushed(): Lexer {
      if token == "" then this else this.(token := "", statement := statement + [token])
    }
  }

  const Start := Lexer(Default, Default, false, "", [], [])

  datatype Turn = Advance(count: nat, lexer: Lexer) | Fail(error: Error)

  /** `finish_statement`, then one character further. */
  function FinishStatement(u: Tables, s: Lexer): Turn {
    var f := s.Flushed();
    match InspectStatement(u, f.statement, f.names)
    case Reject(e) => Fail(e)
    case Accept(names) => Advance(1, f.(statement := [], names := names))
  }

  predicate IsQuote(c: char) { c == '\'' || c == '"' || c == '`' }

  predicate IsSeparator(u: Tables, c: char) { u.space(c) || c in {',', '(', ')'} }

  function Quoted(c: char, exec: bool): Mode {
    if c == '\'' then SingleQuote(exec) else if c == '"' then DoubleQuote(exec) else Backtick(exec)
  }

  function At(rest: string, k: nat): Option<char> {
    if k < |rest| then Some(rest[k]) else None
  }

  function LiteralTurn(rest: string, s: Lexer, quote: char): Turn
    requires rest != ""
  {
    if rest[0] == '\\' && |rest| > 1 then Advance(2, s)
    else Advance(1, if rest[0] == quote then s.(mode := s.returnTo) else s)
  }

  function BacktickTurn(rest: string, s: Lexer): Turn
    requires rest != ""
  {
    Advance(1, if rest[0] == '`' then s.Flushed().(mode := s.returnTo) else s.(token := s.token + [rest[0]]))
  }

  function ExecutableTurn(u: Tables, rest: string, s: Lexer): Turn
    requires rest != ""
  {
    var c, next := rest[0], At(rest, 1);
    if (c == '/' && next == Some('*')) || c == '#' then Fail(AmbiguousComment)
    else if c == '-' && next == Some('-') then Fail(AmbiguousComment)
    else if c == '*' && next == Some('/') then Advance(2, s.Flushed().(mode := Default))
    else if s.prefix && (u.digit(c) || u.space(c)) then Advance(1, s)
    else
      var p := s.(prefix := false);
      if IsQuote(c) then Advance(1, p.Flushed().(returnTo := ExecutableComment, mode := Quoted(c, true)))
      else if c == ';' then FinishStatement(u, p)
      else if IsSeparator(u, c) then Advance(1, p.Flushed())
      else Advance(1, p.(token := p.token + [c]))
  }

  function DefaultTurn(u: Tables, rest: string, s: Lexer): Turn
    requires rest != ""
  {
    var c, next := rest[0], At(rest, 1);
    if c == '-' && next == Some('-') then Advance(2, s.Flushed().(mode := LineComment))
    else if c == '#' then Advance(1, s.Flushed().(mode := LineComment))
    else if c == '/' && next == Some('*') then
      if At(rest, 2) == Some('!') then Advance(3, s.Flushed().(mode := ExecutableComment, prefix := true))
      else Advance(2, s.Flushed().(mode := BlockComment))
    else if IsQuote(c) then Advance(1, s.Flushed().(returnTo := Default, mode := Quoted(c, false)))
    else if c == ';' then FinishStatement(u, s)
    else if IsSeparator(u, c) then Advance(1, s.Flushed())
    else Advance(1, s.(token := s.token + [c]))
  }

  /** The position just past the current line. */
  function LineEnd(rest: string): (n: nat)
    ensures n <= |rest| && (rest != "" ==> n > 0)
  {
    if rest == "" then 0 else if rest[0] == '\n' then 1 else 1 + LineEnd(rest[1..])
  }

  /** One turn of the inner loop; `rest` is what remains of the line. */
  function Step(u: Tables, rest: string, s: Lexer): (t: Turn)
    requires rest != ""
    ensures t.Advance? ==> 0 < t.count <= |rest|
  {
    match s.mode
    case LineComment => Advance(|rest|, s)
    case SingleQuote(_) => LiteralTurn(rest, s, '\'')
    case DoubleQuote(_) => LiteralTurn(rest, s, '"')
    case Backtick(_) => BacktickTurn(rest, s)
    case BlockComment =>
      if rest[0] == '*' && At(rest, 1) == Some('/') then Advance(2, s.(mode := Default)) else Advance(1, s)
    case ExecutableComment => ExecutableTurn(u, rest, s)
    case Default => DefaultTurn(u, rest, s)
  }

  datatype Scan = Scanned(lexer: Lexer) | Stopped(error: Error)

  /** The inner loop over one line. */
  function ScanRest(u: Tables, rest: string, s: Lexer): Scan
    decreases |rest|
  {
    if rest == "" then Scanned(s)
    else match Step(u, rest, s)
      case Fail(e) => Stopped(e)
      case Advance(n, next) => ScanRest(u, rest[n..], next)
  }

  /** What happens at the end of every line. */
  function EndLine(s: Lexer): Lexer {
    var t := if s.mode == LineComment then s.(mode := Default) else s;
    if t.mode == Default || t.mode == ExecutableComment then t.Flushed() else t
  }

  function ScanLines(u: Tables, lines: seq<string>, s: Lexer): Scan {
    if lines == [] then Scanned(s)
    else match ScanRest(u, lines[0], s)
      case Stopped(e) => Stopped(e)
      case Scanned(t) => ScanLines(u, lines[1..], EndLine(t))
  }

  /** What happens at the end of the file. */
  function Conclude(u: Tables, s: Lexer): Verdict {
    if s.mode != Default then Reject(Truncated)
    else if s.statement == [] then Accept(s.names)
    else InspectStatement(u, s.Flushed().statement, s.names)
  }

  function VerdictOf(u: Tables, scan: Scan): Verdict {
    match scan
    case Stopped(e) => Reject(e)
    case Scanned(s) => Conclude(u, s)
  }
}
