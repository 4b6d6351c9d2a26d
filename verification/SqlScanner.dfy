/**
 `inspect_mariadb_restore_artifact` in the source's own form: nested loops over lines and
 characters that update the mode, the flags and the collected tokens in place.
 */
module SqlScanner {
  import opened Common
  import opened PythonText
  import opened SqlPolicy
  import opened SqlLexer
  import opened SqlLines

  class Scanner {
    const u: Tables
    var mode: Mode
    var quoteReturnMode: Mode
    var executablePrefix: bool
    var tokenChars: string
    var statementTokens: seq<string>
    var objectNames: seq<string>

    constructor (u: Tables)
      ensures this.u == u && State() == Start
    {
      this.u := u;
      mode, quoteReturnMode, executablePrefix := Default, Default, false;
      tokenChars, statementTokens, objectNames := "", [], [];
    }

    ghost function State(): Lexer
      reads this
    {
      Lexer(mode, quoteReturnMode, executablePrefix, tokenChars, statementTokens, objectNames)
    }

    method FlushToken()
      modifies `tokenChars, `statementTokens
      ensures State() == old(State()).Flushed()
    {
      if tokenChars != "" {
        statementTokens := statementTokens + [tokenChars];
        tokenChars := "";
      }
    }

    /** Inspects the statement collected so far and starts the next one. */
    method FinishStatement() returns (error: Option<Error>)
      modifies `tokenChars, `statementTokens, `objectNames
      ensures var f := old(State()).Flushed();
              match InspectStatement(u, f.statement, f.names)
              case Reject(e) => error == Some(e)
              case Accept(names) => error == None && State() == f.(statement := [], names := names)
    {
      FlushToken();
      var verdict := InspectStatement(u, statementTokens, objectNames);
      match verdict {
        case Reject(e) => return Some(e);
        case Accept(names) =>
          objectNames := names;
          statementTokens := [];
          return None;
      }
    }

    /** The branches outside literals and comments that executable comments share with plain text. */
    method OrdinaryCharacter(c: char) returns (error: Option<Error>)
      requires mode == Default || mode == ExecutableComment
      modifies this
      ensures var s := old(State());
              var exec := s.mode.ExecutableComment?;
              if IsQuote(c) then error == None && State() == s.Flushed().(returnTo := s.mode, mode := Quoted(c, exec))
              else if c == ';' then
                (match SqlLexer.FinishStatement(u, s)
                 case Fail(e) => error == Some(e)
                 case Advance(_, next) => error == None && State() == next)
              else error == None
                   && State() == if IsSeparator(u, c) then s.Flushed() else s.(token := s.token + [c])
    {
      error := None;
      if IsQuote(c) {
        FlushToken();
        quoteReturnMode := mode;
        mode := Quoted(c, mode == ExecutableComment);
      } else if c == ';' {
        error := FinishStatement();
      } else if IsSeparator(u, c) {
        FlushToken();
      } else {
        tokenChars := tokenChars + [c];
      }
    }

    /** One turn of the inner loop; returns how far it moves. */
    method Advance(line: string, index: nat) returns (count: nat, error: Option<Error>)
      requires index < |line|
      modifies this
      ensures match Step(u, line[index..], old(State()))
              case Fail(e) => error == Some(e)
              case Advance(n, next) => error == None && count == n && State() == next
    {
      var c := line[index];
      var next := At(line, index + 1);
      ghost var rest := line[index..];
      assert rest[0] == c && At(rest, 1) == next && At(rest, 2) == At(line, index + 2);
      count, error := 1, None;
      match mode {
        case LineComment =>
          count := |line| - index;
        case SingleQuote(_) =>
          if c == '\\' && next.Some? { count := 2; } else if c == '\'' { mode := quoteReturnMode; }
        case DoubleQuote(_) =>
          if c == '\\' && next.Some? { count := 2; } else if c == '"' { mode := quoteReturnMode; }
        case Backtick(_) =>
          if c == '`' {
            FlushToken();
            mode := quoteReturnMode;
          } else {
            tokenChars := tokenChars + [c];
          }
        case BlockComment =>
          if c == '*' && next == Some('/') { mode, count := Default, 2; }
        case ExecutableComment =>
          if (c == '/' && next == Some('*')) || c == '#' || (c == '-' && next == Some('-')) {
            error := Some(AmbiguousComment);
          } else if c == '*' && next == Some('/') {
            FlushToken();
            mode, count := Default, 2;
          } else if !(executablePrefix && (u.digit(c) || u.space(c))) {
            executablePrefix := false;
            error := OrdinaryCharacter(c);
          }
        case Default =>
          if c == '-' && next == Some('-') {
            FlushToken();
            mode, count := LineComment, 2;
          } else if c == '#' {
            FlushToken();
            mode := LineComment;
          } else if c == '/' && next == Some('*') {
            FlushToken();
            if At(line, index + 2) == Some('!') {
              mode, executablePrefix, count := ExecutableComment, true, 3;
            } else {
              mode, count := BlockComment, 2;
            }
          } else {
            error := OrdinaryCharacter(c);
          }
      }
    }

    /** The inner loop over one decoded line, and what follows it. */
    method ScanLine(line: string) returns (error: Option<Error>)
      modifies this
      ensures match ScanRest(u, line, old(State()))
              case Stopped(e) => error == Some(e)
              case Scanned(s) => error == None && State() == EndLine(s)
    {
      var index := 0;
      assert line[0..] == line;
      while index < |line|
        invariant index <= |line|
        invariant ScanRest(u, line, old(State())) == ScanRest(u, line[index..], State())
      {
        hide Step, EndLine;
        ghost var rest, before := line[index..], State();
        assert ScanRest(u, rest, before) ==
               match Step(u, rest, before) { case Fail(e) => Stopped(e) case Advance(n, next) => ScanRest(u, rest[n..], next) };
        hide ScanRest;
        var count;
        count, error := Advance(line, index);
        if error.Some? { return; }
        assert rest[count..] == line[index + count..];
        index := index + count;
      }
      if mode == LineComment { mode := Default; }
      if mode == Default || mode == ExecutableComment { FlushToken(); }
      error := None;
    }

    /** The inspection of a dump, from the first line to the end of the file. */
    method Inspect(text: string, expectedSize: nat) returns (v: Verdict)
      requires State() == Start
      modifies this
      ensures v == SqlLines.Inspect(u, text, expectedSize)
    {
      var total: nat := 0;
      var unread := text;
      while unread != ""
        invariant SqlLines.Inspect(u, text, expectedSize) == InspectLines(u, Lines(unread), total, expectedSize, State())
        decreases |unread|
      {
        hide ScanRest, LineEnd, StripBom, LineFits, EndLine;
        var n := LineEnd(unread);
        var line := unread[..n];
        assert Lines(unread) == [line] + Lines(unread[n..]);
        total := total + ReadLength(u, line);
        if total > expectedSize { return Reject(SizeChanged); }
        if !LineFits(u, line) { return Reject(OversizedLine); }
        var error := ScanLine(StripBom(line));
        if error.Some? { return Reject(error.value); }
        unread := unread[n..];
      }
      if total != expectedSize { return Reject(SizeChanged); }
      if mode != Default { return Reject(Truncated); }
      if statementTokens != [] {
        var error := FinishStatement();
        if error.Some? { return Reject(error.value); }
      }
      return Accept(objectNames);
    }
  }
}
