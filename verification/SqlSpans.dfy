/** What can stand inside literals and comments, and which texts do not end well. */
module SqlSpans {
  import opened Common
  import opened PythonText
  import opened SqlPolicy
  import opened SqlLexer
  import opened SqlTokenizer
  import opened SqlGuarantees

  // ----- Bodies -----

  /** How many backslashes stand right before position `i`. */
  function Backslashes(s: string, i: nat): nat
    requires i <= |s|
  {
    if i == 0 || s[i - 1] != '\\' then 0 else 1 + Backslashes(s, i - 1)
  }

  /** Every quote inside is escaped, and what follows the text is not. */
  predicate Enclosed(body: string, quote: char) {
    && (forall i | 0 <= i < |body| && body[i] == quote :: Backslashes(body, i) % 2 == 1)
    && Backslashes(body, |body|) % 2 == 0
  }

  lemma {:induction false} BackslashesShift(s: string, k: nat, i: nat)
    requires k <= i <= |s| && (k == 0 || Backslashes(s, k) % 2 == 0)
    ensures Backslashes(s[k..], i - k) % 2 == Backslashes(s, i) % 2
    decreases i
  {
    if i > k && s[i - 1] == '\\' {
      BackslashesShift(s, k, i - 1);
      assert s[k..][i - k - 1] == s[i - 1];
    } else if i > k {
      assert s[k..][i - k - 1] == s[i - 1];
    }
  }

  /** Past an unescaped character or an escaped pair the rest is enclosed alike. */
  lemma EnclosedRest(body: string, quote: char, k: nat)
    requires k <= |body| && Backslashes(body, k) % 2 == 0
    requires forall i | 0 <= i < k && body[i] == quote :: Backslashes(body, i) % 2 == 1
    ensures Enclosed(body, quote) <==> Enclosed(body[k..], quote)
  {
    hide Backslashes;
    var rest := body[k..];
    BackslashesShift(body, k, |body|);
    if Enclosed(body, quote) {
      forall i | 0 <= i < |rest| && rest[i] == quote ensures Backslashes(rest, i) % 2 == 1 {
        assert rest[i] == body[i + k];
        BackslashesShift(body, k, i + k);
      }
    }
    if Enclosed(rest, quote) {
      forall i | 0 <= i < |body| && body[i] == quote ensures Backslashes(body, i) % 2 == 1 {
        if i >= k {
          assert rest[i - k] == body[i];
          BackslashesShift(body, k, i);
        }
      }
    }
  }

  /** A text can stand between two quotes exactly when the quotes in it are escaped and its end is not. */
  lemma {:induction false} EnclosedBodies(body: string, quote: char)
    requires quote != '\\'
    ensures LiteralBody(body, quote) <==> Enclosed(body, quote)
    decreases |body|
  {
    var text := body + [quote];
    if body == "" {
      assert text[0] == quote && !(text[0] == '\\');
    } else if body[0] == '\\' {
      if |body| == 1 {
        assert text[0] == '\\' && text[1] == quote && text[2..] == "";
        assert Backslashes(body, 1) == 1 + Backslashes(body, 0);
      } else {
        assert text[2..] == body[2..] + [quote];
        EnclosedBodies(body[2..], quote);
        assert Backslashes(body, 1) == 1;
        assert Backslashes(body, 2) % 2 == 0;
        EnclosedRest(body, quote, 2);
      }
    } else if body[0] == quote {
      assert Backslashes(body, 0) == 0;
    } else {
      assert text[1..] == body[1..] + [quote];
      EnclosedBodies(body[1..], quote);
      EnclosedRest(body, quote, 1);
    }
  }

  /** A text can stand in an ordinary block comment exactly when it neither holds the comment's end nor
      begins with an exclamation mark. */
  lemma CommentBodies(body: string)
    ensures CommentBody(body) <==> !Contains(body, "*/") && !(body != "" && body[0] == '!')
  {
    FirstEnd(body);
  }

  lemma {:induction false} FirstEnd(body: string)
    ensures CommentEnd(body + "*/") == Some(|body| + 2) <==> !Contains(body, "*/")
    decreases |body|
  {
    var text := body + "*/";
    if body == "" {
      assert text == "*/" && text[0] == '*' && text[1] == '/';
      assert !Contains(body, "*/");
    } else {
      assert text[1..] == body[1..] + "*/";
      assert text[0] == body[0] && text[1] == (if |body| > 1 then body[1] else '*');
      FirstEnd(body[1..]);
      EndLater(body);
      EndExists(body[1..]);
    }
  }

  lemma {:induction false} EndExists(body: string)
    ensures CommentEnd(body + "*/").Some?
    decreases |body|
  {
    if body != "" {
      assert (body + "*/")[1..] == body[1..] + "*/";
      EndExists(body[1..]);
    } else {
      assert ("" + "*/")[0] == '*' && ("" + "*/")[1] == '/';
    }
  }

  lemma EndLater(body: string)
    requires body != ""
    ensures Contains(body, "*/") <==> (|body| > 1 && body[0] == '*' && body[1] == '/') || Contains(body[1..], "*/")
  {
    if i :| 0 <= i <= |body| && OccursAt(body, "*/", i) {
      if i == 0 {
        assert body[0..2][0] == body[0] && body[0..2][1] == body[1];
      } else {
        assert body[1..][i - 1..i - 1 + 2] == body[i..i + 2];
        assert OccursAt(body[1..], "*/", i - 1);
      }
    }
    if i :| 0 <= i <= |body[1..]| && OccursAt(body[1..], "*/", i) {
      assert body[1..][i..i + 2] == body[i + 1..i + 1 + 2];
      assert OccursAt(body, "*/", i + 1);
    }
    if |body| > 1 && body[0] == '*' && body[1] == '/' {
      assert body[0..0 + 2] == "*/";
      assert OccursAt(body, "*/", 0);
    }
  }

  // ----- Texts that do not end well -----

  /** Where a text stops making sense, after words outside or inside an executable comment. */
  datatype Flaw = Comment(opener: string) | Unclosed(quote: char) | UnclosedTick | UnclosedComment

  predicate Flawed(flaw: Flaw, exec: bool, tail: string) {
    match flaw
    case Comment(opener) => exec && opener in {"--", "#", "/*"} && opener <= tail
    case Unclosed(quote) =>
      (quote == '\'' || quote == '"') && tail != "" && tail[0] == quote && AllEscaped(tail[1..], quote)
    case UnclosedTick => tail != "" && tail[0] == '`' && '`' !in tail[1..]
    case UnclosedComment => if exec then tail == "" else "/*" <= tail && !("/*!" <= tail) && !Contains(tail[2..], "*/")
  }

  predicate AllEscaped(s: string, quote: char) {
    forall i | 0 <= i < |s| && s[i] == quote :: Backslashes(s, i) % 2 == 1
  }

  lemma EscapedRest(s: string, quote: char, k: nat)
    requires k <= |s| && Backslashes(s, k) % 2 == 0 && AllEscaped(s, quote)
    ensures AllEscaped(s[k..], quote)
  {
    hide Backslashes;
    forall i | 0 <= i < |s[k..]| && s[k..][i] == quote ensures Backslashes(s[k..], i) % 2 == 1 {
      assert s[k..][i] == s[i + k];
      BackslashesShift(s, k, i + k);
    }
  }

  lemma {:induction false} NeverCloses(s: string, quote: char)
    requires quote != '\\' && AllEscaped(s, quote)
    ensures LiteralEnd(s, quote).None?
    decreases |s|
  {
    if s != "" {
      assert Backslashes(s, 0) == 0;
      if s[0] == '\\' && |s| > 1 {
        assert Backslashes(s, 1) == 1;
        assert Backslashes(s, 2) % 2 == 0;
        EscapedRest(s, quote, 2);
        NeverCloses(s[2..], quote);
      } else if |s| > 1 {
        EscapedRest(s, quote, 1);
        NeverCloses(s[1..], quote);
      }
    }
  }

  lemma {:induction false} NoTick(s: string)
    requires '`' !in s
    ensures IdentifierEnd(s).None?
    decreases |s|
  {
    if s != "" {
      assert s[0] in s && forall c | c in s[1..] :: c in s;
      NoTick(s[1..]);
    }
  }

  lemma {:induction false} NoCommentEnd(s: string)
    requires !Contains(s, "*/")
    ensures CommentEnd(s).None?
    decreases |s|
  {
    if s != "" {
      EndLater(s);
      NoCommentEnd(s[1..]);
    }
  }

  /** A comment inside an executable comment is ambiguous; a literal, a name in backticks or a comment
      that is not closed cuts the text off. */
  lemma FlawEnds(u: Tables, flaw: Flaw, exec: bool, tail: string)
    requires Sane(u) && Flawed(flaw, exec, tail)
    ensures Code(u, tail, exec) == Text([], if flaw.Comment? then Ambiguous else Cut)
  {
    match flaw {
      case Comment(opener) =>
        assert tail[0] == opener[0];
        if opener != "#" { assert tail[1] == opener[1]; }
      case Unclosed(quote) => NeverCloses(tail[1..], quote);
      case UnclosedTick => NoTick(tail[1..]);
      case UnclosedComment =>
        if !exec {
          assert tail[0] == '/' && tail[1] == '*';
          assert |tail| > 2 ==> tail[..3] == [tail[0], tail[1], tail[2]];
          assert At(tail, 2) != Some('!');
          NoCommentEnd(tail[2..]);
        }
    }
  }
}
