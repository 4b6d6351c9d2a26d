/** The server recognises what the client generates, exactly when the path can be carried. */
module SshAgreement {
  import opened Common
  import opened PythonText
  import opened SshCommands
  import opened SshPaths

  /** What every Unicode version agrees on. */
  ghost predicate Sane(u: Tables) {
    u.space(' ') && forall c: char | 33 <= c as int < 127 :: !u.space(c)
  }

  // ----- Words -----

  predicate NoGap(s: string) { forall i | 0 <= i < |s| :: s[i] !in " \t\r\n" }

  lemma {:induction false} WordGoesOn(a: string, rest: string, word: string)
    requires NoGap(a)
    ensures Words(a + rest, word) == Words(rest, word + a)
    decreases |a|
  {
    if a == "" {
      assert a + rest == rest && word + a == word;
    } else {
      assert (a + rest)[1..] == a[1..] + rest;
      WordGoesOn(a[1..], rest, word + [a[0]]);
      assert word + [a[0]] + a[1..] == word + a;
    }
  }

  /** Splitting the joined command line gives the arguments back. */
  lemma {:induction false} WordsOfLine(argv: Argv)
    requires forall i | 0 <= i < |argv| :: argv[i] != "" && NoGap(argv[i])
    ensures Words(Line(argv), "") == argv
    decreases |argv|
  {
    if |argv| == 1 {
      WordGoesOn(argv[0], "", "");
      assert argv[0] + "" == argv[0] && "" + argv[0] == argv[0] && argv == [argv[0]];
    } else if argv != [] {
      var rest := " " + Line(argv[1..]);
      assert Line(argv) == argv[0] + rest;
      WordGoesOn(argv[0], rest, "");
      assert "" + argv[0] == argv[0] && rest[1..] == Line(argv[1..]);
      hide NoGap, Line;
      assert forall i | 0 <= i < |argv[1..]| :: argv[1..][i] == argv[i + 1];
      WordsOfLine(argv[1..]);
      assert Words(rest, argv[0]) == [argv[0]] + argv[1..];
    }
  }

  // ----- Characters -----

  lemma HasBadConcat(a: string, b: string)
    ensures HasBad(a + b) <==> HasBad(a) || HasBad(b)
  {
    hide Bad;
    if HasBad(a) { var i :| 0 <= i < |a| && Bad(a[i]); assert (a + b)[i] == a[i]; }
    if HasBad(b) { var i :| 0 <= i < |b| && Bad(b[i]); assert (a + b)[|a| + i] == b[i]; }
  }

  lemma {:induction false} HasBadLine(argv: Argv)
    ensures HasBad(Line(argv)) <==> exists k :: 0 <= k < |argv| && HasBad(argv[k])
    decreases |argv|
  {
    if |argv| > 1 {
      HasBadConcat(argv[0] + " ", Line(argv[1..]));
      HasBadConcat(argv[0], " ");
      HasBadLine(argv[1..]);
      assert !HasBad(" ");
      assert forall k | 0 < k < |argv| :: argv[k] == argv[1..][k - 1];
      assert forall k | 0 <= k < |argv| - 1 :: argv[1..][k] == argv[k + 1];
    }
  }

  /** Printable ASCII without a refused character. */
  predicate Token(s: string) {
    s != "" && forall i | 0 <= i < |s| :: 33 <= s[i] as int < 127 && !Bad(s[i])
  }

  lemma {:induction false} StripKeeps(u: Tables, s: string)
    requires s != "" && !u.space(s[0])
    ensures Strip(u, s) != ""
  {
    StripRightKeeps(u, s);
  }

  lemma {:induction false} StripRightKeeps(u: Tables, s: string)
    requires s != "" && !u.space(s[0])
    ensures StripRight(u, s) != ""
  {
    if |s| > 1 && u.space(s[|s| - 1]) { StripRightKeeps(u, s[..|s| - 1]); }
  }

  /** No quote and no backslash. */
  predicate Unquoted(s: string) { '\'' !in s && '"' !in s && '\\' !in s }

  lemma CleanIsBadWhenQuoted(u: Tables, s: string)
    requires Sane(u) && CleanInput(u, s)
    ensures NoGap(s) && (HasBad(s) <==> !Unquoted(s))
  {
    forall i | 0 <= i < |s| ensures Bad(s[i]) <==> s[i] in QUOTING {
      assert s[i] !in INPUT_FORBIDDEN;
    }
    if !Unquoted(s) {
      var c :| (c == '\'' || c == '"' || c == '\\') && c in s;
      var i :| 0 <= i < |s| && s[i] == c;
      assert Bad(s[i]);
    }
  }

  /** A command of plain arguments and one checked argument at the end. */
  lemma Delivery(u: Tables, argv: Argv, p: Profile, inside: string -> bool)
    requires Sane(u) && |argv| >= 2
    requires forall i | 0 <= i < |argv| - 1 :: Token(argv[i])
    requires argv[|argv| - 1] != "" && CleanInput(u, argv[|argv| - 1])
    ensures Recognise(u, Line(argv), p, inside) ==
              if Unquoted(argv[|argv| - 1]) && Allowlisted(u, argv, p, inside) then Some(argv) else None
  {
    hide Allowlisted, CleanInput, Token, NoGap, Words, Line, Strip, Unquoted, HasBad;
    var last := |argv| - 1;
    CleanIsBadWhenQuoted(u, argv[last]);
    forall i | 0 <= i < last ensures argv[i] != "" && NoGap(argv[i]) && !HasBad(argv[i]) { PlainToken(argv[i]); }
    HasBadLine(argv);
    WordsOfLine(argv);
    LineNotBlank(u, argv);
  }

  lemma LineNotBlank(u: Tables, argv: Argv)
    requires Sane(u) && argv != [] && Token(argv[0])
    ensures Strip(u, Line(argv)) != ""
  {
    hide Bad;
    assert Line(argv)[0] == argv[0][0];
    assert !u.space(argv[0][0]);
    StripKeeps(u, Line(argv));
  }

  lemma PlainToken(s: string)
    requires Token(s)
    ensures s != "" && NoGap(s) && !HasBad(s)
  {
    hide Bad;
  }

  /** The characters of the fixed arguments. */
  predicate Safe(c: char) {
    'a' <= c <= 'z' || 'A' <= c <= 'Z' || '0' <= c <= '9' || c in {'-', '_', '=', '%', ':', ',', '.', '/'}
  }

  lemma SafeIsNotBad(c: char)
    ensures Safe(c) ==> 33 <= c as int < 127 && !Bad(c)
  {
  }

  lemma SafeIsToken(s: string)
    requires s != "" && forall i | 0 <= i < |s| :: Safe(s[i])
    ensures Token(s)
  {
    hide Bad, Safe;
    forall i | 0 <= i < |s| ensures 33 <= s[i] as int < 127 && !Bad(s[i]) { SafeIsNotBad(s[i]); }
  }

  predicate AllTokens(argv: Argv) { forall i | 0 <= i < |argv| :: Token(argv[i]) }

  lemma TokenConcat(a: string, b: string)
    requires Token(a) && Token(b)
    ensures Token(a + b)
  {
    hide Bad;
  }

  lemma PathPrograms()
    ensures AllTokens(["realpath", "-e", "--"]) && AllTokens(["realpath", "--"])
    ensures AllTokens(["df", "-P", "-k", "--"]) && AllTokens(["head", "-c"])
  {
    SafeIsToken("realpath"); SafeIsToken("-e"); SafeIsToken("--"); SafeIsToken("df"); SafeIsToken("-P");
    SafeIsToken("-k"); SafeIsToken("head"); SafeIsToken("-c");
    hide Token;
  }

  lemma StatPrograms()
    ensures AllTokens(["stat", "--format=%n:%F:%U:%G:%a:%s:%d:%i", "--"])
    ensures AllTokens(["stat", "--format=%n:%F:%U:%G:%a", "--"]) && AllTokens(["stat", "--format=%F:%s", "--"])
  {
    SafeIsToken("stat"); SafeIsToken("--"); SafeIsToken("--format=%n:%F:%U:%G:%a:%s:%d:%i");
    SafeIsToken("--format=%n:%F:%U:%G:%a"); SafeIsToken("--format=%F:%s");
    hide Token;
  }

  lemma ServiceProgram()
    ensures AllTokens(["systemctl", "show", "--no-pager", SHOWN])
  {
    SafeIsToken("systemctl"); SafeIsToken("show"); SafeIsToken("--no-pager");
    SafeIsToken("--property=Id,LoadState,"); SafeIsToken("ActiveState,SubState,FragmentPath");
    TokenConcat("--property=Id,LoadState,", "ActiveState,SubState,FragmentPath");
    hide Token;
  }

  lemma FixedPrograms(argv: Argv)
    requires argv in FIXED
    ensures argv != [] && AllTokens(argv)
  {
    SafeIsToken("true"); SafeIsToken("hostname"); SafeIsToken("uname"); SafeIsToken("-srm"); SafeIsToken("cat");
    SafeIsToken("--"); SafeIsToken("/etc/os-release"); SafeIsToken("ss"); SafeIsToken("-lntH"); SafeIsToken("nginx");
    SafeIsToken("-V"); SafeIsToken("apache2"); SafeIsToken("-v"); SafeIsToken("httpd"); SafeIsToken("python3");
    SafeIsToken("--version"); SafeIsToken("node"); SafeIsToken("php");
    hide Token;
  }

  // ----- Numbers -----

  lemma {:induction false} DecimalReadsBack(n: nat)
    ensures AllDigits(Decimal(n)) && ValueOf(Decimal(n)) == n
  {
    if n >= 10 {
      DecimalReadsBack(n / 10);
      var s := Decimal(n);
      assert s[..|s| - 1] == Decimal(n / 10);
      assert s[|s| - 1] == Digit(n % 10);
    } else {
      assert Decimal(n)[..0] == "";
    }
  }

  lemma DigitsAreToken(s: string)
    requires AllDigits(s)
    ensures Token(s)
  {
    SafeIsToken(s);
  }

  // ----- What can be delivered -----

  predicate NoSecretNames(u: Tables, path: string) { NoneSecret(u, Names(Split(path))) }

  /** The caller's own view of an operation: plain roots and paths, and for file reads a root without
      a second leading separator and without a secret-named segment. */
  predicate Deliverable(u: Tables, op: Operation, inside: string -> bool) {
    match op
    case SafeFileRead(root, relative) =>
      && Unquoted(root) && Unquoted(relative)
      && !StartsWith(root, "//") && NoSecretNames(u, root) && inside(root + "/" + relative)
    case _ => op.HasRoot() ==> Unquoted(op.root)
  }

  lemma NamesConcatenated(u: Tables, a: seq<string>, b: seq<string>)
    requires ".." !in a && forall i | 0 <= i < |b| :: b[i] != ".." && !SecretPart(u, b[i])
    ensures ".." !in a + b && (NoneSecret(u, a + b) <==> NoneSecret(u, a))
  {
    hide SecretPart;
    assert forall k | 0 <= k < |a| :: (a + b)[k] == a[k];
    assert forall k | |a| <= k < |a + b| :: (a + b)[k] == b[k - |a|];
  }

  lemma BelowRoot(u: Tables, root: string, relative: string)
    requires AbsoluteRoot(u, root) == Some(root)
    ensures StartsWith(root + "/" + relative, root + "/") && StartsWith(root + "/" + relative, "/")
  {
    var path := root + "/" + relative;
    assert path[..|root| + 1] == root + "/";
    RootStartsWithSlash(u, root);
    hide AbsoluteRoot;
    assert path[0] == root[0];
  }

  /** The wrapper approves a joined path on the same conditions. */
  lemma JoinedPathApproved(u: Tables, root: string, relative: string, p: Profile, inside: string -> bool)
    requires AbsoluteRoot(u, root) == Some(root) && RelativePath(u, relative) == Some(relative)
    requires root in p.roots && root != "//"
    ensures var path := root + "/" + relative;
            ApprovedPath(u, path, p, inside) <==>
              '\\' !in path && !StartsWith(root, "//") && NoSecretNames(u, root) && inside(path)
  {
    hide Names, Split, AbsoluteRoot, RelativePath, Anchor, Proper, Normal, CleanInput, Contains, SecretPart, JoinApproved,
         StartsWith, Join, NoneSecret;
    JoinedPath(u, root, relative);
    RootShape(u, root);
    RelativeShape(u, relative);
    BelowRoot(u, root, relative);
    NamesConcatenated(u, Names(Split(root)), Split(relative));
    var i :| 0 <= i < |p.roots| && p.roots[i] == root;
  }

  lemma RootStartsWithSlash(u: Tables, root: string)
    requires AbsoluteRoot(u, root) == Some(root)
    ensures StartsWith(root, "/")
  {
    hide Normal, CleanInput, Strip, Names, Split;
  }

  // ----- One command at a time -----

  lemma FixedCommand(u: Tables, argv: Argv, p: Profile, inside: string -> bool)
    requires Sane(u) && argv in FIXED
    ensures Recognise(u, Line(argv), p, inside) == Some(argv)
  {
    assert Allowlisted(u, argv, p, inside);
    hide Allowlisted, Token, NoGap, Words, Line, Strip, HasBad, FIXED;
    FixedPrograms(argv);
    forall i | 0 <= i < |argv| ensures argv[i] != "" && NoGap(argv[i]) && !HasBad(argv[i]) {
      assert Token(argv[i]);
      PlainToken(argv[i]);
    }
    HasBadLine(argv);
    WordsOfLine(argv);
    LineNotBlank(u, argv);
  }

  lemma CheckedCommand(u: Tables, prefix: Argv, last: string, p: Profile, inside: string -> bool)
    requires Sane(u) && prefix != [] && AllTokens(prefix) && last != "" && CleanInput(u, last)
    ensures Recognise(u, Line(prefix + [last]), p, inside) ==
              if Unquoted(last) && Allowlisted(u, prefix + [last], p, inside) then Some(prefix + [last]) else None
  {
    hide Allowlisted, Token, Recognise, Line, CleanInput, Unquoted;
    Delivery(u, prefix + [last], p, inside);
  }

  const ROOT_PREFIXES: set<Argv> :=
    {["realpath", "-e", "--"], ["stat", "--format=%n:%F:%U:%G:%a:%s:%d:%i", "--"],
     ["stat", "--format=%n:%F:%U:%G:%a", "--"], ["df", "-P", "-k", "--"]}

  lemma RootCommand(u: Tables, prefix: Argv, root: string, p: Profile, inside: string -> bool)
    requires Sane(u) && prefix in ROOT_PREFIXES && AbsoluteRoot(u, root) == Some(root) && root in p.roots
    ensures Recognise(u, Line(prefix + [root]), p, inside) == if Unquoted(root) then Some(prefix + [root]) else None
  {
    hide Recognise, Line, Token, AllTokens, Allowlisted, AbsoluteRoot, CleanInput, Names, Split, Anchor, Proper, Join,
         Unquoted, ROOT_PREFIXES;
    RootPrefixTokens(prefix);
    RootShape(u, root);
    RootStartsWithSlash(u, root);
    RootAllowed(u, prefix, root, p, inside);
    CheckedCommand(u, prefix, root, p, inside);
  }

  lemma RootPrefixTokens(prefix: Argv)
    requires prefix in ROOT_PREFIXES
    ensures prefix != [] && AllTokens(prefix)
  {
    PathPrograms();
    StatPrograms();
    hide AllTokens;
  }

  lemma RootAllowed(u: Tables, prefix: Argv, root: string, p: Profile, inside: string -> bool)
    requires prefix in ROOT_PREFIXES && AbsoluteRoot(u, root) == Some(root) && root in p.roots
    ensures Allowlisted(u, prefix + [root], p, inside)
  {
    hide AbsoluteRoot, FIXED, ApprovedPath;
    var argv := prefix + [root];
    assert argv[..|prefix|] == prefix && argv[|prefix|] == root;
  }

  /** The three commands of a file read. */
  function ReadPrefix(k: nat, limit: nat): Argv {
    if k == 0 then ["stat", "--format=%F:%s", "--"]
    else if k == 1 then ["realpath", "--"]
    else ["head", "-c", Decimal(limit), "--"]
  }

  lemma PathAllowed(u: Tables, k: nat, limit: nat, path: string, p: Profile, inside: string -> bool)
    requires 1 <= limit <= p.maxFileBytes
    ensures Allowlisted(u, ReadPrefix(k, limit) + [path], p, inside) <==> ApprovedPath(u, path, p, inside)
  {
    hide ApprovedPath, ApprovedRoot, Decimal;
    DecimalReadsBack(limit);
    var prefix := ReadPrefix(k, limit);
    var argv := prefix + [path];
    assert argv[..|prefix|] == prefix && argv[|prefix|] == path;
    assert argv[0] == prefix[0] && argv[1] == prefix[1];
    if k == 0 {
      assert |"--format=%F:%s"| == 14 && |"--format=%n:%F:%U:%G:%a"| == 23 && |"--format=%n:%F:%U:%G:%a:%s:%d:%i"| == 32;
      assert argv[..3][1] == argv[1];
    } else if k >= 2 {
      assert argv[2] == Decimal(limit) && argv[3] == "--" && argv[..2] == ["head", "-c"];
    }
  }

  lemma ReadPrefixTokens(k: nat, limit: nat)
    ensures ReadPrefix(k, limit) != [] && AllTokens(ReadPrefix(k, limit))
  {
    PathPrograms();
    StatPrograms();
    DecimalReadsBack(limit);
    DigitsAreToken(Decimal(limit));
    hide Token, Decimal;
    var prefix := ReadPrefix(k, limit);
    forall i | 0 <= i < |prefix| ensures Token(prefix[i]) {
      if k >= 2 && (i == 0 || i == 1) { assert prefix[i] == ["head", "-c"][i]; }
      if k >= 2 && i == 3 { assert prefix[i] == ["realpath", "--"][1]; }
    }
  }

  lemma PathCharacters(u: Tables, root: string, relative: string)
    requires Sane(u) && CleanInput(u, root) && CleanInput(u, relative)
    ensures var path := root + "/" + relative;
            && path != "" && CleanInput(u, path)
            && (Unquoted(path) <==> Unquoted(root) && Unquoted(relative)) && (Unquoted(path) ==> '\\' !in path)
  {
  }

  lemma ReadCommand(u: Tables, k: nat, limit: nat, root: string, relative: string, p: Profile, inside: string -> bool)
    requires Sane(u) && 1 <= limit <= p.maxFileBytes
    requires AbsoluteRoot(u, root) == Some(root) && RelativePath(u, relative) == Some(relative)
    requires root in p.roots && root != "//"
    ensures var argv := ReadPrefix(k, limit) + [root + "/" + relative];
            Recognise(u, Line(argv), p, inside) ==
              if Deliverable(u, SafeFileRead(root, relative), inside) then Some(argv) else None
  {
    var path := root + "/" + relative;
    hide AbsoluteRoot, RelativePath, Recognise, Line, Token, AllTokens, Allowlisted, CleanInput, Unquoted, ApprovedPath,
         Names, Split, Anchor, Proper, Join, NoSecretNames, ReadPrefix, Decimal, StartsWith;
    RootShape(u, root);
    RelativeShape(u, relative);
    ReadPrefixTokens(k, limit);
    PathCharacters(u, root, relative);
    JoinedPathApproved(u, root, relative, p, inside);
    PathAllowed(u, k, limit, path, p, inside);
    CheckedCommand(u, ReadPrefix(k, limit), path, p, inside);
  }

  lemma ServiceCommand(u: Tables, service: string, p: Profile, inside: string -> bool)
    requires Sane(u) && Identifier(u, service) && service in p.services
    ensures var argv := ["systemctl", "show", "--no-pager", SHOWN] + [service];
            Recognise(u, Line(argv), p, inside) == Some(argv)
  {
    var prefix := ["systemctl", "show", "--no-pager", SHOWN];
    IdentifierIsClean(u, service);
    ServiceProgram();
    hide SHOWN;
    assert Allowlisted(u, prefix + [service], p, inside) by {
      hide FIXED, ApprovedPath, ApprovedRoot;
      assert (prefix + [service])[..4] == prefix;
    }
    hide Recognise, Line, Token, AllTokens, Allowlisted, Identifier, CleanInput, Unquoted;
    CheckedCommand(u, prefix, service, p, inside);
  }

  lemma IdentifierIsClean(u: Tables, s: string)
    requires Identifier(u, s)
    ensures s != "" && CleanInput(u, s) && Unquoted(s)
  {
    forall c: char | IdentifierChar(c) ensures c !in INPUT_FORBIDDEN && c !in QUOTING && c as int >= 32 {}
  }

  // ----- Every generated command -----

  lemma RootPrefix(op: Operation, i: nat)
    requires op.HasRoot() && !op.SafeFileRead? && i < 2
    ensures var argv := Templates(op, "", 0)[i];
            argv[..|argv| - 1] in ROOT_PREFIXES && argv[..|argv| - 1] + [op.root] == argv
  {
    var argv := Templates(op, "", 0)[i];
    if i == 0 {
      assert argv[..3] == ["realpath", "-e", "--"];
    } else if op.FilesystemMetadataRead? {
      assert argv[..3] == ["stat", "--format=%n:%F:%U:%G:%a:%s:%d:%i", "--"];
    } else if op.ApplicationRootVerification? {
      assert argv[..3] == ["stat", "--format=%n:%F:%U:%G:%a", "--"];
    } else {
      assert argv[..4] == ["df", "-P", "-k", "--"];
    }
  }

  lemma RootCommands(u: Tables, op: Operation, p: Profile, inside: string -> bool, i: nat)
    requires Sane(u) && op.HasRoot() && !op.SafeFileRead? && op.Constructed(u) && op.root in p.roots && i < 2
    ensures var argv := Templates(op, "", 0)[i];
            Recognise(u, Line(argv), p, inside) == if Unquoted(op.root) then Some(argv) else None
  {
    var argv := Templates(op, "", 0)[i];
    RootPrefix(op, i);
    hide Recognise, Line, AbsoluteRoot, Unquoted, Templates, ROOT_PREFIXES;
    RootCommand(u, argv[..|argv| - 1], op.root, p, inside);
  }

  lemma ReadCommands(u: Tables, op: Operation, target: Target, limit: nat, p: Profile, inside: string -> bool, i: nat)
    requires Sane(u) && op.SafeFileRead? && op.Constructed(u) && ProfileOf(target, limit) == Some(p)
    requires op.root in target.roots && JoinApproved(u, op.root, op.relative).Some? && i < 3
    ensures var argv := Templates(op, JoinApproved(u, op.root, op.relative).value, limit)[i];
            Recognise(u, Line(argv), p, inside) == if Deliverable(u, op, inside) then Some(argv) else None
  {
    hide Recognise, Line, AbsoluteRoot, RelativePath, Deliverable, JoinApproved, Decimal, Normal, Contains, Names, Split;
    if op.root == "//" { DoubleSlashHasNoPaths(u, op.relative); }
    JoinedPath(u, op.root, op.relative);
    ReadCommand(u, i, limit, op.root, op.relative, p, inside);
    var path := op.root + "/" + op.relative;
    assert Templates(op, path, limit)[i] == ReadPrefix(i, limit) + [path];
  }

  /** For every operation the generator accepts and the profile made from the same target and limits,
      the command line carries each command's arguments to the wrapper unchanged exactly when the
      operation is deliverable; otherwise the wrapper rejects it. */
  lemma GeneratedCommandsAreRecognised(u: Tables, op: Operation, target: Target, limit: nat, inside: string -> bool, i: nat)
    requires Sane(u) && op.Constructed(u) && ProfileOf(target, limit).Some?
    requires CommandsFor(u, op, target, limit).Some? && i < |CommandsFor(u, op, target, limit).value|
    ensures var argv := CommandsFor(u, op, target, limit).value[i];
            Recognise(u, Line(argv), ProfileOf(target, limit).value, inside) ==
              if Deliverable(u, op, inside) then Some(argv) else None
  {
    var p := ProfileOf(target, limit).value;
    var argv := CommandsFor(u, op, target, limit).value[i];
    hide Recognise, Line, AbsoluteRoot, RelativePath, JoinApproved, Decimal, Registered, NoSecretNames, StartsWith, Identifier, SHOWN;
    if op.SafeFileRead? {
      ReadCommands(u, op, target, limit, p, inside, i);
    } else if op.HasRoot() {
      RootCommands(u, op, p, inside, i);
      assert argv == Templates(op, "", 0)[i];
    } else if op.ServiceMetadataRead? {
      ServiceCommand(u, op.service, p, inside);
      assert argv == ["systemctl", "show", "--no-pager", SHOWN] + [op.service];
    } else {
      assert argv in FIXED;
      FixedCommand(u, argv, p, inside);
    }
  }
}
