/**
 What the forced-command wrapper accepts, for every command string: a closed list of command forms
 whose operands lie in the profile, and which of them the generator can make.
 */
module SshSoundness {
  import opened Common
  import opened PythonText
  import opened SshCommands
  import opened SshPaths
  import opened SshAgreement
  import opened SshRefusals

  // ----- Arguments -----

  predicate Spaces(s: string) { forall i | 0 <= i < |s| :: s[i] == ' ' }

  /** The arguments stand in the line in order, with spaces between them. */
  ghost predicate Separated(line: string, argv: Argv)
    decreases |argv|
  {
    if argv == [] then Spaces(line)
    else
      && argv[0] != "" && ' ' !in argv[0]
      && exists a, b :: Spaces(a) && line == a + argv[0] + b && (b == "" || b[0] == ' ') && Separated(b, argv[1..])
  }

  predicate Printable(s: string) { forall i | 0 <= i < |s| :: s[i] as int >= 32 }

  function FirstSpace(s: string): (n: nat)
    ensures n <= |s| && ' ' !in s[..n] && (n < |s| ==> s[n] == ' ')
  {
    if s == "" || s[0] == ' ' then 0
    else
      assert s[..1 + FirstSpace(s[1..])] == [s[0]] + s[1..][..FirstSpace(s[1..])];
      1 + FirstSpace(s[1..])
  }

  lemma {:induction false} SpacesSkipped(a: string, s: string)
    requires Spaces(a)
    ensures Words(a + s, "") == Words(s, "")
    decreases |a|
  {
    if a == "" {
      assert a + s == s;
    } else {
      assert (a + s)[1..] == a[1..] + s;
      SpacesSkipped(a[1..], s);
    }
  }

  lemma PrintableParts(a: string, word: string, b: string)
    requires Printable(a + word + b) && ' ' !in word
    ensures Printable(b) && NoGap(word)
  {
    var s := a + word + b;
    forall i | 0 <= i < |b| ensures b[i] as int >= 32 { assert s[|a| + |word| + i] == b[i]; }
    forall i | 0 <= i < |word| ensures word[i] !in " \t\r\n" { assert s[|a| + i] == word[i] && word[i] in word; }
  }

  lemma WordThenRest(word: string, rest: string)
    requires Printable(word + rest) && word != "" && ' ' !in word && (rest == "" || rest[0] == ' ')
    ensures Words(word + rest, "") == [word] + Words(rest, "") && Printable(rest)
  {
    assert "" + word + rest == word + rest && "" + word == word;
    PrintableParts("", word, rest);
    WordGoesOn(word, rest, "");
    if rest != "" { assert Words(rest, "") == Words(rest[1..], ""); }
  }

  lemma PrintableSuffix(a: string, b: string)
    requires Printable(a + b)
    ensures Printable(b)
  {
    assert forall i | 0 <= i < |b| :: b[i] == (a + b)[|a| + i];
  }

  lemma {:induction false} SeparatedIsSplit(line: string, argv: Argv)
    requires Printable(line) && Separated(line, argv)
    ensures Words(line, "") == argv
    decreases |argv|
  {
    if argv == [] {
      SpacesSkipped(line, "");
      assert line + "" == line;
    } else {
      var a, b :| Spaces(a) && line == a + argv[0] + b && (b == "" || b[0] == ' ') && Separated(b, argv[1..]);
      var word := argv[0];
      hide Separated, Words, Spaces, Printable;
      assert line == a + (word + b) && line == a + word + b;
      SpacesSkipped(a, word + b);
      PrintableSuffix(a, word + b);
      WordThenRest(word, b);
      SeparatedIsSplit(b, argv[1..]);
    }
  }

  lemma SeparatedCons(word: string, rest: string, argv: Argv)
    requires word != "" && ' ' !in word && (rest == "" || rest[0] == ' ') && Separated(rest, argv)
    ensures Separated(word + rest, [word] + argv)
  {
    var all := [word] + argv;
    assert all[0] == word && all[1..] == argv;
    assert Spaces("") && word + rest == "" + all[0] + rest;
  }

  lemma {:induction false} SplitIsSeparated(line: string)
    requires Printable(line)
    ensures Separated(line, Words(line, ""))
    decreases |line|
  {
    if line == "" {
    } else if line[0] == ' ' {
      assert Words(line, "") == Words(line[1..], "");
      hide Words, Separated;
      SplitIsSeparated(line[1..]);
      LeadingSpace(line, Words(line[1..], ""));
    } else {
      var n := FirstSpace(line);
      assert n > 0;
      hide Words, Separated;
      var word, rest := line[..n], line[n..];
      assert line == word + rest && n > 0;
      WordThenRest(word, rest);
      SplitIsSeparated(rest);
      SeparatedCons(word, rest, Words(rest, ""));
    }
  }

  lemma LeadingSpace(line: string, argv: Argv)
    requires line != "" && line[0] == ' ' && Separated(line[1..], argv)
    ensures Separated(line, argv)
  {
    if argv != [] {
      var a, b :| && Spaces(a) && line[1..] == a + argv[0] + b && (b == "" || b[0] == ' ') && Separated(b, argv[1..]);
      assert line == [' '] + line[1..];
      assert Spaces([' '] + a) && line == ([' '] + a) + argv[0] + b;
    }
  }

  /** Splitting a printable line without quotes gives exactly the arguments that spaces separate. */
  lemma SplitsAtSpaces(line: string, argv: Argv)
    requires Printable(line)
    ensures Words(line, "") == argv <==> Separated(line, argv)
  {
    if Separated(line, argv) { SeparatedIsSplit(line, argv); }
    SplitIsSeparated(line);
  }

  /** Control characters, and those with a meaning for a shell, quotes and backslash included. */
  predicate Refused(c: char) {
    (c as int) < 32 || c in ";|&$><*?{}[]()!'\"`\\"
  }

  lemma BadIsRefused(c: char)
    ensures Bad(c) <==> Refused(c)
  {
    assert ";|&$><*?{}[]()!'\"`\\" == [';', '|', '&', '$', '>', '<', '*', '?', '{', '}', '[', ']', '(', ')', '!', '\'', '"', '`', '\\'];
  }

  // ----- Operands -----

  /** Roots and services a profile's constructor lets in. */
  ghost predicate ValidProfile(u: Tables, p: Profile) {
    && (forall i | 0 <= i < |p.roots| :: AbsoluteRoot(u, p.roots[i]) == Some(p.roots[i]))
    && (forall i | 0 <= i < |p.services| :: Identifier(u, p.services[i]))
  }

  /** One of the profile's roots, blanks around it aside. */
  ghost predicate Rooted(u: Tables, value: string, p: Profile) {
    exists a, b, i :: Blank(u, a) && Blank(u, b) && 0 <= i < |p.roots| && value == a + p.roots[i] + b
  }

  lemma ApprovedIsRooted(u: Tables, value: string, p: Profile)
    requires ApprovedRoot(u, value, p)
    ensures Rooted(u, value, p)
  {
    var c := Strip(u, value);
    assert c in p.roots by { hide Strip, Normal, Names, Split, CleanInput; }
    hide AbsoluteRoot, ApprovedRoot;
    var a := StripLeftSplits(u, value);
    var b := StripRightSplits(u, StripLeft(u, value));
    assert value == a + c + b;
    var i :| 0 <= i < |p.roots| && p.roots[i] == c;
  }

  lemma RootedIsApproved(u: Tables, value: string, p: Profile)
    requires ValidProfile(u, p)
    ensures ApprovedRoot(u, value, p) <==> Rooted(u, value, p)
  {
    hide AbsoluteRoot, Identifier;
    if ApprovedRoot(u, value, p) { ApprovedIsRooted(u, value, p); }
    if Rooted(u, value, p) {
      var a, b, i :| Blank(u, a) && Blank(u, b) && 0 <= i < |p.roots| && value == a + p.roots[i] + b;
      var root := p.roots[i];
      RootEnds(u, root);
      assert value == a + (root + b) && (root + b)[0] == root[0];
      StripLeftBlanks(u, a, root + b);
      StripRightBlanks(u, root, b);
      assert Strip(u, value) == root;
      SameStripped(u, value, root);
    }
  }

  lemma RootEnds(u: Tables, root: string)
    requires AbsoluteRoot(u, root) == Some(root)
    ensures root != "" && !u.space(root[0]) && !u.space(root[|root| - 1])
  {
    hide Normal, Names, Split;
    assert CleanInput(u, root) && root != "";
  }

  lemma SameStripped(u: Tables, value: string, root: string)
    requires Strip(u, value) == root && AbsoluteRoot(u, root) == Some(root)
    ensures AbsoluteRoot(u, value) == Some(root)
  {
    assert Strip(u, root) == root by { hide Normal, Names, Split, CleanInput; }
    hide Strip, Normal, Names, Split, CleanInput;
  }

  /** A segment that is no dot name and not the name of a secret. */
  predicate OpenSegment(u: Tables, name: string) {
    && name != "" && name != "." && name != ".." && '/' !in name && '\\' !in name
    && Fold(u, name) !in {".env", ".env.local", ".env.production", "authorized_keys", "credentials", "credential",
                          "id_ed25519", "id_rsa", "passwd", "private", "secrets", "shadow"}
  }

  predicate OpenSegments(u: Tables, names: seq<string>) {
    names != [] && forall i | 0 <= i < |names| :: OpenSegment(u, names[i])
  }

  /** A root of the profile or a path below one, made of open segments, that resolves to one. */
  ghost predicate Reachable(u: Tables, path: string, p: Profile, inside: string -> bool) {
    && (exists names :: OpenSegments(u, names) && path == "/" + Join(names))
    && (exists i :: 0 <= i < |p.roots| && (path == p.roots[i] || p.roots[i] + "/" <= path))
    && inside(path)
  }

  lemma {:induction false} JoinHasSegments(names: seq<string>, c: char)
    requires c != '/'
    ensures c in Join(names) <==> exists i :: 0 <= i < |names| && c in names[i]
    decreases |names|
  {
    if |names| > 1 {
      JoinHasSegments(names[1..], c);
      assert forall i | 0 <= i < |names| - 1 :: names[1..][i] == names[i + 1];
      assert forall i | 0 < i < |names| :: names[i] == names[1..][i - 1];
      assert Join(names) == names[0] + "/" + Join(names[1..]);
    } else if |names| == 1 {
      assert Join(names) == names[0];
    }
  }

  /** An absolute path in normal form without a double separator is its segments joined. */
  lemma AbsoluteShape(path: string)
    requires StartsWith(path, "/") && !Contains(path, "//") && Normal(path) == path && path != "/"
    ensures var names := Names(Split(path)); Proper(names) && names != [] && path == "/" + Join(names)
  {
    SplitHasNoSlash(path);
    NamesAreProper(Split(path));
    TightMeansNoDouble(path);
    assert Anchor(path) == "/";
    hide Names, Split;
    assert "/" + "" == "/";
  }

  lemma ShapeIsAbsolute(names: seq<string>)
    requires Proper(names) && names != []
    ensures var path := "/" + Join(names);
            StartsWith(path, "/") && !Contains(path, "//") && Normal(path) == path && Names(Split(path)) == names
  {
    var path := "/" + Join(names);
    JoinIsTight(names);
    NamesOfProper(names);
    SplitJoin(names);
    assert path == "" + "/" + Join(names);
    SplitAtSlash("", Join(names));
    SplitSlashFree("");
    NamesConcat([""], names);
    assert Names([""]) == [] by { assert [""][1..] == []; }
    TightMeansNoDouble(path);
    OneSeparatorAtATime("/", Join(names));
    hide Names, Split, Proper, Contains, Join;
    assert [] + names == names;
    assert path[0] == '/' && |path| > 1 && path[1] != '/';
    assert Anchor(path) == "/";
  }

  lemma SegmentsAreOpen(u: Tables, names: seq<string>)
    requires Proper(names) && names != []
    ensures OpenSegments(u, names) <==> ".." !in names && NoneSecret(u, names) && '\\' !in Join(names)
  {
    JoinHasSegments(names, '\\');
    forall i | 0 <= i < |names| ensures OpenSegment(u, names[i]) <==> names[i] != ".." && !SecretPart(u, names[i]) && '\\' !in names[i] {
    }
    hide OpenSegment, SecretPart, Join;
  }

  lemma ReachableIsApproved(u: Tables, path: string, p: Profile, inside: string -> bool)
    requires ValidProfile(u, p)
    ensures ApprovedPath(u, path, p, inside) <==> Reachable(u, path, p, inside)
  {
    hide AbsoluteRoot, Names, Split, Normal, Contains, NoneSecret, Proper, Join, OpenSegments, Identifier;
    if ApprovedPath(u, path, p, inside) {
      NotTheRoot(u, path, p);
      AbsoluteShape(path);
      var names := Names(Split(path));
      SegmentsAreOpen(u, names);
      assert '\\' !in Join(names) by { assert forall c | c in Join(names) :: c in path; }
    }
    if Reachable(u, path, p, inside) {
      var names :| OpenSegments(u, names) && path == "/" + Join(names);
      OpenIsProper(u, names);
      ShapeIsAbsolute(names);
      SegmentsAreOpen(u, names);
      assert '\\' !in path;
    }
  }

  lemma OpenIsProper(u: Tables, names: seq<string>)
    requires OpenSegments(u, names)
    ensures Proper(names) && names != []
  {
  }

  /** A valid root is longer than one separator, so the top directory is not below any. */
  lemma NotTheRoot(u: Tables, path: string, p: Profile)
    requires ValidProfile(u, p) && exists i :: 0 <= i < |p.roots| && (path == p.roots[i] || StartsWith(path, p.roots[i] + "/"))
    ensures path != "/"
  {
    var i :| 0 <= i < |p.roots| && (path == p.roots[i] || StartsWith(path, p.roots[i] + "/"));
    assert AbsoluteRoot(u, p.roots[i]) == Some(p.roots[i]);
    RootEnds(u, p.roots[i]);
    assert p.roots[i] != "/" by { hide Normal, Names, Split, CleanInput, Identifier; }
    hide AbsoluteRoot, Identifier;
    assert |p.roots[i] + "/"| > 1;
  }

  // ----- Limits -----

  predicate Zeros(s: string) { forall i | 0 <= i < |s| :: s[i] == '0' }

  /** The decimal of a number from 1 to `max`, with zeros before it or not. */
  ghost predicate Number(s: string, max: nat) {
    exists zeros, n: nat :: Zeros(zeros) && 1 <= n <= max && s == zeros + Decimal(n)
  }

  lemma DecimalStarts(n: nat)
    requires n >= 1
    ensures Decimal(n) != "" && Decimal(n)[0] != '0'
  {
    if n >= 10 { DecimalStarts(n / 10); }
  }

  lemma DecimalGrows(n: nat, c: char)
    requires '0' <= c <= '9'
    ensures var m := 10 * n + (c as int - '0' as int); Decimal(m) == if n == 0 then [c] else Decimal(n) + [c]
  {
    var d := c as int - '0' as int;
    assert Digit(d) == c;
    assert (10 * n + d) / 10 == n && (10 * n + d) % 10 == d;
  }

  ghost predicate Padded(s: string, n: nat) { exists zeros :: Zeros(zeros) && s == zeros + Decimal(n) }

  /** One more digit. */
  lemma PaddedGrows(front: string, c: char, n: nat)
    requires '0' <= c <= '9' && if n == 0 then Zeros(front) else Padded(front, n)
    ensures Padded(front + [c], 10 * n + (c as int - '0' as int))
  {
    DecimalGrows(n, c);
    hide Decimal;
    if n > 0 {
      var zeros :| Zeros(zeros) && front == zeros + Decimal(n);
      assert front + [c] == zeros + (Decimal(n) + [c]);
    }
  }

  lemma {:induction false} DigitsAreNumber(s: string)
    requires AllDigits(s) && ValueOf(s) >= 1
    ensures Padded(s, ValueOf(s))
    decreases |s|
  {
    hide Padded, Zeros;
    var front, c := s[..|s| - 1], s[|s| - 1];
    assert s == front + [c];
    if ValueOf(front) == 0 { AllZeros(front); } else { DigitsAreNumber(front); }
    PaddedGrows(front, c, ValueOf(front));
  }

  lemma {:induction false} AllZeros(s: string)
    requires (forall i | 0 <= i < |s| :: '0' <= s[i] <= '9') && ValueOf(s) == 0
    ensures Zeros(s)
    decreases |s|
  {
    if s != "" { AllZeros(s[..|s| - 1]); }
  }

  lemma {:induction false} ZerosAddNothing(zeros: string, s: string)
    requires Zeros(zeros) && AllDigits(s)
    ensures AllDigits(zeros + s) && ValueOf(zeros + s) == ValueOf(s)
    decreases |s|
  {
    var all := zeros + s;
    assert all[..|all| - 1] == zeros + s[..|s| - 1];
    if |s| == 1 {
      assert zeros + "" == zeros && s[..0] == "";
      ZerosAreZero(zeros);
    } else {
      ZerosAddNothing(zeros, s[..|s| - 1]);
    }
  }

  lemma {:induction false} ZerosAreZero(s: string)
    requires Zeros(s)
    ensures ValueOf(s) == 0
    decreases |s|
  {
    if s != "" { ZerosAreZero(s[..|s| - 1]); }
  }

  lemma LimitIsNumber(s: string, max: nat)
    ensures AllDigits(s) && 1 <= ValueOf(s) <= max <==> Number(s, max)
  {
    if AllDigits(s) && 1 <= ValueOf(s) <= max {
      DigitsAreNumber(s);
      var n := ValueOf(s);
      hide AllDigits, ValueOf, Decimal;
      var zeros :| Zeros(zeros) && s == zeros + Decimal(n);
    }
    if Number(s, max) {
      var zeros, n: nat :| Zeros(zeros) && 1 <= n <= max && s == zeros + Decimal(n);
      DecimalReadsBack(n);
      ZerosAddNothing(zeros, Decimal(n));
    }
  }

  // ----- Forms -----

  /** The forms of commands, by what varies in them. */
  datatype Form = Constant | OfRoot(value: string) | OfPath(path: string) | Head(limit: string, path: string) | OfService(name: string)

  /** The arguments are written in this form. */
  predicate Written(argv: Argv, form: Form) {
    match form
    case Constant =>
      || argv == ["true"] || argv == ["hostname"] || argv == ["uname", "-srm"] || argv == ["cat", "--", "/etc/os-release"]
      || argv == ["ss", "-lntH"] || argv == ["nginx", "-V"] || argv == ["apache2", "-v"] || argv == ["httpd", "-v"]
      || argv == ["python3", "--version"] || argv == ["node", "--version"] || argv == ["php", "--version"]
    case OfRoot(value) =>
      || argv == ["realpath", "-e", "--", value] || argv == ["df", "-P", "-k", "--", value]
      || argv == ["stat", "--format=%n:%F:%U:%G:%a:%s:%d:%i", "--", value]
      || argv == ["stat", "--format=%n:%F:%U:%G:%a", "--", value]
    case OfPath(path) => argv == ["realpath", "--", path] || argv == ["stat", "--format=%F:%s", "--", path]
    case Head(limit, path) => argv == ["head", "-c", limit, "--", path]
    case OfService(name) =>
      argv == ["systemctl", "show", "--no-pager", "--property=Id,LoadState,ActiveState,SubState,FragmentPath", name]
  }

  /** What varies lies in the profile. */
  ghost predicate Granted(u: Tables, form: Form, p: Profile, inside: string -> bool) {
    match form
    case Constant => true
    case OfRoot(value) => Rooted(u, value, p)
    case OfPath(path) => Reachable(u, path, p, inside)
    case Head(limit, path) => Number(limit, p.maxFileBytes) && Reachable(u, path, p, inside)
    case OfService(name) => name in p.services
  }

  lemma ShownIs()
    ensures SHOWN == "--property=Id,LoadState,ActiveState,SubState,FragmentPath"
  {
  }

  lemma FixedAreShort(argv: Argv)
    requires argv in FIXED
    ensures |argv| <= 3
  {
  }

  lemma FiveArguments(u: Tables, argv: Argv, p: Profile, inside: string -> bool) returns (form: Form)
    requires ValidProfile(u, p) && Allowlisted(u, argv, p, inside) && |argv| == 5
    ensures Written(argv, form) && Granted(u, form, p, inside)
  {
    hide FIXED, ApprovedRoot, ApprovedPath, Rooted, Reachable, SHOWN, ValidProfile, Number, AllDigits, ValueOf;
    if argv in FIXED { FixedAreShort(argv); }
    ShownIs();
    var last := argv[4];
    assert argv[..4][0] == argv[0] && argv[..2][0] == argv[0] && argv[..4][1] == argv[1];
    if argv[0] == "head" {
      ReachableIsApproved(u, last, p, inside);
      LimitIsNumber(argv[2], p.maxFileBytes);
      form := Head(argv[2], last);
      assert argv == argv[..2] + [argv[2], argv[3], last];
    } else {
      RootedIsApproved(u, last, p);
      form := if argv[0] == "df" then OfRoot(last) else OfService(last);
      assert argv == argv[..4] + [last];
    }
  }

  lemma FourArguments(u: Tables, argv: Argv, p: Profile, inside: string -> bool) returns (form: Form)
    requires ValidProfile(u, p) && Allowlisted(u, argv, p, inside) && |argv| == 4
    ensures Written(argv, form) && Granted(u, form, p, inside)
  {
    hide FIXED, ApprovedRoot, ApprovedPath, Rooted, Reachable, SHOWN, ValidProfile;
    if argv in FIXED { FixedAreShort(argv); }
    var last := argv[3];
    RootedIsApproved(u, last, p);
    ReachableIsApproved(u, last, p, inside);
    form := if argv[..3] == ["stat", "--format=%F:%s", "--"] then OfPath(last) else OfRoot(last);
    assert argv == argv[..3] + [last];
  }

  /** The wrapper's tests on the arguments, form by form. */
  lemma AllowlistedHasForm(u: Tables, argv: Argv, p: Profile, inside: string -> bool) returns (form: Form)
    requires ValidProfile(u, p) && Allowlisted(u, argv, p, inside)
    ensures Written(argv, form) && Granted(u, form, p, inside)
  {
    hide ApprovedRoot, ApprovedPath, Rooted, Reachable, SHOWN, ValidProfile;
    if |argv| == 5 {
      form := FiveArguments(u, argv, p, inside);
    } else if |argv| == 4 {
      form := FourArguments(u, argv, p, inside);
    } else if argv in FIXED {
      form := Constant;
    } else {
      hide FIXED;
      ReachableIsApproved(u, argv[2], p, inside);
      form := OfPath(argv[2]);
      assert argv == argv[..2] + [argv[2]];
    }
  }

  lemma FormIsAllowlisted(u: Tables, argv: Argv, form: Form, p: Profile, inside: string -> bool)
    requires ValidProfile(u, p) && Written(argv, form) && Granted(u, form, p, inside)
    ensures Allowlisted(u, argv, p, inside) && argv != []
  {
    ShownIs();
    hide Rooted, Reachable, SHOWN, ValidProfile, Number, AllDigits, ValueOf, ApprovedRoot, ApprovedPath;
    match form {
      case Constant =>
      case OfRoot(value) => hide FIXED; RootedIsApproved(u, value, p);
      case OfPath(path) => hide FIXED; ReachableIsApproved(u, path, p, inside);
      case Head(limit, path) =>
        hide FIXED;
        ReachableIsApproved(u, path, p, inside);
        LimitIsNumber(limit, p.maxFileBytes);
      case OfService(name) => hide FIXED;
    }
  }

  // ----- What the wrapper accepts -----

  lemma RefusedIsBad(line: string)
    ensures HasBad(line) <==> exists i :: 0 <= i < |line| && Refused(line[i])
  {
    forall c ensures Bad(c) <==> Refused(c) { BadIsRefused(c); }
    hide Bad, Refused;
  }

  lemma FormStarts(argv: Argv, form: Form)
    requires Written(argv, form)
    ensures argv != [] && argv[0] != "" && 'a' <= argv[0][0] <= 'z'
  {
  }

  lemma {:induction false} SeparatedStarts(u: Tables, line: string, argv: Argv)
    requires Separated(line, argv) && argv != []
    ensures forall c | c in argv[0] :: c in line
  {
    var a, b :| Spaces(a) && line == a + argv[0] + b && (b == "" || b[0] == ' ') && Separated(b, argv[1..]);
  }

  lemma BlankStrips(u: Tables, line: string)
    requires Strip(u, line) == ""
    ensures Blank(u, line)
  {
    var a := StripLeftSplits(u, line);
    var b := StripRightSplits(u, StripLeft(u, line));
    assert line == a + "" + b;
  }

  /** On every command string: the wrapper accepts it, with these arguments, exactly when it holds no
      refused character, spaces separate the arguments, and these are written in one of the forms with
      operands that the profile grants. */
  lemma AcceptedCommands(u: Tables, line: string, p: Profile, inside: string -> bool, argv: Argv)
    requires Sane(u) && ValidProfile(u, p)
    ensures Recognise(u, line, p, inside) == Some(argv) <==>
              && (forall i | 0 <= i < |line| :: !Refused(line[i]))
              && Separated(line, argv)
              && exists form :: Written(argv, form) && Granted(u, form, p, inside)
  {
    RefusedIsBad(line);
    if !HasBad(line) {
      assert Printable(line) by { hide ValidProfile; }
      SplitsAtSpaces(line, argv);
    }
    hide Refused, Separated, Written, Granted, Allowlisted, ValidProfile, Words, Strip, HasBad, Printable;
    if Allowlisted(u, argv, p, inside) {
      var form := AllowlistedHasForm(u, argv, p, inside);
    }
    if form :| Written(argv, form) && Granted(u, form, p, inside) {
      FormIsAllowlisted(u, argv, form, p, inside);
      FormStarts(argv, form);
      if Separated(line, argv) { NotBlank(u, line, argv); }
    }
  }

  lemma NotBlank(u: Tables, line: string, argv: Argv)
    requires Sane(u) && Separated(line, argv) && argv != [] && argv[0] != "" && 'a' <= argv[0][0] <= 'z'
    ensures Strip(u, line) != ""
  {
    SeparatedStarts(u, line, argv);
    assert argv[0][0] in argv[0];
    if Strip(u, line) == "" { BlankStrips(u, line); }
  }

  // ----- What the generator makes -----

  /** The command serves the operation: each operation has its own programs, and hands its root, path
      or service over as the last argument. */
  predicate Serves(op: Operation, argv: Argv, limit: nat) {
    argv != [] &&
    match argv[0]
    case "true" => op.ConnectionProbe? && argv == ["true"]
    case "hostname" => op.HostInventory? && argv == ["hostname"]
    case "uname" => op.HostInventory? && argv == ["uname", "-srm"]
    case "cat" => op.HostInventory? && argv == ["cat", "--", "/etc/os-release"]
    case "ss" => op.NetworkBindingRead? && argv == ["ss", "-lntH"]
    case "nginx" => op.WebServerMetadataRead? && argv == ["nginx", "-V"]
    case "apache2" => op.WebServerMetadataRead? && argv == ["apache2", "-v"]
    case "httpd" => op.WebServerMetadataRead? && argv == ["httpd", "-v"]
    case "python3" => op.RuntimeMetadataRead? && argv == ["python3", "--version"]
    case "node" => op.RuntimeMetadataRead? && argv == ["node", "--version"]
    case "php" => op.RuntimeMetadataRead? && argv == ["php", "--version"]
    case "systemctl" =>
      op.ServiceMetadataRead? &&
      argv == ["systemctl", "show", "--no-pager", "--property=Id,LoadState,ActiveState,SubState,FragmentPath", op.service]
    case "df" => op.StorageMetadataRead? && argv == ["df", "-P", "-k", "--", op.root]
    case "realpath" =>
      if op.SafeFileRead? then argv == ["realpath", "--", op.root + "/" + op.relative]
      else op.HasRoot() && argv == ["realpath", "-e", "--", op.root]
    case "stat" =>
      || (op.SafeFileRead? && argv == ["stat", "--format=%F:%s", "--", op.root + "/" + op.relative])
      || (op.FilesystemMetadataRead? && argv == ["stat", "--format=%n:%F:%U:%G:%a:%s:%d:%i", "--", op.root])
      || (op.ApplicationRootVerification? && argv == ["stat", "--format=%n:%F:%U:%G:%a", "--", op.root])
    case "head" => op.SafeFileRead? && argv == ["head", "-c", Decimal(limit), "--", op.root + "/" + op.relative]
    case _ => false
  }

  /** The programs of an operation in the order of its commands: a path is resolved before a root is
      described, and measured and resolved before a file is read. */
  function Programs(op: Operation): seq<string> {
    if op.ConnectionProbe? then ["true"]
    else if op.HostInventory? then ["hostname", "uname", "cat"]
    else if op.WebServerMetadataRead? then ["nginx", "apache2", "httpd"]
    else if op.RuntimeMetadataRead? then ["python3", "node", "php"]
    else if op.NetworkBindingRead? then ["ss"]
    else if op.ServiceMetadataRead? then ["systemctl"]
    else if op.StorageMetadataRead? then ["realpath", "df"]
    else if op.SafeFileRead? then ["stat", "realpath", "head"]
    else ["realpath", "stat"]
  }

  lemma PathIsJoined(u: Tables, op: Operation, target: Target, limit: nat)
    requires op.SafeFileRead? && op.Constructed(u) && CommandsFor(u, op, target, limit).Some?
    ensures op.root != "//" && CommandsFor(u, op, target, limit).value == Templates(op, op.root + "/" + op.relative, limit)
  {
    hide Registered, AbsoluteRoot, RelativePath, JoinApproved, Templates;
    if op.root == "//" { DoubleSlashHasNoPaths(u, op.relative); }
    JoinedPath(u, op.root, op.relative);
  }

  lemma TemplatesServe(op: Operation, path: string, limit: nat, argv: Argv)
    requires op.SafeFileRead? ==> path == op.root + "/" + op.relative
    ensures argv in Templates(op, path, limit) <==> Serves(op, argv, limit)
  {
    ShownIs();
    hide SHOWN, Decimal;
  }

  lemma TemplatesOrder(op: Operation, path: string, limit: nat)
    ensures var commands := Templates(op, path, limit);
            |commands| == |Programs(op)| && forall i | 0 <= i < |commands| :: commands[i] != [] && commands[i][0] == Programs(op)[i]
  {
    hide SHOWN, Decimal;
  }

  /** The commands of an accepted operation are exactly those that serve it, in the order of its
      programs. */
  lemma CommandsServe(u: Tables, op: Operation, target: Target, limit: nat, argv: Argv)
    requires op.Constructed(u) && CommandsFor(u, op, target, limit).Some?
    ensures argv in CommandsFor(u, op, target, limit).value <==> Serves(op, argv, limit)
    ensures var commands := CommandsFor(u, op, target, limit).value;
            |commands| == |Programs(op)| && forall i | 0 <= i < |commands| :: commands[i] != [] && commands[i][0] == Programs(op)[i]
  {
    hide Registered, Templates, Serves, Programs, AbsoluteRoot, RelativePath, Identifier;
    var path := "";
    if op.SafeFileRead? {
      PathIsJoined(u, op, target, limit);
      path := op.root + "/" + op.relative;
    }
    TemplatesServe(op, path, limit, argv);
    TemplatesOrder(op, path, limit);
  }

  // ----- Accepted and generated -----

  /** Some operation on the target makes the command, with a file limit of the profile's or less. */
  ghost predicate Made(u: Tables, target: Target, max: nat, argv: Argv) {
    exists op: Operation, limit: nat ::
      && op.Constructed(u) && 1 <= limit <= max
      && CommandsFor(u, op, target, limit).Some? && argv in CommandsFor(u, op, target, limit).value
  }

  /** A path strictly below a root, whose part below it holds no space and no percent sign. */
  ghost predicate FileBelow(u: Tables, path: string, p: Profile) {
    exists root, below :: root in p.roots && path == root + "/" + below && NoSpaceOrPercent(u, below)
  }

  predicate NoSpaceOrPercent(u: Tables, s: string) {
    forall i | 0 <= i < |s| :: !u.space(s[i]) && s[i] != '%'
  }

  /** The operands are written as the generator writes them. */
  ghost predicate Exact(u: Tables, form: Form, p: Profile) {
    match form
    case Constant => true
    case OfRoot(value) => value in p.roots
    case OfPath(path) => FileBelow(u, path, p)
    case Head(limit, path) => limit != "" && limit[0] != '0' && FileBelow(u, path, p)
    case OfService(_) => true
  }

  lemma OperandsPermitted(u: Tables, op: Operation, target: Target, limit: nat)
    requires CommandsFor(u, op, target, limit).Some?
    ensures op.HasRoot() ==> op.root in target.roots
    ensures op.ServiceMetadataRead? ==> op.service in target.services
  {
    hide Templates, Registered, AbsoluteRoot, RelativePath, JoinApproved;
  }

  lemma ReadIsExact(u: Tables, op: Operation, limit: nat, p: Profile, argv: Argv, form: Form)
    requires op.SafeFileRead? && Serves(op, argv, limit) && Written(argv, form) && 1 <= limit
    requires op.root in p.roots && NoSpaceOrPercent(u, op.relative)
    ensures Exact(u, form, p)
  {
    DecimalStarts(limit);
    var path := op.root + "/" + op.relative;
    assert FileBelow(u, path, p);
    hide Decimal, FileBelow, NoSpaceOrPercent;
    if argv[0] == "head" {
      assert form == Head(Decimal(limit), path);
    } else if argv[0] == "realpath" {
      assert form == OfPath(path);
    } else {
      assert |"--format=%F:%s"| == 14 && |"--format=%n:%F:%U:%G:%a"| == 23 && |"--format=%n:%F:%U:%G:%a:%s:%d:%i"| == 32;
      assert form == OfPath(path);
    }
  }

  lemma OtherIsExact(u: Tables, op: Operation, limit: nat, p: Profile, argv: Argv, form: Form)
    requires !op.SafeFileRead? && Serves(op, argv, limit) && Written(argv, form)
    requires op.HasRoot() ==> op.root in p.roots
    ensures Exact(u, form, p)
  {
    hide Decimal, FileBelow;
    if op.HasRoot() {
      assert |"--format=%F:%s"| == 14 && |"--format=%n:%F:%U:%G:%a"| == 23 && |"--format=%n:%F:%U:%G:%a:%s:%d:%i"| == 32;
      assert form == OfRoot(op.root);
    }
  }

  /** What an operation makes is exact in its form. */
  lemma MadeIsExact(u: Tables, op: Operation, target: Target, limit: nat, p: Profile, argv: Argv, form: Form)
    requires op.Constructed(u) && CommandsFor(u, op, target, limit).Some? && 1 <= limit && p.roots == target.roots
    requires argv in CommandsFor(u, op, target, limit).value && Written(argv, form)
    ensures Exact(u, form, p)
  {
    hide RelativePath, AbsoluteRoot, Identifier, CommandsFor, Serves, Written, Exact;
    CommandsServe(u, op, target, limit, argv);
    OperandsPermitted(u, op, target, limit);
    if op.SafeFileRead? {
      RelativeIsPlain(u, op.relative);
      ReadIsExact(u, op, limit, p, argv, form);
    } else {
      OtherIsExact(u, op, limit, p, argv, form);
    }
  }

  lemma RelativeIsPlain(u: Tables, relative: string)
    requires RelativePath(u, relative) == Some(relative)
    ensures NoSpaceOrPercent(u, relative)
  {
    RelativeShape(u, relative);
    hide Split, SecretPart;
  }

  predicate Unrefused(s: string) { forall i | 0 <= i < |s| :: !Refused(s[i]) }

  lemma {:induction false} ArgumentsUnrefused(line: string, argv: Argv)
    requires Separated(line, argv) && Unrefused(line)
    ensures forall k | 0 <= k < |argv| :: Unrefused(argv[k])
    decreases |argv|
  {
    hide Refused;
    if argv != [] {
      var a, b :| Spaces(a) && line == a + argv[0] + b && (b == "" || b[0] == ' ') && Separated(b, argv[1..]);
      assert forall i | 0 <= i < |argv[0]| :: argv[0][i] == line[|a| + i];
      assert forall i | 0 <= i < |b| :: b[i] == line[|a| + |argv[0]| + i];
      ArgumentsUnrefused(b, argv[1..]);
      assert forall k | 0 < k < |argv| :: argv[k] == argv[1..][k - 1];
    }
  }

  lemma PartsOfPath(names: seq<string>, root: string, below: string)
    requires Proper(names) && names != [] && "/" + Join(names) == root + "/" + below
    ensures [""] + names == Split(root) + Split(below)
    ensures !StartsWith(root, "//")
  {
    JoinIsTight(names);
    SplitJoin(names);
    SplitSlashFree("");
    SplitAtSlash("", Join(names));
    SplitAtSlash(root, below);
    hide Split, Join, Proper;
    var path := root + "/" + below;
    assert "" + "/" + Join(names) == path;
    assert path[1] == Join(names)[0];
    assert |root| > 1 ==> path[1] == root[1];
  }

  lemma SuffixOfParts(a: seq<string>, b: seq<string>, names: seq<string>)
    requires |a| >= 1 && [""] + names == a + b
    ensures forall i | 0 <= i < |b| :: |a| + i - 1 < |names| && b[i] == names[|a| + i - 1]
  {
    forall i | 0 <= i < |b| ensures |a| + i - 1 < |names| && b[i] == names[|a| + i - 1] {
      assert b[i] == (a + b)[|a| + i];
    }
  }

  lemma SegmentsBelow(u: Tables, names: seq<string>, root: string, below: string)
    requires OpenSegments(u, names) && "/" + Join(names) == root + "/" + below
    ensures !StartsWith(root, "//") && forall i | 0 <= i < |Split(below)| :: OpenSegment(u, Split(below)[i])
  {
    OpenIsProper(u, names);
    hide OpenSegment, Split, Proper, Join;
    PartsOfPath(names, root, below);
    RootHasParts(root);
    SuffixOfParts(Split(root), Split(below), names);
  }

  lemma RootHasParts(root: string)
    ensures |Split(root)| >= 1
  {
  }

  lemma BelowIsRelative(u: Tables, below: string)
    requires Unrefused(below) && NoSpaceOrPercent(u, below)
    requires forall i | 0 <= i < |Split(below)| :: OpenSegment(u, Split(below)[i])
    ensures RelativePath(u, below) == Some(below)
  {
    assert |Split(below)| >= 1 && OpenSegment(u, Split(below)[0]);
    assert below != "" && !StartsWith(below, "/");
    forall c ensures Bad(c) <==> Refused(c) { BadIsRefused(c); }
    assert forall i | 0 <= i < |below| :: !Bad(below[i]);
    assert CleanInput(u, below) && '\\' !in below by { hide Split; }
    StripNothing(u, below);
    assert forall i | 0 <= i < |Split(below)| :: !SecretPart(u, Split(below)[i]);
    hide Split, Strip, CleanInput, SecretPart, Bad, Refused;
  }

  lemma RootIsValid(u: Tables, p: Profile, root: string)
    requires ValidProfile(u, p) && root in p.roots
    ensures AbsoluteRoot(u, root) == Some(root)
  {
    hide AbsoluteRoot, Identifier;
    var i :| 0 <= i < |p.roots| && p.roots[i] == root;
  }

  lemma UnrefusedSuffix(s: string, a: string, b: string)
    requires Unrefused(s) && s == a + b
    ensures Unrefused(b)
  {
    hide Refused;
    assert forall i | 0 <= i < |b| :: b[i] == s[|a| + i];
  }

  lemma FileIsRead(u: Tables, path: string, p: Profile, inside: string -> bool) returns (op: Operation)
    requires ValidProfile(u, p) && Reachable(u, path, p, inside) && FileBelow(u, path, p) && Unrefused(path)
    ensures op.SafeFileRead? && op.Constructed(u) && op.root in p.roots && op.root != "//" && path == op.root + "/" + op.relative
  {
    hide AbsoluteRoot, Identifier, OpenSegments, OpenSegment, ValidProfile, NoSpaceOrPercent, Unrefused, RelativePath, Join;
    var root, below :| root in p.roots && path == root + "/" + below && NoSpaceOrPercent(u, below);
    var names :| OpenSegments(u, names) && path == "/" + Join(names);
    RootIsValid(u, p, root);
    SegmentsBelow(u, names, root, below);
    UnrefusedSuffix(path, root + "/", below);
    BelowIsRelative(u, below);
    op := SafeFileRead(root, below);
  }

  lemma OperationMakes(u: Tables, op: Operation, target: Target, limit: nat, max: nat, argv: Argv)
    requires Sane(u) && op.Constructed(u) && SshRefusals.Permitted(op, target) && 1 <= limit <= max && Serves(op, argv, limit)
    ensures Made(u, target, max, argv)
  {
    hide Serves, CommandsFor, Operation.Constructed;
    GeneratorAccepts(u, op, target, limit);
    CommandsServe(u, op, target, limit, argv);
  }

  lemma ExactLimit(limit: string, max: nat) returns (n: nat)
    requires Number(limit, max) && limit != "" && limit[0] != '0'
    ensures 1 <= n <= max && limit == Decimal(n)
  {
    var zeros, m: nat :| Zeros(zeros) && 1 <= m <= max && limit == zeros + Decimal(m);
    assert "" + Decimal(m) == Decimal(m);
    n := m;
  }

  /** Which operation makes a constant command. */
  function OperationOf(argv: Argv): Operation {
    if argv == ["true"] then ConnectionProbe
    else if argv == ["hostname"] || argv == ["uname", "-srm"] || argv == ["cat", "--", "/etc/os-release"] then HostInventory
    else if argv == ["ss", "-lntH"] then NetworkBindingRead
    else if argv == ["nginx", "-V"] || argv == ["apache2", "-v"] || argv == ["httpd", "-v"] then WebServerMetadataRead
    else RuntimeMetadataRead
  }

  lemma ConstantServes(argv: Argv)
    requires Written(argv, Constant)
    ensures Serves(OperationOf(argv), argv, 1) && !OperationOf(argv).HasRoot() && !OperationOf(argv).ServiceMetadataRead?
  {
  }

  function RootOperation(argv: Argv, value: string): Operation {
    if argv == ["df", "-P", "-k", "--", value] then StorageMetadataRead(value)
    else if argv == ["stat", "--format=%n:%F:%U:%G:%a", "--", value] then ApplicationRootVerification(value)
    else FilesystemMetadataRead(value)
  }

  lemma RootServes(argv: Argv, value: string)
    requires Written(argv, OfRoot(value))
    ensures var op := RootOperation(argv, value); Serves(op, argv, 1) && op.HasRoot() && !op.SafeFileRead? && op.root == value
  {
    assert |"--format=%n:%F:%U:%G:%a"| == 23 && |"--format=%n:%F:%U:%G:%a:%s:%d:%i"| == 32;
  }

  lemma ReadServes(op: Operation, argv: Argv, limit: nat)
    requires op.SafeFileRead?
    requires var path := op.root + "/" + op.relative; Written(argv, OfPath(path)) || Written(argv, Head(Decimal(limit), path))
    ensures Serves(op, argv, limit)
  {
    hide Decimal;
  }

  /** What is granted and exact in its form is made by some operation. */
  lemma ExactIsMade(u: Tables, target: Target, p: Profile, inside: string -> bool, argv: Argv, form: Form)
    requires Sane(u) && ValidProfile(u, p) && p.roots == target.roots && p.services == target.services && 1 <= p.maxFileBytes
    requires Written(argv, form) && Granted(u, form, p, inside) && Exact(u, form, p)
    requires forall k | 0 <= k < |argv| :: Unrefused(argv[k])
    ensures Made(u, target, p.maxFileBytes, argv)
  {
    hide Refused, AbsoluteRoot, RelativePath, Identifier, Made, Reachable, FileBelow, Rooted, Decimal, Serves, CommandsFor;
    match form {
      case Constant =>
        ConstantServes(argv);
        OperationMakes(u, OperationOf(argv), target, 1, p.maxFileBytes, argv);
      case OfRoot(value) =>
        hide Unrefused;
        RootServes(argv, value);
        var i :| 0 <= i < |p.roots| && p.roots[i] == value;
        OperationMakes(u, RootOperation(argv, value), target, 1, p.maxFileBytes, argv);
      case OfPath(path) =>
        assert Unrefused(path) by { assert argv[|argv| - 1] == path; }
        var op := FileIsRead(u, path, p, inside);
        ReadServes(op, argv, 1);
        OperationMakes(u, op, target, 1, p.maxFileBytes, argv);
      case Head(limit, path) =>
        assert Unrefused(path) by { assert argv[4] == path; }
        var op := FileIsRead(u, path, p, inside);
        var n := ExactLimit(limit, p.maxFileBytes);
        ReadServes(op, argv, n);
        OperationMakes(u, op, target, n, p.maxFileBytes, argv);
      case OfService(name) =>
        ServiceMade(u, target, p, argv, name);
    }
  }

  lemma ServiceMade(u: Tables, target: Target, p: Profile, argv: Argv, name: string)
    requires Sane(u) && ValidProfile(u, p) && p.services == target.services && 1 <= p.maxFileBytes
    requires Written(argv, OfService(name)) && name in p.services
    ensures Made(u, target, p.maxFileBytes, argv)
  {
    hide AbsoluteRoot, RelativePath, Identifier, Made, CommandsFor;
    var i :| 0 <= i < |p.services| && p.services[i] == name;
    assert Serves(ServiceMetadataRead(name), argv, 1);
    OperationMakes(u, ServiceMetadataRead(name), target, 1, p.maxFileBytes, argv);
  }

  /** Of the commands the wrapper accepts, exactly those are ones that some operation on the profile's
      target makes whose root argument is bare, whose path lies strictly below a root without a space
      or a percent sign, and whose limit has no leading zero. */
  lemma AcceptedAndGenerated(u: Tables, line: string, target: Target, limit: nat, inside: string -> bool, argv: Argv, form: Form)
    requires Sane(u) && ProfileOf(target, limit).Some? && ValidProfile(u, ProfileOf(target, limit).value)
    requires Recognise(u, line, ProfileOf(target, limit).value, inside) == Some(argv) && Written(argv, form)
    requires Granted(u, form, ProfileOf(target, limit).value, inside)
    ensures Made(u, target, limit, argv) <==> Exact(u, form, ProfileOf(target, limit).value)
  {
    var p := ProfileOf(target, limit).value;
    AcceptedCommands(u, line, p, inside, argv);
    assert Unrefused(line);
    ArgumentsUnrefused(line, argv);
    hide Recognise, Written, Granted, Exact, ValidProfile, Separated, Unrefused, Refused, CommandsFor, Operation.Constructed;
    if Exact(u, form, p) { ExactIsMade(u, target, p, inside, argv, form); }
    if Made(u, target, limit, argv) {
      var op: Operation, n: nat :| && op.Constructed(u) && 1 <= n <= limit
                                   && CommandsFor(u, op, target, n).Some? && argv in CommandsFor(u, op, target, n).value;
      MadeIsExact(u, op, target, n, p, argv, form);
    }
  }
}
