/** Commands the generator makes and the wrapper refuses. */
module SshRefusals {
  import opened Common
  import opened PythonText
  import opened SshCommands
  import opened SshPaths
  import opened SshAgreement

  // ----- What the generator accepts -----

  lemma PrefixIsRegistered(u: Tables, prefix: Argv, last: string)
    requires prefix != [] && prefix[0] in PROGRAMS && AllTokens(prefix) && last != "" && CleanInput(u, last)
    ensures Registered(prefix + [last])
  {
    hide PROGRAMS;
    var argv := prefix + [last];
    forall i | 0 <= i < |argv|
      ensures argv[i] != ""
      ensures forall k | 0 <= k < |argv[i]| :: argv[i][k] !in INPUT_FORBIDDEN && argv[i][k] as int >= 32
    {
      if i < |prefix| { TokenIsRegistered(prefix[i]); }
    }
  }

  lemma TokenIsRegistered(s: string)
    requires Token(s)
    ensures s != "" && forall k | 0 <= k < |s| :: s[k] !in INPUT_FORBIDDEN && s[k] as int >= 32
  {
    hide QUOTING, INPUT_FORBIDDEN;
    assert forall k | 0 <= k < |s| :: !Bad(s[k]);
  }

  lemma FixedIsRegistered(argv: Argv)
    requires argv in FIXED
    ensures Registered(argv)
  {
    FixedPrograms(argv);
    assert argv[0] in PROGRAMS;
    hide FIXED, PROGRAMS, Token;
    forall i | 0 <= i < |argv|
      ensures argv[i] != ""
      ensures forall k | 0 <= k < |argv[i]| :: argv[i][k] !in INPUT_FORBIDDEN && argv[i][k] as int >= 32
    {
      TokenIsRegistered(argv[i]);
    }
  }

  /** The root or service is the target's, and a file read is not below the root of two separators. */
  predicate Permitted(op: Operation, target: Target) {
    && (op.HasRoot() ==> op.root in target.roots)
    && (op.ServiceMetadataRead? ==> op.service in target.services)
    && (op.SafeFileRead? ==> op.root != "//")
  }

  lemma RootCommandsRegistered(u: Tables, op: Operation, i: nat)
    requires op.HasRoot() && !op.SafeFileRead? && op.Constructed(u) && i < 2
    ensures Registered(Templates(op, "", 0)[i])
  {
    var argv := Templates(op, "", 0)[i];
    RootPrefix(op, i);
    hide Registered, AbsoluteRoot, AllTokens, CleanInput, Names, Split, Anchor, Proper, Join, Templates;
    RootShape(u, op.root);
    var prefix := argv[..|argv| - 1];
    RootPrefixTokens(prefix);
    assert prefix[0] in PROGRAMS;
    PrefixIsRegistered(u, prefix, op.root);
  }

  lemma ReadCommandsRegistered(u: Tables, op: Operation, limit: nat, i: nat)
    requires Sane(u) && op.SafeFileRead? && op.Constructed(u) && i < 3
    ensures Registered(Templates(op, op.root + "/" + op.relative, limit)[i])
  {
    hide Registered, AbsoluteRoot, RelativePath, AllTokens, CleanInput, Names, Split, Anchor, Proper, Join, Decimal,
         Unquoted;
    RootShape(u, op.root);
    RelativeShape(u, op.relative);
    var path := op.root + "/" + op.relative;
    PathCharacters(u, op.root, op.relative);
    ReadPrefixTokens(i, limit);
    assert ReadPrefix(i, limit)[0] in PROGRAMS;
    assert Templates(op, path, limit)[i] == ReadPrefix(i, limit) + [path];
    PrefixIsRegistered(u, ReadPrefix(i, limit), path);
  }

  lemma ServiceCommandRegistered(u: Tables, service: string)
    requires Identifier(u, service)
    ensures Registered(["systemctl", "show", "--no-pager", SHOWN, service])
  {
    hide Registered, Identifier, CleanInput;
    IdentifierIsClean(u, service);
    ServiceProgram();
    var prefix := ["systemctl", "show", "--no-pager", SHOWN];
    assert prefix[0] in PROGRAMS;
    assert prefix + [service] == ["systemctl", "show", "--no-pager", SHOWN, service];
    PrefixIsRegistered(u, prefix, service);
  }

  /** The generator accepts a constructed operation exactly when it is permitted: no path of a valid
      root or file is turned away for its characters. */
  lemma GeneratorAccepts(u: Tables, op: Operation, target: Target, limit: nat)
    requires Sane(u) && op.Constructed(u)
    ensures CommandsFor(u, op, target, limit).Some? <==> Permitted(op, target)
  {
    hide Registered, AbsoluteRoot, RelativePath, JoinApproved, Identifier, Decimal, SHOWN;
    if Permitted(op, target) {
      if op.SafeFileRead? {
        JoinedPath(u, op.root, op.relative);
        forall i | 0 <= i < 3 ensures Registered(Templates(op, op.root + "/" + op.relative, limit)[i]) {
          ReadCommandsRegistered(u, op, limit, i);
        }
      } else if op.HasRoot() {
        RootCommandsRegistered(u, op, 0);
        RootCommandsRegistered(u, op, 1);
      } else if op.ServiceMetadataRead? {
        ServiceCommandRegistered(u, op.service);
      } else {
        var commands := Templates(op, "", limit);
        forall i | 0 <= i < |commands| ensures Registered(commands[i]) {
          assert commands[i] in FIXED;
          FixedIsRegistered(commands[i]);
        }
      }
    } else if op.SafeFileRead? && op.root == "//" {
      DoubleSlashHasNoPaths(u, op.relative);
    }
  }

  // ----- Generated and refused -----

  /** On a target with this root alone, the operation is generated and each of its commands refused. */
  predicate GeneratedAndRefused(u: Tables, op: Operation, inside: string -> bool)
    requires op.HasRoot()
  {
    var target := Target([op.root], []);
    && op.Constructed(u) && CommandsFor(u, op, target, 1).Some? && ProfileOf(target, 1).Some?
    && CommandsFor(u, op, target, 1).value != []
    && forall i | 0 <= i < |CommandsFor(u, op, target, 1).value| ::
         Recognise(u, Line(CommandsFor(u, op, target, 1).value[i]), ProfileOf(target, 1).value, inside) == None
  }

  /** Every constructed operation that is not deliverable is such an operation. */
  lemma UndeliverableIsRefused(u: Tables, op: Operation, inside: string -> bool)
    requires Sane(u) && op.HasRoot() && op.Constructed(u) && !Deliverable(u, op, inside)
    requires op.SafeFileRead? ==> op.root != "//"
    ensures GeneratedAndRefused(u, op, inside)
  {
    var target := Target([op.root], []);
    GeneratorAccepts(u, op, target, 1);
    CommandsExist(u, op, target);
    var commands := CommandsFor(u, op, target, 1).value;
    hide CommandsFor, Recognise, Line, Deliverable, Operation.Constructed;
    forall i | 0 <= i < |commands| ensures Recognise(u, Line(commands[i]), ProfileOf(target, 1).value, inside) == None {
      GeneratedCommandsAreRecognised(u, op, target, 1, inside, i);
    }
  }

  lemma CommandsExist(u: Tables, op: Operation, target: Target)
    requires CommandsFor(u, op, target, 1).Some?
    ensures CommandsFor(u, op, target, 1).value != []
  {
    hide Registered, JoinApproved;
  }

  // ----- Three of them -----

  /** A single path segment of plain characters; a quote is one of them. */
  predicate PlainSegment(name: string) {
    && name != "" && name != "." && name != ".." && '/' !in name && ',' !in name
    && forall i | 0 <= i < |name| :: 33 <= name[i] as int < 127 && name[i] !in INPUT_FORBIDDEN
  }

  lemma StripNothing(u: Tables, s: string)
    requires s != "" && !u.space(s[0]) && !u.space(s[|s| - 1])
    ensures Strip(u, s) == s
  {
  }

  lemma SplitSegment(anchor: string, name: string)
    requires '/' !in name && (anchor == "/" || anchor == "//")
    ensures Names(Split(anchor + name)) == Names([name])
  {
    SplitSlashFree(name);
    if anchor == "/" {
      SplitSlashFree("");
      SplitAtSlash("", name);
      assert "" + "/" + name == anchor + name;
      NamesConcat([""], [name]);
    } else {
      DoubleSlashSplits(name);
    }
  }

  lemma SegmentNames(anchor: string, name: string)
    requires PlainSegment(name) && (anchor == "/" || anchor == "//")
    ensures Names(Split(anchor + name)) == [name] && Anchor(anchor + name) == anchor
  {
    hide INPUT_FORBIDDEN;
    SplitSegment(anchor, name);
    assert Names([name]) == [name];
    hide Names, Split;
    assert name[0] != '/';
    var s := anchor + name;
    assert s[0] == '/' && s[|anchor|] == name[0];
  }

  lemma SegmentRoot(u: Tables, anchor: string, name: string)
    requires Sane(u) && PlainSegment(name) && (anchor == "/" || anchor == "//") && anchor + name !in BROAD_ROOTS
    ensures AbsoluteRoot(u, anchor + name) == Some(anchor + name)
  {
    hide BROAD_ROOTS, INPUT_FORBIDDEN;
    var s := anchor + name;
    SegmentNames(anchor, name);
    assert s[0] == '/' && s[|s| - 1] == name[|name| - 1];
    StripNothing(u, s);
    assert CleanInput(u, s) by { SegmentIsClean(u, anchor, name); }
    hide Names, Split, Strip, CleanInput, Anchor;
    assert Normal(s) == s;
    assert s != "/" && ',' !in s;
    assert StartsWith(s, "/");
  }

  lemma SegmentIsClean(u: Tables, anchor: string, name: string)
    requires Sane(u) && PlainSegment(name) && (anchor == "/" || anchor == "//")
    ensures CleanInput(u, anchor + name) && CleanInput(u, name)
  {
    assert '/' !in INPUT_FORBIDDEN;
    hide INPUT_FORBIDDEN;
  }

  lemma SegmentFile(u: Tables, name: string)
    requires Sane(u) && PlainSegment(name) && '\\' !in name && '%' !in name && !SecretPart(u, name)
    ensures RelativePath(u, name) == Some(name)
  {
    hide INPUT_FORBIDDEN, SecretPart;
    StripNothing(u, name);
    SplitSlashFree(name);
    SegmentIsClean(u, "/", name);
    assert name[0] != '/';
    hide Split, Strip, CleanInput;
  }

  /** A root holding a quote: its metadata commands are generated and refused. */
  lemma QuotedRootIsRefused(u: Tables, inside: string -> bool)
    requires Sane(u)
    ensures GeneratedAndRefused(u, FilesystemMetadataRead("/a'b"), inside)
  {
    hide AbsoluteRoot, GeneratedAndRefused;
    assert PlainSegment("a'b");
    assert "/a'b" == "/" + "a'b" && "/a'b"[2] == '\'';
    SegmentRoot(u, "/", "a'b");
    UndeliverableIsRefused(u, FilesystemMetadataRead("/a'b"), inside);
  }

  /** Lower-case letters fold to themselves. */
  ghost predicate FoldsLetters(u: Tables) { forall c: char | 'a' <= c <= 'z' :: u.fold(c) == [c] }

  lemma {:induction false} LettersFold(u: Tables, s: string)
    requires FoldsLetters(u) && forall i | 0 <= i < |s| :: 'a' <= s[i] <= 'z'
    ensures Fold(u, s) == s
  {
    if s != "" {
      LettersFold(u, s[1..]);
      assert [s[0]] + s[1..] == s;
    }
  }

  lemma LetterFile(u: Tables)
    requires Sane(u) && FoldsLetters(u)
    ensures RelativePath(u, "b") == Some("b")
  {
    LettersFold(u, "b");
    assert |"b"| == 1 && "b" !in SECRET_PATH_PARTS;
    assert PlainSegment("b");
    SegmentFile(u, "b");
  }

  /** A file read below a root that begins with two separators. */
  lemma DoubledRootIsRefused(u: Tables, inside: string -> bool)
    requires Sane(u) && FoldsLetters(u)
    ensures GeneratedAndRefused(u, SafeFileRead("//a", "b"), inside)
  {
    LetterFile(u);
    assert PlainSegment("a");
    assert "//a" == "//" + "a" && "//a"[1] == '/';
    SegmentRoot(u, "//", "a");
    assert StartsWith("//a", "//");
    hide AbsoluteRoot, RelativePath, GeneratedAndRefused;
    UndeliverableIsRefused(u, SafeFileRead("//a", "b"), inside);
  }

  lemma ShadowIsSecret(u: Tables)
    requires FoldsLetters(u)
    ensures SecretPart(u, "shadow")
  {
    LettersFold(u, "shadow");
  }

  lemma ShadowIsPlain()
    ensures PlainSegment("shadow")
  {
    hide INPUT_FORBIDDEN;
    forall c: char | 'a' <= c <= 'z' ensures c !in INPUT_FORBIDDEN { LetterIsAllowed(c); }
  }

  lemma LetterIsAllowed(c: char)
    requires 'a' <= c <= 'z'
    ensures c !in INPUT_FORBIDDEN
  {
  }

  lemma ShadowRoot(u: Tables)
    requires Sane(u) && FoldsLetters(u)
    ensures AbsoluteRoot(u, "/shadow") == Some("/shadow") && !NoSecretNames(u, "/shadow")
  {
    hide AbsoluteRoot, Names, Split, PlainSegment, SecretPart, Anchor;
    ShadowIsPlain();
    ShadowIsSecret(u);
    assert "/shadow" == "/" + "shadow" && |"/shadow"| == 7;
    SegmentNames("/", "shadow");
    SegmentRoot(u, "/", "shadow");
    assert ["shadow"][0] == "shadow";
  }

  /** A file read below a root that has a secret-named segment. */
  lemma SecretRootIsRefused(u: Tables, inside: string -> bool)
    requires Sane(u) && FoldsLetters(u)
    ensures GeneratedAndRefused(u, SafeFileRead("/shadow", "b"), inside)
  {
    LetterFile(u);
    ShadowRoot(u);
    hide AbsoluteRoot, RelativePath, GeneratedAndRefused, NoSecretNames;
    assert |"/shadow"| == 7;
    UndeliverableIsRefused(u, SafeFileRead("/shadow", "b"), inside);
  }
}
