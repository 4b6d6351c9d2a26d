/** Commands the wrapper accepts and no operation of the generator makes. */
module SshInexact {
  import opened Common
  import opened PythonText
  import opened SshCommands
  import opened SshPaths
  import opened SshAgreement
  import opened SshRefusals
  import opened SshSoundness

  const SRV := Target(["/srv"], [])
  const SRV_PROFILE := Profile(["/srv"], [], 9)

  /** Accepted under a profile made from this target, and made by none of its operations. */
  ghost predicate AcceptedNotMade(u: Tables, argv: Argv, inside: string -> bool) {
    && ProfileOf(SRV, 9) == Some(SRV_PROFILE)
    && Recognise(u, Line(argv), SRV_PROFILE, inside) == Some(argv)
    && !Made(u, SRV, 9, argv)
  }

  lemma SrvIsValid(u: Tables)
    requires Sane(u)
    ensures ValidProfile(u, SRV_PROFILE)
  {
    SrvIsPlain();
    assert "/srv" == "/" + "srv" && |"/srv"| == 4;
    assert "/srv" !in BROAD_ROOTS;
    hide AbsoluteRoot, BROAD_ROOTS;
    SegmentRoot(u, "/", "srv");
  }

  lemma SrvIsPlain()
    ensures PlainSegment("srv")
  {
    hide INPUT_FORBIDDEN;
    forall c: char | 'a' <= c <= 'z' ensures c !in INPUT_FORBIDDEN { LetterIsAllowed(c); }
  }

  /** An argument that neither splits nor holds a refused character. */
  predicate Whole(s: string) { s != "" && NoGap(s) && !HasBad(s) }

  /** A granted form that is not exact is such a command. */
  lemma InexactIsAccepted(u: Tables, argv: Argv, form: Form, inside: string -> bool)
    requires Sane(u) && Written(argv, form) && Granted(u, form, SRV_PROFILE, inside) && !Exact(u, form, SRV_PROFILE)
    requires forall i | 0 <= i < |argv| :: Whole(argv[i])
    ensures AcceptedNotMade(u, argv, inside)
  {
    SrvIsValid(u);
    HasBadLine(argv);
    WordsOfLine(argv);
    var line := Line(argv);
    RefusedIsBad(line);
    assert Printable(line) by { hide Line; }
    SplitIsSeparated(line);
    hide Recognise, Written, Granted, Exact, ValidProfile, Line, Words, Separated, Refused, HasBad, NoGap, Printable, Made;
    AcceptedCommands(u, line, SRV_PROFILE, inside, argv);
    AcceptedAndGenerated(u, line, SRV, 9, inside, argv, form);
  }

  lemma SafeIsWhole(s: string)
    requires s != "" && forall i | 0 <= i < |s| :: SshAgreement.Safe(s[i])
    ensures Whole(s)
  {
    SafeIsToken(s);
    PlainToken(s);
  }

  lemma ReachesBelow(u: Tables, name: string, inside: string -> bool)
    requires FoldsLetters(u) && OpenSegment(u, name) && inside("/srv/" + name)
    ensures Reachable(u, "/srv/" + name, SRV_PROFILE, inside)
  {
    SrvIsOpen(u);
    var names := ["srv", name];
    assert OpenSegments(u, names);
    assert names[1..] == [name];
    assert "/" + Join(names) == "/srv/" + name;
    assert SRV_PROFILE.roots[0] + "/" <= "/srv/" + name;
  }

  lemma SrvIsOpen(u: Tables)
    requires FoldsLetters(u)
    ensures OpenSegment(u, "srv")
  {
    LettersFold(u, "srv");
    assert |"srv"| == 3;
  }

  lemma OneBelow(u: Tables, path: string)
    requires FileBelow(u, path, SRV_PROFILE)
    ensures |path| > 4 && NoSpaceOrPercent(u, path[5..])
  {
    var root, below :| root in SRV_PROFILE.roots && path == root + "/" + below && NoSpaceOrPercent(u, below);
    assert path[5..] == below;
  }

  /** A read of an approved root itself. */
  lemma BareRootIsAccepted(u: Tables, inside: string -> bool)
    requires Sane(u) && FoldsLetters(u) && inside("/srv")
    ensures AcceptedNotMade(u, ["realpath", "--", "/srv"], inside)
  {
    SrvIsOpen(u);
    assert OpenSegments(u, ["srv"]) && "/" + Join(["srv"]) == "/srv";
    assert Reachable(u, "/srv", SRV_PROFILE, inside) by { assert SRV_PROFILE.roots[0] == "/srv"; }
    if FileBelow(u, "/srv", SRV_PROFILE) { OneBelow(u, "/srv"); }
    SafeIsWhole("realpath"); SafeIsWhole("--"); SafeIsWhole("/srv");
    hide Whole, Reachable, FileBelow, AcceptedNotMade;
    InexactIsAccepted(u, ["realpath", "--", "/srv"], OfPath("/srv"), inside);
  }

  /** A path with a percent sign. */
  lemma PercentIsAccepted(u: Tables, inside: string -> bool)
    requires Sane(u) && FoldsLetters(u) && u.fold('%') == "%" && inside("/srv/%")
    ensures AcceptedNotMade(u, ["realpath", "--", "/srv/%"], inside)
  {
    assert Fold(u, "%") == "%" by { assert "%"[1..] == ""; }
    assert |"%"| == 1 && OpenSegment(u, "%");
    assert "/srv/" + "%" == "/srv/%";
    ReachesBelow(u, "%", inside);
    assert "/srv/%"[5..] == "%" && "%"[0] == '%';
    if FileBelow(u, "/srv/%", SRV_PROFILE) { OneBelow(u, "/srv/%"); }
    SafeIsWhole("realpath"); SafeIsWhole("--"); SafeIsWhole("/srv/%");
    hide Whole, Reachable, FileBelow, AcceptedNotMade;
    InexactIsAccepted(u, ["realpath", "--", "/srv/%"], OfPath("/srv/%"), inside);
  }

  /** A limit with a leading zero. */
  lemma PaddedLimitIsAccepted(u: Tables, inside: string -> bool)
    requires Sane(u) && FoldsLetters(u) && inside("/srv/b")
    ensures AcceptedNotMade(u, ["head", "-c", "09", "--", "/srv/b"], inside)
  {
    LettersFold(u, "b");
    assert |"b"| == 1 && OpenSegment(u, "b");
    assert "/srv/" + "b" == "/srv/b";
    ReachesBelow(u, "b", inside);
    assert Number("09", 9) by { assert Decimal(9) == "9" && Zeros("0") && "0" + "9" == "09"; }
    SafeIsWhole("head"); SafeIsWhole("-c"); SafeIsWhole("09"); SafeIsWhole("--"); SafeIsWhole("/srv/b");
    hide Whole, Reachable, FileBelow, AcceptedNotMade, Number;
    InexactIsAccepted(u, ["head", "-c", "09", "--", "/srv/b"], Head("09", "/srv/b"), inside);
  }

  /** A root with a no-break space after it, which stripping removes and splitting keeps. */
  lemma PaddedRootIsAccepted(u: Tables, inside: string -> bool)
    requires Sane(u) && u.space('\U{00A0}')
    ensures AcceptedNotMade(u, ["df", "-P", "-k", "--", "/srv\U{00A0}"], inside)
  {
    var value := "/srv\U{00A0}";
    assert Blank(u, "") && Blank(u, "\U{00A0}") && value == "" + SRV_PROFILE.roots[0] + "\U{00A0}";
    assert Rooted(u, value, SRV_PROFILE);
    assert |value| == 5 && |"/srv"| == 4;
    SafeIsWhole("df"); SafeIsWhole("-P"); SafeIsWhole("-k"); SafeIsWhole("--");
    assert Whole(value) by {
      SafeIsWhole("/srv");
      HasBadConcat("/srv", "\U{00A0}");
    }
    hide Whole, Rooted, AcceptedNotMade;
    InexactIsAccepted(u, ["df", "-P", "-k", "--", value], OfRoot(value), inside);
  }
}
