/** When two calls exclude each other: the scope strings that the ledger compares. */
module DatabaseScopes {
  import opened Common
  import opened DatabaseCall

  /** The text cut at every colon. */
  function Cut(s: string): (parts: seq<string>)
    ensures parts != []
  {
    if s == "" then [""]
    else
      var rest := Cut(s[1..]);
      if s[0] == ':' then [""] + rest else [[s[0]] + rest[0]] + rest[1..]
  }

  function Glued(parts: seq<string>): string {
    if parts == [] then "" else if |parts| == 1 then parts[0] else parts[0] + ":" + Glued(parts[1..])
  }

  lemma {:induction false} CutConcat(a: string, b: string)
    ensures Cut(a + ":" + b) == Cut(a) + Cut(b)
    decreases |a|
  {
    if a == "" {
      assert (a + ":" + b)[1..] == b;
    } else {
      assert (a + ":" + b)[1..] == a[1..] + ":" + b;
      CutConcat(a[1..], b);
    }
  }

  lemma {:induction false} GluedCut(s: string)
    ensures Glued(Cut(s)) == s
    decreases |s|
  {
    if s != "" {
      GluedCut(s[1..]);
      var rest := Cut(s[1..]);
      if s[0] == ':' {
        assert ([""] + rest)[1..] == rest;
      } else {
        var parts := [[s[0]] + rest[0]] + rest[1..];
        assert parts[1..] == rest[1..];
        assert Glued(parts) == [s[0]] + Glued(rest);
      }
    }
  }

  lemma {:induction false} CutWhole(s: string)
    requires ':' !in s
    ensures Cut(s) == [s]
    decreases |s|
  {
    if s != "" {
      assert s[0] in s && forall c | c in s[1..] :: c in s;
      CutWhole(s[1..]);
      assert [s[0]] + s[1..] == s;
    }
  }

  /** What a call works on, in the order its scope names it. */
  function Subject(call: Call): seq<string> {
    match call
    case Dump(tenant, application, database, environment, _, _) => [tenant, application, database, environment]
    case Restore(target, _, _, _) => [target.tenant, target.application, target.reference]
  }

  function CutAll(parts: seq<string>): seq<string> {
    if parts == [] then [] else Cut(parts[0]) + CutAll(parts[1..])
  }

  lemma FourParts(t: string, a: string, d: string, e: string)
    ensures Cut(t + ":" + a + ":" + d + ":" + e) == CutAll([t, a, d, e])
  {
    hide Cut;
    CutFour(t, a, d, e);
    CutConcat(t + ":" + a + ":" + d, e);
    CutConcat(t + ":" + a, d);
    CutConcat(t, a);
  }

  lemma ThreeParts(t: string, a: string, r: string)
    ensures Cut(t + ":" + a + ":" + r) == CutAll([t, a, r])
  {
    hide Cut;
    CutThree(t, a, r);
    CutConcat(t + ":" + a, r);
    CutConcat(t, a);
  }

  lemma ScopeIsCut(call: Call)
    ensures Cut(call.Scope()) == CutAll(Subject(call))
  {
    hide Cut, CutAll;
    match call {
      case Dump(t, a, d, e, _, _) => FourParts(t, a, d, e);
      case Restore(target, _, _, _) => ThreeParts(target.tenant, target.application, target.reference);
    }
  }

  lemma CutThree(t: string, a: string, r: string)
    ensures CutAll([t, a, r]) == Cut(t) + (Cut(a) + (Cut(r) + []))
  {
    hide Cut;
    assert [t, a, r][1..] == [a, r] && [a, r][1..] == [r] && [r][1..] == [];
    assert CutAll([r]) == Cut(r) + CutAll([]);
    assert CutAll([a, r]) == Cut(a) + CutAll([r]);
  }

  lemma CutFour(t: string, a: string, d: string, e: string)
    ensures CutAll([t, a, d, e]) == Cut(t) + (Cut(a) + (Cut(d) + (Cut(e) + [])))
  {
    hide Cut;
    assert [t, a, d, e][1..] == [a, d, e];
    CutThree(a, d, e);
  }

  /** Two calls share a scope exactly when their subjects, cut at colons, read the same. */
  lemma SharedScopes(a: Call, b: Call)
    ensures a.Scope() == b.Scope() <==> CutAll(Subject(a)) == CutAll(Subject(b))
  {
    ScopeIsCut(a);
    ScopeIsCut(b);
    GluedCut(a.Scope());
    GluedCut(b.Scope());
    hide Cut, Glued, Call.Scope, Subject, CutAll;
  }

  predicate Plain(call: Call) {
    forall i | 0 <= i < |Subject(call)| :: ':' !in Subject(call)[i]
  }

  lemma {:induction false} CutPlain(parts: seq<string>)
    requires forall i | 0 <= i < |parts| :: ':' !in parts[i]
    ensures CutAll(parts) == parts
    decreases |parts|
  {
    if parts != [] {
      CutWhole(parts[0]);
      CutPlain(parts[1..]);
      assert parts == [parts[0]] + parts[1..];
    }
  }

  /** Without colons in their identifiers two calls share a scope only if they are of one kind and work
      on the same tenant, application and database or target. */
  lemma PlainScopesAreApart(a: Call, b: Call)
    requires Plain(a) && Plain(b)
    ensures a.Scope() == b.Scope() <==> Subject(a) == Subject(b)
    ensures a.Scope() == b.Scope() ==> a.Dump? == b.Dump?
  {
    SharedScopes(a, b);
    CutPlain(Subject(a));
    CutPlain(Subject(b));
  }

  /** With colons two tenants can exclude each other. */
  lemma TenantsCanShareAScope(environment: string, key: string, fingerprint: string)
    ensures Call.Dump("a:b", "c", "d", environment, key, fingerprint).Scope()
         == Call.Dump("a", "b:c", "d", environment, key, fingerprint).Scope()
  {
    var rest := ":" + "d" + ":" + environment;
    assert "a:b" + ":" + "c" == "a" + ":" + "b:c";
  }

  /** And so can a dump and a restore. */
  lemma DumpAndRestoreCanShareAScope(key: string, fingerprint: string, manifest: Manifest, target: Target)
    requires target.tenant == "t" && target.application == "a" && target.reference == "d:test"
    ensures Call.Dump("t", "a", "d", "test", key, fingerprint).Scope() == Call.Restore(target, manifest, key, fingerprint).Scope()
  {
    assert "d" + ":" + "test" == "d:test";
    assert "t" + ":" + "a" + ":" + "d" + ":" + "test" == "t" + ":" + "a" + ":" + ("d" + ":" + "test");
  }
}
