/** Custody of runtime keys: leases, reclaiming after a crash, and removal on offboarding. */
module VaultRuntime {
  import opened Common
  import opened Listing
  import opened VaultModel
  import opened VaultInvariant
  import opened VaultRecovery

  // ----- Names -----

  lemma NameFacts(token: string)
    requires |token| == TOKEN_LENGTH
    ensures IsKeyName(KeyName(token)) && !IsLeaseName(KeyName(token)) && KeyName(token)[..TOKEN_LENGTH] == token
    ensures IsLeaseName(LeaseName(token)) && !IsKeyName(LeaseName(token)) && LeaseName(token)[..TOKEN_LENGTH] == token
  {
    assert |KeyName(token)| == 36 && |LeaseName(token)| == 38;
  }

  lemma {:induction false} CommonPrefixOrder(prefix: string, a: string, b: string)
    ensures Before(prefix + a, prefix + b) == Before(a, b)
  {
    if prefix == "" {
      assert prefix + a == a && prefix + b == b;
    } else {
      assert (prefix + a)[1..] == prefix[1..] + a && (prefix + b)[1..] == prefix[1..] + b;
      CommonPrefixOrder(prefix[1..], a, b);
    }
  }

  /** In a listing a key file comes before its lease. */
  lemma KeySortsBeforeLease(token: string)
    ensures Before(KeyName(token), LeaseName(token))
  {
    CommonPrefixOrder(token, ".key", ".lease");
    assert ".key"[1..] == "key" && ".lease"[1..] == "lease";
    assert Before(".key", ".lease");
  }

  // ----- Single runtime writes -----

  predicate IsRuntimeWrite(w: Write) {
    w.MakeScope? || w.PutRuntime? || w.DropRuntime? || w.DropScope?
  }

  /** A write to the runtime directory changes nothing the vault holds. */
  lemma RuntimeKeepsCustody(d: Disk, runtime: map<Ref, RuntimeScope>)
    requires Inv(d)
    ensures var e := d.(runtime := runtime); JournalsOk(e) && CustodyOf(e) == CustodyOf(d)
  {
    var e := d.(runtime := runtime);
    hide LineageOk, AuditOk, RuntimeOk;
    forall id | id in d.journals ensures JournalOk(e, id, e.journals[id]) {
      assert JournalOk(d, id, d.journals[id]);
    }
    assert JournalsOk(e);
    hide RecordsOk, BlobsOk, JournalOk;
    if d.journals != map[] {
      var id := PendingId(d);
      SettledPending(d, id);
      SettledPending(e, id);
    }
    SameCustody(d, e);
  }

  lemma RuntimeStep(d: Disk, w: Write)
    requires Inv(d) && IsRuntimeWrite(w) && RuntimeOk(Apply(d, w))
    ensures Quiet(d, [w]) && Play(d, [w]) == Apply(d, w) && Inv(Apply(d, w))
  {
    var e := Apply(d, w);
    assert e == d.(runtime := e.runtime);
    RuntimeKeepsCustody(d, e.runtime);
    assert Evolves(d, e) && RecordsOk(e) && BlobsOk(e);
    hide JournalsOk, RecordsOk, BlobsOk, RuntimeOk, CustodyOf, IsRuntimeWrite;
    LineageFrame(d, e);
    AuditFrame(d, e);
    hide Apply, LineageOk, AuditOk, Evolves;
    QuietOne(d, w);
  }

  function WithScope(d: Disk, ref: Ref, files: RuntimeScope): Disk {
    d.(runtime := d.runtime[ref := files])
  }

  /** Any file may go except a lease whose key is still there. */
  lemma DropStep(d: Disk, ref: Ref, name: string)
    requires Inv(d) && ref in d.runtime
    requires IsLeaseName(name) ==> KeyName(name[..TOKEN_LENGTH]) !in d.runtime[ref]
    ensures var w := DropRuntime(ref, name);
            && Quiet(d, [w]) && Inv(Apply(d, w))
            && Play(d, [w]) == Apply(d, w) == WithScope(d, ref, d.runtime[ref] - {name})
  {
    var e := Apply(d, DropRuntime(ref, name));
    forall r, n | r in e.runtime && n in e.runtime[r] ensures RuntimeFileOk(e, r, n) {
      assert RuntimeFileOk(d, r, n);
      if r == ref && IsKeyName(n) {
        NameFacts(n[..TOKEN_LENGTH]);
      }
    }
    RuntimeStep(d, DropRuntime(ref, name));
  }

  lemma DropScopeStep(d: Disk, ref: Ref)
    requires Inv(d)
    ensures Quiet(d, [DropScope(ref)]) && Inv(Apply(d, DropScope(ref)))
    ensures Play(d, [DropScope(ref)]) == Apply(d, DropScope(ref))
  {
    var e := Apply(d, DropScope(ref));
    forall r, n | r in e.runtime && n in e.runtime[r] ensures RuntimeFileOk(e, r, n) {
      assert RuntimeFileOk(d, r, n);
    }
    RuntimeStep(d, DropScope(ref));
  }

  // ----- Offboarding: removal in name order -----

  ghost predicate InOrder(names: seq<string>) {
    forall i, k | 0 <= i < k < |names| :: Before(names[i], names[k])
  }

  lemma FileOk(d: Disk, ref: Ref, name: string)
    requires Inv(d) && ref in d.runtime && name in d.runtime[ref]
    ensures RuntimeFileOk(d, ref, name)
  {
  }

  /** In name order, a lease at the front has no key left behind it. */
  lemma LeaseIsLast(names: seq<string>, k: nat)
    requires InOrder(names) && 0 < |names| && k < |names|
    requires IsLeaseName(names[0])
    ensures names[k] != KeyName(names[0][..TOKEN_LENGTH])
  {
    var token := names[0][..TOKEN_LENGTH];
    if names[k] == KeyName(token) {
      NameFacts(token);
      KeySortsBeforeLease(token);
      BeforeIsTransitive(names[0], names[k], names[0]);
      BeforeIsIrreflexive(names[0]);
    }
  }

  /** Removing a scope in name order never strands a key without its lease. */
  lemma {:induction false} RemovalIsSafe(d: Disk, ref: Ref, names: seq<string>)
    requires Inv(d) && ref in d.runtime && InOrder(names)
    requires d.runtime[ref].Keys == set n | n in names
    ensures var p := RemovalPlan(ref, names);
            && p.failure.None? && Quiet(d, p.writes)
            && Play(d, p.writes) == d.(runtime := d.runtime - {ref})
    decreases |names|
  {
    hide Inv, Quiet, Play, Before, RuntimeFileOk;
    if names == [] {
      assert d.runtime[ref] == map[];
      DropScopeStep(d, ref);
    } else {
      var name := names[0];
      assert name in d.runtime[ref];
      KnownName(d, ref, name);
      if IsLeaseName(name) {
        forall k | 0 <= k < |names| ensures names[k] != KeyName(name[..TOKEN_LENGTH]) { LeaseIsLast(names, k); }
      }
      DropStep(d, ref, name);
      var e := Apply(d, DropRuntime(ref, name));
      FirstIsGone(names);
      assert e.runtime[ref].Keys == d.runtime[ref].Keys - {name};
      RemovalIsSafe(e, ref, names[1..]);
      QuietJoin(d, [DropRuntime(ref, name)], RemovalPlan(ref, names[1..]).writes);
      assert e.runtime - {ref} == d.runtime - {ref};
    }
  }

  lemma KnownName(d: Disk, ref: Ref, name: string)
    requires Inv(d) && ref in d.runtime && name in d.runtime[ref]
    ensures IsRuntimeName(name)
  {
    FileOk(d, ref, name);
  }

  lemma FirstIsGone(names: seq<string>)
    requires names != [] && InOrder(names)
    ensures (set n | n in names[1..]) == (set n | n in names) - {names[0]}
  {
    forall n | n in names[1..] ensures n != names[0] && n in names {
      var i :| 0 <= i < |names[1..]| && names[1..][i] == n;
      assert Before(names[0], names[i + 1]);
      BeforeIsIrreflexive(n);
    }
  }

  lemma SortedInOrder(names: set<string>)
    ensures InOrder(Sorted(names))
  {
    forall i, k | 0 <= i < k < |Sorted(names)| ensures Before(Sorted(names)[i], Sorted(names)[k]) {
      SortedIsOrdered(names, i, k);
    }
  }

  lemma RuntimeRemovalIsSafe(d: Disk, ref: Ref)
    requires Inv(d)
    ensures var p := RuntimeRemoval(d, ref);
            && p.failure.None? && Quiet(d, p.writes)
            && Play(d, p.writes) == d.(runtime := d.runtime - {ref})
  {
    if ref in d.runtime {
      SortedInOrder(d.runtime[ref].Keys);
      RemovalIsSafe(d, ref, Sorted(d.runtime[ref].Keys));
    } else {
      assert d.runtime - {ref} == d.runtime;
    }
  }

  // ----- Reclaiming stale material -----

  /** A token survives when both its files are there and its lease names a live process. */
  predicate Survives(files: RuntimeScope, token: string, procs: Processes) {
    && KeyName(token) in files
    && LeaseName(token) in files
    && files[LeaseName(token)].LeaseFile?
    && LeaseLive(files[LeaseName(token)].lease, procs)
  }

  ghost function Survivors(files: RuntimeScope, procs: Processes): RuntimeScope {
    map name | name in files && IsRuntimeName(name) && Survives(files, name[..TOKEN_LENGTH], procs) :: files[name]
  }

  /** The runtime directory with the scopes `refs` reduced to their surviving files. */
  ghost function Reclaimed(runtime: map<Ref, RuntimeScope>, refs: set<Ref>, procs: Processes): map<Ref, RuntimeScope> {
    map ref | ref in runtime && (ref in refs ==> Survivors(runtime[ref], procs) != map[]) ::
      if ref in refs then Survivors(runtime[ref], procs) else runtime[ref]
  }

  /** The files of a scope after the stale ones among `tokens` are removed. */
  ghost function Swept(files: RuntimeScope, tokens: set<string>, procs: Processes): RuntimeScope {
    map name | name in files && !(IsRuntimeName(name) && name[..TOKEN_LENGTH] in tokens
                                  && !Survives(files, name[..TOKEN_LENGTH], procs)) :: files[name]
  }

  lemma StaleTokenIsSafe(d: Disk, ref: Ref, token: string, procs: Processes)
    requires Inv(d) && ref in d.runtime && |token| == TOKEN_LENGTH
    ensures var p := StaleTokenPlan(ref, d.runtime[ref], token, procs);
            && p.failure.None? && Quiet(d, p.writes) && Inv(Play(d, p.writes))
            && Play(d, p.writes) == WithScope(d, ref, Swept(d.runtime[ref], {token}, procs))
  {
    var files := d.runtime[ref];
    var p := StaleTokenPlan(ref, files, token, procs);
    NameFacts(token);
    if KeyName(token) in files { FileOk(d, ref, KeyName(token)); }
    if LeaseName(token) in files { FileOk(d, ref, LeaseName(token)); }
    SweptOne(files, token, procs);
    hide Inv, Quiet, RuntimeFileOk;
    assert d.runtime[ref := files] == d.runtime;
    if KeyName(token) in files && !Survives(files, token, procs) {
      KeyAndLeaseDropped(d, ref, token);
    } else if KeyName(token) !in files && LeaseName(token) in files {
      assert files - {KeyName(token)} == files;
      DropStep(d, ref, LeaseName(token));
    } else {
      assert Swept(files, {token}, procs) == files;
      QuietNothing(d);
    }
  }

  /** A key goes before its lease. */
  lemma KeyAndLeaseDropped(d: Disk, ref: Ref, token: string)
    requires Inv(d) && ref in d.runtime && |token| == TOKEN_LENGTH
    ensures var ws := [DropRuntime(ref, KeyName(token))] + [DropRuntime(ref, LeaseName(token))];
            && Quiet(d, ws) && Inv(Play(d, ws))
            && Play(d, ws) == WithScope(d, ref, d.runtime[ref] - {KeyName(token)} - {LeaseName(token)})
  {
    hide Inv, Quiet;
    NameFacts(token);
    DropStep(d, ref, KeyName(token));
    var e := Apply(d, DropRuntime(ref, KeyName(token)));
    DropStep(e, ref, LeaseName(token));
    QuietJoin(d, [DropRuntime(ref, KeyName(token))], [DropRuntime(ref, LeaseName(token))]);
  }

  lemma QuietNothing(d: Disk)
    requires Inv(d)
    ensures Quiet(d, []) && Play(d, []) == d
  {
  }

  lemma SweptOne(files: RuntimeScope, token: string, procs: Processes)
    requires |token| == TOKEN_LENGTH
    ensures Swept(files, {token}, procs) ==
              if Survives(files, token, procs) then files else files - {KeyName(token)} - {LeaseName(token)}
  {
    NameFacts(token);
    var swept := Swept(files, {token}, procs);
    forall n | n in files ensures n in swept <==> Survives(files, token, procs) || (n != KeyName(token) && n != LeaseName(token)) {
    }
  }

  /** The stale plan of a token depends on that token's two files only. */
  lemma StaleTokenLocal(ref: Ref, a: RuntimeScope, b: RuntimeScope, token: string, procs: Processes)
    requires AgreeOn(a, b, token)
    ensures StaleTokenPlan(ref, a, token, procs) == StaleTokenPlan(ref, b, token, procs)
  {
  }

  predicate AgreeOn(a: RuntimeScope, b: RuntimeScope, token: string) {
    && (KeyName(token) in a <==> KeyName(token) in b)
    && (LeaseName(token) in a <==> LeaseName(token) in b)
    && (LeaseName(token) in a ==> a[LeaseName(token)] == b[LeaseName(token)])
  }

  lemma OthersUntouched(original: RuntimeScope, files: RuntimeScope, t: string, u: string, procs: Processes)
    requires |t| == TOKEN_LENGTH && |u| == TOKEN_LENGTH && t != u && AgreeOn(original, files, u)
    ensures AgreeOn(original, Swept(files, {t}, procs), u)
  {
    NameFacts(t);
    NameFacts(u);
    SweptOne(files, t, procs);
  }

  lemma Overwritten(runtime: map<Ref, RuntimeScope>, ref: Ref, a: RuntimeScope, b: RuntimeScope)
    ensures runtime[ref := a][ref := b] == runtime[ref := b]
  {
  }

  lemma {:induction false} StaleTokensAreSafe(d: Disk, ref: Ref, files: RuntimeScope, tokens: seq<string>, procs: Processes)
    requires Inv(d) && ref in d.runtime && InOrder(tokens)
    requires forall t | t in tokens :: |t| == TOKEN_LENGTH && AgreeOn(files, d.runtime[ref], t)
    ensures var p := StaleTokensPlan(ref, files, tokens, procs);
            && p.failure.None? && Quiet(d, p.writes) && Inv(Play(d, p.writes))
            && Play(d, p.writes) == WithScope(d, ref, Swept(d.runtime[ref], (set t | t in tokens), procs))
    decreases |tokens|
  {
    hide Inv, Quiet, StaleTokenPlan, Survives, AgreeOn, Play;
    var now := d.runtime[ref];
    if tokens == [] {
      assert (set t | t in tokens) == {};
      assert Swept(now, {}, procs) == now;
      assert d.runtime[ref := now] == d.runtime;
      QuietNothing(d);
    } else {
      var t := tokens[0];
      StaleTokenLocal(ref, files, now, t, procs);
      StaleTokenIsSafe(d, ref, t, procs);
      var p := StaleTokenPlan(ref, files, t, procs);
      var e := Play(d, p.writes);
      FirstIsGone(tokens);
      forall u | u in tokens[1..] ensures AgreeOn(files, e.runtime[ref], u) && |u| == TOKEN_LENGTH {
        assert u in tokens && u != t;
        OthersUntouched(files, now, t, u, procs);
      }
      StaleTokensAreSafe(e, ref, files, tokens[1..], procs);
      QuietJoin(d, p.writes, StaleTokensPlan(ref, files, tokens[1..], procs).writes);
      SweptTwice(now, {t}, (set u | u in tokens[1..]), procs);
      assert {t} + (set u | u in tokens[1..]) == set u | u in tokens;
      Overwritten(d.runtime, ref, e.runtime[ref], Swept(now, (set u | u in tokens), procs));
    }
  }

  lemma SweptTwice(files: RuntimeScope, a: set<string>, b: set<string>, procs: Processes)
    requires a !! b
    ensures Swept(Swept(files, a, procs), b, procs) == Swept(files, a + b, procs)
  {
    var once := Swept(files, a, procs);
    forall name | name in files && IsRuntimeName(name) && name[..TOKEN_LENGTH] in b
      ensures Survives(once, name[..TOKEN_LENGTH], procs) == Survives(files, name[..TOKEN_LENGTH], procs)
    {
      NameFacts(name[..TOKEN_LENGTH]);
    }
  }

  lemma StaleScopeIsSafe(d: Disk, ref: Ref, procs: Processes)
    requires Inv(d) && ref in d.runtime
    ensures var p := StaleScopePlan(ref, d.runtime[ref], procs);
            && p.failure.None? && Quiet(d, p.writes) && Inv(Play(d, p.writes))
            && Play(d, p.writes) == d.(runtime := Reclaimed(d.runtime, {ref}, procs))
  {
    var files := d.runtime[ref];
    hide Inv, Quiet, Reclaimed, Swept, Survivors, StaleTokensPlan, Play, IsRuntimeName, Tokens;
    forall name | name in files ensures IsRuntimeName(name) { KnownName(d, ref, name); }
    var tokens := Sorted(Tokens(files));
    SortedInOrder(Tokens(files));
    StaleTokensAreSafe(d, ref, files, tokens, procs);
    var p := StaleTokensPlan(ref, files, tokens, procs);
    var e := Play(d, p.writes);
    assert (set t | t in tokens) == Tokens(files);
    SweptAll(files, procs);
    assert e == WithScope(d, ref, Survivors(files, procs));
    DropScopeStep(e, ref);
    QuietJoin(d, p.writes, [DropScope(ref)]);
    ReclaimedOne(d, ref, procs);
    assert StaleScopePlan(ref, files, procs) == Go(p.writes + [DropScope(ref)]);
  }

  lemma ReclaimedOne(d: Disk, ref: Ref, procs: Processes)
    requires ref in d.runtime
    ensures var e := WithScope(d, ref, Survivors(d.runtime[ref], procs));
            Apply(e, DropScope(ref)) == d.(runtime := Reclaimed(d.runtime, {ref}, procs))
  {
    hide Survivors;
    var left := Survivors(d.runtime[ref], procs);
    assert Reclaimed(d.runtime, {ref}, procs) ==
      if left == map[] then d.runtime[ref := left] - {ref} else d.runtime[ref := left];
  }

  lemma SweptAll(files: RuntimeScope, procs: Processes)
    requires forall name | name in files :: IsRuntimeName(name)
    ensures Swept(files, Tokens(files), procs) == Survivors(files, procs)
  {
  }

  lemma {:induction false} StaleScopesAreSafe(d: Disk, runtime: map<Ref, RuntimeScope>, refs: seq<Ref>, procs: Processes)
    requires Inv(d) && InOrder(refs)
    requires forall ref | ref in refs :: ref in runtime && ref in d.runtime && d.runtime[ref] == runtime[ref]
    ensures var p := StaleScopesPlan(runtime, refs, procs);
            && p.failure.None? && Quiet(d, p.writes) && Inv(Play(d, p.writes))
            && Play(d, p.writes) == d.(runtime := Reclaimed(d.runtime, (set ref | ref in refs), procs))
    decreases |refs|
  {
    hide Inv, Quiet, StaleScopePlan, Survivors;
    if refs == [] {
      assert Reclaimed(d.runtime, {}, procs) == d.runtime;
      assert (set ref | ref in refs) == {};
      QuietNothing(d);
    } else {
      var ref := refs[0];
      StaleScopeIsSafe(d, ref, procs);
      var p := StaleScopePlan(ref, runtime[ref], procs);
      var e := Play(d, p.writes);
      FirstIsGone(refs);
      forall r | r in refs[1..] ensures r in e.runtime && e.runtime[r] == runtime[r] {
        assert r in refs && r != ref;
      }
      StaleScopesAreSafe(e, runtime, refs[1..], procs);
      QuietJoin(d, p.writes, StaleScopesPlan(runtime, refs[1..], procs).writes);
      assert {ref} + (set r | r in refs[1..]) == set r | r in refs;
      ReclaimedTwice(d.runtime, {ref}, (set r | r in refs[1..]), procs);
    }
  }

  lemma ReclaimedTwice(runtime: map<Ref, RuntimeScope>, a: set<Ref>, b: set<Ref>, procs: Processes)
    requires a !! b
    ensures Reclaimed(Reclaimed(runtime, a, procs), b, procs) == Reclaimed(runtime, a + b, procs)
  {
    hide Survivors;
  }

  /** Stale recovery is safe to interrupt anywhere, never fails, and leaves exactly the files of
      tokens whose lease names a live process. */
  lemma StaleRecoveryReclaims(d: Disk, procs: Processes)
    requires Inv(d)
    ensures var p := StaleRecovery(d, procs);
            && p.failure.None? && Quiet(d, p.writes) && Inv(Play(d, p.writes))
            && Play(d, p.writes) == d.(runtime := Reclaimed(d.runtime, d.runtime.Keys, procs))
  {
    hide Inv, Quiet, Reclaimed;
    SortedInOrder(d.runtime.Keys);
    StaleScopesAreSafe(d, d.runtime, Sorted(d.runtime.Keys), procs);
    assert (set ref | ref in Sorted(d.runtime.Keys)) == d.runtime.Keys;
  }
}
