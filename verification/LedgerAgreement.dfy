/** The two ledgers give the same decisions, and what that depends on. */
module LedgerAgreement {
  import opened Common
  import opened LedgerModel

  // ----- Invariants -----

  /** The active scopes are exactly the scopes with an unfinished entry, at most one for each. */
  predicate Coherent<O>(m: Memory<O>) {
    && m.active == UnfinishedScopes(m)
    && forall a, b | a in m.entries && b in m.entries && Unfinished(m, a) && Unfinished(m, b) && a.0 == b.0 :: a == b
  }

  /** The partial unique index. */
  predicate SingleFlight<J>(t: Table<J>) {
    forall a, b | a in t && b in t && t[a].status.Busy() && t[b].status.Busy() && a.0 == b.0 :: a == b
  }

  lemma ScopeOfUnfinished<O>(m: Memory<O>, id: Id)
    requires Unfinished(m, id)
    ensures id.0 in UnfinishedScopes(m)
  {
  }

  lemma ClaimKeepsCoherent<O>(m: Memory<O>, id: Id, digest: string)
    requires Coherent(m)
    ensures Coherent(ClaimInMemory(m, id, digest).0)
  {
    var next := ClaimInMemory(m, id, digest).0;
    if next != m {
      forall a | a in m.entries && Unfinished(m, a) ensures a.0 in m.active { ScopeOfUnfinished(m, a); }
      assert Unfinished(next, id);
      assert forall a: Id | a != id :: Unfinished(next, a) <==> Unfinished(m, a);
      assert UnfinishedScopes(next) == UnfinishedScopes(m) + {id.0} by {
        forall s | s in UnfinishedScopes(m) ensures s in UnfinishedScopes(next) {
          var a :| a in m.entries && Unfinished(m, a) && a.0 == s;
          assert Unfinished(next, a);
        }
      }
    }
  }

  lemma RestartKeepsCoherent<O>(m: Memory<O>)
    requires Coherent(m)
    ensures InMemory(m, Restart).0 == m
  {
  }

  /** Completing keeps the invariant exactly when the claim is unfinished or its scope is idle. */
  lemma CompletingKeepsCoherent<O>(m: Memory<O>, id: Id, outcome: O)
    requires Coherent(m) && id in m.entries
    ensures Coherent(CompleteInMemory(m, id, outcome)) <==> (Unfinished(m, id) || id.0 !in m.active)
  {
    var next := CompleteInMemory(m, id, outcome);
    assert forall a: Id | a != id :: Unfinished(next, a) <==> Unfinished(m, a);
    assert !Unfinished(next, id);
    if Unfinished(m, id) || id.0 !in m.active {
      forall s ensures s in next.active <==> s in UnfinishedScopes(next) {
        if s in next.active {
          var a :| a in m.entries && Unfinished(m, a) && a.0 == s;
          assert Unfinished(next, a);
        }
        if s in UnfinishedScopes(next) {
          var a :| a in next.entries && Unfinished(next, a) && a.0 == s;
          ScopeOfUnfinished(m, a);
          if s == id.0 { assert Unfinished(m, id) ==> a == id; }
        }
      }
    } else {
      var a :| a in m.entries && Unfinished(m, a) && a.0 == id.0;
      ScopeOfUnfinished(next, a);
    }
  }

  /** Claim and complete `a`, claim `b`, complete `a` again, claim `c`, all in one scope. */
  function RepeatedCompletion<O>(outcome: O): seq<Request<O>> {
    [Claim(("s", "a"), "d"), Complete(("s", "a"), outcome), Claim(("s", "b"), "d"),
     Complete(("s", "a"), outcome), Claim(("s", "c"), "d")]
  }

  /** Completing a finished claim: the memory ledger then grants `c` although `b` is unfinished. */
  lemma RepeatedCompletionInMemory<O>(outcome: O)
    ensures MemoryAnswers(EmptyMemory(), RepeatedCompletion(outcome))
            == [Decided(New), Completed, Decided(New), Completed, Decided(New)]
  {
    var calls := RepeatedCompletion(outcome);
    var m1 := InMemory(EmptyMemory(), calls[0]).0;
    var m2 := InMemory(m1, calls[1]).0;
    var m3 := InMemory(m2, calls[2]).0;
    var m4 := InMemory(m3, calls[3]).0;
    assert calls[1..][1..] == calls[2..] && calls[2..][1..] == calls[3..];
    assert calls[3..][1..] == calls[4..] && calls[4..][1..] == [];
    assert MemoryAnswers(m4, calls[4..]) == [Decided(New)];
    assert MemoryAnswers(m3, calls[3..]) == [Completed, Decided(New)];
    assert MemoryAnswers(m2, calls[2..]) == [Decided(New), Completed, Decided(New)];
    assert MemoryAnswers(m1, calls[1..]) == [Completed, Decided(New), Completed, Decided(New)];
  }

  /** The table does not. */
  lemma RepeatedCompletionInTable<O, J>(f: Format<O, J>, outcome: O)
    requires f.serialize(outcome).Some?
    ensures TableAnswers(f, map[], RepeatedCompletion(outcome))
            == [Decided(New), Completed, Decided(New), Completed, Decided(Active)]
  {
    var calls := RepeatedCompletion(outcome);
    var t1 := InTable(f, map[], calls[0]).0;
    var t2 := InTable(f, t1, calls[1]).0;
    var t3 := InTable(f, t2, calls[2]).0;
    var t4 := InTable(f, t3, calls[3]).0;
    assert calls[1..][1..] == calls[2..] && calls[2..][1..] == calls[3..];
    assert calls[3..][1..] == calls[4..] && calls[4..][1..] == [];
    assert t2.Keys == {("s", "a")} && t4[("s", "b")].status == Running;
    assert TableAnswers(f, t4, calls[4..]) == [Decided(Active)];
    assert TableAnswers(f, t3, calls[3..]) == [Completed, Decided(Active)];
    assert TableAnswers(f, t2, calls[2..]) == [Decided(New), Completed, Decided(Active)];
    assert TableAnswers(f, t1, calls[1..]) == [Completed, Decided(New), Completed, Decided(Active)];
  }

  lemma TableKeepsSingleFlight<O, J>(f: Format<O, J>, t: Table<J>, r: Request<O>)
    requires SingleFlight(t)
    ensures SingleFlight(InTable(f, t, r).0)
  {
    var next := InTable(f, t, r).0;
    if r.Claim? && next != t {
      forall a | a in t && a.0 == r.id.0 ensures !t[a].status.Busy() {}
    }
  }

  // ----- Agreement -----

  /** The table stores what the memory ledger holds. */
  predicate Mirrors<O, J(==)>(f: Format<O, J>, m: Memory<O>, t: Table<J>) {
    && m.entries.Keys == t.Keys
    && forall id | id in t ::
         && t[id].digest == m.entries[id].digest
         && (t[id].status.Busy() <==> m.entries[id].outcome.None?)
         && (m.entries[id].outcome.Some? ==> t[id].outcome == f.serialize(m.entries[id].outcome.value))
  }

  predicate SameAnswer<O, J(==)>(f: Format<O, J>, a: Answer<O>, b: Answer<Option<J>>) {
    match a
    case Decided(Duplicate(o)) => b == Decided(Duplicate(f.serialize(o)))
    case Decided(New) => b == Decided(New)
    case Decided(Conflict) => b == Decided(Conflict)
    case Decided(Active) => b == Decided(Active)
    case Decided(RecoveryRequired) => b == Decided(RecoveryRequired)
    case Completed => b == Completed
    case Restarted => b == Restarted
    case Raised => b == Raised
  }

  lemma BusyScopesAgree<O, J>(f: Format<O, J>, m: Memory<O>, t: Table<J>, scope: string)
    requires Coherent(m) && Mirrors(f, m, t)
    ensures ScopeBusy(t, scope) <==> scope in m.active
  {
    if ScopeBusy(t, scope) {
      var id :| id in t && id.0 == scope && t[id].status.Busy();
      ScopeOfUnfinished(m, id);
    }
    if scope in m.active {
      var id :| id in m.entries && Unfinished(m, id) && id.0 == scope;
      assert id in t && t[id].status.Busy();
    }
  }

  lemma ClaimAgrees<O, J>(f: Format<O, J>, m: Memory<O>, t: Table<J>, id: Id, digest: string)
    requires Coherent(m) && Mirrors(f, m, t)
    ensures SameAnswer(f, Decided(ClaimInMemory(m, id, digest).1), Decided(ClaimInTable(t, id, digest).1))
    ensures Mirrors(f, ClaimInMemory(m, id, digest).0, ClaimInTable(t, id, digest).0)
  {
    BusyScopesAgree(f, m, t, id.0);
    hide Coherent, ScopeBusy;
  }

  lemma CompletionAgrees<O, J>(f: Format<O, J>, m: Memory<O>, t: Table<J>, id: Id, outcome: O)
    requires Mirrors(f, m, t) && f.serialize(outcome).Some? && id in t
    ensures Mirrors(f, CompleteInMemory(m, id, outcome), CompleteInTable(t, id, f.passed(outcome), f.serialize(outcome).value))
  {
  }

  /** One call on both ledgers: the same answer, and the table still mirrors the memory. */
  lemma CallAgrees<O, J>(f: Format<O, J>, m: Memory<O>, t: Table<J>, r: Request<O>)
    requires Coherent(m) && Mirrors(f, m, t)
    requires r.Complete? && r.id in m.entries ==> Unfinished(m, r.id)
    requires r.Complete? ==> f.serialize(r.outcome).Some?
    ensures SameAnswer(f, InMemory(m, r).1, InTable(f, t, r).1)
    ensures Coherent(InMemory(m, r).0) && Mirrors(f, InMemory(m, r).0, InTable(f, t, r).0)
  {
    match r {
      case Claim(id, digest) =>
        hide Coherent, Mirrors, ClaimInMemory, ClaimInTable;
        ClaimKeepsCoherent(m, id, digest);
        ClaimAgrees(f, m, t, id, digest);
      case Complete(id, outcome) =>
        hide Coherent, CompleteInMemory, CompleteInTable;
        if id in m.entries {
          CompletingKeepsCoherent(m, id, outcome);
          CompletionAgrees(f, m, t, id, outcome);
        }
      case Restart =>
        hide Coherent;
        RestartKeepsCoherent(m);
    }
  }

  predicate AllSerializable<O, J>(f: Format<O, J>, calls: seq<Request<O>>) {
    forall i | 0 <= i < |calls| :: calls[i].Complete? ==> f.serialize(calls[i].outcome).Some?
  }

  /** On every sequence of calls that completes only unfinished claims, both ledgers decide alike. */
  lemma {:induction false} LedgersAgree<O, J>(f: Format<O, J>, m: Memory<O>, t: Table<J>, calls: seq<Request<O>>)
    requires Coherent(m) && Mirrors(f, m, t) && Disciplined(m, calls) && AllSerializable(f, calls)
    ensures var a, b := MemoryAnswers(m, calls), TableAnswers(f, t, calls);
            |a| == |b| == |calls| && forall i | 0 <= i < |calls| :: SameAnswer(f, a[i], b[i])
    decreases |calls|
  {
    if calls != [] {
      var r := calls[0];
      CallAgrees(f, m, t, r);
      var m', t' := InMemory(m, r).0, InTable(f, t, r).0;
      assert AllSerializable(f, calls[1..]) by {
        assert forall i | 0 <= i < |calls[1..]| :: calls[1..][i] == calls[i + 1];
      }
      LedgersAgree(f, m', t', calls[1..]);
      var a, b := MemoryAnswers(m, calls), TableAnswers(f, t, calls);
      assert a == [InMemory(m, r).1] + MemoryAnswers(m', calls[1..]);
      assert b == [InTable(f, t, r).1] + TableAnswers(f, t', calls[1..]);
      forall i | 0 <= i < |calls| ensures SameAnswer(f, a[i], b[i]) {
        if i > 0 { assert a[i] == a[1..][i - 1] && b[i] == b[1..][i - 1]; }
      }
    }
  }

  lemma EmptyLedgersAgree<O, J>(f: Format<O, J>, calls: seq<Request<O>>)
    requires Disciplined(EmptyMemory(), calls) && AllSerializable(f, calls)
    ensures var a, b := MemoryAnswers(EmptyMemory(), calls), TableAnswers(f, map[], calls);
            |a| == |b| == |calls| && forall i | 0 <= i < |calls| :: SameAnswer(f, a[i], b[i])
  {
    LedgersAgree(f, EmptyMemory(), map[], calls);
  }

  // ----- Grants -----

  predicate IsGrant<O>(calls: seq<Request<O>>, answers: seq<Answer<O>>, id: Id, i: nat) {
    i < |calls| && i < |answers| && calls[i].Claim? && calls[i].id == id && answers[i] == Decided(New)
  }

  lemma {:induction false} KnownIsNeverGranted<O>(m: Memory<O>, calls: seq<Request<O>>, id: Id, i: nat)
    requires id in m.entries
    ensures !IsGrant(calls, MemoryAnswers(m, calls), id, i)
    decreases |calls|
  {
    if calls != [] && i > 0 {
      KnownIsNeverGranted(InMemory(m, calls[0]).0, calls[1..], id, i - 1);
    }
  }

  /** Whatever the callers do, an idempotency key is granted at most once in its scope. */
  lemma {:induction false} GrantedAtMostOnce<O>(m: Memory<O>, calls: seq<Request<O>>, id: Id, i: nat, k: nat)
    requires i < k
    ensures !(IsGrant(calls, MemoryAnswers(m, calls), id, i) && IsGrant(calls, MemoryAnswers(m, calls), id, k))
    decreases |calls|
  {
    if calls != [] {
      var next := InMemory(m, calls[0]).0;
      if i > 0 {
        GrantedAtMostOnce(next, calls[1..], id, i - 1, k - 1);
      } else if IsGrant(calls, MemoryAnswers(m, calls), id, 0) {
        KnownIsNeverGranted(next, calls[1..], id, k - 1);
      }
    }
  }
}
