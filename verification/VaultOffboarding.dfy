/** Offboarding interrupted anywhere and called again ends like an uninterrupted call. */
module VaultOffboarding {
  import opened Common
  import opened Listing
  import opened VaultModel
  import opened VaultInvariant
  import opened VaultRecovery
  import opened VaultRuntime
  import opened VaultCalls
  import opened VaultTheorems

  /** The writes offboarding `ref` may make: no other credential's blob or runtime file. */
  predicate Concerns(w: Write, ref: Ref) {
    || RecoveryWrite(w)
    || w == DropBlob(ref) || w == DropScope(ref)
    || (w.DropRuntime? && w.ref == ref)
  }

  lemma {:induction false} RemovalConcerns(ref: Ref, names: seq<string>)
    ensures forall w | w in RemovalPlan(ref, names).writes :: Concerns(w, ref)
    decreases |names|
  {
    if names != [] {
      RemovalConcerns(ref, names[1..]);
    }
  }

  lemma OffboardConcerns(d: Disk, c: Call, m: Moment)
    requires c.Offboard?
    ensures forall w | w in CallPlan(d, c, m).writes :: Concerns(w, c.ref)
  {
    RecoveryWritesOnly(d, Sorted(d.journals.Keys), m.wall);
    var e := Play(d, Recovery(d, m.wall).writes);
    if c.ref in e.runtime {
      RemovalConcerns(c.ref, Sorted(e.runtime[c.ref].Keys));
    }
    if Readable(e, c.ref) {
      assert e.records[c.ref].ref == c.ref;
      assert forall w | w in RuntimeRemoval(e, c.ref).writes :: Concerns(w, c.ref);
    }
    assert forall w | w in OffboardPlan(e, c, m.wall).writes :: Concerns(w, c.ref);
  }

  lemma {:induction false} OthersKept(d: Disk, ws: seq<Write>, ref: Ref)
    requires forall w | w in ws :: Concerns(w, ref)
    ensures Play(d, ws).blobs - {ref} == d.blobs - {ref}
    ensures Play(d, ws).runtime - {ref} == d.runtime - {ref}
    decreases |ws|
  {
    if ws != [] {
      assert Concerns(ws[0], ref);
      var e := Apply(d, ws[0]);
      assert e.blobs - {ref} == d.blobs - {ref};
      assert e.runtime - {ref} == d.runtime - {ref};
      OthersKept(e, ws[1..], ref);
    }
  }

  ghost predicate Gone(d: Disk, ref: Ref) {
    && d.journals == map[]
    && ref in d.records && d.records[ref].destroyedAt.Some?
    && ref !in d.blobs && ref !in d.runtime
    && Logged(d.audit, OffboardedEvent, d.records[ref],
              Offboarding(ref, d.records[ref].destroyedAt.value), 0)
  }

  lemma LoggedNow(audit: seq<Event>, r: Record, op: Operation, wall: Time)
    requires r.destroyedAt.Some?
    ensures Logged(LoggedOnce(audit, OffboardedEvent, r, op, wall), OffboardedEvent, r, op, 0)
  {
    var after := LoggedOnce(audit, OffboardedEvent, r, op, wall);
    if Logged(audit, OffboardedEvent, r, op, wall) {
      var i :| 0 <= i < |audit| && Records(audit[i], OffboardedEvent, r, op, wall);
      assert Records(after[i], OffboardedEvent, r, op, 0);
    } else {
      assert Records(after[|audit|], OffboardedEvent, r, op, 0);
    }
  }

  lemma DestroyFinishes(d: Disk, r: Record, wall: Time)
    requires Inv(d) && d.journals == map[]
    requires r.ref in d.records && d.records[r.ref] == r && r.destroyedAt.Some?
    ensures Gone(Play(d, DestroyPlan(d, r, wall).writes), r.ref)
  {
    DestroyIsQuiet(d, r, wall);
    LoggedNow(d.audit, r, Offboarding(r.ref, r.destroyedAt.value), wall);
  }

  /** Recovery leaves a destroyed record as it is. */
  lemma DestroyedRecovers(d: Disk, ref: Ref, wall: Time)
    requires Inv(d) && ref in d.records && d.records[ref].destroyedAt.Some?
    ensures var p := Recovery(d, wall);
            var e := Play(d, p.writes);
            && p.failure.None? && Quiet(d, p.writes) && Inv(e) && e.journals == map[]
            && ref in e.records && e.records[ref] == d.records[ref] && e.records[ref].ref == ref && Readable(e, ref)
  {
    RecoverySettles(d, wall);
    RecoveryIsQuiet(d, wall);
    var ws := Recovery(d, wall).writes;
    StepsPrefix(d, ws, |ws|);
    assert ws[..|ws|] == ws;
    assert Later(d.records[ref], Play(d, ws).records[ref]);
  }

  lemma DestroyedCallPlan(d: Disk, c: Call, m: Moment)
    requires c.Offboard? && Recovery(d, m.wall).failure.None?
    requires var e := Play(d, Recovery(d, m.wall).writes);
             Readable(e, c.ref) && e.records[c.ref].destroyedAt.Some?
    ensures var e := Play(d, Recovery(d, m.wall).writes);
            CallPlan(d, c, m) == Then(Recovery(d, m.wall), DestroyPlan(e, e.records[c.ref], m.wall))
  {
    hide DestroyPlan, Recovery, Play;
  }

  /** Offboarding a credential that is already destroyed only finishes the removal. */
  lemma RepeatIsQuiet(d: Disk, c: Call, m: Moment)
    requires Inv(d) && c.Offboard? && c.ref in d.records && d.records[c.ref].destroyedAt.Some?
    ensures var p := CallPlan(d, c, m);
            p.failure.None? && Quiet(d, p.writes) && Gone(Play(d, p.writes), c.ref)
  {
    hide Inv, Quiet, DestroyPlan, Gone, Recovery, CallPlan, Readable, Play;
    DestroyedRecovers(d, c.ref, m.wall);
    DestroyedCallPlan(d, c, m);
    var ws := Recovery(d, m.wall).writes;
    var e := Play(d, ws);
    var r := e.records[c.ref];
    DestroyIsQuiet(e, r, m.wall);
    DestroyFinishes(e, r, m.wall);
    QuietJoin(d, ws, DestroyPlan(e, r, m.wall).writes);
  }

  /** A completed offboarding leaves nothing of the credential but its record and one event. */
  lemma OffboardFinishes(d: Disk, c: Call, m: Moment)
    requires Inv(d) && c.Offboard? && CallPlan(d, c, m).failure.None?
    ensures Gone(Play(d, CallPlan(d, c, m).writes), c.ref)
  {
    var ws := Recovery(d, m.wall).writes;
    RecoverySettles(d, m.wall);
    RecoveryIsQuiet(d, m.wall);
    var e := Play(d, ws);
    hide Gone, Quiet, Settled, Recovery;
    var body := OffboardPlan(e, c, m.wall);
    PlayAppend(d, ws, body.writes);
    assert Readable(e, c.ref);
    var r := e.records[c.ref];
    if r.destroyedAt.Some? {
      DestroyFinishes(e, r, m.wall);
    } else {
      var destroyed := DestroyedRecord(r, c.at);
      RecordStep(e, destroyed);
      hide Inv, DestroyPlan;
      var f := Apply(e, PutRecord(destroyed, None));
      DestroyFinishes(f, destroyed, m.wall);
      SameDestroyPlan(e, f, destroyed, m.wall);
      assert body.writes == [PutRecord(destroyed, None)] + DestroyPlan(f, destroyed, m.wall).writes;
    }
  }

  lemma SameDestroyPlan(d: Disk, e: Disk, r: Record, wall: Time)
    requires r.destroyedAt.Some? && e.runtime == d.runtime && e.audit == d.audit
    ensures DestroyPlan(d, r, wall) == DestroyPlan(e, r, wall)
  {
  }

  ghost predicate OnlyOffboards(steps: seq<Step>, ref: Ref) {
    forall s | s in steps :: s.call.Offboard? && s.call.ref == ref
  }

  /** Any number of interrupted retries change neither custody nor other credentials' files. */
  lemma {:induction false} RetriesAreQuiet(d: Disk, steps: seq<Step>, ref: Ref)
    requires Inv(d) && ref in d.records && d.records[ref].destroyedAt.Some? && OnlyOffboards(steps, ref)
    ensures var e := Run(d, steps);
            && Inv(e) && Evolves(d, e) && CustodyOf(e) == CustodyOf(d)
            && e.blobs - {ref} == d.blobs - {ref} && e.runtime - {ref} == d.runtime - {ref}
    decreases |steps|
  {
    if steps == [] {
      EvolvesReflexively(d);
    } else {
      var s := steps[0];
      assert s in steps;
      var ws := CallPlan(d, s.call, s.moment).writes;
      var k := Min(s.life, |ws|);
      RepeatIsQuiet(d, s.call, s.moment);
      StepsPrefix(d, ws, k);
      StillPrefix(d, ws, k);
      OffboardConcerns(d, s.call, s.moment);
      OthersKept(d, ws[..k], ref);
      var e := After(d, s.call, s.moment, s.life);
      assert Later(d.records[ref], e.records[ref]);
      hide Inv, Quiet, Evolves, Later, CallPlan, After, Concerns, CustodyOf;
      RetriesAreQuiet(e, steps[1..], ref);
      EvolvesTransitively(d, e, Run(d, steps));
    }
  }

  ghost predicate OffboardedAt(d: Disk, i: int, ref: Ref) {
    0 <= i < |d.audit| && d.audit[i].kind == OffboardedEvent && d.audit[i].ref == ref
  }

  lemma StillWhole(d: Disk, ws: seq<Write>)
    requires Quiet(d, ws)
    ensures CustodyOf(Play(d, ws)) == CustodyOf(d)
  {
    StillPrefix(d, ws, |ws|);
    assert ws[..|ws|] == ws;
  }

  lemma OneOffboarding(d: Disk, ref: Ref)
    requires Inv(d) && Gone(d, ref)
    ensures exists i :: OffboardedAt(d, i, ref)
    ensures forall i, k | OffboardedAt(d, i, ref) && OffboardedAt(d, k, ref) :: i == k
  {
    var op := Offboarding(ref, d.records[ref].destroyedAt.value);
    var i :| 0 <= i < |d.audit| && Records(d.audit[i], OffboardedEvent, d.records[ref], op, 0);
    assert OffboardedAt(d, i, ref);
    forall i, k | OffboardedAt(d, i, ref) && OffboardedAt(d, k, ref) ensures i == k {
    }
  }

  lemma SameWhenGone(a: Disk, b: Disk, ref: Ref)
    requires Gone(a, ref) && Gone(b, ref) && CustodyOf(a) == CustodyOf(b)
    requires a.blobs - {ref} == b.blobs - {ref} && a.runtime - {ref} == b.runtime - {ref}
    ensures SameButAudit(a, b)
  {
    SettledNow(a);
    SettledNow(b);
    assert a.blobs == a.blobs - {ref} && b.blobs == b.blobs - {ref};
    assert a.runtime == a.runtime - {ref} && b.runtime == b.runtime - {ref};
  }

  // ----- Interrupted anywhere -----

  predicate Destroyed(records: map<Ref, Record>, ref: Ref) {
    ref in records && records[ref].destroyedAt.Some?
  }

  lemma DestructionIsNeverPending(d: Disk, ref: Ref)
    requires Inv(d)
    ensures Destroyed(Settled(d).records, ref) <==> Destroyed(d.records, ref)
  {
    if d.journals != map[] {
      assert JournalOk(d, PendingId(d), d.journals[PendingId(d)]);
    }
  }

  /** What offboarding `ref` at `at` makes of what the vault holds. */
  function AfterDestruction(k: Custody, ref: Ref, at: Time): Custody {
    if ref !in k.records || k.records[ref].destroyedAt.Some? then k
    else Custody(k.records[ref := DestroyedRecord(k.records[ref], at)], k.keys - {ref}, k.lineage)
  }

  /** The body of the call, on a vault with no rotation pending. */
  lemma BodyDestroys(d: Disk, c: Call, wall: Time)
    requires Inv(d) && d.journals == map[] && c.Offboard?
    ensures var p := OffboardPlan(d, c, wall);
            && (p.failure == if c.ref !in d.records then Some(UnreadableRecord)
                             else if d.records[c.ref].destroyedAt.None? && c.at < d.records[c.ref].issuedAt
                             then Some(InvalidTime)
                             else None)
            && (p.failure.Some? ==> p.writes == [])
            && (p.failure.None? ==> CustodyOf(Play(d, p.writes)) == AfterDestruction(CustodyOf(d), c.ref, c.at))
  {
    SettledNow(d);
    if c.ref in d.records {
      assert Readable(d, c.ref);
      var r := d.records[c.ref];
      if r.destroyedAt.Some? {
        DestroyIsQuiet(d, r, wall);
        StillWhole(d, DestroyPlan(d, r, wall).writes);
      } else if r.issuedAt <= c.at {
        var destroyed := DestroyedRecord(r, c.at);
        RecordStep(d, destroyed);
        var e := Apply(d, PutRecord(destroyed, None));
        DestroyIsQuiet(e, destroyed, wall);
        SameDestroyPlan(d, e, destroyed, wall);
        StillWhole(e, DestroyPlan(e, destroyed, wall).writes);
        SettledNow(e);
        RecordDestroyed(d, c.ref, c.at);
      }
    }
  }

  lemma RecordDestroyed(d: Disk, ref: Ref, at: Time)
    requires ref in d.records && d.records[ref].destroyedAt.None? && d.records[ref].ref == ref
    ensures CustodyIn(Apply(d, PutRecord(DestroyedRecord(d.records[ref], at), None)))
         == AfterDestruction(CustodyIn(d), ref, at)
  {
    var e := Apply(d, PutRecord(DestroyedRecord(d.records[ref], at), None));
    assert CustodyIn(e).keys == CustodyIn(d).keys - {ref};
  }

  /** Whether an offboarding succeeds, and what it leaves in custody, depends on what the vault holds only. */
  lemma CallDestroys(d: Disk, c: Call, m: Moment)
    requires Inv(d) && c.Offboard?
    ensures var p := CallPlan(d, c, m);
            var k := CustodyOf(d);
            && (p.failure.None? <==> c.ref in k.records
                                     && (k.records[c.ref].destroyedAt.Some? || k.records[c.ref].issuedAt <= c.at))
            && CustodyOf(Play(d, p.writes)) == if p.failure.None? then AfterDestruction(k, c.ref, c.at) else k
  {
    var ws := Recovery(d, m.wall).writes;
    RecoverySettles(d, m.wall);
    RecoveryIsQuiet(d, m.wall);
    StillWhole(d, ws);
    var e := Play(d, ws);
    SettledNow(e);
    hide Inv, Quiet, Settled, Recovery;
    BodyDestroys(e, c, m.wall);
    var body := OffboardPlan(e, c, m.wall);
    hide OffboardPlan;
    assert CallPlan(d, c, m) == Then(Recovery(d, m.wall), body);
    PlayAppend(d, ws, body.writes);
  }

  /** As long as the record is not destroyed, an interrupted offboarding has changed nothing in custody and
      no other credential's files. */
  lemma NothingYet(d: Disk, c: Call, m: Moment, life: nat)
    requires Inv(d) && c.Offboard? && !Destroyed(After(d, c, m, life).records, c.ref)
    ensures var e := After(d, c, m, life);
            && Inv(e) && Evolves(d, e) && CustodyOf(e) == CustodyOf(d)
            && e.blobs - {c.ref} == d.blobs - {c.ref} && e.runtime - {c.ref} == d.runtime - {c.ref}
  {
    var ws := CallPlan(d, c, m).writes;
    EveryCallIsAtomic(d, c, m, life);
    OffboardConcerns(d, c, m);
    OthersKept(d, ws[..Min(life, |ws|)], c.ref);
    CallDestroys(d, c, m);
    DestructionIsNeverPending(After(d, c, m, life), c.ref);
  }

  /** Two vaults that hold the same and differ in the credential's own files at most end alike. */
  lemma SameOffboarding(d: Disk, e: Disk, c: Call, m: Moment)
    requires Inv(d) && Inv(e) && c.Offboard? && CustodyOf(d) == CustodyOf(e)
    requires d.blobs - {c.ref} == e.blobs - {c.ref} && d.runtime - {c.ref} == e.runtime - {c.ref}
    ensures CallPlan(d, c, m).failure.None? <==> CallPlan(e, c, m).failure.None?
    ensures CallPlan(d, c, m).failure.None? ==>
              SameButAudit(Play(e, CallPlan(e, c, m).writes), Play(d, CallPlan(d, c, m).writes))
  {
    CallDestroys(d, c, m);
    CallDestroys(e, c, m);
    OffboardConcerns(d, c, m);
    OffboardConcerns(e, c, m);
    OthersKept(d, CallPlan(d, c, m).writes, c.ref);
    OthersKept(e, CallPlan(e, c, m).writes, c.ref);
    if CallPlan(d, c, m).failure.None? {
      OffboardFinishes(d, c, m);
      OffboardFinishes(e, c, m);
      hide *;
      SameWhenGone(Play(e, CallPlan(e, c, m).writes), Play(d, CallPlan(d, c, m).writes), c.ref);
    }
  }

  /** Once the record is destroyed, custody is what the whole call leaves. */
  lemma InterruptedCustody(d: Disk, c: Call, m: Moment, life: nat)
    requires Inv(d) && c.Offboard? && Destroyed(After(d, c, m, life).records, c.ref)
    ensures var e := After(d, c, m, life);
            var p := CallPlan(d, c, m);
            var whole := Play(d, p.writes);
            && p.failure.None? && Inv(e) && CustodyOf(e) == CustodyOf(whole)
            && e.blobs - {c.ref} == whole.blobs - {c.ref} && e.runtime - {c.ref} == whole.runtime - {c.ref}
  {
    var ws := CallPlan(d, c, m).writes;
    var e := After(d, c, m, life);
    EveryCallIsAtomic(d, c, m, life);
    OffboardConcerns(d, c, m);
    OthersKept(d, ws, c.ref);
    OthersKept(d, ws[..Min(life, |ws|)], c.ref);
    CallDestroys(d, c, m);
    DestructionIsNeverPending(e, c.ref);
    hide Inv, Settled, CallPlan, After, Evolves;
  }

  /** An offboarding that got as far as the destruction record, retried any number of times with
      any interruption and finally completed, ends where the uninterrupted call would have ended:
      same records with the first destruction time, same blobs, runtime files, journals and
      lineage, and exactly one offboarding event. */
  lemma OffboardingResumes(d: Disk, c: Call, m: Moment, life: nat, retries: seq<Step>, again: Call, last: Moment)
    requires Inv(d) && c.Offboard? && Destroyed(After(d, c, m, life).records, c.ref)
    requires OnlyOffboards(retries, c.ref) && again.Offboard? && again.ref == c.ref
    ensures var e := Run(After(d, c, m, life), retries);
            var p, whole := CallPlan(e, again, last), CallPlan(d, c, m);
            var done := Play(e, p.writes);
            && p.failure.None? && whole.failure.None?
            && SameButAudit(done, Play(d, whole.writes)) && Gone(done, c.ref)
            && (exists i :: OffboardedAt(done, i, c.ref))
            && (forall i, k | OffboardedAt(done, i, c.ref) && OffboardedAt(done, k, c.ref) :: i == k)
  {
    var whole := Play(d, CallPlan(d, c, m).writes);
    InterruptedCustody(d, c, m, life);
    var e0 := After(d, c, m, life);
    hide After;
    RetriesAreQuiet(e0, retries, c.ref);
    var e := Run(e0, retries);
    assert Later(e0.records[c.ref], e.records[c.ref]);
    hide Run, Evolves;
    RepeatIsQuiet(e, again, last);
    var p := CallPlan(e, again, last);
    var done := Play(e, p.writes);
    QuietKeepsInv(e, p.writes);
    StillWhole(e, p.writes);
    OffboardConcerns(e, again, last);
    OthersKept(e, p.writes, c.ref);
    OffboardFinishes(d, c, m);
    hide *;
    SameWhenGone(done, whole, c.ref);
    OneOffboarding(done, c.ref);
  }

  /** Interrupted attempts at offboarding `ref`, in order, and then a last one. */
  function Attempt(attempts: seq<Step>, last: Step, k: nat): Step
    requires k <= |attempts|
  {
    if k < |attempts| then attempts[k] else last
  }

  /** Any number of attempts, each interrupted at any step of its recovery or its own, followed by one that
      completes, end where a single uninterrupted call on the vault they found would have ended: that of the
      attempt that first recorded the destruction.  The destruction time is that attempt's, nothing but the
      record is left of the credential, other credentials' files are as they were, and exactly one offboarded
      event is in the log. */
  lemma {:induction false} OffboardingEndsOnce(d: Disk, attempts: seq<Step>, last: Step, ref: Ref) returns (k: nat)
    requires Inv(d) && OnlyOffboards(attempts + [last], ref)
    requires CallPlan(Run(d, attempts), last.call, last.moment).failure.None?
    ensures k <= |attempts|
    ensures var e, first := Run(d, attempts), Attempt(attempts, last, k);
            var done, whole := Play(e, CallPlan(e, last.call, last.moment).writes), CallPlan(d, first.call, first.moment);
            && whole.failure.None? && SameButAudit(done, Play(d, whole.writes)) && Gone(done, ref)
            && (!Destroyed(d.records, ref) ==> done.records[ref].destroyedAt == Some(first.call.at))
            && (exists i :: OffboardedAt(done, i, ref))
            && (forall i, n | OffboardedAt(done, i, ref) && OffboardedAt(done, n, ref) :: i == n)
    decreases |attempts|
  {
    assert (attempts + [last])[|attempts|] == last;
    if Destroyed(d.records, ref) {
      k := 0;
      assert Attempt(attempts, last, 0) in attempts + [last];
      assert OnlyOffboards(attempts, ref) by { assert forall t | t in attempts :: t in attempts + [last]; }
      DestroyedBefore(d, attempts, last, Attempt(attempts, last, 0), ref);
    } else if attempts == [] {
      k := 0;
      LastAttempt(d, last, ref);
    } else {
      var s := attempts[0];
      assert s in attempts + [last];
      assert attempts[1..] + [last] == (attempts + [last])[1..];
      var e := After(d, s.call, s.moment, s.life);
      if Destroyed(e.records, ref) {
        k := 0;
        assert OnlyOffboards(attempts[1..], ref) by { assert forall t | t in attempts[1..] :: t in attempts + [last]; }
        OffboardingResumes(d, s.call, s.moment, s.life, attempts[1..], last.call, last.moment);
        FirstTime(d, s.call, s.moment, ref);
      } else {
        NothingYet(d, s.call, s.moment, s.life);
        hide Inv, Evolves, CallPlan, After, CustodyOf, SameButAudit, Gone, OffboardedAt, Destroyed;
        var n := OffboardingEndsOnce(e, attempts[1..], last, ref);
        k := n + 1;
        var first := Attempt(attempts, last, k);
        assert first == Attempt(attempts[1..], last, n) && first in attempts + [last];
        SameOffboarding(d, e, first.call, first.moment);
        SameButAuditJoins(Play(Run(d, attempts), CallPlan(Run(d, attempts), last.call, last.moment).writes),
                          Play(e, CallPlan(e, first.call, first.moment).writes),
                          Play(d, CallPlan(d, first.call, first.moment).writes));
      }
    }
  }

  lemma SameButAuditJoins(a: Disk, b: Disk, c: Disk)
    requires SameButAudit(a, b) && SameButAudit(b, c)
    ensures SameButAudit(a, c)
  {
  }

  /** The uninterrupted call records its own time. */
  lemma FirstTime(d: Disk, c: Call, m: Moment, ref: Ref)
    requires Inv(d) && c.Offboard? && c.ref == ref && !Destroyed(d.records, ref) && CallPlan(d, c, m).failure.None?
    ensures Gone(Play(d, CallPlan(d, c, m).writes), ref)
    ensures Play(d, CallPlan(d, c, m).writes).records[ref].destroyedAt == Some(c.at)
  {
    var done := Play(d, CallPlan(d, c, m).writes);
    OffboardFinishes(d, c, m);
    CallDestroys(d, c, m);
    DestructionIsNeverPending(d, ref);
    SettledNow(done);
    hide Inv, CallPlan;
  }

  /** Attempts on a credential that was destroyed before only finish its removal. */
  lemma DestroyedBefore(d: Disk, attempts: seq<Step>, last: Step, first: Step, ref: Ref)
    requires Inv(d) && Destroyed(d.records, ref) && OnlyOffboards(attempts, ref)
    requires last.call.Offboard? && last.call.ref == ref && first.call.Offboard? && first.call.ref == ref
    ensures var e := Run(d, attempts);
            var done, whole := Play(e, CallPlan(e, last.call, last.moment).writes), CallPlan(d, first.call, first.moment);
            && whole.failure.None? && SameButAudit(done, Play(d, whole.writes)) && Gone(done, ref)
            && (exists i :: OffboardedAt(done, i, ref))
            && (forall i, n | OffboardedAt(done, i, ref) && OffboardedAt(done, n, ref) :: i == n)
  {
    assert After(d, first.call, first.moment, 0) == d by {
      assert CallPlan(d, first.call, first.moment).writes[..0] == [];
    }
    OffboardingResumes(d, first.call, first.moment, 0, attempts, last.call, last.moment);
  }

  lemma LastAttempt(d: Disk, last: Step, ref: Ref)
    requires Inv(d) && last.call.Offboard? && last.call.ref == ref && !Destroyed(d.records, ref)
    requires CallPlan(d, last.call, last.moment).failure.None?
    ensures var done := Play(d, CallPlan(d, last.call, last.moment).writes);
            && Gone(done, ref) && done.records[ref].destroyedAt == Some(last.call.at)
            && (exists i :: OffboardedAt(done, i, ref))
            && (forall i, n | OffboardedAt(done, i, ref) && OffboardedAt(done, n, ref) :: i == n)
  {
    var ws := CallPlan(d, last.call, last.moment).writes;
    var done := Play(d, ws);
    FirstTime(d, last.call, last.moment, ref);
    EveryCallIsAtomic(d, last.call, last.moment, |ws|);
    assert ws[..|ws|] == ws;
    hide Inv, CallPlan;
    OneOffboarding(done, ref);
  }
}
