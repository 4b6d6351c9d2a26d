/** What the vault guarantees over whole runs with crashes at any instant. */
module VaultTheorems {
  import opened Common
  import opened Listing
  import opened VaultModel
  import opened VaultInvariant
  import opened VaultRecovery
  import opened VaultRuntime
  import opened VaultCalls

  // ----- One call -----

  lemma RecoveryIsQuiet(d: Disk, wall: Time)
    requires Inv(d)
    ensures var ws := Recovery(d, wall).writes;
            && Quiet(d, ws) && Inv(Play(d, ws)) && Play(d, ws).journals == map[]
            && Play(d, ws) == Settled(d).(audit := Play(d, ws).audit)
  {
    RecoverySettles(d, wall);
    QuietKeepsInv(d, Recovery(d, wall).writes);
  }

  lemma FreshAfterRecovery(d: Disk, c: Call, wall: Time)
    requires Inv(d) && Fresh(d, c)
    ensures Fresh(Play(d, Recovery(d, wall).writes), c)
  {
    RecoveryIsQuiet(d, wall);
    if d.journals != map[] {
      assert JournalOk(d, PendingId(d), d.journals[PendingId(d)]);
    }
    hide Inv, Quiet;
  }

  lemma FreshAfterReclaiming(d: Disk, c: Call, procs: Processes)
    requires Inv(d) && Fresh(d, c)
    ensures Fresh(Play(d, StaleRecovery(d, procs).writes), c)
  {
    StaleRecoveryReclaims(d, procs);
  }

  lemma BodyIsAtomic(d: Disk, c: Call, m: Moment)
    requires Inv(d) && d.journals == map[] && Fresh(d, c) && !c.Open?
    requires c.Store? ==> Created(c).Valid()
    ensures Atomic(d, BodyPlan(d, c, m).writes)
  {
    match c {
      case Get(_) => QuietNothing(d); QuietIsAtomic(d, []);
      case Store(_, _, _, _, _, _, _, _) => StoreIsAtomic(d, c, m.wall);
      case Materialize(_, _, _, _) => MaterializeIsQuiet(d, c, m); QuietIsAtomic(d, MaterializePlan(d, c, m).writes);
      case Release(ref, token) => ReleaseIsQuiet(d, ref, token); QuietIsAtomic(d, BodyPlan(d, c, m).writes);
      case Revoke(_, _) => RevokeIsAtomic(d, c, m.wall);
      case Rotate(_, _, _, _, _, _, _) => RotateIsAtomic(d, c, m.wall);
      case Offboard(_, _) => OffboardIsAtomic(d, c, m.wall);
    }
  }

  lemma AfterJournalsIsAtomic(d: Disk, c: Call, m: Moment)
    requires Inv(d) && Fresh(d, c) && (c.Open? || d.journals == map[])
    requires c.Store? ==> Created(c).Valid()
    ensures Atomic(d, AfterJournals(d, c, m).writes)
  {
    hide Inv, Quiet, Steps, OneCommit, Reclaimed, BodyPlan;
    if c.Open? || c.Materialize? {
      var stale := StaleRecovery(d, m.procs);
      StaleRecoveryReclaims(d, m.procs);
      var e := Play(d, stale.writes);
      FreshAfterReclaiming(d, c, m.procs);
      if c.Open? {
        assert BodyPlan(e, c, m) == Go([]) by { OpenBody(e, c, m); }
        assert stale.writes + [] == stale.writes;
        QuietIsAtomic(d, stale.writes);
      } else {
        BodyIsAtomic(e, c, m);
        QuietThenAtomic(d, stale.writes, BodyPlan(e, c, m).writes);
      }
    } else {
      BodyIsAtomic(d, c, m);
    }
  }

  lemma OpenBody(d: Disk, c: Call, m: Moment)
    requires c.Open?
    ensures BodyPlan(d, c, m) == Go([])
  {
  }

  lemma CallPlanIsAtomic(d: Disk, c: Call, m: Moment)
    requires Inv(d) && Fresh(d, c)
    ensures Atomic(d, CallPlan(d, c, m).writes)
  {
    if c.Store? && !Created(c).Valid() {
      QuietNothing(d);
      QuietIsAtomic(d, []);
    } else if c.Open? {
      AfterJournalsIsAtomic(d, c, m);
    } else {
      var ws := Recovery(d, m.wall).writes;
      RecoverySettles(d, m.wall);
      RecoveryIsQuiet(d, m.wall);
      FreshAfterRecovery(d, c, m.wall);
      hide Inv, Quiet, Steps, OneCommit, AfterJournals, Settled;
      AfterJournalsIsAtomic(Play(d, ws), c, m);
      QuietThenAtomic(d, ws, AfterJournals(Play(d, ws), c, m).writes);
    }
  }

  /** A call that dies after any number of writes, recovery passes included, leaves the vault
      holding what it held before or what the whole call leaves it holding; the invariant holds
      at that instant and no record has moved backwards. */
  lemma EveryCallIsAtomic(d: Disk, c: Call, m: Moment, life: nat)
    requires Inv(d) && Fresh(d, c)
    ensures var e := After(d, c, m, life);
            && Inv(e) && Evolves(d, e)
            && CustodyOf(e) in {CustodyOf(d), CustodyOf(Play(d, CallPlan(d, c, m).writes))}
  {
    var ws := CallPlan(d, c, m).writes;
    CallPlanIsAtomic(d, c, m);
    StepsPrefix(d, ws, Min(life, |ws|));
    CommitPrefix(d, ws, Min(life, |ws|));
  }

  // ----- Runs -----

  datatype Step = Step(call: Call, moment: Moment, life: nat)

  ghost function Run(d: Disk, steps: seq<Step>): Disk
    decreases |steps|
  {
    if steps == [] then d
    else Run(After(d, steps[0].call, steps[0].moment, steps[0].life), steps[1..])
  }

  ghost predicate FreshRun(d: Disk, steps: seq<Step>)
    decreases |steps|
  {
    steps != [] ==>
      && Fresh(d, steps[0].call)
      && FreshRun(After(d, steps[0].call, steps[0].moment, steps[0].life), steps[1..])
  }

  lemma {:induction false} EvolvesTransitively(a: Disk, b: Disk, c: Disk)
    requires Evolves(a, b) && Evolves(b, c)
    ensures Evolves(a, c)
  {
  }

  /** Every run of calls, each of which may die after any write, keeps the invariant. */
  lemma {:induction false} EveryRunKeepsInvariant(d: Disk, steps: seq<Step>)
    requires Inv(d) && FreshRun(d, steps)
    ensures Inv(Run(d, steps)) && Evolves(d, Run(d, steps))
    decreases |steps|
  {
    hide Inv, Fresh, After, Evolves;
    if steps != [] {
      var s := steps[0];
      EveryCallIsAtomic(d, s.call, s.moment, s.life);
      var e := After(d, s.call, s.moment, s.life);
      EveryRunKeepsInvariant(e, steps[1..]);
      EvolvesTransitively(d, e, Run(d, steps));
    } else {
      EvolvesReflexively(d);
    }
  }

  /** At every instant of every run: at most one journal is pending, a record that is not destroyed
      has its blob, an active record's blob decrypts under that very record to the key it names, and
      every runtime key has its lease. */
  lemma EveryInstantIsSound(d: Disk, steps: seq<Step>, ref: Ref, wall: Time, name: string)
    requires Inv(d) && FreshRun(d, steps)
    ensures var e := Run(d, steps);
            && (forall a, b | a in e.journals && b in e.journals :: a == b)
            && (ref in e.records && e.records[ref].destroyedAt.None? ==> ref in e.blobs)
            && (ref in e.records && e.records[ref].Status(wall) == Active ==>
                  && ref in e.blobs && Decrypt(e.records[ref], e.blobs[ref]).Some?
                  && FingerprintOf(Decrypt(e.records[ref], e.blobs[ref]).value) == e.records[ref].fingerprint)
            && (ref in e.runtime && name in e.runtime[ref] && IsKeyName(name) ==>
                  LeaseName(name[..TOKEN_LENGTH]) in e.runtime[ref])
  {
    EveryRunKeepsInvariant(d, steps);
    hide Run, FreshRun, LineageOk, AuditOk, JournalOk;
    var e := Run(d, steps);
    if ref in e.runtime && name in e.runtime[ref] { assert RuntimeFileOk(e, ref, name); }
    if ref in e.records && e.records[ref].Status(wall) == Active {
      assert e.records[ref].Original() == e.records[ref];
    }
  }

  lemma EvolvesReflexively(d: Disk)
    ensures Evolves(d, d)
  {
  }

  const EmptyVault := Disk(map[], map[], map[], [], map[], map[])

  lemma EmptyVaultIsSound()
    ensures Inv(EmptyVault)
  {
  }

  function Rank(s: Status): nat {
    match s
    case Active => 0
    case Expired => 1
    case Revoked => 2
    case Destroyed => 3
  }

  /** Along a run, a credential's status never moves back while the clock does not. */
  lemma StatusNeverMovesBack(d: Disk, steps: seq<Step>, ref: Ref, t: Time, u: Time)
    requires Inv(d) && FreshRun(d, steps) && ref in d.records && t <= u
    ensures ref in Run(d, steps).records
    ensures Rank(d.records[ref].Status(t)) <= Rank(Run(d, steps).records[ref].Status(u))
  {
    EveryRunKeepsInvariant(d, steps);
    var a, b := d.records[ref], Run(d, steps).records[ref];
    assert Later(a, b);
    SameIdentity(a, b);
    assert Run(d, steps).records[ref].Valid();
  }

  // ----- Rotation -----

  datatype Crash = Crash(wall: Time, life: nat)

  /** Recoveries that each die after some writes. */
  ghost function CrashedRecoveries(d: Disk, crashes: seq<Crash>): Disk
    decreases |crashes|
  {
    if crashes == [] then d else
    var ws := Recovery(d, crashes[0].wall).writes;
    CrashedRecoveries(Play(d, ws[..Min(crashes[0].life, |ws|)]), crashes[1..])
  }

  predicate SameButAudit(a: Disk, b: Disk) {
    a == b.(audit := a.audit)
  }

  /** The writes a recovery makes: it touches neither blobs nor runtime files. */
  predicate RecoveryWrite(w: Write) {
    w.PutRecord? || w.DropJournal? || w.Append?
  }

  lemma {:induction false} RecoveryWritesOnly(d: Disk, ids: seq<Id>, wall: Time)
    ensures forall w | w in RecoveryPlan(d, ids, wall).writes :: RecoveryWrite(w)
    decreases |ids|
  {
    if ids != [] {
      var p := JournalPlan(d, ids[0], wall);
      assert forall w | w in p.writes :: RecoveryWrite(w);
      RecoveryWritesOnly(Play(d, p.writes), ids[1..], wall);
    }
  }

  lemma {:induction false} RecoveryWritesLeave(d: Disk, ws: seq<Write>)
    requires forall w | w in ws :: RecoveryWrite(w)
    ensures Play(d, ws).blobs == d.blobs && Play(d, ws).runtime == d.runtime
    decreases |ws|
  {
    if ws != [] {
      assert RecoveryWrite(ws[0]);
      RecoveryWritesLeave(Apply(d, ws[0]), ws[1..]);
    }
  }

  /** Recoveries that crash anywhere, any number of times, do not move the settled disk. */
  lemma {:induction false} CrashedRecoveriesSettle(d: Disk, crashes: seq<Crash>)
    requires Inv(d)
    ensures var e := CrashedRecoveries(d, crashes);
            Inv(e) && SameButAudit(Settled(e), Settled(d))
    decreases |crashes|
  {
    if crashes != [] {
      var ws := Recovery(d, crashes[0].wall).writes;
      var k := Min(crashes[0].life, |ws|);
      RecoveryIsQuiet(d, crashes[0].wall);
      StepsPrefix(d, ws, k);
      StillPrefix(d, ws, k);
      RecoveryWritesOnly(d, Sorted(d.journals.Keys), crashes[0].wall);
      RecoveryWritesLeave(d, ws[..k]);
      var e := Play(d, ws[..k]);
      SettledTouches(d);
      SettledTouches(e);
      assert Settled(e) == Settled(d).(audit := e.audit);
      CrashedRecoveriesSettle(e, crashes[1..]);
    }
  }

  lemma SettledTouches(d: Disk)
    requires Inv(d)
    ensures Settled(d).blobs == d.blobs && Settled(d).runtime == d.runtime && Settled(d).audit == d.audit
    ensures Settled(d).journals == map[]
  {
    if d.journals != map[] { OneJournal(d, PendingId(d)); }
  }

  /** A rotation that dies after `k` writes, then any number of recoveries that die too, then a
      recovery that completes: the directories are exactly those before the rotation when its blob
      was not written, and exactly those of the finished rotation otherwise. */
  lemma RotationIsAllOrNothing(d: Disk, c: Call, wall: Time, k: nat, crashes: seq<Crash>, last: Time)
    requires Inv(d) && d.journals == map[] && c.Rotate? && Fresh(d, c)
    requires RotatePlan(d, c, wall).failure.None? && k <= |RotatePlan(d, c, wall).writes|
    ensures var ws := RotatePlan(d, c, wall).writes;
            var e := CrashedRecoveries(Play(d, ws[..k]), crashes);
            var p := Recovery(e, last);
            && p.failure.None?
            && SameButAudit(Play(e, p.writes), if k < 2 then d else Play(d, ws))
  {
    var ws := RotatePlan(d, c, wall).writes;
    var f := Play(d, ws[..k]);
    RotateIsAtomic(d, c, wall);
    StepsPrefix(d, ws, k);
    SettledAlongRotation(d, c, wall, k);
    CrashedRecoveriesSettle(f, crashes);
    var e := CrashedRecoveries(f, crashes);
    RecoverySettles(e, last);
  }

  /** The two instants around a rotation's commit: journalled only, and committed. */
  lemma RotationPhases(d: Disk, c: Call, wall: Time)
    requires Inv(d) && d.journals == map[] && c.Rotate? && Fresh(d, c)
    requires RotatePlan(d, c, wall).failure.None?
    ensures c.ref in d.records
    ensures var j := RotationJournal(d.records[c.ref], c);
            var e, f := Apply(d, PutJournal(c.rotationId, j)), Committed(d, c);
            && Settled(e) == d
            && f == Apply(e, PutBlob(c.newRef, j.digest.of))
            && Inv(f) && c.rotationId in f.journals && f.journals[c.rotationId] == j
            && c.newRef == j.replacement.ref && c.newRef in f.blobs && j.oldRef in f.records
            && RotatePlan(d, c, wall).writes ==
                 [PutJournal(c.rotationId, j), PutBlob(c.newRef, j.digest.of)] + ForwardWrites(f, c.rotationId, wall)
  {
    RotationShape(d, c, wall);
    var j := RotationJournal(d.records[c.ref], c);
    JournalStep(d, c.rotationId, j);
    var e := Apply(d, PutJournal(c.rotationId, j));
    RotationBlobStep(e, c.rotationId);
    hide Inv, Quiet, JournalOk, ForwardWrites;
    SettledPendingInv(e, c.rotationId);
    assert e.journals - {c.rotationId} == map[];
  }

  /** Before its second write a rotation settles to where it started, after it to where it ends. */
  lemma SettledAlongRotation(d: Disk, c: Call, wall: Time, k: nat)
    requires Inv(d) && d.journals == map[] && c.Rotate? && Fresh(d, c)
    requires RotatePlan(d, c, wall).failure.None? && k <= |RotatePlan(d, c, wall).writes|
    ensures var ws := RotatePlan(d, c, wall).writes;
            SameButAudit(Settled(Play(d, ws[..k])), if k < 2 then d else Play(d, ws))
  {
    RotationPhases(d, c, wall);
    hide Inv, Quiet, RotatePlan, JournalOk, Settled, ForwardWrites, Play, Fresh, RotationJournal;
    var ws := RotatePlan(d, c, wall).writes;
    var j := RotationJournal(d.records[c.ref], c);
    var begin, commit := PutJournal(c.rotationId, j), PutBlob(c.newRef, j.digest.of);
    var f := Committed(d, c);
    var rest := ForwardWrites(f, c.rotationId, wall);
    PlayTwo(d, begin, commit);
    if k == 0 {
      assert ws[..k] == [];
      SettledAtOnce(d);
    } else if k == 1 {
      assert ws[..k] == [begin];
    } else {
      RotationTail(d, begin, commit, rest, k);
      ForwardPrefixSettles(f, c.rotationId, wall, k - 2);
    }
  }

  lemma RotationTail(d: Disk, begin: Write, commit: Write, rest: seq<Write>, k: nat)
    requires 2 <= k <= 2 + |rest|
    ensures var ws, f := [begin, commit] + rest, Apply(Apply(d, begin), commit);
            Play(d, ws[..k]) == Play(f, rest[..k - 2]) && Play(d, ws) == Play(f, rest)
  {
    PlayTwo(d, begin, commit);
    hide Play, Apply;
    assert ([begin, commit] + rest)[..k] == [begin, commit] + rest[..k - 2];
    PlayAppend(d, [begin, commit], rest[..k - 2]);
    PlayAppend(d, [begin, commit], rest);
  }

  lemma SettledAtOnce(d: Disk)
    requires d.journals == map[]
    ensures Settled(d) == d && Play(d, []) == d
  {
  }

  lemma PlayTwo(d: Disk, a: Write, b: Write)
    ensures Play(d, [a]) == Apply(d, a) && Play(d, [a, b]) == Apply(Apply(d, a), b)
  {
    assert [a, b][1..] == [b];
    assert Play(Apply(d, a), [b]) == Apply(Apply(d, a), b);
  }

  lemma SettledPendingInv(d: Disk, id: Id)
    requires Inv(d) && id in d.journals
    ensures Settled(d) == SettledBy(d, id)
  {
    SettledPending(d, id);
  }

  lemma ForwardWritesOnly(d: Disk, id: Id, wall: Time)
    requires id in d.journals && d.journals[id].oldRef in d.records
    ensures forall w | w in ForwardWrites(d, id, wall) :: RecoveryWrite(w)
  {
    hide Logged;
  }

  lemma ForwardPrefixSettles(d: Disk, id: Id, wall: Time, k: nat)
    requires Inv(d) && id in d.journals && d.journals[id].replacement.ref in d.blobs
    requires d.journals[id].oldRef in d.records && k <= |ForwardWrites(d, id, wall)|
    ensures var ws := ForwardWrites(d, id, wall);
            SameButAudit(Settled(Play(d, ws[..k])), Play(d, ws))
  {
    var ws := ForwardWrites(d, id, wall);
    ForwardSettles(d, id, wall);
    StepsPrefix(d, ws, k);
    StillPrefix(d, ws, k);
    ForwardWritesOnly(d, id, wall);
    hide Inv, Steps, Still, ForwardWrites, Play, Settled, JournalOk, RecoveryWrite;
    forall w | w in ws[..k] ensures RecoveryWrite(w) { assert w in ws; }
    RecoveryWritesLeave(d, ws[..k]);
    SettledTouches(d);
    SettledTouches(Play(d, ws[..k]));
  }

  // ----- Lineage -----

  /** `ref` was issued by `n` successive rotations starting from `root`. */
  ghost predicate DescendsFrom(d: Disk, ref: Ref, root: Ref, n: nat)
    decreases n
  {
    if n == 0 then ref == root
    else ref in d.lineage && DescendsFrom(d, d.lineage[ref], root, n - 1)
  }

  /** A chain of rotations is linear: versions count its links and issue times grow. */
  lemma {:induction false} ChainsCountVersions(d: Disk, ref: Ref, root: Ref, n: nat)
    requires Inv(d) && root in d.records && DescendsFrom(d, ref, root, n)
    ensures ref in d.records && d.records[ref].version == d.records[root].version + n
    ensures d.records[ref].scope == d.records[root].scope
    ensures n > 0 ==> d.records[root].issuedAt < d.records[ref].issuedAt
    decreases n
  {
    if n > 0 {
      assert LinkOk(d, ref, d.lineage[ref]);
      ChainsCountVersions(d, d.lineage[ref], root, n - 1);
    }
  }

  /** Two descendants of one credential at the same distance are the same credential. */
  lemma {:induction false} ChainsAreLinear(d: Disk, a: Ref, b: Ref, root: Ref, n: nat)
    requires Inv(d) && DescendsFrom(d, a, root, n) && DescendsFrom(d, b, root, n)
    ensures a == b
    decreases n
  {
    if n > 0 {
      ChainsAreLinear(d, d.lineage[a], d.lineage[b], root, n - 1);
    }
  }

  /** At any instant two unrevoked members of a chain are the source and the replacement that the
      one pending journal names. */
  lemma {:induction false} OneLiveMember(d: Disk, ref: Ref, root: Ref, n: nat)
    requires Inv(d) && n > 0 && root in d.records && DescendsFrom(d, ref, root, n)
    requires ref in d.records && d.records[root].revokedAt.None? && d.records[ref].revokedAt.None?
    ensures n == 1 && Pending(d, root, ref)
  {
    assert LinkOk(d, ref, d.lineage[ref]);
    if n > 1 {
      var mid := Successor(d, ref, root, n);
      assert LinkOk(d, mid, root);
      var id :| id in d.journals && Names(d.journals[id], root, mid);
      PendingReplacementIsLast(d, id);
      var next := Successor(d, ref, mid, n - 1);
      assert false;
    }
  }

  /** The replacement of a pending rotation has not been replaced itself. */
  lemma PendingReplacementIsLast(d: Disk, id: Id)
    requires Inv(d) && id in d.journals && d.journals[id].replacement.ref in d.records
    ensures forall c | c in d.lineage :: d.lineage[c] != d.journals[id].replacement.ref
  {
    var j := d.journals[id];
    assert JournalOk(d, id, j);
    forall c | c in d.lineage ensures d.lineage[c] != j.replacement.ref {
      assert LinkOk(d, c, d.lineage[c]);
    }
  }

  /** The member right after `root` on the way to `ref`. */
  lemma {:induction false} Successor(d: Disk, ref: Ref, root: Ref, n: nat) returns (s: Ref)
    requires n > 0 && DescendsFrom(d, ref, root, n)
    ensures s in d.lineage && d.lineage[s] == root && DescendsFrom(d, ref, s, n - 1)
    decreases n
  {
    if n == 1 {
      s := ref;
    } else {
      s := Successor(d, d.lineage[ref], root, n - 1);
    }
  }

  // ----- Custody of keys -----

  /** A credential that is active once pending rotations are settled can always be materialized,
      and what is written beside its lease is the private key its record names. */
  lemma ActiveCanBeMaterialized(d: Disk, c: Call, m: Moment)
    requires Inv(d) && c.Materialize? && Fresh(d, c) && c.pid in m.procs && c.fault.None?
    requires c.ref in Settled(d).records && Settled(d).records[c.ref].Status(m.wall) == Active
    ensures var p := CallPlan(d, c, m);
            var files := Play(d, p.writes).runtime;
            && p.failure.None?
            && c.ref in files
            && KeyName(c.token) in files[c.ref] && LeaseName(c.token) in files[c.ref]
            && files[c.ref][KeyName(c.token)] == KeyFile(Settled(d).records[c.ref].fingerprint.key)
            && files[c.ref][LeaseName(c.token)].LeaseFile?
            && LeaseLive(files[c.ref][LeaseName(c.token)].lease, m.procs)
  {
    var ws := Recovery(d, m.wall).writes;
    RecoverySettles(d, m.wall);
    RecoveryIsQuiet(d, m.wall);
    FreshAfterRecovery(d, c, m.wall);
    var e := Play(d, ws);
    StaleRecoveryReclaims(e, m.procs);
    FreshAfterReclaiming(e, c, m.procs);
    var stale := StaleRecovery(e, m.procs);
    var f := Play(e, stale.writes);
    MaterializeHandsOutTheKey(f, c, m);
    hide Inv, Quiet, MaterializePlan, Reclaimed, Settled, Steps, Still;
    var body := BodyPlan(f, c, m);
    PlayAppend(e, stale.writes, body.writes);
    PlayAppend(d, ws, stale.writes + body.writes);
  }

  lemma MaterializeHandsOutTheKey(d: Disk, c: Call, m: Moment)
    requires Inv(d) && c.Materialize? && Fresh(d, c) && c.pid in m.procs && c.fault.None?
    requires c.ref in d.records && d.records[c.ref].Status(m.wall) == Active
    ensures var p := MaterializePlan(d, c, m);
            var files := Play(d, p.writes).runtime;
            && p.failure.None?
            && c.ref in files
            && KeyName(c.token) in files[c.ref] && LeaseName(c.token) in files[c.ref]
            && files[c.ref][KeyName(c.token)] == KeyFile(d.records[c.ref].fingerprint.key)
            && files[c.ref][LeaseName(c.token)].LeaseFile?
            && LeaseLive(files[c.ref][LeaseName(c.token)].lease, m.procs)
  {
    assert Seals(d.blobs[c.ref], d.records[c.ref]);
    assert d.records[c.ref].Original() == d.records[c.ref];
    var lease := Lease(c.pid, m.procs[c.pid], c.ref, KeyName(c.token));
    assert MaterializePlan(d, c, m) == Go(MaterializeWrites(c.ref, c.token, lease, d.blobs[c.ref].key));
    NameFacts(c.token);
    MaterializeWritesAreQuiet(d, c, lease, d.blobs[c.ref].key);
    hide Inv, Quiet, Fresh, MaterializePlan;
    MaterializedFiles(d, c.ref, c.token, lease, d.blobs[c.ref].key);
  }

  lemma MaterializedFiles(d: Disk, ref: Ref, token: string, lease: Lease, key: PrivateKey)
    requires KeyName(token) != LeaseName(token)
    ensures var ws := MaterializeWrites(ref, token, lease, key);
            var files := Apply(Apply(Apply(d, ws[0]), ws[1]), ws[2]).runtime;
            && ref in files && KeyName(token) in files[ref] && LeaseName(token) in files[ref]
            && files[ref][KeyName(token)] == KeyFile(key) && files[ref][LeaseName(token)] == LeaseFile(lease)
  {
    hide KeyName, LeaseName;
  }

  /** After stale recovery a runtime key remains exactly when it was there with a lease that names
      a live process. */
  lemma SurvivingKeys(d: Disk, procs: Processes, ref: Ref, token: string)
    requires Inv(d) && |token| == TOKEN_LENGTH
    ensures var after := Play(d, StaleRecovery(d, procs).writes).runtime;
            (ref in after && KeyName(token) in after[ref])
            <==> (ref in d.runtime && Survives(d.runtime[ref], token, procs))
  {
    StaleRecoveryReclaims(d, procs);
    NameFacts(token);
    if ref in d.runtime && Survives(d.runtime[ref], token, procs) {
      assert KeyName(token) in Survivors(d.runtime[ref], procs);
    }
  }
}
