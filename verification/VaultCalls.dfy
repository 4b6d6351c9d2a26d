/** Every call on the vault: each of its writes is safe, and at most one of them commits. */
module VaultCalls {
  import opened Common
  import opened Listing
  import opened VaultModel
  import opened VaultInvariant
  import opened VaultRecovery
  import opened VaultRuntime

  /** The random names a call draws are new. */
  ghost predicate Fresh(d: Disk, c: Call) {
    match c
    case Rotate(_, _, _, _, newRef, _, _) =>
      && newRef !in d.records && newRef !in d.blobs
      && forall id | id in d.journals :: d.journals[id].replacement.ref != newRef
    case Materialize(ref, token, _, _) =>
      && |token| == TOKEN_LENGTH
      && (ref in d.runtime ==> KeyName(token) !in d.runtime[ref] && LeaseName(token) !in d.runtime[ref])
    case Release(_, token) => |token| == TOKEN_LENGTH
    case _ => true
  }

  /** The list is safe throughout and commits at most once. */
  ghost predicate Atomic(d: Disk, ws: seq<Write>) {
    Steps(d, ws) && OneCommit(d, ws)
  }

  lemma QuietIsAtomic(d: Disk, ws: seq<Write>)
    requires Quiet(d, ws)
    ensures Atomic(d, ws)
  {
    StillIsOneCommit(d, ws);
  }

  lemma QuietThenAtomic(d: Disk, a: seq<Write>, b: seq<Write>)
    requires Quiet(d, a) && Atomic(Play(d, a), b)
    ensures Atomic(d, a + b)
  {
    StepsAppend(d, a, b);
    StillAppend(d, a, b);
  }

  lemma CommitThenQuiet(d: Disk, w: Write, ws: seq<Write>)
    requires Inv(d) && Evolves(d, Apply(d, w)) && Quiet(Apply(d, w), ws)
    ensures Atomic(d, [w] + ws)
  {
    assert ([w] + ws)[1..] == ws;
  }

  // ----- Single writes with no rotation pending -----

  lemma SettledNow(d: Disk)
    requires d.journals == map[]
    ensures Settled(d) == d && CustodyOf(d) == CustodyIn(d)
  {
  }

  /** A record may be written when it continues the stored one and its key is in custody. */
  lemma RecordStep(d: Disk, r: Record)
    requires Inv(d) && d.journals == map[] && r.Valid()
    requires r.ref in d.records ==> Later(d.records[r.ref], r)
    requires r.destroyedAt.None? ==> r.ref in d.blobs && Seals(d.blobs[r.ref], r)
    ensures var e := Apply(d, PutRecord(r, None));
            Inv(e) && Evolves(d, e) && e == d.(records := d.records[r.ref := r])
  {
    var e := Apply(d, PutRecord(r, None));
    LineageFrame(d, e);
    AuditFrame(d, e);
    RuntimeFrame(d, e);
  }

  lemma BlobStep(d: Disk, w: Write)
    requires Inv(d) && d.journals == map[]
    requires match w
             case PutBlob(ref, _) => ref !in d.records
             case DropBlob(ref) => ref in d.records ==> d.records[ref].destroyedAt.Some?
             case _ => false
    ensures Quiet(d, [w]) && Play(d, [w]) == Apply(d, w) && Inv(Apply(d, w))
  {
    var e := Apply(d, w);
    LineageFrame(d, e);
    AuditFrame(d, e);
    RuntimeFrame(d, e);
    UnheldBlob(d, w);
    QuietOne(d, w);
  }

  lemma UnheldBlob(d: Disk, w: Write)
    requires d.journals == map[]
    requires match w
             case PutBlob(ref, _) => ref !in d.records
             case DropBlob(ref) => ref in d.records ==> d.records[ref].destroyedAt.Some?
             case _ => false
    ensures CustodyOf(Apply(d, w)) == CustodyOf(d)
  {
    var e := Apply(d, w);
    SettledNow(d);
    SettledNow(e);
    assert CustodyIn(d).keys == CustodyIn(e).keys;
  }

  // ----- Bodies -----

  lemma StoreIsAtomic(d: Disk, c: Call, wall: Time)
    requires Inv(d) && d.journals == map[] && c.Store? && Created(c).Valid()
    ensures Atomic(d, StorePlan(d, c, wall).writes)
  {
    var r := Created(c);
    if r.ref !in d.records && r.ref !in d.blobs && c.unwritable {
      StoreCleansUp(d, c, wall);
      QuietIsAtomic(d, StorePlan(d, c, wall).writes);
    } else if r.ref !in d.records && r.ref !in d.blobs {
      var put := PutBlob(r.ref, Blob(r, c.key, c.nonce));
      BlobStep(d, put);
      var e := Apply(d, put);
      RecordStep(e, r);
      var f := Apply(e, PutRecord(r, None));
      var log := Append(EventOf(CreatedEvent, r, None, wall));
      LogStep(f, log.event);
      CommitThenQuiet(e, PutRecord(r, None), [log]);
      QuietThenAtomic(d, [put], [PutRecord(r, None)] + [log]);
      assert StorePlan(d, c, wall).writes == [put] + ([PutRecord(r, None)] + [log]);
    } else {
      QuietNothing(d);
      QuietIsAtomic(d, []);
    }
  }

  /** When the record cannot be written the blob is removed again, and nothing has changed. */
  lemma StoreCleansUp(d: Disk, c: Call, wall: Time)
    requires Inv(d) && d.journals == map[] && c.Store? && c.unwritable
    requires c.ref !in d.records && c.ref !in d.blobs
    ensures var p := StorePlan(d, c, wall);
            p.failure == Some(WriteFailed) && Quiet(d, p.writes) && Play(d, p.writes) == d
  {
    var put, drop := PutBlob(c.ref, Blob(Created(c), c.key, c.nonce)), DropBlob(c.ref);
    BlobStep(d, put);
    BlobStep(Apply(d, put), drop);
    QuietJoin(d, [put], [drop]);
    hide Inv, Quiet;
    assert [put] + [drop] == [put, drop];
    assert d.blobs[c.ref := put.blob] - {c.ref} == d.blobs;
  }

  lemma RevokeIsAtomic(d: Disk, c: Call, wall: Time)
    requires Inv(d) && d.journals == map[] && c.Revoke?
    ensures Atomic(d, RevokePlan(d, c, wall).writes)
  {
    QuietNothing(d);
    QuietIsAtomic(d, []);
    if RevokePlan(d, c, wall).failure.None? {
      var revoked := d.records[c.ref].(revokedAt := Some(c.at));
      RecordStep(d, revoked);
      var log := Append(EventOf(RevokedEvent, revoked, None, wall));
      LogStep(Apply(d, PutRecord(revoked, None)), log.event);
      CommitThenQuiet(d, PutRecord(revoked, None), [log]);
      assert RevokePlan(d, c, wall).writes == [PutRecord(revoked, None)] + [log];
    }
  }

  lemma ReleaseIsQuiet(d: Disk, ref: Ref, token: string)
    requires Inv(d) && |token| == TOKEN_LENGTH
    ensures Quiet(d, TokenRemoval(ref, token) + [DropScope(ref)])
  {
    TokenRemovalIsQuiet(d, ref, token);
    var e := Play(d, TokenRemoval(ref, token));
    DropScopeStep(e, ref);
    QuietJoin(d, TokenRemoval(ref, token), [DropScope(ref)]);
  }

  /** The key goes before its lease. */
  lemma TokenRemovalIsQuiet(d: Disk, ref: Ref, token: string)
    requires Inv(d) && |token| == TOKEN_LENGTH
    ensures var ws := TokenRemoval(ref, token);
            Quiet(d, ws) && Inv(Play(d, ws)) && Play(d, ws) == Apply(Apply(d, ws[0]), ws[1])
  {
    NameFacts(token);
    var key, lease := DropRuntime(ref, KeyName(token)), DropRuntime(ref, LeaseName(token));
    if ref in d.runtime {
      DropStep(d, ref, KeyName(token));
      DropStep(Apply(d, key), ref, LeaseName(token));
    } else {
      RuntimeStep(d, key);
      RuntimeStep(d, lease);
    }
    QuietJoin(d, [key], [lease]);
    assert TokenRemoval(ref, token) == [key] + [lease];
    QuietKeepsInv(d, TokenRemoval(ref, token));
  }

  lemma MakeScopeStep(d: Disk, ref: Ref)
    requires Inv(d)
    ensures Quiet(d, [MakeScope(ref)]) && Inv(Apply(d, MakeScope(ref)))
    ensures Play(d, [MakeScope(ref)]) == Apply(d, MakeScope(ref))
  {
    var e := Apply(d, MakeScope(ref));
    forall r, n | r in e.runtime && n in e.runtime[r] ensures RuntimeFileOk(e, r, n) {
      FileOk(d, r, n);
    }
    RuntimeStep(d, MakeScope(ref));
  }

  /** A new runtime file may be written: a lease first, then the key it covers. */
  lemma PutRuntimeStep(d: Disk, ref: Ref, name: string, file: RuntimeFile)
    requires Inv(d) && ref in d.runtime && name !in d.runtime[ref] && IsRuntimeName(name)
    requires var token := name[..TOKEN_LENGTH];
             && (IsKeyName(name) ==> LeaseName(token) in d.runtime[ref] && file.KeyFile? && ref in d.records
                                     && FingerprintOf(file.key) == d.records[ref].fingerprint)
             && (IsLeaseName(name) ==> file.LeaseFile? && LeaseValid(file.lease, ref, KeyName(token)))
    ensures var w := PutRuntime(ref, name, file);
            Quiet(d, [w]) && Play(d, [w]) == Apply(d, w) && Inv(Apply(d, w))
  {
    var e := Apply(d, PutRuntime(ref, name, file));
    forall r, n | r in e.runtime && n in e.runtime[r] ensures RuntimeFileOk(e, r, n) {
      if r != ref || n != name { FileOk(d, r, n); }
    }
    RuntimeStep(d, PutRuntime(ref, name, file));
  }

  lemma MaterializeIsQuiet(d: Disk, c: Call, m: Moment)
    requires Inv(d) && c.Materialize? && Fresh(d, c)
    ensures Quiet(d, MaterializePlan(d, c, m).writes)
  {
    var p := MaterializePlan(d, c, m);
    if p.failure.None? {
      MaterializeWritesAreQuiet(d, c, Lease(c.pid, m.procs[c.pid], c.ref, KeyName(c.token)), d.blobs[c.ref].key);
    } else if p.failure == Some(WriteFailed) {
      MaterializeCleansUp(d, c, m);
    } else if p.writes == [] {
      QuietNothing(d);
    } else {
      MakeScopeStep(d, c.ref);
    }
  }

  lemma {:induction false} QuietPrefix(d: Disk, ws: seq<Write>, k: nat)
    requires Quiet(d, ws) && k <= |ws|
    ensures Quiet(d, ws[..k])
    decreases k
  {
    if k > 0 {
      QuietPrefix(Apply(d, ws[0]), ws[1..], k - 1);
      assert ws[..k][1..] == ws[1..][..k - 1];
    }
  }

  /** When a runtime file cannot be written, what was written is removed, the key before its lease,
      and nothing but the scope's directory can have been added. */
  lemma MaterializeCleansUp(d: Disk, c: Call, m: Moment)
    requires Inv(d) && c.Materialize? && Fresh(d, c) && MaterializePlan(d, c, m).failure == Some(WriteFailed)
    ensures var p := MaterializePlan(d, c, m);
            Quiet(d, p.writes) && Play(d, p.writes) == Apply(d, MakeScope(c.ref))
  {
    var lease, n := Lease(c.pid, m.procs[c.pid], c.ref, KeyName(c.token)), 1 + Min(c.fault.value, 2);
    var key := d.blobs[c.ref].key;
    var ws := MaterializeWrites(c.ref, c.token, lease, key);
    MaterializeWritesAreQuiet(d, c, lease, key);
    QuietPrefix(d, ws, n);
    QuietKeepsInv(d, ws[..n]);
    NameFacts(c.token);
    hide Inv, Quiet, Fresh, MaterializePlan;
    TokenRemovalIsQuiet(Play(d, ws[..n]), c.ref, c.token);
    QuietJoin(d, ws[..n], TokenRemoval(c.ref, c.token));
    WrittenThenRemoved(d, c.ref, c.token, lease, key, n);
  }

  lemma MaterializeWritesAreQuiet(d: Disk, c: Call, lease: Lease, key: PrivateKey)
    requires Inv(d) && c.Materialize? && Fresh(d, c) && c.ref in d.records
    requires LeaseValid(lease, c.ref, KeyName(c.token)) && FingerprintOf(key) == d.records[c.ref].fingerprint
    ensures var ws := MaterializeWrites(c.ref, c.token, lease, key);
            Quiet(d, ws) && Play(d, ws) == Apply(Apply(Apply(d, ws[0]), ws[1]), ws[2])
  {
    hide Inv, Quiet;
    NameFacts(c.token);
    var ws := MaterializeWrites(c.ref, c.token, lease, key);
    MakeScopeStep(d, c.ref);
    var e := Apply(d, ws[0]);
    PutRuntimeStep(e, c.ref, LeaseName(c.token), LeaseFile(lease));
    var f := Apply(e, ws[1]);
    PutRuntimeStep(f, c.ref, KeyName(c.token), KeyFile(key));
    QuietJoin(d, [ws[0]], [ws[1]]);
    QuietJoin(d, [ws[0]] + [ws[1]], [ws[2]]);
    assert ws == [ws[0]] + [ws[1]] + [ws[2]];
  }

  lemma MaterializePlayed(d: Disk, ws: seq<Write>, n: nat)
    requires |ws| == 3 && 1 <= n <= 3
    ensures Play(d, ws[..n]) == if n == 1 then Apply(d, ws[0])
                                else if n == 2 then Apply(Apply(d, ws[0]), ws[1])
                                else Apply(Apply(Apply(d, ws[0]), ws[1]), ws[2])
  {
    hide Apply;
    var a := Apply(d, ws[0]);
    var b := Apply(a, ws[1]);
    assert ws[..n][1..] == ws[1..n];
    assert Play(d, ws[..n]) == Play(a, ws[1..n]);
    if n > 1 {
      assert ws[1..n][1..] == ws[2..n];
      assert Play(a, ws[1..n]) == Play(b, ws[2..n]);
    }
    if n > 2 {
      assert ws[2..n][1..] == [];
      assert Play(b, ws[2..n]) == Play(Apply(b, ws[2]), []);
    }
  }

  /** The disk with these files in the scope. */
  function WithFiles(d: Disk, ref: Ref, files: RuntimeScope): Disk {
    d.(runtime := d.runtime[ref := files])
  }

  lemma FileWritten(d: Disk, ref: Ref, files: RuntimeScope, name: string, file: RuntimeFile)
    ensures Apply(WithFiles(d, ref, files), PutRuntime(ref, name, file)) == WithFiles(d, ref, files[name := file])
  {
  }

  lemma FileRemoved(d: Disk, ref: Ref, files: RuntimeScope, name: string)
    ensures Apply(WithFiles(d, ref, files), DropRuntime(ref, name)) == WithFiles(d, ref, files - {name})
  {
  }

  lemma BackToFiles(files: RuntimeScope, k: string, l: string, x: RuntimeFile, y: RuntimeFile)
    requires k != l && k !in files && l !in files
    ensures files - {k} - {l} == files && files[l := x] - {k} - {l} == files
    ensures files[l := x][k := y] - {k} - {l} == files
  {
  }

  lemma WrittenThenRemoved(d: Disk, ref: Ref, token: string, lease: Lease, key: PrivateKey, n: nat)
    requires 1 <= n <= 3 && KeyName(token) != LeaseName(token)
    requires ref in d.runtime ==> KeyName(token) !in d.runtime[ref] && LeaseName(token) !in d.runtime[ref]
    ensures var ws, gone := MaterializeWrites(ref, token, lease, key), TokenRemoval(ref, token);
            Apply(Apply(Play(d, ws[..n]), gone[0]), gone[1]) == Apply(d, MakeScope(ref))
  {
    MaterializePlayed(d, MaterializeWrites(ref, token, lease, key), n);
    var e := Apply(d, MakeScope(ref));
    var files := e.runtime[ref];
    assert WithFiles(e, ref, files) == e by { assert e.runtime[ref := files] == e.runtime; }
    var k, l, x, y := KeyName(token), LeaseName(token), LeaseFile(lease), KeyFile(key);
    hide KeyName, LeaseName, Play, WithFiles, Apply;
    BackToFiles(files, k, l, x, y);
    FileWritten(e, ref, files, l, x);
    FileWritten(e, ref, files[l := x], k, y);
    var written := if n == 1 then files else if n == 2 then files[l := x] else files[l := x][k := y];
    FileRemoved(e, ref, written, k);
    FileRemoved(e, ref, written - {k}, l);
  }

  // ----- Rotation -----

  /** The journal of a rotation changes nothing until the new blob is written. */
  lemma JournalStep(d: Disk, id: Id, j: Journal)
    requires Inv(d) && d.journals == map[]
    requires JournalOk(d, id, j) && j.replacement.ref !in d.blobs && j.replacement.ref !in d.records
    ensures var w := PutJournal(id, j);
            Quiet(d, [w]) && Play(d, [w]) == Apply(d, w) && Inv(Apply(d, w))
  {
    var e := Apply(d, PutJournal(id, j));
    assert JournalOk(e, id, e.journals[id]);
    LineageFrame(d, e);
    AuditFrame(d, e);
    RuntimeFrame(d, e);
    SettledPending(e, id);
    SettledNow(d);
    SameCustody(d, e);
    QuietOne(d, PutJournal(id, j));
  }

  /** The new blob of a journalled rotation: the write that commits it. */
  lemma RotationBlobStep(d: Disk, id: Id)
    requires Inv(d) && id in d.journals && d.journals[id].replacement.ref !in d.blobs
    ensures var j := d.journals[id];
            var e := Apply(d, PutBlob(j.replacement.ref, j.digest.of));
            Inv(e) && Evolves(d, e)
  {
    var j := d.journals[id];
    assert JournalOk(d, id, j);
    var e := Apply(d, PutBlob(j.replacement.ref, j.digest.of));
    OneJournal(d, id);
    assert JournalOk(e, id, j);
    LineageFrame(d, e);
    AuditFrame(d, e);
    RuntimeFrame(d, e);
  }

  function RotationJournal(prior: Record, c: Call): Journal
    requires c.Rotate?
  {
    var r := Replacement(prior, c);
    Journal(c.rotationId, prior.ref, prior.version, prior.fingerprint, r, Sha256(Blob(r, c.key, c.nonce)))
  }

  /** The disk of a rotation that has just committed. */
  function Committed(d: Disk, c: Call): Disk
    requires c.Rotate? && c.ref in d.records
  {
    var j := RotationJournal(d.records[c.ref], c);
    Apply(Apply(d, PutJournal(c.rotationId, j)), PutBlob(c.newRef, j.digest.of))
  }

  /** A rotation writes its journal, commits, and from there does what recovery would do. */
  lemma RotationShape(d: Disk, c: Call, wall: Time)
    requires Inv(d) && d.journals == map[] && c.Rotate? && Fresh(d, c)
    requires RotatePlan(d, c, wall).failure.None?
    ensures var j := RotationJournal(d.records[c.ref], c);
            var e := Committed(d, c);
            && JournalOk(d, c.rotationId, j)
            && e.journals == map[c.rotationId := j]
            && c.ref in e.records
            && RotatePlan(d, c, wall).writes ==
                 [PutJournal(c.rotationId, j)] + ([PutBlob(c.newRef, j.digest.of)] + ForwardWrites(e, c.rotationId, wall))
  {
    var prior := d.records[c.ref];
    var j := RotationJournal(prior, c);
    NoSuccessor(d, c.ref);
    assert prior.Original() == prior;
    assert c.newRef !in d.records;
    assert JournalOk(d, c.rotationId, j);
  }

  /** A credential that is not revoked has not been replaced. */
  lemma NoSuccessor(d: Disk, ref: Ref)
    requires Inv(d) && d.journals == map[] && ref in d.records && d.records[ref].revokedAt.None?
    ensures forall c | c in d.lineage :: d.lineage[c] != ref
  {
    forall c | c in d.lineage ensures d.lineage[c] != ref {
      assert LinkOk(d, c, d.lineage[c]);
    }
  }

  lemma RotateIsAtomic(d: Disk, c: Call, wall: Time)
    requires Inv(d) && d.journals == map[] && c.Rotate? && Fresh(d, c)
    ensures Atomic(d, RotatePlan(d, c, wall).writes)
  {
    QuietNothing(d);
    QuietIsAtomic(d, []);
    if RotatePlan(d, c, wall).failure.None? {
      RotationShape(d, c, wall);
      var j := RotationJournal(d.records[c.ref], c);
      var begin, commit := PutJournal(c.rotationId, j), PutBlob(c.newRef, j.digest.of);
      JournalStep(d, c.rotationId, j);
      var e := Apply(d, begin);
      RotationBlobStep(e, c.rotationId);
      ForwardSettles(Apply(e, commit), c.rotationId, wall);
      var rest := ForwardWrites(Committed(d, c), c.rotationId, wall);
      CommitThenQuiet(e, commit, rest);
      QuietThenAtomic(d, [begin], [commit] + rest);
    }
  }

  // ----- Offboarding -----

  lemma OffboardedOnce(d: Disk, r: Record, wall: Time)
    requires Inv(d) && r.ref in d.records && d.records[r.ref] == r && r.destroyedAt.Some?
    ensures var ws := AppendOnce(d.audit, OffboardedEvent, r, Offboarding(r.ref, r.destroyedAt.value), wall);
            && Quiet(d, ws) && Inv(Play(d, ws))
            && Play(d, ws) == d.(audit := LoggedOnce(d.audit, OffboardedEvent, r, Offboarding(r.ref, r.destroyedAt.value), wall))
  {
    var op := Offboarding(r.ref, r.destroyedAt.value);
    QuietNothing(d);
    if !Logged(d.audit, OffboardedEvent, r, op, wall) {
      var e := EventOf(OffboardedEvent, r, Some(op), wall);
      forall i | 0 <= i < |d.audit| && d.audit[i].kind == OffboardedEvent ensures d.audit[i].ref != r.ref {
        if d.audit[i].ref == r.ref {
          assert OffboardingOk(d.records, d.audit[i]);
          assert Records(d.audit[i], OffboardedEvent, r, op, wall);
        }
      }
      AuditExtends(d, Apply(d, Append(e)), e);
      AppendStep(d, e);
      QuietKeepsInv(d, [Append(e)]);
    }
  }

  lemma QuietKeepsInv(d: Disk, ws: seq<Write>)
    requires Quiet(d, ws)
    ensures Inv(Play(d, ws)) && Evolves(d, Play(d, ws))
  {
    StepsPrefix(d, ws, |ws|);
    assert ws[..|ws|] == ws;
  }

  /** Removing a destroyed credential's blob and runtime files, then recording it. */
  lemma DestroyIsQuiet(d: Disk, r: Record, wall: Time)
    requires Inv(d) && d.journals == map[]
    requires r.ref in d.records && d.records[r.ref] == r && r.destroyedAt.Some?
    ensures var p := DestroyPlan(d, r, wall);
            && p.failure.None? && Quiet(d, p.writes)
            && Play(d, p.writes) ==
                 d.(blobs := d.blobs - {r.ref}, runtime := d.runtime - {r.ref},
                    audit := LoggedOnce(d.audit, OffboardedEvent, r, Offboarding(r.ref, r.destroyedAt.value), wall))
  {
    var drop := DropBlob(r.ref);
    BlobStep(d, drop);
    hide Inv, Quiet, AppendOnce, RemovalPlan, LoggedOnce;
    var e := Apply(d, drop);
    RuntimeRemovalIsSafe(e, r.ref);
    var removal := RuntimeRemoval(e, r.ref);
    assert removal == RuntimeRemoval(d, r.ref);
    QuietKeepsInv(e, removal.writes);
    var f := Play(e, removal.writes);
    OffboardedOnce(f, r, wall);
    var log := AppendOnce(d.audit, OffboardedEvent, r, Offboarding(r.ref, r.destroyedAt.value), wall);
    assert f.audit == d.audit;
    QuietJoin(d, [drop], removal.writes);
    QuietJoin(d, [drop] + removal.writes, log);
    assert DestroyPlan(d, r, wall) == Go([drop] + removal.writes + log);
  }

  lemma OffboardIsAtomic(d: Disk, c: Call, wall: Time)
    requires Inv(d) && d.journals == map[] && c.Offboard?
    ensures Atomic(d, OffboardPlan(d, c, wall).writes)
  {
    QuietNothing(d);
    QuietIsAtomic(d, []);
    if Readable(d, c.ref) {
      var r := d.records[c.ref];
      if r.destroyedAt.Some? {
        DestroyIsQuiet(d, r, wall);
        QuietIsAtomic(d, DestroyPlan(d, r, wall).writes);
      } else if r.issuedAt <= c.at {
        var destroyed := DestroyedRecord(r, c.at);
        RecordStep(d, destroyed);
        var e := Apply(d, PutRecord(destroyed, None));
        DestroyIsQuiet(e, destroyed, wall);
        assert DestroyPlan(e, destroyed, wall) == DestroyPlan(d, destroyed, wall);
        CommitThenQuiet(d, PutRecord(destroyed, None), DestroyPlan(d, destroyed, wall).writes);
      }
    }
  }
}
