/**
 What each call leaves in the vault's directories and when it refuses, field by field: the disk of a
 completed call as a change of the disk that recovery leaves.
 */
module VaultOutcomes {
  import opened Common
  import opened VaultModel
  import opened VaultInvariant
  import opened VaultRecovery
  import opened VaultRuntime
  import opened VaultCalls
  import opened VaultTheorems

  /** The disk that a completed recovery leaves: the settled one, with what recovery logged. */
  ghost function Recovered(d: Disk, wall: Time): Disk {
    Play(d, Recovery(d, wall).writes)
  }

  lemma RecoveredIsSettled(d: Disk, wall: Time)
    requires Inv(d)
    ensures var b := Recovered(d, wall);
            && b == Settled(d).(audit := b.audit) && d.audit <= b.audit
            && Inv(b) && b.journals == map[] && Recovery(d, wall).failure == None
  {
    RecoverySettles(d, wall);
    RecoveryIsQuiet(d, wall);
  }

  /** The disk a completed call leaves. */
  ghost function Ended(d: Disk, c: Call, m: Moment): Disk {
    Play(d, CallPlan(d, c, m).writes)
  }

  /** A call that starts with recovery alone does the rest from what recovery leaves. */
  lemma FromRecovered(d: Disk, c: Call, m: Moment)
    requires Inv(d) && !c.Open? && !c.Materialize? && (c.Store? ==> Created(c).Valid())
    ensures var body := BodyPlan(Recovered(d, m.wall), c, m);
            CallPlan(d, c, m).failure == body.failure && Ended(d, c, m) == Play(Recovered(d, m.wall), body.writes)
  {
    RecoveredIsSettled(d, m.wall);
    hide BodyPlan, Play;
    PlayAppend(d, Recovery(d, m.wall).writes, BodyPlan(Recovered(d, m.wall), c, m).writes);
  }

  lemma PlayOne(d: Disk, a: Write)
    ensures Play(d, [a]) == Apply(d, a)
  {
    assert [a][1..] == [];
  }

  lemma PlayPair(d: Disk, a: Write, b: Write)
    ensures Play(d, [a, b]) == Apply(Apply(d, a), b)
  {
    hide Apply;
    assert [a, b][1..] == [b];
    PlayOne(Apply(d, a), b);
  }

  lemma PlayTriple(d: Disk, a: Write, b: Write, c: Write)
    ensures Play(d, [a, b, c]) == Apply(Apply(Apply(d, a), b), c)
  {
    hide Apply;
    assert [a, b, c][1..] == [b, c];
    PlayPair(Apply(d, a), b, c);
  }

  /** The status an undestroyed, unrevoked credential has at `now`. */
  function Unrevoked(expiresAt: Option<Time>, now: Time): Status {
    if expiresAt.Some? && now >= expiresAt.value then Expired else Active
  }

  /** A credential is usable until it expires, is revoked, or is destroyed. */
  predicate Usable(r: Record, now: Time) {
    r.destroyedAt == None && r.revokedAt == None && (r.expiresAt == None || now < r.expiresAt.value)
  }

  lemma ActiveIsUsable(r: Record, now: Time)
    ensures r.Status(now) == Active <==> Usable(r, now)
  {
  }

  /** The audit log with `e`, unless an event that differs in its recording time alone is there. */
  ghost function Once(log: seq<Event>, e: Event): seq<Event> {
    if exists i :: 0 <= i < |log| && log[i] == e.(recordedAt := log[i].recordedAt) then log else log + [e]
  }

  lemma RecordsOnce(log: seq<Event>, kind: EventKind, r: Record, op: Operation, wall: Time)
    ensures var e := Event(kind, r.ref, r.scope.tenant, r.scope.application, r.scope.target, r.version, r.fingerprint,
                           r.Status(wall), wall, Some(op));
            AppendOnce(log, kind, r, op, wall) == if Once(log, e) == log then [] else [Append(e)]
    ensures LoggedOnce(log, kind, r, op, wall) ==
              Once(log, Event(kind, r.ref, r.scope.tenant, r.scope.application, r.scope.target, r.version, r.fingerprint,
                              r.Status(wall), wall, Some(op)))
  {
    var e := EventOf(kind, r, Some(op), wall);
    forall i | 0 <= i < |log| ensures Records(log[i], kind, r, op, wall) <==> log[i] == e.(recordedAt := log[i].recordedAt) {
    }
    hide Records;
    assert |log + [e]| > |log|;
  }

  // ----- Reading, releasing, revoking -----

  /** Reading changes nothing but what recovery does, and fails exactly on an unknown credential. */
  lemma GetOutcome(d: Disk, c: Call, m: Moment)
    requires Inv(d) && c.Get?
    ensures var b := Recovered(d, m.wall);
            && CallPlan(d, c, m).failure == (if c.ref in b.records then None else Some(UnreadableRecord))
            && Ended(d, c, m) == b
  {
    RecoveredIsSettled(d, m.wall);
    FromRecovered(d, c, m);
    hide Recovered, CallPlan, Ended;
  }

  /** Revoking stamps the stored record, and it alone, and logs one event; it fails exactly on an
      unknown or destroyed credential or a time before its issue. */
  lemma RevokeOutcome(d: Disk, c: Call, m: Moment)
    requires Inv(d) && c.Revoke?
    ensures var b := Recovered(d, m.wall);
            && CallPlan(d, c, m).failure ==
                 (if c.ref !in b.records then Some(UnreadableRecord)
                  else if b.records[c.ref].destroyedAt.Some? then Some(AlreadyDestroyed)
                  else if c.at < b.records[c.ref].issuedAt then Some(InvalidTime)
                  else None)
            && (CallPlan(d, c, m).failure.Some? ==> Ended(d, c, m) == b)
            && (CallPlan(d, c, m).failure.None? ==>
                  var r := b.records[c.ref];
                  Ended(d, c, m) == b.(
                    records := b.records[c.ref := r.(revokedAt := Some(c.at))],
                    audit := b.audit + [Event(RevokedEvent, c.ref, r.scope.tenant, r.scope.application, r.scope.target,
                                              r.version, r.fingerprint, Revoked, m.wall, None)]))
  {
    RecoveredIsSettled(d, m.wall);
    FromRecovered(d, c, m);
    var b := Recovered(d, m.wall);
    hide Recovered, CallPlan, Ended, Play;
    assert Play(b, []) == b by { NothingPlayed(b); }
    if c.ref in b.records {
      var revoked := b.records[c.ref].(revokedAt := Some(c.at));
      PlayPair(b, PutRecord(revoked, None), Append(EventOf(RevokedEvent, revoked, None, m.wall)));
    }
  }

  lemma NothingPlayed(d: Disk)
    ensures Play(d, []) == d
  {
  }

  /** The runtime directories without these two files, and without the directory if nothing else was
      in it. */
  function Without(runtime: map<Ref, RuntimeScope>, ref: Ref, a: string, b: string): map<Ref, RuntimeScope> {
    if ref !in runtime then runtime
    else if runtime[ref] - {a, b} == map[] then runtime - {ref}
    else runtime[ref := runtime[ref] - {a, b}]
  }

  /** Releasing removes the token's key and lease, and the scope they leave empty, and nothing else;
      it never fails. */
  lemma ReleaseOutcome(d: Disk, c: Call, m: Moment)
    requires Inv(d) && c.Release?
    ensures var b := Recovered(d, m.wall);
            && CallPlan(d, c, m).failure == None
            && Ended(d, c, m) == b.(runtime := Without(b.runtime, c.ref, c.token + ".key", c.token + ".lease"))
  {
    RecoveredIsSettled(d, m.wall);
    FromRecovered(d, c, m);
    var b := Recovered(d, m.wall);
    hide Recovered, CallPlan, Ended, Play, Inv, Settled;
    var k, l := c.token + ".key", c.token + ".lease";
    assert TokenRemoval(c.ref, c.token) + [DropScope(c.ref)] == [DropRuntime(c.ref, k), DropRuntime(c.ref, l), DropScope(c.ref)];
    PlayTriple(b, DropRuntime(c.ref, k), DropRuntime(c.ref, l), DropScope(c.ref));
    if c.ref in b.runtime { TwoGone(b.runtime, c.ref, k, l); }
  }

  lemma TwoGone(runtime: map<Ref, RuntimeScope>, ref: Ref, a: string, b: string)
    requires ref in runtime
    ensures runtime[ref] - {a} - {b} == runtime[ref] - {a, b}
    ensures runtime[ref := runtime[ref] - {a}][ref := runtime[ref] - {a, b}] == runtime[ref := runtime[ref] - {a, b}]
    ensures runtime[ref := runtime[ref] - {a, b}] - {ref} == runtime - {ref}
  {
  }

  // ----- Storing and rotating -----

  /** Storing writes the record, its sealed key and one event; it fails exactly on dates or a version
      that are not valid, a reference in use, or a record that cannot be written. */
  lemma StoreOutcome(d: Disk, c: Call, m: Moment)
    requires Inv(d) && c.Store?
    ensures var b := Recovered(d, m.wall);
            var invalid := c.version < 1 || (c.expiresAt.Some? && c.expiresAt.value <= c.issuedAt);
            var r := Record(c.ref, c.scope, c.version, FingerprintOf(c.key), c.issuedAt, c.expiresAt, None, None);
            && CallPlan(d, c, m).failure ==
                 (if invalid then Some(InvalidInput)
                  else if c.ref in b.records || c.ref in b.blobs then Some(AlreadyExists)
                  else if c.unwritable then Some(WriteFailed)
                  else None)
            && (invalid ==> Ended(d, c, m) == d)
            && (!invalid && CallPlan(d, c, m).failure.Some? ==> Ended(d, c, m) == b)
            && (CallPlan(d, c, m).failure.None? ==>
                  Ended(d, c, m) == b.(
                    records := b.records[c.ref := r],
                    blobs := b.blobs[c.ref := Blob(r, c.key, c.nonce)],
                    audit := b.audit + [Event(CreatedEvent, c.ref, c.scope.tenant, c.scope.application, c.scope.target,
                                              c.version, FingerprintOf(c.key), Unrevoked(c.expiresAt, m.wall), m.wall,
                                              None)]))
  {
    NothingPlayed(d);
    if Created(c).Valid() {
      RecoveredIsSettled(d, m.wall);
      FromRecovered(d, c, m);
      var b := Recovered(d, m.wall);
      hide Recovered, CallPlan, Ended, Play;
      NothingPlayed(b);
      StoreBody(b, c, m);
    }
  }

  lemma StoreBody(b: Disk, c: Call, m: Moment)
    requires Inv(b) && b.journals == map[] && c.Store? && Created(c).Valid()
    ensures var p := StorePlan(b, c, m.wall);
            var r := Record(c.ref, c.scope, c.version, FingerprintOf(c.key), c.issuedAt, c.expiresAt, None, None);
            && (p.failure.Some? ==> Play(b, p.writes) == b)
            && (p.failure.None? ==>
                  Play(b, p.writes) == b.(
                    records := b.records[c.ref := r],
                    blobs := b.blobs[c.ref := Blob(r, c.key, c.nonce)],
                    audit := b.audit + [Event(CreatedEvent, c.ref, c.scope.tenant, c.scope.application, c.scope.target,
                                              c.version, FingerprintOf(c.key), Unrevoked(c.expiresAt, m.wall), m.wall,
                                              None)]))
  {
    hide Inv;
    NothingPlayed(b);
    var p := StorePlan(b, c, m.wall);
    if p.failure == Some(WriteFailed) {
      StoreCleansUp(b, c, m.wall);
      hide Play, Quiet;
    } else if p.failure.None? {
      var r := Created(c);
      hide Play;
      PlayTriple(b, PutBlob(r.ref, Blob(r, c.key, c.nonce)), PutRecord(r, None),
                 Append(EventOf(CreatedEvent, r, None, m.wall)));
    }
  }

  /** Rotating issues the next version under a new reference, revokes the old one and logs it; it
      fails exactly on an unknown or unusable credential, a time not after its issue, or an expiry
      that is not after that time. */
  lemma RotateOutcome(d: Disk, c: Call, m: Moment)
    requires Inv(d) && c.Rotate? && Fresh(d, c)
    ensures var b := Recovered(d, m.wall);
            && CallPlan(d, c, m).failure ==
                 (if c.ref !in b.records then Some(UnreadableRecord)
                  else if !Usable(b.records[c.ref], m.wall) then Some(NotActive)
                  else if c.at <= b.records[c.ref].issuedAt then Some(InvalidTime)
                  else if c.expiresAt.Some? && c.expiresAt.value <= c.at then Some(InvalidInput)
                  else None)
            && (CallPlan(d, c, m).failure.Some? ==> Ended(d, c, m) == b)
            && (CallPlan(d, c, m).failure.None? ==> Ended(d, c, m) == Rotated(b, c, m.wall))
  {
    RecoveredIsSettled(d, m.wall);
    FreshAfterRecovery(d, c, m.wall);
    FromRecovered(d, c, m);
    var b := Recovered(d, m.wall);
    assert Fresh(b, c);
    hide CallPlan, Ended, Play, Recovered;
    NothingPlayed(b);
    if c.ref in b.records {
      ActiveIsUsable(b.records[c.ref], m.wall);
      if RotatePlan(b, c, m.wall).failure.None? { RotateBody(b, c, m.wall); }
    }
  }

  ghost function Rotated(b: Disk, c: Call, wall: Time): Disk
    requires c.Rotate? && c.ref in b.records
  {
    var prior := b.records[c.ref];
    var r := Record(c.newRef, prior.scope, prior.version + 1, FingerprintOf(c.key), c.at, c.expiresAt, None, None);
    b.(records := b.records[c.newRef := r][c.ref := prior.(revokedAt := Some(c.at))],
       blobs := b.blobs[c.newRef := Blob(r, c.key, c.nonce)],
       lineage := b.lineage[c.newRef := c.ref],
       audit := Once(b.audit, Event(RotatedEvent, c.newRef, prior.scope.tenant, prior.scope.application,
                                    prior.scope.target, prior.version + 1, FingerprintOf(c.key),
                                    Unrevoked(c.expiresAt, wall), wall, Some(Rotation(c.rotationId)))))
  }

  /** The last writes of a rotation, with or without its event. */
  lemma PlayTail(d: Disk, source: Write, log: seq<Write>, close: Write)
    requires |log| <= 1
    ensures Play(d, [source] + log + [close]) ==
              if log == [] then Apply(Apply(d, source), close) else Apply(Apply(Apply(d, source), log[0]), close)
  {
    hide Apply, Play;
    if log == [] {
      assert [source] + log + [close] == [source, close];
      PlayPair(d, source, close);
    } else {
      assert [source] + log + [close] == [source, log[0], close];
      PlayTriple(d, source, log[0], close);
    }
  }

  lemma RotateWrites(b: Disk, c: Call, wall: Time)
    requires c.Rotate? && RotatePlan(b, c, wall).failure.None?
    ensures c.ref in b.records && b.records[c.ref].ref == c.ref
    ensures var prior := b.records[c.ref];
            var r, j := Replacement(prior, c), RotationJournal(prior, c);
            RotatePlan(b, c, wall).writes ==
              [PutJournal(c.rotationId, j), PutBlob(c.newRef, j.digest.of), PutRecord(r, Some(c.ref))]
              + ([PutRecord(prior.(revokedAt := Some(c.at)), None)]
                 + AppendOnce(b.audit, RotatedEvent, r, Rotation(c.rotationId), wall) + [DropJournal(c.rotationId)])
  {
    hide AppendOnce, Play;
  }

  lemma RotateBody(b: Disk, c: Call, wall: Time)
    requires b.journals == map[] && c.Rotate? && RotatePlan(b, c, wall).failure.None?
    requires c.ref in b.records
    ensures Play(b, RotatePlan(b, c, wall).writes) == Rotated(b, c, wall)
  {
    hide RotatePlan, Play, Apply, AppendOnce, Once, RotationJournal;
    RotateWrites(b, c, wall);
    var prior := b.records[c.ref];
    var r, journal := Replacement(prior, c), RotationJournal(prior, c);
    var log := AppendOnce(b.audit, RotatedEvent, r, Rotation(c.rotationId), wall);
    var begin := [PutJournal(c.rotationId, journal), PutBlob(c.newRef, journal.digest.of), PutRecord(r, Some(c.ref))];
    var source, close := PutRecord(prior.(revokedAt := Some(c.at)), None), DropJournal(c.rotationId);
    RecordsOnce(b.audit, RotatedEvent, r, Rotation(c.rotationId), wall);
    PlayAppend(b, begin, [source] + log + [close]);
    PlayTriple(b, begin[0], begin[1], begin[2]);
    PlayTail(Play(b, begin), source, log, close);
    RotationApplied(b, c, wall);
  }

  /** The records a rotation leaves, whatever else the disk holds. */
  lemma RotateRecords(b: Disk, c: Call, wall: Time)
    requires c.Rotate? && RotatePlan(b, c, wall).failure.None?
    ensures c.ref in b.records
    ensures var prior := b.records[c.ref];
            Play(b, RotatePlan(b, c, wall).writes).records ==
              b.records[c.newRef := Record(c.newRef, prior.scope, prior.version + 1, FingerprintOf(c.key), c.at, c.expiresAt,
                                           None, None)]
                       [c.ref := prior.(revokedAt := Some(c.at))]
  {
    hide RotatePlan, Play, AppendOnce, RotationJournal;
    RotateWrites(b, c, wall);
    var prior := b.records[c.ref];
    var r, journal := Replacement(prior, c), RotationJournal(prior, c);
    var log := AppendOnce(b.audit, RotatedEvent, r, Rotation(c.rotationId), wall);
    var begin := [PutJournal(c.rotationId, journal), PutBlob(c.newRef, journal.digest.of), PutRecord(r, Some(c.ref))];
    var source, close := PutRecord(prior.(revokedAt := Some(c.at)), None), DropJournal(c.rotationId);
    RecordsOnce(b.audit, RotatedEvent, r, Rotation(c.rotationId), wall);
    PlayAppend(b, begin, [source] + log + [close]);
    PlayTriple(b, begin[0], begin[1], begin[2]);
    PlayTail(Play(b, begin), source, log, close);
    hide Once;
  }

  /** The writes of a rotation, applied one after the other. */
  lemma RotationApplied(b: Disk, c: Call, wall: Time)
    requires b.journals == map[] && c.Rotate? && c.ref in b.records && b.records[c.ref].ref == c.ref
    ensures var prior := b.records[c.ref];
            var r, j := Replacement(prior, c), RotationJournal(prior, c);
            var e := Apply(Apply(Apply(b, PutJournal(c.rotationId, j)), PutBlob(c.newRef, j.digest.of)), PutRecord(r, Some(c.ref)));
            var f := Apply(e, PutRecord(prior.(revokedAt := Some(c.at)), None));
            && Apply(f, DropJournal(c.rotationId)) == Rotated(b, c, wall).(audit := b.audit)
            && forall e :: Apply(Apply(f, Append(e)), DropJournal(c.rotationId)) == Rotated(b, c, wall).(audit := b.audit + [e])
  {
    hide Once;
    var j := RotationJournal(b.records[c.ref], c);
    assert map[c.rotationId := j] - {c.rotationId} == map[];
  }

  // ----- Reclaiming and materializing -----

  /** Both files of the token are there, and its lease names a process that still runs. */
  predicate Held(files: RuntimeScope, token: string, procs: Processes) {
    && token + ".key" in files
    && token + ".lease" in files && files[token + ".lease"].LeaseFile?
    && var lease := files[token + ".lease"].lease;
       lease.pid in procs && procs[lease.pid] == lease.startTime
  }

  /** A file belongs to the token of 32 characters it is named after. */
  predicate FileOf(name: string, token: string) {
    |token| == 32 && (name == token + ".key" || name == token + ".lease")
  }

  /** The runtime directories after the sweep: in each scope the files of held tokens, as they were,
      and no scope without a file. */
  ghost predicate Swept(before: map<Ref, RuntimeScope>, after: map<Ref, RuntimeScope>, procs: Processes) {
    && (forall ref | ref in after :: ref in before && after[ref] != map[])
    && (forall ref, name | ref in before && name in before[ref] ::
          (ref in after && name in after[ref]) <==> exists token :: FileOf(name, token) && Held(before[ref], token, procs))
    && (forall ref, name | ref in after && name in after[ref] ::
          ref in before && name in before[ref] && after[ref][name] == before[ref][name])
  }

  lemma HeldSurvives(files: RuntimeScope, name: string, procs: Processes)
    ensures IsRuntimeName(name) && Survives(files, name[..TOKEN_LENGTH], procs) <==>
              exists token :: FileOf(name, token) && Held(files, token, procs)
  {
    if IsRuntimeName(name) {
      var token := name[..TOKEN_LENGTH];
      assert FileOf(name, token);
    }
    forall token | FileOf(name, token) ensures IsRuntimeName(name) && name[..TOKEN_LENGTH] == token {
      NameFacts(token);
    }
  }

  lemma ReclaimedIsSwept(runtime: map<Ref, RuntimeScope>, procs: Processes)
    ensures Swept(runtime, Reclaimed(runtime, runtime.Keys, procs), procs)
  {
    forall ref, name | ref in runtime && name in runtime[ref]
      ensures name in Survivors(runtime[ref], procs) <==>
                exists token :: FileOf(name, token) && Held(runtime[ref], token, procs)
    {
      HeldSurvives(runtime[ref], name, procs);
    }
    hide IsRuntimeName, Survives, FileOf, Held;
  }

  /** Opening sweeps the runtime directories of stale files, and does nothing else; it never fails. */
  lemma OpenOutcome(d: Disk, c: Call, m: Moment)
    requires Inv(d) && c.Open?
    ensures CallPlan(d, c, m).failure == None
    ensures var e := Ended(d, c, m); e == d.(runtime := e.runtime) && Swept(d.runtime, e.runtime, m.procs)
  {
    StaleRecoveryReclaims(d, m.procs);
    ReclaimedIsSwept(d.runtime, m.procs);
    var stale := StaleRecovery(d, m.procs);
    hide Inv, Quiet, Swept, Reclaimed, Play;
    assert stale.writes + [] == stale.writes;
  }

  /** The disk recovery leaves, swept. */
  ghost function Opened(d: Disk, m: Moment): Disk {
    var b := Recovered(d, m.wall);
    Play(b, StaleRecovery(b, m.procs).writes)
  }

  lemma OpenedIsSwept(d: Disk, m: Moment)
    requires Inv(d)
    ensures var b, f := Recovered(d, m.wall), Opened(d, m);
            && Inv(f) && f == b.(runtime := f.runtime) && Swept(b.runtime, f.runtime, m.procs)
            && StaleRecovery(b, m.procs).failure == None
  {
    RecoveredIsSettled(d, m.wall);
    var b := Recovered(d, m.wall);
    hide Inv, Quiet, Swept, Reclaimed, Play, Recovered;
    StaleRecoveryReclaims(b, m.procs);
    ReclaimedIsSwept(b.runtime, m.procs);
  }

  lemma FromOpened(d: Disk, c: Call, m: Moment)
    requires Inv(d) && c.Materialize?
    ensures var body := MaterializePlan(Opened(d, m), c, m);
            CallPlan(d, c, m).failure == body.failure && Ended(d, c, m) == Play(Opened(d, m), body.writes)
  {
    RecoveredIsSettled(d, m.wall);
    OpenedIsSwept(d, m);
    var b := Recovered(d, m.wall);
    var stale, body := StaleRecovery(b, m.procs), MaterializePlan(Opened(d, m), c, m);
    hide Inv, Swept, MaterializePlan, Play, StaleRecovery, Recovery;
    PlayAppend(b, stale.writes, body.writes);
    PlayAppend(d, Recovery(d, m.wall).writes, stale.writes + body.writes);
  }

  function ScopeFiles(runtime: map<Ref, RuntimeScope>, ref: Ref): RuntimeScope {
    if ref in runtime then runtime[ref] else map[]
  }

  /** Materializing recovers, sweeps, and writes exactly the lease and the key, which is the one the
      record names.  It fails exactly on a credential that is unknown or not usable now, on a process
      that does not run, or on a failing write; then at most the scope's directory is new. */
  lemma MaterializeOutcome(d: Disk, c: Call, m: Moment)
    requires Inv(d) && c.Materialize? && Fresh(d, c)
    ensures var f := Opened(d, m);
            var files := ScopeFiles(f.runtime, c.ref);
            && CallPlan(d, c, m).failure ==
                 (if c.ref !in f.records then Some(UnreadableRecord)
                  else if !Usable(f.records[c.ref], m.wall) then Some(NotActive)
                  else if c.pid !in m.procs then Some(LeaseUnavailable)
                  else if c.fault.Some? then Some(WriteFailed)
                  else None)
            && (CallPlan(d, c, m).failure in {Some(UnreadableRecord), Some(NotActive)} ==> Ended(d, c, m) == f)
            && (CallPlan(d, c, m).failure in {Some(LeaseUnavailable), Some(WriteFailed)} ==>
                  Ended(d, c, m) == f.(runtime := f.runtime[c.ref := files]))
            && (CallPlan(d, c, m).failure.None? ==>
                  Ended(d, c, m) == f.(runtime := f.runtime[c.ref := files[
                    c.token + ".lease" := LeaseFile(Lease(c.pid, m.procs[c.pid], c.ref, c.token + ".key"))][
                    c.token + ".key" := KeyFile(f.records[c.ref].fingerprint.key)]]))
  {
    OpenedIsSwept(d, m);
    FromOpened(d, c, m);
    FreshAfterRecovery(d, c, m.wall);
    RecoveredIsSettled(d, m.wall);
    var b, f := Recovered(d, m.wall), Opened(d, m);
    FreshAfterReclaiming(b, c, m.procs);
    assert Fresh(f, c);
    hide Recovered, Opened, CallPlan, Ended, Swept, Fresh, Play;
    MaterializeBody(f, c, m);
  }

  lemma MaterializeBody(f: Disk, c: Call, m: Moment)
    requires Inv(f) && c.Materialize? && Fresh(f, c)
    ensures var p := MaterializePlan(f, c, m);
            var files := ScopeFiles(f.runtime, c.ref);
            && p.failure ==
                 (if c.ref !in f.records then Some(UnreadableRecord)
                  else if !Usable(f.records[c.ref], m.wall) then Some(NotActive)
                  else if c.pid !in m.procs then Some(LeaseUnavailable)
                  else if c.fault.Some? then Some(WriteFailed)
                  else None)
            && (p.failure in {Some(UnreadableRecord), Some(NotActive)} ==> Play(f, p.writes) == f)
            && (p.failure in {Some(LeaseUnavailable), Some(WriteFailed)} ==>
                  Play(f, p.writes) == f.(runtime := f.runtime[c.ref := files]))
            && (p.failure.None? ==>
                  Play(f, p.writes) == f.(runtime := f.runtime[c.ref := files[
                    c.token + ".lease" := LeaseFile(Lease(c.pid, m.procs[c.pid], c.ref, c.token + ".key"))][
                    c.token + ".key" := KeyFile(f.records[c.ref].fingerprint.key)]]))
  {
    var p := MaterializePlan(f, c, m);
    hide Fresh, LineageOk, AuditOk, JournalsOk, RuntimeOk, TokenRemoval, MaterializeWrites;
    NothingPlayed(f);
    if c.ref in f.records {
      ActiveIsUsable(f.records[c.ref], m.wall);
      if Usable(f.records[c.ref], m.wall) {
        assert Seals(f.blobs[c.ref], f.records[c.ref]);
        assert f.records[c.ref].Original() == f.records[c.ref];
      }
    }
    MadeScope(f, c.ref);
    if p.failure == Some(LeaseUnavailable) {
      hide Play, Apply, Inv;
      PlayOne(f, MakeScope(c.ref));
    } else if p.failure == Some(WriteFailed) {
      hide Play, Apply;
      MaterializeCleansUp(f, c, m);
    } else if p.failure.None? {
      hide Play, Inv;
      MaterializedDisk(f, c.ref, c.token, Lease(c.pid, m.procs[c.pid], c.ref, c.token + ".key"), f.blobs[c.ref].key);
    }
  }

  lemma MadeScope(f: Disk, ref: Ref)
    ensures Apply(f, MakeScope(ref)) == f.(runtime := f.runtime[ref := ScopeFiles(f.runtime, ref)])
  {
    if ref in f.runtime { assert f.runtime[ref := f.runtime[ref]] == f.runtime; }
  }

  lemma MaterializedDisk(f: Disk, ref: Ref, token: string, lease: Lease, key: PrivateKey)
    ensures Play(f, MaterializeWrites(ref, token, lease, key)) ==
              f.(runtime := f.runtime[ref := ScopeFiles(f.runtime, ref)[token + ".lease" := LeaseFile(lease)]
                                                                      [token + ".key" := KeyFile(key)]])
  {
    MadeScope(f, ref);
    var files := ScopeFiles(f.runtime, ref);
    var ws := MaterializeWrites(ref, token, lease, key);
    hide Play, ScopeFiles;
    PlayTriple(f, ws[0], ws[1], ws[2]);
    var one := files[token + ".lease" := LeaseFile(lease)];
    assert f.runtime[ref := files][ref := one] == f.runtime[ref := one];
    assert f.runtime[ref := one][ref := one[token + ".key" := KeyFile(key)]] == f.runtime[ref := one[token + ".key" := KeyFile(key)]];
  }

  // ----- Offboarding -----

  /** The record of a credential destroyed at `at`: revoked then too, unless it was before. */
  function DestroyedAt(r: Record, at: Time): Record {
    Record(r.ref, r.scope, r.version, r.fingerprint, r.issuedAt, r.expiresAt,
           if r.revokedAt == None then Some(at) else r.revokedAt, Some(at))
  }

  /** Offboarding destroys the record, its blob and all runtime files and logs it once; it fails exactly
      on an unknown credential, or on a first attempt at a time before its issue. */
  lemma OffboardOutcome(d: Disk, c: Call, m: Moment)
    requires Inv(d) && c.Offboard?
    ensures var b := Recovered(d, m.wall);
            && CallPlan(d, c, m).failure ==
                 (if c.ref !in b.records then Some(UnreadableRecord)
                  else if b.records[c.ref].destroyedAt == None && c.at < b.records[c.ref].issuedAt then Some(InvalidTime)
                  else None)
            && (CallPlan(d, c, m).failure.Some? ==> Ended(d, c, m) == b)
            && (CallPlan(d, c, m).failure.None? ==>
                  var r := if b.records[c.ref].destroyedAt.Some? then b.records[c.ref]
                           else DestroyedAt(b.records[c.ref], c.at);
                  Ended(d, c, m) == b.(
                    records := b.records[c.ref := r],
                    blobs := b.blobs - {c.ref},
                    runtime := b.runtime - {c.ref},
                    audit := Once(b.audit, Event(OffboardedEvent, c.ref, r.scope.tenant, r.scope.application, r.scope.target,
                                                 r.version, r.fingerprint, Destroyed, m.wall,
                                                 Some(Offboarding(c.ref, r.destroyedAt.value))))))
  {
    RecoveredIsSettled(d, m.wall);
    FromRecovered(d, c, m);
    var b := Recovered(d, m.wall);
    hide Recovered, CallPlan, Ended, Once, Play, DestroyPlan;
    NothingPlayed(b);
    if c.ref in b.records {
      var r := b.records[c.ref];
      if r.destroyedAt.Some? {
        DestroyedDisk(b, r, m.wall);
        assert b.records[c.ref := r] == b.records;
      } else if c.at >= r.issuedAt {
        var gone := DestroyedRecord(r, c.at);
        RecordStep(b, gone);
        var e := Apply(b, PutRecord(gone, None));
        DestroyedDisk(e, gone, m.wall);
        SameDestroyPlan(b, e, gone, m.wall);
        PlayAppend(b, [PutRecord(gone, None)], DestroyPlan(b, gone, m.wall).writes);
        PlayOne(b, PutRecord(gone, None));
      }
    }
  }

  lemma SameDestroyPlan(b: Disk, e: Disk, r: Record, wall: Time)
    requires e == b.(records := e.records) && r.destroyedAt.Some?
    ensures DestroyPlan(e, r, wall) == DestroyPlan(b, r, wall)
  {
  }

  lemma DestroyedDisk(d: Disk, r: Record, wall: Time)
    requires Inv(d) && d.journals == map[]
    requires r.ref in d.records && d.records[r.ref] == r && r.destroyedAt.Some?
    ensures DestroyPlan(d, r, wall).failure == None
    ensures Play(d, DestroyPlan(d, r, wall).writes) ==
              d.(blobs := d.blobs - {r.ref}, runtime := d.runtime - {r.ref},
                 audit := Once(d.audit, Event(OffboardedEvent, r.ref, r.scope.tenant, r.scope.application, r.scope.target,
                                              r.version, r.fingerprint, Destroyed, wall,
                                              Some(Offboarding(r.ref, r.destroyedAt.value)))))
  {
    DestroyIsQuiet(d, r, wall);
    hide Inv, Quiet, DestroyPlan, Once;
    RecordsOnce(d.audit, OffboardedEvent, r, Offboarding(r.ref, r.destroyedAt.value), wall);
  }
}
