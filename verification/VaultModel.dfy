/**
 The credential vault as a write-ahead-log protocol.

 The vault's directories are maps, and everything a call does to them is a list of
 atomic `Write`s: one `os.replace`, `unlink`, `mkdir`, `rmdir` or audit append each.
 A call's `Plan` lists the writes it makes from a given disk and the failure it then
 raises, if any.  A crash is a prefix of a plan.

 Encryption, hashing and fresh identifiers are ideal: a blob opens only under the
 metadata it was sealed with, digests and fingerprints are injective.
 */
module VaultModel {
  import opened Common
  import opened Listing

  type Time = int
  type Ref = string
  type Id = string

  datatype PrivateKey = PrivateKey(seed: string)
  datatype Fingerprint = FingerprintOf(key: PrivateKey)

  datatype Scope = Scope(tenant: string, application: string, target: string, user: string)

  datatype Status = Active | Expired | Revoked | Destroyed

  datatype Record = Record(
    ref: Ref, scope: Scope, version: nat, fingerprint: Fingerprint,
    issuedAt: Time, expiresAt: Option<Time>, revokedAt: Option<Time>, destroyedAt: Option<Time>)
  {
    /** The checks a record makes of itself when it is built or read back. */
    predicate Valid() {
      && 1 <= version
      && (expiresAt.Some? ==> issuedAt < expiresAt.value)
      && (revokedAt.Some? ==> issuedAt <= revokedAt.value)
      && (destroyedAt.Some? ==> issuedAt <= destroyedAt.value && revokedAt.Some?)
    }

    function Status(now: Time): Status {
      if destroyedAt.Some? then Destroyed
      else if revokedAt.Some? then Revoked
      else if expiresAt.Some? && expiresAt.value <= now then Expired
      else Active
    }

    /** The metadata the record was created with. */
    function Original(): Record {
      this.(revokedAt := None, destroyedAt := None)
    }
  }

  datatype Blob = Blob(metadata: Record, key: PrivateKey, nonce: string)
  datatype Digest = Sha256(of: Blob)

  datatype Journal = Journal(
    rotationId: Id, oldRef: Ref, oldVersion: nat, oldFingerprint: Fingerprint,
    replacement: Record, digest: Digest)

  datatype EventKind = CreatedEvent | RevokedEvent | RotatedEvent | OffboardedEvent
  datatype Operation = Rotation(id: Id) | Offboarding(ref: Ref, at: Time)
  datatype Event = Event(
    kind: EventKind, ref: Ref, tenant: string, application: string, target: string,
    version: nat, fingerprint: Fingerprint, status: Status, recordedAt: Time,
    operation: Option<Operation>)

  datatype Lease = Lease(pid: nat, startTime: string, scope: Ref, runtimeFile: string)
  datatype RuntimeFile = KeyFile(key: PrivateKey) | LeaseFile(lease: Lease)
  type RuntimeScope = map<string, RuntimeFile>

  /** A process's own id. */
  type Pid = n: nat | 1 <= n witness 1

  /** Live processes: process id to start time. */
  type Processes = map<nat, string>

  /** The directories, plus the history variable `lineage`, which maps each credential
      that a rotation published to the credential it replaces. */
  datatype Disk = Disk(
    records: map<Ref, Record>, blobs: map<Ref, Blob>, journals: map<Id, Journal>,
    audit: seq<Event>, runtime: map<Ref, RuntimeScope>, lineage: map<Ref, Ref>)

  // ----- Atomic writes -----

  datatype Write =
    | PutRecord(record: Record, predecessor: Option<Ref>)
    | PutBlob(ref: Ref, blob: Blob)
    | DropBlob(ref: Ref)
    | PutJournal(id: Id, journal: Journal)
    | DropJournal(id: Id)
    | Append(event: Event)
    | MakeScope(ref: Ref)
    | PutRuntime(ref: Ref, name: string, file: RuntimeFile)
    | DropRuntime(ref: Ref, name: string)
    | DropScope(ref: Ref)  // rmdir: has no effect on a scope that is not empty

  function Apply(d: Disk, w: Write): Disk {
    match w
    case PutRecord(r, parent) =>
      d.(records := d.records[r.ref := r],
         lineage := if parent.Some? then d.lineage[r.ref := parent.value] else d.lineage)
    case PutBlob(ref, b) => d.(blobs := d.blobs[ref := b])
    case DropBlob(ref) => d.(blobs := d.blobs - {ref})
    case PutJournal(id, j) => d.(journals := d.journals[id := j])
    case DropJournal(id) => d.(journals := d.journals - {id})
    case Append(e) => d.(audit := d.audit + [e])
    case MakeScope(ref) => if ref in d.runtime then d else d.(runtime := d.runtime[ref := map[]])
    case PutRuntime(ref, name, file) =>
      if ref in d.runtime then d.(runtime := d.runtime[ref := d.runtime[ref][name := file]]) else d
    case DropRuntime(ref, name) =>
      if ref in d.runtime then d.(runtime := d.runtime[ref := d.runtime[ref] - {name}]) else d
    case DropScope(ref) =>
      if ref in d.runtime && d.runtime[ref] == map[] then d.(runtime := d.runtime - {ref}) else d
  }

  function Play(d: Disk, ws: seq<Write>): Disk
    decreases |ws|
  {
    if ws == [] then d else Play(Apply(d, ws[0]), ws[1..])
  }

  datatype Failure =
    | InvalidInput | UnreadableRecord | AlreadyExists | NotActive | AlreadyDestroyed
    | InvalidTime | JournalRejected | BlobRejected | RuntimeRejected | LeaseUnavailable
    | AuditRejected | WriteFailed

  datatype Plan = Plan(writes: seq<Write>, failure: Option<Failure>)

  function Go(ws: seq<Write>): Plan { Plan(ws, None) }
  function Stop(f: Failure): Plan { Plan([], Some(f)) }

  // ----- Reading -----

  predicate Readable(d: Disk, ref: Ref) {
    ref in d.records && d.records[ref].ref == ref && d.records[ref].Valid()
  }

  /** Authenticated decryption under exactly this record's metadata, then the key binding check. */
  function Decrypt(r: Record, b: Blob): Option<PrivateKey> {
    if b.metadata == r && FingerprintOf(b.key) == r.fingerprint then Some(b.key) else None
  }

  // ----- Audit -----

  function EventOf(kind: EventKind, r: Record, op: Option<Operation>, wall: Time): Event {
    Event(kind, r.ref, r.scope.tenant, r.scope.application, r.scope.target,
          r.version, r.fingerprint, r.Status(wall), wall, op)
  }

  /** The match of an audit search: every field but the recording time. */
  predicate Records(e: Event, kind: EventKind, r: Record, op: Operation, wall: Time) {
    e.(recordedAt := wall) == EventOf(kind, r, Some(op), wall)
  }

  predicate Logged(audit: seq<Event>, kind: EventKind, r: Record, op: Operation, wall: Time) {
    exists i :: 0 <= i < |audit| && Records(audit[i], kind, r, op, wall)
  }

  function AppendOnce(audit: seq<Event>, kind: EventKind, r: Record, op: Operation, wall: Time): seq<Write> {
    if Logged(audit, kind, r, op, wall) then [] else [Append(EventOf(kind, r, Some(op), wall))]
  }

  function LoggedOnce(audit: seq<Event>, kind: EventKind, r: Record, op: Operation, wall: Time): seq<Event> {
    if Logged(audit, kind, r, op, wall) then audit else audit + [EventOf(kind, r, Some(op), wall)]
  }

  // ----- Recovery of pending rotations -----

  predicate Replaces(replacement: Record, prior: Record) {
    && replacement.ref != prior.ref
    && replacement.scope == prior.scope
    && replacement.version == prior.version + 1
    && prior.issuedAt < replacement.issuedAt
    && replacement.revokedAt.None?
    && replacement.destroyedAt.None?
  }

  function PublishWrites(d: Disk, j: Journal): seq<Write> {
    if j.replacement.ref in d.records then [] else [PutRecord(j.replacement, Some(j.oldRef))]
  }

  function RevokeWrites(d: Disk, j: Journal): seq<Write>
    requires j.oldRef in d.records
  {
    if d.records[j.oldRef].revokedAt.Some? then []
    else [PutRecord(d.records[j.oldRef].(revokedAt := Some(j.replacement.issuedAt)), None)]
  }

  /** Rolling a committed rotation forward, redoing only what is missing. */
  function ForwardWrites(d: Disk, id: Id, wall: Time): seq<Write>
    requires id in d.journals && d.journals[id].oldRef in d.records
  {
    var j := d.journals[id];
    PublishWrites(d, j) + RevokeWrites(d, j)
    + AppendOnce(d.audit, RotatedEvent, j.replacement, Rotation(id), wall) + [DropJournal(id)]
  }

  function JournalPlan(d: Disk, id: Id, wall: Time): Plan {
    if id !in d.journals || d.journals[id].rotationId != id then Stop(JournalRejected) else
    var j := d.journals[id];
    if !Readable(d, j.oldRef) then Stop(UnreadableRecord) else
    var prior, next := d.records[j.oldRef], j.replacement;
    if prior.version != j.oldVersion || prior.fingerprint != j.oldFingerprint then Stop(JournalRejected)
    else if !next.Valid() || !Replaces(next, prior) then Stop(JournalRejected)
    else if next.ref !in d.blobs then
      if next.ref in d.records || prior.revokedAt.Some? || prior.destroyedAt.Some? then Stop(JournalRejected)
      else Go([DropJournal(id)])
    else if Sha256(d.blobs[next.ref]) != j.digest then Stop(JournalRejected)
    else if next.ref in d.records && d.records[next.ref] != next then Stop(JournalRejected)
    else if Decrypt(next, d.blobs[next.ref]).None? then Stop(BlobRejected)
    else if prior.destroyedAt.Some? then Stop(JournalRejected)
    else Go(ForwardWrites(d, id, wall))
  }

  function RecoveryPlan(d: Disk, ids: seq<Id>, wall: Time): Plan
    decreases |ids|
  {
    if ids == [] then Go([]) else
    var p := JournalPlan(d, ids[0], wall);
    if p.failure.Some? then p else
    var q := RecoveryPlan(Play(d, p.writes), ids[1..], wall);
    Plan(p.writes + q.writes, q.failure)
  }

  ghost function Recovery(d: Disk, wall: Time): Plan {
    RecoveryPlan(d, Sorted(d.journals.Keys), wall)
  }

  // ----- Runtime custody -----

  const TOKEN_LENGTH := 32

  function KeyName(token: string): string { token + ".key" }
  function LeaseName(token: string): string { token + ".lease" }

  predicate IsKeyName(name: string) {
    |name| > TOKEN_LENGTH && name == KeyName(name[..TOKEN_LENGTH])
  }

  predicate IsLeaseName(name: string) {
    |name| > TOKEN_LENGTH && name == LeaseName(name[..TOKEN_LENGTH])
  }

  predicate IsRuntimeName(name: string) { IsKeyName(name) || IsLeaseName(name) }

  predicate LeaseValid(l: Lease, ref: Ref, key: string) {
    1 <= l.pid && l.scope == ref && l.runtimeFile == key
  }

  /** A lease is live while its process id still belongs to the process that wrote it. */
  predicate LeaseLive(l: Lease, procs: Processes) {
    l.pid in procs && procs[l.pid] == l.startTime
  }

  function StaleTokenPlan(ref: Ref, files: RuntimeScope, token: string, procs: Processes): Plan {
    var key, lease := KeyName(token), LeaseName(token);
    if key !in files && lease !in files then Go([])
    else if key !in files then Go([DropRuntime(ref, lease)])
    else if lease !in files then Go([DropRuntime(ref, key)])
    else if !files[lease].LeaseFile? || !LeaseValid(files[lease].lease, ref, key) then Stop(RuntimeRejected)
    else if LeaseLive(files[lease].lease, procs) then Go([])
    else Go([DropRuntime(ref, key), DropRuntime(ref, lease)])
  }

  function StaleTokensPlan(ref: Ref, files: RuntimeScope, tokens: seq<string>, procs: Processes): Plan {
    if tokens == [] then Go([]) else
    var p := StaleTokenPlan(ref, files, tokens[0], procs);
    if p.failure.Some? then p else
    var q := StaleTokensPlan(ref, files, tokens[1..], procs);
    Plan(p.writes + q.writes, q.failure)
  }

  ghost function Tokens(files: RuntimeScope): set<string> {
    set name | name in files && IsRuntimeName(name) :: name[..TOKEN_LENGTH]
  }

  ghost function StaleScopePlan(ref: Ref, files: RuntimeScope, procs: Processes): Plan {
    if exists name :: name in files && !IsRuntimeName(name) then Stop(RuntimeRejected) else
    var p := StaleTokensPlan(ref, files, Sorted(Tokens(files)), procs);
    if p.failure.Some? then p else Go(p.writes + [DropScope(ref)])
  }

  ghost function StaleScopesPlan(runtime: map<Ref, RuntimeScope>, refs: seq<Ref>, procs: Processes): Plan
    requires forall ref | ref in refs :: ref in runtime
  {
    if refs == [] then Go([]) else
    var p := StaleScopePlan(refs[0], runtime[refs[0]], procs);
    if p.failure.Some? then p else
    var q := StaleScopesPlan(runtime, refs[1..], procs);
    Plan(p.writes + q.writes, q.failure)
  }

  ghost function StaleRecovery(d: Disk, procs: Processes): Plan {
    StaleScopesPlan(d.runtime, Sorted(d.runtime.Keys), procs)
  }

  /** Offboarding empties a runtime scope in name order, stopping at a name it does not know. */
  function RemovalPlan(ref: Ref, names: seq<string>): Plan {
    if names == [] then Go([DropScope(ref)])
    else if !IsRuntimeName(names[0]) then Stop(RuntimeRejected)
    else
      var q := RemovalPlan(ref, names[1..]);
      Plan([DropRuntime(ref, names[0])] + q.writes, q.failure)
  }

  ghost function RuntimeRemoval(d: Disk, ref: Ref): Plan {
    if ref !in d.runtime then Go([]) else RemovalPlan(ref, Sorted(d.runtime[ref].Keys))
  }

  // ----- Calls -----

  /** One call on the vault.  References, rotation ids, nonces and runtime tokens that the
      vault draws at random are arguments, and so are the failing writes that a call cleans up
      after: `unwritable` says that the record's write fails, `fault` how many of the two runtime
      files are written before a step on them fails. */
  datatype Call =
    | Open
    | Get(ref: Ref)
    | Store(ref: Ref, scope: Scope, version: nat, key: PrivateKey,
            issuedAt: Time, expiresAt: Option<Time>, nonce: string, unwritable: bool)
    | Materialize(ref: Ref, token: string, pid: Pid, fault: Option<nat>)
    | Release(ref: Ref, token: string)
    | Revoke(ref: Ref, at: Time)
    | Rotate(ref: Ref, key: PrivateKey, at: Time, expiresAt: Option<Time>,
             newRef: Ref, rotationId: Id, nonce: string)
    | Offboard(ref: Ref, at: Time)

  /** The clock and the process table a call observes. */
  datatype Moment = Moment(wall: Time, procs: Processes)

  function Created(c: Call): Record
    requires c.Store?
  {
    Record(c.ref, c.scope, c.version, FingerprintOf(c.key), c.issuedAt, c.expiresAt, None, None)
  }

  function Replacement(prior: Record, c: Call): Record
    requires c.Rotate?
  {
    Record(c.newRef, prior.scope, prior.version + 1, FingerprintOf(c.key), c.at, c.expiresAt, None, None)
  }

  function StorePlan(d: Disk, c: Call, wall: Time): Plan
    requires c.Store?
  {
    var r := Created(c);
    if r.ref in d.records || r.ref in d.blobs then Stop(AlreadyExists)
    else if c.unwritable then Plan([PutBlob(r.ref, Blob(r, c.key, c.nonce)), DropBlob(r.ref)], Some(WriteFailed))
    else Go([PutBlob(r.ref, Blob(r, c.key, c.nonce)), PutRecord(r, None),
             Append(EventOf(CreatedEvent, r, None, wall))])
  }

  function MaterializePlan(d: Disk, c: Call, m: Moment): Plan
    requires c.Materialize?
  {
    if !Readable(d, c.ref) then Stop(UnreadableRecord) else
    var r := d.records[c.ref];
    if r.Status(m.wall) != Active then Stop(NotActive)
    else if c.ref !in d.blobs || Decrypt(r, d.blobs[c.ref]).None? then Stop(BlobRejected)
    else if c.pid !in m.procs then Plan([MakeScope(c.ref)], Some(LeaseUnavailable))
    else
      var lease := Lease(c.pid, m.procs[c.pid], c.ref, KeyName(c.token));
      var writes := MaterializeWrites(c.ref, c.token, lease, d.blobs[c.ref].key);
      if c.fault.Some? then Plan(writes[..1 + Min(c.fault.value, 2)] + TokenRemoval(c.ref, c.token), Some(WriteFailed))
      else Go(writes)
  }

  /** The lease comes before the key it covers. */
  function MaterializeWrites(ref: Ref, token: string, lease: Lease, key: PrivateKey): seq<Write> {
    [MakeScope(ref), PutRuntime(ref, LeaseName(token), LeaseFile(lease)), PutRuntime(ref, KeyName(token), KeyFile(key))]
  }

  function TokenRemoval(ref: Ref, token: string): seq<Write> {
    [DropRuntime(ref, KeyName(token)), DropRuntime(ref, LeaseName(token))]
  }

  function RevokePlan(d: Disk, c: Call, wall: Time): Plan
    requires c.Revoke?
  {
    if !Readable(d, c.ref) then Stop(UnreadableRecord) else
    var r := d.records[c.ref];
    if r.destroyedAt.Some? then Stop(AlreadyDestroyed)
    else if c.at < r.issuedAt then Stop(InvalidTime)
    else
      var revoked := r.(revokedAt := Some(c.at));
      Go([PutRecord(revoked, None), Append(EventOf(RevokedEvent, revoked, None, wall))])
  }

  function RotatePlan(d: Disk, c: Call, wall: Time): Plan
    requires c.Rotate?
  {
    if !Readable(d, c.ref) then Stop(UnreadableRecord) else
    var prior := d.records[c.ref];
    if prior.Status(wall) != Active then Stop(NotActive)
    else if c.at <= prior.issuedAt then Stop(InvalidTime)
    else
      var r := Replacement(prior, c);
      if !r.Valid() then Stop(InvalidInput) else
      var blob := Blob(r, c.key, c.nonce);
      var journal := Journal(c.rotationId, prior.ref, prior.version, prior.fingerprint, r, Sha256(blob));
      Go([PutJournal(c.rotationId, journal), PutBlob(r.ref, blob), PutRecord(r, Some(prior.ref)),
          PutRecord(prior.(revokedAt := Some(c.at)), None)]
         + AppendOnce(d.audit, RotatedEvent, r, Rotation(c.rotationId), wall)
         + [DropJournal(c.rotationId)])
  }

  /** What offboarding does once the record carries its destruction time. */
  ghost function DestroyPlan(d: Disk, r: Record, wall: Time): Plan
    requires r.destroyedAt.Some?
  {
    var removal := RuntimeRemoval(d, r.ref);
    if removal.failure.Some? then Plan([DropBlob(r.ref)] + removal.writes, removal.failure)
    else Go([DropBlob(r.ref)] + removal.writes
            + AppendOnce(d.audit, OffboardedEvent, r, Offboarding(r.ref, r.destroyedAt.value), wall))
  }

  function DestroyedRecord(r: Record, at: Time): Record {
    r.(revokedAt := if r.revokedAt.Some? then r.revokedAt else Some(at), destroyedAt := Some(at))
  }

  ghost function OffboardPlan(d: Disk, c: Call, wall: Time): Plan
    requires c.Offboard?
  {
    if !Readable(d, c.ref) then Stop(UnreadableRecord) else
    var r := d.records[c.ref];
    if r.destroyedAt.Some? then DestroyPlan(d, r, wall)
    else if c.at < r.issuedAt then Stop(InvalidTime)
    else
      var rest := DestroyPlan(d, DestroyedRecord(r, c.at), wall);
      Plan([PutRecord(DestroyedRecord(r, c.at), None)] + rest.writes, rest.failure)
  }

  /** What a call does after the recovery passes it starts with. */
  ghost function BodyPlan(d: Disk, c: Call, m: Moment): Plan {
    match c
    case Open => Go([])
    case Get(ref) => if Readable(d, ref) then Go([]) else Stop(UnreadableRecord)
    case Store(_, _, _, _, _, _, _, _) => StorePlan(d, c, m.wall)
    case Materialize(_, _, _, _) => MaterializePlan(d, c, m)
    case Release(ref, token) =>
      Go(TokenRemoval(ref, token) + [DropScope(ref)])
    case Revoke(_, _) => RevokePlan(d, c, m.wall)
    case Rotate(_, _, _, _, _, _, _) => RotatePlan(d, c, m.wall)
    case Offboard(_, _) => OffboardPlan(d, c, m.wall)
  }

  /** `p`, then, unless it failed, the plan `q` made from the disk `p` leaves. */
  ghost function Then(p: Plan, q: Plan): Plan {
    if p.failure.Some? then p else Plan(p.writes + q.writes, q.failure)
  }

  ghost function AfterJournals(d: Disk, c: Call, m: Moment): Plan {
    if c.Open? || c.Materialize? then
      var stale := StaleRecovery(d, m.procs);
      Then(stale, BodyPlan(Play(d, stale.writes), c, m))
    else BodyPlan(d, c, m)
  }

  ghost function CallPlan(d: Disk, c: Call, m: Moment): Plan {
    if c.Store? && !Created(c).Valid() then Stop(InvalidInput)
    else if c.Open? then AfterJournals(d, c, m)
    else
      var recovery := Recovery(d, m.wall);
      Then(recovery, AfterJournals(Play(d, recovery.writes), c, m))
  }

  /** The disk after a call whose process survives exactly `life` writes. */
  ghost function After(d: Disk, c: Call, m: Moment, life: nat): Disk {
    var ws := CallPlan(d, c, m).writes;
    Play(d, ws[..Min(life, |ws|)])
  }

  // ----- Playing writes -----

  lemma {:induction false} PlayAppend(d: Disk, a: seq<Write>, b: seq<Write>)
    ensures Play(d, a + b) == Play(Play(d, a), b)
    decreases |a|
  {
    if a == [] {
      assert a + b == b;
    } else {
      assert (a + b)[1..] == a[1..] + b;
      PlayAppend(Apply(d, a[0]), a[1..], b);
    }
  }
}
