/**
 What holds of the vault's disk at every instant, and what its custody of keys is
 once pending rotations are settled.
 */
module VaultInvariant {
  import opened Common
  import opened Listing
  import opened VaultModel

  // ----- The invariant -----

  ghost predicate RecordsOk(d: Disk) {
    forall ref | ref in d.records :: d.records[ref].ref == ref && d.records[ref].Valid()
  }

  /** The blob was sealed under the metadata `r` was created with and holds its key. */
  predicate Seals(b: Blob, r: Record) {
    b.metadata == r.Original() && FingerprintOf(b.key) == r.fingerprint
  }

  ghost predicate BlobsOk(d: Disk) {
    forall ref | ref in d.records && d.records[ref].destroyedAt.None? ::
      ref in d.blobs && Seals(d.blobs[ref], d.records[ref])
  }

  /** A pending rotation is in one of the phases the protocol passes through: journal only;
      blob; blob and new record; blob, new record and revoked source. */
  ghost predicate JournalOk(d: Disk, id: Id, j: Journal) {
    && j.rotationId == id
    && j.oldRef in d.records
    && var prior, next := d.records[j.oldRef], j.replacement;
    && prior.version == j.oldVersion && prior.fingerprint == j.oldFingerprint
    && prior.destroyedAt.None?
    && next.Valid() && Replaces(next, prior)
    && Seals(j.digest.of, next)
    && (next.ref in d.blobs ==> d.blobs[next.ref] == j.digest.of)
    && (next.ref in d.records ==>
          next.ref in d.blobs && d.records[next.ref] == next
          && next.ref in d.lineage && d.lineage[next.ref] == prior.ref)
    && (next.ref !in d.records ==>
          prior.revokedAt.None? && forall c | c in d.lineage :: d.lineage[c] != prior.ref)
    && (prior.revokedAt.Some? ==> prior.revokedAt == Some(next.issuedAt))
  }

  ghost predicate JournalsOk(d: Disk) {
    && (forall a, b | a in d.journals && b in d.journals :: a == b)
    && (forall id {:trigger JournalOk(d, id, d.journals[id])} | id in d.journals ::
          JournalOk(d, id, d.journals[id]))
  }

  predicate Names(j: Journal, prior: Ref, next: Ref) {
    j.oldRef == prior && j.replacement.ref == next
  }

  ghost predicate Pending(d: Disk, prior: Ref, next: Ref) {
    exists id :: id in d.journals && Names(d.journals[id], prior, next)
  }

  /** `child` was issued by rotating `parent`, which is revoked unless that rotation is pending. */
  ghost predicate LinkOk(d: Disk, child: Ref, parent: Ref) {
    && child in d.records && parent in d.records
    && var c, p := d.records[child], d.records[parent];
    && c.version == p.version + 1 && p.issuedAt < c.issuedAt && c.scope == p.scope
    && (p.revokedAt.Some? || Pending(d, parent, child))
  }

  ghost predicate LineageOk(d: Disk) {
    && (forall c {:trigger LinkOk(d, c, d.lineage[c])} | c in d.lineage :: LinkOk(d, c, d.lineage[c]))
    && (forall a, b | a in d.lineage && b in d.lineage && d.lineage[a] == d.lineage[b] :: a == b)
  }

  predicate OffboardingOk(records: map<Ref, Record>, e: Event) {
    && e.ref in records
    && records[e.ref].destroyedAt.Some?
    && Records(e, OffboardedEvent, records[e.ref],
               Offboarding(e.ref, records[e.ref].destroyedAt.value), e.recordedAt)
  }

  /** Offboarding events tell the truth, and no credential has two of them. */
  ghost predicate AuditOk(d: Disk) {
    && (forall i | 0 <= i < |d.audit| && d.audit[i].kind == OffboardedEvent ::
          OffboardingOk(d.records, d.audit[i]))
    && (forall i, k | 0 <= i < k < |d.audit|
                      && d.audit[i].kind == OffboardedEvent && d.audit[k].kind == OffboardedEvent ::
          d.audit[i].ref != d.audit[k].ref)
  }

  ghost predicate RuntimeFileOk(d: Disk, ref: Ref, name: string)
    requires ref in d.runtime && name in d.runtime[ref]
  {
    && IsRuntimeName(name)
    && var token := name[..TOKEN_LENGTH];
    && (IsKeyName(name) ==>
          && LeaseName(token) in d.runtime[ref]
          && d.runtime[ref][name].KeyFile?
          && ref in d.records
          && FingerprintOf(d.runtime[ref][name].key) == d.records[ref].fingerprint)
    && (IsLeaseName(name) ==>
          && d.runtime[ref][name].LeaseFile?
          && LeaseValid(d.runtime[ref][name].lease, ref, KeyName(token)))
  }

  /** Every runtime key has its lease beside it and is the key of the scope's credential. */
  ghost predicate RuntimeOk(d: Disk) {
    forall ref, name {:trigger RuntimeFileOk(d, ref, name)} | ref in d.runtime && name in d.runtime[ref] ::
      RuntimeFileOk(d, ref, name)
  }

  ghost predicate Inv(d: Disk) {
    RecordsOk(d) && BlobsOk(d) && JournalsOk(d) && LineageOk(d) && AuditOk(d) && RuntimeOk(d)
  }

  // ----- Progress of records -----

  /** A record's identity never changes, revocation is never taken back, destruction is final. */
  predicate Later(a: Record, b: Record) {
    && b.Original() == a.Original()
    && (a.revokedAt.Some? ==> b.revokedAt.Some?)
    && (a.destroyedAt.Some? ==> b == a)
  }

  ghost predicate Evolves(d: Disk, e: Disk) {
    forall ref | ref in d.records :: ref in e.records && Later(d.records[ref], e.records[ref])
  }

  /** Every write of the list keeps the invariant and moves records forward only. */
  ghost predicate Steps(d: Disk, ws: seq<Write>)
    decreases |ws|
  {
    Inv(d) && (ws != [] ==> Evolves(d, Apply(d, ws[0])) && Steps(Apply(d, ws[0]), ws[1..]))
  }

  // ----- Custody -----

  /** The disk once the rotation of journal `id` is rolled back, or, if its blob is written,
      rolled forward. */
  ghost function SettledBy(d: Disk, id: Id): Disk
    requires id in d.journals
  {
    var j := d.journals[id];
    if j.replacement.ref !in d.blobs || j.oldRef !in d.records then d.(journals := d.journals - {id}) else
    var prior := d.records[j.oldRef];
    d.(journals := d.journals - {id},
       records := d.records[j.replacement.ref := j.replacement]
                           [j.oldRef := prior.(revokedAt := Some(j.replacement.issuedAt))],
       lineage := d.lineage[j.replacement.ref := j.oldRef])
  }

  ghost function PendingId(d: Disk): (id: Id)
    requires d.journals != map[]
    ensures id in d.journals
  {
    var id :| id in d.journals; id
  }

  /** A rotation is committed once its blob is written: the disk recovery must arrive at. */
  ghost function Settled(d: Disk): Disk {
    if d.journals == map[] then d else SettledBy(d, PendingId(d))
  }

  datatype Custody = Custody(records: map<Ref, Record>, keys: map<Ref, Blob>, lineage: map<Ref, Ref>)

  /** What the vault holds: its records, the sealed keys of those not destroyed, who replaced whom. */
  ghost function CustodyIn(s: Disk): Custody {
    Custody(s.records,
            map ref | ref in s.blobs && ref in s.records && s.records[ref].destroyedAt.None? :: s.blobs[ref],
            s.lineage)
  }

  ghost function CustodyOf(d: Disk): Custody {
    CustodyIn(Settled(d))
  }

  /** No write of the list changes what the vault holds. */
  ghost predicate Still(d: Disk, ws: seq<Write>)
    decreases |ws|
  {
    ws != [] ==> CustodyOf(Apply(d, ws[0])) == CustodyOf(d) && Still(Apply(d, ws[0]), ws[1..])
  }

  /** At most one write of the list changes what the vault holds. */
  ghost predicate OneCommit(d: Disk, ws: seq<Write>)
    decreases |ws|
  {
    ws != [] ==>
      || Still(Apply(d, ws[0]), ws[1..])
      || (CustodyOf(Apply(d, ws[0])) == CustodyOf(d) && OneCommit(Apply(d, ws[0]), ws[1..]))
  }

  // ----- Facts about lists of writes -----

  lemma {:induction false} StepsPrefix(d: Disk, ws: seq<Write>, k: nat)
    requires Steps(d, ws) && k <= |ws|
    ensures Inv(Play(d, ws[..k])) && Evolves(d, Play(d, ws[..k]))
    decreases k
  {
    if k > 0 {
      assert ws[..k][1..] == ws[1..][..k - 1];
      StepsPrefix(Apply(d, ws[0]), ws[1..], k - 1);
    }
  }

  lemma {:induction false} StepsAppend(d: Disk, a: seq<Write>, b: seq<Write>)
    requires Steps(d, a) && Steps(Play(d, a), b)
    ensures Steps(d, a + b)
    decreases |a|
  {
    if a == [] {
      assert a + b == b;
    } else {
      assert (a + b)[1..] == a[1..] + b;
      StepsAppend(Apply(d, a[0]), a[1..], b);
    }
  }

  lemma {:induction false} StillPrefix(d: Disk, ws: seq<Write>, k: nat)
    requires Still(d, ws) && k <= |ws|
    ensures CustodyOf(Play(d, ws[..k])) == CustodyOf(d)
    decreases k
  {
    if k > 0 {
      assert ws[..k][1..] == ws[1..][..k - 1];
      StillPrefix(Apply(d, ws[0]), ws[1..], k - 1);
    }
  }

  lemma {:induction false} StillAppend(d: Disk, a: seq<Write>, b: seq<Write>)
    requires Still(d, a)
    ensures Still(Play(d, a), b) ==> Still(d, a + b)
    ensures OneCommit(Play(d, a), b) ==> OneCommit(d, a + b)
    decreases |a|
  {
    if a == [] {
      assert a + b == b;
    } else {
      assert (a + b)[1..] == a[1..] + b;
      StillAppend(Apply(d, a[0]), a[1..], b);
    }
  }

  lemma {:induction false} StillIsOneCommit(d: Disk, ws: seq<Write>)
    requires Still(d, ws)
    ensures OneCommit(d, ws)
  {
  }

  /** A list with one commit leaves, however far it gets, what was held before or after it. */
  lemma {:induction false} CommitPrefix(d: Disk, ws: seq<Write>, k: nat)
    requires OneCommit(d, ws) && k <= |ws|
    ensures CustodyOf(Play(d, ws[..k])) in {CustodyOf(d), CustodyOf(Play(d, ws))}
    decreases k
  {
    if k > 0 {
      var e := Apply(d, ws[0]);
      assert ws[..k][1..] == ws[1..][..k - 1];
      if Still(e, ws[1..]) {
        StillPrefix(e, ws[1..], k - 1);
        StillPrefix(e, ws[1..], |ws| - 1);
        assert ws[1..][..|ws| - 1] == ws[1..];
      } else {
        CommitPrefix(e, ws[1..], k - 1);
      }
    }
  }
}
