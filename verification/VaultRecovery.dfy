/** Recovery of pending rotations: every write of it is safe and it settles the disk. */
module VaultRecovery {
  import opened Common
  import opened Listing
  import opened VaultModel
  import opened VaultInvariant

  /** The list is safe throughout and changes nothing the vault holds. */
  ghost predicate Quiet(d: Disk, ws: seq<Write>) {
    Steps(d, ws) && Still(d, ws)
  }

  lemma QuietOne(d: Disk, w: Write)
    requires Inv(d) && Inv(Apply(d, w)) && Evolves(d, Apply(d, w))
    requires CustodyOf(Apply(d, w)) == CustodyOf(d)
    ensures Quiet(d, [w]) && Play(d, [w]) == Apply(d, w)
  {
    var e := Apply(d, w);
    assert [w][1..] == [];
    assert Steps(e, []) && Still(e, []);
  }

  lemma QuietJoin(d: Disk, a: seq<Write>, b: seq<Write>)
    requires Quiet(d, a) && Quiet(Play(d, a), b)
    ensures Quiet(d, a + b) && Play(d, a + b) == Play(Play(d, a), b)
  {
    StepsAppend(d, a, b);
    StillAppend(d, a, b);
    PlayAppend(d, a, b);
  }

  lemma SettledPending(d: Disk, id: Id)
    requires JournalsOk(d) && id in d.journals
    ensures Settled(d) == SettledBy(d, id)
  {
    assert d.journals != map[];
    assert PendingId(d) == id;
  }

  lemma SameCustody(d: Disk, e: Disk)
    requires Settled(d).records == Settled(e).records && Settled(d).blobs == Settled(e).blobs
    requires Settled(d).lineage == Settled(e).lineage
    ensures CustodyOf(d) == CustodyOf(e)
  {
  }

  lemma OneJournal(d: Disk, id: Id)
    requires JournalsOk(d) && id in d.journals
    ensures d.journals.Keys == {id} && d.journals - {id} == map[]
  {
  }

  // ----- What a write leaves alone -----

  lemma RuntimeFrame(d: Disk, e: Disk)
    requires RuntimeOk(d) && Evolves(d, e) && e.runtime == d.runtime
    ensures RuntimeOk(e)
  {
    forall ref, name | ref in e.runtime && name in e.runtime[ref] ensures RuntimeFileOk(e, ref, name) {
      assert RuntimeFileOk(d, ref, name);
    }
  }

  lemma AuditFrame(d: Disk, e: Disk)
    requires AuditOk(d) && Evolves(d, e) && e.audit == d.audit
    ensures AuditOk(e)
  {
    forall i | 0 <= i < |e.audit| && e.audit[i].kind == OffboardedEvent
      ensures OffboardingOk(e.records, e.audit[i])
    {
      assert OffboardingOk(d.records, d.audit[i]);
    }
  }

  /** Links survive record progress as long as their pending journals do. */
  lemma LineageFrame(d: Disk, e: Disk)
    requires LineageOk(d) && Evolves(d, e) && e.lineage == d.lineage
    requires forall id | id in d.journals ::
               || (id in e.journals && e.journals[id] == d.journals[id])
               || (var j := d.journals[id]; j.oldRef in e.records && e.records[j.oldRef].revokedAt.Some?)
    ensures LineageOk(e)
  {
    forall c | c in e.lineage ensures LinkOk(e, c, e.lineage[c]) {
      var p := d.lineage[c];
      assert LinkOk(d, c, p);
      assert Later(d.records[c], e.records[c]) && Later(d.records[p], e.records[p]);
      SameIdentity(d.records[c], e.records[c]);
      SameIdentity(d.records[p], e.records[p]);
      if Pending(d, p, c) {
        var id :| id in d.journals && Names(d.journals[id], p, c);
        if id in e.journals && e.journals[id] == d.journals[id] {
          assert Names(e.journals[id], p, c);
        }
      }
    }
  }

  lemma SameIdentity(a: Record, b: Record)
    requires Later(a, b)
    ensures b.ref == a.ref && b.version == a.version && b.issuedAt == a.issuedAt && b.scope == a.scope
    ensures b.fingerprint == a.fingerprint && b.expiresAt == a.expiresAt
  {
    assert b.Original().ref == a.Original().ref && b.Original().version == a.Original().version;
    assert b.Original().issuedAt == a.Original().issuedAt && b.Original().scope == a.Original().scope;
    assert b.Original().fingerprint == a.Original().fingerprint;
    assert b.Original().expiresAt == a.Original().expiresAt;
  }

  // ----- The writes of a recovery -----

  lemma AuditExtends(d: Disk, f: Disk, e: Event)
    requires AuditOk(d) && f.records == d.records && f.audit == d.audit + [e]
    requires e.kind == OffboardedEvent ==>
               && OffboardingOk(d.records, e)
               && forall i | 0 <= i < |d.audit| && d.audit[i].kind == OffboardedEvent :: d.audit[i].ref != e.ref
    ensures AuditOk(f)
  {
    forall i | 0 <= i < |f.audit| && f.audit[i].kind == OffboardedEvent
      ensures OffboardingOk(f.records, f.audit[i])
    {
      if i < |d.audit| { assert f.audit[i] == d.audit[i]; }
    }
    forall i, k | 0 <= i < k < |f.audit|
                  && f.audit[i].kind == OffboardedEvent && f.audit[k].kind == OffboardedEvent
      ensures f.audit[i].ref != f.audit[k].ref
    {
      assert f.audit[i] == d.audit[i];
      if k < |d.audit| { assert f.audit[k] == d.audit[k]; }
    }
  }

  /** Appending a truthful event changes nothing the vault holds. */
  lemma AppendStep(d: Disk, e: Event)
    requires Inv(d) && AuditOk(Apply(d, Append(e)))
    ensures Quiet(d, [Append(e)]) && Play(d, [Append(e)]) == Apply(d, Append(e))
  {
    var f := Apply(d, Append(e));
    if d.journals != map[] {
      var id := PendingId(d);
      assert JournalOk(d, id, d.journals[id]);
      assert JournalOk(f, id, f.journals[id]);
      SettledPending(d, id);
      SettledPending(f, id);
    }
    SameCustody(d, f);
    LineageFrame(d, f);
    RuntimeFrame(d, f);
    assert JournalsOk(f);
    QuietOne(d, Append(e));
  }

  /** Appending an event other than an offboarding. */
  lemma LogStep(d: Disk, e: Event)
    requires Inv(d) && e.kind != OffboardedEvent
    ensures Quiet(d, [Append(e)]) && Play(d, [Append(e)]) == Apply(d, Append(e))
  {
    AuditExtends(d, Apply(d, Append(e)), e);
    AppendStep(d, e);
  }

  function Publication(d: Disk, id: Id): Write
    requires id in d.journals
  {
    PutRecord(d.journals[id].replacement, Some(d.journals[id].oldRef))
  }

  predicate Publishable(d: Disk, id: Id) {
    id in d.journals && d.journals[id].replacement.ref in d.blobs && d.journals[id].replacement.ref !in d.records
  }

  lemma PublishKeepsJournal(d: Disk, id: Id)
    requires Inv(d) && Publishable(d, id)
    ensures var e := Apply(d, Publication(d, id)); JournalsOk(e) && RecordsOk(e) && BlobsOk(e) && Evolves(d, e)
  {
    assert JournalOk(d, id, d.journals[id]);
    OneJournal(d, id);
    hide LineageOk, AuditOk, RuntimeOk;
    assert JournalOk(Apply(d, Publication(d, id)), id, d.journals[id]);
  }

  lemma PublishKeepsInv(d: Disk, id: Id)
    requires Inv(d) && Publishable(d, id)
    ensures Inv(Apply(d, Publication(d, id))) && Evolves(d, Apply(d, Publication(d, id)))
  {
    var e := Apply(d, Publication(d, id));
    PublishKeepsJournal(d, id);
    PublishLineage(d, id);
    hide JournalsOk, RecordsOk, BlobsOk, LineageOk, AuditOk, RuntimeOk;
    AuditFrame(d, e);
    RuntimeFrame(d, e);
  }

  lemma PublishKeepsCustody(d: Disk, id: Id)
    requires Inv(d) && Publishable(d, id)
    ensures CustodyOf(Apply(d, Publication(d, id))) == CustodyOf(d)
  {
    var e := Apply(d, Publication(d, id));
    assert JournalOk(d, id, d.journals[id]);
    PublishKeepsJournal(d, id);
    SettledPending(d, id);
    SettledPending(e, id);
    hide Inv, JournalsOk, Settled;
    assert SettledBy(d, id).records == SettledBy(e, id).records;
    SameCustody(d, e);
  }

  /** The replacement of a pending rotation whose blob is written may be published. */
  lemma PublishStep(d: Disk, id: Id)
    requires Inv(d) && Publishable(d, id)
    ensures Quiet(d, [Publication(d, id)]) && Play(d, [Publication(d, id)]) == Apply(d, Publication(d, id))
  {
    PublishKeepsInv(d, id);
    PublishKeepsCustody(d, id);
    hide Inv, Publication;
    QuietOne(d, Publication(d, id));
  }

  lemma PublishLineage(d: Disk, id: Id)
    requires Inv(d) && id in d.journals
    requires var next := d.journals[id].replacement; next.ref in d.blobs && next.ref !in d.records
    ensures LineageOk(Apply(d, PutRecord(d.journals[id].replacement, Some(d.journals[id].oldRef))))
  {
    var j := d.journals[id];
    assert JournalOk(d, id, j);
    var e := Apply(d, PutRecord(j.replacement, Some(j.oldRef)));
    forall c | c in e.lineage ensures LinkOk(e, c, e.lineage[c]) {
      if c == j.replacement.ref {
        assert Names(e.journals[id], j.oldRef, c);
      } else {
        var p := d.lineage[c];
        assert LinkOk(d, c, p);
      }
    }
  }

  /** The source of a pending rotation whose replacement is published may be revoked. */
  lemma RevokeSourceStep(d: Disk, id: Id)
    requires Inv(d) && id in d.journals
    requires d.journals[id].replacement.ref in d.records
    requires d.journals[id].oldRef in d.records && d.records[d.journals[id].oldRef].revokedAt.None?
    ensures var j := d.journals[id];
            var w := PutRecord(d.records[j.oldRef].(revokedAt := Some(j.replacement.issuedAt)), None);
            Quiet(d, [w]) && Play(d, [w]) == Apply(d, w)
  {
    var j := d.journals[id];
    assert JournalOk(d, id, j);
    var w := PutRecord(d.records[j.oldRef].(revokedAt := Some(j.replacement.issuedAt)), None);
    var e := Apply(d, w);
    OneJournal(d, id);
    assert JournalOk(e, id, j);
    LineageFrame(d, e);
    AuditFrame(d, e);
    RuntimeFrame(d, e);
    SettledPending(d, id);
    SettledPending(e, id);
    assert SettledBy(d, id).records == SettledBy(e, id).records;
    SameCustody(d, e);
    QuietOne(d, w);
  }

  /** The journal of a rotation that has not begun or is complete may be removed. */
  lemma CloseStep(d: Disk, id: Id)
    requires Inv(d) && id in d.journals
    requires var j := d.journals[id];
             j.replacement.ref !in d.blobs || (j.oldRef in d.records && d.records[j.oldRef].revokedAt.Some?)
    ensures Quiet(d, [DropJournal(id)]) && Play(d, [DropJournal(id)]) == Settled(d)
    ensures Settled(d) == d.(journals := d.journals - {id})
  {
    var j := d.journals[id];
    assert JournalOk(d, id, j);
    var e := Apply(d, DropJournal(id));
    OneJournal(d, id);
    SettledPending(d, id);
    if j.replacement.ref in d.blobs {
      assert d.records[j.replacement.ref := j.replacement]
                      [j.oldRef := d.records[j.oldRef].(revokedAt := Some(j.replacement.issuedAt))] == d.records;
      assert d.lineage[j.replacement.ref := j.oldRef] == d.lineage;
    } else {
      assert forall c | c in d.lineage :: d.lineage[c] != j.oldRef;
    }
    assert e == Settled(d);
    SameCustody(d, e);
    CloseLineage(d, id);
    RuntimeFrame(d, e);
    QuietOne(d, DropJournal(id));
  }

  lemma CloseLineage(d: Disk, id: Id)
    requires Inv(d) && id in d.journals
    requires var j := d.journals[id];
             j.replacement.ref !in d.blobs || (j.oldRef in d.records && d.records[j.oldRef].revokedAt.Some?)
    ensures LineageOk(Apply(d, DropJournal(id)))
  {
    var e := Apply(d, DropJournal(id));
    var j := d.journals[id];
    assert JournalOk(d, id, j);
    forall c | c in e.lineage ensures LinkOk(e, c, e.lineage[c]) {
      assert LinkOk(d, c, d.lineage[c]);
      if Pending(d, d.lineage[c], c) {
        var i :| i in d.journals && Names(d.journals[i], d.lineage[c], c);
        assert i == id;
      }
    }
  }

  lemma LogIsQuiet(d: Disk, e: Event)
    requires Inv(d) && e.kind != OffboardedEvent
    ensures var f := Play(d, [Append(e)]);
            Quiet(d, [Append(e)]) && Inv(f) && f == d.(audit := f.audit)
  {
    hide Inv, Quiet, Play;
    LogStep(d, e);
    QuietEndsSound(d, [Append(e)]);
    assert Apply(d, Append(e)) == d.(audit := d.audit + [e]);
  }

  lemma AppendOnceStep(d: Disk, r: Record, op: Operation, wall: Time)
    requires Inv(d)
    ensures var ws := AppendOnce(d.audit, RotatedEvent, r, op, wall);
            Quiet(d, ws) && Play(d, ws) == d.(audit := Play(d, ws).audit) && Inv(Play(d, ws))
  {
    hide Logged;
    var e := EventOf(RotatedEvent, r, Some(op), wall);
    LogIsQuiet(d, e);
    assert Quiet(d, []) && Play(d, []) == d;
    hide Inv, Quiet, EventOf, Play;
  }

  lemma QuietEndsSound(d: Disk, ws: seq<Write>)
    requires Quiet(d, ws)
    ensures Inv(Play(d, ws))
  {
    StepsPrefix(d, ws, |ws|);
    assert ws[..|ws|] == ws;
  }

  lemma PublishWritesStep(d: Disk, id: Id)
    requires Inv(d) && id in d.journals && d.journals[id].replacement.ref in d.blobs
    ensures var j := d.journals[id];
            var e := Play(d, PublishWrites(d, j));
            && Quiet(d, PublishWrites(d, j)) && Inv(e)
            && j.oldRef in d.records && j.replacement.ref in e.records
            && e == d.(records := d.records[j.replacement.ref := j.replacement],
                       lineage := d.lineage[j.replacement.ref := j.oldRef])
  {
    hide LineageOk, AuditOk, RuntimeOk, BlobsOk;
    var j := d.journals[id];
    assert JournalOk(d, id, j);
    if j.replacement.ref !in d.records {
      PublishStep(d, id);
      StepsPrefix(d, PublishWrites(d, j), 1);
      assert PublishWrites(d, j)[..1] == PublishWrites(d, j);
    } else {
      assert d.records[j.replacement.ref := j.replacement] == d.records;
      assert d.lineage[j.replacement.ref := j.oldRef] == d.lineage;
    }
  }

  lemma RevokeWritesStep(d: Disk, id: Id)
    requires Inv(d) && id in d.journals && d.journals[id].replacement.ref in d.records
    requires d.journals[id].oldRef in d.records
    ensures var j := d.journals[id];
            var e := Play(d, RevokeWrites(d, j));
            && Quiet(d, RevokeWrites(d, j)) && Inv(e)
            && e == d.(records := d.records[j.oldRef := d.records[j.oldRef].(revokedAt := Some(j.replacement.issuedAt))])
  {
    var j := d.journals[id];
    assert JournalOk(d, id, j);
    if d.records[j.oldRef].revokedAt.None? {
      RevokeSourceStep(d, id);
      StepsPrefix(d, RevokeWrites(d, j), 1);
      assert RevokeWrites(d, j)[..1] == RevokeWrites(d, j);
    } else {
      assert d.records[j.oldRef := d.records[j.oldRef].(revokedAt := Some(j.replacement.issuedAt))] == d.records;
    }
  }

  /** The writes of a roll-forward before it removes the journal. */
  lemma PublishAndRevoke(d: Disk, id: Id)
    requires Inv(d) && id in d.journals && d.journals[id].replacement.ref in d.blobs
    requires d.journals[id].oldRef in d.records
    ensures var j := d.journals[id];
            var ws := PublishWrites(d, j) + RevokeWrites(d, j);
            var e := Play(d, ws);
            && Quiet(d, ws) && Inv(e)
            && e == SettledBy(d, id).(journals := d.journals)
  {
    var j := d.journals[id];
    var a, b := PublishWrites(d, j), RevokeWrites(d, j);
    PublishWritesStep(d, id);
    NotItsOwnSource(d, id);
    RevokeWritesStep(Play(d, a), id);
    QuietJoin(d, a, b);
  }

  /** Rolling forward is safe to interrupt anywhere and ends on the settled disk. */
  lemma ForwardSettles(d: Disk, id: Id, wall: Time)
    requires Inv(d) && id in d.journals && d.journals[id].replacement.ref in d.blobs
    requires d.journals[id].oldRef in d.records
    ensures var ws := ForwardWrites(d, id, wall);
            Quiet(d, ws) && Play(d, ws) == Settled(d).(audit := Play(d, ws).audit)
  {
    var j := d.journals[id];
    var ab := PublishWrites(d, j) + RevokeWrites(d, j);
    PublishAndRevoke(d, id);
    var d2 := Play(d, ab);
    var c := AppendOnce(d.audit, RotatedEvent, j.replacement, Rotation(id), wall);
    AppendOnceStep(d2, j.replacement, Rotation(id), wall);
    var d3 := Play(d2, c);
    CloseStep(d3, id);
    QuietJoin(d, ab, c);
    QuietJoin(d, ab + c, [DropJournal(id)]);
    SettledPending(d, id);
    assert d3 == SettledBy(d, id).(journals := d.journals, audit := d3.audit);
  }

  lemma NotItsOwnSource(d: Disk, id: Id)
    requires Inv(d) && id in d.journals
    ensures d.journals[id].oldRef != d.journals[id].replacement.ref
  {
    assert JournalOk(d, id, d.journals[id]);
  }

  /** A journal the vault wrote is never rejected, from any phase, and settles the disk. */
  lemma JournalPlanSettles(d: Disk, id: Id, wall: Time)
    requires Inv(d) && id in d.journals
    ensures var p := JournalPlan(d, id, wall);
            && p.failure.None? && Quiet(d, p.writes)
            && Play(d, p.writes) == Settled(d).(audit := Play(d, p.writes).audit)
  {
    var j := d.journals[id];
    assert JournalOk(d, id, j);
    if j.replacement.ref !in d.blobs {
      CloseStep(d, id);
    } else {
      ForwardSettles(d, id, wall);
    }
  }

  /** Recovery never fails, is safe to interrupt anywhere, and leaves the settled disk. */
  lemma RecoverySettles(d: Disk, wall: Time)
    requires Inv(d)
    ensures var p := Recovery(d, wall);
            && p.failure.None? && Quiet(d, p.writes)
            && Play(d, p.writes) == Settled(d).(audit := Play(d, p.writes).audit)
            && Play(d, p.writes).journals == map[]
            && d.audit <= Play(d, p.writes).audit
  {
    if d.journals == map[] {
      assert Recovery(d, wall) == Go([]);
    } else {
      var id :| id in d.journals;
      OneJournal(d, id);
      SortedSingleton(id);
      var p := JournalPlan(d, id, wall);
      JournalPlanSettles(d, id, wall);
      assert RecoveryPlan(Play(d, p.writes), [id][1..], wall) == Go([]);
      assert Recovery(d, wall) == p by { assert p.writes + [] == p.writes; }
    }
    AuditGrows(d, Recovery(d, wall).writes);
  }

  lemma {:induction false} AuditGrows(d: Disk, ws: seq<Write>)
    ensures d.audit <= Play(d, ws).audit
    decreases |ws|
  {
    if ws != [] {
      AuditGrows(Apply(d, ws[0]), ws[1..]);
    }
  }
}
