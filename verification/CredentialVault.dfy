/** The vault itself: methods that change the directories one atomic write at a time. */
module CredentialVault {
  import opened Common
  import opened Listing
  import opened VaultModel
  import opened VaultRuntime
  import VaultOutcomes
  import VaultTheorems

  /** How a call ends: with a value, with a raised failure, or with the process dead. */
  datatype Outcome<+T> = Done(value: T) | Raised(failure: Failure) | Died

  /** `done` is what has been written so far of a call begun on `d` with `life` writes to live. */
  ghost predicate Progress(d: Disk, life: nat, done: seq<Write>, e: Disk, left: nat) {
    e == Play(d, done) && left + |done| == life
  }

  /** The call carried out plan `p`, or died as many writes into it as it had to live. */
  ghost predicate Executed<T>(d: Disk, life: nat, p: Plan, e: Disk, left: nat, out: Outcome<T>) {
    if life < |p.writes| then out.Died? && left == 0 && e == Play(d, p.writes[..life])
    else
      && left == life - |p.writes| && e == Play(d, p.writes)
      && match p.failure case Some(f) => out == Raised(f) case None => out.Done?
  }

  lemma Sequenced<T, U>(d: Disk, life: nat, p: Plan, e: Disk, mid: nat, a: Outcome<T>,
                        q: Plan, f: Disk, left: nat, b: Outcome<U>)
    requires Executed(d, life, p, e, mid, a) && a.Done? && Executed(e, mid, q, f, left, b)
    ensures Executed(d, life, Then(p, q), f, left, b)
  {
    PlayAppend(d, p.writes, q.writes);
    if mid < |q.writes| {
      assert (p.writes + q.writes)[..life] == p.writes + q.writes[..mid];
      PlayAppend(d, p.writes, q.writes[..mid]);
    }
  }

  lemma Stopped<T, U>(d: Disk, life: nat, p: Plan, e: Disk, left: nat, a: Outcome<T>, q: Plan, b: Outcome<U>)
    requires Executed(d, life, p, e, left, a) && !a.Done?
    requires a.Died? ==> b.Died?
    requires a.Raised? ==> b == Raised(a.failure)
    ensures Executed(d, life, Then(p, q), e, left, b)
  {
    if life < |p.writes| {
      assert (p.writes + q.writes)[..life] == p.writes[..life];
    }
  }

  lemma DeadAt<T>(d: Disk, life: nat, done: seq<Write>, e: Disk, p: Plan, out: Outcome<T>)
    requires Progress(d, life, done, e, 0) && done <= p.writes && |done| < |p.writes| && out.Died?
    ensures Executed(d, life, p, e, 0, out)
  {
    assert p.writes[..life] == done;
  }

  class EncryptedCredentialVault {
    var records: map<Ref, Record>
    var blobs: map<Ref, Blob>
    var rotations: map<Id, Journal>
    var audit: seq<Event>
    var runtime: map<Ref, RuntimeScope>
    ghost var lineage: map<Ref, Ref>

    /** How many more atomic writes the process survives. */
    var life: nat

    ghost function Contents(): Disk
      reads this
    {
      Disk(records, blobs, rotations, audit, runtime, lineage)
    }

    /** One atomic write, unless the process dies first. */
    method Perform(w: Write, ghost d: Disk, ghost begun: nat, ghost done: seq<Write>) returns (alive: bool)
      requires Progress(d, begun, done, Contents(), life)
      modifies this
      ensures alive <==> old(life) > 0
      ensures Progress(d, begun, if alive then done + [w] else done, Contents(), life)
      ensures !alive ==> life == 0
    {
      if life == 0 {
        return false;
      }
      life := life - 1;
      PlayAppend(d, done, [w]);
      assert Play(Play(d, done), [w]) == Apply(Play(d, done), w);
      match w {
        case PutRecord(r, parent) =>
          records := records[r.ref := r];
          lineage := if parent.Some? then lineage[r.ref := parent.value] else lineage;
        case PutBlob(ref, b) => blobs := blobs[ref := b];
        case DropBlob(ref) => blobs := blobs - {ref};
        case PutJournal(id, j) => rotations := rotations[id := j];
        case DropJournal(id) => rotations := rotations - {id};
        case Append(e) => audit := audit + [e];
        case MakeScope(ref) =>
          if ref !in runtime { runtime := runtime[ref := map[]]; }
        case PutRuntime(ref, name, file) =>
          if ref in runtime { runtime := runtime[ref := runtime[ref][name := file]]; }
        case DropRuntime(ref, name) =>
          if ref in runtime { runtime := runtime[ref := runtime[ref] - {name}]; }
        case DropScope(ref) =>
          if ref in runtime && runtime[ref] == map[] { runtime := runtime - {ref}; }
      }
      return true;
    }

    /** Performs the writes of a list in turn. */
    method PerformAll(ws: seq<Write>) returns (out: Outcome<()>)
      modifies this
      ensures Executed(old(Contents()), old(life), Go(ws), Contents(), life, out)
    {
      ghost var d, begun := Contents(), life;
      for i := 0 to |ws|
        invariant Progress(d, begun, ws[..i], Contents(), life)
      {
        var alive := Perform(ws[i], d, begun, ws[..i]);
        if !alive {
          DeadAt(d, begun, ws[..i], Contents(), Go(ws), Outcome<()>.Died);
          return Died;
        }
        assert ws[..i] + [ws[i]] == ws[..i + 1];
      }
      assert ws[..|ws|] == ws;
      return Done(());
    }

    /** Searches the lines of an audit file for a matching event.  A line that is malformed or not
        authentic and comes before any match is an error. */
    static method AuditEventExists(lines: seq<Option<Event>>, kind: EventKind, r: Record, op: Operation, wall: Time)
      returns (out: Outcome<bool>)
      ensures out == Done(true) <==> FoundIn(lines, kind, r, op, wall)
      ensures out == Raised(AuditRejected) <==> DamagedBeforeMatch(lines, kind, r, op, wall)
      ensures out == Done(false) <==>
                forall i | 0 <= i < |lines| :: lines[i].Some? && !Matches(lines[i], kind, r, op, wall)
    {
      for i := 0 to |lines|
        invariant forall k | 0 <= k < i :: lines[k].Some? && !Matches(lines[k], kind, r, op, wall)
      {
        if lines[i].None? {
          return Raised(AuditRejected);
        }
        if Matches(lines[i], kind, r, op, wall) {
          return Done(true);
        }
      }
      return Done(false);
    }

    /** The audit file, whose lines are all of the vault's own making. */
    function AuditLines(): (lines: seq<Option<Event>>)
      reads this
      ensures |lines| == |audit| && forall i | 0 <= i < |audit| :: lines[i] == Some(audit[i])
    {
      var events := audit;
      seq(|events|, i requires 0 <= i < |events| => Some(events[i]))
    }

    method AppendAuditOnce(kind: EventKind, r: Record, op: Operation, wall: Time) returns (out: Outcome<()>)
      modifies this
      ensures Executed(old(Contents()), old(life), Go(AppendOnce(old(audit), kind, r, op, wall)), Contents(), life, out)
    {
      var lines := AuditLines();
      var found := AuditEventExists(lines, kind, r, op, wall);
      LinesAreEvents(audit, lines, kind, r, op, wall);
      if found == Done(true) {
        return Done(());
      }
      out := PerformAll([Append(EventOf(kind, r, Some(op), wall))]);
    }

    // ----- Recovery -----

    method RecoverRotation(id: Id, wall: Time) returns (out: Outcome<()>)
      requires id in rotations
      modifies this
      ensures Executed(old(Contents()), old(life), JournalPlan(old(Contents()), id, wall), Contents(), life, out)
    {
      var j := rotations[id];
      var next := j.replacement;
      if j.rotationId != id {
        return Raised(JournalRejected);
      }
      if j.oldRef !in records || records[j.oldRef].ref != j.oldRef || !records[j.oldRef].Valid() {
        return Raised(UnreadableRecord);
      }
      var prior := records[j.oldRef];
      if prior.version != j.oldVersion || prior.fingerprint != j.oldFingerprint {
        return Raised(JournalRejected);
      }
      if !next.Valid() || !Replaces(next, prior) {
        return Raised(JournalRejected);
      }
      if next.ref !in blobs {
        if next.ref in records || prior.revokedAt.Some? || prior.destroyedAt.Some? {
          return Raised(JournalRejected);
        }
        out := PerformAll([DropJournal(id)]);
        return;
      }
      if Sha256(blobs[next.ref]) != j.digest || (next.ref in records && records[next.ref] != next) {
        return Raised(JournalRejected);
      }
      if Decrypt(next, blobs[next.ref]).None? {
        return Raised(BlobRejected);
      }
      if prior.destroyedAt.Some? {
        return Raised(JournalRejected);
      }
      out := RollForward(id, wall);
    }

    /** Finishes a committed rotation, redoing only what is missing. */
    method RollForward(id: Id, wall: Time) returns (out: Outcome<()>)
      requires id in rotations && rotations[id].oldRef in records
      modifies this
      ensures Executed(old(Contents()), old(life), Go(ForwardWrites(old(Contents()), id, wall)), Contents(), life, out)
    {
      var next, prior := rotations[id].replacement, records[rotations[id].oldRef];
      var publish := if next.ref in records then [] else [PutRecord(next, Some(rotations[id].oldRef))];
      var revoke := if prior.revokedAt.Some? then [] else [PutRecord(prior.(revokedAt := Some(next.issuedAt)), None)];
      ghost var d, l, ab := Contents(), life, publish + revoke;
      ghost var c, close := AppendOnce(audit, RotatedEvent, next, Rotation(id), wall), [DropJournal(id)];
      assert ForwardWrites(d, id, wall) == ab + c + close;
      hide *;
      out := PerformAll(publish + revoke);
      ghost var d1, l1, o1 := Contents(), life, out;
      if out.Done? {
        AuditUntouched(d, l, ab, d1, l1, o1);
        out := AppendAuditOnce(RotatedEvent, next, Rotation(id), wall);
      }
      ghost var d2, l2, o2 := Contents(), life, out;
      Chained(d, l, ab, d1, l1, o1, c, d2, l2, o2);
      if out.Done? {
        out := PerformAll([DropJournal(id)]);
      }
      Chained(d, l, ab + c, d2, l2, o2, close, Contents(), life, out);
    }

    /** Every pending journal, first name to last, until one is rejected. */
    method RecoverPendingRotations(wall: Time) returns (out: Outcome<()>)
      modifies this
      ensures Executed(old(Contents()), old(life), Recovery(old(Contents()), wall), Contents(), life, out)
    {
      ghost var d, l := Contents(), life;
      var ids := List(rotations.Keys);
      out := Done(());
      ghost var done: seq<Write> := [];
      for i := 0 to |ids|
        invariant out.Done? && Executed(d, l, Go(done), Contents(), life, out)
        invariant Recovery(d, wall) == Then(Go(done), RecoveryPlan(Contents(), ids[i..], wall))
      {
        ghost var e, m, before := Contents(), life, out;
        ghost var p := JournalPlan(e, ids[i], wall);
        ghost var rest := RecoveryPlan(Play(e, p.writes), ids[i + 1..], wall);
        assert ids[i..][1..] == ids[i + 1..];
        assert RecoveryPlan(e, ids[i..], wall) == Then(p, rest);
        if ids[i] !in rotations {
          out := Raised(JournalRejected);
        } else {
          out := RecoverRotation(ids[i], wall);
        }
        hide *;
        if !out.Done? {
          Stopped(e, m, p, Contents(), life, out, rest, out);
          Sequenced(d, l, Go(done), e, m, before, Then(p, rest), Contents(), life, out);
          return;
        }
        ThenAssociates(done, p, rest);
        Succeeded(e, m, p, Contents(), life, out);
        Chained(d, l, done, e, m, before, p.writes, Contents(), life, out);
        done := done + p.writes;
      }
      assert ids[|ids|..] == [];
      assert Recovery(d, wall) == Go(done) by { assert done + [] == done; }
    }

    // ----- Runtime custody -----

    method RecoverStaleToken(ref: Ref, files: RuntimeScope, token: string, procs: Processes) returns (out: Outcome<()>)
      modifies this
      ensures Executed(old(Contents()), old(life), StaleTokenPlan(ref, files, token, procs), Contents(), life, out)
    {
      var key, lease := KeyName(token), LeaseName(token);
      if key !in files || lease !in files {
        out := PerformAll(if lease in files then [DropRuntime(ref, lease)]
                          else if key in files then [DropRuntime(ref, key)] else []);
        return;
      }
      if !files[lease].LeaseFile? || !LeaseValid(files[lease].lease, ref, key) {
        return Raised(RuntimeRejected);
      }
      if !LeaseLive(files[lease].lease, procs) {
        out := PerformAll([DropRuntime(ref, key), DropRuntime(ref, lease)]);
        return;
      }
      return Done(());
    }

    method RecoverStaleScope(ref: Ref, files: RuntimeScope, procs: Processes) returns (out: Outcome<()>)
      modifies this
      ensures Executed(old(Contents()), old(life), StaleScopePlan(ref, files, procs), Contents(), life, out)
    {
      if exists name :: name in files && !IsRuntimeName(name) {
        return Raised(RuntimeRejected);
      }
      ghost var d, l := Contents(), life;
      var tokens := List(set name | name in files && IsRuntimeName(name) :: name[..TOKEN_LENGTH]);
      ghost var all := StaleTokensPlan(ref, files, tokens, procs);
      out := Done(());
      ghost var done: seq<Write> := [];
      for i := 0 to |tokens|
        invariant out.Done? && Executed(d, l, Go(done), Contents(), life, out)
        invariant all == Then(Go(done), StaleTokensPlan(ref, files, tokens[i..], procs))
      {
        ghost var e, m, before := Contents(), life, out;
        ghost var p, rest := StaleTokenPlan(ref, files, tokens[i], procs),
                             StaleTokensPlan(ref, files, tokens[i + 1..], procs);
        ScopeFails(ref, files, procs, tokens);
        hide *;
        NextToken(ref, files, tokens, i, procs);
        out := RecoverStaleToken(ref, files, tokens[i], procs);
        if !out.Done? {
          Stopped(e, m, p, Contents(), life, out, rest, out);
          Sequenced(d, l, Go(done), e, m, before, Then(p, rest), Contents(), life, out);
          Stopped(d, l, all, Contents(), life, out, Go([DropScope(ref)]), out);
          return;
        }
        ThenAssociates(done, p, rest);
        Succeeded(e, m, p, Contents(), life, out);
        Chained(d, l, done, e, m, before, p.writes, Contents(), life, out);
        done := done + p.writes;
      }
      assert tokens[|tokens|..] == [];
      assert all == Go(done) by { assert done + [] == done; }
      ScopeFails(ref, files, procs, tokens);
      hide *;
      ghost var e, m, before := Contents(), life, out;
      out := PerformAll([DropScope(ref)]);
      Sequenced(d, l, all, e, m, before, Go([DropScope(ref)]), Contents(), life, out);
    }

    /** Removes runtime material whose lease names no live process. */
    method RecoverStaleRuntime(procs: Processes) returns (out: Outcome<()>)
      modifies this
      ensures Executed(old(Contents()), old(life), StaleRecovery(old(Contents()), procs), Contents(), life, out)
    {
      ghost var d, l := Contents(), life;
      var scopes := runtime;
      var refs := List(scopes.Keys);
      out := Done(());
      ghost var done: seq<Write> := [];
      ScopesBegin(d, l, refs, procs, out);
      hide *;
      for i := 0 to |refs|
        invariant out.Done? && Executed(d, l, Go(done), Contents(), life, out)
        invariant StaleRecovery(d, procs) == Then(Go(done), StaleScopesPlan(scopes, refs[i..], procs))
      {
        ghost var e, m, before := Contents(), life, out;
        ghost var p, rest := StaleScopePlan(refs[i], scopes[refs[i]], procs),
                             StaleScopesPlan(scopes, refs[i + 1..], procs);
        NextScope(scopes, refs, i, procs);
        out := RecoverStaleScope(refs[i], scopes[refs[i]], procs);
        if !out.Done? {
          Stopped(e, m, p, Contents(), life, out, rest, out);
          Sequenced(d, l, Go(done), e, m, before, Then(p, rest), Contents(), life, out);
          return;
        }
        ThenAssociates(done, p, rest);
        Succeeded(e, m, p, Contents(), life, out);
        Chained(d, l, done, e, m, before, p.writes, Contents(), life, out);
        done := done + p.writes;
      }
      ScopesEnd(scopes, refs, procs, done);
    }

    /** Empties and removes a credential's runtime scope, in name order. */
    method RemoveRuntimeMaterializations(ref: Ref) returns (out: Outcome<()>)
      modifies this
      ensures Executed(old(Contents()), old(life), RuntimeRemoval(old(Contents()), ref), Contents(), life, out)
    {
      if ref !in runtime {
        return Done(());
      }
      ghost var d, l := Contents(), life;
      var names := List(runtime[ref].Keys);
      out := Done(());
      ghost var done: seq<Write> := [];
      for i := 0 to |names|
        invariant out.Done? && Executed(d, l, Go(done), Contents(), life, out)
        invariant RuntimeRemoval(d, ref) == Then(Go(done), RemovalPlan(ref, names[i..]))
      {
        ghost var e, m, before := Contents(), life, out;
        ghost var p, rest := Go([DropRuntime(ref, names[i])]), RemovalPlan(ref, names[i + 1..]);
        assert names[i..][1..] == names[i + 1..];
        if !IsRuntimeName(names[i]) {
          assert RemovalPlan(ref, names[i..]) == Stop(RuntimeRejected);
          out := Raised(RuntimeRejected);
          Sequenced(d, l, Go(done), e, m, before, Stop(RuntimeRejected), Contents(), life, out);
          return;
        }
        assert RemovalPlan(ref, names[i..]) == Then(p, rest);
        out := PerformAll([DropRuntime(ref, names[i])]);
        hide *;
        if !out.Done? {
          Stopped(e, m, p, Contents(), life, out, rest, out);
          Sequenced(d, l, Go(done), e, m, before, Then(p, rest), Contents(), life, out);
          return;
        }
        ThenAssociates(done, p, rest);
        Succeeded(e, m, p, Contents(), life, out);
        Chained(d, l, done, e, m, before, p.writes, Contents(), life, out);
        done := done + p.writes;
      }
      assert names[|names|..] == [];
      ghost var e, m, before := Contents(), life, out;
      out := PerformAll([DropScope(ref)]);
      Sequenced(d, l, Go(done), e, m, before, Go([DropScope(ref)]), Contents(), life, out);
    }

    // ----- What calls do once recovery is over -----

    predicate IsReadable(ref: Ref)
      reads this
    {
      ref in records && records[ref].ref == ref && records[ref].Valid()
    }

    method PersistNew(c: Call, wall: Time) returns (out: Outcome<Record>)
      requires c.Store?
      modifies this
      ensures Executed(old(Contents()), old(life), StorePlan(old(Contents()), c, wall), Contents(), life, out)
      ensures out.Done? ==> out.value == Created(c) && c.ref in records && records[c.ref] == out.value
      ensures out.Done? ==> c.ref in blobs && blobs[c.ref] == Blob(out.value, c.key, c.nonce)
    {
      var r := Created(c);
      if r.ref in records || r.ref in blobs {
        return Raised(AlreadyExists);
      }
      if c.unwritable {
        var undone := PerformAll([PutBlob(r.ref, Blob(r, c.key, c.nonce)), DropBlob(r.ref)]);
        return if undone.Done? then Raised(WriteFailed) else Died;
      }
      ghost var d := Contents();
      var log := EventOf(CreatedEvent, r, None, wall);
      var done := PerformAll([PutBlob(r.ref, Blob(r, c.key, c.nonce)), PutRecord(r, None), Append(log)]);
      VaultOutcomes.PlayTriple(d, PutBlob(r.ref, Blob(r, c.key, c.nonce)), PutRecord(r, None), Append(log));
      out := if done.Done? then Done(r) else Died;
    }

    method MaterializeUnlocked(c: Call, m: Moment) returns (out: Outcome<string>)
      requires c.Materialize?
      modifies this
      ensures Executed(old(Contents()), old(life), MaterializePlan(old(Contents()), c, m), Contents(), life, out)
      ensures out.Done? ==> out.value == KeyName(c.token)
    {
      if !IsReadable(c.ref) {
        return Raised(UnreadableRecord);
      }
      if records[c.ref].Status(m.wall) != Active {
        return Raised(NotActive);
      }
      if c.ref !in blobs || Decrypt(records[c.ref], blobs[c.ref]).None? {
        return Raised(BlobRejected);
      }
      var key := blobs[c.ref].key;
      if c.pid !in m.procs {
        var done := PerformAll([MakeScope(c.ref)]);
        return if done.Done? then Raised(LeaseUnavailable) else Died;
      }
      var lease := Lease(c.pid, m.procs[c.pid], c.ref, KeyName(c.token));
      var writes := MaterializeWrites(c.ref, c.token, lease, key);
      if c.fault.Some? {
        var undone := PerformAll(writes[..1 + Min(c.fault.value, 2)] + TokenRemoval(c.ref, c.token));
        return if undone.Done? then Raised(WriteFailed) else Died;
      }
      var done := PerformAll(writes);
      out := if done.Done? then Done(KeyName(c.token)) else Died;
    }

    method RevokeUnlocked(c: Call, wall: Time) returns (out: Outcome<Record>)
      requires c.Revoke?
      modifies this
      ensures Executed(old(Contents()), old(life), RevokePlan(old(Contents()), c, wall), Contents(), life, out)
      ensures out.Done? ==> out.value.ref == c.ref && out.value.revokedAt == Some(c.at)
      ensures out.Done? ==> c.ref in records && records[c.ref] == out.value
    {
      if !IsReadable(c.ref) {
        return Raised(UnreadableRecord);
      }
      var r := records[c.ref];
      if r.destroyedAt.Some? {
        return Raised(AlreadyDestroyed);
      }
      if c.at < r.issuedAt {
        return Raised(InvalidTime);
      }
      var revoked := r.(revokedAt := Some(c.at));
      ghost var d := Contents();
      var log := EventOf(RevokedEvent, revoked, None, wall);
      var done := PerformAll([PutRecord(revoked, None), Append(log)]);
      VaultOutcomes.PlayPair(d, PutRecord(revoked, None), Append(log));
      out := if done.Done? then Done(revoked) else Died;
    }

    method RotateUnlocked(c: Call, wall: Time) returns (out: Outcome<Record>)
      requires c.Rotate?
      modifies this
      ensures Executed(old(Contents()), old(life), RotatePlan(old(Contents()), c, wall), Contents(), life, out)
      ensures out.Done? ==> out.value.ref == c.newRef && out.value.fingerprint == FingerprintOf(c.key)
      ensures out.Done? && c.newRef != c.ref ==>
                c.newRef in records && records[c.newRef] == out.value
                && c.ref in records && records[c.ref].revokedAt == Some(c.at)
    {
      if !IsReadable(c.ref) {
        return Raised(UnreadableRecord);
      }
      var prior := records[c.ref];
      if prior.Status(wall) != Active {
        return Raised(NotActive);
      }
      if c.at <= prior.issuedAt {
        return Raised(InvalidTime);
      }
      var r := Replacement(prior, c);
      if !r.Valid() {
        return Raised(InvalidInput);
      }
      var blob := Blob(r, c.key, c.nonce);
      var journal := Journal(c.rotationId, prior.ref, prior.version, prior.fingerprint, r, Sha256(blob));
      var ws := [PutJournal(c.rotationId, journal), PutBlob(r.ref, blob), PutRecord(r, Some(prior.ref)),
                 PutRecord(prior.(revokedAt := Some(c.at)), None)];
      ghost var d, l := Contents(), life;
      ghost var log, close := AppendOnce(audit, RotatedEvent, r, Rotation(c.rotationId), wall), [DropJournal(c.rotationId)];
      assert RotatePlan(d, c, wall) == Go(ws + log + close);
      RotationAudit(d, ws);
      hide *;
      var done := PerformAll(ws);
      ghost var d1, l1, o1 := Contents(), life, done;
      if done.Done? {
        Succeeded(d, l, Go(ws), d1, l1, o1);
        done := AppendAuditOnce(RotatedEvent, r, Rotation(c.rotationId), wall);
      }
      ghost var d2, l2, o2 := Contents(), life, done;
      Chained(d, l, ws, d1, l1, o1, log, d2, l2, o2);
      if done.Done? {
        done := PerformAll([DropJournal(c.rotationId)]);
      }
      Chained(d, l, ws + log, d2, l2, o2, close, Contents(), life, done);
      out := Finish(done, r);
      Finished(d, l, ws + log + close, Contents(), life, done, r);
      RotatedRecords(d, l, c, wall, Contents(), life, out);
    }

    method Destroy(r: Record, wall: Time) returns (out: Outcome<()>)
      requires r.destroyedAt.Some?
      modifies this
      ensures Executed(old(Contents()), old(life), DestroyPlan(old(Contents()), r, wall), Contents(), life, out)
    {
      ghost var d, l := Contents(), life;
      ghost var op := Offboarding(r.ref, r.destroyedAt.value);
      ghost var removal, log := RuntimeRemoval(d, r.ref), Go(AppendOnce(audit, OffboardedEvent, r, op, wall));
      DestroyIsThen(d, r, wall);
      out := PerformAll([DropBlob(r.ref)]);
      ghost var d1, l1, o1 := Contents(), life, out;
      if !out.Done? {
        Stopped(d, l, Go([DropBlob(r.ref)]), d1, l1, o1, Then(removal, log), out);
        return;
      }
      PlayOne(d, DropBlob(r.ref));
      assert d1 == d.(blobs := d.blobs - {r.ref});
      assert RuntimeRemoval(d1, r.ref) == removal;
      RemovalAudit(d1, r.ref);
      hide *;
      out := RemoveRuntimeMaterializations(r.ref);
      ghost var d2, l2, o2 := Contents(), life, out;
      if !out.Done? {
        Stopped(d1, l1, removal, d2, l2, o2, log, out);
      } else {
        Succeeded(d1, l1, removal, d2, l2, o2);
        out := AppendAuditOnce(OffboardedEvent, r, Offboarding(r.ref, r.destroyedAt.value), wall);
        Sequenced(d1, l1, removal, d2, l2, o2, log, Contents(), life, out);
      }
      Sequenced(d, l, Go([DropBlob(r.ref)]), d1, l1, o1, Then(removal, log), Contents(), life, out);
    }

    method OffboardUnlocked(c: Call, wall: Time) returns (out: Outcome<()>)
      requires c.Offboard?
      modifies this
      ensures Executed(old(Contents()), old(life), OffboardPlan(old(Contents()), c, wall), Contents(), life, out)
    {
      if !IsReadable(c.ref) {
        return Raised(UnreadableRecord);
      }
      var r := records[c.ref];
      if r.destroyedAt.Some? {
        out := Destroy(r, wall);
        return;
      }
      if c.at < r.issuedAt {
        return Raised(InvalidTime);
      }
      var destroyed := DestroyedRecord(r, c.at);
      ghost var d, l := Contents(), life;
      ghost var put, rest := Go([PutRecord(destroyed, None)]), DestroyPlan(d, destroyed, wall);
      assert OffboardPlan(d, c, wall) == Then(put, rest);
      out := PerformAll([PutRecord(destroyed, None)]);
      ghost var d1, l1, o1 := Contents(), life, out;
      if out.Done? {
        PlayOne(d, PutRecord(destroyed, None));
        assert d1.runtime == d.runtime && d1.audit == d.audit;
        assert DestroyPlan(d1, destroyed, wall) == rest;
        hide *;
        out := Destroy(destroyed, wall);
        Sequenced(d, l, put, d1, l1, o1, rest, Contents(), life, out);
      } else {
        Stopped(d, l, put, d1, l1, o1, rest, out);
      }
    }

    // ----- Calls -----

    /** A new process, with `writes` writes to live, opens the directories. */
    method Reopen(writes: nat, m: Moment) returns (out: Outcome<()>)
      modifies this
      ensures Executed(old(Contents()), writes, CallPlan(old(Contents()), Open, m), Contents(), life, out)
    {
      life := writes;
      out := RecoverStaleRuntime(m.procs);
      ghost var p := StaleRecovery(old(Contents()), m.procs);
      assert Then(p, Go([])) == p by { assert p.writes + [] == p.writes; }
      OpensOnly(old(Contents()), m);
    }

    method Get(ref: Ref, m: Moment) returns (out: Outcome<Record>)
      modifies this
      ensures Executed(old(Contents()), old(life), CallPlan(old(Contents()), Call.Get(ref), m), Contents(), life, out)
      ensures out.Done? ==> ref in records && out.value == records[ref]
    {
      ghost var d, l := Contents(), life;
      var done := RecoverPendingRotations(m.wall);
      ghost var e, mid := Contents(), life;
      ghost var body := AfterJournals(Play(d, Recovery(d, m.wall).writes), Call.Get(ref), m);
      if !done.Done? {
        out := if done.Died? then Died else Raised(done.failure);
        Stopped(d, l, Recovery(d, m.wall), e, mid, done, body, out);
        return;
      }
      out := if IsReadable(ref) then Done(records[ref]) else Raised(UnreadableRecord);
      Sequenced(d, l, Recovery(d, m.wall), e, mid, done, body, Contents(), life, out);
    }

    method StorePrivateKey(c: Call, m: Moment) returns (out: Outcome<Record>)
      requires c.Store?
      modifies this
      ensures Executed(old(Contents()), old(life), CallPlan(old(Contents()), c, m), Contents(), life, out)
      ensures out.Done? ==> out.value == Created(c) && c.ref in records && records[c.ref] == out.value
      ensures out.Done? ==> c.ref in blobs && blobs[c.ref] == Blob(out.value, c.key, c.nonce)
    {
      if !Created(c).Valid() {
        return Raised(InvalidInput);
      }
      ghost var d, l := Contents(), life;
      ghost var body := AfterJournals(Play(d, Recovery(d, m.wall).writes), c, m);
      var done := RecoverPendingRotations(m.wall);
      ghost var e, mid := Contents(), life;
      if !done.Done? {
        out := if done.Died? then Died else Raised(done.failure);
        Stopped(d, l, Recovery(d, m.wall), e, mid, done, body, out);
        return;
      }
      out := PersistNew(c, m.wall);
      Sequenced(d, l, Recovery(d, m.wall), e, mid, done, body, Contents(), life, out);
    }

    method Materialize(c: Call, m: Moment) returns (out: Outcome<string>)
      requires c.Materialize?
      modifies this
      ensures Executed(old(Contents()), old(life), CallPlan(old(Contents()), c, m), Contents(), life, out)
      ensures out.Done? ==> out.value == KeyName(c.token)
    {
      ghost var d, l := Contents(), life;
      ghost var recovery := Recovery(d, m.wall);
      ghost var stale := StaleRecovery(Play(d, recovery.writes), m.procs);
      ghost var body := BodyPlan(Play(Play(d, recovery.writes), stale.writes), c, m);
      assert CallPlan(d, c, m) == Then(recovery, Then(stale, body));
      var done := RecoverPendingRotations(m.wall);
      ghost var e, mid := Contents(), life;
      if !done.Done? {
        out := if done.Died? then Died else Raised(done.failure);
        Stopped(d, l, recovery, e, mid, done, Then(stale, body), out);
        return;
      }
      var again := RecoverStaleRuntime(m.procs);
      ghost var f, late := Contents(), life;
      if !again.Done? {
        out := if again.Died? then Died else Raised(again.failure);
        Stopped(e, mid, stale, f, late, again, body, out);
      } else {
        out := MaterializeUnlocked(c, m);
        Sequenced(e, mid, stale, f, late, again, body, Contents(), life, out);
      }
      Sequenced(d, l, recovery, e, mid, done, Then(stale, body), Contents(), life, out);
    }

    method Release(c: Call, m: Moment) returns (out: Outcome<()>)
      requires c.Release?
      modifies this
      ensures Executed(old(Contents()), old(life), CallPlan(old(Contents()), c, m), Contents(), life, out)
    {
      ghost var d, l := Contents(), life;
      ghost var body := AfterJournals(Play(d, Recovery(d, m.wall).writes), c, m);
      out := RecoverPendingRotations(m.wall);
      ghost var e, mid, done := Contents(), life, out;
      if !out.Done? {
        Stopped(d, l, Recovery(d, m.wall), e, mid, done, body, out);
        return;
      }
      out := PerformAll(TokenRemoval(c.ref, c.token) + [DropScope(c.ref)]);
      Sequenced(d, l, Recovery(d, m.wall), e, mid, done, body, Contents(), life, out);
    }

    method Revoke(c: Call, m: Moment) returns (out: Outcome<Record>)
      requires c.Revoke?
      modifies this
      ensures Executed(old(Contents()), old(life), CallPlan(old(Contents()), c, m), Contents(), life, out)
      ensures out.Done? ==> out.value.ref == c.ref && out.value.revokedAt == Some(c.at)
      ensures out.Done? ==> c.ref in records && records[c.ref] == out.value
    {
      ghost var d, l := Contents(), life;
      ghost var body := AfterJournals(Play(d, Recovery(d, m.wall).writes), c, m);
      var done := RecoverPendingRotations(m.wall);
      ghost var e, mid := Contents(), life;
      if !done.Done? {
        out := if done.Died? then Died else Raised(done.failure);
        Stopped(d, l, Recovery(d, m.wall), e, mid, done, body, out);
        return;
      }
      out := RevokeUnlocked(c, m.wall);
      Sequenced(d, l, Recovery(d, m.wall), e, mid, done, body, Contents(), life, out);
    }

    method Rotate(c: Call, m: Moment) returns (out: Outcome<Record>)
      requires c.Rotate?
      modifies this
      ensures Executed(old(Contents()), old(life), CallPlan(old(Contents()), c, m), Contents(), life, out)
      ensures out.Done? ==> out.value.ref == c.newRef && out.value.fingerprint == FingerprintOf(c.key)
      ensures out.Done? && c.newRef != c.ref ==>
                c.newRef in records && records[c.newRef] == out.value
                && c.ref in records && records[c.ref].revokedAt == Some(c.at)
    {
      ghost var d, l := Contents(), life;
      ghost var body := AfterJournals(Play(d, Recovery(d, m.wall).writes), c, m);
      var done := RecoverPendingRotations(m.wall);
      ghost var e, mid := Contents(), life;
      if !done.Done? {
        out := if done.Died? then Died else Raised(done.failure);
        Stopped(d, l, Recovery(d, m.wall), e, mid, done, body, out);
        return;
      }
      out := RotateUnlocked(c, m.wall);
      Sequenced(d, l, Recovery(d, m.wall), e, mid, done, body, Contents(), life, out);
    }

    /** The receipt says whether there was a blob to remove, and nothing else that varies. */
    method Offboard(c: Call, m: Moment) returns (out: Outcome<OffboardingReceipt>)
      requires c.Offboard?
      modifies this
      ensures Executed(old(Contents()), old(life), CallPlan(old(Contents()), c, m), Contents(), life, out)
      ensures out.Done? ==> out.value == OffboardingReceipt(c.ref, true, old(c.ref in blobs), true, true, true, true)
    {
      ghost var d, l := Contents(), life;
      ghost var body := AfterJournals(Play(d, Recovery(d, m.wall).writes), c, m);
      var recovered := RecoverPendingRotations(m.wall);
      ghost var e, mid := Contents(), life;
      if !recovered.Done? {
        out := if recovered.Died? then Died else Raised(recovered.failure);
        Stopped(d, l, Recovery(d, m.wall), e, mid, recovered, body, out);
        return;
      }
      RecoveryKeepsBlobs(d, l, m.wall, e, mid, recovered);
      var removed := c.ref in blobs;
      var done := OffboardUnlocked(c, m.wall);
      out := Finish(done, OffboardingReceipt(c.ref, true, removed, true, true, true, true));
      FinishedAny(e, mid, body, Contents(), life, done, out);
      Sequenced(d, l, Recovery(d, m.wall), e, mid, recovered, body, Contents(), life, out);
    }
  }

  datatype OffboardingReceipt = OffboardingReceipt(
    ref: Ref, revoked: bool, encryptedBlobRemoved: bool, runtimeFilesRemoved: bool,
    localPrivateMaterialRemoved: bool, oldKeyUsable: bool, auditRecorded: bool)

  lemma RecoveryKeepsBlobs(d: Disk, life: nat, wall: Time, e: Disk, left: nat, out: Outcome<()>)
    requires Executed(d, life, Recovery(d, wall), e, left, out) && out.Done?
    ensures e.blobs == d.blobs
  {
    VaultTheorems.RecoveryWritesOnly(d, Sorted(d.journals.Keys), wall);
    VaultTheorems.RecoveryWritesLeave(d, Recovery(d, wall).writes);
  }

  /** Another value does not change what was carried out. */
  lemma FinishedAny<T>(d: Disk, life: nat, p: Plan, e: Disk, left: nat, done: Outcome<()>, out: Outcome<T>)
    requires Executed(d, life, p, e, left, done)
    requires match done case Done(_) => out.Done? case Raised(f) => out == Raised(f) case Died => out.Died?
    ensures Executed(d, life, p, e, left, out)
  {
  }

  predicate Matches(line: Option<Event>, kind: EventKind, r: Record, op: Operation, wall: Time) {
    line.Some? && Records(line.value, kind, r, op, wall)
  }

  /** A matching line with only whole and authentic lines before it. */
  predicate FoundIn(lines: seq<Option<Event>>, kind: EventKind, r: Record, op: Operation, wall: Time) {
    exists i :: 0 <= i < |lines| && Matches(lines[i], kind, r, op, wall) && forall k | 0 <= k < i :: lines[k].Some?
  }

  predicate DamagedBeforeMatch(lines: seq<Option<Event>>, kind: EventKind, r: Record, op: Operation, wall: Time) {
    exists i :: 0 <= i < |lines| && lines[i].None? &&
                forall k | 0 <= k < i :: lines[k].Some? && !Matches(lines[k], kind, r, op, wall)
  }

  lemma LinesAreEvents(audit: seq<Event>, lines: seq<Option<Event>>, kind: EventKind, r: Record, op: Operation,
                       wall: Time)
    requires |lines| == |audit| && forall i | 0 <= i < |audit| :: lines[i] == Some(audit[i])
    ensures !DamagedBeforeMatch(lines, kind, r, op, wall)
    ensures FoundIn(lines, kind, r, op, wall) <==> Logged(audit, kind, r, op, wall)
  {
    hide Records;
    if Logged(audit, kind, r, op, wall) {
      var i :| 0 <= i < |audit| && Records(audit[i], kind, r, op, wall);
      assert Matches(lines[i], kind, r, op, wall);
    }
  }

  function Finish<T>(done: Outcome<()>, value: T): Outcome<T> {
    match done
    case Done(_) => Done(value)
    case Raised(f) => Raised(f)
    case Died => Died
  }

  lemma Finished<T>(d: Disk, life: nat, ws: seq<Write>, e: Disk, left: nat, done: Outcome<()>, value: T)
    requires Executed(d, life, Go(ws), e, left, done)
    ensures Executed(d, life, Go(ws), e, left, Finish(done, value))
    ensures Finish(done, value).Done? ==> Finish(done, value).value == value
  {
  }

  /** A rotation that was carried out leaves its replacement and the revoked source. */
  lemma RotatedRecords(d: Disk, life: nat, c: Call, wall: Time, e: Disk, left: nat, out: Outcome<Record>)
    requires c.Rotate? && Executed(d, life, RotatePlan(d, c, wall), e, left, out)
    ensures out.Done? ==>
              c.newRef in e.records && c.ref in d.records && c.ref in e.records
              && (c.newRef != c.ref ==> e.records[c.newRef] == Replacement(d.records[c.ref], c)
                                        && e.records[c.ref].revokedAt == Some(c.at))
  {
    if out.Done? { VaultOutcomes.RotateRecords(d, c, wall); }
  }

  lemma RotationAudit(d: Disk, ws: seq<Write>)
    requires |ws| == 4 && ws[0].PutJournal? && ws[1].PutBlob? && ws[2].PutRecord? && ws[3].PutRecord?
    ensures Play(d, ws).audit == d.audit
  {
    RecordsOnly(Apply(Apply(d, ws[0]), ws[1]), ws[2..]);
    assert ws[1..][1..] == ws[2..];
  }

  lemma {:induction false} RemovalAuditOf(d: Disk, ref: Ref, names: seq<string>)
    ensures Play(d, RemovalPlan(ref, names).writes).audit == d.audit
    decreases |names|
  {
    if names != [] && IsRuntimeName(names[0]) {
      RemovalAuditOf(Apply(d, DropRuntime(ref, names[0])), ref, names[1..]);
    }
  }

  lemma RemovalAudit(d: Disk, ref: Ref)
    ensures Play(d, RuntimeRemoval(d, ref).writes).audit == d.audit
  {
    if ref in d.runtime {
      RemovalAuditOf(d, ref, Sorted(d.runtime[ref].Keys));
    }
  }

  lemma DestroyIsThen(d: Disk, r: Record, wall: Time)
    requires r.destroyedAt.Some?
    ensures DestroyPlan(d, r, wall) ==
              Then(Go([DropBlob(r.ref)]),
                   Then(RuntimeRemoval(d, r.ref),
                        Go(AppendOnce(d.audit, OffboardedEvent, r, Offboarding(r.ref, r.destroyedAt.value), wall))))
  {
    var removal := RuntimeRemoval(d, r.ref);
    var log := AppendOnce(d.audit, OffboardedEvent, r, Offboarding(r.ref, r.destroyedAt.value), wall);
    assert [DropBlob(r.ref)] + removal.writes + log == [DropBlob(r.ref)] + (removal.writes + log);
  }

  lemma PlayOne(d: Disk, w: Write)
    ensures Play(d, [w]) == Apply(d, w)
  {
    assert Play(Apply(d, w), [w][1..]) == Apply(d, w);
  }

  lemma OpensOnly(d: Disk, m: Moment)
    ensures CallPlan(d, Open, m) == Then(StaleRecovery(d, m.procs), Go([]))
  {
  }

  /** Before the first scope nothing is done. */
  lemma ScopesBegin(d: Disk, life: nat, refs: seq<Ref>, procs: Processes, out: Outcome<()>)
    requires refs == Sorted(d.runtime.Keys) && out == Done(())
    ensures forall r | r in refs :: r in d.runtime
    ensures StaleRecovery(d, procs) == Then(Go([]), StaleScopesPlan(d.runtime, refs[0..], procs))
    ensures Executed(d, life, Go([]), d, life, out)
  {
    hide StaleScopesPlan;
    assert refs[0..] == refs;
    var p := StaleScopesPlan(d.runtime, refs, procs);
    assert [] + p.writes == p.writes;
  }

  /** After the last one nothing remains. */
  lemma ScopesEnd(scopes: map<Ref, RuntimeScope>, refs: seq<Ref>, procs: Processes, done: seq<Write>)
    requires forall r | r in refs :: r in scopes
    ensures Then(Go(done), StaleScopesPlan(scopes, refs[|refs|..], procs)) == Go(done)
  {
    assert refs[|refs|..] == [];
    assert done + [] == done;
  }

  lemma NextScope(scopes: map<Ref, RuntimeScope>, refs: seq<Ref>, i: nat, procs: Processes)
    requires i < |refs| && forall r | r in refs :: r in scopes
    ensures StaleScopesPlan(scopes, refs[i..], procs)
         == Then(StaleScopePlan(refs[i], scopes[refs[i]], procs), StaleScopesPlan(scopes, refs[i + 1..], procs))
  {
    assert refs[i..][1..] == refs[i + 1..];
    hide StaleScopePlan;
  }

  lemma NextToken(ref: Ref, files: RuntimeScope, tokens: seq<string>, i: nat, procs: Processes)
    requires i < |tokens|
    ensures StaleTokensPlan(ref, files, tokens[i..], procs)
         == Then(StaleTokenPlan(ref, files, tokens[i], procs), StaleTokensPlan(ref, files, tokens[i + 1..], procs))
  {
    assert tokens[i..][1..] == tokens[i + 1..];
    hide StaleTokenPlan;
  }

  lemma ScopeFails(ref: Ref, files: RuntimeScope, procs: Processes, tokens: seq<string>)
    requires forall name | name in files :: IsRuntimeName(name)
    requires tokens == Sorted(Tokens(files))
    ensures StaleScopePlan(ref, files, procs) == Then(StaleTokensPlan(ref, files, tokens, procs), Go([DropScope(ref)]))
  {
  }

  /** A plan that ended in success raises nothing. */
  lemma Succeeded<T>(d: Disk, life: nat, p: Plan, e: Disk, left: nat, out: Outcome<T>)
    requires Executed(d, life, p, e, left, out) && out.Done?
    ensures p == Go(p.writes) && p.failure.None? && e == Play(d, p.writes)
  {
  }

  lemma ThenAssociates(done: seq<Write>, p: Plan, rest: Plan)
    ensures p.failure.None? ==> Then(Go(done), Then(p, rest)) == Then(Go(done + p.writes), rest)
  {
    assert done + (p.writes + rest.writes) == done + p.writes + rest.writes;
  }

  /** Two lists of writes, the second performed only if the first was. */
  lemma Chained<T>(d: Disk, life: nat, a: seq<Write>, e: Disk, mid: nat, x: Outcome<T>,
                   b: seq<Write>, f: Disk, left: nat, y: Outcome<T>)
    requires Executed(d, life, Go(a), e, mid, x)
    requires if x.Done? then Executed(e, mid, Go(b), f, left, y) else f == e && left == mid && y == x
    ensures Executed(d, life, Go(a + b), f, left, y)
  {
    assert Then(Go(a), Go(b)) == Go(a + b);
    if x.Done? {
      Sequenced(d, life, Go(a), e, mid, x, Go(b), f, left, y);
    } else {
      Stopped(d, life, Go(a), e, mid, x, Go(b), y);
    }
  }

  lemma AuditUntouched<T>(d: Disk, life: nat, ws: seq<Write>, e: Disk, left: nat, out: Outcome<T>)
    requires Executed(d, life, Go(ws), e, left, out) && out.Done?
    requires forall w | w in ws :: w.PutRecord?
    ensures e.audit == d.audit
  {
    RecordsOnly(d, ws);
  }

  lemma {:induction false} RecordsOnly(d: Disk, ws: seq<Write>)
    requires forall w | w in ws :: w.PutRecord?
    ensures Play(d, ws).audit == d.audit
    decreases |ws|
  {
    if ws != [] {
      assert ws[0] in ws;
      RecordsOnly(Apply(d, ws[0]), ws[1..]);
    }
  }
}
