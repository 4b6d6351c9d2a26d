/**
 What the vault refuses on directories it did not leave itself: journals, blobs, leases and runtime
 files that do not fit.  Nothing here assumes the invariant.
 */
module VaultRejections {
  import opened Common
  import opened Listing
  import opened VaultModel
  import opened VaultRuntime
  import opened VaultOutcomes

  /** The record is stored under its own reference with dates and a version that make sense. */
  predicate Coherent(r: Record, ref: Ref) {
    && r.ref == ref && r.version > 0
    && (r.expiresAt.Some? ==> r.expiresAt.value > r.issuedAt)
    && (r.revokedAt.Some? ==> r.revokedAt.value >= r.issuedAt)
    && (r.destroyedAt.Some? ==> r.destroyedAt.value >= r.issuedAt && r.revokedAt != None)
  }

  /** The blob was sealed under exactly this record and holds the key it names. */
  predicate Authentic(d: Disk, r: Record) {
    r.ref in d.blobs && d.blobs[r.ref].metadata == r && FingerprintOf(d.blobs[r.ref].key) == r.fingerprint
  }

  /** The journal names a coherent stored credential and a replacement of it that could follow. */
  predicate Follows(d: Disk, id: Id) {
    && id in d.journals && d.journals[id].rotationId == id
    && var j := d.journals[id];
    && j.oldRef in d.records && Coherent(d.records[j.oldRef], j.oldRef)
    && var prior, next := d.records[j.oldRef], j.replacement;
    && j.oldVersion == prior.version && j.oldFingerprint == prior.fingerprint
    && Coherent(next, next.ref) && next.ref != prior.ref && next.scope == prior.scope
    && next.version == prior.version + 1 && next.issuedAt > prior.issuedAt
    && next.revokedAt == None && next.destroyedAt == None
    && prior.destroyedAt == None
  }

  /** Without the new blob nothing of the rotation may have been published. */
  predicate NotBegun(d: Disk, j: Journal)
    requires j.oldRef in d.records
  {
    && j.replacement.ref !in d.blobs && j.replacement.ref !in d.records
    && d.records[j.oldRef].revokedAt == None
  }

  /** With it, it must be the blob the journal has the digest of, and a published record the journal's. */
  predicate Begun(d: Disk, j: Journal) {
    && Authentic(d, j.replacement) && j.digest.of == d.blobs[j.replacement.ref]
    && (j.replacement.ref in d.records ==> d.records[j.replacement.ref] == j.replacement)
  }

  /** On any directories, recovery rolls a rotation back exactly when it has not begun and forward
      exactly when its blob and records are the journal's own; every other journal is refused, and
      then nothing is written. */
  lemma JournalsAccepted(d: Disk, id: Id, wall: Time)
    ensures var p := JournalPlan(d, id, wall);
            && (p.failure.None? <==> Follows(d, id) && (NotBegun(d, d.journals[id]) || Begun(d, d.journals[id])))
            && (p.failure.Some? ==> p.writes == [])
            && (p.failure.None? && NotBegun(d, d.journals[id]) ==> p.writes == [DropJournal(id)])
            && (p.failure.None? && Begun(d, d.journals[id]) ==> p.writes != [] && p.writes[|p.writes| - 1] == DropJournal(id))
  {
    hide AppendOnce, PublishWrites;
  }

  /** On any directories, a key is handed out only for a coherent, usable record whose blob was sealed
      under that very record and holds the key it names. */
  lemma OnlyAuthenticKeys(d: Disk, c: Call, m: Moment)
    requires c.Materialize?
    ensures MaterializePlan(d, c, m).failure.None? ==>
              && c.ref in d.records && Coherent(d.records[c.ref], c.ref) && Authentic(d, d.records[c.ref])
              && d.records[c.ref].destroyedAt == None && d.records[c.ref].revokedAt == None
              && (d.records[c.ref].expiresAt.Some? ==> m.wall < d.records[c.ref].expiresAt.value)
              && PutRuntime(c.ref, c.token + ".key", KeyFile(d.blobs[c.ref].key)) in MaterializePlan(d, c, m).writes
  {
    if MaterializePlan(d, c, m).failure.None? {
      assert MaterializePlan(d, c, m).writes[2] == PutRuntime(c.ref, c.token + ".key", KeyFile(d.blobs[c.ref].key));
    }
  }

  // ----- Runtime files -----

  predicate Named(name: string, token: string) {
    |token| == 32 && (name == token + ".key" || name == token + ".lease")
  }

  /** A file that is no token's, or a token's pair whose lease does not describe it. */
  ghost predicate Foreign(ref: Ref, files: RuntimeScope) {
    || (exists name :: name in files && forall token :: !Named(name, token))
    || (exists token: string {:trigger BadLease(ref, files, token)} :: |token| == 32 && BadLease(ref, files, token))
  }

  predicate BadLease(ref: Ref, files: RuntimeScope, token: string) {
    && token + ".key" in files && token + ".lease" in files
    && match files[token + ".lease"]
       case KeyFile(_) => true
       case LeaseFile(lease) => lease.pid == 0 || lease.scope != ref || lease.runtimeFile != token + ".key"
  }

  lemma NamedIsRuntime(name: string)
    ensures IsRuntimeName(name) <==> exists token :: Named(name, token)
  {
    if IsRuntimeName(name) { assert Named(name, name[..TOKEN_LENGTH]); }
    forall token | Named(name, token) ensures IsRuntimeName(name) { NameFacts(token); }
  }

  lemma {:induction false} TokensRejected(ref: Ref, files: RuntimeScope, tokens: seq<string>, procs: Processes)
    ensures var p := StaleTokensPlan(ref, files, tokens, procs);
            && (p.failure.Some? <==> exists i :: 0 <= i < |tokens| && BadLease(ref, files, tokens[i]))
            && (p.failure.Some? ==> p.failure == Some(RuntimeRejected))
  {
    hide BadLease;
    if tokens != [] {
      TokensRejected(ref, files, tokens[1..], procs);
      TokenRejected(ref, files, tokens[0], procs);
      hide StaleTokenPlan;
      assert forall i | 0 <= i < |tokens| - 1 :: tokens[1..][i] == tokens[i + 1];
      assert forall i | 0 < i < |tokens| :: tokens[i] == tokens[1..][i - 1];
    }
  }

  lemma TokenRejected(ref: Ref, files: RuntimeScope, token: string, procs: Processes)
    ensures var p := StaleTokenPlan(ref, files, token, procs);
            (p.failure.Some? <==> BadLease(ref, files, token)) && (p.failure.Some? ==> p.failure == Some(RuntimeRejected))
  {
  }

  /** Sweeping a scope is refused exactly when it holds something foreign. */
  lemma ForeignFilesRejected(ref: Ref, files: RuntimeScope, procs: Processes)
    ensures var p := StaleScopePlan(ref, files, procs);
            && (p.failure.Some? <==> Foreign(ref, files))
            && (p.failure.Some? ==> p.failure == Some(RuntimeRejected))
  {
    forall name ensures IsRuntimeName(name) <==> exists token :: Named(name, token) { NamedIsRuntime(name); }
    var tokens := Sorted(Tokens(files));
    TokensRejected(ref, files, tokens, procs);
    forall token: string | |token| == 32 && BadLease(ref, files, token) ensures token in Tokens(files) {
      NameFacts(token);
      assert KeyName(token) in files && KeyName(token)[..TOKEN_LENGTH] == token;
    }
    forall token | token in Tokens(files) ensures |token| == 32 && token in tokens {
    }
    hide IsRuntimeName, StaleTokensPlan, BadLease, Named, Tokens, Sorted;
    if exists i :: 0 <= i < |tokens| && BadLease(ref, files, tokens[i]) {
      var i :| 0 <= i < |tokens| && BadLease(ref, files, tokens[i]);
      assert tokens[i] in tokens;
    }
  }

  lemma {:induction false} UnknownStops(ref: Ref, names: seq<string>)
    ensures RemovalPlan(ref, names).failure ==
              if exists i :: 0 <= i < |names| && !IsRuntimeName(names[i]) then Some(RuntimeRejected) else None
  {
    hide IsRuntimeName;
    if names != [] {
      UnknownStops(ref, names[1..]);
      assert forall i | 0 <= i < |names| - 1 :: names[1..][i] == names[i + 1];
      assert forall i | 0 < i < |names| :: names[i] == names[1..][i - 1];
    }
  }

  /** Offboarding refuses to finish exactly when the scope holds a file that is no token's. */
  lemma UnknownFilesStopRemoval(d: Disk, ref: Ref)
    ensures RuntimeRemoval(d, ref).failure ==
              if ref in d.runtime && exists name :: name in d.runtime[ref] && forall token :: !Named(name, token)
              then Some(RuntimeRejected) else None
  {
    if ref in d.runtime {
      var names := Sorted(d.runtime[ref].Keys);
      UnknownStops(ref, names);
      forall name ensures IsRuntimeName(name) <==> exists token :: Named(name, token) { NamedIsRuntime(name); }
      hide IsRuntimeName, Named;
      if exists i :: 0 <= i < |names| && !IsRuntimeName(names[i]) {
        var i :| 0 <= i < |names| && !IsRuntimeName(names[i]);
        assert names[i] in names;
      }
    }
  }

  // ----- Effects on any directories -----

  /** A journal that is rolled forward publishes its replacement, revokes its source unless it was
      revoked, logs the rotation once and is removed, whatever else the directories hold. */
  lemma ForwardOutcome(d: Disk, id: Id, wall: Time)
    requires Follows(d, id) && Begun(d, d.journals[id])
    ensures var j := d.journals[id];
            var prior, next := d.records[j.oldRef], j.replacement;
            Play(d, JournalPlan(d, id, wall).writes) == d.(
              records := d.records[next.ref := next][
                j.oldRef := prior.(revokedAt := if prior.revokedAt == None then Some(next.issuedAt) else prior.revokedAt)],
              lineage := if next.ref in d.records then d.lineage else d.lineage[next.ref := j.oldRef],
              journals := d.journals - {id},
              audit := Once(d.audit, Event(RotatedEvent, next.ref, next.scope.tenant, next.scope.application,
                                           next.scope.target, next.version, next.fingerprint,
                                           Unrevoked(next.expiresAt, wall), wall, Some(Rotation(id)))))
  {
    hide Play, Apply, Once, AppendOnce, Begun, PublishWrites, RevokeWrites, Coherent, JournalPlan, Unrevoked;
    var j := d.journals[id];
    ForwardShape(d, id, wall);
    var a, b, c := PublishWrites(d, j), RevokeWrites(d, j), AppendOnce(d.audit, RotatedEvent, j.replacement, Rotation(id), wall);
    PlayAppend(d, a + b + c, [DropJournal(id)]);
    PlayAppend(d, a + b, c);
    PlayAppend(d, a, b);
    Published(d, j);
    Revoked(d, Play(d, a), j);
    LoggedAndClosed(d, Play(Play(d, a), b), j.replacement, id, wall);
  }

  lemma ForwardShape(d: Disk, id: Id, wall: Time)
    requires Follows(d, id) && Begun(d, d.journals[id])
    ensures var j := d.journals[id];
            && JournalPlan(d, id, wall).writes ==
                 PublishWrites(d, j) + RevokeWrites(d, j)
                 + AppendOnce(d.audit, RotatedEvent, j.replacement, Rotation(id), wall) + [DropJournal(id)]
            && d.records[j.oldRef].ref == j.oldRef && j.replacement.ref != j.oldRef
            && (j.replacement.ref in d.records ==> d.records[j.replacement.ref] == j.replacement)
            && j.replacement.destroyedAt == None && j.replacement.revokedAt == None
  {
    JournalsAccepted(d, id, wall);
    hide AppendOnce, PublishWrites, RevokeWrites;
  }

  lemma LoggedAndClosed(d: Disk, e: Disk, next: Record, id: Id, wall: Time)
    requires e.audit == d.audit && e.journals == d.journals && next.destroyedAt == None && next.revokedAt == None
    ensures var c := AppendOnce(d.audit, RotatedEvent, next, Rotation(id), wall);
            Play(Play(e, c), [DropJournal(id)]) == e.(
              journals := d.journals - {id},
              audit := Once(d.audit, Event(RotatedEvent, next.ref, next.scope.tenant, next.scope.application,
                                           next.scope.target, next.version, next.fingerprint,
                                           Unrevoked(next.expiresAt, wall), wall, Some(Rotation(id)))))
  {
    var c := AppendOnce(d.audit, RotatedEvent, next, Rotation(id), wall);
    RecordsOnce(d.audit, RotatedEvent, next, Rotation(id), wall);
    hide Play, AppendOnce;
    OneOrNone(e, c);
    PlayOne(Play(e, c), DropJournal(id));
    OnceAppends(d.audit, Event(RotatedEvent, next.ref, next.scope.tenant, next.scope.application, next.scope.target,
                               next.version, next.fingerprint, next.Status(wall), wall, Some(Rotation(id))));
    hide Once;
  }

  lemma OnceAppends(log: seq<VaultModel.Event>, e: VaultModel.Event)
    ensures Once(log, e) == log || Once(log, e) == log + [e]
  {
  }

  lemma OneOrNone(d: Disk, ws: seq<Write>)
    requires |ws| <= 1
    ensures Play(d, ws) == if ws == [] then d else Apply(d, ws[0])
  {
    if ws != [] {
      PlayOne(d, ws[0]);
      assert ws == [ws[0]];
    }
  }

  lemma Published(d: Disk, j: Journal)
    requires j.replacement.ref in d.records ==> d.records[j.replacement.ref] == j.replacement
    ensures var next := j.replacement;
            Play(d, PublishWrites(d, j)) == d.(
              records := d.records[next.ref := next],
              lineage := if next.ref in d.records then d.lineage else d.lineage[next.ref := j.oldRef])
  {
    hide Play;
    OneOrNone(d, PublishWrites(d, j));
    if j.replacement.ref in d.records { assert d.records[j.replacement.ref := j.replacement] == d.records; }
  }

  lemma Revoked(d: Disk, e: Disk, j: Journal)
    requires j.oldRef in d.records && d.records[j.oldRef].ref == j.oldRef && j.replacement.ref != j.oldRef
    requires e.records == d.records[j.replacement.ref := j.replacement]
    ensures var prior := d.records[j.oldRef];
            Play(e, RevokeWrites(d, j)) == e.(
              records := e.records[j.oldRef := prior.(
                revokedAt := if prior.revokedAt == None then Some(j.replacement.issuedAt) else prior.revokedAt)])
  {
    hide Play;
    OneOrNone(e, RevokeWrites(d, j));
    var prior := d.records[j.oldRef];
    if prior.revokedAt.Some? { assert e.records[j.oldRef := prior] == e.records; }
  }

  /** The files of a scope after the sweep. */
  ghost predicate Kept(before: RuntimeScope, after: RuntimeScope, tokens: set<string>, procs: Processes) {
    && (forall name | name in after :: name in before && after[name] == before[name])
    && (forall name | name in before ::
          name in after <==> !exists token :: token in tokens && Named(name, token) && !Held(before, token, procs))
  }

  lemma SweptIsKept(files: RuntimeScope, tokens: set<string>, procs: Processes)
    requires forall token | token in tokens :: |token| == TOKEN_LENGTH
    ensures Kept(files, VaultRuntime.Swept(files, tokens, procs), tokens, procs)
  {
    var after := VaultRuntime.Swept(files, tokens, procs);
    forall name | name in files
      ensures name in after <==> !exists token :: token in tokens && Named(name, token) && !Held(files, token, procs)
    {
      if IsRuntimeName(name) { assert Named(name, name[..TOKEN_LENGTH]); }
      forall token | Named(name, token) ensures IsRuntimeName(name) && name[..TOKEN_LENGTH] == token { NameFacts(token); }
      hide Named, IsRuntimeName;
    }
  }

  /** Sweeping one token removes what there is of it, a key or a lease without the other included, unless
      both are there and the lease is live. */
  lemma TokenSwept(d: Disk, ref: Ref, token: string, procs: Processes)
    requires ref in d.runtime && |token| == TOKEN_LENGTH && !BadLease(ref, d.runtime[ref], token)
    ensures var p := StaleTokenPlan(ref, d.runtime[ref], token, procs);
            p.failure == None
            && Play(d, p.writes) == WithScope(d, ref, VaultRuntime.Swept(d.runtime[ref], {token}, procs))
  {
    var files := d.runtime[ref];
    var key, lease := KeyName(token), LeaseName(token);
    NameFacts(token);
    SweptOne(files, token, procs);
    var p := StaleTokenPlan(ref, files, token, procs);
    assert d.runtime[ref := files] == d.runtime;
    NothingPlayed(d);
    PlayOne(d, DropRuntime(ref, key));
    PlayOne(d, DropRuntime(ref, lease));
    PlayPair(d, DropRuntime(ref, key), DropRuntime(ref, lease));
    hide Play, VaultRuntime.Swept;
    assert key !in files ==> files - {key} == files;
    assert lease !in files ==> files - {key} - {lease} == files - {key};
    Overwritten(d.runtime, ref, files - {key}, files - {key} - {lease});
  }

  /** So does sweeping them all, in any order. */
  lemma {:induction false} TokensSwept(d: Disk, ref: Ref, files: RuntimeScope, tokens: seq<string>, procs: Processes)
    requires ref in d.runtime && InOrder(tokens)
    requires forall t | t in tokens :: |t| == TOKEN_LENGTH && AgreeOn(files, d.runtime[ref], t) && !BadLease(ref, files, t)
    ensures var p := StaleTokensPlan(ref, files, tokens, procs);
            p.failure == None
            && Play(d, p.writes) == WithScope(d, ref, VaultRuntime.Swept(d.runtime[ref], (set t | t in tokens), procs))
    decreases |tokens|
  {
    hide StaleTokenPlan, Survives, AgreeOn, Play, BadLease;
    var now := d.runtime[ref];
    if tokens == [] {
      assert (set t | t in tokens) == {};
      assert VaultRuntime.Swept(now, {}, procs) == now;
      assert d.runtime[ref := now] == d.runtime;
      NothingPlayed(d);
    } else {
      var t := tokens[0];
      BadLeaseLocal(ref, files, now, t);
      StaleTokenLocal(ref, files, now, t, procs);
      TokenSwept(d, ref, t, procs);
      var p := StaleTokenPlan(ref, files, t, procs);
      var e := Play(d, p.writes);
      FirstIsGone(tokens);
      forall u | u in tokens[1..] ensures AgreeOn(files, e.runtime[ref], u) && |u| == TOKEN_LENGTH && !BadLease(ref, files, u) {
        assert u in tokens && u != t;
        OthersUntouched(files, now, t, u, procs);
      }
      TokensSwept(e, ref, files, tokens[1..], procs);
      PlayAppend(d, p.writes, StaleTokensPlan(ref, files, tokens[1..], procs).writes);
      SweptTwice(now, {t}, (set u | u in tokens[1..]), procs);
      assert {t} + (set u | u in tokens[1..]) == set u | u in tokens;
      Overwritten(d.runtime, ref, e.runtime[ref], VaultRuntime.Swept(now, (set u | u in tokens), procs));
    }
  }

  lemma BadLeaseLocal(ref: Ref, a: RuntimeScope, b: RuntimeScope, token: string)
    requires AgreeOn(a, b, token)
    ensures BadLease(ref, a, token) == BadLease(ref, b, token)
  {
  }

  /** The files of held tokens, as they were. */
  ghost predicate HeldFiles(before: RuntimeScope, after: RuntimeScope, procs: Processes) {
    && (forall name | name in after :: name in before && after[name] == before[name])
    && (forall name | name in before :: name in after <==> exists token :: Named(name, token) && Held(before, token, procs))
  }

  lemma TokensOf(ref: Ref, files: RuntimeScope, procs: Processes) returns (tokens: seq<string>)
    requires !Foreign(ref, files)
    ensures InOrder(tokens) && (set t | t in tokens) == Tokens(files)
    ensures forall t | t in tokens :: |t| == TOKEN_LENGTH && AgreeOn(files, files, t) && !BadLease(ref, files, t)
    ensures StaleScopePlan(ref, files, procs) ==
              Then(StaleTokensPlan(ref, files, tokens, procs), Go([DropScope(ref)]))
  {
    forall name | name in files ensures IsRuntimeName(name) { NamedIsRuntime(name); }
    tokens := Sorted(Tokens(files));
    SortedInOrder(Tokens(files));
    forall t | t in tokens ensures |t| == TOKEN_LENGTH && AgreeOn(files, files, t) && !BadLease(ref, files, t) {
      hide BadLease;
    }
    hide StaleTokensPlan;
  }

  /** On any directories, sweeping a scope without foreign files keeps exactly the files of held tokens,
      and removes the scope when none is left. */
  lemma ScopeSwept(d: Disk, ref: Ref, procs: Processes) returns (files: RuntimeScope)
    requires ref in d.runtime && !Foreign(ref, d.runtime[ref])
    ensures HeldFiles(d.runtime[ref], files, procs)
    ensures var p := StaleScopePlan(ref, d.runtime[ref], procs);
            && p.failure == None
            && Play(d, p.writes) == d.(runtime := if files == map[] then d.runtime - {ref} else d.runtime[ref := files])
  {
    hide *;
    var before := d.runtime[ref];
    var tokens := TokensOf(ref, before, procs);
    TokensSwept(d, ref, before, tokens, procs);
    files := VaultRuntime.Swept(before, Tokens(before), procs);
    FilesKept(ref, before, procs);
    var p := StaleTokensPlan(ref, before, tokens, procs);
    ScopeClosed(d, ref, files, p.writes);
    ThenGo(p, [DropScope(ref)]);
  }

  lemma ThenGo(p: Plan, ws: seq<Write>)
    requires p.failure == None
    ensures Then(p, Go(ws)) == Go(p.writes + ws)
  {
  }

  lemma ScopeClosed(d: Disk, ref: Ref, files: RuntimeScope, ws: seq<Write>)
    requires ref in d.runtime && Play(d, ws) == WithScope(d, ref, files)
    ensures Play(d, ws + [DropScope(ref)]) == d.(runtime := if files == map[] then d.runtime - {ref} else d.runtime[ref := files])
    ensures Go(ws + [DropScope(ref)]).failure == None && Go(ws + [DropScope(ref)]).writes == ws + [DropScope(ref)]
  {
    hide Play, Apply;
    PlayAppend(d, ws, [DropScope(ref)]);
    PlayOne(Play(d, ws), DropScope(ref));
    EmptyScopeDropped(d, ref, files);
  }

  lemma EmptyScopeDropped(d: Disk, ref: Ref, files: RuntimeScope)
    ensures Apply(WithScope(d, ref, files), DropScope(ref)) ==
              d.(runtime := if files == map[] then d.runtime - {ref} else d.runtime[ref := files])
  {
    assert d.runtime[ref := files] - {ref} == d.runtime - {ref};
  }

  lemma FilesKept(ref: Ref, before: RuntimeScope, procs: Processes)
    requires !Foreign(ref, before)
    ensures HeldFiles(before, VaultRuntime.Swept(before, Tokens(before), procs), procs)
  {
    forall token | token in Tokens(before) ensures |token| == TOKEN_LENGTH {}
    SweptIsKept(before, Tokens(before), procs);
    forall name | name in before ensures exists token :: Named(name, token) {
      assert !(forall token :: !Named(name, token));
    }
    hide VaultRuntime.Swept, Kept, Named, Held, Foreign, Tokens;
    EveryNameHasToken(before, VaultRuntime.Swept(before, Tokens(before), procs), procs);
  }

  lemma EveryNameHasToken(before: RuntimeScope, files: RuntimeScope, procs: Processes)
    requires Kept(before, files, Tokens(before), procs)
    requires forall name | name in before :: exists token :: Named(name, token)
    ensures forall name | name in files :: name in before && files[name] == before[name]
    ensures forall name | name in before ::
              name in files <==> exists token :: Named(name, token) && Held(before, token, procs)
  {
    forall name | name in before
      ensures name in files <==> exists token :: Named(name, token) && Held(before, token, procs)
    {
      var mine :| Named(name, mine);
      NamedIsRuntime(name);
      forall token | Named(name, token) ensures token == mine && token in Tokens(before) {
        NameFacts(token);
        NameFacts(mine);
        assert name[..TOKEN_LENGTH] == token;
      }
      hide Held, Named;
    }
  }
}
