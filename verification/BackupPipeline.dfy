/** The vault and the coordinator in the source's own form: objects whose methods update their fields. */
module BackupPipeline {
  import opened Common
  import opened Listing
  import opened Base64
  import opened BackupModel
  import opened BackupGuarantees
  import opened BackupRestore

  datatype Failure =
    | DuplicateArtifact | VaultError | RetentionLocked | ChecksumMismatch | BackupFailed

  datatype Result<T> = Ok(value: T) | Error(failure: Failure)

  class InMemoryImmutableVault {
    const destination: string
    var artifacts: map<Scope, Artifact>
    var idempotency: map<string, Scope>

    constructor (destination: string)
      ensures this.destination == destination && artifacts == map[] && idempotency == map[]
    {
      this.destination := destination;
      artifacts, idempotency := map[], map[];
    }

    /** Stores an artifact once; a stored artifact is never replaced. */
    method Put(artifact: Artifact, idempotencyKey: string) returns (receipt: Result<(Manifest, Envelope)>)
      modifies this
      ensures var scope := (artifact.manifest.tenant, artifact.manifest.application, artifact.manifest.backupId);
              && (receipt.Ok? <==>
                    && (idempotencyKey in old(idempotency) ==> old(idempotency)[idempotencyKey] == scope)
                    && (scope in old(artifacts) ==> old(artifacts)[scope].digest == artifact.digest))
              && (receipt.Ok? ==> receipt.value == artifact.digest)
              && artifacts == (if receipt.Ok? && scope !in old(artifacts)
                               then old(artifacts)[scope := artifact] else old(artifacts))
              && idempotency == (if receipt.Ok? && scope !in old(artifacts)
                                 then old(idempotency)[idempotencyKey := scope] else old(idempotency))
    {
      var scope := ScopeOf(artifact.manifest);
      if idempotencyKey in idempotency && idempotency[idempotencyKey] != scope { return Error(DuplicateArtifact); }
      if scope in artifacts {
        var existing := artifacts[scope];
        if existing.digest != artifact.digest { return Error(DuplicateArtifact); }
        return Ok(existing.digest);
      }
      artifacts := artifacts[scope := artifact];
      idempotency := idempotency[idempotencyKey := scope];
      return Ok(artifact.digest);
    }

    method Get(scope: Scope) returns (artifact: Result<Artifact>)
      ensures artifact == if scope in artifacts then Ok(artifacts[scope]) else Error(VaultError)
    {
      if scope !in artifacts { return Error(VaultError); }
      return Ok(artifacts[scope]);
    }

    /** Removes an artifact only after its retention deadline. */
    method Delete(scope: Scope, now: nat) returns (failure: Option<Failure>)
      modifies this`artifacts
      ensures failure == None <==> scope in old(artifacts) && old(artifacts)[scope].manifest.retentionUntil <= now
      ensures artifacts == if failure == None then old(artifacts) - {scope} else old(artifacts)
    {
      if scope !in artifacts { return Some(VaultError); }
      if now < artifacts[scope].manifest.retentionUntil { return Some(RetentionLocked); }
      artifacts := artifacts - {scope};
      return None;
    }
  }

  // ----- The coordinator -----

  class RestoreRoot {
    var staging: map<string, Directory>
    var restored: map<string, Directory>

    constructor ()
      ensures Contents() == Area(map[], map[])
    {
      staging, restored := map[], map[];
    }

    ghost function Contents(): Area
      reads this
    {
      Area(staging, restored)
    }
  }

  datatype BackupRequest = BackupRequest(
    tenant: string, application: string, destination: string, backupId: string, idempotencyKey: string,
    retentionUntil: nat)

  datatype BackupStatus = VerifiedBackup | FailedBackup | DuplicateBackup

  datatype BackupOutcome = BackupOutcome(backupId: string, status: BackupStatus, names: seq<string>)

  function RequestScope(r: BackupRequest): Scope { (r.tenant, r.application, r.backupId) }

  /** The artifact `create_backup` builds. */
  function ArtifactOf(r: BackupRequest, cs: seq<Component>, e: Encryptor, nonce: nat): Artifact {
    var m := Manifest(r.backupId, r.tenant, r.application, r.destination, r.retentionUntil, DigestsOf(cs), e.keyReference);
    Build(m, e.Encrypt(nonce, Serialize(cs), m))
  }

  /** The vault takes the artifact, or already has this very one. */
  predicate Storable(artifacts: map<Scope, Artifact>, keys: map<string, Scope>, r: BackupRequest, a: Artifact) {
    && (r.idempotencyKey in keys ==> keys[r.idempotencyKey] == RequestScope(r))
    && (RequestScope(r) in artifacts ==> artifacts[RequestScope(r)] == a)
  }

  /** How the file-system calls end. */
  datatype Progress = Finished | Raised | Dead

  class BackupCoordinator {
    const make: Constructor
    var outcomes: map<string, BackupOutcome>

    constructor (make: Constructor)
      ensures this.make == make && outcomes == map[]
    {
      this.make := make;
      outcomes := map[];
    }

    /** None where the source raises: a foreign destination, or a clock without time zone.  A new key is
        answered VERIFIED exactly when the snapshot has components with distinct names and the vault can
        store their artifact, which then verifies to them; no stored artifact is ever replaced, and a key
        is answered once. */
    method CreateBackup(request: BackupRequest, snapshot: Option<seq<Component>>, vault: InMemoryImmutableVault,
                        encryptor: Encryptor, nonce: nat, zoned: bool)
      returns (outcome: Option<BackupOutcome>)
      requires snapshot.Some? ==> Constructed(make, snapshot.value)
      modifies this, vault
      ensures outcome == None <==> request.destination != vault.destination || !zoned
      ensures outcome == None ==> outcomes == old(outcomes)
      ensures outcome.Some? ==> (outcome.value.status == DuplicateBackup <==> request.idempotencyKey in old(outcomes))
      ensures outcome.Some? ==>
                outcomes == if outcome.value.status == DuplicateBackup then old(outcomes)
                            else old(outcomes)[request.idempotencyKey := outcome.value]
      ensures forall scope | scope in old(vault.artifacts) ::
                scope in vault.artifacts && vault.artifacts[scope] == old(vault.artifacts)[scope]
      ensures outcome == None || outcome.value.status == DuplicateBackup ==> vault.artifacts == old(vault.artifacts)
      ensures outcome.Some? && request.idempotencyKey !in old(outcomes) ==>
                (outcome.value.status == VerifiedBackup <==>
                   && snapshot.Some? && snapshot.value != [] && DistinctNames(snapshot.value)
                   && Storable(old(vault.artifacts), old(vault.idempotency), request,
                               ArtifactOf(request, snapshot.value, encryptor, nonce)))
      ensures outcome.Some? && outcome.value.status == VerifiedBackup ==>
                var scope := RequestScope(request);
                && snapshot.Some? && scope in vault.artifacts
                && vault.artifacts[scope] == ArtifactOf(request, snapshot.value, encryptor, nonce)
                && Verify(make, encryptor, vault.artifacts[scope]) == Some(SortedByName(snapshot.value))
                && outcome.value.names == NameList(SortedByName(snapshot.value))
      ensures outcome.Some? && outcome.value.status == VerifiedBackup ==>
                var scope := (request.tenant, request.application, request.backupId);
                && outcome.value.backupId == request.backupId && scope in vault.artifacts
                && var m := vault.artifacts[scope].manifest;
                && m.backupId == request.backupId && m.tenant == request.tenant && m.application == request.application
                && m.destination == vault.destination && m.retentionUntil == request.retentionUntil
                && m.keyReference == encryptor.keyReference
                && |m.components| == |snapshot.value|
                && (forall c | c in snapshot.value ::
                      ComponentDigest(c.name, c.kind, c.reference, |c.payload|, Digest(c.payload)) in m.components)
    {
      if request.destination != vault.destination || !zoned { return None; }
      if request.idempotencyKey in outcomes {
        return Some(outcomes[request.idempotencyKey].(status := DuplicateBackup));
      }
      var result := BackupOutcome(request.backupId, FailedBackup, []);
      if snapshot.Some? && snapshot.value != [] && DistinctNames(snapshot.value) {
        var artifact := ArtifactOf(request, snapshot.value, encryptor, nonce);
        BuiltArtifactVerifies(make, encryptor, artifact.manifest, snapshot.value, nonce);
        hide DigestsOf, Serialize, SortedByName;
        var receipt := vault.Put(artifact, request.idempotencyKey);
        if receipt.Ok? {
          var stored := vault.Get(RequestScope(request));
          if stored.Ok? && stored.value.manifest.backupId == request.backupId
             && stored.value.manifest.destination == vault.destination {
            var components := Verify(make, encryptor, stored.value);
            if components.Some? { VerifiedIsIntact(make, encryptor, stored.value); }
            if components.Some? && receipt.value == stored.value.digest {
              result := BackupOutcome(request.backupId, VerifiedBackup, NameList(components.value));
              ManifestLists(request, snapshot.value, encryptor, nonce);
            }
          }
        }
      }
      outcomes := outcomes[request.idempotencyKey := result];
      return Some(result);
    }

    // ----- Restore -----

    /** Whether the file-system call number `step` is interrupted. */
    function Interrupted(i: Interruption, step: nat): Progress {
      if i.Never? || i.at != step then Finished else if i.Raises? then Raised else Dead
    }

    /** Makes the component directory and writes the component files, one after another. */
    method WriteComponents(root: RestoreRoot, id: string, cs: seq<Component>, i: Interruption) returns (progress: Progress)
      requires id in root.staging && (i.Never? || i.at >= 1) && root.staging[id] == Directory(None)
      modifies root`staging
      ensures progress == (if i.Never? || i.at > |cs| + 1 then Finished else if i.Raises? then Raised else Dead)
      ensures root.staging ==
                old(root.staging)[id := if progress == Finished then Directory(Some(FilesOf(cs))) else Partial(cs, i)]
    {
      progress := Interrupted(i, 1);
      if progress != Finished { return; }
      root.staging := root.staging[id := Directory(Some(map[]))];
      var k := 0;
      assert cs[..0] == [];
      while k < |cs|
        invariant 0 <= k <= |cs|
        invariant i.Never? || i.at > k + 1
        invariant root.staging == old(root.staging)[id := Directory(Some(FilesOf(cs[..k])))]
      {
        progress := Interrupted(i, k + 2);
        if progress != Finished {
          if i.torn.Some? {
            var torn := FilesOf(cs[..k])[FileName(cs[k]) := i.torn.value];
            root.staging := root.staging[id := Directory(Some(torn))];
          }
          return;
        }
        assert cs[..k + 1][..k] == cs[..k];
        root.staging := root.staging[id := Directory(Some(FilesOf(cs[..k + 1])))];
        k := k + 1;
      }
      assert cs[..|cs|] == cs;
      progress := Finished;
    }

    /** The handler's removal of the staging directory; false when it is cut short. */
    method RemoveStaging(root: RestoreRoot, id: string, cleanup: Cleanup) returns (removed: bool)
      requires id in root.staging
      modifies root`staging
      ensures removed == cleanup.Completes?
      ensures root.staging == if removed then old(root.staging) - {id}
                              else old(root.staging)[id := Swept(old(root.staging)[id], cleanup)]
    {
      if cleanup.Completes? {
        root.staging := root.staging - {id};
        return true;
      }
      var directory := root.staging[id];
      if directory.components.Some? {
        var left := cleanup.dropped;
        var files := directory.components.value;
        assert files == directory.components.value - (cleanup.dropped - left);
        while left != {}
          invariant left <= cleanup.dropped
          invariant files == directory.components.value - (cleanup.dropped - left)
          decreases left
        {
          var name :| name in left;
          assert cleanup.dropped - (left - {name}) == (cleanup.dropped - left) + {name};
          files := files - {name};
          left := left - {name};
        }
        assert cleanup.dropped - {} == cleanup.dropped;
        root.staging := root.staging[id := Directory(if cleanup.emptied then None else Some(files))];
      }
      assert root.staging[id] == Swept(directory, cleanup);
      return false;
    }

    /** Makes the staging directory and fills it, up to the rename. */
    method Stage(root: RestoreRoot, id: string, cs: seq<Component>, i: Interruption) returns (progress: Progress)
      requires id !in root.staging
      modifies root`staging
      ensures progress == (if !StopsEarly(i, cs) then Finished else if i.Raises? then Raised else Dead)
      ensures root.staging == if progress == Finished then old(root.staging)[id := Directory(Some(FilesOf(cs)))]
                              else if i.at == 0 then old(root.staging)
                              else old(root.staging)[id := Partial(cs, i)]
    {
      hide FilesOf;
      progress := Interrupted(i, 0);
      if progress != Finished { return; }
      root.staging := root.staging[id := Directory(None)];
      ghost var begun := root.staging;
      progress := WriteComponents(root, id, cs, i);
      if progress == Finished {
        progress := Interrupted(i, |cs| + 2);
        assert cs[..|cs|] == cs;
      }
      assert begun[id := root.staging[id]] == old(root.staging)[id := root.staging[id]];
    }

    /** The restore does to its area exactly what an attempt does, evidence included. */
    method RestoreBackup(a: Attempt, vault: InMemoryImmutableVault, root: RestoreRoot)
      returns (evidence: Option<RestoreEvidence>)
      requires a.artifacts == vault.artifacts && a.destination == vault.destination
      modifies root
      ensures (root.Contents(), evidence) == AttemptRestore(make, old(root.Contents()), a)
    {
      var id, i := a.backupId, a.interruption;
      var stored := vault.Get(a.Scope());
      if stored.Error? { return Some(RestoreFailed); }
      var artifact := stored.value;
      if artifact.manifest.backupId != id || artifact.manifest.destination != vault.destination
         || artifact.manifest.tenant != a.tenant || artifact.manifest.application != a.application {
        return Some(RestoreFailed);
      }
      var components := Verify(make, a.encryptor, artifact);
      if components.None? || id in root.restored || id in root.staging { return Some(RestoreFailed); }
      var cs := components.value;
      assert Verified(make, a) == Some(cs);
      hide Verify, FilesOf, SortedByName, Verified, Partial, Swept;
      var progress := Stage(root, id, cs, i);
      if progress == Dead { return None; }
      if progress == Raised {
        if i.at == 0 { return Some(RestoreFailed); }
        var removed := RemoveStaging(root, id, i.cleanup);
        assert removed ==> root.staging == old(root.staging);
        assert !removed ==> root.staging == old(root.staging)[id := Left(cs, i)];
        return if removed then Some(RestoreFailed) else None;
      }
      root.restored := root.restored[id := root.staging[id]];
      root.staging := root.staging - {id};
      assert root.staging == old(root.staging);
      if Interrupted(i, |cs| + 3) == Dead { return None; }
      if !a.zoned { return Some(RestoreFailed); }
      return Some(Restored(NameList(cs)));
    }
  }

  /** What verifies is intact: its digest and manifest are its own. */
  lemma VerifiedIsIntact(make: Constructor, e: Encryptor, a: Artifact)
    requires Verify(make, e, a).Some?
    ensures a == Build(a.manifest, a.envelope)
  {
  }

  /** The manifest lists every component as it is, once. */
  lemma ManifestLists(r: BackupRequest, cs: seq<Component>, e: Encryptor, nonce: nat)
    ensures var m := ArtifactOf(r, cs, e, nonce).manifest;
            && |m.components| == |cs|
            && forall c | c in cs ::
                 ComponentDigest(c.name, c.kind, c.reference, |c.payload|, Digest(c.payload)) in m.components
  {
    SortedElements(cs);
    DigestsCover(cs);
  }
}
