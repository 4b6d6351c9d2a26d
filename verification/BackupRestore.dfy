/**
 One attempt to restore a backup, as a function of the restore area, the vault and the point at
 which it is interrupted, and what any sequence of attempts leaves behind.
 */
module BackupRestore {
  import opened Common
  import opened Base64
  import opened BackupModel
  import opened BackupGuarantees

  // ----- The restore area -----

  type Files = map<string, seq<Byte>>

  /** A directory under the restore root: its component files, once the component directory exists. */
  datatype Directory = Directory(components: Option<Files>)

  datatype Area = Area(staging: map<string, Directory>, restored: map<string, Directory>)

  type Scope = (string, string, string)

  function ScopeOf(m: Manifest): Scope { (m.tenant, m.application, m.backupId) }

  // ----- Attempts -----

  /** Where an attempt stops, counting file-system calls: 0 makes the staging directory, 1 the component
      directory, the next ones write the components, and the one after them renames.  A call may raise,
      or the process dies before it; a process may also die after the rename.  An interrupted write
      leaves `torn` in its file, if it got as far as making one. */
  datatype Interruption =
    | Never
    | Raises(at: nat, torn: Option<seq<Byte>>, cleanup: Cleanup)
    | Dies(at: nat, torn: Option<seq<Byte>>)

  /** How the handler's removal of the staging directory ends: done, or cut short by a crash or another
      exception with some files gone, the component directory possibly among what is gone. */
  datatype Cleanup = Completes | Stops(dropped: set<string>, emptied: bool)

  /** `zoned`: the caller's `now` carries a time zone. */
  datatype Attempt = Attempt(
    backupId: string, tenant: string, application: string, zoned: bool,
    artifacts: map<Scope, Artifact>, destination: string, encryptor: Encryptor, interruption: Interruption)
  {
    function Scope(): Scope { (tenant, application, backupId) }
  }

  datatype RestoreEvidence = Restored(names: seq<string>) | RestoreFailed

  function NameList(cs: seq<Component>): seq<string> {
    seq(|cs|, i requires 0 <= i < |cs| => cs[i].name)
  }

  /** The components the vault's artifact verifies to, when its manifest is for this restore. */
  function Verified(make: Constructor, a: Attempt): Option<seq<Component>> {
    if a.Scope() !in a.artifacts then None
    else
      var artifact := a.artifacts[a.Scope()];
      if && artifact.manifest.backupId == a.backupId && artifact.manifest.destination == a.destination
         && artifact.manifest.tenant == a.tenant && artifact.manifest.application == a.application
      then Verify(make, a.encryptor, artifact) else None
  }

  /** The attempt gets as far as the file system: verified, and neither directory is there. */
  predicate Begins(make: Constructor, area: Area, a: Attempt) {
    Verified(make, a).Some? && a.backupId !in area.restored && a.backupId !in area.staging
  }

  /** The number of the call that renames. */
  function RenameStep(cs: seq<Component>): nat { |cs| + 2 }

  /** The interruption comes before the rename. */
  predicate StopsEarly(i: Interruption, cs: seq<Component>) { !i.Never? && i.at <= RenameStep(cs) }

  /** The process dies once the rename is done. */
  predicate DiesLate(i: Interruption, cs: seq<Component>) { i.Dies? && i.at == RenameStep(cs) + 1 }

  /** What an interruption after the staging directory was made finds in it. */
  function Partial(cs: seq<Component>, i: Interruption): Directory
    requires !i.Never? && 1 <= i.at <= RenameStep(cs)
  {
    if i.at == 1 then Directory(None)
    else if i.at == RenameStep(cs) || i.torn.None? then Directory(Some(FilesOf(cs[..i.at - 2])))
    else Directory(Some(FilesOf(cs[..i.at - 2])[FileName(cs[i.at - 2]) := i.torn.value]))
  }

  /** What a removal that was cut short leaves. */
  function Swept(d: Directory, c: Cleanup): Directory
    requires c.Stops?
  {
    if c.emptied || d.components.None? then Directory(None) else Directory(Some(d.components.value - c.dropped))
  }

  /** The attempt stops between making its staging directory and renaming it, and nobody clears it. */
  predicate LeavesStaging(i: Interruption, cs: seq<Component>) {
    !i.Never? && 1 <= i.at <= RenameStep(cs) && (i.Raises? ==> i.cleanup.Stops?)
  }

  /** The staging directory it leaves. */
  function Left(cs: seq<Component>, i: Interruption): Directory
    requires LeavesStaging(i, cs)
  {
    if i.Dies? then Partial(cs, i) else Swept(Partial(cs, i), i.cleanup)
  }

  /** `restore_backup`: the area it leaves and its evidence, or none when the process dies or its handler
      raises. */
  function AttemptRestore(make: Constructor, area: Area, a: Attempt): (Area, Option<RestoreEvidence>) {
    if !Begins(make, area, a) then (area, Some(RestoreFailed))
    else
      var cs, i := Verified(make, a).value, a.interruption;
      if StopsEarly(i, cs) then
        if LeavesStaging(i, cs) then (area.(staging := area.staging[a.backupId := Left(cs, i)]), None)
        else (area, if i.Raises? then Some(RestoreFailed) else None)
      else
        var done := area.(restored := area.restored[a.backupId := Directory(Some(FilesOf(cs)))]);
        if DiesLate(i, cs) then (done, None)
        else if !a.zoned then (done, Some(RestoreFailed))
        else (done, Some(Restored(NameList(cs))))
  }

  function AttemptAll(make: Constructor, area: Area, attempts: seq<Attempt>): (Area, seq<Option<RestoreEvidence>>)
    decreases |attempts|
  {
    if attempts == [] then (area, [])
    else
      var (next, evidence) := AttemptRestore(make, area, attempts[0]);
      var (last, rest) := AttemptAll(make, next, attempts[1..]);
      (last, [evidence] + rest)
  }

  // ----- Every path -----

  predicate SameExcept<V(==)>(a: map<string, V>, b: map<string, V>, id: string) {
    a - {id} == b - {id}
  }

  /** On every path, crashes and raising statements included, the final directory is as before or is
      complete with the original bytes of every component; other backups are not touched. */
  lemma AbsentOrComplete(make: Constructor, area: Area, a: Attempt, cs: seq<Component>)
    requires DistinctNames(cs)
    requires a.Scope() in a.artifacts ==> a.artifacts[a.Scope()].manifest.components == DigestsOf(cs)
    ensures var after := AttemptRestore(make, area, a).0;
            && SameExcept(after.restored, area.restored, a.backupId)
            && SameExcept(after.staging, area.staging, a.backupId)
            && (after.restored == area.restored
                || (a.backupId !in area.restored
                    && after.restored == area.restored[a.backupId := Directory(Some(FilesOf(SortedByName(cs))))]))
  {
    hide DigestsOf, FilesOf, SortedByName, Verify;
    if Verified(make, a).Some? {
      VerifiedMeansOriginal(make, a.encryptor, a.artifacts[a.Scope()], cs);
    }
  }

  /** The final directory appears exactly when the artifact verified, neither directory was there and
      nothing stopped the attempt before the rename. */
  lemma CompletedExactly(make: Constructor, area: Area, a: Attempt)
    ensures var after := AttemptRestore(make, area, a).0;
            after.restored != area.restored <==>
              Begins(make, area, a) && !StopsEarly(a.interruption, Verified(make, a).value)
  {
    hide Verify, FilesOf;
    if Begins(make, area, a) && !StopsEarly(a.interruption, Verified(make, a).value) {
      assert a.backupId in AttemptRestore(make, area, a).0.restored;
    }
  }

  /** RESTORED is reported exactly when the directory appeared, the process lived to report it and the
      caller's clock carried a time zone. */
  lemma ReportedExactly(make: Constructor, area: Area, a: Attempt)
    ensures var (after, evidence) := AttemptRestore(make, area, a);
            (evidence.Some? && evidence.value.Restored?) <==>
              after.restored != area.restored && evidence.Some? && a.zoned
  {
    hide Verify, FilesOf;
    CompletedExactly(make, area, a);
  }

  /** A failed restore has completed the directory all the same exactly when the directory appeared, the
      process lived, and the caller's clock had no time zone. */
  lemma FailedYetComplete(make: Constructor, area: Area, a: Attempt)
    ensures var (after, evidence) := AttemptRestore(make, area, a);
            (evidence == Some(RestoreFailed) && after.restored != area.restored) <==>
              && Begins(make, area, a) && !StopsEarly(a.interruption, Verified(make, a).value)
              && !DiesLate(a.interruption, Verified(make, a).value)
              && !a.zoned
  {
    hide Verify, FilesOf;
    CompletedExactly(make, area, a);
  }

  /** A crash has completed the directory exactly when it came after the rename. */
  lemma CrashedYetComplete(make: Constructor, area: Area, a: Attempt)
    ensures var (after, evidence) := AttemptRestore(make, area, a);
            (evidence == None && after.restored != area.restored) <==>
              Begins(make, area, a) && DiesLate(a.interruption, Verified(make, a).value)
  {
    hide Verify, FilesOf;
    CompletedExactly(make, area, a);
  }

  /** Every backup made from components whose restore meets a clock without time zone is such a case. */
  lemma NaiveClockWitness(make: Constructor, m: Manifest, cs: seq<Component>, e: Encryptor, nonce: nat)
    requires cs != [] && DistinctNames(cs) && Constructed(make, cs) && m.components == DigestsOf(cs)
    ensures var artifact := Build(m, e.Encrypt(nonce, Serialize(cs), m));
            var stored := map[ScopeOf(m) := artifact];
            var a := Attempt(m.backupId, m.tenant, m.application, false, stored, m.destination, e, Never);
            var (after, evidence) := AttemptRestore(make, Area(map[], map[]), a);
            evidence == Some(RestoreFailed)
            && after.restored == map[m.backupId := Directory(Some(FilesOf(SortedByName(cs))))]
  {
    BuiltArtifactVerifies(make, e, m, cs, nonce);
    hide Verify, FilesOf, SortedByName, Serialize, DigestsOf;
  }

  // ----- Crashes -----

  /** A staging directory is left exactly when a crash comes after it is made and before it is renamed, or
      the removal that follows an exception there is cut short; it holds what was written so far. */
  lemma CrashLeavesStaging(make: Constructor, area: Area, a: Attempt)
    requires a.backupId !in area.staging
    ensures var (after, evidence) := AttemptRestore(make, area, a);
            && (a.backupId in after.staging <==>
                  Begins(make, area, a) && LeavesStaging(a.interruption, Verified(make, a).value))
            && (a.backupId in after.staging ==>
                  evidence == None && after.staging[a.backupId] == Left(Verified(make, a).value, a.interruption))
            && (evidence.Some? ==> after.staging == area.staging)
  {
    hide Verify, FilesOf, Left;
  }

  /** A staging directory refuses the attempt and stays. */
  lemma StagingBlocks(make: Constructor, area: Area, a: Attempt)
    requires a.backupId in area.staging
    ensures AttemptRestore(make, area, a) == (area, Some(RestoreFailed))
  {
    hide Verify;
  }

  /** Once an attempt has died with its staging directory made and not renamed, every later attempt on
      that backup is refused, whatever the vault holds, whoever calls and however attempts are interrupted
      in between; neither directory changes again. */
  lemma {:induction false} CrashBlocksForever(make: Constructor, area: Area, attempts: seq<Attempt>, id: string)
    requires id in area.staging
    ensures var (last, evidence) := AttemptAll(make, area, attempts);
            && |evidence| == |attempts|
            && (forall k | 0 <= k < |attempts| && attempts[k].backupId == id :: evidence[k] == Some(RestoreFailed))
            && id in last.staging && last.staging[id] == area.staging[id]
            && (id in last.restored <==> id in area.restored)
            && (id in area.restored ==> last.restored[id] == area.restored[id])
    decreases |attempts|
  {
    hide Verify, FilesOf, Left, Verified;
    if attempts != [] {
      var next := AttemptRestore(make, area, attempts[0]).0;
      CrashBlocksForever(make, next, attempts[1..], id);
      assert forall k | 0 < k < |attempts| :: attempts[k] == attempts[1..][k - 1];
    }
  }

  /** The crash itself and what follows it. */
  lemma CrashThenRefusals(make: Constructor, area: Area, crash: Attempt, attempts: seq<Attempt>)
    requires Begins(make, area, crash) && LeavesStaging(crash.interruption, Verified(make, crash).value)
    ensures var (left, none) := AttemptRestore(make, area, crash);
            var (last, evidence) := AttemptAll(make, left, attempts);
            && none == None && |evidence| == |attempts|
            && (forall k | 0 <= k < |attempts| && attempts[k].backupId == crash.backupId :: evidence[k] == Some(RestoreFailed))
            && crash.backupId !in last.restored
  {
    CrashLeavesStaging(make, area, crash);
    CrashBlocksForever(make, AttemptRestore(make, area, crash).0, attempts, crash.backupId);
    hide Verify, AttemptAll, FilesOf;
  }
}
