/**
 What a `restore` or `dump` call must report, read off the replies it received: a second definition
 of the outcome, without stages, and the proof that the state machine reports exactly that.
 */
module CallAccounts {
  import opened Common
  import opened DatabaseCall
  import opened RestoreEvidence
  import LedgerModel
  import opened SqlPolicy
  import SqlLines

  // ----- What a call was told -----

  /** The last reply to each kind of request, the first exception with which the ledger refused an
      outcome, and whether a partial artifact was discarded. */
  datatype Told = Told(
    claim: Option<Reply>, prepare: Option<Reply>, resolve: Option<Reply>, file: Option<Reply>,
    dump: Option<Reply>, precheck: Option<Reply>, load: Option<Reply>, verify: Option<Reply>,
    cleanup: Option<Reply>, quarantine: Option<Reply>, refused: Option<Failure>, discarded: bool)

  const SILENCE := Told(None, None, None, None, None, None, None, None, None, None, None, false)

  function Hearing(t: Told, e: Event): Told {
    match e.action
    case Claiming => t.(claim := Some(e.reply))
    case Preparing => t.(prepare := Some(e.reply))
    case Resolving => t.(resolve := Some(e.reply))
    case Reading => t.(file := Some(e.reply))
    case Running(DumpRun) => t.(dump := Some(e.reply))
    case Running(Precheck) => t.(precheck := Some(e.reply))
    case Running(Load) => t.(load := Some(e.reply))
    case Running(Verify) => t.(verify := Some(e.reply))
    case Cleaning => t.(cleanup := Some(e.reply))
    case Quarantining(_) => t.(quarantine := Some(e.reply))
    case Discarding => t.(discarded := true)
    case Completing(_) =>
      if e.reply.Raised? && t.refused.None? then t.(refused := Some(e.reply.failure)) else t
  }

  function Heard(log: seq<Event>): Told {
    if log == [] then SILENCE else Hearing(Heard(log[..|log| - 1]), log[|log| - 1])
  }

  // ----- The artifact -----

  datatype Artifact = Sound(names: seq<string>) | Unsound(failure: Failure)

  /** What inspecting an artifact comes to: a size or an ending that does not fit is an artifact error,
      an invalid name an unexpected one, anything else the policy refuses a restore error. */
  function Inspected(a: Adapter, size: nat, text: string): Artifact {
    if !a.mariadb then Sound([])
    else match SqlLines.Inspect(a.u, text, size)
      case Accept(names) => Sound(names)
      case Reject(SizeChanged) => Unsound(ArtifactError)
      case Reject(Truncated) => Unsound(ArtifactError)
      case Reject(InvalidName) => Unsound(OtherError)
      case Reject(_) => Unsound(RestoreError)
  }

  // ----- Restore -----

  datatype Finding = Finding(status: OperationStatus, reason: string, verification: Option<Verification>)

  function Handled(f: Failure): Finding {
    Finding(Failed,
           if f == CredentialError then "credential_unavailable"
           else if f == RestoreError then "restore_target_unavailable"
           else if f == ArtifactError then "restore_artifact_invalid"
           else "database_restore_failed", None)
  }

  /** The file is the one the manifest describes. */
  predicate Described(call: Call, size: nat, digest: string)
    requires call.Restore?
  {
    size == call.manifest.size && digest == call.manifest.digest
  }

  function ReadResult(a: Adapter, call: Call, file: Reply): Finding
    requires call.Restore?
  {
    if file.Raised? then Handled(file.failure)
    else if file.File? && Described(call, file.size, file.digest) then
      var artifact := Inspected(a, file.size, file.text);
      if artifact.Unsound? then Handled(artifact.failure) else Finding(Failed, "", None)
    else Handled(ArtifactError)
  }

  function PrecheckResult(reply: Reply): Finding {
    if reply.Raised? then Handled(reply.failure)
    else if reply.Result? && reply.result.status != Passed then Finding(reply.result.status, reply.result.reason, None)
    else Finding(Failed, "restore_target_not_empty", None)
  }

  function LoadResult(reply: Reply): Finding {
    if reply.Raised? then Handled(reply.failure)
    else if reply.Result? then Finding(reply.result.status, reply.result.reason, None) else Finding(Failed, "", None)
  }

  /** The recount must find the target's own database and the promised number of objects, or any at all
      when none were promised. */
  function RecountResult(call: Call, promised: nat, reply: Reply): Finding
    requires call.Restore?
  {
    match reply
    case Raised(f) => Handled(f)
    case Result(r) =>
      var found := match r.objects case Some(n) => n case None => 0;
      var v := Verification(r.status, r.reason, r.database, found);
      if r.status != Passed then Finding(r.status, r.reason, Some(v))
      else if r.database != Some(call.target.database) then
        Finding(Failed, "restore_identity_mismatch", Some(v.(status := Failed, reason := "restore_identity_mismatch")))
      else if found == 0 || (promised > 0 && found != promised) then
        Finding(Failed, "restore_objects_missing", Some(v.(status := Failed, reason := "restore_objects_missing")))
      else Finding(Passed, "ok", Some(v))
    case _ => Finding(Failed, "", None)
  }

  function PromisedCount(a: Adapter, t: Told): nat {
    if t.file.Some? && t.file.value.File? then
      match Inspected(a, t.file.value.size, t.file.value.text)
      case Sound(names) => |names|
      case Unsound(_) => 0
    else 0
  }

  /** Status, reason and verification: those of the last thing the call got to, unless the ledger
      refused an outcome, which counts as an exception of its own. */
  function RestoreResult(a: Adapter, call: Call, t: Told): Finding
    requires call.Restore?
  {
    if t.refused.Some? then Handled(t.refused.value)
    else if t.verify.Some? then RecountResult(call, PromisedCount(a, t), t.verify.value)
    else if t.load.Some? then LoadResult(t.load.value)
    else if t.precheck.Some? then PrecheckResult(t.precheck.value)
    else if t.file.Some? then ReadResult(a, call, t.file.value)
    else if t.resolve.Some? && t.resolve.value.Raised? then Handled(t.resolve.value.failure)
    else Finding(Failed, "", None)
  }

  predicate LoadAnswered(t: Told) { t.load.Some? && t.load.value.Result? }

  /** The precheck passed, but found another database or some object. */
  predicate Occupied(call: Call, t: Told)
    requires call.Restore?
  {
    && t.precheck.Some? && t.precheck.value.Result? && t.precheck.value.result.status == Passed
    && (t.precheck.value.result.database != Some(call.target.database) || t.precheck.value.result.objects != Some(0))
  }

  /** The last cleanup's own word, if it is one: true stands for the target's owner. */
  function CleanedBy(call: Call, t: Told): Option<string>
    requires call.Restore?
  {
    if t.cleanup == Some(Truth) then Some(call.target.owner)
    else match t.cleanup
      case Some(Reference(reference, true)) => Some(reference)
      case _ => None
  }

  function QuarantinedBy(t: Told): Option<string> {
    match t.quarantine
    case Some(Reference(reference, true)) => Some(reference)
    case _ => None
  }

  function AfterQuarantining(call: Call, t: Told): (Cleanup, Option<string>)
    requires call.Restore?
  {
    if QuarantinedBy(t).Some? then (Cleanup.Quarantined, QuarantinedBy(t)) else (Required, Some(call.target.owner))
  }

  /** Cleaned when the last cleanup said so, else quarantined when the registry said so, else still
      required; nothing when nothing was loaded into a target that was found empty. */
  function Disposition(call: Call, t: Told, status: OperationStatus): (Cleanup, Option<string>)
    requires call.Restore?
  {
    if status == Passed then (NoCleanup, None)
    else if LoadAnswered(t) then
      if CleanedBy(call, t).Some? then (Cleaned, CleanedBy(call, t)) else AfterQuarantining(call, t)
    else if Occupied(call, t) && t.refused.None? then AfterQuarantining(call, t)
    else (NoCleanup, None)
  }

  /** The evidence a granted restore owes. */
  function RestoreAccount(a: Adapter, call: Call, t: Told): Evidence
    requires call.Restore?
  {
    var result := RestoreResult(a, call, t);
    var (cleanup, reference) := Disposition(call, t, result.status);
    Evidence(result.status, result.reason, call.manifest.digest,
             if result.status == Passed then Some(call.manifest.digest) else None,
             result.verification, cleanup, reference)
  }

  // ----- The machine gives that account -----

  predicate Drafts(a: Adapter, call: Call, t: Told, d: Draft)
    requires call.Restore?
  {
    d.status != Passed && Finding(d.status, d.reason, d.verification) == RestoreResult(a, call, t)
  }

  /** Granted, and past reading an artifact that promised these names. */
  predicate HasRead(a: Adapter, call: Call, t: Told, expected: seq<string>)
    requires call.Restore?
  {
    && t.file.Some? && t.file.value.File? && Described(call, t.file.value.size, t.file.value.digest)
    && Inspected(a, t.file.value.size, t.file.value.text) == Sound(expected)
  }

  predicate Tells(a: Adapter, call: Call, t: Told, stage: Stage)
    requires call.Restore?
  {
    match stage
    case Claim => t == SILENCE
    case Resolve => t == SILENCE.(claim := t.claim)
    case Read => t == SILENCE.(claim := t.claim, resolve := Some(Done))
    case RunPrecheck(expected) =>
      t == SILENCE.(claim := t.claim, resolve := t.resolve, file := t.file) && HasRead(a, call, t, expected)
    case RunLoad(expected) =>
      && t == SILENCE.(claim := t.claim, resolve := t.resolve, file := t.file, precheck := t.precheck)
      && HasRead(a, call, t, expected) && !Occupied(call, t)
    case RunVerify(expected) =>
      && t == SILENCE.(claim := t.claim, resolve := t.resolve, file := t.file, precheck := t.precheck, load := t.load)
      && HasRead(a, call, t, expected) && LoadAnswered(t) && !Occupied(call, t)
    case CleanUp(d, guarded) => Drafts(a, call, t, d) && LoadAnswered(t) && (guarded ==> t.refused.None?)
    case Quarantine(d, code, attempted, guarded) =>
      && Drafts(a, call, t, d) && attempted == LoadAnswered(t) && (guarded ==> t.refused.None?)
      && (if attempted then
            && t.cleanup.Some? && CleanedBy(call, t).None?
            && code == (if t.cleanup.value.NotCallable? then "cleanup_unavailable" else "cleanup_failed")
          else Occupied(call, t) && t.refused.None? && code == "restore_target_not_empty")
    case Complete(o, attempted, guarded) =>
      && o == Restored(RestoreAccount(a, call, t)) && attempted == LoadAnswered(t)
      && (guarded ==> t.refused.None? && o.evidence.status != Passed)
    case Returned(o) =>
      t.claim.Some? && (t.claim == Some(Claimed(LedgerModel.New)) ==> o == Restored(RestoreAccount(a, call, t)))
    case Propagated(_) => true
    case _ => false
  }

  lemma InspectionAgrees(a: Adapter, size: nat, text: string)
    ensures match ExpectedObjects(a, size, text)
            case Accept(names) => Inspected(a, size, text) == Sound(names)
            case Reject(e) => Inspected(a, size, text) == Unsound(ScanFailure(e))
  {
    hide SqlLines.Inspect;
  }

  lemma HandlerTells(a: Adapter, call: Call, t: Told, attempted: bool, f: Failure)
    requires call.Restore? && RestoreResult(a, call, t) == Handled(f) && attempted == LoadAnswered(t)
    requires Occupied(call, t) ==> t.refused.Some?
    ensures Tells(a, call, t, RestoreHandler(call, attempted, f))
  {
    hide RestoreResult;
  }

  lemma EarlyTells(a: Adapter, call: Call, t: Told, stage: Stage, reply: Reply)
    requires call.Restore? && KindFits(call, stage) && Tells(a, call, t, stage)
    requires stage == Stage.Claim || stage == Resolve
    requires Fits(NextAction(stage).value, reply)
    ensures Tells(a, call, Hearing(t, Event(NextAction(stage).value, reply)), Next(a, call, stage, reply))
  {
    hide Inspected;
    var next := Hearing(t, Event(NextAction(stage).value, reply));
    if stage == Resolve && reply.Raised? { HandlerTells(a, call, next, false, reply.failure); }
  }

  lemma ReadTells(a: Adapter, call: Call, t: Told, reply: Reply)
    requires call.Restore? && Tells(a, call, t, Read) && Fits(Reading, reply)
    ensures Tells(a, call, Hearing(t, Event(Reading, reply)), AfterRead(a, call, reply))
  {
    var next := Hearing(t, Event(Reading, reply));
    if reply.File? { InspectionAgrees(a, reply.size, reply.text); }
    hide Inspected, ExpectedObjects, RestoreHandler, ScanFailure;
    var stage := AfterRead(a, call, reply);
    if !stage.RunPrecheck? {
      var f := if reply.Raised? then reply.failure
               else if !Described(call, reply.size, reply.digest) then ArtifactError
               else ScanFailure(ExpectedObjects(a, reply.size, reply.text).error);
      assert stage == RestoreHandler(call, false, f);
      HandlerTells(a, call, next, false, f);
    }
  }

  lemma PrecheckTells(a: Adapter, call: Call, t: Told, expected: seq<string>, reply: Reply)
    requires call.Restore? && Tells(a, call, t, RunPrecheck(expected)) && Fits(Running(Precheck), reply)
    ensures Tells(a, call, Hearing(t, Event(Running(Precheck), reply)), AfterPrecheck(call, expected, reply))
  {
    hide Inspected;
    var next := Hearing(t, Event(Running(Precheck), reply));
    if reply.Raised? { HandlerTells(a, call, next, false, reply.failure); }
  }

  lemma LoadTells(a: Adapter, call: Call, t: Told, expected: seq<string>, reply: Reply)
    requires call.Restore? && Tells(a, call, t, RunLoad(expected)) && Fits(Running(Load), reply)
    ensures Tells(a, call, Hearing(t, Event(Running(Load), reply)), AfterLoad(call, expected, reply))
  {
    hide Inspected;
    var next := Hearing(t, Event(Running(Load), reply));
    if reply.Raised? { HandlerTells(a, call, next, false, reply.failure); }
  }

  lemma VerifyTells(a: Adapter, call: Call, t: Told, expected: seq<string>, reply: Reply)
    requires call.Restore? && Tells(a, call, t, RunVerify(expected)) && Fits(Running(Verify), reply)
    ensures Tells(a, call, Hearing(t, Event(Running(Verify), reply)), AfterVerify(call, expected, reply))
  {
    hide Inspected;
    var next := Hearing(t, Event(Running(Verify), reply));
    assert PromisedCount(a, next) == |expected|;
    if reply.Raised? { HandlerTells(a, call, next, true, reply.failure); }
  }

  lemma CleanUpTells(a: Adapter, call: Call, t: Told, d: Draft, guarded: bool, reply: Reply)
    requires call.Restore? && Tells(a, call, t, CleanUp(d, guarded)) && Fits(Cleaning, reply)
    ensures Tells(a, call, Hearing(t, Event(Cleaning, reply)), AfterCleanUp(call, d, guarded, reply))
  {
    var next := Hearing(t, Event(Cleaning, reply));
    assert RestoreResult(a, call, next) == RestoreResult(a, call, t);
    hide RestoreResult;
  }

  lemma QuarantineTells(a: Adapter, call: Call, t: Told, d: Draft, code: string, attempted: bool, guarded: bool, reply: Reply)
    requires call.Restore? && Tells(a, call, t, Quarantine(d, code, attempted, guarded)) && Fits(Quarantining(code), reply)
    ensures Tells(a, call, Hearing(t, Event(Quarantining(code), reply)), AfterQuarantine(call, d, attempted, guarded, reply))
  {
    var next := Hearing(t, Event(Quarantining(code), reply));
    assert RestoreResult(a, call, next) == RestoreResult(a, call, t);
    hide RestoreResult;
  }

  lemma CompleteTells(a: Adapter, call: Call, t: Told, o: Outcome, attempted: bool, guarded: bool, reply: Reply)
    requires call.Restore? && Tells(a, call, t, Stage.Complete(o, attempted, guarded)) && Fits(Completing(o), reply)
    requires t.claim.Some?
    ensures Tells(a, call, Hearing(t, Event(Completing(o), reply)), Next(a, call, Stage.Complete(o, attempted, guarded), reply))
  {
    hide Inspected, RecountResult, LoadResult, PrecheckResult, ReadResult;
    var next := Hearing(t, Event(Completing(o), reply));
    if reply.Raised? && guarded { HandlerTells(a, call, next, attempted, reply.failure); }
  }

  lemma StepTells(a: Adapter, call: Call, t: Told, stage: Stage, reply: Reply)
    requires call.Restore? && KindFits(call, stage) && Tells(a, call, t, stage)
    requires stage != Stage.Claim ==> t.claim.Some?
    requires NextAction(stage).Some? && Fits(NextAction(stage).value, reply)
    ensures Tells(a, call, Hearing(t, Event(NextAction(stage).value, reply)), Next(a, call, stage, reply))
  {
    hide Tells, Hearing, AfterClaim, AfterRead, AfterPrecheck, AfterLoad, AfterVerify, AfterCleanUp, AfterQuarantine;
    match stage {
      case Read => ReadTells(a, call, t, reply);
      case RunPrecheck(expected) => PrecheckTells(a, call, t, expected, reply);
      case RunLoad(expected) => LoadTells(a, call, t, expected, reply);
      case RunVerify(expected) => VerifyTells(a, call, t, expected, reply);
      case CleanUp(d, guarded) => CleanUpTells(a, call, t, d, guarded, reply);
      case Quarantine(d, code, attempted, guarded) => QuarantineTells(a, call, t, d, code, attempted, guarded, reply);
      case Complete(o, attempted, guarded) => CompleteTells(a, call, t, o, attempted, guarded, reply);
      case _ => ImpossibleOrEarly(a, call, t, stage); EarlyTells(a, call, t, stage, reply);
    }
  }

  lemma ImpossibleOrEarly(a: Adapter, call: Call, t: Told, stage: Stage)
    requires call.Restore? && Tells(a, call, t, stage) && NextAction(stage).Some?
    requires !stage.Read? && !stage.RunPrecheck? && !stage.RunLoad? && !stage.RunVerify?
    requires !stage.CleanUp? && !stage.Quarantine? && !stage.Complete?
    ensures stage == Stage.Claim || stage == Resolve
  {
  }

  lemma ClaimComesFirst(a: Adapter, call: Call, stage: Stage, reply: Reply)
    requires KindFits(call, stage) && NextAction(stage).Some? && Fits(NextAction(stage).value, reply)
    ensures Next(a, call, stage, reply) != Stage.Claim
    ensures NextAction(stage) == Some(Claiming) <==> stage == Stage.Claim
  {
  }

  lemma ClaimKept(t: Told, e: Event)
    ensures Hearing(t, e).claim == if e.action == Claiming then Some(e.reply) else t.claim
  {
  }

  lemma {:induction false} RestoreTold(a: Adapter, call: Call, log: seq<Event>)
    requires call.Restore? && StageAfter(a, call, log).Some?
    ensures Tells(a, call, Heard(log), StageAfter(a, call, log).value)
    ensures if log == [] then StageAfter(a, call, log) == Some(Stage.Claim)
            else Heard(log).claim.Some? && StageAfter(a, call, log) != Some(Stage.Claim)
    decreases |log|
  {
    hide Hearing, Next, Tells, Fits, KindFits;
    if log != [] {
      var before, last := log[..|log| - 1], log[|log| - 1];
      RestoreTold(a, call, before);
      var stage := StageAfter(a, call, before).value;
      ClaimComesFirst(a, call, stage, last.reply);
      ClaimKept(Heard(before), last);
      StepTells(a, call, Heard(before), stage, last.reply);
    } else {
      SilenceTells(a, call);
    }
  }

  lemma SilenceTells(a: Adapter, call: Call)
    requires call.Restore?
    ensures Tells(a, call, SILENCE, Stage.Claim)
  {
  }

  /** A restore that was granted its claim returns, and records in the ledger, exactly the evidence
      that the replies it received call for. */
  lemma RestoreIsAccounted(a: Adapter, call: Call, log: seq<Event>, o: Outcome)
    requires call.Restore? && Heard(log).claim == Some(Claimed(LedgerModel.New)) && StageAfter(a, call, log).Some?
    requires StageAfter(a, call, log).value == Returned(o) || NextAction(StageAfter(a, call, log).value) == Some(Completing(o))
    ensures o == Restored(RestoreAccount(a, call, Heard(log)))
  {
    RestoreTold(a, call, log);
    hide StageAfter, Heard, RestoreAccount, Inspected;
  }

  /** The registry is told why a target is withdrawn: it was found occupied, or its cleanup did not
      exist, or did not succeed. */
  lemma QuarantineReasons(a: Adapter, call: Call, log: seq<Event>, code: string)
    requires call.Restore? && StageAfter(a, call, log).Some?
    requires NextAction(StageAfter(a, call, log).value) == Some(Quarantining(code))
    ensures var t := Heard(log);
            code == if !LoadAnswered(t) then "restore_target_not_empty"
                    else if t.cleanup == Some(NotCallable) then "cleanup_unavailable"
                    else "cleanup_failed"
  {
    RestoreTold(a, call, log);
    hide StageAfter, Heard, Inspected, RestoreResult;
  }

  // ----- Claims that are not granted -----

  /** Who is not granted the claim is told why and does nothing: a finished operation of the same kind
      is replayed, anything else refused. */
  lemma UngrantedClaims(a: Adapter, call: Call, log: seq<Event>, decision: LedgerModel.Decision<Option<Outcome>>)
    requires log != [] && StageAfter(a, call, log).Some? && log[0].reply == Claimed(decision) && decision != LedgerModel.New
    ensures |log| == 1
    ensures var (status, reason) :=
              match decision
              case Conflict => (if call.Dump? then Rejected else Failed, "idempotency_conflict")
              case Active => if call.Dump? then (Blocked, "concurrent_operation") else (Failed, "concurrent_restore")
              case RecoveryRequired => (RestartRecoveryRequired, "restart_recovery_required")
              case _ => (Duplicated, "duplicate_operation");
            StageAfter(a, call, log) == Some(Returned(
              if decision.Duplicate? && decision.outcome.Some? && decision.outcome.value.Dumped? == call.Dump?
              then decision.outcome.value
              else if call.Dump? then Dumped(DumpResult(status, reason, None))
              else Restored(Evidence(status, reason, call.manifest.digest, None, None, NoCleanup, None))))
  {
    ClaimDecides(a, call, log);
    hide StageAfter, Next;
  }

  /** The first event of a log is the claim, and what it leads to; a claim not granted is the end. */
  lemma {:induction false} ClaimDecides(a: Adapter, call: Call, log: seq<Event>)
    requires log != [] && StageAfter(a, call, log).Some?
    ensures log[0].action == Claiming && Fits(Claiming, log[0].reply)
    ensures |log| == 1 ==> StageAfter(a, call, log) == Some(AfterClaim(call, log[0].reply))
    ensures log[0].reply.Claimed? && log[0].reply.decision != LedgerModel.New ==> |log| == 1
    decreases |log|
  {
    var before, last := log[..|log| - 1], log[|log| - 1];
    if |log| == 1 {
      assert before == [];
    } else {
      ClaimDecides(a, call, before);
      assert before[0] == log[0];
      if |before| == 1 && log[0].reply.Claimed? && log[0].reply.decision != LedgerModel.New {
        NotGrantedEnds(call, log[0].reply);
        assert false;
      }
    }
  }

  lemma NotGrantedEnds(call: Call, reply: Reply)
    requires Fits(Claiming, reply) && reply.Claimed? && reply.decision != LedgerModel.New
    ensures NextAction(AfterClaim(call, reply)) == None
  {
  }

  // ----- Dump -----

  function DumpHandled(f: Failure): DumpResult {
    match f
    case CredentialError => DumpResult(Blocked, "credential_unavailable", None)
    case RestoreError => DumpResult(Failed, "dump_artifact_unsafe", None)
    case ArtifactError => DumpResult(Failed, "dump_artifact_invalid", None)
    case OtherError => DumpResult(Failed, "database_dump_failed", None)
  }

  /** The exception that ended the work of a dump, if one did: the ledger's, the preparation's, the
      broker's, or that of reading back, comparing and inspecting the artifact. */
  function DumpException(a: Adapter, t: Told): Option<Failure> {
    if t.refused.Some? then t.refused
    else if t.file.Some? then
      (match t.file.value
       case Raised(f) => Some(f)
       case File(size, digest, text) =>
         if t.dump.Some? && t.dump.value.Result? && t.dump.value.result.artifact == Some((size, digest)) then
           match Inspected(a, size, text) case Sound(_) => None case Unsound(f) => Some(f)
         else Some(ArtifactError)
       case _ => Some(ArtifactError))
    else if t.dump.Some? then (match t.dump.value case Raised(f) => Some(f) case _ => None)
    else if t.prepare.Some? then (match t.prepare.value case Raised(f) => Some(f) case _ => None)
    else None
  }

  /** The result a granted dump owes: its exception's, the broker's refusal, or the artifact. */
  function DumpAccount(a: Adapter, t: Told): DumpResult {
    if DumpException(a, t).Some? then DumpHandled(DumpException(a, t).value)
    else if t.file.Some? && t.file.value.File? then DumpResult(Passed, "ok", Some((t.file.value.size, t.file.value.digest)))
    else if t.dump.Some? && t.dump.value.Result? then DumpResult(t.dump.value.result.status, t.dump.value.result.reason, None)
    else DumpResult(Failed, "", None)
  }

  predicate DumpTells(a: Adapter, t: Told, stage: Stage) {
    match stage
    case Claim => t == SILENCE
    case Prepare => t == SILENCE.(claim := t.claim)
    case RunDump => t == SILENCE.(claim := t.claim, prepare := Some(Done))
    case Measure(r) =>
      t == SILENCE.(claim := t.claim, prepare := Some(Done), dump := Some(Reply.Result(r))) && r.status == Passed
    case Discard(d) => DumpException(a, t).Some? && d == DumpAccount(a, t) && !t.discarded
    case Complete(o, _, guarded) =>
      && o == Dumped(DumpAccount(a, t)) && (t.discarded <==> DumpException(a, t).Some?)
      && (guarded <==> !t.discarded) && (guarded ==> t.refused.None?)
    case Returned(o) =>
      && t.claim.Some?
      && (t.claim == Some(Claimed(LedgerModel.New)) ==>
            o == Dumped(DumpAccount(a, t)) && (t.discarded <==> DumpException(a, t).Some?))
    case Propagated(_) => true
    case _ => false
  }

  lemma DumpStepTells(a: Adapter, call: Call, t: Told, stage: Stage, reply: Reply)
    requires call.Dump? && KindFits(call, stage) && DumpTells(a, t, stage) && (stage != Stage.Claim ==> t.claim.Some?)
    requires NextAction(stage).Some? && Fits(NextAction(stage).value, reply)
    ensures DumpTells(a, Hearing(t, Event(NextAction(stage).value, reply)), Next(a, call, stage, reply))
  {
    if stage.Measure? && reply.File? { InspectionAgrees(a, reply.size, reply.text); }
    hide Inspected, ExpectedObjects;
  }

  lemma {:induction false} DumpTold(a: Adapter, call: Call, log: seq<Event>)
    requires call.Dump? && StageAfter(a, call, log).Some?
    ensures DumpTells(a, Heard(log), StageAfter(a, call, log).value)
    ensures if log == [] then StageAfter(a, call, log) == Some(Stage.Claim)
            else Heard(log).claim.Some? && StageAfter(a, call, log) != Some(Stage.Claim)
    decreases |log|
  {
    hide Hearing, Next, DumpTells, Fits, KindFits;
    if log != [] {
      var before, last := log[..|log| - 1], log[|log| - 1];
      DumpTold(a, call, before);
      var stage := StageAfter(a, call, before).value;
      ClaimComesFirst(a, call, stage, last.reply);
      ClaimKept(Heard(before), last);
      DumpStepTells(a, call, Heard(before), stage, last.reply);
    } else {
      SilenceDumps(a);
    }
  }

  lemma SilenceDumps(a: Adapter)
    ensures DumpTells(a, SILENCE, Stage.Claim)
  {
  }

  /** A dump that was granted its claim returns, and records in the ledger, exactly the result that the
      replies it received call for; it discards its file exactly when an exception ended its work. */
  lemma DumpIsAccounted(a: Adapter, call: Call, log: seq<Event>, o: Outcome)
    requires call.Dump? && Heard(log).claim == Some(Claimed(LedgerModel.New)) && StageAfter(a, call, log).Some?
    requires StageAfter(a, call, log).value == Returned(o) || NextAction(StageAfter(a, call, log).value) == Some(Completing(o))
    ensures o == Dumped(DumpAccount(a, Heard(log)))
    ensures Heard(log).discarded <==> DumpException(a, Heard(log)).Some?
  {
    DumpTold(a, call, log);
    hide StageAfter, Heard, DumpAccount, DumpException;
  }
}
