/**
 One call of `dump` or `restore` as a state machine.  Everything outside the call — the ledger,
 the target registry, the execution broker, the file system — is asked through an action and
 answers with a reply, which may be an exception.
 */
module DatabaseCall {
  import opened Common
  import opened PythonText
  import opened SqlPolicy
  import LedgerModel
  import SqlLines

  // ----- Data -----

  datatype Target = Target(
    tenant: string, application: string, stack: string, reference: string,
    database: string, owner: string, connection: string)

  datatype Manifest = Manifest(
    targetReference: string, databaseIdentifier: string, logicalName: string,
    size: nat, digest: string)

  datatype Call =
    | Dump(tenant: string, application: string, database: string, environment: string,
           key: string, fingerprint: string)
    | Restore(target: Target, manifest: Manifest, key: string, fingerprint: string)
  {
    /** `_scope` and `_restore_scope`. */
    function Scope(): string {
      match this
      case Dump(t, a, d, e, _, _) => t + ":" + a + ":" + d + ":" + e
      case Restore(t, _, _, _) => t.tenant + ":" + t.application + ":" + t.reference
    }

    function Id(): LedgerModel.Id { (Scope(), key) }
  }

  datatype OperationStatus =
    | Passed | Failed | Blocked | TimedOut | Cancelled | OutputLimited | Disconnected
    | PermissionDenied | RestartRecoveryRequired | Duplicated | Rejected

  /** The exceptions the handlers tell apart; OS errors count as artifact errors. */
  datatype Failure = CredentialError | RestoreError | ArtifactError | OtherError

  datatype BrokerResult = BrokerResult(
    status: OperationStatus, reason: string, database: Option<string>, objects: Option<nat>,
    artifact: Option<(nat, string)>)

  datatype Verification = Verification(status: OperationStatus, reason: string, database: Option<string>, objects: nat)
  {
    /** The constructor's rule. */
    predicate Constructible() { status == Passed ==> database.Some? && objects >= 1 }
  }

  datatype Cleanup = NoCleanup | Required | Cleaned | Quarantined

  datatype Evidence = Evidence(
    status: OperationStatus, reason: string, artifactDigest: string, restoredDigest: Option<string>,
    verification: Option<Verification>, cleanup: Cleanup, reference: Option<string>)
  {
    /** The constructor's rules. */
    predicate Constructible() {
      && (cleanup == NoCleanup <==> reference == None)
      && (status == Passed ==>
            && restoredDigest == Some(artifactDigest)
            && verification.Some? && verification.value.status == Passed
            && cleanup == NoCleanup)
    }
  }

  datatype DumpResult = DumpResult(status: OperationStatus, reason: string, artifact: Option<(nat, string)>)
  {
    predicate Constructible() { status == Passed ==> artifact.Some? }
  }

  datatype Outcome = Dumped(dump: DumpResult) | Restored(evidence: Evidence)
  {
    function Status(): OperationStatus {
      match this case Dumped(d) => d.status case Restored(e) => e.status
    }
  }

  // ----- Actions and replies -----

  datatype Operation = DumpRun | Precheck | Load | Verify

  datatype Action =
    | Claiming | Preparing | Resolving | Reading | Running(operation: Operation)
    | Cleaning | Quarantining(reason: string) | Discarding | Completing(outcome: Outcome)

  datatype Reply =
    | Claimed(decision: LedgerModel.Decision<Option<Outcome>>)
    | Done
    | File(size: nat, digest: string, text: string)
    | Result(result: BrokerResult)
    | NotCallable
    | Truth
    | Reference(reference: string, valid: bool)
    | Nonsense
    | Raised(failure: Failure)

  predicate Fits(action: Action, reply: Reply) {
    match action
    case Claiming => reply.Claimed? || reply.Raised?
    case Preparing => reply.Done? || reply.Raised?
    case Resolving => reply.Done? || reply.Raised?
    case Reading => reply.File? || reply.Raised?
    case Running(_) => reply.Result? || reply.Raised?
    case Cleaning => reply.NotCallable? || reply.Truth? || reply.Reference? || reply.Nonsense? || reply.Raised?
    case Quarantining(_) => reply.NotCallable? || reply.Reference? || reply.Raised?
    case Discarding => reply.Done?
    case Completing(_) => reply.Done? || reply.Raised?
  }

  // ----- Stages -----

  /** The failure evidence under construction. */
  datatype Draft = Draft(status: OperationStatus, reason: string, verification: Option<Verification>)

  /** `guarded`: inside the `try`; `attempted`: `restore_attempted`. */
  datatype Stage =
    | Claim
    | Prepare | RunDump | Measure(result: BrokerResult) | Discard(failure: DumpResult)
    | Resolve | Read
    | RunPrecheck(expected: seq<string>) | RunLoad(expected: seq<string>) | RunVerify(expected: seq<string>)
    | CleanUp(draft: Draft, guarded: bool)
    | Quarantine(draft: Draft, code: string, attempted: bool, guarded: bool)
    | Complete(outcome: Outcome, attempted: bool, guarded: bool)
    | Returned(outcome: Outcome)
    | Propagated(exception: Failure)

  function NextAction(stage: Stage): Option<Action> {
    match stage
    case Claim => Some(Claiming)
    case Prepare => Some(Preparing)
    case RunDump => Some(Running(DumpRun))
    case Measure(_) => Some(Reading)
    case Discard(_) => Some(Discarding)
    case Resolve => Some(Resolving)
    case Read => Some(Reading)
    case RunPrecheck(_) => Some(Running(Precheck))
    case RunLoad(_) => Some(Running(Load))
    case RunVerify(_) => Some(Running(Verify))
    case CleanUp(_, _) => Some(Cleaning)
    case Quarantine(_, code, _, _) => Some(Quarantining(code))
    case Complete(outcome, _, _) => Some(Completing(outcome))
    case Returned(_) => None
    case Propagated(_) => None
  }

  /** The adapter: its character tables and whether its engine is MariaDB or MySQL. */
  datatype Adapter = Adapter(u: Tables, mariadb: bool)

  // ----- Shared steps -----

  function ScanFailure(e: Error): Failure {
    match e
    case SizeChanged => ArtifactError
    case Truncated => ArtifactError
    case InvalidName => OtherError
    case _ => RestoreError
  }

  /** The object names a read artifact promises, or the exception its checks raise. */
  function ExpectedObjects(a: Adapter, size: nat, text: string): Verdict {
    if a.mariadb then SqlLines.Inspect(a.u, text, size) else Accept([])
  }

  function RestoreFailure(call: Call, d: Draft, cleanup: Cleanup, reference: Option<string>): Outcome
    requires call.Restore?
  {
    Restored(Evidence(d.status, d.reason, call.manifest.digest, None, d.verification, cleanup, reference))
  }

  function DumpFailure(status: OperationStatus, reason: string): DumpResult { DumpResult(status, reason, None) }

  /** The handlers of `restore`. */
  function RestoreHandler(call: Call, attempted: bool, f: Failure): Stage
    requires call.Restore?
  {
    var reason := match f
      case CredentialError => "credential_unavailable"
      case RestoreError => "restore_target_unavailable"
      case ArtifactError => "restore_artifact_invalid"
      case OtherError => "database_restore_failed";
    var d := Draft(Failed, reason, None);
    if attempted then CleanUp(d, false)
    else Complete(RestoreFailure(call, d, NoCleanup, None), false, false)
  }

  /** The handlers of `dump`. */
  function DumpHandler(f: Failure): Stage {
    Discard(match f
            case CredentialError => DumpFailure(Blocked, "credential_unavailable")
            case RestoreError => DumpFailure(Failed, "dump_artifact_unsafe")
            case ArtifactError => DumpFailure(Failed, "dump_artifact_invalid")
            case OtherError => DumpFailure(Failed, "database_dump_failed"))
  }

  function Handler(call: Call, attempted: bool, f: Failure): Stage {
    if call.Dump? then DumpHandler(f) else RestoreHandler(call, attempted, f)
  }

  function Refusal(call: Call, status: OperationStatus, reason: string): Outcome {
    if call.Dump? then Dumped(DumpFailure(status, reason))
    else RestoreFailure(call, Draft(status, reason, None), NoCleanup, None)
  }

  function AfterClaim(call: Call, reply: Reply): Stage
    requires Fits(Claiming, reply)
  {
    if reply.Raised? then Propagated(reply.failure)
    else match reply.decision
      case New => if call.Dump? then Prepare else Resolve
      case Duplicate(Some(prior)) =>
        Returned(if prior.Dumped? == call.Dump? then prior else Refusal(call, Duplicated, "duplicate_operation"))
      case Duplicate(None) => Returned(Refusal(call, Duplicated, "duplicate_operation"))
      case Conflict =>
        Returned(Refusal(call, if call.Dump? then Rejected else Failed, "idempotency_conflict"))
      case Active =>
        Returned(if call.Dump? then Refusal(call, Blocked, "concurrent_operation")
                 else Refusal(call, Failed, "concurrent_restore"))
      case RecoveryRequired =>
        Returned(Refusal(call, RestartRecoveryRequired, "restart_recovery_required"))
  }

  // ----- Dump -----

  function AfterDumpRun(reply: Reply): Stage
    requires Fits(Running(DumpRun), reply)
  {
    match reply
    case Raised(f) => DumpHandler(f)
    case Result(r) =>
      if r.status != Passed then Complete(Dumped(DumpFailure(r.status, r.reason)), false, true) else Measure(r)
  }

  function AfterMeasure(a: Adapter, r: BrokerResult, reply: Reply): Stage
    requires Fits(Reading, reply)
  {
    match reply
    case Raised(f) => DumpHandler(f)
    case File(size, digest, text) =>
      if r.artifact != Some((size, digest)) then DumpHandler(ArtifactError)
      else match ExpectedObjects(a, size, text)
        case Reject(e) => DumpHandler(ScanFailure(e))
        case Accept(_) => Complete(Dumped(DumpResult(Passed, "ok", Some((size, digest)))), false, true)
  }

  // ----- Restore -----

  function AfterRead(a: Adapter, call: Call, reply: Reply): Stage
    requires call.Restore? && Fits(Reading, reply)
  {
    match reply
    case Raised(f) => RestoreHandler(call, false, f)
    case File(size, digest, text) =>
      if size != call.manifest.size || digest != call.manifest.digest then RestoreHandler(call, false, ArtifactError)
      else match ExpectedObjects(a, size, text)
        case Reject(e) => RestoreHandler(call, false, ScanFailure(e))
        case Accept(names) => RunPrecheck(names)
  }

  function AfterPrecheck(call: Call, expected: seq<string>, reply: Reply): Stage
    requires call.Restore? && Fits(Running(Precheck), reply)
  {
    match reply
    case Raised(f) => RestoreHandler(call, false, f)
    case Result(r) =>
      if r.status != Passed then
        Complete(RestoreFailure(call, Draft(r.status, r.reason, None), NoCleanup, None), false, true)
      else if r.database != Some(call.target.database) || r.objects != Some(0) then
        Quarantine(Draft(Failed, "restore_target_not_empty", None), "restore_target_not_empty", false, true)
      else RunLoad(expected)
  }

  function AfterLoad(call: Call, expected: seq<string>, reply: Reply): Stage
    requires call.Restore? && Fits(Running(Load), reply)
  {
    match reply
    case Raised(f) => RestoreHandler(call, false, f)
    case Result(r) =>
      if r.status != Passed then CleanUp(Draft(r.status, r.reason, None), true) else RunVerify(expected)
  }

  /** `_verification_result`. */
  function VerificationOf(call: Call, expected: seq<string>, r: BrokerResult): Verification
    requires call.Restore?
  {
    var count := if r.objects.Some? then r.objects.value else 0;
    if r.status != Passed then Verification(r.status, r.reason, r.database, count)
    else if r.database != Some(call.target.database) then
      Verification(Failed, "restore_identity_mismatch", r.database, count)
    else if (if expected != [] then count != |expected| else count < 1) then
      Verification(Failed, "restore_objects_missing", r.database, count)
    else Verification(r.status, r.reason, r.database, count)
  }

  function AfterVerify(call: Call, expected: seq<string>, reply: Reply): Stage
    requires call.Restore? && Fits(Running(Verify), reply)
  {
    match reply
    case Raised(f) => RestoreHandler(call, true, f)
    case Result(r) =>
      var v := VerificationOf(call, expected, r);
      if v.status != Passed then CleanUp(Draft(v.status, v.reason, Some(v)), true)
      else
        var digest := call.manifest.digest;
        Complete(Restored(Evidence(Passed, "ok", digest, Some(digest), Some(v), NoCleanup, None)), true, false)
  }

  /** `_cleanup_status`, once a restore was attempted. */
  function AfterCleanUp(call: Call, d: Draft, guarded: bool, reply: Reply): Stage
    requires call.Restore? && Fits(Cleaning, reply)
  {
    match reply
    case NotCallable => Quarantine(d, "cleanup_unavailable", true, guarded)
    case Truth => Complete(RestoreFailure(call, d, Cleaned, Some(call.target.owner)), true, guarded)
    case Reference(reference, valid) =>
      if valid then Complete(RestoreFailure(call, d, Cleaned, Some(reference)), true, guarded)
      else Quarantine(d, "cleanup_failed", true, guarded)
    case _ => Quarantine(d, "cleanup_failed", true, guarded)
  }

  /** `_quarantine_status`. */
  function AfterQuarantine(call: Call, d: Draft, attempted: bool, guarded: bool, reply: Reply): Stage
    requires call.Restore?
  {
    if reply.Reference? && reply.valid
    then Complete(RestoreFailure(call, d, Quarantined, Some(reply.reference)), attempted, guarded)
    else Complete(RestoreFailure(call, d, Required, Some(call.target.owner)), attempted, guarded)
  }

  // ----- The machine -----

  predicate KindFits(call: Call, stage: Stage) {
    match stage
    case Prepare => call.Dump?
    case RunDump => call.Dump?
    case Measure(_) => call.Dump?
    case Discard(_) => call.Dump?
    case Resolve => call.Restore?
    case Read => call.Restore?
    case RunPrecheck(_) => call.Restore?
    case RunLoad(_) => call.Restore?
    case RunVerify(_) => call.Restore?
    case CleanUp(_, _) => call.Restore?
    case Quarantine(_, _, _, _) => call.Restore?
    case Complete(outcome, _, _) => outcome.Restored? == call.Restore?
    case Returned(outcome) => outcome.Restored? == call.Restore?
    case _ => true
  }

  function Next(a: Adapter, call: Call, stage: Stage, reply: Reply): (next: Stage)
    requires KindFits(call, stage) && NextAction(stage).Some? && Fits(NextAction(stage).value, reply)
    ensures KindFits(call, next)
  {
    match stage
    case Claim => AfterClaim(call, reply)
    case Prepare => if reply.Raised? then DumpHandler(reply.failure) else RunDump
    case RunDump => AfterDumpRun(reply)
    case Measure(result) => AfterMeasure(a, result, reply)
    case Discard(failure) => Complete(Dumped(failure), false, false)
    case Resolve => if reply.Raised? then RestoreHandler(call, false, reply.failure) else Read
    case Read => AfterRead(a, call, reply)
    case RunPrecheck(expected) => AfterPrecheck(call, expected, reply)
    case RunLoad(expected) => AfterLoad(call, expected, reply)
    case RunVerify(expected) => AfterVerify(call, expected, reply)
    case CleanUp(draft, guarded) => AfterCleanUp(call, draft, guarded, reply)
    case Quarantine(draft, _, attempted, guarded) => AfterQuarantine(call, draft, attempted, guarded, reply)
    case Complete(outcome, attempted, guarded) =>
      if reply.Done? then Returned(outcome)
      else if guarded then Handler(call, attempted, reply.failure)
      else Propagated(reply.failure)
  }

  datatype Event = Event(action: Action, reply: Reply)

  /** The stage a call has reached after a log of actions and their replies; none for an impossible log. */
  function StageAfter(a: Adapter, call: Call, log: seq<Event>): (stage: Option<Stage>)
    ensures stage.Some? ==> KindFits(call, stage.value)
    decreases |log|
  {
    if log == [] then Some(Claim)
    else
      var last := log[|log| - 1];
      match StageAfter(a, call, log[..|log| - 1])
      case None => None
      case Some(s) =>
        if NextAction(s) == Some(last.action) && Fits(last.action, last.reply)
        then Some(Next(a, call, s, last.reply)) else None
  }
}
