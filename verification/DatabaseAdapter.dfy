/**
 The target registry and the adapter's `dump` and `restore`, in the source's own form.  The
 broker, the file system and failures of the ledger and the registry answer from a script.
 */
module DatabaseAdapter {
  import opened Common
  import opened SqlPolicy
  import opened DatabaseCall
  import opened RestoreEvidence
  import opened CallAccounts
  import opened DatabaseSystem
  import LedgerModel
  import OperationLedgers
  import SqlScanner

  class InMemoryDatabaseRestoreTargetRegistry {
    var records: map<TargetKey, Registration>
    var quarantinedTargets: map<TargetKey, string>

    ghost function Contents(): Registry
      reads this
    {
      Registry(records, quarantinedTargets.Keys)
    }

    constructor ()
      ensures Contents() == Registry(map[], {})
    {
      records, quarantinedTargets := map[], map[];
    }

    method Register(target: Target, environment: string, sourceReference: string, sourceDatabase: string, sourceName: string)
      returns (accepted: bool)
      modifies this
      ensures accepted <==> environment != "production" && target.database != sourceDatabase
                            && target.database != sourceName
                            && (target.tenant, target.application, target.stack, target.reference) !in old(records)
      ensures quarantinedTargets == old(quarantinedTargets)
      ensures records == if accepted
                         then old(records)[(target.tenant, target.application, target.stack, target.reference) :=
                                             Registration(target, sourceReference, sourceDatabase, sourceName)]
                         else old(records)
    {
      if environment == "production" { return false; }
      if target.database == sourceDatabase || target.database == sourceName { return false; }
      var key := KeyOf(target);
      if key in records { return false; }
      records := records[key := Registration(target, sourceReference, sourceDatabase, sourceName)];
      return true;
    }

    method Resolve(requested: Target, manifest: Manifest) returns (resolved: bool)
      ensures resolved <==> Resolves(Contents(), requested, manifest)
      ensures var key := (requested.tenant, requested.application, requested.stack, requested.reference);
              resolved <==> key in records && key !in quarantinedTargets
                            && records[key] == Registration(requested, manifest.targetReference, manifest.databaseIdentifier,
                                                            manifest.logicalName)
    {
      var key := KeyOf(requested);
      if key in quarantinedTargets || key !in records { return false; }
      var registration := records[key];
      return && registration.target == requested
             && registration.sourceReference == manifest.targetReference
             && registration.sourceDatabase == manifest.databaseIdentifier
             && registration.sourceName == manifest.logicalName;
    }

    /** False when the target does not resolve, where the source raises. */
    method Quarantine(requested: Target, manifest: Manifest, reason: string) returns (done: bool)
      modifies this`quarantinedTargets
      ensures done <==> Resolves(old(Contents()), requested, manifest)
      ensures Contents() == if done then Withdrawn(old(Contents()), requested) else old(Contents())
      ensures quarantinedTargets ==
                if done then old(quarantinedTargets)[(requested.tenant, requested.application, requested.stack,
                                                      requested.reference) := reason]
                else old(quarantinedTargets)
    {
      done := Resolve(requested, manifest);
      if done { quarantinedTargets := quarantinedTargets[KeyOf(requested) := reason]; }
    }
  }

  // ----- What a log does to the ledger and the registry -----

  /** The ledger keeps each outcome with the call it answered. */
  datatype Stored = Stored(call: Call, outcome: Outcome)

  type Ledger = LedgerModel.Memory<Stored>

  function LedgerAfter(m: Ledger, call: Call, log: seq<Event>): Ledger {
    if log == [] then m
    else
      var before, last := LedgerAfter(m, call, log[..|log| - 1]), log[|log| - 1];
      if last.action.Claiming? then LedgerModel.ClaimInMemory(before, call.Id(), call.fingerprint).0
      else if last.action.Completing? && last.reply.Done? && call.Id() in before.entries
      then LedgerModel.CompleteInMemory(before, call.Id(), Stored(call, last.action.outcome))
      else before
  }

  function RegistryAfter(r: Registry, call: Call, log: seq<Event>): Registry {
    if log == [] || call.Dump? then r
    else
      var before, last := RegistryAfter(r, call, log[..|log| - 1]), log[|log| - 1];
      if last.action.Quarantining? && last.reply.Reference? then Withdrawn(before, call.target) else before
  }

  /** What the ledger decided, up to outcomes that cannot be replayed. */
  predicate Reflects(answer: LedgerModel.Decision<Stored>, told: LedgerModel.Decision<Option<Outcome>>) {
    match answer
    case New => told == LedgerModel.New
    case Duplicate(stored) => told.Duplicate? && (told.outcome.Some? ==> told.outcome.value == stored.outcome)
    case Conflict => told == LedgerModel.Conflict
    case Active => told == LedgerModel.Active
    case RecoveryRequired => told == LedgerModel.RecoveryRequired
  }

  /** A reply of the ledger or the registry is what their state allows. */
  predicate TrueReply(m: Ledger, r: Registry, call: Call, e: Event) {
    match e.action
    case Claiming =>
      e.reply.Claimed? && Reflects(LedgerModel.ClaimInMemory(m, call.Id(), call.fingerprint).1, e.reply.decision)
    case Resolving => call.Restore? && (e.reply.Done? ==> Resolves(r, call.target, call.manifest))
    case Quarantining(_) => call.Restore? && (e.reply.Reference? ==> Resolves(r, call.target, call.manifest))
    case Completing(_) => e.reply.Done? ==> call.Id() in m.entries
    case _ => true
  }

  predicate TrueLog(m: Ledger, r: Registry, call: Call, log: seq<Event>) {
    log == [] ||
    (&& TrueLog(m, r, call, log[..|log| - 1])
     && TrueReply(LedgerAfter(m, call, log[..|log| - 1]), RegistryAfter(r, call, log[..|log| - 1]), call, log[|log| - 1]))
  }

  lemma AfterOneMore(m: Ledger, r: Registry, call: Call, log: seq<Event>, e: Event)
    ensures LedgerAfter(m, call, log + [e]) ==
              if e.action.Claiming? then LedgerModel.ClaimInMemory(LedgerAfter(m, call, log), call.Id(), call.fingerprint).0
              else if e.action.Completing? && e.reply.Done? && call.Id() in LedgerAfter(m, call, log).entries
              then LedgerModel.CompleteInMemory(LedgerAfter(m, call, log), call.Id(), Stored(call, e.action.outcome))
              else LedgerAfter(m, call, log)
    ensures RegistryAfter(r, call, log + [e]) ==
              if call.Restore? && e.action.Quarantining? && e.reply.Reference?
              then Withdrawn(RegistryAfter(r, call, log), call.target)
              else RegistryAfter(r, call, log)
    ensures TrueLog(m, r, call, log + [e]) <==>
              TrueLog(m, r, call, log) && TrueReply(LedgerAfter(m, call, log), RegistryAfter(r, call, log), call, e)
  {
    assert (log + [e])[..|log|] == log;
  }

  lemma FirstEvent(m: Ledger, r: Registry, call: Call, e: Event)
    requires e.action == Claiming && e.reply.Claimed?
    ensures LedgerAfter(m, call, [e]) == LedgerModel.ClaimInMemory(m, call.Id(), call.fingerprint).0
    ensures RegistryAfter(r, call, [e]) == r
    ensures TrueLog(m, r, call, [e]) <==>
              Reflects(LedgerModel.ClaimInMemory(m, call.Id(), call.fingerprint).1, e.reply.decision)
  {
    AfterOneMore(m, r, call, [], e);
    assert [] + [e] == [e];
    hide Reflects, LedgerModel.ClaimInMemory, Call.Id;
  }

  // ----- Answers -----

  /** The next answer of a script to an action; anything out of place counts as a failure. */
  ghost function Answered(world: seq<Reply>, action: Action): Reply {
    if world != [] && Fits(action, world[0]) then world[0]
    else if action == Discarding then Done else Reply.Raised(OtherError)
  }

  /** The artifact of a stored dump is still on disk as it was. */
  ghost predicate Intact(world: seq<Reply>, stored: Outcome) {
    stored.Dumped? && stored.dump.artifact.Some? ==>
      var file := Answered(world, Reading); file.File? && Some((file.size, file.digest)) == stored.dump.artifact
  }

  /** The ledger holds a finished operation with this request's own fingerprint, call and kind. */
  ghost predicate Finished(m: Ledger, call: Call, prior: Outcome) {
    && call.Id() in m.entries && m.entries[call.Id()] == LedgerModel.Entry(call.fingerprint, Some(Stored(call, prior)))
    && prior.Dumped? == call.Dump?
  }

  // ----- The adapter -----

  /** How the `try` block of a call ends: with its own `return`, at its end, or with an exception. */
  datatype Tried = ReturnNow(outcome: Outcome) | Fallthrough(outcome: Outcome) | Raises(failure: Failure, attempted: bool)

  class LogicalDatabaseAdapter {
    const self: Adapter
    const ledger: OperationLedgers.DatabaseOperationLedger<Stored>
    const registry: InMemoryDatabaseRestoreTargetRegistry
    /** The answers the outside world will give. */
    var world: seq<Reply>
    /** What the current call has asked and been told. */
    var log: seq<Event>

    constructor (self: Adapter, ledger: OperationLedgers.DatabaseOperationLedger<Stored>,
                 registry: InMemoryDatabaseRestoreTargetRegistry, world: seq<Reply>)
      ensures this.self == self && this.ledger == ledger && this.registry == registry && this.world == world
    {
      this.self, this.ledger, this.registry, this.world, this.log := self, ledger, registry, world, [];
    }

    ghost predicate At(call: Call, stage: Stage)
      reads this
    {
      StageAfter(self, call, log) == Some(stage)
    }

    /** The ledger and the registry are what the log has made of them, and the log reports them truly. */
    ghost predicate InStep(call: Call, m: Ledger, r: Registry)
      reads this, ledger, registry
    {
      && ledger.Contents() == LedgerAfter(m, call, log)
      && registry.Contents() == RegistryAfter(r, call, log)
      && TrueLog(m, r, call, log)
    }

    /** Records an action and its reply. */
    method Record(call: Call, action: Action, reply: Reply, ghost stage: Stage)
      requires At(call, stage) && NextAction(stage) == Some(action) && Fits(action, reply)
      modifies this`log
      ensures At(call, Next(self, call, stage, reply)) && log == old(log) + [Event(action, reply)]
    {
      OneMore(self, call, log, action, reply);
      log := log + [Event(action, reply)];
    }

    /** The next answer of the outside world to an action; anything out of place counts as a failure. */
    method Answer(action: Action) returns (reply: Reply)
      modifies this`world
      ensures Fits(action, reply) && reply == Answered(old(world), action)
    {
      reply := if action == Discarding then Done else Reply.Raised(OtherError);
      if world != [] {
        if Fits(action, world[0]) { reply := world[0]; }
        world := world[1..];
      }
    }

    /** Asks the broker or the file system. */
    method Perform(call: Call, action: Action, ghost stage: Stage, ghost m: Ledger, ghost r: Registry) returns (reply: Reply)
      requires At(call, stage) && NextAction(stage) == Some(action) && InStep(call, m, r)
      requires action.Preparing? || action.Reading? || action.Running? || action.Cleaning? || action.Discarding?
      modifies this
      ensures Fits(action, reply) && At(call, Next(self, call, stage, reply)) && InStep(call, m, r)
      ensures log == old(log) + [Event(action, reply)]
    {
      reply := Answer(action);
      AfterOneMore(m, r, call, log, Event(action, reply));
      Record(call, action, reply, stage);
    }

    /** Resolves the target; the registry itself may fail. */
    method AskRegistry(call: Call, ghost m: Ledger, ghost r: Registry) returns (failure: Option<Failure>)
      requires call.Restore? && At(call, Stage.Resolve) && InStep(call, m, r)
      modifies this
      ensures At(call, if failure.Some? then RestoreHandler(call, false, failure.value) else Stage.Read) && InStep(call, m, r)
    {
      var reply := Answer(Resolving);
      if reply.Done? {
        var resolved := registry.Resolve(call.target, call.manifest);
        if !resolved { reply := Reply.Raised(RestoreError); }
      }
      AfterOneMore(m, r, call, log, Event(Resolving, reply));
      Record(call, Resolving, reply, Stage.Resolve);
      return if reply.Raised? then Some(reply.failure) else None;
    }

    /** Withdraws the target; the registry itself may fail. */
    method AskQuarantine(call: Call, code: string, ghost stage: Stage, ghost m: Ledger, ghost r: Registry) returns (reply: Reply)
      requires call.Restore? && At(call, stage) && NextAction(stage) == Some(Quarantining(code)) && InStep(call, m, r)
      modifies this, registry
      ensures Fits(Quarantining(code), reply) && At(call, Next(self, call, stage, reply)) && InStep(call, m, r)
      ensures log == old(log) + [Event(Quarantining(code), reply)]
    {
      reply := Answer(Quarantining(code));
      if reply.Reference? {
        var done := registry.Quarantine(call.target, call.manifest, code);
        if !done { reply := Reply.Raised(RestoreError); }
      }
      AfterOneMore(m, r, call, log, Event(Quarantining(code), reply));
      Record(call, Quarantining(code), reply, stage);
    }

    /** `_quarantine_status`, followed by the failure evidence. */
    method QuarantineStatus(call: Call, d: Draft, code: string, attempted: bool, guarded: bool, ghost m: Ledger, ghost r: Registry)
      returns (outcome: Outcome)
      requires call.Restore? && At(call, Stage.Quarantine(d, code, attempted, guarded)) && InStep(call, m, r)
      modifies this, registry
      ensures At(call, Stage.Complete(outcome, attempted, guarded)) && InStep(call, m, r)
      ensures |log| == |old(log)| + 1 && log[..|old(log)|] == old(log) && log[|old(log)|].action == Quarantining(code)
      ensures outcome.Restored? && (outcome.evidence.cleanup, outcome.evidence.reference) ==
                match log[|old(log)|].reply
                case Reference(reference, true) => (Cleanup.Quarantined, Some(reference))
                case _ => (Required, Some(call.target.owner))
    {
      hide InStep;
      var reply := AskQuarantine(call, code, Stage.Quarantine(d, code, attempted, guarded), m, r);
      if reply.Reference? && reply.valid {
        outcome := RestoreFailure(call, d, Quarantined, Some(reply.reference));
      } else {
        outcome := RestoreFailure(call, d, Required, Some(call.target.owner));
      }
    }

    /** `_cleanup_status` after an attempted restore, followed by the failure evidence. */
    method CleanupStatus(call: Call, d: Draft, guarded: bool, ghost m: Ledger, ghost r: Registry) returns (outcome: Outcome)
      requires call.Restore? && At(call, CleanUp(d, guarded)) && InStep(call, m, r)
      modifies this, registry
      ensures At(call, Stage.Complete(outcome, true, guarded)) && InStep(call, m, r)
      ensures |log| > |old(log)| && log[..|old(log)|] == old(log) && log[|old(log)|].action == Cleaning
      ensures outcome.Restored? && (outcome.evidence.cleanup == Cleaned <==>
                                      log[|old(log)|].reply == Truth
                                      || (log[|old(log)|].reply.Reference? && log[|old(log)|].reply.valid))
      ensures outcome.evidence.cleanup == Cleaned ==>
                outcome.evidence.reference == Some(if log[|old(log)|].reply == Truth then call.target.owner
                                                   else log[|old(log)|].reply.reference)
      ensures outcome.evidence.cleanup != Cleaned ==>
                |log| == |old(log)| + 2 && log[|old(log)| + 1].action.Quarantining?
                && (outcome.evidence.cleanup, outcome.evidence.reference) ==
                     match log[|old(log)| + 1].reply
                     case Reference(reference, true) => (Cleanup.Quarantined, Some(reference))
                     case _ => (Required, Some(call.target.owner))
    {
      var reply := Perform(call, Cleaning, CleanUp(d, guarded), m, r);
      if reply.Truth? {
        outcome := RestoreFailure(call, d, Cleaned, Some(call.target.owner));
      } else if reply.Reference? && reply.valid {
        outcome := RestoreFailure(call, d, Cleaned, Some(reply.reference));
      } else {
        var code := if reply.NotCallable? then "cleanup_unavailable" else "cleanup_failed";
        outcome := QuarantineStatus(call, d, code, true, guarded, m, r);
      }
    }

    /** Writes the outcome to the ledger, which may fail. */
    method CompleteClaim(call: Call, outcome: Outcome, attempted: bool, guarded: bool, ghost m: Ledger, ghost r: Registry)
      returns (failure: Option<Failure>)
      requires At(call, Stage.Complete(outcome, attempted, guarded)) && InStep(call, m, r)
      modifies this, ledger
      ensures InStep(call, m, r)
      ensures At(call, match failure
                       case None => Returned(outcome)
                       case Some(f) => if guarded then Handler(call, attempted, f) else Propagated(f))
    {
      var reply := Answer(Completing(outcome));
      if reply.Done? {
        var found := ledger.Complete(call.Id(), Stored(call, outcome));
        if !found { reply := Reply.Raised(OtherError); }
      }
      AfterOneMore(m, r, call, log, Event(Completing(outcome), reply));
      Record(call, Completing(outcome), reply, Stage.Complete(outcome, attempted, guarded));
      return if reply.Raised? then Some(reply.failure) else None;
    }

    /** The stored outcome, when it answers this very request and its artifact is still on disk. */
    method Replay(call: Call, stored: Stored) returns (prior: Option<Outcome>)
      modifies this`world
      ensures prior == if stored.call == call && Intact(old(world), stored.outcome) then Some(stored.outcome) else None
    {
      if stored.call != call { return None; }
      if stored.outcome.Dumped? && stored.outcome.dump.artifact.Some? {
        var file := Answer(Reading);
        if !file.File? || (file.size, file.digest) != stored.outcome.dump.artifact.value { return None; }
      }
      return Some(stored.outcome);
    }

    /** The ledger's decision on this call, with the stored outcome when it can be replayed. */
    method Decide(call: Call) returns (decision: LedgerModel.Decision<Option<Outcome>>)
      modifies this`world, ledger
      ensures var (after, answer) := LedgerModel.ClaimInMemory(old(ledger.Contents()), call.Id(), call.fingerprint);
              && ledger.Contents() == after && Reflects(answer, decision)
              && (answer.Duplicate? ==>
                    decision == LedgerModel.Duplicate(
                      if answer.outcome.call == call && Intact(old(world), answer.outcome.outcome)
                      then Some(answer.outcome.outcome) else None))
    {
      hide Call.Id, Intact;
      var answer := ledger.Claim(call.Id(), call.fingerprint);
      match answer {
        case New => decision := LedgerModel.New;
        case Conflict => decision := LedgerModel.Conflict;
        case Active => decision := LedgerModel.Active;
        case RecoveryRequired => decision := LedgerModel.RecoveryRequired;
        case Duplicate(stored) =>
          var prior := Replay(call, stored);
          decision := LedgerModel.Duplicate(prior);
      }
    }

    method AskLedger(call: Call, ghost m: Ledger, ghost r: Registry) returns (decision: LedgerModel.Decision<Option<Outcome>>)
      requires log == [] && ledger.Contents() == m && registry.Contents() == r
      modifies this, ledger
      ensures At(call, AfterClaim(call, Claimed(decision))) && InStep(call, m, r)
      ensures log == [Event(Claiming, Claimed(decision))]
      ensures forall prior | Finished(m, call, prior) && Intact(old(world), prior) ::
                decision == LedgerModel.Duplicate(Some(prior)) && ledger.Contents() == m
    {
      decision := Decide(call);
      hide Intact;
      FinishedIsDuplicate(m, call);
      FirstEvent(m, r, call, Event(Claiming, Claimed(decision)));
      hide AfterClaim, LedgerAfter, RegistryAfter, TrueLog, Reflects, LedgerModel.ClaimInMemory, Call.Id;
      assert registry.Contents() == r;
      Record(call, Claiming, Claimed(decision), Stage.Claim);
      assert log == [Event(Claiming, Claimed(decision))];
    }

    lemma FinishedIsDuplicate(m: Ledger, call: Call)
      ensures forall prior | Finished(m, call, prior) ::
                LedgerModel.ClaimInMemory(m, call.Id(), call.fingerprint) == (m, LedgerModel.Duplicate(Stored(call, prior)))
    {
      hide Call.Id;
    }

    /** The result when the claim is not granted. */
    method Refuse(call: Call, decision: LedgerModel.Decision<Option<Outcome>>) returns (outcome: Outcome)
      requires decision != LedgerModel.New
      ensures AfterClaim(call, Claimed(decision)) == Returned(outcome)
    {
      match decision {
        case Duplicate(prior) =>
          if prior.Some? && prior.value.Dumped? == call.Dump? { return prior.value; }
          outcome := Refusal(call, Duplicated, "duplicate_operation");
        case Conflict =>
          outcome := Refusal(call, if call.Dump? then Rejected else Failed, "idempotency_conflict");
        case Active =>
          if call.Dump? {
            outcome := Refusal(call, Blocked, "concurrent_operation");
          } else {
            outcome := Refusal(call, Failed, "concurrent_restore");
          }
        case RecoveryRequired =>
          outcome := Refusal(call, RestartRecoveryRequired, "restart_recovery_required");
      }
    }

    /** The object names the artifact promises. */
    method InspectArtifact(size: nat, text: string) returns (v: Verdict)
      ensures v == ExpectedObjects(self, size, text)
    {
      if !self.mariadb { return Accept([]); }
      var scanner := new SqlScanner.Scanner(self.u);
      v := scanner.Inspect(text, size);
    }

    /** Completion inside the `try` block, followed by its `return`. */
    method ReturnInside(call: Call, outcome: Outcome, attempted: bool, ghost m: Ledger, ghost r: Registry) returns (tried: Tried)
      requires At(call, Stage.Complete(outcome, attempted, true)) && InStep(call, m, r)
      modifies this, ledger
      ensures InStep(call, m, r) && EndOfTry(call, tried)
    {
      var failure := CompleteClaim(call, outcome, attempted, true, m, r);
      return if failure.Some? then Raises(failure.value, attempted) else ReturnNow(outcome);
    }

    ghost predicate EndOfTry(call: Call, tried: Tried)
      reads this
    {
      match tried
      case ReturnNow(outcome) => At(call, Returned(outcome))
      case Fallthrough(outcome) => call.Restore? && At(call, Stage.Complete(outcome, true, false))
      case Raises(failure, attempted) => At(call, Handler(call, attempted, failure))
    }

    // ----- Restore -----

    /** The `try` block of `restore`, from the target's resolution to its precheck. */
    method TryRestore(call: Call, ghost m: Ledger, ghost r: Registry) returns (tried: Tried)
      requires call.Restore? && At(call, Stage.Resolve) && InStep(call, m, r)
      modifies this, ledger, registry
      ensures InStep(call, m, r) && EndOfTry(call, tried)
    {
      hide InStep, ExpectedObjects, RestoreFailure;
      var unresolved := AskRegistry(call, m, r);
      if unresolved.Some? { return Raises(unresolved.value, false); }

      var file := Perform(call, Reading, Stage.Read, m, r);
      if file.Raised? { return Raises(file.failure, false); }
      if file.size != call.manifest.size || file.digest != call.manifest.digest { return Raises(ArtifactError, false); }
      var inspected := InspectArtifact(file.size, file.text);
      if inspected.Reject? { return Raises(ScanFailure(inspected.error), false); }
      tried := TryEmptyTarget(call, inspected.names, m, r);
    }

    /** The precheck, and the rest of the block when it saw an empty target. */
    method TryEmptyTarget(call: Call, expected: seq<string>, ghost m: Ledger, ghost r: Registry) returns (tried: Tried)
      requires call.Restore? && At(call, RunPrecheck(expected)) && InStep(call, m, r)
      modifies this, ledger, registry
      ensures InStep(call, m, r) && EndOfTry(call, tried)
    {
      hide InStep;
      var precheck := Perform(call, Running(Precheck), RunPrecheck(expected), m, r);
      if precheck.Raised? { return Raises(precheck.failure, false); }
      if precheck.result.status != Passed {
        var d := Draft(precheck.result.status, precheck.result.reason, None);
        tried := ReturnInside(call, RestoreFailure(call, d, NoCleanup, None), false, m, r);
        return;
      }
      if precheck.result.database != Some(call.target.database) || precheck.result.objects != Some(0) {
        var d := Draft(Failed, "restore_target_not_empty", None);
        var outcome := QuarantineStatus(call, d, "restore_target_not_empty", false, true, m, r);
        tried := ReturnInside(call, outcome, false, m, r);
        return;
      }
      tried := TryLoad(call, expected, m, r);
    }

    /** The load and the verification. */
    method TryLoad(call: Call, expected: seq<string>, ghost m: Ledger, ghost r: Registry) returns (tried: Tried)
      requires call.Restore? && At(call, RunLoad(expected)) && InStep(call, m, r)
      modifies this, ledger, registry
      ensures InStep(call, m, r) && EndOfTry(call, tried)
    {
      hide InStep, VerificationOf;
      var load := Perform(call, Running(Load), RunLoad(expected), m, r);
      if load.Raised? { return Raises(load.failure, false); }
      if load.result.status != Passed {
        var outcome := CleanupStatus(call, Draft(load.result.status, load.result.reason, None), true, m, r);
        tried := ReturnInside(call, outcome, true, m, r);
        return;
      }

      var verify := Perform(call, Running(Verify), RunVerify(expected), m, r);
      if verify.Raised? { return Raises(verify.failure, true); }
      var v := VerificationOf(call, expected, verify.result);
      if v.status != Passed {
        var outcome := CleanupStatus(call, Draft(v.status, v.reason, Some(v)), true, m, r);
        tried := ReturnInside(call, outcome, true, m, r);
        return;
      }
      var digest := call.manifest.digest;
      return Fallthrough(Restored(Evidence(Passed, "ok", digest, Some(digest), Some(v), NoCleanup, None)));
    }

    /** The `except` clauses of `restore`. */
    method HandleRestore(call: Call, failure: Failure, attempted: bool, ghost m: Ledger, ghost r: Registry) returns (outcome: Outcome)
      requires call.Restore? && At(call, RestoreHandler(call, attempted, failure)) && InStep(call, m, r)
      modifies this, registry
      ensures At(call, Stage.Complete(outcome, attempted, false)) && InStep(call, m, r)
    {
      var reason := match failure
        case CredentialError => "credential_unavailable"
        case RestoreError => "restore_target_unavailable"
        case ArtifactError => "restore_artifact_invalid"
        case OtherError => "database_restore_failed";
      var d := Draft(Failed, reason, None);
      if attempted {
        outcome := CleanupStatus(call, d, false, m, r);
      } else {
        outcome := RestoreFailure(call, d, NoCleanup, None);
      }
    }

    /** `restore` once its claim is granted. */
    method RestoreGranted(call: Call, ghost m: Ledger, ghost r: Registry) returns (end: Stage)
      requires call.Restore? && At(call, Stage.Resolve) && InStep(call, m, r)
      modifies this, ledger, registry
      ensures At(call, end) && (end.Returned? || end.Propagated?) && InStep(call, m, r)
    {
      hide InStep;
      var tried := TryRestore(call, m, r);
      var outcome: Outcome;
      var attempted := true;
      match tried {
        case ReturnNow(result) =>
          return Returned(result);
        case Fallthrough(result) => outcome := result;
        case Raises(failure, tries) =>
          outcome := HandleRestore(call, failure, tries, m, r);
          attempted := tries;
      }
      var failure := CompleteClaim(call, outcome, attempted, false, m, r);
      if failure.Some? { return Propagated(failure.value); }
      return Returned(outcome);
    }

    /** `restore`: its log is a run of the call machine that ends with what it returns or raises, the
        ledger and the registry are what that log makes of them, the evidence is what the replies call
        for, PASSED means proven, and a finished operation is replayed. */
    method Restore(call: Call) returns (end: Stage)
      requires call.Restore?
      modifies this, ledger, registry
      ensures At(call, end) && (end.Returned? || end.Propagated?)
      ensures InStep(call, old(ledger.Contents()), old(registry.Contents()))
      ensures end.Returned? && Observed(log).granted ==>
                (end.outcome.Status() == Passed <==> Proven(self, call, Observed(log)))
      ensures end.Returned? && Heard(log).claim == Some(Claimed(LedgerModel.New)) ==>
                end.outcome == Restored(RestoreAccount(self, call, Heard(log)))
      ensures forall prior | Finished(old(ledger.Contents()), call, prior) ::
                end == Returned(prior) && |log| == 1 && ledger.Contents() == old(ledger.Contents())
                && registry.Contents() == old(registry.Contents())
    {
      ghost var m, r := ledger.Contents(), registry.Contents();
      log := [];
      var decision := AskLedger(call, m, r);
      RestoresAreIntact(call, m, old(world));
      if decision != LedgerModel.New {
        var refusal := Refuse(call, decision);
        NotGranted(decision);
        hide *;
        ReplayIsReturned(call, decision, refusal);
        return Returned(refusal);
      }
      assert forall prior :: !Finished(m, call, prior);
      hide *;
      end := RestoreGranted(call, m, r);
      if end.Returned? { RestoreAtEnd(call, end.outcome); }
    }

    lemma RestoresAreIntact(call: Call, m: Ledger, world: seq<Reply>)
      requires call.Restore?
      ensures forall prior | Finished(m, call, prior) :: Intact(world, prior)
    {
    }

    lemma NotGranted(decision: LedgerModel.Decision<Option<Outcome>>)
      requires log == [Event(Claiming, Claimed(decision))] && decision != LedgerModel.New
      ensures !Observed(log).granted && Heard(log).claim != Some(Claimed(LedgerModel.New))
    {
      assert log[..0] == [];
    }

    lemma ReplayIsReturned(call: Call, decision: LedgerModel.Decision<Option<Outcome>>, outcome: Outcome)
      requires AfterClaim(call, Claimed(decision)) == Returned(outcome)
      ensures forall prior: Outcome | decision == LedgerModel.Duplicate(Some(prior)) && prior.Dumped? == call.Dump? ::
                outcome == prior
    {
    }

    lemma RestoreAtEnd(call: Call, outcome: Outcome)
      requires call.Restore? && At(call, Returned(outcome))
      ensures outcome.Restored? && (Observed(log).granted ==> (outcome.Status() == Passed <==> Proven(self, call, Observed(log))))
      ensures Heard(log).claim == Some(Claimed(LedgerModel.New)) ==> outcome == Restored(RestoreAccount(self, call, Heard(log)))
    {
      RestoreExplained(self, call, log);
      if Heard(log).claim == Some(Claimed(LedgerModel.New)) { RestoreIsAccounted(self, call, log, outcome); }
      hide StageAfter, Observed, Heard, RestoreAccount;
    }

    // ----- Dump -----

    /** The `try` block of `dump`. */
    method TryDump(call: Call, ghost m: Ledger, ghost r: Registry) returns (tried: Tried)
      requires call.Dump? && At(call, Stage.Prepare) && InStep(call, m, r)
      modifies this, ledger
      ensures InStep(call, m, r) && EndOfTry(call, tried) && !tried.Fallthrough?
    {
      var prepared := Perform(call, Preparing, Stage.Prepare, m, r);
      if prepared.Raised? { return Raises(prepared.failure, false); }
      var run := Perform(call, Running(DumpRun), Stage.RunDump, m, r);
      if run.Raised? { return Raises(run.failure, false); }
      if run.result.status != Passed {
        tried := ReturnInside(call, Dumped(DumpFailure(run.result.status, run.result.reason)), false, m, r);
        return;
      }
      var file := Perform(call, Reading, Measure(run.result), m, r);
      if file.Raised? { return Raises(file.failure, false); }
      if run.result.artifact != Some((file.size, file.digest)) { return Raises(ArtifactError, false); }
      var inspected := InspectArtifact(file.size, file.text);
      if inspected.Reject? { return Raises(ScanFailure(inspected.error), false); }
      tried := ReturnInside(call, Dumped(DumpResult(Passed, "ok", Some((file.size, file.digest)))), false, m, r);
    }

    /** `dump` once its claim is granted. */
    method DumpGranted(call: Call, ghost m: Ledger, ghost r: Registry) returns (end: Stage)
      requires call.Dump? && At(call, Stage.Prepare) && InStep(call, m, r)
      modifies this, ledger
      ensures At(call, end) && (end.Returned? || end.Propagated?) && InStep(call, m, r)
    {
      hide InStep;
      var tried := TryDump(call, m, r);
      if tried.ReturnNow? { return Returned(tried.outcome); }
      var result := match tried.failure
        case CredentialError => DumpFailure(Blocked, "credential_unavailable")
        case RestoreError => DumpFailure(Failed, "dump_artifact_unsafe")
        case ArtifactError => DumpFailure(Failed, "dump_artifact_invalid")
        case OtherError => DumpFailure(Failed, "database_dump_failed");
      var discarded := Perform(call, Discarding, Discard(result), m, r);
      var failure := CompleteClaim(call, Dumped(result), false, false, m, r);
      return if failure.Some? then Propagated(failure.value) else Returned(Dumped(result));
    }

    /** `dump`, with the same contract; it replays a finished dump while its artifact is still there. */
    method Dump(call: Call) returns (end: Stage)
      requires call.Dump?
      modifies this, ledger
      ensures At(call, end) && (end.Returned? || end.Propagated?)
      ensures InStep(call, old(ledger.Contents()), old(registry.Contents()))
      ensures end.Returned? && Observed(log).granted ==>
                (end.outcome.Status() == Passed <==> DumpProven(self, Observed(log)) && !Observed(log).completionFailed)
      ensures end.Returned? && Heard(log).claim == Some(Claimed(LedgerModel.New)) ==>
                end.outcome == Dumped(DumpAccount(self, Heard(log)))
      ensures forall prior | Finished(old(ledger.Contents()), call, prior) && Intact(old(world), prior) ::
                end == Returned(prior) && |log| == 1 && ledger.Contents() == old(ledger.Contents())
    {
      ghost var m, r := ledger.Contents(), registry.Contents();
      log := [];
      var decision := AskLedger(call, m, r);
      assert forall prior | Finished(m, call, prior) :: prior.Dumped? == call.Dump?;
      if decision != LedgerModel.New {
        var refusal := Refuse(call, decision);
        NotGranted(decision);
        hide *;
        ReplayIsReturned(call, decision, refusal);
        return Returned(refusal);
      }
      assert forall prior :: !(Finished(m, call, prior) && Intact(old(world), prior));
      hide *;
      end := DumpGranted(call, m, r);
      if end.Returned? { DumpAtEnd(call, end.outcome); }
    }

    lemma DumpAtEnd(call: Call, outcome: Outcome)
      requires call.Dump? && At(call, Returned(outcome))
      ensures outcome.Dumped?
      ensures Observed(log).granted ==>
                (outcome.Status() == Passed <==> DumpProven(self, Observed(log)) && !Observed(log).completionFailed)
      ensures Heard(log).claim == Some(Claimed(LedgerModel.New)) ==> outcome == Dumped(DumpAccount(self, Heard(log)))
    {
      DumpExplained(self, call, log);
      if Heard(log).claim == Some(Claimed(LedgerModel.New)) { DumpIsAccounted(self, call, log, outcome); }
      hide StageAfter, Observed, Heard, DumpAccount;
    }
  }
}
