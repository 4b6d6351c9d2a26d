/** What the result of a `dump` or `restore` call says about what happened during the call. */
module RestoreEvidence {
  import opened Common
  import opened SqlPolicy
  import opened DatabaseCall
  import LedgerModel
  import SqlGuarantees
  import SqlLines
  import SqlTokenizer

  // ----- What a log shows -----

  /** The replies a call has received so far. */
  datatype Seen = Seen(
    granted: bool, file: Option<Reply>, dump: Option<Reply>,
    precheck: Option<Reply>, load: Option<Reply>, verify: Option<Reply>,
    runs: seq<Operation>, quarantined: bool, completionFailed: bool)

  const NOTHING := Seen(false, None, None, None, None, None, [], false, false)

  function Noticed(s: Seen, e: Event): Seen {
    match e.action
    case Claiming => s.(granted := e.reply == Claimed(LedgerModel.New))
    case Reading => s.(file := Some(e.reply))
    case Running(DumpRun) => s.(dump := Some(e.reply), runs := s.runs + [DumpRun])
    case Running(Precheck) => s.(precheck := Some(e.reply), runs := s.runs + [Precheck])
    case Running(Load) => s.(load := Some(e.reply), runs := s.runs + [Load])
    case Running(Verify) => s.(verify := Some(e.reply), runs := s.runs + [Verify])
    case Quarantining(_) => s.(quarantined := s.quarantined || e.reply.Reference?)
    case Completing(_) => s.(completionFailed := s.completionFailed || e.reply.Raised?)
    case _ => s
  }

  function Observed(log: seq<Event>): Seen {
    if log == [] then NOTHING else Noticed(Observed(log[..|log| - 1]), log[|log| - 1])
  }

  predicate PassedReply(reply: Option<Reply>) {
    reply.Some? && reply.value.Result? && reply.value.result.status == Passed
  }

  /** The objects promised by the artifact that was read, when it matches its manifest and is accepted. */
  function Promised(a: Adapter, call: Call, s: Seen): Option<seq<string>>
    requires call.Restore?
  {
    if s.file.Some? && s.file.value.File? && s.file.value.size == call.manifest.size
       && s.file.value.digest == call.manifest.digest
       && ExpectedObjects(a, s.file.value.size, s.file.value.text).Accept?
    then Some(ExpectedObjects(a, s.file.value.size, s.file.value.text).names)
    else None
  }

  /** The precheck saw the right database with no objects in it. */
  predicate TargetWasEmpty(call: Call, s: Seen)
    requires call.Restore?
  {
    PassedReply(s.precheck)
    && s.precheck.value.result.database == Some(call.target.database) && s.precheck.value.result.objects == Some(0)
  }

  predicate TargetWasNotEmpty(call: Call, s: Seen)
    requires call.Restore?
  {
    PassedReply(s.precheck) && !TargetWasEmpty(call, s)
  }

  predicate LoadReturned(s: Seen) { s.load.Some? && s.load.value.Result? }

  /** The recount saw the right database with as many objects as promised, or at least one if nothing was. */
  predicate Recounted(call: Call, s: Seen, expected: seq<string>)
    requires call.Restore?
  {
    && PassedReply(s.verify)
    && s.verify.value.result.database == Some(call.target.database)
    && s.verify.value.result.objects.Some?
    && var count := s.verify.value.result.objects.value;
       if expected == [] then count >= 1 else count == |expected|
  }

  /** Everything a passed restore stands for. */
  predicate Proven(a: Adapter, call: Call, s: Seen)
    requires call.Restore?
  {
    && Promised(a, call, s).Some?
    && TargetWasEmpty(call, s)
    && PassedReply(s.load)
    && Recounted(call, s, Promised(a, call, s).value)
  }

  // ----- The invariant of a restore -----

  predicate Undecided(s: Seen) {
    s.granted && s.verify == None && !s.quarantined && !s.completionFailed && s.dump == None
  }

  /** Why the failure evidence of a restore names a cleanup disposition. */
  predicate NeedsDisposition(call: Call, s: Seen, status: OperationStatus)
    requires call.Restore?
  {
    (LoadReturned(s) && status != Passed) || (TargetWasNotEmpty(call, s) && !s.completionFailed)
  }

  predicate Justified(a: Adapter, call: Call, s: Seen, e: Evidence)
    requires call.Restore?
  {
    && s.granted
    && e.Constructible()
    && e.artifactDigest == call.manifest.digest
    && (e.status == Passed <==> Proven(a, call, s))
    && (e.cleanup != NoCleanup <==> NeedsDisposition(call, s, e.status))
    && (e.cleanup == Quarantined ==> s.quarantined)
    && (TargetWasNotEmpty(call, s) ==> s.load == None)
    && s.runs <= [Precheck, Load, Verify]
    && (s.load.Some? ==> TargetWasEmpty(call, s))
  }

  predicate JustifiedDraft(a: Adapter, call: Call, s: Seen, d: Draft)
    requires call.Restore?
  {
    && s.granted && d.status != Passed && !Proven(a, call, s)
    && s.runs <= [Precheck, Load, Verify]
    && (s.load.Some? ==> TargetWasEmpty(call, s))
  }

  /** How the stage a restore has reached follows from what it has seen. */
  predicate Explains(a: Adapter, call: Call, s: Seen, stage: Stage)
    requires call.Restore?
  {
    match stage
    case Claim => s == NOTHING
    case Resolve => s == NOTHING.(granted := true)
    case Read => s == NOTHING.(granted := true)
    case RunPrecheck(expected) =>
      Undecided(s) && Promised(a, call, s) == Some(expected) && s.precheck == None && s.load == None && s.runs == []
    case RunLoad(expected) =>
      Undecided(s) && Promised(a, call, s) == Some(expected) && TargetWasEmpty(call, s) && s.load == None
      && s.runs == [Precheck]
    case RunVerify(expected) =>
      Undecided(s) && Promised(a, call, s) == Some(expected) && TargetWasEmpty(call, s) && PassedReply(s.load)
      && s.runs == [Precheck, Load]
    case CleanUp(d, guarded) =>
      JustifiedDraft(a, call, s, d) && LoadReturned(s)
      && (guarded ==> !s.completionFailed) && (s.quarantined ==> s.completionFailed)
    case Quarantine(d, _, attempted, guarded) =>
      && JustifiedDraft(a, call, s, d)
      && attempted == LoadReturned(s) && (guarded ==> !s.completionFailed)
      && (attempted || (TargetWasNotEmpty(call, s) && s.load == None && guarded))
      && (s.quarantined ==> s.completionFailed)
    case Complete(o, attempted, guarded) =>
      o.Restored? && Justified(a, call, s, o.evidence) && attempted == LoadReturned(s)
      && (guarded ==> !s.completionFailed && o.evidence.status != Passed)
    case Returned(o) => o.Restored? && (s.granted ==> Justified(a, call, s, o.evidence)) && (!s.granted ==> s.runs == [])
    case Propagated(_) => s.runs <= [Precheck, Load, Verify] && (s.load.Some? ==> TargetWasEmpty(call, s))
    case _ => false
  }

  lemma HandlerExplains(a: Adapter, call: Call, s: Seen, attempted: bool, f: Failure)
    requires call.Restore? && s.granted && !Proven(a, call, s) && attempted == LoadReturned(s)
    requires s.runs <= [Precheck, Load, Verify] && (s.load.Some? ==> TargetWasEmpty(call, s))
    requires TargetWasNotEmpty(call, s) ==> s.completionFailed && s.load == None
    requires s.quarantined ==> s.completionFailed
    ensures Explains(a, call, s, RestoreHandler(call, attempted, f))
  {
    hide ExpectedObjects;
  }

  lemma EarlyStages(a: Adapter, call: Call, s: Seen, stage: Stage, reply: Reply)
    requires call.Restore? && KindFits(call, stage) && Explains(a, call, s, stage)
    requires stage == Stage.Claim || stage == Resolve || stage == Read
    requires Fits(NextAction(stage).value, reply)
    ensures Explains(a, call, Noticed(s, Event(NextAction(stage).value, reply)), Next(a, call, stage, reply))
  {
    hide ExpectedObjects;
    var next := Noticed(s, Event(NextAction(stage).value, reply));
    if stage != Stage.Claim { HandlerExplains(a, call, next, false, OtherError); }
  }

  lemma PrecheckStage(a: Adapter, call: Call, s: Seen, expected: seq<string>, reply: Reply)
    requires call.Restore? && Explains(a, call, s, RunPrecheck(expected)) && Fits(Running(Precheck), reply)
    ensures Explains(a, call, Noticed(s, Event(Running(Precheck), reply)), AfterPrecheck(call, expected, reply))
  {
    hide ExpectedObjects;
    var next := Noticed(s, Event(Running(Precheck), reply));
    assert Promised(a, call, next) == Promised(a, call, s);
    assert next.runs == [Precheck];
    if reply.Raised? { HandlerExplains(a, call, next, false, reply.failure); }
  }

  lemma LoadStage(a: Adapter, call: Call, s: Seen, expected: seq<string>, reply: Reply)
    requires call.Restore? && Explains(a, call, s, RunLoad(expected)) && Fits(Running(Load), reply)
    ensures Explains(a, call, Noticed(s, Event(Running(Load), reply)), AfterLoad(call, expected, reply))
  {
    hide ExpectedObjects;
    var next := Noticed(s, Event(Running(Load), reply));
    assert Promised(a, call, next) == Promised(a, call, s);
    assert next.runs == [Precheck, Load];
    if reply.Raised? { HandlerExplains(a, call, next, false, reply.failure); }
  }

  lemma VerifyStage(a: Adapter, call: Call, s: Seen, expected: seq<string>, reply: Reply)
    requires call.Restore? && Explains(a, call, s, RunVerify(expected)) && Fits(Running(Verify), reply)
    ensures Explains(a, call, Noticed(s, Event(Running(Verify), reply)), AfterVerify(call, expected, reply))
  {
    hide ExpectedObjects;
    var next := Noticed(s, Event(Running(Verify), reply));
    assert Promised(a, call, next) == Promised(a, call, s);
    assert next.runs == [Precheck, Load, Verify];
    if reply.Raised? { HandlerExplains(a, call, next, true, reply.failure); }
  }

  lemma CleanUpStage(a: Adapter, call: Call, s: Seen, d: Draft, guarded: bool, reply: Reply)
    requires call.Restore? && Explains(a, call, s, CleanUp(d, guarded)) && Fits(Cleaning, reply)
    ensures Explains(a, call, Noticed(s, Event(Cleaning, reply)), AfterCleanUp(call, d, guarded, reply))
  {
    hide ExpectedObjects, Promised, Recounted;
  }

  lemma QuarantineStage(a: Adapter, call: Call, s: Seen, d: Draft, code: string, attempted: bool, guarded: bool, reply: Reply)
    requires call.Restore? && Explains(a, call, s, Quarantine(d, code, attempted, guarded)) && Fits(Quarantining(code), reply)
    ensures Explains(a, call, Noticed(s, Event(Quarantining(code), reply)), AfterQuarantine(call, d, attempted, guarded, reply))
  {
    hide ExpectedObjects;
    assert Promised(a, call, Noticed(s, Event(Quarantining(code), reply))) == Promised(a, call, s);
  }

  lemma CompleteStage(a: Adapter, call: Call, s: Seen, o: Outcome, attempted: bool, guarded: bool, reply: Reply)
    requires call.Restore? && Explains(a, call, s, Stage.Complete(o, attempted, guarded)) && Fits(Completing(o), reply)
    ensures Explains(a, call, Noticed(s, Event(Completing(o), reply)), Next(a, call, Stage.Complete(o, attempted, guarded), reply))
  {
    hide ExpectedObjects;
    var next := Noticed(s, Event(Completing(o), reply));
    assert Promised(a, call, next) == Promised(a, call, s);
    if reply.Raised? && guarded {
      HandlerExplains(a, call, next, attempted, reply.failure);
    }
  }

  lemma StepExplains(a: Adapter, call: Call, s: Seen, stage: Stage, reply: Reply)
    requires call.Restore? && KindFits(call, stage) && Explains(a, call, s, stage)
    requires NextAction(stage).Some? && Fits(NextAction(stage).value, reply)
    ensures Explains(a, call, Noticed(s, Event(NextAction(stage).value, reply)), Next(a, call, stage, reply))
  {
    hide Explains, Noticed, AfterClaim, AfterRead, AfterPrecheck, AfterLoad, AfterVerify, AfterCleanUp, AfterQuarantine;
    match stage {
      case RunPrecheck(expected) => PrecheckStage(a, call, s, expected, reply);
      case RunLoad(expected) => LoadStage(a, call, s, expected, reply);
      case RunVerify(expected) => VerifyStage(a, call, s, expected, reply);
      case CleanUp(d, guarded) => CleanUpStage(a, call, s, d, guarded, reply);
      case Quarantine(d, code, attempted, guarded) => QuarantineStage(a, call, s, d, code, attempted, guarded, reply);
      case Complete(o, attempted, guarded) => CompleteStage(a, call, s, o, attempted, guarded, reply);
      case _ => EarlyStages(a, call, s, stage, reply);
    }
  }

  lemma {:induction false} RestoreExplained(a: Adapter, call: Call, log: seq<Event>)
    requires call.Restore? && StageAfter(a, call, log).Some?
    ensures Explains(a, call, Observed(log), StageAfter(a, call, log).value)
    decreases |log|
  {
    hide Noticed, Next, Explains, Fits, KindFits;
    if log != [] {
      RestoreExplained(a, call, log[..|log| - 1]);
      StepExplains(a, call, Observed(log[..|log| - 1]), StageAfter(a, call, log[..|log| - 1]).value, log[|log| - 1].reply);
    } else {
      NothingExplains(a, call);
    }
  }

  lemma NothingExplains(a: Adapter, call: Call)
    requires call.Restore?
    ensures Explains(a, call, NOTHING, Stage.Claim)
  {
  }

  // ----- What restore promises -----

  /** A restore that was granted its claim returns PASSED exactly when, in that call, the artifact
      matched its manifest and was accepted, the precheck saw the right database with no objects,
      the load passed, and the recount matched. */
  lemma PassedMeansProven(a: Adapter, call: Call, log: seq<Event>, e: Evidence)
    requires call.Restore? && StageAfter(a, call, log) == Some(Returned(Restored(e))) && Observed(log).granted
    ensures e.status == Passed <==> Proven(a, call, Observed(log))
  {
    RestoreExplained(a, call, log);
    hide StageAfter, Observed;
  }

  /** The evidence names a cleanup disposition, with a reference, exactly when the load call returned
      and the result is not PASSED, or the target was found occupied and the ledger took the outcome. */
  lemma DispositionIsRecorded(a: Adapter, call: Call, log: seq<Event>, e: Evidence)
    requires call.Restore? && StageAfter(a, call, log) == Some(Returned(Restored(e))) && Observed(log).granted
    ensures e.cleanup != NoCleanup <==> NeedsDisposition(call, Observed(log), e.status)
    ensures e.cleanup != NoCleanup <==> e.reference.Some?
    ensures e.cleanup == Quarantined ==> Observed(log).quarantined
  {
    RestoreExplained(a, call, log);
    hide StageAfter, Observed;
  }

  /** The broker runs at most the precheck, the load and the verification, in that order and once
      each, and the load only against a target seen empty. */
  lemma RunsInOrder(a: Adapter, call: Call, log: seq<Event>)
    requires call.Restore? && StageAfter(a, call, log).Some?
    ensures Observed(log).runs <= [Precheck, Load, Verify]
    ensures Observed(log).load.Some? || StageAfter(a, call, log).value.RunLoad? ==> TargetWasEmpty(call, Observed(log))
  {
    RestoreExplained(a, call, log);
    hide StageAfter, Observed;
  }

  // ----- Refused outcomes -----

  predicate VerifyRaised(s: Seen) { s.verify.Some? && s.verify.value.Raised? }

  /** No exception has left the guarded block yet, so that an outcome other than PASSED is completed
      inside it. */
  predicate Inside(s: Seen) { !s.completionFailed && !VerifyRaised(s) }

  /** Which stages of a restore are guarded, as far as its log decides it. */
  predicate Guarding(s: Seen, stage: Stage) {
    match stage
    case CleanUp(d, guarded) =>
      d.status != Passed && (guarded <==> Inside(s)) && !(s.completionFailed && VerifyRaised(s))
    case Quarantine(d, _, _, guarded) => d.status != Passed && (guarded <==> Inside(s))
    case Complete(o, attempted, guarded) =>
      && o.Restored? && (s.quarantined ==> o.evidence.status != Passed)
      && (attempted || s.quarantined ==> (guarded <==> Inside(s) && o.evidence.status != Passed))
    case _ => true
  }

  lemma HandlerGuards(call: Call, s: Seen, attempted: bool, f: Failure)
    requires call.Restore? && (attempted ==> s.completionFailed != VerifyRaised(s))
    requires s.quarantined ==> s.completionFailed
    ensures Guarding(s, RestoreHandler(call, attempted, f))
  {
  }

  lemma EarlyGuards(a: Adapter, call: Call, s: Seen, stage: Stage, reply: Reply)
    requires call.Restore? && KindFits(call, stage) && Explains(a, call, s, stage)
    requires stage.Claim? || stage.Resolve? || stage.Read? || stage.RunPrecheck? || stage.RunLoad?
    requires Fits(NextAction(stage).value, reply)
    ensures Guarding(Noticed(s, Event(NextAction(stage).value, reply)), Next(a, call, stage, reply))
  {
    hide ExpectedObjects, Promised, Recounted, RestoreHandler, Guarding;
    var next := Noticed(s, Event(NextAction(stage).value, reply));
    assert !next.quarantined && !next.completionFailed && next.verify == None;
    GuardingBeforeVerify(a, call, next, stage, reply);
  }

  lemma GuardingBeforeVerify(a: Adapter, call: Call, next: Seen, stage: Stage, reply: Reply)
    requires call.Restore? && KindFits(call, stage) && !next.quarantined && !next.completionFailed && next.verify == None
    requires stage.Claim? || stage.Resolve? || stage.Read? || stage.RunPrecheck? || stage.RunLoad?
    requires Fits(NextAction(stage).value, reply)
    ensures Guarding(next, Next(a, call, stage, reply))
  {
    hide ExpectedObjects;
  }

  lemma VerifyGuards(a: Adapter, call: Call, s: Seen, expected: seq<string>, reply: Reply)
    requires call.Restore? && Explains(a, call, s, RunVerify(expected)) && Fits(Running(Verify), reply)
    ensures Guarding(Noticed(s, Event(Running(Verify), reply)), AfterVerify(call, expected, reply))
  {
    hide ExpectedObjects, Promised, Recounted;
  }

  lemma CompletionGuards(a: Adapter, call: Call, s: Seen, o: Outcome, attempted: bool, guarded: bool, reply: Reply)
    requires call.Restore? && Guarding(s, Stage.Complete(o, attempted, guarded)) && Fits(Completing(o), reply)
    ensures Guarding(Noticed(s, Event(Completing(o), reply)), Next(a, call, Stage.Complete(o, attempted, guarded), reply))
  {
    if reply.Raised? && guarded {
      HandlerGuards(call, Noticed(s, Event(Completing(o), reply)), attempted, reply.failure);
    }
  }

  lemma DispositionGuards(a: Adapter, call: Call, s: Seen, stage: Stage, reply: Reply)
    requires call.Restore? && (stage.CleanUp? || stage.Quarantine?) && Guarding(s, stage)
    requires Fits(NextAction(stage).value, reply)
    ensures Guarding(Noticed(s, Event(NextAction(stage).value, reply)), Next(a, call, stage, reply))
  {
  }

  lemma StepGuards(a: Adapter, call: Call, s: Seen, stage: Stage, reply: Reply)
    requires call.Restore? && KindFits(call, stage) && Explains(a, call, s, stage) && Guarding(s, stage)
    requires NextAction(stage).Some? && Fits(NextAction(stage).value, reply)
    ensures Guarding(Noticed(s, Event(NextAction(stage).value, reply)), Next(a, call, stage, reply))
  {
    hide Guarding, Noticed, AfterClaim, AfterRead, AfterPrecheck, AfterLoad, AfterVerify, AfterCleanUp, AfterQuarantine;
    match stage {
      case RunVerify(expected) => VerifyGuards(a, call, s, expected, reply);
      case CleanUp(_, _) => DispositionGuards(a, call, s, stage, reply);
      case Quarantine(_, _, _, _) => DispositionGuards(a, call, s, stage, reply);
      case Complete(o, attempted, guarded) => CompletionGuards(a, call, s, o, attempted, guarded, reply);
      case _ => EarlyGuards(a, call, s, stage, reply);
    }
  }

  lemma {:induction false} RestoreGuarded(a: Adapter, call: Call, log: seq<Event>)
    requires call.Restore? && StageAfter(a, call, log).Some?
    ensures Guarding(Observed(log), StageAfter(a, call, log).value)
    decreases |log|
  {
    hide Noticed, Next, Explains, Guarding, Fits, KindFits;
    if log != [] {
      var before := log[..|log| - 1];
      RestoreGuarded(a, call, before);
      RestoreExplained(a, call, before);
      StepGuards(a, call, Observed(before), StageAfter(a, call, before).value, log[|log| - 1].reply);
    } else {
      NothingGuards();
    }
  }

  lemma NothingGuards()
    ensures Guarding(NOTHING, Stage.Claim)
  {
  }

  /** When the ledger refuses the outcome of a restore, the cleanup of the target is asked next, of
      a quarantined target too, exactly when the load had returned, the outcome is not PASSED, and
      neither the verification nor an earlier completion had raised. */
  lemma RefusedOutcomeIsCleanedUp(a: Adapter, call: Call, log: seq<Event>, e: Evidence, f: Failure)
    requires call.Restore? && StageAfter(a, call, log).Some? && log != []
    requires log[|log| - 1] == Event(Completing(Restored(e)), Raised(f))
    ensures var before := Observed(log[..|log| - 1]);
            StageAfter(a, call, log).value.CleanUp? <==> LoadReturned(before) && e.status != Passed && Inside(before)
    ensures Observed(log).quarantined ==> Observed(log[..|log| - 1]).quarantined && e.status != Passed
  {
    var before := log[..|log| - 1];
    RestoreExplained(a, call, before);
    RestoreGuarded(a, call, before);
    hide StageAfter, Justified;
    RefusalLeads(a, call, Observed(before), StageAfter(a, call, before).value, e, f);
  }

  lemma RefusalLeads(a: Adapter, call: Call, s: Seen, stage: Stage, e: Evidence, f: Failure)
    requires call.Restore? && KindFits(call, stage) && Explains(a, call, s, stage) && Guarding(s, stage)
    requires NextAction(stage) == Some(Completing(Restored(e)))
    ensures Next(a, call, stage, Raised(f)).CleanUp? <==> LoadReturned(s) && e.status != Passed && Inside(s)
    ensures s.quarantined ==> e.status != Passed
  {
    hide Justified;
  }

  /** Once a call has quarantined its target it asks the broker for no further run, and for a cleanup
      only if the ledger has refused its outcome, its load returned and its verification, if it was
      made, did not raise. */
  lemma QuarantineEndsRuns(a: Adapter, call: Call, log: seq<Event>)
    requires call.Restore? && StageAfter(a, call, log).Some? && Observed(log).quarantined
    ensures NextAction(StageAfter(a, call, log).value).Some? ==> !NextAction(StageAfter(a, call, log).value).value.Running?
    ensures StageAfter(a, call, log).value.CleanUp? ==> Recleaned(Observed(log))
  {
    RestoreExplained(a, call, log);
    RestoreGuarded(a, call, log);
    hide StageAfter, Observed;
  }

  predicate Recleaned(s: Seen) { s.completionFailed && LoadReturned(s) && !VerifyRaised(s) }

  /** The evidence and verification constructors accept whatever a granted restore gives them. */
  lemma ConstructorsAccept(a: Adapter, call: Call, log: seq<Event>)
    requires call.Restore? && StageAfter(a, call, log).Some? && StageAfter(a, call, log).value.Complete?
    ensures var o := StageAfter(a, call, log).value.outcome; o.Restored? && o.evidence.Constructible()
  {
    RestoreExplained(a, call, log);
    hide StageAfter, Observed;
  }

  lemma VerificationIsConstructible(call: Call, expected: seq<string>, r: BrokerResult)
    requires call.Restore?
    ensures VerificationOf(call, expected, r).Constructible()
    ensures VerificationOf(call, expected, r).status == Passed <==>
              (PassedReply(Some(Result(r))) && Recounted(call, NOTHING.(verify := Some(Result(r))), expected))
  {
  }

  /** The tables and views created by the dump that was read. */
  ghost function CreatedObjects(a: Adapter, call: Call, s: Seen): seq<string>
    requires call.Restore? && Promised(a, call, s).Some?
  {
    var t := SqlTokenizer.Code(a.u, SqlLines.Cleaned(s.file.value.text), false);
    SqlGuarantees.Created(a.u, SqlGuarantees.Statements(t.items, []))
  }

  /** For MariaDB the recount of a passed restore is the number of tables and views the dump creates. */
  lemma RecountCountsCreatedObjects(a: Adapter, call: Call, log: seq<Event>, e: Evidence)
    requires call.Restore? && a.mariadb && Sane(a.u)
    requires StageAfter(a, call, log) == Some(Returned(Restored(e))) && Observed(log).granted && e.status == Passed
    ensures Proven(a, call, Observed(log))
    ensures var s := Observed(log);
            var created, names := CreatedObjects(a, call, s), Promised(a, call, s).value;
            && SqlGuarantees.Distinct(names) && (forall x :: x in names <==> x in created)
            && (created != [] ==> s.verify.value.result.objects == Some(|names|))
  {
    PassedMeansProven(a, call, log, e);
    var s := Observed(log);
    hide StageAfter, Observed;
    SqlGuarantees.AcceptedDumps(a.u, s.file.value.text, s.file.value.size);
    var created, names := CreatedObjects(a, call, s), Promised(a, call, s).value;
    hide SqlGuarantees.AllPermitted, SqlLines.Inspect, SqlTokenizer.Code, SqlGuarantees.Created;
    if created != [] { assert created[0] in names; }
  }

  // ----- Dump -----

  predicate DumpProven(a: Adapter, s: Seen) {
    && PassedReply(s.dump)
    && s.file.Some? && s.file.value.File?
    && s.dump.value.result.artifact == Some((s.file.value.size, s.file.value.digest))
    && ExpectedObjects(a, s.file.value.size, s.file.value.text).Accept?
  }

  predicate JustifiedDump(a: Adapter, s: Seen, d: DumpResult) {
    && s.granted && s.runs <= [DumpRun] && d.Constructible()
    && (d.status == Passed <==> DumpProven(a, s) && !s.completionFailed)
    && (d.status == Passed ==> d.artifact == s.dump.value.result.artifact)
  }

  predicate ExplainsDump(a: Adapter, s: Seen, stage: Stage) {
    match stage
    case Claim => s == NOTHING
    case Prepare => s == NOTHING.(granted := true)
    case RunDump => s == NOTHING.(granted := true)
    case Measure(r) => s.granted && s.dump == Some(Result(r)) && r.status == Passed && s.runs == [DumpRun] && !s.completionFailed
    case Discard(d) => JustifiedDump(a, s, d) && d.status != Passed
    case Complete(o, _, guarded) =>
      o.Dumped? && JustifiedDump(a, s, o.dump) && (guarded ==> !s.completionFailed) && (!guarded ==> o.dump.status != Passed)
    case Returned(o) => o.Dumped? && (s.granted ==> JustifiedDump(a, s, o.dump)) && (!s.granted ==> s.runs == [])
    case Propagated(_) => s.runs <= [DumpRun]
    case _ => false
  }

  lemma DumpStep(a: Adapter, call: Call, s: Seen, stage: Stage, reply: Reply)
    requires call.Dump? && KindFits(call, stage) && ExplainsDump(a, s, stage)
    requires NextAction(stage).Some? && Fits(NextAction(stage).value, reply)
    ensures ExplainsDump(a, Noticed(s, Event(NextAction(stage).value, reply)), Next(a, call, stage, reply))
  {
    hide ExpectedObjects;
  }

  lemma {:induction false} DumpExplained(a: Adapter, call: Call, log: seq<Event>)
    requires call.Dump? && StageAfter(a, call, log).Some?
    ensures ExplainsDump(a, Observed(log), StageAfter(a, call, log).value)
    decreases |log|
  {
    if log != [] {
      hide Noticed, Next, ExplainsDump, Fits, KindFits;
      DumpExplained(a, call, log[..|log| - 1]);
      DumpStep(a, call, Observed(log[..|log| - 1]), StageAfter(a, call, log[..|log| - 1]).value, log[|log| - 1].reply);
    }
  }

  /** A dump that was granted its claim returns PASSED exactly when the broker passed, the file on disk
      is the one it reported and is restorable, and the ledger took the outcome at once; it returns
      what the broker reported. */
  lemma PassedDumpMeansProven(a: Adapter, call: Call, log: seq<Event>, d: DumpResult)
    requires call.Dump? && StageAfter(a, call, log) == Some(Returned(Dumped(d))) && Observed(log).granted
    ensures d.status == Passed <==> DumpProven(a, Observed(log)) && !Observed(log).completionFailed
    ensures d.status == Passed ==> d.artifact == Observed(log).dump.value.result.artifact
  {
    DumpExplained(a, call, log);
    hide StageAfter, Observed;
  }

  // ----- Two limits of the promises -----

  const SOME_TARGET := Target("t", "a", "s", "r", "db", "owner", "")
  const SOME_RESTORE := Call.Restore(SOME_TARGET, Manifest("src", "src", "src", 1, "d"), "k", "f")
  const UP_TO_LOAD := [
    Event(Claiming, Claimed(LedgerModel.New)), Event(Resolving, Done), Event(Reading, File(1, "d", "")),
    Event(Running(Precheck), Result(BrokerResult(Passed, "ok", Some("db"), Some(0), None)))]

  lemma ReachesLoad(a: Adapter)
    requires !a.mariadb
    ensures StageAfter(a, SOME_RESTORE, UP_TO_LOAD) == Some(RunLoad([]))
  {
    var log := UP_TO_LOAD;
    assert log[..3][..2] == log[..2] && log[..2][..1] == log[..1] && log[..1][..0] == [];
    assert StageAfter(a, SOME_RESTORE, log[..1]) == Some(Resolve);
    assert StageAfter(a, SOME_RESTORE, log[..2]) == Some(Read);
    assert StageAfter(a, SOME_RESTORE, log[..3]) == Some(RunPrecheck([]));
  }

  lemma OneMore(a: Adapter, call: Call, log: seq<Event>, action: Action, reply: Reply)
    requires StageAfter(a, call, log).Some? && NextAction(StageAfter(a, call, log).value) == Some(action) && Fits(action, reply)
    ensures StageAfter(a, call, log + [Event(action, reply)]) == Some(Next(a, call, StageAfter(a, call, log).value, reply))
  {
    assert (log + [Event(action, reply)])[..|log|] == log;
  }

  const UNEXPECTED := Draft(Failed, "database_restore_failed", None)
  const NOT_CLEANED := RestoreFailure(SOME_RESTORE, UNEXPECTED, NoCleanup, None)
  const RAISING_LOAD :=
    UP_TO_LOAD + [Event(Running(Load), Raised(OtherError))] + [Event(Completing(NOT_CLEANED), Done)]

  /** A load call that raises leaves failure evidence without any cleanup disposition. */
  lemma RaisingLoadIsNotCleanedUp(a: Adapter)
    requires !a.mariadb
    ensures StageAfter(a, SOME_RESTORE, RAISING_LOAD) == Some(Returned(NOT_CLEANED))
    ensures NOT_CLEANED.evidence.status == Failed && NOT_CLEANED.evidence.cleanup == NoCleanup
  {
    ReachesLoad(a);
    hide StageAfter, UP_TO_LOAD;
    OneMore(a, SOME_RESTORE, UP_TO_LOAD, Running(Load), Raised(OtherError));
    OneMore(a, SOME_RESTORE, UP_TO_LOAD + [Event(Running(Load), Raised(OtherError))], Completing(NOT_CLEANED), Done);
  }

  const FAILED_LOAD := Result(BrokerResult(Failed, "load", None, None, None))
  const QUARANTINED := RestoreFailure(SOME_RESTORE, Draft(Failed, "load", None), Quarantined, Some("q"))
  const UP_TO_QUARANTINE :=
    UP_TO_LOAD + [Event(Running(Load), FAILED_LOAD)] + [Event(Cleaning, Nonsense)]
    + [Event(Quarantining("cleanup_failed"), Reference("q", true))]
  const REFUSED_OUTCOME := UP_TO_QUARANTINE + [Event(Completing(QUARANTINED), Raised(OtherError))]

  lemma ReachesQuarantine(a: Adapter)
    requires !a.mariadb
    ensures StageAfter(a, SOME_RESTORE, UP_TO_QUARANTINE) == Some(Stage.Complete(QUARANTINED, true, true))
    ensures Observed(UP_TO_QUARANTINE).quarantined
  {
    ReachesLoad(a);
    var log1 := UP_TO_LOAD + [Event(Running(Load), FAILED_LOAD)];
    var log2 := log1 + [Event(Cleaning, Nonsense)];
    assert UP_TO_QUARANTINE[..|log2|] == log2;
    assert Observed(UP_TO_QUARANTINE).quarantined;
    hide StageAfter, UP_TO_LOAD, Observed;
    OneMore(a, SOME_RESTORE, UP_TO_LOAD, Running(Load), FAILED_LOAD);
    OneMore(a, SOME_RESTORE, log1, Cleaning, Nonsense);
    OneMore(a, SOME_RESTORE, log2, Quarantining("cleanup_failed"), Reference("q", true));
  }

  /** When the ledger refuses the outcome of a quarantined restore, the cleanup is asked again
      of a target that is already quarantined. */
  lemma RefusedOutcomeRepeatsCleanup(a: Adapter)
    requires !a.mariadb
    ensures StageAfter(a, SOME_RESTORE, REFUSED_OUTCOME) == Some(CleanUp(UNEXPECTED, false))
    ensures Observed(REFUSED_OUTCOME).quarantined
  {
    ReachesQuarantine(a);
    hide UP_TO_QUARANTINE;
    assert REFUSED_OUTCOME[..|UP_TO_QUARANTINE|] == UP_TO_QUARANTINE;
    assert Observed(REFUSED_OUTCOME).quarantined;
    hide StageAfter, Observed;
    OneMore(a, SOME_RESTORE, UP_TO_QUARANTINE, Completing(QUARANTINED), Raised(OtherError));
  }
}
