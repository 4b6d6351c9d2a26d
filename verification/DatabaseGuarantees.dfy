/** What concurrent dump and restore callers are guaranteed, over all runs with crashes. */
module DatabaseGuarantees {
  import opened Common
  import opened DatabaseCall
  import opened RestoreEvidence
  import opened LedgerModel
  import opened DatabaseSystem
  import opened DatabaseConcurrency
  import LedgerAgreement

  // ----- Runs -----

  lemma {:induction false} RunIsSafe(a: Adapter, s: System, steps: seq<Step>, k: nat)
    requires Safe(a, s) && Legal(a, s, steps) && k <= |steps|
    ensures Safe(a, StateAt(a, s, steps, k))
    ensures k < |steps| ==> Enabled(StateAt(a, s, steps, k), steps[k])
    ensures k < |steps| ==> StateAt(a, s, steps, k + 1) == After(a, StateAt(a, s, steps, k), steps[k])
    decreases k
  {
    hide Safe, Enabled, After;
    if k > 0 {
      StepIsSafe(a, s, steps[0]);
      RunIsSafe(a, After(a, s, steps[0]), steps[1..], k - 1);
    }
  }

  lemma InitialIsSafe(a: Adapter, r: Registry)
    ensures Safe(a, Initial(r))
  {
  }

  /** The step sends a request of this caller to the execution broker. */
  predicate AsksBroker(s: System, step: Step, i: nat) {
    && step.Act? && step.caller == i && i in s.callers
    && (NextAction(s.callers[i].stage) == Some(Cleaning)
        || (NextAction(s.callers[i].stage).Some? && NextAction(s.callers[i].stage).value.Running?))
  }

  /** The step answers this caller's claim with NEW. */
  predicate AnswersNew(s: System, step: Step, i: nat) {
    && step.Ask? && step.caller == i && i in s.callers && s.callers[i].stage == Stage.Claim
    && Statement(s.table, s.callers[i]).0 == Some(Claimed(New))
  }

  // ----- Single flight -----

  lemma StepGrants(a: Adapter, s: System, step: Step)
    requires Enabled(s, step)
    ensures s.grants <= After(a, s, step).grants
  {
    hide Moved, Statement, Call.Id;
  }

  lemma NewStep(a: Adapter, s: System, step: Step, i: nat)
    requires Enabled(s, step) && AnswersNew(s, step, i)
    ensures After(a, s, step).grants == s.grants + [s.callers[i].call.Id()]
    ensures s.callers[i].call.Id() !in s.table
  {
    hide Moved, Call.Id;
  }

  lemma {:induction false} GrantsGrow(a: Adapter, s: System, steps: seq<Step>, j: nat, k: nat)
    requires Safe(a, s) && Legal(a, s, steps) && j <= k <= |steps|
    ensures StateAt(a, s, steps, j).grants <= StateAt(a, s, steps, k).grants
    decreases k
  {
    hide Safe, StateAt, Legal, After, Enabled;
    if j < k {
      GrantsGrow(a, s, steps, j, k - 1);
      RunIsSafe(a, s, steps, k - 1);
      StepGrants(a, StateAt(a, s, steps, k - 1), steps[k - 1]);
    }
  }

  lemma NewIsRecorded(a: Adapter, s: System, steps: seq<Step>, j: nat, i: nat)
    requires Safe(a, s) && Legal(a, s, steps) && j < |steps| && AnswersNew(StateAt(a, s, steps, j), steps[j], i)
    ensures var id := StateAt(a, s, steps, j).callers[i].call.Id();
            id !in StateAt(a, s, steps, j).grants && id in StateAt(a, s, steps, j + 1).grants
  {
    RunIsSafe(a, s, steps, j);
    var now := StateAt(a, s, steps, j);
    hide StateAt, After, Enabled, Legal, Call.Id, TableOk, CallersOk, Exclusive, AuthorsOk, Statement;
    NewStep(a, now, steps[j], i);
    assert StateAt(a, s, steps, j + 1).grants[|now.grants|] == now.callers[i].call.Id();
  }

  /** NEW is answered at most once for a scope and idempotency key, in every interleaving. */
  lemma NewIsAnsweredOnce(a: Adapter, r: Registry, steps: seq<Step>, j: nat, k: nat, i: nat, i': nat)
    requires Legal(a, Initial(r), steps) && j < k < |steps|
    requires AnswersNew(StateAt(a, Initial(r), steps, j), steps[j], i)
    requires AnswersNew(StateAt(a, Initial(r), steps, k), steps[k], i')
    ensures StateAt(a, Initial(r), steps, j).callers[i].call.Id() != StateAt(a, Initial(r), steps, k).callers[i'].call.Id()
  {
    hide Safe, StateAt, Legal, AnswersNew, Call.Id;
    InitialIsSafe(a, r);
    NewIsRecorded(a, Initial(r), steps, j, i);
    NewIsRecorded(a, Initial(r), steps, k, i');
    GrantsGrow(a, Initial(r), steps, j + 1, k);
  }

  /** A broker call happens only between a caller's NEW claim and the completion of that claim, and
      no other caller is between the two for the same scope. */
  lemma BrokerCallsAreSingleFlight(a: Adapter, r: Registry, steps: seq<Step>, k: nat, i: nat)
    requires Legal(a, Initial(r), steps) && k < |steps| && AsksBroker(StateAt(a, Initial(r), steps, k), steps[k], i)
    ensures var s := StateAt(a, Initial(r), steps, k);
            var c := s.callers[i];
            && c.call.Id() in s.grants && Observed(c.log).granted
            && c.call.Id() in s.table && s.table[c.call.Id()].status.Busy()
            && forall d | d in s.callers && d != i && InSection(s.callers[d].stage) ::
                 s.callers[d].call.Scope() != c.call.Scope()
  {
    hide Safe, StateAt, Legal, InSection, AsksBroker, Call.Id, Call.Scope, Observed;
    InitialIsSafe(a, r);
    RunIsSafe(a, Initial(r), steps, k);
    AskersAreInSection(StateAt(a, Initial(r), steps, k), steps[k], i);
    BrokerCaller(a, StateAt(a, Initial(r), steps, k), i);
  }

  lemma AskersAreInSection(s: System, step: Step, i: nat)
    requires AsksBroker(s, step, i)
    ensures i in s.callers && InSection(s.callers[i].stage)
  {
  }

  /** The ledger is used as its agreement with the memory ledger demands: only unfinished claims are completed. */
  lemma OnlyUnfinishedClaimsAreCompleted(a: Adapter, r: Registry, steps: seq<Step>, k: nat)
    requires Legal(a, Initial(r), steps) && k < |steps| && steps[k].Act? && steps[k].reply.Done?
    requires var s := StateAt(a, Initial(r), steps, k);
             steps[k].caller in s.callers && s.callers[steps[k].caller].stage.Complete?
    ensures var s := StateAt(a, Initial(r), steps, k);
            var id := s.callers[steps[k].caller].call.Id();
            id in s.table && s.table[id].status.Busy()
  {
    hide Safe, StateAt, Legal, Call.Id, Call.Scope, Observed;
    InitialIsSafe(a, r);
    RunIsSafe(a, Initial(r), steps, k);
    BrokerCaller(a, StateAt(a, Initial(r), steps, k), steps[k].caller);
  }

  lemma BrokerCaller(a: Adapter, s: System, i: nat)
    requires Safe(a, s) && i in s.callers && InSection(s.callers[i].stage)
    ensures s.callers[i].call.Id() in s.grants && Observed(s.callers[i].log).granted
    ensures s.callers[i].call.Id() in s.table && s.table[s.callers[i].call.Id()].status.Busy()
    ensures forall d | d in s.callers && d != i && InSection(s.callers[d].stage) ::
              s.callers[d].call.Scope() != s.callers[i].call.Scope()
  {
    var c := s.callers[i];
    assert CallerOk(a, s.table, s.registry, c);
    GrantedInSection(a, c);
    assert GrantsOk(s.table, s.grants);
    assert HoldsRow(s.table, c);
    hide Safe, Logged, Observed, Call.Scope, Call.Id;
    forall d | d in s.callers && d != i && InSection(s.callers[d].stage) ensures s.callers[d].call.Scope() != c.call.Scope() {
      if s.callers[d].call.Scope() == c.call.Scope() { OneCallerPerScope(a, s, d, i); }
    }
  }

  lemma GrantedInSection(a: Adapter, c: Caller)
    requires Logged(a, c) && InSection(c.stage)
    ensures Observed(c.log).granted
  {
    if c.call.Restore? {
      RestoreExplained(a, c.call, c.log);
    } else {
      DumpExplained(a, c.call, c.log);
    }
    hide Observed, StageAfter, Proven, DumpProven, Promised;
  }

  // ----- After a crash -----

  predicate AbandonedIn(t: Table<Outcome>, callers: map<nat, Caller>, id: Id) {
    && id in t && t[id].status.Busy()
    && forall i | i in callers && InSection(callers[i].stage) :: callers[i].call.Id() != id
  }

  /** An unfinished claim holds the scope and no live caller will finish it. */
  predicate Abandoned(s: System, id: Id) { AbandonedIn(s.table, s.callers, id) }

  lemma CrashAbandons(a: Adapter, s: System, i: nat, dead: set<nat>)
    requires Safe(a, s) && i in s.callers && i in dead && InSection(s.callers[i].stage)
    ensures Abandoned(After(a, s, Crash(dead)), s.callers[i].call.Id())
  {
    assert CallerOk(a, s.table, s.registry, s.callers[i]);
    hide Call.Id, Logged, KnowsQuarantine;
  }

  lemma AbandonedAfterMove(t: Table<Outcome>, callers: map<nat, Caller>, u: Table<Outcome>, i: nat, c: Caller, id: Id)
    requires AbandonedIn(t, callers, id) && id in u && u[id].status.Busy()
    requires InSection(c.stage) ==> c.call.Id() != id
    ensures AbandonedIn(u, callers[i := c], id)
  {
    hide Call.Id, InSection;
  }

  lemma AbandonedAsk(a: Adapter, s: System, i: nat, replayable: bool, id: Id)
    requires Safe(a, s) && Abandoned(s, id) && Enabled(s, Ask(i, replayable))
    ensures Abandoned(AfterAsk(a, s, i, replayable), id)
    ensures Statement(s.table, s.callers[i]).0 == Some(Claimed(New)) ==> s.callers[i].call.Scope() != id.0
  {
    var c := s.callers[i];
    hide Safe;
    NewNeedsAnIdleScope(s.table, c, id);
    hide Call.Scope, Call.Id;
    match Statement(s.table, c) {
      case (None, phase) =>
        var m := c.(phase := phase);
        AbandonedAfterMove(s.table, s.callers, s.table, i, m, id);
      case (Some(reply), _) =>
        var m := Moved(a, c, Replayed(reply, replayable));
        AskedStage(a, s.table, c, reply, replayable);
        hide Statement, Moved, AbandonedIn, Replayed;
        var u := if reply == Claimed(New) then Granted(s.table, c) else s.table;
        assert id in u && u[id].status.Busy() by { AbandonedRow(s, c, id); }
        AbandonedAfterMove(s.table, s.callers, u, i, m, id);
    }
  }

  lemma AbandonedRow(s: System, c: Caller, id: Id)
    requires Abandoned(s, id)
    ensures id in s.table && s.table[id].status.Busy()
    ensures id in Granted(s.table, c) && Granted(s.table, c)[id].status.Busy()
  {
    hide Call.Id;
  }

  lemma NewNeedsAnIdleScope(t: Table<Outcome>, c: Caller, id: Id)
    requires id in t && t[id].status.Busy()
    ensures Statement(t, c).0 == Some(Claimed(New)) ==> c.call.Scope() != id.0
  {
    hide Call.Scope;
  }

  lemma AskedStage(a: Adapter, t: Table<Outcome>, c: Caller, reply: Reply, replayable: bool)
    requires c.stage == Stage.Claim && Statement(t, c).0 == Some(reply)
    ensures var m := Moved(a, c, Replayed(reply, replayable));
            m.call == c.call && (InSection(m.stage) ==> reply == Claimed(New) && c.call.Id() !in t)
  {
    hide Call.Id;
  }

  lemma AbandonedAct(a: Adapter, s: System, i: nat, reply: Reply, id: Id)
    requires Safe(a, s) && Abandoned(s, id) && Enabled(s, Act(i, reply))
    ensures Abandoned(AfterAct(a, s, i, reply), id)
  {
    var c := s.callers[i];
    MovedCall(a, c, reply);
    assert InSection(c.stage);
    hide Safe, Moved, Call.Id, Next, Fits, KindFits, Outcome.Status;
    var m := Moved(a, c, reply);
    var u := if c.stage.Complete? && reply.Done? then Written(s.table, c) else s.table;
    AbandonedAfterMove(s.table, s.callers, u, i, m, id);
  }

  lemma AbandonedStep(a: Adapter, s: System, step: Step, id: Id)
    requires Safe(a, s) && Abandoned(s, id) && Enabled(s, step)
    ensures Abandoned(After(a, s, step), id)
  {
    hide Safe, Call.Id, AfterAct, AfterAsk;
    match step {
      case Ask(i, replayable) => AbandonedAsk(a, s, i, replayable, id);
      case Act(i, reply) => AbandonedAct(a, s, i, reply, id);
      case _ =>
    }
  }

  /** After a crash between a NEW claim and its completion, the scope never reaches the broker again
      and no claim on it is answered NEW, whatever the callers and restart recoveries do. */
  lemma {:induction false} AbandonedScopesStayClosed(a: Adapter, s: System, steps: seq<Step>, id: Id, k: nat, i: nat)
    requires Safe(a, s) && Abandoned(s, id) && Legal(a, s, steps) && k < |steps|
    ensures AsksBroker(StateAt(a, s, steps, k), steps[k], i) || AnswersNew(StateAt(a, s, steps, k), steps[k], i) ==>
              StateAt(a, s, steps, k).callers[i].call.Scope() != id.0
    decreases k
  {
    hide Safe, Abandoned;
    if k > 0 {
      StepIsSafe(a, s, steps[0]);
      AbandonedStep(a, s, steps[0], id);
      AbandonedScopesStayClosed(a, After(a, s, steps[0]), steps[1..], id, k - 1, i);
    } else {
      if AnswersNew(s, steps[0], i) { AbandonedAsk(a, s, i, steps[0].replayable, id); }
      if AsksBroker(s, steps[0], i) { AbandonedNow(a, s, i, id); }
    }
  }

  lemma AbandonedNow(a: Adapter, s: System, i: nat, id: Id)
    requires Safe(a, s) && Abandoned(s, id) && i in s.callers && InSection(s.callers[i].stage)
    ensures s.callers[i].call.Scope() != id.0
  {
    var c := s.callers[i];
    assert CallerOk(a, s.table, s.registry, c);
    assert LedgerAgreement.SingleFlight(s.table);
    hide Call.Scope, Logged, KnowsQuarantine, CallersOk, AuthorsOk, GrantsOk, Exclusive;
    assert c.call.Id() in s.table && s.table[c.call.Id()].status.Busy();
  }

  // ----- Quarantine -----

  lemma {:induction false} QuarantineLasts(a: Adapter, s: System, steps: seq<Step>, k: nat, key: TargetKey)
    requires Legal(a, s, steps) && k <= |steps| && key in s.registry.quarantined
    ensures key in StateAt(a, s, steps, k).registry.quarantined
    decreases k
  {
    if k > 0 {
      hide Moved, Statement;
      assert key in After(a, s, steps[0]).registry.quarantined;
      QuarantineLasts(a, After(a, s, steps[0]), steps[1..], k - 1, key);
    }
  }

  /** A quarantined target is never the target of a broker run again, in that call or any other; a
      cleanup reaches it only from the call that quarantined it, after a load that returned, a
      verification that did not raise, and an outcome that the ledger refused. */
  lemma QuarantinedTargetsStayClosed(a: Adapter, s: System, steps: seq<Step>, k: nat, i: nat)
    requires Safe(a, s) && Legal(a, s, steps) && k < |steps|
    requires var now := StateAt(a, s, steps, k);
             AsksBroker(now, steps[k], i) && now.callers[i].call.Restore?
             && KeyOf(now.callers[i].call.target) in s.registry.quarantined
    ensures var c := StateAt(a, s, steps, k).callers[i];
            && NextAction(c.stage) == Some(Cleaning)
            && Observed(c.log).quarantined && Recleaned(Observed(c.log))
  {
    hide Safe, StateAt, Legal, Enabled, Observed;
    var now := StateAt(a, s, steps, k);
    RunIsSafe(a, s, steps, k);
    QuarantineLasts(a, s, steps, k, KeyOf(now.callers[i].call.target));
    QuarantinedNow(a, now, i);
  }

  lemma QuarantinedNow(a: Adapter, s: System, i: nat)
    requires Safe(a, s) && i in s.callers && s.callers[i].call.Restore?
    requires KeyOf(s.callers[i].call.target) in s.registry.quarantined
    requires var action := NextAction(s.callers[i].stage); action.Some? && (action.value == Cleaning || action.value.Running?)
    ensures var c := s.callers[i];
            NextAction(c.stage) == Some(Cleaning) && Observed(c.log).quarantined && Recleaned(Observed(c.log))
  {
    var c := s.callers[i];
    assert CallerOk(a, s.table, s.registry, c);
    hide Safe, HoldsRow, Observed;
    RunsFollowResolution(a, c);
    QuarantineEndsRuns(a, c.call, c.log);
  }

  lemma RunsFollowResolution(a: Adapter, c: Caller)
    requires Logged(a, c) && c.call.Restore? && NextAction(c.stage).Some?
    requires NextAction(c.stage) == Some(Cleaning) || NextAction(c.stage).value.Running?
    ensures PastResolve(c.stage)
  {
    hide StageAfter;
    assert KindFits(c.call, c.stage) by { assert StageAfter(a, c.call, c.log).Some?; }
  }

  // ----- Passed evidence -----

  /** PASSED restore evidence, replayed or not, was earned by a call for the same scope, key and
      request that saw an empty target, a passing load and a matching recount. */
  lemma PassedIsNeverInvented(a: Adapter, r: Registry, steps: seq<Step>, k: nat, i: nat, e: Evidence)
    requires Legal(a, Initial(r), steps) && k <= |steps|
    requires var s := StateAt(a, Initial(r), steps, k);
             i in s.callers && s.callers[i].stage == Returned(Restored(e)) && e.status == Passed
    ensures var call := StateAt(a, Initial(r), steps, k).callers[i].call;
            exists author: Caller ::
              && author.call.Restore? && author.call.Id() == call.Id() && author.call.fingerprint == call.fingerprint
              && author.stage.Complete? && author.stage.outcome == Restored(e)
              && StageAfter(a, author.call, author.log) == Some(author.stage)
              && Proven(a, author.call, Observed(author.log))
  {
    InitialIsSafe(a, r);
    RunIsSafe(a, Initial(r), steps, k);
    var s := StateAt(a, Initial(r), steps, k);
    hide StateAt, Legal;
    var c := s.callers[i];
    assert CallerOk(a, s.table, s.registry, c);
    var id := c.call.Id();
    assert s.table[id].outcome == Some(Restored(e)) && s.table[id].digest == c.call.fingerprint;
    var author := s.authors[id];
    assert Authored(a, s.table[id], id, author);
    hide Safe, Call.Id, Proven, Observed;
    AuthorProved(a, author, e);
  }

  lemma AuthorProved(a: Adapter, c: Caller, e: Evidence)
    requires Logged(a, c) && c.stage.Complete? && c.stage.outcome == Restored(e) && e.status == Passed
    ensures c.call.Restore? && Proven(a, c.call, Observed(c.log))
  {
    assert KindFits(c.call, c.stage) by { assert StageAfter(a, c.call, c.log).Some?; }
    RestoreExplained(a, c.call, c.log);
    hide StageAfter, Observed;
  }

  // ----- Racing claims -----

  /** A claim made statement by statement decides as the atomic claim would at its last statement,
      except exactly when its own key was claimed by another caller between two of its reads. */
  lemma RacingClaims(t: Table<Outcome>, c: Caller, d: Decision<Option<Outcome>>)
    requires Statement(t, c).0 == Some(Claimed(d))
    ensures d == ClaimInTable(t, c.call.Id(), c.call.fingerprint).1 <==>
              !((c.phase == LookupScope || c.phase == RelookupScope) && c.call.Id() in t)
    ensures d == New ==> ClaimInTable(t, c.call.Id(), c.call.fingerprint).0 == Granted(t, c)
    ensures d != New ==> ScopeBusy(t, c.call.Scope()) || c.call.Id() in t
  {
    hide Call.Scope;
  }

  lemma {:induction false} StepFirst(a: Adapter, s: System, step: Step, rest: seq<Step>)
    requires Enabled(s, step) && Legal(a, After(a, s, step), rest)
    ensures Legal(a, s, [step] + rest)
    ensures StateAt(a, s, [step] + rest, 1 + |rest|) == StateAt(a, After(a, s, step), rest, |rest|)
  {
    hide Enabled, After;
    assert ([step] + rest)[1..] == rest;
  }

  /** Two callers with the same call arrive and look their key up. */
  lemma ArrivedAndLooked(a: Adapter, s: System, call: Call)
    requires s.table == map[] && 0 !in s.callers && 1 !in s.callers
    ensures var steps := [Arrive(0, call), Arrive(1, call), Ask(0, true), Ask(1, true)];
            Legal(a, s, steps)
            && var now := StateAt(a, s, steps, 4);
               now.table == map[] && 0 in now.callers && 1 in now.callers
               && now.callers[0] == now.callers[1] == Caller(call, Stage.Claim, [], LookupScope)
  {
    hide Call.Id, Moved;
    var c := Caller(call, Stage.Claim, [], Lookup);
    var s1 := After(a, s, Arrive(0, call));
    var s2 := After(a, s1, Arrive(1, call));
    assert s2.callers[0] == c && s2.callers[1] == c && s2.table == map[];
    var s3 := After(a, s2, Ask(0, true));
    assert s3.callers[0] == c.(phase := LookupScope) && s3.callers[1] == c && s3.table == map[];
    var s4 := After(a, s3, Ask(1, true));
    assert s4.callers[0] == s4.callers[1] == c.(phase := LookupScope) && s4.table == map[];
    StepFirst(a, s3, Ask(1, true), []);
    StepFirst(a, s2, Ask(0, true), [Ask(1, true)]);
    StepFirst(a, s1, Arrive(1, call), [Ask(0, true), Ask(1, true)]);
    StepFirst(a, s, Arrive(0, call), [Arrive(1, call), Ask(0, true), Ask(1, true)]);
    hide After, Enabled;
    assert [Ask(1, true)] + [] == [Ask(1, true)] && [Ask(0, true)] + [Ask(1, true)] == [Ask(0, true), Ask(1, true)];
    assert [Arrive(1, call)] + [Ask(0, true), Ask(1, true)] == [Arrive(1, call), Ask(0, true), Ask(1, true)];
    assert [Arrive(0, call)] + [Arrive(1, call), Ask(0, true), Ask(1, true)]
        == [Arrive(0, call), Arrive(1, call), Ask(0, true), Ask(1, true)];
  }

  /** The second caller inserts its claim. */
  lemma SecondInserts(a: Adapter, s: System, call: Call)
    requires s.table == map[] && 0 in s.callers && 1 in s.callers
    requires s.callers[0] == s.callers[1] == Caller(call, Stage.Claim, [], LookupScope)
    ensures var steps := [Ask(1, true), Ask(1, true)];
            Legal(a, s, steps)
            && var now := StateAt(a, s, steps, 2);
               now.table == map[call.Id() := Row(call.fingerprint, Status.Running, None)]
               && 0 in now.callers && now.callers[0] == s.callers[0]
  {
    hide Call.Id, Moved;
    var s1 := After(a, s, Ask(1, true));
    assert s1.callers[1] == s.callers[1].(phase := Insert) && s1.table == map[] && s1.callers[0] == s.callers[0];
    var s2 := After(a, s1, Ask(1, true));
    StepFirst(a, s1, Ask(1, true), []);
    StepFirst(a, s, Ask(1, true), [Ask(1, true)]);
    hide After, Enabled;
    assert [Ask(1, true)] + [] == [Ask(1, true)] && [Ask(1, true)] + [Ask(1, true)] == [Ask(1, true), Ask(1, true)];
  }

  function Race(call: Call): seq<Step> {
    [Arrive(0, call), Arrive(1, call), Ask(0, true), Ask(1, true)] + [Ask(1, true), Ask(1, true)]
  }

  /** The exception is reachable: two calls with one key look up together, the second inserts its claim,
      and the first is then told ACTIVE where the atomic claim would demand recovery. */
  lemma RaceIsReachable(a: Adapter, s: System, call: Call)
    requires s.table == map[] && 0 !in s.callers && 1 !in s.callers
    ensures Legal(a, s, Race(call))
    ensures var now := StateAt(a, s, Race(call), 6);
            && 0 in now.callers && now.callers[0].call == call
            && Statement(now.table, now.callers[0]).0 == Some(Claimed(Active))
            && ClaimInTable(now.table, call.Id(), call.fingerprint).1 == RecoveryRequired
  {
    var before := [Arrive(0, call), Arrive(1, call), Ask(0, true), Ask(1, true)];
    var after := [Ask(1, true), Ask(1, true)];
    ArrivedAndLooked(a, s, call);
    var looked := StateAt(a, s, before, 4);
    SecondInserts(a, looked, call);
    RunsCompose(a, s, before, after);
    hide StateAt, Legal, Call.Scope;
    FirstIsToldActive(StateAt(a, looked, after, 2).table, looked.callers[0]);
  }

  lemma FirstIsToldActive(t: Table<Outcome>, c: Caller)
    requires c.phase == LookupScope && t == map[c.call.Id() := Row(c.call.fingerprint, Status.Running, None)]
    ensures Statement(t, c).0 == Some(Claimed(Active))
    ensures ClaimInTable(t, c.call.Id(), c.call.fingerprint).1 == RecoveryRequired
  {
    hide Call.Id;
    assert c.call.Id() in t && t[c.call.Id()].status.Busy();
  }

  lemma {:induction false} RunsCompose(a: Adapter, s: System, before: seq<Step>, after: seq<Step>)
    requires Legal(a, s, before) && Legal(a, StateAt(a, s, before, |before|), after)
    ensures Legal(a, s, before + after)
    ensures StateAt(a, s, before + after, |before| + |after|) ==
              StateAt(a, StateAt(a, s, before, |before|), after, |after|)
    decreases |before|
  {
    hide After, Enabled;
    if before == [] {
      assert before + after == after;
    } else {
      assert (before + after)[1..] == before[1..] + after;
      RunsCompose(a, After(a, s, before[0]), before[1..], after);
    }
  }
}
