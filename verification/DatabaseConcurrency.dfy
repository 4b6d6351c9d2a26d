/** Safety of concurrent dump and restore callers over every run with crashes. */
module DatabaseConcurrency {
  import opened Common
  import opened DatabaseCall
  import opened RestoreEvidence
  import opened LedgerModel
  import opened DatabaseSystem
  import LedgerAgreement

  // ----- One caller moves -----

  lemma MovedIsLogged(a: Adapter, c: Caller, reply: Reply)
    requires KindFits(c.call, c.stage) && NextAction(c.stage).Some? && Fits(NextAction(c.stage).value, reply)
    requires Logged(a, c)
    ensures Logged(a, Moved(a, c, reply))
    ensures Observed(Moved(a, c, reply).log) == Noticed(Observed(c.log), Event(NextAction(c.stage).value, reply))
  {
    hide Next, Fits, KindFits, Noticed;
    var log := Moved(a, c, reply).log;
    assert log[..|log| - 1] == c.log;
  }

  /** Rows keep their digest, their outcome and whether they are busy. */
  predicate SameRow(r: Row<Outcome>, q: Row<Outcome>) {
    r.digest == q.digest && r.outcome == q.outcome && (r.status.Busy() <==> q.status.Busy())
  }

  predicate RowKept(t: Table<Outcome>, u: Table<Outcome>, id: Id) {
    id in t ==> id in u && SameRow(t[id], u[id])
  }

  lemma KeepsRow(t: Table<Outcome>, u: Table<Outcome>, c: Caller)
    requires HoldsRow(t, c) && RowKept(t, u, c.call.Id())
    ensures HoldsRow(u, c)
  {
    hide Call.Id;
  }

  lemma SectionsShareNoScope(t: Table<Outcome>, c: Caller, d: Caller)
    requires TableOk(t) && HoldsRow(t, c) && HoldsRow(t, d) && InSection(c.stage) && InSection(d.stage)
    requires c.call.Scope() == d.call.Scope()
    ensures c.call.Id() == d.call.Id()
  {
    hide Call.Scope;
  }

  /** Two callers in the section for one scope are the same caller. */
  lemma OneCallerPerScope(a: Adapter, s: System, i: nat, k: nat)
    requires Safe(a, s) && i in s.callers && k in s.callers
    requires InSection(s.callers[i].stage) && InSection(s.callers[k].stage)
    requires s.callers[i].call.Scope() == s.callers[k].call.Scope()
    ensures i == k
  {
    hide TableOk, HoldsRow, Logged, KnowsQuarantine, AuthorsOk, GrantsOk, InSection, Call.Scope, Call.Id;
    assert CallerOk(a, s.table, s.registry, s.callers[i]) && CallerOk(a, s.table, s.registry, s.callers[k]);
    SectionsShareNoScope(s.table, s.callers[i], s.callers[k]);
  }

  /** One caller moves on; the rows and targets of the others are as they were. */
  lemma ReplaceCaller(a: Adapter, s: System, t: Table<Outcome>, r: Registry, i: nat, c: Caller)
    requires Safe(a, s)
    requires CallerOk(a, t, r, c)
    requires forall k | k in s.callers && k != i :: HoldsRow(t, s.callers[k])
    requires forall k | k in s.callers && k != i :: KnowsQuarantine(r, s.callers[k])
    requires InSection(c.stage) ==>
               forall k | k in s.callers && k != i && InSection(s.callers[k].stage) :: s.callers[k].call.Id() != c.call.Id()
    ensures CallersOk(a, t, r, s.callers[i := c]) && Exclusive(s.callers[i := c])
  {
    hide TableOk, HoldsRow, Logged, KnowsQuarantine, AuthorsOk, GrantsOk, InSection, Call.Id;
    var callers := s.callers[i := c];
    forall k | k in callers ensures CallerOk(a, t, r, callers[k]) {
      if k != i {
        assert CallerOk(a, s.table, s.registry, s.callers[k]);
      }
    }
  }

  lemma Untouched(a: Adapter, s: System)
    requires Safe(a, s)
    ensures forall k | k in s.callers :: HoldsRow(s.table, s.callers[k]) && KnowsQuarantine(s.registry, s.callers[k])
  {
    hide TableOk, HoldsRow, Logged, KnowsQuarantine, AuthorsOk, GrantsOk, Exclusive;
    forall k | k in s.callers ensures HoldsRow(s.table, s.callers[k]) && KnowsQuarantine(s.registry, s.callers[k]) {
      assert CallerOk(a, s.table, s.registry, s.callers[k]);
    }
  }

  // ----- Steps -----

  lemma ArriveIsSafe(a: Adapter, s: System, i: nat, call: Call)
    requires Safe(a, s) && Enabled(s, Arrive(i, call))
    ensures Safe(a, After(a, s, Arrive(i, call)))
  {
    hide TableOk, GrantsOk, AuthorsOk, Call.Id;
    Untouched(a, s);
    ReplaceCaller(a, s, s.table, s.registry, i, Caller(call, Stage.Claim, [], Lookup));
  }

  lemma CrashIsSafe(a: Adapter, s: System, dead: set<nat>)
    requires Safe(a, s)
    ensures Safe(a, After(a, s, Crash(dead)))
  {
    hide TableOk, GrantsOk, AuthorsOk, CallerOk, InSection, Call.Id;
  }

  lemma RecoverKeepsRows(t: Table<Outcome>)
    requires TableOk(t)
    ensures TableOk(RestartTable(t)) && RestartTable(t).Keys == t.Keys
    ensures forall id :: RowKept(t, RestartTable(t), id)
  {
  }

  lemma RecoverKeepsCallers(a: Adapter, s: System, t: Table<Outcome>)
    requires Safe(a, s) && forall id :: RowKept(s.table, t, id)
    ensures CallersOk(a, t, s.registry, s.callers)
  {
    hide TableOk, HoldsRow, Logged, KnowsQuarantine, Exclusive, GrantsOk, AuthorsOk, Call.Id, RowKept;
    forall k | k in s.callers ensures CallerOk(a, t, s.registry, s.callers[k]) {
      assert CallerOk(a, s.table, s.registry, s.callers[k]);
      assert RowKept(s.table, t, s.callers[k].call.Id());
      KeepsRow(s.table, t, s.callers[k]);
    }
  }

  lemma RecoverKeepsAuthors(a: Adapter, t: Table<Outcome>, u: Table<Outcome>, authors: map<Id, Caller>)
    requires AuthorsOk(a, t, authors) && u.Keys == t.Keys && forall id :: RowKept(t, u, id)
    ensures AuthorsOk(a, u, authors)
  {
    hide Logged, Call.Id;
    forall id | id in u && u[id].outcome.Some? ensures id in authors && Authored(a, u[id], id, authors[id]) {
      assert RowKept(t, u, id);
    }
  }

  lemma RecoverIsSafe(a: Adapter, s: System)
    requires Safe(a, s)
    ensures Safe(a, After(a, s, Recover))
  {
    hide TableOk, RestartTable, RowKept, CallersOk, Exclusive, GrantsOk, AuthorsOk;
    RecoverKeepsRows(s.table);
    RecoverKeepsCallers(a, s, RestartTable(s.table));
    RecoverKeepsAuthors(a, s.table, RestartTable(s.table), s.authors);
    GrantsKept(s.table, RestartTable(s.table), s.grants);
  }

  // ----- Claims -----

  lemma RefusedClaim(a: Adapter, t: Table<Outcome>, c: Caller, reply: Reply, replayable: bool)
    requires c.stage == Stage.Claim && Statement(t, c).0 == Some(reply) && reply != Claimed(New)
    ensures var m := Moved(a, c, Replayed(reply, replayable));
            !InSection(m.stage) && !PastResolve(m.stage) && HoldsRow(t, m)
  {
    hide Call.Id;
  }

  function Granted(t: Table<Outcome>, c: Caller): Table<Outcome> {
    t[c.call.Id() := Row(c.call.fingerprint, Status.Running, None)]
  }

  lemma GrantKeepsTable(t: Table<Outcome>, c: Caller)
    requires TableOk(t) && c.call.Id() !in t && !ScopeBusy(t, c.call.Scope())
    ensures TableOk(Granted(t, c)) && Granted(t, c).Keys == t.Keys + {c.call.Id()}
    ensures forall other :: RowKept(t, Granted(t, c), other)
  {
    hide Call.Scope;
  }

  lemma GrantedCaller(a: Adapter, t: Table<Outcome>, r: Registry, c: Caller)
    requires c.stage == Stage.Claim && Logged(a, c)
    ensures CallerOk(a, Granted(t, c), r, Moved(a, c, Claimed(New))) && Moved(a, c, Claimed(New)).call == c.call
  {
    MovedIsLogged(a, c, Claimed(New));
    hide Observed, StageAfter, Call.Id;
  }

  lemma KeptHolds(a: Adapter, s: System, t: Table<Outcome>, id: Id)
    requires Safe(a, s) && id !in s.table && forall other :: RowKept(s.table, t, other)
    ensures forall k | k in s.callers ::
              HoldsRow(t, s.callers[k]) && KnowsQuarantine(s.registry, s.callers[k])
              && (InSection(s.callers[k].stage) ==> s.callers[k].call.Id() != id)
  {
    Untouched(a, s);
    hide Safe, KnowsQuarantine, Call.Id;
    forall k | k in s.callers
      ensures HoldsRow(t, s.callers[k]) && KnowsQuarantine(s.registry, s.callers[k])
              && (InSection(s.callers[k].stage) ==> s.callers[k].call.Id() != id)
    {
      assert RowKept(s.table, t, s.callers[k].call.Id());
      KeepsRow(s.table, t, s.callers[k]);
    }
  }

  lemma GrantKeepsAuthors(a: Adapter, t: Table<Outcome>, c: Caller, authors: map<Id, Caller>)
    requires AuthorsOk(a, t, authors)
    ensures AuthorsOk(a, Granted(t, c), authors)
  {
    hide Logged, Call.Id;
  }

  lemma GrantOnce(t: Table<Outcome>, u: Table<Outcome>, grants: seq<Id>, id: Id)
    requires GrantsOk(t, grants) && id !in t && u.Keys == t.Keys + {id}
    ensures GrantsOk(u, grants + [id])
  {
  }

  lemma GrantShape(a: Adapter, s: System, i: nat, replayable: bool)
    requires Enabled(s, Ask(i, replayable)) && Statement(s.table, s.callers[i]).0 == Some(Claimed(New))
    ensures var c := s.callers[i];
            && c.stage == Stage.Claim && c.call.Id() !in s.table && !ScopeBusy(s.table, c.call.Scope())
            && AfterAsk(a, s, i, replayable) ==
                 s.(table := Granted(s.table, c), callers := s.callers[i := Moved(a, c, Claimed(New))],
                    grants := s.grants + [c.call.Id()])
  {
    hide Moved, ScopeBusy, Call.Scope;
  }

  lemma GrantIsSafe(a: Adapter, s: System, i: nat, replayable: bool)
    requires Safe(a, s) && Enabled(s, Ask(i, replayable)) && Statement(s.table, s.callers[i]).0 == Some(Claimed(New))
    ensures Safe(a, AfterAsk(a, s, i, replayable))
  {
    hide AfterAsk, Statement, Moved, Granted, Call.Id, Call.Scope, ScopeBusy, Logged, KnowsQuarantine, TableOk, HoldsRow,
         RowKept, Exclusive, GrantsOk, AuthorsOk, InSection;
    GrantShape(a, s, i, replayable);
    var c := s.callers[i];
    var id, t, m := c.call.Id(), Granted(s.table, c), Moved(a, c, Claimed(New));
    assert CallerOk(a, s.table, s.registry, c);
    GrantedCaller(a, s.table, s.registry, c);
    GrantKeepsTable(s.table, c);
    hide CallerOk;
    KeptHolds(a, s, t, id);
    ReplaceCaller(a, s, t, s.registry, i, m);
    hide CallersOk;
    GrantOnce(s.table, t, s.grants, id);
    GrantKeepsAuthors(a, s.table, c, s.authors);
  }

  lemma AskIsSafe(a: Adapter, s: System, i: nat, replayable: bool)
    requires Safe(a, s) && Enabled(s, Ask(i, replayable))
    ensures Safe(a, AfterAsk(a, s, i, replayable))
  {
    var c := s.callers[i];
    assert CallerOk(a, s.table, s.registry, c);
    match Statement(s.table, c) {
      case (None, phase) =>
        var m := c.(phase := phase);
        assert CallerOk(a, s.table, s.registry, m);
        Untouched(a, s);
        hide Statement, TableOk, GrantsOk, AuthorsOk, CallerOk, HoldsRow, KnowsQuarantine, Call.Id;
        ReplaceCaller(a, s, s.table, s.registry, i, m);
      case (Some(reply), _) =>
        if reply == Claimed(New) {
          GrantIsSafe(a, s, i, replayable);
        } else {
          var m := Moved(a, c, Replayed(reply, replayable));
          RefusedClaim(a, s.table, c, reply, replayable);
          MovedIsLogged(a, c, Replayed(reply, replayable));
          assert CallerOk(a, s.table, s.registry, m);
          Untouched(a, s);
          hide Statement, TableOk, GrantsOk, AuthorsOk, CallerOk, HoldsRow, KnowsQuarantine, Moved, Call.Id;
          ReplaceCaller(a, s, s.table, s.registry, i, m);
        }
    }
  }

  // ----- Other actions -----

  /** A caller in the section stays in it, unless its outcome is written or refused for good. */
  lemma ActingStage(a: Adapter, call: Call, stage: Stage, reply: Reply)
    requires KindFits(call, stage) && NextAction(stage).Some? && Fits(NextAction(stage).value, reply) && InSection(stage)
    ensures var next := Next(a, call, stage, reply);
            && stage != Stage.Claim && next != Stage.Claim
            && (next.Returned? <==> stage.Complete? && reply.Done?)
            && (next.Returned? ==> next.outcome == stage.outcome)
  {
    hide ExpectedObjects, VerificationOf, RestoreFailure;
  }

  lemma ActingResolution(a: Adapter, call: Call, stage: Stage, reply: Reply)
    requires KindFits(call, stage) && NextAction(stage).Some? && Fits(NextAction(stage).value, reply) && stage != Stage.Claim
    ensures PastResolve(Next(a, call, stage, reply)) && call.Restore? ==> PastResolve(stage) || (stage == Resolve && reply.Done?)
  {
    hide ExpectedObjects, VerificationOf, RestoreFailure;
  }

  lemma ActingCaller(a: Adapter, r: Registry, c: Caller, reply: Reply)
    requires KindFits(c.call, c.stage) && NextAction(c.stage).Some? && Fits(NextAction(c.stage).value, reply)
    requires InSection(c.stage)
    requires c.stage == Resolve && reply.Done? ==> KeyOf(c.call.target) !in r.quarantined
    requires KnowsQuarantine(r, c) && Logged(a, c)
    ensures var m := Moved(a, c, reply);
            && KnowsQuarantine(r, m)
            && (m.stage.Returned? <==> c.stage.Complete? && reply.Done?)
            && (m.stage.Returned? ==> m.stage.outcome == c.stage.outcome)
            && m.stage != Stage.Claim
  {
    hide Observed, Next, StageAfter, InSection, PastResolve, NextAction, Fits, KindFits, KeyOf;
    MovedIsLogged(a, c, reply);
    ActingStage(a, c.call, c.stage, reply);
    ActingResolution(a, c.call, c.stage, reply);
  }

  lemma PlainActIsSafe(a: Adapter, s: System, i: nat, reply: Reply)
    requires Safe(a, s) && Enabled(s, Act(i, reply))
    requires !(s.callers[i].stage.Quarantine? && reply.Reference?) && !(s.callers[i].stage.Complete? && reply.Done?)
    ensures Safe(a, AfterAct(a, s, i, reply))
  {
    var c := s.callers[i];
    var m := Moved(a, c, reply);
    assert CallerOk(a, s.table, s.registry, c);
    MovedIsLogged(a, c, reply);
    ActingCaller(a, s.registry, c, reply);
    hide Moved;
    assert m.call == c.call by { MovedCall(a, c, reply); }
    assert HoldsRow(s.table, m);
    Untouched(a, s);
    hide TableOk, GrantsOk, AuthorsOk, HoldsRow, KnowsQuarantine, Observed, Logged, Fits, KindFits, Call.Id;
    ReplaceCaller(a, s, s.table, s.registry, i, m);
  }

  lemma MovedCall(a: Adapter, c: Caller, reply: Reply)
    requires KindFits(c.call, c.stage) && NextAction(c.stage).Some? && Fits(NextAction(c.stage).value, reply)
    ensures Moved(a, c, reply).call == c.call
  {
  }

  lemma QuarantiningCaller(a: Adapter, t: Table<Outcome>, r: Registry, c: Caller, reply: Reply)
    requires c.stage.Quarantine? && c.call.Restore? && reply.Reference? && CallerOk(a, t, r, c)
    ensures var m := Moved(a, c, reply);
            m.call == c.call && InSection(m.stage) && CallerOk(a, t, Withdrawn(r, c.call.target), m)
  {
    MovedIsLogged(a, c, reply);
    hide Logged, Observed, RestoreFailure, Call.Id;
  }

  /** Nobody else is using the target. */
  lemma OthersUseOtherTargets(a: Adapter, s: System, i: nat, k: nat)
    requires Safe(a, s) && i in s.callers && k in s.callers && i != k
    requires s.callers[i].call.Restore? && s.callers[i].stage.Quarantine?
    ensures KnowsQuarantine(Withdrawn(s.registry, s.callers[i].call.target), s.callers[k])
  {
    var c, d := s.callers[i], s.callers[k];
    Untouched(a, s);
    hide Safe, Observed, HoldsRow, Call.Id;
    if d.call.Restore? && PastResolve(d.stage) && KeyOf(d.call.target) == KeyOf(c.call.target) {
      assert d.call.Scope() == c.call.Scope();
      OneCallerPerScope(a, s, i, k);
    }
  }

  lemma QuarantineIsSafe(a: Adapter, s: System, i: nat, reply: Reply)
    requires Safe(a, s) && Enabled(s, Act(i, reply)) && s.callers[i].stage.Quarantine? && reply.Reference?
    ensures Safe(a, AfterAct(a, s, i, reply))
  {
    var c := s.callers[i];
    var m, r := Moved(a, c, reply), Withdrawn(s.registry, c.call.target);
    assert AfterAct(a, s, i, reply) == s.(callers := s.callers[i := m], registry := r);
    hide Moved, AfterAct, Fits, Enabled, Withdrawn, Logged, HoldsRow, KnowsQuarantine, Call.Id;
    assert CallerOk(a, s.table, s.registry, c);
    QuarantiningCaller(a, s.table, s.registry, c, reply);
    Untouched(a, s);
    forall k | k in s.callers && k != i ensures KnowsQuarantine(r, s.callers[k]) {
      OthersUseOtherTargets(a, s, i, k);
    }
    hide TableOk, GrantsOk, AuthorsOk;
    ReplaceCaller(a, s, s.table, r, i, m);
  }

  // ----- Completion -----

  function Written(t: Table<Outcome>, c: Caller): Table<Outcome>
    requires c.stage.Complete? && c.call.Id() in t
  {
    CompleteInTable(t, c.call.Id(), c.stage.outcome.Status() == Passed, c.stage.outcome)
  }

  lemma WrittenTable(a: Adapter, t: Table<Outcome>, authors: map<Id, Caller>, c: Caller)
    requires c.stage.Complete? && c.call.Id() in t
    requires TableOk(t) && AuthorsOk(a, t, authors) && HoldsRow(t, c) && Logged(a, c)
    ensures TableOk(Written(t, c)) && Written(t, c).Keys == t.Keys
    ensures AuthorsOk(a, Written(t, c), authors[c.call.Id() := c])
  {
    hide Logged, Call.Id, Outcome.Status;
  }

  lemma WrittenCaller(a: Adapter, t: Table<Outcome>, r: Registry, c: Caller)
    requires c.stage.Complete? && c.call.Id() in t && HoldsRow(t, c) && Logged(a, c) && KindFits(c.call, c.stage)
    ensures var m := Moved(a, c, Done);
            m.call == c.call && m.stage.Returned? && CallerOk(a, Written(t, c), r, m)
  {
    MovedIsLogged(a, c, Done);
    hide Logged, Observed, Call.Id, Outcome.Status;
  }

  lemma WrittenForOthers(t: Table<Outcome>, c: Caller, d: Caller)
    requires c.stage.Complete? && c.call.Id() in t && HoldsRow(t, c) && HoldsRow(t, d) && TableOk(t)
    requires InSection(d.stage) ==> d.call.Id() != c.call.Id()
    ensures HoldsRow(Written(t, c), d)
  {
    hide Call.Id, Outcome.Status;
  }

  lemma CompletionShape(a: Adapter, s: System, i: nat)
    requires Enabled(s, Act(i, Done)) && s.callers[i].stage.Complete?
    ensures i in s.callers
    ensures var c := s.callers[i];
            && c.call.Id() in s.table && KindFits(c.call, c.stage) && Fits(NextAction(c.stage).value, Done)
            && AfterAct(a, s, i, Done) ==
                 s.(table := Written(s.table, c), callers := s.callers[i := Moved(a, c, Done)],
                    authors := s.authors[c.call.Id() := c])
  {
    hide Moved, Call.Id;
  }

  lemma CompletionIsSafe(a: Adapter, s: System, i: nat)
    requires Safe(a, s) && Enabled(s, Act(i, Done)) && s.callers[i].stage.Complete?
    ensures Safe(a, AfterAct(a, s, i, Done))
  {
    hide AfterAct, Moved, Enabled, KindFits, Fits, Written, Call.Id, HoldsRow, KnowsQuarantine, Logged, TableOk, Exclusive,
         GrantsOk, AuthorsOk;
    CompletionShape(a, s, i);
    var c := s.callers[i];
    var t, m := Written(s.table, c), Moved(a, c, Done);
    assert CallerOk(a, s.table, s.registry, c);
    WrittenCaller(a, s.table, s.registry, c);
    Untouched(a, s);
    CompletionForOthers(a, s, i);
    WrittenTable(a, s.table, s.authors, c);
    hide CallerOk;
    ReplaceCaller(a, s, t, s.registry, i, m);
    GrantsKept(s.table, t, s.grants);
  }

  lemma GrantsKept(t: Table<Outcome>, u: Table<Outcome>, grants: seq<Id>)
    requires GrantsOk(t, grants) && u.Keys == t.Keys
    ensures GrantsOk(u, grants)
  {
  }

  lemma CompletionForOthers(a: Adapter, s: System, i: nat)
    requires Safe(a, s) && i in s.callers && s.callers[i].stage.Complete? && s.callers[i].call.Id() in s.table
    ensures forall k | k in s.callers && k != i :: HoldsRow(Written(s.table, s.callers[i]), s.callers[k])
  {
    hide Written, Call.Id, HoldsRow, KnowsQuarantine, Logged, TableOk, GrantsOk, AuthorsOk;
    Untouched(a, s);
    forall k | k in s.callers && k != i ensures HoldsRow(Written(s.table, s.callers[i]), s.callers[k]) {
      WrittenForOthers(s.table, s.callers[i], s.callers[k]);
    }
  }

  /** Every step of every caller, every crash and every restart recovery keeps the invariant. */
  lemma StepIsSafe(a: Adapter, s: System, step: Step)
    requires Safe(a, s) && Enabled(s, step)
    ensures Safe(a, After(a, s, step))
  {
    hide Safe, AfterAct, AfterAsk;
    match step {
      case Arrive(i, call) => ArriveIsSafe(a, s, i, call);
      case Ask(i, replayable) => AskIsSafe(a, s, i, replayable);
      case Act(i, reply) =>
        if s.callers[i].stage.Quarantine? && reply.Reference? {
          QuarantineIsSafe(a, s, i, reply);
        } else if s.callers[i].stage.Complete? && reply.Done? {
          CompletionIsSafe(a, s, i);
        } else {
          PlainActIsSafe(a, s, i, reply);
        }
      case Crash(dead) => CrashIsSafe(a, s, dead);
      case Recover => RecoverIsSafe(a, s);
    }
  }
}
