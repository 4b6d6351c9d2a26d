/**
 Concurrent dump and restore callers over one status table and one target registry, as a state
 machine.  A claim is not atomic: it reads, and later inserts under the table's unique
 constraints, rereading when the insertion conflicts.  Callers may crash between any two steps.
 */
module DatabaseSystem {
  import opened Common
  import opened DatabaseCall
  import opened RestoreEvidence
  import opened LedgerModel
  import LedgerAgreement

  // ----- State -----

  /** Where `claim` stands; it ends with a decision. */
  datatype Phase = Lookup | LookupScope | Insert | Relookup | RelookupScope

  datatype Caller = Caller(call: Call, stage: Stage, log: seq<Event>, phase: Phase)

  type TargetKey = (string, string, string, string)

  datatype Registration = Registration(target: Target, sourceReference: string, sourceDatabase: string, sourceName: string)

  datatype Registry = Registry(records: map<TargetKey, Registration>, quarantined: set<TargetKey>)

  function KeyOf(t: Target): TargetKey { (t.tenant, t.application, t.stack, t.reference) }

  /** `resolve` succeeds. */
  predicate Resolves(r: Registry, t: Target, m: Manifest) {
    && KeyOf(t) !in r.quarantined
    && KeyOf(t) in r.records
    && r.records[KeyOf(t)] == Registration(t, m.targetReference, m.databaseIdentifier, m.logicalName)
  }

  function Withdrawn(r: Registry, t: Target): Registry { r.(quarantined := r.quarantined + {KeyOf(t)}) }

  /** `grants` lists the claims answered NEW; `authors` remembers the caller that wrote each outcome. */
  datatype System = System(
    table: Table<Outcome>, registry: Registry, callers: map<nat, Caller>,
    grants: seq<Id>, authors: map<Id, Caller>)

  // ----- Steps -----

  datatype Step =
    | Arrive(caller: nat, call: Call)
    | Ask(caller: nat, replayable: bool)     // one database statement of a claim
    | Act(caller: nat, reply: Reply)         // any other action
    | Crash(dead: set<nat>)
    | Recover                                // `mark_restart_recovery`

  function Moved(a: Adapter, c: Caller, reply: Reply): Caller
    requires KindFits(c.call, c.stage) && NextAction(c.stage).Some? && Fits(NextAction(c.stage).value, reply)
  {
    Caller(c.call, Next(a, c.call, c.stage, reply), c.log + [Event(NextAction(c.stage).value, reply)], c.phase)
  }

  /** The decision a statement of the claim comes to, if it does, and the phase that follows otherwise. */
  function Statement(t: Table<Outcome>, c: Caller): (Option<Reply>, Phase) {
    var id := c.call.Id();
    match c.phase
    case Lookup =>
      if id in t then (Some(Claimed(DecisionForExisting(t[id], c.call.fingerprint))), Lookup) else (None, LookupScope)
    case LookupScope => if ScopeBusy(t, id.0) then (Some(Claimed(Active)), LookupScope) else (None, Insert)
    case Insert => if id in t || ScopeBusy(t, id.0) then (None, Relookup) else (Some(Claimed(New)), Insert)
    case Relookup =>
      if id in t then (Some(Claimed(DecisionForExisting(t[id], c.call.fingerprint))), Relookup) else (None, RelookupScope)
    case RelookupScope =>
      if ScopeBusy(t, id.0) then (Some(Claimed(Active)), RelookupScope) else (Some(Reply.Raised(OtherError)), RelookupScope)
  }

  /** A stored outcome that cannot be replayed is reported as a duplicate without one. */
  function Replayed(reply: Reply, replayable: bool): Reply {
    if reply.Claimed? && reply.decision.Duplicate? && !replayable then Claimed(Duplicate(None)) else reply
  }

  predicate Enabled(s: System, step: Step) {
    match step
    case Arrive(i, _) => i !in s.callers
    case Ask(i, _) => i in s.callers && s.callers[i].stage == Stage.Claim
    case Act(i, reply) =>
      && i in s.callers
      && var c := s.callers[i];
      && KindFits(c.call, c.stage)
      && NextAction(c.stage).Some? && NextAction(c.stage) != Some(Claiming) && Fits(NextAction(c.stage).value, reply)
      && (c.stage == Resolve && reply.Done? ==> Resolves(s.registry, c.call.target, c.call.manifest))
      && (c.stage.Quarantine? && reply.Reference? ==> Resolves(s.registry, c.call.target, c.call.manifest))
      && (c.stage.Complete? && reply.Done? ==> c.call.Id() in s.table)
    case _ => true
  }

  function AfterAsk(a: Adapter, s: System, i: nat, replayable: bool): System
    requires Enabled(s, Ask(i, replayable))
  {
    var c := s.callers[i];
    match Statement(s.table, c)
    case (None, phase) => s.(callers := s.callers[i := c.(phase := phase)])
    case (Some(reply), _) =>
      var moved := s.callers[i := Moved(a, c, Replayed(reply, replayable))];
      if reply == Claimed(New)
      then s.(table := s.table[c.call.Id() := Row(c.call.fingerprint, Status.Running, None)],
              callers := moved, grants := s.grants + [c.call.Id()])
      else s.(callers := moved)
  }

  function AfterAct(a: Adapter, s: System, i: nat, reply: Reply): System
    requires Enabled(s, Act(i, reply))
  {
    var c := s.callers[i];
    var moved := s.(callers := s.callers[i := Moved(a, c, reply)]);
    if c.stage.Quarantine? && reply.Reference? then
      moved.(registry := Withdrawn(s.registry, c.call.target))
    else if c.stage.Complete? && reply.Done? then
      var o := c.stage.outcome;
      moved.(table := CompleteInTable(s.table, c.call.Id(), o.Status() == Passed, o),
             authors := s.authors[c.call.Id() := c])
    else moved
  }

  function After(a: Adapter, s: System, step: Step): System
    requires Enabled(s, step)
  {
    match step
    case Arrive(i, call) => s.(callers := s.callers[i := Caller(call, Stage.Claim, [], Lookup)])
    case Ask(i, replayable) => AfterAsk(a, s, i, replayable)
    case Act(i, reply) => AfterAct(a, s, i, reply)
    case Crash(dead) => s.(callers := s.callers - dead)
    case Recover => s.(table := RestartTable(s.table))
  }

  predicate Legal(a: Adapter, s: System, steps: seq<Step>)
    decreases |steps|
  {
    steps == [] || (Enabled(s, steps[0]) && Legal(a, After(a, s, steps[0]), steps[1..]))
  }

  /** The state before step `k` of a run. */
  function StateAt(a: Adapter, s: System, steps: seq<Step>, k: nat): System
    requires Legal(a, s, steps) && k <= |steps|
    decreases |steps|
  {
    if k == 0 then s else StateAt(a, After(a, s, steps[0]), steps[1..], k - 1)
  }

  // ----- Invariant -----

  /** Between a NEW claim and the end of the call. */
  predicate InSection(stage: Stage) {
    stage != Stage.Claim && !stage.Returned? && !stage.Propagated?
  }

  /** The target was resolved and its use is not over. */
  predicate PastResolve(stage: Stage) {
    stage == Read || stage.RunPrecheck? || stage.RunLoad? || stage.RunVerify? || stage.CleanUp? || stage.Quarantine?
    || (stage.Complete? && stage.attempted)
  }

  predicate TableOk(t: Table<Outcome>) {
    LedgerAgreement.SingleFlight(t) && forall id | id in t :: t[id].status.Busy() <==> t[id].outcome.None?
  }

  predicate HoldsRow(t: Table<Outcome>, c: Caller) {
    && (InSection(c.stage) ==>
          c.call.Id() in t && t[c.call.Id()].status.Busy() && t[c.call.Id()].digest == c.call.fingerprint)
    && (c.stage.Returned? && c.stage.outcome.Status() == Passed ==>
          && c.call.Id() in t && t[c.call.Id()].outcome == Some(c.stage.outcome)
          && t[c.call.Id()].digest == c.call.fingerprint)
  }

  predicate KnowsQuarantine(r: Registry, c: Caller) {
    c.call.Restore? && PastResolve(c.stage) && KeyOf(c.call.target) in r.quarantined ==> Observed(c.log).quarantined
  }

  predicate Logged(a: Adapter, c: Caller) { StageAfter(a, c.call, c.log) == Some(c.stage) }

  predicate CallerOk(a: Adapter, t: Table<Outcome>, r: Registry, c: Caller) {
    Logged(a, c) && HoldsRow(t, c) && KnowsQuarantine(r, c)
  }

  predicate CallersOk(a: Adapter, t: Table<Outcome>, r: Registry, callers: map<nat, Caller>) {
    forall i | i in callers :: CallerOk(a, t, r, callers[i])
  }

  predicate Exclusive(callers: map<nat, Caller>) {
    forall i, k | i in callers && k in callers && InSection(callers[i].stage) && InSection(callers[k].stage)
                  && callers[i].call.Id() == callers[k].call.Id() :: i == k
  }

  predicate GrantsOk(t: Table<Outcome>, grants: seq<Id>) {
    && (forall id | id in t :: id in grants)
    && (forall i | 0 <= i < |grants| :: grants[i] in t)
    && forall i, k | 0 <= i < k < |grants| :: grants[i] != grants[k]
  }

  predicate Authored(a: Adapter, row: Row<Outcome>, id: Id, c: Caller) {
    && Logged(a, c) && c.stage.Complete? && row.outcome == Some(c.stage.outcome)
    && c.call.Id() == id && c.call.fingerprint == row.digest
  }

  predicate AuthorsOk(a: Adapter, t: Table<Outcome>, authors: map<Id, Caller>) {
    forall id | id in t && t[id].outcome.Some? :: id in authors && Authored(a, t[id], id, authors[id])
  }

  predicate Safe(a: Adapter, s: System) {
    && TableOk(s.table)
    && CallersOk(a, s.table, s.registry, s.callers)
    && Exclusive(s.callers)
    && GrantsOk(s.table, s.grants)
    && AuthorsOk(a, s.table, s.authors)
  }

  function Initial(r: Registry): System { System(map[], r, map[], [], map[]) }
}
