/**
 The two database operation ledgers as values: entries with a set of active scopes held in
 memory, and a status table.  Each function is one call made under the ledger's lock.
 */
module LedgerModel {
  import opened Common

  /** A scope and an idempotency key. */
  type Id = (string, string)

  datatype Decision<T> = New | Duplicate(outcome: T) | Conflict | Active | RecoveryRequired

  datatype Request<O> = Claim(id: Id, digest: string) | Complete(id: Id, outcome: O) | Restart

  datatype Answer<T> = Decided(decision: Decision<T>) | Completed | Restarted | Raised

  // ----- In memory -----

  datatype Entry<O> = Entry(digest: string, outcome: Option<O>)
  datatype Memory<O> = Memory(entries: map<Id, Entry<O>>, active: set<string>)

  function EmptyMemory<O>(): Memory<O> { Memory(map[], {}) }

  function ClaimInMemory<O>(m: Memory<O>, id: Id, digest: string): (Memory<O>, Decision<O>) {
    if id in m.entries then
      var entry := m.entries[id];
      if entry.digest != digest then (m, Conflict)
      else if entry.outcome.None? then (m, RecoveryRequired)
      else (m, Duplicate(entry.outcome.value))
    else if id.0 in m.active then (m, Active)
    else (Memory(m.entries[id := Entry(digest, None)], m.active + {id.0}), New)
  }

  function CompleteInMemory<O>(m: Memory<O>, id: Id, outcome: O): Memory<O>
    requires id in m.entries
  {
    Memory(m.entries[id := Entry(m.entries[id].digest, Some(outcome))], m.active - {id.0})
  }

  predicate Unfinished<O>(m: Memory<O>, id: Id) { id in m.entries && m.entries[id].outcome.None? }

  function UnfinishedScopes<O>(m: Memory<O>): set<string> {
    set id | id in m.entries && m.entries[id].outcome.None? :: id.0
  }

  function InMemory<O>(m: Memory<O>, r: Request<O>): (Memory<O>, Answer<O>) {
    match r
    case Claim(id, digest) =>
      var (next, decision) := ClaimInMemory(m, id, digest); (next, Decided(decision))
    case Complete(id, outcome) =>
      if id in m.entries then (CompleteInMemory(m, id, outcome), Completed) else (m, Raised)
    case Restart => (Memory(m.entries, UnfinishedScopes(m)), Restarted)
  }

  // ----- Status table -----

  datatype Status = Pending | Running | Succeeded | Failed | RecoveryNeeded
  {
    /** The statuses of the partial unique index on the scope. */
    predicate Busy() { Pending? || Running? || RecoveryNeeded? }
  }

  datatype Row<J> = Row(digest: string, status: Status, outcome: Option<J>)

  /** The unique constraint on scope and key makes the table a map. */
  type Table<J> = map<Id, Row<J>>

  /** How outcomes are stored: what `_serialize_outcome` makes of them, if it accepts them, and `passed`. */
  datatype Format<!O, !J> = Format(serialize: O -> Option<J>, passed: O -> bool)

  predicate ScopeBusy<J>(t: Table<J>, scope: string) {
    exists id :: id in t && id.0 == scope && t[id].status.Busy()
  }

  function DecisionForExisting<J>(row: Row<J>, digest: string): Decision<Option<J>> {
    if row.digest != digest then Conflict
    else if row.status == Succeeded || row.status == Failed then Duplicate(row.outcome)
    else RecoveryRequired
  }

  function ClaimInTable<J>(t: Table<J>, id: Id, digest: string): (Table<J>, Decision<Option<J>>) {
    if id in t then (t, DecisionForExisting(t[id], digest))
    else if ScopeBusy(t, id.0) then (t, Active)
    else (t[id := Row(digest, Running, None)], New)
  }

  function CompleteInTable<J>(t: Table<J>, id: Id, passed: bool, outcome: J): Table<J>
    requires id in t
  {
    t[id := Row(t[id].digest, if passed then Succeeded else Failed, Some(outcome))]
  }

  function Recovered<J>(row: Row<J>): Row<J> {
    if row.status == Pending || row.status == Running then row.(status := RecoveryNeeded) else row
  }

  function RestartTable<J>(t: Table<J>): Table<J> {
    map id | id in t :: Recovered(t[id])
  }

  function InTable<O, J>(f: Format<O, J>, t: Table<J>, r: Request<O>): (Table<J>, Answer<Option<J>>) {
    match r
    case Claim(id, digest) =>
      var (next, decision) := ClaimInTable(t, id, digest); (next, Decided(decision))
    case Complete(id, outcome) =>
      if f.serialize(outcome).Some? && id in t
      then (CompleteInTable(t, id, f.passed(outcome), f.serialize(outcome).value), Completed)
      else (t, Raised)
    case Restart => (RestartTable(t), Restarted)
  }

  // ----- Runs of calls -----

  function MemoryAnswers<O>(m: Memory<O>, calls: seq<Request<O>>): seq<Answer<O>>
    decreases |calls|
  {
    if calls == [] then []
    else var (next, answer) := InMemory(m, calls[0]); [answer] + MemoryAnswers(next, calls[1..])
  }

  function TableAnswers<O, J>(f: Format<O, J>, t: Table<J>, calls: seq<Request<O>>): seq<Answer<Option<J>>>
    decreases |calls|
  {
    if calls == [] then []
    else var (next, answer) := InTable(f, t, calls[0]); [answer] + TableAnswers(f, next, calls[1..])
  }

  /** Only unfinished claims are completed. */
  predicate Disciplined<O>(m: Memory<O>, calls: seq<Request<O>>)
    decreases |calls|
  {
    calls == [] ||
    (&& (calls[0].Complete? && calls[0].id in m.entries ==> Unfinished(m, calls[0].id))
     && Disciplined(InMemory(m, calls[0]).0, calls[1..]))
  }
}
