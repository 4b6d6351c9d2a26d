/** The two operation ledgers in the source's own form: objects whose methods update their fields. */
module OperationLedgers {
  import opened Common
  import opened LedgerModel

  /** The dictionary of entries and the set of active scopes. */
  class DatabaseOperationLedger<O> {
    var entries: map<Id, Entry<O>>
    var activeScopes: set<string>

    ghost function Contents(): Memory<O>
      reads this
    {
      Memory(entries, activeScopes)
    }

    constructor ()
      ensures Contents() == EmptyMemory()
    {
      entries, activeScopes := map[], {};
    }

    method Claim(id: Id, digest: string) returns (decision: Decision<O>)
      modifies this
      ensures (Contents(), decision) == ClaimInMemory(old(Contents()), id, digest)
      ensures decision == New ==> id !in old(entries) && entries == old(entries)[id := Entry(digest, None)]
                                  && id.0 !in old(activeScopes) && activeScopes == old(activeScopes) + {id.0}
      ensures decision != New ==> entries == old(entries) && activeScopes == old(activeScopes)
    {
      if id in entries {
        var existing := entries[id];
        if existing.digest != digest { return Conflict; }
        match existing.outcome {
          case None => return RecoveryRequired;
          case Some(outcome) => return Duplicate(outcome);
        }
      }
      if id.0 in activeScopes { return Active; }
      entries := entries[id := Entry(digest, None)];
      activeScopes := activeScopes + {id.0};
      return New;
    }

    /** False when the entry is missing, where the source raises. */
    method Complete(id: Id, outcome: O) returns (found: bool)
      modifies this
      ensures InMemory(old(Contents()), Request.Complete(id, outcome)) == (Contents(), if found then Completed else Raised)
      ensures found <==> id in old(entries)
      ensures found ==> entries == old(entries)[id := Entry(old(entries)[id].digest, Some(outcome))]
                        && activeScopes == old(activeScopes) - {id.0}
      ensures !found ==> entries == old(entries) && activeScopes == old(activeScopes)
    {
      if id !in entries { return false; }
      var digest := entries[id].digest;
      entries := entries[id := Entry(digest, Some(outcome))];
      activeScopes := activeScopes - {id.0};
      return true;
    }

    method MarkRestartRecovery()
      modifies this
      ensures (Contents(), Restarted) == InMemory(old(Contents()), Restart)
      ensures entries == old(entries)
      ensures forall scope :: scope in activeScopes <==>
                exists id :: id in entries && id.0 == scope && entries[id].outcome == None
    {
      activeScopes := set id | id in entries && entries[id].outcome.None? :: id.0;
    }
  }

  /** The table of operation records. */
  class SqlAlchemyDatabaseOperationLedger<O, J> {
    const format: Format<O, J>
    var rows: Table<J>

    constructor (format: Format<O, J>)
      ensures this.format == format && rows == map[]
    {
      this.format := format;
      rows := map[];
    }

    /** The claim when no other session writes between its statements. */
    method Claim(id: Id, digest: string) returns (decision: Decision<Option<J>>)
      modifies this
      ensures (rows, decision) == ClaimInTable(old(rows), id, digest)
      ensures decision == New ==> id !in old(rows) && rows == old(rows)[id := Row(digest, Status.Running, None)]
      ensures decision != New ==> rows == old(rows)
    {
      if id in rows {
        var existing := rows[id];
        if existing.digest != digest { return Conflict; }
        if existing.status == Succeeded || existing.status == Failed { return Duplicate(existing.outcome); }
        return RecoveryRequired;
      }
      if exists other :: other in rows && other.0 == id.0 && rows[other].status.Busy() { return Active; }
      rows := rows[id := Row(digest, Running, None)];
      return New;
    }

    /** False when the outcome cannot be serialized or the record is missing, where the source raises. */
    method Complete(id: Id, outcome: O) returns (found: bool)
      modifies this
      ensures InTable(format, old(rows), Request.Complete(id, outcome)) == (rows, if found then Completed else Raised)
      ensures found <==> format.serialize(outcome).Some? && id in old(rows)
      ensures found ==> rows == old(rows)[id := Row(old(rows)[id].digest,
                                                    if format.passed(outcome) then Status.Succeeded else Status.Failed,
                                                    format.serialize(outcome))]
      ensures !found ==> rows == old(rows)
    {
      var json := format.serialize(outcome);
      if json.None? || id !in rows { return false; }
      var record := rows[id];
      record := record.(status := if format.passed(outcome) then Succeeded else Failed);
      record := record.(outcome := Some(json.value));
      rows := rows[id := record];
      return true;
    }

    method MarkRestartRecovery()
      modifies this
      ensures rows == RestartTable(old(rows))
      ensures rows.Keys == old(rows).Keys
      ensures forall id | id in rows :: rows[id] ==
                if old(rows)[id].status == Status.Pending || old(rows)[id].status == Status.Running
                then old(rows)[id].(status := Status.RecoveryNeeded) else old(rows)[id]
    {
      var records := set id | id in rows && (rows[id].status == Pending || rows[id].status == Running);
      while records != {}
        invariant rows.Keys == old(rows).Keys
        invariant forall id | id in records :: id in rows && rows[id] == old(rows)[id]
                                                  && (rows[id].status == Pending || rows[id].status == Running)
        invariant forall id | id in rows && id !in records :: rows[id] == Recovered(old(rows)[id])
        decreases |records|
      {
        var id :| id in records;
        rows := rows[id := rows[id].(status := RecoveryNeeded)];
        records := records - {id};
      }
    }
  }
}
