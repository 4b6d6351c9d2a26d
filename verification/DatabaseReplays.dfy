/** What a caller is told about an operation that the status table already knows. */
module DatabaseReplays {
  import opened Common
  import opened DatabaseCall
  import opened DatabaseSystem
  import opened LedgerModel

  /** The caller is at a statement of its claim that reads its own row. */
  predicate Reading(c: Caller) {
    c.stage == Stage.Claim && (c.phase == Lookup || c.phase == Relookup)
  }

  /** The result of the call without work. */
  function Told(call: Call, status: OperationStatus, reason: string): Stage {
    Returned(if call.Dump? then Dumped(DumpResult(status, reason, None))
             else Restored(Evidence(status, reason, call.manifest.digest, None, None, NoCleanup, None)))
  }

  /** Reading its row ends the call: with a conflict when the row is another request's, with the stored
      outcome when the operation is finished, of this kind, and can be replayed, as a duplicate when it
      is finished otherwise, and with a demand for recovery while it is not. */
  lemma KnownOperations(a: Adapter, s: System, i: nat, replayable: bool)
    requires Enabled(s, Ask(i, replayable)) && Reading(s.callers[i]) && s.callers[i].call.Id() in s.table
    ensures var c, row, after := s.callers[i], s.table[s.callers[i].call.Id()], After(a, s, Ask(i, replayable));
            && after == s.(callers := s.callers[i := after.callers[i]])
            && after.callers[i].call == c.call
            && after.callers[i].stage ==
                 if row.digest != c.call.fingerprint then
                   Told(c.call, if c.call.Dump? then Rejected else OperationStatus.Failed, "idempotency_conflict")
                 else if row.status == Status.Succeeded || row.status == Status.Failed then
                   if replayable && row.outcome.Some? && row.outcome.value.Dumped? == c.call.Dump?
                   then Returned(row.outcome.value) else Told(c.call, Duplicated, "duplicate_operation")
                 else Told(c.call, RestartRecoveryRequired, "restart_recovery_required")
  {
    hide Call.Id;
  }
}
