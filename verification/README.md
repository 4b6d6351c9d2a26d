# Verification model of AppCare's custody, promotion and recovery protocols

This project models six parts of AppCare and proves what each of them promises.

**Credential vault** (`Vault*.dfy`, `CredentialVault.dfy`, `Listing.dfy`). The vault keeps credential
records, encrypted private keys, rotation journals, an audit log and leased runtime key files in
directories that change by one atomic file operation at a time. `VaultModel` describes every call as
a plan, the list of those operations; a process may die after any of them, recovery passes included.
The class `EncryptedCredentialVault` carries the plans out in the order of the source and its methods
are proved to execute exactly them, up to the operation at which the process dies. `VaultInvariant`
holds what is true at every instant, `VaultTheorems`, `VaultRotationLog` and `VaultOffboarding` what
holds over whole runs with crashes. `VaultOutcomes` says, field by field, what each completed call
leaves and when it fails, and `VaultRejections` what is refused on directories the vault did not leave
itself. Encryption, fingerprints and fresh identifiers are ideal.

**Promotion of a file tree** (`FileTree`, `Inventory`, `ScopePatterns`, `Promotion`, `Rollback`,
`Checkout`, `InventoryContent`). A worker's tree is promoted into the coordinator's checkout by four ordered passes of
system calls, each of which the system may refuse, and rolled back when a pass fails or the final
comparison does. The class `Checkout` runs the passes and the rollback over a tree of files,
directories and links; any call may fail, in the rollback too, and may leave a torn file.
`InventoryContent` says on the trees themselves which edits inventories see, what is refused and what a
promoted tree holds.

**Dump scanner** (`Sql*.dfy`). The MariaDB restore inspection is a state machine run line by line
over a stream. `SqlTokenizer` is an independent recursive tokenizer of the whole text; the two are
proved to agree, error for error and name for name. `SqlScanner` is the machine in its own form,
nested loops over mutable fields. `SqlRefusals` reads the statement policy off the words of a statement,
`SqlDumps` says why a dump is refused and as which words dump tools' statements are read, `SqlSpans` what
literals and comments can hold.

**Operation ledgers, dump and restore** (`Ledger*.dfy`, `OperationLedgers`, `DatabaseCall`,
`CallAccounts`, `RestoreEvidence`, `DatabaseSystem`, `DatabaseConcurrency`, `DatabaseGuarantees`,
`DatabaseReplays`, `DatabaseScopes`, `DatabaseAdapter`). The two ledgers are compared call by call, and
both with the history of calls. One `dump` or `restore` is a state
machine that asks the ledger, the registry, the broker and the file system, each of which may raise;
`DatabaseSystem` interleaves any number of such callers, whose claims are made one database statement
at a time, with crashes and restart recoveries. `CallAccounts` defines the outcome of a call a second
time, without stages, from the replies it received. `DatabaseAdapter` is the sequential form.

**SSH commands** (`Ssh*.dfy`). The client generates commands for typed operations; the forced-command
wrapper on the server recognises them. `SshSoundness` says for every command string whether the wrapper
accepts it and whether the generator could have made it.

**Backups** (`Base64`, `Backup*.dfy`).
Components are serialized, encrypted, stored, verified and restored through a staging directory.
`BackupRestore` says what one attempt at a restore does to the directories, wherever it raises or dies;
the methods of `BackupPipeline` are proved to do exactly that.

Results worth knowing before reading on, each proved below with its exact condition:

- A promotion that replaces a directory with changed content by a file cannot be rolled back: the
  file bars the way to the content. Where every changed path has its parents, a rollback in which no
  call fails succeeds exactly when no such path is barred.
- A rotation that is interrupted after its commit is logged at least once and never twice with the
  same status of the replacement: exactly once while that status does not change, and twice when the
  journal survives until after the replacement has expired.
- A restore whose load call raises leaves evidence without a cleanup disposition, and a ledger that
  refuses the outcome of a quarantined restore makes the adapter ask for the cleanup of that target
  once more, exactly when the load had returned and neither the verification nor an earlier completion
  had raised.
- The in-memory ledger grants a second claim in a busy scope when a finished claim is completed again;
  the status table does not.
- A claim made statement by statement may answer ACTIVE where the atomic claim would demand recovery,
  exactly when its own key was claimed between two of its reads.
- The wrapper refuses some commands the generator emits: those whose root or path holds a quote or a
  backslash, and file reads below a root that begins with two separators or has a secret-named segment.
- The wrapper also accepts commands no operation makes: a root with Unicode blanks after or before it, a
  file read of a root itself or of a path with a space character of Unicode or a percent sign below its
  root, a limit with leading zeros. There are no others.
- Scope strings join identifiers with colons, and identifiers may hold colons, so that operations of two
  tenants, or a dump and a restore, can exclude each other; without colons they never do.
- A crash between the making of a restore's staging directory and its rename leaves that directory,
  and every later restore of that backup is refused, whoever calls and whatever the vault holds.
- A restore called with a clock that has no time zone reports failure, without component names,
  although the final directory is complete. No other restore reports failure over a directory it has
  completed.

## Model

| member | source | states |
|---|---|---|
| VaultTheorems.EveryCallIsAtomic | appcare/connectors/credential_vault.py:518-799 | A call that dies after any number of file operations leaves the invariant true, no record moved back, and the vault holding what it held before the call or what the whole call leaves |
| VaultTheorems.EveryRunKeepsInvariant | appcare/connectors/credential_vault.py:480-799 | Every sequence of calls, each possibly dying anywhere, keeps the invariant and never moves a record back |
| VaultTheorems.EveryInstantIsSound | appcare/connectors/credential_vault.py:592-799 | At every instant of every run at most one journal is pending, a record that is not destroyed has a blob, an active record's blob decrypts under that very record to the key of its fingerprint, and every runtime key file has its lease |
| VaultTheorems.EmptyVaultIsSound | appcare/connectors/credential_vault.py:483-511 | The empty vault satisfies the invariant the runs start from |
| VaultTheorems.RotationIsAllOrNothing | appcare/connectors/credential_vault.py:691-739 | A rotation that dies anywhere, followed by any number of recoveries that die too and one that completes, leaves everything but the audit log exactly as before when the new blob was not written and exactly as after the finished rotation otherwise |
| VaultRotationLog.RotationIsLogged | appcare/connectors/credential_vault.py:984-1007 | A rotation that dies anywhere, followed by any number of recoveries that die too and one that completes, adds nothing to the log when its blob was not written and otherwise one or two events, each made at one of the clock readings and no two with the same status; exactly one while the replacement has the same status at all of them |
| VaultRotationLog.RotationIsLoggedAgain | appcare/connectors/credential_vault.py:1382-1398 | A rotation that dies just before it removes its journal is logged a second time by the next recovery exactly when the replacement's status has changed, because the search matches the status |
| VaultTheorems.CrashedRecoveriesSettle | appcare/connectors/credential_vault.py:929-1007 | Recoveries that crash anywhere, any number of times, do not change what the vault settles to |
| VaultTheorems.RotationPhases | appcare/connectors/credential_vault.py:720-739 | The journal comes first, the new blob commits, and the rest is what recovery would do |
| VaultRecovery.RecoverySettles | appcare/connectors/credential_vault.py:929-1007 | A completed recovery never rejects a journal of the vault's own and leaves the settled state with no journal |
| VaultRecovery.JournalPlanSettles | appcare/connectors/credential_vault.py:937-1007 | One journal is rolled forward when its blob is there and rolled back when it is not |
| VaultRecovery.ForwardSettles | appcare/connectors/credential_vault.py:984-1007 | Publishing the replacement, revoking the source, logging once and dropping the journal is a sequence of steps each of which keeps the invariant and the settled state |
| VaultOutcomes.RecoveredIsSettled | appcare/connectors/credential_vault.py:929-1007 | What a call starts from after recovery: the settled state, sound, without a journal, the log only longer |
| VaultOutcomes.GetOutcome | appcare/connectors/credential_vault.py:518-535 | Reading changes nothing but what recovery does and fails exactly on an unknown credential |
| VaultOutcomes.StoreOutcome | appcare/connectors/credential_vault.py:537-567 | Storing leaves exactly the new record, its key sealed under it, and one event with its status; it fails exactly on an invalid version or expiry, a reference in use, or a record that cannot be written, and then leaves nothing |
| VaultOutcomes.MaterializeOutcome | appcare/connectors/credential_vault.py:569-623 | Materializing recovers, sweeps, and writes exactly the lease of the process and the key its record names; it fails exactly on an unknown credential, one that is expired, revoked or destroyed, a process that does not run, or a failing write |
| VaultOutcomes.ReleaseOutcome | appcare/connectors/credential_vault.py:625-670 | Releasing removes exactly the token's key and lease, and the scope they leave empty, and never fails |
| VaultOutcomes.RevokeOutcome | appcare/connectors/credential_vault.py:672-689 | Revoking stamps the stored record with the time given, and it alone, and logs one revoked event; it fails exactly on an unknown or destroyed credential or a time before its issue |
| VaultOutcomes.RotateOutcome | appcare/connectors/credential_vault.py:691-739 | Rotating leaves the next version under the new reference with its sealed key and lineage, the old record revoked at the time given, no journal, and the event once; it fails exactly on an unknown or unusable credential, a time not after its issue, or an expiry not after that time |
| VaultOutcomes.OffboardOutcome | appcare/connectors/credential_vault.py:741-799 | Offboarding leaves the record destroyed, revoked then unless it was before, no blob, no runtime files, and the event once; it fails exactly on an unknown credential or on a first attempt at a time before its issue |
| VaultOutcomes.OpenOutcome | appcare/connectors/credential_vault.py:804-855 | Opening leaves in every scope exactly the files, unchanged, of tokens with both files and a lease that names a running process, and no empty scope; nothing else changes |
| VaultRejections.JournalsAccepted | appcare/connectors/credential_vault.py:937-1007 | On any directories, a journal is rolled back exactly when it fits and has not begun, forward exactly when it fits and its blob and records are its own, and otherwise refused without a write |
| VaultRejections.ForwardOutcome | appcare/connectors/credential_vault.py:984-1007 | On any directories, a journal rolled forward publishes its replacement, revokes its source unless it was revoked, is logged once and removed, and nothing else changes |
| VaultRejections.OnlyAuthenticKeys | appcare/connectors/credential_vault.py:592-623 | On any directories, a key is handed out only for a coherent usable record whose blob was sealed under it and holds the key it names |
| VaultRejections.ForeignFilesRejected | appcare/connectors/credential_vault.py:804-855 | On any directories, sweeping a scope fails exactly when it holds a file that is no token's or a pair whose lease does not describe it |
| VaultRejections.ScopeSwept | appcare/connectors/credential_vault.py:804-855 | On any directories, sweeping a scope without foreign files keeps exactly the files of tokens with both files and a running process, a key or lease without the other not included, and removes the scope when none is left |
| VaultRejections.UnknownFilesStopRemoval | appcare/connectors/credential_vault.py:900-927 | On any directories, emptying a scope fails exactly when it holds a file that is no token's |
| VaultTheorems.StatusNeverMovesBack | appcare/connectors/credential_vault.py:310-318 | Along any run the status of a record never moves back in active, expired, revoked, destroyed while the clock does not |
| VaultTheorems.ChainsCountVersions | appcare/connectors/credential_vault.py:691-739 | The n-th successor of a credential has its version plus n and a strictly later issue time |
| VaultTheorems.ChainsAreLinear | appcare/connectors/credential_vault.py:691-739 | A credential has at most one n-th successor |
| VaultTheorems.OneLiveMember | appcare/connectors/credential_vault.py:720-739 | Two unrevoked members of a chain are adjacent and are the pair a pending journal names |
| VaultTheorems.ActiveCanBeMaterialized | appcare/connectors/credential_vault.py:569-623 | An active credential can be materialized at every instant of every run in which no write fails, and the key file written is the one its record's fingerprint names |
| VaultTheorems.SurvivingKeys | appcare/connectors/credential_vault.py:804-855 | After stale recovery a key file remains exactly when it was there with a lease that names a live process |
| VaultRuntime.StaleRecoveryReclaims | appcare/connectors/credential_vault.py:804-855 | Stale recovery keeps the invariant at every step, cannot fail, and leaves exactly the surviving files |
| VaultRuntime.StaleTokenIsSafe | appcare/connectors/credential_vault.py:820-846 | The key of a dead process goes before its lease, so that no key is ever without one |
| VaultRuntime.KeySortsBeforeLease | appcare/connectors/credential_vault.py:900-926 | In name order a token's key file comes before its lease file |
| VaultRuntime.RuntimeRemovalIsSafe | appcare/connectors/credential_vault.py:900-926 | Deleting a runtime scope in name order keeps the invariant at every step and removes the scope |
| VaultCalls.StoreIsAtomic | appcare/connectors/credential_vault.py:537-567 | Storing a key keeps the invariant at every step and commits at one of them |
| VaultCalls.StoreCleansUp | appcare/connectors/credential_vault.py:1086-1092 | When the record cannot be written the blob is removed again: the invariant holds at every step and the vault ends as it was |
| VaultCalls.MaterializeIsQuiet | appcare/connectors/credential_vault.py:592-623 | Materializing changes no custody at any step and writes the lease before the key |
| VaultCalls.MaterializeCleansUp | appcare/connectors/credential_vault.py:592-623 | When a runtime file cannot be written, what was written is removed, the key before its lease, custody never changes and nothing is added but the scope's directory |
| VaultCalls.ReleaseIsQuiet | appcare/connectors/credential_vault.py:625-670 | Releasing changes no custody and never leaves a key without its lease |
| VaultCalls.RevokeIsAtomic | appcare/connectors/credential_vault.py:672-689 | Each write of a revocation keeps the invariant and the record's is the only one that changes custody; what it writes is `VaultOutcomes.RevokeOutcome` |
| VaultCalls.RotateIsAtomic | appcare/connectors/credential_vault.py:691-739 | Rotating keeps the invariant at every step and changes custody at one step only |
| VaultCalls.OffboardIsAtomic | appcare/connectors/credential_vault.py:741-799 | Offboarding keeps the invariant at every step and commits at the destroyed record's write |
| VaultCalls.DestroyIsQuiet | appcare/connectors/credential_vault.py:769-799 | Removing runtime files and blob of a destroyed credential changes no custody at any step |
| VaultOffboarding.OffboardingEndsOnce | appcare/connectors/credential_vault.py:741-799 | Any number of attempts, each dying at any step of its recovery or its own, followed by one that completes, end where one uninterrupted call would have ended, that of the attempt which first recorded the destruction: its timestamp, no blob, no runtime files, exactly one offboarded event, everything else the same |
| VaultOffboarding.OffboardingResumes | appcare/connectors/credential_vault.py:741-799 | The part of that after the destroyed record's write: retries that die too and a completed one end where the uninterrupted call ends |
| VaultOffboarding.CallDestroys | appcare/connectors/credential_vault.py:741-780 | Whether an offboarding succeeds and what it leaves in custody depends on what the vault holds and the time given, not on pending journals or earlier interruptions |
| VaultOffboarding.SameOffboarding | appcare/connectors/credential_vault.py:741-799 | Two vaults that hold the same and differ at most in the credential's own files end alike |
| VaultOffboarding.RepeatIsQuiet | appcare/connectors/credential_vault.py:756-799 | Repeating the call on a destroyed credential cannot fail and only finishes the removal |
| VaultOffboarding.OffboardFinishes | appcare/connectors/credential_vault.py:741-799 | A completed offboarding leaves of the credential its record and one event only |
| VaultOffboarding.RetriesAreQuiet | appcare/connectors/credential_vault.py:741-799 | Retried offboardings of one credential do not touch any other credential |
| CredentialVault.EncryptedCredentialVault.Perform | appcare/connectors/credential_vault.py:1255-1282 | One atomic operation applies its effect, or the process dies before it |
| CredentialVault.EncryptedCredentialVault.AuditEventExists | appcare/connectors/credential_vault.py:1284-1408 | True exactly when a line of that kind, operation and record comes before any malformed or unauthentic line, an error exactly when such a line comes first, false otherwise |
| CredentialVault.EncryptedCredentialVault.RecoverRotation | appcare/connectors/credential_vault.py:937-1007 | Executes the journal's recovery plan up to the crash |
| CredentialVault.EncryptedCredentialVault.RecoverPendingRotations | appcare/connectors/credential_vault.py:929-1007 | The loop over journal files executes the recovery plan up to the crash |
| CredentialVault.EncryptedCredentialVault.RecoverStaleRuntime | appcare/connectors/credential_vault.py:804-855 | The loops over runtime scopes and tokens execute the stale recovery plan up to the crash |
| CredentialVault.EncryptedCredentialVault.RemoveRuntimeMaterializations | appcare/connectors/credential_vault.py:900-927 | The loop over sorted names executes the removal plan up to the crash |
| CredentialVault.EncryptedCredentialVault.Reopen | appcare/connectors/credential_vault.py:483-511 | Opening the vault executes the stale recovery up to the crash |
| CredentialVault.EncryptedCredentialVault.Get | appcare/connectors/credential_vault.py:518-535 | Recovers, then returns the stored record |
| CredentialVault.EncryptedCredentialVault.StorePrivateKey | appcare/connectors/credential_vault.py:537-567 | Executes the plan of the call up to the crash, the removal of the blob after a record that could not be written included; the record returned and its sealed key are the ones now stored |
| CredentialVault.EncryptedCredentialVault.Materialize | appcare/connectors/credential_vault.py:569-623 | Executes the plan of the call up to the crash, the removal of what a failed write left included, and returns the key's name |
| CredentialVault.EncryptedCredentialVault.Release | appcare/connectors/credential_vault.py:625-670 | Executes the plan of the call up to the crash |
| CredentialVault.EncryptedCredentialVault.Revoke | appcare/connectors/credential_vault.py:672-689 | Executes the plan of the call up to the crash; the record returned is the one now stored, with the time given as its revocation |
| CredentialVault.EncryptedCredentialVault.Rotate | appcare/connectors/credential_vault.py:691-739 | Executes the plan of the call up to the crash; the replacement returned is the one now stored and the source is revoked at the time given |
| CredentialVault.EncryptedCredentialVault.Offboard | appcare/connectors/credential_vault.py:741-799 | Executes the plan of the call up to the crash and returns a receipt that says whether there was a blob |
| Listing.List | appcare/connectors/credential_vault.py:907-910 | The loop over a directory visits its names in code-point order |
| Listing.SortedIsOrdered | appcare/connectors/credential_vault.py:907-910 | A listing visits earlier names first and no name twice |
| ScopePatterns.PatternsMeanSegments | scripts/verify_task_scope.py:167-190 | The string tests of one pattern decide exactly its meaning on path segments: a subtree, the direct children of a directory, or one path and the directories on the way to it |
| ScopePatterns.PrefixIsBelow | scripts/verify_task_scope.py:167-190 | The string prefix test with a separator is the segment test "strictly below" |
| ScopePatterns.PathAllowed | scripts/verify_task_scope.py:167-190 | The loop accepts a path exactly when some pattern does |
| ScopePatterns.SlashesStripped | scripts/verify_task_scope.py:167-190 | Stripping a pattern's base takes slashes off its end and nothing else |
| ScopePatterns.KeptParts | scripts/verify_task_scope.py:167-190 | The components of a pure path are those of its text in order, without empty and single-dot ones |
| InventoryContent.SameFileEntries | scripts/verify_task_scope.py:53-59 | Two files have one inventory entry exactly when their modes agree and they hold the same bytes or, both without a null byte, the same lines at CRLF, CR and LF |
| InventoryContent.IgnoredIsSkipped | scripts/verify_task_scope.py:36-50 | Inventories leave out exactly the listed directories and paths, and checkpoints and smoke runs of the first `.codex` directory |
| InventoryContent.ChangedIsAltered | scripts/verify_task_scope.py:62-91 | Comparing the inventories of two trees finds exactly the paths that were added, removed or altered in more than line endings |
| InventoryContent.PromotionCarriesEdits | scripts/verify_task_scope.py:500-539 | A promoted tree holds the worker's very node at every altered path and the coordinator's own elsewhere, but for implied directories |
| InventoryContent.ViolationsExactly | scripts/verify_task_scope.py:209-230 | Violations are exactly the altered paths that are the task packet or that no pattern covers |
| InventoryContent.PreChecksExactly | scripts/verify_task_scope.py:337-396 | A promotion in scope is rejected exactly when an altered path is a link, lies behind one, or replaces a directory with content the worker did not delete, or when the coordinator's content differs from the baseline's outside task packets |
| InventoryContent.SameInventories | scripts/verify_task_scope.py:577-582 | The final comparison succeeds exactly when the trees are alike, modes included, everywhere but below skipped names and task packets |
| InventoryContent.ModesDecide | scripts/verify_task_scope.py:564-589 | On a coordinator with the baseline's content it succeeds exactly when every path the worker did not alter has its baseline mode |
| Inventory.WhenInventoriesAreClosed | scripts/verify_task_scope.py:36-91 | An inventory lacks the parent of one of its paths exactly when it reaches below a path skipped by its name alone |
| FileTree.EffectIsLocal | scripts/verify_task_scope.py:261-265 | A system call that succeeds keeps the tree parent-closed and changes only its own path |
| Checkout.Checkout.Call | scripts/verify_task_scope.py:500-539 | A call succeeds with its effect, is refused without one, or fails, possibly leaving a torn file |
| Checkout.Checkout.RemoveTarget | scripts/verify_task_scope.py:261-265 | The path is gone, or it is a directory with content and nothing changed |
| Checkout.Checkout.DeletePass | scripts/verify_task_scope.py:507-511 | Deepest-first deletion never meets a directory with content and ends with exactly the deleted paths gone |
| Checkout.Checkout.DirectoryPass | scripts/verify_task_scope.py:513-523 | Shallowest-first creation ends with every changed directory made and nothing else new but implied directories; with every changed path anchored it is never refused |
| Checkout.Checkout.FilePass | scripts/verify_task_scope.py:525-532 | Every changed file ends with the worker's content and mode and nothing else moves but implied directories; with every changed path anchored it never lands on a directory with content and is never refused |
| Checkout.Checkout.ModePass | scripts/verify_task_scope.py:534-539 | Directory modes are set last and complete the promoted tree |
| Checkout.Checkout.ApplyStagedChanges | scripts/verify_task_scope.py:500-539 | Completed, the four passes have built the promoted tree but for implied directories; wherever they stop nothing outside the changed set is lost or altered; with every changed path anchored only a failing call stops them, in a state from which rollback can take over |
| Checkout.Checkout.RestorePath | scripts/verify_task_scope.py:457-497 | One path is returned to its backed-up kind, content and mode, or the rollback stops there because a call failed or was refused, with every deeper path still restored |
| Checkout.Checkout.RestoreTargetState | scripts/verify_task_scope.py:453-497 | Rollback moves nothing outside the changed set, and completed it has returned every changed path; from every state the passes of an anchored promotion stop in it completes only where no path to restore is barred and is refused only where one is |
| Checkout.Checkout.Promote | scripts/verify_task_scope.py:542-598 | Violations are exactly the changed paths out of scope; a refused or rejected promotion leaves the tree as it was; a promoted tree is the worker's on changed paths and the coordinator's elsewhere, a rolled-back one the coordinator's, but for implied directories, and none are implied when changed paths are anchored (what is changed, refused and promoted is stated on the trees by `InventoryContent`); then rollback fails only where a full directory is replaced or after a failing call of its own, and without failing calls the outcome is promoted exactly when modes agree on unchanged paths and a failed rollback exactly when they do not and a full directory is replaced |
| Checkout.PromotionStaysInScope | scripts/verify_task_scope.py:209-230 | Every path whose node a completed promotion changes matches an allowed pattern and is not the packet of the promoted job, or is an implied directory |
| Promotion.PassesBuildPromoted | scripts/verify_task_scope.py:500-539 | Deletions, directories, files and directory modes together build exactly the promoted tree |
| Promotion.CallKeepsBetween | scripts/verify_task_scope.py:500-539 | Every single call of the passes keeps the state one that rollback understands |
| Promotion.FinalCheckMeansModesAgree | scripts/verify_task_scope.py:572-589 | With the content at the baseline, the final comparison succeeds exactly when modes agree on unchanged paths |
| Promotion.PromotedFrame | scripts/verify_task_scope.py:561-598 | Outside the changed set nothing is altered or lost, ignored and untracked files included |
| Promotion.ContentCheckAnchors | scripts/verify_task_scope.py:561-579 | The content check anchors every changed path, its parents changed with it or already there, when the worker's inventory is parent-closed and no task packet changes |
| Promotion.BlockedOnlyByReplacement | scripts/verify_task_scope.py:453-497 | Rollback can be barred only if a directory with changed content is being replaced by a file |
| Promotion.ReplacementBlocksRollback | scripts/verify_task_scope.py:475-480 | Whenever such a replacement is planned, the finished passes leave a state rollback cannot undo |
| Checkout.FullDirectoryIsNotRolledBack | scripts/verify_task_scope.py:337-373 | A family of promotions that pass every check before the first change, fail the final comparison on a mode, and replace a full directory |
| Checkout.FullDirectoryIsInScope | scripts/verify_task_scope.py:167-230 | The smallest of them has no scope violation |
| Checkout.PromoteOverFullDirectory | scripts/verify_task_scope.py:542-598 | Promoting it ends with the failed rollback unless a system call fails first |
| SqlLines.ScannerIsTokenizer | appcare/database/broker.py:164-342 | Within the limits the line-by-line scanner gives exactly the verdict and names of the recursive tokenizer on the whole text; outside them it rejects |
| SqlLines.LinesAsOneText | appcare/database/broker.py:197-332 | Where the lines break does not matter: no token, statement or mode depends on it |
| SqlLines.LimitsDecide | appcare/database/broker.py:199-206 | Outside the line and size limits the dump is rejected; inside them only the machine decides |
| SqlLines.CleanedIsText | appcare/database/broker.py:207-208 | A dump without byte order marks is scanned as it is |
| SqlTokenizer.MachineJudgesTokens | appcare/database/broker.py:211-338 | From every state between tokens the mode machine judges what the tokenizer reads |
| SqlGuarantees.AcceptedDumps | appcare/database/broker.py:125-161 | Accepted exactly when the dump is within the limits, complete, and the policy has no reason, as `SqlRefusals` reads it off the words, to refuse any of its statements, executable comments included; the names are the created tables and views, once each, in order of first appearance |
| SqlRefusals.StatementVerdict | appcare/database/broker.py:125-161 | For every statement the exact verdict: a spelled definer, else a programmable object after create, alter or drop, else a listed first word or pair, else a created table or view without a valid name, each with its own error; otherwise the names with the created one, once |
| SqlRefusals.ContainsIsSpelled | appcare/database/broker.py:128-149 | The policy's search in the joined words finds exactly what the words spell |
| SqlRefusals.SpelledInOrAcross | appcare/database/broker.py:128-149 | A spelling lies within one word, or begins at the end of one and goes on in the next |
| SqlRefusals.DefinerIsRefused | appcare/database/broker.py:132-133 | A word that mentions a definer is refused as a security directive wherever it stands |
| SqlRefusals.NameIsHeld | appcare/database/contracts.py:141-153 | Name validation accepts exactly a valid name with blanks around it and returns the name |
| SqlRefusals.FoldMaps | appcare/database/broker.py:128-131 | Case folding maps character by character |
| SqlDumps.RefusedDumps | appcare/database/broker.py:164-342 | Within the limits a dump is refused for exactly one reason: that of the first statement the policy refuses, or else its malformed end |
| SqlDumps.LimitsAre | appcare/database/broker.py:199-206 | The limits are the announced size and lines of at most 8192 bytes, or 8193 with their line feed |
| SqlDumps.LimitErrors | appcare/database/broker.py:197-335 | Outside the limits the error is that of what was read before, else an oversized line, else a changed size |
| SqlDumps.LinesAreText | appcare/database/broker.py:197-200 | The lines are the text, cut after every line feed and nowhere else |
| SqlDumps.StripBomStrips | appcare/database/broker.py:207-208 | Of a line only the byte order marks it begins with are dropped |
| SqlDumps.DumpIsRead | appcare/database/broker.py:211-338 | A dump of statements written with blanks, commas and parentheses is read as exactly those statements, in executable comments with any version prefix or not, words in backticks or not |
| SqlSpans.EnclosedBodies | appcare/database/broker.py:218-233 | A text can stand in a literal exactly when its quotes are escaped by an odd number of backslashes and its end is not |
| SqlSpans.CommentBodies | appcare/database/broker.py:242-300 | A text can stand in an ordinary block comment exactly when it neither holds the comment's end nor begins with an exclamation mark |
| SqlSpans.FlawEnds | appcare/database/broker.py:249-338 | A comment inside an executable comment is ambiguous; an unclosed literal, backtick or comment cuts the text off |
| SqlGuarantees.InteriorsDoNotMatter | appcare/database/broker.py:215-248 | Replacing the inside of a literal or an ordinary comment, one on a last line without a line feed included, by any text that does not close it changes neither verdict nor names |
| SqlGuarantees.LiteralsDoNotMatter | appcare/database/broker.py:218-233 | The same for quoted literals, inside executable comments too |
| SqlGuarantees.BlockCommentsDoNotMatter | appcare/database/broker.py:242-248 | The same for block comments |
| SqlGuarantees.LineCommentsDoNotMatter | appcare/database/broker.py:289-298 | The same for comments to the end of the line |
| SqlGuarantees.LastCommentDoesNotMatter | appcare/database/broker.py:289-298 | The same for a comment on a last line that no line feed ends |
| SqlScanner.Scanner.FinishStatement | appcare/database/broker.py:192-195 | Refuses a statement exactly as `InspectStatement` does, whose verdict `SqlRefusals.StatementVerdict` determines, else collects its name and starts the next one |
| SqlScanner.Scanner.Advance | appcare/database/broker.py:213-328 | One turn of the inner loop is one step of the machine |
| SqlScanner.Scanner.ScanLine | appcare/database/broker.py:211-332 | The inner loop scans the line and closes it |
| SqlScanner.Scanner.Inspect | appcare/database/broker.py:164-342 | The loops over the stream return the verdict of the inspection |
| LedgerAgreement.LedgersAgree | appcare/database/persistence.py:218-291 | On every sequence of claims, completions and restart recoveries that completes only unfinished claims, the dictionary ledger and the status table give the same decisions, outcomes up to serialization |
| LedgerAgreement.EmptyLedgersAgree | appcare/database/persistence.py:218-291 | In particular on every such sequence from two empty ledgers |
| LedgerAgreement.CallAgrees | appcare/database/adapters.py:200-234 | One call keeps the two ledgers in agreement |
| LedgerAgreement.ClaimKeepsCoherent | appcare/database/adapters.py:200-217 | A claim keeps the active scopes exactly the scopes with an unfinished entry, at most one for each |
| LedgerAgreement.CompletingKeepsCoherent | appcare/database/adapters.py:219-226 | A completion keeps that invariant exactly when the claim is unfinished or its scope is idle |
| LedgerAgreement.RestartKeepsCoherent | appcare/database/adapters.py:228-234 | Under the invariant a restart recovery changes nothing in the dictionary ledger |
| LedgerAgreement.RepeatedCompletionInMemory | appcare/database/adapters.py:219-226 | Completing a finished claim makes the dictionary ledger grant a claim in a busy scope |
| LedgerAgreement.RepeatedCompletionInTable | appcare/database/persistence.py:361-384 | The status table refuses the same claim as active |
| LedgerAgreement.TableKeepsSingleFlight | appcare/models/operations.py:273-286 | No call on the table breaks the partial unique index on busy scopes |
| LedgerAgreement.GrantedAtMostOnce | appcare/database/adapters.py:200-217 | Whatever the callers do, a key is granted at most once in its scope |
| LedgerHistory.LedgersFollowHistory | appcare/database/adapters.py:200-234 | On every sequence of calls that completes only unfinished claims, both ledgers answer each call as the earlier calls and answers require: new, active, conflict, recovery or duplicate with the completed outcome |
| LedgerHistory.AnswersAreDue | appcare/database/adapters.py:200-234 | The same for the dictionary ledger from any contents that hold a history |
| OperationLedgers.DatabaseOperationLedger.Claim | appcare/database/adapters.py:200-217 | A new claim adds its open entry and busies its scope, any other decision changes nothing; decisions are those of the specification, which `LedgerHistory.LedgersFollowHistory` determines |
| OperationLedgers.DatabaseOperationLedger.Complete | appcare/database/adapters.py:219-226 | Stores the outcome and frees the scope, or refuses a missing entry unchanged |
| OperationLedgers.DatabaseOperationLedger.MarkRestartRecovery | appcare/database/adapters.py:228-234 | The active scopes become those with unfinished entries |
| OperationLedgers.SqlAlchemyDatabaseOperationLedger.Claim | appcare/database/persistence.py:218-291 | A new claim adds its running row, any other decision changes nothing; decisions are those of the atomic claim |
| OperationLedgers.SqlAlchemyDatabaseOperationLedger.Complete | appcare/database/persistence.py:361-384 | Writes the terminal status and outcome, or refuses and changes nothing |
| OperationLedgers.SqlAlchemyDatabaseOperationLedger.MarkRestartRecovery | appcare/database/persistence.py:386-394 | The loop marks exactly the pending and running rows |
| DatabaseGuarantees.NewIsAnsweredOnce | appcare/database/persistence.py:218-282 | In every interleaving with crashes, NEW is answered at most once for a scope and key |
| DatabaseGuarantees.BrokerCallsAreSingleFlight | appcare/database/adapters.py:437-584 | Every broker call lies between its caller's NEW claim and completion, and no other caller is between them for that scope |
| DatabaseGuarantees.AbandonedScopesStayClosed | appcare/database/adapters.py:601-626 | After a crash between a NEW claim and its completion the scope never reaches the broker again and no claim on it is NEW, restart recoveries included |
| DatabaseGuarantees.CrashAbandons | appcare/database/persistence.py:386-394 | A caller that dies between the two leaves its claim to nobody |
| DatabaseGuarantees.QuarantinedTargetsStayClosed | appcare/database/adapters.py:135-184 | A quarantined target is never run against again by any call; only the call that quarantined it may ask for a cleanup, after a load that returned, a verification that did not raise and an outcome the ledger refused |
| DatabaseGuarantees.PassedIsNeverInvented | appcare/database/adapters.py:601-804 | PASSED restore evidence, replayed or not, was earned by a call for the same scope, key and request that saw an empty target, a passing load and a matching recount |
| DatabaseGuarantees.OnlyUnfinishedClaimsAreCompleted | appcare/database/adapters.py:557-584 | The adapter uses the ledger as the agreement of the two ledgers demands |
| DatabaseGuarantees.RacingClaims | appcare/database/persistence.py:225-282 | A claim made statement by statement decides as the atomic one at its last statement, except exactly when its own key was claimed between its reads |
| DatabaseGuarantees.RaceIsReachable | appcare/database/persistence.py:225-241 | A run in which that exception happens |
| DatabaseConcurrency.StepIsSafe | appcare/database/persistence.py:218-394 | Every step of every caller, every crash and every restart recovery keeps the system's invariant |
| DatabaseConcurrency.OneCallerPerScope | appcare/models/operations.py:277-285 | Two callers between NEW and completion for one scope are the same caller |
| DatabaseReplays.KnownOperations | appcare/database/adapters.py:445-467 | Reading a row of its own key ends a concurrent call: a conflict for another request's digest, the stored outcome when it is finished, of this kind and replayable, a duplicate when finished otherwise, a demand for recovery while it is not |
| DatabaseScopes.SharedScopes | appcare/database/adapters.py:1103-1116 | Two calls share a scope exactly when their identifiers, cut at colons, read the same |
| DatabaseScopes.PlainScopesAreApart | appcare/database/adapters.py:1103-1116 | Without colons they share it only if they are of one kind and work on the same tenant, application and database or target |
| DatabaseScopes.TenantsCanShareAScope | appcare/database/adapters.py:1103-1112 | Two tenants whose dumps share a scope |
| DatabaseScopes.DumpAndRestoreCanShareAScope | appcare/database/adapters.py:1103-1116 | A dump and a restore that share one |
| RestoreEvidence.PassedMeansProven | appcare/database/adapters.py:630-804 | A granted restore returns PASSED exactly when the artifact matched and was accepted, the precheck saw the right database with zero objects, the load passed and the recount matched |
| RestoreEvidence.RecountCountsCreatedObjects | appcare/database/adapters.py:1015-1048 | For MariaDB the recount of a passed restore is the number of tables and views the dump creates |
| RestoreEvidence.DispositionIsRecorded | appcare/database/adapters.py:1050-1101 | The evidence names a cleanup disposition with a reference exactly when the load call returned and the result is not PASSED, or the target was found occupied and the ledger took the outcome; which one, and whose reference, is `CallAccounts.RestoreIsAccounted` |
| CallAccounts.RestoreIsAccounted | appcare/database/adapters.py:587-804 | A granted restore returns, and hands to the ledger, exactly the evidence its replies call for: status, reason and verification of the last thing it got to or of the exception that ended it, cleaned by the last cleanup's word, else quarantined by the registry's, else required, with the reference that says so |
| CallAccounts.QuarantineReasons | appcare/database/adapters.py:1061-1101 | The reason given to the registry: the target was found occupied, or its cleanup does not exist, or did not succeed |
| CallAccounts.UngrantedClaims | appcare/database/adapters.py:601-626 | A call whose claim is not granted does nothing more; a finished operation of its kind is replayed, and every other decision has its own status and reason |
| CallAccounts.DumpIsAccounted | appcare/database/adapters.py:428-585 | A granted dump returns, and hands to the ledger, exactly the result its replies call for, and discards its file exactly when an exception ended its work |
| RestoreEvidence.RunsInOrder | appcare/database/adapters.py:650-732 | The broker runs at most precheck, load and verification, in this order, and loads only into a target seen empty |
| RestoreEvidence.QuarantineEndsRuns | appcare/database/adapters.py:1077-1101 | After its quarantine a call asks for no further run, and for a cleanup only after a load that returned, a verification that did not raise and an outcome the ledger refused |
| RestoreEvidence.ConstructorsAccept | appcare/database/contracts.py:1194-1247 | Every outcome a restore forms satisfies the evidence constructor's rules |
| RestoreEvidence.VerificationIsConstructible | appcare/database/contracts.py:1133-1173 | Every verification satisfies its constructor's rule and passes exactly when the recount matches |
| RestoreEvidence.PassedDumpMeansProven | appcare/database/adapters.py:428-585 | A granted dump returns PASSED exactly when the broker passed, the file on disk is the one it reported and is restorable, and the ledger took the outcome at once |
| RestoreEvidence.RaisingLoadIsNotCleanedUp | appcare/database/adapters.py:693-698 | A restore whose load call raises returns failure evidence without a cleanup disposition |
| RestoreEvidence.RefusedOutcomeRepeatsCleanup | appcare/database/adapters.py:699-715 | A log in which the refused outcome of a quarantined restore makes the adapter ask for the cleanup again |
| RestoreEvidence.RefusedOutcomeIsCleanedUp | appcare/database/adapters.py:699-804 | When the ledger refuses the outcome of a restore the cleanup is asked next exactly when the load had returned, the outcome is not PASSED, and neither the verification nor an earlier completion had raised, whether or not the target is quarantined |
| DatabaseAdapter.LogicalDatabaseAdapter.Restore | appcare/database/adapters.py:587-804 | The log of the call is a run of the call machine ending in what is returned or raised; ledger and registry are what that log makes of them; the evidence is the account of the replies; PASSED means proven; a finished operation is replayed and nothing changes |
| DatabaseAdapter.LogicalDatabaseAdapter.TryRestore | appcare/database/adapters.py:630-761 | The guarded block ends in its own return, at its end, or in the handler of the exception it raises |
| DatabaseAdapter.LogicalDatabaseAdapter.TryEmptyTarget | appcare/database/adapters.py:650-692 | The precheck, with an occupied target quarantined, ends the block in the same ways |
| DatabaseAdapter.LogicalDatabaseAdapter.TryLoad | appcare/database/adapters.py:693-761 | So do the load and the verification, with a failed attempt cleaned up |
| DatabaseAdapter.LogicalDatabaseAdapter.HandleRestore | appcare/database/adapters.py:762-802 | The handlers reach the evidence of a failed restore, cleaned up if one was attempted |
| DatabaseAdapter.LogicalDatabaseAdapter.Dump | appcare/database/adapters.py:428-585 | The same contract for a dump, replayed while its artifact is on disk as it was |
| DatabaseAdapter.LogicalDatabaseAdapter.CleanupStatus | appcare/database/adapters.py:1050-1075 | Cleaned exactly when the reply to the cleanup was true or a valid reference, with the owner or that reference; otherwise quarantined with the registry's valid reference, or marked required with the owner |
| DatabaseAdapter.LogicalDatabaseAdapter.QuarantineStatus | appcare/database/adapters.py:1077-1101 | Quarantined exactly when the registry gave a valid reference, with that reference; marked required with the owner otherwise |
| DatabaseAdapter.LogicalDatabaseAdapter.Replay | appcare/database/adapters.py:874-960 | A stored outcome is replayed exactly for the same request, a dump only while the file on disk is the one it reported |
| DatabaseAdapter.InMemoryDatabaseRestoreTargetRegistry.Register | appcare/database/adapters.py:96-133 | Accepts exactly a new, non-production target that is not the source database, and stores its source |
| DatabaseAdapter.InMemoryDatabaseRestoreTargetRegistry.Resolve | appcare/database/adapters.py:135-162 | Succeeds exactly for a registered, unquarantined target bound to the same source |
| DatabaseAdapter.InMemoryDatabaseRestoreTargetRegistry.Quarantine | appcare/database/adapters.py:164-184 | Withdraws exactly a target that resolves |
| SshAgreement.GeneratedCommandsAreRecognised | appcare/connectors/ssh_command_wrapper.py:166-266 | For every operation the generator accepts and the profile of the same target and limits, the joined command line yields the same arguments exactly when the operation is deliverable, and is rejected otherwise; what else the wrapper accepts is `SshSoundness.AcceptedCommands` |
| SshAgreement.WordsOfLine | appcare/connectors/ssh_command_wrapper.py:180-183 | Splitting a joined command line gives the arguments back |
| SshAgreement.JoinedPathApproved | appcare/connectors/ssh_command_wrapper.py:369-394 | The wrapper approves a joined path exactly when its root has one leading separator and no secret-named segment, it has no backslash, and it resolves inside a root |
| SshAgreement.DecimalReadsBack | appcare/connectors/ssh_command_wrapper.py:355-358 | The size limit reads back as the number that was written |
| SshSoundness.AcceptedCommands | appcare/connectors/ssh_command_wrapper.py:161-266 | Every command string: accepted exactly when it holds no refused character and spaces separate the arguments of one of the eleven constant commands, or of a listed form whose root is the profile's, blanks aside, whose path is reachable, whose limit is from 1 to the maximum, or whose service is listed |
| SshSoundness.SplitsAtSpaces | appcare/connectors/ssh_command_wrapper.py:180-183 | Splitting gives exactly the arguments that spaces separate |
| SshSoundness.RootedIsApproved | appcare/connectors/ssh_command_wrapper.py:361-366 | The root test accepts exactly the profile's roots, with blanks around them or not |
| SshSoundness.ReachableIsApproved | appcare/connectors/ssh_command_wrapper.py:369-394 | The path test accepts exactly a root or a path below one, of segments that are no dot names and no secret names, that resolves inside a root |
| SshSoundness.LimitIsNumber | appcare/connectors/ssh_command_wrapper.py:355-358 | The limit test accepts exactly the decimals from 1 to the maximum, zeros before them or not |
| SshSoundness.AcceptedAndGenerated | appcare/connectors/ssh_command_wrapper.py:161-266 | An accepted command is made by some operation on the profile's target exactly when its root is bare, its path lies strictly below a root without a space or percent sign below it, and its limit has no leading zero |
| SshSoundness.CommandsServe | appcare/connectors/linux_ssh_commands.py:59-248 | Which commands each operation yields and in which order, its root, path or service as the last argument |
| SshInexact.BareRootIsAccepted | appcare/connectors/ssh_command_wrapper.py:369-394 | A read of a root itself is accepted and made by no operation |
| SshInexact.PercentIsAccepted | appcare/connectors/ssh_command_wrapper.py:369-394 | So is a path with a percent sign |
| SshInexact.PaddedLimitIsAccepted | appcare/connectors/ssh_command_wrapper.py:355-358 | So is a limit with a leading zero |
| SshInexact.PaddedRootIsAccepted | appcare/connectors/ssh_command_wrapper.py:361-366 | So is a root with a no-break space after it |
| SshInputs.RootsExactly | appcare/connectors/linux_ssh_contracts.py:287-307 | A value is accepted as a root exactly when blanks surround a text of one or two separators and segments without `..`, without comma, space, control or shell character, that is not a system directory |
| SshInputs.RelativePathsExactly | appcare/connectors/linux_ssh_contracts.py:310-330 | A value is accepted as a relative path exactly when blanks surround segments that are no dot names and no secret names, without percent sign, backslash, space, control or shell character |
| SshInputs.IdentifiersExactly | appcare/connectors/linux_ssh_contracts.py:266-278 | An identifier is up to 128 letters, digits and marks, the first a letter or digit, without two dots in a row |
| SshInputs.ProfilesAre | appcare/connectors/ssh_command_wrapper.py:105-128 | A profile is the target's roots and services and a file limit from 1 to 1048576 |
| SshRefusals.GeneratorAccepts | appcare/connectors/linux_ssh_commands.py:59-248 | The generator turns away a constructed operation exactly when its root or service is not the target's or it reads a file below the root of two separators, never for a character of its path |
| SshRefusals.UndeliverableIsRefused | appcare/connectors/ssh_command_wrapper.py:166-266 | Every constructed operation on a root that is not deliverable is generated for a target with that root, and each of its commands is refused |
| SshRefusals.QuotedRootIsRefused | appcare/connectors/ssh_command_wrapper.py:166-183 | One with a quote in its root |
| SshRefusals.DoubledRootIsRefused | appcare/connectors/ssh_command_wrapper.py:369-394 | A file read below a root that begins with two separators |
| SshRefusals.SecretRootIsRefused | appcare/connectors/ssh_command_wrapper.py:369-394 | A file read below a root with a secret-named segment |
| SshPaths.JoinedPath | appcare/connectors/linux_ssh_contracts.py:333-339 | An approved root and a relative path join to a path in normal form, with a double separator only if the root begins with one |
| SshPaths.DoubleSlashHasNoPaths | appcare/connectors/linux_ssh_contracts.py:333-339 | The root of two separators, which the validators accept, has no approved path |
| Base64.RoundTrip | appcare/backups/pipeline.py:70-83 | Decoding what was encoded gives the bytes back (section 4 of RFC 4648) |
| Base64.DecodesExactly | appcare/backups/pipeline.py:85-112 | Exactly whole groups of four with padding at the end only decode, and encoding the result gives the text back but for unused bits of the last digit before padding |
| Base64.DigitsAreAlphabet | appcare/backups/pipeline.py:70-83 | The digits are the alphabet of Table 1 of RFC 4648 in order |
| BackupGuarantees.ComponentsReadBack | appcare/backups/pipeline.py:70-112 | Deserializing what was serialized gives the components in name order |
| BackupGuarantees.SerializationIgnoresOrder | appcare/backups/pipeline.py:70-83 | The serialized form does not depend on the order of the components |
| BackupGuarantees.VerifiedMeansOriginal | appcare/backups/pipeline.py:279-306 | Whatever the vault returns, what verifies against the manifest of some components is exactly those components |
| BackupGuarantees.BuiltArtifactVerifies | appcare/backups/pipeline.py:233-247 | The artifact a backup builds verifies |
| BackupAuthenticity.VerifiedExactly | appcare/backups/pipeline.py:279-306 | An artifact verifies, to given components, exactly when its manifest and digest are its own, it was sealed with this key under this manifest, and it holds components of distinct names that are these in name order and are what the manifest describes |
| BackupAuthenticity.ReadingIsUnique | appcare/backups/pipeline.py:85-112 | Records deserialize exactly when every payload decodes and every constructor accepts, in their order |
| BackupGuarantees.RestoredFilesAreOriginal | appcare/backups/pipeline.py:353-359 | The restored directory has one file for each original component, with its bytes, and no other |
| BackupRestore.AbsentOrComplete | appcare/backups/pipeline.py:308-396 | On every path, raising statements and crashes included, the final directory is as before or complete with the original bytes of every component, and other backups' directories are not touched |
| BackupRestore.CompletedExactly | appcare/backups/pipeline.py:345-359 | The final directory appears exactly when the artifact verified, neither directory was there, and nothing stopped the attempt before the rename |
| BackupRestore.ReportedExactly | appcare/backups/pipeline.py:359-375 | Success is reported exactly when the directory appeared, the process lived and the clock had a time zone |
| BackupRestore.FailedYetComplete | appcare/backups/pipeline.py:359-396 | A restore reported as failed has completed the directory exactly when it appeared, the process lived and the clock had no time zone |
| BackupRestore.CrashedYetComplete | appcare/backups/pipeline.py:359-375 | A crash leaves the directory complete without evidence exactly when it comes after the rename |
| BackupAuthenticity.AttemptsExactly | appcare/backups/pipeline.py:308-396 | What an attempt leaves and reports, by whether there is an artifact for exactly this restore that verifies and by the call at which it is interrupted |
| BackupAuthenticity.LeftBehind | appcare/backups/pipeline.py:351-384 | An attempt that stops in its staging directory without clearing it leaves the files written so far, the torn one included, or what a clearing cut short had not removed of them |
| BackupRestore.NaiveClockWitness | appcare/backups/contracts.py:264-269 | Every backup of components restored with such a clock is reported as failed and complete |
| BackupRestore.CrashLeavesStaging | appcare/backups/pipeline.py:351-384 | A staging directory is left exactly when a crash comes after it is made and before it is renamed, or the removal after an exception there is cut short; it holds what was written so far |
| BackupRestore.CrashBlocksForever | appcare/backups/pipeline.py:348-351 | From then on every attempt on that backup, by whomever and however interrupted, is refused, and neither of its directories changes |
| BackupRestore.CrashThenRefusals | appcare/backups/pipeline.py:348-384 | The same from the attempt that dies: no evidence of its own, then refusals only, and no final directory |
| BackupPipeline.BackupCoordinator.CreateBackup | appcare/backups/pipeline.py:173-277 | A new key is answered VERIFIED exactly when the source gives components with distinct names and the vault can store their artifact; the vault then holds that artifact, whose manifest carries the request's identifiers, destination, retention deadline and key reference and lists every component, and it verifies to the components; stored artifacts are never replaced; an idempotency key is answered once; a foreign destination or a clock without time zone raises and changes nothing |
| BackupPipeline.BackupCoordinator.RestoreBackup | appcare/backups/pipeline.py:308-396 | Directories and evidence are exactly those of the attempt, wherever it is interrupted |
| BackupPipeline.BackupCoordinator.Stage | appcare/backups/pipeline.py:351-356 | The staging directory is made and filled, or stops at the interruption with exactly the part made so far |
| BackupPipeline.BackupCoordinator.WriteComponents | appcare/backups/pipeline.py:352-356 | The loop writes every component's file, or leaves exactly the files before the interruption and the torn one |
| BackupPipeline.BackupCoordinator.RemoveStaging | appcare/backups/pipeline.py:376-384 | The handler removes the staging directory, or leaves what it had not yet deleted |
| BackupPipeline.InMemoryImmutableVault.Put | appcare/backups/stores.py:90-119 | Stores once and never replaces; refuses a reused key or identifier |
| BackupPipeline.InMemoryImmutableVault.Get | appcare/backups/stores.py:121-132 | Returns the stored artifact or an error |
| BackupPipeline.InMemoryImmutableVault.Delete | appcare/backups/stores.py:134-150 | Removes an artifact exactly when its retention has ended |

## Left out

Credential vault:
- One reading of the clock stands for all readings within a call.
- A write that fails without a crash is modelled where the call cleans up after it (`store_private_key`, `materialize`); elsewhere the call raises with the disk a crash there would leave.
- Runtime key and lease files, which are written in place, appear whole: a torn lease makes stale recovery fail closed.
- A crash inside `_write_atomic`: the leftover temporary name makes recovery fail closed, so crash points lie between writes.
- Permissions, owners, links, file descriptors, `fsync` and the file lock of the directories; JSON schemas, timestamps of leases, and the public-key formats. AES-GCM, SHA-256 and uuid are ideal.
- VaultTheorems.RotationIsAllOrNothing: says nothing about the audit log, which `VaultRotationLog.RotationIsLogged` does.
- VaultOffboarding.OffboardingResumes: starts at the destroyed record's write; `VaultOffboarding.OffboardingEndsOnce` covers every earlier interruption.
- CredentialVault.EncryptedCredentialVault.AuditEventExists: a line is whole and authentic or not; the schema, size and MAC checks that decide it are not spelled out.

Promotion:
- Checkout.Checkout.Promote: when a changed path lies below a directory that is neither changed nor in the coordinator's tree, which happens below names that inventories skip, it promises the trees up to that implied directory, which the passes make and rollback leaves, but not that passes and rollback are never refused. `Inventory.WhenInventoriesAreClosed` and `Promotion.ContentCheckAnchors` say when the pre-checks exclude this.
- Paths of equal depth are taken in any order, where the source breaks ties by name.
- A checkout that has suffered torn writes finds the same text in each of them.
- A link that leads to a directory with content is never promoted away: the pre-checks refuse links among source entries.
- The Git state checks, the coordinator's lock, staging and backup copies in temporary directories; the worker's tree is stable while it is promoted.

Dump scanner:
- Undecodable UTF-8; `str.isspace`, `isdigit`, `casefold` and UTF-8 widths are parameters restricted to what all Unicode versions agree on for ASCII punctuation and the line feed.

Ledgers, dump and restore:
- The status table's validators of scope, key and digest, which raise before any effect.
- Stored outcomes rebuild exactly from JSON; whether a stored outcome is replayable is left open in the concurrent model and decided by request equality and the file on disk in the sequential one.
- Checks before the claim (engine, evidence class, file-system boundary), request digests, credentials, command execution and SQL: the broker returns a result or raises.
- The artifact does not change between its digest and its inspection.
- OperationLedgers.SqlAlchemyDatabaseOperationLedger.Claim: one atomic step; its statements, the integrity error and the reads that follow it are in the concurrent model, where `DatabaseGuarantees.RacingClaims` says exactly when they decide otherwise.
- DatabaseAdapter.LogicalDatabaseAdapter.Restore: runs over the dictionary ledger and registry; the status tables appear in the concurrent model.

SSH:
- SshInexact.PercentIsAccepted: like the other examples of its module, for character tables in which letters and the percent sign fold to themselves.
- SshRefusals.DoubledRootIsRefused: like `SshRefusals.SecretRootIsRefused`, for character tables in which lower-case letters fold to themselves.
- SshAgreement.GeneratedCommandsAreRecognised: resolution of links is a parameter, and identifiers are taken as already stripped.
- SshSoundness.AcceptedCommands: a limit written with more than 4300 digits, which Python's `int` refuses, counts as the number it spells.
- Profile files, executables, capability classes and the transport.

Backups:
- Time objectives, events, receipts beyond their digest, metadata validation and path isolation checks; component validators are a parameter.
- `FilesystemImmutableVault` and cloud vaults: the file-system vault's private memory copy outlives a deletion.

The rest of the repository (web front end, dashboard, configuration, live-inventory receipts, release binding, policy scripts, provider connectors) would add easy members only.
