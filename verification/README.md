# Models of Groundplane's recovery, exchange and encoding protocols

A Dafny model of the parts of Groundplane whose guarantees hold only over whole runs, with proofs of those
guarantees. `dafny verify dfyconfig.toml` covers every file. The code is modelled in its own form: what changes
fields or a disk step by step is a class or a method proved against a specification function, and what the code
promises is proved of those functions, for every input and every run.

| area | modules |
|---|---|
| Backup staging of the Agent: crash recovery of recorded plans | `VolumeCleanup`, `VolumeRecovery`, `StageDiscard` (the durable operations of one unit), `StagingRecovery` (a whole startup), `StagingParts`, `StagingUnits`, `StagingCrash`, `StagingTheorems` (recovery over all crashes), `StagingSafety`, `StagingSupersession` and `StagingReopening` (plan changes between crashes), `StagingJournal`, `StagingSession`, `StagingStorage`, `StagingAgent` (the stateful Agent) |
| Native request/response exchange of the Agent | `NativeExchange` (one event per critical section), `NativeExchangeRuns`, `NativeExchangeResults`, `NativeExchangeTheorems`, `NativeExchangeLeftovers`, `NativeExchangeTable` (the pending table as a class) |
| Execution slots of the Agent | `ExecutionResults`, `ExecutionSlots`, `ExecutionRuns`, `ExecutionTheorems`, `ExecutionCancellation`, `ExecutionWorkers` |
| Canonical encoders of the component SDK | `Wire`, `Images`, `Ordering`, `Numbers`, `Definitions`, `Catalogs`, `CatalogBuilder`, `CatalogDigest`, `CatalogWriter`, `EnvironmentPlan`, `EnvironmentPlanWriter` |
| Deployment client, release store and image transfer | `UpdateClient`, `ReleaseStore`, `PacedCopy` |
| TypeScript lexer and diagnostics of the architecture checker | `TypeScriptLexer`, `TypeScriptComments`, `TypeScriptTokens`, `TypeScriptRules`, `LocalInterfaces`, `Diagnostics` |
| Host resolution and the helper gate's capsule | `HostProjection`, `HostProjector`, `Capsule`, `CapsuleReader` |

## What the models assume

- Crashes: durable operations that completed persist, in the order in which they completed. A crash may fall
  between any two of them; where a write is not atomic, also after any part of it.
- SHA-256 is a function parameter. Where a conclusion needs two digests to differ, the lemma says which values the
  digest must separate.
- Concurrency: every critical section and every channel operation is one event, and the theorems quantify over all
  sequences of events.
- Input from outside (a Controller's answers, the receiver's writes, reads of a file, map iteration order, I/O
  faults) is a parameter or an arbitrary choice.

## What the proofs found

- Backup staging recovers from every sequence of crashes exactly when no component of a volume under cleanup was
  stopped in one of two windows. In the first, the log of a retiring directory is unlinked and its authority is not
  (internal/infra/agentvolumejournal/cleanup_linux.go:213-228): the inventory row then lacks its sealed binding and
  reopening refuses it. In the second, a discard has renamed the directory but not yet created its marker
  (internal/infra/agentvolumejournal/discard_linux.go:88-95): the row does not say that it is discarding, so the replay
  takes the completed-cleanup branch and refuses it. The manifest receiver has the same two windows.
  `StagingTheorems.StuckIffWindow` states the condition on the interrupted operation list, and
  `StagingSafety.CrashCanBeFatal` gives a disk for each window from which no later startup finishes.
- A plan that supersedes another can stop recovery for good without any crash in a window. The journal accepts a plan
  that holds or resumes a volume whose recorded cleanup a crash stopped midway; that startup goes through, and every
  later one is refused, because only a recorded cleanup may differ from the retained row
  (internal/agent/backup_staging.go:150-172). `StagingSupersession.TakingBackExactly` says when the next opening refuses,
  `TakingBackIsFatal` that nothing helps afterwards, and `RecoveryAcrossPlans` that plans which take back no removal do
  no harm. `StagingReopening.OpensExactly` gives the condition for every history. Of the two windows above it names only
  the first: in the second the startup opens and its cleanup is what fails.
- The converse of "in flight implies pending" fails in two ways: the outbox cannot take a terminal report and its
  caller leaves (internal/agent/native_exchange.go:145-149), or the answer or refusal of a message is not taken, because
  it does not match or cannot be written (internal/agent/native_exchange_responses.go:227-246,
  internal/agent/native_report_rejection.go:13-33). `NativeExchangeLeftovers.PendingForNothingExactly` states that these
  are all, for every honest run and every entry. After the second the session ends
  (internal/agent/client_session.go:277-280), so that what it leaves behind goes with the close; after the first the key
  is refused until the stream closes (`NativeExchangeTheorems.StrandedKeyIsRefused`).
- The deployment client can record "rejected" while its Task is active: the save of a refusal fails and a later attempt
  is accepted, the receipt is replaced but its directory cannot be synced, so that the client believes the save failed
  and sends again (scripts/controller_update.py:140-151, 206-218), or a request is accepted after its sender gave up and
  was refused at another attempt. `UpdateClient.FailedRefusalMisleads`, `UnconfirmedRefusalMisleads` and
  `LateRequestMisleads` give a history for each, and `UpdateClient.UnsettledExactly` the condition for all histories: the
  receipt says "rejected" and the Controller created the Task after it had answered a refusal. Any other terminal
  receipt is settled in every history (`UpdateClient.EndedReceiptsAreSettled`).
- The TypeScript lexer turns a single byte into the text of the code point with its number
  (internal/architecturecheck/ts_rules.go:127), so that every byte from 128 on in code gives a token of two bytes that
  does not stand in the file, except where the file has C3 83 (`TypeScriptTokens.TokensAreTheText`, `ArrowIsNoText`,
  `ItselfStands`). The rules compare words below 128 only.
- A recovery-required disposition retains whatever files the stage holds and does not compare them with its expected
  files (internal/agent/backup_staging.go:224-234); the model does the same.
- An attach recovery frees its slot without a journal to retire (internal/agent/execution_workers.go:465-481, 541-573).
- If the staging runtime cannot be created after its receipt was accepted, the session stays ready without a runtime
  and refuses every later receipt (internal/agent/backup_staging.go:306-321).
- Equal keys among a plan's services or files keep their order, and then the order does change the bytes
  (`EnvironmentPlan.EqualKeysKeepTheirOrder`). The order decides nothing exactly when services with equal ID and name are
  equal and files with equal paths are equal (`EnvironmentPlan.OrderDecidesNothing`).

## Model

| member | source | states |
|---|---|---|
| `StagingTheorems.RecoveryFromCrashes` | internal/agent/backup_staging.go:36-297 | for every disk, inventory and plan that an uninterrupted startup would finish, and every sequence of startups each crashed at any operation: the next startup is admitted and succeeds exactly when no cleaned component stopped in a window; then it leaves the disk of the uninterrupted startup; otherwise no later startup ever finishes, however often it crashes or is retried |
| `StagingTheorems.FinishesIffNotStuck` | internal/agent/backup_staging.go:108-175 | from any mixture of partly processed stages and volumes, reopening against the retained inventory and replaying the plan succeeds if and only if no cleaned component is in a window |
| `StagingTheorems.FinishesTheSame` | internal/agent/backup_staging.go:177-297 | a startup that finishes after crashes leaves the same disk as one that was never interrupted |
| `StagingTheorems.CrashStaysAtPoints` | internal/agent/backup_staging.go:108-297 | a further crash, at any operation of any startup, leaves every unit at a point of the same original pass, and a component in a window where it is |
| `StagingTheorems.StuckIffWindow` | internal/infra/agentvolumejournal/cleanup_linux.go:91-241 | a crash of the first startup is fatal exactly when, for some component of a cleaned volume, the last durable operation was the unlinking of its log with its authority still there, or the rename of a discard whose marker does not exist yet |
| `StagingTheorems.PassReady` | internal/agent/backup_staging.go:120-175 | a whole startup under a valid plan succeeds exactly when every stage and every volume on the disk is ready under its own disposition and no disposition lacks its unit |
| `StagingUnits.StageReopens` | internal/agent/backup_staging.go:120-175 | one stage crashed anywhere in its part of a pass is again ordered and admitted against the retained entries, and the next pass performs exactly the operations that were left |
| `StagingUnits.VolumeReopens` | internal/agent/backup_volume_startup_subset.go:13-55 | one volume, both components crashed at any points: reopening under the retained row and replaying succeeds exactly when it is not a cleanup stopped in a window; the reference is always the retained row, never an intermediate one |
| `StagingUnits.AdmittedShrinks` | internal/agent/backup_staging.go:120-175 | a stage that lost only files or its execution marker is still admitted against the retained entries |
| `StagingCrash.PassStagePart` | internal/agent/backup_staging.go:200-283 | of a whole startup's operations, those on one stage are exactly the pass of that stage under its own disposition, whatever the other stages and volumes are |
| `StagingCrash.PassVolumePart` | internal/agent/backup_staging_volume_plan.go:11-41 | the same for one component of one volume |
| `StageDiscard.PassContinues` | internal/agent/backup_staging.go:200-283 | after any prefix of a succeeding pass over a stage, the next pass succeeds and performs exactly the remaining operations |
| `StageDiscard.PassAdvances` | internal/infra/backupstage/recovery_cleanup_linux.go:103-175 | each single operation of a pass is one the disposition permits in that state and leaves exactly the rest of the pass to do |
| `StageDiscard.SweepContinues` | internal/infra/backupstage/recovery_cleanup_linux.go:9-101 | opening a stage without files again after a crash does what the first opening left undone |
| `StageDiscard.RunShrinks` | internal/infra/backupstage/recovery_cleanup_linux.go:103-175 | stage operations only ever remove: what is left was there, with the same content |
| `VolumeCleanup.PassContinues` | internal/infra/agentvolumejournal/cleanup_linux.go:91-241 | after any number of operations of a pass over a component that would succeed, the next pass does exactly the remaining operations, except in the two windows, where it does nothing and fails |
| `VolumeCleanup.RetirementResumes` | internal/infra/agentvolumejournal/cleanup_linux.go:54-241 | the same for a directory already retiring, as a completed cleanup or as a discard |
| `VolumeCleanup.InventoryAfterCrash` | internal/infra/agentvolumejournal/inventory_linux.go:121-220 | outside the windows the inventory sees after a crash the same row, a retiring row, or nothing, and never refuses |
| `StagingSafety.StartupSafe` | internal/agent/backup_staging.go:200-283 | no startup, finished or crashed at any operation, removes a file except by a discard or, for the stored object, by a restarted encryption; a database execution marker goes only by a terminal discard and after every file, the directory and the reservation |
| `StagingSafety.HeldFilesSurvive` | internal/agent/backup_staging.go:224-283 | over every sequence of crashed startups a resumed, held or unplanned stage keeps its marker and every file with its content, except the stored object of a restarted encryption |
| `StagingSafety.StagePassSafe` | internal/agent/backup_postgres_inventory.go:44-50 | the same for any prefix of what a pass does to one stage, even when the pass fails |
| `StagingSafety.CrashCanBeFatal` | internal/infra/agentvolumejournal/discard_linux.go:88-95 | for a completed journal and for a blank one there is a disk with a plan that one startup finishes, and a crash of that startup after which no sequence of startups finishes it |
| `StagingSafety.WindowIsFatal` | internal/agent/backup_staging_volume_plan.go:43-97 | a crash in either window of any applicable plan ends all progress |
| `StagingSupersession.RecoveryAcrossPlans` | internal/infra/agentstagingjournal/journal.go:135-180 | after any crashes and any new plans in between, none of which takes back a removal that the plan before it may have begun: the startup under the last recorded plan finishes exactly when no component stopped in a window, and then leaves the disk of one uninterrupted startup under that plan from the very first disk |
| `StagingSupersession.RefusedForever` | internal/agent/backup_staging.go:108-118 | a disk that is refused when it is opened is refused for ever, whatever crashes and whatever plans follow |
| `StagingSupersession.TakingBackExactly` | internal/agent/backup_staging.go:150-172 | after a crash anywhere in a plan, and under a new plan that no longer cleans some untouched volume, the next opening refuses that volume if and only if its cleanup had begun and some component had more than its last operation left |
| `StagingSupersession.TakingBackIsFatal` | internal/agent/backup_staging.go:150-172 | in that case the startup that records the new plan opens, and from then on no sequence of startups and plans ever opens again |
| `StagingSupersession.SupersedingCanBeFatal` | internal/infra/agentstagingjournal/journal.go:135-180 | a disk, a plan, one crash outside the windows and one superseding plan for which this happens |
| `StagingReopening.OpensExactly` | internal/agent/backup_staging.go:108-175 | over every history of crashed startups and of valid plans, whether or not any of them could be finished: the next startup opens exactly when no volume that the recorded plan cleans has lost a log under its authority, and every volume that it does not clean is gone or reads as it did when the inventory was taken |
| `StagingReopening.ChangedExactly` | internal/infra/agentvolumejournal/cleanup_linux.go:91-241 | of a volume whose directories were not retiring when the inventory was taken, something else is read exactly when a cleanup has begun on one of them and is not over, down to an empty directory, on both |
| `StagingReopening.ComponentProceeds` | internal/agent/backup_staging_volume_plan.go:43-97 | whatever a startup does to a component, at any point of a cleanup and under any plan, is the next part of one and the same cleanup |
| `StagingJournal.Journal.RecordPlan` | internal/infra/agentstagingjournal/journal.go:135-180 | what recording a plan leaves: the same plan is accepted again, another only if it names the recorded one as superseded and no receipt was accepted; a refusal changes nothing |
| `StagingJournal.Journal.MarkApplied` | internal/infra/agentstagingjournal/journal.go:181-213 | marks the recorded plan applied for exactly its acknowledgement; a refusal changes nothing |
| `StagingJournal.Journal.AcceptReceipt` | internal/infra/agentstagingjournal/journal.go:214-264 | accepts a matching receipt in two durable steps, with a crash between them; a refused receipt changes nothing |
| `StagingJournal.HistoryMarks` | internal/infra/agentstagingjournal/record.go:46-95 | over every history of calls, restarts and interrupted acceptances the record is well formed, and once past its first phase it was acknowledged for exactly its plan, which nothing replaced since |
| `StagingJournal.ReceiptAfterApplication` | internal/infra/agentstagingjournal/record.go:97-128 | a receipt is accepted only for the recorded inventory and plan, and only after that plan's application was acknowledged and not replaced |
| `StagingJournal.PlansDescend` | internal/infra/agentstagingjournal/journal.go:135-180 | over every history, from any point to any later one between which the record is never absent: the inventory is the same, the later plan descends from the earlier one through the plans that each names as superseded, and once a receipt is accepted the whole record stands |
| `StagingJournal.PlansDoNotReturn` | internal/infra/agentstagingjournal/journal.go:135-180 | a superseded plan is never recorded again as long as the record is there |
| `StagingSession.FreshInventoryAdmits` | internal/agent/backup_staging.go:63-107 | a disk is admitted under the inventory just taken from it, whatever the plan |
| `StagingSession.AdmittedInventoried` | internal/agent/backup_staging.go:108-175 | what a valid retained inventory admits is itself within every bound of an inventory |
| `StagingSession.FirstPlan` | internal/agent/backup_staging.go:177-297 | the first application of a plan in a session has the effects and the outcome of the plan's part of a startup |
| `StagingSession.RedeliveredPlan` | internal/agent/backup_staging.go:177-297 | a plan that was applied is applied again in the same session without any effect, and succeeds |
| `StagingSession.RedeliverySettles` | internal/agent/backup_staging.go:200-283 | after one disposition succeeded, the same disposition has nothing left to do |
| `StagingStorage.Storage.Sweep` | internal/infra/backupstage/recovery_cleanup_linux.go:9-101 | a namespace without files goes, its directory first and its reservation last; the operations of the recovery theorems |
| `StagingStorage.Storage.DiscardContents` | internal/infra/backupstage/recovery_cleanup_linux.go:103-175 | files in listing order, then the directory, then the reservation, one synced operation each; the operations of the recovery theorems |
| `StagingStorage.Storage.DiscardDerived` | internal/infra/backupstage/recovery_derived_file_linux.go:14-76 | removes exactly the stored-object files of a resumed stage; the operations of the recovery theorems |
| `StagingStorage.Storage.Reap` | internal/infra/agentvolumejournal/reap_linux.go:19-89 | removes exactly a retiring directory without leaves; the operations of the recovery theorems |
| `StagingStorage.Storage.Retire` | internal/infra/agentvolumejournal/cleanup_linux.go:91-241 | the branches and the operations, in order, that finish a retiring directory; refused without any effect otherwise; the operations of the recovery theorems |
| `StagingStorage.Storage.CleanupComponent` | internal/agent/backup_staging_volume_plan.go:43-97 | the recovery branch that a component's inventory row selects, and its operations; the operations of the recovery theorems |
| `StagingStorage.Storage.CleanupVolume` | internal/agent/backup_staging_volume_plan.go:43-97 | the journal is cleaned before the receiver, which is not touched if the journal's cleanup fails; the operations of the recovery theorems |
| `StagingAgent.BackupStaging.OpenBackupStaging` | internal/agent/backup_staging.go:36-118 | completes an accepted receipt, opens the storage, and yields a state exactly when opening succeeds and the disk fits the retained record or is a valid inventory; the state's inventory is the retained one where there is one |
| `StagingAgent.BackupStaging.ApplyPlan` | internal/agent/backup_staging.go:177-297 | refused plans have no effect; otherwise the plan is durable before any effect, the effects and claims are those of the session specification, for a fresh session those of a startup, and an acknowledgement is returned exactly when everything succeeded and was marked |
| `StagingAgent.BackupStaging.AcceptReceipt` | internal/agent/backup_staging.go:299-329 | a runtime is created only when the receipt is durable and the session was not ready before, so at most once; a refused receipt changes nothing; a ready session without a runtime stays without |
| `StagingAgent.BackupStaging.Startup` | internal/agent/backup_staging.go:36-297 | opening and redelivering the retained plan performs exactly the operations of one pass of the recovery theorems and acknowledges exactly when that pass succeeds |
| `StagingAgent.BackupStaging.ApplyStage` | internal/agent/backup_staging.go:200-283 | one disposition: its claims, effects and outcome as specified; a stage claimed by another plan is refused; refines `StagingSession`, which `StagingAgent.BackupStaging.Startup` ties to the recovery theorems |
| `StagingAgent.BackupStaging.ApplyStages` | internal/agent/backup_staging.go:200-283 | the dispositions in plan order, stopping at the first that fails; refines `StagingSession`, which `StagingAgent.BackupStaging.Startup` ties to the recovery theorems |
| `StagingAgent.BackupStaging.ApplyVolumes` | internal/agent/backup_staging_volume_plan.go:11-41 | the volume dispositions in plan order; a cleaned volume leaves the session's table; refines `StagingSession`, which `StagingAgent.BackupStaging.Startup` ties to the recovery theorems |
| `StagingAgent.BackupStaging.RetireMarker` | internal/agent/backup_postgres_inventory.go:44-50 | removes a present execution marker of a terminal cleanup; an absent one is accepted; refines `StagingSession`, which `StagingAgent.BackupStaging.Startup` ties to the recovery theorems |
| `NativeExchangeTheorems.InFlightImpliesPending` | internal/agent/native_exchange.go:94-176 | over every interleaving with a Controller that answers each message at most once: two unanswered messages never share a key, and until the close the waiter of an unanswered message is the pending entry under its key |
| `NativeExchangeTheorems.ResponseReachesItsRequest` | internal/agent/native_exchange_responses.go:207-246 | a call returns only the response that was sent for its own message, with its identity, kind and execution |
| `NativeExchangeTheorems.TerminalSuccessIsDurable` | internal/agent/native_exchange.go:145-156 | whatever the Controller does, a terminal call succeeds only with a reply that the outbox holds for its report |
| `NativeExchangeTheorems.ChannelsNeverBlock` | internal/agent/native_exchange.go:130-144 | whatever the Controller does, a waiter's channel is written at most once, only while empty and not abandoned, and is empty once the call has returned |
| `NativeExchangeTheorems.LateAnswerIsAcknowledged` | internal/agent/native_exchange_responses.go:227-246 | an honest answer to an open terminal report is acknowledged durably even when its caller gave up; its entry goes, and exactly a caller that still waits is woken |
| `NativeExchangeTheorems.RefusalKeepsTheReport` | internal/agent/native_report_rejection.go:13-33 | a refusal leaves the outbox as it was, with the report still lacking its reply; its entry goes, and exactly a caller that still waits is woken with the error |
| `NativeExchangeTheorems.StrandedKeyIsRefused` | internal/agent/native_exchange.go:117-149 | an entry left behind by a returned call stays, and no call under its key is admitted, for as long as the stream is not closed; when a call leaves its entry so is `NativeExchangeLeftovers.PendingForNothingExactly` |
| `NativeExchangeTheorems.FailedOutboxStrands` | internal/agent/native_exchange.go:145-149 | one cause of such an entry: a single failed write of the outbox, whether or not the report was recorded before it failed |
| `NativeExchangeLeftovers.PendingForNothingExactly` | internal/agent/native_exchange.go:145-164 | for every run with an honest Controller that has not closed, and every pending key: its call has neither a message in flight nor one still to send if and only if it left because the outbox could not take its report, or its message was answered or refused and the entry stayed |
| `NativeExchangeLeftovers.TakenAnswersLeaveNothing` | internal/agent/native_exchange_responses.go:227-246 | where every answer and refusal is taken, as in a session that ends at the first that is not, only a failed outbox leaves such an entry |
| `NativeExchangeLeftovers.UnwrittenAnswerStrands` | internal/agent/native_report_rejection.go:13-33 | the other cause, for every terminal report: the write of its answer fails, before or after it was recorded, or its refusal does not match, and its caller expires |
| `NativeExchangeTheorems.HonestRunsPair` | internal/agent/native_exchange.go:94-176 | the pairing invariant holds after every run with an honest Controller |
| `NativeExchangeRuns.StepKeepsPairing` | internal/agent/native_exchange.go:94-245 | every event keeps the pairing of keys, waiters and messages: registration, expiry, withdrawal, sending, answers, refusals, abandonment and close |
| `NativeExchangeResults.StepKeepsOrder` | internal/agent/native_exchange_responses.go:207-246 | every event, from any Controller, keeps channels in order and every held success backed by the outbox |
| `NativeExchangeTable.Exchange.BindExecutor` | internal/agent/native_exchange.go:67-92 | the executor binds once, to a real generation, and only while open; the step of which `ResponseReachesItsRequest` is proved over runs |
| `NativeExchangeTable.Exchange.Register` | internal/agent/native_exchange.go:94-129 | a call is admitted exactly when valid, open, below 256 entries and with a free key, and its new state; the step of which `InFlightImpliesPending` is proved over runs |
| `NativeExchangeTable.Exchange.PrepareTerminal` | internal/agent/native_exchange.go:145-149 | the outbox takes the report, or reports a failure, before or after the report was recorded, or yields the reply it already holds; the step of which `TerminalSuccessIsDurable` is proved over runs |
| `NativeExchangeTable.Exchange.SettleRetained` | internal/agent/native_exchange.go:150-156 | the key's entry is removed without regard to whose it is, as the code does; the step of which `InFlightImpliesPending` is proved over runs |
| `NativeExchangeTable.Exchange.WithdrawExpired` | internal/agent/native_exchange.go:158-164 | an expired call removes its key's entry only if it is still its own; the step of which `InFlightImpliesPending` is proved over runs |
| `NativeExchangeTable.Exchange.Abandon` | internal/agent/native_exchange.go:130-144 | the deferred cleanup: abandoned, and the channel drained; the step of which `ChannelsNeverBlock` is proved over runs |
| `NativeExchangeTable.Exchange.Accept` | internal/agent/native_exchange_responses.go:207-246 | a response is matched, acknowledged in the outbox for certain, and only then its entry goes and its caller wakes; never blocking; the step of which `ResponseReachesItsRequest` is proved over runs |
| `NativeExchangeTable.Exchange.RejectReport` | internal/agent/native_report_rejection.go:13-33 | a refused report: its entry goes and its caller wakes, the outbox untouched; never blocking; the step of which `RefusalKeepsTheReport` is proved over runs |
| `NativeExchangeTable.Exchange.Close` | internal/agent/native_exchange.go:217-245 | every pending waiter is abandoned, the table emptied and unsent messages dropped; the step of which `InFlightImpliesPending` is proved over runs |
| `ExecutionTheorems.CapacityHolds` | internal/agent/execution_workers.go:222-274 | over every run, working executions plus queued results never exceed the accepted slots, nor these the limit, so whoever holds a result finds room in the channel |
| `ExecutionTheorems.RedeliveryChangesNothing` | internal/agent/execution_workers.go:235-240 | while an execution occupies capacity and the session is open, delivering the same work again changes nothing and no other execution has that work item |
| `ExecutionTheorems.LeasesCloseOnce` | internal/agent/backup_workers.go:40-71 | every ownership lease begun is closed zero times while its operation is launched or running and exactly once afterwards, failed submissions included |
| `ExecutionTheorems.JoinedLeavesNothing` | internal/agent/execution_workers.go:585-598 | once every execution is joined every lease is closed once and no transfer is registered |
| `ExecutionTheorems.SlotFreedOnlyByItsResult` | internal/agent/execution_workers.go:276-574 | an event frees a slot if and only if it consumes a queued result of that slot's own execution that frees it: no cancellation, close, foreign result or failed retirement does |
| `ExecutionCancellation.CancellationsAreConfined` | internal/agent/execution_cancellation.go:11-58 | any run, and the same run without all its cancellations, end with the same executions, slots, results, leases and transfers; they differ at most in the requests of named forward attempts and, while such an attempt has its slot, in its own context, which only the run with the cancellations may have cancelled |
| `ExecutionTheorems.MatchingCancelTakesEffect` | internal/agent/execution_cancellation.go:11-58 | after a cancellation of a working execution's own forward attempt, whenever that execution runs, its context is cancelled, whether the context existed before or not |
| `ExecutionRuns.RunsAreSound` | internal/agent/execution_workers.go:222-274 | the invariant of slots, leases, contexts and transfers holds after every run |
| `ExecutionResults.Settle` | internal/agent/execution_workers.go:276-574 | matching the operations in the code's order decides exactly: not another operation's result, and either failed or complete for its own kind with its journal retired |
| `ExecutionResults.MatchSaved` | internal/agent/execution_workers.go:289-458 | the same for the eleven operations whose result is a saved terminal attempt |
| `ExecutionWorkers.Workers.Submit` | internal/agent/backup_workers.go:14-137 | every exit of a submission and what it leaves: refused, redelivered, refused with its lease closed and transfers released, or accepted; the step of which `ExecutionTheorems.LeasesCloseOnce` is proved over runs |
| `ExecutionWorkers.Workers.ExecutionContext` | internal/agent/execution_cancellation.go:11-28 | the slot's own context, created once and cancelled at once if that was requested; a cancelled one where the slot is gone, another attempt's, or the session closed; the step of which `ExecutionTheorems.MatchingCancelTakesEffect` is proved over runs |
| `ExecutionWorkers.Workers.Send` | internal/agent/execution_workers.go:267-273 | in a sound session the channel has room for a held result; the step of which `ExecutionTheorems.CapacityHolds` is proved over runs |
| `ExecutionWorkers.Workers.Consume` | internal/agent/execution_workers.go:276-574 | the next result is taken, and a slot goes exactly when it frees it; the step of which `ExecutionTheorems.SlotFreedOnlyByItsResult` is proved over runs |
| `ExecutionWorkers.Workers.Capacity` | internal/agent/execution_workers.go:576-583 | free slots are never negative, and none once closed; the step of which `ExecutionTheorems.CapacityHolds` is proved over runs |
| `Catalogs.OrderIndependent` | component-sdk/catalog/catalog.go:201-367 | registrations in any order, each with its images and recipes in any order, are accepted alike and make the same catalog |
| `CatalogBuilder.NewRegistered` | component-sdk/catalog/catalog.go:201-367 | the loops, checks and sorts yield exactly the specified catalog, or none exactly where it says so |
| `CatalogBuilder.FindDefinition` | component-sdk/catalog/catalog.go:392-400 | on every built catalog the halving search finds what a linear search finds |
| `CatalogBuilder.ResolveRecipe` | component-sdk/catalog/catalog.go:417-519 | the same for the recipes of each kind |
| `Ordering.Find` | component-sdk/catalog/catalog.go:392-400 | halving over strictly ascending keys finds what a linear search finds, also nothing |
| `Ordering.SortPermutes` | component-sdk/catalog/catalog.go:288-352 | two arrangements of the same elements with distinct keys sort to the same strictly ascending list |
| `Ordering.NeighboursDecide` | component-sdk/catalog/catalog.go:297-304 | in a sorted list comparing neighbours finds every repeated key |
| `CatalogDigest.BuiltBytesInjective` | component-sdk/catalog/catalog_digest.go:10-126 | two built catalogs with equal bytes are equal, when the counts fit 32 bits and the hash separates their definitions, although three recipe kinds write only an image's repository |
| `CatalogDigest.CatalogBytesInjective` | component-sdk/catalog/catalog_digest.go:10-126 | the same for every canonical catalog |
| `CatalogDigest.BuiltCanonical` | component-sdk/catalog/catalog.go:216-286 | building leaves a canonical catalog: images unique by implementation and repository, every recipe's image registered, every list strictly ascending |
| `CatalogDigest.RepositoryDecides` | component-sdk/catalog/catalog.go:216-232 | among registered images implementation and repository decide the image |
| `CatalogDigest.UniquenessIsNeeded` | component-sdk/catalog/catalog_digest.go:36-52 | with two images of one repository, which building refuses, two different catalogs have the same bytes |
| `CatalogWriter.WriteCatalog` | component-sdk/catalog/catalog_digest.go:10-103 | the nested loops append exactly the catalog's encoding |
| `CatalogWriter.AppendImage` | component-sdk/catalog/catalog_digest.go:105-120 | an image's encoding is appended behind what was there |
| `Definitions.DefinitionOrderIndependent` | component-sdk/component/definition.go:110-137 | a definition is accepted, and canonicalised, alike whatever the order of its parts |
| `Definitions.BuiltValidates` | component-sdk/component/definition.go:139-155 | a built definition is rebuilt as itself, so that its validation succeeds |
| `Definitions.DefinitionBytesInjective` | component-sdk/component/definition.go:274-312 | definitions whose counts fit have distinct bytes |
| `Definitions.FindAction` | component-sdk/component/definition.go:181-189 | the search over sorted actions finds what a linear search finds |
| `Definitions.WriteDefinition` | component-sdk/component/definition.go:274-301 | the buffer grows to exactly the definition's encoding |
| `Wire.DecodeEncode` | component-sdk/component/environment_plan.go:404-436 | decoding by the schema gives the value and the untouched rest, whatever follows the encoding |
| `Wire.EncodePrefixFree` | component-sdk/component/environment_plan.go:404-436 | no encoding continues into the encoding of another value of its schema |
| `Wire.UvarintReads` | component-sdk/component/environment_plan.go:422-429 | a variable-length integer is read back, whatever follows |
| `EnvironmentPlan.ReadPlanBytes` | component-sdk/component/environment_plan.go:323-436 | a decoder gives back the normalised plan from the bytes of every plan whose counts fit |
| `EnvironmentPlan.SameBytesSamePlan` | component-sdk/component/environment_plan.go:323-436 | two plans have the same bytes if and only if they normalise to the same plan |
| `EnvironmentPlan.PlanOrderIndependent` | component-sdk/component/environment_plan.go:323-345 | with distinct (ID, name) and distinct paths no reordering of services or files changes the bytes |
| `EnvironmentPlan.EqualKeysKeepTheirOrder` | component-sdk/component/environment_plan.go:323-345 | two different services with one key make different bytes in the two orders |
| `EnvironmentPlan.OrderDecidesNothing` | component-sdk/component/environment_plan.go:323-345 | for every plan: all its reorderings have its bytes if and only if services with equal ID and name are equal and files with equal path are equal |
| `Ordering.SortDecided` | component-sdk/component/environment_plan.go:323-345 | a stable sort gives one result for every reordering of a list if and only if elements with equal keys are equal |
| `Ordering.SortMatching` | component-sdk/component/environment_plan.go:323-345 | the sort is stable: the elements of each key keep their order |
| `EnvironmentPlanWriter.WritePlan` | component-sdk/component/environment_plan.go:323-387 | sorting and appending writes exactly the plan's encoding |
| `EnvironmentPlanWriter.AppendNumber` | component-sdk/component/environment_plan.go:422-429 | seven bits at a time appends exactly the variable-length integer |
| `UpdateClient.ReceiptIsNotReplaced` | scripts/controller_update.py:153-163 | over every history of crashes, lost answers, failed and unconfirmed saves and restarts an unresolved receipt keeps its release and key, and its Task once it names one |
| `UpdateClient.RequestsCarryTheReceipt` | scripts/controller_update.py:220-224 | every request carries exactly the release and key of the receipt on disk |
| `UpdateClient.RequestsOfOpenReceipts` | scripts/controller_update.py:206-224 | when a request is sent the receipt is unresolved, except exactly when the sending process has replaced it by a refusal and believes that the save failed |
| `UpdateClient.OneTaskPerDeployment` | scripts/controller_update.py:192-252 | with a key-idempotent Controller a key gets at most one Task, and a receipt names only its own key's |
| `UpdateClient.SuccessIsTheTasks` | scripts/controller_update.py:241-252 | success is reported, or recorded, only when the receipt's Task succeeded |
| `UpdateClient.TerminalReceiptsAreSettled` | scripts/controller_update.py:153-163 | in a history without late requests in which every refusal is saved for certain, a terminal receipt leaves nothing open |
| `UpdateClient.EndedReceiptsAreSettled` | scripts/controller_update.py:241-252 | in every history a terminal receipt that does not say "rejected" names its key's finished Task |
| `UpdateClient.UnsettledExactly` | scripts/controller_update.py:220-240 | in every history the receipt on disk is unsettled if and only if it says "rejected" and the Controller, at a request or a late request, created the Task of its release and key after it had answered a request for them with a refusal |
| `UpdateClient.FailedRefusalMisleads` | scripts/controller_update.py:206-240 | a history with a failed save in which a terminal receipt names an active Task |
| `UpdateClient.UnconfirmedRefusalMisleads` | scripts/controller_update.py:140-151 | a history in which a request is sent under a receipt that says "rejected", because it was replaced and the sync after it failed; the request is accepted, the process crashes, and the next run starts another release beside the active Task |
| `UpdateClient.LateRequestMisleads` | scripts/controller_update.py:220-240 | a history without any failed save in which a delayed request is accepted after a refusal was recorded |
| `UpdateClient.Client.Begin` | scripts/controller_update.py:153-194 | begins, joins, or turns away another release, as specified, with the save certain, failed before the replacement, or failed after it; the step of the histories above |
| `UpdateClient.Client.Round` | scripts/controller_update.py:220-252 | one request or one look at a Task, the save of what it brought in its three outcomes, and what the process goes on with; the step of the histories above |
| `UpdateClient.Client.Follow` | scripts/controller_update.py:206-218 | rounds until one reports; unresolved when the deadline comes first; the histories above are made of these rounds |
| `ReleaseStore.StoreStaysSound` | scripts/controller_release.py:164-260 | over every sequence of disks each of which a staging may leave of the one before: every published directory's manifest hashes to its name and its binary matches, and the selector, if present, names one; `StageAll` runs such sequences |
| `ReleaseStore.PublishedNeverChanges` | scripts/controller_release.py:196-238 | what is published stays as it is through every such sequence, even in a damaged store; `StageAll` runs such sequences |
| `ReleaseStore.StageAll` | scripts/controller_release.py:164-260 | runs any list of stagings, each under its own faults, each possibly crashing after any of its changes, and each opened on the disk that the last one left: all these disks are sound if the first is, and no published directory ever changes or goes |
| `ReleaseStore.StageOnce` | scripts/controller_release.py:164-185 | one staging with a crash after any of its changes: the disk left is one that the release's own publication and selection account for; without faults and crash it is the specified new disk |
| `ReleaseStore.RestagingChangesNothing` | scripts/controller_release.py:196-213 | staging an accepted release again is accepted and leaves the disk as it is, whatever the second reading of the binary would give |
| `ReleaseStore.Store.Stage` | scripts/controller_release.py:164-185 | on every disk and under every pattern of faults, all disks on the way keep what is published and have the old selector or one that names the new complete release; without faults it succeeds exactly when the digests agree, what is there is intact and the names are free, and the whole new disk is known |
| `ReleaseStore.Store.Publish` | scripts/controller_release.py:196-238 | success means that the release is there, complete and matching; without faults the releases afterwards are exactly the old ones, or the old ones and this one |
| `ReleaseStore.Store.Select` | scripts/controller_release.py:249-260 | the selector is the old one or the complete new one at every moment, and no draft is left without faults |
| `ReleaseStore.Store.Copy` | scripts/controller_release.py:118-130 | success means that the file holds exactly what was read and that its digest is the expected one; only that file may differ on the way |
| `ReleaseStore.Store.Write` | scripts/controller_release.py:240-247 | a new file with exactly the bytes, or a failure that touches only that file |
| `ReleaseStore.Store.Withdraw` | scripts/controller_release.py:229-237 | removing an abandoned preparation touches nothing published and without faults removes exactly it |
| `PacedCopy.AnyWindow` | scripts/image_transfer.py:37-56 | in every window of time the chunks begun have at most the rate times its length and one 64 KiB chunk of bytes |
| `PacedCopy.CopyPaced` | scripts/image_transfer.py:37-56 | for every pattern of short writes and delays: all bytes of the source and no others are taken, or the receiver stopped and a proper part was; each chunk begins at its own write, when exactly the chunks before were taken, and no sooner than the rate allows after the one before |
| `PacedCopy.WriteChunk` | scripts/image_transfer.py:46-51 | short writes deliver the chunk exactly, or the last write took nothing |
| `PacedCopy.WindowIsTight` | scripts/image_transfer.py:37-56 | chunks at exactly the permitted moments reach the bound |
| `TypeScriptComments.CommentContentsDoNotMatter` | internal/architecturecheck/ts_rules.go:80-161 | replacing the inside of any skipped block comment, terminated or not, by bytes without the end of a comment leaves all token texts unchanged |
| `TypeScriptComments.CommentsAreInterchangeable` | internal/architecturecheck/ts_rules.go:80-206 | more generally, a skipped comment may be replaced by any other that ends at the same place |
| `TypeScriptRules.CommentsAreNotChecked` | internal/architecturecheck/ts_rules.go:16-71 | such a replacement neither hides a forbidden assertion nor makes one |
| `TypeScriptRules.BrokenMeans` | internal/architecturecheck/ts_rules.go:24-67 | exactly the tokens at which a rule is broken are found |
| `TypeScriptRules.CheckFile` | internal/architecturecheck/ts_rules.go:16-71 | the findings of a file are the broken rules, in order, at the places of their tokens |
| `TypeScriptTokens.TokensAreTheText` | internal/architecturecheck/ts_rules.go:80-206 | for every file: each token is what was read where its mark is, in order and without beginning within another, or a semicolon that sets off a substitution; a token that was read stands in the file at its mark if and only if the byte there is below 128 or the bytes there are C3 83; every comment skipped opens as one, and nothing is left |
| `TypeScriptTokens.ArrowIsNoText` | internal/architecturecheck/ts_rules.go:126-127 | the arrow in JSX text becomes three tokens of two bytes each, none of which stands in the file |
| `TypeScriptTokens.ItselfStands` | internal/architecturecheck/ts_rules.go:126-127 | the bytes C3 83 become two tokens, the first of which stands in the file and the second does not |
| `TypeScriptTokens.Lexer.LexCode` | internal/architecturecheck/ts_rules.go:80-129 | terminates, keeps line and column those of the position, and computes the specified run; a single byte becomes the text of the code point with its number |
| `TypeScriptTokens.Lexer.SkipTemplate` | internal/architecturecheck/ts_rules.go:181-206 | the same for template text, calling code mode for substitutions |
| `TypeScriptTokens.Lexer.Advance` | internal/architecturecheck/ts_rules.go:131-142 | moves by one byte unless at the end, keeping line and column those of the position |
| `TypeScriptTokens.Lexer.SkipBlockComment` | internal/architecturecheck/ts_rules.go:150-161 | ends behind the first end of a comment, or at the end of the text |
| `TypeScriptTokens.Lexer.SkipQuoted` | internal/architecturecheck/ts_rules.go:163-179 | ends behind the first unescaped closing quote |
| `TypeScriptTokens.Lexer.SkipRegex` | internal/architecturecheck/ts_rules.go:208-233 | ends behind the first unescaped slash outside a class and the flags after it |
| `TypeScriptTokens.ColumnFromLineStart` | internal/architecturecheck/ts_rules.go:131-142 | a column counts the bytes since the last newline or the start |
| `TypeScriptTokens.LexTypeScript` | internal/architecturecheck/ts_rules.go:73-78 | every token carries the line and column of the offset at which it begins |
| `LocalInterfaces.ResolveLocalInterfaces` | internal/architecturecheck/go_rules.go:375-390 | terminates with the least set that contains what is known and every type that is an interface or names one, for every order of visits |
| `LocalInterfaces.LeastIsReached` | internal/architecturecheck/go_rules.go:392-406 | that set is exactly what chains of names lead to an interface |
| `LocalInterfaces.CyclesAreNone` | internal/architecturecheck/go_rules.go:375-390 | names that only name each other around a cycle are no interfaces |
| `Diagnostics.ReportIsDeterministic` | internal/architecturecheck/check.go:87-119 | the sorted report is the same for every order of findings and every order of the table of excuses |
| `Diagnostics.SortedByContents` | internal/architecturecheck/check.go:391-411 | sorted findings depend only on the multiset of findings |
| `Diagnostics.RankPrecedes` | internal/architecturecheck/check.go:391-411 | the six comparisons order findings totally: no two different findings tie |
| `Diagnostics.CleanReport` | internal/architecturecheck/check.go:87-119 | nothing is reported exactly when every finding is excused and every excuse is needed |
| `Diagnostics.ApplyLegacyFindings` | internal/architecturecheck/check.go:87-119 | the report is the findings without an excuse, in order, and then each unused excuse once |
| `HostProjector.NewHostResolutionProjection` | component-sdk/dnsresolver/baseline.go:55-99 | succeeds exactly when revision and digest are set, every host is valid and every name has one address; the result has exactly the input's relation in canonical form and is valid |
| `HostProjection.OnlyTheRelationCounts` | component-sdk/dnsresolver/baseline.go:55-99 | reordering, repeating or splitting hosts gives the same projection and, as long as every host is valid, does not decide whether there is one |
| `HostProjection.CanonicalUnique` | component-sdk/dnsresolver/baseline.go:55-99 | a relation has one canonical list |
| `HostProjection.ProjectingAgain` | component-sdk/dnsresolver/baseline.go:55-99 | projecting a projection's hosts gives them back |
| `HostProjector.Validate` | component-sdk/dnsresolver/baseline.go:101-126 | comparing neighbours accepts exactly the valid, single-valued projections in strictly ascending form |
| `HostProjector.Collect` | component-sdk/dnsresolver/baseline.go:60-80 | the two tables are built exactly when every host is valid and every name has one address, and then group exactly the stated relation |
| `Capsule.AcceptsExactlyEncodings` | cmd/postgres16-gate/main.c:123-174 | exactly the encodings of well-formed capsules are accepted, and different accepted files give different capsules |
| `Capsule.ParseEncode` | cmd/postgres16-gate/main.c:123-174 | every well-formed capsule is read back from its encoding |
| `Capsule.EncodeParse` | cmd/postgres16-gate/main.c:123-174 | whatever is accepted is well formed, and encoding it gives the file back |
| `CapsuleReader.Gate.ReadCapsule` | cmd/postgres16-gate/main.c:123-174 | inside its buffers, for every division of the reads: accepts exactly a sealed file of permitted size that reads completely and holds a capsule, and then holds its header and arguments |
| `CapsuleReader.Gate.ReadArguments` | cmd/postgres16-gate/main.c:155-171 | the arguments are in the storage one behind the other, each where its argv entry says and closed by NUL, exactly when they parse |
| `CapsuleReader.Gate.Load` | cmd/postgres16-gate/main.c:131-138 | interrupted and short reads bring exactly the file, or the reading fails |
| `CapsuleReader.ArgumentsAreDisjoint` | cmd/postgres16-gate/main.c:157-171 | no two arguments share storage |
| `CapsuleReader.HeaderRead` | cmd/postgres16-gate/main.c:139-156 | the fixed offsets read exactly the fields of the layout, and the conditions on them |

## Left out

- StagingAgent.BackupStaging.ApplyPlan: free space, growth admission and I/O errors inside a running process are not modelled, only crashes between durable operations; the database guards' verdict is a parameter.
- StagingSupersession.RecoveryAcrossPlans: each startup is given one plan; a second plan in the same session, whose claims it meets, is only modelled by StagingAgent.BackupStaging.ApplyPlan.
- StagingAgent.BackupStaging.OpenBackupStaging: locks, ownership and file evidence are taken for granted; a file is its size and digest.
- StagingStorage.Storage.DiscardContents: removing the step and attempt directories above a point is not modelled; they hold nothing that is read again.
- StagingStorage.Storage.Retire: a marker is absent, partial or whole; its bytes and checksum are not modelled.
- NativeExchangeTable.Exchange.Accept: which of the message variants a response is, and whether it matches its report, is a parameter; the exchange has one generic kind and the terminal ones.
- NativeExchangeLeftovers.PendingForNothingExactly: that the session ends after an answer that is not taken is not modelled; the close may come at any time.
- NativeExchangeTable.Exchange.Close: clearing secrets and the backup transfer registries are not modelled.
- ExecutionResults.MatchSaved: eleven operations with the same shape of result are one kind with a rank in the order of the code.
- ExecutionCancellation.CancellationsAreConfined: what an operation makes of a cancelled context is its result, which is a parameter of the run.
- ExecutionWorkers.Workers.Submit: decoding deliveries is not modelled; whether the lease, the transfers and the local capacity are granted are parameters.
- CatalogBuilder.NewRegistered: the validators of images and recipe fields are a parameter, and errors are one.
- CatalogWriter.WriteCatalog: computes the bytes that are hashed, not the digest.
- Definitions.WriteDefinition: computes the bytes that are hashed, not the digest.
- UpdateClient.Client.Follow: the wait between rounds is not modelled and the deadline is the end of a list of rounds.
- UpdateClient.Client.Begin: whether a release is already installed and healthy is a parameter of the history; malformed receipts and answers end a history as unresolved.
- ReleaseStore.Store.Stage: reading and validating the build metadata is a parameter, and type, owner, links and permissions of a file are one condition.
- ReleaseStore.Store.Write: loss of unsynced directory entries at power failure is not modelled.
- PacedCopy.CopyPaced: times are real numbers instead of floating point, and flushing is not modelled.
- HostProjection.ProjectingAgain: addresses other than IPv4 are one address that is never valid, so their textual forms are not modelled.
- CapsuleReader.Gate.ReadCapsule: the header is one record instead of a field each, argv entries are offsets into the storage, and reading stops when the list of answers ends, so endless interruption is not modelled.
- Diagnostics.ApplyLegacyFindings: how findings are made, other than by the TypeScript rules, is not modelled.
- LocalInterfaces.ResolveLocalInterfaces: type expressions are modelled as far as the resolution looks at them.
- The dispatch loop of the Agent's session, reconnects, and the wiring of the individual executors and exchanges.
- gRPC, protobuf, Docker, SSH, HTTP, etcd and file descriptors; messages are values and storage is maps.
- Field validators of plans, inventories and receipts, which would only add easy members.
- The seccomp filter, process identity, privilege dropping and the clearing of secrets.
- The remaining rules of the architecture checker, the console, the command line and the deployment scripts.
