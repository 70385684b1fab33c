# Verified model of the agent-core kernel journal

The kernel keeps one append-only event log and a set of tables beside it: an outbox of
dispatches, two registries of content-addressed snapshots, approvals and proposals, control
decisions on managed components, and a ledger of coding submissions. Changes are SQLite
transactions, except that an operation snapshot is created by separately committed inserts. This
project models those steps and proves what holds in every state that any sequence of them can
reach.

Each protocol is written twice. A module of functions (`Outbox`, `OperationRegistry`,
`Components`, `Approvals`, `CodingSubmissions`) gives every transaction as a step from one state
to the next; the theorems are about runs of these steps. A class (`OutboxStore.Store`,
`OperationStore.Store`, `ComponentStore.Store`, `CodingStore.Store`, `HashChain.Chain`) updates
the tables in place, with the loops and roll-backs of the source, and each of its methods is
proved to take exactly the step of the functions. The two registry classes also carry the proved
invariant as `Valid()` and every public transaction keeps it, for service deployments given that
the manifest passed in is the one that the manifest store returns.

| module | subject |
|---|---|
| `Journal`, `Replaying` | the shared event log; replaying a registry from its events |
| `Outbox`, `OutboxAgreement`, `OutboxAttempts`, `OutboxRecovery`, `OutboxCallers`, `OutboxEffects`, `OutboxStore`, `Retry` | at-most-once dispatch, its crash recovery, what it relies on its callers for, what each transaction writes, and its backoff |
| `Approvals`, `ApprovalRules` | trusted approvals and proposals, settlement and replay; who may decide until when |
| `OperationRegistry`, `OperationHistory`, `OperationDecisions`, `OperationUpgrades`, `OperationEffects`, `OperationSample`, `OperationStore` | the operation registry, its five activation paths and what each installs |
| `Components`, `ComponentHistory`, `ComponentSafety`, `ComponentOverlap`, `ComponentEffects`, `ComponentSample`, `ComponentStore`, `Versions` | deployment, disable and rollback of managed components |
| `CodingSubmissions`, `CodingAnswers`, `CodingStore` | ordered coding submission attempts and what callers are told |
| `HashChain`, `Observe`, `Conversation` | tamper evidence, cursor pagination, the conversation join |
| `Encoding`, `Decimals` | length-prefixed authentication messages and digests |

## Conventions

- A transaction that bails leaves the state unchanged. The clock is an integer passed in. Error
  codes are constructors of `Journal.Error`; a constraint violation is an error too.
- Payloads keep the fields that some reader looks at. Event ids, timestamps and free-text fields
  are dropped.
- Digests and canonical serialization are function parameters. Nothing is assumed of them except
  where a lemma says so: `Injective` for snapshot digests, absence of a collision between the
  very messages compared for the hash chain and the hook digests, and the 64-digit hexadecimal
  format of a hash.
- Answers of other subsystems are parameters: `authentic` is the verdict of the acceptance
  receipt and origin checks, `grant` the outcome of inserting an operation grant, `manifestOf`
  the content-addressed manifest store, `outbox` and `coding` which invocation ids were minted for
  dispatches and for coding submissions. The answer of an ordered query with ties is a parameter
  that satisfies the query.
- Runs interleave the steps of one protocol in any order with any arguments; `Enabled` states what
  callers guarantee. What other protocols do in between is part of the runs. In the outbox anybody
  may write receipts about invocations that are no dispatches, as tools and coding submissions do.
  In each registry the other one may settle approvals, proposals may be decided directly, and any
  event may be appended that does not move the registry itself.
- A run row is inserted before the events that name it and its principal never changes, so an
  observed event carries its principal.
- Operations and hooks of a snapshot are maps, since their names are primary keys and the
  digest is taken over the sorted list.

## Where the code and its documentation differ

- A deployment intent is documented as idempotent to record. Recording it changes the log whenever
  it is recordable, repeats included (`RecordIsNoOpExactly`, run `RepeatedRecordWitness`).
- Recovery is documented to reconcile projection drift. It does so exactly for stale rows whose
  terminal facts are repairable (`RecoveryClearsDriftExactly`, run `DriftSurvivesRecovery`).
- The backoff truncates its exponent to 32 bits, so the capped exponential is exact up to 2^32
  attempts and beyond that exactly under a stated condition (`BackoffExactBeyondTwo32`, witness
  `BackoffWrapWitness`).
- Settling a dispatch as succeeded and marking it retryable or dead keep table and log in agreement
  only under conditions that the code does not check. The `...KeepsExactly` lemmas give them as
  equivalences; `DriftSurvivesRecovery`, `DeadAfterSuccess` and `RetryAfterSuccess` are runs
  without them.
- Starting a dispatch under a run or session that is not its row's keeps the agreement, and a
  recovery after the next retry breaks it (`StartThenRetryRecoversExactly`, run
  `ForeignStartWitness`). Recovery itself keeps the agreement exactly when every dispatch it
  resolves has one key (`RecoveryKeepsAgreementExactly`).
- An operation snapshot whose creation is cut short is reused and activated as it is, although its
  id is the digest of the whole (`EnableAfterInterruption`, `RunAddressedExactly`, run
  `LostOperationsWitness`).
- The authoritative hash-chain verifier reads a payload that does not parse as an empty object, so
  it accepts some journals that the other one refuses (`VerifiersAgreeExactly`, `GarbageWitness`).
- A second deployment of a component is meant to be refused while one is in flight
  (src/journal/trusted_service_activation.rs:84-102). The check counts proposals in status
  Approved, which no trusted step sets and which only the uncalled function at
  src/journal/capability_proposals.rs:214-258 could set, so in such runs only pending control
  decisions refuse (`InFlightRefusedExactly`, `OnlyControlsRefuse`, run `OverlapWitness`).
  Deployments exclude each other exactly when no intent is recorded while one of its component is
  in flight (`RunSoloExactly`). Overlapping ones still take effect in strictly rising versions
  (`LaterDeploymentIsNewer`).
- The store functions let a proposal be decided directly while its approval is pending, which ends
  the lockstep of the two for good (`HistoryLockstepExactly`, run `DirectRejectionWitness`). The
  decision route does not: an approval is only inserted together with a receipt link
  (src/journal/capability_proposal_receipt.rs:86-144), and the route sends every linked proposal
  down the trusted path (src/server/capability_routes.rs:215-231). Behind that route the lockstep
  holds in every state (`RoutedLockstep` and the two `RoutedRunLockstep`).
- A journal that the appender wrote is accepted exactly when every payload survives being parsed
  and serialized again. The parser is used without exact reading of floating-point numbers
  (Cargo.toml:26), so nothing of the kind is assumed (`WrittenIsAcceptedExactly`).

## Model

| member | source | states |
|---|---|---|
| OutboxAgreement.TableAgreesWithLog | src/journal/outbox_queue.rs:10-498 | in every state of every run, receipts of tools and coding submissions included, each dispatch has at most one terminal fact, its row is succeeded, failed or unknown exactly when the matching fact is in the log, and the drift set is empty |
| OutboxAgreement.AgreementReadsLog | src/journal/queue_health.rs:97-135 | whenever table and log agree, the row of a dispatch is succeeded, failed or unknown if and only if the log holds the matching receipt or unknown event |
| OutboxAgreement.QueueKeeps | src/journal/outbox_queue.rs:10-64 | queueing keeps the agreement, also when the invocation is already queued |
| OutboxAgreement.LeaseKeeps | src/journal/outbox.rs:10-105 | leasing a ready row keeps the agreement |
| OutboxAgreement.StartKeeps | src/journal/outbox_queue.rs:83-119 | a start under the row's own run and session keeps the agreement, the attempt count and one key per invocation |
| OutboxCallers.StartThenRetryRecoversExactly | src/journal/outbox_queue.rs:83-119 | after a start, a retryable failure and a lease the table agrees with the log, and recovery keeps that if and only if the start was under the row's own run and session |
| OutboxCallers.RecoveryKeepsAgreementExactly | src/journal/unknown.rs:23-210 | from any table and log in agreement, recovery with both its phases keeps the agreement if and only if every dispatch it resolves has a row and was started under one run and session |
| OutboxCallers.ForeignStartWitness | src/journal/unknown.rs:23-210 | queue, a start under another run, retry, lease: in agreement before recovery and not after it |
| OutboxCallers.SampleIsRun | src/journal/outbox.rs:10-105 | the states of a dispatch that is queued, leased and delivered form a run |
| OutboxCallers.DeadAfterSuccess | src/journal/outbox_queue.rs:458-498 | marking that delivered dispatch dead breaks the agreement and drifts |
| OutboxCallers.RetryAfterSuccess | src/journal/outbox_queue.rs:392-457 | marking it for retry drifts and makes the delivered dispatch next to be handed out again |
| OutboxAgreement.SucceedKeepsExactly | src/journal/outbox_queue.rs:121-195 | settling as succeeded keeps the agreement if and only if an in-flight row gets a receipt that says succeeded |
| OutboxAgreement.FailKeeps | src/journal/outbox_queue.rs:286-345 | settling as failed keeps the agreement |
| OutboxAgreement.MarkUnknownKeeps | src/journal/outbox_queue.rs:347-390 | settling as unknown keeps the agreement |
| OutboxAgreement.MarkDeadKeepsExactly | src/journal/outbox_queue.rs:458-498 | marking dead, which has no status guard, keeps the agreement if and only if the row is not already settled |
| OutboxAgreement.MarkRetryableKeepsExactly | src/journal/outbox_queue.rs:392-457 | the same equivalence for marking retryable |
| OutboxAgreement.RecoverPrefixKeeps | src/journal/unknown.rs:75-146 | recovery cut off by a crash after any number of its transactions keeps the agreement |
| OutboxAgreement.NoStaleInRun | src/journal/unknown.rs:155-210 | in a reachable state no in-flight row has a terminal fact, so the stale repair finds nothing |
| OutboxAttempts.AttemptsAreBounded | src/journal/outbox.rs:18-94 | under one policy the attempt count of every row equals its dispatch-started events and is at most max(1, limit), and all hand-outs together are at most rows times that cap |
| OutboxAttempts.RunWithin | src/journal/outbox_queue.rs:392-457 | in every state of a run under one policy a waiting row was never attempted and a row waiting for a retry has attempts left |
| OutboxRecovery.RecoverEffect | src/journal/unknown.rs:75-146 | from any starting tables and log, recovery changes each row exactly as its own facts say: to unknown if it dangles, to the repair target if it is stale, else not at all |
| OutboxRecovery.NothingDangles | src/journal/unknown.rs:23-74 | from any start, after recovery no dispatch-started invocation lacks a terminal fact |
| OutboxRecovery.NeverRedispatches | src/journal/unknown.rs:75-146 | from any start, recovery never sends a row back to be dispatched and writes only unknown events |
| OutboxRecovery.RecoveryIsIdempotent | src/journal/unknown.rs:75-146 | a second recovery at the same instant changes nothing and returns 0 |
| OutboxRecovery.RepairTargetOfLatest | src/journal/unknown.rs:216-240 | the repair target is decided by the latest terminal fact alone |
| OutboxRecovery.RepairedDrifts | src/journal/unknown.rs:155-240 | a repaired row stops counting as drift if and only if its facts are repairable |
| OutboxRecovery.DriftAfterRecovery | src/journal/queue_health.rs:97-135 | the drift set after recovery is the one before it less the stale rows with repairable facts |
| OutboxRecovery.RecoveryClearsDriftExactly | src/journal/queue_health.rs:97-135 | recovery leaves no drift if and only if every drifting row is stale and repairable |
| OutboxCallers.DriftSurvivesRecovery | src/journal/queue_health.rs:97-135 | settling the leased dispatch as succeeded with a failed receipt drifts, and still drifts after recovery |
| OutboxEffects.RecoveredRuns | src/journal/unknown.rs:64-115 | from any start, recovery makes a run unknown if and only if the log starts a dispatch of that run and has no terminal fact about it; every other run keeps its status |
| OutboxEffects.RecoveredLog | src/journal/unknown.rs:75-96 | from any start, recovery appends exactly one unknown event for each invocation, run and session of an open dispatch, and nothing else |
| OutboxEffects.RecoveredRows | src/journal/unknown.rs:97-146 | from any start, the row of an open dispatch turns unknown, an abandoned row gets the status of its last terminal fact, every other row stays as it was |
| OutboxEffects.RecoveredCount | src/journal/unknown.rs:75-146 | the returned count is the number of events written plus the number of abandoned rows with a terminal fact |
| OutboxEffects.DriftExactly | src/journal/queue_health.rs:97-135 | a row drifts if and only if the log has a terminal fact about it and none that supports its status |
| OutboxEffects.QueueEffect | src/journal/outbox_queue.rs:10-64 | a new row holds what was queued, never attempted, and is ready from then on; a known invocation is left alone |
| OutboxEffects.LeaseEffect | src/journal/outbox.rs:62-105 | a lease starts the dispatch under its own run and session, counts an attempt, and is abandoned exactly from 300 seconds later on |
| OutboxEffects.NextIsFirst | src/journal/outbox.rs:18-60 | no waiting row became available before the one leased next, or at the same time and was created before it |
| OutboxEffects.StartEffect | src/journal/outbox_queue.rs:83-119 | commits if and only if the row is pending, and then counts one attempt without a lease |
| OutboxEffects.SucceedEffect | src/journal/outbox_queue.rs:121-195 | commits if and only if the row is in flight; the run is completed unless it has failed |
| OutboxEffects.SucceedWrites | src/journal/outbox_queue.rs:140-269 | the receipt with its status, the reply of a reply operation with its text, and the completion of a run that has not failed, in this order |
| OutboxEffects.FailEffect | src/journal/outbox_queue.rs:286-345 | a failed receipt, a failed run, the error kept and the lease dropped |
| OutboxEffects.UnknownEffect | src/journal/outbox_queue.rs:347-390 | the unknown event, the error kept, the lease dropped, and the run as it was |
| OutboxEffects.DeadEffect | src/journal/outbox_queue.rs:458-498 | the row is dead whatever it was and is never handed out again |
| OutboxEffects.RetryEffect | src/journal/outbox_queue.rs:392-457 | below the limit the row is ready exactly after the capped exponential delay of its attempts, up to 2^32 of them; at the limit it is dead |
| OutboxEffects.RowsStayAsQueued | src/journal/outbox_queue.rs:10-498 | in every state of every run each row carries the run, session, operation, text and creation time of the step that first queued it |
| OutboxStore.Store.constructor | src/journal/sqlite.rs:46-70 | a new store is empty |
| OutboxStore.Store.QueueOutboxDispatch | src/journal/outbox_queue.rs:10-64 | inserts the pending row with its event, or changes nothing when the invocation exists |
| OutboxStore.Store.SelectReady | src/journal/outbox.rs:18-60 | the scan returns a ready row that no other ready row precedes in available and creation time, or none when none is ready |
| OutboxStore.Store.LeaseNextOutboxDispatch | src/journal/outbox.rs:10-105 | leases exactly the row the order demands, or changes nothing when no row is ready |
| OutboxStore.Store.StartOutboxDispatch | src/journal/outbox_queue.rs:83-119 | new tables, log and result are those of the start step; only a pending row starts |
| OutboxStore.Store.SucceedOutboxDispatch | src/journal/outbox_queue.rs:121-195 | new tables, log and result are those of the succeed step, run status included |
| OutboxStore.Store.RecordAssistantReply | src/journal/outbox_queue.rs:199-269 | appends the reply event exactly for reply operations with a text |
| OutboxStore.Store.FailOutboxDispatch | src/journal/outbox_queue.rs:286-345 | new tables, log and result are those of the fail step |
| OutboxStore.Store.UnknownOutboxDispatch | src/journal/outbox_queue.rs:347-390 | new tables, log and result are those of the unknown step |
| OutboxStore.Store.MarkOutboxRetryableFailed | src/journal/outbox_queue.rs:392-457 | new tables and log are those of the retry step: dead at the limit, else delayed by the backoff |
| OutboxStore.Store.MarkOutboxDead | src/journal/outbox_queue.rs:458-498 | new tables and log are those of the dead step, whatever the row's status was |
| OutboxStore.Store.UnknownInvocations | src/journal/unknown.rs:23-73 | the scan returns the distinct keys of dispatches without a terminal fact |
| OutboxStore.Store.StaleDispatchingWithTerminalJournal | src/journal/unknown.rs:155-210 | the scan returns exactly the stale rows, each with its repair target |
| OutboxStore.Store.RecoverUnknownInvocations | src/journal/unknown.rs:75-146 | new tables and log are those of recovery, and the count is the number of candidates plus stale rows |
| Retry.BackoffIsCappedExponential | src/domain/retry.rs:22-31 | for non-negative base and maximum and at most 2^32 attempts the machine-integer delay is min(max, base * min(2^(attempts-1), 100000)) over unbounded integers |
| Retry.BackoffMonotone | src/domain/retry.rs:22-31 | within that range the delay never falls as attempts grow and never exceeds the maximum |
| Retry.DelayOfTruncatedExponent | src/domain/retry.rs:22-31 | for every attempt count the delay is the ideal one of the exponent reduced modulo 2^32 |
| Retry.BackoffExactBeyondTwo32 | src/domain/retry.rs:22-31 | past 2^32 attempts the delay is the ideal one if and only if the reduced exponent is at least 17, the base is zero, or the reduced product already reaches the maximum |
| Retry.BackoffWrapWitness | src/domain/retry.rs:22-31 | concrete attempts past 2^32 at which the delay falls back to the base |
| Approvals.ApprovalsSettleAtMostOnce | src/journal/trusted_capability_activation.rs:402-442 | in every history, direct decisions included, an approval's terms never change, the row it settles into is the row it keeps, and from then on its proposal is in the corresponding status |
| Approvals.ShiftsKeepsPaired | src/journal/capability_proposals.rs:214-350 | whatever the kernel does to the two tables, every approval keeps its own proposal and a settled one has it in the corresponding status |
| Approvals.ShiftsLockstepExactly | src/journal/capability_proposals.rs:214-350 | one change to the tables ends in lockstep if and only if it started in lockstep and decides no proposal directly for which an approval is pending; a broken pair stays broken |
| Approvals.HistoryLockstepExactly | src/journal/capability_proposals.rs:214-350 | in every history the tables are in lockstep at a point if and only if no change before it decided a proposal directly for which an approval was pending |
| Approvals.UnlinkedStays | src/journal/capability_proposal_receipt.rs:86-144 | a stored proposal without an approval never gets one |
| Approvals.RoutedLockstep | src/server/capability_routes.rs:215-231 | if every direct decision is on a proposal that was looked up earlier and found without an approval, every point of the history is in lockstep, whatever happened in between |
| Approvals.DirectDecisionKeepsLockstepExactly | src/journal/capability_proposals.rs:214-350 | a direct decision keeps the lockstep if and only if no pending approval waits for that proposal |
| Approvals.EvolvesKeepsLockstep | src/journal/trusted_capability_activation.rs:402-442 | settlement and arrival keep every approval paired with its own proposal in the corresponding status |
| Approvals.EvolvesFreezes | src/journal/trusted_capability_activation.rs:402-442 | terms, proposal content and settled rows are frozen |
| Approvals.FinishEvolves | src/journal/trusted_capability_activation.rs:278-341 | rejecting or failing an activation settles both rows or neither |
| Approvals.ExpireEvolves | src/journal/activation_core.rs:333-402 | expiry settles both rows or neither |
| Approvals.SubmitEvolves | src/journal/capability_proposal_receipt.rs:129-150 | a submitted proposal and its approval arrive together, both pending |
| Approvals.ReplayExactly | src/journal/trusted_capability_activation.rs:372-400 | a settled approval replays if and only if decision, payload, principal and outcome are the recorded ones, and then returns the recorded result |
| ApprovalRules.BindingExactly | src/journal/trusted_capability_validation.rs:16-191 | a decision is admitted if and only if it is authentic and well formed and the approval and proposal are bound to its identity and agent, column by column |
| ApprovalRules.OneIdentity | src/journal/trusted_capability_validation.rs:152-191 | two identities admitted for one approval differ at most in decision id and payload digest |
| ApprovalRules.RejectsExactly | src/journal/trusted_capability_activation.rs:278-341 | a rejection commits if and only if the identity is bound, both rows wait, the approval has not expired and the decision id is unused; what it records |
| ApprovalRules.FailsExactly | src/journal/trusted_capability_activation.rs:242-341 | the same for a failed activation with a well-formed code |
| ApprovalRules.ExpiresExactly | src/journal/activation_core.rs:333-402 | an approval expires if and only if both rows wait, its time is over and the agent is its proposal's; what is recorded |
| ApprovalRules.SubmitsExactly | src/journal/capability_proposal_receipt.rs:86-150 | both rows arrive, as given and pending, if and only if their ids are new |
| ApprovalRules.LookupExactly | src/journal/trusted_capability_activation.rs:48-76 | the lookup finds nothing while the approval waits, else what a repeat would return |
| Replaying.OneMove | src/journal/registry_ops.rs:277-360 | a transaction whose events hold one move that continues the log advances the replayed registry by exactly that move |
| Replaying.ReplayCounts | src/journal/registry_ops.rs:277-360 | in an unbroken log the replayed version is one plus the number of moves |
| OperationHistory.LogReplaysToRegistry | src/journal/registry_ops.rs:277-360 | in every state of every run over all five paths, separate and interrupted snapshot creations included, folding the activation events gives the active snapshot and the version, each event continues the one before, and the version counts them |
| OperationHistory.RunAddressedExactly | src/journal/registry_ops.rs:398-478 | the snapshot table is content-addressed in a state of a run if and only if every interrupted creation up to it found its id already stored or left rows with the digest of the whole |
| OperationHistory.CreateKeeps | src/journal/registry_ops.rs:398-485 | creating a snapshot on its own keeps log and registry in step and stores it under its digest |
| OperationHistory.InterruptedCreateKeeps | src/journal/registry_ops.rs:413-478 | a creation cut short keeps log and registry in step and every stored snapshot as it was |
| OperationHistory.ActivateKeeps | src/journal/registry_ops.rs:277-360 | activating a stored snapshot on its own keeps log and registry in step |
| OperationHistory.CreateAndActivate | src/journal/registry_ops.rs:277-485 | the two in a row, without anything in between, commit if and only if the expected snapshot is active; runs also hold them as separate steps |
| OperationHistory.HarnessKeeps | src/journal/harness_activation_ops.rs:14-256 | enabling and disabling a harness keep log and registry in step |
| OperationHistory.BootKeeps | src/journal/registry_ops.rs:41-240 | the boot upgrades keep log and registry in step |
| OperationHistory.ProposalKeeps | src/journal/capability_activation.rs:30-131 | activating a proposal keeps log and registry in step, also when it fails after registering its manifest |
| OperationHistory.UpgradeKeeps | src/journal/capability_activation.rs:145-297 | a schema upgrade keeps log and registry in step |
| OperationHistory.TrustedKeeps | src/journal/trusted_capability_activation.rs:116-231 | a trusted activation keeps log and registry in step and settles the approval |
| OperationHistory.TrustedCommit | src/journal/trusted_capability_activation.rs:116-231 | what a committing trusted activation implies about the state it met: source snapshot active, target id equal to the digest of the new content, approval settled with the returned result |
| OperationDecisions.ProspectiveIsInstalled | src/journal/trusted_capability_activation.rs:77-176 | the id predicted at any earlier state of the run is the id a committing activation installs, whatever happened in between |
| OperationDecisions.ActivationReplaysForever | src/journal/trusted_capability_activation.rs:116-176 | after a trusted activation commits, repeating it at any later state returns the first result marked replayed and changes nothing |
| OperationDecisions.RunFreezes | src/journal/trusted_capability_activation.rs:402-442 | across any run, service activations and direct decisions included, approval terms, proposal content and settled approval rows stay as they are |
| OperationDecisions.RunPaired | src/journal/trusted_capability_activation.rs:402-442 | in every state of every run every approval has its own proposal, in the corresponding status once it is settled |
| OperationDecisions.RunLockstepExactly | src/journal/capability_proposals.rs:214-350 | a state of a run is in lockstep if and only if no step before it decided a proposal directly for which an approval was pending |
| OperationDecisions.RoutedRunLockstep | src/server/capability_routes.rs:215-231 | with direct decisions behind the route, every state of every run is in lockstep |
| OperationDecisions.SettledDecisionsAreInert | src/journal/trusted_capability_activation.rs:116-341 | once an approval is settled, every activation, rejection, failure or expiry of it with any arguments at any later state changes nothing and returns the recorded result or fails |
| OperationDecisions.FinishReplaysForever | src/journal/trusted_capability_activation.rs:234-341 | after a rejection or failure commits in a run, repeating it at any later state returns the first result marked replayed, and so does the lookup |
| OperationUpgrades.EnableDisableRoundTrip | src/journal/harness_activation_ops.rs:14-148 | with a content-addressed snapshot table, enabling a harness whose operation is absent and disabling it returns to the original active snapshot id, two versions later |
| OperationUpgrades.EnableAfterInterruption | src/journal/registry_ops.rs:413-478 | enabling after an interrupted creation of the same snapshot activates the fragment under the digest of the whole, and the table stays content-addressed if and only if nothing was missing |
| OperationSample.LostOperationsWitness | src/journal/registry_ops.rs:413-478 | a run that registers a harness, stops the creation of its snapshot after the header and enables it ends with an active snapshot without any operation |
| OperationUpgrades.BootIsIdempotent | src/journal/registry_ops.rs:121-240 | a second boot right after the first changes nothing, the controls are seeded, the legacy clock is gone, and retiring it takes one activation |
| OperationUpgrades.UpgradeCommitsExactly | src/journal/capability_activation.rs:145-297 | an upgrade commits if and only if its checks pass and the new content is not stored yet, and what it then leaves behind |
| OperationUpgrades.UpgradesCommute | src/journal/capability_activation.rs:180-249 | upgrades of two different operations commute: same active id and content, every other operation unchanged, hooks inherited |
| OperationUpgrades.OtherOrderCommitsExactly | src/journal/capability_activation.rs:180-249 | when one order commits the other does if and only if its intermediate snapshot is new and the first upgrade changes its operation |
| OperationRegistry.UpgradeTarget | src/journal/capability_activation.rs:180-225 | the checks pass if and only if the operation is active, external, unchanged since the expected snapshot and named by its manifest, and then give that operation |
| OperationEffects.TrustedCommitsExactly | src/journal/trusted_capability_activation.rs:116-231 | a trusted activation commits if and only if the manifest is the approved one, the identity may decide, the source snapshot is active and lacks the operation, the target is the digest of the content to install, and content, manifest and grant can be stored |
| OperationEffects.TrustedInstalls | src/journal/activation_core.rs:236-258 | the active snapshot then holds the source's operations unchanged and the new one, read-only, external and bound to the manifest, under the source's hooks or the bootstrap set; approval, manifest and events |
| OperationEffects.AnnouncesContent | src/journal/trusted_capability_activation.rs:77-115 | the id announced beforehand is the digest of that content |
| OperationEffects.SettledActivationAnswers | src/journal/trusted_capability_activation.rs:116-176 | a repeat is answered if and only if it is the recorded decision with the recorded target and deployment |
| OperationEffects.RegistersExactly | src/journal/harness_ops.rs:119-264 | a manifest is stored under its id with one event, or found as it is, or refused |
| OperationEffects.ReplacesExactly | src/journal/harness_ops.rs:265-305 | for an upgrade an equal digest under the id is enough |
| OperationEffects.EnableInstalls | src/journal/harness_activation_ops.rs:14-87 | enabling adds the one operation described by the manifest, under the same hooks; when it does nothing and when it is refused |
| OperationEffects.DisableInstalls | src/journal/harness_activation_ops.rs:88-148 | disabling takes exactly that operation out |
| OperationEffects.BootInstalls | src/journal/registry_ops.rs:121-276 | a boot seeds the control operation, drops the retired one and a legacy clock, keeps every other operation and inherits the hooks, in at most two versions |
| OperationEffects.ProposalInstalls | src/journal/capability_activation.rs:30-131 | exactly when a proposal activates, and that exactly the listed operations are then active |
| OperationEffects.UpgradeInstalls | src/journal/capability_activation.rs:145-297 | exactly when an upgrade commits, and that it replaces the one operation, keeping its risk, and nothing else |
| OperationEffects.SettledByRight | src/journal/trusted_capability_activation.rs:361-442 | in every run, every settled approval was settled by the identity it is bound to before it expired, or expired after that, or was settled by a service activation; and the row stayed |
| OperationStore.HasDuplicateName | src/journal/activation_core.rs:125-128 | the scan reports a duplicate if and only if two operations share a name |
| OperationStore.InsertOperationRows | src/journal/activation_core.rs:163-182 | the rows written are the operations by name |
| OperationStore.FilterOut | src/journal/harness_activation_ops.rs:88-148 | the rebuilt list is the old one without that operation |
| OperationStore.ReplaceEntry | src/journal/capability_activation.rs:230-243 | the rebuilt list is the old one with that operation replaced |
| OperationStore.Store.constructor | src/journal/registry_ops.rs:41-120 | first boot stores the baseline snapshot at version 1 |
| OperationStore.Store.InsertSnapshotRows | src/journal/registry_ops.rs:413-478 | header, operations and hook bindings are committed row by row; a crash after any number of rows leaves a part of the content under the id of the whole |
| OperationStore.Store.WriteOperations | src/journal/registry_ops.rs:440-459 | the loop stores a part of the operations, all of them unless it runs out of room |
| OperationStore.Store.WriteHooks | src/journal/registry_ops.rs:460-477 | the loop stores a part of the hook bindings, all of them without a crash |
| OperationStore.Store.CreateRegistrySnapshot | src/journal/registry_ops.rs:398-485 | without a crash, stores the content under its digest or reuses what is stored there |
| OperationStore.Store.ActivateSnapshotTransactional | src/journal/registry_ops.rs:277-360 | compare-and-swap with its event, or an error and no change |
| OperationStore.Store.ActivateRegistryTx | src/journal/activation_core.rs:120-215 | inserts a new snapshot of distinct operations and swaps it in, or fails with nothing changed |
| OperationStore.Store.RegisterManifestTx | src/journal/harness_ops.rs:119-264 | reuses an identical manifest, refuses a different one under the same id, or inserts with its event |
| OperationStore.Store.RegisterReplacementTx | src/journal/harness_ops.rs:265-305 | the upgrade variant, which compares the content digest only |
| OperationStore.Store.EnableHarnessManifest | src/journal/harness_activation_ops.rs:14-87 | new state and result are those of the enable step, which creates and activates; the invariant is kept |
| OperationStore.Store.DisableHarnessManifest | src/journal/harness_activation_ops.rs:88-148 | new state and result are those of the disable step, which creates and activates; the invariant is kept |
| OperationStore.Store.BootRegistry | src/journal/registry_ops.rs:41-276 | the two boot upgrades in order, with the control seed of src/journal/registry_control_upgrade.rs, or an error and no change when the active snapshot is not stored |
| OperationStore.Store.ActivateCapabilityProposal | src/journal/capability_activation.rs:30-131 | new state and result are those of the proposal step; a late failure rolls the manifest back |
| OperationStore.Store.ActivateSchemaUpgrade | src/journal/capability_activation.rs:145-297 | new state and result are those of the upgrade step, rolled back on failure |
| OperationStore.Store.PersistTerminalTx | src/journal/trusted_capability_activation.rs:402-442 | settles both rows from pending or reports which one was not pending |
| OperationStore.Store.FinishTrusted | src/journal/trusted_capability_activation.rs:278-341 | new state and result are those of the finish step |
| OperationStore.Store.FailTrusted | src/journal/trusted_capability_activation.rs:242-264 | refuses a malformed error code, else new state and result are those of the finish step |
| OperationStore.Store.ExpireApproval | src/journal/activation_core.rs:333-402 | new state and result are those of the expiry step |
| OperationStore.Store.ActivatePendingTx | src/journal/trusted_capability_activation.rs:140-231 | the pending branch: registers, swaps in, grants and settles, or rolls all of it back |
| OperationStore.Store.ActivateTrustedCapability | src/journal/trusted_capability_activation.rs:116-231 | new state and result are those of the trusted step, replay included |
| ComponentSafety.EveryEntryHasItsReceipt | src/journal/trusted_service_activation.rs:128-275 | every component of every stored snapshot, active or historical, names a stored receipt with the same component, deployment, artifact, version and manifest |
| ComponentSafety.HistoricalPickDoesNotMatter | src/journal/component_control.rs:342-368 | whichever of several equally old snapshots the historical lookup picks, settling gives the same state and result |
| ComponentSafety.LogReplaysToComponents | src/journal/component_control.rs:245-282 | in every state folding the registered, disabled and rolled-back events gives the active component snapshot and the version |
| ComponentSafety.RollbackRestoresReplacedArtifact | src/journal/component_control.rs:180-368 | a committing rollback acts on a component still healthy and installs the artifact that the log shows was replaced when the removed deployment was activated, changing nothing else |
| ComponentEffects.RollbackInstalls | src/journal/component_control.rs:218-245 | in every run a committing rollback makes active the endpoint, deployment, version and artifact of its receipt; in all else the entry is what every stored snapshot has under that deployment, and no other entry changes |
| ComponentEffects.SettlesControlExactly | src/journal/component_control.rs:180-340 | in every run a control decision is settled if and only if it is pending on the expected snapshot and deployment and a new receipt answers it; a disable names the active deployment, a rollback an earlier one with the artifact the active one replaced |
| ComponentEffects.SettleWrites | src/journal/component_control.rs:246-290 | decision, outcome, version and the two events of a settled control decision |
| ComponentEffects.RecordsControlExactly | src/journal/component_control.rs:21-114 | a control decision is recorded if and only if it is the owner's, new, excludes no other effect and the component allows it; when a repeat succeeds |
| ComponentEffects.ControlsAreOwned | src/journal/component_control.rs:21-114 | in every run each control decision was recorded for its owner at a state that allowed it |
| ComponentEffects.FailsControlExactly | src/journal/component_control.rs:164-178 | a control decision fails if and only if it is pending |
| ComponentEffects.DeploysExactly | src/journal/trusted_service_activation.rs:128-275 | a deployment commits if and only if its intent is recorded, its receipt answers it and is new, the identity may decide, and it replaces an older version of the artifact it names, or nothing |
| ComponentEffects.DeployInstalls | src/journal/trusted_service_activation.rs:186-275 | the component is then active as manifest and receipt describe it, every other entry as it was; receipt, approval and events |
| ComponentEffects.SettledDeploymentAnswers | src/journal/trusted_service_activation.rs:128-165 | a repeat is answered if and only if it is the recorded decision with the recorded deployment |
| ComponentEffects.AdmissibleExactly | src/journal/trusted_service_activation.rs:18-66 | an intent is admitted if and only if it repeats decision and manifest, the identity could decide now, the component is the approved one and the version is newer |
| ComponentEffects.RecordStores | src/journal/trusted_service_activation.rs:103-126 | the intent is stored as it is, with the approval event and a note |
| ComponentEffects.SettledByRight | src/journal/trusted_capability_activation.rs:361-442 | the same as for the operation registry over component runs |
| ComponentSafety.DisableChangesOneStatus | src/journal/component_control.rs:180-290 | a committing disable changes endpoint and status of that one component only |
| ComponentSafety.OneEffectAtATime | src/journal/component_control.rs:52-66 | in every state a pending control decision excludes any other on its component and any deployment whose approval is pending |
| ComponentSafety.DeploymentRaisesVersion | src/journal/trusted_service_activation.rs:168-185 | a committing deployment replaces an entry only by a strictly newer version, and its receipt names the artifact it replaced |
| ComponentSafety.OnlyRollbackLowersVersions | src/journal/trusted_service_activation.rs:168-185 | across every step of every run that is not a rollback, each active component keeps its entry with the same or a strictly newer version |
| ComponentSafety.ControlReplaysForever | src/journal/component_control.rs:116-216 | a settled control decision returns its recorded result at every later state, by lookup and by settling again, a different receipt is refused, and nothing changes |
| ComponentSafety.FailedControlIsFinal | src/journal/component_control.rs:164-178 | a failed control decision is never accepted or settled again |
| ComponentSafety.ServiceActivationReplaysForever | src/journal/trusted_service_activation.rs:128-165 | after a service activation commits, repeating it at any later state returns the first result marked replayed and changes nothing |
| ComponentSafety.SettledDecisionsAreInert | src/journal/trusted_service_activation.rs:18-275 | once an approval is settled, every record, activation, rejection, failure or expiry of it with any arguments at any later state changes nothing and returns the recorded result or fails |
| ComponentSafety.RunPaired | src/journal/trusted_service_activation.rs:128-275 | in every state of a component run, capability activations and direct decisions included, every approval has its own proposal, in the corresponding status once it is settled |
| ComponentSafety.RunLockstepExactly | src/journal/capability_proposals.rs:214-350 | the same equivalence over component runs: lockstep if and only if no step before decided a proposal directly for which an approval was pending |
| ComponentSafety.RoutedRunLockstep | src/server/capability_routes.rs:215-231 | with direct decisions behind the route, every state of every component run is in lockstep |
| ComponentSample.DirectRejectionWitness | src/journal/capability_proposals.rs:277-320 | a run that submits a proposal and rejects it directly leaves its approval pending, outside the lockstep |
| ComponentOverlap.InFlightRefusedExactly | src/journal/trusted_service_activation.rs:84-102 | an intent is refused as in flight if and only if it passes the checks before, is new, and a control decision is pending or a recorded deployment has an Approved proposal and no receipt |
| ComponentOverlap.OnlyControlsRefuse | src/journal/trusted_service_activation.rs:84-102 | in every run whose direct decisions never set Approved, it is refused so if and only if it passes the checks before, is new, and a control decision is pending |
| ComponentOverlap.RunSoloExactly | src/journal/trusted_service_activation.rs:18-126 | at most one deployment of each component is in flight throughout a run if and only if no intent is recorded while another of its component is in flight |
| ComponentOverlap.LaterDeploymentIsNewer | src/journal/trusted_service_activation.rs:168-185 | of two deployments of a component that commit in a run without a rollback of it in between, overlapping or not, the later has the strictly newer version |
| ComponentSample.OverlapWitness | src/journal/trusted_service_activation.rs:84-102 | a run that submits two proposals for a component and records a deployment of each: both are in flight and neither has a receipt |
| ComponentSafety.RecordIsNoOpExactly | src/journal/trusted_service_activation.rs:18-126 | recording a deployment intent, for the first time or again, leaves the state as it was if and only if the intent is not recordable in it, and succeeds otherwise |
| ComponentSample.RepeatedRecordWitness | src/journal/trusted_service_activation.rs:18-126 | a run that submits a proposal and records its deployment twice: both succeed and the second adds one approval event and nothing else |
| ComponentSafety.RepeatedRecordAppendsApproval | src/journal/trusted_service_activation.rs:18-126 | a recordable intent recorded twice in a row succeeds again, adds one approval event and changes no table |
| ComponentHistory.RecordDeploymentKeeps | src/journal/trusted_service_activation.rs:18-126 | recording a deployment intent keeps provenance, lineage, control and exclusion invariants |
| ComponentHistory.ActivateServiceKeeps | src/journal/trusted_service_activation.rs:128-275 | activating a service keeps them, and nothing stored is changed or removed |
| ComponentHistory.RecordControlKeeps | src/journal/component_control.rs:21-114 | recording a control decision keeps them |
| ComponentHistory.FailControlKeeps | src/journal/component_control.rs:164-178 | failing a control decision keeps them |
| ComponentHistory.SettleControlKeeps | src/journal/component_control.rs:180-290 | settling a control decision keeps them |
| ComponentHistory.RunInvariant | src/journal/component_control.rs:21-290 | the combined invariant in every state of every run |
| ComponentStore.CanonicalMap | src/domain/component_registry.rs:48-55 | the loop builds the map in which the last entry of an id wins |
| ComponentStore.Rows | src/journal/component_registry.rs:62-113 | the rows read from a snapshot list exactly its entries |
| ComponentStore.Replace | src/journal/component_control.rs:239-243 | dropping the old entry and pushing the new one replaces that entry and no other |
| ComponentStore.Store.constructor | src/journal/component_registry.rs:10-36 | initialization stores the empty snapshot at version 1 |
| ComponentStore.Store.LoadSnapshot | src/journal/component_registry.rs:62-113 | returns the stored entries if their digest is the id, else the error that applies |
| ComponentStore.Store.PersistSnapshot | src/journal/component_registry.rs:114-168 | stores the entries under their digest or reuses the stored snapshot after checking it |
| ComponentStore.Store.HistoricalSnapshot | src/journal/component_control.rs:342-368 | the scan returns a newest snapshot that holds the component as the receipt names it, or none if there is none |
| ComponentStore.Store.RecordTrustedServiceDeploymentIntent | src/journal/trusted_service_activation.rs:18-126 | new state and result are those of the record step; a failure after the approval event rolls it back |
| ComponentStore.Store.ActivateTrustedService | src/journal/trusted_service_activation.rs:128-275 | new state and result are those of the activation step, replay and roll-back included |
| ComponentStore.Store.RecordComponentControlIntent | src/journal/component_control.rs:21-114 | new state and result are those of the record step |
| ComponentStore.Store.FailComponentControlIntent | src/journal/component_control.rs:164-178 | new state and result are those of the fail step |
| ComponentStore.Store.SettleComponentControl | src/journal/component_control.rs:180-290 | new state and result are those of the settle step with the answer of the historical lookup |
| Versions.NewerIsStrictOrder | src/journal/trusted_service_activation.rs:296-304 | version comparison is a strict order, total up to equal numeric parts |
| Versions.NewerExactly | src/journal/trusted_service_activation.rs:296-304 | a version is newer if and only if its numeric parts are larger at the first difference, or go on where the other ends |
| Versions.NumbersCompare | src/journal/trusted_service_activation.rs:296-304 | versions written from 64-bit numbers compare as lists of numbers |
| Versions.ParseOfNumbers | src/journal/trusted_service_activation.rs:296-304 | parsing the dotted decimal text of 64-bit numbers gives the numbers back |
| Versions.ParseOfJoin | src/journal/trusted_service_activation.rs:296-304 | the parts of a version are the texts between its dots, each read on its own |
| Versions.PartExactly | src/journal/trusted_service_activation.rs:296-304 | a part reads as its decimal number if that fits 64 bits, and a malformed or larger one as 0 |
| CodingSubmissions.AttemptsAreConsecutive | src/journal/coding_task_submissions.rs:119-172 | in every state the attempts of a message are numbered from 1 without gaps or repeats and every one but the last was definitively rejected |
| CodingSubmissions.AtMostOneOpenAttempt | src/journal/coding_task_submissions.rs:119-172 | at most one attempt of a message is running, succeeded or unknown, and it has the highest number |
| CodingSubmissions.OneTerminalEventPerAttempt | src/journal/coding_task_submissions.rs:252-358 | an attempt has no terminal event while it runs and then exactly the one for its status |
| CodingSubmissions.ClaimedExactly | src/journal/coding_task_submissions.rs:29-206 | a new attempt is granted if and only if the request is valid, its key is new, the last attempt was definitively rejected or there is none, and the ids are free |
| CodingSubmissions.RecordedCallRecalls | src/journal/coding_task_submissions.rs:55-117 | at every later state a recorded call key changes nothing and, for the same message and request, returns how its own attempt stands, with its recorded result or code; another message or request is refused, an invalid request before that |
| CodingSubmissions.FinishIsFinal | src/journal/coding_task_submissions.rs:252-358 | after an attempt finished, finishing it at any later state succeeds if and only if the outcome is the same, and changes nothing either way |
| CodingAnswers.GrantedAsRequested | src/journal/coding_task_submissions.rs:133-206 | a granted claim stores the request as the next running attempt, tells the caller its ids and proposes and approves the invocation |
| CodingAnswers.EndIsReported | src/journal/coding_task_submissions.rs:252-358 | ending a running attempt writes the one event that reports the outcome, under the attempt's run and session |
| CodingAnswers.EndedCallIsAnswered | src/journal/coding_task_submissions.rs:57-117 | at every later state the same call is told succeeded with the very result, rejected with the very code, or unknown |
| CodingAnswers.EndedMessageIsClosed | src/journal/coding_task_submissions.rs:119-172 | after a success or an unknown outcome no new call for the message is ever granted |
| CodingAnswers.RejectedMessageIsOpen | src/journal/coding_task_submissions.rs:119-206 | after a rejection a new call is granted the next attempt if and only if its ids are new and not empty |
| CodingAnswers.RunningIsAnswered | src/journal/coding_task_submissions.rs:57-172 | while an attempt runs its own call is told so and every other call for the message is refused |
| CodingAnswers.ValidExactly | src/journal/coding_task_submissions.rs:29-54 | a request is valid if and only if no id is blank and the digest is well formed |
| CodingSubmissions.RunInvariant | src/journal/coding_task_submissions.rs:29-358 | uniqueness, chaining and the terminal record in every state of every run |
| CodingStore.Store.FindByCallKey | src/journal/coding_task_submissions.rs:57-82 | finds an attempt with that call key if there is one |
| CodingStore.Store.LatestAttempt | src/journal/coding_task_submissions.rs:121-131 | finds the attempt of the message with the highest number if there is one |
| CodingStore.Store.ClaimCodingTaskSubmission | src/journal/coding_task_submissions.rs:29-206 | new table, log and answer are those of the claim step |
| CodingStore.Store.FinishCodingTaskSubmission | src/journal/coding_task_submissions.rs:252-358 | new table, log and answer are those of the finish step |
| HashChain.LastHashPinsJournal | src/journal/event_observe.rs:361-406 | two accepted journals that end in the same hash have the same length and agree on every column of every row, payloads in canonical form, unless two of their own preimages collide |
| HashChain.AlteredJournalIsRefused | src/journal/event_observe.rs:361-406 | a journal that keeps the last hash of an accepted one and has rows altered, added or removed is refused, unless two preimages collide |
| HashChain.AlteredLinkIsRefused | src/journal/event_observe.rs:395-406 | an accepted journal with the previous hash or the hash of a row altered is refused, whatever the hash function |
| HashChain.PreimageSample | src/journal/hash_chain.rs:3-13 | what is hashed for a row, spelled out |
| HashChain.PreimageDecodes | src/journal/hash_chain.rs:3-13 | the hashed text determines previous hash, sequence number, kind and payload when hashes and kinds contain no bar |
| HashChain.VerifyStoredKind | src/journal/event_observe.rs:361-406 | the loop accepts if and only if every row links to the one before it |
| HashChain.VerifyHashChain | src/journal/sqlite.rs:693-711 | the authoritative verifier accepts if and only if the rows link after each kind went through the enum and each unreadable payload became an empty object |
| HashChain.VerifiersAgreeExactly | src/journal/sqlite.rs:693-711 | a journal the stored-kind verifier accepts is accepted by the authoritative one if and only if the enum knows every kind; the other way round if and only if, besides, every payload parses; for kinds without a bar, unless the two messages of a row collide |
| HashChain.GarbageWitness | src/journal/sqlite_read.rs:12-38 | a row of garbage hashed as an empty object is accepted by the authoritative verifier only |
| HashChain.WrittenIsAcceptedExactly | src/journal/queue.rs:127-183 | a journal that the appender wrote is numbered from 1 in order, and accepted if and only if every payload parses and its canonical form gives the same hash |
| HashChain.FeedEventHash | src/journal/hash_chain.rs:3-13 | feeding the hasher field by field hashes the preimage |
| HashChain.Chain.AppendEvent | src/journal/queue.rs:127-183 | appends the next row; the journal is accepted afterwards if and only if it was before and the payload parses with the same hash, and stays one that the appender wrote |
| Observe.PagesDeliverEachMatchOnce | src/journal/event_observe.rs:227-352 | following the cursors with any filter, principal included, and any page sizes while the journal grows delivers exactly the matching events up to the cursor, once and in order, and all of them once a page says there are no more |
| Observe.WrittenIsReadableExactly | src/journal/event_observe.rs:227-352 | a journal that the appender wrote is in order, and its pages are served if and only if every payload parses with the same hash |
| Observe.QuiescentReadingEnds | src/journal/event_observe.rs:227-352 | on a journal that no longer grows, one of any more pages than matching events says there are no more |
| Observe.PageIsInterval | src/journal/event_observe.rs:285-320 | a page holds exactly the matching rows between the two cursors, at most as many as asked for and exactly as many if there are more, and has more if and only if a matching row lies beyond |
| Observe.SelectExactly | src/journal/event_observe.rs:197-212 | the query read declaratively: a row is selected if and only if it is in the log, lies in the interval and equals every filter that is not empty |
| Observe.ObserveEvents | src/journal/event_observe.rs:227-352 | refuses exactly limits outside 1..1000 and a chain that is not accepted, and otherwise returns the page |
| Observe.Fetch | src/journal/event_observe.rs:197-300 | the scan that stops at the fetch limit returns a prefix of all matching rows of that length, or all of them |
| Conversation.RecentConversationTurns | src/journal/conversation.rs:35-163 | the hash-map join returns exactly the last `limit` turns of the relational specification |
| Conversation.ConversationTurns | src/journal/conversation.rs:17-24 | without a limit the builder returns the relational specification |
| Conversation.CollectIngress | src/journal/conversation.rs:46-60 | the collected map holds for every id the text of its latest ingress event |
| Conversation.CollectReplies | src/journal/conversation.rs:84-134 | the collected map holds for every run the text of its first consistent reply |
| Conversation.IngressTextIsLatest | src/journal/conversation.rs:46-60 | the ingress text comes from an event after which no other has that id, or no event has it |
| Conversation.ReplyTextIsFirst | src/journal/conversation.rs:84-134 | the reply text comes from a consistent reply before which there is none, or there is none |
| Conversation.TurnsExactly | src/journal/conversation.rs:35-163 | a turn belongs to the session if and only if some run of it was started by a message whose last text is the user side and whose first consistent reply is the other |
| Conversation.TurnsInOrder | src/journal/conversation.rs:35-163 | turns are in the order of the runs they start from, at most one each |
| Conversation.LaterEventsKeepReply | src/journal/conversation.rs:126-134 | a retried delivery never changes the reply of a run |
| Conversation.DeliveryYieldsTurn | src/journal/outbox_queue.rs:199-269 | delivering the first reply of a run started by a known message gives the session the turn of that message and the delivered text, and in every later log the run has one turn with that text |
| Encoding.EncodeInjective | src/hook/context_artifact.rs:211-214 | a length-prefixed message determines the number, order and bytes of its fields |
| Encoding.DecodeOfEncode | src/hook/context_artifact.rs:211-214 | reading a message back, eight bytes of length and then that many bytes, gives its fields |
| Encoding.LeqExactly | src/hook/budget.rs:186-195 | names are ordered bytewise: a prefix first, else the smaller byte at the first difference |
| Encoding.RefFieldsAt | src/hook/context_artifact.rs:181-190 | references are hashed in order, each as id and digest |
| Encoding.AppendFields | src/hook/context_artifact.rs:152-169 | the buffer loop produces the length-prefixed message |
| Encoding.ContextMessage | src/hook/context_artifact.rs:152-169 | read back, the message is provider, request, run, session, scope, candidate and reference digests, then the artifact digests in order |
| Encoding.ContextMessageDecodes | src/hook/context_artifact.rs:152-169 | equal context messages come from equal providers, requests and responses, artifact order included |
| Encoding.BudgetMessage | src/hook/budget.rs:154-177 | read back, the message is provider, request, run, the two numbers in decimal and the action |
| Encoding.BudgetMessageDecodes | src/hook/budget.rs:154-177 | equal budget messages come from equal providers and responses, numbers and action included |
| Encoding.DigestImmutableRefs | src/hook/context_artifact.rs:181-190 | the digest is taken of ids and digests in order |
| Encoding.RefsDigestExactly | src/hook/context_artifact.rs:181-190 | two reference lists have equal digests if and only if they are equal, unless their messages collide |
| Encoding.ComputeOperationsDigest | src/hook/budget.rs:186-195 | the digest is taken of the sorted names |
| Encoding.OperationsDigestExactly | src/hook/budget.rs:186-195 | two operation lists have equal digests if and only if they hold the same names equally often, unless their messages collide |
| Encoding.SortedIsUnique | src/hook/budget.rs:186-195 | a multiset of names has exactly one sorted listing |

## Left out

- HTTP transports, connectors, hook clients, configuration and startup plumbing: input and output decided elsewhere.
- SHA-256, HMAC and JSON serialization internals: parameters of the model.
- Schema migrations, including the rewriting of legacy coding submissions.
- Worker job queue, operation grants, model telemetry, session continuations and the gateway ladder: the same transaction patterns with easier claims.
- The in-memory snapshot cache beside the operation registry: steps are taken on the database state.
- Payload redaction of observed events.
- Observe.ObserveEvents: does not model the redaction of payloads, because it changes no row selection.
- The table of event kind names: the round trip of a kind through the enum is a parameter of `VerifyHashChain`.
- Direct decisions on proposals (approve, reject, expire) as transactions of their own: any change they make to a proposal row is a step of the runs.
- Order of equally ranked rows in ordered queries: left open, and shown not to matter for the historical lookup.
- Validation of the acceptance receipt, its legacy form and its origin: one verdict passed in as `authentic`.
- Hook bindings other than the bootstrap one: inherited as they are.
- HashChain.Chain.AppendEvent: identity columns of an event are not hashed by the source and are not part of the chain rows.
