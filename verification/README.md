# Workflow state of omp-lazy, modelled and proved in Dafny

omp-lazy keeps its workflow state in an event-sourced store below `.omo/omp-lazy`: a numbered event log,
run snapshots and an active index. This project models that store and the protocols around it, and proves
what they guarantee over whole runs, every interleaving and every crash point:

- **Crash-safe transactions** (`Domain`, `StateTransition`, `WorkflowControl`, `ReceiptAuthority`,
  `TransactionStore`, `StoreProofs`, `ReplayProofs`, `TransitionProofs`, `ReducerProofs`, `AuthorityProofs`,
  `EvidenceProofs`, `Findings`): the reducers, `commit`, `repairState`, exactly what each event is accepted for
  and changes, what every cut commit and cut repair leaves behind, and what a retry is told.
- **Continuation** (`Continuation`, `ContinuationProofs`, `DecisionProofs`, `ContinuationBound`, `Coordinator`): the decision
  taken when a session goes idle, against the reducer that must accept it and bound it.
- **Journaled migration** (`Migration`, `MigrationProofs`, `StateDirectory`): backups, staging, ranked
  publishing, commit marker, recovery and preflight.
- **Task ledger** (`TaskLedger`, `TaskLedgerProofs`, `LedgerOrigins`, `TaskScope`): reservations, bindings, authorizations,
  receipts and the proven capability, across owner epochs, and the run a session's operations act on.
- **Acceptance ledger** (`AcceptanceLedger`, `AcceptanceProofs`): the write-ahead log and the snapshot, merged on read.
- **Kernels**: the glob matcher (`Glob`), canonical JSON and task packets (`Ordinal`, `CanonicalJson`,
  `CanonicalJsonProofs`, `TaskPacket`, `TaskPacketProofs`,
  `PacketAcceptance`), the evaluation bundle verifier (`Bundle`,
  `BundleProofs`), the nonce lock (`RepoLock`) and the retrieval budget (`RetrievalBudget`,
  `RetrievalBudgetProofs`).

`dafny verify dfyconfig.toml` checks everything.

## How crashes are modelled

An operation that writes files is described by an intent: its answer and the list of its atomic writes. The
disk after a crash is the disk after a prefix of that list. The imperative classes (`TransactionStore.Store`,
`StateDirectory.Directory`, `AcceptanceLedger.Ledger`) carry a fuse, the number of writes the process
survives, and each method is proved to leave exactly the disk its intent prescribes for that fuse. The
theorems then quantify over every prefix, and over every sequence of such cut operations. A deadline that
expires after the event was appended is one more cut.

Retrieval, lock and task-ledger operations are steps of a state machine; the theorems quantify over every
sequence of steps.

## Where the code does not meet the obvious property

Each of these is proved: an input on which the property fails, and the exact condition under which it holds.

- Settling the last criterion of the active goal while another goal is open publishes a run that the codec
  refuses to read (`Findings.MultiGoalSettlementUndecodable`); `TransitionProofs.SettleDecodesIff` gives the
  exact condition, `SingleGoalSettles` the case that is always safe.
- Steering does not compare the new criteria with each other (`Findings.DuplicateSteeringUndecodable`); the
  steered run decodes exactly when their ids are distinct (`TransitionProofs.SteerDecodesIff`).
- A `continuation_stuck` event is accepted on a terminal run and revives it, and no other event does
  (`TransitionProofs.TerminalRevivedIff`). That is a third way, besides creation and adoption, to put one
  (workflow, session) into the index twice (`Findings.StuckReportOnTerminalRunBreaksIndex`);
  `TransitionProofs.KeyClashIff` says exactly when each of the three does.
- A retry of a commit that was cut after the append is answered `replayed` with an index from before the event
  (`Findings.CutCommitReplayedStale`); `ReplayProofs.ReplayIsCurrentIff` says exactly which replay answers are
  current.
- An accepted commit can be cut so that no repair finishes it (`Findings.CutCommitBeyondRepair`);
  `TransitionProofs.CutCommitRepairableIff` says exactly when repair succeeds.
- A settling decision about a version 1 run is refused, other decisions never are;
  `ContinuationProofs.LegacyDecisionRefusedIff` gives the one exception, generation 1 on a migrated index. A
  version 1 steering event is always refused once the index has been migrated
  (`Findings.LegacySteeringAlwaysRefused`).
- Recovering a committed migration journal after live files have changed puts the journaled files back to
  their version 1 bytes; it finalizes exactly when nothing has changed
  (`MigrationProofs.CommittedJournalRollsBackLaterWrites`).
- Preflight leaves a directory without `active.json` unconverted, and only such a directory
  (`MigrationProofs.PreflightConverges`).
- `segmentMatch` compares literally before it looks at `*`, so a segment that contains `*` can be missed; it is
  exact on all patterns precisely for the other segments (`Glob.MatchesExactIff`), and the path matcher
  precisely for paths without such segments (`Glob.PathMatchesExactIff`).
- Two overlapping releases of one lock handle let two processes in (`RepoLock.DoubleReleaseBreaksExclusion`);
  without overlap the lock excludes (`RepoLock.LockExcludes`), and every overlap can be continued to a
  violation (`RepoLock.OverlapBreaksExclusion`).
- The retrieval budget belongs to an activation: switching to another packet and back restarts it
  (`RetrievalBudgetProofs.SwitchingPacketsRestartsTheBudget`); `CarriesOverIff` says exactly which steps keep it.

## Model

| member | source | states |
|---|---|---|
| `Domain.ValidateActiveIndex` | src/state/active-index.ts:13-24 | the loop over the entries accepts exactly the indexes without a repeated run id and without a repeated (workflow, session) |
| `TransactionStore.Store.constructor` | src/state/transaction-store.ts:52-63 | opens whatever the directory holds |
| `TransactionStore.Store.Persist` | src/state/transaction-store.ts:117-136 | one atomic write reaches the disk, or the process has died and nothing changes |
| `TransactionStore.Store.Commit` | src/state/transaction-store.ts:65-141 | for every crash point the disk is the prefix of append event, replace run, replace index that the fuse allows, and the answer is the intended one |
| `TransactionStore.Store.Repair` | src/state/recovery.ts:42-111 | the same for repair: nothing, the index alone, or the run and then the index |
| `StoreProofs.DeriveRestoresProjection` | src/state/state-transition.ts:163-184 | publishing a run and deriving the index makes the index a projection of the runs again, whatever it said about that run |
| `StoreProofs.CommitShape` | src/state/transaction-store.ts:92-141 | a commit intends either no write, or exactly the append, run and index writes of one publication |
| `StoreProofs.CommitKeepsInv` | src/state/transaction-store.ts:92-141 | a commit cut after any write keeps the store invariant |
| `StoreProofs.RepairShape` | src/state/recovery.ts:66-107 | a repair intends no write, the index alone, or the run and the index, and then the index has caught up with the log |
| `StoreProofs.RepairKeepsInv` | src/state/recovery.ts:66-107 | a repair cut after any write, with any receipts, keeps the store invariant |
| `StoreProofs.EveryRunKeepsInv` | src/state/transaction-store.ts:65-141 | from an empty store, after any sequence of commits and repairs cut anywhere, the invariant holds: log numbered without gaps, at most one event ahead, index a projection of the runs |
| `StoreProofs.LogNeverOutrunsRepair` | src/state/recovery.ts:23-40 | in every such state the log is 1..n, the i-th event was built on index revision i-1, and inspection never reports several events ahead or an index ahead |
| `StoreProofs.RepairEqualsCommit` | src/state/recovery.ts:66-107 | cut an accepted commit after any write, cut and rerun the repair any number of times: one more repair ends on exactly the disk of the uncut commit; a cut before the append changes nothing |
| `StoreProofs.RepairableIff` | src/state/recovery.ts:42-65 | repair of a cut commit succeeds if and only if the stored event, and once replaced the stored run, decode; otherwise it writes nothing |
| `ReplayProofs.EveryRunKeepsReplay` | src/state/transaction-store.ts:92-141 | over every sequence of cut commits and repairs, no event id is logged twice and the run of every indexed event exists, published at that event or later |
| `ReplayProofs.ResubmitChangesNothing` | src/state/transaction-store.ts:94-104 | in every reachable state, submitting anything under the id of any logged event writes nothing: a conflict if it differs in anything but sequence and time, else a replay, and diverged state only for the cut creation of a run not there yet |
| `ReplayProofs.HealthyResubmitIsReplayed` | src/state/transaction-store.ts:94-104 | on a healthy store resubmitting any logged event, however old, is answered as a replay with the current run and index |
| `ReplayProofs.RewrittenIsConflict` | src/state/persisted-event.ts:3-36 | an event submitted again unchanged is a conflict if and only if it was a version 1 event on a migrated index, which storing rewrote |
| `ReplayProofs.ReplayIsCurrentIff` | src/state/transaction-store.ts:94-106 | the index of a replay answer includes the event if and only if the event is not the one ahead of the index; its run includes it if and only if moreover the run was not still to be replaced |
| `ReplayProofs.CommitsIff` | src/state/transaction-store.ts:92-137 | a commit goes through if and only if the store is readable and not behind, the event id is not logged, and the transition accepts the event as stored |
| `ReplayProofs.BehindRefuses` | src/state/transaction-store.ts:105-106 | a store that is behind takes no new event until it is repaired |
| `ReplayProofs.InspectionIff` | src/state/recovery.ts:23-40 | inspection reports corruption if and only if something does not decode, otherwise how far the log is ahead |
| `TransitionProofs.StatusAfter` | src/state/state-transition.ts:24-140 | no reducer changes the run id or the workflow, only adoption changes the owner, and a terminal run leaves its terminal status exactly under a stuck report |
| `ReducerProofs.OwnerEventIff` | src/workflows/workflow-control.ts:37-192 | pause, resume, cancel, adopt and reconcile: the exact statuses each is accepted from, and the status, owner, continuation and plan it leaves |
| `ReducerProofs.EpochCountsAdoptions` | src/workflows/workflow-control.ts:80-100 | over every accepted history the owner's epoch is the first plus the number of adoptions and its session the last adopter's |
| `ReducerProofs.OwnershipsDiffer` | src/workflows/workflow-control.ts:80-100 | two moments of a history share an epoch if and only if no adoption lies between them |
| `ReducerProofs.SettleIff` | src/state/runtime-progress-transition.ts:24-81 | a settlement is accepted if and only if it repeats the last acceptance that proves the criterion now and the criterion is there and open |
| `ReducerProofs.SettledGoalsExact` | src/state/runtime-progress-transition.ts:46-66 | a settlement passes that criterion with its capture, completes its goal exactly when all its criteria have passed, and changes nothing else |
| `ReducerProofs.TaskEvidenceIff` | src/state/runtime-progress-transition.ts:83-100 | task evidence is accepted if and only if it names the last acceptance that proves the task now |
| `ReducerProofs.FailedRunIff` | src/state/runtime-progress-transition.ts:102-134 | a run fails if and only if the named task is the last one exhausted in the event's generation |
| `ReducerProofs.CompletedRunIff` | src/state/runtime-progress-transition.ts:102-134 | a plan completes if and only if every task is proved, the last one now, and the event names the proofs |
| `ReducerProofs.FailureExact` | src/workflows/ulw-loop-contract.ts:49-87 | a recorded failure marks that criterion, counts on from the same fingerprint or starts again, and changes nothing else |
| `ReducerProofs.SteerIff` | src/state/state-transition.ts:79-114 | steering is accepted if and only if there is an active goal and no id is taken; it appends the new criteria, open and untried, to that goal alone |
| `ReducerProofs.StepCounts` | src/state/runtime-progress-transition.ts:24-175 | every accepted event raises the revision by one, and the progress revision exactly if it settles, accepts evidence or completes; only inert converted events change nothing |
| `ReducerProofs.LeafAnsweredOnce` | src/state/runtime-progress-transition.ts:136-175 | after an attempt or stuck report on a leaf neither is accepted for that leaf again |
| `ReducerProofs.TransitionIff` | src/state/state-transition.ts:192-238 | a transition on a stored run is accepted if and only if the event follows the index, names the stored revision, owner and epoch and, when bound, head and task scope, and its reducer accepts it |
| `ReducerProofs.StaleEventsRefused` | src/state/state-transition.ts:192-214 | which refusal a version 2 event gets for a stale index, run, owner or epoch |
| `TransitionProofs.TerminalRevivedIff` | src/state/runtime-progress-transition.ts:157-175 | a transition revives a terminal run if and only if the event is a stuck report |
| `TransitionProofs.KeyClashIff` | src/state/state-transition.ts:163-243 | on a projecting index a transition writes an invalid index if and only if another run holds the key of a created run that stays listed, of the session a run is adopted into, or of a terminal run reported stuck |
| `TransitionProofs.PreparedIff` | src/state/state-transition.ts:204-243 | an event that passes the compare-and-swap checks is accepted if and only if its reducer accepts it: identity and workflow never get in the way |
| `TransitionProofs.CutCommitRepairableIff` | src/state/recovery.ts:42-111 | a cut commit is repairable if and only if the stored event decodes and, once the run is replaced, is not of a family that leaves the run undecodable |
| `TransitionProofs.SettleDecodesIff` | src/state/runtime-progress-transition.ts:24-81 | the run a settlement publishes decodes if and only if the settled goal is not the active one left complete beside an open goal |
| `TransitionProofs.SingleGoalSettles` | src/state/runtime-progress-transition.ts:59-77 | a loop with one goal always decodes after a settlement |
| `TransitionProofs.SteerDecodesIff` | src/state/state-transition.ts:79-114 | a steered run decodes if and only if the new criteria have distinct ids |
| `TransitionProofs.CycleDecodes` | src/workflows/ulw-loop-contract.ts:27-47 | starting a goal cycle keeps a run decodable |
| `TransitionProofs.FailureDecodes` | src/workflows/ulw-loop-contract.ts:49-87 | recording a criterion failure keeps a run decodable |
| `TransitionProofs.DecodesIff` | src/state/codec-schemas.ts:143-165 | a run decodes if and only if ids are unique, counts within their caps, and the active goal is the one in progress |
| `TransitionProofs.ControlDecodesIff` | src/state/state-transition.ts:24-140 | over all reducers, the new run decodes if and only if the event is not one of the two failing families |
| `TransitionProofs.PublishedDecodesIff` | src/state/state-transition.ts:186-243 | the same for whole transitions; a created run always decodes |
| `EvidenceProofs.ControlKeepsEvidence` | src/state/runtime-progress-transition.ts:24-81 | no reducer marks a criterion passed without a ledger acceptance for it at the recorded revision and commit |
| `EvidenceProofs.EveryPassIsEvidenced` | src/state/runtime-progress-transition.ts:24-134 | over every accepted history with an append-only ledger, every passed criterion has its acceptance |
| `EvidenceProofs.CompletionNeedsEvidence` | src/state/receipt-authority.ts:53-95 | a step that completes a start-work run has for each plan task an acceptance of the same epoch at the run's expected head, the last one current; a completed loop has every criterion passed |
| `AuthorityProofs.CurrentAcceptanceIff` | src/state/receipt-authority.ts:53-79 | there is a current acceptance if and only if some entry proves the task for the owner, epoch, head, generation and attempt, and it is the last such entry |
| `AuthorityProofs.CompletionIdsIff` | src/state/receipt-authority.ts:81-95 | completion ids exist if and only if every plan task is proved and the last one now |
| `AuthorityProofs.CompletionIdsNameProofs` | src/state/receipt-authority.ts:81-95 | they name each task's last proof, in plan order |
| `AuthorityProofs.ExhaustedTaskIff` | src/state/receipt-authority.ts:97-109 | a task is exhausted if and only if it was rejected for the third time in this epoch and generation, is left to the parent and not proved; the last such task is named |
| `Findings.MultiGoalSettlementUndecodable` | src/state/runtime-progress-transition.ts:24-81 | an accepted settlement, with its authority, whose published run the codec refuses |
| `Findings.DuplicateSteeringUndecodable` | src/state/state-transition.ts:79-114 | an accepted steering event that repeats an id and publishes a run the codec refuses |
| `Findings.CutCommitBeyondRepair` | src/state/recovery.ts:42-111 | a reachable store whose cut commit no repair can finish, whatever the receipts |
| `Findings.CutCommitReplayedStale` | src/state/transaction-store.ts:94-104 | a reachable store that answers a retry as replayed with an index older than the event |
| `Findings.StuckReportOnTerminalRunBreaksIndex` | src/state/runtime-progress-transition.ts:157-175 | a valid index and a stuck report after which the index no longer validates |
| `Findings.LegacySteeringAlwaysRefused` | src/state/persisted-event.ts:3-36 | on a migrated index every version 1 steering event is refused |
| `ContinuationProofs.DecisionOrigin` | src/continuation/continuation-coordinator.ts:71-195 | a decision is about a run of the session in the snapshot, on a leaf not processed yet, and comes from that run's own branch |
| `ContinuationProofs.DecisionShape` | src/continuation/continuation-coordinator.ts:71-195 | settled decisions carry the authority's generation, continue only on an active run below the bound, stuck only at the bound |
| `DecisionProofs.LoopDecision` | src/continuation/continuation-coordinator.ts:141-195 | the answer of a loop, over its fields and the ledger: fail, settle the first open criterion, stop at the bound, continue, or nothing without an open goal |
| `DecisionProofs.StartDecisionIs` | src/continuation/continuation-coordinator.ts:84-139 | the answer of a start-work run, over its plan file and the ledger: complete, fail, settle the first remaining task, stop, continue, or none |
| `DecisionProofs.ResolveIff` | src/continuation/continuation-coordinator.ts:219-262 | on a healthy store a session resolves to exactly the run the index lists for it, or to nothing |
| `DecisionProofs.ResolveConflictIff` | src/continuation/continuation-coordinator.ts:219-262 | on any store a session's workflow is in conflict if and only if the first entry for it names a run that was not loaded or that it does not agree with |
| `DecisionProofs.DecisionIsAnswer` | src/continuation/continuation-coordinator.ts:71-195 | on a healthy store the decision is the session's answer: which run speaks, and exactly when the answer is quiet |
| `DecisionProofs.EmitsIff` | src/continuation/durable-continuation.ts:110-125 | under a fresh event id a continue is handed back if and only if the decision is to continue and the commit is not cut |
| `DecisionProofs.OpenLoopIsContinued` | src/continuation/continuation-coordinator.ts:141-195 | an open loop on a fresh leaf, nothing exhausted, its first open criterion unproved and fewer than two attempts without progress, is continued and emitted |
| `ContinuationProofs.NoDecisionRefused` | src/continuation/continuation-coordinator.ts:71-195 | for a version 2 run every decision, as the coordinator's event, is accepted by the transition on the same index, run and authority |
| `ContinuationProofs.LegacySettlement` | src/state/receipt-authority.ts:53-109 | all a decision can settle for a version 1 run is that a task was rejected too often |
| `ContinuationProofs.LegacyDecisionRefusedIff` | src/state/persisted-event.ts:3-36 | for a version 1 run the event as stored is refused if and only if it settles something and the index is not migrated or the generation is not 1 |
| `ContinuationProofs.CompletionIdsDistinct` | src/state/receipt-authority.ts:81-95 | the acceptances cited for a completion are distinct |
| `ContinuationProofs.CoordinatorEventDecodes` | src/continuation/durable-continuation.ts:76-109 | the coordinator's event decodes, so the log stays readable |
| `ContinuationProofs.ResolveNeverConflicts` | src/continuation/continuation-coordinator.ts:219-262 | on a healthy store resolution never reports a conflict between index and run |
| `ContinuationProofs.HealthyStoreCommitsDecisions` | src/continuation/durable-continuation.ts:41-127 | on a healthy readable store every decision about a version 2 run commits under a fresh event id |
| `Coordinator.CommittedContinue` | src/continuation/durable-continuation.ts:110-127 | a committed continue passes every check made on the commit's answer, and a replay fails them |
| `Coordinator.Handle` | src/continuation/durable-continuation.ts:41-127 | for every crash point and every moment the fence expires: which disk is left, when a read error is raised, and that a continue is emitted exactly when its commit went through and the fence still holds |
| `Coordinator.ObservePlans` | src/continuation/durable-continuation.ts:63-69 | the loop observes exactly the plan files of start-work runs that exist |
| `Coordinator.CommitDecision` | src/continuation/durable-continuation.ts:76-125 | commit and the checks of its answer hand back a continue exactly when the commit went through |
| `ContinuationBound.PotentialStep` | src/state/runtime-progress-transition.ts:136-175 | every accepted coordinator event pays for the continue it emits out of the loop's potential |
| `ContinuationBound.LoopContinuesBounded` | src/continuation/continuation-coordinator.ts:141-195 | over any notifications, cuts and repairs a loop with N unsettled criteria is continued at most 2(N+1) times |
| `ContinuationBound.TwoContinuesWithoutProgress` | src/continuation/continuation-coordinator.ts:64-69 | while the progress revision stands still a run of either workflow is continued at most twice |
| `ContinuationBound.BoundStopsContinuing` | src/continuation/continuation-coordinator.ts:64-69 | at the bound the next decision on a fresh leaf is stuck or settled |
| `MigrationProofs.VerdictIff` | src/state/migration.ts:316-343 | a listing is migrated if and only if the directory is convertible, whatever order the listing has |
| `MigrationProofs.VerdictCodes` | src/state/migration.ts:316-343 | the answers other than migrating: unknown schema exactly for a record of a future version, already current exactly when every record is |
| `MigrationProofs.PublishedInStages` | src/state/migration.ts:81-92 | the rest is published before runs and events, those before teams, those before the index |
| `MigrationProofs.RecoveryFailsIff` | src/state/migration.ts:146-163 | recovery gives up, without writing, if and only if the journal is malformed or, past the backups and not complete, a backup is not its source |
| `MigrationProofs.OrderedMembers` | src/state/migration.ts:88-92 | ordering by rank keeps exactly the listed paths |
| `MigrationProofs.ActiveIsLast` | src/state/migration.ts:81-92 | the active index is published last |
| `MigrationProofs.RestoreSafe` | src/state/migration.ts:174-207 | a restore cut anywhere keeps the directory recoverable and, finished, gives back the source |
| `MigrationProofs.FinalizeSafe` | src/state/migration.ts:228-257 | finalizing ends with the whole target committed or the whole source restored |
| `MigrationProofs.RecoverSafe` | src/state/migration.ts:259-283 | recovery from any state of the protocol succeeds, is safe at every cut, and ends wholly source or wholly target |
| `MigrationProofs.MigrateSafe` | src/state/migration.ts:290-415 | a migration is safe at every cut and, when it succeeds, ends with the target and a committed journal |
| `MigrationProofs.PreflightSafe` | src/state/transaction-store.ts:143-177 | preflight is safe at every cut and converts a directory with an active index |
| `MigrationProofs.EveryRunKeepsInv` | src/state/migration.ts:290-415 | after any sequence of migrations, recoveries and preflights cut anywhere, every live record is its source or its target and the journal's phase says which |
| `MigrationProofs.MigrationAllOrNothing` | src/state/migration.ts:174-283 | from every such state one uninterrupted recovery leaves the live records wholly source or wholly target |
| `MigrationProofs.FastPathMeansConverted` | src/state/transaction-store.ts:158-166 | in every such state the fast path implies that every record is converted |
| `MigrationProofs.PreflightConverges` | src/state/transaction-store.ts:143-177 | from every such state one uninterrupted preflight ends with every record converted, except exactly that without an active index it does nothing |
| `MigrationProofs.ConvertedIndexPublishedLast` | src/state/migration.ts:384-396 | while publishing is cut anywhere, a converted active index means every record is converted |
| `MigrationProofs.CommittedJournalRollsBackLaterWrites` | src/state/migration.ts:228-257 | a committed journal finalizes exactly when every record is still its marked target; otherwise a restore puts every journaled record back to its source bytes |
| `StateDirectory.Directory.Persist` | src/state/migration.ts:135-144 | one atomic write of the protocol, or death before it |
| `StateDirectory.Directory.Restore` | src/state/migration.ts:174-207 | verifies the backups, then rewrites the live records in rank order and removes the journal, as intended for every crash point |
| `StateDirectory.Directory.Finalize` | src/state/migration.ts:228-257 | commits the journal or restores, as intended for every crash point |
| `StateDirectory.Directory.Recover` | src/state/migration.ts:259-283 | discards an unpublished journal or finalizes, as intended for every crash point |
| `StateDirectory.Directory.CopyBackup` | src/state/migration.ts:359-366 | one record truncated, copied and verified, or the crash in between |
| `StateDirectory.Directory.CopyBackups` | src/state/migration.ts:359-366 | the backup loop makes exactly the intended writes up to the crash |
| `StateDirectory.Directory.StageRecords` | src/state/migration.ts:369-378 | the staging loop makes exactly the intended writes and every staged record verifies |
| `StateDirectory.Directory.PublishRecord` | src/state/migration.ts:384-396 | one staged record verified, published and journaled, or the crash in between |
| `StateDirectory.Directory.PublishStaged` | src/state/migration.ts:384-396 | the publishing loop writes each record and journals it, in order, up to the crash |
| `StateDirectory.Directory.Prepare` | src/state/migration.ts:354-378 | journal, backups and staging as one intent |
| `StateDirectory.Directory.PublishAndCommit` | src/state/migration.ts:379-409 | publishing, marker and committed journal as one intent |
| `StateDirectory.Directory.Migrate` | src/state/migration.ts:290-415 | the whole migration performs its intent for every crash point |
| `StateDirectory.Directory.Retry` | src/state/transaction-store.ts:173-176 | recover and migrate once more, for every crash point |
| `StateDirectory.Directory.FirstTry` | src/state/transaction-store.ts:171-172 | a first migration that its own deadline may stop after any write, for every crash point |
| `StateDirectory.Directory.Attempt` | src/state/transaction-store.ts:171-176 | migrate and, if that failed or ran out of time, recover and migrate again, for every crash point |
| `StateDirectory.Directory.Preflight` | src/state/transaction-store.ts:143-177 | the whole preflight performs its intent for every crash point and every deadline of its first migration |
| `TaskLedger.Sidecar.constructor` | src/gates/task-sidecar-store.ts:163-193 | opens what the ledger file holds |
| `TaskLedger.Sidecar.Merge` | src/gates/task-sidecar-store.ts:95-139 | the loop collects exactly the facts not yet recorded, or reports the conflict |
| `TaskLedger.Sidecar.Transact` | src/gates/task-sidecar-store.ts:55-93 | a transaction appends every novel fact of the decision or leaves the ledger alone |
| `TaskLedger.Sidecar.Perform` | src/gates/task-event-ledger.ts:68-245 | an operation decides on the ledger as it is and appends what it decides, whole or not at all |
| `TaskLedger.Sidecar.Adopt` | src/workflows/workflow-control.ts:80-92 | adoption moves the run to the next owner epoch and keeps the ledger |
| `TaskScope.ScopeConflictIff` | src/gates/task-sidecar-store.ts:141-161 | on a healthy store a session's scope conflicts if and only if the session holds entries of both workflows; otherwise it is its one listed run, or nothing |
| `TaskScope.TaskStore.constructor` | src/gates/task-sidecar-store.ts:163-189 | no ledger file yet |
| `TaskScope.TaskStore.Operate` | src/gates/task-sidecar-store.ts:55-93 | a session's operation changes only the ledger of the run it resolves to, under that run's owner, and nothing without such a run |
| `TaskScope.EveryLedgerKeepsInv` | src/gates/task-sidecar-store.ts:55-161 | over any sessions' operations, with runs changing hands between them, every run's ledger keeps its invariant |
| `TaskLedgerProofs.EveryRunKeepsInv` | src/gates/task-ledger-codec.ts:123-142 | over any actions by any owners: sequences 1..n, fact keys unique per owner epoch, and each entry justified by the ledger it was appended to |
| `TaskLedgerProofs.StepAppendsAllOrNothing` | src/gates/task-sidecar-store.ts:55-139 | a transaction only appends, and if it appends anything then every fact of the decision is recorded afterwards |
| `TaskLedgerProofs.EveryReceiptAuthorized` | src/gates/task-receipt-writer.ts:30-159 | every receipt was appended under an authorization of its call made in the generation still current, whose targets were all owned |
| `TaskLedgerProofs.BoundIdentities` | src/gates/task-ledger-view.ts:76-112 | a bound generation has exactly one runtime identity per binding, with the binding's job or the job a receipt returned |
| `TaskLedgerProofs.CompleteSnapshotCovers` | src/gates/task-receipt-writer.ts:50-99 | a complete snapshot names every agent bound at the generation |
| `TaskLedgerProofs.ProvenCapabilityIsReal` | src/gates/task-ledger-view.ts:114-122 | if the capability is proven, every agent bound at the current generation has a job receipt and every identity has a job id |
| `TaskLedgerProofs.FanOutBounded` | src/gates/task-event-ledger.ts:68-88 | no owner epoch ever reserves more items than the fan-out limit |
| `LedgerOrigins.EveryFactWasReported` | src/gates/task-receipt-writer.ts:50-159 | over any run every entry came from an action of its owner that reported just that: cancelled jobs were done, deliveries have their outcome, job receipts are the snapshot's task jobs |
| `LedgerOrigins.MatchIff` | src/gates/task-receipt-writer.ts:30-48 | a result matches exactly the authorization of its call, control and input in the current generation |
| `LedgerOrigins.MismatchIff` | src/gates/task-receipt-writer.ts:30-48 | otherwise it is stale if such an authorization is of another generation, and uncorrelated if there is none |
| `LedgerOrigins.CancellationIff` | src/gates/task-receipt-writer.ts:101-132 | a cancellation is recorded if and only if its authorization is current and every target was reported done |
| `LedgerOrigins.IrcIff` | src/gates/task-receipt-writer.ts:134-159 | deliveries are recorded, as reported, if and only if the authorization is current, there are as many as distinct targets, and each went to one |
| `LedgerOrigins.SnapshotIff` | src/gates/task-receipt-writer.ts:50-99 | a snapshot is recorded if and only if it is authorized now and its task jobs are exactly the agents of the generation; authorized but incomplete is observed as such |
| `LedgerOrigins.GenerationIff` | src/gates/task-ledger-view.ts:38-44 | the generation is the number of the owner's newest reservation or binding |
| `LedgerOrigins.OwnedIff` | src/gates/task-ledger-view.ts:76-112 | a target is owned if and only if the current generation is a binding that reaches it: agents by name, jobs by the bound name or once a receipt has shown them |
| `LedgerOrigins.CapabilityIff` | src/gates/task-ledger-view.ts:114-122 | the capability is what the last observation of the current generation says, unknown without one |
| `LedgerOrigins.ReserveIff` | src/gates/task-event-ledger.ts:68-88 | exactly when a reservation is made, replayed, over the limit or in conflict |
| `LedgerOrigins.BindIff` | src/gates/task-event-ledger.ts:98-142 | identities are bound if and only if the call is reserved, they fit it and it has none; exactly what is appended |
| `LedgerOrigins.AuthorizeIff` | src/gates/task-event-ledger.ts:144-174 | control is authorized if and only if the current binding reaches every target |
| `LedgerOrigins.HubWaitIff` | src/gates/task-event-ledger.ts:176-218 | waiting is authorized if and only if the current binding reaches every job and agent |
| `LedgerOrigins.MergeConflictIff` | src/gates/task-sidecar-store.ts:95-139 | a merge conflicts if and only if a fact contradicts the ledger or repeats the key of a new one |
| `AcceptanceLedger.Ledger.constructor` | src/contracts/worker-acceptance-ledger.ts:352-401 | missing files read as an empty ledger |
| `AcceptanceLedger.Ledger.ReadAll` | src/contracts/worker-acceptance-ledger.ts:352-401 | the merging loop returns the merged entries or the error of the first divergence |
| `AcceptanceLedger.Ledger.Accept` | src/contracts/worker-acceptance-ledger.ts:262-317 | log first, snapshot second, as intended for every crash point |
| `AcceptanceLedger.ReadReturnsLog` | src/contracts/worker-acceptance-ledger.ts:352-401 | a read returns exactly the log's entries, never diverged and never malformed |
| `AcceptanceLedger.AcceptShape` | src/contracts/worker-acceptance-ledger.ts:262-317 | an accept is a malformed result, a replay, a duplicate, a full log, or one entry appended to log and snapshot |
| `AcceptanceLedger.AcceptKeepsInv` | src/contracts/worker-acceptance-wal.ts:44-67 | no cut of an accept breaks the invariant, and it raises an error only for a malformed result or a full log |
| `AcceptanceLedger.ReadsSurviveCrashes` | src/contracts/worker-acceptance-ledger.ts:352-401 | from an empty ledger after any cut accepts a read returns the log's entries, numbered 1..n with distinct keys |
| `AcceptanceLedger.RetryIsReplayed` | src/contracts/worker-acceptance-ledger.ts:262-317 | retrying a cut accept is replayed without a second entry; a result that differs in any recorded field under the same key is a duplicate |
| `AcceptanceProofs.AcceptIff` | src/contracts/worker-acceptance-ledger.ts:262-317 | exactly when a result is accepted, replayed or a duplicate: presentable, key new or its entry recording just this result, room in the log |
| `AcceptanceProofs.AcceptedIsRead` | src/contracts/worker-acceptance-ledger.ts:275-285 | after an accept, cut or not, a read ends in an entry with every field of the result |
| `AcceptanceProofs.AcceptedIsCurrent` | src/state/receipt-authority.ts:53-79 | a version 2 result accepted for a run's owner, epoch, head and attempt is what the receipt authority of its generation returns for its task |
| `AcceptanceProofs.RetryRepeatsIff` | src/contracts/worker-acceptance-ledger.ts:286-291 | a retry is a replay if and only if it repeats every recorded field |
| `AcceptanceProofs.MergeIff` | src/contracts/worker-acceptance-ledger.ts:381-401 | a snapshot and a numbered log diverge if and only if they disagree where they overlap; otherwise the longer one is the ledger |
| `AcceptanceProofs.ReadIsSound` | src/contracts/worker-acceptance-ledger.ts:352-401 | whatever the files hold, a version 2 read that succeeds is numbered 1..n with distinct keys of this run, and an oversized log is never read |
| `Glob.SegmentMatch` | src/context/rules-assembly.ts:116-140 | the backtracking loop terminates; a reported match is meant, and without a star in the segment the answer is the meaning |
| `Glob.GlobMatch` | src/context/rules-assembly.ts:85-111 | the loop with its recursion decides matching of segment lists with `**` |
| `Glob.MatchGlob` | src/context/rules-assembly.ts:79-83 | the whole matcher is sound, and exact on paths without a star |
| `Glob.MatchesSound` | src/context/rules-assembly.ts:116-140 | greedy backtracking agrees with the recursive meaning of `*` and `?` on every segment without a star |
| `Glob.MatchesExactIff` | src/context/rules-assembly.ts:123-129 | it agrees on all patterns if and only if the segment has no star |
| `Glob.OnlyDoubleStars` | src/context/rules-assembly.ts:108-111 | the closing loop accepts exactly leftovers of `**` |
| `Glob.PathMatchesSound` | src/context/rules-assembly.ts:85-111 | the same for segment lists under the declarative meaning of `**` |
| `Glob.PathMatchesExactIff` | src/context/rules-assembly.ts:85-140 | it agrees on all globs if and only if no segment of the path has a star |
| `Ordinal.CompareOrdinal` | src/contracts/task-packet-canonical.ts:5-12 | the sign of the result is the lexicographic order, and zero means equal |
| `Ordinal.LessTotal` | src/contracts/task-packet-canonical.ts:5-12 | that order is total, asymmetric and irreflexive |
| `Ordinal.LessTransitive` | src/contracts/task-packet-canonical.ts:5-12 | and transitive |
| `Ordinal.SortForgetsOrder` | src/contracts/task-packet-canonical.ts:32-34 | sorting permutations with distinct keys gives one result |
| `Ordinal.SortedUniqueIsStrict` | src/contracts/task-packet-canonical.ts:36-40 | comparing neighbours decides strict order of the whole list |
| `CanonicalJsonProofs.StringsReadBack` | src/contracts/task-packet-canonical.ts:14-17 | escaping (section 7 of RFC 8259, well-formed surrogates) loses nothing: a reader that stops at the closing quote gets the string back |
| `CanonicalJsonProofs.EscapesLittle` | src/contracts/task-packet-canonical.ts:14-17 | escaping is no longer than it must be: two characters for quote, backslash and the named controls, six for other controls and lone surrogates |
| `CanonicalJsonProofs.DecimalsUnambiguous` | src/contracts/task-packet-canonical.ts:14-16 | printed integers determine the integer and where it ends |
| `CanonicalJsonProofs.NoLeadingZero` | src/contracts/task-packet-canonical.ts:14-16 | integers print without a leading zero |
| `CanonicalJsonProofs.PrintUnambiguous` | src/contracts/task-packet-canonical.ts:14-26 | printed values determine the value and where it ends |
| `CanonicalJsonProofs.CanonicalIsPrint` | src/contracts/task-packet-canonical.ts:14-26 | the canonical text is the text of the value with every object's keys in order |
| `CanonicalJsonProofs.CanonicalFaithful` | src/contracts/task-packet-canonical.ts:14-26 | two values have the same canonical text if and only if they mean the same, property order being all that is ignored |
| `TaskPacketProofs.CompilationIgnoresOrder` | src/contracts/task-packet.ts:214-262 | compilation, refusals included, does not depend on the order of paths, references, tags or evidence requirements |
| `TaskPacketProofs.CompiledIsFixpoint` | src/contracts/task-packet.ts:214-262 | a compiled packet compiles to itself, with the same text and size |
| `TaskPacketProofs.CompiledShape` | src/contracts/task-packet.ts:124-160 | a compiled packet is settled, sorted, obeys every packet rule and fits its byte budget |
| `TaskPacketProofs.TextIdentifiesPacket` | src/contracts/task-packet.ts:246-262 | two packets have one text if and only if they are one packet |
| `PacketAcceptance.CompilesIff` | src/contracts/task-packet.ts:95-160 | an input compiles if and only if it is within the limits as decoded, every tag names a boundary, and its normalised form is within the limits and coherent |
| `PacketAcceptance.CandidateIs` | src/contracts/task-packet.ts:214-244 | what each field of the normalised form is |
| `PacketAcceptance.CanonicalTagsAre` | src/contracts/task-packet.ts:215-220 | the tags kept are the concrete ones if there are any, else all, in order |
| `PacketAcceptance.FitsBudgetIff` | src/contracts/task-packet.ts:246-262 | a compiling input is within budget if and only if the UTF-8 form of its text has no more bytes than its tier allows |
| `Bundle.VerifyTrialCardinality` | harness-eval/src/verifier.ts:113-132 | the nested loops pass exactly the bundles with the right count, scopes of their own and full coverage, and name the failure otherwise |
| `BundleProofs.TrialPassesIff` | harness-eval/src/verifier.ts:160-242 | with calls matched to their rows, a trial passes if and only if it is sound: scope, frozen routes and buckets, allowance of every actor, usage and deterministic proxy rows for every call, hashes, commits, token total and outcome |
| `BundleProofs.UsageAndProxyPassIff` | harness-eval/src/verifier.ts:157-245 | the whole check passes if and only if every trial is sound |
| `Bundle.VerifyTrialCalls` | harness-eval/src/verifier.ts:190-234 | the loop over a trial's calls returns the first failing call's code, or the total tokens its keys record |
| `Bundle.VerifyUsageAndProxy` | harness-eval/src/verifier.ts:157-245 | the loop over trials returns the first failing trial's code |
| `BundleProofs.TrialsExactlyOnce` | harness-eval/src/verifier.ts:113-132 | passing trials are scenario by profile by {1, 2, 3}, each exactly once, in scopes of their own |
| `BundleProofs.CallsPassIff` | harness-eval/src/verifier.ts:134-155 | calls pass if and only if workflow calls, usage rows and proxy rows are in bijection by key and the proxy rows are numbered 1..n |
| `BundleProofs.TokensReconcile` | harness-eval/src/verifier.ts:157-245 | in a passing bundle the trials' workflow tokens sum to the prompt and completion tokens of all usage rows |
| `RepoLock.EveryRunKeepsInv` | src/state/repo-lock.ts:59-124 | over every interleaving without overlapping releases of one handle, whoever is live made the file now at the path |
| `RepoLock.LockExcludes` | src/state/repo-lock.ts:88-124 | in every such interleaving at most one acquirer is between its create and its unlink |
| `RepoLock.OverlapBreaksExclusion` | src/state/repo-lock.ts:59-79 | the condition is needed: from every state with two overlapping releases some continuation has two acquirers live |
| `RepoLock.ReleaseSucceedsIff` | src/state/repo-lock.ts:59-79 | a release finds its own nonce if and only if its acquirer is still live |
| `RepoLock.HeldLockRefuses` | src/state/repo-lock.ts:98-117 | while someone is live no other create succeeds |
| `RepoLock.FreeLockIsTaken` | src/state/repo-lock.ts:88-117 | a free lock is taken by a fresh nonce, held with its own file, and free again after its release |
| `RepoLock.DoubleReleaseBreaksExclusion` | src/state/repo-lock.ts:59-79 | such an overlap is reachable, and two acquirers are then live at once |
| `RetrievalBudget.Guard.constructor` | src/gates/retrieval-budget-guard.ts:85-86 | a guard starts without sessions |
| `RetrievalBudget.Guard.Activate` | src/gates/retrieval-budget-guard.ts:88-99 | the packet already active keeps its state, another starts fresh, other sessions are untouched |
| `RetrievalBudget.Guard.Clear` | src/gates/retrieval-budget-guard.ts:101-103 | removes one session and nothing else |
| `RetrievalBudget.Guard.Authorize` | src/gates/retrieval-budget-guard.ts:105-125 | blocks terminal, repeated and over-budget calls, otherwise records the call as seen and pending; other sessions are untouched |
| `RetrievalBudget.Guard.Observe` | src/gates/retrieval-budget-guard.ts:127-159 | meters a pending call once and records the observation; other sessions are untouched |
| `RetrievalBudgetProofs.MeterIff` | src/contracts/retrieval-budget.ts:58-91 | metering succeeds if and only if the result is well-formed and fits, and then the budget stays valid |
| `RetrievalBudgetProofs.MeterCode` | src/contracts/retrieval-budget.ts:58-91 | which limit a refusal names |
| `RetrievalBudgetProofs.AnswerCosts` | src/gates/retrieval-budget-guard.ts:127-159 | the answer to a pending call costs one general call and, if it delivers content, one retrieval and its bytes; a refusal costs nothing and is terminal |
| `RetrievalBudgetProofs.EveryRunKeepsBudget` | src/gates/retrieval-budget-guard.ts:105-159 | over every interleaving: general plus pending calls within the tier, calls and bytes equal to what the observations delivered, no call id metered twice |
| `RetrievalBudgetProofs.MeteringNeverOverrunsGeneral` | src/contracts/retrieval-budget.ts:58-91 | metering a pending call never reports a spent general budget or a malformed budget |
| `RetrievalBudgetProofs.TerminalFreezes` | src/gates/retrieval-budget-guard.ts:105-159 | after a terminal code no further step changes the session |
| `RetrievalBudgetProofs.DeliveredWithinTier` | src/contracts/task-packet.ts:53-72 | what was delivered and what is pending never exceeds the tier's allowance |
| `RetrievalBudgetProofs.PerformOp` | src/gates/retrieval-budget-guard.ts:85-159 | the guard's four methods are the steps of the machine below |
| `RetrievalBudgetProofs.SessionIsItsActivation` | src/gates/retrieval-budget-guard.ts:85-159 | however sessions interleave, activate and clear, a session's state is the run of its current activation alone |
| `RetrievalBudgetProofs.EverySessionWithinBudget` | src/gates/retrieval-budget-guard.ts:85-159 | over every run of the guard every session keeps the budget invariant of its activation |
| `RetrievalBudgetProofs.CarriesOverIff` | src/gates/retrieval-budget-guard.ts:88-103 | a session's counters carry over a step if and only if the step neither clears the session nor activates another packet in it |
| `RetrievalBudgetProofs.SwitchingPacketsRestartsTheBudget` | src/gates/retrieval-budget-guard.ts:88-99 | a run of the guard in which a spent packet is activated again after another one and has nothing spent |

## Left out

- File I/O, path containment, symlink and realpath checks and rename retries (`src/state/atomic-file.ts`, `src/state/paths.ts`): a replace or create is one atomic step.
- JSON decoding, schema field formats, UUIDs and timestamps: the model starts from decoded values, with identifiers already trimmed; the decoders' cross-field rules for runs, events and indexes are modelled.
- Composite string keys (fact keys, call keys, trial keys) are tuples; SHA-256 is injective.
- The plan parser and git: a plan snapshot and the observed head are inputs.
- `remainingTaskIds` of a plan reconciliation, which no reducer reads.
- Event kinds that disagree with their mutation's kind, refused by the schema before the store sees them.
- History copies of journals, and the removal of migration artifacts after success.
- Other writers between a migration crash and its recovery, beyond what `MigrationProofs.CommittedJournalRollsBackLaterWrites` says of a committed journal.
- `localeCompare` in the ordering of migration paths is an arbitrary total order within a rank.
- Operator clearing of a stale lock, and lock waiting times.
- RepoLock: its operations are steps on values, not methods, because its property is about their interleaving; the retry loop of an acquire is a sequence of create steps with fresh nonces.
- EventStore: the log is a sequence; reading it back checks decoding and numbering, but the directory listing and the in-place sort are not modelled.
- TransactionStore.EventSemantics: compares values, where the source compares JSON texts, so there the order of properties counts too; an event rebuilt in another property order than the decoder returns, as a coordinator event would be, is then a conflict rather than a replay.
- TransactionStore.Store.Commit: waiting for the repository lock is not modelled; the operation starts once it is held.
- TaskLedger.Sidecar.Transact: takes the decision and the owner as given; `TaskScope.TaskStore.Operate` finds both from the session.
- TaskLedger.DecideSnapshot and the other decisions are functions of the ledger, as the source's closures are; the `facts` array that a bind pushes onto is a sequence value.
- WorkerAcceptanceLedger.reject: counting rejections would only add an easy member.
- Task packets: `String.prototype.normalize`, `trim`, `toLowerCase` and path inspection are parameters with the laws Unicode gives them (idempotence, trimmed text stays trimmed under NFC, the tag names are fixed).
- Canonical JSON of fractions and of integers of 10^21 and above, which print with an exponent; packets carry only integers far below that.
- Bundle: the manifest checks and the cost check compare with constant tables and would only add easy members; the tables are parameters. Sums are unbounded integers.
- `Bundle.VerifyCalls`, `RetrievalBudget.Meter` and the reducers are functions; what they guarantee is stated by the lemmas about them.
- Rule assembly beyond the matcher, teammode, host registration, status line, activation prompts, commands and release scripts.
