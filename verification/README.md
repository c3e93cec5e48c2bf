# Verified model of the codev deployment runtime

The deployment runtime of codev changes a host through protocols that may be cut off after any single step and
started again: control leases, transaction journals, the generation state, the systemd installation, the
ownership migration of observation artifacts, content-addressed builds, rollback manifests and the index table.
This project models those protocols in Dafny, in the form the program has them (stores as classes whose methods
write one file at a time, checks as loops or predicates), and proves what they promise over whole runs.

`dafny verify dfyconfig.toml` checks everything.

## The parts

| files | what they model |
|---|---|
| `Wrappers`, `ControlRecords` | `Option`, `Result`; lease records, journals, evidence. SHA-256 is free: a digest is a term that holds what was hashed, so it is injective |
| `ControlLeaseLineage` | recovery edges, lineages, anchors and event windows |
| `LeaseProtocol`, `LeaseSafety` | the four file operations of a lease transition as a step system, its invariant, and what holds over every run |
| `ControlLeaseStore` | the store itself: a class with the files `current`, `pending` and `history` and a number of writes that still complete. A ghost trace ties every method to the step system |
| `TransactionJournal`, `TransactionRecords` | journals that grow in lockstep; reservations, journals, envelopes, frozen attempts and evidence, and the moves that write them |
| `ControlPlane`, `ControlPlaneSafety`, `EvidenceLineage`, `ControlPlaneReachability` | leases and records together: the steps, the invariant, what holds over every run, and runs that exist |
| `GateRuns`, `TransactionStore`, `StoreRuns` | the stores on one disk, whose every file write a ghost run follows, and whole attempts carried out by them |
| `GenerationTransitions`, `GenerationEdges`, `GenerationState` | the five modes and their exact successors, the same edges told from the records alone, and the compare-and-swap |
| `GenerationPlane`, `GenerationRuns` | runs of control plane and swaps together, and whole deployments |
| `InstallPlan`, `InstallCoverage`, `InstallApply` | the lifecycle policy, the frozen compensation plan, and its effect from any point of the apply phase |
| `InstallHost`, `InstallPrepare`, `InstallCompensation`, `InstallTransaction` | the installation on a hostile host: every port call may raise, signals may arrive during every call, a changing call that raises leaves any state, one that returns may not have done its work |
| `ArtifactAccess`, `Framing`, `TreeEvidence` | the ownership migration, and the byte string its evidence hashes |
| `Ordering`, `FdTreeSnapshot` | the layered identity digest of a directory tree |
| `RuntimeBase` | the build of a base under its `.incomplete` marker, on a disk that may lose what was not synchronised |
| `RollbackPayload` | rollback manifests and path conflicts |
| `IndexManifest` | fenced publication into the index table, replay, frozen dependencies, freshness |

## What the proofs found

* **Epoch 129 is a dead end.** The store recovers a lease at epoch 128 to epoch 129, but rebuilds at most 128
  records of a lineage. The lease store with nothing pending has no further step exactly if its lease is active
  at epoch 129 (`LeaseSafety.StoreIsStuckIffEpoch129`), and then no scope verifies
  (`LeaseSafety.NoScopeAtEpoch129`). That state is reached from the start
  (`ControlPlaneReachability.DeadEndIsReached`) and by takeovers from every state with an active lease
  (`ControlPlaneReachability.HigherEpochsAreReached`), and the control plane never leaves it: the lease, the active
  envelope and the journal of the attempt stand still for good, and no other attempt can be activated
  (`ControlPlaneSafety.DeadEndIsForever`).
* **The bootstrap is what makes leases unique.** The lease store alone compares a new initial lease with the attempt
  retired last only, while fencing needs that no attempt gets a second one (`LeaseSafety.EpochFallsBackIffReissued`).
  The control plane sees to that: an envelope is activated over an empty journal only and cleared over a completed one, so that every attempt
  has one initial lease at most (`ControlPlaneSafety.EachAttemptIsIssuedOnce`), and fencing holds without any condition
  (`ControlPlaneSafety.StaleScopesStayFenced`, `ControlPlaneSafety.RetiredAttemptsStayRetired`).
* **No decision ever blocks the stores.** A recovery is refused if the pending decision does not validate any more; in
  no state that the control plane can come to is that so (`ControlPlaneSafety.DecisionsStayValid`).
* **A swallowed lock failure is reported too mildly.** A failure to leave the binding lock is meant to end as
  "safety unproven" even if the compensation is proven. If everything else goes well it does so exactly if the
  installer lock does not swallow the exception on its way out (`InstallTransactions.InstallGuarded`), and
  `InstallTransactions.SwallowedScopeFailure` is a run that ends with an ordinary failure. The components are
  restored all the same. The three installer locks that are shipped all raise the exception of the body again
  (codev_platform/mcp_systemd_install_systemd.py:183-272), so only an installer lock injected by a caller can do this.
* **A first installation that fails early cannot prove its own rollback.** Compensation disables units that did
  not exist before, and the service manager refuses that for a unit without a file. The components are always
  restored, but the rollback counts as proven exactly if all new units with a captured state had been written
  already (`InstallApply.ApplyCanBeUndoneAnywhere`).
* **"Idempotent" may write.** Replaying an attempt that was recorded by builder version 2 under version 3 returns
  "idempotent" and lifts the row (`IndexManifests.IdempotentMayWrite`), and nothing else that is "idempotent" writes
  (`IndexManifests.IdempotentWritesIffMigration`).
* **A retirement may raise an exception that is not the store's.** The time of a retirement is compared with the
  completion, and not with the current lease. If a takeover came later than the given time, the constructor of the
  tombstone raises, and the store passes that on as it is: exactly under `ControlLeaseStores.Untimely`
  (`TransactionStores.RuntimeTransactionStore.RetireCurrent`); `StoreRuns.RetirementEscapes` is such a run.
* **"Safety unproven" can be lost after the transaction.** The outcome is kept against terminations only. It is
  replaced exactly if the caller's SIGINT handler cannot be set back because it was not installed from Python, or
  raises anything but a termination after the guard has been closed, or raises once more while a termination is being
  handled (`InstallTransactions.Install`, `InstallTransactions.UnprovenMayBeDisplaced`).

## Model

| member | source | states |
|---|---|---|
| ControlLeaseLineage.VerifyActiveLineage | codev_platform/runtime_control_lease_lineage.py:95-112 | the loop accepts exactly the sequences of 1 to 128 active records that start at epoch 1 without predecessor and are linked by recovery edges |
| ControlLeaseLineage.VerifyAnchorAncestor | codev_platform/runtime_control_lease_lineage.py:130-152 | finds the record of the current lineage that carries the anchor, and fails exactly if there is none |
| ControlLeaseLineage.VerifyAnchorEventWindow | codev_platform/runtime_control_lease_lineage.py:155-188 | an event is accepted exactly if some record of the lineage carries the anchor and the event lies in that record's window |
| ControlLeaseLineage.LineageAscends | codev_platform/runtime_control_lease_lineage.py:64-112 | epochs and issue times ascend between every pair of records of a lineage, not only between neighbours; neighbours are linked by digest and have different tokens |
| ControlLeaseLineage.NextSuccessorSuffices | codev_platform/runtime_control_lease_lineage.py:178-188 | comparing an event with all later records is the same as comparing it with the next one |
| ControlLeaseLineage.LineageIsUnique | codev_platform/runtime_control_lease_lineage.py:115-127 | a current lease has at most one verified lineage: the digests of the predecessors fix it record by record |
| ControlLeaseLineage.EventWindowsAreDisjoint | codev_platform/runtime_control_lease_lineage.py:155-188 | under one current lease an event time is accepted for at most one lease, whatever anchors and lineages are offered |
| ControlLeaseLineage.EveryLaterInstantHasAWindow | codev_platform/runtime_control_lease_lineage.py:155-188 | the windows of a lineage cover all later times except the issue instants themselves |
| ControlLeaseLineage.EdgesExcludeDuplicates | codev_platform/runtime_control_lease_lineage.py:95-112 | the explicit check for duplicate digests can never be the one that fails |
| LeaseProtocol.RunKeepsInv | codev_platform/runtime_control_lease_persistence.py:112-293 | in every reachable state current is the record issued last, history holds all issued records and at most the pending one besides, and a pending decision sits just before or just after its publication |
| LeaseProtocol.LineageIsIssueOrder | codev_platform/runtime_control_lease_transition_recovery.py:127-171 | a lineage read back from history is exactly the run of issues that ends with the lease, and its length is the epoch |
| LeaseProtocol.LineageIffWithinLimit | codev_platform/runtime_control_lease_transition_recovery.py:127-171 | an issued active record has a lineage exactly if its epoch is at most 128 |
| LeaseProtocol.IssuedTombstoneVerifies | codev_platform/runtime_control_lease_transition_recovery.py:272-295 | every tombstone ever issued still verifies: its active record and that record's lineage can be read back |
| LeaseSafety.CurrentIsExpectedOrNext | codev_platform/runtime_control_lease_transition_recovery.py:91-109 | while a decision is pending, current is exactly its expected or its next record, so the branch for "neither" is unreachable; once published, next is in history |
| LeaseSafety.RecordsAreImmutable | codev_platform/runtime_control_lease_persistence.py:219-249 | over every run issued records and history files are never lost or changed |
| LeaseSafety.StepsRefineAtomicIssue | codev_platform/runtime_control_lease_persistence.py:112-184 | the file operations refine one indivisible issue: making the decision durable is the commit point, and the rest changes nothing of the settled state |
| LeaseSafety.DecisionIsNeverAborted | codev_platform/runtime_control_lease_transition_recovery.py:91-109 | a durable decision is, at every later point, still pending for the same place in issue order or issued exactly there |
| ControlPlaneSafety.StaleScopesStayFenced | codev_platform/runtime_control_scope_verifier.py:51-95 | once a takeover is decided, no scope of an earlier epoch of that attempt verifies again in any later state, across crashes |
| ControlPlaneSafety.TakenOverTokenOpensNothing | codev_platform/runtime_control_lease_transition.py:195-217 | the token of a lease that has been taken over opens no scope under its successor |
| LeaseSafety.EpochsAscendUnlessReissued | codev_platform/runtime_control_lease_transition.py:195-217 | without another initial lease a later active record of the attempt has a higher epoch |
| LeaseSafety.EpochFallsBackIffReissued | codev_platform/runtime_control_lease_transition.py:177-192 | the epoch of an attempt falls back exactly if an initial lease was issued for it again |
| LeaseSafety.NoRecordReturnsIffInitialsAreFresh | codev_platform/runtime_control_lease_transition.py:177-192 | no record is current a second time exactly if every published initial lease had no history file when it was decided |
| ControlPlaneSafety.EachAttemptIsIssuedOnce | codev_platform/runtime_transaction_store.py:285-322 | over every run each attempt is issued one initial lease at most, and no lease record is issued twice |
| ControlPlaneSafety.RetiredAttemptsStayRetired | codev_platform/runtime_control_lease_transition_recovery.py:173-190 | no scope of an attempt verifies in any state after its retirement |
| ControlPlaneSafety.InitialIffNeverIssued | codev_platform/runtime_fencing_store.py:90-131 | with nothing pending an initial lease is granted exactly to an active attempt that was never issued one |
| ControlPlaneSafety.DecisionsStayValid | codev_platform/runtime_control_lease_transition_recovery.py:297-342 | a durable decision validates in every state of every run, so that no recovery is ever refused |
| ControlPlaneSafety.CleanupIsNeverStuck | codev_platform/runtime_transaction_controlled_store.py:387-467 | after a retirement the envelope can be cleared exactly as long as it is that of the retired attempt |
| ControlPlaneSafety.DeadEndIsForever | codev_platform/runtime_control_lease_transition_recovery.py:127-171 | from epoch 129 on the lease, the active envelope, the journal and the evidence of the attempt never change again |
| ControlPlaneReachability.HigherEpochsAreReached | codev_platform/runtime_fencing_store.py:133-183 | from every state with an active lease, every higher epoch up to 129 is reached by takeovers |
| ControlPlaneReachability.DeadEndIsReached | codev_platform/runtime_fencing_store.py:133-183 | a run from the start, bootstrap included, ends in the dead end, and no run that continues it leaves it |
| StoreRuns.TerminalsExist | codev_platform/runtime_transaction_terminal.py:164-233 | every active lease with a lineage has valid terminal records under which it may be retired |
| StoreRuns.RunAttempt | codev_platform/runtime_transaction_store.py:102-177 | from every state with nothing pending and nothing active, every new attempt can be carried through from its reservation to the cleanup of its envelope |
| StoreRuns.RetirementEscapes | codev_platform/runtime_fencing_store.py:230-257 | a retirement whose time lies between completion and takeover ends with an exception that the store does not translate |
| LeaseSafety.StoreIsStuckIffEpoch129 | codev_platform/runtime_control_lease_transition.py:195-248 | a reachable state without pending decision is a dead end exactly at an active lease of epoch 129 |
| LeaseSafety.NoScopeAtEpoch129 | codev_platform/runtime_control_scope_verifier.py:51-95 | at epoch 129 no scope verifies, whoever holds the token |
| LeaseSafety.ScopeExistsWithinLimit | codev_platform/runtime_control_scope_verifier.py:51-95 | otherwise the holder of the token of the current lease does get a scope that verifies |
| ControlLeaseStores.ControlLeaseStore.PreparePendingTransition | codev_platform/runtime_control_lease_persistence.py:112-141 | exclusive creation: a present intent is accepted only if it is the same, and nothing else changes |
| ControlLeaseStores.ControlLeaseStore.FreezeHistory | codev_platform/runtime_control_lease_persistence.py:219-249 | adds exactly the history file of the pending record, or finds it there; never refuses in a reachable state |
| ControlLeaseStores.ControlLeaseStore.CompareAndSwapCurrent | codev_platform/runtime_control_lease_persistence.py:251-293 | publishes exactly if the record is frozen and current is still the expected record |
| ControlLeaseStores.ControlLeaseStore.ClearPendingTransitionExact | codev_platform/runtime_control_lease_persistence.py:163-184 | removes the pending file exactly if it holds this intent |
| ControlLeaseStores.ControlLeaseStore.FinalizePendingTransition | codev_platform/runtime_control_lease_persistence.py:143-161 | if it returns, next is current and in history and nothing is pending; if it is cut off after any write, the decision is still there and settles to the same state |
| ControlLeaseStores.ControlLeaseStore.ActiveLineageOf | codev_platform/runtime_control_lease_transition_recovery.py:127-171 | the backward walk finds a lineage exactly if there is one |
| ControlLeaseStores.ControlLeaseStore.VerifyRetiredTombstone | codev_platform/runtime_control_lease_transition_recovery.py:272-295 | accepts exactly the tombstones whose active record and lineage are in history |
| ControlLeaseStores.ControlLeaseStore.RequireTerminals | codev_platform/runtime_control_lease_transition_recovery.py:202-270 | accepts exactly if the persisted journal and evidence of the attempt bind to the lease, its lineage and the retirement time |
| ControlLeaseStores.ControlLeaseStore.ValidateIntent | codev_platform/runtime_control_lease_transition_recovery.py:297-342 | decides exactly whether a pending intent may be completed |
| ControlLeaseStores.PendingAdmittedIffBootstrapFits | codev_platform/runtime_control_lease_transition_recovery.py:297-342 | in a reachable state that depends on the bootstrap and the terminal records alone: nothing that happens to the lease files spoils a decision |
| ControlLeaseStores.ControlLeaseStore.Reconcile | codev_platform/runtime_control_lease_transition_recovery.py:91-109 | after any crash it returns with the settled state, refuses exactly if the pending intent no longer validates, and being cut off itself changes nothing of the settled state |
| ControlLeaseStores.ControlLeaseStore.AcquireInitial | codev_platform/runtime_fencing_store.py:90-131 | ends in one of: the lease issued in the settled state, a refusal exactly if it may not be issued or the store is blocked, or cut off before or after the commit point |
| ControlLeaseStores.ControlLeaseStore.TakeOver | codev_platform/runtime_fencing_store.py:133-183 | the same for a takeover of exactly the given current lease, one epoch higher, with another token and a later time |
| ControlLeaseStores.ControlLeaseStore.RetireCurrent | codev_platform/runtime_fencing_store.py:211-265 | the same for a retirement, given the proof of the lease and the persisted terminal records; an exception of the record constructor escapes exactly if all of that binds and the time is not later than the lease |
| ControlLeaseStores.ControlLeaseStore.Mutation | codev_platform/runtime_fencing_store.py:191-209 | grants a scope that verifies, in the settled state, exactly to the holder of the current lease up to epoch 128; refuses only such a caller or a blocked store, and is cut off only if the power does not last for three writes |
| ControlLeaseStores.ControlLeaseStore.TerminalCleanup | codev_platform/runtime_fencing_store.py:267-288 | granted exactly if the given tombstone is the settled current lease; it then verifies |
| ControlLeaseStores.ControlLeaseStore.Verify | codev_platform/runtime_control_scope_verifier.py:51-95 | accepts exactly the scopes that verify against the files |
| TransactionJournals.RequireJournalHistory | codev_platform/runtime_transaction_contract_validation.py:129-166 | the check with its table of newest actions accepts exactly the histories in which every step is prepared, applied and committed in turn, by one operation each; told field by field as well: owner, order of steps and states, times, the first revocation, and the lease audit of neighbours |
| TransactionJournals.OneLeasePerEpoch | codev_platform/runtime_transaction_contract_validation.py:312-332 | in a valid history one epoch means one token and one lease record, however far apart the actions are |
| TransactionJournals.NextIsLockstep | codev_platform/runtime_transaction_contract_validation.py:197-223 | one round of that check accepts exactly the lockstep continuation |
| TransactionJournals.RequireAllActionsCommitted | codev_platform/runtime_transaction_contract_validation.py:169-184 | accepts exactly if the newest action of every key is committed |
| TransactionJournals.CommittedIffWholeSteps | codev_platform/runtime_transaction_contract_validation.py:169-184 | a journal in lockstep has everything committed exactly if it ends on a whole step |
| TransactionJournals.DirectiveIsProgress | codev_platform/runtime_transaction_contract.py:241-256 | the recovery directive tells exactly how far the running step got |
| TransactionJournals.SuccessorOnlyAppends | codev_platform/_runtime_transaction_controlled_validation.py:229-245 | a replacement never rewrites an action, and a completed journal is replaced only by itself |
| TransactionJournals.VerifyTransactionCompletion | codev_platform/runtime_transaction_terminal.py:135-161 | accepts exactly the pairs of a completed journal and evidence that name each other |
| TransactionJournals.CompletedFromHead | codev_platform/runtime_transaction_terminal.py:50-132 | a successor of an active head completes it exactly if it is that head plus the terminal fields of the evidence |
| TransactionJournals.CheckTerminalBinding | codev_platform/runtime_transaction_terminal.py:164-233 | accepts exactly the terminal records under which the lease may be retired at that time |
| TransactionJournals.BindingNeedsSigningLease | codev_platform/runtime_transaction_terminal.py:164-233 | that asks for evidence that carries digest, epoch and token of a record of the lineage and was completed while that record was the newest |
| TransactionStores.RuntimeTransactionStore.ReserveAttempt | codev_platform/runtime_transaction_store.py:102-114 | refused exactly if the attempt is reserved already; otherwise just its digest is recorded |
| TransactionStores.RuntimeTransactionStore.WriteJournalGenesisOnce | codev_platform/runtime_transaction_store.py:208-231 | accepts exactly the empty genesis of a reservation, and with a journal in place only that journal's own genesis; nothing else changes |
| TransactionStores.RuntimeTransactionStore.WriteEnvelopeOnce | codev_platform/runtime_transaction_store.py:233-283 | accepts exactly the envelopes that name the reservation and the genesis of their attempt, while its journal is empty or if the same one is sealed already; then just that envelope is recorded |
| TransactionStores.RuntimeTransactionStore.PublishActiveEnvelopeIfAbsent | codev_platform/runtime_transaction_store.py:285-322 | activates exactly the sealed envelope of an attempt whose journal is still empty, if none is active |
| TransactionStores.RuntimeTransactionStore.RecoverPendingTransition | codev_platform/runtime_fencing_store.py:185-189 | with the records on the disk it is never refused: it settles the store unless the power ends |
| TransactionStores.RuntimeTransactionStore.AcquireInitial | codev_platform/runtime_fencing_store.py:90-131 | under the bootstrap context on the disk: issued exactly if it may be, or cut off around the commit point; every file operation is a step of the control plane |
| TransactionStores.RuntimeTransactionStore.RetireCurrent | codev_platform/runtime_fencing_store.py:211-265 | the same for a retirement with the terminal records on the disk, and exactly when an exception escapes |
| TransactionStores.RuntimeTransactionStore.WriteAttemptOnce | codev_platform/runtime_transaction_controlled_store.py:132-170 | refused exactly if the caller does not hold the settled lease, the attempt is not the active one or another digest is frozen; otherwise just this digest is recorded |
| TransactionStores.RuntimeTransactionStore.ClearTerminalEnvelope | codev_platform/runtime_transaction_controlled_store.py:387-467 | refused exactly if the tombstone is not the settled current lease or another attempt is active; every other check of the cleanup always passes |
| TransactionStores.RuntimeTransactionStore.AcceptsReplacement | codev_platform/_runtime_transaction_controlled_validation.py:131-268 | accepts exactly the head itself, the active head with more actions that all carry epoch, token and digest of the lease, and its completion by the evidence that names it |
| TransactionStores.RuntimeTransactionStore.CommitJournal | codev_platform/runtime_transaction_controlled_store.py:184-232 | in a verified scope exactly the accepted replacements are written; cut off before the write, nothing changes |
| TransactionStores.RuntimeTransactionStore.AcceptsEvidence | codev_platform/_runtime_transaction_controlled_validation.py:150-214 | new evidence is fixed but for its final state and its time: identity of the attempt, digest of the active head, epoch, token and digest of the current lease; afterwards only the same evidence is accepted |
| TransactionStores.RuntimeTransactionStore.WriteJournal | codev_platform/runtime_transaction_controlled_store.py:172-234 | refused exactly if the caller does not hold the settled lease or the replacement is not acceptable under it; cut off only without power for four writes; otherwise exactly the head of the active attempt is replaced |
| TransactionStores.RuntimeTransactionStore.WriteTerminalEvidenceOnce | codev_platform/runtime_transaction_controlled_store.py:277-342 | refused exactly if the caller does not hold the settled lease or the evidence is not the one that is fixed in this way; it is written once and nothing else changes |
| EvidenceLineage.FirstEvidenceIsSigned | codev_platform/_runtime_transaction_controlled_validation.py:198-214 | over every run the step that first writes evidence of an attempt writes it under the settled active lease of that attempt, with its digest, epoch and token, and for the journal head in place |
| EvidenceLineage.EvidenceIsSigned | codev_platform/runtime_transaction_controlled_store.py:277-342 | so in every state all evidence carries digest, epoch and token of an issued active lease of its own attempt |
| EvidenceLineage.EvidenceLiesOnLineage | codev_platform/runtime_transaction_terminal.py:164-233 | the evidence of the current attempt was signed under a lease of the current lineage, also after takeovers |
| TransactionRecords.ScopeKeepsRecords | codev_platform/_runtime_transaction_controlled_validation.py:217-268 | every write that a scope allows keeps the records of each attempt together, and every completed journal proven by its evidence |
| GateRuns.OneDecided | codev_platform/runtime_control_lease_persistence.py:112-184 | a call that has issued one record in effect has made one decision, for that record and in the settled state |
| ControlPlaneSafety.RecordsOnlyGrow | codev_platform/_runtime_transaction_controlled_validation.py:229-245 | over every run no record is lost or rewritten, a journal only gets actions at its end and stands still once completed |
| ControlPlaneSafety.StoredRecordsAreWellFormed | codev_platform/runtime_transaction_contract_validation.py:54-126 | in every state of every run each stored journal has a valid history of real changes within the limits, and the active envelope names the reservation and the genesis of its attempt |
| ControlPlane.PlaneRunKeepsInv | codev_platform/_runtime_transaction_controlled_validation.py:248-268 | over every run: whoever was issued a lease is active or has completed its journal, a tombstone names the completed records, an active attempt with a lease owns the current one, and each action carries the audit anchor of a lease issued before it, in ascending order of issue |
| ControlPlaneSafety.ActionsLieOnLineage | codev_platform/_runtime_transaction_controlled_validation.py:248-268 | the audit anchor of every action of the current attempt is accepted as an ancestor of the current lease, in the order of the lineage |
| ControlPlaneSafety.EpochsFollowTheLineage | codev_platform/runtime_control_lease_lineage.py:64-152 | epochs never decrease along the actions and grow exactly where a later lease took over |
| GenerationStates.GenerationStateStore.CompareAndSwap | codev_platform/_runtime_generation_store_state.py:101-143 | stores the desired state exactly if the expected state is current and the desired one follows it along one of five edges, each with exactly the records it needs; otherwise nothing changes |
| GenerationEdges.AcceptedIffMayFollow | codev_platform/_runtime_generation_store_state.py:145-288 | a swap is accepted exactly along these edges, told field by field and without the transition functions |
| GenerationEdges.SwitchEdgeIsExact | codev_platform/runtime_generation_state_transitions.py:41-84 | from public to switching exactly for the frozen attempt of the lease, made for the generation that is served, with a persisted target, by a holder whose lease is older than the new state |
| GenerationEdges.ValidateEdgeIsExact | codev_platform/runtime_generation_state_transitions.py:87-128 | from switching to validating exactly by the lease that bound the state or a recovery of it, if the state was stored while the binding lease was the newest; the new state is bound to the lease of the caller |
| GenerationEdges.CommitEdgeIsExact | codev_platform/runtime_generation_state_transitions.py:132-201 | from validating to staged exactly with a persisted fence and an acceptance made for it under a lease of the lineage, in the order of time, with a new fence name and a higher fence epoch |
| GenerationEdges.PublishEdgeIsExact | codev_platform/_runtime_generation_store_state.py:249-287 | from staged to public exactly with the one permit that was staged for the old state, and that permit names exactly the new state, its acceptance and its fence |
| GenerationEdges.HazardEdgeIsExact | codev_platform/runtime_generation_state_transitions.py:237-335 | to restricted or unproven exactly by the holder of the lease, of a recovery of the binding lease if the state is bound |
| GenerationRuns.Deploy | codev_platform/_runtime_generation_store_state.py:101-143 | from every public state that is not at the end of its versions or fence epochs, the holder of an active lease brings every other generation into service: four swaps, all accepted, end in the public state that serves it |
| GenerationRuns.DeploymentNeedsRoom | codev_platform/runtime_generation_state_transitions.py:404-407 | no public state ever follows one with less room than that |
| GenerationRuns.DeploymentIsReached | codev_platform/_runtime_generation_store_state.py:145-288 | every run of control plane and swaps in which a scope verifies while the state is public goes on to serve any other generation |
| GenerationStates.AcceptedSwapIsCycleStep | codev_platform/_runtime_generation_store_state.py:145-288 | every accepted swap is one of five edges of the cycle: version plus one, later time, and the serving part changes only when a validated generation is committed, with a higher fence epoch |
| GenerationStates.VersionsCountSwaps | codev_platform/runtime_generation_state_transitions.py:404-434 | over every run the version counts the swaps and the time ascends strictly |
| GenerationStates.HazardsAreNeverLeft | codev_platform/runtime_generation_state_transitions.py:237-335 | a restricted state is followed by nothing but "safety unproven", and that by nothing |
| GenerationStates.ModeIsPlaceOrHazard | codev_platform/runtime_generation_state_transitions.py:41-234 | without a hazard the number of swaps alone tells the mode |
| GenerationStates.PublicStatesAreOneCycleApart | codev_platform/runtime_generation_state_transitions.py:41-234 | two consecutive public states are four versions apart through switching, validating and staged; the later one serves what was desired and can roll back to the earlier |
| GenerationStates.FenceEpochsAscend | codev_platform/runtime_generation_state_transitions.py:132-201 | the fence epoch never goes back and no epoch is public twice |
| GenerationPlane.BindingsFollowIssueOrder | codev_platform/_runtime_generation_store_state.py:101-143 | over every run of the control plane and of swaps a bound state is bound to an issued lease, and the place of that lease in issue order never falls |
| GenerationPlane.SwapFollowsBinding | codev_platform/runtime_generation_state_control.py:96-142 | a bound state is swapped only while nothing but recoveries has followed the lease it is bound to, and it was stored between the issue of that lease and the next recovery |
| InstallPlans.StateTellsAll | codev_platform/mcp_systemd_install_prepare.py:179-191 | the captured state of a unit says exactly whether it has a file, is enabled and is running; a unit without a file that is enabled or running has none |
| InstallPlans.TouchedUnitsAreCaptured | codev_platform/mcp_systemd_install_policy.py:86-109 | every unit that an installation can enable or restart has its state captured first, and a maintenance stage captures no deferred unit |
| InstallPlans.StatesFollowFlags | codev_platform/mcp_systemd_install_policy.py:102-109 | the captured units are told by the flags of the manifest alone: in a passive installation those to enable, otherwise also those to restart, without the deferred ones in a stage |
| InstallPlans.EnablesFollowFlags | codev_platform/mcp_systemd_install_contract.py:245-247 | a unit is to be enabled exactly if its own flag is set and it is not deferred in a maintenance stage |
| InstallPlans.RestartsFollowFlags | codev_platform/mcp_systemd_install_contract.py:253-259 | a unit is to be restarted exactly if its own flag is set, nobody else is to activate it, and the mode is not passive |
| InstallPlans.ModeAdmitsIffFits | codev_platform/mcp_systemd_install_policy.py:65-84 | a normal installation has no unit of its own activation, and a stage has all three of them with both flags set |
| InstallPlans.OnlyArchivedShadowsMove | codev_platform/mcp_systemd_release_shadow.py:149-161 | a drop-in is moved back from its archive only; one that is neither as captured nor archived is left alone and fails the action |
| InstallPlans.ProofsCoverComponents | codev_platform/mcp_systemd_install_prepare.py:279-321 | the proofs of the frozen plan hold exactly if all frozen components are as captured |
| InstallCoverage.PlanBringsComponentsBack | codev_platform/mcp_systemd_install_prepare.py:209-322 | from any state that an apply phase can leave, a plan run without interference restores every component and reloads the manager, and is proven exactly under the condition on new units |
| InstallCoverage.RunShadowRestores | codev_platform/mcp_systemd_release_shadow.py:149-161 | restoring works for every mixture of retired and untouched drop-ins |
| InstallApply.PrefixKeepsFootprint | codev_platform/mcp_systemd_install_transaction.py:416-445 | after any number of apply steps the host is in such a state |
| InstallApply.ApplyCanBeUndoneAnywhere | codev_platform/mcp_systemd_install_prepare.py:209-322 | the plan frozen before the first write, started after any number of apply steps, restores every component; it is proven exactly if commands for absent units are tolerated or all new units with a captured state are written |
| InstallApply.ApplyInstalls | codev_platform/mcp_systemd_install_systemd.py:375-408 | all apply steps together install the manifest, files on disk and the manager's view of them, exactly if the verifier of the mode can accept the manifest under the mask as it is; exactly the units whose flags ask for it are enabled more than before and restarted once, and nothing outside the manifest changes |
| InstallPrepares.CaptureShadows | codev_platform/mcp_systemd_install_prepare.py:145-156 | all drop-ins are read, and none is both in force and archived or in force outside the manifest |
| InstallPrepares.CaptureStates | codev_platform/mcp_systemd_install_prepare.py:179-191 | the states of exactly the named units, in order; a unit without a file that is enabled or running is refused |
| InstallPrepares.Prepare | codev_platform/mcp_systemd_install_prepare.py:49-102 | a successful preparation has captured exactly what is on the host, has changed nothing and has checked the mode against the manifest |
| InstallHosts.Host.Arm | codev_platform/mcp_systemd_install_signal.py:28-39 | from a successful arm on the handler from before is kept and signals no longer interrupt |
| InstallHosts.Host.Close | codev_platform/mcp_systemd_install_signal.py:41-52 | the guard is open afterwards whatever happens; a failing system call is returned, and a handler that was not installed from Python raises |
| InstallHosts.Host.ReplayOnce | codev_platform/mcp_systemd_install_signal.py:61-67 | one replay, which raises unless the handler ignores or accepts it |
| InstallHosts.DisplacesByHandler | codev_platform/mcp_systemd_install_transaction.py:261-304 | handler by handler, which late signals make the caller lose "safety unproven" |
| InstallCompensations.CompensationRunner.Prove | codev_platform/mcp_systemd_install_compensation.py:37-45 | a proof that fails or raises costs the runner its claim |
| InstallCompensations.CompensationRunner.RunAll | codev_platform/mcp_systemd_install_compensation.py:47-50 | every action is tried once and in order whatever the others do; if the run counts as proven, all proofs hold of the host it leaves; without interference it is the plan run |
| InstallCompensations.CommandsDoTheAction | codev_platform/mcp_systemd_install_prepare.py:209-276 | an action that gives a command gives the one whose effect it is meant to have |
| InstallCompensations.PlanCommandsAreAllowed | codev_platform/mcp_systemd_install_prepare.py:209-322 | compensation gives no restart or stop in the passive modes, and in a maintenance stage no command that names a deferred unit |
| InstallCompensations.Compensate | codev_platform/mcp_systemd_install_transaction.py:448-458 | proven means that all proofs of the frozen plan and the boundary of the mode hold |
| InstallTransactions.LifecycleIsAllowed | codev_platform/mcp_systemd_install_transaction.py:467-477 | the same lifecycle rule for the commands of the apply phase |
| InstallTransactions.CommandsFollowFlags | codev_platform/mcp_systemd_install_transaction.py:467-477 | a reload, then an enable and a restart command, each given exactly if a flag asks for one, and naming exactly the flagged units |
| InstallTransactions.ReportFollowsFlags | codev_platform/mcp_systemd_install_policy.py:111-118 | the report names the units with the restart flag in a passive installation, all deferred units in a maintenance stage, and none otherwise |
| InstallTransactions.LoadUnits | codev_platform/mcp_systemd_effective_payload.py:117-124 | ends without an exception only if every unit file on disk is the manifest's with mode 0644 and owner root, and every unit but an exempt masked one is loaded from it |
| InstallTransactions.ApplyInstall | codev_platform/mcp_systemd_install_transaction.py:416-445 | although every changing port may lie about its work, the phase ends without an exception only if the manifest is installed, on disk and loaded, with every flagged unit enabled and running, and then exactly the commands of the phase have been given, in order; on a quiet host it ends so exactly if the verifier of the mode can accept the manifest, and then exactly its steps have been taken |
| InstallTransactions.RunBody | codev_platform/mcp_systemd_install_transaction.py:326-352 | nothing changes before the guard is armed, and a failure after that is compensated before any lock is left |
| InstallTransactions.RunUnderBindingLock | codev_platform/mcp_systemd_install_transaction.py:330-360 | an exception that did not come out of the body is told apart from one that did, and compensated as well; after a complete apply phase that compensation is proven |
| InstallTransactions.SettlementIsAllOrNothing | codev_platform/mcp_systemd_install_transaction.py:363-385 | whatever the course and whatever comes out of the locks, the outcome is installed (unit files on disk included), restored, or "safety unproven" |
| InstallTransactions.SwallowedScopeFailure | codev_platform/mcp_systemd_install_transaction.py:388-397 | for every installable manifest and host there is a run in which the binding lock fails, the installer lock swallows it, and the installation ends with an ordinary failure instead of "safety unproven" |
| InstallTransactions.InstallGuarded | codev_platform/mcp_systemd_install_transaction.py:307-385 | for every behaviour of the host: a report means installed and verified, with the flagged units enabled and running, by commands that named exactly those; any other end but "safety unproven" means that every frozen component is as before; which exception comes out follows from the cause alone; if only the binding lock fails, the end is "safety unproven" exactly if the installer lock does not swallow the exception |
| InstallTransactions.Install | codev_platform/mcp_systemd_install_transaction.py:254-304 | nothing else becomes "safety unproven", and it stays so exactly unless the handler cannot be set back, raises anything but a termination during the settlement, or raises again while a termination is handled; a held-back SIGINT is replayed at most once, and a report with one pending means that the former handler accepted it; an untroubled installation reports and changes exactly what the flags ask for |
| InstallTransactions.UnprovenMayBeDisplaced | codev_platform/mcp_systemd_install_transaction.py:261-277 | for every installable manifest and host there is a run that is settled as "safety unproven", and the handler and the late signals alone decide whether the caller sees it |
| ArtifactAccess.ArtifactStore.ScanForest | codev_platform/runtime_artifact_access.py:253-308 | accepts exactly the trees within the depth of 64 and the entry budget in which every entry is acceptable, and returns their snapshot |
| ArtifactAccess.ArtifactStore.Converge | codev_platform/runtime_artifact_access.py:367-394 | owner before mode, only what is needed; cut off, it needs as many changes less; at the end the node is private to the service user |
| ArtifactAccess.ArtifactStore.PublishForest | codev_platform/runtime_artifact_access.py:311-364 | leaf first; every node ends private to the service user and the count is that of the nodes that were not canonical; nothing outside is touched |
| ArtifactAccess.AcceptedIsDistinct | codev_platform/runtime_artifact_access.py:407-408 | the ban on hard links leaves no second path to any node |
| ArtifactAccess.ProgressStaysAcceptable | codev_platform/runtime_artifact_access.py:397-421 | wherever a migration was cut off, the next preflight accepts what it left |
| ArtifactAccess.ProgressKeepsContent | codev_platform/runtime_artifact_access.py:507-510 | owners, modes and change times are no part of the content tree |
| ArtifactAccess.ArtifactStore.Migrate | codev_platform/runtime_artifact_access.py:100-164 | refused exactly if the preflight does not accept, without any change; otherwise complete exactly if the power suffices: all nodes private to the service user, content tree unchanged, reported changes equal to the nodes that were not canonical |
| ArtifactAccess.CanonicalMeansPrivate | codev_platform/runtime_artifact_access.py:444-466 | canonical means, by permission bits: no bit for group, others or beyond, read and write for the owner, and search for the owner exactly on directories |
| ArtifactAccess.AcceptedIsWrittenByOwnerOnly | codev_platform/runtime_artifact_access.py:397-421 | an entry is accepted exactly if it is a directory or a file with one link on the device, of root or the service user, with no special bit, and written by its owner only |
| ArtifactAccess.ArtifactStore.MigrateAgainAndAgain | codev_platform/runtime_artifact_access.py:311-394 | run again after each cut it completes exactly if the power of all runs together suffices, with all nodes private to the service user and the content unchanged |
| ArtifactAccess.CanonicalStaysAsItIs | codev_platform/runtime_artifact_access.py:367-394 | a second migration changes nothing at all |
| TreeEvidence.CutForest | codev_platform/runtime_artifact_access.py:528-536 | the encodings of forests of any shape are prefix-free |
| TreeEvidence.EvidenceDeterminesTree | codev_platform/runtime_artifact_access.py:517-536 | equal evidence input means the same service user and the same tree with the same names and identities |
| FdTreeSnapshots.EntryDigest | codev_platform/_runtime_fd_tree_snapshot.py:167-205 | the hash fed field by field has been fed exactly the framed fields and children, in both schemes |
| FdTreeSnapshots.DigestIsMerkleIdentity | codev_platform/_runtime_fd_tree_snapshot.py:167-247 | two trees have the same digest exactly if they agree, node by node, on all framed fields |
| FdTreeSnapshots.ListingOrderIsIrrelevant | codev_platform/runtime_fd_tree.py:366-380 | the order in which a directory is listed does not matter |
| FdTreeSnapshots.DigestStaysIffAllowed | codev_platform/_runtime_fd_tree_snapshot.py:167-247 | between two states of a tree the digest stays exactly if nothing but the allowed changes happened anywhere: GID and ctime of directories and regular files in the plain scheme, permissions and ctime in the repair scheme |
| RuntimeBases.BaseStore.VerifyBase | codev_platform/runtime_base.py:154-166 | under the marker discipline a reader gets verified metadata exactly if the directory looks complete and was built for the interpreter of the reader |
| RuntimeBases.VerifiedIsAsRecorded | codev_platform/runtime_base.py:349-393 | verified means that lock, interpreter and inventory are those the metadata records, in a sealed and trusted tree |
| RuntimeBases.BaseStore.SettleExisting | codev_platform/runtime_base.py:208-233 | what is there is offered if it verifies and otherwise moved aside whole; under the discipline a directory that looks complete is never moved |
| RuntimeBases.BaseStore.Finish | codev_platform/runtime_base.py:274-302 | metadata, verification, durable tree, removal of the marker: whatever a loss of power keeps of it, what looks complete verifies |
| RuntimeBases.BaseStore.Build | codev_platform/runtime_base.py:194-302 | complete, failed or cut off, a run keeps the marker discipline and what it found; a base it reports is complete and as recorded, and durable if it was built; it is built only if every tree on the way was trusted and the inventory stayed the same |
| RuntimeBases.BaseStore.BuildAgainAndAgain | codev_platform/runtime_base.py:194-302 | after any number of such runs and losses of power, metadata without a marker means fully verified, with lock, interpreter and inventory as recorded |
| RollbackPayloads.KeysOrderByTargetThenName | codev_platform/_runtime_rollback_payload.py:331-336 | sorting the rows by one joined key is sorting them by target key and then by protected name |
| RollbackPayloads.ManifestIsCanonical | codev_platform/_runtime_rollback_payload.py:307-336 | two groups have the same manifest exactly if they hold the same payloads after the attempt is erased, in whatever order |
| RollbackPayloads.SystemdReceiptDigestIsCanonical | codev_platform/_runtime_rollback_payload.py:133-152 | the systemd and receipt digests of accepted bundles agree exactly if both groups hold the same payloads up to the attempt |
| RollbackPayloads.ConfigurationDigestIsCanonical | codev_platform/_runtime_rollback_payload.py:155-168 | the same for the configuration digest |
| RollbackPayloads.ManifestForgetsAttempt | codev_platform/_runtime_rollback_payload.py:133-168 | carrying a bundle over to another attempt does not change its manifest |
| RollbackPayloads.GroupIsDeterminedByManifest | codev_platform/_runtime_rollback_payload.py:180-214 | accepted groups of one attempt with the same manifest are the same group in the same order |
| RollbackPayloads.CheckNonConflicting | codev_platform/_runtime_rollback_payload.py:207-214 | the check on joined strings accepts exactly if no path equals or lies below another |
| IndexManifests.PublishTouchesOwnRow | codev_platform/index_manifest.py:347-373 | a conflict changes nothing and no publication touches another row than its own |
| IndexManifests.PublishedIffNewAttempt | codev_platform/index_manifest.py:347-373 | a record is published exactly if its row is empty or of another attempt, and then nothing but an open dependency of code_vec has been added to it |
| IndexManifests.IdempotentWritesIffMigration | codev_platform/index_manifest.py:355-371 | "idempotent" comes with a changed table exactly if the row was left by builder version 2 under the same attempt and says in every other column what the record of version 3 says, and then the row is lifted |
| IndexManifests.IdempotentMayWrite | codev_platform/index_manifest.py:355-371 | such a table and such a record exist |
| IndexManifests.ReplayIsIdempotent | codev_platform/index_manifest.py:301-373 | replaying a publication that took effect changes nothing, whatever happened to other rows in between, the codegraph included, and whatever else was tried under its attempt |
| IndexManifests.SameAttemptDifferentRecordConflicts | codev_platform/index_manifest.py:353-371 | under a published attempt exactly the same record is accepted again |
| IndexManifests.DependencyIsFrozen | codev_platform/index_manifest.py:285-311 | the first publication freezes the status and the commit of the codegraph at that moment, and the commit it was built for or else that of the record; no harmless change and no replay alters it |
| IndexManifests.UnsoundDependencyStaysUnsound | codev_platform/index_manifest.py:285-311 | a code_vec build published on a missing or failed codegraph is never fresh, however the codegraph is rebuilt |
| IndexManifests.FreshStandsOnSoundCodegraph | codev_platform/index_manifest.py:495-574 | a fresh code_vec build stands on a codegraph that was sound at publication, is sound now and contains the head |
| IndexManifests.IndexManifest.PublishBuild | codev_platform/index_manifest.py:314-397 | exactly the records with receipt or dependency block as they must be reach the table, and are published as the specification says |
| IndexManifests.IndexManifest.ReportFreshness | codev_platform/index_manifest.py:533-574 | each record of the project in order: no verdict exactly if head or commit is unknown, and fresh exactly if its own build succeeded and has the head, and for code_vec also stands on a codegraph that had been built, with the head in what it found there and in the codegraph of now |
| IndexManifests.FreshnessIsDecided | codev_platform/index_manifest.py:495-562 | the same of the freshness of a single row, told by its fields |

## Left out

- Encodings of records: JSON text, timestamps in RFC 3339, identifier syntax, `schema_version` constants, size limits of files and journals, and the type checks of dataclasses. Records are typed values and times are integers.
- Locks as such: calls under the deployment, installer and object locks do not overlap. Changes to files by others while a call runs are not modelled, so the repeated reads that would notice them are single reads.
- Serving fences beyond the epochs in the generation state.
- The outcome and final-mode fields of terminal evidence are one field; reservations and frozen deployment attempts are digests, and of an envelope only what it binds is told apart.
- TransactionStores.RuntimeTransactionStore.WriteJournal: the append rule checks the stamp of the current lease but no event time, so no claim is made that the times of actions lie in their lease's event window.
- Provisioning of the maintenance gate, loading and parsing of the manifest, and the contents of effective units: an installation starts from a valid manifest, and a unit's content is a number.
- The managed install contract (one fixed set of units) is a port that may fail. The shipped one lets only complete manifests pass, so that the verifier's demand for all deferred units is met; without it the demand stays a condition of `InstallApply.ApplyInstalls` and `InstallTransactions.ApplyInstall`.
- The runtime mask is only read: a command for the masked unit is taken to act on its persistent links and state, and inconsistent remains of a mask are a failed boundary proof.
- InstallHosts.Host.Signalled: a handler that was not installed from Python is taken to raise nothing, and memory that runs out after the guard has been closed does so once.
- Exceptions of ports are of three kinds; the rewording of ordinary exceptions on their way through a port is not modelled, as no branch depends on it.
- InstallHosts.Host.Change: what a port does when it returns stays within its own component; what it does when it raises is unrestricted.
- Symbolic links in drop-in directories, inode identities of drop-ins and their move back: a drop-in is its content.
- Creation of missing namespace directories and the checks of the data root before an artifact migration; access control lists are a set of inodes.
- ArtifactAccess.ArtifactStore.Migrate: link counts are taken to be true, so that a file with one link has one path.
- TreeEvidence.EvidenceDeterminesTree: asks that every name is shorter than 2^32 bytes, as the source raises an error otherwise.
- FdTreeSnapshots.DigestIsMerkleIdentity: asks that every field is shorter than 2^64 bytes, as the source raises an error otherwise; files that are neither directories, regular files nor symbolic links are rejected before.
- The journal with which a directory is moved aside (one durable step here), the seal of access rights in detail, pip, wheelhouses and dynamic probes; the staging of releases, which has the same marker discipline.
- RuntimeBases.BaseStore.Build: verification is taken to depend on the tree alone, and nobody else changes the tree.
- SQLite, git and log columns: the table is a map, ancestry is a relation, and columns that no branch reads are one field.
