/** Runs of the stores themselves, with real tokens and complete terminal records. */
module StoreRuns {
  import opened Wrappers
  import opened ControlRecords
  import opened ControlLeaseLineage
  import opened LeaseProtocol
  import opened LeaseSafety
  import opened TransactionJournals
  import opened ControlLeaseStores
  import opened TransactionRecords
  import opened ControlPlane
  import opened ControlPlaneSafety
  import opened GateRuns
  import opened TransactionStores

  /** The first step of a journal in one of its states, recorded under the lease `r`. */
  function FirstStep(r: Lease, state: ActionState, at: Time): TransactionAction {
    TransactionAction(r.attemptId, r.reservationSha, 1, SERVE_PERMIT_KIND, CURRENT_SERVE_PERMIT_ID,
                      RevokeCurrentServePermit, ForeignSha(0), ForeignSha(0), ForeignSha(1), state, r.epoch,
                      r.tokenSha, LeaseSha(r), at)
  }

  function OneStepJournal(r: Lease): TransactionJournal {
    var t := r.issuedAt;
    Genesis(Reservation(r.attemptId, r.reservationSha), t).(
      actions := [FirstStep(r, Prepared, t + 1), FirstStep(r, Applied, t + 2), FirstStep(r, Committed, t + 3)],
      updatedAt := t + 3)
  }

  function EvidenceOf(r: Lease): TerminalEvidence {
    var j := OneStepJournal(r);
    TerminalEvidence(r.attemptId, r.reservationSha, ForeignSha(0), j.genesisSha, JournalSha(j), ForeignSha(0), r.epoch,
                     r.tokenSha, LeaseSha(r), r.issuedAt + 4)
  }

  function TerminalsOf(r: Lease): TerminalInputs {
    var e := EvidenceOf(r);
    TerminalInputs(
      OneStepJournal(r).(status := JournalCompleted, terminalEvidenceSha := Some(EvidenceSha(e)),
                         updatedAt := e.completedAt, completedAt := Some(e.completedAt)),
      e)
  }

  lemma OneStepIsLockstep(r: Lease)
    ensures LockstepHistory(OneStepJournal(r))
  {
    var j := OneStepJournal(r);
    assert Audited(j, 0) && Audited(j, 1) && Audited(j, 2);
    assert InLockstep(j.actions, 0) && InLockstep(j.actions, 1) && InLockstep(j.actions, 2);
  }

  lemma TerminalsAreValid(r: Lease)
    requires ValidEpoch(r.epoch)
    ensures ValidJournal(OneStepJournal(r)) && ValidJournal(TerminalsOf(r).journal)
    ensures Completion(TerminalsOf(r).journal, TerminalsOf(r).evidence)
  {
    var open, done := OneStepJournal(r), TerminalsOf(r).journal;
    OneStepIsLockstep(r);
    assert forall i | 0 <= i < 3 :: Audited(open, i) ==> Audited(done, i);
    CommittedIffWholeSteps(open);
    assert ActiveView(done) == open;
  }

  /** Terminal records exist for every active lease with a lineage, so every such lease can be retired. */
  lemma TerminalsExist(r: Lease, lineage: seq<Lease>)
    requires ValidEpoch(r.epoch) && CurrentLineage(lineage, r)
    ensures ValidJournal(TerminalsOf(r).journal)
    ensures TerminalBinding(r, TerminalsOf(r).journal, TerminalsOf(r).evidence, r.issuedAt + 5, lineage)
  {
    var (j, e) := (TerminalsOf(r).journal, TerminalsOf(r).evidence);
    TerminalsAreValid(r);
    assert AcceptsEvent(CompletionAnchor(e), e.completedAt, lineage, r, |lineage| - 1);
  }

  function GenesisEnvelope(reservation: Reservation, createdAt: Time): Envelope {
    Envelope(reservation.attemptId, reservation.sha, Genesis(reservation, createdAt).genesisSha, 0)
  }

  /** The attempt is active, holds the lease `r`, and its journal is `head`. */
  predicate AtHead(files: LeaseFiles, records: Records, r: Lease, head: TransactionJournal) {
    && files.pending.None? && files.current == Some(r)
    && ActiveContext(records) == Some(Reservation(r.attemptId, r.reservationSha))
    && r.attemptId in records.journals && records.journals[r.attemptId] == head
  }

  /** Nothing is pending, nothing is active, and the attempt is unknown. */
  predicate IsFree(files: LeaseFiles, records: Records, a: AttemptId) {
    files.pending.None? && records.active.None? && a !in records.reservations
  }

  method Bootstrap(store: RuntimeTransactionStore, reservation: Reservation, createdAt: Time)
    requires store.Valid() && IsFree(store.gate.Files(), store.records, reservation.attemptId)
    modifies store`records, store`run, store.gate`writesLeft
    ensures store.Valid() && old(store.run) <= store.run && store.gate.State() == old(store.gate.State())
    ensures ActiveContext(store.records) == Some(reservation)
    ensures reservation.attemptId in store.records.journals
    ensures store.records.journals[reservation.attemptId] == Genesis(reservation, createdAt)
    ensures reservation.attemptId !in store.records.attempts && reservation.attemptId !in store.records.evidence
  {
    store.RecordsAreSound();
    assert AttemptInv(store.records, reservation.attemptId);
    store.Restart(1);
    var reserved := store.ReserveAttempt(reservation);
    store.Restart(1);
    var genesis := store.WriteJournalGenesisOnce(Genesis(reservation, createdAt));
    SealAndActivate(store, reservation, createdAt);
  }

  method SealAndActivate(store: RuntimeTransactionStore, reservation: Reservation, createdAt: Time)
    requires store.Valid() && store.records.active.None?
    requires AtGenesis(store.records, reservation.attemptId) && reservation.attemptId !in store.records.envelopes
    requires store.records.reservations[reservation.attemptId] == reservation.sha
    requires store.records.journals[reservation.attemptId].createdAt == createdAt
    modifies store`records, store`run, store.gate`writesLeft
    ensures store.Valid() && old(store.run) <= store.run && store.gate.State() == old(store.gate.State())
    ensures ActiveContext(store.records) == Some(reservation)
    ensures store.records == old(store.records).(envelopes := store.records.envelopes, active := store.records.active)
  {
    var e := GenesisEnvelope(reservation, createdAt);
    store.Restart(1);
    var sealed := store.WriteEnvelopeOnce(e);
    store.Restart(1);
    var activated := store.PublishActiveEnvelopeIfAbsent(e);
  }

  /** The first lease of a freshly activated attempt. */
  method Begin(store: RuntimeTransactionStore, reservation: Reservation, token: nat, owner: string, at: Time)
    returns (r: Lease, proof: ControlLeaseProof)
    requires store.Valid() && store.gate.pending.None? && ActiveContext(store.records) == Some(reservation)
    requires ValidToken(token)
    requires forall t | t in store.gate.State().issued :: t.attemptId != reservation.attemptId
    modifies store`run, store.gate
    ensures store.Valid() && old(store.run) <= store.run
    ensures r == InitialLease(reservation, token, owner, at) && proof == ControlLeaseProof(r.attemptId, 1, token)
    ensures store.gate.State() == IssueAtomically(old(store.gate.State()), r)
  {
    store.NotBlocked();
    InitialIffNeverIssued(Now(store.run), token);
    store.Restart(7);
    var issued := store.AcquireInitial(owner, token, at);
    r, proof := issued.value.0, issued.value.1;
  }

  /** One accepted journal write by the holder of the current lease. */
  method Advance(store: RuntimeTransactionStore, r: Lease, proof: ControlLeaseProof, head: TransactionJournal,
                 next: TransactionJournal)
    requires store.Valid() && AtHead(store.gate.Files(), store.records, r, head)
    requires ProofMatches(r, proof) && r.epoch <= MAX_LINEAGE && ValidJournal(next)
    requires Accepted(store.records, next, r, Some(JournalSha(head)))
    modifies store`records, store`run, store.gate
    ensures store.Valid() && old(store.run) <= store.run && store.gate.State() == old(store.gate.State())
    ensures store.records == AfterMove(old(store.records), Move.WriteJournal(next))
  {
    store.RecordsAreSound();
    JournalIsFixed(store.records, next, r, Some(JournalSha(head)));
    store.Restart(4);
    var written := store.WriteJournal(next, proof, Some(JournalSha(head)));
  }

  /** The attempt is where its journal is still empty. */
  predicate Fresh(files: LeaseFiles, records: Records, r: Lease) {
    && AtHead(files, records, r, Genesis(Reservation(r.attemptId, r.reservationSha), r.issuedAt))
    && r.attemptId !in records.attempts && r.attemptId !in records.evidence
  }

  /** The attempt has completed its journal, with evidence in place. */
  predicate Complete(files: LeaseFiles, records: Records, r: Lease) {
    && AtHead(files, records, r, TerminalsOf(r).journal)
    && r.attemptId in records.evidence && records.evidence[r.attemptId] == TerminalsOf(r).evidence
  }

  /** Freezes the attempt and carries out its one step. */
  method Step(store: RuntimeTransactionStore, r: Lease, proof: ControlLeaseProof)
    requires store.Valid() && Fresh(store.gate.Files(), store.records, r)
    requires ProofMatches(r, proof) && r.epoch == 1
    modifies store`records, store`run, store.gate
    ensures store.Valid() && old(store.run) <= store.run && store.gate.State() == old(store.gate.State())
    ensures AtHead(store.gate.Files(), store.records, r, OneStepJournal(r))
    ensures r.attemptId in store.records.attempts && store.records.attempts[r.attemptId] == ForeignSha(0)
    ensures r.attemptId !in store.records.evidence
  {
    store.Restart(4);
    var frozen := store.WriteAttemptOnce(r.attemptId, ForeignSha(0), proof);
    TerminalsAreValid(r);
    Advance(store, r, proof, Genesis(Reservation(r.attemptId, r.reservationSha), r.issuedAt), OneStepJournal(r));
  }

  method PublishEvidence(store: RuntimeTransactionStore, r: Lease, proof: ControlLeaseProof)
    requires store.Valid() && AtHead(store.gate.Files(), store.records, r, OneStepJournal(r))
    requires r.attemptId in store.records.attempts && store.records.attempts[r.attemptId] == ForeignSha(0)
    requires r.attemptId !in store.records.evidence
    requires ProofMatches(r, proof) && r.epoch == 1
    modifies store`records, store`run, store.gate
    ensures store.Valid() && old(store.run) <= store.run && store.gate.State() == old(store.gate.State())
    ensures store.records == AfterMove(old(store.records), WriteEvidence(TerminalsOf(r).evidence))
  {
    store.Restart(4);
    var evidence := store.WriteTerminalEvidenceOnce(TerminalsOf(r).evidence, proof);
  }

  lemma CompletionIsAccepted(files: LeaseFiles, records: Records, r: Lease)
    requires AtHead(files, records, r, OneStepJournal(r)) && ValidEpoch(r.epoch)
    requires r.attemptId in records.attempts && records.attempts[r.attemptId] == ForeignSha(0)
    requires r.attemptId in records.evidence && records.evidence[r.attemptId] == TerminalsOf(r).evidence
    ensures Accepted(records, TerminalsOf(r).journal, r, Some(JournalSha(OneStepJournal(r))))
    ensures ValidJournal(TerminalsOf(r).journal)
  {
    TerminalsAreValid(r);
    assert ActiveView(TerminalsOf(r).journal) == OneStepJournal(r);
  }

  /** Publishes the evidence and completes the journal. */
  method CompleteJournal(store: RuntimeTransactionStore, r: Lease, proof: ControlLeaseProof)
    requires store.Valid() && AtHead(store.gate.Files(), store.records, r, OneStepJournal(r))
    requires r.attemptId in store.records.attempts && store.records.attempts[r.attemptId] == ForeignSha(0)
    requires r.attemptId !in store.records.evidence
    requires ProofMatches(r, proof) && r.epoch == 1
    modifies store`records, store`run, store.gate
    ensures store.Valid() && old(store.run) <= store.run && store.gate.State() == old(store.gate.State())
    ensures Complete(store.gate.Files(), store.records, r)
  {
    PublishEvidence(store, r, proof);
    CompletionIsAccepted(store.gate.Files(), store.records, r);
    Advance(store, r, proof, OneStepJournal(r), TerminalsOf(r).journal);
  }

  lemma CompleteMayRetire(run: seq<Plane>, r: Lease, proof: ControlLeaseProof)
    requires IsPlaneRun(run) && Complete(Now(run).lease.files, Now(run).records, r)
    requires ProofMatches(r, proof) && r.epoch == 1
    ensures MayRetire(Now(run).lease, BootOf(Now(run).records), proof, TerminalsOf(r), r.issuedAt + 5)
  {
    var records := LineageOfCurrent(run);
    TerminalsExist(r, records);
  }

  lemma LineageOfCurrent(run: seq<Plane>) returns (records: seq<Lease>)
    requires IsPlaneRun(run) && Now(run).lease.files.current.Some?
    requires Now(run).lease.files.current.value.status == Active
    requires Now(run).lease.files.current.value.epoch <= MAX_LINEAGE
    ensures IsLineage(Now(run).lease.files.history, records, Now(run).lease.files.current.value)
  {
    LeaseIsSound(run, |run| - 1);
    CurrentHasLineageIff(Now(run).lease);
    records :| IsLineage(Now(run).lease.files.history, records, Now(run).lease.files.current.value);
  }

  /** Retires the attempt and clears its envelope. */
  method End(store: RuntimeTransactionStore, r: Lease, proof: ControlLeaseProof)
    requires store.Valid() && Complete(store.gate.Files(), store.records, r)
    requires ProofMatches(r, proof) && r.epoch == 1
    modifies store`records, store`run, store.gate
    ensures store.Valid() && old(store.run) <= store.run && store.records == old(store.records).(active := None)
    ensures store.gate.State() == IssueAtomically(old(store.gate.State()), Tombstone(r, TerminalsOf(r), r.issuedAt + 5))
  {
    Retire(store, r, proof);
    store.Restart(4);
    var cleared := store.ClearTerminalEnvelope(Tombstone(r, TerminalsOf(r), r.issuedAt + 5));
  }

  method Retire(store: RuntimeTransactionStore, r: Lease, proof: ControlLeaseProof)
    requires store.Valid() && Complete(store.gate.Files(), store.records, r)
    requires ProofMatches(r, proof) && r.epoch == 1
    modifies store`run, store.gate
    ensures store.Valid() && old(store.run) <= store.run
    ensures store.gate.State() == IssueAtomically(old(store.gate.State()), Tombstone(r, TerminalsOf(r), r.issuedAt + 5))
  {
    CompleteMayRetire(store.run, r, proof);
    store.Restart(7);
    var retired := store.RetireCurrent(proof, TerminalsOf(r), r.issuedAt + 5);
  }

  lemma UnknownIsNeverIssued(run: seq<Plane>, a: AttemptId)
    requires IsPlaneRun(run) && a !in Now(run).records.reservations
    ensures forall t | t in Now(run).lease.issued :: t.attemptId != a
  {
    PlaneRunKeepsInv(run, |run| - 1);
    forall t | t in Now(run).lease.issued
      ensures t.attemptId != a
    {
      assert IssueAccounted(Now(run).records, t);
    }
  }

  /** Bootstrap and first lease of a new attempt. */
  method StartAttempt(store: RuntimeTransactionStore, reservation: Reservation, token: nat, owner: string, at: Time)
    returns (r: Lease, proof: ControlLeaseProof)
    requires store.Valid() && IsFree(store.gate.Files(), store.records, reservation.attemptId) && ValidToken(token)
    modifies store`records, store`run, store.gate
    ensures store.Valid() && old(store.run) <= store.run
    ensures r == InitialLease(reservation, token, owner, at) && proof == ControlLeaseProof(r.attemptId, 1, token)
    ensures store.gate.State() == IssueAtomically(old(store.gate.State()), r)
    ensures Fresh(store.gate.Files(), store.records, r)
  {
    UnknownIsNeverIssued(store.run, reservation.attemptId);
    Bootstrap(store, reservation, at);
    r, proof := Begin(store, reservation, token, owner, at);
  }

  /** The step, the completion and the end of an attempt. */
  method FinishAttempt(store: RuntimeTransactionStore, r: Lease, proof: ControlLeaseProof)
    requires store.Valid() && Fresh(store.gate.Files(), store.records, r)
    requires ProofMatches(r, proof) && r.epoch == 1
    modifies store`records, store`run, store.gate
    ensures store.Valid() && old(store.run) <= store.run && store.records.active.None?
    ensures store.gate.State() == IssueAtomically(old(store.gate.State()), Tombstone(r, TerminalsOf(r), r.issuedAt + 5))
    ensures r.attemptId in store.records.journals
    ensures store.records.journals[r.attemptId] == TerminalsOf(r).journal
  {
    Step(store, r, proof);
    CompleteJournal(store, r, proof);
    End(store, r, proof);
  }

  /**
   From every state that the stores can come to with nothing pending and nothing active, every new attempt can be
   carried through: bootstrap, lease, frozen attempt, journal, evidence, completion, retirement and cleanup. At the
   end nothing is pending and nothing is active, so that the next attempt can begin.
   */
  method RunAttempt(store: RuntimeTransactionStore, reservation: Reservation, token: nat, owner: string, at: Time)
    requires store.Valid() && IsFree(store.gate.Files(), store.records, reservation.attemptId) && ValidToken(token)
    modifies store`records, store`run, store.gate
    ensures store.Valid() && old(store.run) <= store.run
    ensures store.gate.pending.None? && store.records.active.None?
    ensures var r := InitialLease(reservation, token, owner, at);
            && store.gate.State().issued == old(store.gate.State()).issued + [r, Tombstone(r, TerminalsOf(r), at + 5)]
            && reservation.attemptId in store.records.journals
            && store.records.journals[reservation.attemptId] == TerminalsOf(r).journal
  {
    var r, proof := StartAttempt(store, reservation, token, owner, at);
    FinishAttempt(store, r, proof);
  }

  // --- a retirement whose time is too early -------------------------------------------------

  /** The lineage after one takeover, whatever else there is in history. */
  lemma TwoLeases(run: seq<Plane>, r: Lease, next: Lease)
    requires IsPlaneRun(run) && Now(run).lease.files.current == Some(next)
    requires r in Now(run).lease.issued && RecoveryEdge(r, next) && r.predecessorSha.None?
    ensures IsLineage(Now(run).lease.files.history, [r, next], next)
  {
    CurrentIsIssued(run, next);
    IssuedIsInHistory(run, r);
    IssuedIsInHistory(run, next);
    assert EdgeAt([r, next], 1);
  }

  lemma IssuedIsInHistory(run: seq<Plane>, r: Lease)
    requires IsPlaneRun(run) && r in Now(run).lease.issued
    ensures InHistory(Now(run).lease.files.history, r)
  {
    LeaseIsSound(run, |run| - 1);
  }

  lemma CurrentIsIssued(run: seq<Plane>, r: Lease)
    requires IsPlaneRun(run) && Now(run).lease.files.current == Some(r)
    ensures r in Now(run).lease.issued
  {
    LeaseIsSound(run, |run| - 1);
  }

  /** The evidence of a lease still binds after a takeover. */
  lemma EvidenceBindsAfterTakeover(r: Lease, next: Lease)
    requires ValidEpoch(r.epoch) && RecoveryEdge(r, next) && r.predecessorSha.None? && r.issuedAt + 10 == next.issuedAt
    requires ActiveLineage([r, next])
    ensures TerminalBinding(next, TerminalsOf(r).journal, TerminalsOf(r).evidence, r.issuedAt + 5, [r, next])
  {
    TerminalsAreValid(r);
    var e := TerminalsOf(r).evidence;
    assert AcceptsEvent(CompletionAnchor(e), e.completedAt, [r, next], next, 0);
  }

  lemma EarlyRetirementBinds(run: seq<Plane>, r: Lease, next: Lease, proof: ControlLeaseProof)
    requires IsPlaneRun(run) && Now(run).lease.files.current == Some(next) && r in Now(run).lease.issued
    requires RecoveryEdge(r, next) && r.predecessorSha.None? && r.epoch == 1 && r.issuedAt + 10 == next.issuedAt
    requires ActiveContext(Now(run).records) == Some(Reservation(r.attemptId, r.reservationSha))
    requires var t := BootOf(Now(run).records).terminals; r.attemptId in t && t[r.attemptId] == TerminalsOf(r)
    requires ProofMatches(next, proof)
    ensures Untimely(Now(run).lease, BootOf(Now(run).records), proof, TerminalsOf(r), r.issuedAt + 5)
  {
    TwoLeases(run, r, next);
    EvidenceBindsAfterTakeover(r, next);
  }

  /**
   A retirement whose exception the store passes on: the attempt is completed under its first lease, a second lease
   takes over later, and the time of the retirement lies between the completion and the takeover.
   */
  method RetirementEscapes(store: RuntimeTransactionStore, reservation: Reservation, token: nat, other: nat,
                           owner: string, at: Time)
    returns (reply: Reply<Lease>)
    requires store.Valid() && IsFree(store.gate.Files(), store.records, reservation.attemptId)
    requires ValidToken(token) && ValidToken(other) && token != other
    modifies store`records, store`run, store.gate
    ensures store.Valid() && old(store.run) <= store.run && reply.Escaped?
  {
    var r, proof := StartAttempt(store, reservation, token, owner, at);
    Step(store, r, proof);
    CompleteJournal(store, r, proof);
    reply := RetireEarly(store, r, other, owner);
  }

  method RetireEarly(store: RuntimeTransactionStore, r: Lease, other: nat, owner: string) returns (reply: Reply<Lease>)
    requires store.Valid() && Complete(store.gate.Files(), store.records, r)
    requires r.status == Active && r.epoch == 1 && r.predecessorSha.None?
    requires ValidToken(other) && TokenSha(other) != r.tokenSha
    modifies store`run, store.gate
    ensures store.Valid() && old(store.run) <= store.run && reply.Escaped?
  {
    var next, proof := SucceedLater(store, r, other, owner);
    EarlyRetirementBinds(store.run, r, next, proof);
    store.Restart(7);
    reply := store.RetireCurrent(proof, TerminalsOf(r), r.issuedAt + 5);
  }

  /** A takeover of a completed attempt, ten instants after the lease that completed it. */
  method SucceedLater(store: RuntimeTransactionStore, r: Lease, other: nat, owner: string)
    returns (next: Lease, proof: ControlLeaseProof)
    requires store.Valid() && Complete(store.gate.Files(), store.records, r)
    requires r.status == Active && r.epoch == 1 && r.predecessorSha.None?
    requires ValidToken(other) && TokenSha(other) != r.tokenSha
    modifies store`run, store.gate
    ensures store.Valid() && old(store.run) <= store.run
    ensures store.gate.Files().pending.None? && store.gate.Files().current == Some(next)
    ensures RecoveryEdge(r, next) && r.issuedAt + 10 == next.issuedAt && ProofMatches(next, proof)
    ensures r in Now(store.run).lease.issued
  {
    CurrentIsIssued(store.run, r);
    store.Restart(7);
    var taken := store.TakeOver(r, owner, other, r.issuedAt + 10);
    next, proof := taken.value.0, taken.value.1;
  }
}
