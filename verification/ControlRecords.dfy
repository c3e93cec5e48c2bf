/**
 The records that the control plane persists, and their digests.

 SHA-256 over canonical JSON is modelled as a free constructor: a digest of a known record carries
 that record, so digests of different records differ, and `ForeignSha` stands for every other digest.
 Times are integers; RFC 3339 text, JSON and the constant `schema_version` are not part of this model.
 */
module ControlRecords {
  import opened Wrappers

  type AttemptId = nat
  type Time = int

  const MAX_EPOCH: int := 0x7fff_ffff_ffff_ffff
  const TOKEN_BOUND: nat := 0x1_0000_0000_0000_0000_0000_0000_0000_0000_0000_0000_0000_0000_0000_0000_0000_0000

  datatype Digest =
    | LeaseSha(lease: ControlLeaseRecord)
    | JournalSha(journal: TransactionJournal)
    | EvidenceSha(evidence: TerminalEvidence)
    | GenesisSha(attempt: AttemptId, reservation: Digest, created: Time)
    | TokenSha(token: nat)
    | ForeignSha(bits: nat)

  datatype LeaseStatus = Active | Retired

  datatype ControlLeaseRecord = ControlLeaseRecord(
    attemptId: AttemptId,
    reservationSha: Digest,
    epoch: int,
    tokenSha: Digest,
    owner: string,
    status: LeaseStatus,
    issuedAt: Time,
    predecessorSha: Option<Digest>,
    terminalJournalSha: Option<Digest>,
    terminalEvidenceSha: Option<Digest>,
    retiredAt: Option<Time>,
    retiredFromSha: Option<Digest>)

  datatype ActionState = Prepared | Applied | Committed

  datatype ActionIntent = RevokeCurrentServePermit | ApplyResource

  datatype TransactionAction = TransactionAction(
    attemptId: AttemptId,
    reservationSha: Digest,
    stepSequence: int,
    resourceKind: string,
    resourceId: string,
    intent: ActionIntent,
    operationSha: Digest,
    beforeSha: Digest,
    afterSha: Digest,
    state: ActionState,
    leaseEpoch: int,
    leaseTokenSha: Digest,
    leaseRecordSha: Digest,
    recordedAt: Time)

  datatype JournalStatus = JournalActive | JournalCompleted

  datatype TransactionJournal = TransactionJournal(
    attemptId: AttemptId,
    reservationSha: Digest,
    genesisSha: Digest,
    status: JournalStatus,
    actions: seq<TransactionAction>,
    terminalEvidenceSha: Option<Digest>,
    createdAt: Time,
    updatedAt: Time,
    completedAt: Option<Time>)

  datatype TerminalEvidence = TerminalEvidence(
    attemptId: AttemptId,
    reservationSha: Digest,
    deploymentAttemptSha: Digest,
    genesisSha: Digest,
    activeJournalSha: Digest,
    finalStateSha: Digest,
    leaseEpoch: int,
    leaseTokenSha: Digest,
    completionLeaseSha: Digest,
    completedAt: Time)

  /** The part of an AttemptReservation that the control plane reads. */
  datatype Reservation = Reservation(attemptId: AttemptId, sha: Digest)

  /** The private half of a lease; only its token digest is ever persisted. */
  datatype ControlLeaseProof = ControlLeaseProof(attemptId: AttemptId, epoch: int, token: nat)

  predicate ValidToken(token: nat) {
    0 < token < TOKEN_BOUND
  }

  predicate ValidEpoch(epoch: int) {
    1 <= epoch <= MAX_EPOCH
  }

  /** The active record that a tombstone claims to retire. */
  function ActiveForm(r: ControlLeaseRecord): ControlLeaseRecord {
    r.(status := Active, terminalJournalSha := None, terminalEvidenceSha := None,
       retiredAt := None, retiredFromSha := None)
  }

  /** What the record constructor enforces. */
  predicate ValidRecord(r: ControlLeaseRecord) {
    && ValidEpoch(r.epoch)
    && match r.status
       case Active =>
         && r.terminalJournalSha.None?
         && r.terminalEvidenceSha.None?
         && r.retiredAt.None?
         && r.retiredFromSha.None?
       case Retired =>
         && r.terminalJournalSha.Some?
         && r.terminalEvidenceSha.Some?
         && r.retiredAt.Some?
         && r.retiredAt.value > r.issuedAt
         && r.retiredFromSha == Some(LeaseSha(ActiveForm(r)))
  }

  function IssueControlLease(reservation: Reservation, epoch: int, token: nat, owner: string, issuedAt: Time)
    : Result<(ControlLeaseRecord, ControlLeaseProof), string>
  {
    if !ValidEpoch(epoch) || !ValidToken(token) then
      Failure("lease parameters are invalid")
    else
      Success((
        ControlLeaseRecord(reservation.attemptId, reservation.sha, epoch, TokenSha(token), owner, Active, issuedAt,
                           None, None, None, None, None),
        ControlLeaseProof(reservation.attemptId, epoch, token)))
  }

  function RecoverControlLease(current: ControlLeaseRecord, reservation: Reservation, epoch: int, token: nat,
                               owner: string, issuedAt: Time)
    : Result<(ControlLeaseRecord, ControlLeaseProof), string>
  {
    if current.status != Active then
      Failure("only an active lease can be taken over")
    else if reservation != Reservation(current.attemptId, current.reservationSha) then
      Failure("recovery must stay on the same attempt and reservation")
    else if epoch <= current.epoch then
      Failure("recovery must raise the epoch")
    else if issuedAt <= current.issuedAt then
      Failure("recovery must be issued later")
    else
      var issued :- IssueControlLease(reservation, epoch, token, owner, issuedAt);
      if issued.0.tokenSha == current.tokenSha then
        Failure("recovery must rotate the token")
      else
        Success((issued.0.(predecessorSha := Some(LeaseSha(current))), issued.1))
  }

  predicate ProofMatches(record: ControlLeaseRecord, proof: ControlLeaseProof) {
    && record.status == Active
    && proof.attemptId == record.attemptId
    && proof.epoch == record.epoch
    && TokenSha(proof.token) == record.tokenSha
  }
}
