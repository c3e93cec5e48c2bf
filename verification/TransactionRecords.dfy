/** The bootstrap and transaction records that lie beside the lease files, and the moves that change them. */
module TransactionRecords {
  import opened Wrappers
  import opened ControlRecords
  import opened LeaseProtocol
  import opened TransactionJournals
  import opened ControlLeaseStores

  type Journals = map<AttemptId, TransactionJournal>

  /** What a recovery envelope binds; `controller` stands for the fields that no check of the store reads. */
  datatype Envelope = Envelope(attemptId: AttemptId, reservationSha: Digest, genesisSha: Digest, controller: nat)

  /** Reservations and frozen attempts are kept as digests. */
  datatype Records = Records(
    reservations: map<AttemptId, Digest>,
    journals: Journals,
    envelopes: map<AttemptId, Envelope>,
    active: Option<Envelope>,
    attempts: map<AttemptId, Digest>,
    evidence: map<AttemptId, TerminalEvidence>)

  const NoRecords := Records(map[], map[], map[], None, map[], map[])

  // --- reading ------------------------------------------------------------------------------

  function ReservationOf(r: Records, a: AttemptId): Reservation
    requires a in r.reservations
  {
    Reservation(a, r.reservations[a])
  }

  /** The head of the attempt loads, and the genesis derived from it is that of the reservation. */
  predicate HeadLoads(r: Records, a: AttemptId) {
    && a in r.reservations && a in r.journals
    && var head := r.journals[a];
       head.attemptId == a && head.reservationSha == r.reservations[a]
       && head.genesisSha == GenesisSha(a, r.reservations[a], head.createdAt)
  }

  predicate EnvelopeFits(r: Records, e: Envelope) {
    && HeadLoads(r, e.attemptId)
    && e.reservationSha == r.reservations[e.attemptId]
    && e.genesisSha == r.journals[e.attemptId].genesisSha
  }

  predicate AtGenesis(r: Records, a: AttemptId) {
    HeadLoads(r, a) && r.journals[a] == Genesis(ReservationOf(r, a), r.journals[a].createdAt)
  }

  /** The chain from the active envelope over reservation and head to the sealed copy of the attempt. */
  predicate ContextLoads(r: Records) {
    && r.active.Some?
    && var e := r.active.value;
       EnvelopeFits(r, e) && e.attemptId in r.envelopes && r.envelopes[e.attemptId] == e
  }

  function ActiveContext(r: Records): Option<Reservation> {
    if ContextLoads(r) then Some(ReservationOf(r, r.active.value.attemptId)) else None
  }

  predicate IsActive(r: Records, a: AttemptId) {
    r.active.Some? && r.active.value.attemptId == a
  }

  /** What the lease store reads of these records. */
  function BootOf(r: Records): Bootstrap {
    Bootstrap(ActiveContext(r),
              map a | a in r.journals && a in r.evidence :: TerminalInputs(r.journals[a], r.evidence[a]))
  }

  // --- what may be written ------------------------------------------------------------------

  predicate SameIdentity(j: TransactionJournal, head: TransactionJournal) {
    j.attemptId == head.attemptId && j.reservationSha == head.reservationSha && j.genesisSha == head.genesisSha
  }

  /** Evidence names the reservation, the genesis and the frozen attempt it belongs to. */
  predicate EvidenceIdentity(e: TerminalEvidence, head: TransactionJournal, attempt: Digest) {
    && e.attemptId == head.attemptId
    && e.reservationSha == head.reservationSha
    && e.genesisSha == head.genesisSha
    && e.deploymentAttemptSha == attempt
  }

  predicate EvidenceStamped(e: TerminalEvidence, lease: Lease) {
    e.leaseEpoch == lease.epoch && e.leaseTokenSha == lease.tokenSha && e.completionLeaseSha == LeaseSha(lease)
  }

  /** The evidence that a completed replacement of `head` needs. */
  ghost predicate CompletesWith(r: Records, head: TransactionJournal, desired: TransactionJournal) {
    && head.attemptId in r.evidence && head.attemptId in r.attempts
    && var e := r.evidence[head.attemptId];
       && EvidenceIdentity(e, head, r.attempts[head.attemptId])
       && e.activeJournalSha == JournalSha(head)
       && Completion(desired, e)
  }

  /** A replacement of the head of the active attempt that the store accepts under a lease. */
  ghost predicate Accepted(r: Records, desired: TransactionJournal, lease: Lease, expected: Option<Digest>) {
    && ContextLoads(r)
    && var head := r.journals[r.active.value.attemptId];
       && SameIdentity(desired, head)
       && expected == Some(JournalSha(head))
       && (desired == head
           || (&& JournalSuccessor(head, desired)
               && AppendedStamped(head, desired, lease)
               && (desired.status == JournalCompleted ==> CompletesWith(r, head, desired))))
  }

  /** Evidence that may stand next to a journal head. */
  ghost predicate EvidenceFitsHead(e: TerminalEvidence, head: TransactionJournal) {
    if head.status == JournalCompleted then Completion(head, e) else e.activeJournalSha == JournalSha(head)
  }

  /** Terminal evidence of the active attempt that the store accepts under a lease. */
  ghost predicate EvidenceAccepted(r: Records, e: TerminalEvidence, lease: Lease) {
    && ContextLoads(r)
    && var a := r.active.value.attemptId;
       && a in r.attempts
       && EvidenceIdentity(e, r.journals[a], r.attempts[a])
       && EvidenceFitsHead(e, r.journals[a])
       && (if a in r.evidence then r.evidence[a] == e
           else r.journals[a].status == JournalActive && EvidenceStamped(e, lease))
  }

  /** A tombstone and the completed records that it names. */
  ghost predicate TombstoneBound(r: Records, t: Lease) {
    && t.attemptId in r.journals && t.attemptId in r.evidence
    && Completion(r.journals[t.attemptId], r.evidence[t.attemptId])
    && t.terminalJournalSha == Some(JournalSha(r.journals[t.attemptId]))
    && t.terminalEvidenceSha == Some(EvidenceSha(r.evidence[t.attemptId]))
  }

  datatype Move =
    | Reserve(reservation: Reservation)
    | WriteGenesis(attempt: AttemptId, createdAt: Time)
    | Seal(envelope: Envelope)
    | Activate(envelope: Envelope)
    | FreezeAttempt(attempt: AttemptId, digest: Digest)
    | WriteJournal(journal: TransactionJournal)
    | WriteEvidence(evidence: TerminalEvidence)
    | ClearEnvelope

  /** Moves of the bootstrap, which needs no lease. Each creates one file that is not there yet. */
  predicate BootstrapAllows(r: Records, m: Move) {
    match m
    case Reserve(reservation) => reservation.attemptId !in r.reservations
    case WriteGenesis(a, _) => a in r.reservations && a !in r.journals
    case Seal(e) => e.attemptId !in r.envelopes && EnvelopeFits(r, e) && AtGenesis(r, e.attemptId)
    case Activate(e) =>
      && r.active.None?
      && e.attemptId in r.envelopes && r.envelopes[e.attemptId] == e
      && EnvelopeFits(r, e) && AtGenesis(r, e.attemptId)
    case _ => false
  }

  /** Moves inside a verified scope of the given lease. */
  ghost predicate ScopeAllows(r: Records, m: Move, lease: Lease) {
    match m
    case FreezeAttempt(a, _) => IsActive(r, a) && a !in r.attempts
    case WriteJournal(j) => ValidJournal(j) && exists expected :: Accepted(r, j, lease, expected)
    case WriteEvidence(e) => EvidenceAccepted(r, e, lease)
    case _ => false
  }

  /** The tombstone is that of the active attempt, and it names the records in place. */
  ghost predicate CleanupAllows(r: Records, t: Lease) {
    && t.status == Retired
    && TombstoneBound(r, t)
    && ContextLoads(r) && IsActive(r, t.attemptId) && t.reservationSha == r.reservations[t.attemptId]
  }

  function AfterMove(r: Records, m: Move): Records {
    match m
    case Reserve(reservation) => r.(reservations := r.reservations[reservation.attemptId := reservation.sha])
    case WriteGenesis(a, createdAt) =>
      if a in r.reservations then r.(journals := r.journals[a := Genesis(ReservationOf(r, a), createdAt)]) else r
    case Seal(e) => r.(envelopes := r.envelopes[e.attemptId := e])
    case Activate(e) => r.(active := Some(e))
    case FreezeAttempt(a, digest) => r.(attempts := r.attempts[a := digest])
    case WriteJournal(j) => r.(journals := r.journals[j.attemptId := j])
    case WriteEvidence(e) => r.(evidence := r.evidence[e.attemptId := e])
    case ClearEnvelope => r.(active := None)
  }

  // --- the invariant of the records ---------------------------------------------------------

  /** The records of one attempt belong together, and a completed journal has the evidence that proves it. */
  ghost predicate AttemptInv(r: Records, a: AttemptId) {
    && (a in r.journals ==> HeadLoads(r, a) && ValidJournal(r.journals[a]))
    && (a in r.envelopes ==> r.envelopes[a].attemptId == a && EnvelopeFits(r, r.envelopes[a]))
    && (a in r.attempts ==> a in r.journals)
    && (a in r.evidence ==>
          && a in r.journals && a in r.attempts
          && EvidenceIdentity(r.evidence[a], r.journals[a], r.attempts[a]))
    && (a in r.journals && r.journals[a].status == JournalCompleted ==>
          a in r.evidence && Completion(r.journals[a], r.evidence[a]))
  }

  ghost predicate RecordsInv(r: Records) {
    && (r.active.Some? ==>
          r.active.value.attemptId in r.envelopes && r.envelopes[r.active.value.attemptId] == r.active.value)
    && forall a: AttemptId :: AttemptInv(r, a)
  }

  /** Under the invariant an active envelope is all that the context needs. */
  lemma ContextLoadsIffActive(r: Records)
    requires RecordsInv(r)
    ensures ContextLoads(r) <==> r.active.Some?
  {
    if r.active.Some? {
      assert AttemptInv(r, r.active.value.attemptId);
    }
  }

  lemma GenesisIsValid(reservation: Reservation, createdAt: Time)
    ensures ValidJournal(Genesis(reservation, createdAt))
  {
  }

  /** The attempt whose records a move changes; a clearing move leaves all of them as they are. */
  function Touched(m: Move): Option<AttemptId> {
    match m
    case Reserve(reservation) => Some(reservation.attemptId)
    case WriteGenesis(a, _) => Some(a)
    case Seal(e) => Some(e.attemptId)
    case FreezeAttempt(a, _) => Some(a)
    case WriteJournal(j) => Some(j.attemptId)
    case WriteEvidence(e) => Some(e.attemptId)
    case _ => None
  }

  lemma OthersKeepInv(r: Records, m: Move, a: AttemptId)
    requires AttemptInv(r, a) && Touched(m) != Some(a)
    ensures AttemptInv(AfterMove(r, m), a)
  {
  }

  lemma BootstrapKeepsAttempt(r: Records, m: Move, a: AttemptId)
    requires AttemptInv(r, a) && BootstrapAllows(r, m) && Touched(m) == Some(a)
    ensures AttemptInv(AfterMove(r, m), a)
  {
    if m.WriteGenesis? {
      GenesisIsValid(ReservationOf(r, a), m.createdAt);
    }
  }

  lemma ScopeKeepsAttempt(r: Records, m: Move, lease: Lease, a: AttemptId)
    requires AttemptInv(r, a) && ContextLoads(r) && ScopeAllows(r, m, lease) && Touched(m) == Some(a)
    ensures AttemptInv(AfterMove(r, m), a)
  {
    match m
    case FreezeAttempt(_, _) =>
    case WriteJournal(j) =>
      var expected :| Accepted(r, j, lease, expected);
    case WriteEvidence(e) =>
  }

  lemma BootstrapKeepsRecords(r: Records, m: Move)
    requires RecordsInv(r) && BootstrapAllows(r, m)
    ensures RecordsInv(AfterMove(r, m))
  {
    forall a: AttemptId
      ensures AttemptInv(AfterMove(r, m), a)
    {
      assert AttemptInv(r, a);
      if Touched(m) == Some(a) {
        BootstrapKeepsAttempt(r, m, a);
      } else {
        OthersKeepInv(r, m, a);
      }
    }
  }

  lemma ScopeKeepsRecords(r: Records, m: Move, lease: Lease)
    requires RecordsInv(r) && ContextLoads(r) && ScopeAllows(r, m, lease)
    ensures RecordsInv(AfterMove(r, m))
  {
    forall a: AttemptId
      ensures AttemptInv(AfterMove(r, m), a)
    {
      assert AttemptInv(r, a);
      if Touched(m) == Some(a) {
        ScopeKeepsAttempt(r, m, lease, a);
      } else {
        OthersKeepInv(r, m, a);
      }
    }
  }

  lemma ClearingKeepsRecords(r: Records)
    requires RecordsInv(r)
    ensures RecordsInv(AfterMove(r, ClearEnvelope))
  {
    forall a: AttemptId
      ensures AttemptInv(AfterMove(r, ClearEnvelope), a)
    {
      assert AttemptInv(r, a);
      OthersKeepInv(r, ClearEnvelope, a);
    }
  }

  /**
   What evidence of the active attempt must be, field by field: new evidence is fixed by the records and the lease but
   for its final state and its time, and only the same evidence is accepted again.
   */
  predicate AcceptableEvidence(r: Records, e: TerminalEvidence, lease: Lease) {
    && r.active.Some? && r.active.value.attemptId in r.attempts
    && r.active.value.attemptId in r.reservations && r.active.value.attemptId in r.journals
    && var a := r.active.value.attemptId;
       if a in r.evidence then
         && e == r.evidence[a]
         && (r.journals[a].status == JournalActive ==> e.activeJournalSha == JournalSha(r.journals[a]))
       else
         && r.journals[a].status == JournalActive
         && e == TerminalEvidence(a, r.reservations[a], r.attempts[a], r.journals[a].genesisSha,
                                  JournalSha(r.journals[a]), e.finalStateSha, lease.epoch, lease.tokenSha,
                                  LeaseSha(lease), e.completedAt)
  }

  lemma EvidenceIsFixed(r: Records, e: TerminalEvidence, lease: Lease)
    requires RecordsInv(r)
    ensures EvidenceAccepted(r, e, lease) <==> AcceptableEvidence(r, e, lease)
  {
    ContextLoadsIffActive(r);
    if r.active.Some? {
      assert AttemptInv(r, r.active.value.attemptId);
    }
  }

  /** The completion of the head: only the terminal fields are new, and they are those of the evidence. */
  predicate CompletedBy(head: TransactionJournal, e: TerminalEvidence, j: TransactionJournal) {
    && j == head.(status := JournalCompleted, terminalEvidenceSha := Some(EvidenceSha(e)), updatedAt := e.completedAt,
                  completedAt := Some(e.completedAt))
    && e.activeJournalSha == JournalSha(head) && head.updatedAt < e.completedAt
    && head.actions != [] && |head.actions| % 3 == 0
  }

  /** The head with more actions, all of them recorded under the lease. */
  predicate AppendedUnder(head: TransactionJournal, lease: Lease, j: TransactionJournal) {
    && j == head.(actions := j.actions, updatedAt := j.updatedAt)
    && head.actions < j.actions
    && forall i | |head.actions| <= i < |j.actions| ::
         && j.actions[i].leaseEpoch == lease.epoch && j.actions[i].leaseTokenSha == lease.tokenSha
         && j.actions[i].leaseRecordSha == LeaseSha(lease)
  }

  /** What a replacement of the journal of the active attempt must be, field by field. */
  predicate AcceptableJournal(r: Records, j: TransactionJournal, lease: Lease, expected: Option<Digest>) {
    && r.active.Some? && r.active.value.attemptId in r.journals
    && var a := r.active.value.attemptId;
       var head := r.journals[a];
       && expected == Some(JournalSha(head))
       && (j == head
           || (&& head.status == JournalActive
               && (AppendedUnder(head, lease, j) || (a in r.evidence && CompletedBy(head, r.evidence[a], j)))))
  }

  lemma JournalIsFixed(r: Records, j: TransactionJournal, lease: Lease, expected: Option<Digest>)
    requires RecordsInv(r) && ValidJournal(j)
    ensures Accepted(r, j, lease, expected) <==> AcceptableJournal(r, j, lease, expected)
  {
    ContextLoadsIffActive(r);
    if r.active.Some? {
      var a := r.active.value.attemptId;
      assert AttemptInv(r, a);
      if r.journals[a].status == JournalActive && j != r.journals[a] {
        if j.status == JournalCompleted {
          CompletionIsFixed(r, r.journals[a], j);
        } else {
          AppendingIsFixed(r.journals[a], j, lease);
        }
      }
    }
  }

  lemma CompletionIsFixed(r: Records, head: TransactionJournal, j: TransactionJournal)
    requires AttemptInv(r, head.attemptId) && head.attemptId in r.journals && r.journals[head.attemptId] == head
    requires head.status == JournalActive && j.status == JournalCompleted && ValidJournal(j)
    ensures SameIdentity(j, head) && JournalSuccessor(head, j) && CompletesWith(r, head, j) <==>
            head.attemptId in r.evidence && CompletedBy(head, r.evidence[head.attemptId], j)
  {
    CommittedIffWholeSteps(head);
    if head.attemptId in r.evidence {
      var e := r.evidence[head.attemptId];
      if JournalSuccessor(head, j) && e.activeJournalSha == JournalSha(head) {
        CompletedFromHead(head, j, e);
      }
      if CompletedBy(head, e, j) {
        assert ActiveView(j) == head;
      }
    }
  }

  lemma AppendingIsFixed(head: TransactionJournal, j: TransactionJournal, lease: Lease)
    requires ValidJournal(head) && ValidJournal(j) && head.status == j.status == JournalActive && j != head
    ensures SameIdentity(j, head) && JournalSuccessor(head, j) && AppendedStamped(head, j, lease) <==>
            AppendedUnder(head, lease, j)
  {
  }

  /** The envelope names the reservation of its attempt and the genesis of its journal. */
  predicate NamesItsRecords(r: Records, e: Envelope) {
    && e.attemptId in r.reservations && e.attemptId in r.journals
    && e == Envelope(e.attemptId, r.reservations[e.attemptId], r.journals[e.attemptId].genesisSha, e.controller)
  }

  predicate StillEmpty(r: Records, a: AttemptId) {
    a in r.journals && r.journals[a].actions == []
  }

  lemma EnvelopeIsFixed(r: Records, e: Envelope)
    requires RecordsInv(r)
    ensures EnvelopeFits(r, e) <==> NamesItsRecords(r, e)
    ensures AtGenesis(r, e.attemptId) <==> StillEmpty(r, e.attemptId)
  {
    assert AttemptInv(r, e.attemptId);
  }

  // --- what no move undoes ------------------------------------------------------------------

  ghost predicate Grows(was: TransactionJournal, now: TransactionJournal) {
    && SameIdentity(now, was)
    && was.actions <= now.actions
    && (was.status == JournalCompleted ==> now == was)
  }

  /** Records are never lost; a journal only grows, and everything else stays as it was written. */
  ghost predicate Extends(r: Records, t: Records) {
    && (forall a | a in r.reservations :: a in t.reservations && t.reservations[a] == r.reservations[a])
    && (forall a | a in r.envelopes :: a in t.envelopes && t.envelopes[a] == r.envelopes[a])
    && (forall a | a in r.attempts :: a in t.attempts && t.attempts[a] == r.attempts[a])
    && (forall a | a in r.evidence :: a in t.evidence && t.evidence[a] == r.evidence[a])
    && (forall a | a in r.journals :: a in t.journals && Grows(r.journals[a], t.journals[a]))
  }

  lemma BootstrapExtends(r: Records, m: Move)
    requires BootstrapAllows(r, m)
    ensures Extends(r, AfterMove(r, m))
  {
  }

  lemma ScopeExtends(r: Records, m: Move, lease: Lease)
    requires RecordsInv(r) && ScopeAllows(r, m, lease)
    ensures Extends(r, AfterMove(r, m))
  {
    if m.WriteJournal? {
      var expected :| Accepted(r, m.journal, lease, expected);
      var head := r.journals[r.active.value.attemptId];
      assert head.attemptId == r.active.value.attemptId;
      SuccessorOnlyAppends(head, m.journal);
    }
  }
}
