/**
 The stores on one disk. Bootstrap and transaction records are one field and the lease files are those of the gate;
 every call reads its context from the disk, and a ghost run of the control plane follows every file write.
 */
module TransactionStores {
  import opened Wrappers
  import opened ControlRecords
  import opened LeaseProtocol
  import opened LeaseSafety
  import opened TransactionJournals
  import opened ControlLeaseStores
  import opened TransactionRecords
  import opened ControlPlane
  import opened ControlPlaneSafety
  import opened GateRuns

  /** How a call that needs one file write ends; with `may` it is refused never, and without it always. */
  ghost predicate Writes<T>(reply: Reply<T>, before: Records, after: Records, next: Records, may: bool,
                             writesLeft: nat) {
    match reply
    case Done(_) => may && after == next
    case Refused(_) => !may && after == before
    case Escaped(_) => false
    case PowerLost => may && after == before && writesLeft == 0
  }

  /** How a call that first completes what is pending, and then needs `may`, leaves the lease files. */
  ghost predicate Passes<T>(reply: Reply<T>, before: LeaseState, after: LeaseState, may: bool) {
    match reply
    case Done(_) => may && after == Settled(before)
    case Refused(_) => !may && after == Settled(before)
    case Escaped(_) => false
    case PowerLost => Settled(after) == Settled(before)
  }

  /** The same for a call that then issues `next`. */
  ghost predicate IssuesIf<T>(reply: Reply<T>, before: LeaseState, after: LeaseState, may: bool, next: Lease) {
    match reply
    case Done(_) => may && after == IssueAtomically(Settled(before), next)
    case Refused(_) => !may && after == Settled(before)
    case Escaped(_) => false
    case PowerLost => IssuesAtMost(before, after, may, next)
  }

  function HolderOf(s: LeaseState): Lease {
    if s.files.current.Some? then s.files.current.value else FirstLease(0)
  }

  /**
   How a write behind a mutation scope ends: refused exactly if the caller does not hold the settled lease or the write
   is not acceptable under it, and cut off only if the power does not last for the three lease files and its own.
   */
  ghost predicate Decides<T>(reply: Reply<T>, before: Records, after: Records, next: Records, may: bool,
                             writesLeft: nat) {
    match reply
    case Done(_) => may && after == next
    case Refused(_) => !may && after == before
    case Escaped(_) => false
    case PowerLost => after == before && writesLeft < 4
  }

  // --- what the bootstrap store accepts -----------------------------------------------------

  predicate GenesisAccepted(r: Records, journal: TransactionJournal) {
    && journal.attemptId in r.reservations
    && journal == Genesis(ReservationOf(r, journal.attemptId), journal.createdAt)
    && (journal.attemptId in r.journals ==>
          HeadLoads(r, journal.attemptId) && r.journals[journal.attemptId].createdAt == journal.createdAt)
  }

  predicate EnvelopeAccepted(r: Records, e: Envelope) {
    && EnvelopeFits(r, e)
    && (if e.attemptId in r.envelopes then r.envelopes[e.attemptId] == e else AtGenesis(r, e.attemptId))
  }

  class RuntimeTransactionStore {
    const gate: ControlLeaseStore
    var records: Records
    /** The run of the control plane so far. */
    ghost var run: seq<Plane>

    ghost predicate Valid()
      reads this, gate
    {
      gate.Valid() && IsPlaneRun(run) && Now(run) == Plane(gate.State(), records)
    }

    /** The stores on an empty disk. */
    constructor (gate: ControlLeaseStore)
      requires gate.Valid() && gate.trace == [Start]
      ensures Valid() && this.gate == gate && records == NoRecords && run == [PlaneStart]
    {
      this.gate := gate;
      records := NoRecords;
      run := [PlaneStart];
    }

    /** The machine starts again, and this time `writes` file writes complete. */
    method Restart(writes: nat)
      requires Valid()
      modifies gate`writesLeft
      ensures Valid() && gate.State() == old(gate.State()) && gate.writesLeft == writes
    {
      gate.Restart(writes);
    }

    /** One file write; nothing happens if the machine stops before it. */
    method Write(m: Move) returns (written: bool)
      requires Valid() && Allowed(Now(run), m)
      modifies this`records, this`run, gate`writesLeft
      ensures Valid() && old(run) <= run && gate.State() == old(gate.State())
      ensures records == if written then AfterMove(old(records), m) else old(records)
      ensures !written ==> old(gate.writesLeft) == 0
      ensures gate.writesLeft + 1 >= old(gate.writesLeft)
    {
      ghost var longer := MoveContinuesRun(run, m);
      written := gate.SpendWrite();
      if written {
        records, run := AfterMove(records, m), longer;
      }
    }

    /** Follows the file operations of a call to the gate. */
    ghost method Follow(before: seq<LeaseState>)
      requires gate.Valid() && IsPlaneRun(run) && before != []
      requires Now(run) == Plane(before[|before| - 1], records)
      requires DecidedUnder(before, gate.trace, BootOf(records))
      modifies this`run
      ensures Valid() && old(run) <= run
    {
      run := CallContinuesRun(run, before, gate.trace);
    }

    lemma NotBlocked()
      requires Valid()
      ensures !Blocked(gate.State(), BootOf(records)) && PlaneInv(Now(run))
    {
      DecisionsStayValid(run, |run| - 1);
      PlaneRunKeepsInv(run, |run| - 1);
    }

    lemma RecordsAreSound()
      requires Valid()
      ensures RecordsInv(records)
    {
      NotBlocked();
    }

    // --- the bootstrap ----------------------------------------------------------------------

    /** Exclusive creation: an attempt is reserved once. */
    method ReserveAttempt(reservation: Reservation) returns (reply: Reply<()>)
      requires Valid()
      modifies this`records, this`run, gate`writesLeft
      ensures Valid() && old(run) <= run && gate.State() == old(gate.State())
      ensures Writes(reply, old(records), records,
                     old(records).(reservations := old(records).reservations[reservation.attemptId := reservation.sha]),
                     reservation.attemptId !in old(records).reservations, old(gate.writesLeft))
    {
      if reservation.attemptId in records.reservations {
        return Refused("the attempt is reserved already");
      }
      var written := Write(Reserve(reservation));
      reply := if written then Done(()) else PowerLost;
    }

    /** The empty journal of a reserved attempt; it may be offered again after the head has moved on. */
    method WriteJournalGenesisOnce(journal: TransactionJournal) returns (reply: Reply<TransactionJournal>)
      requires Valid()
      modifies this`records, this`run, gate`writesLeft
      ensures Valid() && old(run) <= run && gate.State() == old(gate.State())
      ensures reply.Refused? <==> !GenesisAccepted(old(records), journal)
      ensures !reply.Escaped? && (reply.PowerLost? ==> old(gate.writesLeft) == 0)
      ensures reply.Done? ==> reply.value == journal
      ensures records == if reply.Done? && journal.attemptId !in old(records).journals
                         then old(records).(journals := old(records).journals[journal.attemptId := journal])
                         else old(records)
    {
      var a := journal.attemptId;
      if a !in records.reservations || journal != Genesis(ReservationOf(records, a), journal.createdAt) {
        return Refused("the journal is not the genesis of its reservation");
      }
      if a in records.journals {
        if !HeadLoads(records, a) || records.journals[a].createdAt != journal.createdAt {
          return Refused("another genesis is in place");
        }
        return Done(journal);
      }
      var written := Write(WriteGenesis(a, journal.createdAt));
      reply := if written then Done(journal) else PowerLost;
    }

    /** Seals the envelope of an attempt while its journal is still empty; afterwards only the same one is accepted. */
    method WriteEnvelopeOnce(e: Envelope) returns (reply: Reply<Envelope>)
      requires Valid()
      modifies this`records, this`run, gate`writesLeft
      ensures Valid() && old(run) <= run && gate.State() == old(gate.State())
      ensures reply.Refused? <==> !EnvelopeAccepted(old(records), e)
      ensures reply.Refused? <==>
                !(&& NamesItsRecords(old(records), e)
                  && if e.attemptId in old(records).envelopes then old(records).envelopes[e.attemptId] == e
                     else StillEmpty(old(records), e.attemptId))
      ensures !reply.Escaped? && (reply.PowerLost? ==> old(gate.writesLeft) == 0)
      ensures reply.Done? ==> reply.value == e
      ensures records == if reply.Done? then old(records).(envelopes := old(records).envelopes[e.attemptId := e])
                         else old(records)
    {
      RecordsAreSound();
      EnvelopeIsFixed(records, e);
      if !EnvelopeFits(records, e) {
        return Refused("the envelope does not fit the reservation and the genesis");
      }
      if e.attemptId in records.envelopes {
        if records.envelopes[e.attemptId] != e {
          return Refused("another envelope is in place");
        }
        assert records.envelopes[e.attemptId := e] == records.envelopes;
        return Done(e);
      }
      if !AtGenesis(records, e.attemptId) {
        return Refused("the journal is not empty any more");
      }
      var written := Write(Seal(e));
      reply := if written then Done(e) else PowerLost;
    }

    /** Activates a sealed envelope: exactly if no envelope is active and the journal of the attempt is still empty. */
    method PublishActiveEnvelopeIfAbsent(e: Envelope) returns (reply: Reply<Envelope>)
      requires Valid()
      modifies this`records, this`run, gate`writesLeft
      ensures Valid() && old(run) <= run && gate.State() == old(gate.State())
      ensures Writes(reply, old(records), records, old(records).(active := Some(e)),
                     && old(records).active.None? && StillEmpty(old(records), e.attemptId)
                     && e.attemptId in old(records).envelopes && old(records).envelopes[e.attemptId] == e,
                     old(gate.writesLeft))
    {
      RecordsAreSound();
      assert AttemptInv(records, e.attemptId);
      EnvelopeIsFixed(records, e);
      if e.attemptId !in records.envelopes || records.active.Some? || !EnvelopeFits(records, e)
         || !AtGenesis(records, e.attemptId) || records.envelopes[e.attemptId] != e
      {
        return Refused("the envelope cannot be activated");
      }
      var written := Write(Activate(e));
      reply := if written then Done(e) else PowerLost;
    }

    // --- leases -----------------------------------------------------------------------------

    /** Completes what is pending. In no state that the stores can come to is this refused. */
    method RecoverPendingTransition() returns (reply: Reply<Option<Lease>>)
      requires Valid()
      modifies this`run, gate
      ensures Valid() && old(run) <= run
      ensures reply.Done? || (reply.PowerLost? && old(gate.writesLeft) < 3)
      ensures reply.Done? ==> gate.State() == Settled(old(gate.State()))
      ensures Settled(gate.State()) == Settled(old(gate.State()))
    {
      ghost var before := gate.trace;
      NotBlocked();
      reply := gate.Reconcile(BootOf(records));
      SettledTwice(before[|before| - 1]);
      NothingIsAdmitted(before, gate.trace, BootOf(records));
      Follow(before);
    }

    /** The first lease of the active attempt. */
    method AcquireInitial(owner: string, token: nat, issuedAt: Time) returns (reply: Reply<(Lease, ControlLeaseProof)>)
      requires Valid()
      modifies this`run, gate
      ensures Valid() && old(run) <= run
      ensures IssuesIf(reply, old(gate.State()), gate.State(),
                       MayAcquire(Settled(old(gate.State())), BootOf(records), token),
                       InitialLease(ContextOf(BootOf(records)), token, owner, issuedAt))
      ensures reply.Done? ==> reply.value.0 == InitialLease(ContextOf(BootOf(records)), token, owner, issuedAt)
                              && ProofMatches(reply.value.0, reply.value.1)
      ensures reply.PowerLost? ==> old(gate.writesLeft) < 7
    {
      ghost var before, boot := gate.trace, BootOf(records);
      ghost var s := before[|before| - 1];
      ghost var next := InitialLease(ContextOf(boot), token, owner, issuedAt);
      NotBlocked();
      reply := gate.AcquireInitial(BootOf(records), owner, token, issuedAt);
      ConclusionIssuesAtMost(reply, s, gate.State(), boot, MayAcquire(Settled(s), boot, token), next);
      if MayAcquire(Settled(s), boot, token) {
        InitialIsAdmitted(Settled(s), boot, owner, token, issuedAt);
      }
      OneIsAdmitted(before, gate.trace, boot, MayAcquire(Settled(s), boot, token), next);
      Follow(before);
    }

    /** A takeover of exactly the given current lease. */
    method TakeOver(expected: Lease, owner: string, token: nat, issuedAt: Time)
      returns (reply: Reply<(Lease, ControlLeaseProof)>)
      requires Valid()
      modifies this`run, gate
      ensures Valid() && old(run) <= run
      ensures IssuesIf(reply, old(gate.State()), gate.State(),
                       MayTakeOver(Settled(old(gate.State())), BootOf(records), expected, token, issuedAt),
                       TakeoverLease(expected, token, owner, issuedAt))
      ensures reply.Done? ==> reply.value.0 == TakeoverLease(expected, token, owner, issuedAt)
                              && ProofMatches(reply.value.0, reply.value.1)
      ensures reply.PowerLost? ==> old(gate.writesLeft) < 7
    {
      ghost var before, boot := gate.trace, BootOf(records);
      ghost var s := before[|before| - 1];
      ghost var next := TakeoverLease(expected, token, owner, issuedAt);
      NotBlocked();
      reply := gate.TakeOver(BootOf(records), expected, owner, token, issuedAt);
      ConclusionIssuesAtMost(reply, s, gate.State(), boot, MayTakeOver(Settled(s), boot, expected, token, issuedAt),
                             next);
      if MayTakeOver(Settled(s), boot, expected, token, issuedAt) {
        TakeoverIsAdmitted(Settled(s), boot, expected, owner, token, issuedAt);
      }
      OneIsAdmitted(before, gate.trace, boot, MayTakeOver(Settled(s), boot, expected, token, issuedAt), next);
      Follow(before);
    }

    /** Retires the current lease with the terminal records that are on the disk. */
    method RetireCurrent(proof: ControlLeaseProof, completed: TerminalInputs, retiredAt: Time)
      returns (reply: Reply<Lease>)
      requires Valid()
      modifies this`run, gate
      ensures Valid() && old(run) <= run
      ensures !reply.Escaped? ==>
                IssuesIf(reply, old(gate.State()), gate.State(),
                         MayRetire(Settled(old(gate.State())), BootOf(records), proof, completed, retiredAt),
                         NextTombstone(Settled(old(gate.State())), completed, retiredAt))
      ensures reply.Escaped? ==> gate.State() == Settled(old(gate.State()))
      ensures reply.Done? || reply.Refused? ==>
                !Untimely(Settled(old(gate.State())), BootOf(records), proof, completed, retiredAt)
      ensures reply.Escaped? ==> Untimely(Settled(old(gate.State())), BootOf(records), proof, completed, retiredAt)
      ensures reply.PowerLost? ==> old(gate.writesLeft) < 7
    {
      ghost var before, boot := gate.trace, BootOf(records);
      ghost var s := before[|before| - 1];
      ghost var next := NextTombstone(Settled(s), completed, retiredAt);
      NotBlocked();
      reply := gate.RetireCurrent(BootOf(records), proof, completed, retiredAt);
      SettledTwice(s);
      if !reply.Escaped? {
        ConclusionIssuesAtMost(reply, s, gate.State(), boot, MayRetire(Settled(s), boot, proof, completed, retiredAt),
                               next);
      }
      if MayRetire(Settled(s), boot, proof, completed, retiredAt) {
        RetirementIsAdmitted(Settled(s), boot, proof, completed, retiredAt);
      }
      OneIsAdmitted(before, gate.trace, boot, MayRetire(Settled(s), boot, proof, completed, retiredAt), next);
      Follow(before);
    }

    /** Settles the lease store and asks it for a scope. */
    method GrantMutation(proof: ControlLeaseProof) returns (reply: Reply<MutationScope>)
      requires Valid()
      modifies this`run, gate
      ensures Valid() && old(run) <= run
      ensures Settled(gate.State()) == Settled(old(gate.State()))
      ensures Passes(reply, old(gate.State()), gate.State(),
                     MayMutate(Settled(old(gate.State())), BootOf(records), proof))
      ensures reply.Done? ==> InScope(Now(run), reply.value, proof)
      ensures reply.PowerLost? ==> old(gate.writesLeft) < 3
      ensures gate.writesLeft + 3 >= old(gate.writesLeft)
    {
      ghost var before := gate.trace;
      NotBlocked();
      reply := gate.Mutation(BootOf(records), proof);
      SettledTwice(before[|before| - 1]);
      NothingIsAdmitted(before, gate.trace, BootOf(records));
      Follow(before);
    }

    /** Opens a verified mutation scope; nothing of the other records changes. */
    method Enter(proof: ControlLeaseProof) returns (reply: Reply<MutationScope>)
      requires Valid()
      modifies this`run, gate
      ensures Valid() && old(run) <= run
      ensures Settled(gate.State()) == Settled(old(gate.State()))
      ensures Passes(reply, old(gate.State()), gate.State(),
                     MayMutate(Settled(old(gate.State())), BootOf(records), proof))
      ensures reply.Done? ==> InScope(Now(run), reply.value, proof)
      ensures reply.PowerLost? ==> old(gate.writesLeft) < 3
      ensures gate.writesLeft + 3 >= old(gate.writesLeft)
    {
      reply := GrantMutation(proof);
      if reply.Done? {
        var verified := gate.Verify(ActiveContext(records), reply.value, proof);
        if !verified {
          reply := Refused("the scope does not verify");
        }
      }
    }

    // --- writes behind a scope --------------------------------------------------------------

    /** One file write inside a verified scope. */
    method WriteInScope(m: Move, scope: MutationScope, proof: ControlLeaseProof) returns (written: bool)
      requires Valid() && InScope(Now(run), scope, proof) && ScopeAllows(records, m, scope.snapshot)
      modifies this`records, this`run, gate`writesLeft
      ensures Valid() && old(run) <= run && gate.State() == old(gate.State())
      ensures records == if written then AfterMove(old(records), m) else old(records)
      ensures !written ==> old(gate.writesLeft) == 0
    {
      assert ScopedMove(Now(run), m);
      written := Write(m);
    }

    /** Freezes the deployment attempt of the active reservation, once. */
    method WriteAttemptOnce(a: AttemptId, digest: Digest, proof: ControlLeaseProof) returns (reply: Reply<Digest>)
      requires Valid()
      modifies this`records, this`run, gate
      ensures Valid() && old(run) <= run
      ensures Settled(gate.State()) == Settled(old(gate.State()))
      ensures !reply.PowerLost? ==> gate.State() == Settled(old(gate.State()))
      ensures Decides(reply, old(records), records,
                      old(records).(attempts := old(records).attempts[a := digest]),
                      && MayMutate(Settled(old(gate.State())), BootOf(old(records)), proof)
                      && IsActive(old(records), a)
                      && (a in old(records).attempts ==> old(records).attempts[a] == digest),
                      old(gate.writesLeft))
    {
      var scope :- Enter(proof);
      if !IsActive(records, a) {
        return Refused("the attempt is not the active one");
      }
      if a in records.attempts {
        assert records.attempts[a := records.attempts[a]] == records.attempts;
        return if records.attempts[a] == digest then Done(digest) else Refused("another attempt is frozen");
      }
      var written := WriteInScope(FreezeAttempt(a, digest), scope, proof);
      reply := if written then Done(digest) else PowerLost;
    }

    /** Everything that is checked about a replacement once its scope is known. */
    method AcceptsReplacement(desired: TransactionJournal, lease: Lease, expected: Option<Digest>) returns (ok: bool)
      ensures ok <==> Accepted(records, desired, lease, expected)
      ensures RecordsInv(records) && ValidJournal(desired) ==>
                (ok <==> AcceptableJournal(records, desired, lease, expected))
    {
      if RecordsInv(records) && ValidJournal(desired) {
        JournalIsFixed(records, desired, lease, expected);
      }
      if !ContextLoads(records) {
        return false;
      }
      var a := records.active.value.attemptId;
      var head := records.journals[a];
      if !SameIdentity(desired, head) || expected != Some(JournalSha(head)) {
        return false;
      }
      if desired == head {
        return true;
      }
      if !JournalSuccessor(head, desired) {
        return false;
      }
      for i := |head.actions| to |desired.actions|
        invariant forall k | |head.actions| <= k < i :: Stamped(desired.actions[k], lease)
      {
        if !Stamped(desired.actions[i], lease) {
          return false;
        }
      }
      if desired.status == JournalActive {
        return true;
      }
      if a !in records.evidence || a !in records.attempts
         || !EvidenceIdentity(records.evidence[a], head, records.attempts[a])
         || records.evidence[a].activeJournalSha != JournalSha(head)
      {
        return false;
      }
      ok := VerifyTransactionCompletion(desired, records.evidence[a]);
    }

    /** In a verified scope exactly the accepted replacements are written. */
    method CommitJournal(journal: TransactionJournal, scope: MutationScope, proof: ControlLeaseProof,
                         expected: Option<Digest>) returns (reply: Reply<TransactionJournal>)
      requires Valid() && ValidJournal(journal) && InScope(Now(run), scope, proof)
      modifies this`records, this`run, gate`writesLeft
      ensures Valid() && old(run) <= run && gate.State() == old(gate.State())
      ensures Writes(reply, old(records), records,
                     old(records).(journals := old(records).journals[journal.attemptId := journal]),
                     AcceptableJournal(old(records), journal, scope.snapshot, expected), old(gate.writesLeft))
      ensures reply.Done? ==> reply.value == journal
    {
      RecordsAreSound();
      JournalIsFixed(records, journal, scope.snapshot, expected);
      var accepted := AcceptsReplacement(journal, scope.snapshot, expected);
      reply := Refused("not an acceptable successor");
      if accepted {
        if journal == records.journals[journal.attemptId] {
          assert records.journals[journal.attemptId := journal] == records.journals;
          reply := Done(journal);
        } else {
          var written := WriteInScope(Move.WriteJournal(journal), scope, proof);
          reply := if written then Done(journal) else PowerLost;
        }
      }
    }

    /**
     Replaces the journal head `expected` of the active attempt. A completed journal is accepted only with its
     evidence already in place.
     */
    method WriteJournal(journal: TransactionJournal, proof: ControlLeaseProof, expected: Option<Digest>)
      returns (reply: Reply<TransactionJournal>)
      requires Valid() && ValidJournal(journal)
      modifies this`records, this`run, gate
      ensures Valid() && old(run) <= run
      ensures Settled(gate.State()) == Settled(old(gate.State()))
      ensures !reply.PowerLost? ==> gate.State() == Settled(old(gate.State()))
      ensures Decides(reply, old(records), records,
                      old(records).(journals := old(records).journals[journal.attemptId := journal]),
                      && MayMutate(Settled(old(gate.State())), BootOf(old(records)), proof)
                      && AcceptableJournal(old(records), journal, HolderOf(Settled(old(gate.State()))), expected),
                      old(gate.writesLeft))
      ensures reply.Done? ==> reply.value == journal
    {
      var scope :- Enter(proof);
      reply := CommitJournal(journal, scope, proof, expected);
    }

    /** Everything that is checked about terminal evidence once its scope is known. */
    method AcceptsEvidence(e: TerminalEvidence, lease: Lease) returns (ok: bool)
      requires RecordsInv(records)
      ensures ok <==> EvidenceAccepted(records, e, lease)
      ensures ok <==> AcceptableEvidence(records, e, lease)
    {
      EvidenceIsFixed(records, e, lease);
      if !ContextLoads(records) {
        return false;
      }
      var a := records.active.value.attemptId;
      assert AttemptInv(records, a);
      var head := records.journals[a];
      if a !in records.attempts || !EvidenceIdentity(e, head, records.attempts[a]) {
        return false;
      }
      if head.status == JournalActive && e.activeJournalSha != JournalSha(head) {
        return false;
      }
      if a in records.evidence {
        return records.evidence[a] == e;
      }
      return head.status == JournalActive && EvidenceStamped(e, lease);
    }

    /** In a verified scope exactly the acceptable evidence is written. */
    method CommitEvidence(e: TerminalEvidence, scope: MutationScope, proof: ControlLeaseProof)
      returns (reply: Reply<TerminalEvidence>)
      requires Valid() && InScope(Now(run), scope, proof)
      modifies this`records, this`run, gate`writesLeft
      ensures Valid() && old(run) <= run && gate.State() == old(gate.State())
      ensures Writes(reply, old(records), records,
                     old(records).(evidence := old(records).evidence[e.attemptId := e]),
                     AcceptableEvidence(old(records), e, scope.snapshot), old(gate.writesLeft))
      ensures reply.Done? ==> reply.value == e
    {
      RecordsAreSound();
      var accepted := AcceptsEvidence(e, scope.snapshot);
      reply := Refused("evidence does not fit");
      if accepted {
        if e.attemptId in records.evidence {
          assert records.evidence[e.attemptId := e] == records.evidence;
          reply := Done(e);
        } else {
          var written := WriteInScope(WriteEvidence(e), scope, proof);
          reply := if written then Done(e) else PowerLost;
        }
      }
    }

    /**
     Publishes terminal evidence once. New evidence names the active head and is stamped with the current
     lease; existing evidence is never changed, and accepted again only if it is the same.
     */
    method WriteTerminalEvidenceOnce(e: TerminalEvidence, proof: ControlLeaseProof)
      returns (reply: Reply<TerminalEvidence>)
      requires Valid()
      modifies this`records, this`run, gate
      ensures Valid() && old(run) <= run
      ensures Settled(gate.State()) == Settled(old(gate.State()))
      ensures !reply.PowerLost? ==> gate.State() == Settled(old(gate.State()))
      ensures Decides(reply, old(records), records,
                      old(records).(evidence := old(records).evidence[e.attemptId := e]),
                      && MayMutate(Settled(old(gate.State())), BootOf(old(records)), proof)
                      && AcceptableEvidence(old(records), e, HolderOf(Settled(old(gate.State())))),
                      old(gate.writesLeft))
      ensures reply.Done? ==> reply.value == e
    {
      var scope :- Enter(proof);
      reply := CommitEvidence(e, scope, proof);
    }

    // --- the end of an attempt --------------------------------------------------------------

    /**
     Clears the active envelope of a retired attempt. It is refused exactly if the given tombstone is not the settled
     current lease, or another attempt has been activated since; whatever else the store checks always holds. An
     envelope that is gone already is no error.
     */
    method ClearTerminalEnvelope(retired: Lease) returns (reply: Reply<()>)
      requires Valid()
      modifies this`records, this`run, gate
      ensures Valid() && old(run) <= run
      ensures Settled(gate.State()) == Settled(old(gate.State()))
      ensures !reply.PowerLost? ==> gate.State() == Settled(old(gate.State()))
      ensures Decides(reply, old(records), records, old(records).(active := None),
                      && retired.status == Retired
                      && Settled(old(gate.State())).files.current == Some(retired)
                      && (old(records).active.Some? ==> IsActive(old(records), retired.attemptId)),
                      old(gate.writesLeft))
    {
      var _ :- GrantCleanup(retired);
      reply := ClearGranted(retired);
    }

    /** Opens the scope of the cleanup. */
    method GrantCleanup(retired: Lease) returns (reply: Reply<()>)
      requires Valid()
      modifies this`run, gate
      ensures Valid() && old(run) <= run
      ensures Settled(gate.State()) == Settled(old(gate.State()))
      ensures Passes(reply, old(gate.State()), gate.State(),
                     retired.status == Retired && Settled(old(gate.State())).files.current == Some(retired))
      ensures reply.Done? ==>
                gate.pending.None? && gate.current == Some(retired) && VerifiedTombstone(gate.history, retired)
      ensures reply.PowerLost? ==> old(gate.writesLeft) < 3
      ensures gate.writesLeft + 3 >= old(gate.writesLeft)
    {
      ghost var before := gate.trace;
      NotBlocked();
      reply := gate.TerminalCleanup(BootOf(records), retired);
      SettledTwice(before[|before| - 1]);
      NothingIsAdmitted(before, gate.trace, BootOf(records));
      Follow(before);
    }

    /** The cleanup once its scope is granted. */
    method ClearGranted(retired: Lease) returns (reply: Reply<()>)
      requires Valid() && gate.pending.None? && gate.current == Some(retired) && retired.status == Retired
      requires VerifiedTombstone(gate.history, retired)
      modifies this`records, this`run, gate`writesLeft
      ensures Valid() && old(run) <= run && gate.State() == old(gate.State())
      ensures Writes(reply, old(records), records, old(records).(active := None),
                     old(records).active.Some? ==> IsActive(old(records), retired.attemptId), old(gate.writesLeft))
    {
      TombstoneFacts(retired);
      var binds := BindsTombstone(retired);
      if !binds {
        reply := Refused("the tombstone does not bind to its records");
      } else if records.active.None? {
        reply := Done(());
      } else if !ContextLoads(records) || records.active.value.attemptId != retired.attemptId {
        reply := Refused("another envelope is active");
      } else {
        var written := Write(ClearEnvelope);
        reply := if written then Done(()) else PowerLost;
      }
    }

    lemma TombstoneFacts(retired: Lease)
      requires Valid() && gate.pending.None? && gate.current == Some(retired) && retired.status == Retired
      requires VerifiedTombstone(gate.history, retired)
      ensures TombstoneBinds(records, retired)
      ensures records.active.Some? ==> ContextLoads(records)
      ensures IsActive(records, retired.attemptId) ==> Allowed(Now(run), ClearEnvelope)
    {
      NotBlocked();
      CleanupPasses(Now(run));
      CleanupIsNeverStuck(Now(run));
    }

    /** The checks of the cleanup on the records, in their order. */
    method BindsTombstone(retired: Lease) returns (ok: bool)
      ensures ok <==> TombstoneBinds(records, retired)
    {
      var a := retired.attemptId;
      if !HeadLoads(records, a) || a !in records.evidence {
        return false;
      }
      var complete := VerifyTransactionCompletion(records.journals[a], records.evidence[a]);
      return
        && complete
        && retired.terminalJournalSha == Some(JournalSha(records.journals[a]))
        && retired.terminalEvidenceSha == Some(EvidenceSha(records.evidence[a]))
        && a in records.envelopes && EnvelopeFits(records, records.envelopes[a])
        && retired.reservationSha == records.reservations[a]
        && a in records.attempts
        && EvidenceIdentity(records.evidence[a], records.journals[a], records.attempts[a]);
    }
  }

  /** Everything that the cleanup asks of the records of a tombstone. */
  ghost predicate TombstoneBinds(r: Records, t: Lease) {
    && HeadLoads(r, t.attemptId) && TombstoneBound(r, t)
    && t.attemptId in r.envelopes && EnvelopeFits(r, r.envelopes[t.attemptId])
    && t.reservationSha == r.reservations[t.attemptId]
    && t.attemptId in r.attempts
    && EvidenceIdentity(r.evidence[t.attemptId], r.journals[t.attemptId], r.attempts[t.attemptId])
  }

  /** What the cleanup checks of the records always holds. */
  lemma CleanupPasses(p: Plane)
    requires PlaneInv(p) && p.lease.files.current.Some? && p.lease.files.current.value.status == Retired
    ensures TombstoneBinds(p.records, p.lease.files.current.value)
    ensures p.records.active.Some? ==> ContextLoads(p.records)
  {
    var t := p.lease.files.current.value;
    assert t in p.lease.issued && IssueAccounted(p.records, t);
    assert AttemptInv(p.records, t.attemptId);
    ContextLoadsIffActive(p.records);
  }
}
