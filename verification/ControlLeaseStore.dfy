/**
 The control lease store and its persistence. The three kinds of managed files are fields; a call may be
 cut off after any single file write. All calls run under the one deployment lock, so they do not overlap.
 */
module ControlLeaseStores {
  import opened Wrappers
  import opened ControlRecords
  import opened ControlLeaseLineage
  import opened LeaseProtocol
  import opened LeaseSafety
  import opened TransactionJournals

  /**
   How a call ends: with a value, with an error of the store, with an exception that the store does not turn into
   an error of its own, or cut off because the machine stopped.
   */
  datatype Reply<+T> = Done(value: T) | Refused(error: string) | Escaped(error: string) | PowerLost {
    predicate IsFailure() {
      !Done?
    }

    function PropagateFailure<U>(): Reply<U>
      requires !Done?
    {
      if PowerLost? then PowerLost else if Escaped? then Escaped(error) else Refused(error)
    }

    function Extract(): T
      requires Done?
    {
      value
    }
  }

  datatype TerminalInputs = TerminalInputs(journal: TransactionJournal, evidence: TerminalEvidence)

  /** The bootstrap and terminal records outside the lease files: the active reservation and completed attempts. */
  datatype Bootstrap = Bootstrap(context: Option<Reservation>, terminals: map<AttemptId, TerminalInputs>)

  ghost predicate TerminalsBind(h: History, boot: Bootstrap, active: Lease, retiredAt: Time) {
    && active.attemptId in boot.terminals
    && var t := boot.terminals[active.attemptId];
       exists records ::
         IsLineage(h, records, active) && TerminalBinding(active, t.journal, t.evidence, retiredAt, records)
  }

  /** What the recovery re-validates about a pending intent before it completes it. */
  ghost predicate Admits(h: History, boot: Bootstrap, i: Intent) {
    && boot.context.Some?
    && match i.kind
       case Initial =>
         && (i.expected.Some? ==>
               && VerifiedTombstone(h, i.expected.value)
               && i.expected.value.attemptId != boot.context.value.attemptId)
         && BoundTo(i.next, boot.context.value)
       case Takeover =>
         && i.expected.Some?
         && HasLineage(h, i.expected.value)
         && BoundTo(i.expected.value, boot.context.value)
       case Retire =>
         && i.expected.Some?
         && BoundTo(i.expected.value, boot.context.value)
         && i.next.retiredAt.Some?
         && TerminalsBind(h, boot, i.expected.value, i.next.retiredAt.value)
         && i.next.terminalJournalSha == Some(JournalSha(boot.terminals[i.expected.value.attemptId].journal))
         && i.next.terminalEvidenceSha == Some(EvidenceSha(boot.terminals[i.expected.value.attemptId].evidence))
  }

  /** An initial lease may follow nothing, or the tombstone of another attempt. */
  ghost predicate MayAcquire(s: LeaseState, boot: Bootstrap, token: nat) {
    && boot.context.Some?
    && 0 < token < TOKEN_BOUND
    && (s.files.current.Some? ==>
          s.files.current.value.status == Retired && s.files.current.value.attemptId != boot.context.value.attemptId)
  }

  function InitialLease(reservation: Reservation, token: nat, owner: string, issuedAt: Time): Lease {
    ControlLeaseRecord(reservation.attemptId, reservation.sha, 1, TokenSha(token), owner, Active, issuedAt,
                       None, None, None, None, None)
  }

  ghost predicate MayTakeOver(s: LeaseState, boot: Bootstrap, current: Lease, token: nat, issuedAt: Time) {
    && boot.context.Some?
    && s.files.current == Some(current)
    && current.status == Active
    && current.epoch <= MAX_LINEAGE
    && BoundTo(current, boot.context.value)
    && 0 < token < TOKEN_BOUND
    && TokenSha(token) != current.tokenSha
    && current.issuedAt < issuedAt
  }

  function TakeoverLease(current: Lease, token: nat, owner: string, issuedAt: Time): Lease {
    ControlLeaseRecord(current.attemptId, current.reservationSha, current.epoch + 1, TokenSha(token), owner, Active,
                       issuedAt, Some(LeaseSha(current)), None, None, None, None)
  }

  /** Everything that the store checks about a retirement. */
  ghost predicate RetirementBinds(s: LeaseState, boot: Bootstrap, proof: ControlLeaseProof, completed: TerminalInputs,
                                  retiredAt: Time)
  {
    && boot.context.Some?
    && s.files.current.Some?
    && BoundTo(s.files.current.value, boot.context.value)
    && ProofMatches(s.files.current.value, proof)
    && TerminalsBind(s.files.history, boot, s.files.current.value, retiredAt)
    && boot.terminals[s.files.current.value.attemptId] == completed
  }

  ghost predicate MayRetire(s: LeaseState, boot: Bootstrap, proof: ControlLeaseProof, completed: TerminalInputs,
                            retiredAt: Time)
  {
    RetirementBinds(s, boot, proof, completed, retiredAt) && s.files.current.value.issuedAt < retiredAt
  }

  /** The one thing that is left to the constructor of the tombstone: it must be later than its lease. */
  ghost predicate Untimely(s: LeaseState, boot: Bootstrap, proof: ControlLeaseProof, completed: TerminalInputs,
                           retiredAt: Time)
  {
    RetirementBinds(s, boot, proof, completed, retiredAt) && retiredAt <= s.files.current.value.issuedAt
  }

  function Tombstone(current: Lease, completed: TerminalInputs, retiredAt: Time): Lease {
    current.(status := Retired, terminalJournalSha := Some(JournalSha(completed.journal)),
             terminalEvidenceSha := Some(EvidenceSha(completed.evidence)), retiredAt := Some(retiredAt),
             retiredFromSha := Some(LeaseSha(current)))
  }

  function NextTombstone(s: LeaseState, completed: TerminalInputs, retiredAt: Time): Lease {
    Tombstone(if s.files.current.Some? then s.files.current.value else FirstLease(0), completed, retiredAt)
  }

  function ContextOf(boot: Bootstrap): Reservation {
    if boot.context.Some? then boot.context.value else Reservation(0, ForeignSha(0))
  }

  /** A call that issues `next`: done, not begun, or cut off on one side of the commit point or the other. */
  ghost predicate Issues<T>(reply: Reply<T>, before: LeaseState, after: LeaseState, next: Lease) {
    match reply
    case Done(_) => after == IssueAtomically(before, next)
    case Refused(_) => after == before
    case Escaped(_) => after == before
    case PowerLost => Settled(after) == before || Settled(after) == IssueAtomically(before, next)
  }

  /** A pending decision that no longer validates blocks the store. */
  ghost predicate Blocked(s: LeaseState, boot: Bootstrap) {
    s.files.pending.Some? && !Admits(s.files.history, boot, s.files.pending.value)
  }

  /**
   How a call that first reconciles and then issues `next` may end. `may` says whether the issue is allowed
   in the settled state. A call that is cut off settles either to what was there before or to the issue.
   */
  ghost predicate Concludes<T>(reply: Reply<T>, before: LeaseState, after: LeaseState, boot: Bootstrap, may: bool,
                               next: Lease)
  {
    match reply
    case Done(_) => may && after == IssueAtomically(Settled(before), next)
    case Refused(_) => (after == before && Blocked(before, boot)) || (after == Settled(before) && !may)
    case Escaped(_) => false
    case PowerLost =>
      || Settled(after) == Settled(before)
      || (may && Settled(after) == IssueAtomically(Settled(before), next))
  }

  /** The holder of the token of the current lease, in its bootstrap context, up to epoch 128. */
  predicate MayMutate(s: LeaseState, boot: Bootstrap, proof: ControlLeaseProof) {
    && boot.context.Some?
    && s.files.current.Some?
    && s.files.current.value.epoch <= MAX_LINEAGE
    && BoundTo(s.files.current.value, boot.context.value)
    && ProofMatches(s.files.current.value, proof)
  }

  /** How a call that first reconciles and then grants a scope may end. */
  ghost predicate Grants<T>(reply: Reply<T>, before: LeaseState, after: LeaseState, boot: Bootstrap, may: bool) {
    match reply
    case Done(_) => !Blocked(before, boot) && may && after == Settled(before)
    case Refused(_) => (after == before && Blocked(before, boot)) || (after == Settled(before) && !may)
    case Escaped(_) => false
    case PowerLost => !Blocked(before, boot) && Settled(after) == Settled(before)
  }

  class ControlLeaseStore {
    var current: Option<Lease>
    var pending: Option<Intent>
    var history: History

    /** The number of file writes that still complete before the machine stops. */
    var writesLeft: nat

    /** Every state the files have gone through. */
    ghost var trace: seq<LeaseState>

    function Files(): LeaseFiles
      reads this
    {
      LeaseFiles(current, pending, history)
    }

    ghost predicate Valid()
      reads this
    {
      IsRun(trace) && State().files == Files()
    }

    ghost function State(): LeaseState
      reads this
    {
      if trace == [] then Start else trace[|trace| - 1]
    }

    constructor ()
      ensures Valid() && trace == [Start] && writesLeft == 0
    {
      current, pending, history, writesLeft := None, None, map[], 0;
      trace := [Start];
    }

    /** The machine starts again, and this time `writes` file writes complete. */
    method Restart(writes: nat)
      requires Valid()
      modifies this`writesLeft
      ensures Valid() && writesLeft == writes
    {
      writesLeft := writes;
    }

    /** One file write outside the lease files; false if the machine stops before it. */
    method SpendWrite() returns (ok: bool)
      requires Valid()
      modifies this`writesLeft
      ensures Valid() && State() == old(State()) && Files() == old(Files())
      ensures ok <==> old(writesLeft) > 0
      ensures writesLeft == if ok then old(writesLeft) - 1 else 0
    {
      ok := writesLeft > 0;
      if ok {
        writesLeft := writesLeft - 1;
      }
    }

    // --- single file writes -----------------------------------------------------------------

    ghost method Record(t: LeaseState)
      requires IsRun(trace) && Step(State(), t) && t.files == Files()
      modifies this`trace
      ensures Valid() && trace == old(trace) + [t]
    {
      var n := |trace|;
      trace := trace + [t];
      forall k | 0 < k < |trace|
        ensures StepAt(trace, k)
      {
        assert k < n ==> StepAt(old(trace), k);
      }
    }

    /** O_EXCL creation of the pending file; an existing file is accepted only with the same intent. */
    method PreparePendingTransition(i: Intent) returns (r: Reply<()>)
      requires Valid()
      requires pending.None? ==> Preparable(Files(), i)
      modifies this
      ensures !r.Escaped?
      ensures Valid() && old(trace) <= trace
      ensures r.Done? ==> pending == Some(i)
      ensures r.Done? && old(pending).None? ==> State() == old(State()).(files := old(Files()).(pending := Some(i)))
      ensures !r.Done? || old(pending).Some? ==> State() == old(State())
      ensures r.Refused? <==> old(pending).Some? && old(pending) != Some(i)
      ensures r.PowerLost? <==> old(pending).None? && old(writesLeft) == 0
      ensures writesLeft + 1 >= old(writesLeft)
    {
      if pending.Some? {
        if pending != Some(i) {
          return Refused("another transition is pending");
        }
        return Done(());
      }
      if writesLeft == 0 {
        return PowerLost;
      }
      pending, writesLeft := Some(i), writesLeft - 1;
      Record(State().(files := Files()));
      return Done(());
    }

    /** O_EXCL creation of the immutable history file of the pending record; the same record is accepted. */
    method FreezeHistory(r: Lease) returns (reply: Reply<()>)
      requires Valid()
      requires pending.Some? && pending.value.next == r
      modifies this
      ensures Valid() && old(trace) <= trace
      ensures reply.Done? ==>
                && State() == old(State()).(files := old(Files()).(history := old(history)[KeyOf(r) := r]))
                && InHistory(history, r)
      ensures !reply.Done? ==> State() == old(State())
      ensures !reply.Refused? && !reply.Escaped?
      ensures reply.PowerLost? <==> old(writesLeft) == 0 && KeyOf(r) !in old(history)
      ensures writesLeft + 1 >= old(writesLeft)
    {
      ghost var s := State();
      RunKeepsInv(trace, |trace| - 1);
      if KeyOf(r) in history {
        if LoadHistory(history, r.attemptId, LeaseSha(r)) != Some(r) {
          return Refused("history file has drifted");
        }
        assert history[KeyOf(r) := r] == history;
        return Done(());
      }
      if writesLeft == 0 {
        return PowerLost;
      }
      history, writesLeft := history[KeyOf(r) := r], writesLeft - 1;
      Record(s.(files := Files()));
      return Done(());
    }

    /** Publishes the pending record as current if current is still exactly the expected record. */
    method CompareAndSwapCurrent(expected: Option<Lease>, next: Lease) returns (reply: Reply<()>)
      requires Valid()
      requires pending.Some? && pending.value.next == next && pending.value.expected == expected
      modifies this
      ensures !reply.Escaped?
      ensures Valid() && old(trace) <= trace
      ensures reply.Done? ==>
                State() == LeaseState(old(Files()).(current := Some(next)), old(State()).issued + [next])
      ensures !reply.Done? ==> State() == old(State())
      ensures reply.Refused? <==> !InHistory(old(history), next) || old(current) != expected
      ensures reply.PowerLost? ==> old(writesLeft) == 0
      ensures writesLeft + 1 >= old(writesLeft)
    {
      ghost var s := State();
      if !InHistory(history, next) {
        return Refused("next record is not frozen");
      }
      if current != expected {
        return Refused("current has changed");
      }
      if writesLeft == 0 {
        return PowerLost;
      }
      current, writesLeft := Some(next), writesLeft - 1;
      Record(LeaseState(Files(), s.issued + [next]));
      return Done(());
    }

    /** Deletes the pending file if it still holds exactly this intent. */
    method ClearPendingTransitionExact(i: Intent) returns (reply: Reply<()>)
      requires Valid()
      requires pending == Some(i) ==> current == Some(i.next)
      modifies this
      ensures !reply.Escaped?
      ensures Valid() && old(trace) <= trace
      ensures reply.Done? ==> State() == old(State()).(files := old(Files()).(pending := None))
      ensures !reply.Done? ==> State() == old(State())
      ensures reply.Refused? <==> old(pending) != Some(i)
      ensures reply.PowerLost? ==> old(writesLeft) == 0
      ensures writesLeft + 1 >= old(writesLeft)
    {
      if pending != Some(i) {
        return Refused("pending transition is missing or has drifted");
      }
      if writesLeft == 0 {
        return PowerLost;
      }
      pending, writesLeft := None, writesLeft - 1;
      Record(State().(files := Files()));
      return Done(());
    }

    /**
     Freeze, publish and clear. If it returns, next is current, next is in history and nothing is pending;
     if it is cut off, the decision is still there for the next reconcile.
     */
    method FinalizePendingTransition(i: Intent, expected: Option<Lease>) returns (reply: Reply<Lease>)
      requires Valid()
      modifies this
      ensures !reply.Escaped?
      ensures Valid() && old(trace) <= trace
      ensures reply.Done? ==> reply.value == i.next && State() == IssueAtomically(old(State()), i.next)
      ensures reply.Refused? ==> State() == old(State())
      ensures reply.Refused? <==> expected != i.expected || old(pending) != Some(i) || old(current) != expected
      ensures reply.PowerLost? ==>
                old(writesLeft) < 3 && pending == Some(i) && Settled(State()) == Settled(old(State()))
      ensures writesLeft + 3 >= old(writesLeft)
    {
      if expected != i.expected || pending != Some(i) {
        return Refused("expected record differs from the intent, or the intent is not pending");
      }
      reply := FreezePublishClear(i);
    }

    method FreezePublishClear(i: Intent) returns (reply: Reply<Lease>)
      requires Valid() && pending == Some(i)
      modifies this
      ensures !reply.Escaped?
      ensures Valid() && old(trace) <= trace
      ensures reply.Done? ==> reply.value == i.next && State() == IssueAtomically(old(State()), i.next)
      ensures reply.Refused? ==> State() == old(State())
      ensures reply.Refused? <==> old(current) != i.expected
      ensures reply.PowerLost? ==>
                old(writesLeft) < 3 && pending == Some(i) && Settled(State()) == Settled(old(State()))
      ensures writesLeft + 3 >= old(writesLeft)
    {
      RunKeepsInv(trace, |trace| - 1);
      assert current != i.expected ==> InHistory(history, i.next);
      var _ :- FreezeHistory(i.next);
      assert current != i.expected ==> history == old(history);
      var _ :- CompareAndSwapCurrent(i.expected, i.next);
      var _ :- ClearPendingTransitionExact(i);
      return Done(i.next);
    }

    // --- reading back -----------------------------------------------------------------------

    /** Walks back from `active` through history, at most 128 records far, and verifies what it collected. */
    method ActiveLineageOf(active: Lease) returns (r: Result<seq<Lease>, string>)
      ensures r.Success? ==> IsLineage(history, r.value, active)
      ensures r.Failure? ==> !HasLineage(history, active)
    {
      if active.status != Active {
        return Failure("only an active lease has a lineage");
      }
      var records: seq<Lease> := [];
      var expected := active;
      var seen: set<Digest> := {};
      while true
        invariant |records| < MAX_LINEAGE
        invariant AllInHistory(history, records)
        invariant seen == Digests(records)
        invariant (if |records| == 0 then expected else records[|records| - 1]) == active
        invariant TailOfAll(history, active, [expected] + records)
        decreases MAX_LINEAGE - |records|
      {
        TailFacts(history, active, expected, records);
        if LoadHistory(history, expected.attemptId, LeaseSha(expected)) != Some(expected) {
          return Failure("history is missing or differs from the predecessor binding");
        }
        if LeaseSha(expected) in seen {
          return Failure("history has a cycle");
        }
        DigestsCons(expected, records);
        seen := seen + {LeaseSha(expected)};
        records := [expected] + records;
        if expected.predecessorSha.None? {
          break;
        }
        if |records| >= MAX_LINEAGE {
          return Failure("lineage exceeds its fixed limit");
        }
        var predecessor := LoadHistory(history, expected.attemptId, expected.predecessorSha.value);
        if predecessor.None? {
          return Failure("predecessor is missing from history");
        }
        expected := predecessor.value;
      }
      var ok := VerifyActiveLineage(records);
      if ok {
        return Success(records);
      }
      return Failure("lineage is invalid");
    }

    method VerifyRetiredTombstone(r: Lease) returns (ok: bool)
      ensures ok <==> VerifiedTombstone(history, r)
    {
      if r.status != Retired || LoadHistory(history, r.attemptId, LeaseSha(r)) != Some(r) || r.retiredFromSha.None? {
        return false;
      }
      var active := LoadHistory(history, r.attemptId, r.retiredFromSha.value);
      if active.None? {
        return false;
      }
      var lineage := ActiveLineageOf(active.value);
      return lineage.Success? && RetirementTransition(active.value, r);
    }

    method RequireTerminals(boot: Bootstrap, active: Lease, retiredAt: Time, lineage: seq<Lease>) returns (ok: bool)
      requires IsLineage(history, lineage, active)
      ensures ok <==> TerminalsBind(history, boot, active, retiredAt)
    {
      if active.attemptId !in boot.terminals {
        return false;
      }
      var t := boot.terminals[active.attemptId];
      ok := CheckTerminalBinding(active, t.journal, t.evidence, retiredAt, lineage);
      forall records | IsLineage(history, records, active)
        ensures records == lineage
      {
        LineageIsUnique(records, lineage, active);
      }
    }

    method ValidateIntent(boot: Bootstrap, i: Intent) returns (ok: bool)
      ensures ok <==> Admits(history, boot, i)
    {
      if boot.context.None? {
        return false;
      }
      var reservation := boot.context.value;
      if i.kind == Initial {
        if i.expected.Some? {
          var verified := VerifyRetiredTombstone(i.expected.value);
          if !verified || i.expected.value.attemptId == reservation.attemptId {
            return false;
          }
        }
        return BoundTo(i.next, reservation);
      }
      if i.expected.None? {
        return false;
      }
      var active := i.expected.value;
      var lineage := ActiveLineageOf(active);
      if lineage.Failure? || !BoundTo(active, reservation) {
        return false;
      }
      if i.kind == Takeover {
        return true;
      }
      if i.next.retiredAt.None? {
        return false;
      }
      var bound := RequireTerminals(boot, active, i.next.retiredAt.value, lineage.value);
      return bound
             && i.next.terminalJournalSha == Some(JournalSha(boot.terminals[active.attemptId].journal))
             && i.next.terminalEvidenceSha == Some(EvidenceSha(boot.terminals[active.attemptId].evidence));
    }

    // --- the store --------------------------------------------------------------------------

    /**
     Completes the one pending decision, whatever a crash left of it. The branch for a current that is
     neither expected nor next is never taken: the only refusals are failed re-validations.
     */
    method Reconcile(boot: Bootstrap) returns (reply: Reply<Option<Lease>>)
      requires Valid()
      modifies this
      ensures !reply.Escaped?
      ensures Valid() && old(trace) <= trace
      ensures reply.Done? ==> State() == Settled(old(State()))
                              && reply.value == if old(pending).None? then None else Some(old(pending).value.next)
      ensures reply.Refused? ==> State() == old(State())
      ensures reply.Refused? <==> old(pending).Some? && !Admits(old(history), boot, old(pending).value)
      ensures reply.PowerLost? ==> old(writesLeft) < 3 && Settled(State()) == Settled(old(State()))
      ensures writesLeft + 3 >= old(writesLeft)
    {
      if pending.None? {
        return Done(None);
      }
      var i := pending.value;
      RunKeepsInv(trace, |trace| - 1);
      if current == Some(i.next) {
        var valid := ValidateIntent(boot, i);
        if !valid {
          return Refused("pending transition no longer validates");
        }
        if LoadHistory(history, i.next.attemptId, LeaseSha(i.next)) != Some(i.next) {
          return Refused("published record is not in history");
        }
        ghost var s := State();
        var _ :- ClearPendingTransitionExact(i);
        return Done(current);
      }
      if current == i.expected {
        var valid := ValidateIntent(boot, i);
        if !valid {
          return Refused("pending transition no longer validates");
        }
        var next :- FinalizePendingTransition(i, i.expected);
        return Done(Some(next));
      }
      return Refused("current is neither expected nor next");
    }

    /** Makes the decision durable and completes it. */
    method Issue(i: Intent) returns (reply: Reply<Lease>)
      requires Valid()
      requires pending.None?
      requires Preparable(Files(), i)
      modifies this
      ensures Valid() && old(trace) <= trace
      ensures reply.Done? ==> reply.value == i.next && State() == IssueAtomically(old(State()), i.next)
      ensures !reply.Refused? && !reply.Escaped?
      ensures reply.PowerLost? ==>
                && old(writesLeft) < 4
                && Settled(State()) in {old(State()), IssueAtomically(old(State()), i.next)}
    {
      var _ :- PreparePendingTransition(i);
      ghost var s := State();
      assert i.expected != Some(i.next);
      assert Settled(s) == IssueAtomically(old(State()), i.next);
      reply := FinalizePendingTransition(i, i.expected);
    }

    /** The operation of `AcquireInitial` once nothing is pending any more. */
    method AcquireSettled(boot: Bootstrap, owner: string, token: nat, issuedAt: Time)
      returns (reply: Reply<(Lease, ControlLeaseProof)>)
      requires Valid() && pending.None?
      modifies this
      ensures Valid() && old(trace) <= trace
      ensures !reply.Escaped?
      ensures reply.Refused? <==> !MayAcquire(old(State()), boot, token)
      ensures reply.Done? ==> reply.value.0 == InitialLease(boot.context.value, token, owner, issuedAt)
                              && ProofMatches(reply.value.0, reply.value.1)
      ensures Issues(reply, old(State()), State(), InitialLease(ContextOf(boot), token, owner, issuedAt))
      ensures reply.PowerLost? ==> old(writesLeft) < 4
    {
      ghost var s := State();
      RunKeepsInv(trace, |trace| - 1);
      if boot.context.None? {
        return Refused("no active bootstrap context");
      }
      if current.Some? {
        if current.value.status != Retired {
          return Refused("a lease is still active");
        }
        IssuedTombstoneVerifies(s, |s.issued| - 1);
        var verified := VerifyRetiredTombstone(current.value);
        if !verified || current.value.attemptId == boot.context.value.attemptId {
          return Refused("the attempt has been retired");
        }
      }
      var issued := IssueControlLease(boot.context.value, 1, token, owner, issuedAt);
      if issued.Failure? {
        return Refused(issued.error);
      }
      InitialIsPreparable(s, boot, token, owner, issuedAt);
      var lease :- Issue(Intent(Initial, current, issued.value.0));
      return Done((lease, issued.value.1));
    }

    /** The first lease of an attempt; with seven writes to go it is never cut off. */
    method AcquireInitial(boot: Bootstrap, owner: string, token: nat, issuedAt: Time)
      returns (reply: Reply<(Lease, ControlLeaseProof)>)
      requires Valid()
      modifies this
      ensures Valid() && old(trace) <= trace
      ensures Concludes(reply, old(State()), State(), boot, MayAcquire(Settled(old(State())), boot, token),
                        InitialLease(ContextOf(boot), token, owner, issuedAt))
      ensures reply.Done? ==> reply.value.0 == InitialLease(ContextOf(boot), token, owner, issuedAt)
                              && ProofMatches(reply.value.0, reply.value.1)
      ensures reply.PowerLost? ==> old(writesLeft) < 7
    {
      var _ :- Reconcile(boot);
      reply := AcquireSettled(boot, owner, token, issuedAt);
    }

    /** The operation of `TakeOver` once nothing is pending any more. */
    method TakeOverSettled(boot: Bootstrap, expected: Lease, owner: string, token: nat, issuedAt: Time)
      returns (reply: Reply<(Lease, ControlLeaseProof)>)
      requires Valid() && pending.None?
      modifies this
      ensures Valid() && old(trace) <= trace
      ensures !reply.Escaped?
      ensures reply.Refused? <==> !MayTakeOver(old(State()), boot, expected, token, issuedAt)
      ensures reply.Done? ==> reply.value.0 == TakeoverLease(expected, token, owner, issuedAt)
                              && ProofMatches(reply.value.0, reply.value.1)
      ensures Issues(reply, old(State()), State(), TakeoverLease(expected, token, owner, issuedAt))
      ensures reply.PowerLost? ==> old(writesLeft) < 4
    {
      ghost var s := State();
      RunKeepsInv(trace, |trace| - 1);
      if boot.context.None? || current != Some(expected) {
        return Refused("no active bootstrap context, or current has changed");
      }
      CurrentHasLineageIff(s);
      var lineage := ActiveLineageOf(expected);
      if lineage.Failure? || !BoundTo(expected, boot.context.value) {
        return Refused("current has no lineage or belongs to another attempt");
      }
      RecoveryIsTakeover(s, boot, expected, token, owner, issuedAt);
      var recovered := RecoverControlLease(expected, boot.context.value, expected.epoch + 1, token, owner, issuedAt);
      if recovered.Failure? {
        return Refused(recovered.error);
      }
      TakeoverIsPreparable(s, boot, expected, token, owner, issuedAt);
      var lease :- Issue(Intent(Takeover, current, recovered.value.0));
      return Done((lease, recovered.value.1));
    }

    /** A takeover of exactly the given current lease, one epoch higher and with another token. */
    method TakeOver(boot: Bootstrap, expected: Lease, owner: string, token: nat, issuedAt: Time)
      returns (reply: Reply<(Lease, ControlLeaseProof)>)
      requires Valid()
      modifies this
      ensures Valid() && old(trace) <= trace
      ensures Concludes(reply, old(State()), State(), boot,
                        MayTakeOver(Settled(old(State())), boot, expected, token, issuedAt),
                        TakeoverLease(expected, token, owner, issuedAt))
      ensures reply.Done? ==> reply.value.0 == TakeoverLease(expected, token, owner, issuedAt)
                              && ProofMatches(reply.value.0, reply.value.1)
      ensures reply.PowerLost? ==> old(writesLeft) < 7
    {
      var _ :- Reconcile(boot);
      reply := TakeOverSettled(boot, expected, owner, token, issuedAt);
    }

    /** The operation of `RetireCurrent` once nothing is pending any more. */
    method RetireSettled(boot: Bootstrap, proof: ControlLeaseProof, completed: TerminalInputs, retiredAt: Time)
      returns (reply: Reply<Lease>)
      requires Valid() && pending.None?
      modifies this
      ensures Valid() && old(trace) <= trace
      ensures reply.Refused? <==> !RetirementBinds(old(State()), boot, proof, completed, retiredAt)
      ensures reply.Escaped? <==> Untimely(old(State()), boot, proof, completed, retiredAt)
      ensures Issues(reply, old(State()), State(), NextTombstone(old(State()), completed, retiredAt))
      ensures reply.Done? ==> reply.value == NextTombstone(old(State()), completed, retiredAt)
      ensures reply.PowerLost? ==> old(writesLeft) < 4
    {
      ghost var s := State();
      RunKeepsInv(trace, |trace| - 1);
      if boot.context.None? || current.None? {
        return Refused("no active bootstrap context or no current lease");
      }
      var active := current.value;
      var lineage := ActiveLineageOf(active);
      if lineage.Failure? || !BoundTo(active, boot.context.value) || !ProofMatches(active, proof) {
        return Refused("the lease cannot be retired by this caller");
      }
      var bound := RequireTerminals(boot, active, retiredAt, lineage.value);
      if !bound || boot.terminals[active.attemptId] != completed {
        return Refused("terminal records do not bind");
      }
      if retiredAt <= active.issuedAt {
        return Escaped("a tombstone must be later than its lease");
      }
      RetirementIsPreparable(s, boot, proof, completed, retiredAt);
      reply := Issue(Intent(Retire, current, Tombstone(active, completed, retiredAt)));
    }

    /**
     Retires the current lease, given its proof and the persisted terminal records of its attempt. The time is only
     compared with the completion; that it must be later than the lease is found out by the tombstone's constructor,
     whose exception the store passes on.
     */
    method RetireCurrent(boot: Bootstrap, proof: ControlLeaseProof, completed: TerminalInputs, retiredAt: Time)
      returns (reply: Reply<Lease>)
      requires Valid()
      modifies this
      ensures Valid() && old(trace) <= trace
      ensures !reply.Escaped? ==>
                Concludes(reply, old(State()), State(), boot,
                          MayRetire(Settled(old(State())), boot, proof, completed, retiredAt),
                          NextTombstone(Settled(old(State())), completed, retiredAt))
      ensures reply.Escaped? ==>
                && State() == Settled(old(State())) && !Blocked(old(State()), boot)
                && Untimely(Settled(old(State())), boot, proof, completed, retiredAt)
      ensures Untimely(Settled(old(State())), boot, proof, completed, retiredAt) && !Blocked(old(State()), boot) ==>
                reply.Escaped? || reply.PowerLost?
      ensures reply.Done? ==> reply.value == NextTombstone(Settled(old(State())), completed, retiredAt)
      ensures reply.PowerLost? ==> old(writesLeft) < 7
    {
      var _ :- Reconcile(boot);
      reply := RetireSettled(boot, proof, completed, retiredAt);
    }

    /** Grants a scope for the current active lease to the holder of its token; refused, no scope verifies. */
    method Mutation(boot: Bootstrap, proof: ControlLeaseProof) returns (reply: Reply<MutationScope>)
      requires Valid()
      modifies this
      ensures Valid() && old(trace) <= trace
      ensures Grants(reply, old(State()), State(), boot, MayMutate(Settled(old(State())), boot, proof))
      ensures reply.Done? ==> State() == Settled(old(State()))
                              && ScopeVerifies(Files(), boot.context, reply.value, proof)
      ensures reply.Refused? ==>
                || (State() == old(State()) && Blocked(State(), boot))
                || (&& State() == Settled(old(State()))
                    && forall scope :: !ScopeVerifies(Files(), boot.context, scope, proof))
      ensures reply.PowerLost? ==> Settled(State()) == Settled(old(State())) && old(writesLeft) < 3
      ensures writesLeft + 3 >= old(writesLeft)
    {
      var _ :- Reconcile(boot);
      reply := MutationSettled(boot, proof);
    }

    /** The operation of `Mutation` once nothing is pending any more. */
    method MutationSettled(boot: Bootstrap, proof: ControlLeaseProof) returns (reply: Reply<MutationScope>)
      requires Valid() && pending.None?
      ensures !reply.PowerLost? && !reply.Escaped?
      ensures reply.Done? <==> MayMutate(State(), boot, proof)
      ensures reply.Done? ==> ScopeVerifies(Files(), boot.context, reply.value, proof)
      ensures reply.Refused? ==> forall scope :: !ScopeVerifies(Files(), boot.context, scope, proof)
    {
      if boot.context.None? || current.None? {
        return Refused("no active bootstrap context or no current lease");
      }
      RunKeepsInv(trace, |trace| - 1);
      CurrentHasLineageIff(State());
      assert current.value in State().issued;
      var lineage := ActiveLineageOf(current.value);
      if lineage.Failure? || !BoundTo(current.value, boot.context.value) || !ProofMatches(current.value, proof) {
        return Refused("the proof does not fit the current lease");
      }
      return Done(MutationScope(current.value, lineage.value));
    }

    /** Grants the cleanup that follows a retirement: exactly if the given tombstone is current. */
    method TerminalCleanup(boot: Bootstrap, tombstone: Lease) returns (reply: Reply<()>)
      requires Valid()
      modifies this
      ensures Valid() && old(trace) <= trace
      ensures Grants(reply, old(State()), State(), boot,
                     tombstone.status == Retired && Settled(old(State())).files.current == Some(tombstone))
      ensures reply.Done? ==> VerifiedTombstone(history, tombstone)
      ensures reply.PowerLost? ==> old(writesLeft) < 3
      ensures writesLeft + 3 >= old(writesLeft)
    {
      var _ :- Reconcile(boot);
      if current != Some(tombstone) {
        return Refused("the tombstone is not current");
      }
      RunKeepsInv(trace, |trace| - 1);
      if tombstone.status == Retired {
        IssuedTombstoneVerifies(State(), |State().issued| - 1);
      }
      var verified := VerifyRetiredTombstone(tombstone);
      return if verified then Done(()) else Refused("the tombstone does not verify");
    }

    /** Re-verifies a scope against the files. */
    method Verify(context: Option<Reservation>, scope: MutationScope, proof: ControlLeaseProof) returns (ok: bool)
      ensures ok <==> ScopeVerifies(Files(), context, scope, proof)
    {
      if pending.Some? || current != Some(scope.snapshot)
         || LoadHistory(history, scope.snapshot.attemptId, LeaseSha(scope.snapshot)) != Some(scope.snapshot)
         || context.None? || !BoundTo(scope.snapshot, context.value)
      {
        return false;
      }
      var lineage := ActiveLineageOf(scope.snapshot);
      if lineage.Failure? || lineage.value != scope.lineage {
        if lineage.Success? && IsLineage(history, scope.lineage, scope.snapshot) {
          LineageIsUnique(lineage.value, scope.lineage, scope.snapshot);
        }
        return false;
      }
      return ProofMatches(scope.snapshot, proof);
    }
  }

  ghost predicate EndsWith(c: seq<Lease>, tail: seq<Lease>) {
    |tail| <= |c| && c[|c| - |tail|..] == tail
  }

  function Digests(records: seq<Lease>): set<Digest> {
    set i | 0 <= i < |records| :: LeaseSha(records[i])
  }

  lemma DigestsCons(r: Lease, records: seq<Lease>)
    ensures Digests([r] + records) == {LeaseSha(r)} + Digests(records)
  {
    var longer := [r] + records;
    assert longer[0] == r && forall i | 0 <= i < |records| :: longer[i + 1] == records[i];
    forall d | d in Digests(records)
      ensures d in Digests(longer)
    {
      var i :| 0 <= i < |records| && LeaseSha(records[i]) == d;
      assert LeaseSha(longer[i + 1]) == d;
    }
    assert LeaseSha(longer[0]) in Digests(longer);
  }

  ghost predicate AllInHistory(h: History, records: seq<Lease>) {
    forall i | 0 <= i < |records| :: InHistory(h, records[i])
  }

  /** Whatever lineage there is, it ends with these records. */
  ghost predicate TailOfAll(h: History, active: Lease, tail: seq<Lease>) {
    forall c | IsLineage(h, c, active) :: EndsWith(c, tail)
  }

  /** If there is a lineage at all, the first record of its tail is in history and repeats no later one. */
  lemma TailIsPlausible(h: History, active: Lease, tail: seq<Lease>)
    requires 0 < |tail|
    requires TailOfAll(h, active, tail)
    ensures HasLineage(h, active) ==> InHistory(h, tail[0]) && LeaseSha(tail[0]) !in Digests(tail[1..])
  {
    if c :| IsLineage(h, c, active) {
      var k := |c| - |tail|;
      assert EndsWith(c, tail) && forall i | 0 <= i < |tail| :: c[k + i] == c[k..][i] == tail[i];
      assert InHistory(h, c[k]);
    }
  }

  /** The first record of a tail says whether a lineage goes on before it, and with which record. */
  lemma TailDeterminesRest(h: History, active: Lease, tail: seq<Lease>)
    requires 0 < |tail|
    requires TailOfAll(h, active, tail)
    ensures tail[0].predecessorSha.None? && HasLineage(h, active) ==> IsLineage(h, tail, active)
    ensures tail[0].predecessorSha.Some? ==>
              var p := LoadHistory(h, tail[0].attemptId, tail[0].predecessorSha.value);
              && (HasLineage(h, active) ==> |tail| < MAX_LINEAGE && p.Some?)
              && (p.Some? ==> TailOfAll(h, active, [p.value] + tail))
  {
    forall c | IsLineage(h, c, active)
      ensures tail[0].predecessorSha.None? ==> c == tail
      ensures tail[0].predecessorSha.Some? ==>
                var p := LoadHistory(h, tail[0].attemptId, tail[0].predecessorSha.value);
                |c| > |tail| && p.Some? && EndsWith(c, [p.value] + tail)
    {
      var k := |c| - |tail|;
      assert EndsWith(c, tail) && c[k] == c[k..][0] == tail[0];
      if k > 0 {
        assert EdgeAt(c, k);
        assert InHistory(h, c[k - 1]);
        assert c[k - 1..] == [c[k - 1]] + c[k..];
      }
    }
  }

  /** What the walk knows of a lineage when it has come back to `expected`. */
  lemma TailFacts(h: History, active: Lease, expected: Lease, records: seq<Lease>)
    requires TailOfAll(h, active, [expected] + records)
    ensures HasLineage(h, active) ==> InHistory(h, expected) && LeaseSha(expected) !in Digests(records)
    ensures expected.predecessorSha.None? && HasLineage(h, active) ==> IsLineage(h, [expected] + records, active)
    ensures expected.predecessorSha.Some? ==>
              var p := LoadHistory(h, expected.attemptId, expected.predecessorSha.value);
              && (HasLineage(h, active) ==> |records| + 1 < MAX_LINEAGE && p.Some?)
              && (p.Some? ==> TailOfAll(h, active, [p.value] + ([expected] + records)))
  {
    var tail := [expected] + records;
    assert tail[0] == expected && tail[1..] == records;
    TailIsPlausible(h, active, tail);
    TailDeterminesRest(h, active, tail);
  }

  lemma InitialIsPreparable(s: LeaseState, boot: Bootstrap, token: nat, owner: string, issuedAt: Time)
    requires Inv(s)
    requires MayAcquire(s, boot, token)
    ensures Preparable(s.files,
                       Intent(Initial, s.files.current, InitialLease(boot.context.value, token, owner, issuedAt)))
  {
    if s.files.current.Some? {
      assert s.files.current.value in s.issued;
      IssuedTombstoneVerifies(s, |s.issued| - 1);
    }
  }

  /** For the current lease of a reachable state: it has a lineage exactly if it is active up to epoch 128. */
  lemma CurrentHasLineageIff(s: LeaseState)
    requires Inv(s)
    requires s.files.current.Some?
    ensures var r := s.files.current.value;
            && 1 <= r.epoch
            && (HasLineage(s.files.history, r) <==> r.status == Active && r.epoch <= MAX_LINEAGE)
  {
    var r := s.files.current.value;
    assert r in s.issued;
    if r.status == Active {
      LineageIffWithinLimit(s, |s.issued| - 1);
    }
  }

  /** Recovering a lease yields exactly the takeover lease, or fails on one of the takeover conditions. */
  lemma RecoveryIsTakeover(s: LeaseState, boot: Bootstrap, current: Lease, token: nat, owner: string, issuedAt: Time)
    requires boot.context.Some? && s.files.current == Some(current)
    requires BoundTo(current, boot.context.value) && 1 <= current.epoch <= MAX_LINEAGE
    ensures var r := RecoverControlLease(current, boot.context.value, current.epoch + 1, token, owner, issuedAt);
            && (r.Success? <==> MayTakeOver(s, boot, current, token, issuedAt))
            && (r.Success? ==>
                  && r.value.0 == TakeoverLease(current, token, owner, issuedAt)
                  && ProofMatches(r.value.0, r.value.1))
  {
  }

  lemma TakeoverIsPreparable(s: LeaseState, boot: Bootstrap, current: Lease, token: nat, owner: string, issuedAt: Time)
    requires Inv(s)
    requires MayTakeOver(s, boot, current, token, issuedAt)
    requires HasLineage(s.files.history, current)
    ensures Preparable(s.files, Intent(Takeover, Some(current), TakeoverLease(current, token, owner, issuedAt)))
  {
    assert current in s.issued;
  }

  lemma RetirementIsPreparable(s: LeaseState, boot: Bootstrap, proof: ControlLeaseProof, completed: TerminalInputs,
                               retiredAt: Time)
    requires Inv(s)
    requires MayRetire(s, boot, proof, completed, retiredAt)
    ensures var active := s.files.current.value;
            Preparable(s.files, Intent(Retire, Some(active), Tombstone(active, completed, retiredAt)))
  {
    var active := s.files.current.value;
    assert active in s.issued;
    assert ActiveForm(Tombstone(active, completed, retiredAt)) == active;
  }

  /**
   In a reachable state a pending decision re-validates exactly when the bootstrap still belongs to it (and,
   for a retirement, the terminal records still bind): nothing that can happen to the lease files spoils it.
   */
  lemma PendingAdmittedIffBootstrapFits(s: LeaseState, boot: Bootstrap)
    requires Inv(s)
    requires s.files.pending.Some?
    ensures var i := s.files.pending.value;
            Admits(s.files.history, boot, i) <==>
              && boot.context.Some?
              && BoundTo(i.next, boot.context.value)
              && (i.kind == Retire ==>
                    && TerminalsBind(s.files.history, boot, i.expected.value, i.next.retiredAt.value)
                    && i.next.terminalJournalSha == Some(JournalSha(boot.terminals[i.next.attemptId].journal))
                    && i.next.terminalEvidenceSha == Some(EvidenceSha(boot.terminals[i.next.attemptId].evidence)))
  {
    var i := s.files.pending.value;
    if i.expected.Some? {
      var k := if s.files.current == i.expected then |s.issued| - 1 else |s.issued| - 2;
      assert s.issued[k] == i.expected.value;
      if i.kind == Initial {
        IssuedTombstoneVerifies(s, k);
      } else {
        LineageIffWithinLimit(s, k);
      }
    }
  }
}
