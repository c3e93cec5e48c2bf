/** What holds over whole runs of the lease protocol, crashes and restarts included. */
module LeaseSafety {
  import opened Wrappers
  import opened ControlRecords
  import opened ControlLeaseLineage
  import opened LeaseProtocol

  /** The authority a caller holds inside the deployment lock. */
  datatype MutationScope = MutationScope(snapshot: Lease, lineage: seq<Lease>)

  predicate BoundTo(r: Lease, reservation: Reservation) {
    r.attemptId == reservation.attemptId && r.reservationSha == reservation.sha
  }

  /** Everything `verify` checks about a mutation scope and its proof. */
  ghost predicate ScopeVerifies(f: LeaseFiles, context: Option<Reservation>, scope: MutationScope,
                                proof: ControlLeaseProof)
  {
    && f.pending.None?
    && f.current == Some(scope.snapshot)
    && InHistory(f.history, scope.snapshot)
    && context.Some?
    && BoundTo(scope.snapshot, context.value)
    && IsLineage(f.history, scope.lineage, scope.snapshot)
    && ProofMatches(scope.snapshot, proof)
  }

  // --- crash atomicity ----------------------------------------------------------------------

  /** While a decision is pending, `current` is exactly its expected or its next record, never both. */
  lemma CurrentIsExpectedOrNext(run: seq<LeaseState>, k: nat)
    requires IsRun(run)
    requires k < |run|
    requires run[k].files.pending.Some?
    ensures var f := run[k].files;
            && (f.current == f.pending.value.expected || f.current == Some(f.pending.value.next))
            && f.pending.value.expected != Some(f.pending.value.next)
            && (f.current == Some(f.pending.value.next) ==> InHistory(f.history, f.pending.value.next))
  {
    RunKeepsInv(run, k);
  }

  /** Issued records and history records are never lost or changed. */
  lemma {:induction false} RecordsAreImmutable(run: seq<LeaseState>, i: nat, j: nat)
    requires IsRun(run)
    requires i <= j < |run|
    ensures run[i].issued <= run[j].issued
    ensures forall key | key in run[i].files.history ::
              key in run[j].files.history && run[j].files.history[key] == run[i].files.history[key]
  {
    if i < j {
      RecordsAreImmutable(run, i, j - 1);
      assert StepAt(run, j);
    }
  }

  // --- refinement of an atomic issue --------------------------------------------------------

  /** The lease store as if issuing a lease were one indivisible operation. */
  function IssueAtomically(s: LeaseState, next: Lease): LeaseState {
    LeaseState(LeaseFiles(Some(next), None, s.files.history[KeyOf(next) := next]), s.issued + [next])
  }

  /** The state that any number of crashes and one completed reconcile lead to. */
  function Settled(s: LeaseState): LeaseState {
    match s.files.pending
    case None => s
    case Some(i) =>
      if s.files.current == Some(i.next) then s.(files := s.files.(pending := None))
      else IssueAtomically(s, i.next)
  }

  /**
   The four file operations refine the atomic issue: making the decision durable is the commit point, and
   freezing, publishing and clearing change nothing of the settled state.
   */
  lemma StepsRefineAtomicIssue(s: LeaseState, t: LeaseState)
    requires Inv(s)
    requires Step(s, t)
    ensures if PrepareStep(s, t) then Settled(t) == IssueAtomically(Settled(s), t.files.pending.value.next)
            else Settled(t) == Settled(s)
  {
    if PublishStep(s, t) {
      var next := s.files.pending.value.next;
      assert s.files.history[KeyOf(next) := next] == s.files.history;
    } else if FreezeStep(s, t) {
      assert s.files.current.Some? ==>
          s.files.current.value in s.issued && InHistory(s.files.history, s.files.current.value);
    } else if PrepareStep(s, t) {
      assert t.files.current != Some(t.files.pending.value.next);
    }
  }

  // --- fencing ------------------------------------------------------------------------------

  /** An initial lease for `attempt` is issued at some place after `m` and up to `n`. */
  ghost predicate ReissuedBetween(issued: seq<Lease>, attempt: AttemptId, m: int, n: nat) {
    exists t: nat | m < t <= n && t < |issued| :: IssuedInitially(issued, attempt, t)
  }

  predicate IssuedInitially(issued: seq<Lease>, attempt: AttemptId, t: nat) {
    t < |issued| && issued[t].attemptId == attempt && InitialShape(Before(issued, t), issued[t])
  }

  /** Without a new initial lease for its attempt, a record is only followed by its retirement or higher epochs. */
  lemma {:induction false} EpochsAscendUnlessReissued(issued: seq<Lease>, m: nat, n: nat)
    requires Linked(issued)
    requires m < n < |issued|
    requires issued[m].attemptId == issued[n].attemptId
    requires issued[n].status == Active
    requires !ReissuedBetween(issued, issued[m].attemptId, m, n)
    ensures issued[m].status == Active
    ensures issued[m].epoch < issued[n].epoch
  {
    assert LinkedAt(issued, n);
    assert !IssuedInitially(issued, issued[m].attemptId, n);
    assert TakeoverShape(Before(issued, n), issued[n]);
    if m < n - 1 {
      forall t | m < t <= n - 1
        ensures !IssuedInitially(issued, issued[m].attemptId, t)
      {
      }
      EpochsAscendUnlessReissued(issued, m, n - 1);
    }
  }

  /**
   An attempt's epoch falls back to or below an earlier active lease exactly when an initial lease was
   issued for that attempt again.
   */
  lemma EpochFallsBackIffReissued(issued: seq<Lease>, m: nat)
    requires Linked(issued)
    requires m < |issued| && issued[m].status == Active
    ensures (exists n | m < n < |issued| ::
               && issued[n].status == Active
               && issued[n].attemptId == issued[m].attemptId
               && issued[n].epoch <= issued[m].epoch)
            <==> ReissuedBetween(issued, issued[m].attemptId, m, |issued|)
  {
    if n :| m < n < |issued| && issued[n].status == Active && issued[n].attemptId == issued[m].attemptId
            && issued[n].epoch <= issued[m].epoch {
      if !ReissuedBetween(issued, issued[m].attemptId, m, n) {
        EpochsAscendUnlessReissued(issued, m, n);
      }
      var t: nat :| m < t <= n && t < |issued| && IssuedInitially(issued, issued[m].attemptId, t);
      assert IssuedInitially(issued, issued[m].attemptId, t);
    }
    if t :| m < t < |issued| && IssuedInitially(issued, issued[m].attemptId, t) {
      IssueOrderBackwards(issued, m);
      assert issued[t].epoch <= issued[m].epoch;
    }
  }

  lemma OnlyLaterEpochsVerify(s: LeaseState, next: Lease, m: int)
    requires Inv(s)
    requires 0 <= m < |s.issued| && s.issued[m] == next
    requires s.files.current.Some? && s.files.current.value.status == Active
    requires s.files.current.value.attemptId == next.attemptId
    requires !ReissuedBetween(s.issued, next.attemptId, m, |s.issued|)
    ensures next.epoch <= s.files.current.value.epoch
  {
    var n := |s.issued| - 1;
    assert s.issued[n] == s.files.current.value;
    if m < n {
      forall t | m < t <= n
        ensures !IssuedInitially(s.issued, next.attemptId, t)
      {
      }
      EpochsAscendUnlessReissued(s.issued, m, n);
    }
  }

  /** Where the pending decision's next record stands, or will stand, in issue order. */
  function TakeoverPlace(s: LeaseState): int
    requires s.files.pending.Some?
  {
    if s.files.current == Some(s.files.pending.value.next) then |s.issued| - 1 else |s.issued|
  }

  /** Decision `x` is pending for place `m`, or its record has been issued there. */
  ghost predicate DecidedAt(s: LeaseState, x: Intent, m: int) {
    || (s.files.pending == Some(x) && TakeoverPlace(s) == m)
    || (0 <= m < |s.issued| && s.issued[m] == x.next)
  }

  lemma StepKeepsDecision(s: LeaseState, t: LeaseState, x: Intent, m: int)
    requires Inv(s)
    requires Step(s, t)
    requires DecidedAt(s, x, m)
    ensures DecidedAt(t, x, m)
  {
    if PublishStep(s, t) {
      assert s.issued <= t.issued;
    } else if ClearStep(s, t) {
      assert s.issued == t.issued;
    } else if FreezeStep(s, t) {
      assert s.issued == t.issued && s.files.pending == t.files.pending && s.files.current == t.files.current;
    } else {
      assert s.issued == t.issued && s.files.pending.None?;
    }
  }

  /**
   A durable decision is never given up: at every later point it is still pending for the same place in
   issue order, or its record has been issued exactly there.
   */
  lemma {:induction false} DecisionIsNeverAborted(run: seq<LeaseState>, i: nat, j: nat)
    requires IsRun(run)
    requires i <= j < |run|
    requires run[i].files.pending.Some?
    ensures DecidedAt(run[j], run[i].files.pending.value, TakeoverPlace(run[i]))
  {
    if i < j {
      DecisionIsNeverAborted(run, i, j - 1);
      RunKeepsInv(run, j - 1);
      assert StepAt(run, j);
      StepKeepsDecision(run[j - 1], run[j], run[i].files.pending.value, TakeoverPlace(run[i]));
    }
  }

  // --- one initial lease per attempt --------------------------------------------------------

  /** At most one initial lease was ever issued for the attempt. */
  ghost predicate IssuedOnce(issued: seq<Lease>, a: AttemptId) {
    forall s, t | 0 <= s < t < |issued| :: !(IssuedInitially(issued, a, s) && IssuedInitially(issued, a, t))
  }

  /** With one initial lease per attempt, every active lease of the current attempt is on the current lineage. */
  lemma ActiveLeasesAreOnLineage(issued: seq<Lease>, m: nat)
    requires Linked(issued)
    requires m < |issued|
    requires var last := issued[|issued| - 1];
             && last.status == Active
             && issued[m].status == Active
             && issued[m].attemptId == last.attemptId
             && IssuedOnce(issued, last.attemptId)
    ensures 1 <= issued[|issued| - 1].epoch <= |issued|
    ensures |issued| - issued[|issued| - 1].epoch <= m
  {
    var n := |issued| - 1;
    IssueOrderBackwards(issued, n);
    var first := n + 1 - issued[n].epoch;
    ChainIsOneAttempt(issued, first, n);
    assert LinkedAt(issued, first);
    assert IssuedInitially(issued, issued[n].attemptId, first);
    if m < first {
      IssueOrderBackwards(issued, m);
      var start := m + 1 - issued[m].epoch;
      ChainIsOneAttempt(issued, start, m);
      assert LinkedAt(issued, start);
      assert IssuedInitially(issued, issued[n].attemptId, start);
    }
  }

  lemma {:induction false} ChainIsOneAttempt(issued: seq<Lease>, a: nat, k: nat)
    requires Chain(issued, a, k)
    ensures forall m | a <= m <= k ::
              issued[m].attemptId == issued[k].attemptId && issued[m].reservationSha == issued[k].reservationSha
  {
    if a < k {
      assert EdgeAt(issued, k);
      ChainIsOneAttempt(issued, a, k - 1);
    }
  }

  ghost predicate OnceEach(issued: seq<Lease>) {
    forall a: AttemptId :: IssuedOnce(issued, a)
  }

  lemma OnceEachPrefix(issued: seq<Lease>, n: nat)
    requires OnceEach(issued) && n <= |issued|
    ensures OnceEach(issued[..n])
  {
    forall a: AttemptId
      ensures IssuedOnce(issued[..n], a)
    {
      assert IssuedOnce(issued, a);
      forall s, t | 0 <= s < t < n
        ensures !(IssuedInitially(issued[..n], a, s) && IssuedInitially(issued[..n], a, t))
      {
        InitialInPrefix(issued, n, a, s);
        InitialInPrefix(issued, n, a, t);
      }
    }
  }

  lemma InitialInPrefix(issued: seq<Lease>, n: nat, a: AttemptId, t: nat)
    requires t < n <= |issued|
    ensures IssuedInitially(issued[..n], a, t) <==> IssuedInitially(issued, a, t)
  {
    assert Before(issued[..n], t) == Before(issued, t);
  }

  /** A record after which no initial lease of its attempt follows: the attempt has had its one. */
  lemma NotReissuedAfter(issued: seq<Lease>, m: nat)
    requires Linked(issued) && OnceEach(issued)
    requires m < |issued|
    ensures !ReissuedBetween(issued, issued[m].attemptId, m, |issued|)
  {
    var start := FirstOf(issued, m);
    assert IssuedOnce(issued, issued[m].attemptId);
  }

  /** The initial lease that the record at `m` goes back to. */
  lemma {:induction false} FirstOf(issued: seq<Lease>, m: nat) returns (start: nat)
    requires Linked(issued)
    requires m < |issued|
    ensures start <= m && IssuedInitially(issued, issued[m].attemptId, start)
  {
    assert LinkedAt(issued, m);
    if InitialShape(Before(issued, m), issued[m]) {
      start := m;
    } else {
      start := FirstOf(issued, m - 1);
    }
  }

  /** If no attempt is issued an initial lease twice, then no record at all is issued twice. */
  lemma {:induction false} OnceMeansDistinct(issued: seq<Lease>)
    requires Linked(issued) && OnceEach(issued)
    ensures NoDuplicates(issued)
  {
    if issued != [] {
      var n := |issued| - 1;
      var before, last := issued[..n], issued[n];
      LinkedPrefix(issued, n);
      OnceEachPrefix(issued, n);
      OnceMeansDistinct(before);
      assert issued == before + [last];
      assert LinkedAt(issued, n) && Before(issued, n) == Before(before, n);
      if InitialShape(Before(issued, n), last) {
        if m: nat :| m < n && before[m] == last {
          NotReissuedAfter(issued, m);
          assert IssuedInitially(issued, issued[m].attemptId, n);
        }
      } else {
        SuccessorIsNew(before, last);
      }
      NoDuplicatesAppend(before, last);
    }
  }

  lemma LinkedPrefix(issued: seq<Lease>, n: nat)
    requires Linked(issued) && n <= |issued|
    ensures Linked(issued[..n])
  {
    forall k | 0 <= k < n
      ensures LinkedAt(issued[..n], k)
    {
      assert LinkedAt(issued, k) && Before(issued[..n], k) == Before(issued, k);
    }
  }

  // --- no record becomes current twice ------------------------------------------------------

  ghost predicate NoDuplicates(issued: seq<Lease>) {
    forall i, j | 0 <= i < j < |issued| :: issued[i] != issued[j]
  }

  /** An initial lease is decided in step `p`. */
  ghost predicate InitialDecidedAt(run: seq<LeaseState>, p: nat) {
    0 < p < |run| && PrepareStep(run[p - 1], run[p]) && run[p].files.pending.value.kind == Initial
  }

  /** The record decided in step `p` is not in history yet: its freeze will create the file. */
  ghost predicate FreshAt(run: seq<LeaseState>, p: nat)
    requires 0 < p < |run| && run[p].files.pending.Some?
  {
    KeyOf(run[p].files.pending.value.next) !in run[p - 1].files.history
  }

  lemma HistoryIsIssued(s: LeaseState, r: Lease)
    requires Inv(s)
    requires s.files.pending.None?
    ensures KeyOf(r) in s.files.history <==> r in s.issued
  {
    if r in s.issued {
      assert InHistory(s.files.history, r);
    }
  }

  /** A takeover or retirement of the last record cannot repeat a record: it names its predecessor. */
  lemma SuccessorIsNew(issued: seq<Lease>, next: Lease)
    requires Linked(issued)
    requires NoDuplicates(issued)
    requires TakeoverShape(Before(issued, |issued|), next) || RetireShape(Before(issued, |issued|), next)
    ensures next !in issued
  {
    forall m: nat | m < |issued|
      ensures issued[m] != next
    {
      assert LinkedAt(issued, m);
    }
  }

  /** The step that made the still unpublished decision of state `k` durable. */
  lemma {:induction false} LastPrepare(run: seq<LeaseState>, k: nat) returns (p: nat)
    requires IsRun(run)
    requires k < |run|
    requires run[k].files.pending.Some? && run[k].files.current == run[k].files.pending.value.expected
    ensures 0 < p <= k && PrepareStep(run[p - 1], run[p])
    ensures run[p].files.pending == run[k].files.pending
    ensures run[p].issued == run[k].issued
  {
    assert StepAt(run, k);
    if PrepareStep(run[k - 1], run[k]) {
      p := k;
    } else {
      p := LastPrepare(run, k - 1);
    }
  }

  /** Decisions made at the same length of the issue order are the same decision. */
  lemma SameLengthSameDecision(run: seq<LeaseState>, p: nat, k: nat)
    requires IsRun(run)
    requires 0 < p <= k < |run|
    requires PrepareStep(run[p - 1], run[p])
    requires |run[k].issued| == |run[p].issued|
    ensures run[k].files.pending == run[p].files.pending
    ensures run[k].issued == run[p].issued == run[p - 1].issued
  {
    DecisionIsNeverAborted(run, p, k);
    RecordsAreImmutable(run, p, k);
    RunKeepsInv(run, p);
    assert run[p].files.pending.value.expected != Some(run[p].files.pending.value.next);
  }

  /** Each initial lease that was published up to state `q` had no history file when it was decided. */
  ghost predicate InitialsWereFresh(run: seq<LeaseState>, q: nat)
    requires q < |run|
  {
    forall p | 0 < p <= q && InitialDecidedAt(run, p) && |run[p].issued| < |run[q].issued| :: FreshAt(run, p)
  }

  lemma NoDuplicatesAppend(issued: seq<Lease>, next: Lease)
    ensures NoDuplicates(issued + [next]) <==> NoDuplicates(issued) && next !in issued
  {
    var longer := issued + [next];
    assert forall i | 0 <= i < |issued| :: longer[i] == issued[i];
    if NoDuplicates(longer) {
      forall i: nat | i < |issued|
        ensures issued[i] != next
      {
        assert longer[i] != longer[|issued|];
      }
      forall i, j | 0 <= i < j < |issued|
        ensures issued[i] != issued[j]
      {
        assert longer[i] != longer[j];
      }
    }
  }

  /** A decided initial lease that is about to be published is new to history exactly if it was never issued. */
  lemma FreshIffNeverIssued(run: seq<LeaseState>, p: nat, q: nat)
    requires IsRun(run) && 0 < p < q < |run| && PublishStep(run[q - 1], run[q])
    requires InitialDecidedAt(run, p) && |run[p].issued| == |run[q - 1].issued|
    ensures FreshAt(run, p) <==> run[q - 1].files.pending.value.next !in run[q - 1].issued
  {
    SameLengthSameDecision(run, p, q - 1);
    RunKeepsInv(run, p - 1);
    HistoryIsIssued(run[p - 1], run[q - 1].files.pending.value.next);
  }

  lemma NewRecordWasFresh(run: seq<LeaseState>, q: nat)
    requires IsRun(run) && 0 < q < |run| && PublishStep(run[q - 1], run[q])
    requires InitialsWereFresh(run, q - 1)
    requires run[q - 1].files.pending.value.next !in run[q - 1].issued
    ensures InitialsWereFresh(run, q)
  {
    forall p | 0 < p <= q && InitialDecidedAt(run, p) && |run[p].issued| < |run[q].issued|
      ensures FreshAt(run, p)
    {
      if |run[p].issued| == |run[q - 1].issued| {
        FreshIffNeverIssued(run, p, q);
      }
    }
  }

  lemma FreshRecordIsNew(run: seq<LeaseState>, q: nat)
    requires IsRun(run) && 0 < q < |run| && PublishStep(run[q - 1], run[q])
    requires InitialsWereFresh(run, q) && NoDuplicates(run[q - 1].issued)
    ensures run[q - 1].files.pending.value.next !in run[q - 1].issued
  {
    RunKeepsInv(run, q - 1);
    var p := LastPrepare(run, q - 1);
    if run[p].files.pending.value.kind == Initial {
      assert InitialDecidedAt(run, p);
      FreshIffNeverIssued(run, p, q);
    } else {
      SuccessorIsNew(run[q - 1].issued, run[q - 1].files.pending.value.next);
    }
  }

  /**
   No record is ever current a second time exactly when each initial lease that was published had no
   history file when it was decided. Takeovers and retirements need no such check.
   */
  lemma {:induction false} NoRecordReturnsIffInitialsAreFresh(run: seq<LeaseState>, q: nat)
    requires IsRun(run)
    requires q < |run|
    ensures NoDuplicates(run[q].issued) <==> InitialsWereFresh(run, q)
  {
    if q > 0 {
      NoRecordReturnsIffInitialsAreFresh(run, q - 1);
      assert StepAt(run, q);
      if PublishStep(run[q - 1], run[q]) {
        PublishKeepsFreshness(run, q);
      } else {
        SameIssuesSameFreshness(run, q);
      }
    }
  }

  lemma SameIssuesSameFreshness(run: seq<LeaseState>, q: nat)
    requires IsRun(run) && 0 < q < |run| && !PublishStep(run[q - 1], run[q])
    ensures run[q].issued == run[q - 1].issued
    ensures InitialsWereFresh(run, q) <==> InitialsWereFresh(run, q - 1)
  {
    assert StepAt(run, q);
  }

  lemma PublishKeepsFreshness(run: seq<LeaseState>, q: nat)
    requires IsRun(run) && 0 < q < |run| && PublishStep(run[q - 1], run[q])
    requires NoDuplicates(run[q - 1].issued) <==> InitialsWereFresh(run, q - 1)
    ensures NoDuplicates(run[q].issued) <==> InitialsWereFresh(run, q)
  {
    NoDuplicatesAppend(run[q - 1].issued, run[q - 1].files.pending.value.next);
    if NoDuplicates(run[q].issued) {
      NewRecordWasFresh(run, q);
    }
    if InitialsWereFresh(run, q) {
      assert InitialsWereFresh(run, q - 1);
      FreshRecordIsNew(run, q);
    }
  }

  // --- where the protocol stops -------------------------------------------------------------

  /** The most modest takeover of an active record: one epoch and one instant later, with another token. */
  function NextLease(r: Lease): Lease {
    r.(epoch := r.epoch + 1, predecessorSha := Some(LeaseSha(r)), issuedAt := r.issuedAt + 1,
       tokenSha := if r.tokenSha == ForeignSha(0) then ForeignSha(1) else ForeignSha(0))
  }

  /** A first lease for another attempt than `r`'s. */
  function FirstLease(attempt: AttemptId): Lease {
    ControlLeaseRecord(attempt, ForeignSha(0), 1, ForeignSha(0), "", Active, 0, None, None, None, None, None)
  }

  lemma TakeoverIsPossible(s: LeaseState) returns (t: LeaseState)
    requires Inv(s) && s.files.pending.None?
    requires s.files.current.Some? && s.files.current.value.status == Active
    requires s.files.current.value.epoch <= MAX_LINEAGE
    ensures Step(s, t)
  {
    LineageIffWithinLimit(s, |s.issued| - 1);
    var i := Intent(Takeover, s.files.current, NextLease(s.files.current.value));
    t := s.(files := s.files.(pending := Some(i)));
    assert PrepareStep(s, t);
  }

  lemma InitialIsPossible(s: LeaseState) returns (t: LeaseState)
    requires Inv(s) && s.files.pending.None?
    requires s.files.current.None? || s.files.current.value.status == Retired
    ensures Step(s, t)
  {
    var current := s.files.current;
    if current.Some? {
      IssuedTombstoneVerifies(s, |s.issued| - 1);
      assert current.value in s.issued;
    }
    var attempt := if current.Some? then current.value.attemptId + 1 else 0;
    t := s.(files := s.files.(pending := Some(Intent(Initial, current, FirstLease(attempt)))));
    assert PrepareStep(s, t);
  }

  /**
   A reachable state without pending decision is a dead end exactly when the current lease is active at
   epoch 129: every operation first rebuilds its lineage, which is one record too long.
   */
  lemma StoreIsStuckIffEpoch129(s: LeaseState)
    requires Inv(s)
    requires s.files.pending.None?
    ensures (forall t :: !Step(s, t)) <==>
            s.files.current.Some? && s.files.current.value.status == Active && s.files.current.value.epoch == 129
  {
    if s.files.current.None? || s.files.current.value.status == Retired {
      var t := InitialIsPossible(s);
    } else {
      LineageIffWithinLimit(s, |s.issued| - 1);
      assert s.files.current.value in s.issued;
      if s.files.current.value.epoch <= MAX_LINEAGE {
        var t := TakeoverIsPossible(s);
      }
    }
  }

  /** At epoch 129 no scope verifies either, whoever holds the token. */
  lemma NoScopeAtEpoch129(s: LeaseState, context: Option<Reservation>, scope: MutationScope,
                          proof: ControlLeaseProof)
    requires Inv(s)
    requires s.files.current.Some? && s.files.current.value.epoch == 129
    ensures !ScopeVerifies(s.files, context, scope, proof)
  {
    if ScopeVerifies(s.files, context, scope, proof) {
      LineageIffWithinLimit(s, |s.issued| - 1);
    }
  }

  /** Otherwise the holder of the token of the current active lease does get a scope. */
  lemma ScopeExistsWithinLimit(s: LeaseState, token: nat) returns (scope: MutationScope)
    requires Inv(s)
    requires s.files.pending.None?
    requires s.files.current.Some? && s.files.current.value.status == Active
    requires s.files.current.value.epoch <= MAX_LINEAGE
    requires TokenSha(token) == s.files.current.value.tokenSha
    ensures var r := s.files.current.value;
            ScopeVerifies(s.files, Some(Reservation(r.attemptId, r.reservationSha)), scope,
                          ControlLeaseProof(r.attemptId, r.epoch, token))
  {
    var lineage := LineageOfActive(s);
    scope := MutationScope(s.files.current.value, lineage);
  }

  lemma LineageOfActive(s: LeaseState) returns (lineage: seq<Lease>)
    requires Inv(s) && s.files.current.Some?
    requires s.files.current.value.status == Active && s.files.current.value.epoch <= MAX_LINEAGE
    ensures IsLineage(s.files.history, lineage, s.files.current.value)
    ensures InHistory(s.files.history, s.files.current.value)
  {
    var n := |s.issued|;
    LineageIffWithinLimit(s, n - 1);
    lineage := s.issued[n - s.issued[n - 1].epoch..n];
  }
}
