/** The lease protocol and the transaction records together: the steps of the control plane, and its invariant. */
module ControlPlane {
  import opened Wrappers
  import opened ControlRecords
  import opened ControlLeaseLineage
  import opened LeaseProtocol
  import opened LeaseSafety
  import opened TransactionJournals
  import opened ControlLeaseStores
  import opened TransactionRecords

  datatype Plane = Plane(lease: LeaseState, records: Records)

  const PlaneStart := Plane(Start, NoRecords)

  /** The scope verifies against the lease files and the bootstrap context that is on the disk. */
  ghost predicate InScope(p: Plane, scope: MutationScope, proof: ControlLeaseProof) {
    ScopeVerifies(p.lease.files, ActiveContext(p.records), scope, proof)
  }

  ghost predicate ScopedMove(p: Plane, m: Move) {
    exists scope, proof :: InScope(p, scope, proof) && ScopeAllows(p.records, m, scope.snapshot)
  }

  /** The current lease is the verified tombstone of the active attempt, and nothing is pending. */
  ghost predicate Cleans(p: Plane) {
    && p.lease.files.pending.None?
    && p.lease.files.current.Some?
    && VerifiedTombstone(p.lease.files.history, p.lease.files.current.value)
    && CleanupAllows(p.records, p.lease.files.current.value)
  }

  ghost predicate Allowed(p: Plane, m: Move) {
    BootstrapAllows(p.records, m) || ScopedMove(p, m) || (m == ClearEnvelope && Cleans(p))
  }

  ghost predicate Moves(p: Plane, m: Move, q: Plane) {
    Allowed(p, m) && q == p.(records := AfterMove(p.records, m))
  }

  /** A file operation of the lease store; a decision is made only under the bootstrap records as they are. */
  ghost predicate LeaseMoves(p: Plane, q: Plane) {
    && q.records == p.records
    && Step(p.lease, q.lease)
    && (PrepareStep(p.lease, q.lease) ==>
          Admits(p.lease.files.history, BootOf(p.records), q.lease.files.pending.value))
  }

  ghost predicate PlaneStep(p: Plane, q: Plane) {
    LeaseMoves(p, q) || exists m :: Moves(p, m, q)
  }

  ghost predicate PlaneStepAt(run: seq<Plane>, k: nat) {
    0 < k < |run| && PlaneStep(run[k - 1], run[k])
  }

  ghost predicate IsPlaneRun(run: seq<Plane>) {
    && 0 < |run|
    && run[0] == PlaneStart
    && forall k | 0 < k < |run| :: PlaneStepAt(run, k)
  }

  function Now(run: seq<Plane>): Plane
    requires run != []
  {
    run[|run| - 1]
  }

  lemma PlaneStepExtends(run: seq<Plane>, q: Plane)
    requires IsPlaneRun(run) && PlaneStep(Now(run), q)
    ensures IsPlaneRun(run + [q])
  {
    var longer := run + [q];
    forall k | 0 < k < |longer|
      ensures PlaneStepAt(longer, k)
    {
      assert k < |run| ==> PlaneStepAt(run, k);
    }
  }

  // --- placement of actions -----------------------------------------------------------------

  /** What an action says about the lease it was recorded under. */
  function AnchorOfAction(x: TransactionAction): Anchor {
    Anchor(x.leaseRecordSha, x.attemptId, x.leaseEpoch, Some(x.reservationSha), Some(x.leaseTokenSha))
  }

  /** `place[i]` is where in issue order the active lease stands whose audit anchor action `i` carries. */
  ghost predicate Places(actions: seq<TransactionAction>, a: AttemptId, issued: seq<Lease>, place: seq<nat>) {
    && |place| == |actions|
    && (forall i | 0 <= i < |place| ::
          && place[i] < |issued|
          && issued[place[i]].status == Active
          && issued[place[i]].attemptId == a
          && AnchorMatches(AnchorOfAction(actions[i]), issued[place[i]]))
    && forall i, k | 0 <= i < k < |place| :: place[i] <= place[k]
  }

  ghost predicate Placeable(j: TransactionJournal, a: AttemptId, issued: seq<Lease>) {
    j.attemptId == a && exists place :: Places(j.actions, a, issued, place)
  }

  lemma LongerIssueOrderKeepsPlaces(j: TransactionJournal, a: AttemptId, issued: seq<Lease>, longer: seq<Lease>)
    requires Placeable(j, a, issued)
    requires issued <= longer
    ensures Placeable(j, a, longer)
  {
    var place :| Places(j.actions, a, issued, place);
    assert Places(j.actions, a, longer, place);
  }

  lemma PlacesExtend(was: seq<TransactionAction>, now: seq<TransactionAction>, a: AttemptId, issued: seq<Lease>,
                     place: seq<nat>)
    requires Places(was, a, issued, place) && was <= now
    requires issued != [] && issued[|issued| - 1].status == Active && issued[|issued| - 1].attemptId == a
    requires forall i | |was| <= i < |now| :: AnchorMatches(AnchorOfAction(now[i]), issued[|issued| - 1])
    ensures exists longer :: Places(now, a, issued, longer)
  {
    var longer := place + seq(|now| - |was|, _ => |issued| - 1);
    assert Places(now, a, issued, longer);
  }

  // --- the invariant ------------------------------------------------------------------------

  /** Whoever was issued a lease went through the bootstrap, and is active or has completed its journal. */
  ghost predicate IssueAccounted(r: Records, t: Lease) {
    && t.attemptId in r.envelopes && t.attemptId in r.reservations && t.attemptId in r.journals
    && t.reservationSha == r.reservations[t.attemptId]
    && (IsActive(r, t.attemptId) || r.journals[t.attemptId].status == JournalCompleted)
    && (t.status == Retired ==> TombstoneBound(r, t))
  }

  ghost predicate AllAccounted(p: Plane) {
    forall t | t in p.lease.issued :: IssueAccounted(p.records, t)
  }

  /** An active attempt that was issued a lease owns the current one, and an active lease is its own. */
  ghost predicate ActiveOwnsCurrent(p: Plane) {
    && (forall t | t in p.lease.issued && IsActive(p.records, t.attemptId) ::
          p.lease.files.current.Some? && p.lease.files.current.value.attemptId == t.attemptId)
    && (p.lease.files.current.Some? && p.lease.files.current.value.status == Active ==>
          IsActive(p.records, p.lease.files.current.value.attemptId))
  }

  /** A durable decision still validates. */
  ghost predicate PendingAdmitted(p: Plane) {
    p.lease.files.pending.Some? ==> Admits(p.lease.files.history, BootOf(p.records), p.lease.files.pending.value)
  }

  ghost predicate JournalsPlaced(p: Plane) {
    forall a | a in p.records.journals :: Placeable(p.records.journals[a], a, p.lease.issued)
  }

  ghost predicate PlaneInv(p: Plane) {
    && Inv(p.lease)
    && RecordsInv(p.records)
    && AllAccounted(p)
    && ActiveOwnsCurrent(p)
    && PendingAdmitted(p)
    && OnceEach(p.lease.issued)
    && JournalsPlaced(p)
  }

  // --- lease operations keep it -------------------------------------------------------------

  lemma LineageSurvives(h: History, g: History, records: seq<Lease>, r: Lease)
    requires IsLineage(h, records, r)
    requires forall key | key in h :: key in g && g[key] == h[key]
    ensures IsLineage(g, records, r)
  {
    forall i | 0 <= i < |records|
      ensures InHistory(g, records[i])
    {
      assert InHistory(h, records[i]);
    }
  }

  lemma TerminalsStayBound(h: History, g: History, boot: Bootstrap, active: Lease, retiredAt: Time)
    requires TerminalsBind(h, boot, active, retiredAt)
    requires forall key | key in h :: key in g && g[key] == h[key]
    ensures TerminalsBind(g, boot, active, retiredAt)
  {
    var t := boot.terminals[active.attemptId];
    var records :| IsLineage(h, records, active) && TerminalBinding(active, t.journal, t.evidence, retiredAt, records);
    LineageSurvives(h, g, records, active);
  }

  /** Freezing or publishing the decided record does not spoil the decision. */
  lemma LeaseStepKeepsAdmission(s: LeaseState, t: LeaseState, boot: Bootstrap)
    requires Inv(s) && Step(s, t) && s.files.pending.Some? && t.files.pending.Some?
    requires Admits(s.files.history, boot, s.files.pending.value)
    ensures t.files.pending == s.files.pending && Admits(t.files.history, boot, t.files.pending.value)
  {
    StepKeepsInv(s, t);
    assert t.files.pending == s.files.pending;
    PendingAdmittedIffBootstrapFits(s, boot);
    PendingAdmittedIffBootstrapFits(t, boot);
    var i := s.files.pending.value;
    if i.kind == Retire {
      TerminalsStayBound(s.files.history, t.files.history, boot, i.expected.value, i.next.retiredAt.value);
    }
  }

  lemma LeaseMoveKeepsAdmission(p: Plane, q: Plane)
    requires Inv(p.lease) && PendingAdmitted(p) && LeaseMoves(p, q)
    ensures PendingAdmitted(q)
  {
    if p.lease.files.pending.Some? {
      if q.lease.files.pending.Some? {
        LeaseStepKeepsAdmission(p.lease, q.lease, BootOf(p.records));
      }
    } else {
      if q.lease.files.pending.Some? {
        PrepareMove(p, q);
      }
    }
  }

  lemma PrepareMove(p: Plane, q: Plane)
    requires LeaseMoves(p, q) && p.lease.files.pending.None? && q.lease.files.pending.Some?
    ensures PrepareStep(p.lease, q.lease) && p.lease.files.history == q.lease.files.history
  {
  }

  lemma LeaseMoveKeepsPlaces(p: Plane, q: Plane)
    requires JournalsPlaced(p) && q.records == p.records && p.lease.issued <= q.lease.issued
    ensures JournalsPlaced(q)
  {
    forall a | a in q.records.journals
      ensures Placeable(q.records.journals[a], a, q.lease.issued)
    {
      LongerIssueOrderKeepsPlaces(p.records.journals[a], a, p.lease.issued, q.lease.issued);
    }
  }

  /** The record of an admitted decision belongs to the active attempt, and a tombstone names its records. */
  lemma DecidedIsAccounted(p: Plane)
    requires Inv(p.lease) && RecordsInv(p.records) && PendingAdmitted(p) && p.lease.files.pending.Some?
    ensures IsActive(p.records, p.lease.files.pending.value.next.attemptId)
    ensures IssueAccounted(p.records, p.lease.files.pending.value.next)
  {
    var i := p.lease.files.pending.value;
    PendingAdmittedIffBootstrapFits(p.lease, BootOf(p.records));
    assert AttemptInv(p.records, i.next.attemptId);
    if i.kind == Retire {
      assert i.expected.value.attemptId == i.next.attemptId;
    }
  }

  /** Only an attempt without a lease can be issued its initial one. */
  lemma InitialIsFirst(p: Plane, t: Lease)
    requires Inv(p.lease) && ActiveOwnsCurrent(p) && p.lease.files.pending.Some?
    requires IsActive(p.records, p.lease.files.pending.value.next.attemptId)
    requires p.lease.files.current == p.lease.files.pending.value.expected
    requires InitialShape(p.lease.files.current, p.lease.files.pending.value.next)
    requires t in p.lease.issued
    ensures t.attemptId != p.lease.files.pending.value.next.attemptId
  {
  }

  lemma OnceEachExtends(issued: seq<Lease>, next: Lease)
    requires OnceEach(issued)
    requires InitialShape(Before(issued, |issued|), next) ==> forall t | t in issued :: t.attemptId != next.attemptId
    ensures OnceEach(issued + [next])
  {
    var longer, n := issued + [next], |issued|;
    assert longer[..n] == issued;
    forall a: AttemptId
      ensures IssuedOnce(longer, a)
    {
      assert IssuedOnce(issued, a);
      forall s, t | 0 <= s < t < |longer|
        ensures !(IssuedInitially(longer, a, s) && IssuedInitially(longer, a, t))
      {
        InitialInPrefix(longer, n, a, s);
        if t < n {
          InitialInPrefix(longer, n, a, t);
        } else {
          assert Before(longer, n) == Before(issued, n) && longer[s] in issued;
        }
      }
    }
  }

  lemma PublishKeepsOnce(p: Plane, q: Plane)
    requires Inv(p.lease) && ActiveOwnsCurrent(p) && OnceEach(p.lease.issued)
    requires PublishStep(p.lease, q.lease)
    requires IsActive(p.records, p.lease.files.pending.value.next.attemptId)
    ensures OnceEach(q.lease.issued)
  {
    var next := p.lease.files.pending.value.next;
    if InitialShape(Before(p.lease.issued, |p.lease.issued|), next) {
      forall t | t in p.lease.issued
        ensures t.attemptId != next.attemptId
      {
        InitialIsFirst(p, t);
      }
    }
    OnceEachExtends(p.lease.issued, next);
  }

  lemma PublishKeepsAccounts(p: Plane, q: Plane)
    requires AllAccounted(p) && q.records == p.records && PublishStep(p.lease, q.lease)
    requires IsActive(p.records, p.lease.files.pending.value.next.attemptId)
    requires IssueAccounted(p.records, p.lease.files.pending.value.next)
    ensures AllAccounted(q) && ActiveOwnsCurrent(q)
  {
  }

  lemma PublishMoveKeepsInv(p: Plane, q: Plane)
    requires PlaneInv(p) && LeaseMoves(p, q) && PublishStep(p.lease, q.lease)
    ensures PlaneInv(q)
  {
    DecidedIsAccounted(p);
    StepKeepsInv(p.lease, q.lease);
    LeaseMoveKeepsAdmission(p, q);
    LeaseMoveKeepsPlaces(p, q);
    PublishKeepsOnce(p, q);
    PublishKeepsAccounts(p, q);
  }

  lemma LeaseMoveKeepsInv(p: Plane, q: Plane)
    requires PlaneInv(p) && LeaseMoves(p, q)
    ensures PlaneInv(q)
  {
    if PublishStep(p.lease, q.lease) {
      PublishMoveKeepsInv(p, q);
    } else {
      OtherStepsIssueNothing(p.lease, q.lease);
      StepKeepsInv(p.lease, q.lease);
      LeaseMoveKeepsAdmission(p, q);
      LeaseMoveKeepsPlaces(p, q);
    }
  }

  lemma OtherStepsIssueNothing(s: LeaseState, t: LeaseState)
    requires Step(s, t) && !PublishStep(s, t)
    ensures t.issued == s.issued && t.files.current == s.files.current
  {
  }

  // --- moves of the records keep it ---------------------------------------------------------

  lemma AccountsExtend(r: Records, t: Records, x: Lease)
    requires IssueAccounted(r, x) && Extends(r, t)
    requires IsActive(r, x.attemptId) ==> IsActive(t, x.attemptId)
    requires RecordsInv(r)
    ensures IssueAccounted(t, x)
  {
    assert AttemptInv(r, x.attemptId);
  }

  /** The bootstrap writes nothing that a loaded context depends on. */
  lemma BootstrapKeepsBoot(r: Records, m: Move)
    requires RecordsInv(r) && BootstrapAllows(r, m) && ContextLoads(r)
    ensures BootOf(AfterMove(r, m)) == BootOf(r)
  {
    if m.WriteGenesis? {
      assert AttemptInv(r, m.attempt);
    }
  }

  lemma AdmittedNeedsContext(p: Plane)
    requires PendingAdmitted(p) && p.lease.files.pending.Some?
    ensures ContextLoads(p.records)
  {
  }

  /** A newly activated attempt has not been issued any lease. */
  lemma ActivationIsFresh(p: Plane, e: Envelope, t: Lease)
    requires AllAccounted(p) && BootstrapAllows(p.records, Activate(e)) && t in p.lease.issued
    ensures t.attemptId != e.attemptId
  {
    assert IssueAccounted(p.records, t);
  }

  lemma BootstrapKeepsAccounts(p: Plane, m: Move, q: Plane)
    requires RecordsInv(p.records) && AllAccounted(p) && ActiveOwnsCurrent(p) && Inv(p.lease)
    requires BootstrapAllows(p.records, m) && q == p.(records := AfterMove(p.records, m))
    ensures AllAccounted(q) && ActiveOwnsCurrent(q)
  {
    BootstrapExtends(p.records, m);
    forall t | t in p.lease.issued
      ensures IssueAccounted(q.records, t)
      ensures m.Activate? ==> t.attemptId != m.envelope.attemptId
    {
      assert IssueAccounted(p.records, t);
      AccountsExtend(p.records, q.records, t);
      if m.Activate? {
        ActivationIsFresh(p, m.envelope, t);
      }
    }
  }

  lemma BootstrapKeepsPlaces(p: Plane, m: Move, q: Plane)
    requires JournalsPlaced(p) && BootstrapAllows(p.records, m) && q == p.(records := AfterMove(p.records, m))
    ensures JournalsPlaced(q)
  {
    forall a | a in q.records.journals
      ensures Placeable(q.records.journals[a], a, q.lease.issued)
    {
      if a in p.records.journals {
        assert Placeable(p.records.journals[a], a, p.lease.issued);
      } else {
        assert Places(q.records.journals[a].actions, a, q.lease.issued, []);
      }
    }
  }

  lemma BootstrapKeepsInv(p: Plane, m: Move, q: Plane)
    requires PlaneInv(p) && BootstrapAllows(p.records, m) && q == p.(records := AfterMove(p.records, m))
    ensures PlaneInv(q)
  {
    BootstrapKeepsRecords(p.records, m);
    BootstrapKeepsAccounts(p, m, q);
    BootstrapKeepsPlaces(p, m, q);
    if p.lease.files.pending.Some? {
      AdmittedNeedsContext(p);
      BootstrapKeepsBoot(p.records, m);
    }
  }

  /** New actions are placed at the end of the issue order: the lease they are stamped with is current. */
  lemma WriteKeepsPlace(p: Plane, j: TransactionJournal, lease: Lease, expected: Option<Digest>)
    requires JournalsPlaced(p) && RecordsInv(p.records)
    requires p.lease.issued != [] && lease == p.lease.issued[|p.lease.issued| - 1] && lease.status == Active
    requires Accepted(p.records, j, lease, expected) && ValidJournal(j)
    requires BoundTo(lease, ReservationOf(p.records, p.records.active.value.attemptId))
    ensures Placeable(j, j.attemptId, p.lease.issued)
  {
    var head := p.records.journals[p.records.active.value.attemptId];
    assert AttemptInv(p.records, p.records.active.value.attemptId);
    assert Placeable(head, head.attemptId, p.lease.issued);
    if j != head {
      SuccessorOnlyAppends(head, j);
      var place :| Places(head.actions, head.attemptId, p.lease.issued, place);
      forall i | |head.actions| <= i < |j.actions|
        ensures AnchorMatches(AnchorOfAction(j.actions[i]), lease)
      {
        assert Audited(j, i) && Stamped(j.actions[i], lease);
      }
      PlacesExtend(head.actions, j.actions, j.attemptId, p.lease.issued, place);
    }
  }

  lemma ScopeFacts(p: Plane, scope: MutationScope, proof: ControlLeaseProof)
    requires Inv(p.lease) && InScope(p, scope, proof)
    ensures p.lease.files.pending.None? && ContextLoads(p.records)
    ensures p.lease.issued != [] && scope.snapshot == p.lease.issued[|p.lease.issued| - 1]
    ensures scope.snapshot.status == Active
    ensures BoundTo(scope.snapshot, ReservationOf(p.records, p.records.active.value.attemptId))
  {
  }

  lemma ScopedMoveKeepsPlaces(p: Plane, m: Move, q: Plane, scope: MutationScope, proof: ControlLeaseProof)
    requires Inv(p.lease) && RecordsInv(p.records) && JournalsPlaced(p)
    requires InScope(p, scope, proof) && ScopeAllows(p.records, m, scope.snapshot)
    requires q == p.(records := AfterMove(p.records, m))
    ensures JournalsPlaced(q)
  {
    if m.WriteJournal? {
      var expected :| Accepted(p.records, m.journal, scope.snapshot, expected);
      ScopeFacts(p, scope, proof);
      WriteKeepsPlace(p, m.journal, scope.snapshot, expected);
    }
  }

  lemma ScopedMoveKeepsAccounts(p: Plane, m: Move, q: Plane, lease: Lease)
    requires RecordsInv(p.records) && AllAccounted(p) && ActiveOwnsCurrent(p)
    requires ScopeAllows(p.records, m, lease) && q == p.(records := AfterMove(p.records, m))
    ensures AllAccounted(q) && ActiveOwnsCurrent(q)
  {
    ScopeExtends(p.records, m, lease);
    forall t | t in p.lease.issued
      ensures IssueAccounted(q.records, t)
    {
      assert IssueAccounted(p.records, t);
      AccountsExtend(p.records, q.records, t);
    }
  }

  lemma ScopedMoveKeepsInv(p: Plane, m: Move, q: Plane)
    requires PlaneInv(p) && ScopedMove(p, m) && q == p.(records := AfterMove(p.records, m))
    ensures PlaneInv(q)
  {
    var scope, proof :| InScope(p, scope, proof) && ScopeAllows(p.records, m, scope.snapshot);
    ScopeFacts(p, scope, proof);
    ScopeKeepsRecords(p.records, m, scope.snapshot);
    ScopedMoveKeepsAccounts(p, m, q, scope.snapshot);
    ScopedMoveKeepsPlaces(p, m, q, scope, proof);
  }

  lemma CleanupKeepsAccounts(p: Plane, q: Plane)
    requires AllAccounted(p) && ActiveOwnsCurrent(p) && Cleans(p)
    requires q == p.(records := AfterMove(p.records, ClearEnvelope))
    ensures AllAccounted(q) && ActiveOwnsCurrent(q)
  {
  }

  lemma CleanupKeepsInv(p: Plane, q: Plane)
    requires PlaneInv(p) && Cleans(p) && q == p.(records := AfterMove(p.records, ClearEnvelope))
    ensures PlaneInv(q)
  {
    CleanupKeepsAccounts(p, q);
    ClearedKeepsRest(p, q);
  }

  lemma ClearedKeepsRest(p: Plane, q: Plane)
    requires PlaneInv(p) && p.lease.files.pending.None? && q == p.(records := AfterMove(p.records, ClearEnvelope))
    requires AllAccounted(q) && ActiveOwnsCurrent(q)
    ensures PlaneInv(q)
  {
    ClearingKeepsRecords(p.records);
    SameJournalsStayPlaced(p, q);
    NothingPendingIsAdmitted(q);
  }

  lemma SameJournalsStayPlaced(p: Plane, q: Plane)
    requires JournalsPlaced(p) && q.lease.issued == p.lease.issued && q.records.journals == p.records.journals
    ensures JournalsPlaced(q)
  {
    forall a | a in q.records.journals
      ensures Placeable(q.records.journals[a], a, q.lease.issued)
    {
      assert Placeable(p.records.journals[a], a, p.lease.issued);
    }
  }

  lemma NothingPendingIsAdmitted(p: Plane)
    requires p.lease.files.pending.None?
    ensures PendingAdmitted(p)
  {
  }

  lemma PlaneStepKeepsInv(p: Plane, q: Plane)
    requires PlaneInv(p) && PlaneStep(p, q)
    ensures PlaneInv(q)
  {
    if LeaseMoves(p, q) {
      LeaseMoveKeepsInv(p, q);
    } else {
      var m :| Moves(p, m, q);
      if BootstrapAllows(p.records, m) {
        BootstrapKeepsInv(p, m, q);
      } else if ScopedMove(p, m) {
        ScopedMoveKeepsInv(p, m, q);
      } else {
        CleanupKeepsInv(p, q);
      }
    }
  }

  lemma StartIsSound()
    ensures PlaneInv(PlaneStart)
  {
  }

  lemma {:induction false} PlaneRunKeepsInv(run: seq<Plane>, k: nat)
    requires IsPlaneRun(run)
    requires k < |run|
    ensures PlaneInv(run[k])
  {
    if k == 0 {
      StartIsSound();
    } else {
      PlaneRunKeepsInv(run, k - 1);
      assert PlaneStepAt(run, k);
      PlaneStepKeepsInv(run[k - 1], run[k]);
    }
  }
}
