/** What holds over every run of the control plane, crashes and restarts included. */
module ControlPlaneSafety {
  import opened Wrappers
  import opened ControlRecords
  import opened ControlLeaseLineage
  import opened LeaseProtocol
  import opened LeaseSafety
  import opened TransactionJournals
  import opened ControlLeaseStores
  import opened TransactionRecords
  import opened ControlPlane

  /**
   Every attempt is issued one initial lease at most, and so no lease is ever issued a second time: the envelope of
   an attempt is activated over an empty journal only, and is cleared over a completed one.
   */
  lemma EachAttemptIsIssuedOnce(run: seq<Plane>, k: nat)
    requires IsPlaneRun(run)
    requires k < |run|
    ensures OnceEach(run[k].lease.issued) && NoDuplicates(run[k].lease.issued)
  {
    PlaneRunKeepsInv(run, k);
    OnceMeansDistinct(run[k].lease.issued);
  }

  lemma LeaseIsSound(run: seq<Plane>, k: nat)
    requires IsPlaneRun(run)
    requires k < |run|
    ensures Inv(run[k].lease)
  {
    PlaneRunKeepsInv(run, k);
  }

  /** A durable decision validates in every later state, so that no recovery is ever refused. */
  lemma DecisionsStayValid(run: seq<Plane>, k: nat)
    requires IsPlaneRun(run)
    requires k < |run|
    ensures !Blocked(run[k].lease, BootOf(run[k].records))
  {
    PlaneRunKeepsInv(run, k);
  }

  lemma ExtendsItself(r: Records)
    ensures Extends(r, r)
  {
  }

  lemma MoveExtendsRecords(p: Plane, m: Move, q: Plane)
    requires RecordsInv(p.records) && Moves(p, m, q)
    ensures Extends(p.records, q.records)
  {
    if BootstrapAllows(p.records, m) {
      BootstrapExtends(p.records, m);
    } else if ScopedMove(p, m) {
      var scope, proof :| InScope(p, scope, proof) && ScopeAllows(p.records, m, scope.snapshot);
      ScopeExtends(p.records, m, scope.snapshot);
    } else {
      ExtendsItself(p.records);
    }
  }

  lemma StepExtendsRecords(p: Plane, q: Plane)
    requires RecordsInv(p.records) && PlaneStep(p, q)
    ensures Extends(p.records, q.records)
  {
    if LeaseMoves(p, q) {
      ExtendsItself(p.records);
    } else {
      var m :| Moves(p, m, q);
      MoveExtendsRecords(p, m, q);
    }
  }

  lemma ExtendsFurther(r: Records, s: Records, t: Records)
    requires Extends(r, s) && Extends(s, t)
    ensures Extends(r, t)
  {
    forall a | a in r.journals
      ensures a in t.journals && Grows(r.journals[a], t.journals[a])
    {
      assert Grows(r.journals[a], s.journals[a]) && Grows(s.journals[a], t.journals[a]);
    }
  }

  /**
   Over every run no record is lost or rewritten. A journal only gets more actions at its end, and stands still once
   it is completed.
   */
  lemma {:induction false} RecordsOnlyGrow(run: seq<Plane>, i: nat, k: nat)
    requires IsPlaneRun(run)
    requires i <= k < |run|
    ensures Extends(run[i].records, run[k].records)
  {
    if i < k {
      RecordsOnlyGrow(run, i, k - 1);
      PlaneRunKeepsInv(run, k - 1);
      assert PlaneStepAt(run, k);
      StepExtendsRecords(run[k - 1], run[k]);
      ExtendsFurther(run[i].records, run[k - 1].records, run[k].records);
    } else {
      ExtendsItself(run[i].records);
    }
  }

  /** Every stored journal has a valid history of real changes, and every envelope names the records of its attempt. */
  ghost predicate WellFormedRecords(r: Records) {
    && (forall a | a in r.journals :: a in r.reservations && WellFormedJournal(r.journals[a], a, r.reservations[a]))
    && (r.active.Some? ==> NamesItsRecords(r, r.active.value))
  }

  ghost predicate WellFormedJournal(j: TransactionJournal, a: AttemptId, reservationSha: Digest) {
    && j.attemptId == a && j.reservationSha == reservationSha
    && j.genesisSha == GenesisSha(a, reservationSha, j.createdAt)
    && |j.actions| <= 4096
    && forall i | 0 <= i < |j.actions| ::
         && WellFormedAt(j, i)
         && 1 <= j.actions[i].stepSequence <= 0x7fff_ffff && j.actions[i].beforeSha != j.actions[i].afterSha
         && 1 <= j.actions[i].leaseEpoch <= 0x7fff_ffff_ffff_ffff
  }

  lemma StoredRecordsAreWellFormed(run: seq<Plane>, k: nat)
    requires IsPlaneRun(run)
    requires k < |run|
    ensures WellFormedRecords(run[k].records)
  {
    PlaneRunKeepsInv(run, k);
    RecordsAreWellFormed(run[k].records);
  }

  lemma RecordsAreWellFormed(r: Records)
    requires RecordsInv(r)
    ensures WellFormedRecords(r)
  {
    forall a | a in r.journals
      ensures a in r.reservations && WellFormedJournal(r.journals[a], a, r.reservations[a])
    {
      assert AttemptInv(r, a);
      HistoryByFields(r.journals[a]);
    }
    if r.active.Some? {
      assert AttemptInv(r, r.active.value.attemptId);
      EnvelopeIsFixed(r, r.active.value);
    }
  }

  // --- fencing ------------------------------------------------------------------------------

  lemma StepGrowsIssues(p: Plane, q: Plane)
    requires PlaneStep(p, q)
    ensures p.lease.issued <= q.lease.issued
  {
  }

  lemma {:induction false} IssuesOnlyGrow(run: seq<Plane>, i: nat, k: nat)
    requires IsPlaneRun(run)
    requires i <= k < |run|
    ensures run[i].lease.issued <= run[k].lease.issued
  {
    if i < k {
      IssuesOnlyGrow(run, i, k - 1);
      assert PlaneStepAt(run, k);
      StepGrowsIssues(run[k - 1], run[k]);
    }
  }

  lemma {:induction false} PlaneKeepsDecision(run: seq<Plane>, i: nat, k: nat)
    requires IsPlaneRun(run)
    requires i <= k < |run|
    requires run[i].lease.files.pending.Some?
    ensures DecidedAt(run[k].lease, run[i].lease.files.pending.value, TakeoverPlace(run[i].lease))
  {
    if i < k {
      PlaneKeepsDecision(run, i, k - 1);
      PlaneRunKeepsInv(run, k - 1);
      assert PlaneStepAt(run, k);
      if LeaseMoves(run[k - 1], run[k]) {
        StepKeepsDecision(run[k - 1].lease, run[k].lease, run[i].lease.files.pending.value,
                          TakeoverPlace(run[i].lease));
      }
    }
  }

  /** Once a takeover decision is durable, no scope of an earlier epoch of that attempt ever verifies again. */
  lemma StaleScopesStayFenced(run: seq<Plane>, i: nat, k: nat, scope: MutationScope, proof: ControlLeaseProof)
    requires IsPlaneRun(run)
    requires i <= k < |run|
    requires run[i].lease.files.pending.Some? && run[i].lease.files.pending.value.kind == Takeover
    requires var next := run[i].lease.files.pending.value.next;
             scope.snapshot.attemptId == next.attemptId && scope.snapshot.epoch < next.epoch
    ensures !InScope(run[k], scope, proof)
  {
    if InScope(run[k], scope, proof) {
      PlaneKeepsDecision(run, i, k);
      PlaneRunKeepsInv(run, k);
      CurrentIsNotBefore(run[k].lease, run[i].lease.files.pending.value.next, TakeoverPlace(run[i].lease));
    }
  }

  lemma CurrentIsNotBefore(s: LeaseState, next: Lease, m: int)
    requires Inv(s) && OnceEach(s.issued)
    requires 0 <= m < |s.issued| && s.issued[m] == next
    requires s.files.current.Some? && s.files.current.value.status == Active
    requires s.files.current.value.attemptId == next.attemptId
    ensures next.epoch <= s.files.current.value.epoch
  {
    NotReissuedAfter(s.issued, m);
    OnlyLaterEpochsVerify(s, next, m);
  }

  /** What opened the scopes of a lease opens none under the lease that has taken over from it. */
  lemma TakenOverTokenOpensNothing(run: seq<Plane>, k: nat, scope: MutationScope, proof: ControlLeaseProof)
    requires IsPlaneRun(run)
    requires k < |run|
    requires |run[k].lease.issued| >= 2 && run[k].lease.issued[|run[k].lease.issued| - 2].status == Active
    requires TokenSha(proof.token) == run[k].lease.issued[|run[k].lease.issued| - 2].tokenSha
    ensures !InScope(run[k], scope, proof)
  {
    LeaseIsSound(run, k);
    TokensAreRotated(run[k], scope, proof);
  }

  lemma TokensAreRotated(p: Plane, scope: MutationScope, proof: ControlLeaseProof)
    requires Inv(p.lease) && |p.lease.issued| >= 2 && p.lease.issued[|p.lease.issued| - 2].status == Active
    requires TokenSha(proof.token) == p.lease.issued[|p.lease.issued| - 2].tokenSha
    ensures !InScope(p, scope, proof)
  {
    assert LinkedAt(p.lease.issued, |p.lease.issued| - 1);
  }

  /** An attempt that was retired never holds a verifying scope again. */
  lemma RetiredAttemptsStayRetired(run: seq<Plane>, i: nat, k: nat, t: Lease, scope: MutationScope,
                                   proof: ControlLeaseProof)
    requires IsPlaneRun(run)
    requires i <= k < |run|
    requires t in run[i].lease.issued && t.status == Retired && scope.snapshot.attemptId == t.attemptId
    ensures !InScope(run[k], scope, proof)
  {
    IssuesOnlyGrow(run, i, k);
    PlaneRunKeepsInv(run, k);
    NoScopeAfterRetirement(run[k], t, scope, proof);
  }

  lemma NoScopeAfterRetirement(p: Plane, t: Lease, scope: MutationScope, proof: ControlLeaseProof)
    requires Inv(p.lease) && OnceEach(p.lease.issued)
    requires t in p.lease.issued && t.status == Retired && scope.snapshot.attemptId == t.attemptId
    ensures !InScope(p, scope, proof)
  {
    if InScope(p, scope, proof) {
      ScopeFacts(p, scope, proof);
      var m: nat :| m < |p.lease.issued| && p.lease.issued[m] == t;
      NothingAfterRetirement(p.lease.issued, m);
    }
  }

  lemma NothingAfterRetirement(issued: seq<Lease>, m: nat)
    requires Linked(issued) && OnceEach(issued)
    requires m < |issued| && issued[m].status == Retired
    ensures issued[|issued| - 1].status == Active ==> issued[|issued| - 1].attemptId != issued[m].attemptId
  {
    var n := |issued| - 1;
    if m < n && issued[n].status == Active && issued[n].attemptId == issued[m].attemptId {
      NotReissuedAfter(issued, m);
      forall t | m < t <= n
        ensures !IssuedInitially(issued, issued[m].attemptId, t)
      {
      }
      EpochsAscendUnlessReissued(issued, m, n);
    }
  }

  // --- who may go on ------------------------------------------------------------------------

  /** With nothing pending, an initial lease is granted exactly to an active attempt that was never issued one. */
  lemma InitialIffNeverIssued(p: Plane, token: nat)
    requires PlaneInv(p) && p.lease.files.pending.None?
    ensures MayAcquire(p.lease, BootOf(p.records), token) <==>
            && ValidToken(token) && p.records.active.Some?
            && forall t | t in p.lease.issued :: t.attemptId != p.records.active.value.attemptId
  {
    ContextLoadsIffActive(p.records);
    var current := p.lease.files.current;
    if current.Some? {
      assert current.value in p.lease.issued;
    }
    if p.records.active.Some? && current.Some? && current.value.attemptId != p.records.active.value.attemptId {
      forall t | t in p.lease.issued
        ensures t.attemptId != p.records.active.value.attemptId
      {
      }
    }
  }

  /** After a retirement the envelope of the attempt can always be cleared. */
  lemma CleanupIsNeverStuck(p: Plane)
    requires PlaneInv(p) && p.lease.files.pending.None?
    requires p.lease.files.current.Some? && p.lease.files.current.value.status == Retired
    ensures Cleans(p) <==> IsActive(p.records, p.lease.files.current.value.attemptId)
  {
    var t := p.lease.files.current.value;
    assert t in p.lease.issued && IssueAccounted(p.records, t);
    IssuedTombstoneVerifies(p.lease, |p.lease.issued| - 1);
    ContextLoadsIffActive(p.records);
  }

  /** The dead end of the lease store. */
  ghost predicate DeadEnd(p: Plane) {
    && p.lease.files.pending.None?
    && p.lease.files.current.Some?
    && p.lease.files.current.value.status == Active
    && p.lease.files.current.value.epoch == 129
  }

  /** The records of the attempt that are still there are what they were. */
  ghost predicate SameRecordsOf(r: Records, t: Records, a: AttemptId) {
    && t.active == r.active
    && a in r.journals && a in t.journals && t.journals[a] == r.journals[a]
    && (a in t.evidence <==> a in r.evidence)
  }

  lemma DeadEndAllowsBootstrapOnly(p: Plane, q: Plane)
    requires PlaneInv(p) && DeadEnd(p) && PlaneStep(p, q)
    ensures exists m :: BootstrapAllows(p.records, m) && q == p.(records := AfterMove(p.records, m))
  {
    StoreIsStuckIffEpoch129(p.lease);
    var m :| Moves(p, m, q);
    if ScopedMove(p, m) {
      var scope, proof :| InScope(p, scope, proof) && ScopeAllows(p.records, m, scope.snapshot);
      NoScopeAtEpoch129(p.lease, ActiveContext(p.records), scope, proof);
    }
  }

  /** `q` is the dead end `p`, apart from bootstrap records of other attempts. */
  ghost predicate StillDead(p: Plane, q: Plane)
    requires p.lease.files.current.Some?
  {
    q.lease == p.lease && SameRecordsOf(p.records, q.records, p.lease.files.current.value.attemptId)
  }

  lemma DeadEndStep(p: Plane, q: Plane)
    requires PlaneInv(p) && DeadEnd(p) && PlaneStep(p, q)
    ensures StillDead(p, q)
  {
    DeadEndAllowsBootstrapOnly(p, q);
    DeadEndHasJournal(p);
  }

  lemma DeadEndHasJournal(p: Plane)
    requires PlaneInv(p) && DeadEnd(p)
    ensures p.lease.files.current.value.attemptId in p.records.journals
    ensures IsActive(p.records, p.lease.files.current.value.attemptId)
  {
    assert p.lease.files.current.value in p.lease.issued;
    assert IssueAccounted(p.records, p.lease.files.current.value);
  }

  lemma StillDeadFurther(p: Plane, q: Plane, r: Plane)
    requires DeadEnd(p) && StillDead(p, q) && StillDead(q, r)
    ensures StillDead(p, r)
  {
  }

  /**
   At epoch 129 the control plane stands still for good: whatever happens, the lease, the active envelope, the
   journal and the evidence of the attempt stay as they are, and no other attempt can be activated.
   */
  lemma {:induction false} DeadEndIsForever(run: seq<Plane>, i: nat, k: nat)
    requires IsPlaneRun(run)
    requires i <= k < |run|
    requires DeadEnd(run[i])
    ensures StillDead(run[i], run[k])
  {
    if i == k {
      PlaneRunKeepsInv(run, i);
      DeadEndHasJournal(run[i]);
    } else {
      DeadEndIsForever(run, i, k - 1);
      PlaneRunKeepsInv(run, k - 1);
      assert PlaneStepAt(run, k);
      DeadEndStep(run[k - 1], run[k]);
      StillDeadFurther(run[i], run[k - 1], run[k]);
    }
  }

  // --- actions and lineage ------------------------------------------------------------------

  /** A placement in issue order, read as a placement on the current lineage. */
  ghost predicate PlacesOnLineage(actions: seq<TransactionAction>, lineage: seq<Lease>, place: seq<nat>) {
    && |place| == |actions|
    && (forall i | 0 <= i < |actions| ::
          && place[i] < |lineage| && AnchorMatches(AnchorOfAction(actions[i]), lineage[place[i]])
          && RecordedUnder(actions[i], lineage[place[i]]))
    && (forall i, m | 0 <= i < m < |actions| :: place[i] <= place[m])
  }

  /** The action carries the digest, the epoch and the token of the lease, and belongs to its attempt. */
  predicate RecordedUnder(x: TransactionAction, lease: Lease) {
    && x.leaseRecordSha == LeaseSha(lease) && x.leaseEpoch == lease.epoch && x.leaseTokenSha == lease.tokenSha
    && x.attemptId == lease.attemptId && x.reservationSha == lease.reservationSha
  }

  /**
   The audit anchor of every action in the journal of the current attempt is accepted as an ancestor of the
   current lease, and along the actions the ancestors follow the lineage.
   */
  lemma ActionsLieOnLineage(run: seq<Plane>, k: nat, lineage: seq<Lease>) returns (place: seq<nat>)
    requires IsPlaneRun(run)
    requires k < |run|
    requires run[k].lease.files.current.Some?
    requires IsLineage(run[k].lease.files.history, lineage, run[k].lease.files.current.value)
    ensures CurrentLineage(lineage, run[k].lease.files.current.value)
    ensures run[k].lease.files.current.value.attemptId in run[k].records.journals
    ensures PlacesOnLineage(run[k].records.journals[run[k].lease.files.current.value.attemptId].actions, lineage, place)
  {
    PlaneRunKeepsInv(run, k);
    place := PlacesOfCurrent(run[k], lineage);
  }

  lemma PlacesOfCurrent(p: Plane, lineage: seq<Lease>) returns (place: seq<nat>)
    requires PlaneInv(p) && p.lease.files.current.Some?
    requires IsLineage(p.lease.files.history, lineage, p.lease.files.current.value)
    ensures p.lease.files.current.value.attemptId in p.records.journals
    ensures PlacesOnLineage(p.records.journals[p.lease.files.current.value.attemptId].actions, lineage, place)
  {
    CurrentHasJournal(p);
    var s := p.lease;
    var a := s.files.current.value.attemptId;
    var actions := p.records.journals[a].actions;
    assert Placeable(p.records.journals[a], a, s.issued) && IssuedOnce(s.issued, a);
    var absolute :| Places(actions, a, s.issued, absolute);
    place := PlacesOfIssued(s, lineage, actions, absolute);
  }

  lemma CurrentHasJournal(p: Plane)
    requires Inv(p.lease) && AllAccounted(p) && p.lease.files.current.Some?
    ensures p.lease.files.current.value.attemptId in p.records.journals
  {
    assert p.lease.files.current.value in p.lease.issued;
    assert IssueAccounted(p.records, p.lease.files.current.value);
  }

  lemma PlacesOfIssued(s: LeaseState, lineage: seq<Lease>, actions: seq<TransactionAction>, absolute: seq<nat>)
    returns (place: seq<nat>)
    requires Inv(s) && s.files.current.Some? && IssuedOnce(s.issued, s.files.current.value.attemptId)
    requires IsLineage(s.files.history, lineage, s.files.current.value)
    requires Places(actions, s.files.current.value.attemptId, s.issued, absolute)
    ensures PlacesOnLineage(actions, lineage, place)
  {
    LineageIsIssueOrder(s.files.history, lineage, s.issued, |s.issued| - 1);
    place := Rebase(actions, s.files.current.value.attemptId, s.issued, lineage, absolute);
  }

  lemma Rebase(actions: seq<TransactionAction>, a: AttemptId, issued: seq<Lease>, lineage: seq<Lease>,
               absolute: seq<nat>) returns (place: seq<nat>)
    requires Linked(issued)
    requires Places(actions, a, issued, absolute)
    requires 0 < |lineage| <= |issued| && lineage == issued[|issued| - |lineage|..]
    requires issued[|issued| - 1].status == Active && issued[|issued| - 1].attemptId == a
    requires |lineage| == issued[|issued| - 1].epoch
    requires IssuedOnce(issued, a)
    ensures PlacesOnLineage(actions, lineage, place)
  {
    var base := |issued| - |lineage|;
    forall i | 0 <= i < |absolute|
      ensures base <= absolute[i] && issued[absolute[i]] == lineage[absolute[i] - base]
    {
      ActiveLeasesAreOnLineage(issued, absolute[i]);
    }
    place := seq(|absolute|, i requires 0 <= i < |absolute| => absolute[i] - base);
  }

  /** So epochs never decrease along the actions, and a growing epoch means a lease issued later. */
  lemma EpochsFollowTheLineage(actions: seq<TransactionAction>, lineage: seq<Lease>, place: seq<nat>, i: nat, m: nat)
    requires ActiveLineage(lineage)
    requires PlacesOnLineage(actions, lineage, place)
    requires i < m < |actions|
    ensures actions[i].leaseEpoch <= actions[m].leaseEpoch
    ensures actions[i].leaseEpoch < actions[m].leaseEpoch <==> place[i] < place[m]
  {
    if place[i] < place[m] {
      LineageAscends(lineage, place[i], place[m]);
    }
  }
}
