/** The control plane and the generation state together, over whole runs. */
module GenerationPlane {
  import opened Wrappers
  import opened ControlRecords
  import opened ControlLeaseLineage
  import opened LeaseProtocol
  import opened LeaseSafety
  import opened ControlPlane
  import opened ControlPlaneSafety
  import opened GenerationTransitions
  import opened GenerationEdges
  import opened GenerationStates

  datatype ServingPlane = ServingPlane(control: Plane, state: GenerationState)

  /** What a caller brings to a swap. */
  datatype Attempted = Attempted(
    scope: MutationScope,
    proof: ControlLeaseProof,
    fence: Option<ServingFence>,
    permit: Option<ServingPermit>,
    evidence: Evidence)

  /** A compare-and-swap of the state, in a scope that verifies at that moment. */
  ghost predicate Swap(p: ServingPlane, q: ServingPlane, x: Attempted) {
    && q.control == p.control
    && InScope(p.control, x.scope, x.proof)
    && ValidAttempt(x.evidence) && ValidFence(x.fence)
    && SwapAccepted(p.state, q.state, x.fence, x.permit, Authority(x.scope.snapshot, x.scope.lineage, x.proof),
                    x.evidence)
  }

  ghost predicate Swaps(p: ServingPlane, q: ServingPlane) {
    exists x :: Swap(p, q, x)
  }

  ghost predicate ControlMoves(p: ServingPlane, q: ServingPlane) {
    q.state == p.state && PlaneStep(p.control, q.control)
  }

  ghost predicate ServingStepAt(run: seq<ServingPlane>, k: nat) {
    0 < k < |run| && (ControlMoves(run[k - 1], run[k]) || Swaps(run[k - 1], run[k]))
  }

  ghost predicate IsServingRun(run: seq<ServingPlane>) {
    && 0 < |run|
    && run[0].control == PlaneStart && ValidState(run[0].state) && Public(run[0].state)
    && forall k | 0 < k < |run| :: ServingStepAt(run, k)
  }

  // --- single steps -------------------------------------------------------------------------

  /** If the state is bound, then to the active lease that stands at `place` in issue order. */
  predicate BoundAt(s: GenerationState, issued: seq<Lease>, place: nat) {
    s.control.Some? ==>
      place < |issued| && issued[place].status == Active && BindingNames(s.control.value, issued[place])
  }

  /** A swap leaves the state bound to its own lease, or not at all. */
  lemma SwapBindsToCurrent(p: ServingPlane, q: ServingPlane, x: Attempted)
    requires Swap(p, q, x)
    ensures q.state.control.Some? ==> BindingNames(q.state.control.value, x.scope.snapshot)
  {
  }

  /** A bound state is swapped only by the lease that bound it or a recovery of it. */
  lemma SwapOfBoundState(p: ServingPlane, q: ServingPlane, x: Attempted)
    requires Swap(p, q, x) && ValidState(p.state) && p.state.control.Some?
    ensures BoundLease(p.state, x.scope.snapshot, x.proof, x.scope.lineage, p.state.updatedAt)
  {
  }

  lemma SwapIsCycleStep(p: ServingPlane, q: ServingPlane, x: Attempted)
    requires Swap(p, q, x) && ValidState(p.state) && Inv(p.control.lease)
    ensures CycleStep(p.state, q.state)
  {
    assert x.scope.snapshot in p.control.lease.issued;
    AcceptedSwapIsCycleStep(p.state, q.state, x.fence, x.permit,
                            Authority(x.scope.snapshot, x.scope.lineage, x.proof), x.evidence);
  }

  // --- whole runs ---------------------------------------------------------------------------

  lemma {:induction false} ServingRunKeepsInv(run: seq<ServingPlane>, k: nat)
    requires IsServingRun(run)
    requires k < |run|
    ensures PlaneInv(run[k].control) && ValidState(run[k].state)
  {
    if k == 0 {
      StartIsSound();
    } else {
      ServingRunKeepsInv(run, k - 1);
      assert ServingStepAt(run, k);
      if ControlMoves(run[k - 1], run[k]) {
        PlaneStepKeepsInv(run[k - 1].control, run[k].control);
      } else {
        var x :| Swap(run[k - 1], run[k], x);
        SwapIsCycleStep(run[k - 1], run[k], x);
      }
    }
  }

  /** If the state is bound, then to the active lease at `place`; otherwise `place` is where the last one was. */
  predicate PlacedAt(p: ServingPlane, place: nat) {
    && (place == 0 || place < |p.control.lease.issued|)
    && BoundAt(p.state, p.control.lease.issued, place)
  }

  /** One place in issue order for each state of the run, and the places never fall. */
  ghost predicate BindingPlaces(run: seq<ServingPlane>, place: seq<nat>) {
    && |place| == |run|
    && (forall k | 0 <= k < |run| :: PlacedAt(run[k], place[k]))
    && (forall i, k | 0 <= i <= k < |run| :: place[i] <= place[k])
  }

  /**
   Over every run of lease operations and swaps, crashes and restarts included, a bound state is bound to an
   issued lease, and the place of that lease in issue order never falls.
   */
  lemma {:induction false} BindingsFollowIssueOrder(run: seq<ServingPlane>) returns (place: seq<nat>)
    requires IsServingRun(run)
    ensures BindingPlaces(run, place)
  {
    var n := |run| - 1;
    if n == 0 {
      place := [0];
    } else {
      PrefixIsRun(run);
      var before := BindingsFollowIssueOrder(run[..n]);
      assert PlacedAt(run[..n][n - 1], before[n - 1]);
      var next := NextPlace(run, n, before[n - 1]);
      place := before + [next];
      assert forall k | 0 <= k < n :: run[..n][k] == run[k] && PlacedAt(run[..n][k], before[k]);
    }
  }

  lemma PrefixIsRun(run: seq<ServingPlane>)
    requires IsServingRun(run) && |run| > 1
    ensures IsServingRun(run[..|run| - 1])
  {
    var shorter := run[..|run| - 1];
    forall k | 0 < k < |shorter|
      ensures ServingStepAt(shorter, k)
    {
      assert ServingStepAt(run, k);
    }
  }

  lemma NextPlace(run: seq<ServingPlane>, k: nat, before: nat) returns (next: nat)
    requires IsServingRun(run) && 0 < k < |run| && PlacedAt(run[k - 1], before)
    ensures PlacedAt(run[k], next) && before <= next
  {
    assert ServingStepAt(run, k);
    if ControlMoves(run[k - 1], run[k]) {
      next := before;
      ControlMovesKeepPlace(run[k - 1], run[k], before);
    } else {
      var x :| Swap(run[k - 1], run[k], x);
      CurrentIsLast(run, k - 1, x);
      next := PlaceAfterSwap(run[k - 1], run[k], x, before);
    }
  }

  lemma ControlMovesKeepPlace(p: ServingPlane, q: ServingPlane, place: nat)
    requires ControlMoves(p, q) && PlacedAt(p, place)
    ensures PlacedAt(q, place)
  {
    StepGrowsIssues(p.control, q.control);
  }

  predicate IsLast(issued: seq<Lease>, r: Lease) {
    issued != [] && issued[|issued| - 1] == r
  }

  lemma PlaceAfterSwap(p: ServingPlane, q: ServingPlane, x: Attempted, before: nat) returns (next: nat)
    requires Swap(p, q, x) && PlacedAt(p, before)
    requires IsLast(p.control.lease.issued, x.scope.snapshot) && x.scope.snapshot.status == Active
    ensures PlacedAt(q, next) && before <= next
  {
    SwapBindsToCurrent(p, q, x);
    next := |p.control.lease.issued| - 1;
  }

  lemma CurrentIsLast(run: seq<ServingPlane>, k: nat, x: Attempted)
    requires IsServingRun(run) && k < |run| && InScope(run[k].control, x.scope, x.proof)
    ensures IsLast(run[k].control.lease.issued, x.scope.snapshot) && x.scope.snapshot.status == Active
  {
    ServingRunKeepsInv(run, k);
    ScopeFacts(run[k].control, x.scope, x.proof);
  }

  // --- from one swap to the next ------------------------------------------------------------

  /** All records issued after `place` recover the one before them. */
  ghost predicate OnlyRecoveries(issued: seq<Lease>, place: nat) {
    forall j | place < j < |issued| :: EdgeAt(issued, j)
  }

  /** The lease at `place` was issued before `at`, and the next one after it. */
  predicate StoredInWindow(issued: seq<Lease>, place: nat, at: Time) {
    place < |issued| && issued[place].issuedAt < at && (place + 1 < |issued| ==> at < issued[place + 1].issuedAt)
  }

  predicate IsTail(lineage: seq<Lease>, issued: seq<Lease>) {
    |lineage| <= |issued| && lineage == issued[|issued| - |lineage|..]
  }

  /**
   A bound state is swapped only as long as nothing but recoveries has followed the lease that it is bound to:
   once that lease is retired, or another attempt has begun, no swap is accepted. And the state was stored after
   its lease was issued and before the next recovery was.
   */
  lemma SwapFollowsBinding(run: seq<ServingPlane>, k: nat, place: nat)
    requires IsServingRun(run) && 0 < k < |run| && Swaps(run[k - 1], run[k])
    requires run[k - 1].state.control.Some? && PlacedAt(run[k - 1], place)
    ensures OnlyRecoveries(run[k - 1].control.lease.issued, place)
    ensures StoredInWindow(run[k - 1].control.lease.issued, place, run[k - 1].state.updatedAt)
  {
    var x :| Swap(run[k - 1], run[k], x);
    ScopeLineageIsTail(run, k - 1, x);
    IssuesAreLinked(run, k - 1);
    BoundSwapFollows(run[k - 1], run[k], x, place);
  }

  lemma BoundSwapFollows(p: ServingPlane, q: ServingPlane, x: Attempted, place: nat)
    requires Swap(p, q, x) && ValidState(p.state) && p.state.control.Some? && PlacedAt(p, place)
    requires ActiveLineage(x.scope.lineage) && IsTail(x.scope.lineage, p.control.lease.issued)
    requires NoDuplicates(p.control.lease.issued)
    ensures OnlyRecoveries(p.control.lease.issued, place)
    ensures StoredInWindow(p.control.lease.issued, place, p.state.updatedAt)
  {
    var i := BindingIsOnLineage(p, q, x);
    AnchorFixesPlace(p.control.lease.issued, x.scope.lineage, i, place);
    RestOfLineage(p.control.lease.issued, x.scope.lineage, i, p.state.updatedAt);
  }

  /** The lease that the state is bound to stands on the lineage of the scope, and the state in its window. */
  lemma BindingIsOnLineage(p: ServingPlane, q: ServingPlane, x: Attempted) returns (i: nat)
    requires Swap(p, q, x) && ValidState(p.state) && p.state.control.Some?
    ensures i < |x.scope.lineage| && LeaseSha(x.scope.lineage[i]) == p.state.control.value.leaseSha
    ensures InWindow(x.scope.lineage, i, p.state.updatedAt)
  {
    SwapOfBoundState(p, q, x);
    var c, at := p.state.control.value, p.state.updatedAt;
    var anchor := Anchor(c.leaseSha, c.attemptId, c.leaseEpoch, Some(c.reservationSha), None);
    assert AcceptedInWindow(anchor, at, x.scope.lineage, x.scope.snapshot);
    i :| i < |x.scope.lineage| && AcceptsEvent(anchor, at, x.scope.lineage, x.scope.snapshot, i);
  }

  lemma ScopeLineageIsTail(run: seq<ServingPlane>, k: nat, x: Attempted)
    requires IsServingRun(run) && k < |run| && InScope(run[k].control, x.scope, x.proof)
    ensures ActiveLineage(x.scope.lineage) && IsTail(x.scope.lineage, run[k].control.lease.issued)
  {
    CurrentIsLast(run, k, x);
    IssuesAreLinked(run, k);
    LineageIsTail(run[k].control.lease.files.history, run[k].control.lease.issued, x.scope.snapshot, x.scope.lineage);
  }

  lemma IssuesAreLinked(run: seq<ServingPlane>, k: nat)
    requires IsServingRun(run) && k < |run|
    ensures Linked(run[k].control.lease.issued) && NoDuplicates(run[k].control.lease.issued)
    ensures ValidState(run[k].state)
  {
    ServingRunKeepsInv(run, k);
    OnceMeansDistinct(run[k].control.lease.issued);
  }

  lemma LineageIsTail(h: History, issued: seq<Lease>, current: Lease, lineage: seq<Lease>)
    requires Linked(issued) && IsLast(issued, current) && IsLineage(h, lineage, current)
    ensures ActiveLineage(lineage) && IsTail(lineage, issued)
  {
    LineageIsIssueOrder(h, lineage, issued, |issued| - 1);
  }

  lemma AnchorFixesPlace(issued: seq<Lease>, lineage: seq<Lease>, i: nat, place: nat)
    requires IsTail(lineage, issued)
    requires NoDuplicates(issued)
    requires i < |lineage| && place < |issued| && LeaseSha(lineage[i]) == LeaseSha(issued[place])
    ensures place == |issued| - |lineage| + i
  {
    assert issued[|issued| - |lineage| + i] == lineage[i] == issued[place];
  }

  lemma RestOfLineage(issued: seq<Lease>, lineage: seq<Lease>, i: nat, at: Time)
    requires IsTail(lineage, issued)
    requires ActiveLineage(lineage) && i < |lineage| && InWindow(lineage, i, at)
    ensures OnlyRecoveries(issued, |issued| - |lineage| + i) && StoredInWindow(issued, |issued| - |lineage| + i, at)
  {
    var base := |issued| - |lineage|;
    assert forall j | 0 <= j < |lineage| :: lineage[j] == issued[base + j];
    forall j | base + i < j < |issued|
      ensures EdgeAt(issued, j)
    {
      assert EdgeAt(lineage, j - base);
    }
  }
}
