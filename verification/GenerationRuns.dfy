/** A whole deployment is possible: four accepted swaps from a public state to the next one. */
module GenerationRuns {
  import opened Wrappers
  import opened ControlRecords
  import opened ControlLeaseLineage
  import opened LeaseProtocol
  import opened LeaseSafety
  import opened ControlPlane
  import opened GenerationTransitions
  import opened GenerationEdges
  import opened GenerationStates
  import opened GenerationPlane

  /** A deployment of `target` under a lease, from the state `from` on; `tokenSha` is that of the new fence. */
  datatype Deployment = Deployment(from: GenerationState, auth: Authority, target: GenerationId, tokenSha: Digest)

  /** The times after this one lie in the window of the lease and after everything stored so far. */
  function Begin(d: Deployment): Time {
    if d.from.updatedAt < d.auth.lease.issuedAt then d.auth.lease.issuedAt else d.from.updatedAt
  }

  predicate CanDeploy(d: Deployment) {
    && ValidState(d.from) && Public(d.from) && Holds(d.auth) && d.target != d.from.serving
    && d.from.version + 4 <= MAX_VERSION && d.from.fenceEpoch < MAX_VERSION
  }

  function AttemptOf(d: Deployment): DeploymentAttempt {
    DeploymentAttempt(d.auth.lease.attemptId, d.auth.lease.reservationSha, d.target, d.from.serving)
  }

  function NewFence(d: Deployment): ServingFence {
    ServingFence(d.from.fenceId + "+", d.target, d.auth.lease.attemptId, d.from.fenceEpoch + 1, d.tokenSha,
                 Begin(d) + 1)
  }

  function NewAcceptance(d: Deployment): Acceptance {
    var f := NewFence(d);
    Acceptance(ServingBinding(d.auth.lease.attemptId, d.target, f.fenceId, f.epoch, f.tokenSha, 0),
               d.auth.lease.epoch, d.auth.lease.tokenSha, LeaseSha(d.auth.lease), Begin(d) + 2)
  }

  /** The state after `k` of the four swaps. */
  function Stage(d: Deployment, k: nat): GenerationState
    requires k <= 4
  {
    var (s, f, b) := (d.from, NewFence(d), Some(NewAcceptance(d).binding));
    match k
    case 0 => s
    case 1 => s.(version := s.version + 1, mode := Switching, desired := Some(d.target), rollback := Some(s.serving),
                 control := BoundNow(d.auth), maintenance := true, updatedAt := Begin(d) + 1)
    case 2 => Stage(d, 1).(version := s.version + 2, mode := Validating, updatedAt := Begin(d) + 2)
    case 3 => GenerationState(s.version + 3, Steady, d.target, f.fenceId, f.epoch, f.tokenSha, Some(d.target),
                              Some(s.serving), BoundNow(d.auth), b, true, Begin(d) + 3)
    case _ => Stage(d, 3).(version := s.version + 4, desired := None, control := None, maintenance := false,
                           updatedAt := Begin(d) + 4)
  }

  function NewPermit(d: Deployment): ServingPermit {
    ServingPermit(d.auth.lease.attemptId, d.target, Stage(d, 4), NewAcceptance(d).binding, NewFence(d), Begin(d) + 3)
  }

  /** The records that the attempt adds to those that are persisted already. */
  function Persisted(ev: Evidence, d: Deployment): Evidence {
    Evidence(Some(AttemptOf(d)), ev.generations + {d.target}, ev.fences + {NewFence(d)}, Some(NewAcceptance(d)),
             ev.stagedPermits[Stage(d, 3) := NewPermit(d)], ev.permits + {NewPermit(d)})
  }

  function FenceFor(d: Deployment, k: nat): Option<ServingFence> {
    if k == 2 then Some(NewFence(d)) else None
  }

  function PermitFor(d: Deployment, k: nat): Option<ServingPermit> {
    if k == 3 then Some(NewPermit(d)) else None
  }

  /** After the beginning the lease of the caller is the newest one. */
  lemma LeaseIsNewest(d: Deployment, at: Time)
    requires Holds(d.auth) && Begin(d) < at
    ensures NewestAt(d.auth.lineage, |d.auth.lineage| - 1, at)
  {
  }

  lemma StageIsBound(d: Deployment, k: nat)
    requires Holds(d.auth) && 1 <= k <= 3
    ensures BoundOnLineage(Stage(d, k), d.auth.lineage)
  {
    LeaseIsNewest(d, Stage(d, k).updatedAt);
    assert Stage(d, k).control == BoundNow(d.auth);
    assert BindingNames(BoundNow(d.auth).value, d.auth.lineage[|d.auth.lineage| - 1]);
  }

  lemma AcceptanceIsAnchored(d: Deployment)
    requires Holds(d.auth)
    ensures AcceptedOnLineage(NewAcceptance(d), d.auth.lineage)
  {
    LeaseIsNewest(d, NewAcceptance(d).acceptedAt);
    assert AcceptanceNames(NewAcceptance(d), d.auth.lineage[|d.auth.lineage| - 1]);
  }

  /** Each of the four swaps is accepted, given the records of the attempt. */
  lemma StageFollows(ev: Evidence, d: Deployment, k: nat)
    requires CanDeploy(d) && k < 4
    ensures MayFollow(Stage(d, k), Stage(d, k + 1), FenceFor(d, k), PermitFor(d, k), d.auth, Persisted(ev, d))
  {
    if k > 0 {
      StageIsBound(d, k);
    }
    AcceptanceIsAnchored(d);
    match k
    case 0 => assert MaySwitch(Stage(d, 0), Stage(d, 1), d.auth, Persisted(ev, d));
    case 1 => assert MayValidate(Stage(d, 1), Stage(d, 2), d.auth);
    case 2 => assert MayCommit(Stage(d, 2), Stage(d, 3), NewFence(d), d.auth, Persisted(ev, d));
    case _ => assert MayPublish(Stage(d, 3), Stage(d, 4), NewPermit(d), d.auth, Persisted(ev, d));
  }

  /** The target is served in public, under the attempt and a new fence, and what was served can be rolled back to. */
  predicate Deployed(d: Deployment, t: GenerationState) {
    && Public(t) && t.serving == d.target && t.rollback == Some(d.from.serving)
    && t.version == d.from.version + 4
    && t.fenceEpoch == d.from.fenceEpoch + 1 && t.fenceTokenSha == d.tokenSha
    && t.acceptance.Some? && t.acceptance.value.attemptId == d.auth.lease.attemptId
    && t.acceptance.value.generationId == d.target
  }

  /**
   From every public state that is not at the end of its versions or fence epochs, the holder of an active lease
   brings every other generation into service: all four swaps are accepted.
   */
  method Deploy(store: GenerationStateStore, auth: Authority, target: GenerationId, tokenSha: Digest)
    returns (ghost d: Deployment)
    requires store.Valid() && CanDeploy(Deployment(store.state, auth, target, tokenSha)) && ValidAuthority(auth)
    modifies store
    ensures store.Valid() && d == Deployment(old(store.state), auth, target, tokenSha)
    ensures Deployed(d, store.state)
    ensures store.trace == old(store.trace) + [Stage(d, 1), Stage(d, 2), Stage(d, 3), Stage(d, 4)]
    ensures store.evidence == Persisted(old(store.evidence), d)
  {
    var it := Deployment(store.state, auth, target, tokenSha);
    d := it;
    ghost var ev := store.evidence;
    store.evidence := Persisted(store.evidence, it);
    for k := 0 to 4
      invariant store.Valid() && store.evidence == Persisted(ev, it) && store.state == Stage(it, k)
      invariant store.trace == old(store.trace) + [Stage(it, 1), Stage(it, 2), Stage(it, 3), Stage(it, 4)][..k]
    {
      StageFollows(ev, it, k);
      var ok := store.CompareAndSwap(Stage(it, k), Stage(it, k + 1), FenceFor(it, k), PermitFor(it, k), auth);
      assert ok;
    }
  }

  /** A public state that another one follows has this much room: no deployment begins where it cannot end. */
  lemma DeploymentNeedsRoom(run: seq<GenerationState>, i: nat, k: nat)
    requires IsStateRun(run) && i < k < |run| && Public(run[i]) && Public(run[k])
    ensures run[i].version + 4 <= MAX_VERSION && run[i].fenceEpoch < MAX_VERSION
  {
    FenceEpochsAscend(run, i, k);
    VersionsCountSwaps(run, i, k);
    RunStatesAreValid(run, k);
    ModeIsPlaceOrHazard(run, k);
    assert InCyclePlace(run[i], i) && InCyclePlace(run[k], k);
  }

  // --- on the control plane -----------------------------------------------------------------

  lemma SwapOnce(run: seq<ServingPlane>, d: Deployment, scope: MutationScope, proof: ControlLeaseProof, k: nat)
    returns (longer: seq<ServingPlane>)
    requires IsServingRun(run) && InScope(run[|run| - 1].control, scope, proof)
    requires CanDeploy(d) && d.auth == Authority(scope.snapshot, scope.lineage, proof)
    requires k < 4 && run[|run| - 1].state == Stage(d, k)
    ensures longer == run + [ServingPlane(run[|run| - 1].control, Stage(d, k + 1))] && IsServingRun(longer)
  {
    var p := run[|run| - 1];
    var q := ServingPlane(p.control, Stage(d, k + 1));
    var ev := Persisted(Evidence(None, {}, {}, None, map[], {}), d);
    StageFollows(Evidence(None, {}, {}, None, map[], {}), d, k);
    AcceptedIffMayFollow(p.state, q.state, FenceFor(d, k), PermitFor(d, k), d.auth, ev);
    assert Swap(p, q, Attempted(scope, proof, FenceFor(d, k), PermitFor(d, k), ev));
    longer := run + [q];
    forall j | 0 < j < |longer|
      ensures ServingStepAt(longer, j)
    {
      assert j < |run| ==> ServingStepAt(run, j);
    }
  }

  lemma {:induction false} SwapsOnward(run: seq<ServingPlane>, d: Deployment, scope: MutationScope,
                                       proof: ControlLeaseProof, k: nat) returns (longer: seq<ServingPlane>)
    requires IsServingRun(run) && InScope(run[|run| - 1].control, scope, proof)
    requires CanDeploy(d) && d.auth == Authority(scope.snapshot, scope.lineage, proof)
    requires k <= 4 && run[|run| - 1].state == Stage(d, k)
    ensures IsServingRun(longer) && run <= longer && |longer| == |run| + (4 - k)
    ensures longer[|longer| - 1] == ServingPlane(run[|run| - 1].control, Stage(d, 4))
    decreases 4 - k
  {
    longer := run;
    if k < 4 {
      longer := SwapOnce(run, d, scope, proof, k);
      longer := SwapsOnward(longer, d, scope, proof, k + 1);
    }
  }

  /** Every run in which some scope verifies while the state is public goes on to serve any other generation. */
  lemma DeploymentIsReached(run: seq<ServingPlane>, scope: MutationScope, proof: ControlLeaseProof,
                            target: GenerationId, tokenSha: Digest) returns (longer: seq<ServingPlane>)
    requires IsServingRun(run) && InScope(run[|run| - 1].control, scope, proof)
    requires var s := run[|run| - 1].state;
             && Public(s) && target != s.serving && s.version + 4 <= MAX_VERSION && s.fenceEpoch < MAX_VERSION
    ensures IsServingRun(longer) && run <= longer && |longer| == |run| + 4
    ensures longer[|run| + 3].control == run[|run| - 1].control
    ensures Deployed(Deployment(run[|run| - 1].state, Authority(scope.snapshot, scope.lineage, proof), target,
                                tokenSha), longer[|run| + 3].state)
  {
    var p := run[|run| - 1];
    var d := Deployment(p.state, Authority(scope.snapshot, scope.lineage, proof), target, tokenSha);
    StateOfRunIsValid(run);
    longer := SwapsOnward(run, d, scope, proof, 0);
  }

  lemma StateOfRunIsValid(run: seq<ServingPlane>)
    requires IsServingRun(run)
    ensures ValidState(run[|run| - 1].state)
  {
    ServingRunKeepsInv(run, |run| - 1);
  }
}
