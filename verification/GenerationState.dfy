/** The store of the generation state: its compare-and-swap, and what holds over every run of accepted swaps. */
module GenerationStates {
  import opened Wrappers
  import opened ControlRecords
  import opened GenerationTransitions
  import opened GenerationEdges

  class GenerationStateStore {
    var state: GenerationState
    var evidence: Evidence
    /** Every state that has been stored. */
    ghost var trace: seq<GenerationState>

    ghost predicate Valid()
      reads this
    {
      IsStateRun(trace) && trace[|trace| - 1] == state
    }

    constructor (first: GenerationState, evidence: Evidence)
      requires ValidAttempt(evidence)
      requires ValidState(first) && Public(first)
      ensures Valid() && state == first && trace == [first]
    {
      state := first;
      this.evidence := evidence;
      trace := [first];
    }

    /** Replaces the state whose digest the caller expects by the one successor the evidence proves. */
    method CompareAndSwap(expected: GenerationState, desired: GenerationState, fence: Option<ServingFence>,
                          permit: Option<ServingPermit>, auth: Authority) returns (ok: bool)
      requires Valid() && ValidAttempt(evidence) && ValidAuthority(auth) && ValidFence(fence)
      modifies this
      ensures Valid() && evidence == old(evidence)
      ensures ok <==> expected == old(state) && SwapAccepted(old(state), desired, fence, permit, auth, evidence)
      ensures ok <==> expected == old(state) && MayFollow(old(state), desired, fence, permit, auth, evidence)
      ensures state == if ok then desired else old(state)
      ensures trace == if ok then old(trace) + [desired] else old(trace)
    {
      AcceptedIffMayFollow(state, desired, fence, permit, auth, evidence);
      if desired.updatedAt <= state.updatedAt || expected != state || desired.version != state.version + 1 {
        return false;
      }
      if ExactSuccessor(state, desired, fence, permit, auth, evidence) != Some(desired) {
        return false;
      }
      RunStatesAreValid(trace, |trace| - 1);
      AcceptedSwapIsCycleStep(state, desired, fence, permit, auth, evidence);
      StateRunExtends(trace, desired);
      state := desired;
      trace := trace + [desired];
      return true;
    }
  }

  // --- what every accepted swap is ----------------------------------------------------------

  predicate SameServing(s: GenerationState, t: GenerationState) {
    && t.serving == s.serving && t.fenceId == s.fenceId && t.fenceEpoch == s.fenceEpoch
    && t.fenceTokenSha == s.fenceTokenSha && t.acceptance == s.acceptance
  }

  /** The attempt that controls the state stays, and its lease never gets an older epoch. */
  predicate ControlContinues(s: GenerationState, t: GenerationState) {
    && s.control.Some? && t.control.Some?
    && t.control.value.attemptId == s.control.value.attemptId
    && t.control.value.reservationSha == s.control.value.reservationSha
    && s.control.value.leaseEpoch <= t.control.value.leaseEpoch
  }

  predicate SwitchEdge(s: GenerationState, t: GenerationState) {
    Public(s) && t.mode == Switching && SameServing(s, t) && t.rollback == Some(s.serving)
  }

  predicate ValidateEdge(s: GenerationState, t: GenerationState) {
    && s.mode == Switching && t.mode == Validating && SameServing(s, t) && ControlContinues(s, t)
    && t.desired == s.desired && t.rollback == s.rollback
  }

  predicate CommitEdge(s: GenerationState, t: GenerationState) {
    && s.mode == Validating && Staged(t) && ControlContinues(s, t)
    && Some(t.serving) == s.desired && t.rollback == s.rollback && s.fenceEpoch < t.fenceEpoch && t.fenceId != s.fenceId
    && t.acceptance.Some? && t.acceptance.value.generationId == t.serving
    && t.acceptance.value.attemptId == s.control.value.attemptId
  }

  predicate PublishEdge(s: GenerationState, t: GenerationState) {
    Staged(s) && Public(t) && SameServing(s, t) && t.rollback == s.rollback
  }

  predicate HazardEdge(s: GenerationState, t: GenerationState) {
    && Hazard(t) && s.mode != SafetyUnproven && !(s.mode == Restricted && t.mode == Restricted)
    && SameServing(s, t) && t.desired == s.desired && t.rollback == s.rollback
    && (s.control.Some? ==> ControlContinues(s, t))
  }

  /** One accepted swap, told without leases and evidence. */
  predicate CycleStep(s: GenerationState, t: GenerationState) {
    && t.version == s.version + 1
    && s.updatedAt < t.updatedAt
    && ValidState(t)
    && (SwitchEdge(s, t) || ValidateEdge(s, t) || CommitEdge(s, t) || PublishEdge(s, t) || HazardEdge(s, t))
  }

  predicate CycleStepAt(run: seq<GenerationState>, k: nat) {
    0 < k < |run| && CycleStep(run[k - 1], run[k])
  }

  ghost predicate IsStateRun(run: seq<GenerationState>) {
    && 0 < |run|
    && ValidState(run[0]) && Public(run[0])
    && forall k | 0 < k < |run| :: CycleStepAt(run, k)
  }

  lemma AcceptedSwapIsCycleStep(s: GenerationState, t: GenerationState, fence: Option<ServingFence>,
                                permit: Option<ServingPermit>, auth: Authority, ev: Evidence)
    requires ValidState(s) && ValidAttempt(ev) && ValidAuthority(auth) && ValidFence(fence)
    requires SwapAccepted(s, t, fence, permit, auth, ev)
    ensures CycleStep(s, t)
  {
  }

  lemma StateRunExtends(run: seq<GenerationState>, t: GenerationState)
    requires IsStateRun(run)
    requires CycleStep(run[|run| - 1], t)
    ensures IsStateRun(run + [t])
  {
    forall k | 0 < k < |run| + 1
      ensures CycleStepAt(run + [t], k)
    {
      assert k < |run| ==> CycleStepAt(run, k);
    }
  }

  lemma RunStatesAreValid(run: seq<GenerationState>, k: nat)
    requires IsStateRun(run)
    requires k < |run|
    ensures ValidState(run[k])
  {
    assert k > 0 ==> CycleStepAt(run, k);
  }

  // --- whole runs ---------------------------------------------------------------------------

  /** Versions count the swaps, and times ascend between every pair of states. */
  lemma {:induction false} VersionsCountSwaps(run: seq<GenerationState>, i: nat, k: nat)
    requires IsStateRun(run)
    requires i <= k < |run|
    ensures run[k].version == run[i].version + (k - i)
    ensures i < k ==> run[i].updatedAt < run[k].updatedAt
  {
    if i < k {
      VersionsCountSwaps(run, i, k - 1);
      assert CycleStepAt(run, k);
    }
  }

  /** A restricted or unproven state is only ever followed by hazards, and an unproven one by nothing. */
  lemma {:induction false} HazardsAreNeverLeft(run: seq<GenerationState>, i: nat, k: nat)
    requires IsStateRun(run)
    requires i <= k < |run|
    requires Hazard(run[i])
    ensures Hazard(run[k]) && SameServing(run[i], run[k])
    ensures run[i].mode == SafetyUnproven ==> k == i
    ensures k <= i + 1
  {
    if i < k {
      assert CycleStepAt(run, i + 1);
      assert CycleStepAt(run, k);
      HazardsAreNeverLeft(run, i, k - 1);
    }
  }

  /** Without a hazard the place in the run alone tells the mode: the cycle has no other path and no shortcut. */
  predicate InCyclePlace(s: GenerationState, k: nat) {
    match k % 4
    case 0 => Public(s)
    case 1 => s.mode == Switching
    case 2 => s.mode == Validating
    case _ => Staged(s)
  }

  lemma {:induction false} ModeIsPlaceOrHazard(run: seq<GenerationState>, k: nat)
    requires IsStateRun(run)
    requires k < |run|
    ensures InCyclePlace(run[k], k) || Hazard(run[k])
    ensures !Hazard(run[k]) ==> forall i | 0 <= i <= k :: InCyclePlace(run[i], i)
  {
    if k > 0 {
      ModeIsPlaceOrHazard(run, k - 1);
      assert CycleStepAt(run, k);
    }
  }

  /** Two consecutive public states are exactly one full cycle apart, and the later one can roll back to the earlier. */
  lemma PublicStatesAreOneCycleApart(run: seq<GenerationState>, i: nat, k: nat)
    requires IsStateRun(run)
    requires i < k < |run|
    requires Public(run[i]) && Public(run[k])
    requires forall m | i < m < k :: !Public(run[m])
    ensures k == i + 4 && run[k].version == run[i].version + 4
    ensures run[i + 1].mode == Switching && run[i + 2].mode == Validating && Staged(run[i + 3])
    ensures Some(run[k].serving) == run[i + 1].desired == run[i + 2].desired
    ensures run[k].rollback == Some(run[i].serving) && run[k].serving != run[i].serving
    ensures run[i].fenceEpoch < run[k].fenceEpoch && run[k].fenceId != run[i].fenceId
    ensures run[k].acceptance.Some? && run[k].acceptance.value.generationId == run[k].serving
    ensures run[i + 1].control.Some? && run[i + 3].control.Some?
    ensures run[k].acceptance.value.attemptId == run[i + 1].control.value.attemptId
    ensures run[i + 1].control.value.leaseEpoch <= run[i + 3].control.value.leaseEpoch
  {
    ModeIsPlaceOrHazard(run, k);
    assert InCyclePlace(run[i], i) && InCyclePlace(run[k], k);
    assert i % 4 == 0 && k % 4 == 0 && i + 4 <= k;
    assert InCyclePlace(run[i + 4], i + 4);
    VersionsCountSwaps(run, i, k);
    assert CycleStepAt(run, i + 1) && CycleStepAt(run, i + 2) && CycleStepAt(run, i + 3) && CycleStepAt(run, i + 4);
  }

  /** Fence epochs never go back over a run, and no fence epoch is public twice. */
  lemma {:induction false} FenceEpochsAscend(run: seq<GenerationState>, i: nat, k: nat)
    requires IsStateRun(run)
    requires i <= k < |run|
    ensures run[i].fenceEpoch <= run[k].fenceEpoch
    ensures run[i].fenceEpoch == run[k].fenceEpoch ==> SameServing(run[i], run[k])
    ensures Public(run[i]) && Public(run[k]) && i < k ==> run[i].fenceEpoch < run[k].fenceEpoch
  {
    if i < k {
      FenceEpochsAscend(run, i, k - 1);
      assert CycleStepAt(run, k);
      if Public(run[i]) && Public(run[k]) {
        ModeIsPlaceOrHazard(run, k);
        assert InCyclePlace(run[i], i) && InCyclePlace(run[k], k) && InCyclePlace(run[k - 1], k - 1);
        assert InCyclePlace(run[k - 2], k - 2);
        FenceEpochsAscend(run, i, k - 2);
        assert CycleStepAt(run, k - 1);
      }
    }
  }
}
