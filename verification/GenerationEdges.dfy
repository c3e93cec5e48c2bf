/** When a swap is accepted, told edge by edge from the records alone. */
module GenerationEdges {
  import opened Wrappers
  import opened ControlRecords
  import opened ControlLeaseLineage
  import opened GenerationTransitions

  // --- the lease ----------------------------------------------------------------------------

  /** The caller knows the token of the lease, and the lease has a lineage. */
  predicate Holds(auth: Authority) {
    && auth.lease.status == Active
    && auth.proof == ControlLeaseProof(auth.lease.attemptId, auth.lease.epoch, auth.proof.token)
    && auth.lease.tokenSha == TokenSha(auth.proof.token)
    && ActiveLineage(auth.lineage)
    && auth.lineage[|auth.lineage| - 1] == auth.lease
  }

  /** At this time record `i` of the lineage was the newest one. */
  predicate NewestAt(lineage: seq<Lease>, i: nat, at: Time) {
    && i < |lineage|
    && lineage[i].issuedAt < at
    && (i + 1 < |lineage| ==> at < lineage[i + 1].issuedAt)
  }

  predicate BindingNames(c: ControlBinding, lease: Lease) {
    c == ControlBinding(lease.attemptId, lease.reservationSha, LeaseSha(lease), lease.epoch)
  }

  /** The state is bound to a record of the lineage, and was stored while that record was the newest one. */
  predicate BoundOnLineage(s: GenerationState, lineage: seq<Lease>) {
    s.control.Some?
    && exists i :: 0 <= i < |lineage| && BindingNames(s.control.value, lineage[i]) && NewestAt(lineage, i, s.updatedAt)
  }

  predicate AcceptanceNames(a: Acceptance, lease: Lease) {
    && a.binding.attemptId == lease.attemptId
    && a.leaseEpoch == lease.epoch
    && a.leaseTokenSha == lease.tokenSha
    && a.leaseRecordSha == LeaseSha(lease)
  }

  predicate AcceptedOnLineage(a: Acceptance, lineage: seq<Lease>) {
    exists i :: 0 <= i < |lineage| && AcceptanceNames(a, lineage[i]) && NewestAt(lineage, i, a.acceptedAt)
  }

  lemma LastRecord(records: seq<Lease>, lease: Lease)
    requires CurrentLineage(records, lease)
    ensures records[|records| - 1] == lease
  {
  }

  lemma WindowIsNewest(anchor: Anchor, at: Time, lineage: seq<Lease>, lease: Lease, i: nat)
    ensures AcceptsEvent(anchor, at, lineage, lease, i) <==>
            CurrentLineage(lineage, lease) && NewestAt(lineage, i, at) && AnchorMatches(anchor, lineage[i])
  {
    if CurrentLineage(lineage, lease) && i < |lineage| {
      NextSuccessorSuffices(lineage, i, at);
    }
  }

  lemma UnboundMeansHeld(auth: Authority, at: Time)
    ensures UnboundLease(auth.lease, auth.proof, auth.lineage, at) <==> Holds(auth) && auth.lease.issuedAt < at
  {
    if CurrentLineage(auth.lineage, auth.lease) {
      var last := |auth.lineage| - 1;
      WindowIsNewest(AnchorOf(auth.lease), at, auth.lineage, auth.lease, last);
      assert auth.lease.issuedAt < at ==> AcceptsEvent(AnchorOf(auth.lease), at, auth.lineage, auth.lease, last);
      if AcceptedInWindow(AnchorOf(auth.lease), at, auth.lineage, auth.lease) {
        var i: nat :| i < |auth.lineage| && AcceptsEvent(AnchorOf(auth.lease), at, auth.lineage, auth.lease, i);
        assert auth.lineage[i] == auth.lease;
      }
    }
  }

  lemma BoundMeansOnLineage(s: GenerationState, auth: Authority)
    ensures BoundLease(s, auth.lease, auth.proof, auth.lineage, s.updatedAt) <==>
            Holds(auth) && BoundOnLineage(s, auth.lineage)
  {
    if s.control.Some? && CurrentLineage(auth.lineage, auth.lease) {
      var c := s.control.value;
      var anchor := Anchor(c.leaseSha, c.attemptId, c.leaseEpoch, Some(c.reservationSha), None);
      forall i: nat
        ensures AcceptsEvent(anchor, s.updatedAt, auth.lineage, auth.lease, i) <==>
                i < |auth.lineage| && BindingNames(c, auth.lineage[i]) && NewestAt(auth.lineage, i, s.updatedAt)
      {
        WindowIsNewest(anchor, s.updatedAt, auth.lineage, auth.lease, i);
      }
      forall i | 0 <= i < |auth.lineage|
        ensures auth.lineage[i].attemptId == auth.lease.attemptId
        ensures auth.lineage[i].reservationSha == auth.lease.reservationSha
        ensures auth.lineage[i].epoch <= auth.lease.epoch
      {
        if i < |auth.lineage| - 1 {
          LineageAscends(auth.lineage, i, |auth.lineage| - 1);
        }
      }
    }
  }

  lemma AnchoredMeansOnLineage(a: Acceptance, auth: Authority)
    requires Holds(auth)
    ensures AcceptanceAnchored(a, auth.lease.reservationSha, auth.lease, auth.lineage) <==>
            AcceptedOnLineage(a, auth.lineage)
  {
    var anchor := Anchor(a.leaseRecordSha, a.binding.attemptId, a.leaseEpoch, Some(auth.lease.reservationSha),
                         Some(a.leaseTokenSha));
    forall i: nat
      ensures AcceptsEvent(anchor, a.acceptedAt, auth.lineage, auth.lease, i) <==>
              i < |auth.lineage| && AcceptanceNames(a, auth.lineage[i]) && NewestAt(auth.lineage, i, a.acceptedAt)
    {
      WindowIsNewest(anchor, a.acceptedAt, auth.lineage, auth.lease, i);
      if i < |auth.lineage| - 1 {
        LineageAscends(auth.lineage, i, |auth.lineage| - 1);
      }
    }
  }

  // --- the edges ----------------------------------------------------------------------------

  /** The state is the next one after `s`, and is stored after the lease of the caller was issued. */
  predicate Next(s: GenerationState, t: GenerationState, auth: Authority) {
    s.version < 0x7fff_ffff_ffff_ffff && s.updatedAt < t.updatedAt && auth.lease.issuedAt < t.updatedAt && Holds(auth)
  }

  /** The swap leaves the state bound to the lease of the caller. */
  function BoundNow(auth: Authority): Option<ControlBinding> {
    Some(ControlBinding(auth.lease.attemptId, auth.lease.reservationSha, LeaseSha(auth.lease), auth.lease.epoch))
  }

  /** From public to switching: the frozen attempt of the lease, made for what is served, with a persisted target. */
  predicate MaySwitch(s: GenerationState, t: GenerationState, auth: Authority, ev: Evidence) {
    && Public(s) && Next(s, t, auth)
    && ev.attempt == Some(DeploymentAttempt(auth.lease.attemptId, auth.lease.reservationSha, TargetOf(ev), s.serving))
    && TargetOf(ev) in ev.generations
    && t == GenerationState(s.version + 1, Switching, s.serving, s.fenceId, s.fenceEpoch, s.fenceTokenSha,
                            Some(TargetOf(ev)), Some(s.serving), BoundNow(auth), s.acceptance, true, t.updatedAt)
  }

  function TargetOf(ev: Evidence): GenerationId {
    if ev.attempt.Some? then ev.attempt.value.target else 0
  }

  /** From switching to validating: the lease that bound the state, or a recovery of it. */
  predicate MayValidate(s: GenerationState, t: GenerationState, auth: Authority) {
    && s.mode == Switching && Next(s, t, auth) && BoundOnLineage(s, auth.lineage)
    && t == GenerationState(s.version + 1, Validating, s.serving, s.fenceId, s.fenceEpoch, s.fenceTokenSha,
                            s.desired, s.rollback, BoundNow(auth), s.acceptance, true, t.updatedAt)
  }

  /**
   The persisted acceptance of the attempt was made for its persisted target and for exactly this fence, which was
   issued before it, and under a lease of the lineage.
   */
  predicate Proves(ev: Evidence, f: ServingFence, auth: Authority) {
    && ev.attempt.Some? && ev.attempt.value.attemptId == auth.lease.attemptId && TargetOf(ev) in ev.generations
    && f in ev.fences && f.acceptedAttemptId == auth.lease.attemptId && f.generationId == TargetOf(ev)
    && ev.acceptance.Some?
    && ev.acceptance.value.binding == ServingBinding(auth.lease.attemptId, TargetOf(ev), f.fenceId, f.epoch, f.tokenSha,
                                                     ev.acceptance.value.binding.proofs)
    && f.issuedAt < ev.acceptance.value.acceptedAt
    && AcceptedOnLineage(ev.acceptance.value, auth.lineage)
  }

  /** From validating to staged: what is desired is served, under a fence with a new name and a higher epoch. */
  predicate MayCommit(s: GenerationState, t: GenerationState, f: ServingFence, auth: Authority, ev: Evidence) {
    && s.mode == Validating && Next(s, t, auth) && BoundOnLineage(s, auth.lineage)
    && Proves(ev, f, auth) && ev.acceptance.value.acceptedAt < t.updatedAt
    && s.desired == Some(f.generationId) && s.fenceEpoch < f.epoch && s.fenceId != f.fenceId
    && t == GenerationState(s.version + 1, Steady, f.generationId, f.fenceId, f.epoch, f.tokenSha, s.desired,
                            s.rollback, BoundNow(auth), Some(ev.acceptance.value.binding), true, t.updatedAt)
  }

  /**
   From staged to public: the one permit that was staged for `s` names exactly the new state, its acceptance and its
   fence, and the new state serves under that acceptance and that fence.
   */
  predicate MayPublish(s: GenerationState, t: GenerationState, p: ServingPermit, auth: Authority, ev: Evidence) {
    && Staged(s) && Holds(auth) && BoundOnLineage(s, auth.lineage)
    && s.version < 0x7fff_ffff_ffff_ffff && s.updatedAt < t.updatedAt
    && s in ev.stagedPermits && ev.stagedPermits[s] == p && p in ev.permits
    && Proves(ev, p.fence, auth)
    && p == ServingPermit(auth.lease.attemptId, s.serving, t, ev.acceptance.value.binding, p.fence, p.issuedAt)
    && t == GenerationState(s.version + 1, Steady, p.fence.generationId, p.fence.fenceId, p.fence.epoch,
                            p.fence.tokenSha, None, s.rollback, None, Some(ev.acceptance.value.binding), false,
                            t.updatedAt)
    && s.serving == p.fence.generationId && s.fenceId == p.fence.fenceId && s.fenceEpoch == p.fence.epoch
    && s.fenceTokenSha == p.fence.tokenSha && s.acceptance == t.acceptance
  }

  /** To restricted from the cycle, or to unproven from anywhere else: any lease may, if the state is not bound. */
  predicate MayMark(s: GenerationState, t: GenerationState, auth: Authority) {
    && (t.mode == Restricted || t.mode == SafetyUnproven) && s.mode != SafetyUnproven
    && (s.mode == Restricted ==> t.mode == SafetyUnproven)
    && Next(s, t, auth) && (s.control.Some? ==> BoundOnLineage(s, auth.lineage))
    && t == GenerationState(s.version + 1, t.mode, s.serving, s.fenceId, s.fenceEpoch, s.fenceTokenSha,
                            s.desired, s.rollback, BoundNow(auth), s.acceptance, true, t.updatedAt)
  }

  /** Five edges, each with exactly the records it needs. */
  predicate MayFollow(s: GenerationState, t: GenerationState, fence: Option<ServingFence>,
                      permit: Option<ServingPermit>, auth: Authority, ev: Evidence)
  {
    if permit.Some? then fence.None? && MayPublish(s, t, permit.value, auth, ev)
    else if fence.Some? then MayCommit(s, t, fence.value, auth, ev)
    else MaySwitch(s, t, auth, ev) || MayValidate(s, t, auth) || MayMark(s, t, auth)
  }

  lemma BoundToLease(s: GenerationState, auth: Authority)
    requires Holds(auth) && BoundOnLineage(s, auth.lineage)
    ensures s.control.value.attemptId == auth.lease.attemptId
    ensures s.control.value.reservationSha == auth.lease.reservationSha
  {
    var i: nat :| i < |auth.lineage| && BindingNames(s.control.value, auth.lineage[i]);
    if i < |auth.lineage| - 1 {
      LineageAscends(auth.lineage, i, |auth.lineage| - 1);
    }
  }

  lemma ProvesIsEvidence(ev: Evidence, f: ServingFence, auth: Authority)
    requires Holds(auth)
    ensures AcceptanceEvidence(ev, f, auth) <==> Proves(ev, f, auth)
  {
    if ev.acceptance.Some? {
      AnchoredMeansOnLineage(ev.acceptance.value, auth);
    }
  }

  lemma SwitchEdgeIsExact(s: GenerationState, t: GenerationState, fence: Option<ServingFence>,
                          permit: Option<ServingPermit>, auth: Authority, ev: Evidence)
    requires Public(s) && t.mode == Switching
    ensures SwapAccepted(s, t, fence, permit, auth, ev) <==> fence.None? && permit.None? && MaySwitch(s, t, auth, ev)
  {
    UnboundMeansHeld(auth, t.updatedAt);
  }

  lemma ValidateEdgeIsExact(s: GenerationState, t: GenerationState, fence: Option<ServingFence>,
                            permit: Option<ServingPermit>, auth: Authority, ev: Evidence)
    requires s.mode == Switching && t.mode == Validating
    ensures SwapAccepted(s, t, fence, permit, auth, ev) <==> fence.None? && permit.None? && MayValidate(s, t, auth)
  {
    BoundMeansOnLineage(s, auth);
    if Holds(auth) && BoundOnLineage(s, auth.lineage) {
      BoundToLease(s, auth);
    }
  }

  lemma CommitEdgeIsExact(s: GenerationState, t: GenerationState, fence: Option<ServingFence>,
                          permit: Option<ServingPermit>, auth: Authority, ev: Evidence)
    requires s.mode == Validating && Staged(t)
    ensures SwapAccepted(s, t, fence, permit, auth, ev) <==>
            permit.None? && fence.Some? && MayCommit(s, t, fence.value, auth, ev)
  {
    BoundMeansOnLineage(s, auth);
    if fence.Some? && Holds(auth) && BoundOnLineage(s, auth.lineage) {
      BoundToLease(s, auth);
      ProvesIsEvidence(ev, fence.value, auth);
    }
  }

  lemma PublishEdgeIsExact(s: GenerationState, t: GenerationState, fence: Option<ServingFence>,
                           permit: Option<ServingPermit>, auth: Authority, ev: Evidence)
    requires Staged(s) && Public(t)
    ensures SwapAccepted(s, t, fence, permit, auth, ev) <==>
            fence.None? && permit.Some? && MayPublish(s, t, permit.value, auth, ev)
  {
    BoundMeansOnLineage(s, auth);
    if permit.Some? && Holds(auth) {
      ProvesIsEvidence(ev, permit.value.fence, auth);
    }
  }

  lemma HazardEdgeIsExact(s: GenerationState, t: GenerationState, fence: Option<ServingFence>,
                          permit: Option<ServingPermit>, auth: Authority, ev: Evidence)
    requires Hazard(t)
    ensures SwapAccepted(s, t, fence, permit, auth, ev) <==> fence.None? && permit.None? && MayMark(s, t, auth)
  {
    UnboundMeansHeld(auth, t.updatedAt);
    BoundMeansOnLineage(s, auth);
    if Holds(auth) && BoundOnLineage(s, auth.lineage) {
      BoundToLease(s, auth);
    }
  }

  /** A swap is accepted exactly along the five edges. */
  lemma AcceptedIffMayFollow(s: GenerationState, t: GenerationState, fence: Option<ServingFence>,
                             permit: Option<ServingPermit>, auth: Authority, ev: Evidence)
    ensures SwapAccepted(s, t, fence, permit, auth, ev) <==> MayFollow(s, t, fence, permit, auth, ev)
  {
    if Hazard(t) {
      HazardEdgeIsExact(s, t, fence, permit, auth, ev);
    } else if Public(s) && t.mode == Switching {
      SwitchEdgeIsExact(s, t, fence, permit, auth, ev);
    } else if s.mode == Switching && t.mode == Validating {
      ValidateEdgeIsExact(s, t, fence, permit, auth, ev);
    } else if s.mode == Validating && Staged(t) {
      CommitEdgeIsExact(s, t, fence, permit, auth, ev);
    } else if Staged(s) && Public(t) {
      PublishEdgeIsExact(s, t, fence, permit, auth, ev);
    }
  }
}
