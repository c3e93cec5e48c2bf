/** The generation state machine: its five modes, its exact successors and when a swap to one of them is accepted. */
module GenerationTransitions {
  import opened Wrappers
  import opened ControlRecords
  import opened ControlLeaseLineage

  type GenerationId = nat
  type Lease = ControlLeaseRecord

  const MAX_VERSION: int := 0x7fff_ffff_ffff_ffff

  datatype Mode = Steady | Switching | Validating | Restricted | SafetyUnproven

  datatype ServingFence = ServingFence(
    fenceId: string,
    generationId: GenerationId,
    acceptedAttemptId: AttemptId,
    epoch: int,
    tokenSha: Digest,
    issuedAt: Time)

  /** The serving part of an acceptance; its digest is what states and permits carry. */
  datatype ServingBinding = ServingBinding(
    attemptId: AttemptId,
    generationId: GenerationId,
    fenceId: string,
    fenceEpoch: int,
    fenceTokenSha: Digest,
    proofs: nat)

  datatype Acceptance = Acceptance(
    binding: ServingBinding,
    leaseEpoch: int,
    leaseTokenSha: Digest,
    leaseRecordSha: Digest,
    acceptedAt: Time)

  datatype DeploymentAttempt = DeploymentAttempt(
    attemptId: AttemptId,
    reservationSha: Digest,
    target: GenerationId,
    baseline: GenerationId)

  /** The four control fields are bound together or not at all. */
  datatype ControlBinding = ControlBinding(
    attemptId: AttemptId,
    reservationSha: Digest,
    leaseSha: Digest,
    leaseEpoch: int)

  datatype GenerationState = GenerationState(
    version: int,
    mode: Mode,
    serving: GenerationId,
    fenceId: string,
    fenceEpoch: int,
    fenceTokenSha: Digest,
    desired: Option<GenerationId>,
    rollback: Option<GenerationId>,
    control: Option<ControlBinding>,
    acceptance: Option<ServingBinding>,
    maintenance: bool,
    updatedAt: Time)

  /** A permit names the state it opens, the acceptance and the fence, each by digest. */
  datatype ServingPermit = ServingPermit(
    attemptId: AttemptId,
    generationId: GenerationId,
    state: GenerationState,
    acceptance: ServingBinding,
    fence: ServingFence,
    issuedAt: Time)

  predicate Public(s: GenerationState) {
    s.mode == Steady && !s.maintenance
  }

  predicate Staged(s: GenerationState) {
    s.mode == Steady && s.maintenance
  }

  predicate Hazard(s: GenerationState) {
    s.mode == Restricted || s.mode == SafetyUnproven
  }

  /** The field and shape rules of the state constructor. */
  predicate ValidState(s: GenerationState) {
    && 1 <= s.version <= MAX_VERSION
    && 1 <= s.fenceEpoch <= MAX_VERSION
    && (s.control.Some? ==> 1 <= s.control.value.leaseEpoch <= MAX_VERSION)
    && s.acceptance.Some?
    && (s.mode == Steady ==>
          && s.rollback.Some? && s.rollback.value != s.serving
          && (if s.maintenance then s.control.Some? && s.desired == Some(s.serving)
              else s.control.None? && s.desired.None?))
    && (s.mode != Steady ==> s.maintenance && s.control.Some?)
    && (s.mode == Switching || s.mode == Validating ==>
          s.desired.Some? && s.rollback == Some(s.serving) && s.desired.value != s.serving)
  }

  // --- control lease bindings ---------------------------------------------------------------

  predicate AcceptedInWindow(anchor: Anchor, at: Time, lineage: seq<Lease>, current: Lease) {
    exists i | 0 <= i < |lineage| :: AcceptsEvent(anchor, at, lineage, current, i)
  }

  /** A step of a state that no attempt has bound yet. */
  predicate UnboundLease(lease: Lease, proof: ControlLeaseProof, lineage: seq<Lease>, at: Time) {
    && ProofMatches(lease, proof)
    && CurrentLineage(lineage, lease)
    && AcceptedInWindow(AnchorOf(lease), at, lineage, lease)
  }

  /** A step of a bound state: by the lease that bound it or a later one of the same lineage. */
  predicate BoundLease(s: GenerationState, lease: Lease, proof: ControlLeaseProof, lineage: seq<Lease>, at: Time) {
    && s.control.Some?
    && var c := s.control.value;
       && ProofMatches(lease, proof)
       && CurrentLineage(lineage, lease)
       && lease.attemptId == c.attemptId
       && lease.reservationSha == c.reservationSha
       && c.leaseEpoch <= lease.epoch
       && AcceptedInWindow(Anchor(c.leaseSha, c.attemptId, c.leaseEpoch, Some(c.reservationSha), None), at, lineage,
                           lease)
  }

  function BindingOf(attemptId: AttemptId, reservationSha: Digest, lease: Lease): Option<ControlBinding> {
    Some(ControlBinding(attemptId, reservationSha, LeaseSha(lease), lease.epoch))
  }

  predicate FenceAccepted(f: ServingFence, b: ServingBinding) {
    && f.fenceId == b.fenceId
    && f.generationId == b.generationId
    && f.acceptedAttemptId == b.attemptId
    && f.epoch == b.fenceEpoch
    && f.tokenSha == b.fenceTokenSha
  }

  predicate AcceptanceAnchored(a: Acceptance, reservationSha: Digest, lease: Lease, lineage: seq<Lease>) {
    AcceptedInWindow(Anchor(a.leaseRecordSha, a.binding.attemptId, a.leaseEpoch, Some(reservationSha),
                            Some(a.leaseTokenSha)),
                     a.acceptedAt, lineage, lease)
  }

  // --- transitions --------------------------------------------------------------------------

  function BeginSwitch(s: GenerationState, attempt: DeploymentAttempt, lease: Lease, proof: ControlLeaseProof,
                       lineage: seq<Lease>, at: Time): Option<GenerationState>
  {
    if s.updatedAt < at && Public(s) && UnboundLease(lease, proof, lineage, at)
       && attempt.reservationSha == lease.reservationSha && attempt.baseline == s.serving && s.version < MAX_VERSION
    then
      Some(s.(version := s.version + 1, mode := Switching, desired := Some(attempt.target), rollback := Some(s.serving),
              control := BindingOf(attempt.attemptId, lease.reservationSha, lease),
              maintenance := true, updatedAt := at))
    else None
  }

  function BeginValidation(s: GenerationState, lease: Lease, proof: ControlLeaseProof, lineage: seq<Lease>, at: Time)
    : Option<GenerationState>
  {
    if s.updatedAt < at && s.mode == Switching && BoundLease(s, lease, proof, lineage, s.updatedAt)
       && lease.issuedAt < at && s.version < MAX_VERSION
    then
      Some(s.(version := s.version + 1, mode := Validating,
              control := BindingOf(s.control.value.attemptId, s.control.value.reservationSha, lease),
              maintenance := true, updatedAt := at))
    else None
  }

  function CommitServing(s: GenerationState, a: Acceptance, f: ServingFence, lease: Lease, proof: ControlLeaseProof,
                         lineage: seq<Lease>, at: Time): Option<GenerationState>
  {
    if s.mode == Validating && BoundLease(s, lease, proof, lineage, s.updatedAt)
       && AcceptanceAnchored(a, s.control.value.reservationSha, lease, lineage) && FenceAccepted(f, a.binding)
       && Some(f.generationId) == s.desired && f.acceptedAttemptId == s.control.value.attemptId
       && s.fenceEpoch < f.epoch && f.fenceId != s.fenceId
       && s.updatedAt < at && lease.issuedAt < at && a.acceptedAt < at && f.issuedAt < at && s.version < MAX_VERSION
    then
      Some(GenerationState(s.version + 1, Steady, f.generationId, f.fenceId, f.epoch, f.tokenSha, Some(f.generationId),
                           s.rollback, BindingOf(s.control.value.attemptId, s.control.value.reservationSha, lease),
                           Some(a.binding), true, at))
    else None
  }

  function PrepareServingPublication(s: GenerationState, acceptance: Option<ServingBinding>, at: Time)
    : Option<GenerationState>
  {
    if s.updatedAt < at && Staged(s) && acceptance == s.acceptance && s.version < MAX_VERSION then
      Some(s.(version := s.version + 1, desired := None, control := None, maintenance := false, updatedAt := at))
    else None
  }

  function MarkHazard(s: GenerationState, target: Mode, lease: Lease, proof: ControlLeaseProof, lineage: seq<Lease>,
                      at: Time): Option<GenerationState>
    requires target == Restricted || target == SafetyUnproven
  {
    if s.mode == SafetyUnproven || (target == Restricted && s.mode == Restricted) || at <= s.updatedAt
       || MAX_VERSION <= s.version
    then None
    else if s.control.None? then
      if UnboundLease(lease, proof, lineage, at) then
        Some(s.(version := s.version + 1, mode := target,
                control := BindingOf(lease.attemptId, lease.reservationSha, lease),
                maintenance := true, updatedAt := at))
      else None
    else if BoundLease(s, lease, proof, lineage, s.updatedAt) && lease.issuedAt < at then
      Some(s.(version := s.version + 1, mode := target,
              control := BindingOf(s.control.value.attemptId, s.control.value.reservationSha, lease),
              maintenance := true, updatedAt := at))
    else None
  }

  // --- the compare-and-swap -----------------------------------------------------------------

  /** The persisted records a swap may rely on. */
  datatype Evidence = Evidence(
    attempt: Option<DeploymentAttempt>,
    generations: set<GenerationId>,
    fences: set<ServingFence>,
    acceptance: Option<Acceptance>,
    stagedPermits: map<GenerationState, ServingPermit>,
    permits: set<ServingPermit>)

  /** The mutation scope a swap runs in. */
  datatype Authority = Authority(lease: Lease, lineage: seq<Lease>, proof: ControlLeaseProof)

  predicate AcceptanceEvidence(ev: Evidence, f: ServingFence, auth: Authority) {
    && ev.attempt.Some?
    && ev.attempt.value.attemptId == auth.lease.attemptId
    && f in ev.fences
    && f.acceptedAttemptId == auth.lease.attemptId
    && ev.acceptance.Some?
    && ev.acceptance.value.binding.attemptId == auth.lease.attemptId
    && ev.acceptance.value.binding.generationId in ev.generations
    && ev.attempt.value.target == ev.acceptance.value.binding.generationId == f.generationId
    && FenceAccepted(f, ev.acceptance.value.binding)
    && f.issuedAt < ev.acceptance.value.acceptedAt
    && AcceptanceAnchored(ev.acceptance.value, auth.lease.reservationSha, auth.lease, auth.lineage)
  }

  predicate PermitVerifies(p: ServingPermit, s: GenerationState, a: Acceptance, f: ServingFence) {
    && Public(s)
    && FenceAccepted(f, a.binding)
    && s.serving == f.generationId && s.fenceId == f.fenceId && s.fenceEpoch == f.epoch && s.fenceTokenSha == f.tokenSha
    && s.acceptance == Some(a.binding)
    && p.attemptId == a.binding.attemptId && p.generationId == s.serving && p.state == s && p.acceptance == a.binding
    && p.fence == f
  }

  /** The state that the one possible transition from `s` to the mode of `t` yields, if the evidence allows it. */
  function ExactSuccessor(s: GenerationState, t: GenerationState, fence: Option<ServingFence>,
                          permit: Option<ServingPermit>, auth: Authority, ev: Evidence): Option<GenerationState>
  {
    if Hazard(t) then
      if fence.Some? || permit.Some? then None
      else MarkHazard(s, t.mode, auth.lease, auth.proof, auth.lineage, t.updatedAt)
    else if Public(s) && t.mode == Switching then
      if fence.Some? || permit.Some? || ev.attempt.None? || ev.attempt.value.attemptId != auth.lease.attemptId
         || ev.attempt.value.target !in ev.generations
      then None
      else BeginSwitch(s, ev.attempt.value, auth.lease, auth.proof, auth.lineage, t.updatedAt)
    else if s.mode == Switching && t.mode == Validating then
      if fence.Some? || permit.Some? then None
      else BeginValidation(s, auth.lease, auth.proof, auth.lineage, t.updatedAt)
    else if s.mode == Validating && Staged(t) then
      if permit.Some? || fence.None? || !AcceptanceEvidence(ev, fence.value, auth) then None
      else CommitServing(s, ev.acceptance.value, fence.value, auth.lease, auth.proof, auth.lineage, t.updatedAt)
    else if Staged(s) && Public(t) then
      if fence.Some? || permit.None? || permit.value.attemptId != auth.lease.attemptId
         || s !in ev.stagedPermits || ev.stagedPermits[s] != permit.value || permit.value !in ev.permits
         || !AcceptanceEvidence(ev, permit.value.fence, auth)
         || !BoundLease(s, auth.lease, auth.proof, auth.lineage, s.updatedAt)
         || !PermitVerifies(permit.value, t, ev.acceptance.value, permit.value.fence)
      then None
      else PrepareServingPublication(s, s.acceptance, t.updatedAt)
    else None
  }

  predicate SwapAccepted(s: GenerationState, t: GenerationState, fence: Option<ServingFence>,
                         permit: Option<ServingPermit>, auth: Authority, ev: Evidence)
  {
    && s.updatedAt < t.updatedAt
    && t.version == s.version + 1
    && ExactSuccessor(s, t, fence, permit, auth, ev) == Some(t)
  }

  predicate ValidAttempt(ev: Evidence) {
    ev.attempt.Some? ==> ev.attempt.value.target != ev.attempt.value.baseline
  }

  predicate ValidAuthority(auth: Authority) {
    ValidRecord(auth.lease)
  }

  predicate ValidFence(fence: Option<ServingFence>) {
    fence.Some? ==> 1 <= fence.value.epoch <= MAX_VERSION
  }
}
