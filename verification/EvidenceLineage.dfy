/** Where the lease stands that terminal evidence was signed under, over every run of the control plane. */
module EvidenceLineage {
  import opened Wrappers
  import opened ControlRecords
  import opened ControlLeaseLineage
  import opened LeaseProtocol
  import opened LeaseSafety
  import opened TransactionJournals
  import opened ControlLeaseStores
  import opened TransactionRecords
  import opened ControlPlane
  import opened ControlPlaneSafety

  // --- the first write ----------------------------------------------------------------------

  /**
   New evidence of attempt `a` is signed under the current lease, which is active and settled, and it names the
   journal head that is in place.
   */
  ghost predicate SignedByCurrent(p: Plane, a: AttemptId, e: TerminalEvidence) {
    && p.lease.files.pending.None? && p.lease.files.current.Some?
    && p.lease.files.current.value.status == Active && p.lease.files.current.value.attemptId == a
    && SignedUnder(e, p.lease.files.current.value)
    && a in p.records.journals && p.records.journals[a].status == JournalActive
    && e.activeJournalSha == JournalSha(p.records.journals[a])
  }

  lemma OnlyWritingAdds(r: Records, m: Move, a: AttemptId)
    requires a !in r.evidence && a in AfterMove(r, m).evidence
    ensures m == WriteEvidence(AfterMove(r, m).evidence[a]) && m.evidence.attemptId == a
  {
  }

  /** Only a scoped write makes evidence appear. */
  lemma NewEvidenceIsWritten(p: Plane, q: Plane, a: AttemptId) returns (scope: MutationScope, proof: ControlLeaseProof)
    requires PlaneStep(p, q) && a !in p.records.evidence && a in q.records.evidence
    ensures InScope(p, scope, proof) && EvidenceAccepted(p.records, q.records.evidence[a], scope.snapshot)
    ensures q.lease == p.lease && q.records.evidence[a].attemptId == a
    ensures q.records.journals == p.records.journals
  {
    var m :| Moves(p, m, q);
    OnlyWritingAdds(p.records, m, a);
    assert ScopedMove(p, m);
    scope, proof :| InScope(p, scope, proof) && ScopeAllows(p.records, m, scope.snapshot);
  }

  lemma WrittenEvidenceIsSigned(p: Plane, e: TerminalEvidence, scope: MutationScope, proof: ControlLeaseProof)
    requires Inv(p.lease) && RecordsInv(p.records)
    requires InScope(p, scope, proof) && EvidenceAccepted(p.records, e, scope.snapshot)
    requires e.attemptId !in p.records.evidence
    ensures SignedByCurrent(p, e.attemptId, e)
  {
    ScopeFacts(p, scope, proof);
    assert AttemptInv(p.records, p.records.active.value.attemptId);
  }

  lemma StepIsSound(run: seq<Plane>, k: nat)
    requires IsPlaneRun(run)
    requires 0 < k < |run|
    ensures Inv(run[k - 1].lease) && RecordsInv(run[k - 1].records)
    ensures PlaneStep(run[k - 1], run[k])
  {
    PlaneRunKeepsInv(run, k - 1);
    assert PlaneStepAt(run, k);
  }

  lemma StepSigns(p: Plane, q: Plane, a: AttemptId)
    requires Inv(p.lease) && RecordsInv(p.records)
    requires PlaneStep(p, q) && a !in p.records.evidence && a in q.records.evidence
    ensures SignedByCurrent(q, a, q.records.evidence[a])
  {
    var scope, proof := NewEvidenceIsWritten(p, q, a);
    WrittenEvidenceIsSigned(p, q.records.evidence[a], scope, proof);
    SignatureStays(p, q, a, q.records.evidence[a]);
  }

  /** Over every run: the step that first writes evidence of an attempt writes it under the lease of that moment. */
  lemma FirstEvidenceIsSigned(run: seq<Plane>, k: nat, a: AttemptId)
    requires IsPlaneRun(run)
    requires 0 < k < |run|
    requires a !in run[k - 1].records.evidence && a in run[k].records.evidence
    ensures SignedByCurrent(run[k], a, run[k].records.evidence[a])
  {
    StepIsSound(run, k);
    StepSigns(run[k - 1], run[k], a);
  }

  lemma SignatureStays(p: Plane, q: Plane, a: AttemptId, e: TerminalEvidence)
    requires SignedByCurrent(p, a, e) && q.lease == p.lease && q.records.journals == p.records.journals
    ensures SignedByCurrent(q, a, e)
  {
  }

  // --- every later moment -------------------------------------------------------------------

  /** The evidence was signed under the issued active lease at `place`, a lease of its own attempt. */
  ghost predicate SignedAt(e: TerminalEvidence, a: AttemptId, issued: seq<Lease>, place: nat) {
    && place < |issued| && issued[place].status == Active && issued[place].attemptId == a
    && SignedUnder(e, issued[place])
  }

  /** All evidence was signed under an issued lease: no digest, epoch or token of another one is ever stored. */
  lemma {:induction false} EvidenceIsSigned(run: seq<Plane>, k: nat, a: AttemptId) returns (place: nat)
    requires IsPlaneRun(run)
    requires k < |run|
    requires a in run[k].records.evidence
    ensures SignedAt(run[k].records.evidence[a], a, run[k].lease.issued, place)
  {
    if k > 0 && a in run[k - 1].records.evidence {
      place := EvidenceIsSigned(run, k - 1, a);
      RecordsOnlyGrow(run, k - 1, k);
      IssuesOnlyGrow(run, k - 1, k);
    } else {
      assert k > 0;
      FirstEvidenceIsSigned(run, k, a);
      CurrentIsIssuedLast(run, k);
      place := |run[k].lease.issued| - 1;
    }
  }

  lemma CurrentIsIssuedLast(run: seq<Plane>, k: nat)
    requires IsPlaneRun(run) && k < |run| && run[k].lease.files.current.Some?
    ensures run[k].lease.issued != []
    ensures run[k].lease.files.current.value == run[k].lease.issued[|run[k].lease.issued| - 1]
  {
    LeaseIsSound(run, k);
  }

  /** The evidence of the current attempt was signed under a lease of the current lineage, also after takeovers. */
  lemma EvidenceLiesOnLineage(run: seq<Plane>, k: nat, lineage: seq<Lease>) returns (i: nat)
    requires IsPlaneRun(run)
    requires k < |run|
    requires run[k].lease.files.current.Some? && run[k].lease.files.current.value.status == Active
    requires IsLineage(run[k].lease.files.history, lineage, run[k].lease.files.current.value)
    requires run[k].lease.files.current.value.attemptId in run[k].records.evidence
    ensures i < |lineage|
    ensures SignedUnder(run[k].records.evidence[run[k].lease.files.current.value.attemptId], lineage[i])
  {
    var a := run[k].lease.files.current.value.attemptId;
    var place := EvidenceIsSigned(run, k, a);
    EachAttemptIsIssuedOnce(run, k);
    LeaseIsSound(run, k);
    i := PlaceOnLineage(run[k].lease, lineage, place);
  }

  lemma PlaceOnLineage(s: LeaseState, lineage: seq<Lease>, place: nat) returns (i: nat)
    requires Inv(s) && OnceEach(s.issued) && s.files.current.Some? && s.files.current.value.status == Active
    requires IsLineage(s.files.history, lineage, s.files.current.value)
    requires place < |s.issued| && s.issued[place].status == Active
    requires s.issued[place].attemptId == s.files.current.value.attemptId
    ensures i < |lineage| && lineage[i] == s.issued[place]
  {
    assert IssuedOnce(s.issued, s.files.current.value.attemptId);
    ActiveLeasesAreOnLineage(s.issued, place);
    LineageIsIssueOrder(s.files.history, lineage, s.issued, |s.issued| - 1);
    i := place - (|s.issued| - |lineage|);
  }
}
