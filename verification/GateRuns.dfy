/** A call to the lease store, seen as steps of the control plane: what it issues tells what it has decided. */
module GateRuns {
  import opened Wrappers
  import opened ControlRecords
  import opened LeaseProtocol
  import opened LeaseSafety
  import opened TransactionJournals
  import opened ControlLeaseStores
  import opened TransactionRecords
  import opened ControlPlane

  /** Settling a settled state changes nothing. */
  lemma SettledTwice(s: LeaseState)
    ensures Settled(Settled(s)) == Settled(s)
    ensures s.files.pending.None? ==> Settled(s) == s
  {
  }

  lemma IssuedIsSettled(s: LeaseState, next: Lease)
    ensures Settled(IssueAtomically(s, next)) == IssueAtomically(s, next)
  {
  }

  /** The settled state changes by decisions only, and each decision adds one record to it. */
  lemma {:induction false} SettledGrows(run: seq<LeaseState>, i: nat, j: nat)
    requires IsRun(run) && i <= j < |run|
    ensures Settled(run[i]).issued <= Settled(run[j]).issued
    ensures |Settled(run[i]).issued| == |Settled(run[j]).issued| ==> Settled(run[i]) == Settled(run[j])
  {
    if i < j {
      SettledGrows(run, i, j - 1);
      RunKeepsInv(run, j - 1);
      assert StepAt(run, j);
      StepsRefineAtomicIssue(run[j - 1], run[j]);
    }
  }

  /** A decision in step `k` is made in the settled state, and adds its record there. */
  lemma DecisionAddsRecord(run: seq<LeaseState>, k: nat)
    requires IsRun(run) && 0 < k < |run| && PrepareStep(run[k - 1], run[k])
    ensures Settled(run[k - 1]) == run[k - 1]
    ensures Settled(run[k]) == IssueAtomically(run[k - 1], run[k].files.pending.value.next)
  {
    RunKeepsInv(run, k - 1);
    assert StepAt(run, k);
    SettledTwice(run[k - 1]);
    StepsRefineAtomicIssue(run[k - 1], run[k]);
  }

  /** Where nothing was issued in effect, nothing was decided. */
  lemma NothingDecided(run: seq<LeaseState>, i: nat, j: nat, k: nat)
    requires IsRun(run) && i < k <= j < |run|
    requires Settled(run[j]) == Settled(run[i])
    ensures !PrepareStep(run[k - 1], run[k])
  {
    if PrepareStep(run[k - 1], run[k]) {
      SettledGrows(run, i, k - 1);
      DecisionAddsRecord(run, k);
      SettledGrows(run, k, j);
    }
  }

  /** Where one record was issued in effect, there was one decision, for this record and in the settled state. */
  lemma OneDecided(run: seq<LeaseState>, i: nat, j: nat, k: nat, next: Lease)
    requires IsRun(run) && i < k <= j < |run|
    requires Settled(run[j]) == IssueAtomically(Settled(run[i]), next)
    requires PrepareStep(run[k - 1], run[k])
    ensures run[k - 1] == Settled(run[i]) && run[k].files.pending.value.next == next
  {
    SettledGrows(run, i, k - 1);
    DecisionAddsRecord(run, k);
    SettledGrows(run, k, j);
    var before, after := Settled(run[i]).issued, Settled(run[k]).issued;
    assert |after| == |before| + 1 && after <= Settled(run[j]).issued;
    assert after[|before|] == Settled(run[j]).issued[|before|];
  }

  /** Every decision of the steps that were added is one that the bootstrap records admit. */
  ghost predicate DecidedUnder(before: seq<LeaseState>, after: seq<LeaseState>, boot: Bootstrap) {
    && before <= after
    && forall k | |before| <= k < |after| :: AdmittedAt(after, k, boot)
  }

  ghost predicate AdmittedAt(run: seq<LeaseState>, k: nat, boot: Bootstrap) {
    0 < k < |run| && PrepareStep(run[k - 1], run[k]) ==>
      Admits(run[k - 1].files.history, boot, run[k].files.pending.value)
  }

  /** How a call ends that may have issued `next`, which is allowed only if `may`. */
  ghost predicate IssuesAtMost(before: LeaseState, after: LeaseState, may: bool, next: Lease) {
    || Settled(after) == Settled(before)
    || (may && Settled(after) == IssueAtomically(Settled(before), next))
  }

  lemma ConclusionIssuesAtMost<T>(reply: Reply<T>, before: LeaseState, after: LeaseState, boot: Bootstrap, may: bool,
                                  next: Lease)
    requires Concludes(reply, before, after, boot, may, next)
    ensures IssuesAtMost(before, after, may, next)
  {
    SettledTwice(before);
    IssuedIsSettled(Settled(before), next);
  }

  /** The steps from `before` to `after` as steps of the control plane. */
  lemma CallContinuesRun(run: seq<Plane>, before: seq<LeaseState>, after: seq<LeaseState>) returns (longer: seq<Plane>)
    requires IsPlaneRun(run) && before != [] && before[|before| - 1] == Now(run).lease
    requires IsRun(after) && DecidedUnder(before, after, BootOf(Now(run).records))
    ensures IsPlaneRun(longer) && run <= longer
    ensures Now(longer) == Plane(after[|after| - 1], Now(run).records)
    decreases |after| - |before|
  {
    longer := run;
    var n := |before|;
    if n < |after| {
      assert StepAt(after, n) && AdmittedAt(after, n, BootOf(Now(run).records));
      assert after[n - 1] == before[n - 1];
      var q := Now(run).(lease := after[n]);
      assert LeaseMoves(Now(run), q);
      PlaneStepExtends(run, q);
      longer := CallContinuesRun(run + [q], after[..n + 1], after);
    }
  }

  /** An allowed move of the records as a step of the control plane. */
  lemma MoveContinuesRun(run: seq<Plane>, m: Move) returns (longer: seq<Plane>)
    requires IsPlaneRun(run) && Allowed(Now(run), m)
    ensures IsPlaneRun(longer) && run <= longer
    ensures Now(longer) == Now(run).(records := AfterMove(Now(run).records, m))
  {
    var q := Now(run).(records := AfterMove(Now(run).records, m));
    assert Moves(Now(run), m, q);
    PlaneStepExtends(run, q);
    longer := run + [q];
  }

  // --- what the operations decide -----------------------------------------------------------

  lemma NothingIsAdmitted(before: seq<LeaseState>, after: seq<LeaseState>, boot: Bootstrap)
    requires IsRun(after) && before != [] && before <= after
    requires Settled(after[|after| - 1]) == Settled(before[|before| - 1])
    ensures DecidedUnder(before, after, boot)
  {
    forall k | |before| <= k < |after|
      ensures AdmittedAt(after, k, boot)
    {
      NothingDecided(after, |before| - 1, |after| - 1, k);
    }
  }

  ghost predicate AdmitsAll(s: LeaseState, boot: Bootstrap, next: Lease) {
    forall i: Intent | i.next == next && Preparable(s.files, i) :: Admits(s.files.history, boot, i)
  }

  lemma OneIsAdmitted(before: seq<LeaseState>, after: seq<LeaseState>, boot: Bootstrap, may: bool, next: Lease)
    requires IsRun(after) && before != [] && before <= after
    requires IssuesAtMost(before[|before| - 1], after[|after| - 1], may, next)
    requires may ==> AdmitsAll(Settled(before[|before| - 1]), boot, next)
    ensures DecidedUnder(before, after, boot)
  {
    if Settled(after[|after| - 1]) == Settled(before[|before| - 1]) {
      NothingIsAdmitted(before, after, boot);
    } else {
      forall k | |before| <= k < |after|
        ensures AdmittedAt(after, k, boot)
      {
        if PrepareStep(after[k - 1], after[k]) {
          OneDecided(after, |before| - 1, |after| - 1, k, next);
        }
      }
    }
  }

  lemma InitialIsAdmitted(s: LeaseState, boot: Bootstrap, owner: string, token: nat, issuedAt: Time)
    requires MayAcquire(s, boot, token)
    ensures AdmitsAll(s, boot, InitialLease(ContextOf(boot), token, owner, issuedAt))
  {
  }

  lemma TakeoverIsAdmitted(s: LeaseState, boot: Bootstrap, current: Lease, owner: string, token: nat, issuedAt: Time)
    requires MayTakeOver(s, boot, current, token, issuedAt)
    ensures AdmitsAll(s, boot, TakeoverLease(current, token, owner, issuedAt))
  {
  }

  lemma RetirementIsAdmitted(s: LeaseState, boot: Bootstrap, proof: ControlLeaseProof, completed: TerminalInputs,
                             retiredAt: Time)
    requires MayRetire(s, boot, proof, completed, retiredAt)
    ensures AdmitsAll(s, boot, NextTombstone(s, completed, retiredAt))
  {
  }
}
