/** Runs that exist: what the control plane can be brought to, by construction of the run. */
module ControlPlaneReachability {
  import opened Wrappers
  import opened ControlRecords
  import opened ControlLeaseLineage
  import opened LeaseProtocol
  import opened LeaseSafety
  import opened TransactionJournals
  import opened ControlLeaseStores
  import opened TransactionRecords
  import opened ControlPlane
  import opened ControlPlaneSafety

  ghost predicate Continues(run: seq<Plane>, longer: seq<Plane>) {
    IsPlaneRun(longer) && run <= longer
  }

  ghost predicate IsSettledRun(run: seq<Plane>) {
    IsPlaneRun(run) && Now(run).lease.files.pending.None?
  }

  lemma LeaseStepContinues(run: seq<Plane>, t: LeaseState) returns (longer: seq<Plane>)
    requires IsPlaneRun(run) && Step(Now(run).lease, t)
    requires PrepareStep(Now(run).lease, t) ==>
               Admits(Now(run).lease.files.history, BootOf(Now(run).records), t.files.pending.value)
    ensures Continues(run, longer) && Now(longer) == Now(run).(lease := t)
  {
    var q := Now(run).(lease := t);
    assert LeaseMoves(Now(run), q);
    PlaneStepExtends(run, q);
    longer := run + [q];
  }

  /** A decision that is durable and frozen is published and cleared in two more steps. */
  lemma PublishAndClear(run: seq<Plane>) returns (longer: seq<Plane>)
    requires IsPlaneRun(run) && Now(run).lease.files.pending.Some?
    requires var (f, i) := (Now(run).lease.files, Now(run).lease.files.pending.value);
             f.current == i.expected && InHistory(f.history, i.next)
    ensures Continues(run, longer)
    ensures var (f, next) := (Now(run).lease.files, Now(run).lease.files.pending.value.next);
            Now(longer) == Now(run).(lease := LeaseState(LeaseFiles(Some(next), None, f.history),
                                                         Now(run).lease.issued + [next]))
  {
    var decided := Now(run).lease;
    var next := decided.files.pending.value.next;
    var published := LeaseState(decided.files.(current := Some(next)), decided.issued + [next]);
    var cleared := published.(files := published.files.(pending := None));
    assert PublishStep(decided, published) && ClearStep(published, cleared);
    longer := LeaseStepContinues(run, published);
    longer := LeaseStepContinues(longer, cleared);
  }

  function Decided(s: LeaseState, i: Intent): LeaseState {
    s.(files := s.files.(pending := Some(i)))
  }

  function Frozen(s: LeaseState, i: Intent): LeaseState {
    s.(files := s.files.(pending := Some(i), history := s.files.history[KeyOf(i.next) := i.next]))
  }

  lemma DecideAndFreeze(run: seq<Plane>, i: Intent) returns (longer: seq<Plane>)
    requires IsSettledRun(run) && Preparable(Now(run).lease.files, i)
    requires Admits(Now(run).lease.files.history, BootOf(Now(run).records), i)
    requires KeyOf(i.next) !in Now(run).lease.files.history
    ensures Continues(run, longer) && Now(longer) == Now(run).(lease := Frozen(Now(run).lease, i))
  {
    var s := Now(run).lease;
    assert PrepareStep(s, Decided(s, i));
    longer := LeaseStepContinues(run, Decided(s, i));
    assert FreezeStep(Decided(s, i), Frozen(s, i));
    longer := LeaseStepContinues(longer, Frozen(s, i));
  }

  /** Whatever is admitted and can be decided can be issued, if it was not issued before. */
  lemma IssueRun(run: seq<Plane>, i: Intent) returns (longer: seq<Plane>)
    requires IsSettledRun(run) && Preparable(Now(run).lease.files, i)
    requires Admits(Now(run).lease.files.history, BootOf(Now(run).records), i)
    requires KeyOf(i.next) !in Now(run).lease.files.history
    ensures Continues(run, longer)
    ensures Now(longer) == Now(run).(lease := IssueAtomically(Now(run).lease, i.next))
  {
    longer := DecideAndFreeze(run, i);
    longer := PublishAndClear(longer);
  }

  ghost predicate ActiveAt(p: Plane, n: int) {
    && p.lease.files.pending.None?
    && p.lease.files.current.Some?
    && p.lease.files.current.value.status == Active
    && p.lease.files.current.value.epoch == n
  }

  /** The most modest takeover of an active lease can be decided. */
  lemma TakeoverIsAdmitted(p: Plane, n: int)
    requires PlaneInv(p) && ActiveAt(p, n) && n <= MAX_LINEAGE
    ensures var i := Intent(Takeover, p.lease.files.current, NextLease(p.lease.files.current.value));
            && Preparable(p.lease.files, i)
            && Admits(p.lease.files.history, BootOf(p.records), i)
            && KeyOf(i.next) !in p.lease.files.history
  {
    var s, r := p.lease, p.lease.files.current.value;
    assert r in s.issued && IssueAccounted(p.records, r);
    CurrentHasLineageIff(s);
    ContextLoadsIffActive(p.records);
    HistoryIsIssued(s, NextLease(r));
    OnceMeansDistinct(s.issued);
    SuccessorIsNew(s.issued, NextLease(r));
  }

  /** From every state with an active lease every higher epoch up to 129 can be reached by takeovers. */
  lemma {:induction false} HigherEpochsAreReached(run: seq<Plane>, from: int, n: int) returns (longer: seq<Plane>)
    requires IsPlaneRun(run) && ActiveAt(Now(run), from)
    requires from <= n <= MAX_LINEAGE + 1
    ensures Continues(run, longer) && ActiveAt(Now(longer), n) && Now(longer).records == Now(run).records
    decreases n - from
  {
    longer := run;
    if from < n {
      var current := Now(run).lease.files.current;
      PlaneRunKeepsInv(run, |run| - 1);
      TakeoverIsAdmitted(Now(run), from);
      longer := IssueRun(run, Intent(Takeover, current, NextLease(current.value)));
      longer := HigherEpochsAreReached(longer, from + 1, n);
    }
  }

  lemma MoveContinues(run: seq<Plane>, m: Move) returns (longer: seq<Plane>)
    requires IsPlaneRun(run) && BootstrapAllows(Now(run).records, m)
    ensures Continues(run, longer) && Now(longer) == Now(run).(records := AfterMove(Now(run).records, m))
  {
    var q := Now(run).(records := AfterMove(Now(run).records, m));
    assert Moves(Now(run), m, q);
    PlaneStepExtends(run, q);
    longer := run + [q];
  }

  function EnvelopeOf(reservation: Reservation, createdAt: Time): Envelope {
    Envelope(reservation.attemptId, reservation.sha, Genesis(reservation, createdAt).genesisSha, 0)
  }

  /** The whole bootstrap of a new attempt, while no other is active. */
  lemma BootstrapIsReached(run: seq<Plane>, reservation: Reservation) returns (longer: seq<Plane>)
    requires IsPlaneRun(run) && Now(run).records.active.None?
    requires reservation.attemptId !in Now(run).records.reservations
    ensures Continues(run, longer) && Now(longer).lease == Now(run).lease
    ensures ActiveContext(Now(longer).records) == Some(reservation)
  {
    UnknownHasNoRecords(run, reservation.attemptId);
    longer := MoveContinues(run, Reserve(reservation));
    longer := MoveContinues(longer, WriteGenesis(reservation.attemptId, 0));
    longer := ActivationIsReached(longer, reservation);
  }

  lemma UnknownHasNoRecords(run: seq<Plane>, a: AttemptId)
    requires IsPlaneRun(run) && a !in Now(run).records.reservations
    ensures a !in Now(run).records.journals && a !in Now(run).records.envelopes
  {
    PlaneRunKeepsInv(run, |run| - 1);
    assert AttemptInv(Now(run).records, a);
  }

  lemma ActivationIsReached(run: seq<Plane>, reservation: Reservation) returns (longer: seq<Plane>)
    requires IsPlaneRun(run) && Now(run).records.active.None?
    requires AtGenesis(Now(run).records, reservation.attemptId)
    requires Now(run).records.reservations[reservation.attemptId] == reservation.sha
    requires reservation.attemptId !in Now(run).records.envelopes
    ensures Continues(run, longer) && Now(longer).lease == Now(run).lease
    ensures ActiveContext(Now(longer).records) == Some(reservation)
  {
    var e := EnvelopeOf(reservation, Now(run).records.journals[reservation.attemptId].createdAt);
    longer := MoveContinues(run, Seal(e));
    longer := MoveContinues(longer, Activate(e));
  }

  /** From the start every epoch from 1 to 129 can be reached. */
  lemma EpochIsReached(n: int) returns (run: seq<Plane>)
    requires 1 <= n <= 129
    ensures IsPlaneRun(run) && ActiveAt(Now(run), n)
  {
    var r := FirstLease(0);
    StartIsRun();
    run := BootstrapIsReached([PlaneStart], Reservation(0, r.reservationSha));
    run := IssueRun(run, Intent(Initial, None, r));
    run := HigherEpochsAreReached(run, 1, n);
  }

  lemma StartIsRun()
    ensures IsPlaneRun([PlaneStart])
  {
  }

  /** The dead end exists, and no run that comes to it ever leaves it. */
  lemma DeadEndIsReached() returns (run: seq<Plane>)
    ensures IsPlaneRun(run) && DeadEnd(Now(run))
    ensures forall longer, k | Continues(run, longer) && |run| <= k < |longer| :: StillDead(Now(run), longer[k])
  {
    run := EpochIsReached(129);
    forall longer, k | Continues(run, longer) && |run| <= k < |longer|
      ensures StillDead(Now(run), longer[k])
    {
      DeadEndIsForever(longer, |run| - 1, k);
    }
  }
}
