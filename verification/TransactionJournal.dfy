/** The append-only transaction journal: its history rules, its successors and its completion. */
module TransactionJournals {
  import opened Wrappers
  import opened ControlRecords
  import opened ControlLeaseLineage

  const MAX_ACTIONS: nat := 4096
  const MAX_SEQUENCE: int := 0x7fff_ffff
  const SERVE_PERMIT_KIND: string := "serve-permit"
  const CURRENT_SERVE_PERMIT_ID: string := "current-serving-permit"

  datatype ActionKey = ActionKey(attemptId: AttemptId, stepSequence: int, resourceKind: string, resourceId: string)

  function KeyOfAction(a: TransactionAction): ActionKey {
    ActionKey(a.attemptId, a.stepSequence, a.resourceKind, a.resourceId)
  }

  /** The operation an action describes, without its progress and its audit stamp. */
  function Identity(a: TransactionAction): TransactionAction {
    a.(state := Prepared, leaseEpoch := 0, leaseTokenSha := ForeignSha(0), leaseRecordSha := ForeignSha(0),
       recordedAt := 0)
  }

  function NextState(s: ActionState): Option<ActionState> {
    match s
    case Prepared => Some(Applied)
    case Applied => Some(Committed)
    case Committed => None
  }

  predicate ControlSuccessor(previous: TransactionAction, next: TransactionAction) {
    && previous.leaseEpoch <= next.leaseEpoch
    && (previous.leaseEpoch == next.leaseEpoch ==>
          previous.leaseTokenSha == next.leaseTokenSha && previous.leaseRecordSha == next.leaseRecordSha)
    && (previous.leaseEpoch < next.leaseEpoch ==> previous.leaseTokenSha != next.leaseTokenSha)
  }

  predicate NewActionAfter(previous: Option<TransactionAction>, a: TransactionAction) {
    && a.state == Prepared
    && match previous
       case None =>
         && a.intent == RevokeCurrentServePermit
         && a.resourceKind == SERVE_PERMIT_KIND
         && a.resourceId == CURRENT_SERVE_PERMIT_ID
         && a.stepSequence == 1
       case Some(p) => a.stepSequence == p.stepSequence + 1
  }

  /** The state an action must have at its place: each step is prepared, applied and committed in turn. */
  function StateAt(i: nat): ActionState {
    if i % 3 == 0 then Prepared else if i % 3 == 1 then Applied else Committed
  }

  /** Action `i` belongs to the journal and follows the time and the lease audit of the action before it. */
  predicate Audited(j: TransactionJournal, i: nat) {
    && i < |j.actions|
    && j.actions[i].attemptId == j.attemptId
    && j.actions[i].reservationSha == j.reservationSha
    && (if i == 0 then j.createdAt else j.actions[i - 1].recordedAt) < j.actions[i].recordedAt
    && (i > 0 ==> ControlSuccessor(j.actions[i - 1], j.actions[i]))
  }

  /** Action `i` is step `i / 3 + 1` in state `i % 3`, and the three states of a step describe one operation. */
  predicate InLockstep(actions: seq<TransactionAction>, i: nat) {
    && i < |actions|
    && actions[i].state == StateAt(i)
    && actions[i].stepSequence == i / 3 + 1
    && (i == 0 ==> NewActionAfter(None, actions[0]))
    && (i % 3 != 0 ==> Identity(actions[i]) == Identity(actions[i - 1]))
  }

  ghost predicate LockstepHistory(j: TransactionJournal) {
    forall i | 0 <= i < |j.actions| :: Audited(j, i) && InLockstep(j.actions, i)
  }

  // --- the history check --------------------------------------------------------------------

  /** What one round of the history check accepts, given the newest action of each key so far. */
  predicate AcceptsNext(latest: map<ActionKey, TransactionAction>, lastNew: Option<TransactionAction>,
                        a: TransactionAction)
  {
    var key := KeyOfAction(a);
    if key in latest then
      Identity(latest[key]) == Identity(a) && NextState(latest[key].state) == Some(a.state)
    else
      && (lastNew.Some? ==>
            KeyOfAction(lastNew.value) in latest && latest[KeyOfAction(lastNew.value)].state == Committed)
      && NewActionAfter(lastNew, a)
  }

  /**
   The table of newest actions after `n` actions in lockstep: the running step stands at action `n - 1`,
   and every other key is an earlier, committed step.
   */
  ghost predicate LatestOf(actions: seq<TransactionAction>, n: nat, latest: map<ActionKey, TransactionAction>,
                           lastNew: Option<TransactionAction>)
    requires n <= |actions|
  {
    if n == 0 then
      latest == map[] && lastNew == None
    else
      && lastNew.Some?
      && var running := KeyOfAction(lastNew.value);
         && running == KeyOfAction(actions[n - 1])
         && running in latest
         && latest[running] == actions[n - 1]
         && forall key | key in latest && key != running ::
              latest[key].state == Committed && key.stepSequence < running.stepSequence
  }

  /** One round accepts exactly the lockstep continuation. */
  lemma NextIsLockstep(actions: seq<TransactionAction>, n: nat, latest: map<ActionKey, TransactionAction>,
                       lastNew: Option<TransactionAction>)
    requires n < |actions|
    requires n > 0 ==> InLockstep(actions, n - 1)
    requires LatestOf(actions, n, latest, lastNew)
    ensures AcceptsNext(latest, lastNew, actions[n]) <==> InLockstep(actions, n)
  {
    var a := actions[n];
    if n > 0 && Identity(a) == Identity(actions[n - 1]) {
      SameIdentitySameKey(a, actions[n - 1]);
    }
  }

  lemma SameIdentitySameKey(a: TransactionAction, b: TransactionAction)
    requires Identity(a) == Identity(b)
    ensures KeyOfAction(a) == KeyOfAction(b)
  {
    assert KeyOfAction(Identity(a)) == KeyOfAction(a) && KeyOfAction(Identity(b)) == KeyOfAction(b);
  }

  lemma LatestAdvances(actions: seq<TransactionAction>, n: nat, latest: map<ActionKey, TransactionAction>,
                       lastNew: Option<TransactionAction>)
    requires n < |actions|
    requires n > 0 ==> InLockstep(actions, n - 1)
    requires InLockstep(actions, n)
    requires LatestOf(actions, n, latest, lastNew)
    ensures LatestOf(actions, n + 1, latest[KeyOfAction(actions[n]) := actions[n]],
                     if KeyOfAction(actions[n]) in latest then lastNew else Some(actions[n]))
  {
    if n > 0 && n % 3 != 0 {
      SameIdentitySameKey(actions[n], actions[n - 1]);
    }
  }

  /** What a valid history says at place `i`, field by field. */
  predicate WellFormedAt(j: TransactionJournal, i: nat) {
    && i < |j.actions|
    && var a := j.actions[i];
       && a.attemptId == j.attemptId && a.reservationSha == j.reservationSha && a.stepSequence == i / 3 + 1
       && (match i % 3 case 0 => a.state == Prepared case 1 => a.state == Applied case _ => a.state == Committed)
       && (if i == 0 then
             && j.createdAt < a.recordedAt && a.intent == RevokeCurrentServePermit
             && a.resourceKind == "serve-permit" && a.resourceId == "current-serving-permit"
           else
             Follows(j.actions[i - 1], a, i % 3 != 0))
  }

  /** The action is later than the one before it, under the same lease or a later one with another token. */
  predicate Follows(before: TransactionAction, a: TransactionAction, sameStep: bool) {
    && before.recordedAt < a.recordedAt
    && (if before.leaseEpoch == a.leaseEpoch then
          before.leaseTokenSha == a.leaseTokenSha && before.leaseRecordSha == a.leaseRecordSha
        else
          before.leaseEpoch < a.leaseEpoch && before.leaseTokenSha != a.leaseTokenSha)
    && (sameStep ==>
          && SameKey(before, a) && before.reservationSha == a.reservationSha && before.intent == a.intent
          && before.operationSha == a.operationSha && before.beforeSha == a.beforeSha && before.afterSha == a.afterSha)
  }

  lemma HistoryByFields(j: TransactionJournal)
    ensures LockstepHistory(j) <==> forall i | 0 <= i < |j.actions| :: WellFormedAt(j, i)
  {
    forall i: nat | i < |j.actions|
      ensures Audited(j, i) && InLockstep(j.actions, i) <==> WellFormedAt(j, i)
    {
      if i > 0 {
        SameIdentityByFields(j.actions[i - 1], j.actions[i]);
      }
    }
  }

  lemma SameIdentityByFields(a: TransactionAction, b: TransactionAction)
    ensures Identity(a) == Identity(b) <==>
            && SameKey(a, b) && a.reservationSha == b.reservationSha && a.intent == b.intent
            && a.operationSha == b.operationSha && a.beforeSha == b.beforeSha && a.afterSha == b.afterSha
  {
    var x, y := Identity(a), Identity(b);
    assert x.attemptId == a.attemptId && x.stepSequence == a.stepSequence && x.intent == a.intent;
    assert y.attemptId == b.attemptId && y.stepSequence == b.stepSequence && y.intent == b.intent;
  }

  /** In a valid history one epoch means one lease, however far apart the actions are. */
  lemma {:induction false} OneLeasePerEpoch(j: TransactionJournal, i: nat, k: nat)
    requires LockstepHistory(j)
    requires i <= k < |j.actions|
    ensures j.actions[i].leaseEpoch <= j.actions[k].leaseEpoch
    ensures j.actions[i].leaseEpoch == j.actions[k].leaseEpoch ==>
              j.actions[i].leaseTokenSha == j.actions[k].leaseTokenSha
              && j.actions[i].leaseRecordSha == j.actions[k].leaseRecordSha
  {
    if i < k {
      OneLeasePerEpoch(j, i, k - 1);
      assert Audited(j, k);
    }
  }

  /**
   The history check of a journal, with its table of newest actions. It accepts exactly the histories in
   which action number i is step i / 3 + 1, prepared, applied and committed in turn.
   */
  method RequireJournalHistory(j: TransactionJournal) returns (ok: bool)
    ensures ok <==> LockstepHistory(j)
    ensures ok <==> forall i | 0 <= i < |j.actions| :: WellFormedAt(j, i)
  {
    HistoryByFields(j);
    var latest: map<ActionKey, TransactionAction> := map[];
    var lastNew: Option<TransactionAction> := None;
    for i := 0 to |j.actions|
      invariant forall k | 0 <= k < i :: Audited(j, k) && InLockstep(j.actions, k)
      invariant LatestOf(j.actions, i, latest, lastNew)
    {
      var a := j.actions[i];
      if !Audited(j, i) {
        return false;
      }
      NextIsLockstep(j.actions, i, latest, lastNew);
      if !AcceptsNext(latest, lastNew, a) {
        return false;
      }
      LatestAdvances(j.actions, i, latest, lastNew);
      if KeyOfAction(a) !in latest {
        lastNew := Some(a);
      }
      latest := latest[KeyOfAction(a) := a];
    }
    return true;
  }

  // --- fields, completion and successors ----------------------------------------------------

  predicate ValidAction(a: TransactionAction) {
    1 <= a.stepSequence <= MAX_SEQUENCE && a.beforeSha != a.afterSha && ValidEpoch(a.leaseEpoch)
  }

  /** The time an active journal with these actions was last written. */
  function LastWritten(j: TransactionJournal): Time {
    if j.actions == [] then j.createdAt else j.actions[|j.actions| - 1].recordedAt
  }

  ghost predicate ValidJournalFields(j: TransactionJournal) {
    && |j.actions| <= MAX_ACTIONS
    && (forall i | 0 <= i < |j.actions| :: ValidAction(j.actions[i]))
    && j.genesisSha == GenesisSha(j.attemptId, j.reservationSha, j.createdAt)
    && match j.status
       case JournalActive => j.terminalEvidenceSha.None? && j.completedAt.None? && j.updatedAt == LastWritten(j)
       case JournalCompleted => j.terminalEvidenceSha.Some? && j.completedAt == Some(j.updatedAt)
  }

  /** The newest action of every key is committed. */
  ghost predicate AllCommitted(actions: seq<TransactionAction>) {
    && actions != []
    && forall i | 0 <= i < |actions| && NewestOfKey(actions, i) :: actions[i].state == Committed
  }

  ghost predicate NewestOfKey(actions: seq<TransactionAction>, i: nat)
    requires i < |actions|
  {
    forall k | i < k < |actions| :: !SameKey(actions[k], actions[i])
  }

  predicate SameKey(a: TransactionAction, b: TransactionAction) {
    && a.attemptId == b.attemptId && a.stepSequence == b.stepSequence
    && a.resourceKind == b.resourceKind && a.resourceId == b.resourceId
  }

  ghost predicate ValidJournal(j: TransactionJournal) {
    && ValidJournalFields(j)
    && LockstepHistory(j)
    && (j.status == JournalCompleted ==> AllCommitted(j.actions) && LastWritten(j) < j.updatedAt)
  }

  function Genesis(reservation: Reservation, createdAt: Time): TransactionJournal {
    TransactionJournal(reservation.attemptId, reservation.sha,
                       GenesisSha(reservation.attemptId, reservation.sha, createdAt),
                       JournalActive, [], None, createdAt, createdAt, None)
  }

  /** The active journal that a completed one was derived from. */
  function ActiveView(j: TransactionJournal): TransactionJournal {
    j.(status := JournalActive, terminalEvidenceSha := None, updatedAt := LastWritten(j), completedAt := None)
  }

  /** A completed journal and its independent evidence name each other. */
  ghost predicate Completion(j: TransactionJournal, e: TerminalEvidence) {
    && j.status == JournalCompleted
    && j.attemptId == e.attemptId
    && j.reservationSha == e.reservationSha
    && j.genesisSha == e.genesisSha
    && j.completedAt == Some(e.completedAt)
    && j.terminalEvidenceSha == Some(EvidenceSha(e))
    && e.activeJournalSha == JournalSha(ActiveView(j))
    && AllCommitted(j.actions)
    && LastWritten(j) < e.completedAt
  }

  function CompletionAnchor(e: TerminalEvidence): Anchor {
    Anchor(e.completionLeaseSha, e.attemptId, e.leaseEpoch, Some(e.reservationSha), Some(e.leaseTokenSha))
  }

  /** What the persisted terminal records must satisfy before `current` may be retired at `retiredAt`. */
  ghost predicate TerminalBinding(current: ControlLeaseRecord, j: TransactionJournal, e: TerminalEvidence,
                                  retiredAt: Time, lineage: seq<ControlLeaseRecord>)
  {
    && Completion(j, e)
    && (exists i: nat :: AcceptsEvent(CompletionAnchor(e), e.completedAt, lineage, current, i))
    && e.completedAt < retiredAt
    && j.attemptId == current.attemptId == e.attemptId
    && j.reservationSha == current.reservationSha == e.reservationSha
  }

  /** The evidence carries the digest, the epoch and the token of the lease, and belongs to its attempt. */
  predicate SignedUnder(e: TerminalEvidence, lease: ControlLeaseRecord) {
    && e.completionLeaseSha == LeaseSha(lease) && e.leaseEpoch == lease.epoch && e.leaseTokenSha == lease.tokenSha
    && e.attemptId == lease.attemptId && e.reservationSha == lease.reservationSha
  }

  /** The binding asks for evidence that was signed under a record of the lineage while that was the newest one. */
  lemma BindingNeedsSigningLease(current: ControlLeaseRecord, j: TransactionJournal, e: TerminalEvidence,
                                 retiredAt: Time, lineage: seq<ControlLeaseRecord>)
    ensures TerminalBinding(current, j, e, retiredAt, lineage) <==>
            && Completion(j, e) && e.completedAt < retiredAt && CurrentLineage(lineage, current)
            && exists i: nat :: i < |lineage| && SignedUnder(e, lineage[i]) && InWindow(lineage, i, e.completedAt)
  {
    if CurrentLineage(lineage, current) {
      forall i: nat
        ensures AcceptsEvent(CompletionAnchor(e), e.completedAt, lineage, current, i) <==>
                i < |lineage| && SignedUnder(e, lineage[i]) && InWindow(lineage, i, e.completedAt)
      {
      }
      forall i: nat | i < |lineage|
        ensures lineage[i].attemptId == current.attemptId && lineage[i].reservationSha == current.reservationSha
      {
        if i < |lineage| - 1 {
          LineageAscends(lineage, i, |lineage| - 1);
        }
      }
    }
  }

  method CheckTerminalBinding(current: ControlLeaseRecord, j: TransactionJournal, e: TerminalEvidence,
                              retiredAt: Time, lineage: seq<ControlLeaseRecord>) returns (ok: bool)
    ensures ok <==> TerminalBinding(current, j, e, retiredAt, lineage)
  {
    var complete := VerifyTransactionCompletion(j, e);
    var anchored := VerifyAnchorEventWindow(CompletionAnchor(e), e.completedAt, lineage, current);
    return
      && complete
      && anchored.Some?
      && e.completedAt < retiredAt
      && j.attemptId == current.attemptId == e.attemptId
      && j.reservationSha == current.reservationSha == e.reservationSha;
  }

  method VerifyTransactionCompletion(j: TransactionJournal, e: TerminalEvidence) returns (ok: bool)
    ensures ok <==> Completion(j, e)
  {
    var committed := RequireAllActionsCommitted(j.actions);
    return
      && j.status == JournalCompleted
      && j.attemptId == e.attemptId
      && j.reservationSha == e.reservationSha
      && j.genesisSha == e.genesisSha
      && j.completedAt == Some(e.completedAt)
      && j.terminalEvidenceSha == Some(EvidenceSha(e))
      && e.activeJournalSha == JournalSha(ActiveView(j))
      && committed
      && LastWritten(j) < e.completedAt;
  }

  method NewestByKey(actions: seq<TransactionAction>) returns (latest: map<ActionKey, nat>)
    ensures forall i | 0 <= i < |actions| :: KeyOfAction(actions[i]) in latest
    ensures forall i | 0 <= i < |actions| :: NewestOfKey(actions, i) <==> latest[KeyOfAction(actions[i])] == i
  {
    latest := map[];
    for i := 0 to |actions|
      invariant forall key | key in latest :: latest[key] < i && KeyOfAction(actions[latest[key]]) == key
      invariant forall k | 0 <= k < i :: KeyOfAction(actions[k]) in latest && k <= latest[KeyOfAction(actions[k])]
    {
      latest := latest[KeyOfAction(actions[i]) := i];
    }
  }

  /** Collects the newest action of every key and looks for one that is not committed. */
  method RequireAllActionsCommitted(actions: seq<TransactionAction>) returns (ok: bool)
    ensures ok <==> AllCommitted(actions)
  {
    var latest := NewestByKey(actions);
    if |actions| == 0 {
      return false;
    }
    for i := 0 to |actions|
      invariant forall k | 0 <= k < i && NewestOfKey(actions, k) :: actions[k].state == Committed
    {
      if latest[KeyOfAction(actions[i])] == i && actions[i].state != Committed {
        return false;
      }
    }
    return true;
  }

  /** The only journals a head may be replaced by: more actions, or the completion of exactly this head. */
  predicate JournalSuccessor(current: TransactionJournal, desired: TransactionJournal) {
    || current == desired
    || (&& current.status == JournalActive
        && if desired.status == JournalCompleted then
             ActiveView(desired) == current
           else
             current.actions < desired.actions)
  }

  predicate Stamped(a: TransactionAction, lease: ControlLeaseRecord) {
    a.leaseEpoch == lease.epoch && a.leaseTokenSha == lease.tokenSha && a.leaseRecordSha == LeaseSha(lease)
  }

  /** Every action added by the replacement carries the audit stamp of the current lease. */
  ghost predicate AppendedStamped(current: TransactionJournal, desired: TransactionJournal,
                                  lease: ControlLeaseRecord)
  {
    forall i | |current.actions| <= i < |desired.actions| :: Stamped(desired.actions[i], lease)
  }

  /** A replacement never rewrites an action, and a completed journal is never replaced by another one. */
  lemma SuccessorOnlyAppends(current: TransactionJournal, desired: TransactionJournal)
    requires JournalSuccessor(current, desired)
    ensures current.actions <= desired.actions
    ensures current.status == JournalCompleted ==> desired == current
  {
    if desired.status == JournalCompleted && current != desired {
      assert ActiveView(desired).actions == desired.actions;
    }
  }

  /** A history in lockstep has all steps committed exactly when it ends on a full step. */
  lemma CommittedIffWholeSteps(j: TransactionJournal)
    requires LockstepHistory(j)
    ensures AllCommitted(j.actions) <==> j.actions != [] && |j.actions| % 3 == 0
  {
    var n := |j.actions|;
    if n > 0 {
      assert InLockstep(j.actions, n - 1);
      assert NewestOfKey(j.actions, n - 1);
      if n % 3 == 0 {
        forall i | 0 <= i < n && NewestOfKey(j.actions, i)
          ensures j.actions[i].state == Committed
        {
          NewestIsCommitted(j, i);
        }
      }
    }
  }

  /** If the last step is whole, then so is the step of every action that is the newest of its key. */
  lemma NewestIsCommitted(j: TransactionJournal, i: nat)
    requires LockstepHistory(j) && |j.actions| % 3 == 0
    requires i < |j.actions| && NewestOfKey(j.actions, i)
    ensures j.actions[i].state == Committed
  {
    assert InLockstep(j.actions, i);
    if i % 3 != 2 {
      assert InLockstep(j.actions, i + 1);
      SameIdentitySameKey(j.actions[i + 1], j.actions[i]);
    }
  }

  datatype RecoveryDirective = StartDirective | Reconcile | CommitDirective | Advance | Terminal

  function Directive(j: TransactionJournal): RecoveryDirective {
    if j.status == JournalCompleted then Terminal
    else if j.actions == [] then StartDirective
    else match j.actions[|j.actions| - 1].state
      case Prepared => Reconcile
      case Applied => CommitDirective
      case Committed => Advance
  }

  /** The recovery directive tells how far the running step got. */
  lemma DirectiveIsProgress(j: TransactionJournal)
    requires ValidJournal(j)
    ensures Directive(j) == Terminal <==> j.status == JournalCompleted
    ensures j.status == JournalActive ==>
              && (Directive(j) == StartDirective <==> |j.actions| == 0)
              && (Directive(j) == Reconcile <==> |j.actions| % 3 == 1)
              && (Directive(j) == CommitDirective <==> |j.actions| % 3 == 2)
              && (Directive(j) == Advance <==> |j.actions| > 0 && |j.actions| % 3 == 0)
    ensures AllCommitted(j.actions) <==> Directive(j) == Advance || Directive(j) == Terminal
  {
    CommittedIffWholeSteps(j);
    if j.actions != [] {
      assert InLockstep(j.actions, |j.actions| - 1);
    }
  }

  /** Completing a journal and taking its active view gives the journal back. */
  lemma CompletedFromHead(current: TransactionJournal, completed: TransactionJournal, e: TerminalEvidence)
    requires ValidJournal(current) && current.status == JournalActive
    requires JournalSuccessor(current, completed) && completed.status == JournalCompleted
    requires e.activeJournalSha == JournalSha(current)
    ensures Completion(completed, e) <==>
            && completed == current.(status := JournalCompleted, terminalEvidenceSha := Some(EvidenceSha(e)),
                                     updatedAt := completed.updatedAt, completedAt := Some(e.completedAt))
            && current.attemptId == e.attemptId
            && current.reservationSha == e.reservationSha
            && current.genesisSha == e.genesisSha
            && AllCommitted(current.actions)
            && current.updatedAt < e.completedAt
  {
    assert ActiveView(completed).actions == completed.actions;
  }
}
