/**
 The write-ahead protocol of the control lease as a transition system. One step is one managed-file
 operation, so a run that stops anywhere is a crash, and a run that goes on after a stop is a restart.
 */
module LeaseProtocol {
  import opened Wrappers
  import opened ControlRecords
  import opened ControlLeaseLineage

  type Lease = ControlLeaseRecord

  datatype TransitionKind = Initial | Takeover | Retire

  /** The recoverable commit decision: the record to replace and the one record to replace it with. */
  datatype Intent = Intent(kind: TransitionKind, expected: Option<Lease>, next: Lease)

  datatype HistoryKey = HistoryKey(attemptId: AttemptId, sha: Digest)

  type History = map<HistoryKey, Lease>

  datatype LeaseFiles = LeaseFiles(current: Option<Lease>, pending: Option<Intent>, history: History)

  /** The files, and the records that have been current so far, in order. */
  datatype LeaseState = LeaseState(files: LeaseFiles, issued: seq<Lease>)

  const Start := LeaseState(LeaseFiles(None, None, map[]), [])

  // --- intents ------------------------------------------------------------------------------

  predicate InitialShape(expected: Option<Lease>, next: Lease) {
    && next.status == Active
    && next.epoch == 1
    && next.predecessorSha.None?
    && (expected.Some? ==> expected.value.status == Retired && expected.value.attemptId != next.attemptId)
  }

  predicate TakeoverShape(expected: Option<Lease>, next: Lease) {
    && expected.Some?
    && expected.value.status == Active
    && next.status == Active
    && next.attemptId == expected.value.attemptId
    && next.reservationSha == expected.value.reservationSha
    && next.epoch == expected.value.epoch + 1
    && next.predecessorSha == Some(LeaseSha(expected.value))
    && next.tokenSha != expected.value.tokenSha
    && expected.value.issuedAt < next.issuedAt
  }

  predicate RetireShape(expected: Option<Lease>, next: Lease) {
    && expected.Some?
    && expected.value.status == Active
    && next.status == Retired
    && next.attemptId == expected.value.attemptId
    && next.reservationSha == expected.value.reservationSha
    && next.epoch == expected.value.epoch
    && next.tokenSha == expected.value.tokenSha
    && next.owner == expected.value.owner
    && next.issuedAt == expected.value.issuedAt
    && next.predecessorSha == expected.value.predecessorSha
    && next.retiredFromSha == Some(LeaseSha(expected.value))
  }

  predicate ValidIntent(i: Intent) {
    && (i.expected.Some? ==> ValidRecord(i.expected.value))
    && ValidRecord(i.next)
    && match i.kind
       case Initial => InitialShape(i.expected, i.next)
       case Takeover => TakeoverShape(i.expected, i.next)
       case Retire => RetireShape(i.expected, i.next)
  }

  /** Some kind of transition leads from `expected` to `next`. */
  predicate Successor(expected: Option<Lease>, next: Lease) {
    InitialShape(expected, next) || TakeoverShape(expected, next) || RetireShape(expected, next)
  }

  // --- history ------------------------------------------------------------------------------

  function KeyOf(r: Lease): HistoryKey {
    HistoryKey(r.attemptId, LeaseSha(r))
  }

  /** A history read checks the stored record against the attempt and digest it was asked for. */
  function LoadHistory(h: History, attemptId: AttemptId, sha: Digest): Option<Lease> {
    var key := HistoryKey(attemptId, sha);
    if key in h && LeaseSha(h[key]) == sha && h[key].attemptId == attemptId then Some(h[key]) else None
  }

  predicate InHistory(h: History, r: Lease) {
    LoadHistory(h, r.attemptId, LeaseSha(r)) == Some(r)
  }

  /** A verified lineage of `current` that can be read back from history, record by record. */
  ghost predicate IsLineage(h: History, records: seq<Lease>, current: Lease) {
    && ActiveLineage(records)
    && records[|records| - 1] == current
    && forall i | 0 <= i < |records| :: InHistory(h, records[i])
  }

  ghost predicate HasLineage(h: History, current: Lease) {
    exists records :: IsLineage(h, records, current)
  }

  ghost predicate VerifiedTombstone(h: History, r: Lease) {
    && r.status == Retired
    && InHistory(h, r)
    && r.retiredFromSha.Some?
    && var active := LoadHistory(h, r.attemptId, r.retiredFromSha.value);
       && active.Some?
       && HasLineage(h, active.value)
       && RetirementTransition(active.value, r)
  }

  // --- steps --------------------------------------------------------------------------------

  /** What the store has established about an intent when it decides to make it durable. */
  ghost predicate Preparable(f: LeaseFiles, i: Intent) {
    && ValidIntent(i)
    && i.expected == f.current
    && match i.kind
       case Initial => i.expected.Some? ==> VerifiedTombstone(f.history, i.expected.value)
       case Takeover => HasLineage(f.history, i.expected.value)
       case Retire => HasLineage(f.history, i.expected.value)
  }

  ghost predicate PrepareStep(s: LeaseState, t: LeaseState) {
    && s.files.pending.None?
    && t.files.pending.Some?
    && Preparable(s.files, t.files.pending.value)
    && t == s.(files := s.files.(pending := t.files.pending))
  }

  ghost predicate FreezeStep(s: LeaseState, t: LeaseState) {
    && s.files.pending.Some?
    && var next := s.files.pending.value.next;
       && KeyOf(next) !in s.files.history
       && t == s.(files := s.files.(history := s.files.history[KeyOf(next) := next]))
  }

  ghost predicate PublishStep(s: LeaseState, t: LeaseState) {
    && s.files.pending.Some?
    && var i := s.files.pending.value;
       && s.files.current == i.expected
       && InHistory(s.files.history, i.next)
       && t == LeaseState(s.files.(current := Some(i.next)), s.issued + [i.next])
  }

  ghost predicate ClearStep(s: LeaseState, t: LeaseState) {
    && s.files.pending.Some?
    && s.files.current == Some(s.files.pending.value.next)
    && t == s.(files := s.files.(pending := None))
  }

  ghost predicate Step(s: LeaseState, t: LeaseState) {
    PrepareStep(s, t) || FreezeStep(s, t) || PublishStep(s, t) || ClearStep(s, t)
  }

  /** Any number of crashes and restarts is invisible here: they only decide which step comes next. */
  ghost predicate IsRun(run: seq<LeaseState>) {
    && 0 < |run|
    && run[0] == Start
    && forall k | 0 < k < |run| :: StepAt(run, k)
  }

  ghost predicate StepAt(run: seq<LeaseState>, k: nat) {
    0 < k < |run| && Step(run[k - 1], run[k])
  }

  // --- the invariant ------------------------------------------------------------------------

  function Before(issued: seq<Lease>, k: nat): Option<Lease>
    requires k <= |issued|
  {
    if k == 0 then None else Some(issued[k - 1])
  }

  /** Every issued record follows the one before it by one of the three transitions. */
  ghost predicate Linked(issued: seq<Lease>) {
    forall k | 0 <= k < |issued| :: LinkedAt(issued, k)
  }

  predicate LinkedAt(issued: seq<Lease>, k: nat) {
    k < |issued| && Successor(Before(issued, k), issued[k])
  }

  /** A pending decision sits either before or after its publication, and nowhere else. */
  ghost predicate PendingPlaced(s: LeaseState) {
    s.files.pending.Some? ==>
      var i := s.files.pending.value;
      && ValidIntent(i)
      && (i.kind != Initial ==> i.expected.value.epoch <= MAX_LINEAGE)
      && (|| s.files.current == i.expected
          || (&& s.files.current == Some(i.next)
              && |s.issued| > 0
              && i.expected == Before(s.issued, |s.issued| - 1)))
  }

  ghost predicate Inv(s: LeaseState) {
    && Linked(s.issued)
    && s.files.current == Before(s.issued, |s.issued|)
    && (forall r | r in s.issued :: ValidRecord(r) && InHistory(s.files.history, r))
    && (forall r | r in s.issued :: r.epoch <= if r.status == Retired then MAX_LINEAGE else MAX_LINEAGE + 1)
    && (forall key | key in s.files.history :: KeyOf(s.files.history[key]) == key)
    && (forall key | key in s.files.history ::
          || s.files.history[key] in s.issued
          || (s.files.pending.Some? && s.files.history[key] == s.files.pending.value.next))
    && PendingPlaced(s)
  }

  lemma {:induction false} StepKeepsInv(s: LeaseState, t: LeaseState)
    requires Inv(s)
    requires Step(s, t)
    ensures Inv(t)
  {
    if PrepareStep(s, t) {
      PrepareKeepsInv(s, t);
    } else if FreezeStep(s, t) {
      FreezeKeepsInv(s, t);
    } else if PublishStep(s, t) {
      PublishKeepsInv(s, t);
    }
  }

  lemma PrepareKeepsInv(s: LeaseState, t: LeaseState)
    requires Inv(s)
    requires PrepareStep(s, t)
    ensures Inv(t)
  {
    var i := t.files.pending.value;
    if i.kind != Initial {
      var records :| IsLineage(s.files.history, records, i.expected.value);
      var n := |s.issued|;
      LineageIsIssueOrder(s.files.history, records, s.issued, n - 1);
    }
  }

  lemma FreezeKeepsInv(s: LeaseState, t: LeaseState)
    requires Inv(s)
    requires FreezeStep(s, t)
    ensures Inv(t)
  {
    forall r | r in s.issued
      ensures InHistory(t.files.history, r)
    {
      assert InHistory(s.files.history, r);
    }
  }

  lemma LinkedAppend(issued: seq<Lease>, next: Lease)
    requires Linked(issued)
    requires Successor(Before(issued, |issued|), next)
    ensures Linked(issued + [next])
  {
    var longer := issued + [next];
    forall k | 0 <= k < |longer|
      ensures LinkedAt(longer, k)
    {
      assert Before(longer, k) == Before(issued, k);
      assert k < |issued| ==> LinkedAt(issued, k);
    }
  }

  lemma PublishKeepsInv(s: LeaseState, t: LeaseState)
    requires Inv(s)
    requires PublishStep(s, t)
    ensures Inv(t)
  {
    var i := s.files.pending.value;
    assert s.files.current != Some(i.next) && s.files.current == i.expected;
    LinkedAppend(s.issued, i.next);
    assert Before(t.issued, |t.issued| - 1) == Before(s.issued, |s.issued|);
  }

  lemma {:induction false} RunKeepsInv(run: seq<LeaseState>, k: nat)
    requires IsRun(run)
    requires k < |run|
    ensures Inv(run[k])
  {
    if k > 0 {
      RunKeepsInv(run, k - 1);
      assert StepAt(run, k);
      StepKeepsInv(run[k - 1], run[k]);
    }
  }

  // --- lineage is issue order ---------------------------------------------------------------

  /** Records `a` to `k` are one attempt's leases in issue order, numbered from 1. */
  ghost predicate Chain(issued: seq<Lease>, a: int, k: int) {
    && 0 <= a <= k < |issued|
    && issued[a].predecessorSha.None?
    && (forall m | a <= m <= k :: issued[m].status == Active && issued[m].epoch == m - a + 1)
    && (forall m | a < m <= k :: EdgeAt(issued, m))
  }

  /** The active record issued at `k` ends a chain that starts `epoch - 1` places before it. */
  lemma {:induction false} IssueOrderBackwards(issued: seq<Lease>, k: nat)
    requires Linked(issued)
    requires k < |issued|
    requires issued[k].status == Active
    ensures Chain(issued, k + 1 - issued[k].epoch, k)
  {
    assert LinkedAt(issued, k);
    if TakeoverShape(Before(issued, k), issued[k]) {
      IssueOrderBackwards(issued, k - 1);
    }
  }

  /** A lineage read from history is exactly the chain in issue order, so its length is the epoch. */
  lemma {:induction false} LineageIsIssueOrder(h: History, records: seq<Lease>, issued: seq<Lease>, k: nat)
    requires Linked(issued)
    requires k < |issued|
    requires IsLineage(h, records, issued[k])
    ensures |records| == issued[k].epoch <= k + 1
    ensures records == issued[k + 1 - |records|..k + 1]
  {
    IssueOrderBackwards(issued, k);
    var chain := issued[k + 1 - issued[k].epoch..k + 1];
    forall i | 0 < i < |chain|
      ensures EdgeAt(chain, i)
    {
      assert EdgeAt(issued, k + 1 - issued[k].epoch + i);
    }
    LastRecordFixesChain(records, chain);
  }

  /**
   In a reachable state an issued active record can be read back as a lineage exactly when its epoch is
   at most 128, and that lineage is the run of issues that ends with it.
   */
  lemma LineageIffWithinLimit(s: LeaseState, k: nat)
    requires Inv(s)
    requires k < |s.issued| && s.issued[k].status == Active
    ensures 1 <= s.issued[k].epoch <= k + 1
    ensures HasLineage(s.files.history, s.issued[k]) <==> s.issued[k].epoch <= MAX_LINEAGE
    ensures s.issued[k].epoch <= MAX_LINEAGE ==>
              IsLineage(s.files.history, s.issued[k + 1 - s.issued[k].epoch..k + 1], s.issued[k])
  {
    IssueOrderBackwards(s.issued, k);
    var chain := s.issued[k + 1 - s.issued[k].epoch..k + 1];
    forall i | 0 < i < |chain|
      ensures EdgeAt(chain, i)
    {
      assert EdgeAt(s.issued, k + 1 - s.issued[k].epoch + i);
    }
    if s.issued[k].epoch <= MAX_LINEAGE {
      EdgesExcludeDuplicates(chain);
      assert IsLineage(s.files.history, chain, s.issued[k]);
    } else if records :| IsLineage(s.files.history, records, s.issued[k]) {
      LineageIsIssueOrder(s.files.history, records, s.issued, k);
    }
  }

  /** An issued tombstone always verifies: its predecessor and that record's lineage are in history. */
  lemma IssuedTombstoneVerifies(s: LeaseState, k: nat)
    requires Inv(s)
    requires k < |s.issued| && s.issued[k].status == Retired
    ensures VerifiedTombstone(s.files.history, s.issued[k])
  {
    assert LinkedAt(s.issued, k);
    LineageIffWithinLimit(s, k - 1);
  }
}
