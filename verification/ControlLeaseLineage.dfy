/**
 The recovery lineage of a control lease: the chain from the initial lease of an attempt to the
 current one, and the audit anchors and event windows defined on it.
 */
module ControlLeaseLineage {
  import opened Wrappers
  import opened ControlRecords

  const MAX_LINEAGE: nat := 128

  datatype Anchor = Anchor(
    recordSha: Digest,
    attemptId: AttemptId,
    epoch: int,
    reservationSha: Option<Digest>,
    tokenSha: Option<Digest>)

  function AnchorOf(r: ControlLeaseRecord): Anchor {
    Anchor(LeaseSha(r), r.attemptId, r.epoch, Some(r.reservationSha), Some(r.tokenSha))
  }

  predicate RecoveryEdge(previous: ControlLeaseRecord, next: ControlLeaseRecord) {
    && previous.status == Active
    && next.status == Active
    && previous.attemptId == next.attemptId
    && previous.reservationSha == next.reservationSha
    && previous.epoch < next.epoch
    && previous.tokenSha != next.tokenSha
    && next.predecessorSha == Some(LeaseSha(previous))
    && previous.issuedAt < next.issuedAt
  }

  predicate EdgeAt(records: seq<ControlLeaseRecord>, i: nat) {
    0 < i < |records| && RecoveryEdge(records[i - 1], records[i])
  }

  /** Everything `verify_active_lineage` checks. */
  predicate ActiveLineage(records: seq<ControlLeaseRecord>) {
    && 0 < |records| <= MAX_LINEAGE
    && (forall i | 0 <= i < |records| :: records[i].status == Active)
    && records[0].predecessorSha.None?
    && (forall i, j | 0 <= i < j < |records| :: LeaseSha(records[i]) != LeaseSha(records[j]))
    && (forall i | 0 < i < |records| :: EdgeAt(records, i))
  }

  predicate CurrentLineage(records: seq<ControlLeaseRecord>, current: ControlLeaseRecord) {
    && ActiveLineage(records)
    && current.status == Active
    && LeaseSha(records[|records| - 1]) == LeaseSha(current)
  }

  predicate AnchorMatches(anchor: Anchor, record: ControlLeaseRecord) {
    && anchor.recordSha == LeaseSha(record)
    && anchor.attemptId == record.attemptId
    && anchor.epoch == record.epoch
    && (anchor.reservationSha.Some? ==> anchor.reservationSha.value == record.reservationSha)
    && (anchor.tokenSha.Some? ==> anchor.tokenSha.value == record.tokenSha)
  }

  /** An event at `at` lies after record `i` was issued and before every later record was. */
  predicate InWindow(records: seq<ControlLeaseRecord>, i: nat, at: Time)
    requires i < |records|
  {
    && records[i].issuedAt < at
    && forall j | i < j < |records| :: at < records[j].issuedAt
  }

  /** The record an anchored event is accepted for. */
  predicate AcceptsEvent(anchor: Anchor, at: Time, records: seq<ControlLeaseRecord>,
                               current: ControlLeaseRecord, i: nat)
  {
    && CurrentLineage(records, current)
    && i < |records|
    && AnchorMatches(anchor, records[i])
    && InWindow(records, i, at)
  }

  method VerifyActiveLineage(records: seq<ControlLeaseRecord>) returns (ok: bool)
    ensures ok <==> ActiveLineage(records)
  {
    if |records| == 0 || |records| > MAX_LINEAGE {
      return false;
    }
    for i := 0 to |records|
      invariant forall k | 0 <= k < i :: records[k].status == Active
    {
      if records[i].status != Active {
        return false;
      }
    }
    if records[0].predecessorSha.Some? {
      return false;
    }
    var digests := {};
    for i := 0 to |records|
      invariant digests == set k | 0 <= k < i :: LeaseSha(records[k])
      invariant forall j, k | 0 <= j < k < i :: LeaseSha(records[j]) != LeaseSha(records[k])
    {
      if LeaseSha(records[i]) in digests {
        return false;
      }
      digests := digests + {LeaseSha(records[i])};
    }
    for i := 1 to |records|
      invariant forall k | 0 < k < i :: EdgeAt(records, k)
    {
      if !EdgeAt(records, i) {
        return false;
      }
    }
    return true;
  }

  method VerifyAnchorAncestor(anchor: Anchor, records: seq<ControlLeaseRecord>, current: ControlLeaseRecord)
    returns (found: Option<nat>)
    ensures found.Some? ==> found.value < |records| && CurrentLineage(records, current)
                            && AnchorMatches(anchor, records[found.value])
    ensures found.None? ==> !CurrentLineage(records, current)
                            || forall i | 0 <= i < |records| :: !AnchorMatches(anchor, records[i])
  {
    var ok := VerifyActiveLineage(records);
    if !ok || current.status != Active || LeaseSha(records[|records| - 1]) != LeaseSha(current) {
      return None;
    }
    for i := 0 to |records|
      invariant forall k | 0 <= k < i :: !AnchorMatches(anchor, records[k])
    {
      if AnchorMatches(anchor, records[i]) {
        return Some(i);
      }
    }
    return None;
  }

  /** An event is accepted exactly when some record of the lineage carries the anchor and its window. */
  method VerifyAnchorEventWindow(anchor: Anchor, at: Time, records: seq<ControlLeaseRecord>,
                                 current: ControlLeaseRecord)
    returns (found: Option<nat>)
    ensures found.Some? ==> AcceptsEvent(anchor, at, records, current, found.value)
    ensures found.None? ==> forall i: nat :: !AcceptsEvent(anchor, at, records, current, i)
  {
    var ancestor := VerifyAnchorAncestor(anchor, records, current);
    if ancestor.None? {
      return None;
    }
    var i := ancestor.value;
    if at <= records[i].issuedAt {
      return None;
    }
    for j := i + 1 to |records|
      invariant forall k | i < k < j :: at < records[k].issuedAt
    {
      if records[j].issuedAt <= at {
        return None;
      }
    }
    return Some(i);
  }

  predicate RetirementTransition(active: ControlLeaseRecord, retired: ControlLeaseRecord) {
    && active.status == Active
    && retired.status == Retired
    && retired.retiredFromSha == Some(LeaseSha(active))
  }

  /** Epochs and issue times ascend between every pair of records, not only between neighbours. */
  lemma {:induction false} LineageAscends(records: seq<ControlLeaseRecord>, i: nat, j: nat)
    requires ActiveLineage(records)
    requires i < j < |records|
    ensures records[i].epoch < records[j].epoch
    ensures records[i].issuedAt < records[j].issuedAt
    ensures records[i].attemptId == records[j].attemptId
    ensures records[i].reservationSha == records[j].reservationSha
    ensures j == i + 1 ==>
              records[j].predecessorSha == Some(LeaseSha(records[i])) && records[i].tokenSha != records[j].tokenSha
  {
    assert EdgeAt(records, j);
    if i < j - 1 {
      LineageAscends(records, i, j - 1);
    }
  }

  /** Comparing an event with every successor is the same as comparing it with the next one only. */
  lemma NextSuccessorSuffices(records: seq<ControlLeaseRecord>, i: nat, at: Time)
    requires ActiveLineage(records)
    requires i < |records|
    ensures InWindow(records, i, at) <==>
            records[i].issuedAt < at && (i + 1 < |records| ==> at < records[i + 1].issuedAt)
  {
    forall j | i + 1 < j < |records|
      ensures records[i + 1].issuedAt < records[j].issuedAt
    {
      LineageAscends(records, i + 1, j);
    }
  }

  /** Consecutive recovery edges from a record without predecessor; an active lineage of any length. */
  ghost predicate EdgeChain(records: seq<ControlLeaseRecord>) {
    && 0 < |records|
    && records[0].predecessorSha.None?
    && forall i | 0 < i < |records| :: EdgeAt(records, i)
  }

  lemma {:induction false} SuffixesAgree(a: seq<ControlLeaseRecord>, b: seq<ControlLeaseRecord>, n: nat)
    requires EdgeChain(a) && EdgeChain(b)
    requires a[|a| - 1] == b[|b| - 1]
    requires n <= |a| && n <= |b|
    ensures a[|a| - n..] == b[|b| - n..]
  {
    if n > 1 {
      SuffixesAgree(a, b, n - 1);
      assert EdgeAt(a, |a| - n + 1) && EdgeAt(b, |b| - n + 1);
      assert a[|a| - n + 1] == a[|a| - (n - 1)..][0] == b[|b| - n + 1];
    }
  }

  /** The predecessor digests fix a chain record by record: the last record determines all of it. */
  lemma {:induction false} LastRecordFixesChain(a: seq<ControlLeaseRecord>, b: seq<ControlLeaseRecord>)
    requires EdgeChain(a) && EdgeChain(b)
    requires a[|a| - 1] == b[|b| - 1]
    ensures a == b
  {
    var n := if |a| <= |b| then |a| else |b|;
    assert |a| > n ==> EdgeAt(a, |a| - n);
    assert |b| > n ==> EdgeAt(b, |b| - n);
    SuffixesAgree(a, b, n);
    assert a[|a| - n] == a[|a| - n..][0] == b[|b| - n];
  }

  /** A current lease has at most one verified lineage. */
  lemma LineageIsUnique(a: seq<ControlLeaseRecord>, b: seq<ControlLeaseRecord>, current: ControlLeaseRecord)
    requires CurrentLineage(a, current)
    requires CurrentLineage(b, current)
    ensures a == b
  {
    LastRecordFixesChain(a, b);
  }

  /** An event time is accepted for at most one lease under one current lease, whatever anchors are used. */
  lemma EventWindowsAreDisjoint(at: Time, current: ControlLeaseRecord,
                                a: Anchor, first: seq<ControlLeaseRecord>, i: nat,
                                b: Anchor, second: seq<ControlLeaseRecord>, j: nat)
    requires AcceptsEvent(a, at, first, current, i)
    requires AcceptsEvent(b, at, second, current, j)
    ensures i == j && first[i] == second[j] && a.recordSha == b.recordSha
  {
    LineageIsUnique(first, second, current);
  }

  /** The windows leave no gap but the issue instants themselves. */
  lemma {:induction false} EveryLaterInstantHasAWindow(records: seq<ControlLeaseRecord>, at: Time) returns (i: nat)
    requires ActiveLineage(records)
    requires records[0].issuedAt < at
    requires forall k | 0 <= k < |records| :: records[k].issuedAt != at
    ensures i < |records| && InWindow(records, i, at)
  {
    i := |records| - 1;
    while records[i].issuedAt > at
      invariant 0 <= i < |records|
      invariant forall j | i < j < |records| :: at < records[j].issuedAt
      decreases i
    {
      i := i - 1;
    }
  }

  /** The explicit duplicate check can never be the one that fails: the edges already exclude duplicates. */
  lemma EdgesExcludeDuplicates(records: seq<ControlLeaseRecord>)
    requires forall i | 0 < i < |records| :: EdgeAt(records, i)
    ensures forall i, j | 0 <= i < j < |records| :: LeaseSha(records[i]) != LeaseSha(records[j])
  {
    forall i, j | 0 <= i < j < |records|
      ensures records[i].epoch < records[j].epoch
    {
      EdgesAscend(records, i, j);
    }
  }

  lemma {:induction false} EdgesAscend(records: seq<ControlLeaseRecord>, i: nat, j: nat)
    requires forall k | 0 < k < |records| :: EdgeAt(records, k)
    requires i < j < |records|
    ensures records[i].epoch < records[j].epoch
  {
    assert EdgeAt(records, j);
    if i < j - 1 {
      EdgesAscend(records, i, j - 1);
    }
  }
}
