/** The table of index builds: fenced publication, replay of an attempt, frozen dependencies, freshness. */
module IndexManifests {
  import opened Wrappers

  datatype Kind = CodeVec | Codegraph | OtherKind(id: nat)

  datatype Status = Ok | BuildFailed

  datatype Evidence = CompletionReceipt | DependencyBlock | OtherEvidence(id: nat)

  /** The codegraph as a code_vec build found it when it was published; no status means that there was none. */
  datatype Dependency = Dependency(status: Option<Status>, gitCommit: Option<nat>, targetCommit: Option<nat>)

  datatype BuildRecord = BuildRecord(
    project: nat,
    kind: Kind,
    attempt: Option<nat>,
    gitCommit: Option<nat>,
    targetCommit: Option<nat>,
    depends: Option<Dependency>,
    resultDigest: Option<nat>,
    processRc: Option<int>,
    validatedAt: Option<int>,
    evidence: Option<Evidence>,
    builderVersion: nat,
    status: Status,
    details: nat)

  datatype Key = Key(project: nat, kind: Kind)

  type Table = map<Key, BuildRecord>

  datatype PublishOutcome = Published | Idempotent | Conflict

  const BUILDER_VERSION: nat := 3
  const LEGACY_VERSION: nat := 2
  const RC_MIN: int := -0x8000_0000_0000_0000
  const RC_MAX: int := 0x7FFF_FFFF_FFFF_FFFF

  function KeyOf(r: BuildRecord): Key {
    Key(r.project, r.kind)
  }

  function RowOf(t: Table, k: Key): Option<BuildRecord> {
    if k in t then Some(t[k]) else None
  }

  predicate Keyed(t: Table) {
    forall k | k in t :: KeyOf(t[k]) == k
  }

  /** What a publication demands of its record. */
  predicate Publishable(r: BuildRecord) {
    && r.attempt.Some? && r.resultDigest.Some?
    && (match r.evidence
        case Some(CompletionReceipt) => r.processRc.Some? && RC_MIN <= r.processRc.value <= RC_MAX
        case Some(DependencyBlock) => r.processRc.None? && r.status == BuildFailed
        case _ => false)
    && r.validatedAt.Some? && r.validatedAt.value >= 0
  }

  /** The codegraph row of the project, frozen for a code_vec record. */
  function DependencyOf(t: Table, r: BuildRecord): Dependency {
    match RowOf(t, Key(r.project, Codegraph))
    case None => Dependency(None, None, r.targetCommit)
    case Some(d) => Dependency(Some(d.status), d.gitCommit,
                               if d.targetCommit.Some? then d.targetCommit else r.targetCommit)
  }

  /** A replay of an attempt takes the dependencies of its first publication. */
  function WithDependency(t: Table, r: BuildRecord, existing: Option<BuildRecord>): BuildRecord {
    if r.kind != CodeVec || r.depends.Some? then r
    else if existing.Some? && existing.value.attempt == r.attempt then r.(depends := existing.value.depends)
    else r.(depends := Some(DependencyOf(t, r)))
  }

  /** The one difference between two records of one attempt that is repaired instead of refused. */
  predicate IsMigration(existing: BuildRecord, candidate: BuildRecord) {
    && existing.builderVersion == LEGACY_VERSION && candidate.builderVersion == BUILDER_VERSION
    && existing.evidence.None? && candidate.evidence == Some(CompletionReceipt)
    && existing.processRc.Some?
    && existing.(builderVersion := BUILDER_VERSION, evidence := Some(CompletionReceipt)) == candidate
  }

  function Publish(t: Table, r: BuildRecord): (Table, PublishOutcome) {
    var existing := RowOf(t, KeyOf(r));
    var candidate := WithDependency(t, r, existing);
    if existing.Some? && existing.value.attempt == candidate.attempt then
      if existing.value == candidate then (t, Idempotent)
      else if IsMigration(existing.value, candidate) then (t[KeyOf(r) := candidate], Idempotent)
      else (t, Conflict)
    else (t[KeyOf(r) := candidate], Published)
  }

  /** A change of the table: a fenced publication, or a replacement by the legacy worker. */
  datatype Change = Fenced(record: BuildRecord) | Legacy(record: BuildRecord)

  function Apply(t: Table, c: Change): Table {
    match c
    case Fenced(r) => Publish(t, r).0
    case Legacy(r) => t[KeyOf(r) := r]
  }

  function ApplyAll(t: Table, cs: seq<Change>): Table
    decreases |cs|
  {
    if cs == [] then t else ApplyAll(Apply(t, cs[0]), cs[1..])
  }

  // --- publication --------------------------------------------------------------------------

  /** A conflict changes nothing, and no publication touches another row than its own. */
  lemma PublishTouchesOwnRow(t: Table, r: BuildRecord)
    ensures Publish(t, r).1 == Conflict ==> Publish(t, r).0 == t
    ensures forall k | k != KeyOf(r) :: RowOf(Publish(t, r).0, k) == RowOf(t, k)
    ensures Publish(t, r).1 != Conflict ==>
              && KeyOf(r) in Publish(t, r).0
              && Publish(t, r).0[KeyOf(r)] == WithDependency(t, r, RowOf(t, KeyOf(r)))
    ensures Keyed(t) ==> Keyed(Publish(t, r).0)
  {
  }

  /**
   A record is published exactly if its row is empty or of another attempt. Then the row holds that record, to which
   nothing but an open dependency of code_vec has been added.
   */
  lemma PublishedIffNewAttempt(t: Table, r: BuildRecord)
    ensures Publish(t, r).1 == Published <==> !(KeyOf(r) in t && t[KeyOf(r)].attempt == r.attempt)
    ensures Publish(t, r).1 == Published ==>
              var row := Publish(t, r).0[KeyOf(r)];
              && row == r.(depends := row.depends)
              && (row.depends == r.depends || (r.kind == CodeVec && r.depends.None?))
  {
  }

  /**
   The row of `r` was left by builder version 2 under the same attempt, with an exit code but without evidence, and
   says in every other column what `r` says; a code_vec record may leave its dependencies open.
   */
  predicate LiftsVersion(t: Table, r: BuildRecord) {
    && KeyOf(r) in t
    && var row := t[KeyOf(r)];
       && row.builderVersion == 2 && row.evidence.None? && row.processRc.Some?
       && r == row.(builderVersion := 3, evidence := Some(CompletionReceipt), depends := r.depends)
       && (r.depends == row.depends || (r.kind == CodeVec && r.depends.None?))
  }

  /** "Idempotent" leaves the table as it is, except that it lifts a row of the legacy version to the new one. */
  lemma IdempotentWritesIffMigration(t: Table, r: BuildRecord)
    ensures Publish(t, r).1 == Idempotent && Publish(t, r).0 != t <==> LiftsVersion(t, r)
    ensures LiftsVersion(t, r) ==>
              Publish(t, r).0 == t[KeyOf(r) := t[KeyOf(r)].(builderVersion := BUILDER_VERSION, evidence := r.evidence)]
  {
    var candidate := WithDependency(t, r, RowOf(t, KeyOf(r)));
    if LiftsVersion(t, r) {
      var lifted := t[KeyOf(r) := candidate];
      assert lifted[KeyOf(r)].builderVersion != t[KeyOf(r)].builderVersion;
    } else if Publish(t, r).1 == Idempotent {
      assert t[KeyOf(r)] == candidate;
    }
  }

  /** Such a table and such a record: a row of the legacy worker, and the replay of its attempt. */
  lemma IdempotentMayWrite() returns (t: Table, r: BuildRecord)
    ensures Publishable(r) && Keyed(t) && exists row :: t == Apply(map[], Legacy(row))
    ensures Publish(t, r).1 == Idempotent && Publish(t, r).0 != t
  {
    var row := BuildRecord(0, Codegraph, Some(0), None, None, None, Some(0), Some(0), Some(0), None, LEGACY_VERSION,
                           Ok, 0);
    r := row.(builderVersion := BUILDER_VERSION, evidence := Some(CompletionReceipt));
    t := Apply(map[], Legacy(row));
    IdempotentWritesIffMigration(t, r);
  }

  /** A change that cannot dislodge the row of `r`: one of another row, or one more publication of its attempt. */
  predicate Harmless(c: Change, r: BuildRecord) {
    KeyOf(c.record) != KeyOf(r) || (c.Fenced? && c.record.attempt == r.attempt && r.builderVersion != LEGACY_VERSION)
  }

  lemma {:induction false} RowStays(t: Table, cs: seq<Change>, r: BuildRecord, row: BuildRecord)
    requires forall c | c in cs :: Harmless(c, r)
    requires RowOf(t, KeyOf(r)) == Some(row) && row.attempt == r.attempt && row.builderVersion == r.builderVersion
    ensures RowOf(ApplyAll(t, cs), KeyOf(r)) == Some(row)
    decreases |cs|
  {
    if cs != [] {
      assert Harmless(cs[0], r);
      assert RowOf(Apply(t, cs[0]), KeyOf(r)) == Some(row);
      RowStays(Apply(t, cs[0]), cs[1..], r, row);
    }
  }

  /**
   Replaying a publication that took effect finds it in place and changes nothing, whatever happened to other
   rows in between (the codegraph it depends on included), and whatever else was tried under its attempt.
   */
  lemma ReplayIsIdempotent(t: Table, r: BuildRecord, cs: seq<Change>)
    requires Publish(t, r).1 != Conflict
    requires forall c | c in cs :: Harmless(c, r)
    ensures var later := ApplyAll(Publish(t, r).0, cs);
            Publish(later, r) == (later, Idempotent)
  {
    PublishTouchesOwnRow(t, r);
    var row := WithDependency(t, r, RowOf(t, KeyOf(r)));
    RowStays(Publish(t, r).0, cs, r, row);
  }

  /** A different record under the attempt of a published one is refused, unless it only lifts the version. */
  lemma SameAttemptDifferentRecordConflicts(t: Table, r: BuildRecord, other: BuildRecord)
    requires Publish(t, r).1 != Conflict && KeyOf(other) == KeyOf(r) && other.attempt == r.attempt
    requires r.builderVersion != LEGACY_VERSION
    ensures var now := Publish(t, r).0;
            Publish(now, other).1 ==
            if WithDependency(now, other, Some(now[KeyOf(r)])) == now[KeyOf(r)] then Idempotent else Conflict
  {
    PublishTouchesOwnRow(t, r);
  }

  // --- dependencies and freshness -----------------------------------------------------------

  /** Ancestry in the repository, if there is one to ask; pairs of a commit and one that contains it. */
  type History = Option<set<(nat, nat)>>

  predicate Covers(history: History, target: Option<nat>, indexed: Option<nat>) {
    && target.Some? && indexed.Some?
    && (target == indexed || (history.Some? && (target.value, indexed.value) in history.value))
  }

  function FirstKnown(a: Option<nat>, b: Option<nat>): Option<nat> {
    if a.Some? then a else b
  }

  /** Whether the codegraph that a code_vec build stands on was sound, and still is. */
  predicate DependencyHolds(r: BuildRecord, latest: Option<BuildRecord>, history: History, target: Option<nat>) {
    r.kind == CodeVec ==>
      && r.depends.Some? && r.depends.value.status == Some(Ok)
      && latest.Some? && latest.value.status == Ok
      && (var goal := FirstKnown(target, FirstKnown(r.depends.value.targetCommit,
                                                    FirstKnown(r.targetCommit, latest.value.targetCommit)));
          && Covers(history, goal, FirstKnown(r.depends.value.gitCommit, latest.value.gitCommit))
          && Covers(history, goal, latest.value.gitCommit))
  }

  /** Fresh, stale, or not to be decided. */
  function Freshness(r: BuildRecord, latest: Option<BuildRecord>, history: History, head: Option<nat>): Option<bool> {
    if head.None? || r.gitCommit.None? then None
    else Some(r.status == Ok && Covers(history, head, r.gitCommit) && DependencyHolds(r, latest, history, head))
  }

  /** The commit is the head or contains it, as far as the repository tells. */
  predicate HasHead(history: History, head: nat, commit: Option<nat>) {
    commit == Some(head) || (commit.Some? && history.Some? && (head, commit.value) in history.value)
  }

  /**
   The row's own build succeeded and has the head. A code_vec row was also published on a codegraph that had been
   built, and both the commit it found there and the codegraph of now, which has not failed, have the head.
   */
  predicate IsFresh(r: BuildRecord, latest: Option<BuildRecord>, history: History, head: nat) {
    && r.status == Ok && HasHead(history, head, r.gitCommit)
    && (r.kind == CodeVec ==>
          && latest.Some? && latest.value.status == Ok && HasHead(history, head, latest.value.gitCommit)
          && r.depends.Some? && r.depends.value.status == Some(Ok)
          && (r.depends.value.gitCommit.None? || HasHead(history, head, r.depends.value.gitCommit)))
  }

  /** The verdict is open exactly if a commit is not known, and otherwise positive exactly for a fresh row. */
  lemma FreshnessIsDecided(r: BuildRecord, latest: Option<BuildRecord>, history: History, head: Option<nat>)
    ensures Freshness(r, latest, history, head) ==
            if head.None? || r.gitCommit.None? then None else Some(IsFresh(r, latest, history, head.value))
  {
    if head.Some? {
      assert forall c :: Covers(history, head, c) <==> HasHead(history, head.value, c);
    }
  }

  /**
   What the first publication of a code_vec attempt freezes: the status and the commit of the codegraph at that moment,
   and the commit it was built for, or else that of the record itself. Nothing harmless and no replay changes it.
   */
  lemma DependencyIsFrozen(t: Table, r: BuildRecord, cs: seq<Change>)
    requires r.kind == CodeVec && r.depends.None? && Publish(t, r).1 == Published
    requires forall c | c in cs :: Harmless(c, r)
    ensures var later := ApplyAll(Publish(t, r).0, cs);
            && Publish(later, r) == (later, Idempotent)
            && KeyOf(r) in later && later[KeyOf(r)].depends.Some?
            && var frozen, k := later[KeyOf(r)].depends.value, Key(r.project, Codegraph);
               if k in t then
                 && frozen.status == Some(t[k].status)
                 && frozen.gitCommit == t[k].gitCommit
                 && (t[k].targetCommit.Some? ==> frozen.targetCommit == t[k].targetCommit)
                 && (t[k].targetCommit.None? ==> frozen.targetCommit == r.targetCommit)
               else
                 frozen.status.None? && frozen.gitCommit.None? && frozen.targetCommit == r.targetCommit
  {
    PublishTouchesOwnRow(t, r);
    ReplayIsIdempotent(t, r, cs);
    RowStays(Publish(t, r).0, cs, r, WithDependency(t, r, RowOf(t, KeyOf(r))));
  }

  /**
   A code_vec build published on a codegraph that was missing or had failed is never fresh, however the
   codegraph is rebuilt later: only another attempt of code_vec can change that.
   */
  lemma UnsoundDependencyStaysUnsound(t: Table, r: BuildRecord, cs: seq<Change>, history: History, head: Option<nat>)
    requires r.kind == CodeVec && r.depends.None? && Publish(t, r).1 == Published
    requires var codegraph := RowOf(t, Key(r.project, Codegraph));
             codegraph.None? || codegraph.value.status == BuildFailed
    requires forall c | c in cs :: Harmless(c, r)
    ensures var later := ApplyAll(Publish(t, r).0, cs);
            && KeyOf(r) in later
            && Freshness(later[KeyOf(r)], RowOf(later, Key(r.project, Codegraph)), history, head) != Some(true)
  {
    PublishTouchesOwnRow(t, r);
    var row := WithDependency(t, r, RowOf(t, KeyOf(r)));
    RowStays(Publish(t, r).0, cs, r, row);
    assert RowOf(ApplyAll(Publish(t, r).0, cs), KeyOf(r)) == Some(row);
  }

  /** A fresh code_vec build stands on a codegraph that was sound when it was published and contains the head now. */
  lemma FreshStandsOnSoundCodegraph(t: Table, r: BuildRecord, cs: seq<Change>, history: History, head: Option<nat>)
    requires Keyed(t) && r.kind == CodeVec && r.depends.None? && Publish(t, r).1 == Published
    requires forall c | c in cs :: Harmless(c, r)
    requires var later := ApplyAll(Publish(t, r).0, cs);
             KeyOf(r) in later
             && Freshness(later[KeyOf(r)], RowOf(later, Key(r.project, Codegraph)), history, head) == Some(true)
    ensures Key(r.project, Codegraph) in t && t[Key(r.project, Codegraph)].status == Ok
    ensures var later := ApplyAll(Publish(t, r).0, cs);
            && Key(r.project, Codegraph) in later && later[Key(r.project, Codegraph)].status == Ok
            && Covers(history, head, later[Key(r.project, Codegraph)].gitCommit)
  {
    PublishTouchesOwnRow(t, r);
    var row := WithDependency(t, r, RowOf(t, KeyOf(r)));
    RowStays(Publish(t, r).0, cs, r, row);
    assert RowOf(ApplyAll(Publish(t, r).0, cs), KeyOf(r)) == Some(row);
    var codegraph := RowOf(t, Key(r.project, Codegraph));
    if codegraph.None? || codegraph.value.status == BuildFailed {
      UnsoundDependencyStaysUnsound(t, r, cs, history, head);
    }
  }

  // --- the store ----------------------------------------------------------------------------

  class IndexManifest {
    var table: Table

    constructor ()
      ensures table == map[]
    {
      table := map[];
    }

    /** One write transaction; it is rolled back on a conflict, and a malformed record does not reach it. */
    method PublishBuild(r: BuildRecord) returns (outcome: Result<PublishOutcome, string>)
      modifies this
      ensures outcome.Success? <==> Publishable(r)
      ensures outcome.Success? <==>
                && r.attempt.Some? && r.resultDigest.Some? && r.validatedAt.Some? && r.validatedAt.value >= 0
                && ((r.evidence == Some(DependencyBlock) && r.processRc.None? && r.status == BuildFailed)
                    || (&& r.evidence == Some(CompletionReceipt) && r.processRc.Some?
                        && -0x8000_0000_0000_0000 <= r.processRc.value < 0x8000_0000_0000_0000))
      ensures outcome.Failure? ==> table == old(table)
      ensures outcome.Success? ==> (table, outcome.value) == Publish(old(table), r)
    {
      if !Publishable(r) {
        return Failure("the record cannot be published");
      }
      var existing := RowOf(table, KeyOf(r));
      var candidate := WithDependency(table, r, existing);
      if existing.Some? && existing.value.attempt == candidate.attempt {
        if existing.value == candidate {
          return Success(Idempotent);
        }
        if IsMigration(existing.value, candidate) {
          table := table[KeyOf(r) := candidate];
          return Success(Idempotent);
        }
        return Success(Conflict);
      }
      table := table[KeyOf(r) := candidate];
      outcome := Success(Published);
    }

    method RecordBuild(r: BuildRecord)
      modifies this
      ensures table == Apply(old(table), Legacy(r))
    {
      table := table[KeyOf(r) := r];
    }

    /** The freshness of the records of a project, in the order in which they are read. */
    method ReportFreshness(project: nat, kinds: seq<Kind>, history: History, head: Option<nat>)
      returns (report: seq<(Kind, Option<bool>)>)
      requires forall i | 0 <= i < |kinds| :: Key(project, kinds[i]) in table
      ensures |report| == |kinds|
      ensures forall i | 0 <= i < |kinds| ::
                report[i] == (kinds[i], Freshness(table[Key(project, kinds[i])], RowOf(table, Key(project, Codegraph)),
                                                  history, head))
      ensures forall i | 0 <= i < |kinds| :: var row := table[Key(project, kinds[i])];
                && (report[i].1.None? <==> head.None? || row.gitCommit.None?)
                && (report[i].1 == Some(true) <==>
                      && row.gitCommit.Some? && head.Some?
                      && IsFresh(row, RowOf(table, Key(project, Codegraph)), history, head.value))
    {
      report := [];
      var latest := RowOf(table, Key(project, Codegraph));
      for i := 0 to |kinds|
        invariant |report| == i
        invariant forall j | 0 <= j < i ::
                    report[j] == (kinds[j], Freshness(table[Key(project, kinds[j])], latest, history, head))
      {
        var r := table[Key(project, kinds[i])];
        var verdict: Option<bool>;
        if head.None? || r.gitCommit.None? {
          verdict := None;
        } else if r.status != Ok {
          verdict := Some(false);
        } else {
          verdict := Some(Covers(history, head, r.gitCommit));
        }
        if r.kind == CodeVec && verdict == Some(true) {
          verdict := Some(DependencyHolds(r, latest, history, head));
        }
        report := report + [(kinds[i], verdict)];
      }
      forall i | 0 <= i < |kinds|
        ensures Freshness(table[Key(project, kinds[i])], latest, history, head) ==
                if head.None? || table[Key(project, kinds[i])].gitCommit.None? then None
                else Some(IsFresh(table[Key(project, kinds[i])], latest, history, head.value))
      {
        FreshnessIsDecided(table[Key(project, kinds[i])], latest, history, head);
      }
    }
  }
}
