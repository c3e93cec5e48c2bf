/**
 Moving the observation namespaces of a runtime into the hands of its service user: scan, publish leaf first,
 scan again. The publish phase may be cut off after any single change of an owner or a mode.
 */
module ArtifactAccess {
  import opened Wrappers
  import opened Framing

  type Name = Bytes

  /** The twelve permission bits. */
  type Mode = x: int | 0 <= x < 0x1000

  datatype Kind = Directory | Regular | Symlink | Special

  datatype Identity = Identity(
    device: nat,
    inode: nat,
    kind: Kind,
    links: nat,
    uid: nat,
    gid: nat,
    mode: Mode,
    size: nat,
    modified: int,
    changed: int)

  /** The directory structure, which a migration does not change; children in the order of their names. */
  datatype Node = Node(name: Name, inode: nat, children: seq<Node>)

  datatype Snapshot = Snapshot(name: Name, identity: Identity, children: seq<Snapshot>)

  datatype Policy = Policy(uid: nat, gid: nat, maxEntries: nat)

  datatype ContentKey = ContentKey(device: nat, inode: nat, kind: Kind, links: nat, size: nat, modified: int)

  datatype Content = Content(name: Name, key: ContentKey, children: seq<Content>)

  const MAX_DEPTH: nat := 64
  const DIRECTORY_MODE: Mode := 0x1C0 // 0o700
  const REGULAR_MODE: Mode := 0x180 // 0o600
  const GROUP_WRITE: nat := 0x010 // 0o020
  const OTHER_WRITE: nat := 0x002 // 0o002
  const SPECIAL_BITS: nat := 0x200 // 0o7000 is all bits from here on

  predicate HasBit(mode: Mode, bit: nat)
    requires bit > 0
  {
    mode / bit % 2 == 1
  }

  function CanonicalMode(kind: Kind): Mode {
    if kind == Directory then DIRECTORY_MODE else REGULAR_MODE
  }

  predicate Canonical(e: Identity, p: Policy) {
    e.uid == p.uid && e.gid == p.gid && e.mode == CanonicalMode(e.kind)
  }

  /** What the preflight accepts of a single entry. */
  predicate EntryOk(e: Identity, p: Policy, device: nat) {
    && (e.kind == Directory || e.kind == Regular)
    && e.device == device
    && (e.kind == Regular ==> e.links == 1)
    && (e.uid == 0 || e.uid == p.uid)
    && (e.gid == 0 || e.gid == p.gid)
    && !HasBit(e.mode, GROUP_WRITE) && !HasBit(e.mode, OTHER_WRITE)
    && e.mode / SPECIAL_BITS == 0
  }

  /**
   Only the service user can do anything with the node: it may read and write it, and search it exactly if it is a
   directory. No bit is set for the group, for others or beyond the permissions.
   */
  predicate PrivateToService(e: Identity, p: Policy) {
    && e.uid == p.uid && e.gid == p.gid
    && e.mode % 0x40 == 0 && e.mode < 0x200
    && e.mode / 0x100 % 2 == 1 && e.mode / 0x80 % 2 == 1
    && (e.mode / 0x40 % 2 == 1 <==> e.kind == Directory)
  }

  lemma CanonicalMeansPrivate(e: Identity, p: Policy)
    ensures Canonical(e, p) <==> PrivateToService(e, p)
  {
  }

  lemma AllCanonicalMeansPrivate(f: seq<Node>, meta: map<nat, Identity>, p: Policy)
    requires Inodes(f) <= meta.Keys
    ensures AllCanonical(f, meta, p) <==> AllPrivate(f, meta, p)
  {
    forall i | i in Inodes(f)
      ensures Canonical(meta[i], p) <==> PrivateToService(meta[i], p)
    {
      CanonicalMeansPrivate(meta[i], p);
    }
  }

  /** No one but the owner, which is root or the service user, may write to an accepted entry. */
  lemma AcceptedIsWrittenByOwnerOnly(e: Identity, p: Policy, device: nat)
    ensures EntryOk(e, p, device) <==>
            && e.device == device && e.uid in {0, p.uid} && e.gid in {0, p.gid}
            && (e.kind == Directory || (e.kind == Regular && e.links == 1))
            && e.mode < 0x200 && e.mode % 0x20 < 0x10 && e.mode % 4 < 2
  {
    WriteBits(e.mode);
  }

  lemma WriteBits(mode: Mode)
    ensures HasBit(mode, GROUP_WRITE) <==> mode % 0x20 >= 0x10
    ensures HasBit(mode, OTHER_WRITE) <==> mode % 4 >= 2
    ensures mode / SPECIAL_BITS == 0 <==> mode < 0x200
  {
  }

  function KeyOf(e: Identity): ContentKey {
    ContentKey(e.device, e.inode, e.kind, e.links, e.size, e.modified)
  }

  // --- forests ------------------------------------------------------------------------------

  function Count(f: seq<Node>): nat {
    if f == [] then 0 else 1 + Count(f[0].children) + Count(f[1..])
  }

  function Height(f: seq<Node>): nat {
    if f == [] then 0 else Max(1 + Height(f[0].children), Height(f[1..]))
  }

  function Max(a: nat, b: nat): nat {
    if a < b then b else a
  }

  function Inodes(f: seq<Node>): set<nat> {
    if f == [] then {} else {f[0].inode} + Inodes(f[0].children) + Inodes(f[1..])
  }

  function SnapshotsOf(f: seq<Node>, meta: map<nat, Identity>): seq<Snapshot>
    requires forall i | i in Inodes(f) :: i in meta
  {
    if f == [] then []
    else [Snapshot(f[0].name, meta[f[0].inode], SnapshotsOf(f[0].children, meta))] + SnapshotsOf(f[1..], meta)
  }

  function ContentTree(s: seq<Snapshot>): seq<Content> {
    if s == [] then []
    else [Content(s[0].name, KeyOf(s[0].identity), ContentTree(s[0].children))] + ContentTree(s[1..])
  }

  /** Every node has metadata under its own inode number, and only directories have entries. */
  ghost predicate Known(f: seq<Node>, meta: map<nat, Identity>) {
    && (forall i | i in Inodes(f) :: i in meta && meta[i].inode == i)
    && OnlyDirectoriesBranch(f, meta)
  }

  ghost predicate OnlyDirectoriesBranch(f: seq<Node>, meta: map<nat, Identity>) {
    f == [] ||
    (&& (f[0].children == [] || (f[0].inode in meta && meta[f[0].inode].kind == Directory))
     && OnlyDirectoriesBranch(f[0].children, meta)
     && OnlyDirectoriesBranch(f[1..], meta))
  }

  /** Link counts are right: what occurs twice is no directory and has more than one link. */
  ghost predicate LinksAreTrue(f: seq<Node>, meta: map<nat, Identity>) {
    f == [] ||
    (&& (f[0].inode in Inodes(f[0].children) + Inodes(f[1..]) ==> Linked(f[0].inode, meta))
     && (forall i | i in Inodes(f[0].children) * Inodes(f[1..]) :: Linked(i, meta))
     && LinksAreTrue(f[0].children, meta)
     && LinksAreTrue(f[1..], meta))
  }

  predicate Linked(i: nat, meta: map<nat, Identity>) {
    i in meta && meta[i].kind != Directory && meta[i].links > 1
  }

  ghost predicate Distinct(f: seq<Node>) {
    f == [] ||
    (&& f[0].inode !in Inodes(f[0].children) + Inodes(f[1..])
     && Inodes(f[0].children) !! Inodes(f[1..])
     && Distinct(f[0].children)
     && Distinct(f[1..]))
  }

  predicate Passes(e: Identity, p: Policy, device: nat, acls: set<nat>, canonical: bool) {
    EntryOk(e, p, device) && e.inode !in acls && (canonical ==> Canonical(e, p))
  }

  ghost predicate Scannable(f: seq<Node>, meta: map<nat, Identity>, p: Policy, device: nat, acls: set<nat>, depth: nat,
                            canonical: bool)
    requires Known(f, meta)
  {
    && (f != [] ==> depth + Height(f) <= 65)
    && (forall i | i in Inodes(f) :: Passes(meta[i], p, device, acls, canonical))
  }

  lemma KnownUnfolds(f: seq<Node>, meta: map<nat, Identity>)
    requires f != []
    ensures Known(f, meta) <==>
            && f[0].inode in meta && meta[f[0].inode].inode == f[0].inode
            && (f[0].children == [] || meta[f[0].inode].kind == Directory)
            && Known(f[0].children, meta) && Known(f[1..], meta)
  {
  }

  lemma ScannableUnfolds(f: seq<Node>, meta: map<nat, Identity>, p: Policy, device: nat, acls: set<nat>, depth: nat,
                         canonical: bool)
    requires f != [] && Known(f, meta) && Known(f[0].children, meta) && Known(f[1..], meta)
    requires f[0].inode in meta
    ensures Scannable(f, meta, p, device, acls, depth, canonical) <==>
            && depth <= 64
            && Passes(meta[f[0].inode], p, device, acls, canonical)
            && Scannable(f[0].children, meta, p, device, acls, depth + 1, canonical)
            && Scannable(f[1..], meta, p, device, acls, depth, canonical)
  {
    assert f[0].children == [] ==> Height(f[0].children) == 0;
    assert f[1..] == [] ==> Height(f[1..]) == 0;
  }

  // --- what a migration changes -------------------------------------------------------------

  function OwnerOps(e: Identity, p: Policy): nat {
    if e.uid != p.uid || e.gid != p.gid then 1 else 0
  }

  function ModeOps(e: Identity): nat {
    if e.mode != CanonicalMode(e.kind) then 1 else 0
  }

  /** The number of changes of an owner or a mode that a forest still needs. */
  function TotalOps(f: seq<Node>, meta: map<nat, Identity>, p: Policy): nat
    requires Inodes(f) <= meta.Keys
  {
    if f == [] then 0
    else OwnerOps(meta[f[0].inode], p) + ModeOps(meta[f[0].inode])
         + TotalOps(f[0].children, meta, p) + TotalOps(f[1..], meta, p)
  }

  /** The number of nodes that are not canonical. */
  function Strays(f: seq<Node>, meta: map<nat, Identity>, p: Policy): nat
    requires Inodes(f) <= meta.Keys
  {
    if f == [] then 0
    else (if Canonical(meta[f[0].inode], p) then 0 else 1) + Strays(f[0].children, meta, p) + Strays(f[1..], meta, p)
  }

  /** `now` is `was` with the changes of a migration that may have been cut off: the owner comes before the mode. */
  predicate Between(was: Identity, now: Identity, p: Policy) {
    && KeyOf(now) == KeyOf(was)
    && now == was.(uid := now.uid, gid := now.gid, mode := now.mode, changed := now.changed)
    && (now == was
        || (!Canonical(was, p) && now.uid == p.uid && now.gid == p.gid
            && (now.mode == was.mode || now.mode == CanonicalMode(was.kind))))
  }

  ghost predicate Progressed(f: seq<Node>, was: map<nat, Identity>, now: map<nat, Identity>, p: Policy) {
    && now.Keys == was.Keys
    && (forall i | i in was :: if i in Inodes(f) then Between(was[i], now[i], p) else now[i] == was[i])
  }

  ghost predicate AllCanonical(f: seq<Node>, meta: map<nat, Identity>, p: Policy)
    requires Inodes(f) <= meta.Keys
  {
    forall i | i in Inodes(f) :: Canonical(meta[i], p)
  }

  ghost predicate AllPrivate(f: seq<Node>, meta: map<nat, Identity>, p: Policy)
    requires Inodes(f) <= meta.Keys
  {
    forall i | i in Inodes(f) :: PrivateToService(meta[i], p)
  }

  ghost predicate Agree(f: seq<Node>, was: map<nat, Identity>, now: map<nat, Identity>) {
    forall i | i in Inodes(f) :: i in was && i in now && was[i] == now[i]
  }

  lemma ProgressedInTurn(f: seq<Node>, was: map<nat, Identity>, middle: map<nat, Identity>, now: map<nat, Identity>,
                         p: Policy)
    requires f != [] && Distinct(f)
    requires Progressed([f[0]], was, middle, p) && Progressed(f[1..], middle, now, p)
    ensures Progressed(f, was, now, p)
    ensures Agree([f[0]], middle, now) || !(Inodes([f[0]]) <= was.Keys)
  {
    assert Inodes(f) == Inodes([f[0]]) + Inodes(f[1..]) && Inodes([f[0]]) !! Inodes(f[1..]) by {
      assert [f[0]][1..] == [];
    }
  }

  /** What a forest shows depends on its own inodes alone. */
  lemma {:induction false} FrameOf(f: seq<Node>, was: map<nat, Identity>, now: map<nat, Identity>, p: Policy)
    requires Agree(f, was, now)
    ensures TotalOps(f, now, p) == TotalOps(f, was, p) && Strays(f, now, p) == Strays(f, was, p)
    ensures SnapshotsOf(f, now) == SnapshotsOf(f, was)
  {
    if f != [] {
      FrameOf(f[0].children, was, now, p);
      FrameOf(f[1..], was, now, p);
    }
  }

  lemma {:induction false} CanonicalNeedsNothing(f: seq<Node>, meta: map<nat, Identity>, p: Policy)
    requires Inodes(f) <= meta.Keys
    ensures AllCanonical(f, meta, p) <==> TotalOps(f, meta, p) == 0
    ensures AllCanonical(f, meta, p) <==> Strays(f, meta, p) == 0
  {
    if f != [] {
      CanonicalNeedsNothing(f[0].children, meta, p);
      CanonicalNeedsNothing(f[1..], meta, p);
    }
  }

  /** A link count of one on every accepted file leaves no room for a second path to any node. */
  lemma {:induction false} AcceptedIsDistinct(f: seq<Node>, meta: map<nat, Identity>, p: Policy, device: nat)
    requires LinksAreTrue(f, meta)
    requires forall i | i in Inodes(f) :: i in meta && EntryOk(meta[i], p, device)
    ensures Distinct(f)
  {
    if f != [] {
      AcceptedIsDistinct(f[0].children, meta, p, device);
      AcceptedIsDistinct(f[1..], meta, p, device);
      assert forall i | i in Inodes(f) :: !Linked(i, meta);
    }
  }

  /** Owners, modes and change times are no content. */
  lemma {:induction false} ProgressKeepsContent(f: seq<Node>, was: map<nat, Identity>, now: map<nat, Identity>,
                                                p: Policy)
    requires Inodes(f) <= was.Keys && Inodes(f) <= now.Keys
    requires forall i | i in Inodes(f) :: KeyOf(now[i]) == KeyOf(was[i])
    ensures ContentTree(SnapshotsOf(f, now)) == ContentTree(SnapshotsOf(f, was))
  {
    if f != [] {
      ProgressKeepsContent(f[0].children, was, now, p);
      ProgressKeepsContent(f[1..], was, now, p);
      var s, t := SnapshotsOf(f, was), SnapshotsOf(f, now);
      assert s[1..] == SnapshotsOf(f[1..], was) && t[1..] == SnapshotsOf(f[1..], now);
    }
  }

  ghost predicate Acceptable(f: seq<Node>, meta: map<nat, Identity>, p: Policy, device: nat, acls: set<nat>) {
    Known(f, meta) && Scannable(f, meta, p, device, acls, 0, false) && Count(f) <= p.maxEntries
  }

  /** Wherever a migration was cut off, the next preflight accepts what it left. */
  lemma ProgressStaysAcceptable(f: seq<Node>, was: map<nat, Identity>, now: map<nat, Identity>, p: Policy, device: nat,
                                acls: set<nat>)
    requires Acceptable(f, was, p, device, acls) && Progressed(f, was, now, p)
    ensures Acceptable(f, now, p, device, acls)
  {
    KindsDecideKnown(f, was, now);
    forall i | i in Inodes(f)
      ensures Passes(now[i], p, device, acls, false)
    {
      CanonicalModesPass(was[i], now[i], p, device);
    }
  }

  lemma CanonicalModesPass(was: Identity, now: Identity, p: Policy, device: nat)
    requires EntryOk(was, p, device) && Between(was, now, p)
    ensures EntryOk(now, p, device)
  {
  }

  lemma {:induction false} KindsDecideKnown(f: seq<Node>, was: map<nat, Identity>, now: map<nat, Identity>)
    requires Known(f, was)
    requires forall i | i in Inodes(f) :: i in now && now[i].kind == was[i].kind && now[i].inode == was[i].inode
    ensures Known(f, now)
  {
    if f != [] {
      KindsDecideKnown(f[0].children, was, now);
      KindsDecideKnown(f[1..], was, now);
    }
  }

  lemma {:induction false} KindsDecideLinks(f: seq<Node>, was: map<nat, Identity>, now: map<nat, Identity>)
    requires LinksAreTrue(f, was)
    requires forall i | i in Inodes(f) :: i in was && i in now && KeyOf(now[i]) == KeyOf(was[i])
    ensures LinksAreTrue(f, now)
  {
    if f != [] {
      KindsDecideLinks(f[0].children, was, now);
      KindsDecideLinks(f[1..], was, now);
    }
  }

  function Sum(xs: seq<nat>): nat {
    if xs == [] then 0 else xs[0] + Sum(xs[1..])
  }

  datatype Published = Done(changed: nat) | Cut

  datatype Migration = Migrated(final: seq<Snapshot>, changed: nat) | Refused | PowerLost

  class TraversalBudget {
    const limit: nat
    var entries: nat

    constructor (limit: nat)
      ensures this.limit == limit && entries == 0
    {
      this.limit, entries := limit, 0;
    }

    method Add() returns (ok: bool)
      modifies this
      ensures entries == old(entries) + 1 && (ok <==> entries <= limit)
    {
      entries := entries + 1;
      ok := entries <= limit;
    }
  }

  class ArtifactStore {
    const device: nat
    const acls: set<nat>
    var meta: map<nat, Identity>
    var clock: int
    var power: nat

    /** Accepts a forest exactly if every entry is acceptable and neither depth nor budget is exceeded. */
    method ScanForest(f: seq<Node>, p: Policy, budget: TraversalBudget, depth: nat, canonical: bool)
      returns (r: Option<seq<Snapshot>>)
      requires Known(f, meta) && budget.entries <= budget.limit
      modifies budget
      ensures r.Some? <==> Scannable(f, meta, p, device, acls, depth, canonical)
                           && old(budget.entries) + Count(f) <= budget.limit
      ensures r.Some? ==> r.value == SnapshotsOf(f, meta) && budget.entries == old(budget.entries) + Count(f)
      decreases f
    {
      if f == [] {
        return Some([]);
      }
      KnownUnfolds(f, meta);
      ScannableUnfolds(f, meta, p, device, acls, depth, canonical);
      if depth > MAX_DEPTH {
        return None;
      }
      var ok := budget.Add();
      var e := meta[f[0].inode];
      if !ok || !Passes(e, p, device, acls, canonical) {
        return None;
      }
      var children := ScanForest(f[0].children, p, budget, depth + 1, canonical);
      if children.None? {
        return None;
      }
      var rest := ScanForest(f[1..], p, budget, depth, canonical);
      if rest.None? {
        return None;
      }
      r := Some([Snapshot(f[0].name, e, children.value)] + rest.value);
    }

    /** Changes owner and mode of one node, as far as needed and as far as the power lasts. */
    method Converge(inode: nat, p: Policy) returns (r: Published)
      requires inode in meta
      modifies this`meta, this`clock, this`power
      ensures meta.Keys == old(meta.Keys) && forall i | i in meta && i != inode :: meta[i] == old(meta[i])
      ensures Between(old(meta[inode]), meta[inode], p)
      ensures var ops := OwnerOps(old(meta[inode]), p) + ModeOps(old(meta[inode]));
              if ops <= old(power) then
                && power == old(power) - ops && Canonical(meta[inode], p) && PrivateToService(meta[inode], p)
                && r == Done(if Canonical(old(meta[inode]), p) then 0 else 1)
              else
                && power == 0 && r == Cut
                && OwnerOps(meta[inode], p) + ModeOps(meta[inode]) == ops - old(power)
    {
      var current := meta[inode];
      if current.uid != p.uid || current.gid != p.gid {
        if power == 0 {
          return Cut;
        }
        power, clock := power - 1, clock + 1;
        meta := meta[inode := meta[inode].(uid := p.uid, gid := p.gid, changed := clock)];
      }
      if current.mode != CanonicalMode(current.kind) {
        if power == 0 {
          return Cut;
        }
        power, clock := power - 1, clock + 1;
        meta := meta[inode := meta[inode].(mode := CanonicalMode(current.kind), changed := clock)];
      }
      CanonicalMeansPrivate(meta[inode], p);
      r := Done(if Canonical(current, p) then 0 else 1);
    }

    /** Publishes a node after everything below it, on condition that it is still as it was scanned. */
    method PublishNode(node: Node, scanned: Snapshot, p: Policy) returns (r: Published)
      requires {node.inode} + Inodes(node.children) <= meta.Keys
      requires Distinct(node.children) && node.inode !in Inodes(node.children)
      requires scanned == Snapshot(node.name, meta[node.inode], SnapshotsOf(node.children, meta))
      modifies this`meta, this`clock, this`power
      ensures Progressed([node], old(meta), meta, p)
      ensures var ops := OwnerOps(old(meta[node.inode]), p) + ModeOps(old(meta[node.inode]))
                         + TotalOps(node.children, old(meta), p);
              if ops <= old(power) then
                && power == old(power) - ops && Canonical(meta[node.inode], p) && AllCanonical(node.children, meta, p)
                && r == Done((if Canonical(old(meta[node.inode]), p) then 0 else 1)
                             + Strays(node.children, old(meta), p))
              else
                && power == 0 && r == Cut
                && OwnerOps(meta[node.inode], p) + ModeOps(meta[node.inode]) + TotalOps(node.children, meta, p)
                   == ops - old(power)
      decreases node
    {
      var below := PublishForest(node.children, scanned.children, p);
      assert meta[node.inode] == scanned.identity;
      if below.Cut? {
        return Cut;
      }
      ghost var middle := meta;
      var own := Converge(node.inode, p);
      FrameOf(node.children, middle, meta, p);
      CanonicalNeedsNothing(node.children, meta, p);
      if own.Cut? {
        return Cut;
      }
      r := Done(below.changed + own.changed);
    }

    method PublishForest(f: seq<Node>, scanned: seq<Snapshot>, p: Policy) returns (r: Published)
      requires Inodes(f) <= meta.Keys && Distinct(f)
      requires scanned == SnapshotsOf(f, meta)
      modifies this`meta, this`clock, this`power
      ensures Progressed(f, old(meta), meta, p)
      ensures var ops := TotalOps(f, old(meta), p);
              if ops <= old(power) then
                && power == old(power) - ops && r == Done(Strays(f, old(meta), p))
                && AllCanonical(f, meta, p) && AllPrivate(f, meta, p)
              else
                power == 0 && r == Cut && TotalOps(f, meta, p) == ops - old(power)
      decreases f
    {
      if f == [] {
        return Done(0);
      }
      ghost var start := meta;
      assert Inodes([f[0]]) == {f[0].inode} + Inodes(f[0].children);
      r := PublishNode(f[0], scanned[0], p);
      ghost var middle := meta;
      FrameOf(f[1..], start, middle, p);
      if r.Done? {
        var rest := PublishForest(f[1..], scanned[1..], p);
        ProgressedInTurn(f, start, middle, meta, p);
        FrameOf(f[0].children, middle, meta, p);
        CanonicalNeedsNothing(f[0].children, middle, p);
        AllCanonicalMeansPrivate(f, meta, p);
        r := if rest.Cut? then Cut else Done(r.changed + rest.changed);
      }
    }

    /**
     One migration. It is refused exactly if the preflight does not accept the forest, and then changes nothing.
     Otherwise it completes exactly if the power suffices for the changes still needed: then every node is
     canonical, and as many nodes are reported changed as were not canonical. If it is cut off, the forest is
     still acceptable and needs as many changes less as there was power. Content never changes.
     */
    method Migrate(f: seq<Node>, p: Policy) returns (r: Migration)
      requires Known(f, meta) && LinksAreTrue(f, meta)
      modifies this`meta, this`clock, this`power
      ensures meta.Keys == old(meta.Keys) && Known(f, meta)
      ensures r.Refused? <==> !Acceptable(f, old(meta), p, device, acls)
      ensures r.Refused? ==> meta == old(meta) && power == old(power)
      ensures !r.Refused? ==> Progressed(f, old(meta), meta, p) && Acceptable(f, meta, p, device, acls)
      ensures !r.Refused? ==> ContentTree(SnapshotsOf(f, meta)) == ContentTree(SnapshotsOf(f, old(meta)))
      ensures !r.Refused? ==>
                if TotalOps(f, old(meta), p) <= old(power) then
                  && r == Migrated(SnapshotsOf(f, meta), Strays(f, old(meta), p))
                  && AllCanonical(f, meta, p) && AllPrivate(f, meta, p)
                  && power == old(power) - TotalOps(f, old(meta), p)
                else
                  && r.PowerLost? && power == 0
                  && TotalOps(f, meta, p) == TotalOps(f, old(meta), p) - old(power)
    {
      var budget := new TraversalBudget(p.maxEntries);
      var scanned := ScanForest(f, p, budget, 0, false);
      if scanned.None? {
        return Refused;
      }
      AcceptedIsDistinct(f, meta, p, device);
      var published := PublishForest(f, scanned.value, p);
      ProgressStaysAcceptable(f, old(meta), meta, p, device, acls);
      ProgressKeepsContent(f, old(meta), meta, p);
      if published.Cut? {
        return PowerLost;
      }
      var finalBudget := new TraversalBudget(p.maxEntries);
      var final := ScanForest(f, p, finalBudget, 0, true);
      AllCanonicalMeansPrivate(f, meta, p);
      r := Migrated(final.value, published.changed);
    }

    /**
     Running the migration again after every power loss: it completes exactly if the power of all runs together
     suffices, and it leaves the owners, modes and content that a single uncut run would have left.
     */
    method MigrateAgainAndAgain(f: seq<Node>, p: Policy, powers: seq<nat>) returns (r: Migration)
      requires Known(f, meta) && LinksAreTrue(f, meta) && powers != []
      modifies this`meta, this`clock, this`power
      ensures meta.Keys == old(meta.Keys) && Known(f, meta)
      ensures r.Refused? <==> !Acceptable(f, old(meta), p, device, acls)
      ensures !r.Refused? ==> (r.Migrated? <==> TotalOps(f, old(meta), p) <= Sum(powers))
      ensures r.Migrated? ==> r.final == SnapshotsOf(f, meta) && AllCanonical(f, meta, p) && AllPrivate(f, meta, p)
      ensures !r.Refused? ==> ContentTree(SnapshotsOf(f, meta)) == ContentTree(SnapshotsOf(f, old(meta)))
      decreases powers
    {
      power := powers[0];
      r := Migrate(f, p);
      if r.PowerLost? && |powers| > 1 {
        KindsDecideLinks(f, old(meta), meta);
        r := MigrateAgainAndAgain(f, p, powers[1..]);
      }
    }
  }

  /** A migration of a forest that is canonical already changes nothing at all. */
  lemma CanonicalStaysAsItIs(f: seq<Node>, was: map<nat, Identity>, now: map<nat, Identity>, p: Policy)
    requires Inodes(f) <= was.Keys && AllCanonical(f, was, p) && Progressed(f, was, now, p)
    ensures now == was && Strays(f, was, p) == 0
  {
    CanonicalNeedsNothing(f, was, p);
  }
}
