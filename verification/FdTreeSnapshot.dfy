/** The layered identity digest of a directory tree, in its plain and in its access-repair form. */
module FdTreeSnapshots {
  import opened Framing
  import opened Ordering

  datatype FileKind = Directory | Regular | SymbolicLink

  datatype Metadata = Metadata(
    device: nat,
    inode: nat,
    kind: FileKind,
    permissions: nat,
    uid: nat,
    gid: nat,
    links: nat,
    size: nat,
    modified: int,
    changed: int)

  /** Children in the order in which the directory happens to list them. */
  datatype Tree = Tree(name: Bytes, meta: Metadata, children: seq<Tree>)

  datatype Scheme = Plain | AccessRepair

  /** What a hash is fed: octets, and the value of another hash as a whole. */
  datatype Item = Octet(b: byte) | Sealed(digest: Digest)

  datatype Digest = Sha256(input: seq<Item>)

  const LENGTH_WIDTH: nat := 8
  const DIGEST_SIZE: nat := 32

  // "codev-runtime-fd-tree-v1" and a NUL
  const PLAIN_TAG: Bytes := [99, 111, 100, 101, 118, 45, 114, 117, 110, 116, 105, 109, 101, 45, 102, 100, 45,
                             116, 114, 101, 101, 45, 118, 49, 0]
  // "codev-runtime-fd-tree-access-repair-v1" and a NUL
  const REPAIR_TAG: Bytes := [99, 111, 100, 101, 118, 45, 114, 117, 110, 116, 105, 109, 101, 45, 102, 100, 45,
                              116, 114, 101, 101, 45, 97, 99, 99, 101, 115, 115, 45, 114, 101, 112, 97, 105, 114,
                              45, 118, 49, 0]

  function TypeBits(kind: FileKind): nat {
    match kind
    case Directory => 0x4000
    case Regular => 0x8000
    case SymbolicLink => 0xA000
  }

  function KindName(kind: FileKind): Bytes {
    match kind
    case Directory => [100, 105, 114, 101, 99, 116, 111, 114, 121] // "directory"
    case Regular => [114, 101, 103, 117, 108, 97, 114] // "regular"
    case SymbolicLink => [115, 121, 109, 108, 105, 110, 107] // "symlink"
  }

  function FullMode(m: Metadata): nat {
    TypeBits(m.kind) + m.permissions
  }

  /** The numbers that enter the digest of a node, in their order. */
  function Values(scheme: Scheme, m: Metadata): seq<int> {
    match scheme
    case Plain =>
      [m.device, m.inode, FullMode(m), m.uid, m.links, m.size, m.modified]
      + (if m.kind == SymbolicLink then [m.gid, m.changed] else [])
    case AccessRepair =>
      [m.device, m.inode, TypeBits(m.kind), m.uid, m.gid, m.links, m.size, m.modified]
      + (if m.kind == SymbolicLink then [FullMode(m), m.changed] else [])
  }

  function Lift(b: Bytes): (r: seq<Item>)
    ensures |r| == |b|
  {
    seq(|b|, i requires 0 <= i < |b| => Octet(b[i]))
  }

  predicate Fits(value: Bytes) {
    |value| < Power256(LENGTH_WIDTH)
  }

  /** The length of a field; a length that does not fit has no encoding. */
  function LengthOf(value: Bytes): Bytes {
    if Fits(value) then BigEndian(|value|, LENGTH_WIDTH) else []
  }

  function Field(value: Bytes): seq<Item> {
    Lift(LengthOf(value)) + Lift(value)
  }

  function SealedField(digest: Digest): seq<Item> {
    Lift([0, 0, 0, 0, 0, 0, 0, DIGEST_SIZE]) + [Sealed(digest)]
  }

  function NumberFields(values: seq<int>): seq<Item> {
    if values == [] then [] else Field(Decimal(values[0])) + NumberFields(values[1..])
  }

  function ChildFields(pairs: seq<(Bytes, Digest)>): seq<Item> {
    if pairs == [] then [] else Field(pairs[0].0) + (SealedField(pairs[0].1) + ChildFields(pairs[1..]))
  }

  function TagOf(scheme: Scheme): Bytes {
    if scheme == Plain then PLAIN_TAG else REPAIR_TAG
  }

  function Input(scheme: Scheme, name: Bytes, kind: FileKind, values: seq<int>, pairs: seq<(Bytes, Digest)>)
    : seq<Item>
  {
    Lift(TagOf(scheme)) + (Field(name) + (Field(KindName(kind)) + (NumberFields(values) + ChildFields(pairs))))
  }

  function DigestOf(scheme: Scheme, t: Tree): Digest {
    Sha256(Input(scheme, t.name, t.meta.kind, Values(scheme, t.meta), SortByKey(DigestPairs(scheme, t.children))))
  }

  function DigestPairs(scheme: Scheme, ts: seq<Tree>): seq<(Bytes, Digest)> {
    if ts == [] then [] else [(ts[0].name, DigestOf(scheme, ts[0]))] + DigestPairs(scheme, ts[1..])
  }

  // --- what the digest is about -------------------------------------------------------------

  /** A tree reduced to the fields of a scheme, with its children in the order of their names. */
  datatype Shape = Shape(name: Bytes, kind: FileKind, values: seq<int>, children: seq<Shape>)

  function ShapeOf(scheme: Scheme, t: Tree): Shape {
    Shape(t.name, t.meta.kind, Values(scheme, t.meta), Seconds(SortByKey(ShapePairs(scheme, t.children))))
  }

  function ShapePairs(scheme: Scheme, ts: seq<Tree>): seq<(Bytes, Shape)> {
    if ts == [] then [] else [(ts[0].name, ShapeOf(scheme, ts[0]))] + ShapePairs(scheme, ts[1..])
  }

  function ShapeDigest(scheme: Scheme, s: Shape): Digest {
    Sha256(Input(scheme, s.name, s.kind, s.values, ShapeDigests(scheme, s.children)))
  }

  function ShapeDigests(scheme: Scheme, shapes: seq<Shape>): seq<(Bytes, Digest)> {
    if shapes == [] then [] else [(shapes[0].name, ShapeDigest(scheme, shapes[0]))] + ShapeDigests(scheme, shapes[1..])
  }

  ghost predicate Keyed(s: seq<(Bytes, Shape)>) {
    forall x | x in s :: x.1.name == x.0
  }

  lemma {:induction false} InsertCommutes(scheme: Scheme, x: (Bytes, Shape), s: seq<(Bytes, Shape)>)
    requires Keyed([x] + s)
    ensures Keyed(Insert(x, s))
    ensures ShapeDigests(scheme, Seconds(Insert(x, s)))
            == Insert((x.0, ShapeDigest(scheme, x.1)), ShapeDigests(scheme, Seconds(s)))
  {
    KeyedParts(x, s);
    if s != [] {
      var t := Insert(x, s);
      if Less(s[0].0, x.0) {
        InsertCommutes(scheme, x, s[1..]);
        assert t[1..] == Insert(x, s[1..]);
        KeyedParts(s[0], t[1..]);
      } else {
        assert t == [x] + s && t[1..] == s;
      }
    }
  }

  lemma KeyedParts(x: (Bytes, Shape), s: seq<(Bytes, Shape)>)
    ensures Keyed([x] + s) <==> x.1.name == x.0 && Keyed(s)
    ensures s != [] && Keyed(s) ==> s[0].1.name == s[0].0 && Keyed(s[1..]) && Keyed([x] + s) == Keyed([x] + s[1..])
  {
    assert forall y :: y in [x] + s <==> y == x || y in s;
    if s != [] {
      assert s == [s[0]] + s[1..];
      assert forall y :: y in [x] + s[1..] <==> y == x || y in s[1..];
    }
  }

  lemma {:induction false} SortCommutes(scheme: Scheme, s: seq<(Bytes, Shape)>)
    requires Keyed(s)
    ensures Keyed(SortByKey(s))
    ensures ShapeDigests(scheme, Seconds(SortByKey(s))) == SortByKey(ShapeDigests(scheme, Seconds(s)))
  {
    if s != [] {
      assert s == [s[0]] + s[1..];
      assert Keyed(s[1..]);
      SortCommutes(scheme, s[1..]);
      assert Keyed([s[0]] + SortByKey(s[1..]));
      InsertCommutes(scheme, s[0], SortByKey(s[1..]));
      assert ShapeDigests(scheme, Seconds(s))[1..] == ShapeDigests(scheme, Seconds(s[1..]));
    }
  }

  /** The digest is a function of the shape alone. */
  lemma {:induction false} DigestIsShapeDigest(scheme: Scheme, t: Tree)
    ensures DigestOf(scheme, t) == ShapeDigest(scheme, ShapeOf(scheme, t))
  {
    PairsAreShapePairs(scheme, t.children);
    SortCommutes(scheme, ShapePairs(scheme, t.children));
  }

  lemma {:induction false} PairsAreShapePairs(scheme: Scheme, ts: seq<Tree>)
    ensures Keyed(ShapePairs(scheme, ts))
    ensures DigestPairs(scheme, ts) == ShapeDigests(scheme, Seconds(ShapePairs(scheme, ts)))
  {
    if ts != [] {
      DigestIsShapeDigest(scheme, ts[0]);
      PairsAreShapePairs(scheme, ts[1..]);
      assert ShapePairs(scheme, ts)[1..] == ShapePairs(scheme, ts[1..]);
    }
  }

  // --- equal digests mean equal shapes ------------------------------------------------------

  function Arity(scheme: Scheme, kind: FileKind): nat {
    (if scheme == Plain then 7 else 8) + (if kind == SymbolicLink then 2 else 0)
  }

  predicate NumbersFit(values: seq<int>) {
    values == [] || (Fits(Decimal(values[0])) && NumbersFit(values[1..]))
  }

  /** Every field of every node is short enough for its length to be written down. */
  predicate Encodable(scheme: Scheme, s: Shape)
    decreases s
  {
    && Fits(s.name) && |s.values| == Arity(scheme, s.kind) && NumbersFit(s.values)
    && AllEncodable(scheme, s.children)
  }

  predicate AllEncodable(scheme: Scheme, shapes: seq<Shape>)
    decreases shapes
  {
    shapes == [] || (Encodable(scheme, shapes[0]) && AllEncodable(scheme, shapes[1..]))
  }

  predicate EncodableTree(scheme: Scheme, t: Tree) {
    Fits(t.name) && NumbersFit(Values(scheme, t.meta)) && EncodableTrees(scheme, t.children)
  }

  predicate EncodableTrees(scheme: Scheme, ts: seq<Tree>) {
    ts == [] || (EncodableTree(scheme, ts[0]) && EncodableTrees(scheme, ts[1..]))
  }

  lemma CutLift(a: Bytes, x: seq<Item>, b: Bytes, y: seq<Item>)
    requires |a| == |b| && Lift(a) + x == Lift(b) + y
    ensures a == b && x == y
  {
    CutPrefix(Lift(a), x, Lift(b), y);
    forall i | 0 <= i < |a|
      ensures a[i] == b[i]
    {
      assert Lift(a)[i] == Octet(a[i]) && Lift(b)[i] == Octet(b[i]);
    }
  }

  lemma CutField(a: Bytes, x: seq<Item>, b: Bytes, y: seq<Item>)
    requires Fits(a) && Fits(b) && Field(a) + x == Field(b) + y
    ensures a == b && x == y
  {
    Associate(Lift(LengthOf(a)), Lift(a), x);
    Associate(Lift(LengthOf(b)), Lift(b), y);
    CutLift(LengthOf(a), Lift(a) + x, LengthOf(b), Lift(b) + y);
    BigEndianIsInjective(|a|, |b|, LENGTH_WIDTH);
    CutLift(a, x, b, y);
  }

  lemma CutSealed(d: Digest, x: seq<Item>, e: Digest, y: seq<Item>)
    requires SealedField(d) + x == SealedField(e) + y
    ensures d == e && x == y
  {
    CutPrefix(SealedField(d), x, SealedField(e), y);
    assert SealedField(d)[8] == Sealed(d) && SealedField(e)[8] == Sealed(e);
  }

  lemma {:induction false} CutNumbers(vs: seq<int>, x: seq<Item>, us: seq<int>, y: seq<Item>)
    requires |vs| == |us| && NumbersFit(vs) && NumbersFit(us)
    requires NumberFields(vs) + x == NumberFields(us) + y
    ensures vs == us && x == y
  {
    if vs == [] {
      assert NumberFields(vs) + x == x && NumberFields(us) + y == y;
    } else {
      Associate(Field(Decimal(vs[0])), NumberFields(vs[1..]), x);
      Associate(Field(Decimal(us[0])), NumberFields(us[1..]), y);
      CutField(Decimal(vs[0]), NumberFields(vs[1..]) + x, Decimal(us[0]), NumberFields(us[1..]) + y);
      DecimalIsInjective(vs[0], us[0]);
      CutNumbers(vs[1..], x, us[1..], y);
      assert vs == [vs[0]] + vs[1..] && us == [us[0]] + us[1..];
    }
  }

  predicate NamesFit(pairs: seq<(Bytes, Digest)>) {
    pairs == [] || (Fits(pairs[0].0) && NamesFit(pairs[1..]))
  }

  lemma {:induction false} ChildFieldsAreInjective(p: seq<(Bytes, Digest)>, q: seq<(Bytes, Digest)>)
    requires NamesFit(p) && NamesFit(q) && ChildFields(p) == ChildFields(q)
    ensures p == q
  {
    assert p != [] ==> |ChildFields(p)| > 0;
    assert q != [] ==> |ChildFields(q)| > 0;
    if p != [] {
      CutField(p[0].0, SealedField(p[0].1) + ChildFields(p[1..]), q[0].0, SealedField(q[0].1) + ChildFields(q[1..]));
      CutSealed(p[0].1, ChildFields(p[1..]), q[0].1, ChildFields(q[1..]));
      ChildFieldsAreInjective(p[1..], q[1..]);
      assert p == [p[0]] + p[1..] && q == [q[0]] + q[1..];
    }
  }

  lemma KindNamesDiffer(k: FileKind, l: FileKind)
    ensures KindName(k) == KindName(l) ==> k == l
    ensures Fits(KindName(k))
  {
    assert KindName(k)[0] == KindName(l)[0] ==> k == l;
    SmallFits(KindName(k));
  }

  lemma SmallFits(b: Bytes)
    requires |b| < 0x100
    ensures Fits(b)
  {
    assert Power256(1) == 0x100 * Power256(0);
    assert Power256(2) == 0x100 * Power256(1);
    assert Power256(3) == 0x100 * Power256(2);
    assert Power256(4) == 0x100 * Power256(3);
    assert Power256(5) == 0x100 * Power256(4);
    assert Power256(6) == 0x100 * Power256(5);
    assert Power256(7) == 0x100 * Power256(6);
    assert Power256(8) == 0x100 * Power256(7);
  }

  lemma InputIsInjective(scheme: Scheme, n: Bytes, k: FileKind, vs: seq<int>, p: seq<(Bytes, Digest)>,
                         m: Bytes, l: FileKind, us: seq<int>, q: seq<(Bytes, Digest)>)
    requires Fits(n) && |vs| == Arity(scheme, k) && NumbersFit(vs) && NamesFit(p)
    requires Fits(m) && |us| == Arity(scheme, l) && NumbersFit(us) && NamesFit(q)
    requires Input(scheme, n, k, vs, p) == Input(scheme, m, l, us, q)
    ensures n == m && k == l && vs == us && p == q
  {
    var x, y := NumberFields(vs) + ChildFields(p), NumberFields(us) + ChildFields(q);
    CutPrefix(Lift(TagOf(scheme)), Field(n) + (Field(KindName(k)) + x), Lift(TagOf(scheme)),
              Field(m) + (Field(KindName(l)) + y));
    CutField(n, Field(KindName(k)) + x, m, Field(KindName(l)) + y);
    KindNamesDiffer(k, l);
    KindNamesDiffer(l, k);
    CutField(KindName(k), x, KindName(l), y);
    CutNumbers(vs, ChildFields(p), us, ChildFields(q));
    ChildFieldsAreInjective(p, q);
  }

  lemma {:induction false} ShapeDigestIsInjective(scheme: Scheme, s: Shape, r: Shape)
    requires Encodable(scheme, s) && Encodable(scheme, r)
    requires ShapeDigest(scheme, s) == ShapeDigest(scheme, r)
    ensures s == r
    decreases s
  {
    DigestNamesFit(scheme, s.children);
    DigestNamesFit(scheme, r.children);
    InputIsInjective(scheme, s.name, s.kind, s.values, ShapeDigests(scheme, s.children),
                     r.name, r.kind, r.values, ShapeDigests(scheme, r.children));
    ShapeDigestsAreInjective(scheme, s.children, r.children);
  }

  lemma ShapeDigestsByElement(scheme: Scheme, s: seq<Shape>)
    ensures s == [] <==> ShapeDigests(scheme, s) == []
    ensures s != [] ==> ShapeDigests(scheme, s)[0] == (s[0].name, ShapeDigest(scheme, s[0]))
    ensures s != [] ==> ShapeDigests(scheme, s)[1..] == ShapeDigests(scheme, s[1..])
  {
  }

  lemma {:induction false} ShapeDigestsAreInjective(scheme: Scheme, s: seq<Shape>, r: seq<Shape>)
    requires AllEncodable(scheme, s) && AllEncodable(scheme, r)
    requires ShapeDigests(scheme, s) == ShapeDigests(scheme, r)
    ensures s == r
    decreases s
  {
    ShapeDigestsByElement(scheme, s);
    ShapeDigestsByElement(scheme, r);
    if s != [] {
      ShapeDigestIsInjective(scheme, s[0], r[0]);
      ShapeDigestsAreInjective(scheme, s[1..], r[1..]);
      assert s == [s[0]] + s[1..] && r == [r[0]] + r[1..];
    }
  }

  lemma {:induction false} DigestNamesFit(scheme: Scheme, shapes: seq<Shape>)
    requires AllEncodable(scheme, shapes)
    ensures NamesFit(ShapeDigests(scheme, shapes))
  {
    if shapes != [] {
      DigestNamesFit(scheme, shapes[1..]);
      assert ShapeDigests(scheme, shapes)[1..] == ShapeDigests(scheme, shapes[1..]);
    }
  }

  lemma {:induction false} InsertKeepsEncodable(scheme: Scheme, x: (Bytes, Shape), s: seq<(Bytes, Shape)>)
    requires Encodable(scheme, x.1) && AllEncodable(scheme, Seconds(s))
    ensures AllEncodable(scheme, Seconds(Insert(x, s)))
  {
    if s != [] {
      assert Seconds(s)[1..] == Seconds(s[1..]);
      InsertKeepsEncodable(scheme, x, s[1..]);
      var t := Insert(x, s);
      assert Seconds(t)[1..] == Seconds(t[1..]);
      assert t[1..] == if Less(s[0].0, x.0) then Insert(x, s[1..]) else s;
    }
  }

  lemma {:induction false} SortKeepsEncodable(scheme: Scheme, s: seq<(Bytes, Shape)>)
    requires AllEncodable(scheme, Seconds(s))
    ensures AllEncodable(scheme, Seconds(SortByKey(s)))
  {
    if s != [] {
      assert Seconds(s)[1..] == Seconds(s[1..]);
      SortKeepsEncodable(scheme, s[1..]);
      InsertKeepsEncodable(scheme, s[0], SortByKey(s[1..]));
    }
  }

  lemma {:induction false} ShapeOfIsEncodable(scheme: Scheme, t: Tree)
    requires EncodableTree(scheme, t)
    ensures Encodable(scheme, ShapeOf(scheme, t))
  {
    ShapePairsAreEncodable(scheme, t.children);
    SortKeepsEncodable(scheme, ShapePairs(scheme, t.children));
  }

  lemma {:induction false} ShapePairsAreEncodable(scheme: Scheme, ts: seq<Tree>)
    requires EncodableTrees(scheme, ts)
    ensures AllEncodable(scheme, Seconds(ShapePairs(scheme, ts)))
  {
    if ts != [] {
      ShapeOfIsEncodable(scheme, ts[0]);
      ShapePairsAreEncodable(scheme, ts[1..]);
      var pairs := ShapePairs(scheme, ts);
      assert pairs[1..] == ShapePairs(scheme, ts[1..]);
      assert Seconds(pairs)[1..] == Seconds(pairs[1..]);
    }
  }

  /**
   The digest is a Merkle identity: two trees have the same digest exactly if they agree, node by node and
   child by child in the order of their names, on all fields of the scheme.
   */
  lemma DigestIsMerkleIdentity(scheme: Scheme, t: Tree, u: Tree)
    requires EncodableTree(scheme, t) && EncodableTree(scheme, u)
    ensures DigestOf(scheme, t) == DigestOf(scheme, u) <==> ShapeOf(scheme, t) == ShapeOf(scheme, u)
  {
    DigestIsShapeDigest(scheme, t);
    DigestIsShapeDigest(scheme, u);
    if DigestOf(scheme, t) == DigestOf(scheme, u) {
      ShapeOfIsEncodable(scheme, t);
      ShapeOfIsEncodable(scheme, u);
      ShapeDigestIsInjective(scheme, ShapeOf(scheme, t), ShapeOf(scheme, u));
    }
  }

  /** In whatever order a directory lists its entries, its digest is the same. */
  lemma ListingOrderIsIrrelevant(scheme: Scheme, name: Bytes, meta: Metadata, ts: seq<Tree>, us: seq<Tree>)
    requires DistinctKeys(DigestPairs(scheme, ts)) && DistinctKeys(DigestPairs(scheme, us))
    requires forall y :: y in DigestPairs(scheme, ts) <==> y in DigestPairs(scheme, us)
    ensures DigestOf(scheme, Tree(name, meta, ts)) == DigestOf(scheme, Tree(name, meta, us))
  {
    SortForgetsOrder(DigestPairs(scheme, ts), DigestPairs(scheme, us));
  }

  /** The changes that an operation may make to a single entry without moving the digest of the scheme. */
  predicate MayChangeTo(scheme: Scheme, m: Metadata, n: Metadata) {
    if m.kind == SymbolicLink then n == m
    else match scheme
      case Plain => n == m.(gid := n.gid, changed := n.changed)
      case AccessRepair => n == m.(permissions := n.permissions, changed := n.changed)
  }

  predicate TreeMayChangeTo(scheme: Scheme, t: Tree, u: Tree) {
    t.name == u.name && MayChangeTo(scheme, t.meta, u.meta) && TreesMayChangeTo(scheme, t.children, u.children)
  }

  predicate TreesMayChangeTo(scheme: Scheme, ts: seq<Tree>, us: seq<Tree>) {
    |ts| == |us| && (ts == [] || (TreeMayChangeTo(scheme, ts[0], us[0]) && TreesMayChangeTo(scheme, ts[1..], us[1..])))
  }

  /** Publishing a tree to a group keeps the plain digest, and converging access rights keeps the repair digest. */
  lemma {:induction false} AllowedChangesKeepDigest(scheme: Scheme, t: Tree, u: Tree)
    requires TreeMayChangeTo(scheme, t, u)
    ensures DigestOf(scheme, t) == DigestOf(scheme, u)
    decreases t
  {
    AllowedChangesKeepPairs(scheme, t.children, u.children);
  }

  lemma {:induction false} AllowedChangesKeepPairs(scheme: Scheme, ts: seq<Tree>, us: seq<Tree>)
    requires TreesMayChangeTo(scheme, ts, us)
    ensures DigestPairs(scheme, ts) == DigestPairs(scheme, us)
    decreases ts
  {
    if ts != [] {
      AllowedChangesKeepDigest(scheme, ts[0], us[0]);
      AllowedChangesKeepPairs(scheme, ts[1..], us[1..]);
    }
  }

  /** Two states of one tree: the same names in the same places, each once. */
  ghost predicate SameListing(scheme: Scheme, t: Tree, u: Tree)
    decreases t
  {
    && t.name == u.name
    && DistinctKeys(DigestPairs(scheme, t.children)) && DistinctKeys(DigestPairs(scheme, u.children))
    && SameListings(scheme, t.children, u.children)
  }

  ghost predicate SameListings(scheme: Scheme, ts: seq<Tree>, us: seq<Tree>)
    decreases ts
  {
    |ts| == |us| && (ts == [] || (SameListing(scheme, ts[0], us[0]) && SameListings(scheme, ts[1..], us[1..])))
  }

  predicate PermissionsFit(t: Tree) {
    t.meta.permissions < 0x1000 && AllPermissionsFit(t.children)
  }

  predicate AllPermissionsFit(ts: seq<Tree>) {
    ts == [] || (PermissionsFit(ts[0]) && AllPermissionsFit(ts[1..]))
  }

  /** The digest stays exactly if nothing but allowed changes happened anywhere in the tree. */
  lemma {:induction false} DigestStaysIffAllowed(scheme: Scheme, t: Tree, u: Tree)
    requires EncodableTree(scheme, t) && EncodableTree(scheme, u) && PermissionsFit(t) && PermissionsFit(u)
    requires SameListing(scheme, t, u)
    ensures DigestOf(scheme, t) == DigestOf(scheme, u) <==> TreeMayChangeTo(scheme, t, u)
    decreases t, 1
  {
    if DigestOf(scheme, t) == DigestOf(scheme, u) {
      var p, q := DigestPairs(scheme, t.children), DigestPairs(scheme, u.children);
      PairNamesFit(scheme, t.children);
      PairNamesFit(scheme, u.children);
      SortKeepsNamesFit(p);
      SortKeepsNamesFit(q);
      InputIsInjective(scheme, t.name, t.meta.kind, Values(scheme, t.meta), SortByKey(p),
                       u.name, u.meta.kind, Values(scheme, u.meta), SortByKey(q));
      EqualValuesAllow(scheme, t.meta, u.meta);
      SortForgetsOrder(p, q);
      ListingNames(scheme, t.children, u.children);
      SameKeysSameElements(p, q);
      EqualPairsAllow(scheme, t.children, u.children);
    }
    if TreeMayChangeTo(scheme, t, u) {
      AllowedChangesKeepDigest(scheme, t, u);
    }
  }

  lemma {:induction false} EqualPairsAllow(scheme: Scheme, ts: seq<Tree>, us: seq<Tree>)
    requires EncodableTrees(scheme, ts) && EncodableTrees(scheme, us) && AllPermissionsFit(ts) && AllPermissionsFit(us)
    requires SameListings(scheme, ts, us) && DigestPairs(scheme, ts) == DigestPairs(scheme, us)
    ensures TreesMayChangeTo(scheme, ts, us)
    decreases ts, 0
  {
    if ts != [] {
      var p, q := DigestPairs(scheme, ts), DigestPairs(scheme, us);
      assert p[0] == q[0] && p[1..] == DigestPairs(scheme, ts[1..]) && q[1..] == DigestPairs(scheme, us[1..]);
      DigestStaysIffAllowed(scheme, ts[0], us[0]);
      EqualPairsAllow(scheme, ts[1..], us[1..]);
    }
  }

  lemma EqualValuesAllow(scheme: Scheme, m: Metadata, n: Metadata)
    requires m.kind == n.kind && Values(scheme, m) == Values(scheme, n)
    requires m.permissions < 0x1000 && n.permissions < 0x1000
    ensures MayChangeTo(scheme, m, n)
  {
    var v, w := Values(scheme, m), Values(scheme, n);
    assert v[0] == w[0] && v[1] == w[1] && v[2] == w[2] && v[3] == w[3] && v[4] == w[4] && v[5] == w[5] && v[6] == w[6];
    assert scheme == AccessRepair ==> v[7] == w[7];
    if m.kind == SymbolicLink {
      assert v[|v| - 2] == w[|w| - 2] && v[|v| - 1] == w[|w| - 1];
    }
  }

  lemma {:induction false} PairNamesFit(scheme: Scheme, ts: seq<Tree>)
    requires EncodableTrees(scheme, ts)
    ensures NamesFit(DigestPairs(scheme, ts))
  {
    if ts != [] {
      PairNamesFit(scheme, ts[1..]);
      assert DigestPairs(scheme, ts)[1..] == DigestPairs(scheme, ts[1..]);
    }
  }

  lemma {:induction false} SortKeepsNamesFit(s: seq<(Bytes, Digest)>)
    requires NamesFit(s)
    ensures NamesFit(SortByKey(s))
  {
    if s != [] {
      SortKeepsNamesFit(s[1..]);
      InsertKeepsNamesFit(s[0], SortByKey(s[1..]));
    }
  }

  lemma {:induction false} InsertKeepsNamesFit(x: (Bytes, Digest), s: seq<(Bytes, Digest)>)
    requires Fits(x.0) && NamesFit(s)
    ensures NamesFit(Insert(x, s))
  {
    if s != [] {
      InsertKeepsNamesFit(x, s[1..]);
      assert Insert(x, s)[1..] == if Less(s[0].0, x.0) then Insert(x, s[1..]) else s;
    }
  }

  ghost predicate SameKeys(p: seq<(Bytes, Digest)>, q: seq<(Bytes, Digest)>) {
    |p| == |q| && (p == [] || (p[0].0 == q[0].0 && SameKeys(p[1..], q[1..])))
  }

  lemma {:induction false} ListingNames(scheme: Scheme, ts: seq<Tree>, us: seq<Tree>)
    requires SameListings(scheme, ts, us)
    ensures SameKeys(DigestPairs(scheme, ts), DigestPairs(scheme, us))
    decreases ts
  {
    if ts != [] {
      ListingNames(scheme, ts[1..], us[1..]);
      assert DigestPairs(scheme, ts)[1..] == DigestPairs(scheme, ts[1..]);
      assert DigestPairs(scheme, us)[1..] == DigestPairs(scheme, us[1..]);
    }
  }

  lemma {:induction false} SameKeysSameElements(p: seq<(Bytes, Digest)>, q: seq<(Bytes, Digest)>)
    requires SameKeys(p, q) && DistinctKeys(p) && DistinctKeys(q)
    requires forall y :: y in p <==> y in q
    ensures p == q
  {
    if p != [] {
      assert p == [p[0]] + p[1..] && q == [q[0]] + q[1..];
      assert p[0] in q && q[0] in p;
      forall y
        ensures y in p[1..] <==> y in q[1..]
      {
        assert y in p <==> y == p[0] || y in p[1..];
        assert y in q <==> y == q[0] || y in q[1..];
      }
      SameKeysSameElements(p[1..], q[1..]);
    }
  }

  // --- the digest as it is computed ---------------------------------------------------------

  /** One running hash, fed field by field. */
  method EntryDigest(scheme: Scheme, name: Bytes, meta: Metadata, children: seq<(Bytes, Digest)>)
    returns (digest: Digest)
    ensures digest == Sha256(Input(scheme, name, meta.kind, Values(scheme, meta), children))
  {
    var fed := Lift(TagOf(scheme));
    fed := fed + Field(name);
    fed := fed + Field(KindName(meta.kind));
    ghost var head := fed;
    var values := Values(scheme, meta);
    var i := 0;
    while i < |values|
      invariant 0 <= i <= |values|
      invariant head + NumberFields(values) == fed + NumberFields(values[i..])
    {
      Associate(fed, Field(Decimal(values[i])), NumberFields(values[i + 1..]));
      assert values[i..][1..] == values[i + 1..];
      fed := fed + Field(Decimal(values[i]));
      i := i + 1;
    }
    assert fed == head + NumberFields(values);
    ghost var middle := fed;
    i := 0;
    while i < |children|
      invariant 0 <= i <= |children|
      invariant middle + ChildFields(children) == fed + ChildFields(children[i..])
    {
      Associate(fed, Field(children[i].0), SealedField(children[i].1) + ChildFields(children[i + 1..]));
      Associate(fed + Field(children[i].0), SealedField(children[i].1), ChildFields(children[i + 1..]));
      assert children[i..][1..] == children[i + 1..];
      fed := fed + Field(children[i].0);
      fed := fed + SealedField(children[i].1);
      i := i + 1;
    }
    assert fed == middle + ChildFields(children);
    InputFromLeft(scheme, name, meta.kind, values, children);
    digest := Sha256(fed);
  }

  lemma InputFromLeft(scheme: Scheme, name: Bytes, kind: FileKind, values: seq<int>, pairs: seq<(Bytes, Digest)>)
    ensures Lift(TagOf(scheme)) + Field(name) + Field(KindName(kind)) + NumberFields(values) + ChildFields(pairs)
            == Input(scheme, name, kind, values, pairs)
  {
    var tag, a, b := Lift(TagOf(scheme)), Field(name), Field(KindName(kind));
    var c, d := NumberFields(values), ChildFields(pairs);
    Associate(tag + a + b, c, d);
    Associate(tag + a, b, c + d);
    Associate(tag, a, b + (c + d));
  }
}
