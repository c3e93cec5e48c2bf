/** The manifests of a rollback bundle: independent of the order of the payloads and of the attempt they lie under. */
module RollbackPayloads {
  import opened Wrappers
  import opened Framing
  import opened Ordering

  datatype Category = Systemd | Configuration | Receipt

  datatype Role =
    | SystemdUnit | SystemdDropIn | SystemdSocketUnit
    | RuntimeConfiguration | RuntimeEnvironment
    | DeploymentReceipt | GenerationReceipt

  datatype IdentityKind = PublicSha256 | HmacSha256 | CiphertextSha256

  /** A relative path is kept as the list of its components. */
  datatype Payload = Payload(
    category: Category,
    role: Role,
    targetKey: Bytes,
    path: seq<Bytes>,
    identityKind: IdentityKind,
    identity: nat,
    context: Option<nat>,
    mode: nat,
    uid: nat,
    gid: nat)

  const SLASH: byte := 47
  const NUL: byte := 0
  const MAX_PAYLOADS: nat := 256

  // "rollback-bundles" and "protected"
  const BUNDLES: Bytes := [114, 111, 108, 108, 98, 97, 99, 107, 45, 98, 117, 110, 100, 108, 101, 115]
  const PROTECTED: Bytes := [112, 114, 111, 116, 101, 99, 116, 101, 100]

  function CategoryName(c: Category): Bytes {
    match c
    case Systemd => [115, 121, 115, 116, 101, 109, 100]
    case Configuration => [99, 111, 110, 102, 105, 103, 117, 114, 97, 116, 105, 111, 110]
    case Receipt => [114, 101, 99, 101, 105, 112, 116]
  }

  function RolesOf(c: Category): set<Role> {
    match c
    case Systemd => {SystemdUnit, SystemdDropIn, SystemdSocketUnit}
    case Configuration => {RuntimeConfiguration, RuntimeEnvironment}
    case Receipt => {DeploymentReceipt, GenerationReceipt}
  }

  predicate KeyCharacter(b: byte) {
    97 <= b <= 122 || 48 <= b <= 57 || b == 46 || b == 95 || b == 64 || b == 45
  }

  predicate IsComponent(c: Bytes) {
    c != [] && SLASH !in c
  }

  predicate InNamespace(path: seq<Bytes>, c: Category) {
    && |path| >= 5 && path[0] == BUNDLES && path[2] == PROTECTED && path[3] == CategoryName(c)
    && (forall i | 0 <= i < |path| :: IsComponent(path[i]))
  }

  /** What the constructor of a payload accepts. */
  predicate Valid(p: Payload) {
    && p.role in RolesOf(p.category)
    && p.targetKey != [] && (forall b | b in p.targetKey :: KeyCharacter(b))
    && InNamespace(p.path, p.category)
    && (p.identityKind == PublicSha256 <==> p.context.None?)
    && (p.category == Configuration ==> p.identityKind != PublicSha256)
    && p.mode == (if p.category == Systemd then 0x1A4 else 0x180) // 0o644 and 0o600
    && p.uid == 0 && p.gid == 0
  }

  function Join(components: seq<Bytes>): Bytes {
    if components == [] then []
    else if |components| == 1 then components[0]
    else components[0] + [SLASH] + Join(components[1..])
  }

  /** A payload without the part of its path that names the attempt. */
  datatype Erased = Erased(payload: Payload)

  function Erase(p: Payload): Erased
    requires Valid(p)
  {
    Erased(p.(path := p.path[4..]))
  }

  /** A row of a manifest. */
  datatype Row = Row(
    category: Category,
    role: Role,
    targetKey: Bytes,
    protectedName: Bytes,
    identityKind: IdentityKind,
    identity: nat,
    context: Option<nat>,
    mode: nat,
    uid: nat,
    gid: nat)

  function RowOf(p: Payload): Row
    requires Valid(p)
  {
    Row(p.category, p.role, p.targetKey, Join(p.path[4..]), p.identityKind, p.identity, p.context, p.mode, p.uid, p.gid)
  }

  /** The key that a manifest is sorted by; see KeysOrderByTargetThenName. */
  function KeyOf(r: Row): Bytes {
    r.targetKey + [NUL] + r.protectedName
  }

  predicate AllValid(g: seq<Payload>) {
    forall i | 0 <= i < |g| :: Valid(g[i])
  }

  function Rows(g: seq<Payload>): seq<(Bytes, Row)>
    requires AllValid(g)
  {
    if g == [] then [] else [(KeyOf(RowOf(g[0])), RowOf(g[0]))] + Rows(g[1..])
  }

  function ManifestProjection(g: seq<Payload>): seq<Row>
    requires AllValid(g)
  {
    Seconds(SortByKey(Rows(g)))
  }

  predicate DistinctTargets(g: seq<Payload>) {
    g == [] || ((forall i | 1 <= i < |g| :: g[i].targetKey != g[0].targetKey) && DistinctTargets(g[1..]))
  }

  predicate SortedByPath(g: seq<Payload>) {
    forall i | 0 < i < |g| :: !Less(Join(g[i].path), Join(g[i - 1].path))
  }

  predicate IsPayloadGroup(g: seq<Payload>, category: Category, attempt: Bytes) {
    && g != [] && |g| <= MAX_PAYLOADS && AllValid(g)
    && (forall i | 0 <= i < |g| :: g[i].category == category && g[i].path[1] == attempt)
    && SortedByPath(g)
    && DistinctTargets(g)
  }

  // --- joined paths -------------------------------------------------------------------------

  lemma {:induction false} JoinIsInjective(a: seq<Bytes>, b: seq<Bytes>)
    requires forall i | 0 <= i < |a| :: IsComponent(a[i])
    requires forall i | 0 <= i < |b| :: IsComponent(b[i])
    requires Join(a) == Join(b)
    ensures a == b
  {
    if a == [] || b == [] {
      assert a != [] ==> Join(a) != [];
      assert b != [] ==> Join(b) != [];
    } else if |a| == 1 || |b| == 1 {
      SlashIffSeveral(a);
      SlashIffSeveral(b);
      assert a == [a[0]] && b == [b[0]];
    } else {
      CutAtTerminator(a[0], Join(a[1..]), b[0], Join(b[1..]), SLASH);
      JoinIsInjective(a[1..], b[1..]);
      assert a == [a[0]] + a[1..] && b == [b[0]] + b[1..];
    }
  }

  lemma SlashIffSeveral(a: seq<Bytes>)
    requires a != [] && IsComponent(a[0])
    ensures SLASH in Join(a) <==> |a| > 1
  {
  }

  /** A row says as much about a payload as the payload without its attempt. */
  lemma RowIsErased(p: Payload, q: Payload)
    requires Valid(p) && Valid(q)
    ensures RowOf(p) == RowOf(q) <==> Erase(p) == Erase(q)
  {
    if RowOf(p) == RowOf(q) {
      JoinIsInjective(p.path[4..], q.path[4..]);
    }
  }

  lemma KeysTellTargets(p: Payload, q: Payload)
    requires Valid(p) && Valid(q) && KeyOf(RowOf(p)) == KeyOf(RowOf(q))
    ensures p.targetKey == q.targetKey
  {
    CutAtTerminator(p.targetKey, Join(p.path[4..]), q.targetKey, Join(q.path[4..]), NUL);
  }

  predicate TargetThenName(r: Row, s: Row) {
    Less(r.targetKey, s.targetKey) || (r.targetKey == s.targetKey && Less(r.protectedName, s.protectedName))
  }

  /** Sorting by the joined key is sorting by target key and then by protected name, as no target key has a NUL. */
  lemma KeysOrderByTargetThenName(p: Payload, q: Payload)
    requires Valid(p) && Valid(q)
    ensures Less(KeyOf(RowOf(p)), KeyOf(RowOf(q))) <==> TargetThenName(RowOf(p), RowOf(q))
  {
    TerminatedOrder(p.targetKey, Join(p.path[4..]), q.targetKey, Join(q.path[4..]));
  }

  lemma {:induction false} TerminatedOrder(a: Bytes, x: Bytes, b: Bytes, y: Bytes)
    requires NUL !in a && NUL !in b
    ensures Less(a + [NUL] + x, b + [NUL] + y) <==> Less(a, b) || (a == b && Less(x, y))
  {
    if a == [] || b == [] {
      assert a == [] ==> (a + [NUL] + x)[0] == NUL && (a + [NUL] + x)[1..] == x;
      assert b == [] ==> (b + [NUL] + y)[0] == NUL && (b + [NUL] + y)[1..] == y;
      assert a != [] ==> (a + [NUL] + x)[0] == a[0];
      assert b != [] ==> (b + [NUL] + y)[0] == b[0];
    } else {
      assert (a + [NUL] + x)[0] == a[0] && (a + [NUL] + x)[1..] == a[1..] + [NUL] + x;
      assert (b + [NUL] + y)[0] == b[0] && (b + [NUL] + y)[1..] == b[1..] + [NUL] + y;
      TerminatedOrder(a[1..], x, b[1..], y);
      assert a == b <==> a[0] == b[0] && a[1..] == b[1..] by {
        assert a == [a[0]] + a[1..] && b == [b[0]] + b[1..];
      }
    }
  }

  // --- canonical manifests ------------------------------------------------------------------

  lemma {:induction false} RowsAreThoseOf(g: seq<Payload>)
    requires AllValid(g)
    ensures forall x :: x in Rows(g) <==> exists i :: 0 <= i < |g| && x == (KeyOf(RowOf(g[i])), RowOf(g[i]))
  {
    if g != [] {
      RowsAreThoseOf(g[1..]);
      forall x
        ensures x in Rows(g) <==> exists i :: 0 <= i < |g| && x == (KeyOf(RowOf(g[i])), RowOf(g[i]))
      {
        if x in Rows(g[1..]) {
          var i :| 0 <= i < |g[1..]| && x == (KeyOf(RowOf(g[1..][i])), RowOf(g[1..][i]));
          assert g[i + 1] == g[1..][i];
        }
        if i :| 0 < i < |g| && x == (KeyOf(RowOf(g[i])), RowOf(g[i])) {
          assert g[1..][i - 1] == g[i];
        }
      }
    }
  }

  lemma {:induction false} DistinctTargetsGiveDistinctKeys(g: seq<Payload>)
    requires AllValid(g) && DistinctTargets(g)
    ensures DistinctKeys(Rows(g))
  {
    if g != [] {
      DistinctTargetsGiveDistinctKeys(g[1..]);
      RowsAreThoseOf(g[1..]);
      forall x | x in Rows(g[1..])
        ensures x.0 != KeyOf(RowOf(g[0]))
      {
        var i :| 0 <= i < |g[1..]| && x == (KeyOf(RowOf(g[1..][i])), RowOf(g[1..][i]));
        assert g[i + 1] == g[1..][i];
        if x.0 == KeyOf(RowOf(g[0])) {
          KeysTellTargets(g[i + 1], g[0]);
        }
      }
      assert Rows(g)[1..] == Rows(g[1..]);
    }
  }

  ghost predicate KeyedByRow(s: seq<(Bytes, Row)>) {
    forall x | x in s :: x.0 == KeyOf(x.1)
  }

  lemma {:induction false} RowsTellKeys(s: seq<(Bytes, Row)>, t: seq<(Bytes, Row)>)
    requires KeyedByRow(s) && KeyedByRow(t)
    requires Seconds(s) == Seconds(t)
    ensures s == t
  {
    assert s != [] ==> |Seconds(s)| > 0;
    assert t != [] ==> |Seconds(t)| > 0;
    if s != [] {
      assert Seconds(s)[0] == s[0].1 && Seconds(t)[0] == t[0].1;
      assert s[0] in s && t[0] in t;
      assert Seconds(s)[1..] == Seconds(s[1..]) && Seconds(t)[1..] == Seconds(t[1..]);
      assert forall x | x in s[1..] :: x in s;
      assert forall x | x in t[1..] :: x in t;
      RowsTellKeys(s[1..], t[1..]);
      assert s == [s[0]] + s[1..] && t == [t[0]] + t[1..];
    }
  }

  /** The payloads of a group without their attempts. */
  function ErasedSet(g: seq<Payload>): set<Erased>
    requires AllValid(g)
  {
    if g == [] then {} else {Erase(g[0])} + ErasedSet(g[1..])
  }

  lemma {:induction false} RowIsHeldIffErased(p: Payload, h: seq<Payload>)
    requires Valid(p) && AllValid(h)
    ensures (KeyOf(RowOf(p)), RowOf(p)) in Rows(h) <==> Erase(p) in ErasedSet(h)
  {
    if h != [] {
      RowIsErased(h[0], p);
      RowIsHeldIffErased(p, h[1..]);
    }
  }

  lemma {:induction false} RowsWithin(g: seq<Payload>, h: seq<Payload>)
    requires AllValid(g) && AllValid(h)
    ensures (forall x | x in Rows(g) :: x in Rows(h)) <==> ErasedSet(g) <= ErasedSet(h)
  {
    if g != [] {
      RowIsHeldIffErased(g[0], h);
      RowsWithin(g[1..], h);
      assert forall x :: x in Rows(g) <==> x == (KeyOf(RowOf(g[0])), RowOf(g[0])) || x in Rows(g[1..]);
    }
  }

  /**
   Two groups have the same manifest exactly if they hold the same payloads, whatever attempt they lie under and
   in whatever order they are given.
   */
  lemma ManifestIsCanonical(g: seq<Payload>, h: seq<Payload>)
    requires AllValid(g) && AllValid(h) && DistinctTargets(g) && DistinctTargets(h)
    ensures ManifestProjection(g) == ManifestProjection(h) <==> ErasedSet(g) == ErasedSet(h)
  {
    DistinctTargetsGiveDistinctKeys(g);
    DistinctTargetsGiveDistinctKeys(h);
    SortForgetsOrder(Rows(g), Rows(h));
    SortAscends(Rows(g));
    SortAscends(Rows(h));
    RowsAreThoseOf(g);
    RowsAreThoseOf(h);
    if ManifestProjection(g) == ManifestProjection(h) {
      RowsTellKeys(SortByKey(Rows(g)), SortByKey(Rows(h)));
    }
    RowsWithin(g, h);
    RowsWithin(h, g);
  }

  /** The two authoritative manifests of a bundle, as far as they are hashed. */
  datatype ManifestDigest =
    | SystemdReceiptSha(receipts: seq<Row>, systemd: seq<Row>)
    | ConfigurationSha(configuration: seq<Row>)

  function SystemdReceiptManifest(systemd: seq<Payload>, receipts: seq<Payload>): ManifestDigest
    requires AllValid(systemd) && AllValid(receipts)
  {
    SystemdReceiptSha(ManifestProjection(receipts), ManifestProjection(systemd))
  }

  function ConfigurationManifest(configuration: seq<Payload>): ManifestDigest
    requires AllValid(configuration)
  {
    ConfigurationSha(ManifestProjection(configuration))
  }

  /** The systemd and receipt digest determines both groups up to their attempt. */
  lemma SystemdReceiptDigestIsCanonical(systemd: seq<Payload>, receipts: seq<Payload>, attempt: Bytes,
                                        systemd': seq<Payload>, receipts': seq<Payload>, attempt': Bytes)
    requires IsPayloadGroup(systemd, Systemd, attempt) && IsPayloadGroup(systemd', Systemd, attempt')
    requires IsPayloadGroup(receipts, Receipt, attempt) && IsPayloadGroup(receipts', Receipt, attempt')
    ensures SystemdReceiptManifest(systemd, receipts) == SystemdReceiptManifest(systemd', receipts') <==>
            ErasedSet(systemd) == ErasedSet(systemd') && ErasedSet(receipts) == ErasedSet(receipts')
  {
    ManifestIsCanonical(systemd, systemd');
    ManifestIsCanonical(receipts, receipts');
  }

  lemma ConfigurationDigestIsCanonical(g: seq<Payload>, attempt: Bytes, h: seq<Payload>, attempt': Bytes)
    requires IsPayloadGroup(g, Configuration, attempt) && IsPayloadGroup(h, Configuration, attempt')
    ensures ConfigurationManifest(g) == ConfigurationManifest(h) <==> ErasedSet(g) == ErasedSet(h)
  {
    ManifestIsCanonical(g, h);
  }

  // --- attempts -----------------------------------------------------------------------------

  function MoveTo(p: Payload, attempt: Bytes): Payload
    requires Valid(p)
  {
    p.(path := p.path[1 := attempt])
  }

  function MoveAllTo(g: seq<Payload>, attempt: Bytes): seq<Payload>
    requires AllValid(g)
  {
    if g == [] then [] else [MoveTo(g[0], attempt)] + MoveAllTo(g[1..], attempt)
  }

  lemma MovedRow(p: Payload, attempt: Bytes)
    requires Valid(p) && IsComponent(attempt)
    ensures Valid(MoveTo(p, attempt)) && RowOf(MoveTo(p, attempt)) == RowOf(p)
  {
    assert MoveTo(p, attempt).path[4..] == p.path[4..];
  }

  lemma {:induction false} MovedRows(g: seq<Payload>, attempt: Bytes)
    requires AllValid(g) && IsComponent(attempt)
    ensures AllValid(MoveAllTo(g, attempt)) && Rows(MoveAllTo(g, attempt)) == Rows(g)
  {
    if g != [] {
      MovedRow(g[0], attempt);
      MovedRows(g[1..], attempt);
      assert MoveAllTo(g, attempt)[1..] == MoveAllTo(g[1..], attempt);
    }
  }

  /** Carrying a bundle over to another attempt does not change its manifest. */
  lemma ManifestForgetsAttempt(g: seq<Payload>, attempt: Bytes)
    requires AllValid(g) && IsComponent(attempt)
    ensures AllValid(MoveAllTo(g, attempt)) && ManifestProjection(MoveAllTo(g, attempt)) == ManifestProjection(g)
  {
    MovedRows(g, attempt);
  }

  function ByPath(g: seq<Payload>): seq<(Bytes, Payload)> {
    if g == [] then [] else [(Join(g[0].path), g[0])] + ByPath(g[1..])
  }

  /** No path occurs twice, and no path lies below another. */
  predicate NonConflicting(paths: seq<seq<Bytes>>) {
    forall i, j | 0 <= i < |paths| && 0 <= j < |paths| && i != j :: !(paths[i] <= paths[j])
  }

  function PathsOf(g: seq<Payload>): seq<seq<Bytes>> {
    seq(|g|, i requires 0 <= i < |g| => g[i].path)
  }

  /** Sorted paths that do not conflict ascend strictly. */
  lemma {:induction false} SortedPathsAscend(g: seq<Payload>)
    requires AllValid(g) && SortedByPath(g) && NonConflicting(PathsOf(g))
    ensures Ascending(ByPath(g))
  {
    if |g| > 1 {
      var tail := g[1..];
      assert forall i | 0 <= i < |tail| :: PathsOf(tail)[i] == PathsOf(g)[i + 1];
      SortedPathsAscend(tail);
      PathsDiffer(g[0], g[1], g);
      LessIsTotal(Join(g[0].path), Join(g[1].path));
      assert !Less(Join(g[1].path), Join(g[1 - 1].path));
      forall x | x in ByPath(tail)
        ensures Less(Join(g[0].path), x.0)
      {
        if x in ByPath(tail)[1..] {
          LessIsTransitive(Join(g[0].path), Join(g[1].path), x.0);
        } else {
          assert ByPath(tail) == [ByPath(tail)[0]] + ByPath(tail)[1..];
        }
      }
      assert ByPath(g)[1..] == ByPath(tail);
    }
  }

  lemma PathsDiffer(p: Payload, q: Payload, g: seq<Payload>)
    requires |g| > 1 && p == g[0] && q == g[1] && AllValid(g) && NonConflicting(PathsOf(g))
    ensures Join(p.path) != Join(q.path)
  {
    assert PathsOf(g)[0] == p.path && PathsOf(g)[1] == q.path;
    if Join(p.path) == Join(q.path) {
      JoinIsInjective(p.path, q.path);
    }
  }

  /** Two groups of one attempt with the same manifest and without path conflicts are the same, in the same order. */
  lemma GroupIsDeterminedByManifest(g: seq<Payload>, h: seq<Payload>, category: Category, attempt: Bytes)
    requires IsPayloadGroup(g, category, attempt) && IsPayloadGroup(h, category, attempt)
    requires NonConflicting(PathsOf(g)) && NonConflicting(PathsOf(h))
    requires ManifestProjection(g) == ManifestProjection(h)
    ensures g == h
  {
    SortedPathsAscend(g);
    SortedPathsAscend(h);
    ManifestIsCanonical(g, h);
    PathsWithin(g, h, category, attempt);
    PathsWithin(h, g, category, attempt);
    AscendingIsUnique(ByPath(g), ByPath(h));
    ByPathIsInjective(g, h);
  }

  lemma {:induction false} ByPathIsInjective(g: seq<Payload>, h: seq<Payload>)
    requires ByPath(g) == ByPath(h)
    ensures g == h
  {
    assert g != [] ==> |ByPath(g)| > 0;
    assert h != [] ==> |ByPath(h)| > 0;
    if g != [] && h != [] {
      assert ByPath(g)[0] == ByPath(h)[0] && ByPath(g)[1..] == ByPath(g[1..]) && ByPath(h)[1..] == ByPath(h[1..]);
      ByPathIsInjective(g[1..], h[1..]);
      assert g == [g[0]] + g[1..] && h == [h[0]] + h[1..];
    }
  }

  lemma {:induction false} ByPathElements(g: seq<Payload>)
    ensures forall x :: x in ByPath(g) <==> x.1 in g && x.0 == Join(x.1.path)
  {
    if g != [] {
      ByPathElements(g[1..]);
      assert g == [g[0]] + g[1..];
    }
  }

  lemma PathsWithin(g: seq<Payload>, h: seq<Payload>, category: Category, attempt: Bytes)
    requires IsPayloadGroup(g, category, attempt) && IsPayloadGroup(h, category, attempt)
    requires ErasedSet(g) <= ErasedSet(h)
    ensures forall x | x in ByPath(g) :: x in ByPath(h)
  {
    ByPathElements(g);
    ByPathElements(h);
    forall x | x in ByPath(g)
      ensures x in ByPath(h)
    {
      var i :| 0 <= i < |g| && g[i] == x.1;
      ErasedElement(g, g[i]);
      var q := ErasedSource(h, Erase(g[i]));
      SameAttemptSamePath(g[i], q, category, attempt);
    }
  }

  lemma {:induction false} ErasedElement(g: seq<Payload>, p: Payload)
    requires AllValid(g) && p in g
    ensures Erase(p) in ErasedSet(g)
  {
    if g[0] != p {
      ErasedElement(g[1..], p);
    }
  }

  lemma {:induction false} ErasedSource(g: seq<Payload>, e: Erased) returns (p: Payload)
    requires AllValid(g) && e in ErasedSet(g)
    ensures p in g && Erase(p) == e
  {
    if Erase(g[0]) == e {
      p := g[0];
    } else {
      p := ErasedSource(g[1..], e);
    }
  }

  lemma SameAttemptSamePath(p: Payload, q: Payload, category: Category, attempt: Bytes)
    requires Valid(p) && Valid(q) && p.category == category && q.category == category
    requires p.path[1] == attempt && q.path[1] == attempt && Erase(p) == Erase(q)
    ensures p == q
  {
    assert p.path == p.path[..4] + p.path[4..] && q.path == q.path[..4] + q.path[4..];
    assert p.path[..4] == [BUNDLES, attempt, PROTECTED, CategoryName(category)];
    assert q.path[..4] == [BUNDLES, attempt, PROTECTED, CategoryName(category)];
  }

  // --- conflicting paths --------------------------------------------------------------------

  ghost predicate AllComponents(paths: seq<seq<Bytes>>) {
    forall i | 0 <= i < |paths| :: paths[i] != [] && forall k | 0 <= k < |paths[i]| :: IsComponent(paths[i][k])
  }

  /** The check as it is made, on the paths as strings: all strings differ, and no leading part is among them. */
  method CheckNonConflicting(paths: seq<seq<Bytes>>) returns (ok: bool)
    requires AllComponents(paths)
    ensures ok <==> NonConflicting(paths)
  {
    var strings := set i | 0 <= i < |paths| :: Join(paths[i]);
    ok := true;
    var i := 0;
    while i < |paths|
      invariant 0 <= i <= |paths|
      invariant ok <==> forall a, b | 0 <= a < |paths| && 0 <= b < i && a != b :: !(paths[a] <= paths[b])
    {
      var clash := exists a | 0 <= a < |paths| :: a != i && paths[a] == paths[i];
      var end := 1;
      while end < |paths[i]|
        invariant 1 <= end <= |paths[i]|
        invariant clash <==> exists a | 0 <= a < |paths| ::
                    a != i && paths[a] <= paths[i] && (|paths[a]| < end || |paths[a]| == |paths[i]|)
      {
        LeadingPartIsString(paths, i, end);
        if Join(paths[i][..end]) in strings {
          clash := true;
        }
        end := end + 1;
      }
      ok := ok && !clash;
      i := i + 1;
    }
  }

  lemma LeadingPartIsString(paths: seq<seq<Bytes>>, i: nat, end: nat)
    requires AllComponents(paths) && i < |paths| && 1 <= end < |paths[i]|
    ensures Join(paths[i][..end]) in (set k | 0 <= k < |paths| :: Join(paths[k])) <==>
            exists a :: 0 <= a < |paths| && paths[a] == paths[i][..end]
  {
    if Join(paths[i][..end]) in (set k | 0 <= k < |paths| :: Join(paths[k])) {
      var a :| 0 <= a < |paths| && Join(paths[a]) == Join(paths[i][..end]);
      JoinIsInjective(paths[a], paths[i][..end]);
    }
  }
}
