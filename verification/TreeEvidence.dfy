/** The byte string that the evidence of a migration hashes, and why it determines the tree. */
module TreeEvidence {
  import opened ArtifactAccess
  import opened Framing

  const COLON: byte := 58
  const OPEN: byte := 91
  const CLOSE: byte := 93
  const NUL: byte := 0
  const NAME_WIDTH: nat := 4

  // "runtime-artifact-access-v1" and a NUL
  const TAG: Bytes := [114, 117, 110, 116, 105, 109, 101, 45, 97, 114, 116, 105, 102, 97, 99, 116, 45,
                       97, 99, 99, 101, 115, 115, 45, 118, 49, 0]

  function KindCode(k: Kind): nat {
    match k
    case Directory => 0x4000
    case Regular => 0x8000
    case Symlink => 0xA000
    case Special => 0x2000
  }

  function Values(e: Identity): (r: seq<int>)
    ensures |r| == 10
  {
    [e.device, e.inode, KindCode(e.kind), e.links, e.uid, e.gid, e.mode, e.size, e.modified, e.changed]
  }

  /** Decimals with a colon between them and a NUL after the last. */
  function Joined(vs: seq<int>): Bytes
    requires vs != []
  {
    if |vs| == 1 then Decimal(vs[0]) + [NUL] else Decimal(vs[0]) + [COLON] + Joined(vs[1..])
  }

  /** The length of every name fits its field. */
  predicate Encodable(f: seq<Snapshot>) {
    f == [] || (|f[0].name| < Power256(NAME_WIDTH) && Encodable(f[0].children) && Encodable(f[1..]))
  }

  function Forest(f: seq<Snapshot>): Bytes
    requires Encodable(f)
    decreases f, 1
  {
    Header(|f|) + Nodes(f)
  }

  function Header(n: nat): Bytes {
    [OPEN] + (Decimal(n) + [CLOSE])
  }

  function Nodes(f: seq<Snapshot>): Bytes
    requires Encodable(f)
    decreases f, 0
  {
    if f == [] then [] else Entry(f[0].name, f[0].identity) + Forest(f[0].children) + Nodes(f[1..])
  }

  function Entry(name: Name, e: Identity): Bytes
    requires |name| < Power256(NAME_WIDTH)
  {
    BigEndian(|name|, NAME_WIDTH) + name + Joined(Values(e))
  }

  function EvidenceInput(f: seq<Snapshot>, p: Policy): Bytes
    requires Encodable(f)
  {
    TAG + (Decimal(p.uid) + [COLON] + (Decimal(p.gid) + [NUL] + Forest(f)))
  }

  // --- unique decoding ----------------------------------------------------------------------

  lemma Regroup(a: Bytes, b: Bytes, c: Bytes, x: Bytes)
    ensures a + b + c + x == a + b + (c + x)
    ensures a + b + c + x == a + (b + (c + x))
  {
  }

  lemma {:induction false} CutJoined(vs: seq<int>, x: Bytes, us: seq<int>, y: Bytes)
    requires |vs| == |us| && vs != []
    requires Joined(vs) + x == Joined(us) + y
    ensures vs == us && x == y
  {
    if |vs| == 1 {
      CutDecimal(vs[0], x, us[0], y, NUL);
    } else {
      Regroup(Decimal(vs[0]), [COLON], Joined(vs[1..]), x);
      Regroup(Decimal(us[0]), [COLON], Joined(us[1..]), y);
      CutDecimal(vs[0], Joined(vs[1..]) + x, us[0], Joined(us[1..]) + y, COLON);
      CutJoined(vs[1..], x, us[1..], y);
      assert vs == [vs[0]] + vs[1..] && us == [us[0]] + us[1..];
    }
  }

  lemma ValuesAreInjective(d: Identity, e: Identity)
    requires Values(d) == Values(e)
    ensures d == e
  {
    var v, u := Values(d), Values(e);
    assert v[0] == u[0] && v[1] == u[1] && v[2] == u[2] && v[3] == u[3] && v[4] == u[4];
    assert v[5] == u[5] && v[6] == u[6] && v[7] == u[7] && v[8] == u[8] && v[9] == u[9];
  }

  lemma CutEntry(n: Name, d: Identity, x: Bytes, m: Name, e: Identity, y: Bytes)
    requires |n| < Power256(NAME_WIDTH) && |m| < Power256(NAME_WIDTH)
    requires Entry(n, d) + x == Entry(m, e) + y
    ensures n == m && d == e && x == y
  {
    Regroup(BigEndian(|n|, NAME_WIDTH), n, Joined(Values(d)), x);
    Regroup(BigEndian(|m|, NAME_WIDTH), m, Joined(Values(e)), y);
    CutBigEndian(|n|, n + (Joined(Values(d)) + x), |m|, m + (Joined(Values(e)) + y), NAME_WIDTH);
    CutPrefix(n, Joined(Values(d)) + x, m, Joined(Values(e)) + y);
    CutJoined(Values(d), x, Values(e), y);
    ValuesAreInjective(d, e);
  }

  lemma CutHeader(n: nat, x: Bytes, m: nat, y: Bytes)
    requires Header(n) + x == Header(m) + y
    ensures n == m && x == y
  {
    var a, b := Decimal(n) + [CLOSE] + x, Decimal(m) + [CLOSE] + y;
    assert Header(n) + x == [OPEN] + a && Header(m) + y == [OPEN] + b;
    CutPrefix([OPEN], a, [OPEN], b);
    CutDecimal(n, x, m, y, CLOSE);
  }

  /** The encoding of a forest is cut off in one way only, whatever follows it: no forest is a prefix of another. */
  lemma {:induction false} CutForest(f: seq<Snapshot>, x: Bytes, g: seq<Snapshot>, y: Bytes)
    requires Encodable(f) && Encodable(g)
    requires Forest(f) + x == Forest(g) + y
    ensures f == g && x == y
    decreases f, 1
  {
    Associate(Header(|f|), Nodes(f), x);
    Associate(Header(|g|), Nodes(g), y);
    CutHeader(|f|, Nodes(f) + x, |g|, Nodes(g) + y);
    CutNodes(f, x, g, y);
  }

  lemma {:induction false} CutNodes(f: seq<Snapshot>, x: Bytes, g: seq<Snapshot>, y: Bytes)
    requires Encodable(f) && Encodable(g) && |f| == |g|
    requires Nodes(f) + x == Nodes(g) + y
    ensures f == g && x == y
    decreases f, 0
  {
    if f == [] {
      assert Nodes(f) + x == x && Nodes(g) + y == y;
    } else {
      Regroup(Entry(f[0].name, f[0].identity), Forest(f[0].children), Nodes(f[1..]), x);
      Regroup(Entry(g[0].name, g[0].identity), Forest(g[0].children), Nodes(g[1..]), y);
      CutEntry(f[0].name, f[0].identity, Forest(f[0].children) + (Nodes(f[1..]) + x),
               g[0].name, g[0].identity, Forest(g[0].children) + (Nodes(g[1..]) + y));
      CutForest(f[0].children, Nodes(f[1..]) + x, g[0].children, Nodes(g[1..]) + y);
      CutNodes(f[1..], x, g[1..], y);
      assert f == [f[0]] + f[1..] && g == [g[0]] + g[1..];
    }
  }

  /** Equal evidence means the same service user and the same tree, with the same names and identities. */
  lemma EvidenceDeterminesTree(f: seq<Snapshot>, p: Policy, g: seq<Snapshot>, q: Policy)
    requires Encodable(f) && Encodable(g)
    requires EvidenceInput(f, p) == EvidenceInput(g, q)
    ensures f == g && p.uid == q.uid && p.gid == q.gid
  {
    CutPrefix(TAG, Decimal(p.uid) + [COLON] + (Decimal(p.gid) + [NUL] + Forest(f)),
              TAG, Decimal(q.uid) + [COLON] + (Decimal(q.gid) + [NUL] + Forest(g)));
    CutDecimal(p.uid, Decimal(p.gid) + [NUL] + Forest(f), q.uid, Decimal(q.gid) + [NUL] + Forest(g), COLON);
    CutDecimal(p.gid, Forest(f), q.gid, Forest(g), NUL);
    assert Forest(f) + [] == Forest(g) + [];
    CutForest(f, [], g, []);
  }
}
