/** Byte strings whose parts tell where they end. */
module Framing {
  type byte = x: int | 0 <= x < 0x100

  type Bytes = seq<byte>

  const MINUS: byte := 45

  function Digits(n: nat): (r: Bytes)
    ensures r != [] && forall b | b in r :: 48 <= b < 58
  {
    if n < 10 then [48 + n] else Digits(n / 10) + [48 + n % 10]
  }

  function Decimal(n: int): (r: Bytes)
    ensures forall b | b in r :: 48 <= b < 58 || b == MINUS
  {
    if n < 0 then [MINUS] + Digits(-n) else Digits(n)
  }

  function Power256(width: nat): nat {
    if width == 0 then 1 else 0x100 * Power256(width - 1)
  }

  /** `width` bytes, most significant first. */
  function BigEndian(n: nat, width: nat): (r: Bytes)
    requires n < Power256(width)
    ensures |r| == width
  {
    if width == 0 then [] else BigEndian(n / 0x100, width - 1) + [n % 0x100]
  }

  lemma {:induction false} DigitsAreInjective(a: nat, b: nat)
    requires Digits(a) == Digits(b)
    ensures a == b
  {
    var x, y := Digits(a), Digits(b);
    assert x[|x| - 1] == y[|y| - 1];
    if a >= 10 && b >= 10 {
      assert x[..|x| - 1] == Digits(a / 10) && y[..|y| - 1] == Digits(b / 10);
      DigitsAreInjective(a / 10, b / 10);
    }
  }

  lemma DecimalIsInjective(a: int, b: int)
    requires Decimal(a) == Decimal(b)
    ensures a == b
  {
    assert Decimal(a)[0] == Decimal(b)[0];
    assert Digits(if a < 0 then -a else a)[0] in Digits(if a < 0 then -a else a);
    assert Digits(if b < 0 then -b else b)[0] in Digits(if b < 0 then -b else b);
    if a < 0 {
      assert Decimal(a)[1..] == Digits(-a) && Decimal(b)[1..] == Digits(-b);
      DigitsAreInjective(-a, -b);
    } else {
      DigitsAreInjective(a, b);
    }
  }

  lemma {:induction false} BigEndianIsInjective(a: nat, b: nat, width: nat)
    requires a < Power256(width) && b < Power256(width)
    requires BigEndian(a, width) == BigEndian(b, width)
    ensures a == b
  {
    if width > 0 {
      var x, y := BigEndian(a, width), BigEndian(b, width);
      assert x[..width - 1] == BigEndian(a / 0x100, width - 1) && y[..width - 1] == BigEndian(b / 0x100, width - 1);
      assert x[width - 1] == y[width - 1];
      BigEndianIsInjective(a / 0x100, b / 0x100, width - 1);
    }
  }

  function First(s: Bytes, t: byte): nat {
    if s == [] || s[0] == t then 0 else 1 + First(s[1..], t)
  }

  lemma {:induction false} FirstIsAfter(a: Bytes, x: Bytes, t: byte)
    requires t !in a
    ensures First(a + [t] + x, t) == |a|
  {
    if a == [] {
      assert (a + [t] + x)[0] == t;
    } else {
      assert (a + [t] + x)[0] == a[0] && (a + [t] + x)[1..] == a[1..] + [t] + x;
      FirstIsAfter(a[1..], x, t);
    }
  }

  lemma CutPrefix<T>(a: seq<T>, x: seq<T>, b: seq<T>, y: seq<T>)
    requires |a| == |b| && a + x == b + y
    ensures a == b && x == y
  {
    assert (a + x)[..|a|] == a && (b + y)[..|b|] == b;
    assert (a + x)[|a|..] == x && (b + y)[|b|..] == y;
  }

  lemma Associate<T>(a: seq<T>, b: seq<T>, x: seq<T>)
    ensures a + b + x == a + (b + x)
  {
  }

  /** A part without the byte `t`, followed by `t`, can be cut off in one way only. */
  lemma CutAtTerminator(a: Bytes, x: Bytes, b: Bytes, y: Bytes, t: byte)
    requires a + [t] + x == b + [t] + y && t !in a && t !in b
    ensures a == b && x == y
  {
    FirstIsAfter(a, x, t);
    FirstIsAfter(b, y, t);
    CutPrefix(a + [t], x, b + [t], y);
    CutPrefix(a, [t], b, [t]);
  }

  lemma CutDecimal(a: int, x: Bytes, b: int, y: Bytes, t: byte)
    requires !(48 <= t < 58) && t != MINUS
    requires Decimal(a) + [t] + x == Decimal(b) + [t] + y
    ensures a == b && x == y
  {
    CutAtTerminator(Decimal(a), x, Decimal(b), y, t);
    DecimalIsInjective(a, b);
  }

  /** A part of fixed width needs no terminator. */
  lemma CutBigEndian(a: nat, x: Bytes, b: nat, y: Bytes, width: nat)
    requires a < Power256(width) && b < Power256(width)
    requires BigEndian(a, width) + x == BigEndian(b, width) + y
    ensures a == b && x == y
  {
    CutPrefix(BigEndian(a, width), x, BigEndian(b, width), y);
    BigEndianIsInjective(a, b, width);
  }
}
