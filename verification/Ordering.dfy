/** Sorting by a byte-string key. */
module Ordering {
  import opened Framing

  /** Lexicographic order of byte strings. */
  predicate Less(a: Bytes, b: Bytes) {
    if b == [] then false
    else if a == [] then true
    else a[0] < b[0] || (a[0] == b[0] && Less(a[1..], b[1..]))
  }

  lemma {:induction false} LessIsTotal(a: Bytes, b: Bytes)
    ensures a == b || Less(a, b) || Less(b, a)
  {
    if a != [] && b != [] && a[0] == b[0] {
      LessIsTotal(a[1..], b[1..]);
      assert a == [a[0]] + a[1..] && b == [b[0]] + b[1..];
    }
  }

  lemma {:induction false} LessIsStrict(a: Bytes, b: Bytes)
    requires Less(a, b)
    ensures !Less(b, a) && a != b
  {
    if a != [] && a[0] == b[0] {
      LessIsStrict(a[1..], b[1..]);
    }
  }

  lemma {:induction false} LessIsTransitive(a: Bytes, b: Bytes, c: Bytes)
    requires Less(a, b) && Less(b, c)
    ensures Less(a, c)
  {
    if a != [] && a[0] == b[0] && b[0] == c[0] {
      LessIsTransitive(a[1..], b[1..], c[1..]);
    }
  }

  function Insert<T>(x: (Bytes, T), s: seq<(Bytes, T)>): seq<(Bytes, T)> {
    if s == [] then [x] else if Less(s[0].0, x.0) then [s[0]] + Insert(x, s[1..]) else [x] + s
  }

  function Seconds<T>(s: seq<(Bytes, T)>): seq<T> {
    if s == [] then [] else [s[0].1] + Seconds(s[1..])
  }

  function SortByKey<T>(s: seq<(Bytes, T)>): seq<(Bytes, T)> {
    if s == [] then [] else Insert(s[0], SortByKey(s[1..]))
  }

  ghost predicate Ascending<T(!new)>(s: seq<(Bytes, T)>) {
    s == [] || ((forall x | x in s[1..] :: Less(s[0].0, x.0)) && Ascending(s[1..]))
  }

  ghost predicate DistinctKeys<T(!new)>(s: seq<(Bytes, T)>) {
    s == [] || ((forall x | x in s[1..] :: x.0 != s[0].0) && DistinctKeys(s[1..]))
  }

  lemma {:induction false} InsertAscends<T(!new)>(x: (Bytes, T), s: seq<(Bytes, T)>)
    requires Ascending(s) && forall y | y in s :: y.0 != x.0
    ensures Ascending(Insert(x, s))
    ensures forall y :: y in Insert(x, s) <==> y == x || y in s
  {
    if s != [] {
      assert s == [s[0]] + s[1..];
      if Less(s[0].0, x.0) {
        InsertAscends(x, s[1..]);
        assert Insert(x, s)[1..] == Insert(x, s[1..]);
      } else {
        LessIsTotal(s[0].0, x.0);
        forall y | y in s
          ensures Less(x.0, y.0)
        {
          if y in s[1..] {
            LessIsTransitive(x.0, s[0].0, y.0);
          }
        }
        assert Insert(x, s)[1..] == s;
      }
    }
  }

  lemma {:induction false} SortAscends<T(!new)>(s: seq<(Bytes, T)>)
    requires DistinctKeys(s)
    ensures Ascending(SortByKey(s))
    ensures forall y :: y in SortByKey(s) <==> y in s
  {
    if s != [] {
      assert s == [s[0]] + s[1..];
      SortAscends(s[1..]);
      InsertAscends(s[0], SortByKey(s[1..]));
    }
  }

  /** An ascending list is determined by its elements. */
  lemma {:induction false} AscendingIsUnique<T(!new)>(s: seq<(Bytes, T)>, t: seq<(Bytes, T)>)
    requires Ascending(s) && Ascending(t)
    requires forall y :: y in s <==> y in t
    ensures s == t
  {
    assert s != [] ==> s[0] in s;
    assert t != [] ==> t[0] in t;
    if s != [] {
      assert s == [s[0]] + s[1..] && t == [t[0]] + t[1..];
      if s[0] != t[0] {
        assert Less(t[0].0, s[0].0) && Less(s[0].0, t[0].0);
        LessIsStrict(s[0].0, t[0].0);
      }
      HeadIsNotInTail(s);
      HeadIsNotInTail(t);
      forall y
        ensures y in s[1..] <==> y in t[1..]
      {
        assert y in s <==> y == s[0] || y in s[1..];
        assert y in t <==> y == t[0] || y in t[1..];
      }
      AscendingIsUnique(s[1..], t[1..]);
    }
  }

  lemma HeadIsNotInTail<T(!new)>(s: seq<(Bytes, T)>)
    requires s != [] && Ascending(s)
    ensures s[0] !in s[1..]
  {
    if s[0] in s[1..] {
      LessIsStrict(s[0].0, s[0].0);
    }
  }

  /** Whatever order the elements come in, sorting gives the same list. */
  lemma SortForgetsOrder<T(!new)>(s: seq<(Bytes, T)>, t: seq<(Bytes, T)>)
    requires DistinctKeys(s) && DistinctKeys(t)
    ensures SortByKey(s) == SortByKey(t) <==> forall y :: y in s <==> y in t
  {
    SortAscends(s);
    SortAscends(t);
    if forall y :: y in s <==> y in t {
      AscendingIsUnique(SortByKey(s), SortByKey(t));
    }
  }
}
