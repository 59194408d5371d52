/** Facts about sequences and sets that several modules use. */
module Sequences {
  ghost predicate Distinct<T>(s: seq<T>) {
    forall i, j | 0 <= i < j < |s| :: s[i] != s[j]
  }

  lemma {:induction false} Associate<T>(a: seq<T>, b: seq<T>, c: seq<T>)
    ensures a + (b + c) == a + b + c
  {
  }

  /** Where x first occurs; the length when it does not. */
  function PositionOf<T(==)>(s: seq<T>, x: T): (n: nat)
    ensures n <= |s|
    ensures x in s ==> n < |s| && s[n] == x
    ensures x !in s[..n]
  {
    if s == [] || s[0] == x then 0
    else
      var n := 1 + PositionOf(s[1..], x);
      assert s[..n] == [s[0]] + s[1..][..n - 1];
      assert s == [s[0]] + s[1..];
      n
  }

  lemma {:induction false} PositionAfter<T>(a: seq<T>, x: T, rest: seq<T>)
    requires x !in a
    ensures PositionOf(a + [x] + rest, x) == |a|
  {
    if a != [] {
      assert a[0] in a && (a + [x] + rest)[0] == a[0];
      assert (a + [x] + rest)[1..] == a[1..] + [x] + rest;
      PositionAfter(a[1..], x, rest);
    }
  }

  /** A separator that occurs in neither first part splits a sequence in one way only. */
  lemma {:induction false} SplitIsUnique<T>(a: seq<T>, b: seq<T>, x: T, c: seq<T>, d: seq<T>)
    requires x !in a && x !in b && a + [x] + c == b + [x] + d
    ensures a == b && c == d
  {
    PositionAfter(a, x, c);
    PositionAfter(b, x, d);
    var s := a + [x] + c;
    assert s[..|a|] == a && (b + [x] + d)[..|a|] == b;
    assert s[|a| + 1..] == c && (b + [x] + d)[|a| + 1..] == d;
  }

  /** An increasing list is determined by its members. */
  lemma {:induction false} IncreasingIsUnique(a: seq<nat>, b: seq<nat>)
    requires forall j, k | 0 <= j < k < |a| :: a[j] < a[k]
    requires forall j, k | 0 <= j < k < |b| :: b[j] < b[k]
    requires (forall i | i in a :: i in b) && forall i | i in b :: i in a
    ensures a == b
  {
    assert a != [] ==> a[0] in a;
    assert b != [] ==> b[0] in b;
    if a != [] && b != [] {
      assert a[0] in b && b[0] in a;
      assert a[0] == b[0];
      forall i | i in a[1..]
        ensures i in b[1..]
      {
        var j :| 0 <= j < |a[1..]| && a[1..][j] == i;
        assert a[j + 1] == i && i in a && i in b && i != b[0];
        assert b == [b[0]] + b[1..];
      }
      forall i | i in b[1..]
        ensures i in a[1..]
      {
        var j :| 0 <= j < |b[1..]| && b[1..][j] == i;
        assert b[j + 1] == i && i in b && i in a && i != a[0];
        assert a == [a[0]] + a[1..];
      }
      IncreasingIsUnique(a[1..], b[1..]);
    }
  }

  lemma {:induction false} SubsetSize<T>(a: set<T>, b: set<T>)
    requires a <= b
    ensures |a| <= |b|
    ensures a != b ==> |a| < |b|
  {
    assert b == a + (b - a);
    assert |b| == |a| + |b - a|;
    if a != b {
      assert b - a != {};
    }
  }
}

/** Sorting an array in place, by any order. */
module Sorting {
  /** `before` is the strict part of an order in which ties are allowed. */
  ghost predicate IsOrder<T(!new)>(before: (T, T) -> bool) {
    && (forall x, y :: before(x, y) ==> !before(y, x))
    && (forall x, y, z :: before(x, z) ==> before(x, y) || before(y, z))
  }

  ghost predicate SortedBy<T(!new)>(a: seq<T>, before: (T, T) -> bool) {
    forall i, j | 0 <= i < j < |a| :: !before(a[j], a[i])
  }

  method Sort<T(!new)>(a: array<T>, before: (T, T) -> bool)
    requires IsOrder(before)
    modifies a
    ensures SortedBy(a[..], before)
    ensures multiset(a[..]) == multiset(old(a[..]))
  {
    hide IsOrder;
    for n := 0 to a.Length
      invariant SortedBy(a[..n], before)
      invariant multiset(a[..]) == multiset(old(a[..]))
    {
      Insert(a, n, before);
    }
    assert a[..] == a[..a.Length];
  }

  /** Moves element n down to its place among the sorted ones in front of it. */
  method Insert<T(!new)>(a: array<T>, n: nat, before: (T, T) -> bool)
    requires IsOrder(before) && n < a.Length && SortedBy(a[..n], before)
    modifies a
    ensures SortedBy(a[..n + 1], before)
    ensures multiset(a[..]) == multiset(old(a[..]))
  {
    var j := n;
    while j > 0 && before(a[j], a[j - 1])
      invariant 0 <= j <= n
      invariant forall p, q | 0 <= p < q <= n && q != j :: !before(a[q], a[p])
      invariant multiset(a[..]) == multiset(old(a[..]))
    {
      a[j - 1], a[j] := a[j], a[j - 1];
      j := j - 1;
    }
    assert forall p, q | 0 <= p < q <= n :: !before(a[q], a[p]);
  }
}

/** Facts about real numbers that several modules use. */
module Reals {
  function Times(a: real, b: real): real {
    a * b
  }

  lemma {:induction false} DivideUp(x: real, y: real, m: real)
    requires m > 0.0 && x <= y
    ensures x / m <= y / m
  {
    assert (y - x) / m >= 0.0;
  }

  lemma {:induction false} ProductSign(a: real, b: real)
    requires a >= 0.0 && b >= 0.0
    ensures a * b >= 0.0
  {
  }

  lemma {:induction false} InverseDown(x: real, y: real)
    requires 0.0 < x <= y
    ensures 0.0 < 1.0 / y <= 1.0 / x
    ensures x < y ==> 1.0 / y < 1.0 / x
  {
    assert 1.0 / x - 1.0 / y == (y - x) / (x * y);
    assert x * y > 0.0;
  }
}
