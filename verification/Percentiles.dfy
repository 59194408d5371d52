/** The nearest-rank percentile of a list of durations. */
module Percentiles {
  import opened Reals
  import opened Sorting

  function Ceil(x: real): (n: int)
    ensures n as real - 1.0 < x <= n as real
  {
    -((-x).Floor)
  }

  function Share(p: real, n: nat): real {
    p / 100.0 * n as real
  }

  /** The 1-based rank in the sorted list, kept inside it. */
  function Rank(p: real, n: nat): (k: nat)
    requires n > 0
    ensures 1 <= k <= n
  {
    var k := Ceil(Share(p, n));
    if k < 1 then 1 else if k > n then n else k
  }

  function Below(samples: seq<int>, v: int): (c: nat)
    ensures c <= |samples|
  {
    if samples == [] then 0 else Below(samples[1..], v) + if samples[0] < v then 1 else 0
  }

  function AtMost(samples: seq<int>, v: int): (c: nat)
    ensures Below(samples, v) <= c <= |samples|
  {
    if samples == [] then 0 else AtMost(samples[1..], v) + if samples[0] <= v then 1 else 0
  }

  /** v is the k-th smallest sample. */
  predicate IsKth(samples: seq<int>, k: int, v: int) {
    v in samples && Below(samples, v) < k <= AtMost(samples, v)
  }

  ghost predicate Sorted(s: seq<int>) {
    forall i, j | 0 <= i < j < |s| :: s[i] <= s[j]
  }

  /** Always one of the samples; 0 when there is none.  The samples themselves stay as they are. */
  method Percentile(samples: seq<int>, p: real) returns (v: int)
    ensures samples == [] ==> v == 0
    ensures samples != [] ==> IsKth(samples, Rank(p, |samples|), v)
  {
    if |samples| == 0 {
      return 0;
    }
    var sorted := new int[|samples|](i requires 0 <= i < |samples| => samples[i]);
    assert sorted[..] == samples;
    Sort(sorted, (x: int, y: int) => x < y);
    var rank := Ceil(Share(p, sorted.Length));
    if rank < 1 {
      rank := 1;
    }
    if rank > sorted.Length {
      rank := sorted.Length;
    }
    v := sorted[rank - 1];
    KthOfSorted(sorted[..], rank);
    CountsPermute(sorted[..], samples, v);
    assert v in multiset(samples);
  }

  // ----- The k-th smallest -----

  lemma {:induction false} NoneBelow(s: seq<int>, v: int)
    requires forall i | 0 <= i < |s| :: s[i] >= v
    ensures Below(s, v) == 0
  {
    if s != [] {
      assert forall i | 0 <= i < |s[1..]| :: s[1..][i] == s[i + 1];
      NoneBelow(s[1..], v);
    }
  }

  lemma {:induction false} BelowFront(s: seq<int>, k: nat, v: int)
    requires k <= |s| && forall i | k <= i < |s| :: s[i] >= v
    ensures Below(s, v) <= k
  {
    if k == 0 {
      NoneBelow(s, v);
    } else {
      assert forall i | k - 1 <= i < |s[1..]| :: s[1..][i] == s[i + 1];
      BelowFront(s[1..], k - 1, v);
    }
  }

  lemma {:induction false} AtMostFront(s: seq<int>, k: nat, v: int)
    requires k <= |s| && forall i | 0 <= i < k :: s[i] <= v
    ensures AtMost(s, v) >= k
  {
    if k > 0 {
      assert forall i | 0 <= i < k - 1 :: s[1..][i] == s[i + 1];
      AtMostFront(s[1..], k - 1, v);
    }
  }

  lemma {:induction false} KthOfSorted(s: seq<int>, k: nat)
    requires Sorted(s) && 1 <= k <= |s|
    ensures IsKth(s, k, s[k - 1])
  {
    BelowFront(s, k - 1, s[k - 1]);
    AtMostFront(s, k, s[k - 1]);
  }

  lemma {:induction false} CountsSplit(a: seq<int>, b: seq<int>, v: int)
    ensures Below(a + b, v) == Below(a, v) + Below(b, v)
    ensures AtMost(a + b, v) == AtMost(a, v) + AtMost(b, v)
  {
    if a == [] {
      assert a + b == b;
    } else {
      assert (a + b)[1..] == a[1..] + b;
      CountsSplit(a[1..], b, v);
    }
  }

  lemma {:induction false} CountsPermute(a: seq<int>, b: seq<int>, v: int)
    requires multiset(a) == multiset(b)
    ensures Below(a, v) == Below(b, v) && AtMost(a, v) == AtMost(b, v)
  {
    if a == [] {
      assert |multiset(b)| == 0;
    } else {
      assert a[0] in multiset(b);
      var i :| 0 <= i < |b| && b[i] == a[0];
      var front, back := b[..i], b[i + 1..];
      RemoveOne(a, b, i);
      assert b == front + [b[i]] + back;
      CountsPermute(a[1..], front + back, v);
      CountsSplit(front, back, v);
      CountsSplit(front + [b[i]], back, v);
      CountsSplit(front, [b[i]], v);
      assert [b[i]][1..] == [];
    }
  }

  lemma {:induction false} RemoveOne(a: seq<int>, b: seq<int>, i: nat)
    requires multiset(a) == multiset(b) && a != [] && i < |b| && b[i] == a[0]
    ensures multiset(a[1..]) == multiset(b[..i] + b[i + 1..])
    ensures |a[1..]| < |a|
  {
    assert a == [a[0]] + a[1..];
    var front, back := b[..i], b[i + 1..];
    assert b == front + [b[i]] + back;
    assert multiset(b) == multiset(front) + multiset{b[i]} + multiset(back);
    assert multiset(a) == multiset{a[0]} + multiset(a[1..]);
    assert multiset(a[1..]) == multiset(a) - multiset{a[0]};
    assert multiset(front) + multiset(back) == multiset(b) - multiset{b[i]};
  }

  lemma {:induction false} CountsGrow(s: seq<int>, v: int, w: int)
    requires v < w
    ensures AtMost(s, v) <= Below(s, w)
  {
    if s != [] {
      CountsGrow(s[1..], v, w);
    }
  }

  /** A rank picks one value, and a higher rank never a smaller one. */
  lemma {:induction false} KthIsMonotone(samples: seq<int>, j: int, k: int, v: int, w: int)
    requires j <= k && IsKth(samples, j, v) && IsKth(samples, k, w)
    ensures v <= w && (j == k ==> v == w)
  {
    if w < v {
      CountsGrow(samples, w, v);
    } else if v < w && j == k {
      CountsGrow(samples, v, w);
    }
  }

  // ----- What a percentile means -----

  /** At least p per cent of the samples are at or below v, and fewer than p per cent strictly below it. */
  predicate CoversShare(samples: seq<int>, p: real, v: int) {
    && AtMost(samples, v) as real >= Share(p, |samples|)
    && (Below(samples, v) as real) < Share(p, |samples|)
  }

  lemma {:induction false} ShareRange(p: real, n: nat)
    requires n > 0
    ensures Share(p, n) > 0.0 <==> p > 0.0
    ensures Share(p, n) <= n as real <==> p <= 100.0
  {
    var q := p / 100.0;
    assert q > 0.0 <==> p > 0.0;
    assert q <= 1.0 <==> p <= 100.0;
    ScaleSign(q, n as real);
    ScaleSign(1.0 - q, n as real);
    assert (1.0 - q) * n as real == n as real - q * n as real;
  }

  lemma {:induction false} ScaleSign(q: real, m: real)
    requires m > 0.0
    ensures q > 0.0 <==> q * m > 0.0
    ensures q >= 0.0 <==> q * m >= 0.0
  {
  }

  /** The sample a percentile returns covers its share exactly when 0 < p <= 100; and inside that range no other
      sample does. */
  lemma {:induction false} PercentileCoversShare(samples: seq<int>, p: real, v: int)
    requires samples != [] && IsKth(samples, Rank(p, |samples|), v)
    ensures CoversShare(samples, p, v) <==> 0.0 < p <= 100.0
    ensures forall w | w in samples && CoversShare(samples, p, w) :: w == v
  {
    var n := |samples|;
    ShareRange(p, n);
    var k := Ceil(Share(p, n));
    if 0.0 < p <= 100.0 {
      assert 1 <= k <= n && Rank(p, n) == k;
      hide Share;
      forall w | w in samples && CoversShare(samples, p, w)
        ensures w == v
      {
        assert IsKth(samples, k, w);
        KthIsMonotone(samples, k, k, v, w);
      }
    }
  }

  /** A higher percentile is never smaller. */
  lemma {:induction false} PercentilesAreOrdered(samples: seq<int>, p: real, q: real, v: int, w: int)
    requires samples != [] && p <= q
    requires IsKth(samples, Rank(p, |samples|), v) && IsKth(samples, Rank(q, |samples|), w)
    ensures v <= w
  {
    var n := |samples|;
    ShareGrows(p, q, n);
    hide Share;
    assert Rank(p, n) <= Rank(q, n);
    KthIsMonotone(samples, Rank(p, n), Rank(q, n), v, w);
  }

  lemma {:induction false} ShareGrows(p: real, q: real, n: nat)
    requires p <= q
    ensures Share(p, n) <= Share(q, n)
  {
    var x, y, m := p / 100.0, q / 100.0, n as real;
    ProductSign(y - x, m);
    assert (y - x) * m == y * m - x * m;
  }

  /** Outside the range the ends are returned: the smallest sample at p <= 0, the largest at p >= 100. */
  lemma {:induction false} PercentileEnds(samples: seq<int>, p: real, v: int)
    requires samples != [] && IsKth(samples, Rank(p, |samples|), v)
    ensures p <= 0.0 ==> forall x | x in samples :: v <= x
    ensures p >= 100.0 ==> forall x | x in samples :: x <= v
  {
    var n := |samples|;
    ShareRange(p, n);
    if p <= 0.0 {
      NothingBelow(samples, v);
    }
    if p >= 100.0 {
      assert Share(100.0, n) == n as real;
      ShareGrows(100.0, p, n);
      hide Share;
      AllAtMost(samples, v);
    }
  }

  lemma {:induction false} NothingBelow(s: seq<int>, v: int)
    requires Below(s, v) == 0
    ensures forall x | x in s :: v <= x
  {
    if s != [] {
      NothingBelow(s[1..], v);
      assert s == [s[0]] + s[1..];
    }
  }

  lemma {:induction false} AllAtMost(s: seq<int>, v: int)
    requires AtMost(s, v) == |s|
    ensures forall x | x in s :: x <= v
  {
    if s != [] {
      AllAtMost(s[1..], v);
      assert s == [s[0]] + s[1..];
    }
  }
}
