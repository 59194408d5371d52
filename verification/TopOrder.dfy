/** The order every ranked answer of the system uses: score descending, then id ascending.

    Both stores end a search with that order cut at a limit (an ORDER BY in Postgres, a sort of a
    slice in SQLite).  The reference definition here never sorts: an answer is right when the hit
    at position i is a hit of the set that exactly i hits of the set precede.
 */
module TopOrder {
  import opened Sequences

  datatype Hit<R> = Hit(id: int, score: real, row: R)

  predicate Before<R>(a: Hit<R>, b: Hit<R>) {
    a.score > b.score || (a.score == b.score && a.id < b.id)
  }

  /** Ids are a primary key, so two hits with one id are the same hit. */
  ghost predicate Keyed<R>(s: set<Hit<R>>) {
    forall x, y | x in s && y in s && x.id == y.id :: x == y
  }

  ghost function Ahead<R>(s: set<Hit<R>>, h: Hit<R>): set<Hit<R>> {
    set x | x in s && Before(x, h)
  }

  function Min(a: int, b: int): int {
    if a < b then a else b
  }

  /** `out` is the best `limit` hits of `s`, best first. */
  ghost predicate IsTop<R>(s: set<Hit<R>>, limit: nat, out: seq<Hit<R>>) {
    && |out| == Min(limit, |s|)
    && forall i | 0 <= i < |out| :: out[i] in s && |Ahead(s, out[i])| == i
  }

  ghost predicate SortedHits<R>(l: seq<Hit<R>>) {
    forall i, j | 0 <= i < j < |l| :: Before(l[i], l[j])
  }

  ghost function Elements<T>(l: seq<T>): set<T> {
    set x | x in l
  }

  /** A hit ahead of another has strictly fewer hits ahead of itself. */
  lemma {:induction false} AheadGrows<R>(s: set<Hit<R>>, x: Hit<R>, y: Hit<R>)
    requires x in s && Before(x, y)
    ensures |Ahead(s, x)| < |Ahead(s, y)|
  {
    assert Ahead(s, x) <= Ahead(s, y);
    assert x in Ahead(s, y) && x !in Ahead(s, x);
    SubsetSize(Ahead(s, x), Ahead(s, y));
  }

  lemma {:induction false} AheadDecides<R>(s: set<Hit<R>>, x: Hit<R>, y: Hit<R>)
    requires Keyed(s) && x in s && y in s && |Ahead(s, x)| == |Ahead(s, y)|
    ensures x == y
  {
    if x != y {
      if Before(x, y) {
        AheadGrows(s, x, y);
      } else {
        AheadGrows(s, y, x);
      }
    }
  }

  /** The answer is determined by the set of hits, and a smaller limit only cuts it. */
  lemma {:induction false} TopIsUnique<R>(s: set<Hit<R>>, m: nat, n: nat, a: seq<Hit<R>>, b: seq<Hit<R>>)
    requires Keyed(s) && m <= n && IsTop(s, m, a) && IsTop(s, n, b)
    ensures |a| <= |b| && a == b[..|a|]
    ensures m == n ==> a == b
  {
    forall i | 0 <= i < |a|
      ensures a[i] == b[i]
    {
      AheadDecides(s, a[i], b[i]);
    }
  }

  lemma {:induction false} ElementsSize<T>(l: seq<T>)
    requires forall i, j | 0 <= i < j < |l| :: l[i] != l[j]
    ensures |Elements(l)| == |l|
  {
    if l == [] {
      assert Elements(l) == {};
    } else {
      var n := |l| - 1;
      ElementsSize(l[..n]);
      assert Elements(l) == Elements(l[..n]) + {l[n]};
      assert l[n] !in Elements(l[..n]);
    }
  }

  lemma {:induction false} SortedIsDistinct<R>(l: seq<Hit<R>>)
    requires SortedHits(l)
    ensures forall i, j | 0 <= i < j < |l| :: l[i] != l[j]
  {
    forall i, j | 0 <= i < j < |l|
      ensures l[i] != l[j]
    {
      assert Before(l[i], l[j]);
    }
  }

  lemma {:induction false} AheadInSorted<R>(l: seq<Hit<R>>, i: nat)
    requires SortedHits(l) && i < |l|
    ensures |Ahead(Elements(l), l[i])| == i
  {
    SortedIsDistinct(l);
    forall x
      ensures x in Ahead(Elements(l), l[i]) <==> x in Elements(l[..i])
    {
      if x in Ahead(Elements(l), l[i]) {
        var j :| 0 <= j < |l| && l[j] == x;
        assert j < i;
        assert l[..i][j] == x;
      }
      if x in Elements(l[..i]) {
        var j :| 0 <= j < i && l[..i][j] == x;
        assert Before(l[j], l[i]);
      }
    }
    assert Ahead(Elements(l), l[i]) == Elements(l[..i]);
    forall p, q | 0 <= p < q < i
      ensures l[..i][p] != l[..i][q]
    {
      assert l[p] != l[q];
    }
    ElementsSize(l[..i]);
  }

  /** Sorting and cutting a slice answers correctly. */
  lemma {:induction false} SortedPrefixIsTop<R>(l: seq<Hit<R>>, limit: nat)
    requires SortedHits(l)
    ensures IsTop(Elements(l), limit, l[..Min(limit, |l|)])
  {
    SortedIsDistinct(l);
    ElementsSize(l);
    var out := l[..Min(limit, |l|)];
    forall i | 0 <= i < |out|
      ensures out[i] in Elements(l) && |Ahead(Elements(l), out[i])| == i
    {
      AheadInSorted(l, i);
    }
  }

  /** Conversely, a full answer is the sorted enumeration of the set. */
  lemma {:induction false} TopIsSorted<R>(s: set<Hit<R>>, limit: nat, out: seq<Hit<R>>)
    requires Keyed(s) && IsTop(s, limit, out)
    ensures SortedHits(out)
    ensures limit >= |s| ==> Elements(out) == s
  {
    forall i, j | 0 <= i < j < |out|
      ensures Before(out[i], out[j])
    {
      if out[i] == out[j] {
        assert false;
      }
      if Before(out[j], out[i]) {
        AheadGrows(s, out[j], out[i]);
      }
    }
    if limit >= |s| {
      SortedIsDistinct(out);
      ElementsSize(out);
      assert Elements(out) <= s;
      SubsetSize(Elements(out), s);
    }
  }

  /** A hit is in the answer exactly when fewer than `limit` hits are ahead of it. */
  lemma {:induction false} TopMembers<R>(s: set<Hit<R>>, limit: nat, out: seq<Hit<R>>, h: Hit<R>)
    requires Keyed(s) && IsTop(s, limit, out) && h in s
    ensures h in out <==> |Ahead(s, h)| < limit
  {
    SubsetSize(Ahead(s, h) + {h}, s);
    assert h !in Ahead(s, h);
    if |Ahead(s, h)| < limit {
      assert |Ahead(s, h)| < |out|;
      AheadDecides(s, out[|Ahead(s, h)|], h);
    }
  }

  /** Every non-empty set of hits has a hit no other hit precedes. */
  lemma {:induction false} BestExists<R>(s: set<Hit<R>>) returns (best: Hit<R>)
    requires Keyed(s) && s != {}
    ensures best in s && Ahead(s, best) == {}
    ensures forall x | x in s && x != best :: Before(best, x)
    decreases |s|
  {
    var x :| x in s;
    if s == {x} {
      best := x;
    } else {
      var rest := BestExists(s - {x});
      assert |s - {x}| < |s|;
      best := if Before(x, rest) then x else rest;
    }
    assert Ahead(s, best) == {};
  }

  /** The sorted enumeration of a set of hits: repeatedly take the best remaining hit. */
  lemma {:induction false} FullOrderExists<R>(s: set<Hit<R>>) returns (l: seq<Hit<R>>)
    requires Keyed(s)
    ensures SortedHits(l) && Elements(l) == s && |l| == |s|
    decreases |s|
  {
    if s == {} {
      l := [];
    } else {
      var best := BestExists(s);
      var rest := FullOrderExists(s - {best});
      l := [best] + rest;
      forall i, j | 0 <= i < j < |l|
        ensures Before(l[i], l[j])
      {
        if i == 0 {
          assert l[j] in Elements(rest);
        } else {
          assert l[i] == rest[i - 1] && l[j] == rest[j - 1];
        }
      }
      assert forall x :: x in l <==> x == best || x in rest;
      assert Elements(l) == {best} + Elements(rest);
    }
  }

  ghost function Filter<R>(l: seq<Hit<R>>, keep: set<Hit<R>>): (f: seq<Hit<R>>) {
    if l == [] then []
    else (if l[0] in keep then [l[0]] else []) + Filter(l[1..], keep)
  }

  /** Filtering keeps exactly the wanted elements, in order. */
  lemma {:induction false} FilterKeepsOrder<R>(l: seq<Hit<R>>, keep: set<Hit<R>>)
    requires SortedHits(l)
    ensures SortedHits(Filter(l, keep))
    ensures Elements(Filter(l, keep)) == Elements(l) * keep
  {
    if l != [] {
      var rest := Filter(l[1..], keep);
      FilterKeepsOrder(l[1..], keep);
      assert l == [l[0]] + l[1..];
      assert Elements(l) == {l[0]} + Elements(l[1..]);
      var f := Filter(l, keep);
      if l[0] in keep {
        assert f == [l[0]] + rest;
        assert Elements(f) == {l[0]} + Elements(rest);
        forall i, j | 0 <= i < j < |f|
          ensures Before(f[i], f[j])
        {
          if i == 0 {
            assert f[j] == rest[j - 1] && f[j] in Elements(rest);
            assert f[j] in Elements(l[1..]);
            var k :| 0 <= k < |l[1..]| && l[1..][k] == f[j];
            assert l[k + 1] == f[j];
          } else {
            assert f[i] == rest[i - 1] && f[j] == rest[j - 1];
          }
        }
      } else {
        assert f == rest;
        assert Elements(l) * keep == Elements(l[1..]) * keep;
      }
    }
  }

  /** Cutting a set down to a subset: the answer for the subset is the larger answer, filtered and cut. */
  lemma {:induction false} TopOfSubset<R>(s: set<Hit<R>>, sub: set<Hit<R>>, full: seq<Hit<R>>, limit: nat, out: seq<Hit<R>>)
    requires Keyed(s) && sub <= s && IsTop(s, |s|, full) && IsTop(sub, limit, out)
    ensures var kept := Filter(full, sub);
            |out| == Min(limit, |kept|) && out == kept[..|out|]
  {
    TopIsSorted(s, |s|, full);
    FilterKeepsOrder(full, sub);
    var kept := Filter(full, sub);
    assert Elements(kept) == sub;
    SortedPrefixIsTop(kept, limit);
    SortedIsDistinct(kept);
    ElementsSize(kept);
    TopIsUnique(sub, limit, limit, out, kept[..Min(limit, |kept|)]);
  }

  /** Rows outside a subset that all come after the whole answer do not matter. */
  lemma {:induction false} TopIgnoresLateRows<R>(s: set<Hit<R>>, sub: set<Hit<R>>, limit: nat, out: seq<Hit<R>>)
    requires Keyed(s) && sub <= s && IsTop(sub, limit, out)
    requires |sub| >= limit
    requires forall x, i | x in s - sub && 0 <= i < |out| :: Before(out[i], x)
    ensures IsTop(s, limit, out)
  {
    SubsetSize(sub, s);
    forall i | 0 <= i < |out|
      ensures out[i] in s && |Ahead(s, out[i])| == i
    {
      forall x | x in Ahead(s, out[i])
        ensures x in sub
      {
        assert x in sub || x in s - sub;
      }
      assert Ahead(s, out[i]) == Ahead(sub, out[i]);
    }
  }

  lemma {:induction false} TopExists<R>(s: set<Hit<R>>, limit: nat)
    requires Keyed(s)
    ensures exists out :: IsTop(s, limit, out)
  {
    var l := FullOrderExists(s);
    SortedPrefixIsTop(l, limit);
    assert IsTop(s, limit, l[..Min(limit, |l|)]);
  }

  /** The answer. */
  ghost function Top<R>(s: set<Hit<R>>, limit: nat): (out: seq<Hit<R>>)
    requires Keyed(s)
    ensures IsTop(s, limit, out)
  {
    TopExists(s, limit);
    var out :| IsTop(s, limit, out);
    out
  }

  // ----- Only ids and scores matter -----

  function Outline<R>(h: Hit<R>): Hit<()> {
    Hit(h.id, h.score, ())
  }

  ghost function Outlines<R>(s: set<Hit<R>>): set<Hit<()>> {
    set h | h in s :: Outline(h)
  }

  function OutlineAll<R>(l: seq<Hit<R>>): (o: seq<Hit<()>>)
    ensures |o| == |l| && forall i | 0 <= i < |l| :: o[i] == Outline(l[i])
  {
    seq(|l|, i requires 0 <= i < |l| => Outline(l[i]))
  }

  lemma {:induction false} OutlineSize<R>(s: set<Hit<R>>)
    requires Keyed(s)
    ensures |Outlines(s)| == |s|
    decreases |s|
  {
    if s != {} {
      var h :| h in s;
      assert |s - {h}| < |s|;
      OutlineSize(s - {h});
      assert Outlines(s) == Outlines(s - {h}) + {Outline(h)};
    }
  }

  /** Hits that agree on ids and scores are answered alike, whatever rows they carry. */
  lemma {:induction false} SameOutlines<R, S>(s: set<Hit<R>>, t: set<Hit<S>>, limit: nat, a: seq<Hit<R>>, b: seq<Hit<S>>)
    requires Keyed(s) && Keyed(t) && Outlines(s) == Outlines(t)
    requires IsTop(s, limit, a) && IsTop(t, limit, b)
    ensures OutlineAll(a) == OutlineAll(b)
  {
    OutlineOfTop(s, limit, a);
    OutlineOfTop(t, limit, b);
    TopIsUnique(Outlines(s), limit, limit, OutlineAll(a), OutlineAll(b));
  }

  lemma {:induction false} OutlineOfTop<R>(s: set<Hit<R>>, limit: nat, a: seq<Hit<R>>)
    requires Keyed(s) && IsTop(s, limit, a)
    ensures Keyed(Outlines(s)) && IsTop(Outlines(s), limit, OutlineAll(a))
  {
    OutlineSize(s);
    var o := OutlineAll(a);
    forall i | 0 <= i < |o|
      ensures o[i] in Outlines(s) && |Ahead(Outlines(s), o[i])| == i
    {
      assert Ahead(Outlines(s), o[i]) == Outlines(Ahead(s, a[i]));
      OutlineSize(Ahead(s, a[i]));
    }
  }
}
