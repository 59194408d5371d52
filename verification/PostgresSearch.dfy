/** What the four search statements of the Postgres store return.

    A statement is a way to form the candidate set (every row in scope, or the union of a vector
    top-K and a lexical top-K) followed by a fusion tail (weighted sum or reciprocal ranks).
 */
module PostgresSearch {
  import opened Reals
  import opened Sequences
  import opened Records
  import opened TopOrder

  /** The two scores of a row for one query, and whether the row matches the tsquery. */
  datatype Scoring = Scoring(vectorScore: Row -> real, rank: Row -> real, matches: Row -> bool)

  /** The premise the statements rest on: ts_rank is never negative, and 0 for a row that does not match. */
  ghost predicate RankPremise(s: Scoring) {
    forall r: Row :: s.rank(r) >= 0.0 && (!s.matches(r) ==> s.rank(r) == 0.0)
  }

  datatype SearchMode = Exhaustive | Candidates

  datatype Fusion = WeightedSum | Rrf

  const RRF_K := 60.0

  /** The value bound to $8: its meaning depends on the fusion. */
  function FusionArgument(f: Fusion, alpha: real): real {
    match f
    case WeightedSum => alpha
    case Rrf => RRF_K
  }

  ghost function HitsOf(c: set<Row>, f: Row -> real): set<Hit<Row>> {
    set r | r in c :: Hit(r.id, f(r), r)
  }

  // ----- Candidate generation -----

  /** `kept` is an exact vector top-K; ties at the border may be cut either way. */
  ghost predicate IsVectorStage(c: set<Row>, s: Scoring, k: nat, kept: set<Row>) {
    && kept <= c
    && |kept| == Min(k, |c|)
    && forall x, y | x in kept && y in c - kept :: s.vectorScore(x) >= s.vectorScore(y)
  }

  ghost function Matching(c: set<Row>, s: Scoring): set<Row> {
    set r | r in c && s.matches(r)
  }

  /** The lexical top-K by (rank descending, id). */
  ghost function LexicalStage(c: set<Row>, s: Scoring, k: nat): set<Row> {
    set r | r in Matching(c, s) && |Ahead(HitsOf(Matching(c, s), s.rank), Hit(r.id, s.rank(r), r))| < k
  }

  /** The join of the two stages with the table, on the id alone. */
  ghost function JoinOnId(t: set<Row>, a: set<Row>, b: set<Row>): set<Row> {
    set r | r in t && (r.id in (set x | x in a :: x.id) || r.id in (set x | x in b :: x.id))
  }

  ghost function CandidateSet(mode: SearchMode, t: set<Row>, q: Request, s: Scoring, k: nat, vec: set<Row>): set<Row> {
    match mode
    case Exhaustive => ScopeOf(t, q)
    case Candidates => JoinOnId(t, vec, LexicalStage(ScopeOf(t, q), s, k))
  }

  // ----- Fusion -----

  ghost function MaxOf(c: set<Row>, f: Row -> real): (m: real)
    ensures forall r | r in c :: f(r) <= m
    ensures c != {} ==> exists r :: r in c && f(r) == m
    decreases |c|
  {
    if c == {} then 0.0
    else
      var r :| r in c;
      if c == {r} then f(r)
      else
        assert c == (c - {r}) + {r} && |c - {r}| < |c|;
        var m := MaxOf(c - {r}, f);
        if f(r) > m then f(r) else m
  }

  function Mix(alpha: real, vector: real, lexical: real): real {
    alpha * vector + (1.0 - alpha) * lexical
  }

  /** COALESCE(lexical / NULLIF(MAX(lexical) OVER (), 0), 0). */
  ghost function NormalizedRank(c: set<Row>, s: Scoring, r: Row): real {
    var m := MaxOf(c, s.rank);
    if m == 0.0 then 0.0 else s.rank(r) / m
  }

  ghost function WeightedScore(c: set<Row>, s: Scoring, alpha: real, r: Row): real {
    Mix(alpha, s.vectorScore(r), NormalizedRank(c, s, r))
  }

  /** RANK() OVER (ORDER BY f DESC): one more than the number of strictly better rows. */
  ghost function RankIn(c: set<Row>, f: Row -> real, r: Row): nat {
    1 + |Better(c, f, r)|
  }

  ghost function Better(c: set<Row>, f: Row -> real, r: Row): set<Row> {
    set x | x in c && f(x) > f(r)
  }

  function Share(k: real, rank: nat): real
    requires k >= 0.0 && rank >= 1
  {
    1.0 / (k + rank as real)
  }

  ghost function RrfScore(c: set<Row>, s: Scoring, k: real, r: Row): real
    requires k >= 0.0
  {
    Share(k, RankIn(c, s.vectorScore, r)) + Share(k, RankIn(c, s.rank, r))
  }

  ghost function FusedScore(f: Fusion, alpha: real, c: set<Row>, s: Scoring): Row -> real {
    match f
    case WeightedSum => (r: Row) => WeightedScore(c, s, FusionArgument(f, alpha), r)
    case Rrf => (r: Row) => RrfScore(c, s, FusionArgument(f, alpha), r)
  }

  /** `out` is an answer of the statement for `mode` and `f`; `vec` is what its vector stage kept. */
  ghost predicate Answers(mode: SearchMode, f: Fusion, t: set<Row>, q: Request, s: Scoring, k: nat,
                          vec: set<Row>, out: seq<Hit<Row>>) {
    var c := CandidateSet(mode, t, q, s, k, vec);
    IsTop(HitsOf(c, FusedScore(f, q.alpha, c, s)), q.limit, out)
  }

  // ----- Basic facts -----

  lemma {:induction false} HitsAreKeyed(c: set<Row>, f: Row -> real)
    requires DistinctIds(c)
    ensures Keyed(HitsOf(c, f))
    ensures |HitsOf(c, f)| == |c|
  {
    HitsSize(c, f);
  }

  lemma {:induction false} HitsSize(c: set<Row>, f: Row -> real)
    ensures |HitsOf(c, f)| == |c|
    decreases |c|
  {
    if c != {} {
      var r :| r in c;
      assert |c - {r}| < |c|;
      HitsSize(c - {r}, f);
      assert HitsOf(c, f) == HitsOf(c - {r}, f) + {Hit(r.id, f(r), r)};
    }
  }

  /** The join on ids brings back the kept rows and nothing else, because ids are unique in the table. */
  lemma {:induction false} JoinIsUnion(t: set<Row>, a: set<Row>, b: set<Row>)
    requires DistinctIds(t) && a <= t && b <= t
    ensures JoinOnId(t, a, b) == a + b
  {
    forall r | r in a + b
      ensures r in JoinOnId(t, a, b)
    {
    }
  }

  /** The lexical stage is what ORDER BY rank DESC, id LIMIT k keeps. */
  lemma {:induction false} LexicalStageIsTop(c: set<Row>, s: Scoring, k: nat, out: seq<Hit<Row>>)
    requires DistinctIds(c) && IsTop(HitsOf(Matching(c, s), s.rank), k, out)
    ensures LexicalStage(c, s, k) == set h | h in out :: h.row
  {
    var m := HitsOf(Matching(c, s), s.rank);
    HitsAreKeyed(Matching(c, s), s.rank);
    forall r | r in Matching(c, s)
      ensures r in LexicalStage(c, s, k) <==> Hit(r.id, s.rank(r), r) in out
    {
      TopMembers(m, k, out, Hit(r.id, s.rank(r), r));
    }
    forall h | h in out
      ensures h.row in LexicalStage(c, s, k)
    {
      assert h in m;
    }
  }

  // ----- The lexical maximum -----

  /** With K at least 1, the lexical stage holds a row that reaches the lexical maximum of the scope. */
  lemma {:induction false} LexicalStageReachesMax(c: set<Row>, s: Scoring, k: nat)
    requires RankPremise(s) && DistinctIds(c) && k >= 1
    requires MaxOf(c, s.rank) != 0.0
    ensures exists r :: r in LexicalStage(c, s, k) && s.rank(r) == MaxOf(c, s.rank)
  {
    assert c != {};
    var top :| top in c && s.rank(top) == MaxOf(c, s.rank);
    var m := HitsOf(Matching(c, s), s.rank);
    HitsAreKeyed(Matching(c, s), s.rank);
    var topHit := Hit(top.id, s.rank(top), top);
    assert top in Matching(c, s) && topHit in m;
    var best := BestExists(m);
    assert best == topHit || Before(best, topHit);
    assert best.row in LexicalStage(c, s, k);
  }

  /** Both ways of forming candidates divide by the same maximum. */
  lemma {:induction false} SameMaximum(c: set<Row>, s: Scoring, k: nat, u: set<Row>)
    requires RankPremise(s) && DistinctIds(c) && k >= 1
    requires LexicalStage(c, s, k) <= u <= c
    ensures MaxOf(u, s.rank) == MaxOf(c, s.rank)
  {
    if MaxOf(c, s.rank) != 0.0 {
      LexicalStageReachesMax(c, s, k);
    }
    if u != {} {
      var r :| r in u && s.rank(r) == MaxOf(u, s.rank);
      assert r in c;
    }
  }

  /** The candidate set is the union of the two stages, inside the scope; it has the scope's maximum. */
  lemma {:induction false} CandidatesWithinScope(t: set<Row>, q: Request, s: Scoring, k: nat, vec: set<Row>)
    requires RankPremise(s) && DistinctIds(t) && k >= 1 && IsVectorStage(ScopeOf(t, q), s, k, vec)
    ensures var c, u := ScopeOf(t, q), CandidateSet(Candidates, t, q, s, k, vec);
            && DistinctIds(c)
            && u == vec + LexicalStage(c, s, k) <= c
            && MaxOf(u, s.rank) == MaxOf(c, s.rank)
            && |u| <= 2 * k
  {
    var c := ScopeOf(t, q);
    JoinIsUnion(t, vec, LexicalStage(c, s, k));
    SameMaximum(c, s, k, vec + LexicalStage(c, s, k));
    LexicalStageSize(c, s, k);
    assert |vec + LexicalStage(c, s, k)| <= |vec| + |LexicalStage(c, s, k)|;
  }

  lemma {:induction false} LexicalStageSize(c: set<Row>, s: Scoring, k: nat)
    requires DistinctIds(c)
    ensures |LexicalStage(c, s, k)| == Min(k, |Matching(c, s)|)
  {
    var m := HitsOf(Matching(c, s), s.rank);
    HitsAreKeyed(Matching(c, s), s.rank);
    var full := FullOrderExists(m);
    SortedPrefixIsTop(full, k);
    var out := full[..Min(k, |full|)];
    LexicalStageIsTop(c, s, k, out);
    SortedIsDistinct(full);
    forall i, j | 0 <= i < j < |out|
      ensures out[i] != out[j]
    {
      assert full[i] != full[j];
    }
    ElementsSize(out);
    assert HitsOf(LexicalStage(c, s, k), s.rank) == Elements(out) by {
      forall h | h in out
        ensures h == Hit(h.row.id, s.rank(h.row), h.row)
      {
        assert h in m;
      }
    }
    HitsSize(LexicalStage(c, s, k), s.rank);
  }

  // ----- Candidates x weighted sum -----

  /** Candidate mode returns the exhaustive order, restricted to the two stages and then cut, with
      the very same scores. */
  lemma {:induction false} CandidateModeIsFilteredExhaustive(t: set<Row>, q: Request, s: Scoring, k: nat, vec: set<Row>,
                                          full: seq<Hit<Row>>, out: seq<Hit<Row>>)
    requires RankPremise(s) && DistinctIds(t) && k >= 1 && IsVectorStage(ScopeOf(t, q), s, k, vec)
    requires Answers(Exhaustive, WeightedSum, t, q.(limit := |ScopeOf(t, q)|), s, k, vec, full)
    requires Answers(Candidates, WeightedSum, t, q, s, k, vec, out)
    ensures var c := ScopeOf(t, q);
            var all := HitsOf(c, FusedScore(WeightedSum, q.alpha, c, s));
            var kept := Filter(full, set h | h in all && h.row in vec + LexicalStage(c, s, k));
            |out| == Min(q.limit, |kept|) && out == kept[..|out|]
  {
    var c := ScopeOf(t, q);
    var u := CandidateSet(Candidates, t, q, s, k, vec);
    FullAnswer(WeightedSum, t, q, s, k, vec, full);
    CandidatesWithinScope(t, q, s, k, vec);
    WeightedHitsAgree(c, u, s, q.alpha);
    var all := HitsOf(c, FusedScore(WeightedSum, q.alpha, c, s));
    var sub := HitsOf(u, FusedScore(WeightedSum, q.alpha, u, s));
    HitsAreKeyed(c, FusedScore(WeightedSum, q.alpha, c, s));
    TopOfSubset(all, sub, full, q.limit, out);
  }

  lemma {:induction false} FullAnswer(f: Fusion, t: set<Row>, q: Request, s: Scoring, k: nat, vec: set<Row>, full: seq<Hit<Row>>)
    requires DistinctIds(t)
    requires Answers(Exhaustive, f, t, q.(limit := |ScopeOf(t, q)|), s, k, vec, full)
    ensures var all := HitsOf(ScopeOf(t, q), FusedScore(f, q.alpha, ScopeOf(t, q), s));
            Keyed(all) && IsTop(all, |all|, full)
  {
    var c := ScopeOf(t, q);
    assert ScopeOf(t, q.(limit := |c|)) == c;
    HitsAreKeyed(c, FusedScore(f, q.alpha, c, s));
  }

  lemma {:induction false} HitsRestrict(c: set<Row>, u: set<Row>, f: Row -> real, g: Row -> real)
    requires u <= c && forall r | r in u :: f(r) == g(r)
    ensures HitsOf(u, g) == set h | h in HitsOf(c, f) && h.row in u
  {
  }

  /** With equal maxima the hits of a subset are the hits of the whole, restricted. */
  lemma {:induction false} WeightedHitsAgree(c: set<Row>, u: set<Row>, s: Scoring, alpha: real)
    requires u <= c && MaxOf(u, s.rank) == MaxOf(c, s.rank)
    ensures HitsOf(u, FusedScore(WeightedSum, alpha, u, s))
         == set h | h in HitsOf(c, FusedScore(WeightedSum, alpha, c, s)) && h.row in u
  {
    var f, g := FusedScore(WeightedSum, alpha, c, s), FusedScore(WeightedSum, alpha, u, s);
    forall r | r in u
      ensures f(r) == g(r)
    {
      assert NormalizedRank(u, s, r) == NormalizedRank(c, s, r);
    }
    HitsRestrict(c, u, f, g);
  }

  // ----- What candidate mode can lose -----

  /** `lo` is the lowest value of `f` on the non-empty set `c`. */
  ghost predicate IsLowest(c: set<Row>, f: Row -> real, lo: real) {
    (exists r :: r in c && f(r) == lo) && forall r | r in c :: lo <= f(r)
  }

  /** The lexical floor: the lowest rank the lexical stage kept, or 0 when fewer than k rows match. */
  ghost predicate IsLexicalFloor(c: set<Row>, s: Scoring, k: nat, floor: real) {
    if |Matching(c, s)| < k then floor == 0.0 else IsLowest(LexicalStage(c, s, k), s.rank, floor)
  }

  /** The best weighted score a row outside both stages can reach. */
  ghost function OutsideBound(c: set<Row>, s: Scoring, alpha: real, lowVector: real, floor: real): real {
    var m := MaxOf(c, s.rank);
    Mix(alpha, lowVector, if m == 0.0 then 0.0 else floor / m)
  }

  lemma {:induction false} OutsideRank(c: set<Row>, s: Scoring, k: nat, floor: real, r: Row)
    requires RankPremise(s) && DistinctIds(c) && k >= 1
    requires IsLexicalFloor(c, s, k, floor)
    requires r in c && r !in LexicalStage(c, s, k)
    ensures s.rank(r) <= floor
  {
    var m := HitsOf(Matching(c, s), s.rank);
    if s.matches(r) {
      var h := Hit(r.id, s.rank(r), r);
      HitsAreKeyed(Matching(c, s), s.rank);
      assert h in m;
      SubsetSize(Ahead(m, h) + {h}, m);
      assert |Matching(c, s)| >= k;
      var low :| low in LexicalStage(c, s, k) && s.rank(low) == floor;
      NotKeptIsBehind(c, s, k, low, r);
    }
  }

  /** A matching row the lexical stage dropped comes after every row it kept. */
  lemma {:induction false} NotKeptIsBehind(c: set<Row>, s: Scoring, k: nat, x: Row, r: Row)
    requires DistinctIds(c) && x in LexicalStage(c, s, k)
    requires r in Matching(c, s) && r !in LexicalStage(c, s, k)
    ensures Before(Hit(x.id, s.rank(x), x), Hit(r.id, s.rank(r), r))
  {
    var m := HitsOf(Matching(c, s), s.rank);
    var hx, hr := Hit(x.id, s.rank(x), x), Hit(r.id, s.rank(r), r);
    assert hx in m && hr in m;
    if Before(hr, hx) {
      AheadGrows(m, hr, hx);
    }
  }

  /** Every row in scope but outside both stages scores at most the bound. */
  lemma {:induction false} OutsideScoresAtMostBound(c: set<Row>, s: Scoring, k: nat, vec: set<Row>, alpha: real,
                                 lowVector: real, floor: real, r: Row)
    requires RankPremise(s) && DistinctIds(c) && k >= 1 && 0.0 <= alpha <= 1.0
    requires IsVectorStage(c, s, k, vec) && IsLowest(vec, s.vectorScore, lowVector)
    requires IsLexicalFloor(c, s, k, floor)
    requires r in c && r !in vec && r !in LexicalStage(c, s, k)
    ensures WeightedScore(c, s, alpha, r) <= OutsideBound(c, s, alpha, lowVector, floor)
  {
    var low :| low in vec && s.vectorScore(low) == lowVector;
    assert r in c - vec;
    OutsideRank(c, s, k, floor, r);
    var m := MaxOf(c, s.rank);
    assert m >= 0.0;
    QuotientUp(s.rank(r), floor, m);
    MixUp(alpha, s.vectorScore(r), lowVector, NormalizedRank(c, s, r), if m == 0.0 then 0.0 else floor / m);
  }

  lemma {:induction false} QuotientUp(x: real, y: real, m: real)
    requires m >= 0.0 && x <= y
    ensures (if m == 0.0 then 0.0 else x / m) <= if m == 0.0 then 0.0 else y / m
  {
    if m != 0.0 {
      DivideUp(x, y, m);
    }
  }

  lemma {:induction false} MixUp(alpha: real, v: real, w: real, x: real, y: real)
    requires 0.0 <= alpha <= 1.0 && v <= w && x <= y
    ensures Mix(alpha, v, x) <= Mix(alpha, w, y)
  {
    ProductSign(alpha, w - v);
    ProductSign(1.0 - alpha, y - x);
    calc {
      Mix(alpha, w, y) - Mix(alpha, v, x);
      alpha * (w - v) + (1.0 - alpha) * (y - x);
    }
  }

  /** When the last score of a full candidate answer is above the bound, nothing was lost. */
  lemma {:induction false} AboveBoundIsExhaustive(t: set<Row>, q: Request, s: Scoring, k: nat, vec: set<Row>,
                               lowVector: real, floor: real, out: seq<Hit<Row>>)
    requires RankPremise(s) && DistinctIds(t) && k >= 1 && 0.0 <= q.alpha <= 1.0
    requires IsVectorStage(ScopeOf(t, q), s, k, vec) && IsLowest(vec, s.vectorScore, lowVector)
    requires IsLexicalFloor(ScopeOf(t, q), s, k, floor)
    requires Answers(Candidates, WeightedSum, t, q, s, k, vec, out)
    requires |out| == q.limit >= 1
    requires out[|out| - 1].score > OutsideBound(ScopeOf(t, q), s, q.alpha, lowVector, floor)
    ensures Answers(Exhaustive, WeightedSum, t, q, s, k, vec, out)
  {
    var c := ScopeOf(t, q);
    var u := CandidateSet(Candidates, t, q, s, k, vec);
    CandidatesWithinScope(t, q, s, k, vec);
    WeightedHitsAgree(c, u, s, q.alpha);
    var f := FusedScore(WeightedSum, q.alpha, c, s);
    var all := HitsOf(c, f);
    var sub := HitsOf(u, FusedScore(WeightedSum, q.alpha, u, s));
    HitsAreKeyed(c, f);
    TopIsSorted(sub, q.limit, out);
    forall x, i | x in all - sub && 0 <= i < |out|
      ensures Before(out[i], x)
    {
      assert x.row in c && x.row !in u;
      OutsideScoresAtMostBound(c, s, k, vec, q.alpha, lowVector, floor, x.row);
      if i < |out| - 1 {
        assert Before(out[i], out[|out| - 1]);
      }
    }
    TopIgnoresLateRows(all, sub, q.limit, out);
  }

  /** When K covers the scope both modes have the same answers, for both fusions. */
  lemma {:induction false} CoveringKIsExhaustive(f: Fusion, t: set<Row>, q: Request, s: Scoring, k: nat, vec: set<Row>, out: seq<Hit<Row>>)
    requires RankPremise(s) && DistinctIds(t) && k >= 1 && IsVectorStage(ScopeOf(t, q), s, k, vec)
    requires |ScopeOf(t, q)| <= k
    ensures Answers(Candidates, f, t, q, s, k, vec, out) <==> Answers(Exhaustive, f, t, q, s, k, vec, out)
  {
    var c := ScopeOf(t, q);
    CandidatesWithinScope(t, q, s, k, vec);
    SubsetSize(vec, c);
    assert CandidateSet(Candidates, t, q, s, k, vec) == c;
  }

  // ----- Reciprocal rank fusion -----

  lemma {:induction false} RankShrinks(c: set<Row>, u: set<Row>, f: Row -> real, r: Row)
    requires u <= c
    ensures RankIn(u, f, r) <= RankIn(c, f, r)
  {
    SubsetSize(Better(u, f, r), Better(c, f, r));
  }

  /** A row the vector stage kept has the same RANK() among the candidates as among all rows. */
  lemma {:induction false} VectorRankPreserved(c: set<Row>, s: Scoring, k: nat, vec: set<Row>, u: set<Row>, r: Row)
    requires IsVectorStage(c, s, k, vec) && vec <= u <= c && r in vec
    ensures RankIn(u, s.vectorScore, r) == RankIn(c, s.vectorScore, r)
  {
    forall x | x in Better(c, s.vectorScore, r)
      ensures x in u
    {
      assert x in vec || x in c - vec;
    }
    assert Better(u, s.vectorScore, r) == Better(c, s.vectorScore, r);
  }

  /** The same on the lexical side. */
  lemma {:induction false} LexicalRankPreserved(c: set<Row>, s: Scoring, k: nat, u: set<Row>, r: Row)
    requires RankPremise(s) && DistinctIds(c) && LexicalStage(c, s, k) <= u <= c && r in LexicalStage(c, s, k)
    ensures RankIn(u, s.rank, r) == RankIn(c, s.rank, r)
  {
    forall x | x in Better(c, s.rank, r)
      ensures x in u
    {
      assert s.matches(x);
      if x !in LexicalStage(c, s, k) {
        NotKeptIsBehind(c, s, k, r, x);
      }
    }
    assert Better(u, s.rank, r) == Better(c, s.rank, r);
  }

  lemma {:induction false} ShareDown(k: real, a: nat, b: nat)
    requires k >= 0.0 && 1 <= a <= b
    ensures 0.0 < Share(k, b) <= Share(k, a) <= 1.0 / (k + 1.0)
  {
    InverseDown(k + a as real, k + b as real);
    InverseDown(k + 1.0, k + a as real);
  }

  /** RRF among the candidates: no row scores lower than in exhaustive mode, a row of both stages
      scores exactly the same, and no score exceeds 2 / (k + 1). */
  lemma {:induction false} RrfScores(t: set<Row>, q: Request, s: Scoring, k: nat, vec: set<Row>, r: Row)
    requires RankPremise(s) && DistinctIds(t) && k >= 1 && IsVectorStage(ScopeOf(t, q), s, k, vec)
    requires r in CandidateSet(Candidates, t, q, s, k, vec)
    ensures var c, u := ScopeOf(t, q), CandidateSet(Candidates, t, q, s, k, vec);
            && RrfScore(c, s, RRF_K, r) <= RrfScore(u, s, RRF_K, r) <= 2.0 / (RRF_K + 1.0)
            && (r in vec && r in LexicalStage(c, s, k) ==> RrfScore(u, s, RRF_K, r) == RrfScore(c, s, RRF_K, r))
  {
    var c, u := ScopeOf(t, q), CandidateSet(Candidates, t, q, s, k, vec);
    CandidatesWithinScope(t, q, s, k, vec);
    RankShrinks(c, u, s.vectorScore, r);
    RankShrinks(c, u, s.rank, r);
    SharesDown(RRF_K, RankIn(u, s.vectorScore, r), RankIn(c, s.vectorScore, r),
                    RankIn(u, s.rank, r), RankIn(c, s.rank, r));
    if r in vec && r in LexicalStage(c, s, k) {
      VectorRankPreserved(c, s, k, vec, u, r);
      LexicalRankPreserved(c, s, k, u, r);
    }
  }

  lemma {:induction false} SharesDown(k: real, a: nat, b: nat, x: nat, y: nat)
    requires k >= 0.0 && 1 <= a <= b && 1 <= x <= y
    ensures Share(k, b) + Share(k, y) <= Share(k, a) + Share(k, x) <= 2.0 / (k + 1.0)
  {
    ShareDown(k, a, b);
    ShareDown(k, x, y);
    assert 1.0 / (k + 1.0) + 1.0 / (k + 1.0) == 2.0 / (k + 1.0);
  }

  lemma {:induction false} RankMonotone(c: set<Row>, f: Row -> real, x: Row, r: Row)
    requires f(x) >= f(r)
    ensures RankIn(c, f, x) <= RankIn(c, f, r)
  {
    SubsetSize(Better(c, f, x), Better(c, f, r));
  }

  /** In exhaustive RRF a row of both stages is never beaten by a row outside both. */
  lemma {:induction false} BothStagesDominateOutside(c: set<Row>, s: Scoring, k: nat, vec: set<Row>, x: Row, r: Row)
    requires RankPremise(s) && DistinctIds(c) && IsVectorStage(c, s, k, vec)
    requires x in vec && x in LexicalStage(c, s, k)
    requires r in c && r !in vec && r !in LexicalStage(c, s, k)
    ensures RrfScore(c, s, RRF_K, x) >= RrfScore(c, s, RRF_K, r)
  {
    assert r in c - vec;
    if s.matches(r) {
      NotKeptIsBehind(c, s, k, x, r);
    }
    RankMonotone(c, s.vectorScore, x, r);
    RankMonotone(c, s.rank, x, r);
    SharesDown(RRF_K, RankIn(c, s.vectorScore, x), RankIn(c, s.vectorScore, r),
                    RankIn(c, s.rank, x), RankIn(c, s.rank, r));
  }

  /** The request's alpha never reaches an RRF answer. */
  lemma {:induction false} RrfIgnoresAlpha(mode: SearchMode, t: set<Row>, q: Request, beta: real, s: Scoring, k: nat, vec: set<Row>,
                        out: seq<Hit<Row>>)
    ensures Answers(mode, Rrf, t, q, s, k, vec, out) <==> Answers(mode, Rrf, t, q.(alpha := beta), s, k, vec, out)
  {
    var p := q.(alpha := beta);
    assert ScopeOf(t, q) == ScopeOf(t, p);
    var c := CandidateSet(mode, t, q, s, k, vec);
    assert c == CandidateSet(mode, t, p, s, k, vec);
    var f, g := FusedScore(Rrf, q.alpha, c, s), FusedScore(Rrf, beta, c, s);
    assert forall r :: f(r) == g(r);
    assert HitsOf(c, f) == HitsOf(c, g);
  }
}
