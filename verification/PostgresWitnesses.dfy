/** Exactly when candidate mode agrees with exhaustive mode: the orders it keeps, the rows it can lose. */
module PostgresWitnesses {
  import opened Wrappers
  import opened Runes
  import opened Records
  import opened Sequences
  import opened TopOrder
  import opened Tokenizers
  import opened Vectors
  import opened PostgresSearch
  import opened Samples

  // ----- The order of two candidates -----

  /** Two candidate rows the modes put in opposite orders: exhaustive mode has x ahead of y, candidate mode y ahead of x. */
  ghost predicate Reorders(f: Fusion, t: set<Row>, q: Request, s: Scoring, k: nat, vec: set<Row>, x: Row, y: Row) {
    var c, u := ScopeOf(t, q), CandidateSet(Candidates, t, q, s, k, vec);
    && x in u && y in u
    && Before(Hit(x.id, FusedScore(f, q.alpha, c, s)(x), x), Hit(y.id, FusedScore(f, q.alpha, c, s)(y), y))
    && Before(Hit(y.id, FusedScore(f, q.alpha, u, s)(y), y), Hit(x.id, FusedScore(f, q.alpha, u, s)(x), x))
  }

  /** The weighted sum never reorders two candidate rows. */
  lemma {:induction false} WeightedSumNeverReorders(t: set<Row>, q: Request, s: Scoring, k: nat, vec: set<Row>, x: Row, y: Row)
    requires RankPremise(s) && DistinctIds(t) && k >= 1 && IsVectorStage(ScopeOf(t, q), s, k, vec)
    ensures !Reorders(WeightedSum, t, q, s, k, vec, x, y)
  {
    var c, u := ScopeOf(t, q), CandidateSet(Candidates, t, q, s, k, vec);
    CandidatesWithinScope(t, q, s, k, vec);
    assert NormalizedRank(u, s, x) == NormalizedRank(c, s, x);
    assert NormalizedRank(u, s, y) == NormalizedRank(c, s, y);
  }

  /** Under RRF a row of both stages never overtakes another candidate: its score is exact, the other's can only grow. */
  lemma {:induction false} BothStagesNeverOvertake(t: set<Row>, q: Request, s: Scoring, k: nat, vec: set<Row>, x: Row, y: Row)
    requires RankPremise(s) && DistinctIds(t) && k >= 1 && IsVectorStage(ScopeOf(t, q), s, k, vec)
    requires y in vec && y in LexicalStage(ScopeOf(t, q), s, k)
    ensures !Reorders(Rrf, t, q, s, k, vec, x, y)
  {
    if x in CandidateSet(Candidates, t, q, s, k, vec) {
      CandidatesWithinScope(t, q, s, k, vec);
      RrfScores(t, q, s, k, vec, x);
      RrfScores(t, q, s, k, vec, y);
    }
  }

  /** Which of the two stages kept a row. */
  ghost predicate KeptBy(t: set<Row>, q: Request, s: Scoring, k: nat, vec: set<Row>, y: Row, byVector: bool, byRank: bool) {
    && (y in vec <==> byVector)
    && (y in LexicalStage(ScopeOf(t, q), s, k) <==> byRank)
  }

  /** For a candidate kept by given stages: in every search that can happen it overtakes nobody under RRF, if and
      only if both stages kept it. */
  lemma {:induction false} RrfKeepsOrderExactly(byVector: bool, byRank: bool)
    requires byVector || byRank
    ensures (forall t, q, s, k, vec, x, y | CanHappen(t, q, s, k, vec) && KeptBy(t, q, s, k, vec, y, byVector, byRank) ::
               !Reorders(Rrf, t, q, s, k, vec, x, y))
            <==> byVector && byRank
  {
    if byVector && byRank {
      forall t, q, s, k, vec, x, y | CanHappen(t, q, s, k, vec) && KeptBy(t, q, s, k, vec, y, byVector, byRank)
        ensures !Reorders(Rrf, t, q, s, k, vec, x, y)
      {
        ReachableHasDistinctIds(t);
        BothStagesNeverOvertake(t, q, s, k, vec, x, y);
      }
    } else if byVector {
      VectorOnlyOvertakes();
    } else {
      RankOnlyOvertakes();
    }
  }

  /** What a reader of an RRF answer in candidate mode may rely on: behind a row of both stages, nothing stands that
      exhaustive mode has ahead of it; and the row's score is the exhaustive one. */
  lemma {:induction false} AheadStaysAhead(t: set<Row>, q: Request, s: Scoring, k: nat, vec: set<Row>, out: seq<Hit<Row>>,
                                           full: seq<Hit<Row>>, i: nat, j: nat)
    requires RankPremise(s) && DistinctIds(t) && k >= 1 && IsVectorStage(ScopeOf(t, q), s, k, vec)
    requires Answers(Candidates, Rrf, t, q, s, k, vec, out)
    requires Answers(Exhaustive, Rrf, t, q.(limit := |ScopeOf(t, q)|), s, k, vec, full)
    requires i < j < |out| && out[i].row in vec && out[i].row in LexicalStage(ScopeOf(t, q), s, k)
    ensures exists a, b :: 0 <= a < b < |full| && full[a] == out[i] && full[b].row == out[j].row
  {
    var all := HitsOf(ScopeOf(t, q), FusedScore(Rrf, q.alpha, ScopeOf(t, q), s));
    var y := Hit(out[j].row.id, FusedScore(Rrf, q.alpha, ScopeOf(t, q), s)(out[j].row), out[j].row);
    AheadInBoth(t, q, s, k, vec, out, i, j);
    FullAnswer(Rrf, t, q, s, k, vec, full);
    assert out[i] in all && y in all;
    hide *;
    FullHolds(all, full, out[i], y);
  }

  lemma {:induction false} AheadInBoth(t: set<Row>, q: Request, s: Scoring, k: nat, vec: set<Row>, out: seq<Hit<Row>>, i: nat, j: nat)
    requires RankPremise(s) && DistinctIds(t) && k >= 1 && IsVectorStage(ScopeOf(t, q), s, k, vec)
    requires Answers(Candidates, Rrf, t, q, s, k, vec, out)
    requires i < j < |out| && out[i].row in vec && out[i].row in LexicalStage(ScopeOf(t, q), s, k)
    ensures var c := ScopeOf(t, q);
            var fc := FusedScore(Rrf, q.alpha, c, s);
            var y := out[j].row;
            && out[i].row in c && y in c
            && out[i] == Hit(out[i].row.id, fc(out[i].row), out[i].row)
            && Before(out[i], Hit(y.id, fc(y), y))
  {
    var c, u := ScopeOf(t, q), CandidateSet(Candidates, t, q, s, k, vec);
    var fu := FusedScore(Rrf, q.alpha, u, s);
    CandidatesWithinScope(t, q, s, k, vec);
    hide CandidateSet, MaxOf;
    HitsAreKeyed(u, fu);
    TopIsSorted(HitsOf(u, fu), q.limit, out);
    assert out[i] in HitsOf(u, fu) && out[j] in HitsOf(u, fu);
    RrfScores(t, q, s, k, vec, out[i].row);
    RrfScores(t, q, s, k, vec, out[j].row);
    hide RrfScore, LexicalStage, IsVectorStage, Ahead;
  }

  lemma {:induction false} FullHolds(all: set<Hit<Row>>, full: seq<Hit<Row>>, x: Hit<Row>, y: Hit<Row>)
    requires Keyed(all) && IsTop(all, |all|, full) && x in all && y in all && Before(x, y)
    ensures exists a, b :: 0 <= a < b < |full| && full[a] == x && full[b] == y
  {
    TopMembers(all, |all|, full, x);
    TopMembers(all, |all|, full, y);
    AheadGrows(all, x, y);
    SubsetSize(Ahead(all, y) + {y}, all);
    var a :| 0 <= a < |full| && full[a] == x;
    var b :| 0 <= b < |full| && full[b] == y;
    assert a == |Ahead(all, x)| && b == |Ahead(all, y)|;
  }

  // ----- Three stored rows -----

  const ONE: Text := [Word(97)]
  const TWO: Text := [Word(98)]
  const THREE: Text := [Word(99)]

  const CONTENTS := [ONE, TWO, THREE]

  function Ranks(one: real, two: real, other: real): Text -> real {
    (t: Text) => if t == ONE then one else if t == TWO then two else other
  }

  function Triple(vectors: seq<seq<real>>): (rows: seq<Row>)
    requires |vectors| == 3
    ensures |rows| == 3 && forall i | 0 <= i < 3 :: rows[i] == SampleRow(CONTENTS, vectors, i)
  {
    SampleRows(CONTENTS, vectors)
  }

  /** With K = 1, the stages keep the row that is best by vector and the row that is best by rank. */
  lemma {:induction false} TripleStages(vectors: seq<seq<real>>, ranks: Text -> real, limit: nat, alpha: real, p: nat, r: nat)
    requires |vectors| == 3 && Storable(CONTENTS, vectors) && (forall t :: ranks(t) >= 0.0) && p < 3 && r < 3
    requires limit >= 1 && 0.0 <= alpha <= 1.0
    requires var s, rows := SampleScoring(ranks), Triple(vectors);
             && (forall i | 0 <= i < 3 :: s.vectorScore(rows[p]) >= s.vectorScore(rows[i]))
             && (forall i | 0 <= i < 3 && i != r :: s.rank(rows[r]) > s.rank(rows[i]))
    ensures var s, rows, q := SampleScoring(ranks), Triple(vectors), SampleRequest(limit, alpha);
            var t := Elements(rows);
            && CanHappen(t, q, s, 1, {rows[p]}) && ScopeOf(t, q) == t
            && LexicalStage(t, s, 1) == {rows[r]}
            && CandidateSet(Candidates, t, q, s, 1, {rows[p]}) == {rows[p], rows[r]}
  {
    var s, rows, q := SampleScoring(ranks), Triple(vectors), SampleRequest(limit, alpha);
    var t := Elements(rows);
    assert t == {rows[0], rows[1], rows[2]};
    ElementsSize(rows);
    SampleIsReachable(CONTENTS, vectors);
    hide Reachable, Storable;
    ReachableHasDistinctIds(t);
    SampleCanHappen(CONTENTS, vectors, ranks, limit, alpha, 1, {rows[p]});
    hide CanHappen, Elements, Reachable, Storable, SampleRow, IsVectorStage;
    BestByRank(t, s, rows[r]);
    JoinIsUnion(t, {rows[p]}, {rows[r]});
  }

  lemma {:induction false} BestByRank(t: set<Row>, s: Scoring, best: Row)
    requires RankPremise(s) && DistinctIds(t) && best in t
    requires forall r | r in t && r != best :: s.rank(best) > s.rank(r)
    requires s.matches(best)
    ensures LexicalStage(t, s, 1) == {best}
  {
    var m := Matching(t, s);
    var hits := HitsOf(m, s.rank);
    var hb := Hit(best.id, s.rank(best), best);
    assert hb in hits;
    assert Ahead(hits, hb) == {};
    forall r | r in m && r != best
      ensures r !in LexicalStage(t, s, 1)
    {
      assert hb in Ahead(hits, Hit(r.id, s.rank(r), r));
    }
  }

  const NEAR := Direction(0.3, 0.954)
  const MIDDLE := Direction(0.2, 0.98)
  const FAR := Direction(0.1, 0.995)

  lemma {:induction false} DirectionsAreValid()
    ensures IsNormalized(NEAR) && IsNormalized(MIDDLE) && IsNormalized(FAR)
    ensures Starts(NEAR, 0.3) && Starts(MIDDLE, 0.2) && Starts(FAR, 0.1)
  {
    DirectionIsNormalized(0.3, 0.954);
    DirectionIsNormalized(0.2, 0.98);
    DirectionIsNormalized(0.1, 0.995);
  }

  lemma {:induction false} TripleIsStorable(vectors: seq<seq<real>>)
    requires |vectors| == 3 && IsNormalized(vectors[0]) && IsNormalized(vectors[1]) && IsNormalized(vectors[2])
    ensures Storable(CONTENTS, vectors)
  {
    hide IsNormalized;
    forall v | v in vectors
      ensures IsNormalized(v)
    {
      var i :| 0 <= i < 3 && vectors[i] == v;
    }
  }

  lemma {:induction false} SampleShares()
    ensures Share(RRF_K, 1) == 1.0 / 61.0 && Share(RRF_K, 2) == 1.0 / 62.0 && Share(RRF_K, 3) == 1.0 / 63.0
  {
  }

  lemma {:induction false} RanksOfThree(t: set<Row>, f: Row -> real, hi: Row, mid: Row, lo: Row)
    requires t == {hi, mid, lo} && f(hi) > f(mid) > f(lo)
    ensures RankIn(t, f, hi) == 1 && RankIn(t, f, mid) == 2 && RankIn(t, f, lo) == 3
  {
    assert Better(t, f, hi) == {} && Better(t, f, mid) == {hi} && Better(t, f, lo) == {hi, mid};
  }

  predicate Starts(v: seq<real>, x: real) {
    |v| == DIMENSIONS && v[0] == x
  }

  /** The three rows with these vector scores and ranks. */
  ghost predicate TripleScores(vectors: seq<seq<real>>, ranks: Text -> real, va: real, vb: real, vc: real, la: real, lb: real, lc: real)
  {
    && |vectors| == 3 && Storable(CONTENTS, vectors) && (forall t :: ranks(t) >= 0.0)
    && Starts(vectors[0], va) && Starts(vectors[1], vb) && Starts(vectors[2], vc)
    && ranks(ONE) == la && ranks(TWO) == lb && ranks(THREE) == lc
  }

  lemma {:induction false} ScoresOfThree(vectors: seq<seq<real>>, ranks: Text -> real, va: real, vb: real, vc: real, la: real, lb: real, lc: real)
    requires TripleScores(vectors, ranks, va, vb, vc, la, lb, lc)
    ensures var s, rows := SampleScoring(ranks), Triple(vectors);
            && rows[0].id == 1 && rows[1].id == 2 && rows[2].id == 3
            && Elements(rows) == {rows[0], rows[1], rows[2]}
            && s.vectorScore(rows[0]) == va && s.vectorScore(rows[1]) == vb && s.vectorScore(rows[2]) == vc
            && s.rank(rows[0]) == la && s.rank(rows[1]) == lb && s.rank(rows[2]) == lc
  {
  }

  lemma {:induction false} VectorOnlyFrom(vectors: seq<seq<real>>, ranks: Text -> real, t: set<Row>, q: Request, s: Scoring, x: Row, y: Row)
    requires TripleScores(vectors, ranks, 0.3, 0.2, 0.1, 0.1, 0.3, 0.2)
    requires s == SampleScoring(ranks) && q == SampleRequest(2, 0.5) && t == Elements(Triple(vectors))
    requires y == Triple(vectors)[0] && x == Triple(vectors)[1]
    ensures CanHappen(t, q, s, 1, {y}) && KeptBy(t, q, s, 1, {y}, y, true, false) && Reorders(Rrf, t, q, s, 1, {y}, x, y)
  {
    var z := Triple(vectors)[2];
    ScoresOfThree(vectors, ranks, 0.3, 0.2, 0.1, 0.1, 0.3, 0.2);
    hide SampleScoring, Storable, SampleRow, IsNormalized;
    TripleStages(vectors, ranks, 2, 0.5, 0, 1);
    VectorOnlyOfThree(t, q, s, x, y, z);
  }

  lemma {:induction false} VectorOnlyOfThree(t: set<Row>, q: Request, s: Scoring, x: Row, y: Row, z: Row)
    requires t == {x, y, z} && y.id < x.id && ScopeOf(t, q) == t
    requires s.vectorScore(y) > s.vectorScore(x) > s.vectorScore(z) && s.rank(x) > s.rank(z) > s.rank(y)
    requires LexicalStage(t, s, 1) == {x} && CandidateSet(Candidates, t, q, s, 1, {y}) == {x, y}
    ensures KeptBy(t, q, s, 1, {y}, y, true, false) && Reorders(Rrf, t, q, s, 1, {y}, x, y)
  {
    hide CandidateSet, LexicalStage, Reorders, ScopeOf;
    RanksOfThree(t, s.vectorScore, y, x, z);
    RanksOfThree(t, s.rank, x, z, y);
    Overtakes(t, q, s, {y}, y, x, x, y);
  }

  lemma {:induction false} RankOnlyFrom(vectors: seq<seq<real>>, ranks: Text -> real, t: set<Row>, q: Request, s: Scoring, x: Row, y: Row)
    requires TripleScores(vectors, ranks, 0.1, 0.3, 0.2, 0.3, 0.2, 0.1)
    requires s == SampleScoring(ranks) && q == SampleRequest(2, 0.5) && t == Elements(Triple(vectors))
    requires y == Triple(vectors)[0] && x == Triple(vectors)[1]
    ensures CanHappen(t, q, s, 1, {x}) && KeptBy(t, q, s, 1, {x}, y, false, true) && Reorders(Rrf, t, q, s, 1, {x}, x, y)
  {
    var z := Triple(vectors)[2];
    ScoresOfThree(vectors, ranks, 0.1, 0.3, 0.2, 0.3, 0.2, 0.1);
    hide SampleScoring, Storable, SampleRow, IsNormalized;
    TripleStages(vectors, ranks, 2, 0.5, 1, 0);
    RankOnlyOfThree(t, q, s, x, y, z);
  }

  lemma {:induction false} RankOnlyOfThree(t: set<Row>, q: Request, s: Scoring, x: Row, y: Row, z: Row)
    requires t == {x, y, z} && y.id < x.id && ScopeOf(t, q) == t
    requires s.vectorScore(x) > s.vectorScore(z) > s.vectorScore(y) && s.rank(y) > s.rank(x) > s.rank(z)
    requires LexicalStage(t, s, 1) == {y} && CandidateSet(Candidates, t, q, s, 1, {x}) == {x, y}
    ensures KeptBy(t, q, s, 1, {x}, y, false, true) && Reorders(Rrf, t, q, s, 1, {x}, x, y)
  {
    hide CandidateSet, LexicalStage, Reorders, ScopeOf;
    RanksOfThree(t, s.vectorScore, x, z, y);
    RanksOfThree(t, s.rank, y, x, z);
    Overtakes(t, q, s, {x}, x, y, x, y);
  }

  /** A row that only the vector stage kept can overtake: exhaustively the second row is ahead of the first, among the
      candidates they tie and the id decides. */
  lemma {:induction false} VectorOnlyOvertakes()
    ensures exists t, q, s, k, vec, x, y :: CanHappen(t, q, s, k, vec) && KeptBy(t, q, s, k, vec, y, true, false)
                                            && Reorders(Rrf, t, q, s, k, vec, x, y)
  {
    var vectors, ranks := [NEAR, MIDDLE, FAR], Ranks(0.1, 0.3, 0.2);
    DirectionsAreValid();
    TripleIsStorable(vectors);
    assert TripleScores(vectors, ranks, 0.3, 0.2, 0.1, 0.1, 0.3, 0.2);
    var rows := Triple(vectors);
    VectorOnlyFrom(vectors, ranks, Elements(rows), SampleRequest(2, 0.5), SampleScoring(ranks), rows[1], rows[0]);
  }

  /** So can a row that only the lexical stage kept. */
  lemma {:induction false} RankOnlyOvertakes()
    ensures exists t, q, s, k, vec, x, y :: CanHappen(t, q, s, k, vec) && KeptBy(t, q, s, k, vec, y, false, true)
                                            && Reorders(Rrf, t, q, s, k, vec, x, y)
  {
    var vectors, ranks := [FAR, NEAR, MIDDLE], Ranks(0.3, 0.2, 0.1);
    DirectionsAreValid();
    TripleIsStorable(vectors);
    assert TripleScores(vectors, ranks, 0.1, 0.3, 0.2, 0.3, 0.2, 0.1);
    var rows := Triple(vectors);
    RankOnlyFrom(vectors, ranks, Elements(rows), SampleRequest(2, 0.5), SampleScoring(ranks), rows[1], rows[0]);
  }

  /** p is first by vector, r is first by rank; exhaustively one of them, y, is third on its other side. */
  lemma {:induction false} Overtakes(t: set<Row>, q: Request, s: Scoring, vec: set<Row>, p: Row, r: Row, x: Row, y: Row)
    requires vec == {p} && p != r && {x, y} == {p, r} && y.id < x.id
    requires CandidateSet(Candidates, t, q, s, 1, vec) == {p, r} && ScopeOf(t, q) == t
    requires s.vectorScore(p) > s.vectorScore(r) && s.rank(r) > s.rank(p)
    requires RankIn(t, s.vectorScore, p) == 1 && RankIn(t, s.rank, r) == 1
    requires RankIn(t, s.vectorScore, r) == (if y == r then 3 else 2) && RankIn(t, s.rank, p) == (if y == p then 3 else 2)
    ensures Reorders(Rrf, t, q, s, 1, vec, x, y)
  {
    var u := {p, r};
    assert Better(u, s.vectorScore, p) == {} && Better(u, s.vectorScore, r) == {p};
    assert Better(u, s.rank, p) == {r} && Better(u, s.rank, r) == {};
    SampleShares();
  }

  /** RRF does reorder candidates in searches that can happen. */
  lemma {:induction false} RrfReorders()
    ensures exists t, q, s, k, vec, x, y :: CanHappen(t, q, s, k, vec) && Reorders(Rrf, t, q, s, k, vec, x, y)
  {
    VectorOnlyOvertakes();
  }

  // ----- What candidate mode can lose -----

  /** n rows with the same text and the same vector. */
  ghost function Copies(n: nat): (rows: seq<Row>)
    ensures |rows| == n && forall i | 0 <= i < n :: rows[i].id == i + 1 && rows[i].vector == Direction(1.0, 0.0)
  {
    SampleRows(seq(n, i => ONE), seq(n, i => Direction(1.0, 0.0)))
  }

  const NO_RANKS: Text -> real := (t: Text) => 0.0

  lemma {:induction false} CopiesCanHappen(n: nat, k: nat, limit: nat, alpha: real)
    requires 1 <= k < n && limit >= 1 && 0.0 <= alpha <= 1.0
    ensures var t, q, s := Elements(Copies(n)), SampleRequest(limit, alpha), SampleScoring(NO_RANKS);
            var vec := Elements(Copies(n)[1..k + 1]);
            && CanHappen(t, q, s, k, vec) && ScopeOf(t, q) == t && |t| == n && DistinctIds(t)
            && |vec| == k && CandidateSet(Candidates, t, q, s, k, vec) == vec <= t
  {
    var contents, vectors := seq(n, i => ONE), seq(n, i => Direction(1.0, 0.0));
    DirectionIsNormalized(1.0, 0.0);
    hide IsNormalized;
    assert Storable(contents, vectors);
    var rows := Copies(n);
    var t, q, s := Elements(rows), SampleRequest(limit, alpha), SampleScoring(NO_RANKS);
    var vec := Elements(rows[1..k + 1]);
    ElementsSize(rows);
    ElementsSize(rows[1..k + 1]);
    assert IsVectorStage(t, s, k, vec);
    SampleIsReachable(contents, vectors);
    ReachableHasDistinctIds(t);
    SampleCanHappen(contents, vectors, NO_RANKS, limit, alpha, k, vec);
    assert LexicalStage(t, s, k) == {};
    JoinIsUnion(t, vec, {});
  }

  /** All copies score the same, so the one with the smallest id is the exhaustive winner. */
  lemma {:induction false} CopiesTie(f: Fusion, alpha: real, c: set<Row>, x: Row, y: Row)
    requires forall r | r in c :: r.vector == Direction(1.0, 0.0)
    requires x in c && y in c
    ensures FusedScore(f, alpha, c, SampleScoring(NO_RANKS))(x) == FusedScore(f, alpha, c, SampleScoring(NO_RANKS))(y)
  {
    var s := SampleScoring(NO_RANKS);
    assert Better(c, s.vectorScore, x) == Better(c, s.vectorScore, y) == {};
    assert Better(c, s.rank, x) == Better(c, s.rank, y) == {};
  }

  /** For every scope larger than K there is a search that can happen in which candidate mode misses the best row of
      exhaustive mode, under either fusion, for every limit and alpha. */
  lemma {:induction false} CandidateModeCanLose(f: Fusion, alpha: real, n: nat, k: nat, limit: nat)
    requires 1 <= k < n && limit >= 1 && 0.0 <= alpha <= 1.0
    ensures exists t, q, s, vec, out: seq<Hit<Row>> :: Loses(f, alpha, n, k, limit, t, q, s, vec, out)
  {
    hide Copies, SampleScoring, FusedScore, CanHappen, CandidateSet, Loses, ScopeOf, Direction;
    var rows := Copies(n);
    var t, q, s := Elements(rows), SampleRequest(limit, alpha), SampleScoring(NO_RANKS);
    var vec := Elements(rows[1..k + 1]);
    CopiesCanHappen(n, k, limit, alpha);
    assert q.limit == limit && q.alpha == alpha && rows[0] in t && rows[1] in vec;
    forall r | r in vec
      ensures r.id > rows[0].id && FusedScore(f, alpha, t, s)(r) == FusedScore(f, alpha, t, s)(rows[0])
    {
      CopiesTie(f, alpha, t, rows[0], r);
    }
    var out := LoseFrom(f, alpha, n, k, limit, t, q, s, vec, rows[0]);
  }

  lemma {:induction false} LoseFrom(f: Fusion, alpha: real, n: nat, k: nat, limit: nat, t: set<Row>, q: Request, s: Scoring,
                                    vec: set<Row>, first: Row) returns (out: seq<Hit<Row>>)
    requires CanHappen(t, q, s, k, vec) && ScopeOf(t, q) == t && |t| == n && q.limit == limit >= 1 && q.alpha == alpha
    requires DistinctIds(t) && vec != {} && CandidateSet(Candidates, t, q, s, k, vec) == vec <= t && first in t
    requires forall r | r in vec :: r.id > first.id && FusedScore(f, alpha, t, s)(r) == FusedScore(f, alpha, t, s)(first)
    ensures Loses(f, alpha, n, k, limit, t, q, s, vec, out)
  {
    hide CanHappen, FusedScore, ScopeOf, HitsOf, IsTop, DistinctIds;
    assert CandidateSet(Exhaustive, t, q, s, k, vec) == t;
    hide CandidateSet;
    SubsetHasDistinctIds(vec, t);
    out := SomeTop(f, alpha, vec, s, limit);
    MissesTheFirst(f, alpha, t, vec, s, first, limit, out);
  }

  lemma {:induction false} SubsetHasDistinctIds(u: set<Row>, t: set<Row>)
    requires DistinctIds(t) && u <= t
    ensures DistinctIds(u)
  {
  }

  lemma {:induction false} SomeTop(f: Fusion, alpha: real, u: set<Row>, s: Scoring, limit: nat) returns (out: seq<Hit<Row>>)
    requires DistinctIds(u) && u != {} && limit >= 1
    ensures IsTop(HitsOf(u, FusedScore(f, alpha, u, s)), limit, out)
    ensures out != [] && out[0].row in u
  {
    var fu := FusedScore(f, alpha, u, s);
    HitsAreKeyed(u, fu);
    hide FusedScore;
    TopExists(HitsOf(u, fu), limit);
    out :| IsTop(HitsOf(u, fu), limit, out);
    assert out[0] in HitsOf(u, fu);
  }

  /** An answer that starts with a row behind another one in the scope is no exhaustive answer. */
  lemma {:induction false} MissesTheFirst(f: Fusion, alpha: real, t: set<Row>, u: set<Row>, s: Scoring, best: Row, limit: nat, out: seq<Hit<Row>>)
    requires best in t && u <= t && out != [] && out[0].row in u
    requires forall r | r in u :: r.id > best.id && FusedScore(f, alpha, t, s)(r) == FusedScore(f, alpha, t, s)(best)
    ensures !IsTop(HitsOf(t, FusedScore(f, alpha, t, s)), limit, out)
  {
    hide FusedScore;
    var fc := FusedScore(f, alpha, t, s);
    var h := Hit(best.id, fc(best), best);
    assert h in HitsOf(t, fc);
    if out[0] in HitsOf(t, fc) {
      assert h in Ahead(HitsOf(t, fc), out[0]);
      assert |Ahead(HitsOf(t, fc), out[0])| != 0;
    }
  }

  ghost predicate Loses(f: Fusion, alpha: real, n: nat, k: nat, limit: nat,
                        t: set<Row>, q: Request, s: Scoring, vec: set<Row>, out: seq<Hit<Row>>) {
    && CanHappen(t, q, s, k, vec) && |ScopeOf(t, q)| == n && q.limit == limit && q.alpha == alpha
    && Answers(Candidates, f, t, q, s, k, vec, out)
    && !Answers(Exhaustive, f, t, q, s, k, vec, out)
  }

  /** Candidate mode answers exhaustively in every search over n rows in scope if and only if K covers them: for
      either fusion, every limit and every alpha. */
  lemma {:induction false} CandidateModeIsExhaustiveExactly(f: Fusion, alpha: real, n: nat, k: nat, limit: nat)
    requires k >= 1 && limit >= 1 && 0.0 <= alpha <= 1.0
    ensures (forall t, q, s, vec, out :: !Loses(f, alpha, n, k, limit, t, q, s, vec, out)) <==> n <= k
  {
    if n <= k {
      forall t, q, s, vec, out
        ensures !Loses(f, alpha, n, k, limit, t, q, s, vec, out)
      {
        if CanHappen(t, q, s, k, vec) && |ScopeOf(t, q)| == n {
          ReachableHasDistinctIds(t);
          CoveringKIsExhaustive(f, t, q, s, k, vec, out);
        }
      }
    } else {
      CandidateModeCanLose(f, alpha, n, k, limit);
    }
  }

  // ----- A loss that no tie explains -----

  const ALONG := Direction(1.0, 0.0)
  const ACROSS := Direction(0.0, 1.0)
  const SLANTED := Direction(0.9, 0.436)

  const LOSS_RANKS := Ranks(0.0, 1.0, 0.9)

  lemma {:induction false} LossIsStorable()
    ensures TripleScores([ALONG, ACROSS, SLANTED], LOSS_RANKS, 1.0, 0.0, 0.9, 0.0, 1.0, 0.9)
  {
    DirectionIsNormalized(1.0, 0.0);
    DirectionIsNormalized(0.0, 1.0);
    DirectionIsNormalized(0.9, 0.436);
    TripleIsStorable([ALONG, ACROSS, SLANTED]);
  }

  /** Exhaustive mode scores the third row 0.9, candidate mode returns nothing above 0.5: second best on both sides,
      the third row is in neither stage. */
  lemma {:induction false} CandidateModeCanLoseTheBest()
    ensures exists t, q, s, k, vec, out, best :: LosesTheBest(t, q, s, k, vec, out, best)
  {
    LossIsStorable();
    var vectors := [ALONG, ACROSS, SLANTED];
    var rows := Triple(vectors);
    var out := LossFrom(vectors, LOSS_RANKS);
    assert LosesTheBest(Elements(rows), SampleRequest(2, 0.5), SampleScoring(LOSS_RANKS), 1, {rows[0]}, out, rows[2]);
  }

  /** A full page of candidate results, every one of which scores strictly less than a row that is missing. */
  ghost predicate LosesTheBest(t: set<Row>, q: Request, s: Scoring, k: nat, vec: set<Row>, out: seq<Hit<Row>>, best: Row) {
    && CanHappen(t, q, s, k, vec) && best in ScopeOf(t, q)
    && Answers(Candidates, WeightedSum, t, q, s, k, vec, out) && |out| == q.limit
    && forall h | h in out :: WeightedScore(ScopeOf(t, q), s, q.alpha, best) > WeightedScore(ScopeOf(t, q), s, q.alpha, h.row)
  }

  lemma {:induction false} LossFrom(vectors: seq<seq<real>>, ranks: Text -> real) returns (out: seq<Hit<Row>>)
    requires TripleScores(vectors, ranks, 1.0, 0.0, 0.9, 0.0, 1.0, 0.9)
    ensures var rows := Triple(vectors);
            LosesTheBest(Elements(rows), SampleRequest(2, 0.5), SampleScoring(ranks), 1, {rows[0]}, out, rows[2])
  {
    var s, rows, q := SampleScoring(ranks), Triple(vectors), SampleRequest(2, 0.5);
    ScoresOfThree(vectors, ranks, 1.0, 0.0, 0.9, 0.0, 1.0, 0.9);
    hide SampleScoring, Storable, SampleRow, IsNormalized;
    TripleStages(vectors, ranks, 2, 0.5, 0, 1);
    out := LossOfThree(Elements(rows), q, s, rows[0], rows[1], rows[2]);
  }

  lemma {:induction false} LossOfThree(t: set<Row>, q: Request, s: Scoring, a: Row, b: Row, c: Row) returns (out: seq<Hit<Row>>)
    requires t == {a, b, c} && a.id != b.id && CanHappen(t, q, s, 1, {a}) && ScopeOf(t, q) == t && q.limit == 2 && q.alpha == 0.5
    requires CandidateSet(Candidates, t, q, s, 1, {a}) == {a, b}
    requires s.vectorScore(a) == 1.0 && s.vectorScore(b) == 0.0 && s.vectorScore(c) == 0.9
    requires s.rank(a) == 0.0 && s.rank(b) == 1.0 && s.rank(c) == 0.9
    ensures LosesTheBest(t, q, s, 1, {a}, out, c)
  {
    var u := {a, b};
    hide CanHappen, CandidateSet, ScopeOf;
    LossScores(t, s, a, b, c);
    out := SomeTop(WeightedSum, 0.5, u, s, 2);
    var fu := FusedScore(WeightedSum, 0.5, u, s);
    HitsAreKeyed(u, fu);
    hide WeightedScore, FusedScore;
    forall h | h in out
      ensures h.row in u
    {
      assert h in HitsOf(u, fu);
    }
  }

  lemma {:induction false} LossScores(t: set<Row>, s: Scoring, a: Row, b: Row, c: Row)
    requires t == {a, b, c}
    requires s.vectorScore(a) == 1.0 && s.vectorScore(b) == 0.0 && s.vectorScore(c) == 0.9
    requires s.rank(a) == 0.0 && s.rank(b) == 1.0 && s.rank(c) == 0.9
    ensures WeightedScore(t, s, 0.5, a) == 0.5 && WeightedScore(t, s, 0.5, b) == 0.5 && WeightedScore(t, s, 0.5, c) == 0.9
  {
    assert b in t && MaxOf(t, s.rank) == 1.0;
    assert Mix(0.5, 0.9, 0.9) == 0.9 && Mix(0.5, 1.0, 0.0) == 0.5 && Mix(0.5, 0.0, 1.0) == 0.5;
  }
}
