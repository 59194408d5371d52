/** How far one page of candidate results can be trusted: the weighted-sum bound cannot be improved, and RRF has a
    bound of its own. */
module PostgresBounds {
  import opened Records
  import opened Sequences
  import opened TopOrder
  import opened PostgresSearch

  // ----- The weighted-sum bound is tight -----

  /** The same scores, except that z gets these. */
  function WithRow(s: Scoring, z: Row, vector: real, rank: real): Scoring {
    Scoring((r: Row) => if r == z then vector else s.vectorScore(r),
            (r: Row) => if r == z then rank else s.rank(r),
            (r: Row) => if r == z then rank > 0.0 else s.matches(r))
  }

  lemma {:induction false} FloorRange(c: set<Row>, s: Scoring, k: nat, floor: real)
    requires RankPremise(s) && IsLexicalFloor(c, s, k, floor) && c != {}
    ensures 0.0 <= floor <= MaxOf(c, s.rank)
  {
    var any :| any in c;
    if |Matching(c, s)| >= k {
      var r :| r in LexicalStage(c, s, k) && s.rank(r) == floor;
    }
  }

  lemma {:induction false} ScopeWithRow(t: set<Row>, q: Request, z: Row)
    requires InScope(q, z)
    ensures ScopeOf(t + {z}, q) == ScopeOf(t, q) + {z}
  {
  }

  /** A new row with the lowest kept vector score leaves the vector stage as it is. */
  lemma {:induction false} SameVectorStage(c: set<Row>, s: Scoring, k: nat, vec: set<Row>, z: Row, low: real, rank: real)
    requires IsVectorStage(c, s, k, vec) && |vec| == k && IsLowest(vec, s.vectorScore, low) && z !in c
    ensures IsVectorStage(c + {z}, WithRow(s, z, low, rank), k, vec)
  {
    SubsetSize(vec, c + {z});
  }

  /** A new row with the lowest kept rank and a later id leaves the lexical stage as it is. */
  lemma {:induction false} SameLexicalStage(c: set<Row>, s: Scoring, k: nat, z: Row, low: real, floor: real)
    requires RankPremise(s) && DistinctIds(c) && k >= 1 && IsLexicalFloor(c, s, k, floor) && floor >= 0.0
    requires forall r | r in c :: r.id < z.id
    ensures LexicalStage(c + {z}, WithRow(s, z, low, floor), k) == LexicalStage(c, s, k)
  {
    var s' := WithRow(s, z, low, floor);
    var m, m' := Matching(c, s), Matching(c + {z}, s');
    if floor == 0.0 {
      assert m' == m;
      assert HitsOf(m', s'.rank) == HitsOf(m, s.rank);
    } else {
      assert m' == m + {z};
      LateMatch(c, s, k, z, low, floor);
    }
  }

  lemma {:induction false} LateMatch(c: set<Row>, s: Scoring, k: nat, z: Row, low: real, floor: real)
    requires RankPremise(s) && DistinctIds(c) && k >= 1 && IsLexicalFloor(c, s, k, floor) && floor > 0.0
    requires forall r | r in c :: r.id < z.id
    requires Matching(c + {z}, WithRow(s, z, low, floor)) == Matching(c, s) + {z}
    ensures LexicalStage(c + {z}, WithRow(s, z, low, floor), k) == LexicalStage(c, s, k)
  {
    var m, kept, s' := Matching(c, s), LexicalStage(c, s, k), WithRow(s, z, low, floor);
    KeptHits(c, s, k, floor, z);
    forall r | r in m + {z}
      ensures r in LexicalStage(c + {z}, s', k) <==> r in kept
    {
      LateMember(c, s, k, z, low, floor, r);
    }
    assert LexicalStage(c + {z}, s', k) <= m + {z} && kept <= m;
  }

  lemma {:induction false} LateMember(c: set<Row>, s: Scoring, k: nat, z: Row, low: real, floor: real, r: Row)
    requires z !in c && r in Matching(c, s) + {z}
    requires Matching(c + {z}, WithRow(s, z, low, floor)) == Matching(c, s) + {z}
    requires var kept, hz := LexicalStage(c, s, k), Hit(z.id, floor, z);
             && (forall x | x in kept :: Before(Hit(x.id, s.rank(x), x), hz))
             && |HitsOf(kept, s.rank)| == k
             && HitsOf(kept, s.rank) <= Ahead(HitsOf(Matching(c, s), s.rank) + {hz}, hz)
    ensures r in LexicalStage(c + {z}, WithRow(s, z, low, floor), k) <==> r in LexicalStage(c, s, k)
  {
    var m, kept, s' := Matching(c, s), LexicalStage(c, s, k), WithRow(s, z, low, floor);
    var hits, hz := HitsOf(m, s.rank), Hit(z.id, floor, z);
    HitsWithRow(m, s, z, low, floor);
    RanksWithRow(m, s, z, low, floor);
    if r == z {
      SubsetSize(HitsOf(kept, s.rank), Ahead(hits + {hz}, hz));
    } else {
      LateRank(hits, hz, Hit(r.id, s.rank(r), r), k, r in kept);
    }
  }

  lemma {:induction false} RanksWithRow(m: set<Row>, s: Scoring, z: Row, low: real, floor: real)
    requires z !in m
    ensures WithRow(s, z, low, floor).rank(z) == floor && forall r | r in m :: WithRow(s, z, low, floor).rank(r) == s.rank(r)
  {
  }

  lemma {:induction false} HitsWithRow(m: set<Row>, s: Scoring, z: Row, low: real, floor: real)
    requires z !in m
    ensures HitsOf(m + {z}, WithRow(s, z, low, floor).rank) == HitsOf(m, s.rank) + {Hit(z.id, floor, z)}
  {
    RanksWithRow(m, s, z, low, floor);
    hide WithRow;
  }

  /** The k kept hits are all ahead of one with the floor as rank and a later id. */
  lemma {:induction false} KeptHits(c: set<Row>, s: Scoring, k: nat, floor: real, z: Row)
    requires RankPremise(s) && DistinctIds(c) && k >= 1 && IsLexicalFloor(c, s, k, floor) && floor > 0.0
    requires forall r | r in c :: r.id < z.id
    ensures var kept, hz := LexicalStage(c, s, k), Hit(z.id, floor, z);
            && (forall r | r in kept :: Before(Hit(r.id, s.rank(r), r), hz))
            && |HitsOf(kept, s.rank)| == k
            && HitsOf(kept, s.rank) <= Ahead(HitsOf(Matching(c, s), s.rank) + {hz}, hz)
  {
    var kept := LexicalStage(c, s, k);
    LexicalStageSize(c, s, k);
    HitsSize(kept, s.rank);
    assert forall r | r in kept :: r in Matching(c, s) && r in c && s.rank(r) >= floor;
    hide LexicalStage, IsLexicalFloor, RankPremise, Matching;
  }

  /** A hit behind all kept ones does not change which are kept. */
  lemma {:induction false} LateRank(hits: set<Hit<Row>>, z: Hit<Row>, h: Hit<Row>, k: nat, kept: bool)
    requires kept <==> |Ahead(hits, h)| < k
    requires kept ==> Before(h, z)
    ensures |Ahead(hits + {z}, h)| < k <==> kept
  {
    if kept {
      assert Ahead(hits + {z}, h) == Ahead(hits, h);
    } else {
      SubsetSize(Ahead(hits, h), Ahead(hits + {z}, h));
    }
  }

  lemma {:induction false} MaxAgrees(c: set<Row>, f: Row -> real, g: Row -> real)
    requires forall r | r in c :: f(r) == g(r)
    ensures MaxOf(c, f) == MaxOf(c, g)
  {
    if c != {} {
      var x :| x in c && f(x) == MaxOf(c, f);
      var y :| y in c && g(y) == MaxOf(c, g);
    }
  }

  lemma {:induction false} MaxWithRow(c: set<Row>, s: Scoring, z: Row, low: real, rank: real)
    requires z !in c && c != {} && rank <= MaxOf(c, s.rank)
    ensures MaxOf(c + {z}, WithRow(s, z, low, rank).rank) == MaxOf(c, s.rank)
  {
    var s' := WithRow(s, z, low, rank);
    var x :| x in c && s.rank(x) == MaxOf(c, s.rank);
    assert s'.rank(x) == s.rank(x);
    var y :| y in c + {z} && s'.rank(y) == MaxOf(c + {z}, s'.rank);
  }

  lemma {:induction false} SameHits(u: set<Row>, s: Scoring, z: Row, low: real, rank: real, alpha: real)
    requires z !in u
    ensures var s' := WithRow(s, z, low, rank);
            HitsOf(u, FusedScore(WeightedSum, alpha, u, s')) == HitsOf(u, FusedScore(WeightedSum, alpha, u, s))
  {
    var s' := WithRow(s, z, low, rank);
    MaxAgrees(u, s.rank, s'.rank);
    forall r | r in u
      ensures FusedScore(WeightedSum, alpha, u, s')(r) == FusedScore(WeightedSum, alpha, u, s)(r)
    {
      assert NormalizedRank(u, s', r) == NormalizedRank(u, s, r);
    }
  }

  /** An answer that leaves out a hit ahead of its last one is no top. */
  lemma {:induction false} MissingHit(all: set<Hit<Row>>, limit: nat, out: seq<Hit<Row>>, z: Hit<Row>)
    requires Keyed(all) && |out| == limit >= 1 && z in all && z !in out
    requires z.score > out[|out| - 1].score
    ensures !IsTop(all, limit, out)
  {
    if IsTop(all, limit, out) {
      AheadGrows(all, z, out[|out| - 1]);
      TopMembers(all, limit, out, z);
    }
  }

  /** If the last score of a full page is below the bound, one more row with a later id, the lowest kept vector score
      and the lexical floor leaves both stages and the page as they are, and makes the page wrong. */
  lemma {:induction false} BoundIsTight(t: set<Row>, q: Request, s: Scoring, k: nat, vec: set<Row>, low: real, floor: real,
                                        out: seq<Hit<Row>>, z: Row)
    requires RankPremise(s) && DistinctIds(t) && k >= 1 && IsVectorStage(ScopeOf(t, q), s, k, vec) && |vec| == k
    requires IsLowest(vec, s.vectorScore, low) && IsLexicalFloor(ScopeOf(t, q), s, k, floor)
    requires Answers(Candidates, WeightedSum, t, q, s, k, vec, out) && |out| == q.limit >= 1
    requires out[|out| - 1].score < OutsideBound(ScopeOf(t, q), s, q.alpha, low, floor)
    requires InScope(q, z) && forall r | r in t :: r.id < z.id
    ensures var t', s' := t + {z}, WithRow(s, z, low, floor);
            && RankPremise(s') && DistinctIds(t') && IsVectorStage(ScopeOf(t', q), s', k, vec)
            && LexicalStage(ScopeOf(t', q), s', k) == LexicalStage(ScopeOf(t, q), s, k)
            && Answers(Candidates, WeightedSum, t', q, s', k, vec, out)
            && !Answers(Exhaustive, WeightedSum, t', q, s', k, vec, out)
  {
    var c := ScopeOf(t, q);
    assert z !in t && z !in c;
    CandidatesWithinScope(t, q, s, k, vec);
    ScopeWithRow(t, q, z);
    StagesWithRow(t, q, s, k, vec, low, floor, z);
    FloorRange(c, s, k, floor);
    LateRowWins(c, CandidateSet(Candidates, t, q, s, k, vec), s, q.alpha, low, floor, q.limit, out, z);
    assert WithRow(s, z, low, floor).rank(z) == floor;
  }

  lemma {:induction false} StagesWithRow(t: set<Row>, q: Request, s: Scoring, k: nat, vec: set<Row>, low: real, floor: real, z: Row)
    requires RankPremise(s) && DistinctIds(t) && k >= 1 && IsVectorStage(ScopeOf(t, q), s, k, vec) && |vec| == k
    requires IsLowest(vec, s.vectorScore, low) && IsLexicalFloor(ScopeOf(t, q), s, k, floor)
    requires InScope(q, z) && forall r | r in t :: r.id < z.id
    ensures var t', s' := t + {z}, WithRow(s, z, low, floor);
            && RankPremise(s') && DistinctIds(t') && IsVectorStage(ScopeOf(t', q), s', k, vec)
            && LexicalStage(ScopeOf(t', q), s', k) == LexicalStage(ScopeOf(t, q), s, k)
            && CandidateSet(Candidates, t', q, s', k, vec) == CandidateSet(Candidates, t, q, s, k, vec)
  {
    var c := ScopeOf(t, q);
    var s' := WithRow(s, z, low, floor);
    StillPremised(t, q, s, k, floor, low, z);
    ScopeWithRow(t, q, z);
    SameVectorStage(c, s, k, vec, z, low, floor);
    SameLexicalStage(c, s, k, z, low, floor);
    assert vec <= c && vec <= c + {z};
    hide *;
    CandidatesAreStages(t, q, s, k, vec);
    CandidatesAreStages(t + {z}, q, s', k, vec);
  }

  lemma {:induction false} StillPremised(t: set<Row>, q: Request, s: Scoring, k: nat, floor: real, low: real, z: Row)
    requires RankPremise(s) && DistinctIds(t) && k >= 1 && IsLexicalFloor(ScopeOf(t, q), s, k, floor)
    requires forall r | r in t :: r.id < z.id
    ensures RankPremise(WithRow(s, z, low, floor)) && DistinctIds(t + {z}) && floor >= 0.0
    ensures z !in ScopeOf(t, q) && DistinctIds(ScopeOf(t, q)) && forall r | r in ScopeOf(t, q) :: r.id < z.id
  {
    if |Matching(ScopeOf(t, q), s)| >= k {
      var r :| r in LexicalStage(ScopeOf(t, q), s, k) && s.rank(r) == floor;
    }
  }

  lemma {:induction false} CandidatesAreStages(t: set<Row>, q: Request, s: Scoring, k: nat, vec: set<Row>)
    requires DistinctIds(t) && vec <= ScopeOf(t, q)
    ensures CandidateSet(Candidates, t, q, s, k, vec) == vec + LexicalStage(ScopeOf(t, q), s, k)
  {
    JoinIsUnion(t, vec, LexicalStage(ScopeOf(t, q), s, k));
  }

  lemma {:induction false} LateRowWins(c: set<Row>, u: set<Row>, s: Scoring, alpha: real, low: real, floor: real, limit: nat,
                                       out: seq<Hit<Row>>, z: Row)
    requires DistinctIds(c + {z}) && u <= c && z !in c && c != {} && floor <= MaxOf(c, s.rank)
    requires IsTop(HitsOf(u, FusedScore(WeightedSum, alpha, u, s)), limit, out) && |out| == limit >= 1
    requires out[|out| - 1].score < OutsideBound(c, s, alpha, low, floor)
    ensures var s' := WithRow(s, z, low, floor);
            && IsTop(HitsOf(u, FusedScore(WeightedSum, alpha, u, s')), limit, out)
            && !IsTop(HitsOf(c + {z}, FusedScore(WeightedSum, alpha, c + {z}, s')), limit, out)
  {
    var s' := WithRow(s, z, low, floor);
    SameHits(u, s, z, low, floor, alpha);
    MaxWithRow(c, s, z, low, floor);
    var f := FusedScore(WeightedSum, alpha, c + {z}, s');
    assert f(z) == OutsideBound(c, s, alpha, low, floor);
    HitsAreKeyed(c + {z}, f);
    NotInPage(u, FusedScore(WeightedSum, alpha, u, s), limit, out, z);
    hide FusedScore, WithRow, OutsideBound;
    assert Hit(z.id, f(z), z) in HitsOf(c + {z}, f);
    MissingHit(HitsOf(c + {z}, f), limit, out, Hit(z.id, f(z), z));
  }

  lemma {:induction false} NotInPage(u: set<Row>, f: Row -> real, limit: nat, out: seq<Hit<Row>>, z: Row)
    requires IsTop(HitsOf(u, f), limit, out) && z !in u
    ensures forall h | h in out :: h.row != z
  {
    forall h | h in out
      ensures h.row != z
    {
      assert h in HitsOf(u, f);
    }
  }

  // ----- A bound for RRF -----

  /** The RANK() a row with this value would have at best. */
  ghost function RankOfValue(c: set<Row>, f: Row -> real, v: real): (n: nat)
    ensures n >= 1
  {
    1 + |set x | x in c && f(x) > v|
  }

  /** The best RRF score of a row outside both stages. */
  ghost function OutsideRrfBound(c: set<Row>, s: Scoring, low: real, floor: real): real {
    Share(RRF_K, RankOfValue(c, s.vectorScore, low)) + Share(RRF_K, RankOfValue(c, s.rank, floor))
  }

  lemma {:induction false} RankAtLeast(c: set<Row>, f: Row -> real, v: real, r: Row)
    requires f(r) <= v
    ensures RankOfValue(c, f, v) <= RankIn(c, f, r)
  {
    SubsetSize((set x | x in c && f(x) > v), Better(c, f, r));
  }

  lemma {:induction false} OutsideRrfAtMostBound(c: set<Row>, s: Scoring, k: nat, vec: set<Row>, low: real, floor: real, r: Row)
    requires RankPremise(s) && DistinctIds(c) && k >= 1 && IsVectorStage(c, s, k, vec)
    requires IsLowest(vec, s.vectorScore, low) && IsLexicalFloor(c, s, k, floor)
    requires r in c && r !in vec && r !in LexicalStage(c, s, k)
    ensures RrfScore(c, s, RRF_K, r) <= OutsideRrfBound(c, s, low, floor)
  {
    var kept :| kept in vec && s.vectorScore(kept) == low;
    assert r in c - vec;
    OutsideRank(c, s, k, floor, r);
    RankAtLeast(c, s.vectorScore, low, r);
    RankAtLeast(c, s.rank, floor, r);
    SharesDown(RRF_K, RankOfValue(c, s.vectorScore, low), RankIn(c, s.vectorScore, r),
               RankOfValue(c, s.rank, floor), RankIn(c, s.rank, r));
  }

  /** The bound is reached: it is the score of every row with these two values. */
  lemma {:induction false} RrfBoundIsReached(c: set<Row>, s: Scoring, r: Row)
    ensures OutsideRrfBound(c, s, s.vectorScore(r), s.rank(r)) == RrfScore(c, s, RRF_K, r)
  {
    assert Better(c, s.vectorScore, r) == set x | x in c && s.vectorScore(x) > s.vectorScore(r);
    assert Better(c, s.rank, r) == set x | x in c && s.rank(x) > s.rank(r);
  }

  /** The bound needs no look at the table: counted among the candidates it is the same. */
  lemma {:induction false} BoundFromCandidates(t: set<Row>, q: Request, s: Scoring, k: nat, vec: set<Row>, low: real, floor: real)
    requires RankPremise(s) && DistinctIds(t) && k >= 1 && IsVectorStage(ScopeOf(t, q), s, k, vec)
    requires IsLowest(vec, s.vectorScore, low) && IsLexicalFloor(ScopeOf(t, q), s, k, floor)
    ensures OutsideRrfBound(CandidateSet(Candidates, t, q, s, k, vec), s, low, floor) == OutsideRrfBound(ScopeOf(t, q), s, low, floor)
  {
    var c, u := ScopeOf(t, q), CandidateSet(Candidates, t, q, s, k, vec);
    CandidatesWithinScope(t, q, s, k, vec);
    forall x | x in c
      ensures s.vectorScore(x) > low ==> x in vec
      ensures s.rank(x) > floor ==> x in LexicalStage(c, s, k)
    {
      if s.vectorScore(x) > low {
        AboveLowest(c, s, k, vec, low, x);
      }
      if x !in LexicalStage(c, s, k) {
        OutsideRank(c, s, k, floor, x);
      }
    }
    hide *;
    SameRankOfValue(c, u, s.vectorScore, low);
    SameRankOfValue(c, u, s.rank, floor);
    BoundIsSum(c, s, low, floor);
    BoundIsSum(u, s, low, floor);
  }

  lemma {:induction false} BoundIsSum(c: set<Row>, s: Scoring, low: real, floor: real)
    ensures OutsideRrfBound(c, s, low, floor) ==
            Share(RRF_K, RankOfValue(c, s.vectorScore, low)) + Share(RRF_K, RankOfValue(c, s.rank, floor))
  {
  }

  lemma {:induction false} SameRankOfValue(c: set<Row>, u: set<Row>, f: Row -> real, v: real)
    requires u <= c && forall x | x in c && f(x) > v :: x in u
    ensures RankOfValue(u, f, v) == RankOfValue(c, f, v)
  {
    assert (set x | x in u && f(x) > v) == set x | x in c && f(x) > v;
  }

  lemma {:induction false} AboveLowest(c: set<Row>, s: Scoring, k: nat, vec: set<Row>, low: real, x: Row)
    requires IsVectorStage(c, s, k, vec) && IsLowest(vec, s.vectorScore, low) && x in c && s.vectorScore(x) > low
    ensures x in vec
  {
    var kept :| kept in vec && s.vectorScore(kept) == low;
    assert x in vec || x in c - vec;
  }

  /** A full RRF page of rows that both stages kept, whose last score is above the bound, is an exhaustive answer. */
  lemma {:induction false} RrfPageIsExhaustive(t: set<Row>, q: Request, s: Scoring, k: nat, vec: set<Row>, low: real, floor: real,
                                               out: seq<Hit<Row>>)
    requires RankPremise(s) && DistinctIds(t) && k >= 1 && IsVectorStage(ScopeOf(t, q), s, k, vec)
    requires IsLowest(vec, s.vectorScore, low) && IsLexicalFloor(ScopeOf(t, q), s, k, floor)
    requires Answers(Candidates, Rrf, t, q, s, k, vec, out) && |out| == q.limit >= 1
    requires forall h | h in out :: h.row in vec && h.row in LexicalStage(ScopeOf(t, q), s, k)
    requires out[|out| - 1].score > OutsideRrfBound(ScopeOf(t, q), s, low, floor)
    ensures Answers(Exhaustive, Rrf, t, q, s, k, vec, out)
  {
    var c, u := ScopeOf(t, q), CandidateSet(Candidates, t, q, s, k, vec);
    var fc, fu := FusedScore(Rrf, q.alpha, c, s), FusedScore(Rrf, q.alpha, u, s);
    CandidatesWithinScope(t, q, s, k, vec);
    HitsAreKeyed(c, fc);
    HitsAreKeyed(u, fu);
    var both := vec * LexicalStage(c, s, k);
    forall y | y in u
      ensures fc(y) <= fu(y) && (y in both ==> fc(y) == fu(y))
    {
      RrfScores(t, q, s, k, vec, y);
    }
    var bound := OutsideRrfBound(c, s, low, floor);
    forall y | y in c && y !in u
      ensures fc(y) <= bound
    {
      OutsideRrfAtMostBound(c, s, k, vec, low, floor, y);
    }
    SubsetSize(u, c);
    hide FusedScore, LexicalStage, CandidateSet, OutsideRrfBound, IsVectorStage, IsLexicalFloor, IsLowest;
    ExactPage(c, u, both, fc, fu, bound, q.limit, out);
    assert CandidateSet(Exhaustive, t, q, s, k, vec) == c by {
      ExhaustiveIsScope(t, q, s, k, vec);
    }
  }

  lemma {:induction false} ExhaustiveIsScope(t: set<Row>, q: Request, s: Scoring, k: nat, vec: set<Row>)
    ensures CandidateSet(Exhaustive, t, q, s, k, vec) == ScopeOf(t, q)
  {
  }

  /** Scores that are exact on the page, too high elsewhere in u, and at most the bound outside u: the page stands. */
  lemma {:induction false} ExactPage(c: set<Row>, u: set<Row>, both: set<Row>, fc: Row -> real, fu: Row -> real, bound: real,
                                     limit: nat, out: seq<Hit<Row>>)
    requires u <= c && |u| <= |c| && Keyed(HitsOf(c, fc)) && |HitsOf(c, fc)| == |c| && Keyed(HitsOf(u, fu)) && |HitsOf(u, fu)| == |u|
    requires forall y | y in u :: fc(y) <= fu(y) && (y in both ==> fc(y) == fu(y))
    requires forall y | y in c && y !in u :: fc(y) <= bound
    requires IsTop(HitsOf(u, fu), limit, out) && |out| == limit >= 1
    requires (forall h | h in out :: h.row in both) && out[|out| - 1].score > bound
    ensures IsTop(HitsOf(c, fc), limit, out)
  {
    var all, sub := HitsOf(c, fc), HitsOf(u, fu);
    TopIsSorted(sub, limit, out);
    forall i | 0 <= i < |out|
      ensures out[i] in all && Ahead(all, out[i]) == Ahead(sub, out[i])
    {
      SameAhead(c, u, both, fc, fu, bound, limit, out, i);
    }
  }

  lemma {:induction false} SameAhead(c: set<Row>, u: set<Row>, both: set<Row>, fc: Row -> real, fu: Row -> real, bound: real,
                                     limit: nat, out: seq<Hit<Row>>, i: nat)
    requires u <= c && Keyed(HitsOf(u, fu)) && i < |out|
    requires forall y | y in u :: fc(y) <= fu(y) && (y in both ==> fc(y) == fu(y))
    requires forall y | y in c && y !in u :: fc(y) <= bound
    requires IsTop(HitsOf(u, fu), limit, out) && |out| == limit >= 1 && SortedHits(out)
    requires (forall h | h in out :: h.row in both) && out[|out| - 1].score > bound
    ensures out[i] in HitsOf(c, fc) && Ahead(HitsOf(c, fc), out[i]) == Ahead(HitsOf(u, fu), out[i])
  {
    var all, sub := HitsOf(c, fc), HitsOf(u, fu);
    assert out[i] in sub && out[i].row in both;
    assert out[i].score > bound by {
      if i < |out| - 1 {
        assert Before(out[i], out[|out| - 1]);
      }
    }
    forall h | h in Ahead(sub, out[i])
      ensures h in Ahead(all, out[i])
    {
      AheadGrows(sub, h, out[i]);
      TopMembers(sub, limit, out, h);
    }
    forall h | h in Ahead(all, out[i])
      ensures h in Ahead(sub, out[i])
    {
      var y := h.row;
      assert y in u;
      var g := Hit(y.id, fu(y), y);
      assert g in Ahead(sub, out[i]);
      AheadGrows(sub, g, out[i]);
      TopMembers(sub, limit, out, g);
    }
  }
}
