/** What a search answers, on the fields of the rows it returns: which rows are there, with which scores, in which
    order, and what it left out. */
module SearchAnswers {
  import opened Reals
  import opened Sequences
  import opened Runes
  import opened Records
  import opened TopOrder
  import opened PostgresSearch
  import opened TokenEncoding
  import opened Vectors
  import Isolation
  import SqliteSearch
  import StoreLaws
  import StoreModel
  import Wrappers

  // ----- Postgres: which rows -----

  /** What each mode searches: every row of the scope, or the two stages. */
  ghost predicate IsSearched(mode: SearchMode, t: set<Row>, q: Request, s: Scoring, k: nat, vec: set<Row>) {
    DistinctIds(t) && (mode.Candidates? ==> IsVectorStage(ScopeOf(t, q), s, k, vec))
  }

  lemma {:induction false} SearchedRows(mode: SearchMode, t: set<Row>, q: Request, s: Scoring, k: nat, vec: set<Row>)
    requires IsSearched(mode, t, q, s, k, vec)
    ensures CandidateSet(mode, t, q, s, k, vec) <= ScopeOf(t, q) <= t
    ensures mode.Candidates? ==> CandidateSet(mode, t, q, s, k, vec) == vec + LexicalStage(ScopeOf(t, q), s, k)
    ensures DistinctIds(CandidateSet(mode, t, q, s, k, vec))
  {
    if mode.Candidates? {
      JoinIsUnion(t, vec, LexicalStage(ScopeOf(t, q), s, k));
    }
  }

  /** Every result is a row of the table, of the org, that passes both filters. */
  lemma {:induction false} ResultsPassTheFilters(mode: SearchMode, f: Fusion, t: set<Row>, q: Request, s: Scoring, k: nat,
                                                 vec: set<Row>, out: seq<Hit<Row>>, h: Hit<Row>)
    requires IsSearched(mode, t, q, s, k, vec) && Answers(mode, f, t, q, s, k, vec, out) && h in out
    ensures h.id == h.row.id && h.row in t && h.row.chunk.orgId == q.orgId
    ensures q.documentIds == [] || h.row.chunk.documentId in q.documentIds
    ensures q.sourceIds == [] || h.row.chunk.sourceId in q.sourceIds
  {
    SearchedRows(mode, t, q, s, k, vec);
    var c := CandidateSet(mode, t, q, s, k, vec);
    assert h in HitsOf(c, FusedScore(f, q.alpha, c, s));
    hide FusedScore, CandidateSet;
    assert h.row in ScopeOf(t, q);
  }

  /** And every such row is a result once the limit, and in candidate mode K, covers the table. */
  lemma {:induction false} CoveringLimitFindsAll(mode: SearchMode, f: Fusion, t: set<Row>, q: Request, s: Scoring, k: nat,
                                                 vec: set<Row>, out: seq<Hit<Row>>, r: Row)
    requires IsSearched(mode, t, q, s, k, vec) && Answers(mode, f, t, q, s, k, vec, out)
    requires q.limit >= |t| && (mode.Candidates? ==> k >= |t|)
    requires r in t && r.chunk.orgId == q.orgId
    requires q.documentIds == [] || r.chunk.documentId in q.documentIds
    requires q.sourceIds == [] || r.chunk.sourceId in q.sourceIds
    ensures exists h :: h in out && h.row == r
  {
    SearchedRows(mode, t, q, s, k, vec);
    var c := CandidateSet(mode, t, q, s, k, vec);
    var score := FusedScore(f, q.alpha, c, s);
    SubsetSize(ScopeOf(t, q), t);
    SubsetSize(c, t);
    if mode.Candidates? {
      SubsetSize(vec, ScopeOf(t, q));
    }
    assert r in ScopeOf(t, q) && r in c;
    hide FusedScore, CandidateSet, ScopeOf, LexicalStage;
    HitsAreKeyed(c, score);
    var h := Hit(r.id, score(r), r);
    assert h in HitsOf(c, score);
    TopIsSorted(HitsOf(c, score), q.limit, out);
    assert h in Elements(out);
  }

  /** A row is a candidate if it is in scope and the vector stage kept it, or it matches and fewer than k matching
      rows of the scope have a higher rank, or the same rank and a smaller id. */
  lemma {:induction false} CandidatesAre(t: set<Row>, q: Request, s: Scoring, k: nat, vec: set<Row>, r: Row)
    requires IsSearched(Candidates, t, q, s, k, vec)
    ensures r in CandidateSet(Candidates, t, q, s, k, vec) <==>
            && r in ScopeOf(t, q)
            && (|| r in vec
                || (s.matches(r)
                    && |set x | x in ScopeOf(t, q) && s.matches(x) && (s.rank(x) > s.rank(r) || (s.rank(x) == s.rank(r) && x.id < r.id))| < k))
  {
    SearchedRows(Candidates, t, q, s, k, vec);
    LexicalStageIs(ScopeOf(t, q), s, k, r);
    hide LexicalStage, CandidateSet, ScopeOf;
  }

  lemma {:induction false} LexicalStageIs(scope: set<Row>, s: Scoring, k: nat, r: Row)
    ensures r in LexicalStage(scope, s, k) <==>
            && r in scope && s.matches(r)
            && |set x | x in scope && s.matches(x) && (s.rank(x) > s.rank(r) || (s.rank(x) == s.rank(r) && x.id < r.id))| < k
  {
    var better := set x | x in scope && s.matches(x) && (s.rank(x) > s.rank(r) || (s.rank(x) == s.rank(r) && x.id < r.id));
    HitsSize(better, s.rank);
    var all, h := HitsOf(Matching(scope, s), s.rank), Hit(r.id, s.rank(r), r);
    forall x
      ensures x in Ahead(all, h) <==> x in HitsOf(better, s.rank)
    {
    }
    assert Ahead(all, h) == HitsOf(better, s.rank);
  }

  // ----- Postgres: which scores -----

  /** m is the largest lexical rank in the scope; no row of any other org or document counts. */
  ghost predicate IsLargestRank(t: set<Row>, q: Request, s: Scoring, m: real) {
    && (exists r :: r in ScopeOf(t, q) && s.rank(r) == m)
    && forall r | r in ScopeOf(t, q) :: s.rank(r) <= m
  }

  lemma {:induction false} CandidatesReachIt(mode: SearchMode, t: set<Row>, q: Request, s: Scoring, k: nat, vec: set<Row>, m: real)
    requires RankPremise(s) && k >= 1 && IsSearched(mode, t, q, s, k, vec) && IsLargestRank(t, q, s, m)
    ensures MaxOf(CandidateSet(mode, t, q, s, k, vec), s.rank) == m
  {
    var c := ScopeOf(t, q);
    var r :| r in c && s.rank(r) == m;
    assert MaxOf(c, s.rank) == m;
    if mode.Candidates? {
      CandidatesWithinScope(t, q, s, k, vec);
    }
  }

  /** The weighted sum without a quotient: alpha times the vector score, plus 1 - alpha times the share that the
      lexical score has of the largest one, m; without any lexical score the second part is 0. */
  ghost predicate IsWeightedSum(score: real, alpha: real, vector: real, lexical: real, m: real) {
    && score * m == alpha * vector * m + (1.0 - alpha) * lexical
    && (m == 0.0 ==> score == alpha * vector)
  }

  lemma {:induction false} MixIsWeightedSum(alpha: real, vector: real, lexical: real, m: real)
    requires m == 0.0 ==> lexical == 0.0
    ensures IsWeightedSum(Mix(alpha, vector, if m == 0.0 then 0.0 else lexical / m), alpha, vector, lexical, m)
  {
    if m != 0.0 {
      var y := lexical / m;
      assert y * m == lexical;
      assert (alpha * vector + (1.0 - alpha) * y) * m == alpha * vector * m + (1.0 - alpha) * (y * m);
    }
  }

  /** Both parts together leave no choice. */
  lemma {:induction false} WeightedSumIsUnique(x: real, y: real, alpha: real, vector: real, lexical: real, m: real)
    requires IsWeightedSum(x, alpha, vector, lexical, m) && IsWeightedSum(y, alpha, vector, lexical, m)
    ensures x == y
  {
    if m != 0.0 {
      assert (x * m) / m == x && (y * m) / m == y;
    }
  }

  lemma {:induction false} ScoreIsMix(c: set<Row>, s: Scoring, alpha: real, m: real, r: Row)
    requires RankPremise(s) && r in c && MaxOf(c, s.rank) == m
    ensures FusedScore(WeightedSum, alpha, c, s)(r) == Mix(alpha, s.vectorScore(r), if m == 0.0 then 0.0 else s.rank(r) / m)
    ensures m == 0.0 ==> s.rank(r) == 0.0
  {
    hide Mix;
    assert 0.0 <= s.rank(r) <= m;
  }

  lemma {:induction false} WeightedFormula(c: set<Row>, s: Scoring, alpha: real, m: real, r: Row)
    requires RankPremise(s) && r in c && MaxOf(c, s.rank) == m
    ensures IsWeightedSum(FusedScore(WeightedSum, alpha, c, s)(r), alpha, s.vectorScore(r), s.rank(r), m)
  {
    ScoreIsMix(c, s, alpha, m, r);
    hide *;
    MixIsWeightedSum(alpha, s.vectorScore(r), s.rank(r), m);
  }

  lemma {:induction false} HitScores(c: set<Row>, score: Row -> real, h: Hit<Row>)
    requires h in HitsOf(c, score)
    ensures h.row in c && h.score == score(h.row)
  {
  }

  /** Every result of the weighted sum, in either mode, scores alpha times its vector score plus 1 - alpha times its
      share of the largest rank in scope. */
  lemma {:induction false} WeightedScores(mode: SearchMode, t: set<Row>, q: Request, s: Scoring, k: nat, vec: set<Row>,
                                          out: seq<Hit<Row>>, h: Hit<Row>, m: real)
    requires RankPremise(s) && k >= 1 && IsSearched(mode, t, q, s, k, vec)
    requires Answers(mode, WeightedSum, t, q, s, k, vec, out) && h in out && IsLargestRank(t, q, s, m)
    ensures IsWeightedSum(h.score, q.alpha, s.vectorScore(h.row), s.rank(h.row), m)
  {
    var c := CandidateSet(mode, t, q, s, k, vec);
    var score := FusedScore(WeightedSum, q.alpha, c, s);
    assert h in HitsOf(c, score);
    hide *;
    CandidatesReachIt(mode, t, q, s, k, vec, m);
    HitScores(c, score, h);
    WeightedFormula(c, s, q.alpha, m, h.row);
  }

  /** 1 / (60 + rank) on both sides, where a rank is one more than the number of rows of c that are strictly better. */
  ghost predicate IsReciprocalSum(score: real, c: set<Row>, s: Scoring, r: Row) {
    var v := |set x | x in c && s.vectorScore(x) > s.vectorScore(r)|;
    var l := |set x | x in c && s.rank(x) > s.rank(r)|;
    score == 1.0 / (60.0 + (1 + v) as real) + 1.0 / (60.0 + (1 + l) as real)
  }

  /** Every result of RRF scores 1 / (60 + rank) on both sides, where a rank counts the searched rows that are
      strictly better. */
  lemma {:induction false} RrfScoresAre(mode: SearchMode, t: set<Row>, q: Request, s: Scoring, k: nat, vec: set<Row>,
                                        out: seq<Hit<Row>>, h: Hit<Row>)
    requires Answers(mode, Rrf, t, q, s, k, vec, out) && h in out
    ensures IsReciprocalSum(h.score, CandidateSet(mode, t, q, s, k, vec), s, h.row)
  {
    var c := CandidateSet(mode, t, q, s, k, vec);
    assert h in HitsOf(c, FusedScore(Rrf, q.alpha, c, s));
    assert FusedScore(Rrf, q.alpha, c, s)(h.row) == RrfScore(c, s, RRF_K, h.row);
  }

  // ----- Postgres: which order, and what is missing -----

  /** Results stand by score descending, then id; there are as many as the limit allows. */
  lemma {:induction false} ResultsAreOrdered(mode: SearchMode, f: Fusion, t: set<Row>, q: Request, s: Scoring, k: nat,
                                             vec: set<Row>, out: seq<Hit<Row>>)
    requires IsSearched(mode, t, q, s, k, vec) && Answers(mode, f, t, q, s, k, vec, out)
    ensures forall i, j | 0 <= i < j < |out| ::
              out[i].score > out[j].score || (out[i].score == out[j].score && out[i].id < out[j].id)
    ensures |out| <= q.limit && (|out| < q.limit ==> |out| == |CandidateSet(mode, t, q, s, k, vec)|)
  {
    SearchedRows(mode, t, q, s, k, vec);
    var c := CandidateSet(mode, t, q, s, k, vec);
    var score := FusedScore(f, q.alpha, c, s);
    HitsAreKeyed(c, score);
    hide FusedScore, CandidateSet;
    TopIsSorted(HitsOf(c, score), q.limit, out);
  }

  lemma {:induction false} MissingIsBehind(c: set<Row>, score: Row -> real, limit: nat, out: seq<Hit<Row>>, r: Row)
    requires DistinctIds(c) && IsTop(HitsOf(c, score), limit, out)
    requires r in c && forall h | h in out :: h.row != r
    ensures |out| == limit && forall h | h in out :: h.score > score(r) || (h.score == score(r) && h.id < r.id)
  {
    var all, x := HitsOf(c, score), Hit(r.id, score(r), r);
    HitsAreKeyed(c, score);
    assert x in all;
    TopMembers(all, limit, out, x);
    SubsetSize(Ahead(all, x), all);
    forall h | h in out
      ensures Before(h, x)
    {
      TopMembers(all, limit, out, h);
      if Before(x, h) {
        AheadGrows(all, x, h);
      }
    }
  }

  /** A searched row that is missing from a weighted-sum answer has a full page ahead of it. */
  lemma {:induction false} MissingFromWeighted(mode: SearchMode, t: set<Row>, q: Request, s: Scoring, k: nat, vec: set<Row>,
                                               out: seq<Hit<Row>>, r: Row, m: real, x: real)
    requires RankPremise(s) && k >= 1 && IsSearched(mode, t, q, s, k, vec) && IsLargestRank(t, q, s, m)
    requires Answers(mode, WeightedSum, t, q, s, k, vec, out)
    requires r in CandidateSet(mode, t, q, s, k, vec) && forall h | h in out :: h.row != r
    requires IsWeightedSum(x, q.alpha, s.vectorScore(r), s.rank(r), m)
    ensures |out| == q.limit && forall h | h in out :: h.score > x || (h.score == x && h.id < r.id)
  {
    SearchedRows(mode, t, q, s, k, vec);
    var c := CandidateSet(mode, t, q, s, k, vec);
    var score := FusedScore(WeightedSum, q.alpha, c, s);
    assert IsTop(HitsOf(c, score), q.limit, out);
    hide *;
    CandidatesReachIt(mode, t, q, s, k, vec, m);
    WeightedFormula(c, s, q.alpha, m, r);
    WeightedSumIsUnique(x, score(r), q.alpha, s.vectorScore(r), s.rank(r), m);
    MissingIsBehind(c, score, q.limit, out, r);
  }

  /** The same for RRF. */
  lemma {:induction false} MissingFromRrf(mode: SearchMode, t: set<Row>, q: Request, s: Scoring, k: nat, vec: set<Row>,
                                          out: seq<Hit<Row>>, r: Row, x: real)
    requires IsSearched(mode, t, q, s, k, vec) && Answers(mode, Rrf, t, q, s, k, vec, out)
    requires r in CandidateSet(mode, t, q, s, k, vec) && forall h | h in out :: h.row != r
    requires IsReciprocalSum(x, CandidateSet(mode, t, q, s, k, vec), s, r)
    ensures |out| == q.limit && forall h | h in out :: h.score > x || (h.score == x && h.id < r.id)
  {
    SearchedRows(mode, t, q, s, k, vec);
    var c := CandidateSet(mode, t, q, s, k, vec);
    var score := FusedScore(Rrf, q.alpha, c, s);
    assert score(r) == RrfScore(c, s, RRF_K, r);
    MissingIsBehind(c, score, q.limit, out, r);
  }

  // ----- Postgres: the search a caller makes -----

  /** A search answers as its handle is set: the rows come from the table as it is, formed and scored by the handle's own
      mode, fusion and K. */
  lemma {:induction false} SearchAnswersAsSet(h: Isolation.Searcher, db: StoreModel.Db, q: Request, text: Isolation.QueryText,
                                              s: Scoring, vec: set<Row>, out: seq<Hit<Row>>, x: Hit<Row>, m: real)
    requires StoreLaws.Inv(db) && RankPremise(s) && h.candidateK >= 1
    requires Isolation.SearchReturns(h, db, q, text, s, vec, Wrappers.Success(out)) && x in out
    requires IsLargestRank(Isolation.TableOf(db), q, s, m)
    ensures x.id in db.rows && db.rows[x.id] == x.row
    ensures x.row in CandidateSet(h.mode, Isolation.TableOf(db), q, s, h.candidateK, vec)
    ensures h.fusion.WeightedSum? ==> IsWeightedSum(x.score, q.alpha, s.vectorScore(x.row), s.rank(x.row), m)
    ensures h.fusion.Rrf? ==> IsReciprocalSum(x.score, CandidateSet(h.mode, Isolation.TableOf(db), q, s, h.candidateK, vec), s, x.row)
  {
    var t := Isolation.TableOf(db);
    Isolation.TableHasDistinctIds(db);
    assert Answers(h.mode, h.fusion, t, q, s, h.candidateK, vec, out) && IsSearched(h.mode, t, q, s, h.candidateK, vec);
    hide *;
    ResultIsSearched(h.mode, h.fusion, t, q, s, h.candidateK, vec, out, x);
    RowUnderItsId(db, x.row);
    if h.fusion.WeightedSum? {
      WeightedScores(h.mode, t, q, s, h.candidateK, vec, out, x, m);
    } else {
      RrfScoresAre(h.mode, t, q, s, h.candidateK, vec, out, x);
    }
  }

  lemma {:induction false} ResultIsSearched(mode: SearchMode, f: Fusion, t: set<Row>, q: Request, s: Scoring, k: nat, vec: set<Row>,
                                            out: seq<Hit<Row>>, x: Hit<Row>)
    requires IsSearched(mode, t, q, s, k, vec) && Answers(mode, f, t, q, s, k, vec, out) && x in out
    ensures x.row in CandidateSet(mode, t, q, s, k, vec) && x.row in t && x.id == x.row.id
  {
    var c := CandidateSet(mode, t, q, s, k, vec);
    assert x in HitsOf(c, FusedScore(f, q.alpha, c, s));
    hide *;
    HitScores(c, FusedScore(f, q.alpha, c, s), x);
    ResultsPassTheFilters(mode, f, t, q, s, k, vec, out, x);
  }

  lemma {:induction false} RowUnderItsId(db: StoreModel.Db, r: Row)
    requires StoreLaws.Inv(db) && r in Isolation.TableOf(db)
    ensures r.id in db.rows && db.rows[r.id] == r
  {
  }

  // ----- SQLite -----

  /** The negated bm25 of a row; 0 without a token to look for or without a match. */
  function LexicalScoreOf(tokens: seq<Text>, bm25: map<int, real>, id: int): real {
    if tokens != [] && id in bm25 then -bm25[id] else 0.0
  }

  /** m is the largest lexical score in the scope, and at least 0. */
  ghost predicate IsLargestLexical(table: seq<Row>, tokens: seq<Text>, bm25: map<int, real>, q: Request, m: real) {
    && m >= 0.0
    && (forall r | r in table && InScope(q, r) :: LexicalScoreOf(tokens, bm25, r.id) <= m)
    && (m > 0.0 ==> exists r :: r in table && InScope(q, r) && LexicalScoreOf(tokens, bm25, r.id) == m)
  }

  /** A result shows the fields of its row, under the row's id and the org of the request, and both scores. */
  ghost predicate Shows(f: SqliteSearch.Found, r: Row, vector: seq<real>, tokens: seq<Text>, bm25: map<int, real>, q: Request)
    requires |vector| <= |r.vector|
  {
    && f.chunk == r.chunk.(id := r.id, orgId := q.orgId)
    && f.vectorScore == DotProduct(vector, r.vector)
    && f.lexicalScore == LexicalScoreOf(tokens, bm25, r.id)
  }

  lemma {:induction false} NoTokensNoExpression(tokens: seq<Text>)
    ensures MatchExpression(tokens) == [] <==> tokens == []
  {
    if tokens != [] {
      assert QuotedAll(tokens)[0] == Quoted(tokens[0]) && |Quoted(tokens[0])| >= 2;
    }
  }

  lemma {:induction false} CandidateFields(scanned: seq<Row>, vector: seq<real>, tokens: seq<Text>, bm25: map<int, real>, i: nat)
    requires i < |scanned| && forall r | r in scanned :: |vector| <= |r.vector|
    ensures var c := SqliteSearch.CandidatesOf(scanned, vector, SqliteSearch.LexicalOf(scanned, MatchExpression(tokens), bm25))[i];
            && c.row == scanned[i] && c.vectorScore == DotProduct(vector, scanned[i].vector)
            && c.lexicalRaw == LexicalScoreOf(tokens, bm25, scanned[i].id)
  {
    NoTokensNoExpression(tokens);
    hide MatchExpression, DotProduct;
    assert scanned[i] in scanned;
    assert SqliteSearch.IsScanned(scanned, scanned[i].id);
  }

  /** The hit a result was made from. */
  lemma {:induction false} HitBehind(cs: seq<SqliteSearch.Candidate>, q: Request, j: nat) returns (i: nat)
    requires SqliteSearch.DistinctCandidates(cs) && j < |SqliteSearch.Fused(cs, q.alpha, q.limit)|
    ensures i < |cs| && SqliteSearch.Fused(cs, q.alpha, q.limit)[j] == SqliteSearch.FusedHit(cs[i], SqliteSearch.MaxLexical(cs), q.alpha)
  {
    var h := SqliteSearch.Fused(cs, q.alpha, q.limit)[j];
    assert h in SqliteSearch.FusedHits(cs, q.alpha);
    i :| 0 <= i < |cs| && h == SqliteSearch.FusedHit(cs[i], SqliteSearch.MaxLexical(cs), q.alpha);
  }

  /** Every result of a SQLite search is a row of the table, of the org, that passes both filters, with its fields and
      both its scores. */
  lemma {:induction false} FoundPassTheFilters(table: seq<Row>, vector: seq<real>, tokens: seq<Text>, bm25: map<int, real>, q: Request,
                                               found: seq<SqliteSearch.Found>, j: nat)
    requires SqliteSearch.IsAnswer(table, vector, tokens, bm25, q, found) && j < |found|
    ensures exists r :: && r in table && r.chunk.orgId == q.orgId
                        && (q.documentIds == [] || r.chunk.documentId in q.documentIds)
                        && (q.sourceIds == [] || r.chunk.sourceId in q.sourceIds)
                        && |vector| <= |r.vector| && Shows(found[j], r, vector, tokens, bm25, q)
  {
    var scanned := SqliteSearch.Scan(table, q);
    var cs := SqliteSearch.CandidatesOf(scanned, vector, SqliteSearch.LexicalOf(scanned, MatchExpression(tokens), bm25));
    SqliteSearch.ScanIsScope(table, q);
    var i := HitBehind(cs, q, j);
    CandidateFields(scanned, vector, tokens, bm25, i);
    var r := scanned[i];
    assert r in scanned && Shows(found[j], r, vector, tokens, bm25, q) by {
      hide SqliteSearch.LexicalOf, MatchExpression, LexicalScoreOf, DotProduct, SqliteSearch.Fused, SqliteSearch.Scan;
    }
  }

  lemma {:induction false} LargestIsMax(table: seq<Row>, vector: seq<real>, tokens: seq<Text>, bm25: map<int, real>, q: Request, m: real)
    requires forall r | r in SqliteSearch.Scan(table, q) :: |vector| <= |r.vector|
    requires IsLargestLexical(table, tokens, bm25, q, m)
    ensures var scanned := SqliteSearch.Scan(table, q);
            var cs := SqliteSearch.CandidatesOf(scanned, vector, SqliteSearch.LexicalOf(scanned, MatchExpression(tokens), bm25));
            SqliteSearch.MaxLexical(cs) == m
  {
    var scanned := SqliteSearch.Scan(table, q);
    var cs := SqliteSearch.CandidatesOf(scanned, vector, SqliteSearch.LexicalOf(scanned, MatchExpression(tokens), bm25));
    SqliteSearch.ScanIsScope(table, q);
    forall i | 0 <= i < |cs|
      ensures cs[i].lexicalRaw == LexicalScoreOf(tokens, bm25, scanned[i].id) <= m
    {
      CandidateFields(scanned, vector, tokens, bm25, i);
      assert scanned[i] in scanned;
    }
    var most := SqliteSearch.MaxLexical(cs);
    hide SqliteSearch.MaxLexical, SqliteSearch.CandidatesOf, SqliteSearch.LexicalOf, SqliteSearch.Scan, MatchExpression, LexicalScoreOf;
    if most > 0.0 {
      var c :| c in cs && c.lexicalRaw == most;
      assert most <= m;
    }
    if m > 0.0 {
      var r :| r in table && InScope(q, r) && LexicalScoreOf(tokens, bm25, r.id) == m;
      var i :| 0 <= i < |scanned| && scanned[i] == r;
      assert cs[i] in cs;
    }
  }

  /** The score of a fused candidate, whatever it is shown as. */
  lemma {:induction false} FusedScoreIs(c: SqliteSearch.Candidate, m: real, alpha: real)
    requires m >= 0.0
    ensures var h := SqliteSearch.FusedHit(c, m, alpha);
            && h.id == c.row.id && h.row == c
            && IsWeightedSum(h.score, alpha, c.vectorScore, if m == 0.0 then 0.0 else c.lexicalRaw, m)
  {
    MixIsWeightedSum(alpha, c.vectorScore, if m == 0.0 then 0.0 else c.lexicalRaw, m);
    hide Mix, IsWeightedSum;
  }

  lemma {:induction false} FoundIsHit(h: Hit<SqliteSearch.Candidate>, orgId: int)
    ensures var f := SqliteSearch.ToFound(h, orgId);
            && f.chunk == h.row.row.chunk.(id := h.id, orgId := orgId)
            && f.vectorScore == h.row.vectorScore && f.lexicalScore == h.row.lexicalRaw && f.score == h.score
  {
  }

  /** Every result of a SQLite search is fused from the two scores it shows. */
  lemma {:induction false} FoundScores(table: seq<Row>, vector: seq<real>, tokens: seq<Text>, bm25: map<int, real>, q: Request,
                                       found: seq<SqliteSearch.Found>, j: nat, m: real)
    requires SqliteSearch.IsAnswer(table, vector, tokens, bm25, q, found) && j < |found|
    requires IsLargestLexical(table, tokens, bm25, q, m)
    ensures IsWeightedSum(found[j].score, q.alpha, found[j].vectorScore, if m == 0.0 then 0.0 else found[j].lexicalScore, m)
  {
    var scanned := SqliteSearch.Scan(table, q);
    var cs := SqliteSearch.CandidatesOf(scanned, vector, SqliteSearch.LexicalOf(scanned, MatchExpression(tokens), bm25));
    var fused := SqliteSearch.Fused(cs, q.alpha, q.limit);
    assert found[j] == SqliteSearch.ToFound(fused[j], q.orgId) && m >= 0.0;
    hide *;
    var i := HitBehind(cs, q, j);
    LargestIsMax(table, vector, tokens, bm25, q, m);
    FusedScoreIs(cs[i], m, q.alpha);
    FoundIsHit(fused[j], q.orgId);
  }

  /** Results stand by score descending, then id, and there are as many as the limit allows. */
  lemma {:induction false} FoundAreOrdered(table: seq<Row>, vector: seq<real>, tokens: seq<Text>, bm25: map<int, real>, q: Request,
                                           found: seq<SqliteSearch.Found>)
    requires SqliteSearch.IsAnswer(table, vector, tokens, bm25, q, found)
    ensures forall i, j | 0 <= i < j < |found| ::
              found[i].score > found[j].score || (found[i].score == found[j].score && found[i].chunk.id < found[j].chunk.id)
    ensures |found| == Min(q.limit, |SqliteSearch.Scan(table, q)|)
  {
    var scanned := SqliteSearch.Scan(table, q);
    var cs := SqliteSearch.CandidatesOf(scanned, vector, SqliteSearch.LexicalOf(scanned, MatchExpression(tokens), bm25));
    var fused := SqliteSearch.Fused(cs, q.alpha, q.limit);
    var all := SqliteSearch.FusedHits(cs, q.alpha);
    SqliteSearch.FusedHitsAreKeyed(cs, q.alpha);
    SqliteSearch.SmallerLimitIsPrefix(cs, q.alpha, q.limit, q.limit);
    assert IsTop(all, q.limit, fused);
    assert forall i | 0 <= i < |found| :: found[i] == SqliteSearch.ToFound(fused[i], q.orgId);
    TopIsSorted(all, q.limit, fused);
    hide SqliteSearch.Fused, SqliteSearch.FusedHits, SqliteSearch.LexicalOf, MatchExpression, SqliteSearch.Scan, IsTop;
    forall i, j | 0 <= i < j < |found|
      ensures found[i].score > found[j].score || (found[i].score == found[j].score && found[i].chunk.id < found[j].chunk.id)
    {
      assert Before(fused[i], fused[j]);
    }
  }

  /** Every row of the org that passes both filters is a result, or a full page stands ahead of it. */
  lemma {:induction false} FoundOrBehind(table: seq<Row>, vector: seq<real>, tokens: seq<Text>, bm25: map<int, real>, q: Request,
                                         found: seq<SqliteSearch.Found>, r: Row, m: real, x: real)
    requires SqliteSearch.IsAnswer(table, vector, tokens, bm25, q, found) && IsLargestLexical(table, tokens, bm25, q, m)
    requires r in table && r.chunk.orgId == q.orgId && |vector| <= |r.vector|
    requires q.documentIds == [] || r.chunk.documentId in q.documentIds
    requires q.sourceIds == [] || r.chunk.sourceId in q.sourceIds
    requires IsWeightedSum(x, q.alpha, DotProduct(vector, r.vector), if m == 0.0 then 0.0 else LexicalScoreOf(tokens, bm25, r.id), m)
    ensures (exists f :: f in found && f.chunk.id == r.id && f.score == x)
            || (|found| == q.limit && forall f | f in found :: f.score > x || (f.score == x && f.chunk.id < r.id))
  {
    var scanned := SqliteSearch.Scan(table, q);
    var cs := SqliteSearch.CandidatesOf(scanned, vector, SqliteSearch.LexicalOf(scanned, MatchExpression(tokens), bm25));
    SqliteSearch.ScanIsScope(table, q);
    assert r in scanned;
    var i :| 0 <= i < |scanned| && scanned[i] == r;
    CandidateFields(scanned, vector, tokens, bm25, i);
    LargestIsMax(table, vector, tokens, bm25, q, m);
    FusedScoreIs(cs[i], m, q.alpha);
    var h := SqliteSearch.FusedHit(cs[i], m, q.alpha);
    WeightedSumIsUnique(x, h.score, q.alpha, cs[i].vectorScore, if m == 0.0 then 0.0 else cs[i].lexicalRaw, m);
    var fused := SqliteSearch.Fused(cs, q.alpha, q.limit);
    assert found == SqliteSearch.ToAllFound(fused, q.orgId);
    assert cs[i] in cs && h in SqliteSearch.FusedHits(cs, q.alpha);
    hide *;
    ShownOrBehind(cs, q, h, found);
  }

  lemma {:induction false} ShownOrBehind(cs: seq<SqliteSearch.Candidate>, q: Request, h: Hit<SqliteSearch.Candidate>,
                                         found: seq<SqliteSearch.Found>)
    requires SqliteSearch.DistinctCandidates(cs) && h in SqliteSearch.FusedHits(cs, q.alpha)
    requires found == SqliteSearch.ToAllFound(SqliteSearch.Fused(cs, q.alpha, q.limit), q.orgId)
    ensures (exists f :: f in found && f.chunk.id == h.id && f.score == h.score)
            || (|found| == q.limit && forall f | f in found :: f.score > h.score || (f.score == h.score && f.chunk.id < h.id))
  {
    var fused := SqliteSearch.Fused(cs, q.alpha, q.limit);
    var all := SqliteSearch.FusedHits(cs, q.alpha);
    SqliteSearch.FusedHitsAreKeyed(cs, q.alpha);
    assert IsTop(all, q.limit, fused);
    TopMembers(all, q.limit, fused, h);
    hide SqliteSearch.Fused, SqliteSearch.FusedHits;
    if h in fused {
      var j :| 0 <= j < |fused| && fused[j] == h;
      assert found[j] in found;
    } else {
      SubsetSize(Ahead(all, h), all);
      forall f | f in found
        ensures f.score > h.score || (f.score == h.score && f.chunk.id < h.id)
      {
        var j :| 0 <= j < |found| && found[j] == f;
        if Before(h, fused[j]) {
          AheadGrows(all, h, fused[j]);
        }
      }
    }
  }

  lemma {:induction false} ScanIsShorter(table: seq<Row>, q: Request)
    ensures |SqliteSearch.Scan(table, q)| <= |table|
  {
    if table != [] {
      ScanIsShorter(table[..|table| - 1], q);
    }
  }

  /** When the limit covers the table, every row of the org that passes both filters is a result. */
  lemma {:induction false} CoveringLimitFindsAllRows(table: seq<Row>, vector: seq<real>, tokens: seq<Text>, bm25: map<int, real>,
                                                     q: Request, found: seq<SqliteSearch.Found>, r: Row)
    requires SqliteSearch.IsAnswer(table, vector, tokens, bm25, q, found) && q.limit >= |table|
    requires r in table && r.chunk.orgId == q.orgId
    requires q.documentIds == [] || r.chunk.documentId in q.documentIds
    requires q.sourceIds == [] || r.chunk.sourceId in q.sourceIds
    ensures exists f :: f in found && f.chunk.id == r.id
  {
    var scanned := SqliteSearch.Scan(table, q);
    var cs := SqliteSearch.CandidatesOf(scanned, vector, SqliteSearch.LexicalOf(scanned, MatchExpression(tokens), bm25));
    var all, fused := SqliteSearch.FusedHits(cs, q.alpha), SqliteSearch.Fused(cs, q.alpha, q.limit);
    SqliteSearch.ScanIsScope(table, q);
    assert r in scanned;
    var i :| 0 <= i < |scanned| && scanned[i] == r;
    var h := SqliteSearch.FusedHit(cs[i], SqliteSearch.MaxLexical(cs), q.alpha);
    assert h.id == r.id && cs[i] in cs && h in all;
    ScanIsShorter(table, q);
    SqliteSearch.FusedHitsSize(cs, q.alpha);
    SqliteSearch.FusedHitsAreKeyed(cs, q.alpha);
    assert IsTop(all, q.limit, fused) && found == SqliteSearch.ToAllFound(fused, q.orgId);
    hide SqliteSearch.Fused, SqliteSearch.FusedHits, SqliteSearch.FusedHit, SqliteSearch.CandidatesOf, SqliteSearch.Scan;
    TopIsSorted(all, q.limit, fused);
    assert h in Elements(fused);
    var j :| 0 <= j < |fused| && fused[j] == h;
    assert found[j] in found;
  }
}
