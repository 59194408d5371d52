/** The SQLite store ranks in its own code: scan, score, sort and cut. */
module SqliteSearch {
  import opened Reals
  import opened Sequences
  import opened Sorting
  import opened Records
  import opened Runes
  import opened TokenEncoding
  import opened TopOrder
  import opened Vectors
  import opened Wrappers
  import PostgresSearch

  /** One scanned row with its two scores; lexicalRaw is the negated bm25, 0 when nothing matched. */
  datatype Candidate = Candidate(row: Row, vectorScore: real, lexicalRaw: real)

  datatype Found = Found(chunk: Chunk, vectorScore: real, lexicalScore: real, score: real)

  function MaxLexical(cs: seq<Candidate>): (m: real)
    ensures m >= 0.0
    ensures forall c | c in cs :: c.lexicalRaw <= m
    ensures m == 0.0 || exists c :: c in cs && c.lexicalRaw == m
  {
    if cs == [] then 0.0
    else
      var m := MaxLexical(cs[..|cs| - 1]);
      var last := cs[|cs| - 1];
      assert cs == cs[..|cs| - 1] + [last];
      if last.lexicalRaw > m then last.lexicalRaw else m
  }

  function Normalized(m: real, lexicalRaw: real): real {
    if m > 0.0 then lexicalRaw / m else 0.0
  }

  function FusedHit(c: Candidate, m: real, alpha: real): Hit<Candidate> {
    Hit(c.row.id, PostgresSearch.Mix(alpha, c.vectorScore, Normalized(m, c.lexicalRaw)), c)
  }

  ghost function FusedHits(cs: seq<Candidate>, alpha: real): set<Hit<Candidate>> {
    set c | c in cs :: FusedHit(c, MaxLexical(cs), alpha)
  }

  /** A scan returns each row once. */
  ghost predicate DistinctCandidates(cs: seq<Candidate>) {
    forall i, j | 0 <= i < j < |cs| :: cs[i].row.id != cs[j].row.id
  }

  /** The row's fields, with the org of the request rather than the column. */
  function ToFound(h: Hit<Candidate>, orgId: int): Found {
    Found(h.row.row.chunk.(id := h.id, orgId := orgId), h.row.vectorScore, h.row.lexicalRaw, h.score)
  }

  function ToAllFound(l: seq<Hit<Candidate>>, orgId: int): (f: seq<Found>)
    ensures |f| == |l| && forall i | 0 <= i < |l| :: f[i] == ToFound(l[i], orgId)
  {
    seq(|l|, i requires 0 <= i < |l| => ToFound(l[i], orgId))
  }

  lemma {:induction false} FusedHitsAreKeyed(cs: seq<Candidate>, alpha: real)
    requires DistinctCandidates(cs)
    ensures Keyed(FusedHits(cs, alpha))
  {
    forall x, y | x in FusedHits(cs, alpha) && y in FusedHits(cs, alpha) && x.id == y.id
      ensures x == y
    {
      var i :| 0 <= i < |cs| && x == FusedHit(cs[i], MaxLexical(cs), alpha);
      var j :| 0 <= j < |cs| && y == FusedHit(cs[j], MaxLexical(cs), alpha);
      assert i == j;
    }
  }

  /** The answer of a search over these candidates. */
  ghost function Fused(cs: seq<Candidate>, alpha: real, limit: nat): seq<Hit<Candidate>>
    requires DistinctCandidates(cs)
  {
    FusedHitsAreKeyed(cs, alpha);
    Top(FusedHits(cs, alpha), limit)
  }

  // ----- The sort -----

  ghost predicate SortedRange(a: seq<Hit<Candidate>>) {
    forall i, j | 0 <= i < j < |a| :: !Before(a[j], a[i])
  }

  lemma {:induction false} SortedAnswer(cs: seq<Candidate>, alpha: real, unsorted: seq<Hit<Candidate>>, sorted: seq<Hit<Candidate>>, limit: nat)
    requires DistinctCandidates(cs) && |unsorted| == |cs|
    requires forall i | 0 <= i < |cs| :: unsorted[i] == FusedHit(cs[i], MaxLexical(cs), alpha)
    requires SortedRange(sorted) && multiset(sorted) == multiset(unsorted)
    ensures |sorted| == |cs|
    ensures sorted[..Min(limit, |cs|)] == Fused(cs, alpha, limit)
  {
    assert |multiset(sorted)| == |sorted| && |multiset(unsorted)| == |unsorted|;
    SameElements(sorted, unsorted);
    assert Elements(unsorted) == FusedHits(cs, alpha);
    OneEach(unsorted);
    FusedHitsAreKeyed(cs, alpha);
    forall i, j | 0 <= i < j < |sorted|
      ensures Before(sorted[i], sorted[j])
    {
      NeverTwice(sorted, i, j);
      assert sorted[i] in Elements(sorted) && sorted[j] in Elements(sorted);
    }
    SortedPrefixIsTop(sorted, limit);
    FusedHitsAreKeyed(cs, alpha);
    TopIsUnique(FusedHits(cs, alpha), limit, limit, sorted[..Min(limit, |cs|)], Fused(cs, alpha, limit));
  }

  lemma {:induction false} SameElements<T>(a: seq<T>, b: seq<T>)
    requires multiset(a) == multiset(b)
    ensures Elements(a) == Elements(b)
  {
    forall x
      ensures x in a <==> x in b
    {
      assert x in a <==> x in multiset(a);
    }
  }

  lemma {:induction false} NeverTwice<T>(l: seq<T>, i: nat, j: nat)
    requires i < j < |l| && multiset(l)[l[i]] <= 1
    ensures l[i] != l[j]
  {
    assert l == l[..j] + l[j..];
    assert multiset(l) == multiset(l[..j]) + multiset(l[j..]);
    assert l[..j][i] == l[i] && l[i] in multiset(l[..j]);
    assert l[j..][0] == l[j] && l[j] in multiset(l[j..]);
  }

  lemma {:induction false} OneEach(l: seq<Hit<Candidate>>)
    requires forall i, j | 0 <= i < j < |l| :: l[i].id != l[j].id
    ensures forall h :: multiset(l)[h] <= 1
  {
    if l != [] {
      var n := |l| - 1;
      OneEach(l[..n]);
      assert l == l[..n] + [l[n]];
      assert l[n] !in l[..n];
    }
  }

  method FindMaxLexical(cs: seq<Candidate>) returns (maxLexical: real)
    ensures maxLexical == MaxLexical(cs)
  {
    maxLexical := 0.0;
    for i := 0 to |cs|
      invariant maxLexical == MaxLexical(cs[..i])
    {
      assert cs[..i + 1][..i] == cs[..i];
      if cs[i].lexicalRaw > maxLexical {
        maxLexical := cs[i].lexicalRaw;
      }
    }
    assert cs[..|cs|] == cs;
  }

  method ScoreAll(cs: seq<Candidate>, maxLexical: real, alpha: real) returns (scored: seq<Hit<Candidate>>)
    ensures |scored| == |cs|
    ensures forall i | 0 <= i < |cs| :: scored[i] == FusedHit(cs[i], maxLexical, alpha)
  {
    scored := [];
    for i := 0 to |cs|
      invariant |scored| == i && forall j | 0 <= j < i :: scored[j] == FusedHit(cs[j], maxLexical, alpha)
    {
      scored := scored + [FusedHit(cs[i], maxLexical, alpha)];
    }
  }

  method ToResults(hits: seq<Hit<Candidate>>, orgId: int) returns (results: seq<Found>)
    ensures results == ToAllFound(hits, orgId)
  {
    results := [];
    for i := 0 to |hits|
      invariant |results| == i && forall j | 0 <= j < i :: results[j] == ToFound(hits[j], orgId)
    {
      results := results + [ToFound(hits[i], orgId)];
    }
  }

  /** The fusion itself: two passes, an in-place sort and a cut. */
  method Fuse(cs: seq<Candidate>, q: Request) returns (results: seq<Found>)
    requires DistinctCandidates(cs)
    ensures results == ToAllFound(Fused(cs, q.alpha, q.limit), q.orgId)
  {
    var maxLexical := FindMaxLexical(cs);
    var scored := ScoreAll(cs, maxLexical, q.alpha);
    var a := new Hit<Candidate>[|scored|](i requires 0 <= i < |scored| => scored[i]);
    assert a[..] == scored;
    Sort(a, (x, y) => Before(x, y));
    SortedAnswer(cs, q.alpha, scored, a[..], q.limit);
    results := ToResults(a[..Min(a.Length, q.limit)], q.orgId);
  }

  datatype SearchFailure = QueryTokens(error: TokenError) | StoredVector(id: int)

  /** The rows of the request's org that pass both filters, in the order the table is read. */
  function Scan(table: seq<Row>, q: Request): (scanned: seq<Row>) {
    if table == [] then []
    else
      var n := |table| - 1;
      Scan(table[..n], q) + if InScope(q, table[n]) then [table[n]] else []
  }

  /** The negated bm25 of the scanned rows that match; an empty expression is never handed to the index. */
  function LexicalOf(scanned: seq<Row>, expression: Text, bm25: map<int, real>): map<int, real> {
    if expression == [] then map[] else map id | id in bm25 && IsScanned(scanned, id) :: -bm25[id]
  }

  predicate IsScanned(scanned: seq<Row>, id: int) {
    exists r | r in scanned :: r.id == id
  }

  predicate HasDimensions(r: Row) {
    |r.vector| == DIMENSIONS
  }

  ghost predicate IsFirstBadVector(table: seq<Row>, q: Request, e: SearchFailure) {
    exists i ::
      && 0 <= i < |table| && InScope(q, table[i]) && !HasDimensions(table[i])
      && (forall x | x in Scan(table[..i], q) :: HasDimensions(x)) && e == StoredVector(table[i].id)
  }

  /** Reads the candidates and scores their vectors; the first stored vector of a wrong length ends the search. */
  method ScanCandidates(table: seq<Row>, vector: seq<real>, q: Request) returns (r: Result<seq<Candidate>, SearchFailure>)
    requires |vector| == DIMENSIONS
    ensures r.Success? <==> forall x | x in Scan(table, q) :: HasDimensions(x)
    ensures r.Success? ==> r.value == CandidatesOf(Scan(table, q), vector, map[])
    ensures r.Failure? ==> IsFirstBadVector(table, q, r.error)
  {
    var cs: seq<Candidate> := [];
    for i := 0 to |table|
      invariant forall x | x in Scan(table[..i], q) :: HasDimensions(x)
      invariant cs == CandidatesOf(Scan(table[..i], q), vector, map[])
    {
      ScanOneMore(table, q, i);
      if InScope(q, table[i]) {
        if |table[i].vector| != DIMENSIONS {
          ScanIsScope(table, q);
          assert table[i] in Scan(table, q) && !HasDimensions(table[i]);
          return Failure(StoredVector(table[i].id));
        }
        var d := Dot(vector, table[i].vector);
        cs := cs + [Candidate(table[i], d, 0.0)];
      }
    }
    assert table[..|table|] == table;
    return Success(cs);
  }

  method LexicalScores(table: seq<Row>, expression: Text, bm25: map<int, real>, q: Request) returns (scores: map<int, real>)
    ensures scores == LexicalOf(Scan(table, q), expression, bm25)
  {
    scores := map[];
    if expression == [] {
      return map[];
    }
    NothingScanned(table, q, expression, bm25);
    hide LexicalOf, Scan, InScope, IsScanned;
    for i := 0 to |table|
      invariant scores == LexicalOf(Scan(table[..i], q), expression, bm25)
    {
      ScanOneMore(table, q, i);
      LexicalOneMore(Scan(table[..i], q), expression, bm25, table[i]);
      if InScope(q, table[i]) && table[i].id in bm25 {
        scores := scores[table[i].id := -bm25[table[i].id]];
      }
    }
    assert table[..|table|] == table;
  }

  lemma {:induction false} NothingScanned(table: seq<Row>, q: Request, expression: Text, bm25: map<int, real>)
    ensures LexicalOf(Scan(table[..0], q), expression, bm25) == map[]
  {
  }

  lemma {:induction false} LexicalOneMore(scanned: seq<Row>, expression: Text, bm25: map<int, real>, r: Row)
    requires expression != []
    ensures LexicalOf(scanned + [r], expression, bm25) ==
            if r.id in bm25 then LexicalOf(scanned, expression, bm25)[r.id := -bm25[r.id]] else LexicalOf(scanned, expression, bm25)
  {
    forall id
      ensures IsScanned(scanned + [r], id) <==> IsScanned(scanned, id) || id == r.id
    {
      assert forall x :: x in scanned + [r] <==> x in scanned || x == r;
    }
  }

  /** The primary key, on a listing of the table. */
  ghost predicate DistinctRows(table: seq<Row>) {
    forall i, j | 0 <= i < j < |table| :: table[i].id != table[j].id
  }

  /** The scanned rows with their scores, fused. */
  ghost predicate IsAnswer(table: seq<Row>, vector: seq<real>, tokens: seq<Text>, bm25: map<int, real>, q: Request, found: seq<Found>) {
    var scanned := Scan(table, q);
    && (forall r | r in scanned :: |vector| <= |r.vector|)
    && var cs := CandidatesOf(scanned, vector, LexicalOf(scanned, MatchExpression(tokens), bm25));
    && DistinctCandidates(cs)
    && found == ToAllFound(Fused(cs, q.alpha, q.limit), q.orgId)
  }

  /** The whole search after the query vector is known: the tokens are checked, the scope is scanned in
      whatever order the table is read, lexical scores are attached by id (a row without one keeps 0), and the
      candidates are fused.  `bm25` is what the index answers for the expression, over all orgs. */
  method SearchRows(table: seq<Row>, vector: seq<real>, tokens: seq<Text>, bm25: map<int, real>, q: Request)
    returns (r: Result<seq<Found>, SearchFailure>)
    requires DistinctRows(table) && |vector| == DIMENSIONS
    ensures r.Success? <==> TokensAccepted(tokens) && forall x | x in Scan(table, q) :: HasDimensions(x)
    ensures r.Failure? ==> if TokensAccepted(tokens) then IsFirstBadVector(table, q, r.error)
                           else r.error.QueryTokens? && IsFirstFault(tokens, r.error.error)
    ensures r.Success? ==> IsAnswer(table, vector, tokens, bm25, q, r.value)
  {
    var valid := ValidateTokens(tokens);
    if valid.Failure? {
      return Failure(QueryTokens(valid.error));
    }
    var found := ScanCandidates(table, vector, q);
    if found.Failure? {
      return Failure(found.error);
    }
    var lexical := LexicalScores(table, MatchExpression(tokens), bm25, q);
    var cs := found.value;
    ghost var scanned := Scan(table, q);
    ScanIsDistinct(table, q);
    assert forall j | 0 <= j < |scanned| :: HasDimensions(scanned[j]);
    hide Scan;
    for i := 0 to |cs|
      invariant |cs| == |scanned|
      invariant forall j | 0 <= j < |cs| :: cs[j] == CandidateOf(scanned[j], vector, if j < i then lexical else map[])
    {
      cs := cs[i := cs[i].(lexicalRaw := if cs[i].row.id in lexical then lexical[cs[i].row.id] else 0.0)];
    }
    assert cs == CandidatesOf(scanned, vector, lexical);
    var results := Fuse(cs, q);
    return Success(results);
  }

  lemma {:induction false} ScanOneMore(table: seq<Row>, q: Request, i: nat)
    requires i < |table|
    ensures Scan(table[..i + 1], q) == Scan(table[..i], q) + if InScope(q, table[i]) then [table[i]] else []
  {
    assert table[..i + 1][..i] == table[..i];
  }

  /** A scan returns exactly the rows in scope. */
  lemma {:induction false} ScanIsScope(table: seq<Row>, q: Request)
    ensures forall r :: r in Scan(table, q) <==> r in table && InScope(q, r)
  {
    if table != [] {
      var n := |table| - 1;
      ScanIsScope(table[..n], q);
      assert table == table[..n] + [table[n]];
    }
  }

  lemma {:induction false} ScanIsDistinct(table: seq<Row>, q: Request)
    requires DistinctRows(table)
    ensures DistinctRows(Scan(table, q))
  {
    if table != [] {
      var n := |table| - 1;
      ScanIsDistinct(table[..n], q);
      ScanIsScope(table[..n], q);
      forall r | r in table[..n]
        ensures r.id != table[n].id
      {
        var i :| 0 <= i < n && table[i] == r;
      }
    }
  }

  function CandidateOf(r: Row, vector: seq<real>, lexical: map<int, real>): Candidate
    requires |vector| <= |r.vector|
  {
    Candidate(r, DotProduct(vector, r.vector), if r.id in lexical then lexical[r.id] else 0.0)
  }

  function CandidatesOf(scanned: seq<Row>, vector: seq<real>, lexical: map<int, real>): (cs: seq<Candidate>)
    requires forall r | r in scanned :: |vector| <= |r.vector|
    ensures |cs| == |scanned| && forall i | 0 <= i < |cs| :: cs[i] == CandidateOf(scanned[i], vector, lexical)
  {
    seq(|scanned|, i requires 0 <= i < |scanned| => CandidateOf(scanned[i], vector, lexical))
  }

  // ----- Laws -----

  lemma {:induction false} MaxLexicalOfElements(a: seq<Candidate>, b: seq<Candidate>)
    requires Elements(a) == Elements(b)
    ensures MaxLexical(a) == MaxLexical(b)
  {
    MaxBelow(a, b);
    MaxBelow(b, a);
  }

  lemma {:induction false} MaxBelow(a: seq<Candidate>, b: seq<Candidate>)
    requires Elements(a) <= Elements(b)
    ensures MaxLexical(a) <= MaxLexical(b)
  {
    if MaxLexical(a) != 0.0 {
      var c :| c in a && c.lexicalRaw == MaxLexical(a);
      assert c in Elements(a);
    }
  }

  /** The answer is a function of the set of candidates: the scan order never shows. */
  lemma {:induction false} FuseIgnoresScanOrder(a: seq<Candidate>, b: seq<Candidate>, alpha: real, limit: nat)
    requires DistinctCandidates(a) && DistinctCandidates(b) && Elements(a) == Elements(b)
    ensures Fused(a, alpha, limit) == Fused(b, alpha, limit)
  {
    MaxLexicalOfElements(a, b);
    forall c
      ensures c in a <==> c in b
    {
      assert c in a <==> c in Elements(a);
    }
    assert FusedHits(a, alpha) == FusedHits(b, alpha);
  }

  /** A smaller limit only cuts the answer. */
  lemma {:induction false} SmallerLimitIsPrefix(cs: seq<Candidate>, alpha: real, m: nat, n: nat)
    requires DistinctCandidates(cs) && m <= n
    ensures |Fused(cs, alpha, m)| == Min(m, |cs|)
    ensures |Fused(cs, alpha, m)| <= |Fused(cs, alpha, n)|
    ensures Fused(cs, alpha, m) == Fused(cs, alpha, n)[..|Fused(cs, alpha, m)|]
  {
    FusedHitsAreKeyed(cs, alpha);
    TopIsUnique(FusedHits(cs, alpha), m, n, Fused(cs, alpha, m), Fused(cs, alpha, n));
    FusedHitsSize(cs, alpha);
  }

  lemma {:induction false} FusedHitsSize(cs: seq<Candidate>, alpha: real)
    requires DistinctCandidates(cs)
    ensures |FusedHits(cs, alpha)| == |cs|
  {
    var l := seq(|cs|, i requires 0 <= i < |cs| => FusedHit(cs[i], MaxLexical(cs), alpha));
    assert Elements(l) == FusedHits(cs, alpha) by {
      forall i | 0 <= i < |cs|
        ensures l[i] in FusedHits(cs, alpha)
      {
        assert cs[i] in cs;
      }
      forall h | h in FusedHits(cs, alpha)
        ensures h in l
      {
        var i :| 0 <= i < |cs| && h == FusedHit(cs[i], MaxLexical(cs), alpha);
        assert l[i] == h;
      }
    }
    ElementsSize(l);
  }

  /** The same candidates with every lexical score multiplied by k. */
  function Scaled(cs: seq<Candidate>, k: real): (s: seq<Candidate>)
    ensures |s| == |cs| && forall i | 0 <= i < |cs| :: s[i] == cs[i].(lexicalRaw := Times(k, cs[i].lexicalRaw))
  {
    seq(|cs|, i requires 0 <= i < |cs| => cs[i].(lexicalRaw := Times(k, cs[i].lexicalRaw)))
  }

  lemma {:induction false} ScaledMax(cs: seq<Candidate>, k: real)
    requires k > 0.0
    ensures MaxLexical(Scaled(cs, k)) == Times(k, MaxLexical(cs))
  {
    if cs != [] {
      var n := |cs| - 1;
      ScaledMax(cs[..n], k);
      assert Scaled(cs, k)[..n] == Scaled(cs[..n], k);
      ScaleCompare(k, MaxLexical(cs[..n]), cs[n].lexicalRaw);
    }
  }

  lemma {:induction false} ScaleCompare(k: real, x: real, y: real)
    requires k > 0.0
    ensures x < y <==> Times(k, x) < Times(k, y)
  {
    if x < y {
      Positive(k, y - x);
      Distribute(k, x, y - x);
    } else {
      ProductSign(k, x - y);
      Distribute(k, y, x - y);
    }
  }

  lemma {:induction false} Distribute(k: real, x: real, d: real)
    ensures Times(k, x + d) == Times(k, x) + k * d
  {
  }

  lemma {:induction false} NormalizedIsScaleFree(k: real, x: real, m: real)
    requires k > 0.0 && m >= 0.0
    ensures Normalized(Times(k, m), Times(k, x)) == Normalized(m, x)
  {
    if m > 0.0 {
      Positive(k, m);
      CancelFactor(k, x, m);
    }
  }

  lemma {:induction false} CancelFactor(k: real, x: real, m: real)
    requires k > 0.0 && m > 0.0 && k * m > 0.0
    ensures (k * x) / (k * m) == x / m
  {
    var y := x / m;
    assert y * m == x;
    assert k * x == y * (k * m);
  }

  /** Two candidate lists with equal ids and equal scores position by position are answered alike. */
  lemma {:induction false} SameScoresSameAnswer(a: seq<Candidate>, b: seq<Candidate>, alpha: real, beta: real, limit: nat)
    requires DistinctCandidates(a) && DistinctCandidates(b) && |a| == |b|
    requires forall i | 0 <= i < |a| ::
               Outline(FusedHit(a[i], MaxLexical(a), alpha)) == Outline(FusedHit(b[i], MaxLexical(b), beta))
    ensures OutlineAll(Fused(a, alpha, limit)) == OutlineAll(Fused(b, beta, limit))
  {
    FusedHitsAreKeyed(a, alpha);
    FusedHitsAreKeyed(b, beta);
    OutlinesBelow(a, b, alpha, beta);
    OutlinesBelow(b, a, beta, alpha);
    SameOutlines(FusedHits(a, alpha), FusedHits(b, beta), limit, Fused(a, alpha, limit), Fused(b, beta, limit));
  }

  lemma {:induction false} OutlinesBelow(a: seq<Candidate>, b: seq<Candidate>, alpha: real, beta: real)
    requires |a| == |b|
    requires forall i | 0 <= i < |a| ::
               Outline(FusedHit(a[i], MaxLexical(a), alpha)) == Outline(FusedHit(b[i], MaxLexical(b), beta))
    ensures Outlines(FusedHits(a, alpha)) <= Outlines(FusedHits(b, beta))
  {
    forall o | o in Outlines(FusedHits(a, alpha))
      ensures o in Outlines(FusedHits(b, beta))
    {
      var i :| 0 <= i < |a| && o == Outline(FusedHit(a[i], MaxLexical(a), alpha));
      assert b[i] in b && FusedHit(b[i], MaxLexical(b), beta) in FusedHits(b, beta);
    }
  }

  /** The unit of the lexical score does not matter. */
  lemma {:induction false} ScalingLexicalChangesNothing(cs: seq<Candidate>, k: real, alpha: real, limit: nat)
    requires DistinctCandidates(cs) && k > 0.0
    ensures DistinctCandidates(Scaled(cs, k))
    ensures OutlineAll(Fused(Scaled(cs, k), alpha, limit)) == OutlineAll(Fused(cs, alpha, limit))
  {
    ScaledMax(cs, k);
    var m := MaxLexical(cs);
    forall i | 0 <= i < |cs|
      ensures Normalized(Times(k, m), Times(k, cs[i].lexicalRaw)) == Normalized(m, cs[i].lexicalRaw)
    {
      NormalizedIsScaleFree(k, cs[i].lexicalRaw, m);
    }
    SameScoresSameAnswer(Scaled(cs, k), cs, alpha, alpha, limit);
  }

  /** With no lexical hit every score is alpha times the vector score. */
  lemma {:induction false} NoLexicalHit(cs: seq<Candidate>, alpha: real, limit: nat, i: nat)
    requires DistinctCandidates(cs) && (forall c | c in cs :: c.lexicalRaw == 0.0)
    requires i < |Fused(cs, alpha, limit)|
    ensures Fused(cs, alpha, limit)[i].score == alpha * Fused(cs, alpha, limit)[i].row.vectorScore
  {
    var h := Fused(cs, alpha, limit)[i];
    assert h in FusedHits(cs, alpha);
    assert MaxLexical(cs) == 0.0;
  }

  /** Forgetting every lexical score. */
  function Unlexical(cs: seq<Candidate>): (s: seq<Candidate>)
    ensures |s| == |cs| && forall i | 0 <= i < |cs| :: s[i] == cs[i].(lexicalRaw := 0.0)
  {
    seq(|cs|, i requires 0 <= i < |cs| => cs[i].(lexicalRaw := 0.0))
  }

  /** alpha = 1 is pure vector search, whatever the lexical side says. */
  lemma {:induction false} AlphaOneIsPureVector(cs: seq<Candidate>, limit: nat)
    requires DistinctCandidates(cs)
    ensures DistinctCandidates(Unlexical(cs))
    ensures OutlineAll(Fused(cs, 1.0, limit)) == OutlineAll(Fused(Unlexical(cs), 1.0, limit))
    ensures forall h | h in Fused(cs, 1.0, limit) :: h.score == h.row.vectorScore
  {
    forall v: real, x: real
      ensures PostgresSearch.Mix(1.0, v, x) == v
    {
    }
    SameScoresSameAnswer(cs, Unlexical(cs), 1.0, 1.0, limit);
    forall h | h in Fused(cs, 1.0, limit)
      ensures h.score == h.row.vectorScore
    {
      assert h in FusedHits(cs, 1.0);
    }
  }

  /** With vectors that pass the norm check and lexical scores that are not negative, a score is a
      weighted mean of something in [-1.001, 1.001] and something in [0, 1]. */
  lemma {:induction false} ScoresAreBounded(scanned: seq<Row>, vector: seq<real>, lexical: map<int, real>, q: Request, h: Hit<Candidate>)
    requires IsNormalized(vector) && forall r | r in scanned :: IsNormalized(r.vector) && |vector| <= |r.vector|
    requires DistinctRows(scanned)
    requires forall id | id in lexical :: lexical[id] >= 0.0
    requires 0.0 <= q.alpha <= 1.0
    requires h in Fused(CandidatesOf(scanned, vector, lexical), q.alpha, q.limit)
    ensures -1.001 * q.alpha <= h.score <= 1.001 * q.alpha + (1.0 - q.alpha)
  {
    var cs := CandidatesOf(scanned, vector, lexical);
    assert h in FusedHits(cs, q.alpha);
    var i :| 0 <= i < |cs| && h == FusedHit(cs[i], MaxLexical(cs), q.alpha);
    assert scanned[i] in scanned && cs[i] in cs;
    ValidDotIsBounded(vector, scanned[i].vector);
    NormalizedRange(MaxLexical(cs), cs[i].lexicalRaw);
    MixRange(q.alpha, cs[i].vectorScore, Normalized(MaxLexical(cs), cs[i].lexicalRaw));
  }

  lemma {:induction false} NormalizedRange(m: real, x: real)
    requires 0.0 <= x <= m
    ensures 0.0 <= Normalized(m, x) <= 1.0
  {
    if m > 0.0 {
      DivideUp(0.0, x, m);
      DivideUp(x, m, m);
    }
  }

  lemma {:induction false} MixRange(alpha: real, v: real, n: real)
    requires 0.0 <= alpha <= 1.0 && -1.001 <= v <= 1.001 && 0.0 <= n <= 1.0
    ensures -1.001 * alpha <= PostgresSearch.Mix(alpha, v, n) <= 1.001 * alpha + (1.0 - alpha)
  {
    PostgresSearch.MixUp(alpha, -1.001, v, 0.0, n);
    PostgresSearch.MixUp(alpha, v, 1.001, n, 1.0);
  }

  // ----- The two stores agree -----

  /** The candidates the SQLite store would scan for a Postgres scoring of the same rows. */
  ghost predicate SameData(cs: seq<Candidate>, scope: set<Row>, s: PostgresSearch.Scoring) {
    && DistinctCandidates(cs)
    && (forall c | c in cs :: c.row in scope && c.vectorScore == s.vectorScore(c.row) && c.lexicalRaw == s.rank(c.row))
    && (forall r | r in scope :: exists c :: c in cs && c.row == r)
  }

  /** On the same scored rows, the sort in SQLite and the exhaustive weighted-sum statement return the
      same ids in the same order with the same scores. */
  lemma {:induction false} StoresAgree(cs: seq<Candidate>, t: set<Row>, q: Request, s: PostgresSearch.Scoring,
                    k: nat, vec: set<Row>, out: seq<Hit<Row>>)
    requires PostgresSearch.RankPremise(s) && DistinctIds(t) && SameData(cs, ScopeOf(t, q), s)
    requires PostgresSearch.Answers(PostgresSearch.Exhaustive, PostgresSearch.WeightedSum, t, q, s, k, vec, out)
    ensures OutlineAll(Fused(cs, q.alpha, q.limit)) == OutlineAll(out)
  {
    var scope := ScopeOf(t, q);
    var f := PostgresSearch.FusedScore(PostgresSearch.WeightedSum, q.alpha, scope, s);
    var hits := PostgresSearch.HitsOf(scope, f);
    PostgresSearch.HitsAreKeyed(scope, f);
    FusedHitsAreKeyed(cs, q.alpha);
    SameMaximum(cs, scope, s);
    forall c | c in cs
      ensures Outline(FusedHit(c, MaxLexical(cs), q.alpha)) == Outline(Hit(c.row.id, f(c.row), c.row))
    {
      assert PostgresSearch.NormalizedRank(scope, s, c.row) == Normalized(MaxLexical(cs), c.lexicalRaw);
    }
    SameOutlineSets(cs, scope, s, q.alpha, f);
    SameOutlines(FusedHits(cs, q.alpha), hits, q.limit, Fused(cs, q.alpha, q.limit), out);
  }

  lemma {:induction false} SameMaximum(cs: seq<Candidate>, scope: set<Row>, s: PostgresSearch.Scoring)
    requires PostgresSearch.RankPremise(s) && SameData(cs, scope, s)
    ensures MaxLexical(cs) == PostgresSearch.MaxOf(scope, s.rank)
  {
    var m := PostgresSearch.MaxOf(scope, s.rank);
    if scope != {} {
      var r :| r in scope && s.rank(r) == m;
      var c :| c in cs && c.row == r;
    } else if cs != [] {
      assert cs[0] in cs;
    }
  }

  lemma {:induction false} SameOutlineSets(cs: seq<Candidate>, scope: set<Row>, s: PostgresSearch.Scoring, alpha: real, f: Row -> real)
    requires SameData(cs, scope, s)
    requires forall c | c in cs :: Outline(FusedHit(c, MaxLexical(cs), alpha)) == Outline(Hit(c.row.id, f(c.row), c.row))
    ensures Outlines(FusedHits(cs, alpha)) == Outlines(PostgresSearch.HitsOf(scope, f))
  {
    var a, b := FusedHits(cs, alpha), PostgresSearch.HitsOf(scope, f);
    forall o | o in Outlines(a)
      ensures o in Outlines(b)
    {
      var c :| c in cs && o == Outline(FusedHit(c, MaxLexical(cs), alpha));
      assert Hit(c.row.id, f(c.row), c.row) in b;
    }
    forall o | o in Outlines(b)
      ensures o in Outlines(a)
    {
      var r :| r in scope && o == Outline(Hit(r.id, f(r), r));
      var c :| c in cs && c.row == r;
      assert FusedHit(c, MaxLexical(cs), alpha) in a;
    }
  }
}
