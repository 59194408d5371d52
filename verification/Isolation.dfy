/** A Postgres search as its caller sees it, and what other orgs can do to it. */
module Isolation {
  import opened Wrappers
  import opened Runes
  import opened Records
  import opened TopOrder
  import opened PostgresSearch
  import opened StoreModel
  import opened StoreLaws
  import opened TokenEncoding
  import SqliteSearch
  import Vectors

  datatype SearchError =
    | OrgIsRequired
    | LimitBelowOne
    | TextIsRequired
    | StoredMismatch(error: StoreError)
    | QueryNotEmbedded
    | QueryVectorCount(got: nat)
    | QueryVectorInvalid
    | QueryTokensRejected

  /** The text of a query, what the embedder answers for it, and its tokens. */
  datatype QueryText = QueryText(text: Text, vectors: Option<seq<seq<real>>>, tokens: seq<Text>)

  /** How a handle searches: its identity, and the settings of the statement. */
  datatype Searcher = Searcher(identity: Identity, mode: SearchMode, fusion: Fusion, candidateK: nat)

  function QueryError(q: Request, t: QueryText): Option<SearchError> {
    if q.orgId < 1 then Some(OrgIsRequired)
    else if q.limit < 1 then Some(LimitBelowOne)
    else if t.text == [] then Some(TextIsRequired)
    else None
  }

  /** What can go wrong with the query once the table has passed the check: embedding it, its vector, its tokens. */
  function PreparationError(t: QueryText): Option<SearchError> {
    if t.vectors.None? then Some(QueryNotEmbedded)
    else if |t.vectors.value| != 1 then Some(QueryVectorCount(|t.vectors.value|))
    else if !Vectors.IsNormalized(t.vectors.value[0]) then Some(QueryVectorInvalid)
    else if !TokensAccepted(t.tokens) then Some(QueryTokensRejected)
    else None
  }

  ghost function TableOf(db: Db): set<Row> {
    set id | id in db.rows :: db.rows[id]
  }

  /** `r` is what a search may return: the query is checked, then the identity of every row in the table, then
      the query is embedded and tokenized, and then the statement runs.  `vec` is what the vector stage kept; `s` scores the rows for the query. */
  ghost predicate SearchReturns(h: Searcher, db: Db, q: Request, text: QueryText, s: Scoring, vec: set<Row>,
                                r: Result<seq<Hit<Row>>, SearchError>) {
    var invalid := QueryError(q, text);
    var mismatch := IdentityError(db.rows, h.identity);
    var unprepared := PreparationError(text);
    if invalid.Some? then r == Failure(invalid.value)
    else if mismatch.Some? then r == Failure(StoredMismatch(mismatch.value))
    else if unprepared.Some? then r == Failure(unprepared.value)
    else
      && r.Success?
      && IsVectorStage(ScopeOf(TableOf(db), q), s, h.candidateK, vec)
      && Answers(h.mode, h.fusion, TableOf(db), q, s, h.candidateK, vec, r.value)
  }

  /** When a search answers, and what it reports otherwise: the first fault in the order of its steps. */
  lemma {:induction false} SearchReports(h: Searcher, db: Db, q: Request, text: QueryText, s: Scoring, vec: set<Row>,
                                         r: Result<seq<Hit<Row>>, SearchError>)
    requires SearchReturns(h, db, q, text, s, vec, r)
    ensures r.Success? <==>
            && q.orgId >= 1 && q.limit >= 1 && text.text != []
            && (forall x | x in db.rows :: db.rows[x].embedderId == h.identity.embedderId && db.rows[x].tokenizerId == h.identity.tokenizerId)
            && text.vectors.Some? && |text.vectors.value| == 1
            && |text.vectors.value[0]| == 1024 && 0.999 <= Vectors.DotProduct(text.vectors.value[0], text.vectors.value[0]) <= 1.001
            && (forall t, x | t in text.tokens && x in t :: !x.Space? && !x.Meta?)
    ensures r.Failure? ==>
              match r.error
              case OrgIsRequired => q.orgId < 1
              case LimitBelowOne => q.orgId >= 1 && q.limit < 1
              case TextIsRequired => q.orgId >= 1 && q.limit >= 1 && text.text == []
              case StoredMismatch(EmbedderMismatch(e)) => exists x :: x in db.rows && db.rows[x].embedderId == e != h.identity.embedderId
              case StoredMismatch(TokenizerMismatch(e)) => exists x :: x in db.rows && db.rows[x].tokenizerId == e != h.identity.tokenizerId
              case StoredMismatch(_) => false
              case QueryNotEmbedded => text.vectors.None?
              case QueryVectorCount(got) => text.vectors.Some? && got == |text.vectors.value| != 1
              case QueryVectorInvalid =>
                && text.vectors.Some? && |text.vectors.value| == 1
                && !(|text.vectors.value[0]| == 1024 && 0.999 <= Vectors.DotProduct(text.vectors.value[0], text.vectors.value[0]) <= 1.001)
              case QueryTokensRejected => exists t, x :: t in text.tokens && x in t && (x.Space? || x.Meta?)
  {
    hide Vectors.DotProduct, IsVectorStage, Answers;
  }

  // ----- The table as a set of rows -----

  lemma {:induction false} TableHasDistinctIds(db: Db)
    requires Consistent(db)
    ensures DistinctIds(TableOf(db))
  {
    forall x, y | x in TableOf(db) && y in TableOf(db) && x.id == y.id
      ensures x == y
    {
      assert db.rows[x.id] == x && db.rows[y.id] == y;
    }
  }

  lemma {:induction false} ScopeIsOwnRows(a: Db, b: Db, q: Request)
    requires OrgRows(a, q.orgId) == OrgRows(b, q.orgId)
    ensures ScopeOf(TableOf(a), q) == ScopeOf(TableOf(b), q)
  {
    ScopeWithin(a, b, q);
    ScopeWithin(b, a, q);
  }

  lemma {:induction false} ScopeWithin(a: Db, b: Db, q: Request)
    requires OrgRows(a, q.orgId) == OrgRows(b, q.orgId)
    ensures ScopeOf(TableOf(a), q) <= ScopeOf(TableOf(b), q)
  {
    forall r | r in ScopeOf(TableOf(a), q)
      ensures r in ScopeOf(TableOf(b), q)
    {
      var id :| id in a.rows && a.rows[id] == r;
      assert id in OrgRows(a, q.orgId);
      assert b.rows[id] == r;
    }
  }

  /** The candidates depend on the rows in scope alone, although candidate mode joins with the whole table. */
  lemma {:induction false} CandidatesAreOwnRows(a: Db, b: Db, mode: SearchMode, q: Request, s: Scoring, k: nat, vec: set<Row>)
    requires Consistent(a) && Consistent(b) && OrgRows(a, q.orgId) == OrgRows(b, q.orgId)
    requires vec <= ScopeOf(TableOf(a), q)
    ensures CandidateSet(mode, TableOf(a), q, s, k, vec) == CandidateSet(mode, TableOf(b), q, s, k, vec)
    ensures CandidateSet(mode, TableOf(a), q, s, k, vec) <= ScopeOf(TableOf(a), q)
  {
    ScopeIsOwnRows(a, b, q);
    TableHasDistinctIds(a);
    TableHasDistinctIds(b);
    var lex := LexicalStage(ScopeOf(TableOf(a), q), s, k);
    JoinIsUnion(TableOf(a), vec, lex);
    JoinIsUnion(TableOf(b), vec, lex);
  }

  // ----- Non-interference -----

  /** Two tables that agree on an org's rows and on the outcome of the identity check give that org the same
      answers, in every mode and fusion. */
  lemma {:induction false} SearchSeesItsOrgOnly(h: Searcher, a: Db, b: Db, q: Request, text: QueryText, s: Scoring, vec: set<Row>,
                                                r: Result<seq<Hit<Row>>, SearchError>)
    requires Consistent(a) && Consistent(b) && OrgRows(a, q.orgId) == OrgRows(b, q.orgId)
    requires IdentityError(a.rows, h.identity) == IdentityError(b.rows, h.identity)
    ensures SearchReturns(h, a, q, text, s, vec, r) <==> SearchReturns(h, b, q, text, s, vec, r)
  {
    ScopeIsOwnRows(a, b, q);
    if vec <= ScopeOf(TableOf(a), q) {
      CandidatesAreOwnRows(a, b, h.mode, q, s, h.candidateK, vec);
    }
  }

  /** The identity check is the only way other orgs show: a valid query has the same answers on both tables
      exactly if the check has the same outcome on both. */
  lemma {:induction false} OnlyTheCheckDiffers(h: Searcher, a: Db, b: Db, q: Request, text: QueryText, s: Scoring, vec: set<Row>)
    requires Consistent(a) && Consistent(b) && OrgRows(a, q.orgId) == OrgRows(b, q.orgId)
    requires QueryError(q, text).None? && IsVectorStage(ScopeOf(TableOf(a), q), s, h.candidateK, vec)
    ensures (forall r :: SearchReturns(h, a, q, text, s, vec, r) <==> SearchReturns(h, b, q, text, s, vec, r))
            <==> IdentityError(a.rows, h.identity) == IdentityError(b.rows, h.identity)
  {
    if IdentityError(a.rows, h.identity) == IdentityError(b.rows, h.identity) {
      forall r
        ensures SearchReturns(h, a, q, text, s, vec, r) <==> SearchReturns(h, b, q, text, s, vec, r)
      {
        SearchSeesItsOrgOnly(h, a, b, q, text, s, vec, r);
      }
    } else {
      ScopeIsOwnRows(a, b, q);
      var r := SomeAnswer(h, a, q, text, s, vec);
      var w := SomeAnswer(h, b, q, text, s, vec);
      assert r != w && !SearchReturns(h, b, q, text, s, vec, r);
    }
  }

  /** A valid search always returns something. */
  lemma {:induction false} SomeAnswer(h: Searcher, db: Db, q: Request, text: QueryText, s: Scoring, vec: set<Row>)
    returns (r: Result<seq<Hit<Row>>, SearchError>)
    requires Consistent(db) && QueryError(q, text).None?
    requires IsVectorStage(ScopeOf(TableOf(db), q), s, h.candidateK, vec)
    ensures SearchReturns(h, db, q, text, s, vec, r)
  {
    var mismatch := IdentityError(db.rows, h.identity);
    if mismatch.Some? {
      return Failure(StoredMismatch(mismatch.value));
    }
    if PreparationError(text).Some? {
      return Failure(PreparationError(text).value);
    }
    CandidatesAreOwnRows(db, db, h.mode, q, s, h.candidateK, vec);
    TableHasDistinctIds(db);
    var c := CandidateSet(h.mode, TableOf(db), q, s, h.candidateK, vec);
    HitsAreKeyed(c, FusedScore(h.fusion, q.alpha, c, s));
    TopExists(HitsOf(c, FusedScore(h.fusion, q.alpha, c, s)), q.limit);
    var out :| IsTop(HitsOf(c, FusedScore(h.fusion, q.alpha, c, s)), q.limit, out);
    r := Success(out);
  }

  /** With one row of its own, the outcome of the check is settled by that row. */
  lemma {:induction false} OwnRowSettlesTheCheck(a: map<int, Row>, b: map<int, Row>, id: int, identity: Identity)
    requires OneIdentity(a) && OneIdentity(b) && id in a && id in b && a[id] == b[id]
    ensures IdentityError(a, identity) == IdentityError(b, identity)
  {
    forall x | x in a
      ensures HasIdentity(a[x], identity) <==> HasIdentity(a[id], identity)
      ensures MismatchOf(a[x], identity) == MismatchOf(a[id], identity)
    {
    }
    forall x | x in b
      ensures HasIdentity(b[x], identity) <==> HasIdentity(a[id], identity)
      ensures MismatchOf(b[x], identity) == MismatchOf(a[id], identity)
    {
    }
  }

  /** Whatever other orgs write and delete, in any history, an org that has a row gets the same answers before
      and after, mismatch errors included. */
  lemma {:induction false} OthersNeverChangeASearch(h: Searcher, db: Db, ops: seq<Op>, q: Request, text: QueryText, s: Scoring,
                                                    vec: set<Row>, r: Result<seq<Hit<Row>>, SearchError>)
    requires Inv(db) && exists id :: id in OrgRows(db, q.orgId)
    requires forall op | op in ops :: op.orgId != q.orgId
    ensures SearchReturns(h, db, q, text, s, vec, r) <==> SearchReturns(h, Run(db, ops), q, text, s, vec, r)
  {
    var after := Run(db, ops);
    IdsAreNeverReused(db, ops);
    HistoriesStayInTheirOrg(db, ops, q.orgId);
    var id :| id in OrgRows(db, q.orgId);
    assert OrgRows(after, q.orgId)[id] == db.rows[id];
    OwnRowSettlesTheCheck(db.rows, after.rows, id, h.identity);
    SearchSeesItsOrgOnly(h, db, after, q, text, s, vec, r);
  }

  /** A search returns rows of its own org that pass both filters, each at most once and at most `limit` of them. */
  lemma {:induction false} ResultsAreInScope(h: Searcher, db: Db, q: Request, text: QueryText, s: Scoring, vec: set<Row>,
                                             out: seq<Hit<Row>>)
    requires Consistent(db) && SearchReturns(h, db, q, text, s, vec, Success(out))
    ensures |out| <= q.limit
    ensures forall x | x in out :: InScope(q, x.row) && x.id in OrgRows(db, q.orgId) && db.rows[x.id] == x.row
    ensures forall i, j | 0 <= i < j < |out| :: out[i].id != out[j].id
  {
    CandidatesAreOwnRows(db, db, h.mode, q, s, h.candidateK, vec);
    var c := CandidateSet(h.mode, TableOf(db), q, s, h.candidateK, vec);
    TableHasDistinctIds(db);
    HitsAreKeyed(c, FusedScore(h.fusion, q.alpha, c, s));
    AnswersAreHits(c, FusedScore(h.fusion, q.alpha, c, s), q.limit, out);
    hide CandidateSet, FusedScore, Answers, IsVectorStage;
    forall x | x in out
      ensures InScope(q, x.row) && x.id in OrgRows(db, q.orgId) && db.rows[x.id] == x.row
    {
      assert x.row in ScopeOf(TableOf(db), q);
    }
  }

  lemma {:induction false} AnswersAreHits(c: set<Row>, f: Row -> real, limit: nat, out: seq<Hit<Row>>)
    requires Keyed(HitsOf(c, f)) && IsTop(HitsOf(c, f), limit, out)
    ensures |out| <= limit
    ensures forall x | x in out :: x.row in c && x.id == x.row.id
    ensures forall i, j | 0 <= i < j < |out| :: out[i].id != out[j].id
  {
    forall x | x in out
      ensures x.row in c && x.id == x.row.id
    {
      assert x in HitsOf(c, f);
    }
    forall i, j | 0 <= i < j < |out|
      ensures out[i].id != out[j].id
    {
      assert |Ahead(HitsOf(c, f), out[i])| != |Ahead(HitsOf(c, f), out[j])|;
    }
  }

  // ----- SQLite -----

  /** The table in the order a scan reads it. */
  ghost predicate IsListing(table: seq<Row>, db: Db) {
    SqliteSearch.DistinctRows(table) && forall r :: r in table <==> r in TableOf(db)
  }

  /** The candidates of a SQLite search, before lexical scores are attached. */
  ghost function VectorCandidates(table: seq<Row>, vector: seq<real>, q: Request): set<SqliteSearch.Candidate>
    requires forall r | r in SqliteSearch.Scan(table, q) :: |vector| <= |r.vector|
  {
    Elements(SqliteSearch.CandidatesOf(SqliteSearch.Scan(table, q), vector, map[]))
  }

  lemma {:induction false} SameScans(a: Db, b: Db, la: seq<Row>, lb: seq<Row>, q: Request)
    requires IsListing(la, a) && IsListing(lb, b) && OrgRows(a, q.orgId) == OrgRows(b, q.orgId)
    ensures forall r :: r in SqliteSearch.Scan(la, q) <==> r in SqliteSearch.Scan(lb, q)
    ensures forall r :: r in SqliteSearch.Scan(la, q) <==> r in ScopeOf(TableOf(a), q)
  {
    SqliteSearch.ScanIsScope(la, q);
    SqliteSearch.ScanIsScope(lb, q);
    ScopeIsOwnRows(a, b, q);
    forall r
      ensures r in SqliteSearch.Scan(la, q) <==> r in ScopeOf(TableOf(a), q)
      ensures r in SqliteSearch.Scan(lb, q) <==> r in ScopeOf(TableOf(b), q)
    {
    }
  }

  lemma {:induction false} SameCandidates(x: seq<Row>, y: seq<Row>, vector: seq<real>, lx: map<int, real>, ly: map<int, real>)
    requires forall r :: r in x <==> r in y
    requires forall r | r in x :: |vector| <= |r.vector|
    requires forall r | r in x :: r.id in lx <==> r.id in ly
    requires forall r | r in x && r.id in lx :: lx[r.id] == ly[r.id]
    ensures Elements(SqliteSearch.CandidatesOf(x, vector, lx)) == Elements(SqliteSearch.CandidatesOf(y, vector, ly))
  {
    CandidatesWithin(x, y, vector, lx, ly);
    CandidatesWithin(y, x, vector, ly, lx);
  }

  lemma {:induction false} CandidatesWithin(x: seq<Row>, y: seq<Row>, vector: seq<real>, lx: map<int, real>, ly: map<int, real>)
    requires forall r | r in x :: r in y
    requires forall r | r in y :: |vector| <= |r.vector|
    requires forall r | r in x :: r.id in lx <==> r.id in ly
    requires forall r | r in x && r.id in lx :: lx[r.id] == ly[r.id]
    ensures Elements(SqliteSearch.CandidatesOf(x, vector, lx)) <= Elements(SqliteSearch.CandidatesOf(y, vector, ly))
  {
    var cx, cy := SqliteSearch.CandidatesOf(x, vector, lx), SqliteSearch.CandidatesOf(y, vector, ly);
    forall c | c in cx
      ensures c in cy
    {
      var i :| 0 <= i < |x| && cx[i] == c;
      assert x[i] in x;
      var j :| 0 <= j < |y| && y[j] == x[i];
      assert cy[j] == cx[i];
    }
  }

  /** Membership and vector scores of a SQLite search never depend on other orgs; and if the index answers alike
      for the org's own rows, nor does the result, in whatever order the two tables are read. */
  lemma {:induction false} SqliteSeesItsOrgOnly(a: Db, b: Db, la: seq<Row>, lb: seq<Row>, vector: seq<real>, expression: Text,
                                                bma: map<int, real>, bmb: map<int, real>, q: Request)
    requires IsListing(la, a) && IsListing(lb, b) && OrgRows(a, q.orgId) == OrgRows(b, q.orgId)
    requires VectorsAreValid(a.rows) && |vector| == Vectors.DIMENSIONS
    ensures forall r | r in SqliteSearch.Scan(la, q) :: |vector| <= |r.vector|
    ensures forall r | r in SqliteSearch.Scan(lb, q) :: |vector| <= |r.vector|
    ensures VectorCandidates(la, vector, q) == VectorCandidates(lb, vector, q)
    ensures var x, y := SqliteSearch.Scan(la, q), SqliteSearch.Scan(lb, q);
            var cx := SqliteSearch.CandidatesOf(x, vector, SqliteSearch.LexicalOf(x, expression, bma));
            var cy := SqliteSearch.CandidatesOf(y, vector, SqliteSearch.LexicalOf(y, expression, bmb));
            && SqliteSearch.DistinctCandidates(cx) && SqliteSearch.DistinctCandidates(cy)
            && ((forall r | r in x :: (r.id in bma <==> r.id in bmb) && (r.id in bma ==> bma[r.id] == bmb[r.id]))
                ==> SqliteSearch.Fused(cx, q.alpha, q.limit) == SqliteSearch.Fused(cy, q.alpha, q.limit))
  {
    var x, y := SqliteSearch.Scan(la, q), SqliteSearch.Scan(lb, q);
    SameScans(a, b, la, lb, q);
    forall r | r in x
      ensures |vector| <= |r.vector|
    {
      assert r in TableOf(a);
    }
    SqliteSearch.ScanIsDistinct(la, q);
    SqliteSearch.ScanIsDistinct(lb, q);
    SameCandidates(x, y, vector, map[], map[]);
    var lx, ly := SqliteSearch.LexicalOf(x, expression, bma), SqliteSearch.LexicalOf(y, expression, bmb);
    if forall r | r in x :: (r.id in bma <==> r.id in bmb) && (r.id in bma ==> bma[r.id] == bmb[r.id]) {
      SameCandidates(x, y, vector, lx, ly);
      SqliteSearch.FuseIgnoresScanOrder(SqliteSearch.CandidatesOf(x, vector, lx), SqliteSearch.CandidatesOf(y, vector, ly), q.alpha, q.limit);
    }
  }

  /** A SQLite search returns rows of its own org that pass both filters, with the inner product as vector score. */
  lemma {:induction false} SqliteResultsAreInScope(db: Db, table: seq<Row>, vector: seq<real>, lexical: map<int, real>, q: Request,
                                                   h: Hit<SqliteSearch.Candidate>)
    requires Consistent(db) && IsListing(table, db)
    requires forall r | r in SqliteSearch.Scan(table, q) :: |vector| <= |r.vector|
    requires var cs := SqliteSearch.CandidatesOf(SqliteSearch.Scan(table, q), vector, lexical);
             SqliteSearch.DistinctCandidates(cs) && h in SqliteSearch.Fused(cs, q.alpha, q.limit)
    ensures var r := h.row.row;
            && InScope(q, r) && r.id in OrgRows(db, q.orgId) && db.rows[r.id] == r && h.id == r.id
            && |vector| <= |r.vector| && h.row.vectorScore == Vectors.DotProduct(vector, r.vector)
  {
    var scanned := SqliteSearch.Scan(table, q);
    var cs := SqliteSearch.CandidatesOf(scanned, vector, lexical);
    SqliteSearch.FusedHitsAreKeyed(cs, q.alpha);
    assert h in SqliteSearch.FusedHits(cs, q.alpha);
    SqliteSearch.ScanIsScope(table, q);
    var i :| 0 <= i < |cs| && h == SqliteSearch.FusedHit(cs[i], SqliteSearch.MaxLexical(cs), q.alpha);
    assert scanned[i] in scanned && scanned[i] in TableOf(db);
  }
}
