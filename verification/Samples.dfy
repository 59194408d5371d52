/** Tables a store can really hold, and scores a query can really give: what a counterexample has to be made of. */
module Samples {
  import opened Wrappers
  import opened Runes
  import opened Records
  import opened Sequences
  import opened TopOrder
  import opened Tokenizers
  import opened TokenEncoding
  import opened StoreModel
  import opened StoreLaws
  import opened Isolation
  import opened PostgresSearch
  import opened Vectors

  /** Some history of calls leaves exactly these rows. */
  ghost predicate Reachable(t: set<Row>) {
    exists ops :: TableOf(Run(EMPTY, ops)) == t
  }

  /** Vector scores are inner products with one valid query vector; lexical scores depend on the stored text alone. */
  ghost predicate ScoredBy(s: Scoring, query: seq<real>, t: set<Row>) {
    && IsNormalized(query)
    && (forall r | r in t :: |r.vector| == |query| && s.vectorScore(r) == DotProduct(query, r.vector))
    && (forall x, y | x in t && y in t && x.lexemeText == y.lexemeText ::
          s.rank(x) == s.rank(y) && s.matches(x) == s.matches(y))
  }

  /** A search that can happen: a table from a history, a valid request, scores of a query, an exact vector stage. */
  ghost predicate CanHappen(t: set<Row>, q: Request, s: Scoring, k: nat, vec: set<Row>) {
    && Reachable(t)
    && (exists query :: ScoredBy(s, query, t)) && RankPremise(s)
    && q.orgId >= 1 && q.limit >= 1 && 0.0 <= q.alpha <= 1.0
    && k >= 1 && IsVectorStage(ScopeOf(t, q), s, k, vec)
  }

  lemma {:induction false} ReachableHasDistinctIds(t: set<Row>)
    requires Reachable(t)
    ensures DistinctIds(t)
  {
    var ops :| TableOf(Run(EMPTY, ops)) == t;
    HistoriesKeepInv(ops);
    TableHasDistinctIds(Run(EMPTY, ops));
  }

  // ----- Vectors -----

  /** A vector in the plane of the first two components. */
  function Direction(x: real, y: real): (v: seq<real>)
    ensures |v| == DIMENSIONS
  {
    [x, y] + seq(DIMENSIONS - 2, i => 0.0)
  }

  lemma {:induction false} DirectionPrefix(x: real, y: real, b: seq<real>, n: nat)
    requires 2 <= n <= DIMENSIONS == |b|
    ensures DotProduct(Direction(x, y)[..n], b) == x * b[0] + y * b[1]
  {
    var a := Direction(x, y);
    assert a[..n][..n - 1] == a[..n - 1];
    if n == 2 {
      assert a[..1][..0] == [];
      assert DotProduct(a[..1], b) == x * b[0];
    } else {
      DirectionPrefix(x, y, b, n - 1);
      assert a[n - 1] == 0.0;
    }
  }

  lemma {:induction false} DirectionDot(x: real, y: real, b: seq<real>)
    requires |b| == DIMENSIONS
    ensures DotProduct(Direction(x, y), b) == x * b[0] + y * b[1]
  {
    DirectionPrefix(x, y, b, DIMENSIONS);
    assert Direction(x, y)[..DIMENSIONS] == Direction(x, y);
  }

  lemma {:induction false} DirectionIsNormalized(x: real, y: real)
    requires -NORM_TOLERANCE <= x * x + y * y - 1.0 <= NORM_TOLERANCE
    ensures IsNormalized(Direction(x, y))
  {
    DirectionDot(x, y, Direction(x, y));
  }

  // ----- Tables -----

  const HANDLE := Handle(Identity("model", "tokenizer"), (t: Text) => [t])

  function ChunkAt(contents: seq<Text>, i: nat): Chunk
    requires i < |contents|
  {
    Chunk(0, 1, None, 1, 1, i, contents[i], None, None)
  }

  function ChunksOf(contents: seq<Text>): (c: seq<Chunk>)
    ensures |c| == |contents| && forall i | 0 <= i < |c| :: c[i] == ChunkAt(contents, i)
  {
    seq(|contents|, i requires 0 <= i < |contents| => ChunkAt(contents, i))
  }

  function EncodedOf(contents: seq<Text>, vectors: seq<seq<real>>): (e: seq<Encoded>)
    requires |contents| == |vectors|
    ensures |e| == |contents| && forall i | 0 <= i < |e| :: e[i] == Encoded(vectors[i], contents[i])
  {
    seq(|contents|, i requires 0 <= i < |contents| => Encoded(vectors[i], contents[i]))
  }

  function SampleRow(contents: seq<Text>, vectors: seq<seq<real>>, i: nat): Row
    requires i < |contents| == |vectors|
  {
    RowOf(HANDLE, 1, ChunkAt(contents, i), Encoded(vectors[i], contents[i]), i + 1)
  }

  function SampleRows(contents: seq<Text>, vectors: seq<seq<real>>): (rows: seq<Row>)
    requires |contents| == |vectors|
    ensures |rows| == |contents| && forall i | 0 <= i < |rows| :: rows[i] == SampleRow(contents, vectors, i)
  {
    seq(|contents|, i requires 0 <= i < |contents| => SampleRow(contents, vectors, i))
  }

  ghost predicate Storable(contents: seq<Text>, vectors: seq<seq<real>>) {
    && |contents| == |vectors| > 0
    && (forall t | t in contents :: IsToken(t))
    && (forall v | v in vectors :: IsNormalized(v))
  }

  lemma {:induction false} SampleEncodes(contents: seq<Text>, vectors: seq<seq<real>>, n: nat)
    requires Storable(contents, vectors) && n <= |contents|
    ensures EncodeChunks(HANDLE, ChunksOf(contents), vectors, n) == Success(EncodedOf(contents, vectors)[..n])
  {
    if n > 0 {
      SampleEncodes(contents, vectors, n - 1);
      var t := contents[n - 1];
      assert t in contents && vectors[n - 1] in vectors;
      assert HANDLE.tokenize(ChunksOf(contents)[n - 1].content) == [t];
      assert LexemeText([t]) == t;
      assert TokensAccepted([t]);
      hide IsNormalized;
      assert EncodedOf(contents, vectors)[..n - 1] + [Encoded(vectors[n - 1], t)] == EncodedOf(contents, vectors)[..n];
    }
  }

  /** The batch goes in under the ids 1, 2, ... */
  lemma {:induction false} SampleInserts(contents: seq<Text>, vectors: seq<seq<real>>, n: nat)
    requires n <= |contents| == |vectors|
    ensures var (db, ids) := InsertFirst(EMPTY, HANDLE, 1, ChunksOf(contents), EncodedOf(contents, vectors), n);
            && db.nextId == n + 1
            && (forall x :: x in db.rows <==> 1 <= x <= n)
            && forall i | 0 <= i < n :: db.rows[i + 1] == SampleRow(contents, vectors, i)
  {
    if n > 0 {
      SampleInserts(contents, vectors, n - 1);
    }
  }

  /** One Put stores the sample. */
  lemma {:induction false} SampleIsReachable(contents: seq<Text>, vectors: seq<seq<real>>)
    requires Storable(contents, vectors)
    ensures Reachable(Elements(SampleRows(contents, vectors)))
    ensures Distinct(SampleRows(contents, vectors))
  {
    var env := Outcome(Some(vectors), false, None, false);
    var chunks := ChunksOf(contents);
    assert chunks != [];
    forall c | c in chunks
      ensures c.id == 0 && c.content != [] && c.orgId == 1 && c.externalId.None? && c.chunkIndex >= 0
    {
      var i :| 0 <= i < |chunks| && chunks[i] == c;
      assert contents[i] in contents;
    }
    BatchErrorMeans(1, chunks);
    SampleEncodes(contents, vectors, |contents|);
    assert EncodedOf(contents, vectors)[..|contents|] == EncodedOf(contents, vectors);
    PutSucceedsExactly(EMPTY, HANDLE, 1, chunks, env);
    SampleInserts(contents, vectors, |contents|);
    var op := OpPut(HANDLE, 1, chunks, env);
    assert [op][..0] == [];
    var db := Run(EMPTY, [op]);
    assert EncodeBatch(HANDLE, chunks, env) == Success(EncodedOf(contents, vectors));
    assert Put(EMPTY, HANDLE, 1, chunks, env).0.Success?;
    assert Run(EMPTY, []) == EMPTY;
    assert db == Put(EMPTY, HANDLE, 1, chunks, env).1;
    assert db == InsertFirst(EMPTY, HANDLE, 1, chunks, EncodedOf(contents, vectors), |contents|).0;
    SampleTable(db, contents, vectors);
  }

  lemma {:induction false} SampleTable(db: Db, contents: seq<Text>, vectors: seq<seq<real>>)
    requires |contents| == |vectors|
    requires forall x :: x in db.rows <==> 1 <= x <= |contents|
    requires forall i | 0 <= i < |contents| :: db.rows[i + 1] == SampleRow(contents, vectors, i)
    ensures TableOf(db) == Elements(SampleRows(contents, vectors))
  {
    var rows := SampleRows(contents, vectors);
    forall r | r in TableOf(db)
      ensures r in rows
    {
      var x :| x in db.rows && db.rows[x] == r;
      assert db.rows[(x - 1) + 1] == SampleRow(contents, vectors, x - 1);
      assert rows[x - 1] == r;
    }
    forall r | r in rows
      ensures r in TableOf(db)
    {
      var i :| 0 <= i < |rows| && rows[i] == r;
      assert (i + 1) in db.rows;
    }
  }

  // ----- Scores -----

  const QUERY := Direction(1.0, 0.0)

  /** The first component is the inner product with the query. */
  function SampleScoring(ranks: Text -> real): Scoring {
    Scoring((r: Row) => if |r.vector| > 0 then r.vector[0] else 0.0,
            (r: Row) => ranks(r.lexemeText),
            (r: Row) => ranks(r.lexemeText) > 0.0)
  }

  function SampleRequest(limit: nat, alpha: real): Request {
    Request(1, [], [], limit, alpha)
  }

  lemma {:induction false} SampleCanHappen(contents: seq<Text>, vectors: seq<seq<real>>, ranks: Text -> real,
                                           limit: nat, alpha: real, k: nat, vec: set<Row>)
    requires Storable(contents, vectors) && (forall t :: ranks(t) >= 0.0)
    requires limit >= 1 && 0.0 <= alpha <= 1.0 && k >= 1
    requires IsVectorStage(Elements(SampleRows(contents, vectors)), SampleScoring(ranks), k, vec)
    ensures ScopeOf(Elements(SampleRows(contents, vectors)), SampleRequest(limit, alpha)) == Elements(SampleRows(contents, vectors))
    ensures CanHappen(Elements(SampleRows(contents, vectors)), SampleRequest(limit, alpha), SampleScoring(ranks), k, vec)
  {
    var rows := SampleRows(contents, vectors);
    var t, s := Elements(rows), SampleScoring(ranks);
    SampleIsReachable(contents, vectors);
    DirectionIsNormalized(1.0, 0.0);
    forall r | r in t
      ensures InScope(SampleRequest(limit, alpha), r)
      ensures |r.vector| == |QUERY| && s.vectorScore(r) == DotProduct(QUERY, r.vector)
    {
      var i :| 0 <= i < |rows| && rows[i] == r;
      assert vectors[i] in vectors && r.vector == vectors[i];
      DirectionDot(1.0, 0.0, r.vector);
    }
    assert ScoredBy(s, QUERY, t);
  }
}
