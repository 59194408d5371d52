/** What Put and the deletes do, on the fields of the rows: what a stored row holds, when a batch is accepted, which
    error a refused one gets, which rows a delete removes. */
module StoredRows {
  import opened Wrappers
  import opened Runes
  import opened Records
  import opened Tokenizers
  import opened TokenEncoding
  import opened StoreModel
  import opened StoreLaws
  import Vectors

  // ----- What is stored -----

  lemma {:induction false} EncodedAt(h: Handle, chunks: seq<Chunk>, vectors: seq<seq<real>>, n: nat, i: nat)
    requires i < n <= |chunks| == |vectors| && EncodeChunks(h, chunks, vectors, n).Success?
    ensures var e := EncodeChunks(h, chunks, vectors, n).value[i];
            e.vector == vectors[i] && e.lexemeText == LexemeText(h.tokenize(chunks[i].content))
  {
    hide Vectors.IsNormalized, LexemeText, TokensAccepted;
    if i < n - 1 {
      EncodedAt(h, chunks, vectors, n - 1, i);
    }
  }

  /** The row under the i-th id holds the i-th chunk with its external id, under the org of the call; the vector the
      embedder gave for it; its tokens, to be read back by splitting on white space; and the handle's identity. */
  lemma {:induction false} PutStores(db: Db, h: Handle, orgId: int, chunks: seq<Chunk>, env: Outcome, i: nat)
    requires Consistent(db) && Put(db, h, orgId, chunks, env).0.Success? && i < |chunks|
    ensures var (r, after) := Put(db, h, orgId, chunks, env);
            && |r.value| == |chunks| && r.value[i] in after.rows
            && env.vectors.Some? && |env.vectors.value| == |chunks|
            && var row := after.rows[r.value[i]];
            && row.id == r.value[i] && row.chunk == chunks[i].(orgId := orgId)
            && row.vector == env.vectors.value[i]
            && row.embedderId == h.identity.embedderId && row.tokenizerId == h.identity.tokenizerId
            && (AllTokens(h.tokenize(chunks[i].content)) ==> Fields(row.lexemeText) == h.tokenize(chunks[i].content))
  {
    SuccessfulPut(db, h, orgId, chunks, env);
    EncodedAt(h, chunks, env.vectors.value, |chunks|, i);
    hide Put, EncodeChunks, LexemeText, Consistent, ValidBatch, Conflict;
    if AllTokens(h.tokenize(chunks[i].content)) {
      LexemeTextSplitsBack(h.tokenize(chunks[i].content));
    }
  }

  /** A chunk whose external id is in the org already replaces that row and keeps its id; every other chunk gets an id
      above all that are there.  No two chunks share an id, and no row beside theirs changes. */
  lemma {:induction false} PutIds(db: Db, h: Handle, orgId: int, chunks: seq<Chunk>, env: Outcome)
    requires Consistent(db) && Put(db, h, orgId, chunks, env).0.Success?
    ensures var (r, after) := Put(db, h, orgId, chunks, env);
            && |r.value| == |chunks|
            && (forall i, x | 0 <= i < |chunks| && x in db.rows ::
                  if chunks[i].externalId.Some? && db.rows[x].chunk.orgId == orgId && db.rows[x].chunk.externalId == chunks[i].externalId
                  then r.value[i] == x
                  else r.value[i] != x)
            && (forall i, x | 0 <= i < |chunks| && x in db.rows :: r.value[i] in db.rows || r.value[i] > x)
            && (forall i, j | 0 <= i < j < |chunks| :: r.value[i] != r.value[j])
            && (forall x :: x in after.rows <==> x in db.rows || x in r.value)
            && (forall x | x in db.rows && x !in r.value :: after.rows[x] == db.rows[x])
  {
    SuccessfulPut(db, h, orgId, chunks, env);
    var (r, after) := Put(db, h, orgId, chunks, env);
    hide Put, EncodeBatch, ValidBatch;
    forall i, x | 0 <= i < |chunks| && x in db.rows
      ensures r.value[i] in db.rows || r.value[i] > x
      ensures (chunks[i].externalId.Some? && db.rows[x].chunk.orgId == orgId && db.rows[x].chunk.externalId == chunks[i].externalId)
              <==> r.value[i] == x
    {
      IdOf(db, orgId, chunks[i], r.value[i], x);
    }
    forall x
      ensures x in after.rows <==> x in db.rows || x in r.value
    {
      if x in r.value {
        var i :| 0 <= i < |r.value| && r.value[i] == x;
      }
    }
  }

  lemma {:induction false} IdOf(db: Db, orgId: int, c: Chunk, id: int, x: int)
    requires Consistent(db) && x in db.rows
    requires match Conflict(db.rows, orgId, c.externalId)
             case Some(y) => id == y
             case None => id >= db.nextId
    ensures id in db.rows || id > x
    ensures (c.externalId.Some? && db.rows[x].chunk.orgId == orgId && db.rows[x].chunk.externalId == c.externalId) <==> id == x
  {
    if c.externalId.Some? && HasKey(db.rows[x], orgId, c.externalId.value) {
      ConflictIsTheRow(db.rows, orgId, c.externalId.value, x);
    }
  }

  // ----- When a batch is accepted, and what is reported otherwise -----

  /** What a chunk may look like. */
  ghost predicate Acceptable(c: Chunk, orgId: int) {
    && c.id == 0 && c.content != [] && (c.orgId == 0 || c.orgId == orgId)
    && match c.externalId case Some(e) => e >= 1 case None => true
  }

  /** What the encoding of one chunk needs: a unit vector, and tokens that survive in a text. */
  ghost predicate Encodable(h: Handle, c: Chunk, vector: seq<real>) {
    && |vector| == 1024 && 0.999 <= Vectors.DotProduct(vector, vector) <= 1.001
    && forall t, x | t in h.tokenize(c.content) && x in t :: !x.Space? && !x.Meta?
  }

  lemma {:induction false} EncodesExactly(h: Handle, chunks: seq<Chunk>, vectors: seq<seq<real>>, n: nat)
    requires n <= |chunks| == |vectors|
    ensures EncodeChunks(h, chunks, vectors, n).Success? <==> forall i | 0 <= i < n :: Encodable(h, chunks[i], vectors[i])
  {
    hide Vectors.DotProduct, LexemeText;
    if n > 0 {
      EncodesExactly(h, chunks, vectors, n - 1);
      OneEncodes(h, chunks[n - 1], vectors[n - 1]);
    }
  }

  lemma {:induction false} OneEncodes(h: Handle, c: Chunk, vector: seq<real>)
    ensures Encodable(h, c, vector) <==> Vectors.IsNormalized(vector) && TokensAccepted(h.tokenize(c.content))
    ensures TokensAccepted(h.tokenize(c.content)) <==> forall t, x | t in h.tokenize(c.content) && x in t :: !x.Space? && !x.Meta?
  {
    hide Vectors.DotProduct;
  }

  /** Put succeeds if and only if the call names an org and chunks, every chunk is acceptable and encodable, no external
      id comes twice, the table knows no other embedder or tokenizer, and no statement fails. */
  lemma {:induction false} PutSucceedsOnFields(db: Db, h: Handle, orgId: int, chunks: seq<Chunk>, env: Outcome)
    ensures Put(db, h, orgId, chunks, env).0.Success? <==>
            && orgId >= 1 && chunks != []
            && (forall i | 0 <= i < |chunks| :: Acceptable(chunks[i], orgId) && chunks[i].chunkIndex >= 0)
            && (forall i, j | 0 <= i < j < |chunks| && chunks[i].externalId.Some? :: chunks[i].externalId != chunks[j].externalId)
            && env.vectors.Some? && |env.vectors.value| == |chunks|
            && (forall i | 0 <= i < |chunks| :: Encodable(h, chunks[i], env.vectors.value[i]))
            && (forall x | x in db.rows :: db.rows[x].embedderId == h.identity.embedderId && db.rows[x].tokenizerId == h.identity.tokenizerId)
            && !env.beginFails && !env.commitFails && (env.insertFailsAt.Some? ==> env.insertFailsAt.value >= |chunks|)
  {
    PutSucceedsExactly(db, h, orgId, chunks, env);
    if env.vectors.Some? && |env.vectors.value| == |chunks| {
      EncodesExactly(h, chunks, env.vectors.value, |chunks|);
    }
    hide Put, Encodable, EncodeChunks;
    assert (forall c | c in chunks :: Acceptable(c, orgId)) <==> forall i | 0 <= i < |chunks| :: Acceptable(chunks[i], orgId);
  }

  lemma {:induction false} FirstChunkErrorIs(orgId: int, chunks: seq<Chunk>, n: nat, e: StoreError)
    requires n <= |chunks| && FirstChunkError(orgId, chunks, n) == Some(e)
    ensures exists i | 0 <= i < n :: ChunkError(i, chunks[i], orgId) == Some(e) && forall j | 0 <= j < i :: Acceptable(chunks[j], orgId)
  {
    if FirstChunkError(orgId, chunks, n - 1).Some? {
      FirstChunkErrorIs(orgId, chunks, n - 1, e);
    } else {
      FirstChunkErrorMeans(orgId, chunks, n - 1);
    }
  }

  lemma {:induction false} FirstDuplicateIs(chunks: seq<Chunk>, n: nat, e: StoreError)
    requires n <= |chunks| && FirstDuplicate(chunks, n) == Some(e)
    ensures e.DuplicateExternalId? && e.first < e.index < n
    ensures chunks[e.first].externalId.Some? && chunks[e.first].externalId == chunks[e.index].externalId
    ensures DistinctExternalIds(chunks[..e.index])
  {
    if FirstDuplicate(chunks, n - 1).Some? {
      FirstDuplicateIs(chunks, n - 1, e);
    } else {
      FirstDuplicateMeans(chunks, n - 1);
    }
  }

  lemma {:induction false} FirstEncodingErrorIs(h: Handle, chunks: seq<Chunk>, vectors: seq<seq<real>>, n: nat, e: StoreError)
    requires n <= |chunks| == |vectors| && EncodeChunks(h, chunks, vectors, n) == Failure(e)
    ensures exists i | 0 <= i < n ::
              && (forall j | 0 <= j < i :: Encodable(h, chunks[j], vectors[j]))
              && if Vectors.IsNormalized(vectors[i]) then e == BadTokens(i) && !TokensAccepted(h.tokenize(chunks[i].content))
                 else e == BadVector(i)
  {
    hide Encodable, Vectors.IsNormalized, TokensAccepted, LexemeText;
    if EncodeChunks(h, chunks, vectors, n - 1).Failure? {
      FirstEncodingErrorIs(h, chunks, vectors, n - 1, e);
    } else {
      EncodesExactly(h, chunks, vectors, n - 1);
    }
  }

  /** What an error says.  The first fault in the order of the steps is reported, and inside a step the first chunk. */
  ghost predicate Justified(db: Db, h: Handle, orgId: int, chunks: seq<Chunk>, env: Outcome, e: StoreError) {
    match e
    case OrgRequired => orgId < 1
    case EmptyBatch => orgId >= 1 && chunks == []
    case ChunkIdNotAccepted(i) => i < |chunks| && chunks[i].id != 0 && AcceptableBefore(orgId, chunks, i)
    case EmptyContent(i) => i < |chunks| && chunks[i].id == 0 && chunks[i].content == [] && AcceptableBefore(orgId, chunks, i)
    case ExternalIdInvalid(i) =>
      && i < |chunks| && chunks[i].content != [] && chunks[i].externalId.Some? && chunks[i].externalId.value < 1
      && AcceptableBefore(orgId, chunks, i)
    case OrgMismatch(i) => i < |chunks| && chunks[i].orgId != 0 && chunks[i].orgId != orgId && AcceptableBefore(orgId, chunks, i)
    case DuplicateExternalId(i, j) =>
      && AcceptableBefore(orgId, chunks, |chunks|)
      && i < j < |chunks| && chunks[i].externalId.Some? && chunks[i].externalId == chunks[j].externalId
    case EmbedFailed => ValidBatch(orgId, chunks) && env.vectors.None?
    case EmbedCount(got) => ValidBatch(orgId, chunks) && env.vectors.Some? && got == |env.vectors.value| != |chunks|
    case BadVector(i) =>
      && EncodableBefore(h, chunks, env, i)
      && !(|env.vectors.value[i]| == 1024 && 0.999 <= Vectors.DotProduct(env.vectors.value[i], env.vectors.value[i]) <= 1.001)
    case BadTokens(i) =>
      && EncodableBefore(h, chunks, env, i)
      && exists t, x :: t in h.tokenize(chunks[i].content) && x in t && (x.Space? || x.Meta?)
    case BeginFailed => env.beginFails
    case EmbedderMismatch(stored) => exists x :: x in db.rows && db.rows[x].embedderId == stored != h.identity.embedderId
    case TokenizerMismatch(stored) =>
      exists x :: x in db.rows && db.rows[x].tokenizerId == stored != h.identity.tokenizerId
                  && db.rows[x].embedderId == h.identity.embedderId
    case InsertFailed(i) =>
      && i < |chunks| && (chunks[i].chunkIndex < 0 || env.insertFailsAt == Some(i))
      && (forall j | 0 <= j < i :: chunks[j].chunkIndex >= 0 && env.insertFailsAt != Some(j))
    case CommitFailed => env.commitFails
    case DeleteFailed => false
  }

  ghost predicate AcceptableBefore(orgId: int, chunks: seq<Chunk>, i: nat) {
    orgId >= 1 && i <= |chunks| && forall j | 0 <= j < i :: Acceptable(chunks[j], orgId)
  }

  ghost predicate EncodableBefore(h: Handle, chunks: seq<Chunk>, env: Outcome, i: nat) {
    && i < |chunks| && env.vectors.Some? && |env.vectors.value| == |chunks|
    && forall j | 0 <= j < i :: Encodable(h, chunks[j], env.vectors.value[j])
  }

  lemma {:induction false} ValidationReports(db: Db, h: Handle, orgId: int, chunks: seq<Chunk>, env: Outcome, e: StoreError)
    requires BatchError(orgId, chunks) == Some(e)
    ensures Justified(db, h, orgId, chunks, env, e)
  {
    if orgId >= 1 && chunks != [] {
      if FirstChunkError(orgId, chunks, |chunks|).Some? {
        FirstChunkErrorIs(orgId, chunks, |chunks|, e);
      } else {
        FirstChunkErrorMeans(orgId, chunks, |chunks|);
        FirstDuplicateIs(chunks, |chunks|, e);
      }
    }
  }

  lemma {:induction false} EncodingReports(db: Db, h: Handle, orgId: int, chunks: seq<Chunk>, env: Outcome, e: StoreError)
    requires BatchError(orgId, chunks).None? && EncodeBatch(h, chunks, env) == Failure(e)
    ensures Justified(db, h, orgId, chunks, env, e)
  {
    BatchErrorMeans(orgId, chunks);
    hide BatchError, ValidBatch;
    if env.vectors.Some? && |env.vectors.value| == |chunks| {
      FirstEncodingErrorIs(h, chunks, env.vectors.value, |chunks|, e);
      hide EncodeChunks, Encodable;
      var i :| 0 <= i < |chunks| && (forall j | 0 <= j < i :: Encodable(h, chunks[j], env.vectors.value[j]))
               && if Vectors.IsNormalized(env.vectors.value[i]) then e == BadTokens(i) && !TokensAccepted(h.tokenize(chunks[i].content))
                  else e == BadVector(i);
      OneEncodes(h, chunks[i], env.vectors.value[i]);
      hide Vectors.DotProduct;
    }
  }

  lemma {:induction false} FirstFailedInsert(chunks: seq<Chunk>, env: Outcome, n: nat, i: nat)
    requires n <= |chunks| && FirstInsertFailure(chunks, env, n) == Some(i)
    ensures i < n && forall j | 0 <= j < i :: !InsertFails(chunks[j], j, env)
  {
    if FirstInsertFailure(chunks, env, n - 1).Some? {
      FirstFailedInsert(chunks, env, n - 1, i);
    }
  }

  lemma {:induction false} TransactionReports(db: Db, h: Handle, orgId: int, chunks: seq<Chunk>, enc: seq<Encoded>, env: Outcome, e: StoreError)
    requires |chunks| == |enc| && PutTransaction(db, h, orgId, chunks, enc, env).0 == Failure(e)
    ensures Justified(db, h, orgId, chunks, env, e)
  {
    var failed := FirstInsertFailure(chunks, env, |chunks|);
    if !env.beginFails && IdentityError(db.rows, h.identity).None? && failed.Some? {
      FirstFailedInsert(chunks, env, |chunks|, failed.value);
    }
  }

  /** Every error of Put says what was wrong, and says it of the first thing that was; and it leaves the table alone. */
  lemma {:induction false} PutReports(db: Db, h: Handle, orgId: int, chunks: seq<Chunk>, env: Outcome)
    requires Put(db, h, orgId, chunks, env).0.Failure?
    ensures Justified(db, h, orgId, chunks, env, Put(db, h, orgId, chunks, env).0.error)
    ensures Put(db, h, orgId, chunks, env).1 == db
  {
    var e := Put(db, h, orgId, chunks, env).0.error;
    PutSucceedsExactly(db, h, orgId, chunks, env);
    hide Justified;
    if BatchError(orgId, chunks).Some? {
      ValidationReports(db, h, orgId, chunks, env, e);
    } else if EncodeBatch(h, chunks, env).Failure? {
      EncodingReports(db, h, orgId, chunks, env, e);
    } else {
      TransactionReports(db, h, orgId, chunks, EncodeBatch(h, chunks, env).value, env, e);
    }
  }

  // ----- What a delete removes -----

  /** By chunk: at most the one row with this id, and only if it is the org's. */
  lemma {:induction false} DeleteByIdRemoves(db: Db, orgId: int, chunkId: int, x: int)
    requires Inv(db) && orgId >= 1
    ensures var (r, after) := Delete(db, orgId, ById(chunkId), false);
            && r == Success(if chunkId in db.rows && db.rows[chunkId].chunk.orgId == orgId then 1 else 0)
            && (x in after.rows <==> x in db.rows && !(x == chunkId && db.rows[x].chunk.orgId == orgId))
            && (x in after.rows ==> after.rows[x] == db.rows[x])
  {
    var gone := Victims(db.rows, orgId, ById(chunkId));
    forall y
      ensures y in gone <==> y == chunkId && y in db.rows && db.rows[y].chunk.orgId == orgId
    {
      assert y in db.rows ==> (Targeted(db.rows[y], orgId, ById(chunkId)) <==> db.rows[y].id == chunkId && db.rows[y].chunk.orgId == orgId);
    }
    assert gone == if chunkId in db.rows && db.rows[chunkId].chunk.orgId == orgId then {chunkId} else {};
  }

  /** By source: the org's rows with this source id. */
  lemma {:induction false} DeleteBySourceRemoves(db: Db, orgId: int, sourceId: int, x: int)
    requires orgId >= 1
    ensures var (r, after) := Delete(db, orgId, BySource(sourceId), false);
            && r == Success(|set y | y in db.rows && db.rows[y].chunk.orgId == orgId && db.rows[y].chunk.sourceId == sourceId|)
            && (x in after.rows <==> x in db.rows && !(db.rows[x].chunk.orgId == orgId && db.rows[x].chunk.sourceId == sourceId))
            && (x in after.rows ==> after.rows[x] == db.rows[x])
  {
    var gone := set y | y in db.rows && db.rows[y].chunk.orgId == orgId && db.rows[y].chunk.sourceId == sourceId;
    forall y
      ensures y in Victims(db.rows, orgId, BySource(sourceId)) <==> y in gone
    {
    }
    assert Victims(db.rows, orgId, BySource(sourceId)) == gone;
  }

  /** By document: the org's rows with this document id. */
  lemma {:induction false} DeleteByDocumentRemoves(db: Db, orgId: int, documentId: int, x: int)
    requires orgId >= 1
    ensures var (r, after) := Delete(db, orgId, ByDocument(documentId), false);
            && r == Success(|set y | y in db.rows && db.rows[y].chunk.orgId == orgId && db.rows[y].chunk.documentId == documentId|)
            && (x in after.rows <==> x in db.rows && !(db.rows[x].chunk.orgId == orgId && db.rows[x].chunk.documentId == documentId))
            && (x in after.rows ==> after.rows[x] == db.rows[x])
  {
    var gone := set y | y in db.rows && db.rows[y].chunk.orgId == orgId && db.rows[y].chunk.documentId == documentId;
    forall y
      ensures y in Victims(db.rows, orgId, ByDocument(documentId)) <==> y in gone
    {
    }
    assert Victims(db.rows, orgId, ByDocument(documentId)) == gone;
  }

  /** A delete without an org, or whose statement fails, says so and removes nothing; and no delete frees an id. */
  lemma {:induction false} DeleteReports(db: Db, orgId: int, target: Target, fails: bool)
    ensures var (r, after) := Delete(db, orgId, target, fails);
            && (orgId < 1 ==> r == Failure(OrgRequired) && after == db)
            && (orgId >= 1 && fails ==> r == Failure(DeleteFailed) && after == db)
            && (orgId >= 1 && !fails ==> r.Success?)
            && after.nextId == db.nextId
  {
  }
}
