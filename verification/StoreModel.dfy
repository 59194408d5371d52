/** The chunk table of a store and what Put and the deletes do to it, as functions on values.

    One transaction is one function application; Store.dfy has the methods that compute these
    functions, and PutProtocol.dfy the interleaved steps they are made of.
 */
module StoreModel {
  import opened Wrappers
  import opened Runes
  import opened Records
  import opened TokenEncoding
  import Vectors

  /** What a handle writes into, and demands of, every row. */
  datatype Identity = Identity(embedderId: string, tokenizerId: string)

  datatype Handle = Handle(identity: Identity, tokenize: Text -> seq<Text>)

  datatype Db = Db(rows: map<int, Row>, nextId: int)

  datatype StoreError =
    | OrgRequired
    | EmptyBatch
    | ChunkIdNotAccepted(index: nat)
    | EmptyContent(index: nat)
    | ExternalIdInvalid(index: nat)
    | OrgMismatch(index: nat)
    | DuplicateExternalId(first: nat, index: nat)
    | EmbedFailed
    | EmbedCount(got: nat)
    | BadVector(index: nat)
    | BadTokens(index: nat)
    | BeginFailed
    | EmbedderMismatch(stored: string)
    | TokenizerMismatch(stored: string)
    | InsertFailed(index: nat)
    | CommitFailed
    | DeleteFailed

  /** What the embedder answers and which database steps fail, for one call. */
  datatype Outcome = Outcome(
    vectors: Option<seq<seq<real>>>,
    beginFails: bool,
    insertFailsAt: Option<nat>,
    commitFails: bool)

  // ----- Validation -----

  function ChunkError(i: nat, c: Chunk, orgId: int): Option<StoreError> {
    if c.id != 0 then Some(ChunkIdNotAccepted(i))
    else if c.content == [] then Some(EmptyContent(i))
    else if c.externalId.Some? && c.externalId.value < 1 then Some(ExternalIdInvalid(i))
    else if c.orgId != 0 && c.orgId != orgId then Some(OrgMismatch(i))
    else None
  }

  function FirstChunkError(orgId: int, chunks: seq<Chunk>, n: nat): Option<StoreError>
    requires n <= |chunks|
  {
    if n == 0 then None
    else
      var before := FirstChunkError(orgId, chunks, n - 1);
      if before.Some? then before else ChunkError(n - 1, chunks[n - 1], orgId)
  }

  /** The earlier index that uses an external id, among the first n chunks. */
  function UseOf(chunks: seq<Chunk>, e: int, n: nat): (r: Option<nat>)
    requires n <= |chunks|
    ensures r.Some? ==> r.value < n && chunks[r.value].externalId == Some(e)
    ensures r.None? ==> forall j | 0 <= j < n :: chunks[j].externalId != Some(e)
  {
    if n == 0 then None
    else if chunks[n - 1].externalId == Some(e) then Some(n - 1)
    else UseOf(chunks, e, n - 1)
  }

  function FirstDuplicate(chunks: seq<Chunk>, n: nat): Option<StoreError>
    requires n <= |chunks|
  {
    if n == 0 then None
    else
      var before := FirstDuplicate(chunks, n - 1);
      if before.Some? || chunks[n - 1].externalId.None? then before
      else
        var use := UseOf(chunks, chunks[n - 1].externalId.value, n - 1);
        if use.Some? then Some(DuplicateExternalId(use.value, n - 1)) else None
  }

  function BatchError(orgId: int, chunks: seq<Chunk>): Option<StoreError> {
    if orgId < 1 then Some(OrgRequired)
    else if chunks == [] then Some(EmptyBatch)
    else
      var e := FirstChunkError(orgId, chunks, |chunks|);
      if e.Some? then e else FirstDuplicate(chunks, |chunks|)
  }

  ghost predicate DistinctExternalIds(chunks: seq<Chunk>) {
    forall i, j | 0 <= i < j < |chunks| && chunks[i].externalId.Some? :: chunks[i].externalId != chunks[j].externalId
  }

  /** What validation is for. */
  ghost predicate ValidBatch(orgId: int, chunks: seq<Chunk>) {
    && orgId >= 1
    && chunks != []
    && (forall c | c in chunks ::
          && c.id == 0 && c.content != [] && (c.orgId == 0 || c.orgId == orgId)
          && (c.externalId.Some? ==> c.externalId.value >= 1))
    && DistinctExternalIds(chunks)
  }

  lemma {:induction false} FirstChunkErrorMeans(orgId: int, chunks: seq<Chunk>, n: nat)
    requires n <= |chunks|
    ensures FirstChunkError(orgId, chunks, n).None? <==> forall i | 0 <= i < n :: ChunkError(i, chunks[i], orgId).None?
  {
    if n > 0 {
      FirstChunkErrorMeans(orgId, chunks, n - 1);
    }
  }

  lemma {:induction false} FirstDuplicateMeans(chunks: seq<Chunk>, n: nat)
    requires n <= |chunks|
    ensures FirstDuplicate(chunks, n).None? <==> DistinctExternalIds(chunks[..n])
  {
    if n > 0 {
      FirstDuplicateMeans(chunks, n - 1);
      var p, q := chunks[..n], chunks[..n - 1];
      assert forall i | 0 <= i < n - 1 :: p[i] == q[i];
      assert p[n - 1] == chunks[n - 1];
      if DistinctExternalIds(p) {
        forall i, j | 0 <= i < j < |q| && q[i].externalId.Some?
          ensures q[i].externalId != q[j].externalId
        {
          assert p[i] == q[i] && p[j] == q[j];
        }
      }
    }
  }

  /** Validation accepts exactly the valid batches. */
  lemma {:induction false} BatchErrorMeans(orgId: int, chunks: seq<Chunk>)
    ensures BatchError(orgId, chunks).None? <==> ValidBatch(orgId, chunks)
  {
    FirstChunkErrorMeans(orgId, chunks, |chunks|);
    FirstDuplicateMeans(chunks, |chunks|);
    assert chunks[..|chunks|] == chunks;
  }

  // ----- Encoding -----

  datatype Encoded = Encoded(vector: seq<real>, lexemeText: Text)

  /** The first n chunks with their vectors and lexeme texts, or the first violation. */
  function EncodeChunks(h: Handle, chunks: seq<Chunk>, vectors: seq<seq<real>>, n: nat): (r: Result<seq<Encoded>, StoreError>)
    requires n <= |chunks| == |vectors|
    ensures r.Success? ==> |r.value| == n
  {
    if n == 0 then Success([])
    else
      var before := EncodeChunks(h, chunks, vectors, n - 1);
      if before.Failure? then before
      else if !Vectors.IsNormalized(vectors[n - 1]) then Failure(BadVector(n - 1))
      else if !TokensAccepted(h.tokenize(chunks[n - 1].content)) then Failure(BadTokens(n - 1))
      else Success(before.value + [Encoded(vectors[n - 1], LexemeText(h.tokenize(chunks[n - 1].content)))])
  }

  function EncodeBatch(h: Handle, chunks: seq<Chunk>, env: Outcome): (r: Result<seq<Encoded>, StoreError>)
    ensures r.Success? ==> |r.value| == |chunks|
  {
    if env.vectors.None? then Failure(EmbedFailed)
    else if |env.vectors.value| != |chunks| then Failure(EmbedCount(|env.vectors.value|))
    else EncodeChunks(h, chunks, env.vectors.value, |chunks|)
  }

  // ----- The table -----

  function RowOf(h: Handle, orgId: int, c: Chunk, e: Encoded, id: int): Row {
    Row(id, c.(orgId := orgId), h.identity.embedderId, e.vector, e.lexemeText, h.identity.tokenizerId)
  }

  predicate HasKey(r: Row, orgId: int, e: int) {
    r.chunk.orgId == orgId && r.chunk.externalId == Some(e)
  }

  /** The row a conflict on (org, external id) hits; a chunk without an external id never conflicts. */
  ghost function Conflict(rows: map<int, Row>, orgId: int, externalId: Option<int>): Option<int> {
    if externalId.Some? && exists id :: id in rows && HasKey(rows[id], orgId, externalId.value) then
      var id :| id in rows && HasKey(rows[id], orgId, externalId.value);
      Some(id)
    else
      None
  }

  /** INSERT ... ON CONFLICT (org_id, external_id) DO UPDATE ... RETURNING id. */
  ghost function Upsert(db: Db, h: Handle, orgId: int, c: Chunk, e: Encoded): (Db, int) {
    var hit := Conflict(db.rows, orgId, c.externalId);
    if hit.Some? then
      (Db(db.rows[hit.value := RowOf(h, orgId, c, e, hit.value)], db.nextId), hit.value)
    else
      (Db(db.rows[db.nextId := RowOf(h, orgId, c, e, db.nextId)], db.nextId + 1), db.nextId)
  }

  /** The first n inserts of a batch: the table and the ids returned so far. */
  ghost function InsertFirst(db: Db, h: Handle, orgId: int, chunks: seq<Chunk>, enc: seq<Encoded>, n: nat): (r: (Db, seq<int>))
    requires n <= |chunks| == |enc|
    ensures |r.1| == n
  {
    if n == 0 then (db, [])
    else
      var (before, ids) := InsertFirst(db, h, orgId, chunks, enc, n - 1);
      var (after, id) := Upsert(before, h, orgId, chunks[n - 1], enc[n - 1]);
      (after, ids + [id])
  }

  /** An insert fails on a negative chunk index (a CHECK of the table) or when the database does. */
  predicate InsertFails(c: Chunk, i: nat, env: Outcome) {
    c.chunkIndex < 0 || env.insertFailsAt == Some(i)
  }

  function FirstInsertFailure(chunks: seq<Chunk>, env: Outcome, n: nat): (r: Option<nat>)
    requires n <= |chunks|
    ensures r.Some? ==> r.value < n && InsertFails(chunks[r.value], r.value, env)
    ensures r.None? ==> forall i | 0 <= i < n :: !InsertFails(chunks[i], i, env)
  {
    if n == 0 then None
    else
      var before := FirstInsertFailure(chunks, env, n - 1);
      if before.Some? then before
      else if InsertFails(chunks[n - 1], n - 1, env) then Some(n - 1)
      else None
  }

  predicate HasIdentity(r: Row, identity: Identity) {
    r.embedderId == identity.embedderId && r.tokenizerId == identity.tokenizerId
  }

  /** Every row, of every org, belongs to the handle's embedder and tokenizer. */
  predicate AllHaveIdentity(rows: map<int, Row>, identity: Identity) {
    forall id | id in rows :: HasIdentity(rows[id], identity)
  }

  /** What the identity check reports about some row that differs; the embedder is reported first. */
  ghost function IdentityError(rows: map<int, Row>, identity: Identity): (r: Option<StoreError>)
    ensures r.None? <==> AllHaveIdentity(rows, identity)
  {
    if AllHaveIdentity(rows, identity) then None
    else
      var id :| id in rows && !HasIdentity(rows[id], identity);
      Some(MismatchOf(rows[id], identity))
  }

  function MismatchOf(r: Row, identity: Identity): StoreError {
    if r.embedderId != identity.embedderId then EmbedderMismatch(r.embedderId) else TokenizerMismatch(r.tokenizerId)
  }

  /** The transaction: check, insert all, commit; any failure leaves the table as it was. */
  ghost function PutTransaction(db: Db, h: Handle, orgId: int, chunks: seq<Chunk>, enc: seq<Encoded>, env: Outcome)
    : (Result<seq<int>, StoreError>, Db)
    requires |chunks| == |enc|
  {
    var mismatch := IdentityError(db.rows, h.identity);
    var failed := FirstInsertFailure(chunks, env, |chunks|);
    if env.beginFails then (Failure(BeginFailed), db)
    else if mismatch.Some? then (Failure(mismatch.value), db)
    else if failed.Some? then (Failure(InsertFailed(failed.value)), db)
    else if env.commitFails then (Failure(CommitFailed), db)
    else
      var (after, ids) := InsertFirst(db, h, orgId, chunks, enc, |chunks|);
      (Success(ids), after)
  }

  ghost function Put(db: Db, h: Handle, orgId: int, chunks: seq<Chunk>, env: Outcome): (Result<seq<int>, StoreError>, Db) {
    var invalid := BatchError(orgId, chunks);
    if invalid.Some? then (Failure(invalid.value), db)
    else
      var enc := EncodeBatch(h, chunks, env);
      if enc.Failure? then (Failure(enc.error), db)
      else PutTransaction(db, h, orgId, chunks, enc.value, env)
  }

  datatype Target = ById(id: int) | BySource(sourceId: int) | ByDocument(documentId: int)

  predicate Targeted(r: Row, orgId: int, target: Target) {
    && r.chunk.orgId == orgId
    && match target
       case ById(id) => r.id == id
       case BySource(s) => r.chunk.sourceId == s
       case ByDocument(d) => r.chunk.documentId == d
  }

  function Victims(rows: map<int, Row>, orgId: int, target: Target): set<int> {
    set id | id in rows && Targeted(rows[id], orgId, target)
  }

  /** A delete is one statement; it reports how many rows it removed. */
  function Delete(db: Db, orgId: int, target: Target, fails: bool): (Result<nat, StoreError>, Db) {
    if orgId < 1 then (Failure(OrgRequired), db)
    else if fails then (Failure(DeleteFailed), db)
    else (Success(|Victims(db.rows, orgId, target)|), db.(rows := db.rows - Victims(db.rows, orgId, target)))
  }
}

/** Invariants of the table over every history, and what one Put does. */
module StoreLaws {
  import opened Wrappers
  import opened Records
  import opened StoreModel
  import Vectors

  ghost predicate KeysAreIds(db: Db) {
    forall id | id in db.rows :: db.rows[id].id == id && 1 <= id < db.nextId
  }

  ghost predicate ExternalIdsUnique(rows: map<int, Row>) {
    forall a, b, org, e | a in rows && b in rows && HasKey(rows[a], org, e) && HasKey(rows[b], org, e) :: a == b
  }

  ghost predicate OneIdentity(rows: map<int, Row>) {
    forall a, b | a in rows && b in rows ::
      rows[a].embedderId == rows[b].embedderId && rows[a].tokenizerId == rows[b].tokenizerId
  }

  ghost predicate Consistent(db: Db) {
    db.nextId >= 1 && KeysAreIds(db) && ExternalIdsUnique(db.rows)
  }

  ghost predicate Inv(db: Db) {
    Consistent(db) && OneIdentity(db.rows)
  }

  lemma {:induction false} ConflictIsTheRow(rows: map<int, Row>, orgId: int, e: int, id: int)
    requires ExternalIdsUnique(rows) && id in rows && HasKey(rows[id], orgId, e)
    ensures Conflict(rows, orgId, Some(e)) == Some(id)
  {
  }

  lemma {:induction false} UpsertKeepsConsistent(db: Db, h: Handle, orgId: int, c: Chunk, e: Encoded)
    requires Consistent(db)
    ensures var (after, id) := Upsert(db, h, orgId, c, e);
            && Consistent(after) && after.nextId >= db.nextId
            && id in after.rows && after.rows[id] == RowOf(h, orgId, c, e, id)
            && after.rows.Keys == db.rows.Keys + {id}
            && (forall x | x in db.rows && x != id :: after.rows[x] == db.rows[x])
            && (id in db.rows ==> Conflict(db.rows, orgId, c.externalId) == Some(id))
            && (id !in db.rows ==> id == db.nextId < after.nextId && Conflict(db.rows, orgId, c.externalId) == None)
  {
  }

  /** What the first n inserts of a batch with distinct external ids have done. */
  ghost predicate Inserted(db: Db, h: Handle, orgId: int, chunks: seq<Chunk>, enc: seq<Encoded>, n: nat, after: Db, ids: seq<int>)
    requires n <= |chunks| == |enc|
  {
    && |ids| == n
    && Consistent(after) && after.nextId >= db.nextId
    && (forall i | 0 <= i < n :: ids[i] in after.rows && after.rows[ids[i]] == RowOf(h, orgId, chunks[i], enc[i], ids[i]))
    && (forall i, j | 0 <= i < j < n :: ids[i] != ids[j])
    && (forall x | x in db.rows && x !in ids :: x in after.rows && after.rows[x] == db.rows[x])
    && (forall x | x in after.rows :: x in db.rows || x in ids)
    && (forall i | 0 <= i < n ::
          match Conflict(db.rows, orgId, chunks[i].externalId)
          case Some(x) => ids[i] == x
          case None => ids[i] >= db.nextId)
  }

  lemma {:induction false} InsertFirstInserts(db: Db, h: Handle, orgId: int, chunks: seq<Chunk>, enc: seq<Encoded>, n: nat)
    requires Consistent(db) && n <= |chunks| == |enc| && DistinctExternalIds(chunks)
    ensures var (after, ids) := InsertFirst(db, h, orgId, chunks, enc, n);
            Inserted(db, h, orgId, chunks, enc, n, after, ids)
  {
    if n > 0 {
      var (before, ids) := InsertFirst(db, h, orgId, chunks, enc, n - 1);
      InsertFirstInserts(db, h, orgId, chunks, enc, n - 1);
      InsertOneMore(db, h, orgId, chunks, enc, n - 1, before, ids);
    }
  }

  lemma {:induction false} InsertOneMore(db: Db, h: Handle, orgId: int, chunks: seq<Chunk>, enc: seq<Encoded>, n: nat,
                                         before: Db, ids: seq<int>)
    requires Consistent(db) && n < |chunks| == |enc| && DistinctExternalIds(chunks)
    requires Inserted(db, h, orgId, chunks, enc, n, before, ids)
    ensures var (after, id) := Upsert(before, h, orgId, chunks[n], enc[n]);
            Inserted(db, h, orgId, chunks, enc, n + 1, after, ids + [id])
  {
    UpsertKeepsConsistent(before, h, orgId, chunks[n], enc[n]);
    SameConflict(db, h, orgId, chunks, enc, n, before, ids);
    var (after, id) := Upsert(before, h, orgId, chunks[n], enc[n]);
    hide Upsert;
    forall i | 0 <= i < n
      ensures ids[i] != id
    {
      assert before.rows[ids[i]].chunk.externalId == chunks[i].externalId;
    }
    hide Conflict, Consistent, DistinctExternalIds;
    ExtendInserted(db, h, orgId, chunks, enc, n, before, ids, after, id);
  }

  lemma {:induction false} ExtendInserted(db: Db, h: Handle, orgId: int, chunks: seq<Chunk>, enc: seq<Encoded>, n: nat,
                                          before: Db, ids: seq<int>, after: Db, id: int)
    requires n < |chunks| == |enc|
    requires Inserted(db, h, orgId, chunks, enc, n, before, ids)
    requires Consistent(after) && after.nextId >= before.nextId
    requires id in after.rows && after.rows[id] == RowOf(h, orgId, chunks[n], enc[n], id) && id !in ids
    requires after.rows.Keys == before.rows.Keys + {id}
    requires forall x | x in before.rows && x != id :: after.rows[x] == before.rows[x]
    requires match Conflict(db.rows, orgId, chunks[n].externalId)
             case Some(x) => id == x
             case None => id >= db.nextId
    ensures Inserted(db, h, orgId, chunks, enc, n + 1, after, ids + [id])
  {
    hide Consistent, Conflict;
    var more := ids + [id];
    assert more[n] == id && forall i | 0 <= i < n :: more[i] == ids[i];
    assert forall x :: x in more <==> x in ids || x == id;
  }

  /** The rows a batch inserted so far never conflict with the next chunk; the rows it did not touch still do. */
  lemma {:induction false} SameConflict(db: Db, h: Handle, orgId: int, chunks: seq<Chunk>, enc: seq<Encoded>, n: nat,
                                        before: Db, ids: seq<int>)
    requires Consistent(db) && n < |chunks| == |enc| && DistinctExternalIds(chunks)
    requires Inserted(db, h, orgId, chunks, enc, n, before, ids)
    ensures Conflict(before.rows, orgId, chunks[n].externalId) == Conflict(db.rows, orgId, chunks[n].externalId)
  {
    var ext := chunks[n].externalId;
    var was := Conflict(db.rows, orgId, ext);
    var now := Conflict(before.rows, orgId, ext);
    forall i | 0 <= i < n
      ensures now != Some(ids[i]) && was != Some(ids[i])
    {
      assert before.rows[ids[i]].chunk.externalId == chunks[i].externalId;
      if ids[i] in db.rows {
        assert HasKey(db.rows[ids[i]], orgId, chunks[i].externalId.value);
      }
    }
    assert was.Some? ==> was.value in before.rows && HasKey(before.rows[was.value], orgId, ext.value);
    if now.Some? {
      ConflictIsTheRow(db.rows, orgId, ext.value, now.value);
    }
  }

  /** A successful Put: one distinct id per chunk, in order, holding exactly that chunk; an external id
      that was there keeps its id, every other id is new; no other row is touched. */
  lemma {:induction false} SuccessfulPut(db: Db, h: Handle, orgId: int, chunks: seq<Chunk>, env: Outcome)
    requires Consistent(db) && Put(db, h, orgId, chunks, env).0.Success?
    ensures var (r, after) := Put(db, h, orgId, chunks, env);
            var enc := EncodeBatch(h, chunks, env);
            && ValidBatch(orgId, chunks) && enc.Success?
            && Inserted(db, h, orgId, chunks, enc.value, |chunks|, after, r.value)
  {
    hide Inserted, Consistent, InsertFirst, BatchError, EncodeBatch, DistinctExternalIds, IdentityError, FirstInsertFailure;
    BatchErrorMeans(orgId, chunks);
    InsertFirstInserts(db, h, orgId, chunks, EncodeBatch(h, chunks, env).value, |chunks|);
  }

  /** Exactly when Put succeeds; a Put that reports an error changed nothing. */
  lemma {:induction false} PutSucceedsExactly(db: Db, h: Handle, orgId: int, chunks: seq<Chunk>, env: Outcome)
    ensures Put(db, h, orgId, chunks, env).0.Success? <==>
            && ValidBatch(orgId, chunks)
            && EncodeBatch(h, chunks, env).Success?
            && AllHaveIdentity(db.rows, h.identity)
            && !env.beginFails && !env.commitFails
            && (forall i | 0 <= i < |chunks| :: chunks[i].chunkIndex >= 0 && env.insertFailsAt != Some(i))
    ensures Put(db, h, orgId, chunks, env).0.Failure? ==> Put(db, h, orgId, chunks, env).1 == db
  {
    BatchErrorMeans(orgId, chunks);
  }

  lemma {:induction false} PutKeepsInv(db: Db, h: Handle, orgId: int, chunks: seq<Chunk>, env: Outcome)
    requires Inv(db)
    ensures Inv(Put(db, h, orgId, chunks, env).1)
  {
    var (r, after) := Put(db, h, orgId, chunks, env);
    if r.Success? {
      SuccessfulPut(db, h, orgId, chunks, env);
      forall x | x in after.rows
        ensures HasIdentity(after.rows[x], h.identity)
      {
        if x in r.value {
          var i :| 0 <= i < |r.value| && r.value[i] == x;
        }
      }
    }
  }

  lemma {:induction false} DeleteKeepsInv(db: Db, orgId: int, target: Target, fails: bool)
    requires Inv(db)
    ensures Inv(Delete(db, orgId, target, fails).1)
  {
  }

  // ----- Repeating a Put -----

  /** Repeating a Put whose chunks all carry external ids returns the same ids and the same table. */
  lemma {:induction false} RepeatedPut(db: Db, h: Handle, orgId: int, chunks: seq<Chunk>, env: Outcome)
    requires Inv(db) && Put(db, h, orgId, chunks, env).0.Success?
    requires forall c | c in chunks :: c.externalId.Some?
    ensures var (r, after) := Put(db, h, orgId, chunks, env);
            Put(after, h, orgId, chunks, env) == (r, after)
  {
    var (r, after) := Put(db, h, orgId, chunks, env);
    var enc := EncodeBatch(h, chunks, env).value;
    SuccessfulPut(db, h, orgId, chunks, env);
    forall x | x in after.rows
      ensures HasIdentity(after.rows[x], h.identity)
    {
      if x in r.value {
        var i :| 0 <= i < |r.value| && r.value[i] == x;
      }
    }
    ReinsertIsIdentity(after, h, orgId, chunks, enc, r.value, |chunks|);
    assert r.value[..|chunks|] == r.value;
  }

  lemma {:induction false} ReinsertIsIdentity(db: Db, h: Handle, orgId: int, chunks: seq<Chunk>, enc: seq<Encoded>, ids: seq<int>, n: nat)
    requires Consistent(db) && n <= |chunks| == |enc| == |ids|
    requires forall c | c in chunks :: c.externalId.Some?
    requires forall i | 0 <= i < |ids| :: ids[i] in db.rows && db.rows[ids[i]] == RowOf(h, orgId, chunks[i], enc[i], ids[i])
    ensures InsertFirst(db, h, orgId, chunks, enc, n) == (db, ids[..n])
  {
    if n > 0 {
      ReinsertIsIdentity(db, h, orgId, chunks, enc, ids, n - 1);
      assert chunks[n - 1] in chunks;
      ConflictIsTheRow(db.rows, orgId, chunks[n - 1].externalId.value, ids[n - 1]);
      assert db.rows[ids[n - 1] := db.rows[ids[n - 1]]] == db.rows;
      assert ids[..n] == ids[..n - 1] + [ids[n - 1]];
    }
  }

  // ----- Histories -----

  datatype Op =
    | OpPut(h: Handle, orgId: int, chunks: seq<Chunk>, env: Outcome)
    | OpDelete(orgId: int, target: Target, fails: bool)

  ghost function Apply(db: Db, op: Op): Db {
    match op
    case OpPut(h, orgId, chunks, env) => Put(db, h, orgId, chunks, env).1
    case OpDelete(orgId, target, fails) => Delete(db, orgId, target, fails).1
  }

  ghost function Run(db: Db, ops: seq<Op>): Db {
    if ops == [] then db else Apply(Run(db, ops[..|ops| - 1]), ops[|ops| - 1])
  }

  const EMPTY := Db(map[], 1)

  /** Over every history of calls from any handles: unique ids, unique (org, external id) pairs, one identity. */
  lemma {:induction false} HistoriesKeepInv(ops: seq<Op>)
    ensures Inv(Run(EMPTY, ops))
  {
    if ops != [] {
      var db := Run(EMPTY, ops[..|ops| - 1]);
      HistoriesKeepInv(ops[..|ops| - 1]);
      match ops[|ops| - 1]
      case OpPut(h, orgId, chunks, env) => PutKeepsInv(db, h, orgId, chunks, env);
      case OpDelete(orgId, target, fails) => DeleteKeepsInv(db, orgId, target, fails);
    }
  }

  /** Every stored vector passed the norm check. */
  ghost predicate VectorsAreValid(rows: map<int, Row>) {
    forall id | id in rows :: Vectors.IsNormalized(rows[id].vector)
  }

  lemma {:induction false} EncodedVectorsAreValid(h: Handle, chunks: seq<Chunk>, vectors: seq<seq<real>>, n: nat)
    requires n <= |chunks| == |vectors| && EncodeChunks(h, chunks, vectors, n).Success?
    ensures forall i | 0 <= i < n :: Vectors.IsNormalized(EncodeChunks(h, chunks, vectors, n).value[i].vector)
  {
    hide Vectors.IsNormalized;
    if n > 0 {
      EncodedVectorsAreValid(h, chunks, vectors, n - 1);
    }
  }

  lemma {:induction false} PutKeepsVectorsValid(db: Db, h: Handle, orgId: int, chunks: seq<Chunk>, env: Outcome)
    requires Inv(db) && VectorsAreValid(db.rows)
    ensures VectorsAreValid(Put(db, h, orgId, chunks, env).1.rows)
  {
    var (r, after) := Put(db, h, orgId, chunks, env);
    if r.Success? {
      SuccessfulPut(db, h, orgId, chunks, env);
      EncodedVectorsAreValid(h, chunks, env.vectors.value, |chunks|);
      hide Put, EncodeChunks, Vectors.IsNormalized;
      forall x | x in after.rows
        ensures Vectors.IsNormalized(after.rows[x].vector)
      {
        if x in r.value {
          var i :| 0 <= i < |r.value| && r.value[i] == x;
        }
      }
    }
  }

  /** Over every history only vectors that passed the norm check are stored. */
  lemma {:induction false} HistoriesStoreValidVectors(ops: seq<Op>)
    ensures VectorsAreValid(Run(EMPTY, ops).rows)
  {
    if ops != [] {
      var db := Run(EMPTY, ops[..|ops| - 1]);
      HistoriesKeepInv(ops[..|ops| - 1]);
      HistoriesStoreValidVectors(ops[..|ops| - 1]);
      if ops[|ops| - 1].OpPut? {
        var OpPut(h, orgId, chunks, env) := ops[|ops| - 1];
        PutKeepsVectorsValid(db, h, orgId, chunks, env);
      }
    }
  }

  /** An id is never used again: what a later Put inserts anew is above every id there ever was. */
  lemma {:induction false} IdsAreNeverReused(db: Db, ops: seq<Op>)
    requires Inv(db)
    ensures Inv(Run(db, ops)) && Run(db, ops).nextId >= db.nextId
    ensures forall x | x in Run(db, ops).rows && x !in db.rows :: x >= db.nextId
  {
    if ops != [] {
      var n := |ops| - 1;
      IdsAreNeverReused(db, ops[..n]);
      var before := Run(db, ops[..n]);
      match ops[n]
      case OpPut(h, orgId, chunks, env) =>
        PutKeepsInv(before, h, orgId, chunks, env);
        NewIdsAreFresh(before, h, orgId, chunks, env);
      case OpDelete(orgId, target, fails) => DeleteKeepsInv(before, orgId, target, fails);
    }
  }

  lemma {:induction false} NewIdsAreFresh(db: Db, h: Handle, orgId: int, chunks: seq<Chunk>, env: Outcome)
    requires Inv(db)
    ensures var after := Put(db, h, orgId, chunks, env).1;
            && after.nextId >= db.nextId
            && forall x | x in after.rows && x !in db.rows :: x >= db.nextId
  {
    var (r, after) := Put(db, h, orgId, chunks, env);
    if r.Success? {
      SuccessfulPut(db, h, orgId, chunks, env);
      forall x | x in after.rows && x !in db.rows
        ensures x >= db.nextId
      {
        var i :| 0 <= i < |r.value| && r.value[i] == x;
        assert Conflict(db.rows, orgId, chunks[i].externalId).None?;
      }
    }
  }

  // ----- Orgs -----

  ghost function OrgRows(db: Db, orgId: int): map<int, Row> {
    map id | id in db.rows && db.rows[id].chunk.orgId == orgId :: db.rows[id]
  }

  /** A call for one org leaves the rows of every other org exactly as they were. */
  lemma {:induction false} CallsStayInTheirOrg(db: Db, op: Op, other: int)
    requires Inv(db) && op.orgId != other
    ensures OrgRows(Apply(db, op), other) == OrgRows(db, other)
  {
    match op
    case OpDelete(orgId, target, fails) => DeleteStaysInItsOrg(db, orgId, target, fails, other);
    case OpPut(h, orgId, chunks, env) => PutStaysInItsOrg(db, h, orgId, chunks, env, other);
  }

  lemma {:induction false} PutStaysInItsOrg(db: Db, h: Handle, orgId: int, chunks: seq<Chunk>, env: Outcome, other: int)
    requires Inv(db) && orgId != other
    ensures OrgRows(Put(db, h, orgId, chunks, env).1, other) == OrgRows(db, other)
  {
    var (r, after) := Put(db, h, orgId, chunks, env);
    if r.Success? {
      SuccessfulPut(db, h, orgId, chunks, env);
      var enc := EncodeBatch(h, chunks, env).value;
      InsertedStaysInItsOrg(db, h, orgId, chunks, enc, after, r.value, other);
    }
  }

  lemma {:induction false} InsertedStaysInItsOrg(db: Db, h: Handle, orgId: int, chunks: seq<Chunk>, enc: seq<Encoded>,
                                                 after: Db, ids: seq<int>, other: int)
    requires Consistent(db) && |chunks| == |enc| && orgId != other
    requires Inserted(db, h, orgId, chunks, enc, |chunks|, after, ids)
    ensures OrgRows(after, other) == OrgRows(db, other)
  {
    forall i | 0 <= i < |ids|
      ensures after.rows[ids[i]].chunk.orgId == orgId
      ensures ids[i] in db.rows ==> db.rows[ids[i]].chunk.orgId == orgId
    {
    }
    forall x | x in after.rows && x in db.rows && after.rows[x] != db.rows[x]
      ensures after.rows[x].chunk.orgId == orgId && db.rows[x].chunk.orgId == orgId
    {
      var i :| 0 <= i < |ids| && ids[i] == x;
    }
    forall x | x in after.rows && x !in db.rows
      ensures after.rows[x].chunk.orgId == orgId
    {
      var i :| 0 <= i < |ids| && ids[i] == x;
    }
    assert forall x :: x in after.rows && after.rows[x].chunk.orgId == other <==> x in db.rows && db.rows[x].chunk.orgId == other;
    assert OrgRows(after, other).Keys == OrgRows(db, other).Keys;
  }

  lemma {:induction false} DeleteStaysInItsOrg(db: Db, orgId: int, target: Target, fails: bool, other: int)
    requires orgId != other
    ensures OrgRows(Delete(db, orgId, target, fails).1, other) == OrgRows(db, other)
  {
    var after := Delete(db, orgId, target, fails).1;
    assert forall x :: x in after.rows && after.rows[x].chunk.orgId == other <==> x in db.rows && db.rows[x].chunk.orgId == other;
    assert OrgRows(after, other).Keys == OrgRows(db, other).Keys;
  }

  lemma {:induction false} HistoriesStayInTheirOrg(db: Db, ops: seq<Op>, other: int)
    requires Inv(db) && forall op | op in ops :: op.orgId != other
    ensures OrgRows(Run(db, ops), other) == OrgRows(db, other)
  {
    if ops != [] {
      var n := |ops| - 1;
      HistoriesStayInTheirOrg(db, ops[..n], other);
      IdsAreNeverReused(db, ops[..n]);
      assert ops[n] in ops;
      CallsStayInTheirOrg(Run(db, ops[..n]), ops[n], other);
    }
  }

  /** A delete removes exactly the targeted rows of its org and counts them. */
  lemma {:induction false} DeleteRemovesExactly(db: Db, orgId: int, target: Target)
    requires Inv(db) && orgId >= 1
    ensures var (r, after) := Delete(db, orgId, target, false);
            && r.Success? && |db.rows| == |after.rows| + r.value
            && (forall x :: x in after.rows <==> x in db.rows && !Targeted(db.rows[x], orgId, target))
            && (forall x | x in after.rows :: after.rows[x] == db.rows[x])
            && after.nextId == db.nextId
            && (target.ById? ==> r.value <= 1)
  {
    var gone := Victims(db.rows, orgId, target);
    var after := Delete(db, orgId, target, false).1;
    assert gone <= db.rows.Keys;
    assert db.rows.Keys == after.rows.Keys + gone;
    assert |db.rows.Keys| == |after.rows.Keys| + |gone|;
    if target.ById? {
      assert forall x | x in gone :: db.rows[x].id == x;
      assert gone <= {target.id};
      SubsetOfOne(gone, target.id);
    }
  }

  lemma {:induction false} SubsetOfOne(s: set<int>, x: int)
    requires s <= {x}
    ensures |s| <= 1
  {
    assert s == {} || s == {x};
  }
}
