/** The store as the object its callers hold: loops over a batch, a transaction that is rolled back on
    any error, deletes.  Every method is proved equal to its function in StoreModel. */
module Store {
  import opened Wrappers
  import opened Runes
  import opened Records
  import opened StoreModel
  import opened StoreLaws
  import TokenEncoding
  import Vectors

  /** The table that every handle on the same file or database shares. */
  class Database {
    var rows: map<int, Row>
    var nextId: int

    constructor ()
      ensures Value() == EMPTY
    {
      rows, nextId := map[], 1;
    }

    ghost function Value(): Db
      reads this
    {
      Db(rows, nextId)
    }
  }

  class Store {
    const db: Database
    const handle: Handle

    constructor (db: Database, handle: Handle)
      ensures this.db == db && this.handle == handle
    {
      this.db, this.handle := db, handle;
    }

    ghost predicate Valid()
      reads db
    {
      Inv(db.Value())
    }

    /** One transaction: the whole batch is in the table afterwards, or nothing of it. */
    method Put(orgId: int, chunks: seq<Chunk>, env: Outcome) returns (r: Result<seq<int>, StoreError>)
      requires Valid()
      modifies db
      ensures Valid()
      ensures (r, db.Value()) == StoreModel.Put(old(db.Value()), handle, orgId, chunks, env)
    {
      PutKeepsInv(db.Value(), handle, orgId, chunks, env);
      var invalid := ValidateChunks(orgId, chunks);
      if invalid.Some? {
        return Failure(invalid.value);
      }
      var encoded := EncodeContents(handle, chunks, env);
      if encoded.Failure? {
        return Failure(encoded.error);
      }
      BatchErrorMeans(orgId, chunks);
      r := InsertChunks(orgId, chunks, encoded.value, env);
    }

    method InsertChunks(orgId: int, chunks: seq<Chunk>, encoded: seq<Encoded>, env: Outcome)
      returns (r: Result<seq<int>, StoreError>)
      requires Valid() && |chunks| == |encoded| && DistinctExternalIds(chunks)
      modifies db
      ensures (r, db.Value()) == PutTransaction(old(db.Value()), handle, orgId, chunks, encoded, env)
    {
      if env.beginFails {
        return Failure(BeginFailed);
      }
      var rows, nextId := db.rows, db.nextId;
      r := InsertWithinTx(orgId, chunks, encoded, env);
      if r.Failure? {
        db.rows, db.nextId := rows, nextId;
        return;
      }
      if env.commitFails {
        db.rows, db.nextId := rows, nextId;
        return Failure(CommitFailed);
      }
    }

    /** Check first, then insert; what a failure leaves behind is for the rollback. */
    method InsertWithinTx(orgId: int, chunks: seq<Chunk>, encoded: seq<Encoded>, env: Outcome)
      returns (r: Result<seq<int>, StoreError>)
      requires Valid() && |chunks| == |encoded| && DistinctExternalIds(chunks)
      modifies db
      ensures var mismatch := old(IdentityError(db.rows, handle.identity));
              var failed := FirstInsertFailure(chunks, env, |chunks|);
              if mismatch.Some? then r == Failure(mismatch.value)
              else if failed.Some? then r == Failure(InsertFailed(failed.value))
              else r.Success? && (db.Value(), r.value) == InsertFirst(old(db.Value()), handle, orgId, chunks, encoded, |chunks|)
    {
      var mismatch := AssertSameEmbedderAndTokenizer();
      if mismatch.Some? {
        return Failure(mismatch.value);
      }
      var ids := [];
      ghost var start := db.Value();
      for i := 0 to |chunks|
        invariant FirstInsertFailure(chunks, env, i).None?
        invariant (db.Value(), ids) == InsertFirst(start, handle, orgId, chunks, encoded, i)
      {
        if InsertFails(chunks[i], i, env) {
          FailureSticks(chunks, env, i + 1, |chunks|);
          return Failure(InsertFailed(i));
        }
        InsertFirstInserts(start, handle, orgId, chunks, encoded, i);
        var id := InsertChunk(orgId, chunks[i], encoded[i]);
        ids := ids + [id];
      }
      r := Success(ids);
    }

    /** One statement: insert, or replace the row with the same org and external id. */
    method InsertChunk(orgId: int, c: Chunk, e: Encoded) returns (id: int)
      requires Consistent(db.Value())
      modifies db
      ensures (db.Value(), id) == Upsert(old(db.Value()), handle, orgId, c, e)
    {
      if x :| x in db.rows && c.externalId.Some? && HasKey(db.rows[x], orgId, c.externalId.value) {
        ConflictIsTheRow(db.rows, orgId, c.externalId.value, x);
        id := x;
      } else {
        id := db.nextId;
        db.nextId := db.nextId + 1;
      }
      db.rows := db.rows[id := RowOf(handle, orgId, c, e, id)];
    }

    /** Looks for one row of another embedder or tokenizer, whichever org it belongs to. */
    method AssertSameEmbedderAndTokenizer() returns (e: Option<StoreError>)
      requires Valid()
      ensures e == IdentityError(db.rows, handle.identity)
    {
      if x :| x in db.rows && !HasIdentity(db.rows[x], handle.identity) {
        e := Some(MismatchOf(db.rows[x], handle.identity));
      } else {
        e := None;
      }
    }

    /** Deleting one chunk does not say whether it was there. */
    method Delete(orgId: int, chunkId: int, fails: bool) returns (r: Result<(), StoreError>)
      requires Valid()
      modifies db
      ensures Valid()
      ensures var (deleted, after) := StoreModel.Delete(old(db.Value()), orgId, ById(chunkId), fails);
              db.Value() == after && r == if deleted.Success? then Success(()) else Failure(deleted.error)
    {
      var deleted := DeleteBy(orgId, ById(chunkId), fails);
      r := if deleted.Success? then Success(()) else Failure(deleted.error);
    }

    method DeleteBySource(orgId: int, sourceId: int, fails: bool) returns (r: Result<nat, StoreError>)
      requires Valid()
      modifies db
      ensures Valid()
      ensures (r, db.Value()) == StoreModel.Delete(old(db.Value()), orgId, BySource(sourceId), fails)
    {
      r := DeleteBy(orgId, BySource(sourceId), fails);
    }

    method DeleteByDocument(orgId: int, documentId: int, fails: bool) returns (r: Result<nat, StoreError>)
      requires Valid()
      modifies db
      ensures Valid()
      ensures (r, db.Value()) == StoreModel.Delete(old(db.Value()), orgId, ByDocument(documentId), fails)
    {
      r := DeleteBy(orgId, ByDocument(documentId), fails);
    }

    method DeleteBy(orgId: int, target: Target, fails: bool) returns (r: Result<nat, StoreError>)
      requires Valid()
      modifies db
      ensures Valid()
      ensures (r, db.Value()) == StoreModel.Delete(old(db.Value()), orgId, target, fails)
    {
      DeleteKeepsInv(db.Value(), orgId, target, fails);
      if orgId < 1 {
        return Failure(OrgRequired);
      }
      if fails {
        return Failure(DeleteFailed);
      }
      var gone := Victims(db.rows, orgId, target);
      db.rows := db.rows - gone;
      r := Success(|gone|);
    }
  }

  // ----- Checks before the transaction -----

  method ValidateChunks(orgId: int, chunks: seq<Chunk>) returns (e: Option<StoreError>)
    ensures e == BatchError(orgId, chunks)
  {
    if orgId < 1 {
      return Some(OrgRequired);
    }
    if |chunks| == 0 {
      return Some(EmptyBatch);
    }
    for i := 0 to |chunks|
      invariant FirstChunkError(orgId, chunks, i).None?
    {
      e := ChunkError(i, chunks[i], orgId);
      if e.Some? {
        ErrorSticks(orgId, chunks, i + 1, |chunks|);
        return;
      }
    }
    e := ValidateExternalIdsAreDistinct(chunks);
  }

  method ValidateExternalIdsAreDistinct(chunks: seq<Chunk>) returns (e: Option<StoreError>)
    ensures e == FirstDuplicate(chunks, |chunks|)
  {
    var seen: map<int, nat> := map[];
    for i := 0 to |chunks|
      invariant FirstDuplicate(chunks, i).None?
      invariant forall x :: x in seen <==> UseOf(chunks, x, i).Some?
      invariant forall x | x in seen :: UseOf(chunks, x, i) == Some(seen[x])
    {
      if chunks[i].externalId.Some? {
        var x := chunks[i].externalId.value;
        if x in seen {
          DuplicateSticks(chunks, i + 1, |chunks|);
          return Some(DuplicateExternalId(seen[x], i));
        }
        seen := seen[x := i];
      }
    }
    e := None;
  }

  method EncodeContents(h: Handle, chunks: seq<Chunk>, env: Outcome) returns (r: Result<seq<Encoded>, StoreError>)
    ensures r == EncodeBatch(h, chunks, env)
  {
    if env.vectors.None? {
      return Failure(EmbedFailed);
    }
    var vectors := env.vectors.value;
    if |vectors| != |chunks| {
      return Failure(EmbedCount(|vectors|));
    }
    var encoded: seq<Encoded> := [];
    for i := 0 to |vectors|
      invariant EncodeChunks(h, chunks, vectors, i) == Success(encoded)
    {
      var valid := Vectors.ValidateVector(vectors[i]);
      if valid.Failure? {
        EncodeErrorSticks(h, chunks, vectors, i + 1, |vectors|);
        return Failure(BadVector(i));
      }
      var lexemeText := TokenEncoding.EncodeLexemeText(h.tokenize(chunks[i].content));
      if lexemeText.Failure? {
        EncodeErrorSticks(h, chunks, vectors, i + 1, |vectors|);
        return Failure(BadTokens(i));
      }
      encoded := encoded + [Encoded(vectors[i], lexemeText.value)];
    }
    r := Success(encoded);
  }

  // ----- The first error stays the first error -----

  lemma {:induction false} ErrorSticks(orgId: int, chunks: seq<Chunk>, i: nat, n: nat)
    requires i <= n <= |chunks| && FirstChunkError(orgId, chunks, i).Some?
    ensures FirstChunkError(orgId, chunks, n) == FirstChunkError(orgId, chunks, i)
  {
    if i < n {
      ErrorSticks(orgId, chunks, i, n - 1);
    }
  }

  lemma {:induction false} DuplicateSticks(chunks: seq<Chunk>, i: nat, n: nat)
    requires i <= n <= |chunks| && FirstDuplicate(chunks, i).Some?
    ensures FirstDuplicate(chunks, n) == FirstDuplicate(chunks, i)
  {
    if i < n {
      DuplicateSticks(chunks, i, n - 1);
    }
  }

  lemma {:induction false} EncodeErrorSticks(h: Handle, chunks: seq<Chunk>, vectors: seq<seq<real>>, i: nat, n: nat)
    requires i <= n <= |chunks| == |vectors| && EncodeChunks(h, chunks, vectors, i).Failure?
    ensures EncodeChunks(h, chunks, vectors, n) == EncodeChunks(h, chunks, vectors, i)
  {
    if i < n {
      EncodeErrorSticks(h, chunks, vectors, i, n - 1);
    }
  }

  lemma {:induction false} FailureSticks(chunks: seq<Chunk>, env: Outcome, i: nat, n: nat)
    requires i <= n <= |chunks| && FirstInsertFailure(chunks, env, i).Some?
    ensures FirstInsertFailure(chunks, env, n) == FirstInsertFailure(chunks, env, i)
  {
    if i < n {
      FailureSticks(chunks, env, i, n - 1);
    }
  }
}
