/** The same run against the store: the ids a measurement gets back lead to the rows that hold its texts. */
module StoredCorpus {
  import opened Sequences
  import opened Wrappers
  import opened TopOrder
  import opened PostgresSearch
  import opened Isolation
  import opened Records
  import opened Corpus
  import opened Labels
  import opened StoreModel
  import opened StoreLaws
  import opened Measurement

  /** One successful Put after another; the table at the end and all ids in order. */
  ghost function PutAll(db: Db, h: Handle, orgId: int, batches: seq<seq<Chunk>>, envs: seq<Outcome>): (r: Option<(Db, seq<int>)>)
    requires |batches| == |envs|
  {
    if batches == [] then Some((db, []))
    else
      var n := |batches| - 1;
      var before := PutAll(db, h, orgId, batches[..n], envs[..n]);
      if before.None? then None
      else
        var (result, after) := Put(before.value.0, h, orgId, batches[n], envs[n]);
        if result.Failure? then None else Some((after, before.value.1 + result.value))
  }

  ghost predicate Keeps(db: Db, after: Db) {
    forall x | x in db.rows :: x in after.rows && after.rows[x] == db.rows[x]
  }

  ghost predicate AddsOnly(db: Db, after: Db, ids: seq<int>) {
    forall x | x in after.rows :: x in db.rows || x in ids
  }

  ghost predicate NoExternalIds(batch: seq<Chunk>) {
    forall c | c in batch :: c.externalId.None?
  }

  ghost predicate Holds(db: Db, orgId: int, ids: seq<int>, chunks: seq<Chunk>) {
    && |ids| == |chunks|
    && forall i | 0 <= i < |ids| :: ids[i] in db.rows && db.rows[ids[i]].chunk == chunks[i].(orgId := orgId)
  }

  /** Chunks without external ids only ever add rows: the ids of all batches are new and pairwise distinct, in
      the order of the chunks, and the id of a chunk leads to the row that holds it. */
  lemma {:induction false} IdsLeadToTheirChunks(db: Db, h: Handle, orgId: int, batches: seq<seq<Chunk>>, envs: seq<Outcome>)
    requires Inv(db) && |batches| == |envs| && PutAll(db, h, orgId, batches, envs).Some?
    requires forall b | b in batches :: NoExternalIds(b)
    ensures var (after, ids) := PutAll(db, h, orgId, batches, envs).value;
            && Inv(after) && after.nextId >= db.nextId
            && Distinct(ids) && (forall x | x in ids :: x !in db.rows)
            && Holds(after, orgId, ids, Flatten(batches))
            && Keeps(db, after) && AddsOnly(db, after, ids)
  {
    if batches != [] {
      var n := |batches| - 1;
      var (before, ids) := PutAll(db, h, orgId, batches[..n], envs[..n]).value;
      assert forall b | b in batches[..n] :: b in batches;
      IdsLeadToTheirChunks(db, h, orgId, batches[..n], envs[..n]);
      assert batches[n] in batches;
      OneMoreBatch(db, before, ids, h, orgId, Flatten(batches[..n]), batches[n], envs[n]);
    }
  }

  lemma {:induction false} OneMoreBatch(db: Db, before: Db, ids: seq<int>, h: Handle, orgId: int, done: seq<Chunk>,
                                        batch: seq<Chunk>, env: Outcome)
    requires Inv(before) && Put(before, h, orgId, batch, env).0.Success? && before.nextId >= db.nextId >= 1
    requires Keeps(db, before) && AddsOnly(db, before, ids) && forall x | x in db.rows :: x < db.nextId
    requires Distinct(ids) && (forall x | x in ids :: x !in db.rows) && Holds(before, orgId, ids, done)
    requires NoExternalIds(batch)
    ensures var (r, after) := Put(before, h, orgId, batch, env);
            && Inv(after) && after.nextId >= db.nextId
            && Distinct(ids + r.value) && (forall x | x in ids + r.value :: x !in db.rows)
            && Holds(after, orgId, ids + r.value, done + batch)
            && Keeps(db, after) && AddsOnly(db, after, ids + r.value)
  {
    var (r, after) := Put(before, h, orgId, batch, env);
    PutKeepsInv(before, h, orgId, batch, env);
    NewRows(before, h, orgId, batch, env);
    hide Put, Inv;
    var added := r.value;
    forall i, j | 0 <= i < j < |ids + added|
      ensures (ids + added)[i] != (ids + added)[j]
    {
      if i < |ids| <= j {
        assert ids[i] in before.rows;
      }
    }
    HoldsLater(before, after, orgId, ids, done);
    HoldsBoth(after, orgId, ids, done, added, batch);
    forall x | x in after.rows
      ensures x in db.rows || x in ids + added
    {
      assert x in before.rows || x in added;
      assert x in before.rows ==> x in db.rows || x in ids;
    }
    forall x | x in ids + added
      ensures x !in db.rows
    {
      assert x in ids || x in added;
    }
  }

  lemma {:induction false} HoldsLater(before: Db, after: Db, orgId: int, ids: seq<int>, done: seq<Chunk>)
    requires Holds(before, orgId, ids, done) && Keeps(before, after)
    ensures Holds(after, orgId, ids, done)
  {
    forall i | 0 <= i < |ids|
      ensures ids[i] in after.rows && after.rows[ids[i]] == before.rows[ids[i]]
    {
      var x := ids[i];
      assert x in before.rows && x in after.rows && after.rows[x] == before.rows[x];
    }
  }

  lemma {:induction false} HoldsBoth(db: Db, orgId: int, ids: seq<int>, done: seq<Chunk>, added: seq<int>, batch: seq<Chunk>)
    requires Holds(db, orgId, ids, done) && Holds(db, orgId, added, batch)
    ensures Holds(db, orgId, ids + added, done + batch)
  {
  }

  /** What a successful Put of chunks without external ids does: new rows only. */
  lemma {:induction false} NewRows(db: Db, h: Handle, orgId: int, batch: seq<Chunk>, env: Outcome)
    requires Inv(db) && Put(db, h, orgId, batch, env).0.Success? && NoExternalIds(batch)
    ensures var (r, after) := Put(db, h, orgId, batch, env);
            && after.nextId >= db.nextId
            && Distinct(r.value) && (forall x | x in r.value :: x !in db.rows)
            && Holds(after, orgId, r.value, batch)
            && Keeps(db, after) && AddsOnly(db, after, r.value)
  {
    SuccessfulPut(db, h, orgId, batch, env);
    var (r, after) := Put(db, h, orgId, batch, env);
    var enc := EncodeBatch(h, batch, env).value;
    hide Put, EncodeBatch;
    forall i | 0 <= i < |r.value|
      ensures r.value[i] >= db.nextId && r.value[i] !in db.rows
    {
      assert batch[i] in batch;
      assert Conflict(db.rows, orgId, batch[i].externalId).None?;
    }
  }

  // ----- Reading the results of a search -----

  /** The labels of the results, in order; an id without a label is an error. */
  method RankedKeys(results: seq<Hit<Row>>, keys: map<int, string>) returns (r: Result<seq<string>, int>)
    ensures r.Success? <==> forall x | x in results :: x.id in keys
    ensures r.Success? ==> |r.value| == |results| && forall i | 0 <= i < |results| :: results[i].id in keys && r.value[i] == keys[results[i].id]
    ensures r.Failure? ==> r.error !in keys && exists x :: x in results && x.id == r.error
  {
    var out: seq<string> := [];
    for i := 0 to |results|
      invariant |out| == i
      invariant forall k | 0 <= k < i :: results[k].id in keys && out[k] == keys[results[k].id]
    {
      if results[i].id !in keys {
        assert results[i] in results;
        return Failure(results[i].id);
      }
      out := out + [keys[results[i].id]];
    }
    return Success(out);
  }

  // ----- Loading against the store -----

  ghost function AnswerOf(r: Result<seq<int>, StoreError>): Option<seq<int>> {
    if r.Success? then Some(r.value) else None
  }

  /** For these batches in this order, the writer answers as Put on the table the batches before have left. */
  ghost predicate AnswersAsStore(w: Writer, db: Db, h: Handle, orgId: int, batches: seq<seq<Chunk>>, envs: seq<Outcome>)
    requires |batches| == |envs|
  {
    forall n | 0 <= n < |batches| ::
      var before := PutAll(db, h, orgId, batches[..n], envs[..n]);
      before.Some? ==> w(n, batches[n]) == AnswerOf(Put(before.value.0, h, orgId, batches[n], envs[n]).0)
  }

  /** The org has no rows yet; other orgs may have some. */
  ghost predicate FreshFor(db: Db, orgId: int) {
    Inv(db) && forall x | x in db.rows :: db.rows[x].chunk.orgId != orgId
  }

  lemma {:induction false} LoadedChunksAreAnonymous(orgId: int, passages: seq<Passage>, ds: seq<Distractor>)
    ensures forall b | b in AllBatches(orgId, passages, ds) :: NoExternalIds(b)
  {
  }

  lemma {:induction false} LoadedChunks(orgId: int, passages: seq<Passage>, ds: seq<Distractor>)
    ensures Flatten(AllBatches(orgId, passages, ds)) == CorpusChunks(orgId, passages) + DistractorChunks(orgId, ds)
  {
    FlattenFirst(CorpusChunks(orgId, passages), Batches(orgId, ds));
    BatchesCover(orgId, ds);
    hide Flatten, Batches, CorpusChunks, DistractorChunks;
  }

  lemma {:induction false} PutAllLast(db: Db, h: Handle, orgId: int, batches: seq<seq<Chunk>>, envs: seq<Outcome>)
    requires |batches| == |envs| > 0
    ensures var n := |batches| - 1;
            var before := PutAll(db, h, orgId, batches[..n], envs[..n]);
            && (before.None? ==> PutAll(db, h, orgId, batches, envs).None?)
            && (before.Some? ==>
                var (result, after) := Put(before.value.0, h, orgId, batches[n], envs[n]);
                PutAll(db, h, orgId, batches, envs) ==
                if result.Failure? then None else Some((after, before.value.1 + result.value)))
  {
    hide Put;
  }

  lemma {:induction false} PutCounts(db: Db, h: Handle, orgId: int, batch: seq<Chunk>, env: Outcome)
    requires Inv(db) && NoExternalIds(batch)
    ensures var r := Put(db, h, orgId, batch, env).0; r.Success? ==> |r.value| == |batch|
  {
    if Put(db, h, orgId, batch, env).0.Success? {
      NewRows(db, h, orgId, batch, env);
    }
  }

  lemma {:induction false} AnswerAt(w: Writer, db: Db, h: Handle, orgId: int, batches: seq<seq<Chunk>>, envs: seq<Outcome>, n: nat)
    requires |batches| == |envs| && n < |batches| && AnswersAsStore(w, db, h, orgId, batches, envs)
    requires PutAll(db, h, orgId, batches[..n], envs[..n]).Some?
    ensures w(n, batches[n]) == AnswerOf(Put(PutAll(db, h, orgId, batches[..n], envs[..n]).value.0, h, orgId, batches[n], envs[n]).0)
  {
    hide PutAll, Put, AnswerOf;
  }

  /** While every Put succeeds, the writer's ids are the store's. */
  lemma {:induction false} SameIds(w: Writer, db: Db, h: Handle, orgId: int, batches: seq<seq<Chunk>>, envs: seq<Outcome>)
    requires |batches| == |envs| && Inv(db) && AnswersAsStore(w, db, h, orgId, batches, envs)
    requires forall b | b in batches :: NoExternalIds(b)
    ensures Answered(w, 0, batches) <==> PutAll(db, h, orgId, batches, envs).Some?
    ensures Answered(w, 0, batches) ==> PutAll(db, h, orgId, batches, envs).value.1 == IdsOf(w, 0, batches)
  {
    if batches != [] {
      var n := |batches| - 1;
      assert batches[n] in batches && forall b | b in batches[..n] :: b in batches;
      hide *;
      PrefixAnswersAsStore(w, db, h, orgId, batches, envs, n);
      SameIds(w, db, h, orgId, batches[..n], envs[..n]);
      AnsweredOneMore(w, 0, batches);
      if PutAll(db, h, orgId, batches[..n], envs[..n]).Some? {
        SameLastAnswer(w, db, h, orgId, batches, envs, n);
        SameIdsWithLast(w, db, h, orgId, batches, envs);
      } else {
        PutAllLast(db, h, orgId, batches, envs);
      }
    }
  }

  lemma {:induction false} SameIdsWithLast(w: Writer, db: Db, h: Handle, orgId: int, batches: seq<seq<Chunk>>, envs: seq<Outcome>)
    requires var n := |batches| - 1;
             && |batches| == |envs| > 0 && Answered(w, 0, batches[..n])
             && var before := PutAll(db, h, orgId, batches[..n], envs[..n]);
             && before.Some? && before.value.1 == IdsOf(w, 0, batches[..n])
             && var r := Put(before.value.0, h, orgId, batches[n], envs[n]).0;
             && (w(n, batches[n]).Some? <==> r.Success?)
             && (r.Success? ==> w(n, batches[n]).value == r.value && |r.value| == |batches[n]|)
    ensures Answered(w, 0, batches) <==> PutAll(db, h, orgId, batches, envs).Some?
    ensures Answered(w, 0, batches) ==> PutAll(db, h, orgId, batches, envs).value.1 == IdsOf(w, 0, batches)
  {
    var n := |batches| - 1;
    hide *;
    PutAllLast(db, h, orgId, batches, envs);
    AnsweredOneMore(w, 0, batches);
    if Answered(w, 0, batches) {
      assert batches == batches[..n] + [batches[n]];
      IdsOfLast(w, 0, batches[..n], batches[n]);
    }
  }

  lemma {:induction false} SameLastAnswer(w: Writer, db: Db, h: Handle, orgId: int, batches: seq<seq<Chunk>>, envs: seq<Outcome>,
                                          n: nat)
    requires |batches| == |envs| && n < |batches| && Inv(db) && AnswersAsStore(w, db, h, orgId, batches, envs)
    requires forall b | b in batches :: NoExternalIds(b)
    requires PutAll(db, h, orgId, batches[..n], envs[..n]).Some?
    ensures var r := Put(PutAll(db, h, orgId, batches[..n], envs[..n]).value.0, h, orgId, batches[n], envs[n]).0;
            && (w(n, batches[n]).Some? <==> r.Success?)
            && (r.Success? ==> w(n, batches[n]).value == r.value && |r.value| == |batches[n]|)
  {
    assert batches[n] in batches && forall b | b in batches[..n] :: b in batches;
    hide PutAll, Put, Inv, AnswersAsStore, NoExternalIds;
    AnswerAt(w, db, h, orgId, batches, envs, n);
    IdsLeadToTheirChunks(db, h, orgId, batches[..n], envs[..n]);
    PutCounts(PutAll(db, h, orgId, batches[..n], envs[..n]).value.0, h, orgId, batches[n], envs[n]);
  }

  lemma {:induction false} PrefixAnswersAsStore(w: Writer, db: Db, h: Handle, orgId: int, batches: seq<seq<Chunk>>, envs: seq<Outcome>,
                                                n: nat)
    requires |batches| == |envs| && n <= |batches| && AnswersAsStore(w, db, h, orgId, batches, envs)
    ensures AnswersAsStore(w, db, h, orgId, batches[..n], envs[..n])
  {
    hide PutAll, Put;
    forall i | 0 <= i < n
      ensures var before := PutAll(db, h, orgId, batches[..n][..i], envs[..n][..i]);
              before.Some? ==> w(i, batches[..n][i]) == AnswerOf(Put(before.value.0, h, orgId, batches[..n][i], envs[..n][i]).0)
    {
      assert batches[..n][..i] == batches[..i] && envs[..n][..i] == envs[..i];
      assert batches[..n][i] == batches[i] && envs[..n][i] == envs[i];
    }
  }

  /** With a store behind the writer, loading fails for no other reason than the input or a failing Put: the counts
      are always right and no id comes back twice.  The ids of a successful load are the store's. */
  lemma {:induction false} LoadsIntoStoreExactly(w: Writer, db: Db, h: Handle, orgId: int, envs: seq<Outcome>,
                                                 passages: seq<Passage>, ds: seq<Distractor>, record: Option<nat>)
    requires var all := AllBatches(orgId, passages, ds);
             |envs| == |all| && Inv(db) && AnswersAsStore(w, db, h, orgId, all, envs)
    ensures var l := LoadingOf(w, 0, orgId, passages, ds, record);
            var stored := PutAll(db, h, orgId, AllBatches(orgId, passages, ds), envs);
            && (l.result.Success? <==>
                && record == (if ds == [] then None else Some(|ds|))
                && (forall p | p in passages :: !Reserved(p.key))
                && passages != []
                && stored.Some?)
            && (l.result.Success? ==> l.result.value == stored.value.1)
  {
    var all := AllBatches(orgId, passages, ds);
    LoadSucceedsExactly(w, 0, orgId, passages, ds, record);
    LoadedChunksAreAnonymous(orgId, passages, ds);
    SameIds(w, db, h, orgId, all, envs);
    if PutAll(db, h, orgId, all, envs).Some? {
      IdsLeadToTheirChunks(db, h, orgId, all, envs);
    }
  }

  /** Every result has a label, and it is the label of a chunk that its row holds. */
  ghost predicate ResultsAreLabelled(m: map<int, string>, labels: seq<string>, chunks: seq<Chunk>, orgId: int, out: seq<Hit<Row>>)
    requires |labels| == |chunks|
  {
    forall x | x in out ::
      && x.id in m
      && exists i | 0 <= i < |chunks| :: m[x.id] == labels[i] && x.row.chunk == chunks[i].(orgId := orgId)
  }

  /** Where the org had no rows before, every result of its searches carries the label of the passage or distractor
      it was loaded from, whatever the mode and the fusion. */
  lemma {:induction false} EveryResultHasALabel(db: Db, h: Handle, orgId: int, batches: seq<seq<Chunk>>, envs: seq<Outcome>,
                                                labels: seq<string>, m: map<int, string>, s: Searcher, q: Request,
                                                text: QueryText, scoring: Scoring, vec: set<Row>, out: seq<Hit<Row>>)
    requires FreshFor(db, orgId) && |batches| == |envs| && PutAll(db, h, orgId, batches, envs).Some?
    requires forall b | b in batches :: NoExternalIds(b)
    requires Labelled(m, PutAll(db, h, orgId, batches, envs).value.1, labels)
    requires q.orgId == orgId && SearchReturns(s, PutAll(db, h, orgId, batches, envs).value.0, q, text, scoring, vec, Success(out))
    ensures |labels| == |Flatten(batches)|
    ensures ResultsAreLabelled(m, labels, Flatten(batches), orgId, out)
  {
    IdsLeadToTheirChunks(db, h, orgId, batches, envs);
    var (after, ids) := PutAll(db, h, orgId, batches, envs).value;
    ResultsAreInScope(s, after, q, text, scoring, vec, out);
    hide PutAll, SearchReturns, Flatten;
    var chunks := Flatten(batches);
    forall x | x in out
      ensures x.id in m
      ensures exists i | 0 <= i < |chunks| :: m[x.id] == labels[i] && x.row.chunk == chunks[i].(orgId := orgId)
    {
      var id := x.id;
      assert id in OrgRows(after, orgId) && id in after.rows && after.rows[id] == x.row;
      assert id in ids;
      var i :| 0 <= i < |ids| && ids[i] == id;
      assert m[id] == labels[i];
    }
  }

  /** What a loaded store holds: under the i-th id the i-th passage's content, and after the corpus, under its own id, each
      distractor with the document, source and index it came with. */
  lemma {:induction false} LoadedRows(db: Db, h: Handle, orgId: int, passages: seq<Passage>, ds: seq<Distractor>, envs: seq<Outcome>, i: nat)
    requires var all := AllBatches(orgId, passages, ds);
             |envs| == |all| && Inv(db) && PutAll(db, h, orgId, all, envs).Some?
    ensures var (after, ids) := PutAll(db, h, orgId, AllBatches(orgId, passages, ds), envs).value;
            && |ids| == |passages| + |ds|
            && (i < |passages| ==>
                  && ids[i] in after.rows
                  && after.rows[ids[i]].chunk.content == passages[i].content && after.rows[ids[i]].chunk.orgId == orgId)
            && (i < |ds| ==>
                  && ids[|passages| + i] in after.rows
                  && var c := after.rows[ids[|passages| + i]].chunk;
                  && c.documentId == ds[i].documentId && c.sourceId == ds[i].sourceId && c.chunkIndex == ds[i].chunkIndex
                  && c.content == ds[i].content && c.orgId == orgId && c.externalId.None?)
  {
    hide PutAll, Flatten, AllBatches, NoExternalIds, Inv, AddsOnly, Keeps, CorpusChunks, DistractorChunks;
    LoadedChunksAreAnonymous(orgId, passages, ds);
    LoadedChunks(orgId, passages, ds);
    IdsLeadToTheirChunks(db, h, orgId, AllBatches(orgId, passages, ds), envs);
    var (after, ids) := PutAll(db, h, orgId, AllBatches(orgId, passages, ds), envs).value;
    HeldRows(after, orgId, ids, passages, ds, i);
  }

  lemma {:induction false} HeldRows(after: Db, orgId: int, ids: seq<int>, passages: seq<Passage>, ds: seq<Distractor>, i: nat)
    requires Holds(after, orgId, ids, CorpusChunks(orgId, passages) + DistractorChunks(orgId, ds))
    ensures |ids| == |passages| + |ds|
    ensures i < |passages| ==>
              && ids[i] in after.rows
              && after.rows[ids[i]].chunk.content == passages[i].content && after.rows[ids[i]].chunk.orgId == orgId
    ensures i < |ds| ==>
              && ids[|passages| + i] in after.rows
              && var c := after.rows[ids[|passages| + i]].chunk;
              && c.documentId == ds[i].documentId && c.sourceId == ds[i].sourceId && c.chunkIndex == ds[i].chunkIndex
              && c.content == ds[i].content && c.orgId == orgId && c.externalId.None?
  {
    var corpus, rest := CorpusChunks(orgId, passages), DistractorChunks(orgId, ds);
    assert |corpus| == |passages| && |rest| == |ds|;
    if i < |passages| {
      ChunkHolds(orgId, passages, i);
      assert (corpus + rest)[i] == ChunkOf(orgId, passages, i);
      hide ChunkOf, CorpusChunks, DistractorChunks;
    }
    if i < |ds| {
      assert (corpus + rest)[|passages| + i] == DistractorChunk(orgId, ds[i]);
      hide ChunkOf, CorpusChunks, DistractorChunks;
    }
  }

  /** Loading a fresh runner whose writer is a store: the map that comes back labels every result of every later
      search of the org. */
  method LoadIntoStore(runner: Runner, passages: seq<Passage>, ds: seq<Distractor>, record: Option<nat>,
                       ghost db: Db, ghost h: Handle, ghost envs: seq<Outcome>)
    returns (r: Result<map<int, string>, IngestError>)
    requires runner.submitted == [] && FreshFor(db, runner.orgId)
    requires var all := AllBatches(runner.orgId, passages, ds);
             |envs| == |all| && AnswersAsStore(runner.writer, db, h, runner.orgId, all, envs)
    modifies runner`submitted
    ensures runner.submitted <= AllBatches(runner.orgId, passages, ds)
    ensures r.Success? <==>
              && record == (if ds == [] then None else Some(|ds|))
              && (forall p | p in passages :: !Reserved(p.key))
              && passages != []
              && PutAll(db, h, runner.orgId, AllBatches(runner.orgId, passages, ds), envs).Some?
    ensures r.Success? ==>
              var stored := PutAll(db, h, runner.orgId, AllBatches(runner.orgId, passages, ds), envs);
              forall s: Searcher, q: Request, text: QueryText, scoring: Scoring, vec: set<Row>, out: seq<Hit<Row>> |
                q.orgId == runner.orgId && SearchReturns(s, stored.value.0, q, text, scoring, vec, Success(out)) ::
                ResultsAreLabelled(r.value, KeysOf(passages) + LabelsOf(ds),
                                   CorpusChunks(runner.orgId, passages) + DistractorChunks(runner.orgId, ds), runner.orgId, out)
  {
    ghost var orgId := runner.orgId;
    ghost var all := AllBatches(orgId, passages, ds);
    r := runner.Load(passages, ds, record);
    LoadsIntoStoreExactly(runner.writer, db, h, orgId, envs, passages, ds, record);
    if r.Success? {
      LoadedChunksAreAnonymous(orgId, passages, ds);
      LoadedChunks(orgId, passages, ds);
      ghost var stored := PutAll(db, h, orgId, all, envs);
      hide *;
      forall s: Searcher, q: Request, text: QueryText, scoring: Scoring, vec: set<Row>, out: seq<Hit<Row>> |
        q.orgId == orgId && SearchReturns(s, stored.value.0, q, text, scoring, vec, Success(out))
        ensures ResultsAreLabelled(r.value, KeysOf(passages) + LabelsOf(ds),
                                   CorpusChunks(orgId, passages) + DistractorChunks(orgId, ds), orgId, out)
      {
        EveryResultHasALabel(db, h, orgId, all, envs, KeysOf(passages) + LabelsOf(ds), r.value, s, q, text, scoring, vec, out);
      }
    }
  }
}
