/** Handing corpus and distractors to a writer, and keeping track of which row carries which label. */
module Measurement {
  import opened Sequences
  import opened Wrappers
  import opened Records
  import opened Labels
  import opened Corpus

  const BATCH_SIZE := 1000

  datatype IngestError =
    | ReservedKey(key: string)
    | RecordMismatched
    | CorpusEmpty
    | PutFailed
    | IdCount(got: nat, want: nat)
    | DuplicateIds
    | IdTwice(id: int)

  /** What a writer answers to its n-th call. */
  type Writer = (nat, seq<Chunk>) -> Option<seq<int>>

  /** The map sends each id to the label at the same place, and holds nothing else. */
  ghost predicate Labelled(m: map<int, string>, ids: seq<int>, labels: seq<string>) {
    && |ids| == |labels|
    && Distinct(ids)
    && m.Keys == (set x | x in ids)
    && (forall i | 0 <= i < |ids| :: m[ids[i]] == labels[i])
  }

  // ----- What is handed over -----

  function KeysOf(passages: seq<Passage>): (k: seq<string>)
    ensures |k| == |passages| && forall i | 0 <= i < |k| :: k[i] == passages[i].key
  {
    seq(|passages|, i requires 0 <= i < |passages| => passages[i].key)
  }

  function LabelsOf(ds: seq<Distractor>): (k: seq<string>)
    ensures |k| == |ds| && forall i | 0 <= i < |k| :: k[i] == Key(ds[i])
  {
    seq(|ds|, i requires 0 <= i < |ds| => Key(ds[i]))
  }

  function CorpusChunks(orgId: int, passages: seq<Passage>): (c: seq<Chunk>)
    ensures |c| == |passages| && forall i | 0 <= i < |c| :: c[i] == ChunkOf(orgId, passages, i)
  {
    seq(|passages|, i requires 0 <= i < |passages| => ChunkOf(orgId, passages, i))
  }

  /** A distractor keeps the numbers it comes with. */
  function DistractorChunk(orgId: int, d: Distractor): Chunk {
    Chunk(0, orgId, None, d.documentId, d.sourceId, d.chunkIndex, d.content, None, None)
  }

  function DistractorChunks(orgId: int, ds: seq<Distractor>): (c: seq<Chunk>)
    ensures |c| == |ds| && forall i | 0 <= i < |c| :: c[i] == DistractorChunk(orgId, ds[i])
  {
    seq(|ds|, i requires 0 <= i < |ds| => DistractorChunk(orgId, ds[i]))
  }

  function Start(ds: seq<Distractor>, i: nat): (n: nat)
    ensures n <= |ds|
  {
    if i * BATCH_SIZE < |ds| then i * BATCH_SIZE else |ds|
  }

  function BatchCount(ds: seq<Distractor>): nat {
    (|ds| + BATCH_SIZE - 1) / BATCH_SIZE
  }

  function Batches(orgId: int, ds: seq<Distractor>): (b: seq<seq<Chunk>>)
    ensures |b| == BatchCount(ds)
    ensures forall i | 0 <= i < |b| :: b[i] == DistractorChunks(orgId, ds[Start(ds, i)..Start(ds, i + 1)])
  {
    seq(BatchCount(ds), i requires 0 <= i < BatchCount(ds) => DistractorChunks(orgId, ds[Start(ds, i)..Start(ds, i + 1)]))
  }

  function AllBatches(orgId: int, passages: seq<Passage>, ds: seq<Distractor>): seq<seq<Chunk>> {
    [CorpusChunks(orgId, passages)] + Batches(orgId, ds)
  }

  function Flatten(batches: seq<seq<Chunk>>): seq<Chunk> {
    if batches == [] then [] else Flatten(batches[..|batches| - 1]) + batches[|batches| - 1]
  }

  // ----- What comes back -----

  /** What is wrong with the answer to the corpus. */
  ghost function CorpusError(answer: Option<seq<int>>, want: nat): (e: Option<IngestError>)
    ensures e.None? <==> answer.Some? && |answer.value| == want && Distinct(answer.value)
  {
    if answer.None? then Some(PutFailed)
    else if |answer.value| != want then Some(IdCount(|answer.value|, want))
    else if !Distinct(answer.value) then Some(DuplicateIds)
    else None
  }

  /** The first new id that was there before. */
  function FirstRepeat(ids: seq<int>, got: seq<int>): (r: Option<int>)
    ensures Distinct(ids) ==> (r.None? <==> Distinct(ids + got))
    ensures r.Some? ==> exists i | 0 <= i < |got| :: got[i] == r.value && got[i] in ids + got[..i]
  {
    if got == [] then
      assert ids + got == ids;
      None
    else
      var n := |got| - 1;
      var before := FirstRepeat(ids, got[..n]);
      AppendDistinct(ids + got[..n], got[n]);
      assert ids + got == ids + got[..n] + [got[n]];
      assert forall i | 0 <= i < n :: got[..n][..i] == got[..i];
      if before.Some? || got[n] !in ids + got[..n] then before else Some(got[n])
  }

  /** What is wrong with the answer to a batch of distractors, when these ids were given out before. */
  function BatchError(ids: seq<int>, answer: Option<seq<int>>, want: nat): (e: Option<IngestError>)
    ensures Distinct(ids) ==> (e.None? <==> answer.Some? && |answer.value| == want && Distinct(ids + answer.value))
    ensures e.None? ==> answer.Some?
  {
    if answer.None? then Some(PutFailed)
    else if |answer.value| != want then Some(IdCount(|answer.value|, want))
    else
      var repeat := FirstRepeat(ids, answer.value);
      if repeat.Some? then Some(IdTwice(repeat.value)) else None
  }

  /** The ids at the end or the first error, and the batches the writer was given. */
  datatype Loading = Loading(result: Result<seq<int>, IngestError>, batches: seq<seq<Chunk>>)

  /** One batch after the other, up to the first error. */
  function HandOver(w: Writer, from: nat, batches: seq<seq<Chunk>>, ids: seq<int>): (l: Loading)
    ensures l.batches <= batches
    ensures l.result.Success? ==> l.batches == batches
  {
    if batches == [] then Loading(Success(ids), [])
    else
      var n := |batches| - 1;
      var before := HandOver(w, from, batches[..n], ids);
      if before.result.Failure? then before
      else
        var answer := w(from + n, batches[n]);
        var e := BatchError(before.result.value, answer, |batches[n]|);
        Loading(if e.Some? then Failure(e.value) else Success(before.result.value + answer.value), before.batches + [batches[n]])
  }

  /** The steps of a measurement up to the point where every row has its label. */
  ghost function LoadingOf(w: Writer, from: nat, orgId: int, passages: seq<Passage>, ds: seq<Distractor>, record: Option<nat>): (l: Loading)
    ensures l.batches <= AllBatches(orgId, passages, ds)
  {
    var reserved := FirstReserved(passages);
    if RecordMismatch(|ds|, record) then Loading(Failure(RecordMismatched), [])
    else if reserved.Some? then Loading(Failure(ReservedKey(reserved.value)), [])
    else if passages == [] then Loading(Failure(CorpusEmpty), [])
    else
      var corpus := CorpusChunks(orgId, passages);
      var answer := w(from, corpus);
      var e := CorpusError(answer, |passages|);
      if e.Some? then Loading(Failure(e.value), [corpus])
      else
        var rest := HandOver(w, from + 1, Batches(orgId, ds), answer.value);
        Loading(rest.result, [corpus] + rest.batches)
  }

  class Runner {
    const orgId: int
    const writer: Writer
    /** The batches handed to the writer, in order. */
    var submitted: seq<seq<Chunk>>

    constructor (orgId: int, writer: Writer)
      ensures this.orgId == orgId && this.writer == writer && submitted == []
    {
      this.orgId, this.writer, submitted := orgId, writer, [];
    }

    method Put(chunks: seq<Chunk>) returns (r: Option<seq<int>>)
      modifies this`submitted
      ensures submitted == old(submitted) + [chunks] && r == writer(|old(submitted)|, chunks)
    {
      r := writer(|submitted|, chunks);
      submitted := submitted + [chunks];
    }

    /** The corpus goes in as one batch. */
    method Ingest(passages: seq<Passage>) returns (r: Result<map<int, string>, IngestError>)
      modifies this`submitted
      ensures passages == [] ==> r == Failure(CorpusEmpty) && submitted == old(submitted)
      ensures passages != [] ==>
                var corpus := CorpusChunks(orgId, passages);
                var answer := writer(|old(submitted)|, corpus);
                var e := CorpusError(answer, |passages|);
                && submitted == old(submitted) + [corpus]
                && (e.Some? ==> r == Failure(e.value))
                && (e.None? ==> r.Success? && Labelled(r.value, answer.value, KeysOf(passages)))
    {
      if |passages| == 0 {
        return Failure(CorpusEmpty);
      }
      var chunks := ToChunks(orgId, passages);
      assert chunks == CorpusChunks(orgId, passages);
      var answer := Put(chunks);
      if answer.None? {
        return Failure(PutFailed);
      }
      var ids := answer.value;
      if |ids| != |passages| {
        return Failure(IdCount(|ids|, |passages|));
      }
      var keys := LabelAll(ids, passages);
      FillDone(keys, ids, KeysOf(passages));
      if |keys| != |ids| {
        return Failure(DuplicateIds);
      }
      return Success(keys);
    }

    /** Later ids overwrite earlier ones; the caller sees that by the size of the map. */
    static method LabelAll(ids: seq<int>, passages: seq<Passage>) returns (keys: map<int, string>)
      requires |ids| == |passages|
      ensures FilledWith(keys, ids, KeysOf(passages))
    {
      hide FilledWith;
      keys := map[];
      FillNothing();
      for i := 0 to |ids|
        invariant FilledWith(keys, ids[..i], KeysOf(passages)[..i])
      {
        FillOneMore(keys, ids[..i], KeysOf(passages)[..i], ids[i], passages[i].key);
        assert ids[..i] + [ids[i]] == ids[..i + 1];
        assert KeysOf(passages)[..i] + [passages[i].key] == KeysOf(passages)[..i + 1];
        keys := keys[ids[i] := passages[i].key];
      }
      assert ids[..|ids|] == ids && KeysOf(passages)[..|ids|] == KeysOf(passages);
    }

    /** The distractors go in after it, in batches; their labels join the map. */
    method IngestDistractors(ds: seq<Distractor>, keys: map<int, string>, ghost ids: seq<int>, ghost labels: seq<string>)
      returns (r: Result<map<int, string>, IngestError>)
      requires Labelled(keys, ids, labels)
      modifies this`submitted
      ensures var l := HandOver(writer, |old(submitted)|, Batches(orgId, ds), ids);
              && submitted == old(submitted) + l.batches
              && (l.result.Failure? ==> r == Failure(l.result.error))
              && (l.result.Success? ==> r.Success? && Labelled(r.value, l.result.value, labels + LabelsOf(ds)))
    {
      hide Labelled, LabelsOf, HandOver, Batches, DistractorChunks, BatchError;
      var m := keys;
      var start := 0;
      ghost var all, j, batches, from := ids, 0, Batches(orgId, ds), |submitted|;
      HandOverNothing(writer, from, ids);
      assert labels + LabelsOf(ds[..0]) == labels;
      assert batches[..0] == [];
      while start < |ds|
        invariant j <= |batches| && start == Start(ds, j)
        invariant submitted == old(submitted) + batches[..j]
        invariant HandOver(writer, from, batches[..j], ids) == Loading(Success(all), batches[..j])
        invariant Labelled(m, all, labels + LabelsOf(ds[..start]))
      {
        var end := if start + BATCH_SIZE < |ds| then start + BATCH_SIZE else |ds|;
        assert j < |batches| && end == Start(ds, j + 1);
        var put := PutDistractors(ds[start..end], m, all, labels + LabelsOf(ds[..start]));
        assert batches[..j + 1] == batches[..j] + [batches[j]];
        HandOverOneMore(writer, from, batches, ids, j, all);
        if put.Failure? {
          HandOverFails(writer, from, batches, ids, j + 1);
          return Failure(put.error);
        }
        JoinLabels(labels, ds, start, end);
        m, start, all, j := put.value, end, all + writer(from + j, batches[j]).value, j + 1;
      }
      assert j == |batches|;
      assert batches[..j] == batches && ds[..start] == ds;
      return Success(m);
    }

    method PutDistractors(batch: seq<Distractor>, keys: map<int, string>, ghost ids: seq<int>, ghost labels: seq<string>)
      returns (r: Result<map<int, string>, IngestError>)
      requires Labelled(keys, ids, labels)
      modifies this`submitted
      ensures submitted == old(submitted) + [DistractorChunks(orgId, batch)]
      ensures var answer := writer(|old(submitted)|, DistractorChunks(orgId, batch));
              var e := BatchError(ids, answer, |batch|);
              && (e.Some? ==> r == Failure(e.value))
              && (e.None? ==> r.Success? && Labelled(r.value, ids + answer.value, labels + LabelsOf(batch)))
    {
      hide Labelled, Key, FirstRepeat, LabelsOf;
      var answer := Put(DistractorChunks(orgId, batch));
      if answer.None? {
        return Failure(PutFailed);
      }
      var got := answer.value;
      if |got| != |batch| {
        return Failure(IdCount(|got|, |batch|));
      }
      var m := keys;
      NothingLabelled(ids, labels, got, batch);
      for i := 0 to |got|
        invariant submitted == old(submitted) + [DistractorChunks(orgId, batch)]
        invariant Labelled(m, ids + got[..i], labels + LabelsOf(batch[..i]))
        invariant FirstRepeat(ids, got[..i]).None?
      {
        LabelledKeys(m, ids + got[..i], labels + LabelsOf(batch[..i]));
        RepeatOneMore(ids, got, i);
        var id := got[i];
        if id in m {
          FirstRepeatStays(ids, got, i + 1);
          return Failure(IdTwice(id));
        }
        LabelOneMore(m, ids + got[..i], labels + LabelsOf(batch[..i]), id, Key(batch[i]));
        OneMoreLabelled(ids, labels, got, batch, i);
        m := m[id := Key(batch[i])];
      }
      assert batch[..|got|] == batch && got[..|got|] == got;
      return Success(m);
    }

    /** The result and what the writer was given are those of LoadingOf; the map labels the ids in order. */
    method Load(passages: seq<Passage>, ds: seq<Distractor>, record: Option<nat>) returns (r: Result<map<int, string>, IngestError>)
      modifies this`submitted
      ensures var l := LoadingOf(writer, |old(submitted)|, orgId, passages, ds, record);
              && submitted == old(submitted) + l.batches
              && (l.result.Failure? ==> r == Failure(l.result.error))
              && (l.result.Success? ==> r.Success? && Labelled(r.value, l.result.value, KeysOf(passages) + LabelsOf(ds)))
    {
      hide Labelled, HandOver, CorpusError, Batches;
      if RecordMismatch(|ds|, record) {
        return Failure(RecordMismatched);
      }
      var conflict := KeyPrefixConflict(passages);
      if conflict.Some? {
        return Failure(ReservedKey(conflict.value));
      }
      var ingested := Ingest(passages);
      if ingested.Failure? {
        return Failure(ingested.error);
      }
      ghost var answer := writer(|old(submitted)|, CorpusChunks(orgId, passages));
      r := IngestDistractors(ds, ingested.value, answer.value, KeysOf(passages));
    }
  }

  lemma {:induction false} HandOverNothing(w: Writer, from: nat, ids: seq<int>)
    ensures HandOver(w, from, [], ids) == Loading(Success(ids), [])
  {
  }

  lemma {:induction false} HandOverOneMore(w: Writer, from: nat, batches: seq<seq<Chunk>>, ids: seq<int>, j: nat, all: seq<int>)
    requires j < |batches| && HandOver(w, from, batches[..j], ids) == Loading(Success(all), batches[..j])
    ensures var answer := w(from + j, batches[j]);
            var e := BatchError(all, answer, |batches[j]|);
            HandOver(w, from, batches[..j + 1], ids) ==
            Loading(if e.Some? then Failure(e.value) else Success(all + answer.value), batches[..j + 1])
  {
    assert batches[..j + 1][..j] == batches[..j];
    hide BatchError;
  }

  lemma {:induction false} HandOverFails(w: Writer, from: nat, batches: seq<seq<Chunk>>, ids: seq<int>, j: nat)
    requires j <= |batches| && HandOver(w, from, batches[..j], ids).result.Failure?
    ensures HandOver(w, from, batches, ids) == HandOver(w, from, batches[..j], ids)
  {
    hide BatchError;
    if j == |batches| {
      assert batches[..j] == batches;
    } else {
      assert batches[..|batches| - 1][..j] == batches[..j];
      HandOverFails(w, from, batches[..|batches| - 1], ids, j);
    }
  }

  lemma {:induction false} RepeatOneMore(ids: seq<int>, got: seq<int>, i: nat)
    requires i < |got| && FirstRepeat(ids, got[..i]).None?
    ensures FirstRepeat(ids, got[..i + 1]) == if got[i] in ids + got[..i] then Some(got[i]) else None
  {
    assert got[..i + 1][..i] == got[..i];
  }

  lemma {:induction false} NothingLabelled(ids: seq<int>, labels: seq<string>, got: seq<int>, batch: seq<Distractor>)
    ensures labels + LabelsOf(batch[..0]) == labels && ids + got[..0] == ids && FirstRepeat(ids, got[..0]).None?
  {
  }

  lemma {:induction false} OneMoreLabelled(ids: seq<int>, labels: seq<string>, got: seq<int>, batch: seq<Distractor>, i: nat)
    requires i < |got| && i < |batch|
    ensures labels + LabelsOf(batch[..i]) + [Key(batch[i])] == labels + LabelsOf(batch[..i + 1])
    ensures ids + got[..i] + [got[i]] == ids + got[..i + 1]
  {
    hide Key;
  }

  lemma {:induction false} FirstRepeatStays(ids: seq<int>, got: seq<int>, n: nat)
    requires n <= |got| && FirstRepeat(ids, got[..n]).Some?
    ensures FirstRepeat(ids, got) == FirstRepeat(ids, got[..n])
  {
    if n == |got| {
      assert got[..n] == got;
    } else {
      assert got[..|got| - 1][..n] == got[..n];
      FirstRepeatStays(ids, got[..|got| - 1], n);
    }
  }

  lemma {:induction false} JoinLabels(labels: seq<string>, ds: seq<Distractor>, start: nat, end: nat)
    requires start <= end <= |ds|
    ensures labels + LabelsOf(ds[..start]) + LabelsOf(ds[start..end]) == labels + LabelsOf(ds[..end])
  {
  }

  lemma {:induction false} LabelledKeys(m: map<int, string>, ids: seq<int>, labels: seq<string>)
    requires Labelled(m, ids, labels)
    ensures forall x :: x in m <==> x in ids
  {
    assert forall x :: x in m <==> x in m.Keys;
  }

  lemma {:induction false} GrowDistinct(s: seq<int>, i: nat)
    requires i < |s|
    ensures Distinct(s[..i + 1]) <==> Distinct(s[..i]) && s[i] !in s[..i]
    ensures forall x :: x in s[..i + 1] <==> x in s[..i] || x == s[i]
  {
    var a, b := s[..i], s[..i + 1];
    assert b == a + [s[i]];
    if Distinct(b) {
      assert forall j, k | 0 <= j < k < |a| :: b[j] == a[j] && b[k] == a[k];
      forall j | 0 <= j < |a|
        ensures a[j] != s[i]
      {
        assert b[j] != b[i];
      }
    }
  }

  /** The map after these ids: as large as their number exactly if they are all different. */
  ghost predicate FilledWith(keys: map<int, string>, ids: seq<int>, labels: seq<string>) {
    && |ids| == |labels|
    && keys.Keys == (set x | x in ids)
    && |keys| <= |ids| && (|keys| == |ids| <==> Distinct(ids))
    && (|keys| == |ids| ==> forall k | 0 <= k < |ids| :: ids[k] in keys && keys[ids[k]] == labels[k])
  }

  lemma {:induction false} FillOneMore(keys: map<int, string>, ids: seq<int>, labels: seq<string>, id: int, name: string)
    requires FilledWith(keys, ids, labels)
    ensures FilledWith(keys[id := name], ids + [id], labels + [name])
  {
    var after, more := keys[id := name], ids + [id];
    AppendDistinct(ids, id);
    assert after.Keys == keys.Keys + {id};
    assert |after| == |after.Keys| && |keys| == |keys.Keys|;
    assert id in keys <==> id in ids;
    assert after.Keys == set x | x in more;
    if |after| == |more| {
      forall k | 0 <= k < |more|
        ensures more[k] in after && after[more[k]] == (labels + [name])[k]
      {
      }
    }
  }

  lemma {:induction false} AppendDistinct(ids: seq<int>, id: int)
    ensures Distinct(ids + [id]) <==> Distinct(ids) && id !in ids
    ensures forall x :: x in ids + [id] <==> x in ids || x == id
  {
    GrowDistinct(ids + [id], |ids|);
    assert (ids + [id])[..|ids|] == ids && (ids + [id])[..|ids| + 1] == ids + [id];
  }

  lemma {:induction false} FillNothing()
    ensures FilledWith(map[], [], [])
  {
  }

  lemma {:induction false} FillDone(keys: map<int, string>, ids: seq<int>, labels: seq<string>)
    requires FilledWith(keys, ids, labels)
    ensures |keys| == |ids| <==> Distinct(ids)
    ensures |keys| == |ids| ==> Labelled(keys, ids, labels)
  {
  }

  lemma {:induction false} FlattenMore(batches: seq<seq<Chunk>>, b: seq<Chunk>)
    ensures Flatten(batches + [b]) == Flatten(batches) + b
  {
    assert (batches + [b])[..|batches|] == batches;
  }

  lemma {:induction false} LabelOneMore(m: map<int, string>, ids: seq<int>, labels: seq<string>, id: int, name: string)
    requires Labelled(m, ids, labels) && id !in m
    ensures Labelled(m[id := name], ids + [id], labels + [name])
  {
    var more := ids + [id];
    forall i, j | 0 <= i < j < |more|
      ensures more[i] != more[j]
    {
      assert ids[i] in ids;
    }
    assert forall x :: x in more <==> x in ids || x == id;
    assert m[id := name].Keys == m.Keys + {id};
  }

  // ----- When it succeeds -----

  /** Every batch got as many ids as it has chunks. */
  ghost predicate Answered(w: Writer, from: nat, batches: seq<seq<Chunk>>) {
    forall i | 0 <= i < |batches| :: var answer := w(from + i, batches[i]); answer.Some? && |answer.value| == |batches[i]|
  }

  /** All ids, in order. */
  ghost function IdsOf(w: Writer, from: nat, batches: seq<seq<Chunk>>): seq<int>
    requires Answered(w, from, batches)
  {
    if batches == [] then []
    else
      var n := |batches| - 1;
      IdsOf(w, from, batches[..n]) + w(from + n, batches[n]).value
  }

  lemma {:induction false} HandOverExactly(w: Writer, from: nat, batches: seq<seq<Chunk>>, ids: seq<int>)
    requires Distinct(ids)
    ensures var r := HandOver(w, from, batches, ids).result;
            && (r.Success? <==> Answered(w, from, batches) && Distinct(ids + IdsOf(w, from, batches)))
            && (r.Success? ==> r.value == ids + IdsOf(w, from, batches))
  {
    if batches == [] {
      assert ids + [] == ids;
    } else {
      var n := |batches| - 1;
      HandOverExactly(w, from, batches[..n], ids);
      AnsweredOneMore(w, from, batches);
      hide Answered, FirstRepeat;
      if Answered(w, from, batches) {
        var before, answer := IdsOf(w, from, batches[..n]), w(from + n, batches[n]).value;
        Associate(ids, before, answer);
        if Distinct(ids + before + answer) {
          DistinctPrefix(ids + before, answer);
        }
      }
    }
  }

  lemma {:induction false} AnsweredOneMore(w: Writer, from: nat, batches: seq<seq<Chunk>>)
    requires batches != []
    ensures var n := |batches| - 1;
            var answer := w(from + n, batches[n]);
            Answered(w, from, batches) <==> Answered(w, from, batches[..n]) && answer.Some? && |answer.value| == |batches[n]|
  {
  }

  lemma {:induction false} DistinctPrefix(a: seq<int>, b: seq<int>)
    requires Distinct(a + b)
    ensures Distinct(a)
  {
    assert forall i | 0 <= i < |a| :: (a + b)[i] == a[i];
  }

  lemma {:induction false} AnsweredFirst(w: Writer, from: nat, first: seq<Chunk>, batches: seq<seq<Chunk>>)
    ensures var answer := w(from, first);
            Answered(w, from, [first] + batches) <==>
            answer.Some? && |answer.value| == |first| && Answered(w, from + 1, batches)
  {
    var all := [first] + batches;
    assert all[0] == first && forall i | 0 <= i < |batches| :: all[i + 1] == batches[i];
    if Answered(w, from, all) {
      forall i | 0 <= i < |batches|
        ensures var answer := w(from + 1 + i, batches[i]); answer.Some? && |answer.value| == |batches[i]|
      {
        assert w(from + (i + 1), all[i + 1]).Some?;
      }
    }
  }

  lemma {:induction false} IdsOfLast(w: Writer, from: nat, batches: seq<seq<Chunk>>, last: seq<Chunk>)
    requires Answered(w, from, batches + [last])
    ensures Answered(w, from, batches) && w(from + |batches|, last).Some?
    ensures IdsOf(w, from, batches + [last]) == IdsOf(w, from, batches) + w(from + |batches|, last).value
  {
    var all := batches + [last];
    assert all[..|all| - 1] == batches;
    AnsweredOneMore(w, from, all);
  }

  lemma {:induction false} IdsOfNothing(w: Writer, from: nat)
    ensures Answered(w, from, []) && IdsOf(w, from, []) == []
  {
  }

  lemma {:induction false} IdsOfFirst(w: Writer, from: nat, first: seq<Chunk>, batches: seq<seq<Chunk>>)
    requires Answered(w, from, [first] + batches) && Answered(w, from + 1, batches) && w(from, first).Some?
    ensures IdsOf(w, from, [first] + batches) == w(from, first).value + IdsOf(w, from + 1, batches)
    decreases |batches|, 1
  {
    hide *;
    if batches == [] {
      assert [first] + batches == [] + [first];
      IdsOfNothing(w, from);
      IdsOfNothing(w, from + 1);
      IdsOfLast(w, from, [], first);
    } else {
      var rest, last := batches[..|batches| - 1], batches[|batches| - 1];
      assert batches == rest + [last];
      IdsOfEnds(w, from, first, rest, last);
    }
  }

  lemma {:induction false} IdsOfEnds(w: Writer, from: nat, first: seq<Chunk>, rest: seq<seq<Chunk>>, last: seq<Chunk>)
    requires Answered(w, from, [first] + (rest + [last])) && Answered(w, from + 1, rest + [last]) && w(from, first).Some?
    ensures IdsOf(w, from, [first] + (rest + [last])) == w(from, first).value + IdsOf(w, from + 1, rest + [last])
    decreases |rest| + 1, 0
  {
    hide *;
    Associate([first], rest, [last]);
    IdsOfLast(w, from, [first] + rest, last);
    IdsOfLast(w, from + 1, rest, last);
    IdsOfFirst(w, from, first, rest);
    assert from + |[first] + rest| == from + 1 + |rest|;
    Associate(w(from, first).value, IdsOf(w, from + 1, rest), w(from + 1 + |rest|, last).value);
  }

  /** Loading succeeds exactly if the record fits, no key is reserved, there is a corpus, every batch gets its ids,
      and no id comes twice; then every batch was handed over once, in order, and the ids are the writer's. */
  lemma {:induction false} LoadSucceedsExactly(w: Writer, from: nat, orgId: int, passages: seq<Passage>, ds: seq<Distractor>,
                                               record: Option<nat>)
    ensures var l := LoadingOf(w, from, orgId, passages, ds, record);
            var all := AllBatches(orgId, passages, ds);
            && (l.result.Success? <==>
                && record == (if ds == [] then None else Some(|ds|))
                && (forall p | p in passages :: !Reserved(p.key))
                && passages != []
                && Answered(w, from, all) && Distinct(IdsOf(w, from, all)))
            && (l.result.Success? ==> l.batches == all && l.result.value == IdsOf(w, from, all))
  {
    var corpus, rest := CorpusChunks(orgId, passages), Batches(orgId, ds);
    var answer := w(from, corpus);
    AnsweredFirst(w, from, corpus, rest);
    if Answered(w, from, [corpus] + rest) {
      IdsOfFirst(w, from, corpus, rest);
    }
    hide Answered, HandOver, IdsOf, Distinct, CorpusChunks, Batches;
    if answer.Some? {
      if Distinct(answer.value) {
        HandOverExactly(w, from + 1, rest, answer.value);
      } else if Answered(w, from + 1, rest) && Distinct(answer.value + IdsOf(w, from + 1, rest)) {
        DistinctPrefix(answer.value, IdsOf(w, from + 1, rest));
      }
    }
  }

  /** The batches hold the distractors in order, each once; all but the last are full, and none is empty. */
  lemma {:induction false} BatchesCover(orgId: int, ds: seq<Distractor>)
    ensures Flatten(Batches(orgId, ds)) == DistractorChunks(orgId, ds)
    ensures forall i | 0 <= i < |Batches(orgId, ds)| :: 1 <= |Batches(orgId, ds)[i]| <= 1000
    ensures forall i | 0 <= i < |Batches(orgId, ds)| - 1 :: |Batches(orgId, ds)[i]| == 1000
  {
    var b := Batches(orgId, ds);
    BatchesCoverSoFar(orgId, ds, |b|);
    LastStart(ds);
    hide Start, BatchCount, Flatten, DistractorChunk, DistractorChunks;
    assert b[..|b|] == b && ds[..|ds|] == ds;
    forall i | 0 <= i < |b|
      ensures 1 <= |b[i]| <= 1000
      ensures i < |b| - 1 ==> |b[i]| == 1000
    {
      BatchBounds(ds, i);
      assert BATCH_SIZE == 1000;
    }
  }

  lemma {:induction false} LastStart(ds: seq<Distractor>)
    ensures Start(ds, BatchCount(ds)) == |ds| && Start(ds, 0) == 0
  {
  }

  lemma {:induction false} BatchesCoverSoFar(orgId: int, ds: seq<Distractor>, n: nat)
    requires n <= BatchCount(ds)
    ensures Flatten(Batches(orgId, ds)[..n]) == DistractorChunks(orgId, ds[..Start(ds, n)])
  {
    if n == 0 {
      LastStart(ds);
      hide BatchCount, Start, Batches;
      assert Batches(orgId, ds)[..0] == [] && ds[..0] == [];
    } else {
      BatchBounds(ds, n - 1);
      BatchesCoverSoFar(orgId, ds, n - 1);
      OneBatchMore(orgId, ds, n);
      hide *;
      JoinChunks(orgId, ds, Start(ds, n - 1), Start(ds, n));
    }
  }

  lemma {:induction false} OneBatchMore(orgId: int, ds: seq<Distractor>, n: nat)
    requires 0 < n <= BatchCount(ds) && Start(ds, n - 1) <= Start(ds, n)
    ensures var b := Batches(orgId, ds);
            Flatten(b[..n]) == Flatten(b[..n - 1]) + DistractorChunks(orgId, ds[Start(ds, n - 1)..Start(ds, n)])
  {
    hide BatchCount, Start, Flatten, DistractorChunks;
    var b := Batches(orgId, ds);
    var last := b[n - 1];
    assert last == DistractorChunks(orgId, ds[Start(ds, n - 1)..Start(ds, n)]);
    assert b[..n] == b[..n - 1] + [last];
    FlattenMore(b[..n - 1], last);
  }

  lemma {:induction false} BatchBounds(ds: seq<Distractor>, i: nat)
    requires i < BatchCount(ds)
    ensures Start(ds, i) + 1 <= Start(ds, i + 1) <= Start(ds, i) + BATCH_SIZE
    ensures i + 1 < BatchCount(ds) ==> Start(ds, i + 1) == Start(ds, i) + BATCH_SIZE
    ensures i + 1 == BatchCount(ds) ==> Start(ds, i + 1) == |ds|
  {
  }

  lemma {:induction false} JoinChunks(orgId: int, ds: seq<Distractor>, start: nat, end: nat)
    requires start <= end <= |ds|
    ensures DistractorChunks(orgId, ds[..start]) + DistractorChunks(orgId, ds[start..end]) == DistractorChunks(orgId, ds[..end])
  {
    hide DistractorChunk;
  }

  lemma {:induction false} FlattenFirst(first: seq<Chunk>, batches: seq<seq<Chunk>>)
    ensures Flatten([first] + batches) == first + Flatten(batches)
  {
    if batches == [] {
      assert [first] + batches == [first] && [first][..0] == [];
    } else {
      var n := |batches| - 1;
      assert ([first] + batches)[..n + 1] == [first] + batches[..n];
      FlattenFirst(first, batches[..n]);
      Associate(first, Flatten(batches[..n]), batches[n]);
    }
  }

  // ----- What a failure says -----

  /** What the error of a load says, when these batches were handed over; the last of them is the one at fault. */
  ghost predicate LoadFault(w: Writer, from: nat, passages: seq<Passage>, ds: seq<Distractor>, record: Option<nat>,
                            batches: seq<seq<Chunk>>, e: IngestError) {
    match e
    case RecordMismatched => batches == [] && record != (if ds == [] then None else Some(|ds|))
    case ReservedKey(key) =>
      && batches == []
      && exists i | 0 <= i < |passages| ::
           && passages[i].key == key && "distractor:" <= key
           && forall j | 0 <= j < i :: !("distractor:" <= passages[j].key)
    case CorpusEmpty => batches == [] && passages == []
    case PutFailed => batches != [] && Answered(w, from, batches[..|batches| - 1]) && LastAnswer(w, from, batches).None?
    case IdCount(got, want) =>
      && batches != [] && Answered(w, from, batches[..|batches| - 1])
      && LastAnswer(w, from, batches).Some? && got == |LastAnswer(w, from, batches).value| && want == |batches[|batches| - 1]| && got != want
    case DuplicateIds => |batches| == 1 && Answered(w, from, batches) && !Distinct(LastAnswer(w, from, batches).value)
    case IdTwice(id) =>
      && |batches| > 1 && Answered(w, from, batches[..|batches| - 1]) && LastAnswer(w, from, batches).Some?
      && var ids, got := IdsOf(w, from, batches[..|batches| - 1]), LastAnswer(w, from, batches).value;
      && Distinct(ids) && exists i | 0 <= i < |got| :: got[i] == id && id in ids + got[..i]
  }

  ghost function LastAnswer(w: Writer, from: nat, batches: seq<seq<Chunk>>): Option<seq<int>>
    requires batches != []
  {
    w(from + |batches| - 1, batches[|batches| - 1])
  }

  /** The last batch of these is the one at fault, after ids were given out for the ones before. */
  ghost predicate BatchFault(w: Writer, from: nat, batches: seq<seq<Chunk>>, ids: seq<int>, e: IngestError) {
    && batches != []
    && var front := batches[..|batches| - 1];
    && Answered(w, from, front) && Distinct(ids + IdsOf(w, from, front))
    && BatchError(ids + IdsOf(w, from, front), LastAnswer(w, from, batches), |batches[|batches| - 1]|) == Some(e)
  }

  lemma {:induction false} HandOverFaults(w: Writer, from: nat, batches: seq<seq<Chunk>>, ids: seq<int>)
    requires Distinct(ids) && HandOver(w, from, batches, ids).result.Failure?
    ensures var l := HandOver(w, from, batches, ids); BatchFault(w, from, l.batches, ids, l.result.error)
  {
    var n := |batches| - 1;
    var before := HandOver(w, from, batches[..n], ids);
    assert batches != [];
    HandOverLast(w, from, batches, ids);
    hide HandOver, IdsOf, BatchError, FirstRepeat;
    if before.result.Failure? {
      hide *;
      HandOverFaults(w, from, batches[..n], ids);
    } else {
      HandOverExactly(w, from, batches[..n], ids);
      assert batches == batches[..n] + [batches[n]];
      hide *;
      FaultAtLast(w, from, batches[..n], batches[n], ids, HandOver(w, from, batches, ids).result.error);
    }
  }

  lemma {:induction false} FaultAtLast(w: Writer, from: nat, front: seq<seq<Chunk>>, last: seq<Chunk>, ids: seq<int>, e: IngestError)
    requires Answered(w, from, front) && Distinct(ids + IdsOf(w, from, front))
    requires BatchError(ids + IdsOf(w, from, front), w(from + |front|, last), |last|) == Some(e)
    ensures BatchFault(w, from, front + [last], ids, e)
  {
    assert (front + [last])[..|front|] == front;
    hide Answered, IdsOf, BatchError, Distinct;
  }

  lemma {:induction false} HandOverLast(w: Writer, from: nat, batches: seq<seq<Chunk>>, ids: seq<int>)
    requires batches != []
    ensures var n := |batches| - 1;
            var before, l := HandOver(w, from, batches[..n], ids), HandOver(w, from, batches, ids);
            if before.result.Failure? then l == before
            else
              var answer := w(from + n, batches[n]);
              var e := BatchError(before.result.value, answer, |batches[n]|);
              && l.batches == batches && (l.result.Failure? <==> e.Some?) && (e.Some? ==> l.result.error == e.value)
  {
    hide BatchError;
  }

  /** Which error a failing load reports, and that everything before it was in order. */
  lemma {:induction false} LoadReports(w: Writer, from: nat, orgId: int, passages: seq<Passage>, ds: seq<Distractor>, record: Option<nat>)
    requires LoadingOf(w, from, orgId, passages, ds, record).result.Failure?
    ensures var l := LoadingOf(w, from, orgId, passages, ds, record);
            LoadFault(w, from, passages, ds, record, l.batches, l.result.error)
  {
    var corpus, rest := CorpusChunks(orgId, passages), Batches(orgId, ds);
    var answer := w(from, corpus);
    if RecordMismatch(|ds|, record) || FirstReserved(passages).Some? || passages == [] {
    } else if CorpusError(answer, |passages|).Some? {
      hide Batches, HandOver;
      assert [corpus][..0] == [] && Answered(w, from, [corpus][..0]);
    } else {
      var l := HandOver(w, from + 1, rest, answer.value);
      HandOverFaults(w, from + 1, rest, answer.value);
      hide CorpusChunks, Batches, HandOver;
      LaterFault(w, from, passages, ds, record, corpus, l.batches, l.result.error);
    }
  }

  lemma {:induction false} LaterFault(w: Writer, from: nat, passages: seq<Passage>, ds: seq<Distractor>, record: Option<nat>,
                                      corpus: seq<Chunk>, batches: seq<seq<Chunk>>, e: IngestError)
    requires var answer := w(from, corpus); answer.Some? && |answer.value| == |corpus| && BatchFault(w, from + 1, batches, answer.value, e)
    ensures LoadFault(w, from, passages, ds, record, [corpus] + batches, e)
  {
    var n := |batches| - 1;
    var all := [corpus] + batches;
    var front := batches[..n];
    assert all[..|all| - 1] == [corpus] + front && all[|all| - 1] == batches[n];
    AnsweredFirst(w, from, corpus, front);
    IdsOfFirst(w, from, corpus, front);
    var ids := w(from, corpus).value + IdsOf(w, from + 1, front);
    assert ids == IdsOf(w, from, all[..|all| - 1]) && LastAnswer(w, from, all) == LastAnswer(w, from + 1, batches);
    hide Answered, IdsOf, LastAnswer;
  }

  // ----- What the map is good for -----

  /** With distinct labels the map can be read backwards: no two rows share a label, and every label has its row. */
  lemma {:induction false} LabelsIdentifyRows(m: map<int, string>, ids: seq<int>, labels: seq<string>)
    requires Labelled(m, ids, labels) && Distinct(labels)
    ensures forall a, b | a in m && b in m && m[a] == m[b] :: a == b
    ensures forall l | l in labels :: exists x :: x in m && m[x] == l
    ensures |m| == |labels|
  {
    forall a, b | a in m && b in m && m[a] == m[b]
      ensures a == b
    {
      var i :| 0 <= i < |ids| && ids[i] == a;
      var j :| 0 <= j < |ids| && ids[j] == b;
      assert labels[i] == labels[j];
    }
    forall l | l in labels
      ensures exists x :: x in m && m[x] == l
    {
      var i :| 0 <= i < |labels| && labels[i] == l;
      assert ids[i] in ids && m[ids[i]] == l;
    }
    CountIds(m, ids);
  }

  lemma {:induction false} CountIds(m: map<int, string>, ids: seq<int>)
    requires Distinct(ids) && m.Keys == set x | x in ids
    ensures |m| == |ids|
  {
    if ids == [] {
      assert m.Keys == {};
    } else {
      var n := |ids| - 1;
      var id := ids[n];
      GrowDistinct(ids, n);
      assert ids[..n + 1] == ids;
      var rest := m - {id};
      assert rest.Keys == set x | x in ids[..n];
      CountIds(rest, ids[..n]);
      assert m.Keys == rest.Keys + {id};
      assert |m.Keys| == |rest.Keys| + 1;
    }
  }

  /** Corpus keys that the loader accepted, none of them reserved, and distractors it accepted never share a label. */
  lemma {:induction false} AllLabelsAreDistinct(passages: seq<Passage>, ds: seq<Distractor>)
    requires DistinctKeys(passages) && (forall p | p in passages :: !Reserved(p.key)) && DistinctPlaces(ds)
    ensures Distinct(KeysOf(passages) + LabelsOf(ds))
  {
    var a, b := KeysOf(passages), LabelsOf(ds);
    forall i, j | 0 <= i < j < |a + b|
      ensures (a + b)[i] != (a + b)[j]
    {
      if j < |a| {
        assert (a + b)[i] == a[i] && (a + b)[j] == a[j];
      } else if i < |a| {
        assert passages[i] in passages;
        DistractorKeysAreReserved(ds[j - |a|]);
        hide Key;
      } else {
        KeyIsInjective(ds[i - |a|], ds[j - |a|]);
        hide Key;
      }
    }
  }
}
