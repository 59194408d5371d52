/** Over every history of calls, model switches in one directory and damaged files, the cache answers
    exactly what the embedder would. */
module CacheLaws {
  import opened Sequences
  import opened Wrappers
  import opened Vectors
  import opened CacheModel

  predicate NulFree(s: string) {
    NUL !in s
  }

  /** Which embedder an id stands for. */
  type Catalogue = string -> Model

  // ----- The key -----

  /** With ids and kinds free of NUL, no two (id, kind, text) share a key; the text may hold anything. */
  lemma {:induction false} KeysAreDistinct(id: string, kind: string, text: string, id': string, kind': string, text': string)
    requires NulFree(id) && NulFree(kind) && NulFree(id') && NulFree(kind')
    requires Key(id, kind, text) == Key(id', kind', text')
    ensures id == id' && kind == kind' && text == text'
  {
    assert Key(id, kind, text) == id + [NUL] + (kind + [NUL] + text);
    assert Key(id', kind', text') == id' + [NUL] + (kind' + [NUL] + text');
    SplitIsUnique(id, id', NUL, kind + [NUL] + text, kind' + [NUL] + text');
    SplitIsUnique(kind, kind', NUL, text, text');
  }

  /** An id with a NUL in it collides with another id, for every kind and text. */
  lemma {:induction false} NulInAnIdCollides(left: string, right: string, kind: string, text: string)
    ensures var id := left + [NUL] + right;
            Key(id, kind, text) == Key(left, right, kind + [NUL] + text) && id != left
  {
    assert (left + [NUL] + right)[|left|] == NUL;
    assert Key(left + [NUL] + right, kind, text) == left + [NUL] + (right + [NUL] + (kind + [NUL] + text));
    assert Key(left, right, kind + [NUL] + text) == left + [NUL] + (right + [NUL] + (kind + [NUL] + text));
  }

  // ----- The files -----

  /** Each id is the id of its own model. */
  ghost predicate IsCatalogue(models: Catalogue) {
    forall id :: models(id).id == id
  }

  /** A file holds the bytes of the vector it stands for, or a prefix of them. */
  ghost predicate Good(files: Files, models: Catalogue) {
    forall id, kind, text | NulFree(id) && NulFree(kind) && Key(id, kind, text) in files ::
      FileIsGood(files, models(id), kind, text)
  }

  ghost predicate FileIsGood(files: Files, m: Model, kind: string, text: string)
  {
    Key(m.id, kind, text) in files ==>
      && |m.vector(kind, text)| == m.dimensions
      && files[Key(m.id, kind, text)] <= BytesOf(m.vector(kind, text))
  }

  /** What is loaded is what the model says. */
  lemma {:induction false} LoadIsExact(files: Files, m: Model, kind: string, text: string)
    requires FileIsGood(files, m, kind, text) && Loaded(files, m, kind, text)
    ensures Load(files, m, Key(m.id, kind, text)) == Some(m.vector(kind, text))
  {
    var key := Key(m.id, kind, text);
    assert files[key] == BytesOf(m.vector(kind, text));
    WordsOfBytes(m.vector(kind, text));
  }

  lemma {:induction false} AssembledIsExact(files: Files, models: Catalogue, m: Model, kind: string, texts: seq<string>)
    requires IsCatalogue(models) && Good(files, models) && m == models(m.id) && NulFree(m.id) && NulFree(kind)
    ensures Assembled(files, m, kind, texts) == EmbedAll(m, kind, texts)
  {
    forall i | 0 <= i < |texts|
      ensures Assembled(files, m, kind, texts)[i] == m.vector(kind, texts[i])
    {
      if Loaded(files, m, kind, texts[i]) {
        assert FileIsGood(files, models(m.id), kind, texts[i]);
        LoadIsExact(files, m, kind, texts[i]);
      }
    }
  }

  /** A call that succeeds returns what the embedder would have returned, one vector a text, in the order of the
      texts, duplicates included.  A query goes straight through and leaves the files and counters alone. */
  lemma {:induction false} CallIsTransparent(files: Files, models: Catalogue, m: Model, kind: string, texts: seq<string>, env: Env)
    requires IsCatalogue(models) && Good(files, models) && m == models(m.id) && NulFree(m.id) && NulFree(kind)
    ensures var e := Call(files, m, kind, texts, env);
            && (kind != QUERY && e.result.Success? ==> e.result.value == EmbedAll(m, kind, texts))
            && (kind == QUERY ==> e == Effect(Inner(m, kind, texts, env.inner), files, 0, 0))
  {
    AssembledIsExact(files, models, m, kind, texts);
  }

  /** Writing a prefix of the right bytes under its key keeps every file good. */
  lemma {:induction false} WriteKeepsGood(files: Files, models: Catalogue, m: Model, kind: string, text: string, b: seq<Byte>)
    requires IsCatalogue(models) && Good(files, models) && m == models(m.id) && NulFree(m.id) && NulFree(kind)
    requires |m.vector(kind, text)| == m.dimensions && b <= BytesOf(m.vector(kind, text))
    ensures Good(files[Key(m.id, kind, text) := b], models)
  {
    var after := files[Key(m.id, kind, text) := b];
    forall id, k, t | NulFree(id) && NulFree(k) && Key(id, k, t) in after
      ensures FileIsGood(after, models(id), k, t)
    {
      if Key(id, k, t) == Key(m.id, kind, text) {
        KeysAreDistinct(id, k, t, m.id, kind, text);
      } else {
        assert FileIsGood(files, models(id), k, t);
      }
    }
  }

  lemma {:induction false} FilesAfterKeepGood(files: Files, models: Catalogue, m: Model, kind: string, pending: seq<string>, n: nat)
    requires IsCatalogue(models) && Good(files, models) && m == models(m.id) && NulFree(m.id) && NulFree(kind)
    requires n <= |pending| && forall j | 0 <= j < n :: |m.vector(kind, pending[j])| == m.dimensions
    ensures Good(FilesAfter(files, m, kind, pending, n), models)
  {
    if n > 0 {
      FilesAfterKeepGood(files, models, m, kind, pending, n - 1);
      WriteKeepsGood(FilesAfter(files, m, kind, pending, n - 1), models, m, kind, pending[n - 1],
                     BytesOf(m.vector(kind, pending[n - 1])));
    }
  }

  lemma {:induction false} CallKeepsGood(files: Files, models: Catalogue, m: Model, kind: string, texts: seq<string>, env: Env)
    requires IsCatalogue(models) && Good(files, models) && m == models(m.id) && NulFree(m.id) && NulFree(kind)
    ensures Good(Call(files, m, kind, texts, env).files, models)
  {
    hide Good, IsCatalogue, Assembled;
    var pending := Pending(files, m, kind, texts);
    var failed := FirstStoreError(m, kind, pending, env.write, |pending|);
    var n := if failed.Some? then failed.value else |pending|;
    forall j | 0 <= j < n
      ensures |m.vector(kind, pending[j])| == m.dimensions
    {
      assert StoreError(m, kind, pending[j], env.write, j).None?;
    }
    FilesAfterKeepGood(files, models, m, kind, pending, n);
    if failed.Some? && env.write.CutShort? && |m.vector(kind, pending[n])| == m.dimensions {
      var b := BytesOf(m.vector(kind, pending[n]));
      var cut := if env.write.bytes < |b| then env.write.bytes else |b|;
      WriteKeepsGood(FilesAfter(files, m, kind, pending, n), models, m, kind, pending[n], b[..cut]);
    }
  }

  // ----- Histories -----

  /** What happens to one directory: calls by any embedder that shares it, and damage from outside. */
  datatype Event =
    | Called(id: string, kind: string, texts: seq<string>, env: Env)
    | Truncated(key: string, length: nat)
    | Removed(key: string)

  function After(models: Catalogue, files: Files, e: Event): Files {
    match e
    case Called(id, kind, texts, env) => Call(files, models(id), kind, texts, env).files
    case Truncated(key, length) =>
      if key in files && length < |files[key]| then files[key := files[key][..length]] else files
    case Removed(key) => files - {key}
  }

  function Replay(models: Catalogue, events: seq<Event>): Files {
    if events == [] then map[] else After(models, Replay(models, events[..|events| - 1]), events[|events| - 1])
  }

  ghost predicate NamesAreNulFree(events: seq<Event>) {
    forall e | e in events && e.Called? :: NulFree(e.id) && NulFree(e.kind)
  }

  lemma {:induction false} DamageKeepsGood(files: Files, models: Catalogue, e: Event)
    requires IsCatalogue(models) && Good(files, models) && !e.Called?
    ensures Good(After(models, files, e), models)
  {
    forall id, kind, text | NulFree(id) && NulFree(kind) && Key(id, kind, text) in After(models, files, e)
      ensures FileIsGood(After(models, files, e), models(id), kind, text)
    {
      assert FileIsGood(files, models(id), kind, text);
    }
  }

  lemma {:induction false} ReplayIsGood(models: Catalogue, events: seq<Event>)
    requires IsCatalogue(models) && NamesAreNulFree(events)
    ensures Good(Replay(models, events), models)
  {
    if events != [] {
      var n := |events| - 1;
      ReplayIsGood(models, events[..n]);
      var before, e := Replay(models, events[..n]), events[n];
      assert e in events;
      if e.Called? {
        CallKeepsGood(before, models, models(e.id), e.kind, e.texts, e.env);
      } else {
        DamageKeepsGood(before, models, e);
      }
    }
  }

  /** After any history at all, a successful call answers exactly what its own embedder would. */
  lemma {:induction false} CacheIsTransparent(models: Catalogue, events: seq<Event>, id: string, kind: string, texts: seq<string>, env: Env)
    requires IsCatalogue(models) && NamesAreNulFree(events) && NulFree(id) && NulFree(kind)
    ensures var e := Call(Replay(models, events), models(id), kind, texts, env);
            && (kind != QUERY && e.result.Success? ==> e.result.value == EmbedAll(models(id), kind, texts))
            && (kind == QUERY ==> e == Effect(Inner(models(id), kind, texts, env.inner), Replay(models, events), 0, 0))
  {
    ReplayIsGood(models, events);
    CallIsTransparent(Replay(models, events), models, models(id), kind, texts, env);
  }

  // ----- Warm cache -----

  lemma {:induction false} StoredIsLoaded(files: Files, m: Model, kind: string, pending: seq<string>, n: nat, text: string)
    requires n <= |pending| && forall j | 0 <= j < n :: |m.vector(kind, pending[j])| == m.dimensions
    requires text in pending[..n] || Loaded(files, m, kind, text)
    ensures Loaded(FilesAfter(files, m, kind, pending, n), m, kind, text)
  {
    if n > 0 {
      if text in pending[..n - 1] || Loaded(files, m, kind, text) {
        StoredIsLoaded(files, m, kind, pending, n - 1, text);
      } else {
        assert text == pending[n - 1];
      }
    }
  }

  lemma {:induction false} WarmAfterSuccess(files: Files, m: Model, kind: string, texts: seq<string>, env: Env)
    requires kind != QUERY && Call(files, m, kind, texts, env).result.Success?
    ensures forall t | t in texts :: Loaded(Call(files, m, kind, texts, env).files, m, kind, t)
  {
    var pending := Pending(files, m, kind, texts);
    SuccessfulCallFiles(files, m, kind, texts, env);
    var after := Call(files, m, kind, texts, env).files;
    hide Call, Loaded, Load, FilesAfter, Pending, Missing;
    assert pending[..|pending|] == pending;
    forall i | 0 <= i < |texts|
      ensures Loaded(after, m, kind, texts[i])
    {
      if !Loaded(files, m, kind, texts[i]) {
        PendingHolds(files, m, kind, texts, i);
      }
      StoredIsLoaded(files, m, kind, pending, |pending|, texts[i]);
    }
  }

  /** Repeating a successful call asks the embedder for nothing, whatever state the embedder is in by then. */
  lemma {:induction false} SecondCallIsAllHits(files: Files, m: Model, kind: string, texts: seq<string>, env: Env, later: Env)
    requires kind != QUERY && Call(files, m, kind, texts, env).result.Success?
    ensures var after := Call(files, m, kind, texts, env).files;
            var e := Call(after, m, kind, texts, later);
            e.result.Success? && e.files == after && e.hits == |texts| && e.misses == 0
  {
    WarmAfterSuccess(files, m, kind, texts, env);
    var after := Call(files, m, kind, texts, env).files;
    hide Loaded;
    NothingMissing(after, m, kind, texts, |texts|);
  }

  lemma {:induction false} NothingMissing(files: Files, m: Model, kind: string, texts: seq<string>, n: nat)
    requires n <= |texts| && forall t | t in texts :: Loaded(files, m, kind, t)
    ensures Missing(files, m, kind, texts, n) == []
  {
    hide Loaded;
    if n > 0 {
      NothingMissing(files, m, kind, texts, n - 1);
      assert texts[n - 1] in texts;
    }
  }

  lemma {:induction false} PendingHolds(files: Files, m: Model, kind: string, texts: seq<string>, i: nat)
    requires i < |texts| && !Loaded(files, m, kind, texts[i])
    ensures texts[i] in Pending(files, m, kind, texts)
  {
    hide Loaded;
    var missing := Missing(files, m, kind, texts, |texts|);
    var j :| 0 <= j < |missing| && missing[j] == i;
    assert Pending(files, m, kind, texts)[j] == texts[i];
  }

  lemma {:induction false} SuccessfulCallFiles(files: Files, m: Model, kind: string, texts: seq<string>, env: Env)
    requires kind != QUERY && Call(files, m, kind, texts, env).result.Success?
    ensures var pending := Pending(files, m, kind, texts);
            && Call(files, m, kind, texts, env).files == FilesAfter(files, m, kind, pending, |pending|)
            && forall j | 0 <= j < |pending| :: |m.vector(kind, pending[j])| == m.dimensions
  {
    hide Missing, Loaded, Load;
    var pending := Pending(files, m, kind, texts);
    forall j | 0 <= j < |pending|
      ensures |m.vector(kind, pending[j])| == m.dimensions
    {
      assert StoreError(m, kind, pending[j], env.write, j).None?;
    }
  }

  // ----- The counters -----

  function IsDocumentCall(e: Event, id: string): bool {
    e.Called? && e.id == id && e.kind != QUERY
  }

  /** What the counters of the embedder `id` show after a history: hits plus misses. */
  function Counted(models: Catalogue, events: seq<Event>, id: string): int {
    if events == [] then 0
    else
      var n := |events| - 1;
      var e := events[n];
      Counted(models, events[..n], id) +
      if e.Called? && e.id == id then
        var c := Call(Replay(models, events[..n]), models(id), e.kind, e.texts, e.env);
        c.hits + c.misses
      else 0
  }

  /** The document texts that successful calls served. */
  function Served(models: Catalogue, events: seq<Event>, id: string): int {
    if events == [] then 0
    else
      var n := |events| - 1;
      var e := events[n];
      Served(models, events[..n], id) +
      if IsDocumentCall(e, id) && Call(Replay(models, events[..n]), models(id), e.kind, e.texts, e.env).result.Success? then
        |e.texts|
      else 0
  }

  /** A failed call has already counted what it loaded and what it stored. */
  predicate CountsNothing(files: Files, m: Model, kind: string, texts: seq<string>, env: Env) {
    var pending := Pending(files, m, kind, texts);
    && |pending| == |texts|
    && (env.inner.Unavailable?
        || (env.inner.WrongCount? && |env.inner.vectors| != |pending|)
        || (pending != [] && StoreError(m, kind, pending[0], env.write, 0).Some?))
  }

  /** A successful document call counts each of its texts once; a failed one counts none exactly if the cache
      held none of them and the embedder or the very first write failed. */
  lemma {:induction false} CallCounts(files: Files, m: Model, kind: string, texts: seq<string>, env: Env)
    requires kind != QUERY
    ensures var e := Call(files, m, kind, texts, env);
            && e.hits >= 0 && e.misses >= 0
            && (e.result.Success? ==> e.hits + e.misses == |texts|)
            && (e.result.Failure? ==> (e.hits + e.misses == 0 <==> CountsNothing(files, m, kind, texts, env)))
  {
    var pending := Pending(files, m, kind, texts);
    var failed := FirstStoreError(m, kind, pending, env.write, |pending|);
    if failed.Some? && pending != [] {
      assert failed.value == 0 <==> StoreError(m, kind, pending[0], env.write, 0).Some?;
    }
  }

  predicate FailureIsSilent(models: Catalogue, events: seq<Event>, id: string, k: nat)
    requires k < |events|
  {
    var files, e := Replay(models, events[..k]), events[k];
    IsDocumentCall(e, id) && Call(files, models(id), e.kind, e.texts, e.env).result.Failure? ==>
      CountsNothing(files, models(id), e.kind, e.texts, e.env)
  }

  /** Hits plus misses are at least the document texts served by successful calls, and equal to them exactly if
      no failed call had loaded or stored anything before it failed. */
  lemma {:induction false} CountersMatch(models: Catalogue, events: seq<Event>, id: string)
    ensures Counted(models, events, id) >= Served(models, events, id)
    ensures Counted(models, events, id) == Served(models, events, id)
            <==> forall k | 0 <= k < |events| :: FailureIsSilent(models, events, id, k)
  {
    if events != [] {
      hide *;
      var n := |events| - 1;
      CountersMatch(models, events[..n], id);
      LastEventCounts(models, events, id);
      forall k | 0 <= k < n
        ensures FailureIsSilent(models, events[..n], id, k) == FailureIsSilent(models, events, id, k)
      {
        EarlierFailure(models, events, id, n, k);
      }
    }
  }

  lemma {:induction false} EarlierFailure(models: Catalogue, events: seq<Event>, id: string, n: nat, k: nat)
    requires k < n <= |events|
    ensures FailureIsSilent(models, events[..n], id, k) == FailureIsSilent(models, events, id, k)
  {
    assert events[..n][k] == events[k] && events[..n][..k] == events[..k];
    hide Replay, Call, CountsNothing;
  }

  lemma {:induction false} LastEventCounts(models: Catalogue, events: seq<Event>, id: string)
    requires events != []
    ensures var n := |events| - 1;
            var more := Counted(models, events, id) - Counted(models, events[..n], id);
            var served := Served(models, events, id) - Served(models, events[..n], id);
            more >= served && (more == served <==> FailureIsSilent(models, events, id, n))
  {
    var n := |events| - 1;
    var files, e := Replay(models, events[..n]), events[n];
    if IsDocumentCall(e, id) {
      CallCounts(files, models(id), e.kind, e.texts, e.env);
    }
    hide CountsNothing, Replay;
  }

  /** The equality does fail: a call whose first text is in the cache counts a hit, and then the embedder is down. */
  lemma {:induction false} FailedCallStillCounts(models: Catalogue, id: string, a: string, b: string)
    requires IsCatalogue(models) && NulFree(id) && a != b && |models(id).vector("document", a)| == models(id).dimensions
    ensures var events := [Called(id, "document", [a], Env(Honest, AllWritten)),
                           Called(id, "document", [a, b], Env(Unavailable, AllWritten))];
            Served(models, events, id) == 1 && Counted(models, events, id) == 2
  {
    var first := Called(id, "document", [a], Env(Honest, AllWritten));
    var second := Called(id, "document", [a, b], Env(Unavailable, AllWritten));
    assert [first, second][..1] == [first] && [first][..0] == [];
    var files := Replay(models, [first]);
    assert Replay(models, []) == map[];
    assert files == Call(map[], models(id), "document", [a], Env(Honest, AllWritten)).files;
    OneTextCall(models(id), a, b);
    HalfServedCall(files, models(id), a, b);
    hide Call;
    assert Counted(models, [], id) == Served(models, [], id) == 0;
    assert Counted(models, [first], id) == Served(models, [first], id) == 1;
  }

  /** On an empty cache a call for one text asks the embedder for it, and stores nothing else. */
  lemma {:induction false} OneTextCall(m: Model, a: string, b: string)
    requires NulFree(m.id) && a != b && |m.vector("document", a)| == m.dimensions
    ensures var e := Call(map[], m, "document", [a], Env(Honest, AllWritten));
            && e.result.Success? && e.hits == 0 && e.misses == 1
            && Loaded(e.files, m, "document", a) && !Loaded(e.files, m, "document", b)
  {
    var env := Env(Honest, AllWritten);
    assert Missing(map[], m, "document", [a], 0) == [];
    assert Missing(map[], m, "document", [a], 1) == [0];
    assert Pending(map[], m, "document", [a]) == [a];
    FirstStoreOfOne(m, a);
    assert FilesAfter(map[], m, "document", [a], 0) == map[];
    var e := Call(map[], m, "document", [a], env);
    assert e.files == map[Key(m.id, "document", a) := BytesOf(m.vector("document", a))];
    hide Call, Missing, Pending, FilesAfter, FirstStoreError;
    OneFileLoads(m, a, b);
  }

  lemma {:induction false} OneFileLoads(m: Model, a: string, b: string)
    requires NulFree(m.id) && a != b && |m.vector("document", a)| == m.dimensions
    ensures var files := map[Key(m.id, "document", a) := BytesOf(m.vector("document", a))];
            Loaded(files, m, "document", a) && !Loaded(files, m, "document", b)
  {
    if Key(m.id, "document", a) == Key(m.id, "document", b) {
      KeysAreDistinct(m.id, "document", a, m.id, "document", b);
    }
    hide Key;
  }

  lemma {:induction false} FirstStoreOfOne(m: Model, a: string)
    requires |m.vector("document", a)| == m.dimensions
    ensures FirstStoreError(m, "document", [a], AllWritten, 1).None?
  {
    assert FirstStoreError(m, "document", [a], AllWritten, 0).None?;
  }

  lemma {:induction false} HalfServedCall(files: Files, m: Model, a: string, b: string)
    requires Loaded(files, m, "document", a) && !Loaded(files, m, "document", b)
    ensures var e := Call(files, m, "document", [a, b], Env(Unavailable, AllWritten));
            e.result.Failure? && e.hits == 1 && e.misses == 0
  {
    hide Loaded;
    assert Missing(files, m, "document", [a, b], 0) == [];
    assert Missing(files, m, "document", [a, b], 1) == [];
    assert Missing(files, m, "document", [a, b], 2) == [1];
  }
}
