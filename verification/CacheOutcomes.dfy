/** When a call through the embedding cache succeeds, which error it reports otherwise, what it counts, and what the
    files hold afterwards, told on the files themselves. */
module CacheOutcomes {
  import opened Sequences
  import opened Wrappers
  import opened Vectors
  import opened CacheModel
  import opened CacheLaws

  /** Served from its file: there is one under embedder id, kind and text, with four bytes for each dimension. */
  predicate IsCached(files: Files, m: Model, kind: string, text: string) {
    var name := m.id + ['\0'] + kind + ['\0'] + text;
    name in files && |files[name]| == 4 * m.dimensions
  }

  /** `asked` are the positions of the texts that are not cached, in order. */
  ghost predicate AreAsked(files: Files, m: Model, kind: string, texts: seq<string>, asked: seq<nat>) {
    && Increasing(asked)
    && (forall j | 0 <= j < |asked| :: asked[j] < |texts| && !IsCached(files, m, kind, texts[asked[j]]))
    && (forall i | 0 <= i < |texts| && !IsCached(files, m, kind, texts[i]) :: i in asked)
  }

  lemma {:induction false} CachedIsLoaded(files: Files, m: Model, kind: string, text: string)
    ensures IsCached(files, m, kind, text) <==> Loaded(files, m, kind, text)
  {
  }

  ghost predicate Increasing(l: seq<nat>) {
    forall j, k | 0 <= j < k < |l| :: l[j] < l[k]
  }

  lemma {:induction false} IncreasingAppend(l: seq<nat>, n: nat)
    requires Increasing(l) && forall j | 0 <= j < |l| :: l[j] < n
    ensures Increasing(l + [n])
  {
  }

  lemma {:induction false} MissingIncreases(files: Files, m: Model, kind: string, texts: seq<string>, n: nat)
    requires n <= |texts|
    ensures Increasing(Missing(files, m, kind, texts, n))
  {
    hide Loaded, Increasing;
    if n > 0 {
      MissingIncreases(files, m, kind, texts, n - 1);
      IncreasingAppend(Missing(files, m, kind, texts, n - 1), n - 1);
    } else {
      NothingIncreases();
    }
  }

  lemma {:induction false} NothingIncreases()
    ensures Increasing([])
  {
  }

  /** What a call asks the embedder for: exactly the texts that are not cached, in the order of the call. */
  lemma {:induction false} MissingAreAsked(files: Files, m: Model, kind: string, texts: seq<string>)
    ensures AreAsked(files, m, kind, texts, Missing(files, m, kind, texts, |texts|))
  {
    MissingIncreases(files, m, kind, texts, |texts|);
    forall text
      ensures IsCached(files, m, kind, text) <==> Loaded(files, m, kind, text)
    {
      CachedIsLoaded(files, m, kind, text);
    }
    hide Loaded, IsCached, Missing;
  }

  /** That leaves no choice. */
  lemma {:induction false} AskedIsUnique(files: Files, m: Model, kind: string, texts: seq<string>, a: seq<nat>, b: seq<nat>)
    requires AreAsked(files, m, kind, texts, a) && AreAsked(files, m, kind, texts, b)
    ensures a == b
  {
    hide IsCached;
    forall i
      ensures i in a <==> i in b
    {
    }
    IncreasingIsUnique(a, b);
  }

  /** The j-th answer of a call is stored without an error. */
  predicate IsStored(m: Model, kind: string, texts: seq<string>, asked: seq<nat>, write: WriteFault, j: nat)
    requires j < |asked| && asked[j] < |texts|
  {
    |m.vector(kind, texts[asked[j]])| == m.dimensions && (write == AllWritten || write.at != j)
  }

  lemma {:induction false} PendingAt(files: Files, m: Model, kind: string, texts: seq<string>)
    ensures var asked, pending := Missing(files, m, kind, texts, |texts|), Pending(files, m, kind, texts);
            |pending| == |asked| && forall j | 0 <= j < |asked| :: asked[j] < |texts| && pending[j] == texts[asked[j]]
  {
    hide Missing, Loaded;
  }

  lemma {:induction false} StoredMeans(m: Model, kind: string, texts: seq<string>, asked: seq<nat>, pending: seq<string>, write: WriteFault)
    requires |pending| == |asked| && forall j | 0 <= j < |asked| :: asked[j] < |texts| && pending[j] == texts[asked[j]]
    ensures forall j | 0 <= j < |asked| ::
              StoreError(m, kind, pending[j], write, j).None? <==> IsStored(m, kind, texts, asked, write, j)
  {
  }

  /** The outcome of asking for these texts, in terms of the first one that cannot be stored. */
  lemma {:induction false} FillOutcome(files: Files, m: Model, kind: string, texts: seq<string>, env: Env)
    ensures var pending, e := Pending(files, m, kind, texts), FillEffect(files, m, kind, texts, env);
            && e.hits == |texts| - |pending|
            && if env.inner.Unavailable? then e.result == Failure(InnerFailed) && e.files == files && e.misses == 0
               else if env.inner.WrongCount? && |env.inner.vectors| != |pending| then
                 e.result == Failure(CountMismatch(|env.inner.vectors|, |pending|)) && e.files == files && e.misses == 0
               else
                 var failed := FirstStoreError(m, kind, pending, env.write, |pending|);
                 if failed.None? then
                   && e.result.Success? && |e.result.value| == |texts| && e.misses == |pending|
                   && e.files == FilesAfter(files, m, kind, pending, |pending|)
                 else
                   var j := failed.value;
                   && e.misses == j && e.result == Failure(StoreError(m, kind, pending[j], env.write, j).value)
                   && e.files == Torn(FilesAfter(files, m, kind, pending, j), m, kind, pending[j], env.write)
  {
    hide Pending, FirstStoreError, StoreError, FilesAfter, Torn;
  }

  lemma {:induction false} AskedTexts(files: Files, m: Model, kind: string, texts: seq<string>, asked: seq<nat>)
    requires AreAsked(files, m, kind, texts, asked)
    ensures var pending := Pending(files, m, kind, texts);
            |pending| == |asked| && forall j | 0 <= j < |asked| :: asked[j] < |texts| && pending[j] == texts[asked[j]]
  {
    MissingAreAsked(files, m, kind, texts);
    AskedIsUnique(files, m, kind, texts, asked, Missing(files, m, kind, texts, |texts|));
    PendingAt(files, m, kind, texts);
  }

  /** A document call succeeds if and only if everything is cached, or the embedder answers with one vector per text
      it is asked for and every one of them is stored; then every text is counted, as a hit if it was cached. */
  lemma {:induction false} CallSucceedsExactly(files: Files, m: Model, kind: string, texts: seq<string>, env: Env, asked: seq<nat>)
    requires kind != "query" && AreAsked(files, m, kind, texts, asked)
    ensures var e := Call(files, m, kind, texts, env);
            && (e.result.Success? <==>
                || asked == []
                || (&& !env.inner.Unavailable? && (env.inner.WrongCount? ==> |env.inner.vectors| == |asked|)
                    && forall j | 0 <= j < |asked| :: asked[j] < |texts| && IsStored(m, kind, texts, asked, env.write, j)))
            && (e.result.Success? ==> |e.result.value| == |texts| && e.hits == |texts| - |asked| && e.misses == |asked|)
  {
    AskedTexts(files, m, kind, texts, asked);
    FillOutcome(files, m, kind, texts, env);
    StoredMeans(m, kind, texts, asked, Pending(files, m, kind, texts), env.write);
    hide Pending, AreAsked, FilesAfter, Torn, FillEffect, IsStored, StoreError, FirstStoreError;
  }

  /** What a failed document call reports: the embedder's failure, an answer of the wrong length, or the first vector
      that could not be stored. */
  ghost predicate Reports(m: Model, kind: string, texts: seq<string>, env: Env, asked: seq<nat>, n: nat, error: CacheError) {
    match error
    case InnerFailed => env.inner.Unavailable? && n == 0
    case CountMismatch(got, want) =>
      env.inner.WrongCount? && got == |env.inner.vectors| && want == |asked| && got != want && n == 0
    case VectorSize(got, want) =>
      && n < |asked| && asked[n] < |texts| && got == |m.vector(kind, texts[asked[n]])| && want == m.dimensions && got != want
      && StoredBefore(m, kind, texts, env, asked, n)
    case WriteFailed =>
      && n < |asked| && asked[n] < |texts| && |m.vector(kind, texts[asked[n]])| == m.dimensions
      && !env.write.AllWritten? && env.write.at == n
      && StoredBefore(m, kind, texts, env, asked, n)
  }

  ghost predicate StoredBefore(m: Model, kind: string, texts: seq<string>, env: Env, asked: seq<nat>, n: nat)
    requires n <= |asked|
  {
    forall j | 0 <= j < n :: asked[j] < |texts| && IsStored(m, kind, texts, asked, env.write, j)
  }

  lemma {:induction false} ErrorMeans(m: Model, kind: string, text: string, write: WriteFault, j: nat)
    requires StoreError(m, kind, text, write, j).Some?
    ensures var e, v := StoreError(m, kind, text, write, j).value, m.vector(kind, text);
            || (e == VectorSize(|v|, m.dimensions) && |v| != m.dimensions)
            || (e == WriteFailed && |v| == m.dimensions && !write.AllWritten? && write.at == j)
  {
  }

  lemma {:induction false} StoreReports(m: Model, kind: string, texts: seq<string>, env: Env, asked: seq<nat>, pending: seq<string>)
    requires |pending| == |asked| && forall j | 0 <= j < |asked| :: asked[j] < |texts| && pending[j] == texts[asked[j]]
    requires FirstStoreError(m, kind, pending, env.write, |pending|).Some?
    ensures var j := FirstStoreError(m, kind, pending, env.write, |pending|).value;
            Reports(m, kind, texts, env, asked, j, StoreError(m, kind, pending[j], env.write, j).value)
  {
    var j := FirstStoreError(m, kind, pending, env.write, |pending|).value;
    StoredMeans(m, kind, texts, asked, pending, env.write);
    ErrorMeans(m, kind, pending[j], env.write, j);
    hide StoreError, IsStored;
  }

  /** Every failed document call reports the first thing that went wrong; what was cached counts as a hit, what was
      stored before as a miss. */
  lemma {:induction false} CallReports(files: Files, m: Model, kind: string, texts: seq<string>, env: Env, asked: seq<nat>)
    requires kind != "query" && AreAsked(files, m, kind, texts, asked) && Call(files, m, kind, texts, env).result.Failure?
    ensures var e := Call(files, m, kind, texts, env);
            && e.hits == |texts| - |asked| && 0 <= e.misses < |asked|
            && Reports(m, kind, texts, env, asked, e.misses, e.result.error)
  {
    AskedTexts(files, m, kind, texts, asked);
    FillOutcome(files, m, kind, texts, env);
    var pending := Pending(files, m, kind, texts);
    assert pending != [] && Call(files, m, kind, texts, env) == FillEffect(files, m, kind, texts, env);
    if FirstStoreError(m, kind, pending, env.write, |pending|).Some? {
      StoreReports(m, kind, texts, env, asked, pending);
    }
    hide *;
    if env.inner.Unavailable? {
      AnswerReports(m, kind, texts, env, asked, InnerFailed);
    } else if env.inner.WrongCount? && |env.inner.vectors| != |pending| {
      AnswerReports(m, kind, texts, env, asked, CountMismatch(|env.inner.vectors|, |asked|));
    }
  }

  lemma {:induction false} AnswerReports(m: Model, kind: string, texts: seq<string>, env: Env, asked: seq<nat>, error: CacheError)
    requires || (env.inner.Unavailable? && error == InnerFailed)
             || (env.inner.WrongCount? && |env.inner.vectors| != |asked| && error == CountMismatch(|env.inner.vectors|, |asked|))
    ensures Reports(m, kind, texts, env, asked, 0, error)
  {
  }

  function NameOf(m: Model, kind: string, text: string): string {
    m.id + ['\0'] + kind + ['\0'] + text
  }

  lemma {:induction false} NamesDiffer(m: Model, kind: string, a: string, b: string)
    ensures NameOf(m, kind, a) == NameOf(m, kind, b) ==> a == b
    ensures NameOf(m, kind, a) == Key(m.id, kind, a)
  {
    var n := |m.id| + 1 + |kind| + 1;
    assert NameOf(m, kind, a)[n..] == a && NameOf(m, kind, b)[n..] == b;
  }

  /** The first n answers are in their files, and no other file has changed. */
  lemma {:induction false} WrittenFiles(files: Files, m: Model, kind: string, pending: seq<string>, n: nat, name: string)
    requires n <= |pending|
    ensures var after := FilesAfter(files, m, kind, pending, n);
            && (forall j | 0 <= j < n && name == NameOf(m, kind, pending[j]) ::
                  name in after && after[name] == BytesOf(m.vector(kind, pending[j])))
            && ((forall j | 0 <= j < n :: name != NameOf(m, kind, pending[j])) ==>
                  (name in after <==> name in files) && (name in files ==> after[name] == files[name]))
  {
    if n > 0 {
      WrittenFiles(files, m, kind, pending, n - 1, name);
      NamesDiffer(m, kind, pending[n - 1], pending[n - 1]);
      hide FilesAfter, NameOf, Key, BytesOf;
      assert FilesAfter(files, m, kind, pending, n) ==
             FilesAfter(files, m, kind, pending, n - 1)[Key(m.id, kind, pending[n - 1]) := BytesOf(m.vector(kind, pending[n - 1]))] by {
        UnfoldFiles(files, m, kind, pending, n);
      }
      forall j | 0 <= j < n && name == NameOf(m, kind, pending[j])
        ensures name == NameOf(m, kind, pending[n - 1]) ==> pending[j] == pending[n - 1]
      {
        NamesDiffer(m, kind, pending[j], pending[n - 1]);
      }
    }
  }

  lemma {:induction false} UnfoldFiles(files: Files, m: Model, kind: string, pending: seq<string>, n: nat)
    requires 0 < n <= |pending|
    ensures FilesAfter(files, m, kind, pending, n) ==
            FilesAfter(files, m, kind, pending, n - 1)[Key(m.id, kind, pending[n - 1]) := BytesOf(m.vector(kind, pending[n - 1]))]
  {
  }

  /** After a successful call every text it asked for has its bytes in its file, and every other file is as before. */
  lemma {:induction false} SuccessWrites(files: Files, m: Model, kind: string, texts: seq<string>, env: Env, asked: seq<nat>, name: string)
    requires kind != "query" && AreAsked(files, m, kind, texts, asked) && Call(files, m, kind, texts, env).result.Success?
    ensures forall j | 0 <= j < |asked| :: asked[j] < |texts|
    ensures var after := Call(files, m, kind, texts, env).files;
            && (forall j | 0 <= j < |asked| && name == NameOf(m, kind, texts[asked[j]]) ::
                  name in after && after[name] == BytesOf(m.vector(kind, texts[asked[j]])))
            && ((forall j | 0 <= j < |asked| :: name != NameOf(m, kind, texts[asked[j]])) ==>
                  (name in after <==> name in files) && (name in files ==> after[name] == files[name]))
  {
    AskedTexts(files, m, kind, texts, asked);
    SuccessfulCallFiles(files, m, kind, texts, env);
    var pending := Pending(files, m, kind, texts);
    hide *;
    WrittenFiles(files, m, kind, pending, |pending|, name);
  }

  lemma {:induction false} TornFile(files: Files, m: Model, kind: string, text: string, write: WriteFault, name: string)
    ensures var after, b := Torn(files, m, kind, text, write), BytesOf(m.vector(kind, text));
            if write.CutShort? && |m.vector(kind, text)| == m.dimensions && name == NameOf(m, kind, text)
            then name in after && after[name] == b[..if write.bytes < |b| then write.bytes else |b|]
            else (name in after <==> name in files) && (name in files ==> after[name] == files[name])
  {
    NamesDiffer(m, kind, text, text);
    hide NameOf, Key, BytesOf;
  }

  /** What a failed store after n others leaves under a name. */
  ghost predicate Leaves(files: Files, after: Files, m: Model, kind: string, pending: seq<string>, n: nat, write: WriteFault, name: string)
    requires n < |pending|
  {
    if write.CutShort? && |m.vector(kind, pending[n])| == m.dimensions && name == NameOf(m, kind, pending[n]) then
      var b := BytesOf(m.vector(kind, pending[n]));
      name in after && after[name] == b[..if write.bytes < |b| then write.bytes else |b|]
    else
      && (forall j | 0 <= j < n && name == NameOf(m, kind, pending[j]) ::
            name in after && after[name] == BytesOf(m.vector(kind, pending[j])))
      && ((forall j | 0 <= j < n :: name != NameOf(m, kind, pending[j])) ==>
            (name in after <==> name in files) && (name in files ==> after[name] == files[name]))
  }

  lemma {:induction false} StoreLeaves(files: Files, m: Model, kind: string, pending: seq<string>, n: nat, write: WriteFault, name: string)
    requires n < |pending|
    ensures Leaves(files, Torn(FilesAfter(files, m, kind, pending, n), m, kind, pending[n], write), m, kind, pending, n, write, name)
  {
    WrittenFiles(files, m, kind, pending, n, name);
    TornFile(FilesAfter(files, m, kind, pending, n), m, kind, pending[n], write, name);
    hide FilesAfter, Torn, NameOf, BytesOf;
  }

  /** A call that could not store a vector has stored what it counted as misses; a write that was cut short leaves the
      front of the bytes in its file; no other file has changed.  Any other failed call changes no file. */
  lemma {:induction false} FailureWrites(files: Files, m: Model, kind: string, texts: seq<string>, env: Env, asked: seq<nat>,
                                         pending: seq<string>, name: string)
    requires kind != "query" && AreAsked(files, m, kind, texts, asked) && Call(files, m, kind, texts, env).result.Failure?
    requires |pending| == |asked| && forall j | 0 <= j < |asked| :: asked[j] < |texts| && pending[j] == texts[asked[j]]
    ensures var e := Call(files, m, kind, texts, env);
            if e.result.error.VectorSize? || e.result.error.WriteFailed?
            then 0 <= e.misses < |pending| && Leaves(files, e.files, m, kind, pending, e.misses, env.write, name)
            else e.files == files
  {
    AskedTexts(files, m, kind, texts, asked);
    FillOutcome(files, m, kind, texts, env);
    assert pending == Pending(files, m, kind, texts);
    assert pending != [] && Call(files, m, kind, texts, env) == FillEffect(files, m, kind, texts, env);
    var failed := FirstStoreError(m, kind, pending, env.write, |pending|);
    if failed.Some? {
      ErrorMeans(m, kind, pending[failed.value], env.write, failed.value);
      StoreLeaves(files, m, kind, pending, failed.value, env.write, name);
    }
    hide *;
  }

  /** A query goes through: the embedder's answer or failure as it is, no file read or written, nothing counted. */
  lemma {:induction false} QueriesPassThrough(files: Files, m: Model, texts: seq<string>, env: Env)
    ensures var e := Call(files, m, "query", texts, env);
            && e.files == files && e.hits == 0 && e.misses == 0
            && (env.inner.Unavailable? ==> e.result == Failure(InnerFailed))
            && (env.inner.Honest? ==> e.result.Success? && |e.result.value| == |texts|
                                      && forall i | 0 <= i < |texts| :: e.result.value[i] == m.vector("query", texts[i]))
            && (env.inner.WrongCount? && |env.inner.vectors| != |texts| ==> e.result == Success(env.inner.vectors))
  {
  }

  /** Damage from outside touches one file: it is gone, or cut to a length it exceeds. */
  lemma {:induction false} DamageTouchesOneFile(models: Catalogue, files: Files, key: string, length: nat, name: string)
    ensures key !in After(models, files, Removed(key))
    ensures key in files && length < |files[key]| ==>
              key in After(models, files, Truncated(key, length)) && After(models, files, Truncated(key, length))[key] == files[key][..length]
    ensures name != key || !(key in files && length < |files[key]|) ==>
              var after := After(models, files, Truncated(key, length));
              (name in after <==> name in files) && (name in files ==> after[name] == files[name])
    ensures name != key ==>
              var after := After(models, files, Removed(key));
              (name in after <==> name in files) && (name in files ==> after[name] == files[name])
  {
  }
}
