/** The embedding cache of the evaluation harness: what one call does to the files and the counters, and
    that over every history nobody can tell the cache from the embedder it wraps.

    A file is found by the text that is hashed into its name; distinct texts are taken to have distinct
    hashes.  Vectors are lists of 32-bit patterns.
 */
module CacheModel {
  import opened Wrappers
  import opened Vectors

  type Vec = seq<Word>
  type Files = map<string, seq<Byte>>

  const NUL := '\0'
  const QUERY := "query"

  /** A deterministic embedder. */
  datatype Model = Model(id: string, dimensions: nat, vector: (string, string) -> Vec)

  datatype InnerFault = Honest | Unavailable | WrongCount(vectors: seq<Vec>)

  /** The write that fails, counted within one call: before the file is touched, or after some bytes. */
  datatype WriteFault = AllWritten | NotOpened(at: nat) | CutShort(at: nat, bytes: nat)

  datatype Env = Env(inner: InnerFault, write: WriteFault)

  datatype CacheError =
    | InnerFailed
    | CountMismatch(got: nat, want: nat)
    | VectorSize(got: nat, want: nat)
    | WriteFailed

  function EmbedAll(m: Model, kind: string, texts: seq<string>): (v: seq<Vec>)
    ensures |v| == |texts| && forall i | 0 <= i < |texts| :: v[i] == m.vector(kind, texts[i])
  {
    seq(|texts|, i requires 0 <= i < |texts| => m.vector(kind, texts[i]))
  }

  /** What the wrapped embedder answers. */
  function Inner(m: Model, kind: string, texts: seq<string>, fault: InnerFault): Result<seq<Vec>, CacheError> {
    match fault
    case Honest => Success(EmbedAll(m, kind, texts))
    case Unavailable => Failure(InnerFailed)
    case WrongCount(vectors) => Success(if |vectors| == |texts| then EmbedAll(m, kind, texts) else vectors)
  }

  function Key(id: string, kind: string, text: string): string {
    id + [NUL] + kind + [NUL] + text
  }

  /** A file of any other length than the embedder's is as good as no file. */
  function Load(files: Files, m: Model, key: string): Option<Vec> {
    if key in files && |files[key]| == m.dimensions * WORD_BYTES then Some(WordsOf(files[key])) else None
  }

  function Loaded(files: Files, m: Model, kind: string, text: string): bool {
    Load(files, m, Key(m.id, kind, text)).Some?
  }

  /** The positions, among the first n, that the cache cannot serve. */
  function Missing(files: Files, m: Model, kind: string, texts: seq<string>, n: nat): (l: seq<nat>)
    requires n <= |texts|
    ensures |l| <= n
    ensures forall j | 0 <= j < |l| :: l[j] < n && !Loaded(files, m, kind, texts[l[j]])
    ensures forall i | 0 <= i < n && !Loaded(files, m, kind, texts[i]) :: i in l
  {
    if n == 0 then []
    else
      var before := Missing(files, m, kind, texts, n - 1);
      if Loaded(files, m, kind, texts[n - 1]) then before else before + [n - 1]
  }

  function TextsAt(texts: seq<string>, at: seq<nat>): (p: seq<string>)
    requires forall j | 0 <= j < |at| :: at[j] < |texts|
    ensures |p| == |at| && forall j | 0 <= j < |at| :: p[j] == texts[at[j]]
  {
    seq(|at|, j requires 0 <= j < |at| => texts[at[j]])
  }

  function Pending(files: Files, m: Model, kind: string, texts: seq<string>): seq<string> {
    TextsAt(texts, Missing(files, m, kind, texts, |texts|))
  }

  function StoreError(m: Model, kind: string, text: string, write: WriteFault, j: nat): Option<CacheError> {
    var v := m.vector(kind, text);
    if |v| != m.dimensions then Some(VectorSize(|v|, m.dimensions))
    else if !write.AllWritten? && write.at == j then Some(WriteFailed)
    else None
  }

  function FirstStoreError(m: Model, kind: string, pending: seq<string>, write: WriteFault, n: nat): (r: Option<nat>)
    requires n <= |pending|
    ensures r.Some? ==> r.value < n && StoreError(m, kind, pending[r.value], write, r.value).Some?
    ensures var k := if r.Some? then r.value else n;
            forall j | 0 <= j < k :: StoreError(m, kind, pending[j], write, j).None?
  {
    if n == 0 then None
    else
      var before := FirstStoreError(m, kind, pending, write, n - 1);
      if before.Some? then before
      else if StoreError(m, kind, pending[n - 1], write, n - 1).Some? then Some(n - 1)
      else None
  }

  function FilesAfter(files: Files, m: Model, kind: string, pending: seq<string>, n: nat): Files
    requires n <= |pending|
  {
    if n == 0 then files
    else
      FilesAfter(files, m, kind, pending, n - 1)[Key(m.id, kind, pending[n - 1]) := BytesOf(m.vector(kind, pending[n - 1]))]
  }

  /** What a failed store leaves of its file. */
  function Torn(files: Files, m: Model, kind: string, text: string, write: WriteFault): Files {
    var v := m.vector(kind, text);
    if write.CutShort? && |v| == m.dimensions then
      var b := BytesOf(v);
      files[Key(m.id, kind, text) := b[..if write.bytes < |b| then write.bytes else |b|]]
    else files
  }

  /** The vectors of a call: from the file where there is one, else from the embedder. */
  function Assembled(files: Files, m: Model, kind: string, texts: seq<string>): (v: seq<Vec>)
    ensures |v| == |texts|
  {
    seq(|texts|, i requires 0 <= i < |texts| =>
      var hit := Load(files, m, Key(m.id, kind, texts[i]));
      if hit.Some? then hit.value else m.vector(kind, texts[i]))
  }

  datatype Effect = Effect(result: Result<seq<Vec>, CacheError>, files: Files, hits: int, misses: int)

  /** What asking the embedder for the missing texts and writing them comes to; everything else was a hit. */
  function FillEffect(files: Files, m: Model, kind: string, texts: seq<string>, env: Env): Effect {
    var pending := Pending(files, m, kind, texts);
    var hits := |texts| - |pending|;
    var answer := Inner(m, kind, pending, env.inner);
    if answer.Failure? then Effect(Failure(answer.error), files, hits, 0)
    else if |answer.value| != |pending| then
      Effect(Failure(CountMismatch(|answer.value|, |pending|)), files, hits, 0)
    else
      var failed := FirstStoreError(m, kind, pending, env.write, |pending|);
      if failed.None? then
        Effect(Success(Assembled(files, m, kind, texts)), FilesAfter(files, m, kind, pending, |pending|), hits, |pending|)
      else
        var j := failed.value;
        var error := StoreError(m, kind, pending[j], env.write, j).value;
        Effect(Failure(error), Torn(FilesAfter(files, m, kind, pending, j), m, kind, pending[j], env.write), hits, j)
  }

  /** One call of Embed: the result, the files afterwards, and what it adds to the two counters. */
  function Call(files: Files, m: Model, kind: string, texts: seq<string>, env: Env): Effect {
    if kind == QUERY then Effect(Inner(m, kind, texts, env.inner), files, 0, 0)
    else if Pending(files, m, kind, texts) == [] then Effect(Success(Assembled(files, m, kind, texts)), files, |texts|, 0)
    else FillEffect(files, m, kind, texts, env)
  }
}

/** The cache as the object the harness holds. */
module EmbedCache {
  import opened Wrappers
  import opened Vectors
  import opened CacheModel

  class Directory {
    var files: Files

    constructor ()
      ensures files == map[]
    {
      files := map[];
    }
  }

  class CachingEmbedder {
    const inner: Model
    const dir: Directory
    var hits: nat
    var misses: nat

    constructor (inner: Model, dir: Directory)
      ensures this.inner == inner && this.dir == dir && hits == 0 && misses == 0
    {
      this.inner, this.dir, hits, misses := inner, dir, 0, 0;
    }

    method Embed(texts: seq<string>, kind: string, env: Env) returns (r: Result<seq<Vec>, CacheError>)
      modifies this`hits, this`misses, dir
      ensures Effect(r, dir.files, hits - old(hits), misses - old(misses)) == Call(old(dir.files), inner, kind, texts, env)
    {
      hide FillEffect, Load, Key;
      if kind == QUERY {
        return Inner(inner, kind, texts, env.inner);
      }
      var vectors, missing := FromCache(texts, kind);
      if |missing| == 0 {
        assert vectors[..] == Assembled(dir.files, inner, kind, texts);
        return Success(vectors[..]);
      }
      r := Fill(texts, kind, vectors, missing, env);
    }

    /** Fills what the files hold and reports the positions of the rest. */
    method FromCache(texts: seq<string>, kind: string) returns (vectors: array<Vec>, missing: seq<nat>)
      modifies this`hits
      ensures fresh(vectors) && vectors.Length == |texts|
      ensures missing == Missing(dir.files, inner, kind, texts, |texts|)
      ensures hits == old(hits) + |texts| - |missing|
      ensures forall i | 0 <= i < |texts| && Loaded(dir.files, inner, kind, texts[i]) ::
                vectors[i] == Load(dir.files, inner, Key(inner.id, kind, texts[i])).value
    {
      hide Load, Key;
      vectors := new Vec[|texts|];
      missing := [];
      for i := 0 to |texts|
        invariant missing == Missing(dir.files, inner, kind, texts, i)
        invariant hits == old(hits) + i - |missing|
        invariant forall k | 0 <= k < i && Loaded(dir.files, inner, kind, texts[k]) ::
                    vectors[k] == Load(dir.files, inner, Key(inner.id, kind, texts[k])).value
      {
        var hit := Load(dir.files, inner, Key(inner.id, kind, texts[i]));
        if hit.None? {
          missing := missing + [i];
        } else {
          vectors[i] := hit.value;
          hits := hits + 1;
        }
      }
    }

    /** Asks the embedder for the rest in one call, and writes each vector to its file before it takes it. */
    method Fill(texts: seq<string>, kind: string, vectors: array<Vec>, missing: seq<nat>, env: Env)
      returns (r: Result<seq<Vec>, CacheError>)
      requires vectors.Length == |texts|
      requires missing == Missing(dir.files, inner, kind, texts, |texts|)
      requires PartlyFilled(dir.files, inner, kind, texts, vectors[..], 0)
      modifies this`misses, dir, vectors
      ensures Effect(r, dir.files, |texts| - |missing|, misses - old(misses))
              == FillEffect(old(dir.files), inner, kind, texts, env)
    {
      hide Load, Key, BytesOf, Torn, StoreError, PartlyFilled, Missing, Assembled, FilesAfter;
      var pending := TextsAt(texts, missing);
      var answer := Inner(inner, kind, pending, env.inner);
      if answer.Failure? {
        return Failure(answer.error);
      }
      var answered := answer.value;
      if |answered| != |pending| {
        return Failure(CountMismatch(|answered|, |pending|));
      }
      ghost var start := dir.files;
      var failed := TakeAnswers(texts, kind, vectors, missing, answered, env.write);
      if failed.Some? {
        return Failure(failed.value);
      }
      AllFilled(start, inner, kind, texts, vectors[..]);
      return Success(vectors[..]);
    }

    /** Writes the answers one by one and puts each in its place, up to the first write that fails. */
    method TakeAnswers(texts: seq<string>, kind: string, vectors: array<Vec>, missing: seq<nat>, answered: seq<Vec>,
                       write: WriteFault)
      returns (e: Option<CacheError>)
      requires vectors.Length == |texts| && PartlyFilled(dir.files, inner, kind, texts, vectors[..], 0)
      requires missing == Missing(dir.files, inner, kind, texts, |texts|)
      requires answered == EmbedAll(inner, kind, TextsAt(texts, missing))
      modifies this`misses, dir, vectors
      ensures var pending := TextsAt(texts, missing);
              var failed := FirstStoreError(inner, kind, pending, write, |pending|);
              if failed.None? then
                && e == None
                && dir.files == FilesAfter(old(dir.files), inner, kind, pending, |pending|)
                && misses == old(misses) + |pending|
                && PartlyFilled(old(dir.files), inner, kind, texts, vectors[..], |pending|)
              else
                var j := failed.value;
                && e == StoreError(inner, kind, pending[j], write, j)
                && dir.files == Torn(FilesAfter(old(dir.files), inner, kind, pending, j), inner, kind, pending[j], write)
                && misses == old(misses) + j
    {
      hide Load, Key, BytesOf, Torn, StoreError, PartlyFilled, Missing, EmbedAll, TextsAt, FirstStoreError;
      var pending := TextsAt(texts, missing);
      ghost var start := dir.files;
      FirstErrorStart(inner, kind, pending, write);
      for j := 0 to |missing|
        invariant dir.files == FilesAfter(start, inner, kind, pending, j)
        invariant misses == old(misses) + j
        invariant FirstStoreError(inner, kind, pending, write, j).None?
        invariant PartlyFilled(start, inner, kind, texts, vectors[..], j)
      {
        FirstErrorStep(inner, kind, pending, write, j);
        var stored := Store(kind, pending[j], answered[j], write, j);
        if stored.Failure? {
          FirstErrorSticks(inner, kind, pending, write, j + 1, |pending|);
          return Some(stored.error);
        }
        ghost var filled := vectors[..];
        vectors[missing[j]] := answered[j];
        FillOneMore(start, inner, kind, texts, filled, j);
        assert vectors[..] == filled[missing[j] := answered[j]];
        misses := misses + 1;
      }
      return None;
    }

    /** The j-th file that this call writes. */
    method Store(kind: string, text: string, vector: Vec, write: WriteFault, j: nat) returns (r: Result<(), CacheError>)
      requires vector == inner.vector(kind, text)
      modifies dir
      ensures var e := StoreError(inner, kind, text, write, j);
              if e.Some? then r == Failure(e.value) && dir.files == Torn(old(dir.files), inner, kind, text, write)
              else r == Success(()) && dir.files == old(dir.files)[Key(inner.id, kind, text) := BytesOf(vector)]
    {
      if |vector| != inner.dimensions {
        return Failure(VectorSize(|vector|, inner.dimensions));
      }
      var raw := EncodeVector(vector);
      var key := Key(inner.id, kind, text);
      if !write.AllWritten? && write.at == j {
        if write.CutShort? {
          dir.files := dir.files[key := raw[..if write.bytes < raw.Length then write.bytes else raw.Length]];
        }
        return Failure(WriteFailed);
      }
      dir.files := dir.files[key := raw[..]];
      return Success(());
    }
  }

  /** What the files hold is in place, and so are the first j of the missing vectors. */
  ghost predicate PartlyFilled(files: Files, m: Model, kind: string, texts: seq<string>, v: seq<Vec>, j: nat) {
    var missing := Missing(files, m, kind, texts, |texts|);
    && |v| == |texts| && j <= |missing|
    && (forall i | 0 <= i < |texts| && Loaded(files, m, kind, texts[i]) :: v[i] == Load(files, m, Key(m.id, kind, texts[i])).value)
    && (forall k | 0 <= k < j :: v[missing[k]] == m.vector(kind, texts[missing[k]]))
  }

  lemma {:induction false} FillOneMore(files: Files, m: Model, kind: string, texts: seq<string>, v: seq<Vec>, j: nat)
    requires PartlyFilled(files, m, kind, texts, v, j) && j < |Missing(files, m, kind, texts, |texts|)|
    ensures var i := Missing(files, m, kind, texts, |texts|)[j];
            PartlyFilled(files, m, kind, texts, v[i := m.vector(kind, texts[i])], j + 1)
  {
    hide Load, Key, Missing;
  }

  lemma {:induction false} AllFilled(files: Files, m: Model, kind: string, texts: seq<string>, v: seq<Vec>)
    requires PartlyFilled(files, m, kind, texts, v, |Missing(files, m, kind, texts, |texts|)|)
    ensures v == Assembled(files, m, kind, texts)
  {
    hide Load, Key, Missing;
    forall i | 0 <= i < |texts|
      ensures v[i] == Assembled(files, m, kind, texts)[i]
    {
    }
  }

  lemma {:induction false} FirstErrorStart(m: Model, kind: string, pending: seq<string>, write: WriteFault)
    ensures FirstStoreError(m, kind, pending, write, 0).None?
  {
  }

  lemma {:induction false} FirstErrorStep(m: Model, kind: string, pending: seq<string>, write: WriteFault, j: nat)
    requires j < |pending| && FirstStoreError(m, kind, pending, write, j).None?
    ensures FirstStoreError(m, kind, pending, write, j + 1) ==
            if StoreError(m, kind, pending[j], write, j).Some? then Some(j) else None
  {
  }

  lemma {:induction false} FirstErrorSticks(m: Model, kind: string, pending: seq<string>, write: WriteFault, i: nat, n: nat)
    requires i <= n <= |pending| && FirstStoreError(m, kind, pending, write, i).Some?
    ensures FirstStoreError(m, kind, pending, write, n) == FirstStoreError(m, kind, pending, write, i)
  {
    if i < n {
      FirstErrorSticks(m, kind, pending, write, i, n - 1);
    }
  }
}
