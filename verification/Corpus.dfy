/** What a corpus and its distractors are labelled with, and the numbers they are stored under. */
module Labels {
  import opened Sequences
  import opened Wrappers
  import opened Runes

  datatype Passage = Passage(key: string, source: string, content: Text)

  datatype Distractor = Distractor(documentId: int, sourceId: int, chunkIndex: int, content: Text)

  const DISTRACTOR_PREFIX := "distractor:"

  function Digit(d: nat): char
    requires d < 10
  {
    '0' + d as char
  }

  function Digits(n: nat): (s: string)
    ensures s != "" && forall c | c in s :: '0' <= c <= '9'
    ensures |s| == 1 <==> n < 10
  {
    if n < 10 then [Digit(n)] else Digits(n / 10) + [Digit(n % 10)]
  }

  function Decimal(n: int): (s: string)
    ensures s != "" && '#' !in s
    ensures s[0] == '-' <==> n < 0
  {
    if n < 0 then "-" + Digits(-n)
    else
      assert Digits(n)[0] in Digits(n);
      Digits(n)
  }

  /** The label a report shows for a distractor. */
  function Key(d: Distractor): string {
    DISTRACTOR_PREFIX + Decimal(d.documentId) + "#" + Decimal(d.chunkIndex)
  }

  lemma {:induction false} DigitsAreInjective(a: nat, b: nat)
    requires Digits(a) == Digits(b)
    ensures a == b
  {
    var s, t := Digits(a), Digits(b);
    assert s[|s| - 1] == Digit(a % 10) && t[|t| - 1] == Digit(b % 10);
    if a >= 10 && b >= 10 {
      assert s[..|s| - 1] == Digits(a / 10) && t[..|t| - 1] == Digits(b / 10);
      DigitsAreInjective(a / 10, b / 10);
    }
  }

  lemma {:induction false} DecimalIsInjective(a: int, b: int)
    requires Decimal(a) == Decimal(b)
    ensures a == b
  {
    if a < 0 && b < 0 {
      assert Decimal(a)[1..] == Digits(-a) && Decimal(b)[1..] == Digits(-b);
      DigitsAreInjective(-a, -b);
    } else if a >= 0 && b >= 0 {
      DigitsAreInjective(a, b);
    }
  }

  /** Two distractors share a label exactly if they share document and chunk index. */
  lemma {:induction false} KeyIsInjective(d: Distractor, e: Distractor)
    ensures Key(d) == Key(e) <==> d.documentId == e.documentId && d.chunkIndex == e.chunkIndex
  {
    if Key(d) == Key(e) {
      var n := |DISTRACTOR_PREFIX|;
      var a, b := Decimal(d.documentId), Decimal(e.documentId);
      var x, y := Decimal(d.chunkIndex), Decimal(e.chunkIndex);
      assert Key(d)[n..] == a + "#" + x && Key(e)[n..] == b + "#" + y;
      SplitIsUnique(a, b, '#', x, y);
      DecimalIsInjective(d.documentId, e.documentId);
      DecimalIsInjective(d.chunkIndex, e.chunkIndex);
    }
  }

  // ----- Loading -----

  predicate IsComplete(d: Distractor) {
    d.content != [] && d.documentId >= 1 && d.sourceId >= 1 && d.chunkIndex >= 0
  }

  datatype LoadError = Incomplete(line: nat) | AlreadyDefined(line: nat, first: nat)

  ghost predicate SamePlace(d: Distractor, e: Distractor) {
    d.documentId == e.documentId && d.chunkIndex == e.chunkIndex
  }

  ghost predicate DistinctPlaces(ds: seq<Distractor>) {
    forall i, j | 0 <= i < j < |ds| :: !SamePlace(ds[i], ds[j])
  }

  /** Accepts the decoded lines exactly if each is complete and no two stand for the same chunk of the same
      document; otherwise it names the first line that is at fault. */
  method LoadDistractors(lines: seq<Distractor>) returns (r: Result<seq<Distractor>, LoadError>)
    ensures r.Success? <==>
            && (forall d | d in lines :: d.content != [] && d.documentId >= 1 && d.sourceId >= 1 && d.chunkIndex >= 0)
            && DistinctPlaces(lines)
    ensures r.Success? ==> r.value == lines
    ensures r.Failure? ==>
              && r.error.line < |lines|
              && (forall i | 0 <= i < r.error.line :: IsComplete(lines[i])) && DistinctPlaces(lines[..r.error.line])
              && var d := lines[r.error.line];
              && (r.error.Incomplete? <==> d.content == [] || d.documentId < 1 || d.sourceId < 1 || d.chunkIndex < 0)
              && (r.error.AlreadyDefined? ==>
                    r.error.first < r.error.line && SamePlace(lines[r.error.first], lines[r.error.line]))
  {
    hide Key;
    var out: seq<Distractor> := [];
    var seen: map<string, nat> := map[];
    for i := 0 to |lines|
      invariant out == lines[..i] && DistinctPlaces(out) && forall k | 0 <= k < i :: IsComplete(lines[k])
      invariant forall k | 0 <= k < i :: Key(lines[k]) in seen
      invariant forall key | key in seen :: seen[key] < i && Key(lines[seen[key]]) == key
    {
      if !IsComplete(lines[i]) {
        assert lines[i] in lines;
        return Failure(Incomplete(i));
      }
      if Key(lines[i]) in seen {
        KeyIsInjective(lines[seen[Key(lines[i])]], lines[i]);
        return Failure(AlreadyDefined(i, seen[Key(lines[i])]));
      }
      forall k | 0 <= k < i
        ensures !SamePlace(lines[k], lines[i])
      {
        KeyIsInjective(lines[k], lines[i]);
      }
      seen := seen[Key(lines[i]) := i];
      out := out + [lines[i]];
    }
    assert lines[..|lines|] == lines;
    return Success(out);
  }

  predicate IsWritten(p: Passage) {
    p.key != "" && p.source != "" && p.content != []
  }

  ghost predicate DistinctKeys(ps: seq<Passage>) {
    forall i, j | 0 <= i < j < |ps| :: ps[i].key != ps[j].key
  }

  /** The corpus side: every passage is complete and no key is defined twice. */
  method LoadPassages(lines: seq<Passage>) returns (r: Result<seq<Passage>, LoadError>)
    ensures r.Success? <==> (forall p | p in lines :: p.key != "" && p.source != "" && p.content != []) && DistinctKeys(lines)
    ensures r.Success? ==> r.value == lines
    ensures r.Failure? ==>
              && r.error.line < |lines|
              && (forall i | 0 <= i < r.error.line :: IsWritten(lines[i])) && DistinctKeys(lines[..r.error.line])
              && var p := lines[r.error.line];
              && (r.error.Incomplete? <==> p.key == "" || p.source == "" || p.content == [])
              && (r.error.AlreadyDefined? ==>
                    r.error.first < r.error.line && lines[r.error.first].key == lines[r.error.line].key)
  {
    var passages: seq<Passage> := [];
    var seen: map<string, nat> := map[];
    for i := 0 to |lines|
      invariant passages == lines[..i] && DistinctKeys(passages) && forall k | 0 <= k < i :: IsWritten(lines[k])
      invariant forall k | 0 <= k < i :: lines[k].key in seen
      invariant forall key | key in seen :: seen[key] < i && lines[seen[key]].key == key
    {
      if !IsWritten(lines[i]) {
        assert lines[i] in lines;
        return Failure(Incomplete(i));
      }
      if lines[i].key in seen {
        return Failure(AlreadyDefined(i, seen[lines[i].key]));
      }
      seen := seen[lines[i].key := i];
      passages := passages + [lines[i]];
    }
    assert lines[..|lines|] == lines;
    return Success(passages);
  }

  predicate Reserved(key: string) {
    DISTRACTOR_PREFIX <= key
  }

  /** The first corpus key that uses the prefix kept for distractors. */
  function FirstReserved(passages: seq<Passage>): (r: Option<string>)
    ensures r.None? <==> forall p | p in passages :: !Reserved(p.key)
    ensures r.Some? ==> exists i | 0 <= i < |passages| ::
                          && Reserved(passages[i].key) && passages[i].key == r.value
                          && forall j | 0 <= j < i :: !Reserved(passages[j].key)
  {
    if passages == [] then None
    else
      var n := |passages| - 1;
      var before := FirstReserved(passages[..n]);
      assert passages == passages[..n] + [passages[n]];
      if before.Some? || !Reserved(passages[n].key) then before else Some(passages[n].key)
  }

  method KeyPrefixConflict(passages: seq<Passage>) returns (conflict: Option<string>)
    ensures conflict == FirstReserved(passages)
  {
    for i := 0 to |passages|
      invariant FirstReserved(passages[..i]).None?
    {
      assert passages[..i + 1][..i] == passages[..i];
      if Reserved(passages[i].key) {
        FirstReservedStays(passages, i + 1);
        return Some(passages[i].key);
      }
    }
    assert passages[..|passages|] == passages;
    return None;
  }

  lemma {:induction false} FirstReservedStays(passages: seq<Passage>, n: nat)
    requires n <= |passages| && FirstReserved(passages[..n]).Some?
    ensures FirstReserved(passages) == FirstReserved(passages[..n])
  {
    if n == |passages| {
      assert passages[..n] == passages;
    } else {
      assert passages[..|passages| - 1][..n] == passages[..n];
      FirstReservedStays(passages[..|passages| - 1], n);
    }
  }

  /** The conditions record distractors exactly if there are some, with their exact number. */
  function RecordMismatch(count: nat, record: Option<nat>): (bad: bool)
    ensures !bad <==> record == if count == 0 then None else Some(count)
  {
    if count > 0 && record.None? then true
    else if count == 0 && record.Some? then true
    else record.Some? && record.value != count
  }

  /** A corpus label is never a distractor's label. */
  lemma {:induction false} DistractorKeysAreReserved(d: Distractor)
    ensures Reserved(Key(d))
  {
    assert Key(d)[..|DISTRACTOR_PREFIX|] == DISTRACTOR_PREFIX;
  }

  // ----- Reading a label -----

  /** The number that decimal digits stand for. */
  function ValueOf(s: string): int {
    if s == "" then 0 else 10 * ValueOf(s[..|s| - 1]) + (s[|s| - 1] as int - '0' as int)
  }

  lemma {:induction false} DigitsRead(n: nat)
    ensures ValueOf(Digits(n)) == n
    ensures |Digits(n)| > 1 ==> Digits(n)[0] != '0'
  {
    var s := Digits(n);
    if n < 10 {
      assert s[..0] == "" && ValueOf("") == 0;
    } else {
      DigitsRead(n / 10);
      assert s[..|s| - 1] == Digits(n / 10) && s[|s| - 1] == Digit(n % 10);
      if |Digits(n / 10)| == 1 {
        assert Digits(n / 10)[..0] == "";
      }
      assert s[0] == Digits(n / 10)[0];
    }
  }

  /** `s` is the decimal form of n. */
  ghost predicate IsDecimal(s: string, n: int) {
    if n < 0 then s != "" && s[0] == '-' && IsNatural(s[1..], -n) else IsNatural(s, n)
  }

  ghost predicate IsNatural(s: string, n: int) {
    s != "" && (forall c | c in s :: '0' <= c <= '9') && (|s| > 1 ==> s[0] != '0') && ValueOf(s) == n
  }

  /** A distractor's label is its prefix, the document number, a hash sign and the chunk index, both in decimal. */
  lemma {:induction false} KeyReads(d: Distractor)
    ensures exists a, b :: Key(d) == "distractor:" + a + "#" + b && IsDecimal(a, d.documentId) && IsDecimal(b, d.chunkIndex)
  {
    DecimalReads(d.documentId);
    DecimalReads(d.chunkIndex);
    hide Decimal, IsDecimal;
    assert Key(d) == "distractor:" + Decimal(d.documentId) + "#" + Decimal(d.chunkIndex);
  }

  lemma {:induction false} DecimalReads(n: int)
    ensures IsDecimal(Decimal(n), n)
  {
    if n < 0 {
      DigitsRead(-n);
      assert Decimal(n)[1..] == Digits(-n);
    } else {
      DigitsRead(n);
    }
  }
}

/** The chunks a corpus becomes: numbers for sources, and a running index inside each. */
module Corpus {
  import opened Sequences
  import opened Wrappers
  import opened Records
  import opened Labels

  /** The sources among the first n passages, in the order they first appear. */
  function FirstSeen(passages: seq<Passage>, n: nat): (s: seq<string>)
    requires n <= |passages|
  {
    if n == 0 then []
    else
      var before := FirstSeen(passages, n - 1);
      if passages[n - 1].source in before then before else before + [passages[n - 1].source]
  }

  /** Each source is there once, and nothing else is. */
  lemma {:induction false} SeenIsSources(passages: seq<Passage>, n: nat)
    requires n <= |passages|
    ensures forall i, j | 0 <= i < j < |FirstSeen(passages, n)| :: FirstSeen(passages, n)[i] != FirstSeen(passages, n)[j]
    ensures forall x :: x in FirstSeen(passages, n) <==> exists i :: 0 <= i < n && passages[i].source == x
  {
    if n > 0 {
      SeenIsSources(passages, n - 1);
      var before, last := FirstSeen(passages, n - 1), passages[n - 1].source;
      forall x
        ensures x in FirstSeen(passages, n) <==> x in before || x == last
      {
      }
    }
  }

  /** How many of the first n passages come from a source. */
  function Earlier(passages: seq<Passage>, n: nat, source: string): (c: nat)
    requires n <= |passages|
    ensures c <= n
  {
    if n == 0 then 0
    else Earlier(passages, n - 1, source) + if passages[n - 1].source == source then 1 else 0
  }

  function SourceId(passages: seq<Passage>, i: nat): (id: int)
    requires i < |passages|
    ensures 1 <= id <= |FirstSeen(passages, |passages|)|
    ensures FirstSeen(passages, |passages|)[id - 1] == passages[i].source
  {
    SeenIsSources(passages, |passages|);
    assert passages[i].source in FirstSeen(passages, |passages|);
    PositionOf(FirstSeen(passages, |passages|), passages[i].source) + 1
  }

  function ChunkOf(orgId: int, passages: seq<Passage>, i: nat): Chunk
    requires i < |passages|
  {
    var p := passages[i];
    var id := SourceId(passages, i);
    Chunk(0, orgId, None, id, id, Earlier(passages, i, p.source), p.content, None, None)
  }

  lemma {:induction false} ChunkFields(orgId: int, passages: seq<Passage>, i: nat)
    requires i < |passages|
    ensures var p, id := passages[i], SourceId(passages, i);
            ChunkOf(orgId, passages, i) == Chunk(0, orgId, None, id, id, Earlier(passages, i, p.source), p.content, None, None)
  {
  }

  lemma {:induction false} NoNumbersYet(passages: seq<Passage>)
    ensures Numbers(map[], passages, 0) && Next(map[], passages, 0)
  {
  }

  method ToChunks(orgId: int, passages: seq<Passage>) returns (chunks: seq<Chunk>)
    ensures |chunks| == |passages| && forall i | 0 <= i < |passages| :: chunks[i] == ChunkOf(orgId, passages, i)
  {
    hide *;
    chunks := [];
    var sourceIds: map<string, int> := map[];
    var nextIndex: map<string, nat> := map[];
    NoNumbersYet(passages);
    for n := 0 to |passages|
      invariant |chunks| == n && forall i | 0 <= i < n :: chunks[i] == ChunkOf(orgId, passages, i)
      invariant Numbers(sourceIds, passages, n) && Next(nextIndex, passages, n)
    {
      var p := passages[n];
      NumberOneMore(sourceIds, passages, n);
      NextOneMore(nextIndex, passages, n);
      ChunkFields(orgId, passages, n);
      if p.source !in sourceIds {
        sourceIds := sourceIds[p.source := |sourceIds| + 1];
      }
      var id := sourceIds[p.source];
      var next := if p.source in nextIndex then nextIndex[p.source] else 0;
      chunks := chunks + [Chunk(0, orgId, None, id, id, next, p.content, None, None)];
      nextIndex := nextIndex[p.source := next + 1];
    }
  }

  ghost predicate Numbers(sourceIds: map<string, int>, passages: seq<Passage>, n: nat)
    requires n <= |passages|
  {
    var seen := FirstSeen(passages, n);
    && |sourceIds| == |seen|
    && (forall x :: x in sourceIds <==> x in seen)
    && (forall k | 0 <= k < |seen| :: sourceIds[seen[k]] == k + 1)
  }

  ghost predicate Next(nextIndex: map<string, nat>, passages: seq<Passage>, n: nat)
    requires n <= |passages|
  {
    forall x :: Earlier(passages, n, x) == if x in nextIndex then nextIndex[x] else 0
  }

  lemma {:induction false} NumberOneMore(sourceIds: map<string, int>, passages: seq<Passage>, n: nat)
    requires n < |passages| && Numbers(sourceIds, passages, n)
    ensures var source := passages[n].source;
            var after := if source in sourceIds then sourceIds else sourceIds[source := |sourceIds| + 1];
            Numbers(after, passages, n + 1) && after[source] == SourceId(passages, n)
  {
    SourceIdIs(passages, n);
    var source, before, seen := passages[n].source, FirstSeen(passages, n), FirstSeen(passages, n + 1);
    var pos := PositionOf(seen, source);
    assert seen == if source in before then before else before + [source];
    hide SourceId, PositionOf, FirstSeen;
    if source in before {
      assert sourceIds[seen[pos]] == pos + 1;
    } else {
      var after := sourceIds[source := |sourceIds| + 1];
      forall k | 0 <= k < |seen|
        ensures after[seen[k]] == k + 1
      {
        if k < |before| {
          assert seen[k] == before[k] && before[k] in before;
        }
      }
    }
  }

  lemma {:induction false} NextOneMore(nextIndex: map<string, nat>, passages: seq<Passage>, n: nat)
    requires n < |passages| && Next(nextIndex, passages, n)
    ensures var source := passages[n].source;
            var next := if source in nextIndex then nextIndex[source] else 0;
            next == Earlier(passages, n, source) && Next(nextIndex[source := next + 1], passages, n + 1)
  {
  }

  lemma {:induction false} SeenGrows(passages: seq<Passage>, m: nat, n: nat)
    requires m <= n <= |passages|
    ensures FirstSeen(passages, m) <= FirstSeen(passages, n)
  {
    if m < n {
      SeenGrows(passages, m, n - 1);
    }
  }

  lemma {:induction false} PositionIs(s: seq<string>, i: nat)
    requires i < |s| && forall j, k | 0 <= j < k < |s| :: s[j] != s[k]
    ensures PositionOf(s, s[i]) == i
  {
    var j := PositionOf(s, s[i]);
    assert s[j] == s[i];
  }

  /** A source keeps the number it has when it is first seen. */
  lemma {:induction false} SourceIdIs(passages: seq<Passage>, n: nat)
    requires n < |passages|
    ensures var seen := FirstSeen(passages, n + 1);
            && passages[n].source in seen
            && SourceId(passages, n) == PositionOf(seen, passages[n].source) + 1
    ensures var before := FirstSeen(passages, n);
            SourceId(passages, n) == |before| + 1 <==> passages[n].source !in before
  {
    var seen, all := FirstSeen(passages, n + 1), FirstSeen(passages, |passages|);
    SeenIsSources(passages, n);
    SeenIsSources(passages, n + 1);
    SeenIsSources(passages, |passages|);
    SeenGrows(passages, n + 1, |passages|);
    var i := PositionOf(seen, passages[n].source);
    assert all[i] == seen[i];
    PositionIs(all, i);
    PositionIs(seen, i);
  }

  // ----- What the numbers mean -----

  /** Equal document numbers exactly for equal sources. */
  lemma {:induction false} DocumentsAreSources(orgId: int, passages: seq<Passage>, i: nat, j: nat)
    requires i < |passages| && j < |passages|
    ensures ChunkOf(orgId, passages, i).documentId == ChunkOf(orgId, passages, j).documentId
            <==> passages[i].source == passages[j].source
  {
  }

  /** Some passage has the document number d. */
  ghost predicate IsUsed(orgId: int, passages: seq<Passage>, d: int) {
    exists i :: 0 <= i < |passages| && ChunkOf(orgId, passages, i).documentId == d
  }

  /** The numbers in use are exactly 1, 2, ... up to the number of sources. */
  lemma {:induction false} DocumentsAreDense(orgId: int, passages: seq<Passage>, d: int)
    ensures IsUsed(orgId, passages, d) <==> 1 <= d <= |FirstSeen(passages, |passages|)|
  {
    var all := FirstSeen(passages, |passages|);
    SeenIsSources(passages, |passages|);
    if 1 <= d <= |all| {
      assert all[d - 1] in all;
      var i :| 0 <= i < |passages| && passages[i].source == all[d - 1];
      PositionIs(all, d - 1);
      assert ChunkOf(orgId, passages, i).documentId == d;
    }
  }

  /** A passage of a new source gets the next number, every other passage one that is already in use. */
  lemma {:induction false} NumbersFollowFirstSight(orgId: int, passages: seq<Passage>, i: nat)
    requires i < |passages|
    ensures var d := ChunkOf(orgId, passages, i).documentId;
            && d <= |FirstSeen(passages, i)| + 1
            && (d == |FirstSeen(passages, i)| + 1 <==> forall j | 0 <= j < i :: passages[j].source != passages[i].source)
  {
    SourceIdIs(passages, i);
    SeenIsSources(passages, i);
  }

  lemma {:induction false} EarlierGrows(passages: seq<Passage>, m: nat, n: nat, source: string)
    requires m < n <= |passages| && passages[m].source == source
    ensures Earlier(passages, m, source) < Earlier(passages, n, source)
  {
    if m + 1 < n {
      EarlierGrows(passages, m, n - 1, source);
    }
  }

  /** No two chunks have the same document and index. */
  lemma {:induction false} PlacesAreDistinct(orgId: int, passages: seq<Passage>, i: nat, j: nat)
    requires i < j < |passages|
    ensures var a, b := ChunkOf(orgId, passages, i), ChunkOf(orgId, passages, j);
            a.documentId != b.documentId || a.chunkIndex < b.chunkIndex
  {
    DocumentsAreSources(orgId, passages, i, j);
    if passages[i].source == passages[j].source {
      EarlierGrows(passages, i, j, passages[i].source);
    }
  }

  ghost function EarlierPlaces(passages: seq<Passage>, n: nat, source: string): set<int>
    requires n <= |passages|
  {
    set j | 0 <= j < n && passages[j].source == source
  }

  lemma {:induction false} EarlierCounts(passages: seq<Passage>, n: nat, source: string)
    requires n <= |passages|
    ensures Earlier(passages, n, source) == |EarlierPlaces(passages, n, source)|
  {
    if n == 0 {
      assert EarlierPlaces(passages, n, source) == {};
    } else {
      EarlierCounts(passages, n - 1, source);
      var before := EarlierPlaces(passages, n - 1, source);
      assert EarlierPlaces(passages, n, source) == if passages[n - 1].source == source then before + {n - 1} else before;
    }
  }

  /** A corpus chunk is its passage's content under the org, without ids of its own or from outside, at the place its
      passage has among those of its source. */
  lemma {:induction false} ChunkHolds(orgId: int, passages: seq<Passage>, i: nat)
    requires i < |passages|
    ensures var c := ChunkOf(orgId, passages, i);
            && c.content == passages[i].content && c.orgId == orgId && c.id == 0 && c.externalId.None?
            && c.pageNumber.None? && c.sectionLabel.None? && c.documentId == c.sourceId
            && c.chunkIndex == |set j | 0 <= j < i && passages[j].source == passages[i].source|
  {
    EarlierCounts(passages, i, passages[i].source);
    hide SourceId, Earlier;
  }
}
