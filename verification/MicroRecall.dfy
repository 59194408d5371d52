/** Totals over all queries, counted per relevant chunk instead of per query. */
module MicroRecall {
  import opened Reals
  import opened Sequences
  import opened Wrappers
  import opened Metrics

  const GOLD_LENGTH_THRESHOLD := 520

  function LongGoldKeys(): (keys: seq<string>)
    ensures |keys| == 3
  {
    ["readme#005", "requirements#023", "requirements#008"]
  }

  function MaxOf(s: seq<int>): (m: int)
    requires s != []
    ensures m in s && forall x | x in s :: x <= m
  {
    assert s == [s[0]] + s[1..];
    if |s| == 1 then s[0]
    else
      var m := MaxOf(s[1..]);
      if s[0] > m then s[0] else m
  }

  /** The inner counts use the largest k of the recall list. */
  function Cutoff(): (k: int)
    ensures k in K_VALUES && forall x | x in K_VALUES :: x <= k
  {
    MaxOf(K_VALUES)
  }

  function AllRanks(reports: seq<QueryReport>): seq<RelevantRank> {
    if reports == [] then []
    else AllRanks(reports[..|reports| - 1]) + reports[|reports| - 1].relevantRanks
  }

  /** The ranks of the keys to keep, and those among them within the cutoff. */
  function Total(ranks: seq<RelevantRank>, keep: string -> bool): (n: nat)
    ensures n <= |ranks|
  {
    if ranks == [] then 0
    else Total(ranks[..|ranks| - 1], keep) + if keep(ranks[|ranks| - 1].key) then 1 else 0
  }

  function Hits(ranks: seq<RelevantRank>, cutoff: int, keep: string -> bool): (n: nat)
    ensures n <= Total(ranks, keep)
  {
    if ranks == [] then 0
    else
      var last := ranks[|ranks| - 1];
      Hits(ranks[..|ranks| - 1], cutoff, keep) + if keep(last.key) && WithinCutoff(last.rank, cutoff) then 1 else 0
  }

  function Every(): string -> bool {
    _ => true
  }

  function RunesOf(runes: map<string, nat>, key: string): nat {
    if key in runes then runes[key] else 0
  }

  function IsLong(runes: map<string, nat>): string -> bool {
    key => RunesOf(runes, key) > GOLD_LENGTH_THRESHOLD
  }

  function IsShort(runes: map<string, nat>): string -> bool {
    key => RunesOf(runes, key) <= GOLD_LENGTH_THRESHOLD
  }

  function Is(tracked: string): string -> bool {
    key => key == tracked
  }

  function IsTracked(): string -> bool {
    key => key in LongGoldKeys()
  }

  datatype Micro = Micro(hits: nat, total: nat, cutoff: int, value: real)

  datatype Bucket = Bucket(minRunes: nat, maxRunes: nat, hits: nat, total: nat, value: real)

  datatype LongChunkKey = LongChunkKey(key: string, runes: nat, hits: nat, total: nat)

  datatype LongChunks = LongChunks(keys: seq<LongChunkKey>, hits: nat, total: nat, value: real)

  /** The ranks counted once report i is done up to rank j. */
  function Counted(reports: seq<QueryReport>, i: nat, j: nat): seq<RelevantRank>
    requires i < |reports| && j <= |reports[i].relevantRanks|
  {
    AllRanks(reports[..i]) + reports[i].relevantRanks[..j]
  }

  lemma {:induction false} CountOneMore(reports: seq<QueryReport>, i: nat, j: nat)
    requires i < |reports| && j < |reports[i].relevantRanks|
    ensures var ranks := Counted(reports, i, j + 1);
            |ranks| > 0 && ranks[..|ranks| - 1] == Counted(reports, i, j) && ranks[|ranks| - 1] == reports[i].relevantRanks[j]
  {
  }

  lemma {:induction false} CountReport(reports: seq<QueryReport>, i: nat)
    requires i < |reports|
    ensures Counted(reports, i, 0) == AllRanks(reports[..i])
    ensures Counted(reports, i, |reports[i].relevantRanks|) == AllRanks(reports[..i + 1])
  {
    assert reports[..i + 1][..i] == reports[..i];
    assert reports[i].relevantRanks[..|reports[i].relevantRanks|] == reports[i].relevantRanks;
  }

  ghost predicate MicroTally(ranks: seq<RelevantRank>, hits: nat, total: nat) {
    total == |ranks| && hits == Hits(ranks, Cutoff(), Every())
  }

  lemma {:induction false} MicroOneMore(ranks: seq<RelevantRank>, hits: nat, total: nat)
    requires ranks != [] && MicroTally(ranks[..|ranks| - 1], hits, total)
    ensures MicroTally(ranks, hits + if WithinCutoff(ranks[|ranks| - 1].rank, Cutoff()) then 1 else 0, total + 1)
  {
    hide Cutoff;
  }

  method SummarizeMicro(reports: seq<QueryReport>) returns (m: Micro)
    ensures var ranks := AllRanks(reports);
            m == Micro(Hits(ranks, Cutoff(), Every()), |ranks|, Cutoff(), Ratio(Hits(ranks, Cutoff(), Every()), |ranks|))
  {
    var cutoff := Cutoff();
    var hits, total := 0, 0;
    assert AllRanks(reports[..0]) == [] && MicroTally([], 0, 0);
    hide Cutoff, AllRanks, Counted, Hits;
    for i := 0 to |reports|
      invariant MicroTally(AllRanks(reports[..i]), hits, total)
    {
      hide MicroTally;
      CountReport(reports, i);
      var ranks := reports[i].relevantRanks;
      for j := 0 to |ranks|
        invariant MicroTally(Counted(reports, i, j), hits, total)
      {
        CountOneMore(reports, i, j);
        MicroOneMore(Counted(reports, i, j + 1), hits, total);
        total := total + 1;
        if WithinCutoff(ranks[j].rank, cutoff) {
          hits := hits + 1;
        }
      }
    }
    assert reports[..|reports|] == reports;
    return Micro(hits, total, cutoff, Ratio(hits, total));
  }

  function BucketOf(ranks: seq<RelevantRank>, keep: string -> bool, minRunes: nat, maxRunes: nat): Bucket {
    Bucket(minRunes, maxRunes, Hits(ranks, Cutoff(), keep), Total(ranks, keep), Ratio(Hits(ranks, Cutoff(), keep), Total(ranks, keep)))
  }

  /** Splits the counts by the length of the relevant chunk; a bucket without an upper bound says 0. */
  method SummarizeGoldLength(reports: seq<QueryReport>, runes: map<string, nat>) returns (short: Bucket, long: Bucket)
    ensures short == BucketOf(AllRanks(reports), IsShort(runes), 0, GOLD_LENGTH_THRESHOLD)
    ensures long == BucketOf(AllRanks(reports), IsLong(runes), GOLD_LENGTH_THRESHOLD + 1, 0)
  {
    var cutoff := Cutoff();
    short := Bucket(0, GOLD_LENGTH_THRESHOLD, 0, 0, 0.0);
    long := Bucket(GOLD_LENGTH_THRESHOLD + 1, 0, 0, 0, 0.0);
    TallyNothing(IsShort(runes), 0, GOLD_LENGTH_THRESHOLD);
    TallyNothing(IsLong(runes), GOLD_LENGTH_THRESHOLD + 1, 0);
    assert AllRanks(reports[..0]) == [];
    hide Tallied, AllRanks, Counted, Cutoff;
    for i := 0 to |reports|
      invariant Tallied(short, AllRanks(reports[..i]), IsShort(runes), 0, GOLD_LENGTH_THRESHOLD)
      invariant Tallied(long, AllRanks(reports[..i]), IsLong(runes), GOLD_LENGTH_THRESHOLD + 1, 0)
    {
      CountReport(reports, i);
      var ranks := reports[i].relevantRanks;
      for j := 0 to |ranks|
        invariant Tallied(short, Counted(reports, i, j), IsShort(runes), 0, GOLD_LENGTH_THRESHOLD)
        invariant Tallied(long, Counted(reports, i, j), IsLong(runes), GOLD_LENGTH_THRESHOLD + 1, 0)
      {
        CountOneMore(reports, i, j);
        TallyOneMore(short, Counted(reports, i, j + 1), IsShort(runes), 0, GOLD_LENGTH_THRESHOLD);
        TallyOneMore(long, Counted(reports, i, j + 1), IsLong(runes), GOLD_LENGTH_THRESHOLD + 1, 0);
        var hit := if WithinCutoff(ranks[j].rank, cutoff) then 1 else 0;
        if RunesOf(runes, ranks[j].key) > GOLD_LENGTH_THRESHOLD {
          long := long.(total := long.total + 1, hits := long.hits + hit);
        } else {
          short := short.(total := short.total + 1, hits := short.hits + hit);
        }
      }
    }
    assert reports[..|reports|] == reports;
    TallyDone(short, AllRanks(reports), IsShort(runes), 0, GOLD_LENGTH_THRESHOLD);
    TallyDone(long, AllRanks(reports), IsLong(runes), GOLD_LENGTH_THRESHOLD + 1, 0);
    short := short.(value := Ratio(short.hits, short.total));
    long := long.(value := Ratio(long.hits, long.total));
  }

  ghost predicate Tallied(b: Bucket, ranks: seq<RelevantRank>, keep: string -> bool, minRunes: nat, maxRunes: nat) {
    b == Bucket(minRunes, maxRunes, Hits(ranks, Cutoff(), keep), Total(ranks, keep), 0.0)
  }

  lemma {:induction false} TallyNothing(keep: string -> bool, minRunes: nat, maxRunes: nat)
    ensures Tallied(Bucket(minRunes, maxRunes, 0, 0, 0.0), [], keep, minRunes, maxRunes)
  {
  }

  lemma {:induction false} TallyOneMore(b: Bucket, ranks: seq<RelevantRank>, keep: string -> bool, minRunes: nat, maxRunes: nat)
    requires ranks != [] && Tallied(b, ranks[..|ranks| - 1], keep, minRunes, maxRunes)
    ensures var last := ranks[|ranks| - 1];
            var hit := if WithinCutoff(last.rank, Cutoff()) then 1 else 0;
            Tallied(if keep(last.key) then b.(total := b.total + 1, hits := b.hits + hit) else b, ranks, keep, minRunes, maxRunes)
  {
    hide Cutoff;
  }

  lemma {:induction false} TallyDone(b: Bucket, ranks: seq<RelevantRank>, keep: string -> bool, minRunes: nat, maxRunes: nat)
    requires Tallied(b, ranks, keep, minRunes, maxRunes)
    ensures b.(value := Ratio(b.hits, b.total)) == BucketOf(ranks, keep, minRunes, maxRunes)
  {
  }

  function TrackedKey(ranks: seq<RelevantRank>, key: string, runes: nat): LongChunkKey {
    LongChunkKey(key, runes, Hits(ranks, Cutoff(), Is(key)), Total(ranks, Is(key)))
  }

  ghost predicate Tracks(keys: seq<LongChunkKey>, ranks: seq<RelevantRank>, runes: map<string, nat>) {
    && |keys| == |LongGoldKeys()|
    && forall i | 0 <= i < |keys| :: keys[i] == TrackedKey(ranks, LongGoldKeys()[i], RunesOf(runes, LongGoldKeys()[i]))
  }

  method TrackedIndex(runes: map<string, nat>) returns (index: map<string, nat>, keys: seq<LongChunkKey>)
    ensures |keys| == |LongGoldKeys()|
    ensures forall k | 0 <= k < |keys| :: keys[k] == LongChunkKey(LongGoldKeys()[k], RunesOf(runes, LongGoldKeys()[k]), 0, 0)
    ensures IsIndex(index)
  {
    hide LongGoldKeys, RunesOf;
    index := map[];
    keys := [];
    for i := 0 to |LongGoldKeys()|
      invariant |keys| == i && forall k | 0 <= k < i :: keys[k] == LongChunkKey(LongGoldKeys()[k], RunesOf(runes, LongGoldKeys()[k]), 0, 0)
      invariant forall key :: key in index <==> key in LongGoldKeys()[..i]
      invariant forall key | key in index :: index[key] < i && LongGoldKeys()[index[key]] == key
    {
      index := index[LongGoldKeys()[i] := i];
      keys := keys + [LongChunkKey(LongGoldKeys()[i], RunesOf(runes, LongGoldKeys()[i]), 0, 0)];
    }
    assert LongGoldKeys()[..|LongGoldKeys()|] == LongGoldKeys();
  }

  ghost predicate IsIndex(index: map<string, nat>) {
    && (forall key :: key in index <==> key in LongGoldKeys())
    && (forall key | key in index :: index[key] < |LongGoldKeys()| && LongGoldKeys()[index[key]] == key)
  }

  /** Follows the named long chunks one by one. */
  method SummarizeLongChunks(reports: seq<QueryReport>, runes: map<string, nat>) returns (r: LongChunks)
    ensures Tracks(r.keys, AllRanks(reports), runes)
    ensures r.hits == Hits(AllRanks(reports), Cutoff(), IsTracked()) && r.total == Total(AllRanks(reports), IsTracked())
    ensures r.value == Ratio(r.hits, r.total)
  {
    var index, keys := TrackedIndex(runes);
    var hits, total := 0, 0;
    assert AllRanks(reports[..0]) == [];
    TrackNothing(keys, runes);
    hide AllRanks, Counted, Cutoff, Hits, Total, RunesOf, LongGoldKeys, Tracks, IsIndex;
    for i := 0 to |reports|
      invariant |keys| == 3 && LongTally(AllRanks(reports[..i]), runes, keys, hits, total)
    {
      hide LongTally;
      CountReport(reports, i);
      var ranks := reports[i].relevantRanks;
      for j := 0 to |ranks|
        invariant |keys| == 3 && LongTally(Counted(reports, i, j), runes, keys, hits, total)
      {
        CountOneMore(reports, i, j);
        keys, hits, total := TrackRank(index, ranks[j], keys, hits, total, Counted(reports, i, j), runes);
        assert Counted(reports, i, j + 1) == Counted(reports, i, j) + [ranks[j]];
      }
    }
    assert reports[..|reports|] == reports;
    return LongChunks(keys, hits, total, Ratio(hits, total));
  }

  /** Counts one rank, if its key is one of the named ones. */
  method TrackRank(index: map<string, nat>, rank: RelevantRank, keys: seq<LongChunkKey>, hits: nat, total: nat,
                   ghost counted: seq<RelevantRank>, ghost runes: map<string, nat>)
    returns (keys': seq<LongChunkKey>, hits': nat, total': nat)
    requires IsIndex(index) && |keys| == 3 && LongTally(counted, runes, keys, hits, total)
    ensures |keys'| == 3 && LongTally(counted + [rank], runes, keys', hits', total')
  {
    keys', hits', total' := keys, hits, total;
    assert (counted + [rank])[..|counted|] == counted;
    hide LongTally, LongGoldKeys, Cutoff;
    if rank.key in index {
      var at := index[rank.key];
      var hit := if WithinCutoff(rank.rank, Cutoff()) then 1 else 0;
      TrackOneMore(counted + [rank], runes, keys, hits, total, at);
      keys' := keys[at := keys[at].(total := keys[at].total + 1, hits := keys[at].hits + hit)];
      hits' := hits + hit;
      total' := total + 1;
    } else {
      TrackNoMore(counted + [rank], runes, keys, hits, total);
    }
  }

  ghost predicate LongTally(ranks: seq<RelevantRank>, runes: map<string, nat>, keys: seq<LongChunkKey>, hits: nat, total: nat) {
    Tracks(keys, ranks, runes) && hits == Hits(ranks, Cutoff(), IsTracked()) && total == Total(ranks, IsTracked())
  }

  lemma {:induction false} TrackNothing(keys: seq<LongChunkKey>, runes: map<string, nat>)
    requires |keys| == |LongGoldKeys()|
    requires forall k | 0 <= k < |keys| :: keys[k] == LongChunkKey(LongGoldKeys()[k], RunesOf(runes, LongGoldKeys()[k]), 0, 0)
    ensures LongTally([], runes, keys, 0, 0)
  {
    hide Cutoff;
  }

  lemma {:induction false} TrackOneMore(ranks: seq<RelevantRank>, runes: map<string, nat>, keys: seq<LongChunkKey>,
                                        hits: nat, total: nat, at: nat)
    requires ranks != [] && at < |LongGoldKeys()| == |keys| && LongGoldKeys()[at] == ranks[|ranks| - 1].key
    requires LongTally(ranks[..|ranks| - 1], runes, keys, hits, total)
    ensures var hit := if WithinCutoff(ranks[|ranks| - 1].rank, Cutoff()) then 1 else 0;
            LongTally(ranks, runes, keys[at := keys[at].(total := keys[at].total + 1, hits := keys[at].hits + hit)],
                      hits + hit, total + 1)
  {
    KeysAreDistinct();
    hide Cutoff, LongGoldKeys;
  }

  lemma {:induction false} TrackNoMore(ranks: seq<RelevantRank>, runes: map<string, nat>, keys: seq<LongChunkKey>,
                                       hits: nat, total: nat)
    requires ranks != [] && ranks[|ranks| - 1].key !in LongGoldKeys()
    requires LongTally(ranks[..|ranks| - 1], runes, keys, hits, total)
    ensures LongTally(ranks, runes, keys, hits, total)
  {
    hide Cutoff, LongGoldKeys;
  }

  lemma {:induction false} KeysAreDistinct()
    ensures Distinct(LongGoldKeys())
  {
    assert LongGoldKeys()[0][2] == 'a' && LongGoldKeys()[1][2] == 'q' && LongGoldKeys()[2][2] == 'q';
    assert LongGoldKeys()[1][14] == '2' && LongGoldKeys()[2][14] == '0';
  }

  // ----- The counts agree with each other -----

  /** The two length buckets add up to the totals. */
  lemma {:induction false} BucketsAddUp(ranks: seq<RelevantRank>, cutoff: int, runes: map<string, nat>)
    ensures Hits(ranks, cutoff, IsShort(runes)) + Hits(ranks, cutoff, IsLong(runes)) == Hits(ranks, cutoff, Every())
    ensures Total(ranks, IsShort(runes)) + Total(ranks, IsLong(runes)) == Total(ranks, Every()) == |ranks|
  {
    if ranks != [] {
      BucketsAddUp(ranks[..|ranks| - 1], cutoff, runes);
    }
  }

  /** The named chunks add up to their sum, which is part of the totals. */
  lemma {:induction false} TrackedAddUp(ranks: seq<RelevantRank>, cutoff: int)
    ensures Hits(ranks, cutoff, Is(LongGoldKeys()[0])) + Hits(ranks, cutoff, Is(LongGoldKeys()[1])) +
            Hits(ranks, cutoff, Is(LongGoldKeys()[2])) == Hits(ranks, cutoff, IsTracked()) <= Hits(ranks, cutoff, Every())
    ensures Total(ranks, Is(LongGoldKeys()[0])) + Total(ranks, Is(LongGoldKeys()[1])) + Total(ranks, Is(LongGoldKeys()[2]))
            == Total(ranks, IsTracked()) <= |ranks|
  {
    KeysAreDistinct();
    hide LongGoldKeys;
    if ranks != [] {
      TrackedAddUp(ranks[..|ranks| - 1], cutoff);
    }
  }

  lemma {:induction false} HitsConcat(a: seq<RelevantRank>, b: seq<RelevantRank>, cutoff: int, keep: string -> bool)
    ensures Hits(a + b, cutoff, keep) == Hits(a, cutoff, keep) + Hits(b, cutoff, keep)
    decreases |b|
  {
    if b == [] {
      assert a + b == a;
    } else {
      var n := |b| - 1;
      assert (a + b)[..|a + b| - 1] == a + b[..n];
      HitsConcat(a, b[..n], cutoff, keep);
    }
  }

  /** Within one report, the relevant keys that rank within the cutoff are those found in the first results. */
  lemma {:induction false} ReportHits(q: Query, ranked: seq<string>, latencies: seq<RoundLatency>, cutoff: nat, n: nat)
    requires n <= |q.relevant|
    ensures Hits(ReportOf(q, ranked, latencies).relevantRanks[..n], cutoff, Every()) == Found(Top(ranked, cutoff), q.relevant[..n])
  {
    if n > 0 {
      ReportHits(q, ranked, latencies, cutoff, n - 1);
      var ranks := ReportOf(q, ranked, latencies).relevantRanks[..n];
      assert ranks[..n - 1] == ReportOf(q, ranked, latencies).relevantRanks[..n - 1];
      assert q.relevant[..n][..n - 1] == q.relevant[..n - 1];
      WithinMeansInTop(ranked, q.relevant[n - 1], cutoff);
    }
  }

  datatype Measured = Measured(query: Query, ranked: seq<string>, latencies: seq<RoundLatency>)

  function ReportsOf(ms: seq<Measured>): (r: seq<QueryReport>)
    ensures |r| == |ms| && forall i | 0 <= i < |ms| :: r[i] == ReportOf(ms[i].query, ms[i].ranked, ms[i].latencies)
  {
    seq(|ms|, i requires 0 <= i < |ms| => ReportOf(ms[i].query, ms[i].ranked, ms[i].latencies))
  }

  function Weighted(report: QueryReport): real {
    Times(|report.relevant| as real, RecallOf(report, Cutoff()))
  }

  function WeightedRecall(reports: seq<QueryReport>): real {
    if reports == [] then 0.0 else WeightedRecall(reports[..|reports| - 1]) + Weighted(reports[|reports| - 1])
  }

  lemma {:induction false} OneReportAgrees(m: Measured)
    ensures Weighted(ReportOf(m.query, m.ranked, m.latencies)) ==
            Hits(ReportOf(m.query, m.ranked, m.latencies).relevantRanks, Cutoff(), Every()) as real
  {
    var n := |m.query.relevant|;
    var report := ReportOf(m.query, m.ranked, m.latencies);
    var k := Cutoff();
    CutoffIsTen();
    hide Cutoff;
    ReportedRecall(m.query, m.ranked, m.latencies, k);
    ReportHits(m.query, m.ranked, m.latencies, k, n);
    assert report.relevantRanks[..n] == report.relevantRanks && m.query.relevant[..n] == m.query.relevant;
    hide RecallOf, Hits, Found, Top, Times, Ratio;
    if n > 0 {
      TimesRatio(Found(Top(m.ranked, k), m.query.relevant), n);
    }
  }

  lemma {:induction false} CutoffIsTen()
    ensures Cutoff() == 10
  {
    assert K_VALUES[2] == 10 && forall x | x in K_VALUES :: x <= 10;
    hide MaxOf;
  }

  lemma {:induction false} TimesRatio(hits: int, total: int)
    requires total > 0
    ensures Times(total as real, Ratio(hits, total)) == hits as real
  {
  }

  /** Weighting each query's recall@10 by the number of its relevant keys counts exactly the micro hits, however
      the queries are ranked and even if keys repeat. */
  lemma {:induction false} MicroIsWeightedRecall(ms: seq<Measured>)
    ensures WeightedRecall(ReportsOf(ms)) == Hits(AllRanks(ReportsOf(ms)), Cutoff(), Every()) as real
  {
    if ms != [] {
      var n := |ms| - 1;
      var reports := ReportsOf(ms);
      MicroIsWeightedRecall(ms[..n]);
      assert reports[..n] == ReportsOf(ms[..n]);
      OneReportAgrees(ms[n]);
      HitsConcat(AllRanks(reports[..n]), reports[n].relevantRanks, Cutoff(), Every());
    }
  }

  // ----- Macro and micro -----

  function Sum(values: seq<real>): real {
    if values == [] then 0.0 else Sum(values[..|values| - 1]) + values[|values| - 1]
  }

  function MeanOf(values: seq<real>): real {
    if |values| == 0 then 0.0 else Sum(values) / |values| as real
  }

  method Mean(values: seq<real>) returns (m: real)
    ensures m == MeanOf(values)
  {
    if |values| == 0 {
      return 0.0;
    }
    var sum := 0.0;
    for i := 0 to |values|
      invariant sum == Sum(values[..i])
    {
      assert values[..i + 1][..i] == values[..i];
      sum := sum + values[i];
    }
    assert values[..|values|] == values;
    return sum / |values| as real;
  }

  /** For every k, the mean over queries. */
  method MeanRecall(reports: seq<QueryReport>) returns (r: seq<RecallAtK>)
    ensures |r| == |K_VALUES| && forall i | 0 <= i < |r| :: r[i] == RecallAtK(K_VALUES[i], MeanOf(Recalls(reports, K_VALUES[i])))
  {
    r := [];
    for i := 0 to |K_VALUES|
      invariant |r| == i && forall j | 0 <= j < i :: r[j] == RecallAtK(K_VALUES[j], MeanOf(Recalls(reports, K_VALUES[j])))
    {
      hide MeanOf;
      var values: seq<real> := [];
      for j := 0 to |reports|
        invariant |values| == j && forall l | 0 <= l < j :: values[l] == RecallOf(reports[l], K_VALUES[i])
      {
        values := values + [RecallOf(reports[j], K_VALUES[i])];
      }
      assert values == Recalls(reports, K_VALUES[i]);
      var mean := Mean(values);
      r := r + [RecallAtK(K_VALUES[i], mean)];
    }
  }

  function ReciprocalRanks(reports: seq<QueryReport>): (v: seq<real>)
    ensures |v| == |reports| && forall i | 0 <= i < |reports| :: v[i] == reports[i].reciprocalRank
  {
    seq(|reports|, i requires 0 <= i < |reports| => reports[i].reciprocalRank)
  }

  method MeanReciprocalRank(reports: seq<QueryReport>) returns (m: real)
    ensures m == MeanOf(ReciprocalRanks(reports))
  {
    hide MeanOf;
    var values: seq<real> := [];
    for j := 0 to |reports|
      invariant |values| == j && forall l | 0 <= l < j :: values[l] == reports[l].reciprocalRank
    {
      values := values + [reports[j].reciprocalRank];
    }
    assert values == ReciprocalRanks(reports);
    m := Mean(values);
  }

  function Recalls(reports: seq<QueryReport>, k: int): (v: seq<real>)
    ensures |v| == |reports| && forall i | 0 <= i < |reports| :: v[i] == RecallOf(reports[i], k)
  {
    seq(|reports|, i requires 0 <= i < |reports| => RecallOf(reports[i], k))
  }

  lemma {:induction false} EqualWeights(reports: seq<QueryReport>, n: nat)
    requires forall r | r in reports :: |r.relevant| == n
    ensures WeightedRecall(reports) == Times(n as real, Sum(Recalls(reports, Cutoff())))
  {
    var k := Cutoff();
    hide Cutoff, RecallOf, Times;
    if reports != [] {
      var l := |reports| - 1;
      EqualWeights(reports[..l], n);
      assert reports[l] in reports;
      assert Recalls(reports, k)[..l] == Recalls(reports[..l], k);
      Spread(n as real, Sum(Recalls(reports[..l], k)), RecallOf(reports[l], k));
    } else {
      Spread(n as real, 0.0, 0.0);
    }
  }

  lemma {:induction false} EqualCounts(reports: seq<QueryReport>, n: nat)
    requires forall r | r in reports :: |r.relevantRanks| == n
    ensures |AllRanks(reports)| as real == Times(n as real, |reports| as real)
  {
    hide Times;
    if reports != [] {
      var l := |reports| - 1;
      EqualCounts(reports[..l], n);
      assert reports[l] in reports;
      Spread(n as real, l as real, 1.0);
    } else {
      Spread(n as real, 0.0, 0.0);
    }
  }

  lemma {:induction false} Spread(n: real, a: real, b: real)
    ensures Times(n, a + b) == Times(n, a) + Times(n, b)
    ensures Times(n, 0.0) == 0.0 && Times(n, 1.0) == n
  {
  }

  /** Every sample between two bounds puts the mean between them. */
  lemma {:induction false} SumRange(values: seq<real>, bound: real)
    requires forall i | 0 <= i < |values| :: 0.0 <= values[i] <= bound
    ensures 0.0 <= Sum(values) <= Times(bound, |values| as real)
  {
    hide Times;
    if values == [] {
      Spread(bound, 0.0, 0.0);
    } else {
      SumRange(values[..|values| - 1], bound);
      Spread(bound, (|values| - 1) as real, 1.0);
    }
  }

  lemma {:induction false} SumGrows(a: seq<real>, b: seq<real>)
    requires |a| == |b| && forall i | 0 <= i < |a| :: a[i] <= b[i]
    ensures Sum(a) <= Sum(b)
  {
    if a != [] {
      SumGrows(a[..|a| - 1], b[..|b| - 1]);
    }
  }

  /** Samples in [0, 1] that grow place by place have means in [0, 1] that grow. */
  lemma {:induction false} MeanGrows(a: seq<real>, b: seq<real>)
    requires |a| == |b| && forall i | 0 <= i < |a| :: 0.0 <= a[i] <= b[i] <= 1.0
    ensures 0.0 <= MeanOf(a) <= MeanOf(b) <= 1.0
  {
    if a != [] {
      SumGrows(a, b);
      SumRange(a, 1.0);
      SumRange(b, 1.0);
      Between(Sum(a), Sum(b), |a| as real);
    }
  }

  lemma {:induction false} Between(x: real, y: real, n: real)
    requires n > 0.0 && 0.0 <= x <= y <= Times(1.0, n)
    ensures 0.0 <= x / n <= y / n <= 1.0
  {
    DivideUp(0.0, x, n);
    DivideUp(x, y, n);
    DivideUp(y, n, n);
  }

  lemma {:induction false} RecallsGrow(ms: seq<Measured>, j: int, k: int, i: nat)
    requires j in K_VALUES && k in K_VALUES && j <= k && i < |ms|
    ensures 0.0 <= Recalls(ReportsOf(ms), j)[i] <= Recalls(ReportsOf(ms), k)[i] <= 1.0
  {
    var m := ms[i];
    ReportedRecall(m.query, m.ranked, m.latencies, j);
    ReportedRecall(m.query, m.ranked, m.latencies, k);
    RecallIsMonotone(m.ranked, m.query.relevant, j, k);
    assert ReportsOf(ms)[i] == ReportOf(m.query, m.ranked, m.latencies);
    hide ReportOf, RecallOf;
  }

  /** Mean recall does not fall when k grows, and stays in [0, 1]. */
  lemma {:induction false} MeanRecallIsMonotone(ms: seq<Measured>, j: int, k: int)
    requires j in K_VALUES && k in K_VALUES && j <= k
    ensures 0.0 <= MeanOf(Recalls(ReportsOf(ms), j)) <= MeanOf(Recalls(ReportsOf(ms), k)) <= 1.0
  {
    var a, b := Recalls(ReportsOf(ms), j), Recalls(ReportsOf(ms), k);
    forall i | 0 <= i < |ms|
      ensures 0.0 <= a[i] <= b[i] <= 1.0
    {
      RecallsGrow(ms, j, k, i);
    }
    assert |a| == |ms| == |b|;
    hide *;
    MeanGrows(a, b);
  }

  /** When every query has the same number of relevant keys, the mean of recall@10 over queries and the micro
      recall over keys are the same number. */
  lemma {:induction false} MacroMeetsMicro(ms: seq<Measured>, n: nat)
    requires ms != [] && n > 0 && forall m | m in ms :: |m.query.relevant| == n
    ensures var ranks := AllRanks(ReportsOf(ms));
            MeanOf(Recalls(ReportsOf(ms), Cutoff())) == Ratio(Hits(ranks, Cutoff(), Every()), |ranks|)
  {
    MicroIsWeightedRecall(ms);
    forall r | r in ReportsOf(ms)
      ensures |r.relevant| == n && |r.relevantRanks| == n
    {
      var i :| 0 <= i < |ms| && ReportsOf(ms)[i] == r;
      assert ms[i] in ms;
    }
    EqualWeights(ReportsOf(ms), n);
    EqualCounts(ReportsOf(ms), n);
    var sum := Sum(Recalls(ReportsOf(ms), Cutoff()));
    Cancel(n as real, sum, |ms| as real);
    assert MeanOf(Recalls(ReportsOf(ms), Cutoff())) == sum / |ms| as real;
    hide Hits, AllRanks, Recalls, Sum, ReportsOf, Cutoff, WeightedRecall, Times, MeanOf;
  }

  lemma {:induction false} Cancel(n: real, sum: real, count: real)
    requires n > 0.0 && count > 0.0
    ensures Times(n, count) > 0.0 && sum / count == Times(n, sum) / Times(n, count)
  {
    var q := sum / count;
    assert sum == q * count;
    assert n * sum == q * (n * count);
  }
}
