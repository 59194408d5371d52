/** What the measures count, on the ranked keys and the reports themselves. */
module MeasureLaws {
  import opened Sequences
  import opened Wrappers
  import opened Metrics
  import opened MicroRecall
  import Percentiles

  // ----- Recall -----

  /** Place i of the relevant keys holds a key that is among the first k results. */
  ghost predicate IsHit(ranked: seq<string>, relevant: seq<string>, k: int, i: int) {
    0 <= i < |relevant| && exists j | 0 <= j < |ranked| :: j < k && ranked[j] == relevant[i]
  }

  ghost function HitsBefore(ranked: seq<string>, relevant: seq<string>, k: int, n: nat): set<int> {
    set i | 0 <= i < n && IsHit(ranked, relevant, k, i)
  }

  lemma {:induction false} OneHitMore(ranked: seq<string>, relevant: seq<string>, k: int, n: nat)
    ensures |HitsBefore(ranked, relevant, k, n + 1)| ==
            |HitsBefore(ranked, relevant, k, n)| + if IsHit(ranked, relevant, k, n) then 1 else 0
  {
    hide IsHit;
    var before := HitsBefore(ranked, relevant, k, n);
    assert HitsBefore(ranked, relevant, k, n + 1) == if IsHit(ranked, relevant, k, n) then before + {n as int} else before;
  }

  lemma {:induction false} FoundCounts(ranked: seq<string>, relevant: seq<string>, k: nat, n: nat)
    requires n <= |relevant|
    ensures Found(Top(ranked, k), relevant[..n]) == |HitsBefore(ranked, relevant, k, n)|
  {
    if n == 0 {
      assert HitsBefore(ranked, relevant, k, 0) == {};
    } else {
      FoundCounts(ranked, relevant, k, n - 1);
      OneHitMore(ranked, relevant, k, n - 1);
      InTop(ranked, relevant[n - 1], k);
      assert relevant[..n][..n - 1] == relevant[..n - 1];
      hide Top, HitsBefore;
    }
  }

  lemma {:induction false} InTop(ranked: seq<string>, key: string, k: nat)
    ensures key in Top(ranked, k) <==> exists j | 0 <= j < |ranked| :: j < k && ranked[j] == key
  {
    if key in Top(ranked, k) {
      var j :| 0 <= j < |Top(ranked, k)| && Top(ranked, k)[j] == key;
      assert ranked[j] == key;
    }
    if j :| 0 <= j < |ranked| && j < k && ranked[j] == key {
      assert Top(ranked, k)[j] == key;
    }
  }

  lemma {:induction false} Undivided(n: int, total: int)
    requires total > 0
    ensures Ratio(n, total) * total as real == n as real
  {
  }

  /** recall@k times the number of relevant keys is the number of them among the first k results; without relevant
      keys, or for k below 1, it is 0. */
  lemma {:induction false} RecallCounts(ranked: seq<string>, relevant: seq<string>, k: int)
    ensures Recall(ranked, relevant, k) * |relevant| as real == (|set i | 0 <= i < |relevant| && IsHit(ranked, relevant, k, i)|) as real
    ensures relevant == [] || k < 1 ==> Recall(ranked, relevant, k) == 0.0
  {
    if k >= 1 && |relevant| > 0 {
      FoundCounts(ranked, relevant, k, |relevant|);
      assert relevant[..|relevant|] == relevant;
      assert HitsBefore(ranked, relevant, k, |relevant|) == set i | 0 <= i < |relevant| && IsHit(ranked, relevant, k, i);
      hide IsHit;
      Undivided(Found(Top(ranked, k), relevant), |relevant|);
    } else {
      assert (set i | 0 <= i < |relevant| && IsHit(ranked, relevant, k, i)) == {};
    }
  }

  /** The reciprocal rank times the rank is 1. */
  lemma {:induction false} ReciprocalMeans(ranked: seq<string>, relevant: seq<string>)
    ensures match FirstRelevant(ranked, relevant)
            case Some(n) =>
              && Reciprocal(Some(n)) * n as real == 1.0
              && 1 <= n <= |ranked| && ranked[n - 1] in relevant && forall i | 0 <= i < n - 1 :: ranked[i] !in relevant
            case None => Reciprocal(None) == 0.0 && forall i | 0 <= i < |ranked| :: ranked[i] !in relevant
  {
  }

  /** A report carries the query, the ranking and the latencies as they came; it has recall@1, @5 and @10, for every
      relevant key the position of its first occurrence, and the reciprocal of the first relevant position. */
  lemma {:induction false} ReportMeans(q: Query, ranked: seq<string>, latencies: seq<RoundLatency>)
    ensures var r := ReportOf(q, ranked, latencies);
            && r.queryId == q.id && r.text == q.text && r.tags == q.tags && r.relevant == q.relevant
            && r.rankedKeys == ranked && r.latencies == latencies
            && |r.recall| == 3 && r.recall[0].k == 1 && r.recall[1].k == 5 && r.recall[2].k == 10
            && (forall i | 0 <= i < 3 :: r.recall[i].value == Recall(ranked, q.relevant, r.recall[i].k))
            && |r.relevantRanks| == |q.relevant|
            && (forall i | 0 <= i < |q.relevant| ::
                  && r.relevantRanks[i].key == q.relevant[i]
                  && match r.relevantRanks[i].rank
                     case Some(n) => 1 <= n <= |ranked| && ranked[n - 1] == q.relevant[i] && q.relevant[i] !in ranked[..n - 1]
                     case None => q.relevant[i] !in ranked)
            && r.reciprocalRank == Reciprocal(FirstRelevant(ranked, q.relevant))
  {
    hide Recall, FirstRelevant, Reciprocal;
  }

  // ----- Counts over all reports -----

  ghost predicate IsWanted(ranks: seq<RelevantRank>, keep: string -> bool, i: int) {
    0 <= i < |ranks| && keep(ranks[i].key)
  }

  /** Wanted, and ranked among the first ten. */
  ghost predicate IsFound(ranks: seq<RelevantRank>, keep: string -> bool, i: int) {
    IsWanted(ranks, keep, i) && ranks[i].rank.Some? && ranks[i].rank.value <= 10
  }

  ghost function WantedPlaces(ranks: seq<RelevantRank>, keep: string -> bool): set<int> {
    set i | 0 <= i < |ranks| && IsWanted(ranks, keep, i)
  }

  ghost function FoundPlaces(ranks: seq<RelevantRank>, keep: string -> bool): set<int> {
    set i | 0 <= i < |ranks| && IsFound(ranks, keep, i)
  }

  lemma {:induction false} LastPlace(ranks: seq<RelevantRank>, keep: string -> bool)
    requires ranks != []
    ensures var n := |ranks| - 1;
            && |WantedPlaces(ranks, keep)| == |WantedPlaces(ranks[..n], keep)| + (if IsWanted(ranks, keep, n) then 1 else 0)
            && |FoundPlaces(ranks, keep)| == |FoundPlaces(ranks[..n], keep)| + if IsFound(ranks, keep, n) then 1 else 0
  {
    var n := |ranks| - 1;
    var rest := ranks[..n];
    forall i | 0 <= i < n
      ensures IsWanted(rest, keep, i) == IsWanted(ranks, keep, i) && IsFound(rest, keep, i) == IsFound(ranks, keep, i)
    {
    }
    var wanted, found := WantedPlaces(rest, keep), FoundPlaces(rest, keep);
    hide IsWanted, IsFound;
    assert WantedPlaces(ranks, keep) == if IsWanted(ranks, keep, n) then wanted + {n} else wanted;
    assert FoundPlaces(ranks, keep) == if IsFound(ranks, keep, n) then found + {n} else found;
  }

  lemma {:induction false} TotalsCount(ranks: seq<RelevantRank>, keep: string -> bool)
    ensures Total(ranks, keep) == |WantedPlaces(ranks, keep)|
    ensures Hits(ranks, Cutoff(), keep) == |FoundPlaces(ranks, keep)|
  {
    CutoffIsTen();
    hide Cutoff;
    if ranks == [] {
      assert WantedPlaces(ranks, keep) == {} && FoundPlaces(ranks, keep) == {};
    } else {
      TotalsCount(ranks[..|ranks| - 1], keep);
      LastPlace(ranks, keep);
      hide WantedPlaces, FoundPlaces;
    }
  }

  /** The length buckets count the keys of passages of at most and of more than 520 runes, unknown ones among the
      short, and those of them ranked among the first ten. */
  lemma {:induction false} BucketsCount(ranks: seq<RelevantRank>, runes: map<string, nat>)
    ensures var short := BucketOf(ranks, IsShort(runes), 0, GOLD_LENGTH_THRESHOLD);
            && short.total == |set i | 0 <= i < |ranks| && (ranks[i].key !in runes || runes[ranks[i].key] <= 520)|
            && short.hits == |set i | 0 <= i < |ranks| && (ranks[i].key !in runes || runes[ranks[i].key] <= 520)
                                      && ranks[i].rank.Some? && ranks[i].rank.value <= 10|
    ensures var long := BucketOf(ranks, IsLong(runes), GOLD_LENGTH_THRESHOLD + 1, 0);
            && long.total == |set i | 0 <= i < |ranks| && ranks[i].key in runes && runes[ranks[i].key] > 520|
            && long.hits == |set i | 0 <= i < |ranks| && ranks[i].key in runes && runes[ranks[i].key] > 520
                                     && ranks[i].rank.Some? && ranks[i].rank.value <= 10|
  {
    ShortCounts(ranks, runes);
    LongCounts(ranks, runes);
    BucketCounts(ranks, IsShort(runes), 0, GOLD_LENGTH_THRESHOLD);
    BucketCounts(ranks, IsLong(runes), GOLD_LENGTH_THRESHOLD + 1, 0);
    hide *;
  }

  lemma {:induction false} ShortCounts(ranks: seq<RelevantRank>, runes: map<string, nat>)
    ensures WantedPlaces(ranks, IsShort(runes)) ==
            set i | 0 <= i < |ranks| && (ranks[i].key !in runes || runes[ranks[i].key] <= 520)
    ensures FoundPlaces(ranks, IsShort(runes)) ==
            set i | 0 <= i < |ranks| && (ranks[i].key !in runes || runes[ranks[i].key] <= 520)
                    && ranks[i].rank.Some? && ranks[i].rank.value <= 10
  {
  }

  lemma {:induction false} LongCounts(ranks: seq<RelevantRank>, runes: map<string, nat>)
    ensures WantedPlaces(ranks, IsLong(runes)) ==
            set i | 0 <= i < |ranks| && ranks[i].key in runes && runes[ranks[i].key] > 520
    ensures FoundPlaces(ranks, IsLong(runes)) ==
            set i | 0 <= i < |ranks| && ranks[i].key in runes && runes[ranks[i].key] > 520
                    && ranks[i].rank.Some? && ranks[i].rank.value <= 10
  {
  }

  lemma {:induction false} BucketCounts(ranks: seq<RelevantRank>, keep: string -> bool, minRunes: nat, maxRunes: nat)
    ensures var b := BucketOf(ranks, keep, minRunes, maxRunes);
            && b.total == |WantedPlaces(ranks, keep)|
            && b.hits == |FoundPlaces(ranks, keep)|
  {
    TotalsCount(ranks, keep);
    hide Cutoff, IsWanted, IsFound;
  }

  /** The value of a bucket is its hits over its total. */
  lemma {:induction false} BucketShare(ranks: seq<RelevantRank>, keep: string -> bool, minRunes: nat, maxRunes: nat)
    ensures var b := BucketOf(ranks, keep, minRunes, maxRunes);
            && b.value * b.total as real == b.hits as real && (b.total == 0 ==> b.value == 0.0)
            && b.minRunes == minRunes && b.maxRunes == maxRunes
  {
    hide Cutoff;
    if Total(ranks, keep) > 0 {
      Undivided(Hits(ranks, Cutoff(), keep), Total(ranks, keep));
    }
  }

  /** The micro counts: all relevant keys, those ranked among the first ten, and their share. */
  lemma {:induction false} MicroCounts(ranks: seq<RelevantRank>)
    ensures Cutoff() == 10
    ensures Hits(ranks, Cutoff(), Every()) == |set i | 0 <= i < |ranks| && ranks[i].rank.Some? && ranks[i].rank.value <= 10|
    ensures Ratio(Hits(ranks, Cutoff(), Every()), |ranks|) * |ranks| as real == Hits(ranks, Cutoff(), Every()) as real
  {
    CutoffIsTen();
    TotalsCount(ranks, Every());
    hide Cutoff;
    assert FoundPlaces(ranks, Every()) ==
           set i | 0 <= i < |ranks| && ranks[i].rank.Some? && ranks[i].rank.value <= 10;
    if |ranks| > 0 {
      Undivided(Hits(ranks, Cutoff(), Every()), |ranks|);
    }
  }

  /** Each named chunk is counted under its own key, and the sum counts the three of them. */
  lemma {:induction false} TrackedCount(ranks: seq<RelevantRank>, key: string, runes: nat)
    ensures TrackedKey(ranks, key, runes).total == |set i | 0 <= i < |ranks| && ranks[i].key == key|
    ensures TrackedKey(ranks, key, runes).hits ==
            |set i | 0 <= i < |ranks| && ranks[i].key == key && ranks[i].rank.Some? && ranks[i].rank.value <= 10|
    ensures Total(ranks, IsTracked()) ==
            |set i | 0 <= i < |ranks| && ranks[i].key in ["readme#005", "requirements#023", "requirements#008"]|
  {
    TotalsCount(ranks, Is(key));
    TotalsCount(ranks, IsTracked());
    hide Cutoff;
    assert WantedPlaces(ranks, Is(key)) == set i | 0 <= i < |ranks| && ranks[i].key == key;
    assert FoundPlaces(ranks, Is(key)) ==
           set i | 0 <= i < |ranks| && ranks[i].key == key && ranks[i].rank.Some? && ranks[i].rank.value <= 10;
    assert WantedPlaces(ranks, IsTracked()) ==
           set i | 0 <= i < |ranks| && ranks[i].key in ["readme#005", "requirements#023", "requirements#008"];
  }

  // ----- Percentiles -----

  ghost function Places(samples: seq<int>, k: nat, p: int -> bool): set<int> {
    set i | k <= i < |samples| && p(samples[i])
  }

  lemma {:induction false} OnePlaceMore(samples: seq<int>, k: nat, p: int -> bool)
    requires k < |samples|
    ensures |Places(samples, k, p)| == |Places(samples, k + 1, p)| + if p(samples[k]) then 1 else 0
  {
    var later := Places(samples, k + 1, p);
    assert k !in later;
    assert Places(samples, k, p) == if p(samples[k]) then later + {k} else later;
  }

  lemma {:induction false} CountsFrom(samples: seq<int>, v: int, k: nat)
    requires k <= |samples|
    ensures Percentiles.Below(samples[k..], v) == |Places(samples, k, x => x < v)|
    ensures Percentiles.AtMost(samples[k..], v) == |Places(samples, k, x => x <= v)|
    decreases |samples| - k
  {
    if k == |samples| {
      assert Places(samples, k, x => x < v) == {} && Places(samples, k, x => x <= v) == {};
    } else {
      CountsFrom(samples, v, k + 1);
      OnePlaceMore(samples, k, x => x < v);
      OnePlaceMore(samples, k, x => x <= v);
      hide Places;
      assert samples[k..][1..] == samples[k + 1..] && samples[k..][0] == samples[k];
    }
  }

  /** For 0 < p <= 100 the p-th percentile is a sample with at least p per cent of the samples at or below it and fewer
      than p per cent below it. */
  lemma {:induction false} PercentileMeans(samples: seq<int>, p: real, v: int)
    requires samples != [] && 0.0 < p <= 100.0 && Percentiles.IsKth(samples, Percentiles.Rank(p, |samples|), v)
    ensures v in samples
    ensures |set i | 0 <= i < |samples| && samples[i] <= v| as real >= p / 100.0 * |samples| as real
    ensures (|set i | 0 <= i < |samples| && samples[i] < v| as real) < p / 100.0 * |samples| as real
  {
    Percentiles.PercentileCoversShare(samples, p, v);
    CountsFrom(samples, v, 0);
    assert samples[0..] == samples;
    assert Places(samples, 0, x => x < v) == set i | 0 <= i < |samples| && samples[i] < v;
    assert Places(samples, 0, x => x <= v) == set i | 0 <= i < |samples| && samples[i] <= v;
    hide Percentiles.Below, Percentiles.AtMost;
  }
}
