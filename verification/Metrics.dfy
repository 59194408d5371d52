/** The measures of one query, and the totals over all queries.

    A share is a pair of counts divided in exact reals; a duration is an integer.
 */
module Metrics {
  import opened Reals
  import opened Sequences
  import opened Wrappers

  const K_VALUES: seq<int> := [1, 5, 10]

  // ----- One query -----

  /** The first k of a list; all of it when it is shorter. */
  function Top<T>(ranked: seq<T>, k: nat): seq<T> {
    if |ranked| > k then ranked[..k] else ranked
  }

  /** How many of the relevant keys are in a list. */
  function Found(top: seq<string>, relevant: seq<string>): (n: nat)
    ensures n <= |relevant|
  {
    if relevant == [] then 0
    else Found(top, relevant[..|relevant| - 1]) + if relevant[|relevant| - 1] in top then 1 else 0
  }

  function Ratio(hits: int, total: int): real {
    if total == 0 then 0.0 else hits as real / total as real
  }

  function Recall(ranked: seq<string>, relevant: seq<string>, k: int): real {
    if |relevant| == 0 || k < 1 then 0.0 else Ratio(Found(Top(ranked, k), relevant), |relevant|)
  }

  method RecallAt(ranked: seq<string>, relevant: seq<string>, k: int) returns (r: real)
    ensures r == Recall(ranked, relevant, k)
  {
    if |relevant| == 0 || k < 1 {
      return 0.0;
    }
    var top := ranked;
    if |top| > k {
      top := top[..k];
    }
    var found := 0;
    for i := 0 to |relevant|
      invariant found == Found(top, relevant[..i])
    {
      assert relevant[..i + 1][..i] == relevant[..i];
      if relevant[i] in top {
        found := found + 1;
      }
    }
    assert relevant[..|relevant|] == relevant;
    return found as real / |relevant| as real;
  }

  /** The 1-based position of the first occurrence. */
  function RankOf(ranked: seq<string>, key: string): (r: Option<nat>)
    ensures r.Some? ==> 1 <= r.value <= |ranked| && ranked[r.value - 1] == key && key !in ranked[..r.value - 1]
    ensures r.None? ==> key !in ranked
  {
    if ranked == [] then None
    else
      var n := |ranked| - 1;
      var before := RankOf(ranked[..n], key);
      if before.Some? then
        assert ranked[..n][..before.value - 1] == ranked[..before.value - 1];
        before
      else if ranked[n] == key then Some(n + 1)
      else
        assert ranked == ranked[..n] + [ranked[n]];
        None
  }

  ghost predicate IsFirstRelevant(ranked: seq<string>, relevant: seq<string>, rank: Option<nat>) {
    match rank
    case Some(n) => 1 <= n <= |ranked| && ranked[n - 1] in relevant && forall i | 0 <= i < n - 1 :: ranked[i] !in relevant
    case None => forall i | 0 <= i < |ranked| :: ranked[i] !in relevant
  }

  /** The 1-based position of the first relevant result. */
  function FirstRelevant(ranked: seq<string>, relevant: seq<string>): (rank: Option<nat>)
    ensures IsFirstRelevant(ranked, relevant, rank)
  {
    if ranked == [] then None
    else
      var n := |ranked| - 1;
      var before := FirstRelevant(ranked[..n], relevant);
      if before.Some? then before else if ranked[n] in relevant then Some(n + 1) else None
  }

  lemma {:induction false} FirstRelevantIsUnique(ranked: seq<string>, relevant: seq<string>, a: Option<nat>, b: Option<nat>)
    requires IsFirstRelevant(ranked, relevant, a) && IsFirstRelevant(ranked, relevant, b)
    ensures a == b
  {
    if a.Some? && b.Some? {
      assert ranked[a.value - 1] in relevant && ranked[b.value - 1] in relevant;
    }
  }

  method FirstRelevantRank(ranked: seq<string>, relevant: seq<string>) returns (rank: Option<nat>)
    ensures rank == FirstRelevant(ranked, relevant)
  {
    for i := 0 to |ranked|
      invariant forall j | 0 <= j < i :: ranked[j] !in relevant
    {
      if ranked[i] in relevant {
        FirstRelevantIsUnique(ranked, relevant, Some(i + 1), FirstRelevant(ranked, relevant));
        return Some(i + 1);
      }
    }
    FirstRelevantIsUnique(ranked, relevant, None, FirstRelevant(ranked, relevant));
    return None;
  }

  /** 0 when no relevant key was returned. */
  function Reciprocal(rank: Option<nat>): real {
    if rank.None? || rank.value == 0 then 0.0 else 1.0 / rank.value as real
  }

  method ReciprocalRank(ranked: seq<string>, relevant: seq<string>) returns (r: real)
    ensures r == Reciprocal(FirstRelevant(ranked, relevant))
  {
    var rank := FirstRelevantRank(ranked, relevant);
    r := Reciprocal(rank);
  }

  predicate WithinCutoff(rank: Option<nat>, cutoff: int) {
    rank.Some? && rank.value <= cutoff
  }

  /** A key ranks within the cutoff exactly if it is among the first `cutoff` results. */
  lemma {:induction false} WithinMeansInTop(ranked: seq<string>, key: string, cutoff: nat)
    ensures WithinCutoff(RankOf(ranked, key), cutoff) <==> key in Top(ranked, cutoff)
  {
    var rank := RankOf(ranked, key);
    if rank.Some? && rank.value <= cutoff {
      assert Top(ranked, cutoff)[rank.value - 1] == key;
    }
    forall i | 0 <= i < |Top(ranked, cutoff)|
      ensures rank.Some? && Top(ranked, cutoff)[i] == key ==> rank.value <= cutoff
    {
      if rank.Some? && i < rank.value - 1 {
        assert ranked[..rank.value - 1][i] == ranked[i];
      }
    }
  }

  lemma {:induction false} TopGrows(ranked: seq<string>, j: nat, k: nat, key: string)
    requires j <= k && key in Top(ranked, j)
    ensures key in Top(ranked, k) && key in ranked
  {
    var i :| 0 <= i < |Top(ranked, j)| && Top(ranked, j)[i] == key;
    assert Top(ranked, k)[i] == key && ranked[i] == key;
  }

  lemma {:induction false} FoundGrows(a: seq<string>, b: seq<string>, relevant: seq<string>)
    requires forall key | key in a :: key in b
    ensures Found(a, relevant) <= Found(b, relevant)
  {
    if relevant != [] {
      FoundGrows(a, b, relevant[..|relevant| - 1]);
    }
  }

  lemma {:induction false} RatioGrows(a: int, b: int, total: int)
    requires 0 <= a <= b <= total
    ensures 0.0 <= Ratio(a, total) <= Ratio(b, total) <= 1.0
  {
    if total > 0 {
      DivideUp(a as real, b as real, total as real);
      DivideUp(0.0, a as real, total as real);
      DivideUp(b as real, total as real, total as real);
    }
  }

  /** recall@k never falls when k grows, and stays between 0 and 1. */
  lemma {:induction false} RecallIsMonotone(ranked: seq<string>, relevant: seq<string>, j: int, k: int)
    requires j <= k
    ensures 0.0 <= Recall(ranked, relevant, j) <= Recall(ranked, relevant, k) <= 1.0
  {
    if |relevant| > 0 && k >= 1 {
      RatioGrows(0, Found(Top(ranked, k), relevant), |relevant|);
      if j >= 1 {
        forall key | key in Top(ranked, j)
          ensures key in Top(ranked, k)
        {
          TopGrows(ranked, j, k, key);
        }
        FoundGrows(Top(ranked, j), Top(ranked, k), relevant);
        RatioGrows(Found(Top(ranked, j), relevant), Found(Top(ranked, k), relevant), |relevant|);
      }
    }
  }

  lemma {:induction false} FoundAtMost(top: seq<string>, relevant: seq<string>)
    requires Distinct(relevant)
    ensures Found(top, relevant) <= |top|
  {
    FoundSet(top, relevant);
    var here := set key | key in relevant && key in top;
    assert here <= set key | key in top;
    SetOfSeq(top);
    SubsetSize(here, set key | key in top);
  }

  lemma {:induction false} FoundSet(top: seq<string>, relevant: seq<string>)
    requires Distinct(relevant)
    ensures Found(top, relevant) == |set key | key in relevant && key in top|
  {
    if relevant != [] {
      var n := |relevant| - 1;
      var last := relevant[n];
      FoundSet(top, relevant[..n]);
      var before := set key | key in relevant[..n] && key in top;
      var now := set key | key in relevant && key in top;
      assert relevant == relevant[..n] + [last];
      assert last !in relevant[..n];
      assert now == if last in top then before + {last} else before;
    }
  }

  lemma {:induction false} SetOfSeq(s: seq<string>)
    ensures |set x | x in s| <= |s|
  {
    if s != [] {
      var n := |s| - 1;
      SetOfSeq(s[..n]);
      assert s == s[..n] + [s[n]];
      assert (set x | x in s) == (set x | x in s[..n]) + {s[n]};
    }
  }

  /** A query with more relevant keys than k cannot reach recall@k 1: the cap is k over their number. */
  lemma {:induction false} RecallIsCapped(ranked: seq<string>, relevant: seq<string>, k: nat)
    requires Distinct(relevant) && |relevant| > 0
    ensures Recall(ranked, relevant, k) <= Ratio(k, |relevant|)
    ensures |relevant| > k ==> Recall(ranked, relevant, k) < 1.0
  {
    FoundAtMost(Top(ranked, k), relevant);
    if k >= 1 {
      DivideUp(Found(Top(ranked, k), relevant) as real, k as real, |relevant| as real);
    }
  }

  /** The reciprocal rank reaches 1/k exactly if some relevant key is in the first k, that is if recall@k is positive. */
  lemma {:induction false} ReciprocalMeetsRecall(ranked: seq<string>, relevant: seq<string>, k: nat)
    requires k >= 1
    ensures Reciprocal(FirstRelevant(ranked, relevant)) >= 1.0 / k as real <==> Recall(ranked, relevant, k) > 0.0
  {
    var rank := FirstRelevant(ranked, relevant);
    FoundSome(Top(ranked, k), relevant);
    if rank.Some? && rank.value <= k {
      assert Top(ranked, k)[rank.value - 1] in relevant;
      InverseDown(rank.value as real, k as real);
    }
    forall i | 0 <= i < |Top(ranked, k)|
      ensures Top(ranked, k)[i] == ranked[i]
    {
    }
    if rank.Some? && rank.value > k {
      InverseDown(k as real, rank.value as real);
    }
  }

  lemma {:induction false} FoundSome(top: seq<string>, relevant: seq<string>)
    ensures Found(top, relevant) > 0 <==> exists key :: key in relevant && key in top
  {
    if relevant != [] {
      var n := |relevant| - 1;
      FoundSome(top, relevant[..n]);
      assert relevant == relevant[..n] + [relevant[n]];
    }
  }

  // ----- Reports -----

  datatype Query = Query(id: string, text: string, tags: seq<string>, relevant: seq<string>)

  /** What one round took, with and without embedding the query. */
  datatype RoundLatency = RoundLatency(round: nat, withEmbedding: real, withoutEmbedding: real)

  datatype RelevantRank = RelevantRank(key: string, rank: Option<nat>)

  datatype RecallAtK = RecallAtK(k: int, value: real)

  datatype QueryReport = QueryReport(
    queryId: string,
    text: string,
    tags: seq<string>,
    relevant: seq<string>,
    rankedKeys: seq<string>,
    relevantRanks: seq<RelevantRank>,
    recall: seq<RecallAtK>,
    reciprocalRank: real,
    latencies: seq<RoundLatency>)

  function ReportOf(q: Query, ranked: seq<string>, latencies: seq<RoundLatency>): QueryReport {
    QueryReport(q.id, q.text, q.tags, q.relevant, ranked,
      seq(|q.relevant|, i requires 0 <= i < |q.relevant| => RelevantRank(q.relevant[i], RankOf(ranked, q.relevant[i]))),
      seq(|K_VALUES|, i requires 0 <= i < |K_VALUES| => RecallAtK(K_VALUES[i], Recall(ranked, q.relevant, K_VALUES[i]))),
      Reciprocal(FirstRelevant(ranked, q.relevant)), latencies)
  }

  method NewQueryReport(q: Query, ranked: seq<string>, latencies: seq<RoundLatency>) returns (r: QueryReport)
    ensures r == ReportOf(q, ranked, latencies)
  {
    var recalls: seq<RecallAtK> := [];
    for i := 0 to |K_VALUES|
      invariant |recalls| == i
      invariant forall j | 0 <= j < i :: recalls[j] == RecallAtK(K_VALUES[j], Recall(ranked, q.relevant, K_VALUES[j]))
    {
      var value := RecallAt(ranked, q.relevant, K_VALUES[i]);
      recalls := recalls + [RecallAtK(K_VALUES[i], value)];
    }
    var ranks: seq<RelevantRank> := [];
    for i := 0 to |q.relevant|
      invariant |ranks| == i
      invariant forall j | 0 <= j < i :: ranks[j] == RelevantRank(q.relevant[j], RankOf(ranked, q.relevant[j]))
    {
      ranks := ranks + [RelevantRank(q.relevant[i], RankOf(ranked, q.relevant[i]))];
    }
    assert recalls == ReportOf(q, ranked, latencies).recall;
    var reciprocal := ReciprocalRank(ranked, q.relevant);
    return QueryReport(q.id, q.text, q.tags, q.relevant, ranked, ranks, recalls, reciprocal, latencies);
  }

  function ValueAt(values: seq<RecallAtK>, k: int): real {
    if values == [] then 0.0
    else if values[0].k == k then values[0].value
    else ValueAt(values[1..], k)
  }

  function RecallOf(report: QueryReport, k: int): real {
    ValueAt(report.recall, k)
  }

  lemma {:induction false} FirstAt(values: seq<RecallAtK>, k: int, i: nat)
    requires i < |values| && values[i].k == k && forall j | 0 <= j < i :: values[j].k != k
    ensures ValueAt(values, k) == values[i].value
  {
    if i > 0 {
      FirstAt(values[1..], k, i - 1);
    }
  }

  /** The report holds the recall of every k it lists. */
  lemma {:induction false} ReportedRecall(q: Query, ranked: seq<string>, latencies: seq<RoundLatency>, k: int)
    requires k in K_VALUES
    ensures RecallOf(ReportOf(q, ranked, latencies), k) == Recall(ranked, q.relevant, k)
  {
    var values := ReportOf(q, ranked, latencies).recall;
    var i :| 0 <= i < |K_VALUES| && K_VALUES[i] == k;
    FirstAt(values, k, i);
  }
}
