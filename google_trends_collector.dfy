/**
  The search-interest collector: five fixed keywords, sent one per batch
  for the last month of interest in the requested region. A keyword whose
  average interest exceeds 5 becomes a record with its rounded average,
  its quarter-over-quarter trend, its peak and its spread. Each batch has
  its own try block, so a failing request only loses that batch.
 */
module GoogleTrendsCollector {
  import opened Wrappers
  import opened Json
  import opened Schema
  import opened Numbers
  import opened Text

  const WorkflowKeywords: seq<string> := [
    "n8n slack automation",
    "n8n google sheets integration",
    "n8n email automation",
    "n8n webhook workflow",
    "n8n database automation"
  ]

  /** Keywords per request. */
  const BatchSize: nat := 1

  /** Average interest a keyword must exceed to be kept. */
  const MinAverageInterest: real := 5.0

  /**
    What building the payload and asking for interest over time returns:
    an exception, or a frame with one integer column per keyword found.
   */
  datatype TrendsReply = Failed | Frame(columns: map<string, seq<int>>)

  /** DataFrame.empty: the frame holds no data point. */
  predicate FrameEmpty(columns: map<string, seq<int>>)
  {
    forall k :: k in columns ==> columns[k] == []
  }

  /** The region sent with each request: the requested one if supported, otherwise US. */
  function GeoCode(country: string): (g: string)
    ensures g in ["US", "IN"]
    ensures country in ["US", "IN"] <==> g == country
  {
    if country in ["US", "IN"] then country else "US"
  }

  /** The mean of the last quarter of the series. */
  function RecentAverage(series: seq<int>): real
    requires |series| >= 4
  {
    var q := |series| / 4;
    Mean(series[|series| - q..])
  }

  /** The mean of the quarter before the last. */
  function PreviousAverage(series: seq<int>): real
    requires |series| >= 4
  {
    var n, q := |series|, |series| / 4;
    Mean(series[n - 2 * q..n - q])
  }

  /**
    _calculate_trend_change: the percentage by which the last quarter's mean
    exceeds the previous quarter's, 0 for fewer than four points or a
    previous quarter without interest.
   */
  function TrendChange(series: seq<int>): (r: real)
    ensures |series| < 4 ==> r == 0.0
    ensures |series| >= 4 && PreviousAverage(series) <= 0.0 ==> r == 0.0
  {
    if |series| < 4 then 0.0
    else
      var recent := RecentAverage(series);
      var previous := PreviousAverage(series);
      if previous > 0.0 then (recent - previous) / previous * 100.0 else 0.0
  }

  /** Otherwise the trend times the previous quarter's mean is the rise of the mean, in percent. */
  lemma TrendChangeRatio(series: seq<int>)
    requires |series| >= 4 && PreviousAverage(series) > 0.0
    ensures TrendChange(series) * PreviousAverage(series) == (RecentAverage(series) - PreviousAverage(series)) * 100.0
  {
    var p := PreviousAverage(series);
    var d := RecentAverage(series) - p;
    assert TrendChange(series) == d / p * 100.0;
  }

  /** The two quarters are the adjacent, equally long windows that end the series. */
  lemma TrendWindows(series: seq<int>)
    requires |series| >= 4
    ensures var n, q := |series|, |series| / 4;
      1 <= q && 2 * q <= n && series[n - 2 * q..n - q] + series[n - q..] == series[n - 2 * q..]
  {
  }

  /** The trend is positive exactly when interest rose, zero exactly when it held. */
  lemma TrendChangeSign(series: seq<int>)
    requires |series| >= 4 && PreviousAverage(series) > 0.0
    ensures TrendChange(series) > 0.0 <==> RecentAverage(series) > PreviousAverage(series)
    ensures TrendChange(series) == 0.0 <==> RecentAverage(series) == PreviousAverage(series)
  {
    var p := PreviousAverage(series);
    var d := RecentAverage(series) - p;
    assert TrendChange(series) == d / p * 100.0;
  }

  /** A flat series has no trend. */
  lemma TrendChangeFlat(series: seq<int>, c: int)
    requires forall i :: 0 <= i < |series| ==> series[i] == c
    ensures TrendChange(series) == 0.0
  {
    if |series| >= 4 {
      var n, q := |series|, |series| / 4;
      MeanConstant(series[n - q..], c);
      MeanConstant(series[n - 2 * q..n - q], c);
    }
  }

  /** Interest never negative: the trend never falls below -100 percent. */
  lemma TrendChangeFloor(series: seq<int>)
    requires forall i :: 0 <= i < |series| ==> 0 <= series[i]
    ensures TrendChange(series) >= -100.0
  {
    if |series| >= 4 && PreviousAverage(series) > 0.0 {
      var n, q := |series|, |series| / 4;
      MeanNonNegative(series[n - q..]);
      var a, p := RecentAverage(series), PreviousAverage(series);
      var r := TrendChange(series);
      TrendChangeRatio(series);
      assert (r + 100.0) * p == a * 100.0;
    }
  }

  /** keyword.replace("n8n ", "").title() */
  function DisplayName(keyword: string): (name: string)
    ensures |name| <= |keyword|
  {
    Title(RemoveAll(keyword, "n8n "))
  }

  /** The name shown for "n8n " followed by text without that prefix is the text in title case. */
  lemma DisplayNameDropsPrefix(s: string)
    requires !Text.Contains(s, "n8n ")
    ensures DisplayName("n8n " + s) == Title(s)
  {
    RemoveAllPrefix(s, "n8n ");
    RemoveAllAbsent(s, "n8n ");
  }

  /** A keyword without the prefix is shown in title case as it is. */
  lemma DisplayNameUnprefixed(s: string)
    requires !Text.Contains(s, "n8n ")
    ensures DisplayName(s) == Title(s)
  {
    RemoveAllAbsent(s, "n8n ");
  }

  /**
    The record for one keyword of a non-empty frame. A keyword the frame
    lacks gives none; so does an empty column, whose mean is NaN and fails
    the threshold. Every timestamp of one run is `now`, and the spread
    (Series.std) is the parameter `stdDev`.
   */
  function KeywordRecord(keyword: string, columns: map<string, seq<int>>, country: string, stdDev: seq<int> -> real, now: string): (r: Option<WorkflowMetrics>)
    ensures r.Some? <==> keyword in columns && |columns[keyword]| > 0 && Mean(columns[keyword]) > MinAverageInterest
    ensures r.Some? ==> var series := columns[keyword];
      r.value.workflow == DisplayName(keyword) && r.value.platform == "Google" &&
      r.value.country == country && r.value.lastUpdated == Some(now) &&
      r.value.popularityMetrics.Keys == {"average_interest", "trend_change_percent", "peak_interest", "search_consistency"} &&
      r.value.popularityMetrics["average_interest"] == Real(Round(Mean(series), 2)) &&
      r.value.popularityMetrics["trend_change_percent"] == Real(Round(TrendChange(series), 2)) &&
      r.value.popularityMetrics["search_consistency"] == Real(Round(stdDev(series), 2)) &&
      r.value.popularityMetrics["peak_interest"].Int? &&
      r.value.popularityMetrics["peak_interest"].i in series &&
      forall i :: 0 <= i < |series| ==> series[i] <= r.value.popularityMetrics["peak_interest"].i
  {
    if keyword !in columns || columns[keyword] == [] then None
    else
      var series := columns[keyword];
      var average := Mean(series);
      if average > MinAverageInterest then
        Some(WorkflowMetrics(
          DisplayName(keyword),
          "Google",
          map[
            "average_interest" := Real(Round(average, 2)),
            "trend_change_percent" := Real(Round(TrendChange(series), 2)),
            "peak_interest" := Int(Peak(series)),
            "search_consistency" := Real(Round(stdDev(series), 2))
          ],
          country,
          Some(now)))
      else None
  }

  /** The stored average interest is within 0.005 of the exact mean. */
  lemma AverageNearExact(keyword: string, columns: map<string, seq<int>>, country: string, stdDev: seq<int> -> real, now: string)
    requires KeywordRecord(keyword, columns, country, stdDev, now).Some?
    ensures var a := KeywordRecord(keyword, columns, country, stdDev, now).value.popularityMetrics["average_interest"].r;
      -0.005 <= a - Mean(columns[keyword]) <= 0.005
  {
    assert Pow10(2) == 100;
    RoundError(Mean(columns[keyword]), 2);
  }

  /** The records of the keywords of one batch, in batch order. */
  function KeywordsRecords(batch: seq<string>, columns: map<string, seq<int>>, country: string, stdDev: seq<int> -> real, now: string): (rs: seq<WorkflowMetrics>)
    ensures |rs| <= |batch|
    ensures forall w :: w in rs ==> w.platform == "Google" && w.country == country && w.lastUpdated == Some(now)
  {
    if batch == [] then []
    else
      var rest := KeywordsRecords(batch[..|batch| - 1], columns, country, stdDev, now);
      match KeywordRecord(batch[|batch| - 1], columns, country, stdDev, now)
      case Some(w) => rest + [w]
      case None => rest
  }

  /** The records of one batch: none if the request failed or the frame is empty. */
  function BatchRecords(batch: seq<string>, reply: TrendsReply, country: string, stdDev: seq<int> -> real, now: string): (rs: seq<WorkflowMetrics>)
    ensures reply.Failed? ==> rs == []
    ensures |rs| <= |batch|
    ensures forall w :: w in rs ==> w.platform == "Google" && w.country == country && w.lastUpdated == Some(now)
  {
    match reply
    case Failed => []
    case Frame(columns) =>
      if FrameEmpty(columns) then [] else KeywordsRecords(batch, columns, country, stdDev, now)
  }

  /** An empty frame yields what its keywords would anyway: nothing. */
  lemma {:induction false} EmptyFrameSilent(batch: seq<string>, columns: map<string, seq<int>>, country: string, stdDev: seq<int> -> real, now: string)
    requires FrameEmpty(columns)
    ensures KeywordsRecords(batch, columns, country, stdDev, now) == []
  {
    if batch != [] {
      EmptyFrameSilent(batch[..|batch| - 1], columns, country, stdDev, now);
    }
  }

  /** The batch starting at index i: the slice kws[i:i + BatchSize], clipped to the list. */
  function BatchAt(kws: seq<string>, i: nat): (batch: seq<string>)
    requires i < |kws|
    ensures 0 < |batch| <= BatchSize && batch == kws[i..i + |batch|]
    ensures i + BatchSize <= |kws| ==> |batch| == BatchSize
  {
    kws[i..if i + BatchSize <= |kws| then i + BatchSize else |kws|]
  }

  /**
    The records of the batches starting at i, i + BatchSize, ... (the loop over
    range(i, len(kws), BatchSize)), given what each batch contributes.
   */
  function TrendsFrom(kws: seq<string>, i: nat, perBatch: seq<string> -> seq<WorkflowMetrics>): seq<WorkflowMetrics>
    decreases |kws| - i
  {
    if |kws| <= i then [] else perBatch(BatchAt(kws, i)) + TrendsFrom(kws, i + BatchSize, perBatch)
  }

  /** Starting the loop at index i is starting it at 0 on the keywords from i on. */
  lemma {:induction false} TrendsShift(kws: seq<string>, i: nat, perBatch: seq<string> -> seq<WorkflowMetrics>)
    requires i <= |kws|
    ensures TrendsFrom(kws, i, perBatch) == TrendsFrom(kws[i..], 0, perBatch)
    decreases |kws| - i
  {
    if i < |kws| {
      var rest := kws[i..];
      assert BatchAt(rest, 0) == BatchAt(kws, i) == [kws[i]];
      TrendsShift(kws, i + 1, perBatch);
      TrendsShift(rest, 1, perBatch);
      assert rest[1..] == kws[i + 1..];
    }
  }

  /** With one keyword per batch, the records of a concatenation are the records of its parts. */
  lemma {:induction false} TrendsAppend(a: seq<string>, b: seq<string>, perBatch: seq<string> -> seq<WorkflowMetrics>)
    ensures TrendsFrom(a + b, 0, perBatch) == TrendsFrom(a, 0, perBatch) + TrendsFrom(b, 0, perBatch)
  {
    if a == [] {
      assert a + b == b;
    } else {
      assert BatchAt(a + b, 0) == BatchAt(a, 0) == [a[0]];
      TrendsShift(a + b, 1, perBatch);
      TrendsShift(a, 1, perBatch);
      assert (a + b)[1..] == a[1..] + b;
      TrendsAppend(a[1..], b, perBatch);
    }
  }

  /** Each keyword is requested once, alone and in list order: a keyword at the end adds its own batch's records at the end. */
  lemma OneKeywordPerRequest(init: seq<string>, keyword: string, perBatch: seq<string> -> seq<WorkflowMetrics>)
    ensures TrendsFrom(init + [keyword], 0, perBatch) == TrendsFrom(init, 0, perBatch) + perBatch([keyword])
  {
    TrendsAppend(init, [keyword], perBatch);
    assert BatchAt([keyword], 0) == [keyword];
  }

  /** Failure isolation: a keyword whose batch contributes nothing leaves the other batches' records as they are. */
  lemma SilentBatchIsolated(before: seq<string>, keyword: string, after: seq<string>, perBatch: seq<string> -> seq<WorkflowMetrics>)
    requires perBatch([keyword]) == []
    ensures TrendsFrom(before + [keyword] + after, 0, perBatch) == TrendsFrom(before, 0, perBatch) + TrendsFrom(after, 0, perBatch)
  {
    TrendsAppend(before + [keyword], after, perBatch);
    OneKeywordPerRequest(before, keyword, perBatch);
  }

  /** The body of one batch's try block, after the request: the keywords of a non-empty frame, in order. */
  method CollectBatch(batch: seq<string>, reply: TrendsReply, country: string, stdDev: seq<int> -> real, now: string)
    returns (found: seq<WorkflowMetrics>)
    ensures found == BatchRecords(batch, reply, country, stdDev, now)
  {
    found := [];
    if reply.Frame? && !FrameEmpty(reply.columns) {
      var j := 0;
      while j < |batch|
        invariant 0 <= j <= |batch|
        invariant found == KeywordsRecords(batch[..j], reply.columns, country, stdDev, now)
      {
        assert batch[..j + 1][..j] == batch[..j];
        var keyword := batch[j];
        if keyword in reply.columns {
          var workflow := KeywordRecord(keyword, reply.columns, country, stdDev, now);
          if workflow.Some? {
            found := found + [workflow.value];
          }
        }
        j := j + 1;
      }
      assert batch[..j] == batch;
    }
  }

  /** The batches from index i on yield at most one record per keyword, each a Google record of the country, stamped now. */
  lemma {:induction false} GoogleRecordsOnly(kws: seq<string>, i: nat, country: string, trends: (seq<string>, string) -> TrendsReply, stdDev: seq<int> -> real, now: string)
    requires i <= |kws|
    ensures var rs := TrendsFrom(kws, i, b => BatchRecords(b, trends(b, GeoCode(country)), country, stdDev, now));
      |rs| <= |kws| - i &&
      forall w :: w in rs ==> w.platform == "Google" && w.country == country && w.lastUpdated == Some(now)
    decreases |kws| - i
  {
    if i < |kws| {
      var perBatch := b => BatchRecords(b, trends(b, GeoCode(country)), country, stdDev, now);
      var batch := BatchAt(kws, i);
      assert TrendsFrom(kws, i, perBatch) == perBatch(batch) + TrendsFrom(kws, i + 1, perBatch);
      assert perBatch(batch) == BatchRecords(batch, trends(batch, GeoCode(country)), country, stdDev, now);
      GoogleRecordsOnly(kws, i + BatchSize, country, trends, stdDev, now);
    }
  }

  /** The loop of collect_trending_workflows over a keyword list, batch by batch. */
  method CollectKeywords(kws: seq<string>, country: string, trends: (seq<string>, string) -> TrendsReply, stdDev: seq<int> -> real, now: string)
    returns (workflows: seq<WorkflowMetrics>)
    ensures workflows == TrendsFrom(kws, 0, b => BatchRecords(b, trends(b, GeoCode(country)), country, stdDev, now))
    ensures |workflows| <= |kws|
    ensures forall w :: w in workflows ==> w.platform == "Google" && w.country == country && w.lastUpdated == Some(now)
  {
    ghost var perBatch := b => BatchRecords(b, trends(b, GeoCode(country)), country, stdDev, now);
    workflows := [];
    var i := 0;
    while i < |kws|
      invariant 0 <= i <= |kws|
      invariant workflows + TrendsFrom(kws, i, perBatch) == TrendsFrom(kws, 0, perBatch)
      decreases |kws| - i
    {
      var batch := kws[i..if i + BatchSize <= |kws| then i + BatchSize else |kws|];
      assert batch == BatchAt(kws, i);
      var geo := GeoCode(country);
      var reply := trends(batch, geo);
      var found := CollectBatch(batch, reply, country, stdDev, now);
      assert found == perBatch(batch);
      assert TrendsFrom(kws, i, perBatch) == found + TrendsFrom(kws, i + BatchSize, perBatch);
      assert (workflows + found) + TrendsFrom(kws, i + BatchSize, perBatch) == workflows + TrendsFrom(kws, i, perBatch);
      workflows := workflows + found;
      i := i + BatchSize;
    }
    assert workflows + [] == workflows;
    GoogleRecordsOnly(kws, 0, country, trends, stdDev, now);
  }

  /** collect_trending_workflows(country), given what the interest service returns per batch and region. */
  method CollectTrendingWorkflows(country: string, trends: (seq<string>, string) -> TrendsReply, stdDev: seq<int> -> real, now: string)
    returns (workflows: seq<WorkflowMetrics>)
    ensures workflows == TrendsFrom(WorkflowKeywords, 0, b => BatchRecords(b, trends(b, GeoCode(country)), country, stdDev, now))
    ensures |workflows| <= |WorkflowKeywords|
    ensures forall w :: w in workflows ==> w.platform == "Google" && w.country == country && w.lastUpdated == Some(now)
  {
    workflows := CollectKeywords(WorkflowKeywords, country, trends, stdDev, now);
  }
}
