/**
 * The two views built on `calculate_trends`: `compute_trends`, one (prefix, slope,
 * intercept) per prefix, sorted by prefix and paginated; and `compute_trend_chart`, the
 * per-upload error totals under one prefix with the fitted line's prediction at each position.
 */
module TrendViews {
  import opened Wrappers
  import opened Text
  import opened Seqs
  import opened Orders
  import opened Regression
  import opened Store
  import opened Trends

  /** ORDER BY prefix, created_at. */
  function ByPrefixThenCreated(): (Record, Record) -> bool {
    (a: Record, b: Record) => StrLt(a.prefix, b.prefix) || (a.prefix == b.prefix && a.createdAt <= b.createdAt)
  }

  lemma PrefixThenCreatedTotal()
    ensures TotalPreorder(ByPrefixThenCreated())
  {
    var le := ByPrefixThenCreated();
    forall a: Record, b: Record ensures le(a, b) || le(b, a) {
      StrLeTotal(a.prefix, b.prefix);
    }
    forall a: Record, b: Record, c: Record | le(a, b) && le(b, c) ensures le(a, c) {
      if a.prefix != b.prefix && b.prefix != c.prefix {
        StrLeTransitive(a.prefix, b.prefix, c.prefix);
        if a.prefix == c.prefix {
          StrLeAntisymmetric(a.prefix, b.prefix);
        }
      }
    }
  }

  /** ORDER BY prefix, created_at puts the prefixes in non-decreasing order. */
  lemma PrefixOrdered(sorted: seq<Record>)
    requires Sorted(sorted, ByPrefixThenCreated())
    ensures forall i, j :: 0 <= i < j < |sorted| ==> StrLe(sorted[i].prefix, sorted[j].prefix)
  {
    forall i, j | 0 <= i < j < |sorted| ensures StrLe(sorted[i].prefix, sorted[j].prefix) {
      assert ByPrefixThenCreated()(sorted[i], sorted[j]);
      StrLeReflexive(sorted[i].prefix);
    }
  }

  /** The (prefix, created_at, error_count) of each row, as `calculate_trends` reads them. */
  function Samples(xs: seq<Record>): (ss: seq<Sample>)
    ensures |ss| == |xs|
    ensures forall i :: 0 <= i < |xs| ==> ss[i] == Sample(xs[i].prefix, xs[i].createdAt, xs[i].errorCount)
  {
    seq(|xs|, i requires 0 <= i < |xs| => Sample(xs[i].prefix, xs[i].createdAt, xs[i].errorCount))
  }

  /** The rows `compute_trends` reads: the matching rows ordered by prefix, then created_at. */
  function Series(rs: seq<Record>, prefix: Option<string>): seq<Sample> {
    Samples(SortBy(StartsWithFilter(rs, prefix), ByPrefixThenCreated()))
  }

  lemma SeriesOrderedByKey(rs: seq<Record>, prefix: Option<string>)
    ensures var ss := Series(rs, prefix); forall i, j :: 0 <= i < j < |ss| ==> StrLe(ss[i].key, ss[j].key)
  {
    PrefixThenCreatedTotal();
    PrefixOrdered(SortBy(StartsWithFilter(rs, prefix), ByPrefixThenCreated()));
  }

  /** Every sample of the series comes from a matching row ... */
  lemma SeriesFromRows(rs: seq<Record>, prefix: Option<string>)
    ensures forall y :: y in Series(rs, prefix) ==> exists x :: x in StartsWithFilter(rs, prefix) && x.prefix == y.key
  {
    var sorted := SortBy(StartsWithFilter(rs, prefix), ByPrefixThenCreated());
    forall y | y in Series(rs, prefix) ensures exists x :: x in StartsWithFilter(rs, prefix) && x.prefix == y.key {
      var i :| 0 <= i < |Series(rs, prefix)| && Series(rs, prefix)[i] == y;
      assert sorted[i] in multiset(StartsWithFilter(rs, prefix));
    }
  }

  /** ... and every matching row gives a sample. */
  lemma RowsInSeries(rs: seq<Record>, prefix: Option<string>)
    ensures forall x :: x in StartsWithFilter(rs, prefix) ==> exists y :: y in Series(rs, prefix) && y.key == x.prefix
  {
    var sorted := SortBy(StartsWithFilter(rs, prefix), ByPrefixThenCreated());
    forall x | x in StartsWithFilter(rs, prefix) ensures exists y :: y in Series(rs, prefix) && y.key == x.prefix {
      assert x in multiset(sorted);
      var i :| 0 <= i < |sorted| && sorted[i] == x;
      assert Series(rs, prefix)[i] in Series(rs, prefix);
    }
  }

  /** `compute_trends` has a trend for a prefix only if some matching row carries it ... */
  lemma TrendsFromMatchingRows(rs: seq<Record>, prefix: Option<string>)
    ensures forall t :: t in TrendsOf(Series(rs, prefix)) ==>
      exists x :: x in StartsWithFilter(rs, prefix) && x.prefix == t.key
  {
    var ss, ms := Series(rs, prefix), StartsWithFilter(rs, prefix);
    TrendKeysFromRows(ss);
    SeriesFromRows(rs, prefix);
    forall t | t in TrendsOf(ss) ensures exists x :: x in ms && x.prefix == t.key {
      var y :| y in ss && y.key == t.key;
      var x :| x in ms && x.prefix == y.key;
    }
  }

  /** ... and for every prefix some matching row carries. */
  lemma MatchingRowsHaveTrends(rs: seq<Record>, prefix: Option<string>)
    ensures forall x :: x in StartsWithFilter(rs, prefix) ==>
      exists t :: t in TrendsOf(Series(rs, prefix)) && t.key == x.prefix
  {
    var ss, ms := Series(rs, prefix), StartsWithFilter(rs, prefix);
    RowKeysHaveTrends(ss);
    RowsInSeries(rs, prefix);
    forall x | x in ms ensures exists t :: t in TrendsOf(ss) && t.key == x.prefix {
      var y :| y in ss && y.key == x.prefix;
      var t :| t in TrendsOf(ss) && t.key == y.key;
    }
  }

  /**
   * `compute_trends`: the trends of the matching prefixes, ordered by prefix (reversed when
   * `descending`), then the page [(page-1)*pageSize, page*pageSize).
   */
  function ComputeTrends(rs: seq<Record>, prefix: Option<string>, page: int, pageSize: int, descending: bool): (r: seq<Trend>)
    requires page >= 1 && 1 <= pageSize <= 1000
    ensures |r| <= pageSize
    ensures forall i, j :: 0 <= i < j < |r| ==>
      if descending then StrLt(Key(r[j]), Key(r[i])) else StrLt(Key(r[i]), Key(r[j]))
    ensures forall t :: t in r ==> t in TrendsOf(Series(rs, prefix))
    ensures |TrendsOf(Series(rs, prefix))| <= (page - 1) * pageSize ==> r == []
    ensures |r| == PageLength(|TrendsOf(Series(rs, prefix))|, page, pageSize)
  {
    SeriesOrderedByKey(rs, prefix);
    TrendPageFacts(Series(rs, prefix), page, pageSize, descending);
    Page(SortBy(TrendsOf(Series(rs, prefix)), ByStr(Key, descending)), page, pageSize)
  }

  /** Every trend of a matching prefix is on some page. */
  lemma EveryTrendPaged(rs: seq<Record>, prefix: Option<string>, pageSize: int, descending: bool, t: Trend)
    requires 1 <= pageSize <= 1000 && t in TrendsOf(Series(rs, prefix))
    ensures exists page :: page >= 1 && t in ComputeTrends(rs, prefix, page, pageSize, descending)
  {
    SortedOnSomePage(TrendsOf(Series(rs, prefix)), ByStr(Key, descending), t, pageSize);
    var page :| page >= 1 && t in Page(SortBy(TrendsOf(Series(rs, prefix)), ByStr(Key, descending)), page, pageSize);
    assert t in ComputeTrends(rs, prefix, page, pageSize, descending);
  }

  lemma TrendPageFacts(ss: seq<Sample>, page: int, pageSize: int, descending: bool)
    requires page >= 1 && 1 <= pageSize
    requires forall i, j :: 0 <= i < j < |ss| ==> StrLe(ss[i].key, ss[j].key)
    ensures var r := Page(SortBy(TrendsOf(ss), ByStr(Key, descending)), page, pageSize);
      forall i, j :: 0 <= i < j < |r| ==>
        if descending then StrLt(Key(r[j]), Key(r[i])) else StrLt(Key(r[i]), Key(r[j]))
    ensures forall t :: t in Page(SortBy(TrendsOf(ss), ByStr(Key, descending)), page, pageSize) ==> t in TrendsOf(ss)
    ensures |TrendsOf(ss)| <= (page - 1) * pageSize ==> Page(SortBy(TrendsOf(ss), ByStr(Key, descending)), page, pageSize) == []
    ensures |Page(SortBy(TrendsOf(ss), ByStr(Key, descending)), page, pageSize)| == PageLength(|TrendsOf(ss)|, page, pageSize)
  {
    TrendKeysDistinct(ss);
    SortedPageStrict(TrendsOf(ss), Key, descending, page, pageSize);
    PageWithin(SortBy(TrendsOf(ss), ByStr(Key, descending)), page, pageSize);
    SortBySameElements(TrendsOf(ss), ByStr(Key, descending));
  }

  /** The trends of key-ordered rows have pairwise different keys. */
  lemma TrendKeysDistinct(ss: seq<Sample>)
    requires forall i, j :: 0 <= i < j < |ss| ==> StrLe(ss[i].key, ss[j].key)
    ensures var all := TrendsOf(ss); forall i, j :: 0 <= i < j < |all| ==> Key(all[i]) != Key(all[j])
  {
    SortedRunsHaveDistinctKeys(ss);
    forall i, j | 0 <= i < j < |TrendsOf(ss)| ensures Key(TrendsOf(ss)[i]) != Key(TrendsOf(ss)[j]) {
      assert StrLt(RunKeys(Runs(ss))[i], RunKeys(Runs(ss))[j]);
    }
  }

  // compute_trend_chart

  /** SQL `substr(s, 1, n)`: the first `n` characters, or all of a shorter string. */
  function Substr(s: string, n: nat): (r: string)
    ensures r <= s && |r| == if n <= |s| then n else |s|
  {
    if n <= |s| then s[..n] else s
  }

  /** The GROUP BY key of the chart query: (upload_uuid, substr(prefix, 1, len(prefix)), to_date). */
  datatype ChartGroup = ChartGroup(uploadUuid: string, groupedPrefix: string, toDate: int)

  /** One row of the chart query: a group and SUM(error_count) over it. */
  datatype Bucket = Bucket(group: ChartGroup, errorCount: int)

  /** One point of the chart: the query row and the fitted line's value at its position. */
  datatype ChartPoint = ChartPoint(uploadUuid: string, toDate: int, errorCount: int, predict: real)

  function ChartKey(prefix: string): Record -> ChartGroup {
    (x: Record) => ChartGroup(x.uploadUuid, Substr(x.prefix, |prefix|), x.toDate)
  }

  function BucketDate(b: Bucket): int {
    b.group.toDate
  }

  /** The rows whose prefix starts with `prefix` (the chart filters even on an empty prefix). */
  function Matching(rs: seq<Record>, prefix: string): seq<Record> {
    Where(rs, (x: Record) => StartsWith(x.prefix, prefix))
  }

  /** The group rows in the order GROUP BY meets them, each with its total. */
  function Buckets(m: seq<Record>, prefix: string): seq<Bucket> {
    var ks := GroupKeys(m, ChartKey(prefix));
    seq(|ks|, i requires 0 <= i < |ks| => Bucket(ks[i], SumCounts(Members(m, ChartKey(prefix), ks[i]))))
  }

  /** The rows of the chart query: the groups ordered by to_date ascending. */
  function ChartQuery(rs: seq<Record>, prefix: string): seq<Bucket> {
    SortBy(Buckets(Matching(rs, prefix), prefix), ByInt(BucketDate, false))
  }

  /** The query rows as `calculate_trends` reads them, grouped by grouped_prefix and sorted by to_date. */
  function ChartSamples(bs: seq<Bucket>): (ss: seq<Sample>)
    ensures |ss| == |bs|
    ensures forall i :: 0 <= i < |bs| ==> ss[i] == Sample(bs[i].group.groupedPrefix, bs[i].group.toDate, bs[i].errorCount)
  {
    seq(|bs|, i requires 0 <= i < |bs| => Sample(bs[i].group.groupedPrefix, bs[i].group.toDate, bs[i].errorCount))
  }

  /** `slope * n + intercept`. */
  function Predict(l: Line, n: int): real {
    l.slope * n as real + l.intercept
  }

  /**
   * `compute_trend_chart`: for the n-th query row, its upload, to_date and total, and
   * `slope * n + intercept` of the trend stored under `prefix` ((1, 0) when there is none).
   */
  function ComputeTrendChart(rs: seq<Record>, prefix: string): (r: seq<ChartPoint>)
    ensures |r| == |ChartQuery(rs, prefix)|
    ensures forall n :: 0 <= n < |r| ==>
      r[n].uploadUuid == ChartQuery(rs, prefix)[n].group.uploadUuid &&
      r[n].toDate == ChartQuery(rs, prefix)[n].group.toDate &&
      r[n].errorCount == ChartQuery(rs, prefix)[n].errorCount
  {
    ChartPoints(ChartQuery(rs, prefix), Lookup(TrendsOf(ChartSamples(ChartQuery(rs, prefix))), prefix))
  }

  /** Each query row with the line's value at its position. */
  function ChartPoints(bs: seq<Bucket>, line: Line): seq<ChartPoint> {
    seq(|bs|, n requires 0 <= n < |bs| =>
      ChartPoint(bs[n].group.uploadUuid, bs[n].group.toDate, bs[n].errorCount, Predict(line, n)))
  }

  function GroupOf(b: Bucket): ChartGroup {
    b.group
  }

  /** Every matching row groups under `prefix` itself: substr(prefix, 1, len(prefix)) of a row starting with it. */
  lemma MatchingGroupedPrefix(m: seq<Record>, prefix: string)
    requires forall x :: x in m ==> StartsWith(x.prefix, prefix)
    ensures forall x :: x in m ==> ChartKey(prefix)(x) == ChartGroup(x.uploadUuid, prefix, x.toDate)
  {
    forall x | x in m ensures Substr(x.prefix, |prefix|) == prefix {
      assert prefix <= x.prefix;
    }
  }

  /** Each group of rows under `prefix` is grouped by `prefix` and holds the total of its rows. */
  lemma BucketTotals(m: seq<Record>, prefix: string)
    requires forall x :: x in m ==> StartsWith(x.prefix, prefix)
    ensures forall b :: b in Buckets(m, prefix) ==>
      b.group.groupedPrefix == prefix && b.errorCount == SumCounts(Members(m, ChartKey(prefix), b.group))
  {
    var ks := GroupKeys(m, ChartKey(prefix));
    var bs := Buckets(m, prefix);
    MatchingGroupedPrefix(m, prefix);
    forall b | b in bs ensures b.group.groupedPrefix == prefix && b.errorCount == SumCounts(Members(m, ChartKey(prefix), b.group)) {
      var i :| 0 <= i < |bs| && bs[i] == b;
      assert ks[i] in ks;
    }
  }

  /** Every row under `prefix` lies in one of the groups. */
  lemma BucketsCover(m: seq<Record>, prefix: string)
    requires forall x :: x in m ==> StartsWith(x.prefix, prefix)
    ensures forall x :: x in m ==> exists b :: b in Buckets(m, prefix) && b.group == ChartGroup(x.uploadUuid, prefix, x.toDate)
  {
    var ks := GroupKeys(m, ChartKey(prefix));
    var bs := Buckets(m, prefix);
    MatchingGroupedPrefix(m, prefix);
    forall x | x in m ensures exists b :: b in bs && b.group == ChartGroup(x.uploadUuid, prefix, x.toDate) {
      assert ChartKey(prefix)(x) in ks;
      var i :| 0 <= i < |ks| && ks[i] == ChartKey(prefix)(x);
      assert bs[i] in bs;
    }
  }

  /** No group of rows under `prefix` occurs twice. */
  lemma BucketsDistinct(m: seq<Record>, prefix: string)
    requires forall x :: x in m ==> StartsWith(x.prefix, prefix)
    ensures forall i, j :: 0 <= i < j < |Buckets(m, prefix)| ==> GroupOf(Buckets(m, prefix)[i]) != GroupOf(Buckets(m, prefix)[j])
  {
    MatchingGroupedPrefix(m, prefix);
  }

  /** Each row of the chart query totals its group. */
  lemma ChartQueryTotals(rs: seq<Record>, prefix: string)
    ensures forall b :: b in ChartQuery(rs, prefix) ==>
      b.group.groupedPrefix == prefix && b.errorCount == SumCounts(Members(Matching(rs, prefix), ChartKey(prefix), b.group))
  {
    BucketTotals(Matching(rs, prefix), prefix);
    SortBySameElements(Buckets(Matching(rs, prefix), prefix), ByInt(BucketDate, false));
  }

  /** Every matching row lies in a group of the chart query. */
  lemma ChartQueryCovers(rs: seq<Record>, prefix: string)
    ensures forall x :: x in Matching(rs, prefix) ==>
      exists b :: b in ChartQuery(rs, prefix) && b.group == ChartGroup(x.uploadUuid, prefix, x.toDate)
  {
    BucketsCover(Matching(rs, prefix), prefix);
    SortBySameElements(Buckets(Matching(rs, prefix), prefix), ByInt(BucketDate, false));
  }

  /** No group occurs twice in the chart query. */
  lemma ChartQueryDistinct(rs: seq<Record>, prefix: string)
    ensures forall i, j :: 0 <= i < j < |ChartQuery(rs, prefix)| ==>
      GroupOf(ChartQuery(rs, prefix)[i]) != GroupOf(ChartQuery(rs, prefix)[j])
  {
    BucketsDistinct(Matching(rs, prefix), prefix);
    DistinctKeysPermuted(Buckets(Matching(rs, prefix), prefix), ChartQuery(rs, prefix), GroupOf);
  }

  /** The chart query is ordered by to_date ascending. */
  lemma ChartQueryAscending(rs: seq<Record>, prefix: string)
    ensures forall i, j :: 0 <= i < j < |ChartQuery(rs, prefix)| ==>
      BucketDate(ChartQuery(rs, prefix)[i]) <= BucketDate(ChartQuery(rs, prefix)[j])
  {
    SortByInt(Buckets(Matching(rs, prefix), prefix), BucketDate, false);
  }

  /** The error counts of the chart, as reals. */
  function ChartCounts(ps: seq<ChartPoint>): (ys: seq<real>)
    ensures |ys| == |ps| && forall i :: 0 <= i < |ps| ==> ys[i] == ps[i].errorCount as real
  {
    seq(|ps|, i requires 0 <= i < |ps| => ps[i].errorCount as real)
  }

  /** Query rows under one grouped prefix make samples of one key. */
  lemma SamplesOneKey(bs: seq<Bucket>, prefix: string)
    requires forall b :: b in bs ==> b.group.groupedPrefix == prefix
    ensures forall i :: 0 <= i < |ChartSamples(bs)| ==> ChartSamples(bs)[i].key == prefix
  {
    forall i | 0 <= i < |bs| ensures ChartSamples(bs)[i].key == prefix {
      assert bs[i] in bs;
    }
  }

  /** Query rows in to_date order make samples that `sorted(key=to_date)` leaves alone. */
  lemma SamplesInOrder(bs: seq<Bucket>)
    requires forall i, j :: 0 <= i < j < |bs| ==> BucketDate(bs[i]) <= BucketDate(bs[j])
    ensures InOrder(ChartSamples(bs)) == ChartSamples(bs)
  {
    forall i | 0 <= i < |bs| - 1 ensures ByInt(At, false)(ChartSamples(bs)[i], ChartSamples(bs)[i + 1]) {
      assert BucketDate(bs[i]) <= BucketDate(bs[i + 1]);
      assert At(ChartSamples(bs)[i]) <= At(ChartSamples(bs)[i + 1]);
    }
    SortBySorted(ChartSamples(bs), ByInt(At, false));
  }

  /** The chart query's rows all carry `prefix` as grouped prefix. */
  lemma ChartQueryUnderPrefix(rs: seq<Record>, prefix: string)
    ensures forall b :: b in ChartQuery(rs, prefix) ==> b.group.groupedPrefix == prefix
  {
    ChartQueryTotals(rs, prefix);
  }

  /** The series `calculate_trends` reads in the chart is one run, under `prefix`, already in to_date order. */
  lemma ChartSeriesIsOneRun(rs: seq<Record>, prefix: string)
    requires ChartQuery(rs, prefix) != []
    ensures Runs(ChartSamples(ChartQuery(rs, prefix))) == [ChartSamples(ChartQuery(rs, prefix))]
    ensures InOrder(ChartSamples(ChartQuery(rs, prefix))) == ChartSamples(ChartQuery(rs, prefix))
  {
    ChartQueryUnderPrefix(rs, prefix);
    SamplesOneKey(ChartQuery(rs, prefix), prefix);
    OneKeyOneRun(ChartSamples(ChartQuery(rs, prefix)), prefix);
    ChartQueryAscending(rs, prefix);
    SamplesInOrder(ChartQuery(rs, prefix));
  }

  /** The trend stored under the key of a single run is that run's line. */
  lemma LookupOneRun(ss: seq<Sample>, key: string)
    requires ss != [] && Runs(ss) == [ss] && ss[0].key == key
    ensures Lookup(TrendsOf(ss), key) == RunLine(ss)
  {
    assert TrendsOf(ss) == [RunTrend(ss)];
  }

  /** The line the chart uses is the fit over the query's error counts, in query order. */
  lemma ChartLine(rs: seq<Record>, prefix: string)
    requires ChartQuery(rs, prefix) != []
    ensures Lookup(TrendsOf(ChartSamples(ChartQuery(rs, prefix))), prefix) == FitCounts(ErrorCounts(ChartSamples(ChartQuery(rs, prefix))))
  {
    ChartSeriesIsOneRun(rs, prefix);
    ChartQueryUnderPrefix(rs, prefix);
    assert ChartQuery(rs, prefix)[0] in ChartQuery(rs, prefix);
    LookupOneRun(ChartSamples(ChartQuery(rs, prefix)), prefix);
  }

  /** The chart's error counts are those of the query rows. */
  lemma ChartCountsAreQueryCounts(rs: seq<Record>, prefix: string)
    ensures ChartCounts(ComputeTrendChart(rs, prefix)) == ErrorCounts(ChartSamples(ChartQuery(rs, prefix)))
  {
  }

  /**
   * The predictions of the chart lie on the line `calculate_trends` fits to the chart's own
   * error counts over positions 0..n-1 (slope 1, intercept 0 below two points).
   */
  lemma ChartPredictsOwnFit(rs: seq<Record>, prefix: string)
    ensures forall n :: 0 <= n < |ComputeTrendChart(rs, prefix)| ==>
      ComputeTrendChart(rs, prefix)[n].predict == Predict(FitCounts(ChartCounts(ComputeTrendChart(rs, prefix))), n)
  {
    if ChartQuery(rs, prefix) != [] {
      ChartLine(rs, prefix);
      ChartCountsAreQueryCounts(rs, prefix);
    }
  }

  /** Points built from query rows that total their groups do so too. */
  lemma PointsTotals(bs: seq<Bucket>, line: Line, m: seq<Record>, prefix: string)
    requires forall b :: b in bs ==>
      b.group.groupedPrefix == prefix && b.errorCount == SumCounts(Members(m, ChartKey(prefix), b.group))
    ensures forall i :: 0 <= i < |ChartPoints(bs, line)| ==>
      ChartPoints(bs, line)[i].errorCount == SumCounts(Members(m, ChartKey(prefix),
        ChartGroup(ChartPoints(bs, line)[i].uploadUuid, prefix, ChartPoints(bs, line)[i].toDate)))
  {
    forall i | 0 <= i < |bs| ensures bs[i].group == ChartGroup(bs[i].group.uploadUuid, prefix, bs[i].group.toDate) {
      assert bs[i] in bs;
    }
  }

  /** Points built from query rows that cover some rows cover them too. */
  lemma PointsCover(bs: seq<Bucket>, line: Line, m: seq<Record>, prefix: string)
    requires forall x :: x in m ==> exists b :: b in bs && b.group == ChartGroup(x.uploadUuid, prefix, x.toDate)
    ensures forall x :: x in m ==>
      exists i :: 0 <= i < |ChartPoints(bs, line)| &&
        ChartPoints(bs, line)[i].uploadUuid == x.uploadUuid && ChartPoints(bs, line)[i].toDate == x.toDate
  {
    forall x | x in m
      ensures exists i ::
        0 <= i < |ChartPoints(bs, line)| &&
        ChartPoints(bs, line)[i].uploadUuid == x.uploadUuid && ChartPoints(bs, line)[i].toDate == x.toDate
    {
      var b :| b in bs && b.group == ChartGroup(x.uploadUuid, prefix, x.toDate);
      var i :| 0 <= i < |bs| && bs[i] == b;
      assert ChartPoints(bs, line)[i].uploadUuid == x.uploadUuid;
    }
  }

  /** Each point of the chart is one (upload, to_date) under `prefix` with the sum of its rows' error counts. */
  lemma ChartSums(rs: seq<Record>, prefix: string)
    ensures forall i :: 0 <= i < |ComputeTrendChart(rs, prefix)| ==>
      ComputeTrendChart(rs, prefix)[i].errorCount == SumCounts(Members(Matching(rs, prefix), ChartKey(prefix),
        ChartGroup(ComputeTrendChart(rs, prefix)[i].uploadUuid, prefix, ComputeTrendChart(rs, prefix)[i].toDate)))
  {
    ChartQueryTotals(rs, prefix);
    PointsTotals(ChartQuery(rs, prefix), Lookup(TrendsOf(ChartSamples(ChartQuery(rs, prefix))), prefix), Matching(rs, prefix), prefix);
  }

  /** Every row under `prefix` is counted in a point of the chart. */
  lemma ChartCoversRows(rs: seq<Record>, prefix: string)
    ensures forall x :: x in Matching(rs, prefix) ==>
      exists i :: 0 <= i < |ComputeTrendChart(rs, prefix)| &&
        ComputeTrendChart(rs, prefix)[i].uploadUuid == x.uploadUuid && ComputeTrendChart(rs, prefix)[i].toDate == x.toDate
  {
    ChartQueryCovers(rs, prefix);
    PointsCover(ChartQuery(rs, prefix), Lookup(TrendsOf(ChartSamples(ChartQuery(rs, prefix))), prefix), Matching(rs, prefix), prefix);
    assert ComputeTrendChart(rs, prefix) == ChartPoints(ChartQuery(rs, prefix), Lookup(TrendsOf(ChartSamples(ChartQuery(rs, prefix))), prefix));
  }

  /** Points built from query rows in to_date order with distinct groups under one prefix. */
  lemma PointsOrder(bs: seq<Bucket>, line: Line, prefix: string)
    requires forall b :: b in bs ==> b.group.groupedPrefix == prefix
    requires forall i, j :: 0 <= i < j < |bs| ==> BucketDate(bs[i]) <= BucketDate(bs[j])
    requires forall i, j :: 0 <= i < j < |bs| ==> GroupOf(bs[i]) != GroupOf(bs[j])
    ensures forall i, j :: 0 <= i < j < |ChartPoints(bs, line)| ==>
      ChartPoints(bs, line)[i].toDate <= ChartPoints(bs, line)[j].toDate
    ensures forall i, j :: 0 <= i < j < |ChartPoints(bs, line)| ==>
      ChartPoints(bs, line)[i].uploadUuid != ChartPoints(bs, line)[j].uploadUuid ||
      ChartPoints(bs, line)[i].toDate != ChartPoints(bs, line)[j].toDate
  {
    forall i, j | 0 <= i < j < |bs| ensures bs[i].group.uploadUuid != bs[j].group.uploadUuid || bs[i].group.toDate != bs[j].group.toDate {
      assert bs[i] in bs && bs[j] in bs;
      assert GroupOf(bs[i]) != GroupOf(bs[j]);
    }
  }

  /** The chart runs by to_date ascending and shows each (upload, to_date) once. */
  lemma ChartOrder(rs: seq<Record>, prefix: string)
    ensures forall i, j :: 0 <= i < j < |ComputeTrendChart(rs, prefix)| ==>
      ComputeTrendChart(rs, prefix)[i].toDate <= ComputeTrendChart(rs, prefix)[j].toDate
    ensures forall i, j :: 0 <= i < j < |ComputeTrendChart(rs, prefix)| ==>
      ComputeTrendChart(rs, prefix)[i].uploadUuid != ComputeTrendChart(rs, prefix)[j].uploadUuid ||
      ComputeTrendChart(rs, prefix)[i].toDate != ComputeTrendChart(rs, prefix)[j].toDate
  {
    ChartQueryAscending(rs, prefix);
    ChartQueryDistinct(rs, prefix);
    ChartQueryUnderPrefix(rs, prefix);
    PointsOrder(ChartQuery(rs, prefix), Lookup(TrendsOf(ChartSamples(ChartQuery(rs, prefix))), prefix), prefix);
  }
}
