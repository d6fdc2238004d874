/**
 * The statistics queries: `get_basic_stats`, six aggregates of error_count per prefix,
 * ordered by one of them and paged; and `get_basic_stats_chart`, the same aggregates per
 * (truncated prefix, to_date) group. Averages, the interpolated median and the spread are
 * reals; the population standard deviation is represented by its square, the population
 * variance.
 */
module Stats {
  import opened Wrappers
  import opened Text
  import opened Seqs
  import opened Orders
  import opened Store
  import opened TrendViews

  // The aggregates over one group

  /** SUM, AVG, percentile_cont(0.5), stddev_pop (squared), MIN and MAX of a group's error counts. */
  datatype Summary = Summary(count: int, mean: real, median: real, variance: real, min: int, max: int)

  function Value(x: int): int {
    x
  }

  /** The values in ascending order. */
  function Ascending(xs: seq<int>): seq<int> {
    SortBy(xs, ByInt(Value, false))
  }

  /** AVG: the sum over the number of values. */
  function Mean(xs: seq<int>): real
    requires xs != []
  {
    Sum(xs) as real / |xs| as real
  }

  /**
   * percentile_cont(0.5): the value at rank (n - 1) / 2 of the ascending values, interpolating
   * halfway between the two middle values when n is even.
   */
  function Median(xs: seq<int>): real
    requires xs != []
  {
    if |xs| % 2 == 1 then Ascending(xs)[|xs| / 2] as real
    else (Ascending(xs)[|xs| / 2 - 1] + Ascending(xs)[|xs| / 2]) as real / 2.0
  }

  /** The sum of squared deviations from `mu`. */
  function SquaredDeviations(xs: seq<int>, mu: real): real {
    if xs == [] then 0.0
    else SquaredDeviations(xs[..|xs| - 1], mu) + (xs[|xs| - 1] as real - mu) * (xs[|xs| - 1] as real - mu)
  }

  /** stddev_pop squared: the mean squared deviation from the mean (divisor n). */
  function Variance(xs: seq<int>): real
    requires xs != []
  {
    SquaredDeviations(xs, Mean(xs)) / |xs| as real
  }

  function Summarize(xs: seq<int>): Summary
    requires xs != []
  {
    Summary(Sum(xs), Mean(xs), Median(xs), Variance(xs), Min(xs), Max(xs))
  }

  /** What the six aggregates of a non-empty group always satisfy. */
  predicate Consistent(s: Summary) {
    s.min as real <= s.mean <= s.max as real &&
    s.min as real <= s.median <= s.max as real &&
    s.variance >= 0.0
  }

  lemma {:induction false} SumOfCounts(rs: seq<Record>)
    ensures Sum(Counts(rs)) == SumCounts(rs)
  {
    if rs != [] {
      SumOfCounts(rs[..|rs| - 1]);
      assert Counts(rs)[..|rs| - 1] == Counts(rs[..|rs| - 1]);
    }
  }

  /** The mean lies between the minimum and the maximum. */
  lemma MeanBetween(xs: seq<int>)
    requires xs != []
    ensures Min(xs) as real <= Mean(xs) <= Max(xs) as real
  {
    SumAtLeast(xs, Min(xs));
    SumAtMost(xs, Max(xs));
    DivideBounds(Sum(xs), |xs|, Min(xs), Max(xs));
  }

  lemma DivideBounds(a: int, n: int, lo: int, hi: int)
    requires n > 0 && n * lo <= a <= n * hi
    ensures lo as real <= a as real / n as real <= hi as real
  {
    assert (n * lo) as real == n as real * lo as real;
    assert (n * hi) as real == n as real * hi as real;
  }

  /** The ascending values are a sorted rearrangement of the values. */
  lemma AscendingFacts(xs: seq<int>)
    ensures |Ascending(xs)| == |xs| && multiset(Ascending(xs)) == multiset(xs)
    ensures forall i, j :: 0 <= i < j < |Ascending(xs)| ==> Ascending(xs)[i] <= Ascending(xs)[j]
  {
    SortByInt(xs, Value, false);
  }

  /** The median lies between the minimum and the maximum. */
  lemma MedianBetween(xs: seq<int>)
    requires xs != []
    ensures Min(xs) as real <= Median(xs) <= Max(xs) as real
  {
    AscendingFacts(xs);
    AscendingWithin(xs, |xs| / 2);
    if |xs| % 2 == 0 {
      AscendingWithin(xs, |xs| / 2 - 1);
    }
  }

  lemma AscendingWithin(xs: seq<int>, k: int)
    requires 0 <= k < |xs|
    ensures |Ascending(xs)| == |xs| && Min(xs) <= Ascending(xs)[k] <= Max(xs)
  {
    AscendingFacts(xs);
    assert Ascending(xs)[k] in multiset(xs);
    assert Ascending(xs)[k] in xs;
  }

  /**
   * The median splits the sorted values: the first ceil(n / 2) of them are at most the
   * median and the last ceil(n / 2) at least.
   */
  lemma MedianSplits(xs: seq<int>)
    requires xs != []
    ensures forall i :: 0 <= i <= (|xs| - 1) / 2 ==> Ascending(xs)[i] as real <= Median(xs)
    ensures forall i :: |xs| / 2 <= i < |xs| ==> Median(xs) <= Ascending(xs)[i] as real
  {
    AscendingFacts(xs);
  }

  lemma {:induction false} SquaredDeviationsNonNegative(xs: seq<int>, mu: real)
    ensures SquaredDeviations(xs, mu) >= 0.0
  {
    if xs != [] {
      SquaredDeviationsNonNegative(xs[..|xs| - 1], mu);
    }
  }

  lemma VarianceNonNegative(xs: seq<int>)
    requires xs != []
    ensures Variance(xs) >= 0.0
  {
    SquaredDeviationsNonNegative(xs, Mean(xs));
  }

  lemma {:induction false} NoDeviation(xs: seq<int>, c: int)
    requires forall i :: 0 <= i < |xs| ==> xs[i] == c
    ensures SquaredDeviations(xs, c as real) == 0.0
  {
    if xs != [] {
      NoDeviation(xs[..|xs| - 1], c);
    }
  }

  /** A group whose error counts are all equal has that count as its mean, its median, its minimum and its maximum. */
  lemma ConstantGroup(xs: seq<int>, c: int)
    requires xs != [] && forall x :: x in xs ==> x == c
    ensures Min(xs) == c && Max(xs) == c
    ensures Mean(xs) == c as real && Median(xs) == c as real
  {
    MeanBetween(xs);
    MedianBetween(xs);
  }

  /** ... and no spread. */
  lemma ConstantGroupNoSpread(xs: seq<int>, c: int)
    requires xs != [] && forall x :: x in xs ==> x == c
    ensures Variance(xs) == 0.0
  {
    ConstantGroup(xs, c);
    forall i | 0 <= i < |xs| ensures xs[i] == c {
      assert xs[i] in xs;
    }
    NoDeviation(xs, c);
    assert SquaredDeviations(xs, Mean(xs)) == 0.0;
  }

  lemma OneToFourSorted()
    ensures Ascending([1, 2, 3, 4]) == [1, 2, 3, 4]
  {
    var xs := [1, 2, 3, 4];
    forall i | 0 <= i < |xs| - 1 ensures ByInt(Value, false)(xs[i], xs[i + 1]) {
      assert Value(xs[i]) <= Value(xs[i + 1]);
    }
    SortBySorted(xs, ByInt(Value, false));
  }

  lemma OneToFourTotals()
    ensures Sum([1, 2, 3, 4]) == 10 && Min([1, 2, 3, 4]) == 1 && Max([1, 2, 3, 4]) == 4
  {
    assert [1, 2, 3, 4][..3] == [1, 2, 3] && [1, 2, 3][..2] == [1, 2] && [1, 2][..1] == [1] && [1][..0] == [];
  }

  lemma OneToFourSpread()
    ensures SquaredDeviations([1, 2, 3, 4], 2.5) == 5.0
  {
    assert [1, 2, 3, 4][..3] == [1, 2, 3] && [1, 2, 3][..2] == [1, 2] && [1, 2][..1] == [1] && [1][..0] == [];
  }

  lemma VarianceIs(xs: seq<int>, sd: real)
    requires xs != [] && SquaredDeviations(xs, Mean(xs)) == sd
    ensures Variance(xs) == sd / |xs| as real
  {
  }

  lemma SummaryIs(xs: seq<int>, s: Summary)
    requires xs != []
    requires Sum(xs) == s.count && Mean(xs) == s.mean && Median(xs) == s.median
    requires Variance(xs) == s.variance && Min(xs) == s.min && Max(xs) == s.max
    ensures Summarize(xs) == s
  {
  }

  lemma OneToFourMean()
    ensures Mean([1, 2, 3, 4]) == 2.5
  {
    OneToFourTotals();
  }

  lemma OneToFourMedian()
    ensures Median([1, 2, 3, 4]) == 2.5
  {
    OneToFourSorted();
    var s := Ascending([1, 2, 3, 4]);
    assert s[1] == 2 && s[2] == 3;
    assert Median([1, 2, 3, 4]) == (s[1] + s[2]) as real / 2.0;
  }

  lemma OneToFourVariance()
    ensures Variance([1, 2, 3, 4]) == 1.25
  {
    OneToFourMean();
    OneToFourSpread();
    VarianceIs([1, 2, 3, 4], 5.0);
  }

  /** The error counts 1, 2, 3, 4: sum 10, mean 2.5, median 2.5, variance 1.25 (stddev about 1.118), min 1, max 4. */
  lemma OneToFour()
    ensures Summarize([1, 2, 3, 4]) == Summary(10, 2.5, 2.5, 1.25, 1, 4)
  {
    OneToFourTotals();
    OneToFourMean();
    OneToFourMedian();
    OneToFourVariance();
    SummaryIs([1, 2, 3, 4], Summary(10, 2.5, 2.5, 1.25, 1, 4));
  }

  /** Every summary of a non-empty group is consistent, and its count is the group's total. */
  lemma SummaryConsistent(rs: seq<Record>)
    requires rs != []
    ensures Consistent(Summarize(Counts(rs))) && Summarize(Counts(rs)).count == SumCounts(rs)
  {
    MeanBetween(Counts(rs));
    MedianBetween(Counts(rs));
    VarianceNonNegative(Counts(rs));
    SumOfCounts(rs);
  }

  /** A key listed by GROUP BY has at least one row. */
  lemma GroupNotEmpty<K(!new)>(rs: seq<Record>, key: Record -> K, k: K)
    requires k in GroupKeys(rs, key)
    ensures Members(rs, key, k) != []
  {
    var x :| x in rs && key(x) == k;
    assert x in Members(rs, key, k);
  }

  // get_basic_stats

  /** One line of `get_basic_stats`. */
  datatype PrefixStats = PrefixStats(prefix: string, stats: Summary)

  /** The summary line of one prefix among the rows. */
  function PrefixLine(m: seq<Record>, p: string): PrefixStats
    requires p in GroupKeys(m, PrefixOf)
  {
    GroupNotEmpty(m, PrefixOf, p);
    PrefixStats(p, Summarize(Counts(Members(m, PrefixOf, p))))
  }

  /**
   * The grouped query before ORDER BY: the rows whose prefix starts with the raw prefix
   * argument (no slash is stripped here), one line per prefix.
   */
  function StatsLines(rs: seq<Record>, prefix: Option<string>): seq<PrefixStats> {
    SummaryLines(StartsWithFilter(rs, prefix))
  }

  /** One line per prefix of the rows, in order of first appearance. */
  function SummaryLines(m: seq<Record>): (ls: seq<PrefixStats>)
    ensures |ls| == |GroupKeys(m, PrefixOf)|
  {
    seq(|GroupKeys(m, PrefixOf)|, i requires 0 <= i < |GroupKeys(m, PrefixOf)| => PrefixLine(m, GroupKeys(m, PrefixOf)[i]))
  }

  /** The keys of `ordering_map`. */
  const StatColumns: set<string> := {"count", "mean", "median", "stddev", "min", "max"}

  /** The message of the ValueError for any other key. */
  const BadStatColumn: string := "order_by must be one of ['count', 'mean', 'median', 'stddev', 'min', 'max']"

  function StatCount(l: PrefixStats): int {
    l.stats.count
  }

  function StatMean(l: PrefixStats): real {
    l.stats.mean
  }

  function StatMedian(l: PrefixStats): real {
    l.stats.median
  }

  function StatVariance(l: PrefixStats): real {
    l.stats.variance
  }

  function StatMin(l: PrefixStats): int {
    l.stats.min
  }

  function StatMax(l: PrefixStats): int {
    l.stats.max
  }

  /**
   * ORDER BY the named aggregate, ASC or DESC. Ordering by stddev is ordering by its
   * square, since the square root is increasing on non-negative reals.
   */
  function StatOrder(orderBy: string, descending: bool): (PrefixStats, PrefixStats) -> bool
    requires orderBy in StatColumns
  {
    if orderBy == "count" then ByInt(StatCount, descending)
    else if orderBy == "mean" then ByReal(StatMean, descending)
    else if orderBy == "median" then ByReal(StatMedian, descending)
    else if orderBy == "stddev" then ByReal(StatVariance, descending)
    else if orderBy == "min" then ByInt(StatMin, descending)
    else ByInt(StatMax, descending)
  }

  /**
   * `get_basic_stats`: a ValueError for a key outside `ordering_map`, raised whatever the
   * rows; otherwise the per-prefix lines ordered by that aggregate, page `page` of `pageSize`.
   */
  function GetBasicStats(rs: seq<Record>, prefix: Option<string>, orderBy: string, descending: bool,
                         page: int, pageSize: int): (r: Result<seq<PrefixStats>>)
    requires page >= 1 && 1 <= pageSize <= 1000
    ensures r.Err? <==> orderBy !in StatColumns
    ensures r.Err? ==> r.error == ValueError(BadStatColumn)
    ensures r.Ok? ==> |r.value| <= pageSize && forall l :: l in r.value ==> l in StatsLines(rs, prefix)
    ensures r.Ok? ==> |r.value| == PageLength(|StatsLines(rs, prefix)|, page, pageSize)
  {
    if orderBy !in StatColumns then Err(ValueError(BadStatColumn))
    else
      SortedPage(StatsLines(rs, prefix), StatOrder(orderBy, descending), page, pageSize);
      Ok(Page(SortBy(StatsLines(rs, prefix), StatOrder(orderBy, descending)), page, pageSize))
  }

  /** Whichever aggregate orders them, every prefix line is on some page. */
  lemma EveryStatsLinePaged(rs: seq<Record>, prefix: Option<string>, orderBy: string, descending: bool,
                            pageSize: int, l: PrefixStats)
    requires 1 <= pageSize <= 1000 && orderBy in StatColumns && l in StatsLines(rs, prefix)
    ensures exists page :: page >= 1 && l in GetBasicStats(rs, prefix, orderBy, descending, page, pageSize).value
  {
    SortedOnSomePage(StatsLines(rs, prefix), StatOrder(orderBy, descending), l, pageSize);
    var page :| page >= 1 && l in Page(SortBy(StatsLines(rs, prefix), StatOrder(orderBy, descending)), page, pageSize);
    assert l in GetBasicStats(rs, prefix, orderBy, descending, page, pageSize).value;
  }

  /**
   * Each line is a distinct prefix of a matching row, carrying the aggregates of exactly
   * that prefix's matching rows; its count is their total and its aggregates are consistent.
   */
  lemma StatsLinesAreGroups(rs: seq<Record>, prefix: Option<string>)
    ensures forall l :: l in StatsLines(rs, prefix) ==>
      (exists x :: x in rs && x.prefix == l.prefix) &&
      (Given(prefix) ==> StartsWith(l.prefix, prefix.value)) &&
      Members(StartsWithFilter(rs, prefix), PrefixOf, l.prefix) != [] &&
      l.stats == Summarize(Counts(Members(StartsWithFilter(rs, prefix), PrefixOf, l.prefix))) &&
      l.stats.count == SumCounts(Members(StartsWithFilter(rs, prefix), PrefixOf, l.prefix)) &&
      Consistent(l.stats)
    ensures forall i, j :: 0 <= i < j < |StatsLines(rs, prefix)| ==> StatsLines(rs, prefix)[i].prefix != StatsLines(rs, prefix)[j].prefix
  {
    var m := StartsWithFilter(rs, prefix);
    forall l | l in StatsLines(rs, prefix)
      ensures (exists x :: x in rs && x.prefix == l.prefix) &&
        (Given(prefix) ==> StartsWith(l.prefix, prefix.value)) &&
        Members(m, PrefixOf, l.prefix) != [] &&
        l.stats == Summarize(Counts(Members(m, PrefixOf, l.prefix))) &&
        l.stats.count == SumCounts(Members(m, PrefixOf, l.prefix)) &&
        Consistent(l.stats)
    {
      var i :| 0 <= i < |GroupKeys(m, PrefixOf)| && StatsLines(rs, prefix)[i] == l;
      assert GroupKeys(m, PrefixOf)[i] in GroupKeys(m, PrefixOf);
      var x :| x in m && PrefixOf(x) == l.prefix;
      SummaryConsistent(Members(m, PrefixOf, l.prefix));
    }
  }

  /** Every matching row's prefix has a line. */
  lemma EveryPrefixSummarised(rs: seq<Record>, prefix: Option<string>, x: Record)
    requires x in rs && (Given(prefix) ==> StartsWith(x.prefix, prefix.value))
    ensures exists l :: l in StatsLines(rs, prefix) && l.prefix == x.prefix
  {
    var m := StartsWithFilter(rs, prefix);
    assert PrefixOf(x) in GroupKeys(m, PrefixOf);
    var i :| 0 <= i < |GroupKeys(m, PrefixOf)| && GroupKeys(m, PrefixOf)[i] == x.prefix;
    assert StatsLines(rs, prefix)[i] in StatsLines(rs, prefix);
  }

  /** The sum of the lines' counts. */
  function TotalCount(ls: seq<PrefixStats>): int {
    if ls == [] then 0 else TotalCount(ls[..|ls| - 1]) + ls[|ls| - 1].stats.count
  }

  /** Lines carrying the group totals of `ks`, in that order, add up to the totals' sum. */
  lemma {:induction false} LineCountsSumGroups(m: seq<Record>, ls: seq<PrefixStats>, ks: seq<string>)
    requires |ls| == |ks| && forall i :: 0 <= i < |ls| ==> ls[i].stats.count == SumCounts(Members(m, PrefixOf, ks[i]))
    ensures TotalCount(ls) == SumOverGroups(m, PrefixOf, ks)
  {
    if ls != [] {
      LineCountsSumGroups(m, ls[..|ls| - 1], ks[..|ks| - 1]);
    }
  }

  /** A line's count is the total of its prefix's rows. */
  lemma SummaryLineCount(m: seq<Record>, i: int)
    requires 0 <= i < |GroupKeys(m, PrefixOf)|
    ensures SummaryLines(m)[i].stats.count == SumCounts(Members(m, PrefixOf, GroupKeys(m, PrefixOf)[i]))
  {
    SumOfCounts(Members(m, PrefixOf, GroupKeys(m, PrefixOf)[i]));
  }

  /** The per-prefix counts add up to the total error count of the matching rows. */
  lemma StatsCountsAddUp(rs: seq<Record>, prefix: Option<string>)
    ensures TotalCount(StatsLines(rs, prefix)) == SumCounts(StartsWithFilter(rs, prefix))
  {
    var m := StartsWithFilter(rs, prefix);
    forall i | 0 <= i < |GroupKeys(m, PrefixOf)|
      ensures SummaryLines(m)[i].stats.count == SumCounts(Members(m, PrefixOf, GroupKeys(m, PrefixOf)[i]))
    {
      SummaryLineCount(m, i);
    }
    LineCountsSumGroups(m, SummaryLines(m), GroupKeys(m, PrefixOf));
    GroupSumsAddUp(m, PrefixOf);
  }

  /** The page is ordered by the named aggregate, ascending or descending. */
  lemma GetBasicStatsOrdered(rs: seq<Record>, prefix: Option<string>, orderBy: string, descending: bool,
                             page: int, pageSize: int)
    requires page >= 1 && 1 <= pageSize <= 1000 && orderBy in StatColumns
    ensures forall i, j :: 0 <= i < j < |GetBasicStats(rs, prefix, orderBy, descending, page, pageSize).value| ==>
      StatOrder(orderBy, descending)(GetBasicStats(rs, prefix, orderBy, descending, page, pageSize).value[i],
                                     GetBasicStats(rs, prefix, orderBy, descending, page, pageSize).value[j])
  {
    var le := StatOrder(orderBy, descending);
    if orderBy == "count" {
      ByIntTotal(StatCount, descending);
    } else if orderBy == "mean" {
      ByRealTotal(StatMean, descending);
    } else if orderBy == "median" {
      ByRealTotal(StatMedian, descending);
    } else if orderBy == "stddev" {
      ByRealTotal(StatVariance, descending);
    } else if orderBy == "min" {
      ByIntTotal(StatMin, descending);
    } else {
      ByIntTotal(StatMax, descending);
    }
    PageSorted(SortBy(StatsLines(rs, prefix), le), le, page, pageSize);
  }

  // get_basic_stats_chart

  /** The GROUP BY key of the chart: the truncated prefix (none without a prefix) and to_date. */
  datatype DateGroup = DateGroup(groupedPrefix: Option<string>, toDate: int)

  function DateGroupKey(prefix: Option<string>): Record -> DateGroup {
    if Given(prefix) then (x: Record) => DateGroup(Some(Substr(x.prefix, |prefix.value|)), x.toDate)
    else (x: Record) => DateGroup(None, x.toDate)
  }

  /** One chart line with the labels the aggregates are meant to carry. */
  datatype DateStats = DateStats(prefix: Option<string>, toDate: int, stats: Summary)

  /** One chart line as the code labels it: every value one key to the right of its column. */
  datatype ShiftedStats = ShiftedStats(prefix: Option<string>, count: real, mean: real, median: real,
                                       stddev: real, min: real, max: real)

  /** The chart line of one group among the rows. */
  function DateLine(m: seq<Record>, key: Record -> DateGroup, g: DateGroup): DateStats
    requires g in GroupKeys(m, key)
  {
    GroupNotEmpty(m, key, g);
    DateStats(g.groupedPrefix, g.toDate, Summarize(Counts(Members(m, key, g))))
  }

  /** The grouped chart query: rows under the prefix (all rows without one), one line per group. */
  function ChartStatsLines(rs: seq<Record>, prefix: Option<string>): seq<DateStats> {
    DateLines(StartsWithFilter(rs, prefix), DateGroupKey(prefix))
  }

  /** One line per group of the rows, in order of first appearance. */
  function DateLines(m: seq<Record>, key: Record -> DateGroup): (ls: seq<DateStats>)
    ensures |ls| == |GroupKeys(m, key)|
  {
    seq(|GroupKeys(m, key)|, i requires 0 <= i < |GroupKeys(m, key)| => DateLine(m, key, GroupKeys(m, key)[i]))
  }

  /** The labelling at the end of `get_basic_stats_chart` as written. */
  function Shifted(l: DateStats): ShiftedStats {
    ShiftedStats(l.prefix, l.toDate as real, l.stats.count as real, l.stats.mean, l.stats.median,
                 l.stats.variance, l.stats.min as real)
  }

  /** Relabels every line as the code does. */
  function ShiftAll(ls: seq<DateStats>): (r: seq<ShiftedStats>)
    ensures |r| == |ls|
    ensures forall i :: 0 <= i < |r| ==>
      r[i].prefix == ls[i].prefix &&
      r[i].count == ls[i].toDate as real &&
      r[i].mean == ls[i].stats.count as real &&
      r[i].median == ls[i].stats.mean &&
      r[i].stddev == ls[i].stats.median &&
      r[i].min == ls[i].stats.variance &&
      r[i].max == ls[i].stats.min as real
  {
    seq(|ls|, i requires 0 <= i < |ls| => Shifted(ls[i]))
  }

  /**
   * `get_basic_stats_chart` as written: "count" holds to_date, "mean" the sum, "median" the
   * mean, "stddev" the median, "min" the spread and "max" the minimum; the maximum is dropped.
   */
  function GetBasicStatsChartAsWritten(rs: seq<Record>, prefix: Option<string>): (r: seq<ShiftedStats>)
    ensures |r| == |GetBasicStatsChart(rs, prefix)|
    ensures forall i :: 0 <= i < |r| ==>
      r[i].prefix == GetBasicStatsChart(rs, prefix)[i].prefix &&
      r[i].count == GetBasicStatsChart(rs, prefix)[i].toDate as real &&
      r[i].mean == GetBasicStatsChart(rs, prefix)[i].stats.count as real &&
      r[i].max == GetBasicStatsChart(rs, prefix)[i].stats.min as real
  {
    ShiftAll(ChartStatsLines(rs, prefix))
  }

  /** `get_basic_stats_chart` with each aggregate under its own label, and to_date kept. */
  function GetBasicStatsChart(rs: seq<Record>, prefix: Option<string>): (r: seq<DateStats>)
    ensures |r| == |GroupKeys(StartsWithFilter(rs, prefix), DateGroupKey(prefix))|
    ensures StartsWithFilter(rs, prefix) == [] ==> r == []
  {
    ChartStatsLines(rs, prefix)
  }

  /** Each line is a group of the rows, carrying consistent aggregates with the group total as count. */
  lemma DateLinesAreGroups(m: seq<Record>, key: Record -> DateGroup)
    ensures forall l :: l in DateLines(m, key) ==>
      DateGroup(l.prefix, l.toDate) in GroupKeys(m, key) &&
      l.stats.count == SumCounts(Members(m, key, DateGroup(l.prefix, l.toDate))) &&
      Consistent(l.stats)
  {
    forall l | l in DateLines(m, key)
      ensures DateGroup(l.prefix, l.toDate) in GroupKeys(m, key) &&
        l.stats.count == SumCounts(Members(m, key, DateGroup(l.prefix, l.toDate))) &&
        Consistent(l.stats)
    {
      var i :| 0 <= i < |GroupKeys(m, key)| && DateLines(m, key)[i] == l;
      assert GroupKeys(m, key)[i] in GroupKeys(m, key);
      GroupNotEmpty(m, key, GroupKeys(m, key)[i]);
      SummaryConsistent(Members(m, key, GroupKeys(m, key)[i]));
    }
  }

  /** Under a prefix every matching row falls in a group labelled with that prefix; without one, in an unlabelled group. */
  lemma DateGroupOfMatching(rs: seq<Record>, prefix: Option<string>)
    ensures forall x :: x in StartsWithFilter(rs, prefix) ==>
      DateGroupKey(prefix)(x) == DateGroup(if Given(prefix) then prefix else None, x.toDate)
  {
    forall x | x in StartsWithFilter(rs, prefix)
      ensures DateGroupKey(prefix)(x) == DateGroup(if Given(prefix) then prefix else None, x.toDate)
    {
      if Given(prefix) {
        assert prefix.value <= x.prefix;
        assert Substr(x.prefix, |prefix.value|) == prefix.value;
      }
    }
  }

  /**
   * Each corrected chart line is the (prefix, to_date) group of some matching rows: under a
   * prefix it is labelled with that prefix, without one its prefix is None. It carries the
   * aggregates of exactly that group's rows, which are consistent, with the group total as count.
   */
  lemma ChartStatsAreGroups(rs: seq<Record>, prefix: Option<string>)
    ensures forall l :: l in GetBasicStatsChart(rs, prefix) ==>
      (exists x :: x in rs && x.toDate == l.toDate && (Given(prefix) ==> StartsWith(x.prefix, prefix.value))) &&
      l.prefix == (if Given(prefix) then prefix else None) &&
      l.stats.count == SumCounts(Members(StartsWithFilter(rs, prefix), DateGroupKey(prefix), DateGroup(l.prefix, l.toDate))) &&
      Consistent(l.stats)
  {
    DateLinesAreGroups(StartsWithFilter(rs, prefix), DateGroupKey(prefix));
    DateGroupOfMatching(rs, prefix);
  }

  /** One line per to_date: no two corrected chart lines share a date. */
  lemma ChartDatesDistinct(rs: seq<Record>, prefix: Option<string>)
    ensures forall i, j :: 0 <= i < j < |GetBasicStatsChart(rs, prefix)| ==>
      GetBasicStatsChart(rs, prefix)[i].toDate != GetBasicStatsChart(rs, prefix)[j].toDate
  {
    var m := StartsWithFilter(rs, prefix);
    var key := DateGroupKey(prefix);
    DateGroupOfMatching(rs, prefix);
    forall i, j | 0 <= i < j < |GetBasicStatsChart(rs, prefix)|
      ensures GetBasicStatsChart(rs, prefix)[i].toDate != GetBasicStatsChart(rs, prefix)[j].toDate
    {
      assert GroupKeys(m, key)[i] in GroupKeys(m, key) && GroupKeys(m, key)[j] in GroupKeys(m, key);
      var x :| x in m && key(x) == GroupKeys(m, key)[i];
      var y :| y in m && key(y) == GroupKeys(m, key)[j];
    }
  }

  /** Every to_date of a matching row has a corrected chart line. */
  lemma EveryDateCharted(rs: seq<Record>, prefix: Option<string>, x: Record)
    requires x in rs && (Given(prefix) ==> StartsWith(x.prefix, prefix.value))
    ensures exists l :: l in GetBasicStatsChart(rs, prefix) && l.toDate == x.toDate
  {
    var m := StartsWithFilter(rs, prefix);
    var key := DateGroupKey(prefix);
    assert key(x) in GroupKeys(m, key);
    var i :| 0 <= i < |GroupKeys(m, key)| && GroupKeys(m, key)[i] == key(x);
    assert GetBasicStatsChart(rs, prefix)[i] in GetBasicStatsChart(rs, prefix);
  }

  /**
   * The code's labels are wrong: for a single row, the line's "count" is the row's to_date,
   * not its error count, and its "mean" is the sum; the corrected line carries the error
   * count as its count.
   */
  lemma ShiftedChartMislabels(x: Record)
    ensures |GetBasicStatsChartAsWritten([x], None)| == 1
    ensures GetBasicStatsChartAsWritten([x], None)[0].count == x.toDate as real
    ensures GetBasicStatsChartAsWritten([x], None)[0].mean == x.errorCount as real
    ensures GetBasicStatsChart([x], None) == [DateStats(None, x.toDate, Summarize([x.errorCount]))]
    ensures Summarize([x.errorCount]).count == x.errorCount
  {
    var key := DateGroupKey(None);
    assert GroupKeys([x], key) == [DateGroup(None, x.toDate)] by {
      assert GroupKeys([], key) == [];
      GroupKeysAppendRow([], x, key);
      assert [] + [x] == [x];
    }
    assert Members([x], key, DateGroup(None, x.toDate)) == [x] by {
      assert [x][..0] == [];
    }
    assert Counts([x]) == [x.errorCount];
    assert Sum([x.errorCount]) == x.errorCount by {
      assert [x.errorCount][..0] == [];
    }
  }
}
