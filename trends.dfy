/**
 * `calculate_trends`: the rows are cut into maximal runs of consecutive rows with the same
 * group key (`itertools.groupby`), and every run gets a straight line through its error
 * counts, taken in sort-key order at positions 0, 1, ..., n-1. A run of fewer than two rows
 * gets the line (1, 0); any longer run gets its degree-1 least-squares fit (`numpy.polyfit`).
 */
module Trends {
  import opened Text
  import opened Seqs
  import opened Orders
  import opened Regression

  /** One row handed to `calculate_trends`: its group key, its sort key and its error count. */
  datatype Sample = Sample(key: string, at: int, errorCount: int)

  /** One entry of the result: a group key and the (slope, intercept) of its run. */
  datatype Trend = Trend(key: string, line: Line)

  /** The `(1, 0)` that a run too short to fit is given. */
  const Flat := Line(1.0, 0.0)

  function At(x: Sample): int {
    x.at
  }

  function Key(t: Trend): string {
    t.key
  }

  /** `itertools.groupby`: the maximal runs of consecutive samples with equal keys. */
  function Runs(s: seq<Sample>): (rs: seq<seq<Sample>>)
    ensures s == [] <==> rs == []
    ensures forall i :: 0 <= i < |rs| ==> rs[i] != []
    ensures s != [] ==> rs[|rs| - 1][0].key == s[|s| - 1].key
  {
    if s == [] then []
    else
      var rs := Runs(s[..|s| - 1]);
      if rs != [] && rs[|rs| - 1][0].key == s[|s| - 1].key then rs[..|rs| - 1] + [rs[|rs| - 1] + [s[|s| - 1]]]
      else rs + [[s[|s| - 1]]]
  }

  /** A sample with the key of the last run joins that run. */
  lemma RunsJoin(u: seq<Sample>, x: Sample)
    requires Runs(u) != [] && Runs(u)[|Runs(u)| - 1][0].key == x.key
    ensures Runs(u + [x]) == Runs(u)[..|Runs(u)| - 1] + [Runs(u)[|Runs(u)| - 1] + [x]]
  {
    assert (u + [x])[..|u + [x]| - 1] == u;
  }

  /** A sample with another key (or the first sample) starts a new run. */
  lemma RunsNew(u: seq<Sample>, x: Sample)
    requires Runs(u) != [] ==> Runs(u)[|Runs(u)| - 1][0].key != x.key
    ensures Runs(u + [x]) == Runs(u) + [[x]]
  {
    assert (u + [x])[..|u + [x]| - 1] == u;
  }

  lemma RunsFlattenStep(u: seq<Sample>, x: Sample)
    requires Flatten(Runs(u)) == u
    ensures Flatten(Runs(u + [x])) == u + [x]
  {
    var ru: seq<seq<Sample>> := Runs(u);
    if ru != [] && ru[|ru| - 1][0].key == x.key {
      RunsJoin(u, x);
      var a, last := ru[..|ru| - 1], ru[|ru| - 1];
      assert ru == a + [last];
      FlattenSnoc(a, last);
      FlattenSnoc(a, last + [x]);
    } else {
      RunsNew(u, x);
      FlattenSnoc(ru, [x]);
    }
  }

  lemma {:induction false} RunsFlatten(s: seq<Sample>)
    ensures Flatten(Runs(s)) == s
  {
    if s != [] {
      var u, x := s[..|s| - 1], s[|s| - 1];
      assert s == u + [x];
      RunsFlatten(u);
      RunsFlattenStep(u, x);
    }
  }

  /** Every run holds a single key. */
  ghost predicate OneKey(rs: seq<seq<Sample>>) {
    forall i, j :: 0 <= i < |rs| && 0 <= j < |rs[i]| ==> rs[i][j].key == rs[i][0].key
  }

  lemma OneKeyJoin(rs: seq<seq<Sample>>, x: Sample)
    requires rs != [] && rs[|rs| - 1] != [] && OneKey(rs) && rs[|rs| - 1][0].key == x.key
    ensures OneKey(rs[..|rs| - 1] + [rs[|rs| - 1] + [x]])
  {
    var t: seq<seq<Sample>> := rs[..|rs| - 1] + [rs[|rs| - 1] + [x]];
    forall i, j | 0 <= i < |t| && 0 <= j < |t[i]| ensures t[i][j].key == t[i][0].key {
      if i < |rs| - 1 {
        assert t[i] == rs[i];
      } else {
        assert t[i] == rs[|rs| - 1] + [x];
      }
    }
  }

  lemma OneKeyNew(rs: seq<seq<Sample>>, x: Sample)
    requires OneKey(rs)
    ensures OneKey(rs + [[x]])
  {
    var t: seq<seq<Sample>> := rs + [[x]];
    forall i, j | 0 <= i < |t| && 0 <= j < |t[i]| ensures t[i][j].key == t[i][0].key {
      if i < |rs| {
        assert t[i] == rs[i];
      }
    }
  }

  lemma {:induction false} RunsOneKey(s: seq<Sample>)
    ensures forall i, j :: 0 <= i < |Runs(s)| && 0 <= j < |Runs(s)[i]| ==> Runs(s)[i][j].key == Runs(s)[i][0].key
  {
    if s != [] {
      var u, x := s[..|s| - 1], s[|s| - 1];
      assert s == u + [x];
      RunsOneKey(u);
      assert OneKey(Runs(u));
      if Runs(u) != [] && Runs(u)[|Runs(u)| - 1][0].key == x.key {
        RunsJoin(u, x);
        OneKeyJoin(Runs(u), x);
      } else {
        RunsNew(u, x);
        OneKeyNew(Runs(u), x);
      }
      assert OneKey(Runs(s));
    }
  }

  lemma {:induction false} RunsSplitAtKeyChanges(s: seq<Sample>)
    ensures forall i :: 0 < i < |Runs(s)| ==> Runs(s)[i - 1][0].key != Runs(s)[i][0].key
  {
    if s != [] {
      var u, x := s[..|s| - 1], s[|s| - 1];
      assert s == u + [x];
      RunsSplitAtKeyChanges(u);
      var ru: seq<seq<Sample>> := Runs(u);
      if ru != [] && ru[|ru| - 1][0].key == x.key {
        RunsJoin(u, x);
      } else {
        RunsNew(u, x);
      }
    }
  }

  /**
   * What grouping consecutive equal keys means, independently of how `Runs` computes it:
   * non-empty runs that laid end to end give back `s`, one key per run, and neighbouring
   * runs with different keys.
   */
  ghost predicate IsGrouping(s: seq<Sample>, rs: seq<seq<Sample>>) {
    && Flatten(rs) == s
    && (forall i :: 0 <= i < |rs| ==> rs[i] != [])
    && (forall i, j :: 0 <= i < |rs| && 0 <= j < |rs[i]| ==> rs[i][j].key == rs[i][0].key)
    && (forall i :: 0 < i < |rs| ==> rs[i - 1][0].key != rs[i][0].key)
  }

  /** `Runs` is the grouping of consecutive equal keys. */
  lemma RunsAreGrouping(s: seq<Sample>)
    ensures IsGrouping(s, Runs(s))
  {
    RunsFlatten(s);
    RunsOneKey(s);
    RunsSplitAtKeyChanges(s);
  }

  /** The error counts of a run, in order, as reals. */
  function ErrorCounts(run: seq<Sample>): (ys: seq<real>)
    ensures |ys| == |run| && forall i :: 0 <= i < |run| ==> ys[i] == run[i].errorCount as real
  {
    seq(|run|, i requires 0 <= i < |run| => run[i].errorCount as real)
  }

  /** A run in sort-key order: `sorted(group, key=sorting_key)`. */
  function InOrder(run: seq<Sample>): (r: seq<Sample>)
    ensures |r| == |run| && multiset(r) == multiset(run)
    ensures forall i, j :: 0 <= i < j < |r| ==> r[i].at <= r[j].at
  {
    SortByInt(run, At, false);
    SortBy(run, ByInt(At, false))
  }

  /**
   * The line `calculate_trends` gives a series of error counts: (1, 0) below two values,
   * else `np.polyfit(range(n), counts, 1)`, the least-squares fit over positions 0..n-1.
   */
  function FitCounts(ys: seq<real>): Line {
    if |ys| < 2 then Flat
    else
      PositionsSpread(|ys|);
      Fit(Positions(|ys|), ys)
  }

  /**
   * For two or more values that line is the least-squares line: no other line has a
   * smaller sum of squared errors, and its residuals sum to zero, also when weighted by position.
   */
  lemma FitCountsIsLeastSquares(ys: seq<real>, m: Line)
    requires |ys| >= 2
    ensures SquaredError(Positions(|ys|), ys, FitCounts(ys)) <= SquaredError(Positions(|ys|), ys, m)
    ensures Residual(Positions(|ys|), ys, FitCounts(ys)) == 0.0
    ensures XResidual(Positions(|ys|), ys, FitCounts(ys)) == 0.0
  {
    PositionsSpread(|ys|);
    FitMinimisesSquaredError(Positions(|ys|), ys, m);
    NormalEquations(Positions(|ys|), ys);
  }

  /** The line of one run: the fit over its error counts in sort-key order. */
  function RunLine(run: seq<Sample>): Line {
    FitCounts(ErrorCounts(InOrder(run)))
  }

  function RunTrend(run: seq<Sample>): Trend
    requires run != []
  {
    Trend(run[0].key, RunLine(run))
  }

  /** The list `calculate_trends` returns: one entry per run, in input order. */
  function TrendsOf(s: seq<Sample>): (ts: seq<Trend>)
    ensures |ts| == |Runs(s)|
    ensures forall j :: 0 <= j < |ts| ==> ts[j] == RunTrend(Runs(s)[j])
  {
    var rs := Runs(s);
    seq(|rs|, j requires 0 <= j < |rs| => RunTrend(rs[j]))
  }

  /** `calculate_trends`: a loop over the groups, appending one (key, (k, b)) per group. */
  method CalculateTrends(rows: seq<Sample>) returns (trends: seq<Trend>)
    ensures trends == TrendsOf(rows)
  {
    var groups := Runs(rows);
    trends := [];
    for j := 0 to |groups|
      invariant |trends| == j
      invariant forall i :: 0 <= i < j ==> trends[i] == RunTrend(groups[i])
    {
      var recs := InOrder(groups[j]);
      var line := Flat;
      if |recs| >= 2 {
        var xValues := Positions(|recs|);
        var errors := ErrorCounts(recs);
        PositionsSpread(|recs|);
        line := Fit(xValues, errors);
      }
      assert line == RunLine(groups[j]);
      trends := trends + [Trend(groups[j][0].key, line)];
    }
  }

  /** The key of each run, in order. */
  function RunKeys(rs: seq<seq<Sample>>): (ks: seq<string>)
    requires forall i :: 0 <= i < |rs| ==> rs[i] != []
    ensures |ks| == |rs| && forall i :: 0 <= i < |rs| ==> ks[i] == rs[i][0].key
  {
    seq(|rs|, i requires 0 <= i < |rs| => rs[i][0].key)
  }

  /** A sample that joins the last run adds no key. */
  lemma RunKeysJoin(u: seq<Sample>, x: Sample)
    requires Runs(u) != [] && Runs(u)[|Runs(u)| - 1][0].key == x.key
    ensures RunKeys(Runs(u + [x])) == RunKeys(Runs(u))
  {
    RunsJoin(u, x);
    var ru: seq<seq<Sample>> := Runs(u);
    var rs: seq<seq<Sample>> := Runs(u + [x]);
    var n := |ru|;
    assert |rs| == n;
    forall i | 0 <= i < n ensures rs[i][0].key == ru[i][0].key {
      if i < n - 1 {
        assert rs[i] == ru[..n - 1][i] == ru[i];
      } else {
        assert rs[i] == ru[n - 1] + [x];
      }
    }
    SameHeadsSameKeys(rs, ru);
  }

  lemma SameHeadsSameKeys(a: seq<seq<Sample>>, b: seq<seq<Sample>>)
    requires |a| == |b| && forall i :: 0 <= i < |a| ==> a[i] != [] && b[i] != []
    requires forall i :: 0 <= i < |a| ==> a[i][0].key == b[i][0].key
    ensures RunKeys(a) == RunKeys(b)
  {
  }

  /** A sample that starts a run adds its key at the end. */
  lemma RunKeysNew(u: seq<Sample>, x: Sample)
    requires Runs(u) != [] ==> Runs(u)[|Runs(u)| - 1][0].key != x.key
    ensures RunKeys(Runs(u + [x])) == RunKeys(Runs(u)) + [x.key]
  {
    RunsNew(u, x);
  }

  /** Keys in strictly increasing order, none above `top`. */
  ghost predicate Ascending(ks: seq<string>, top: string) {
    && (forall i, j :: 0 <= i < j < |ks| ==> StrLt(ks[i], ks[j]))
    && (forall i :: 0 <= i < |ks| ==> StrLe(ks[i], top))
  }

  lemma AscendingRaise(ks: seq<string>, top: string, k: string)
    requires Ascending(ks, top) && StrLe(top, k)
    ensures Ascending(ks, k)
  {
    forall i | 0 <= i < |ks| ensures StrLe(ks[i], k) {
      StrLeTransitive(ks[i], top, k);
    }
  }

  lemma AscendingAppend(ks: seq<string>, k: string)
    requires Ascending(ks, k) && (ks != [] ==> ks[|ks| - 1] != k)
    ensures Ascending(ks + [k], k)
  {
    StrLeReflexive(k);
    forall i | 0 <= i < |ks| ensures ks[i] != k {
      if i < |ks| - 1 && ks[i] == k {
        StrLeAntisymmetric(ks[|ks| - 1], k);
      }
    }
  }

  /** The run keys after one more sample: unchanged when it repeats the last key, else extended. */
  function NextKeys(ks: seq<string>, k: string): seq<string> {
    if ks != [] && ks[|ks| - 1] == k then ks else ks + [k]
  }

  lemma RunKeysSnoc(u: seq<Sample>, x: Sample)
    ensures RunKeys(Runs(u + [x])) == NextKeys(RunKeys(Runs(u)), x.key)
  {
    var ru: seq<seq<Sample>> := Runs(u);
    if ru != [] && ru[|ru| - 1][0].key == x.key {
      RunKeysJoin(u, x);
    } else {
      RunKeysNew(u, x);
    }
  }

  lemma AscendingNext(ks: seq<string>, top: string, k: string)
    requires Ascending(ks, top) && StrLe(top, k)
    ensures Ascending(NextKeys(ks, k), k)
  {
    AscendingRaise(ks, top, k);
    if !(ks != [] && ks[|ks| - 1] == k) {
      AscendingAppend(ks, k);
    }
  }

  lemma {:induction false} AscendingRuns(s: seq<Sample>)
    requires forall i, j :: 0 <= i < j < |s| ==> StrLe(s[i].key, s[j].key)
    ensures s != [] ==> Ascending(RunKeys(Runs(s)), s[|s| - 1].key)
  {
    if s != [] {
      var u, x := s[..|s| - 1], s[|s| - 1];
      assert s == u + [x];
      AscendingRuns(u);
      RunKeysSnoc(u, x);
      StrLeReflexive(x.key);
      var top := if u == [] then x.key else u[|u| - 1].key;
      AscendingNext(RunKeys(Runs(u)), top, x.key);
    }
  }

  /** When the rows arrive sorted by key, the runs have strictly increasing keys: one run per key. */
  lemma SortedRunsHaveDistinctKeys(s: seq<Sample>)
    requires forall i, j :: 0 <= i < j < |s| ==> StrLe(s[i].key, s[j].key)
    ensures forall i, j :: 0 <= i < j < |RunKeys(Runs(s))| ==> StrLt(RunKeys(Runs(s))[i], RunKeys(Runs(s))[j])
  {
    AscendingRuns(s);
  }

  /** The keys of the runs are exactly the keys of the samples. */
  lemma {:induction false} RunKeysAreKeys(s: seq<Sample>)
    ensures forall k :: k in RunKeys(Runs(s)) <==> exists x :: x in s && x.key == k
  {
    if s != [] {
      var u, x := s[..|s| - 1], s[|s| - 1];
      assert s == u + [x];
      RunKeysAreKeys(u);
      var ru: seq<seq<Sample>> := Runs(u);
      if ru != [] && ru[|ru| - 1][0].key == x.key {
        RunKeysJoin(u, x);
        assert x.key in RunKeys(ru);
      } else {
        RunKeysNew(u, x);
      }
      forall k | exists y :: y in s && y.key == k ensures k in RunKeys(Runs(s)) {
        var y :| y in s && y.key == k;
        if y != x {
          assert y in u;
        }
      }
    }
  }

  /** Every trend of `calculate_trends` carries the key of some row ... */
  lemma TrendKeysFromRows(s: seq<Sample>)
    ensures forall t :: t in TrendsOf(s) ==> exists x :: x in s && x.key == t.key
  {
    RunKeysAreKeys(s);
    forall t | t in TrendsOf(s) ensures exists x :: x in s && x.key == t.key {
      var j :| 0 <= j < |TrendsOf(s)| && TrendsOf(s)[j] == t;
      assert RunKeys(Runs(s))[j] in RunKeys(Runs(s));
    }
  }

  /** ... and every row's key has a trend. */
  lemma RowKeysHaveTrends(s: seq<Sample>)
    ensures forall x :: x in s ==> exists t :: t in TrendsOf(s) && t.key == x.key
  {
    RunKeysAreKeys(s);
    forall x | x in s ensures exists t :: t in TrendsOf(s) && t.key == x.key {
      assert x.key in RunKeys(Runs(s));
      var j :| 0 <= j < |RunKeys(Runs(s))| && RunKeys(Runs(s))[j] == x.key;
      assert TrendsOf(s)[j] in TrendsOf(s);
    }
  }

  /** Samples that all share one key form a single run. */
  lemma {:induction false} OneKeyOneRun(s: seq<Sample>, k: string)
    requires s != [] && forall i :: 0 <= i < |s| ==> s[i].key == k
    ensures Runs(s) == [s]
  {
    var u, x := s[..|s| - 1], s[|s| - 1];
    assert s == u + [x];
    if u == [] {
      RunsNew(u, x);
    } else {
      OneKeyOneRun(u, k);
      var ru: seq<seq<Sample>> := Runs(u);
      assert ru == [u] && ru[0][0] == s[0];
      RunsJoin(u, x);
      assert ru[..0] + [u + [x]] == [s];
    }
  }

  /** `dict(trends).get(key, (1, 0))`: the line of the last entry with that key, else (1, 0). */
  function Lookup(ts: seq<Trend>, key: string): (l: Line)
    ensures l == Flat || exists j :: 0 <= j < |ts| && ts[j].key == key && ts[j].line == l
    ensures (forall j :: 0 <= j < |ts| ==> ts[j].key != key) ==> l == Flat
    ensures (exists j :: 0 <= j < |ts| && ts[j].key == key) ==>
      exists j :: 0 <= j < |ts| && ts[j].key == key && ts[j].line == l &&
        forall k :: j < k < |ts| ==> ts[k].key != key
  {
    if ts == [] then Flat
    else if ts[|ts| - 1].key == key then ts[|ts| - 1].line
    else Lookup(ts[..|ts| - 1], key)
  }
}
