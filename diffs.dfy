/**
 * `get_upload_diffs`: per prefix, how many uploads lowered (improvements) or raised
 * (degradations) its error count compared with the previous upload of the same prefix.
 */
module Diffs {
  import opened Wrappers
  import opened Text
  import opened Seqs
  import opened Orders
  import opened Store

  /**
   * One row of the inner query: a stored row with `error_count - lag(error_count)` over
   * its prefix's rows by created_at; the first row of a prefix has no predecessor (NULL).
   */
  datatype DiffRow = DiffRow(prefix: string, uploadUuid: string, diff: Option<int>)

  /** One line of the result. */
  datatype DiffLine = DiffLine(prefix: string, improvements: int, degradations: int)

  /** The rows of one prefix in created_at order: the window `lag` runs over. */
  function Partition(m: seq<Record>, p: string): seq<Record> {
    SortBy(Members(m, PrefixOf, p), ByInt(CreatedAt, false))
  }

  /** `error_count - lag(error_count)` along a partition. */
  function Lag(part: seq<Record>): (ds: seq<DiffRow>)
    ensures |ds| == |part|
  {
    seq(|part|, i requires 0 <= i < |part| =>
      DiffRow(part[i].prefix, part[i].uploadUuid, if i == 0 then None else Some(part[i].errorCount - part[i - 1].errorCount)))
  }

  /** `include_upload_uuids`: None and the empty list both mean every upload. */
  predicate Included(uuids: Option<seq<string>>, d: DiffRow) {
    uuids.None? || uuids.value == [] || d.uploadUuid in uuids.value
  }

  /** `case(diff < 0, 1) else 0`: a NULL diff counts as neither. */
  predicate Improved(d: DiffRow) {
    d.diff.Some? && d.diff.value < 0
  }

  predicate Degraded(d: DiffRow) {
    d.diff.Some? && d.diff.value > 0
  }

  /** The inner rows of prefix `p` that the outer WHERE keeps. */
  function Kept(m: seq<Record>, p: string, uuids: Option<seq<string>>): seq<DiffRow> {
    Where(Lag(Partition(m, p)), (d: DiffRow) => Included(uuids, d))
  }

  /** The line of prefix `p`, if any of its rows is kept. */
  function PrefixLine(m: seq<Record>, p: string, uuids: Option<seq<string>>): Option<DiffLine> {
    if Kept(m, p, uuids) == [] then None
    else Some(DiffLine(p, |Where(Kept(m, p, uuids), Improved)|, |Where(Kept(m, p, uuids), Degraded)|))
  }

  /** The lines of the prefixes in `ps`, in that order. */
  function Lines(m: seq<Record>, ps: seq<string>, uuids: Option<seq<string>>): seq<DiffLine> {
    if ps == [] then []
    else
      Lines(m, ps[..|ps| - 1], uuids)
        + match PrefixLine(m, ps[|ps| - 1], uuids) case Some(l) => [l] case None => []
  }

  /**
   * The outer query, before OFFSET/LIMIT: one line per prefix, in the order the prefixes
   * first occur among the filtered rows.
   */
  function DiffLines(rs: seq<Record>, prefix: Option<string>, uuids: Option<seq<string>>): seq<DiffLine> {
    Lines(ApplyPrefixFilter(rs, prefix), GroupKeys(ApplyPrefixFilter(rs, prefix), PrefixOf), uuids)
  }

  /** Each line is the line of a prefix among `ps`. */
  lemma {:induction false} LinesArePrefixLines(m: seq<Record>, ps: seq<string>, uuids: Option<seq<string>>)
    ensures forall l :: l in Lines(m, ps, uuids) ==> l.prefix in ps && PrefixLine(m, l.prefix, uuids) == Some(l)
  {
    if ps != [] {
      LinesArePrefixLines(m, ps[..|ps| - 1], uuids);
    }
  }

  /** Every prefix of `ps` that has a line is listed. */
  lemma {:induction false} LinesCoverPrefixes(m: seq<Record>, ps: seq<string>, uuids: Option<seq<string>>)
    ensures forall p :: p in ps && PrefixLine(m, p, uuids).Some? ==> PrefixLine(m, p, uuids).value in Lines(m, ps, uuids)
  {
    if ps != [] {
      LinesCoverPrefixes(m, ps[..|ps| - 1], uuids);
      assert ps == ps[..|ps| - 1] + [ps[|ps| - 1]];
    }
  }

  /** Lines of distinct prefixes have distinct prefixes. */
  lemma {:induction false} LinesDistinct(m: seq<Record>, ps: seq<string>, uuids: Option<seq<string>>)
    requires NoDups(ps)
    ensures forall i, j :: 0 <= i < j < |Lines(m, ps, uuids)| ==> Lines(m, ps, uuids)[i].prefix != Lines(m, ps, uuids)[j].prefix
  {
    if ps != [] {
      var init, p := ps[..|ps| - 1], ps[|ps| - 1];
      LinesDistinct(m, init, uuids);
      LinesArePrefixLines(m, init, uuids);
      assert ps == init + [p];
      assert p !in init;
      var before := Lines(m, init, uuids);
      if PrefixLine(m, p, uuids).Some? {
        var l := PrefixLine(m, p, uuids).value;
        var after := Lines(m, ps, uuids);
        assert after == before + [l];
        forall i, j | 0 <= i < j < |after| ensures after[i].prefix != after[j].prefix {
          assert after[i] == before[i];
          if j == |before| {
            assert before[i] in before;
          } else {
            assert after[j] == before[j];
          }
        }
      } else {
        assert Lines(m, ps, uuids) == before;
      }
    }
  }

  /** The result has one line for each filtered prefix with a kept row, and no other. */
  lemma DiffLinesArePrefixLines(rs: seq<Record>, prefix: Option<string>, uuids: Option<seq<string>>)
    ensures forall l :: l in DiffLines(rs, prefix, uuids) ==>
      (exists x :: x in ApplyPrefixFilter(rs, prefix) && x.prefix == l.prefix) &&
      PrefixLine(ApplyPrefixFilter(rs, prefix), l.prefix, uuids) == Some(l)
    ensures forall x :: x in ApplyPrefixFilter(rs, prefix) && Kept(ApplyPrefixFilter(rs, prefix), x.prefix, uuids) != [] ==>
      PrefixLine(ApplyPrefixFilter(rs, prefix), x.prefix, uuids).value in DiffLines(rs, prefix, uuids)
    ensures forall i, j :: 0 <= i < j < |DiffLines(rs, prefix, uuids)| ==>
      DiffLines(rs, prefix, uuids)[i].prefix != DiffLines(rs, prefix, uuids)[j].prefix
  {
    var m := ApplyPrefixFilter(rs, prefix);
    LinesArePrefixLines(m, GroupKeys(m, PrefixOf), uuids);
    LinesCoverPrefixes(m, GroupKeys(m, PrefixOf), uuids);
    LinesDistinct(m, GroupKeys(m, PrefixOf), uuids);
    forall x | x in m ensures x.prefix in GroupKeys(m, PrefixOf) {
      assert PrefixOf(x) in GroupKeys(m, PrefixOf);
    }
  }

  /** The total of the non-NULL diffs. */
  function DiffTotal(ds: seq<DiffRow>): int {
    if ds == [] then 0
    else DiffTotal(ds[..|ds| - 1]) + match ds[|ds| - 1].diff case Some(v) => v case None => 0
  }

  lemma LagSnoc(part: seq<Record>, x: Record)
    requires part != []
    ensures Lag(part + [x]) == Lag(part) + [DiffRow(x.prefix, x.uploadUuid, Some(x.errorCount - part[|part| - 1].errorCount))]
  {
  }

  /** The diffs along a partition add up to its last error count minus its first. */
  lemma {:induction false} LagTelescopes(part: seq<Record>)
    requires part != []
    ensures DiffTotal(Lag(part)) == part[|part| - 1].errorCount - part[0].errorCount
  {
    if |part| > 1 {
      var u := part[..|part| - 1];
      LagTelescopes(u);
      LagTotalLast(part);
      assert u[0] == part[0] && u[|u| - 1] == part[|part| - 2];
    }
  }

  /** The last row of a partition adds its change from the row before to the total. */
  lemma LagTotalLast(part: seq<Record>)
    requires |part| > 1
    ensures DiffTotal(Lag(part)) ==
      DiffTotal(Lag(part[..|part| - 1])) + (part[|part| - 1].errorCount - part[|part| - 2].errorCount)
  {
    var u, x := part[..|part| - 1], part[|part| - 1];
    assert part == u + [x];
    LagSnoc(u, x);
    var ds := Lag(part);
    assert ds[..|ds| - 1] == Lag(u);
  }

  /** Without an improvement the diffs cannot add up to a drop. */
  lemma {:induction false} NoImprovementNoDrop(ds: seq<DiffRow>)
    requires forall d :: d in ds ==> !Improved(d)
    ensures DiffTotal(ds) >= 0
  {
    if ds != [] {
      assert forall d :: d in ds[..|ds| - 1] ==> d in ds;
      NoImprovementNoDrop(ds[..|ds| - 1]);
      assert ds[|ds| - 1] in ds;
    }
  }

  /** Without a degradation the diffs cannot add up to a rise. */
  lemma {:induction false} NoDegradationNoRise(ds: seq<DiffRow>)
    requires forall d :: d in ds ==> !Degraded(d)
    ensures DiffTotal(ds) <= 0
  {
    if ds != [] {
      assert forall d :: d in ds[..|ds| - 1] ==> d in ds;
      NoDegradationNoRise(ds[..|ds| - 1]);
      assert ds[|ds| - 1] in ds;
    }
  }

  /**
   * Over all uploads, a prefix whose latest error count is below its earliest shows at
   * least one improvement; one whose latest count is above its earliest, a degradation.
   */
  lemma NetChangeIsCounted(m: seq<Record>, p: string)
    requires Partition(m, p) != []
    ensures PrefixLine(m, p, None).Some?
    ensures Partition(m, p)[|Partition(m, p)| - 1].errorCount < Partition(m, p)[0].errorCount ==>
      PrefixLine(m, p, None).value.improvements >= 1
    ensures Partition(m, p)[|Partition(m, p)| - 1].errorCount > Partition(m, p)[0].errorCount ==>
      PrefixLine(m, p, None).value.degradations >= 1
  {
    var part := Partition(m, p);
    var ds := Lag(part);
    WhereAll(ds, (d: DiffRow) => Included(None, d));
    assert Kept(m, p, None) == ds != [];
    assert PrefixLine(m, p, None) == Some(DiffLine(p, |Where(ds, Improved)|, |Where(ds, Degraded)|));
    LagTelescopes(part);
    if Where(ds, Improved) == [] {
      NoImprovementNoDrop(ds);
    }
    if Where(ds, Degraded) == [] {
      NoDegradationNoRise(ds);
    }
  }

  /** The keys of a result row `sorted` may be asked for. */
  const DiffKeys: set<string> := {"prefix", "improvements", "degradations"}

  function LinePrefix(l: DiffLine): string {
    l.prefix
  }

  function LineImprovements(l: DiffLine): int {
    l.improvements
  }

  function LineDegradations(l: DiffLine): int {
    l.degradations
  }

  /** `sorted(key=lambda row: row[order_by], reverse=descending)`. */
  function DiffOrder(orderBy: string, descending: bool): (DiffLine, DiffLine) -> bool
    requires orderBy in DiffKeys
  {
    if orderBy == "prefix" then ByStr(LinePrefix, descending)
    else if orderBy == "improvements" then ByInt(LineImprovements, descending)
    else ByInt(LineDegradations, descending)
  }

  lemma DiffOrderTotal(orderBy: string, descending: bool)
    requires orderBy in DiffKeys
    ensures TotalPreorder(DiffOrder(orderBy, descending))
  {
    if orderBy == "prefix" {
      ByStrTotal(LinePrefix, descending);
    } else if orderBy == "improvements" {
      ByIntTotal(LineImprovements, descending);
    } else {
      ByIntTotal(LineDegradations, descending);
    }
  }

  /**
   * `get_upload_diffs` as written: OFFSET/LIMIT first, then `sorted` over that page alone.
   * `sorted` looks up `row[order_by]` for each row, so an unknown key is a KeyError
   * exactly when the page is not empty.
   */
  function GetUploadDiffs(rs: seq<Record>, prefix: Option<string>, uuids: Option<seq<string>>,
                          page: int, pageSize: int, orderBy: string, descending: bool): (r: Result<seq<DiffLine>>)
    requires page >= 1 && 1 <= pageSize <= 1000
    ensures r.Err? <==> orderBy !in DiffKeys && Page(DiffLines(rs, prefix, uuids), page, pageSize) != []
    ensures r.Err? ==> r.error == KeyError(orderBy)
    ensures r.Ok? ==> multiset(r.value) == multiset(Page(DiffLines(rs, prefix, uuids), page, pageSize))
    ensures r.Ok? && orderBy in DiffKeys ==> Sorted(r.value, DiffOrder(orderBy, descending))
  {
    if Page(DiffLines(rs, prefix, uuids), page, pageSize) == [] then Ok([])
    else if orderBy !in DiffKeys then Err(KeyError(orderBy))
    else
      DiffOrderTotal(orderBy, descending);
      Ok(SortBy(Page(DiffLines(rs, prefix, uuids), page, pageSize), DiffOrder(orderBy, descending)))
  }

  /** `get_upload_diffs` with ORDER BY before OFFSET/LIMIT: the page of the ordered lines. */
  function GetUploadDiffsSorted(rs: seq<Record>, prefix: Option<string>, uuids: Option<seq<string>>,
                                page: int, pageSize: int, orderBy: string, descending: bool): (r: Result<seq<DiffLine>>)
    requires page >= 1 && 1 <= pageSize <= 1000
    ensures r.Err? <==> orderBy !in DiffKeys && DiffLines(rs, prefix, uuids) != []
    ensures r.Err? ==> r.error == KeyError(orderBy)
    ensures r.Ok? ==> |r.value| <= pageSize && forall l :: l in r.value ==> l in DiffLines(rs, prefix, uuids)
    ensures r.Ok? ==> |r.value| == PageLength(|DiffLines(rs, prefix, uuids)|, page, pageSize)
    ensures r.Ok? && orderBy in DiffKeys ==> Sorted(r.value, DiffOrder(orderBy, descending))
  {
    if DiffLines(rs, prefix, uuids) == [] then Ok([])
    else if orderBy !in DiffKeys then Err(KeyError(orderBy))
    else
      DiffOrderTotal(orderBy, descending);
      SortedPage(DiffLines(rs, prefix, uuids), DiffOrder(orderBy, descending), page, pageSize);
      Ok(Page(SortBy(DiffLines(rs, prefix, uuids), DiffOrder(orderBy, descending)), page, pageSize))
  }

  /** With ORDER BY before paging, every line of the query is on some page. */
  lemma EveryDiffLinePaged(rs: seq<Record>, prefix: Option<string>, uuids: Option<seq<string>>,
                           pageSize: int, orderBy: string, descending: bool, l: DiffLine)
    requires 1 <= pageSize <= 1000 && orderBy in DiffKeys && l in DiffLines(rs, prefix, uuids)
    ensures exists page :: page >= 1 && l in GetUploadDiffsSorted(rs, prefix, uuids, page, pageSize, orderBy, descending).value
  {
    SortedOnSomePage(DiffLines(rs, prefix, uuids), DiffOrder(orderBy, descending), l, pageSize);
    var page :| page >= 1 && l in Page(SortBy(DiffLines(rs, prefix, uuids), DiffOrder(orderBy, descending)), page, pageSize);
    assert l in GetUploadDiffsSorted(rs, prefix, uuids, page, pageSize, orderBy, descending).value;
  }

  /** With ORDER BY before paging, every line of a page ranks at or above every line of the next page. */
  lemma SortedPagesInOrder(rs: seq<Record>, prefix: Option<string>, uuids: Option<seq<string>>,
                           page: int, pageSize: int, orderBy: string, descending: bool)
    requires page >= 1 && 1 <= pageSize <= 1000 && orderBy in DiffKeys && DiffLines(rs, prefix, uuids) != []
    ensures forall a, b ::
      (a in GetUploadDiffsSorted(rs, prefix, uuids, page, pageSize, orderBy, descending).value &&
       b in GetUploadDiffsSorted(rs, prefix, uuids, page + 1, pageSize, orderBy, descending).value) ==>
      DiffOrder(orderBy, descending)(a, b)
  {
    var s := SortBy(DiffLines(rs, prefix, uuids), DiffOrder(orderBy, descending));
    DiffOrderTotal(orderBy, descending);
    PagesInOrder(s, DiffOrder(orderBy, descending), page, pageSize);
    forall a, b | a in Page(s, page, pageSize) && b in Page(s, page + 1, pageSize)
      ensures DiffOrder(orderBy, descending)(a, b)
    {
      var i :| 0 <= i < |Page(s, page, pageSize)| && Page(s, page, pageSize)[i] == a;
      var j :| 0 <= j < |Page(s, page + 1, pageSize)| && Page(s, page + 1, pageSize)[j] == b;
    }
  }

  /** The lines of two prefixes that both have a line. */
  lemma LinesOfTwo(m: seq<Record>, p: string, q: string, uuids: Option<seq<string>>, l1: DiffLine, l2: DiffLine)
    requires PrefixLine(m, p, uuids) == Some(l1) && PrefixLine(m, q, uuids) == Some(l2)
    ensures Lines(m, [p, q], uuids) == [l1, l2]
  {
    LinesOfOne(m, p, uuids, l1);
    assert [p] + [q] == [p, q];
    LinesSnoc(m, [p], q, uuids, l2);
  }

  lemma LinesOfOne(m: seq<Record>, p: string, uuids: Option<seq<string>>, l: DiffLine)
    requires PrefixLine(m, p, uuids) == Some(l)
    ensures Lines(m, [p], uuids) == [l]
  {
    assert [] + [p] == [p];
    assert Lines(m, [], uuids) == [];
    LinesSnoc(m, [], p, uuids, l);
  }

  lemma LinesSnoc(m: seq<Record>, ps: seq<string>, p: string, uuids: Option<seq<string>>, l: DiffLine)
    requires PrefixLine(m, p, uuids) == Some(l)
    ensures Lines(m, ps + [p], uuids) == Lines(m, ps, uuids) + [l]
  {
    assert (ps + [p])[..|ps|] == ps;
  }

  /**
   * Three rows: `x` alone under its prefix, `y` then `z` under another, with the error
   * count falling from `y` to `z`.
   */
  predicate FallingExample(x: Record, y: Record, z: Record) {
    x.prefix != y.prefix && y.prefix == z.prefix && y.createdAt <= z.createdAt && z.errorCount < y.errorCount
  }

  lemma FallingKeys(x: Record, y: Record, z: Record)
    requires FallingExample(x, y, z)
    ensures GroupKeys([x, y, z], PrefixOf) == [x.prefix, y.prefix]
  {
    assert [] + [x] == [x] && [x] + [y] == [x, y] && [x, y] + [z] == [x, y, z];
    assert GroupKeys([], PrefixOf) == [];
    GroupKeysAppendRow([], x, PrefixOf);
    assert GroupKeys([x], PrefixOf) == [x.prefix];
    GroupKeysAppendRow([x], y, PrefixOf);
    assert GroupKeys([x, y], PrefixOf) == [x.prefix, y.prefix];
    GroupKeysAppendRow([x, y], z, PrefixOf);
  }

  lemma FallingMembersOfX(x: Record, y: Record, z: Record)
    requires FallingExample(x, y, z)
    ensures Members([x, y, z], PrefixOf, x.prefix) == [x]
  {
    assert [] + [x] == [x] && [x] + [y] == [x, y] && [x, y] + [z] == [x, y, z];
    assert Members([], PrefixOf, x.prefix) == [];
    MembersAppendRow([], x, PrefixOf, x.prefix);
    assert Members([x], PrefixOf, x.prefix) == [x];
    MembersAppendRow([x], y, PrefixOf, x.prefix);
    assert Members([x, y], PrefixOf, x.prefix) == [x];
    MembersAppendRow([x, y], z, PrefixOf, x.prefix);
  }

  lemma FallingMembersOfY(x: Record, y: Record, z: Record)
    requires FallingExample(x, y, z)
    ensures Members([x, y, z], PrefixOf, y.prefix) == [y, z]
  {
    assert [] + [x] == [x] && [x] + [y] == [x, y] && [x, y] + [z] == [x, y, z];
    assert Members([], PrefixOf, y.prefix) == [];
    MembersAppendRow([], x, PrefixOf, y.prefix);
    assert Members([x], PrefixOf, y.prefix) == [];
    MembersAppendRow([x], y, PrefixOf, y.prefix);
    assert Members([x, y], PrefixOf, y.prefix) == [y];
    MembersAppendRow([x, y], z, PrefixOf, y.prefix);
  }

  lemma LagOfTwo(y: Record, z: Record)
    ensures Lag([y, z]) == [DiffRow(y.prefix, y.uploadUuid, None), DiffRow(z.prefix, z.uploadUuid, Some(z.errorCount - y.errorCount))]
  {
  }

  lemma FallingLineOfX(x: Record, y: Record, z: Record)
    requires FallingExample(x, y, z)
    ensures PrefixLine([x, y, z], x.prefix, None) == Some(DiffLine(x.prefix, 0, 0))
  {
    FallingMembersOfX(x, y, z);
    SortBySorted([x], ByInt(CreatedAt, false));
    var d := DiffRow(x.prefix, x.uploadUuid, None);
    assert Lag([x]) == [d];
    WhereAll([d], (e: DiffRow) => Included(None, e));
    assert [d][..0] == [];
  }

  lemma FallingLineOfY(x: Record, y: Record, z: Record)
    requires FallingExample(x, y, z)
    ensures PrefixLine([x, y, z], y.prefix, None) == Some(DiffLine(y.prefix, 1, 0))
  {
    FallingMembersOfY(x, y, z);
    assert CreatedAt(y) <= CreatedAt(z);
    assert ByInt(CreatedAt, false)(y, z);
    SortBySorted([y, z], ByInt(CreatedAt, false));
    var a, b := DiffRow(y.prefix, y.uploadUuid, None), DiffRow(z.prefix, z.uploadUuid, Some(z.errorCount - y.errorCount));
    LagOfTwo(y, z);
    WhereAll([a, b], (e: DiffRow) => Included(None, e));
    assert Kept([x, y, z], y.prefix, None) == [a, b];
    WhereTwo(a, b, Improved);
    WhereTwo(a, b, Degraded);
  }

  /** The lines of the three rows: the lone prefix with nothing, the falling one with one improvement. */
  lemma FallingLines(x: Record, y: Record, z: Record)
    requires FallingExample(x, y, z)
    ensures DiffLines([x, y, z], None, None) == [DiffLine(x.prefix, 0, 0), DiffLine(y.prefix, 1, 0)]
  {
    FallingKeys(x, y, z);
    FallingLineOfX(x, y, z);
    FallingLineOfY(x, y, z);
    LinesOfTwo([x, y, z], x.prefix, y.prefix, None, DiffLine(x.prefix, 0, 0), DiffLine(y.prefix, 1, 0));
  }

  lemma ByImprovements(descending: bool)
    ensures DiffOrder("improvements", descending) == ByInt(LineImprovements, descending)
  {
    assert |"improvements"| != |"prefix"|;
  }

  /** A one-line page is returned as it is, whatever the order. */
  lemma OneLinePage(rs: seq<Record>, prefix: Option<string>, uuids: Option<seq<string>>,
                    page: int, orderBy: string, descending: bool, l: DiffLine)
    requires page >= 1 && orderBy in DiffKeys && Page(DiffLines(rs, prefix, uuids), page, 1) == [l]
    ensures GetUploadDiffs(rs, prefix, uuids, page, 1, orderBy, descending) == Ok([l])
  {
    SortBySorted([l], DiffOrder(orderBy, descending));
  }

  /**
   * Paging before sorting breaks the order across pages: for rows as in `FallingExample`,
   * by improvements, descending, one line per page, page 1 shows the line with 0
   * improvements and page 2 the line with 1.
   */
  lemma PagingBeforeSortingMisorders(x: Record, y: Record, z: Record)
    requires FallingExample(x, y, z)
    ensures GetUploadDiffs([x, y, z], None, None, 1, 1, "improvements", true) == Ok([DiffLine(x.prefix, 0, 0)])
    ensures GetUploadDiffs([x, y, z], None, None, 2, 1, "improvements", true) == Ok([DiffLine(y.prefix, 1, 0)])
    ensures !DiffOrder("improvements", true)(DiffLine(x.prefix, 0, 0), DiffLine(y.prefix, 1, 0))
  {
    var a, b := DiffLine(x.prefix, 0, 0), DiffLine(y.prefix, 1, 0);
    ByImprovements(true);
    assert LineImprovements(a) < LineImprovements(b);
    assert !ByInt(LineImprovements, true)(a, b);
    FallingLines(x, y, z);
    assert Page([a, b], 1, 1) == [a];
    assert Page([a, b], 2, 1) == [b];
    OneLinePage([x, y, z], None, None, 1, "improvements", true, a);
    OneLinePage([x, y, z], None, None, 2, "improvements", true, b);
  }

  /** With ORDER BY before paging the same rows put the line with 1 improvement on page 1. */
  lemma SortingBeforePagingOrders(x: Record, y: Record, z: Record)
    requires FallingExample(x, y, z)
    ensures GetUploadDiffsSorted([x, y, z], None, None, 1, 1, "improvements", true) == Ok([DiffLine(y.prefix, 1, 0)])
  {
    var a, b := DiffLine(x.prefix, 0, 0), DiffLine(y.prefix, 1, 0);
    FallingLines(x, y, z);
    ByImprovements(true);
    assert LineImprovements(b) >= LineImprovements(a);
    assert ByInt(LineImprovements, true)(b, a);
    assert LineImprovements(a) < LineImprovements(b);
    assert !ByInt(LineImprovements, true)(a, b);
    SortByTwo(a, b, DiffOrder("improvements", true));
  }

  /** Three concrete rows of that shape: "a" uploaded once, "b" twice with errors falling from 5 to 3. */
  lemma FallingRows()
    ensures FallingExample(Record(1, "f", "u1", "a", 4, 0, 0, 1), Record(2, "f", "u1", "b", 5, 0, 0, 1),
                           Record(3, "f", "u2", "b", 3, 0, 0, 2))
  {
    assert "a" != "b" by { assert "a"[0] != "b"[0]; }
  }
}
