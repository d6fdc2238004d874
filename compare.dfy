/**
 * `compare_uploads`: the rows of two uploads joined on prefix, each pair giving both error
 * counts and their difference, optionally under a prefix, largest absolute change first,
 * one page at a time.
 */
module Compare {
  import opened Wrappers
  import opened Text
  import opened Seqs
  import opened Orders
  import opened Store

  /** One output line: the prefix, both error counts and error_count_2 - error_count_1. */
  datatype Comparison = Comparison(prefix: string, errorCount1: int, errorCount2: int, delta: int)

  function Abs(n: int): nat {
    if n < 0 then -n else n
  }

  function AbsDelta(c: Comparison): int {
    Abs(c.delta)
  }

  /** The line of a joined pair: `x` from the first upload, `y` from the second. */
  function Compared(x: Record, y: Record): Comparison {
    Comparison(x.prefix, x.errorCount, y.errorCount, y.errorCount - x.errorCount)
  }

  /** The rows of one upload. */
  function OfUpload(rs: seq<Record>, u: string): seq<Record> {
    Where(rs, (x: Record) => x.uploadUuid == u)
  }

  /** `x` joined with each row of `second` that has its prefix, in the order of `second`. */
  function PairsWith(x: Record, second: seq<Record>): (cs: seq<Comparison>)
    ensures |cs| == |Members(second, PrefixOf, x.prefix)|
    ensures forall c :: c in cs <==> exists y :: y in second && y.prefix == x.prefix && c == Compared(x, y)
  {
    if second == [] then []
    else
      MembersAppendRow(second[..|second| - 1], second[|second| - 1], PrefixOf, x.prefix);
      assert second == second[..|second| - 1] + [second[|second| - 1]];
      PairsWith(x, second[..|second| - 1])
        + if second[|second| - 1].prefix == x.prefix then [Compared(x, second[|second| - 1])] else []
  }

  /** The number of joined pairs: for each row of `first`, the rows of `second` with its prefix. */
  function PairCount(first: seq<Record>, second: seq<Record>): nat {
    if first == [] then 0
    else PairCount(first[..|first| - 1], second) + |Members(second, PrefixOf, first[|first| - 1].prefix)|
  }

  /** The inner join on prefix, one line per matching pair, rows of `first` outermost. */
  function Join(first: seq<Record>, second: seq<Record>): (cs: seq<Comparison>)
    ensures |cs| == PairCount(first, second)
    ensures forall c :: c in cs ==>
      exists x, y :: x in first && y in second && x.prefix == y.prefix && c == Compared(x, y)
  {
    if first == [] then []
    else Join(first[..|first| - 1], second) + PairsWith(first[|first| - 1], second)
  }

  /** Every matching pair has its line. */
  lemma {:induction false} JoinHasEveryPair(first: seq<Record>, second: seq<Record>, x: Record, y: Record)
    requires x in first && y in second && x.prefix == y.prefix
    ensures Compared(x, y) in Join(first, second)
  {
    if x != first[|first| - 1] {
      assert first == first[..|first| - 1] + [first[|first| - 1]];
      JoinHasEveryPair(first[..|first| - 1], second, x, y);
    }
  }

  /** The joined lines under an optional prefix, tested on the first upload's prefix. */
  function CompareRows(rs: seq<Record>, u1: string, u2: string, prefix: Option<string>): seq<Comparison> {
    if Given(prefix) then
      Where(Join(OfUpload(rs, u1), OfUpload(rs, u2)), (c: Comparison) => StartsWith(c.prefix, prefix.value))
    else Join(OfUpload(rs, u1), OfUpload(rs, u2))
  }

  /** ORDER BY abs(error_count_2 - error_count_1) DESC. */
  function ByChange(): (Comparison, Comparison) -> bool {
    ByInt(AbsDelta, true)
  }

  /**
   * `compare_uploads`: page `page` of `pageSize` lines of the two uploads' join, largest
   * absolute change first. The two uploads must differ and a page holds at most 100 lines.
   */
  function CompareUploads(rs: seq<Record>, u1: string, u2: string, prefix: Option<string>,
                          page: int, pageSize: int): (r: seq<Comparison>)
    requires u1 != u2
    requires page >= 1 && 1 <= pageSize <= 100
    ensures |r| <= pageSize
    ensures forall c :: c in r ==> c in CompareRows(rs, u1, u2, prefix)
    ensures |r| == PageLength(|CompareRows(rs, u1, u2, prefix)|, page, pageSize)
    ensures forall i, j :: 0 <= i < j < |r| ==> Abs(r[i].delta) >= Abs(r[j].delta)
  {
    SortByInt(CompareRows(rs, u1, u2, prefix), AbsDelta, true);
    SortBySameElements(CompareRows(rs, u1, u2, prefix), ByChange());
    PageWithin(SortBy(CompareRows(rs, u1, u2, prefix), ByChange()), page, pageSize);
    PageOrdered(SortBy(CompareRows(rs, u1, u2, prefix), ByChange()), page, pageSize);
    Page(SortBy(CompareRows(rs, u1, u2, prefix), ByChange()), page, pageSize)
  }

  lemma PageOrdered(s: seq<Comparison>, page: int, pageSize: int)
    requires page >= 1 && pageSize >= 1
    requires forall i, j :: 0 <= i < j < |s| ==> Abs(s[i].delta) >= Abs(s[j].delta)
    ensures forall i, j :: 0 <= i < j < |Page(s, page, pageSize)| ==>
      Abs(Page(s, page, pageSize)[i].delta) >= Abs(Page(s, page, pageSize)[j].delta)
  {
    var r, o := Page(s, page, pageSize), (page - 1) * pageSize;
    NextOffset(page, pageSize, o);
    assert forall i :: 0 <= i < |r| ==> r[i] == s[o + i];
    forall i, j | 0 <= i < j < |r| ensures Abs(r[i].delta) >= Abs(r[j].delta) {
      assert Abs(s[o + i].delta) >= Abs(s[o + j].delta);
    }
  }

  /**
   * Every line comes from a row of the first upload and a row of the second with the same
   * prefix (under the filter, when one is given), and its delta is the second count minus the first.
   */
  lemma CompareRowsArePairs(rs: seq<Record>, u1: string, u2: string, prefix: Option<string>)
    ensures forall c :: c in CompareRows(rs, u1, u2, prefix) ==>
      (exists x, y ::
         x in rs && y in rs && x.uploadUuid == u1 && y.uploadUuid == u2 &&
         x.prefix == c.prefix && y.prefix == c.prefix && x.errorCount == c.errorCount1 && y.errorCount == c.errorCount2) &&
      c.delta == c.errorCount2 - c.errorCount1 &&
      (Given(prefix) ==> StartsWith(c.prefix, prefix.value))
  {
    forall c | c in CompareRows(rs, u1, u2, prefix)
      ensures (exists x, y ::
          x in rs && y in rs && x.uploadUuid == u1 && y.uploadUuid == u2 &&
          x.prefix == c.prefix && y.prefix == c.prefix && x.errorCount == c.errorCount1 && y.errorCount == c.errorCount2) &&
        c.delta == c.errorCount2 - c.errorCount1 &&
        (Given(prefix) ==> StartsWith(c.prefix, prefix.value))
    {
      assert c in Join(OfUpload(rs, u1), OfUpload(rs, u2));
      var x, y :| x in OfUpload(rs, u1) && y in OfUpload(rs, u2) && x.prefix == y.prefix && c == Compared(x, y);
    }
  }

  /** Every pair of rows of the two uploads with the same prefix (under the filter) is listed. */
  lemma EveryPairCompared(rs: seq<Record>, u1: string, u2: string, prefix: Option<string>, x: Record, y: Record)
    requires x in rs && y in rs && x.uploadUuid == u1 && y.uploadUuid == u2 && x.prefix == y.prefix
    requires Given(prefix) ==> StartsWith(x.prefix, prefix.value)
    ensures Compared(x, y) in CompareRows(rs, u1, u2, prefix)
  {
    JoinHasEveryPair(OfUpload(rs, u1), OfUpload(rs, u2), x, y);
  }

  /** ... and shows up on some page. */
  lemma EveryPairPaged(rs: seq<Record>, u1: string, u2: string, prefix: Option<string>, pageSize: int, x: Record, y: Record)
    requires u1 != u2 && 1 <= pageSize <= 100
    requires x in rs && y in rs && x.uploadUuid == u1 && y.uploadUuid == u2 && x.prefix == y.prefix
    requires Given(prefix) ==> StartsWith(x.prefix, prefix.value)
    ensures exists page :: page >= 1 && Compared(x, y) in CompareUploads(rs, u1, u2, prefix, page, pageSize)
  {
    EveryPairCompared(rs, u1, u2, prefix, x, y);
    SortBySameElements(CompareRows(rs, u1, u2, prefix), ByChange());
    var s := SortBy(CompareRows(rs, u1, u2, prefix), ByChange());
    OnSomePage(s, Compared(x, y), pageSize);
    var page :| page >= 1 && Compared(x, y) in Page(s, page, pageSize);
    assert CompareUploads(rs, u1, u2, prefix, page, pageSize) == Page(s, page, pageSize);
  }

  /** Lines on one page change at least as much as those on the next. */
  lemma PagesByChange(rs: seq<Record>, u1: string, u2: string, prefix: Option<string>, page: int, pageSize: int)
    requires u1 != u2 && page >= 1 && 1 <= pageSize <= 100
    ensures forall a, b ::
      (a in CompareUploads(rs, u1, u2, prefix, page, pageSize) && b in CompareUploads(rs, u1, u2, prefix, page + 1, pageSize)) ==>
      Abs(a.delta) >= Abs(b.delta)
  {
    var s := SortBy(CompareRows(rs, u1, u2, prefix), ByChange());
    assert CompareUploads(rs, u1, u2, prefix, page, pageSize) == Page(s, page, pageSize);
    assert CompareUploads(rs, u1, u2, prefix, page + 1, pageSize) == Page(s, page + 1, pageSize);
    ByIntTotal(AbsDelta, true);
    PagesInOrder(s, ByChange(), page, pageSize);
    forall a, b | a in Page(s, page, pageSize) && b in Page(s, page + 1, pageSize)
      ensures Abs(a.delta) >= Abs(b.delta)
    {
      var i :| 0 <= i < |Page(s, page, pageSize)| && Page(s, page, pageSize)[i] == a;
      var j :| 0 <= j < |Page(s, page + 1, pageSize)| && Page(s, page + 1, pageSize)[j] == b;
      assert ByChange()(a, b);
      assert AbsDelta(a) >= AbsDelta(b);
    }
  }
}
