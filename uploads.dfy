/**
 * The two upload listings: `list_upload_times`, the stored rows by upload time, and
 * `get_all_uploads`, one line per upload (upload_uuid, filename, created_at) with the
 * total of its error counts, ordered by a column the caller names.
 */
module Uploads {
  import opened Wrappers
  import opened Text
  import opened Seqs
  import opened Orders
  import opened Store

  /** The rows under an optional prefix, ordered by created_at ascending. */
  function UploadTimes(rs: seq<Record>, prefix: Option<string>): seq<Record> {
    SortBy(StartsWithFilter(rs, prefix), ByInt(CreatedAt, false))
  }

  /**
   * `list_upload_times`: the rows whose prefix starts with the given prefix (all rows when
   * none is given), by created_at ascending, page `page` of `pageSize` rows.
   */
  function ListUploadTimes(rs: seq<Record>, prefix: Option<string>, page: int, pageSize: int): (r: seq<Record>)
    requires page >= 1 && 1 <= pageSize <= 1000
    ensures |r| <= pageSize
    ensures forall x :: x in r ==> x in rs && (Given(prefix) ==> StartsWith(x.prefix, prefix.value))
    ensures forall i, j :: 0 <= i < j < |r| ==> r[i].createdAt <= r[j].createdAt
    ensures |StartsWithFilter(rs, prefix)| <= (page - 1) * pageSize ==> r == []
    ensures |r| == PageLength(|StartsWithFilter(rs, prefix)|, page, pageSize)
  {
    SortByInt(StartsWithFilter(rs, prefix), CreatedAt, false);
    SortBySameElements(StartsWithFilter(rs, prefix), ByInt(CreatedAt, false));
    PageWithin(UploadTimes(rs, prefix), page, pageSize);
    Page(UploadTimes(rs, prefix), page, pageSize)
  }

  /** Every matching row is listed on some page. */
  lemma EveryUploadTimeListed(rs: seq<Record>, prefix: Option<string>, pageSize: int, x: Record)
    requires 1 <= pageSize <= 1000
    requires x in rs && (Given(prefix) ==> StartsWith(x.prefix, prefix.value))
    ensures exists page :: page >= 1 && x in ListUploadTimes(rs, prefix, page, pageSize)
  {
    assert x in StartsWithFilter(rs, prefix);
    SortedOnSomePage(StartsWithFilter(rs, prefix), ByInt(CreatedAt, false), x, pageSize);
    var page :| page >= 1 && x in Page(UploadTimes(rs, prefix), page, pageSize);
    assert x in ListUploadTimes(rs, prefix, page, pageSize);
  }

  // get_all_uploads

  /** The GROUP BY key of `get_all_uploads`. */
  datatype Upload = Upload(uploadUuid: string, filename: string, createdAt: int)

  /** One line of `get_all_uploads`: an upload and SUM(error_count) over its rows. */
  datatype UploadTotal = UploadTotal(upload: Upload, errorsTotal: int)

  function UploadOf(x: Record): Upload {
    Upload(x.uploadUuid, x.filename, x.createdAt)
  }

  /** The columns `order_by` may name; any other is a KeyError from the column map. */
  const UploadColumns: set<string> := {"upload_uuid", "filename", "created_at", "errors_total"}

  function TotalUuid(t: UploadTotal): string {
    t.upload.uploadUuid
  }

  function TotalFilename(t: UploadTotal): string {
    t.upload.filename
  }

  function TotalCreatedAt(t: UploadTotal): int {
    t.upload.createdAt
  }

  function TotalErrors(t: UploadTotal): int {
    t.errorsTotal
  }

  /** ORDER BY the named column, ASC or DESC. */
  function UploadOrder(orderBy: string, descending: bool): (UploadTotal, UploadTotal) -> bool
    requires orderBy in UploadColumns
  {
    if orderBy == "upload_uuid" then ByStr(TotalUuid, descending)
    else if orderBy == "filename" then ByStr(TotalFilename, descending)
    else if orderBy == "created_at" then ByInt(TotalCreatedAt, descending)
    else ByInt(TotalErrors, descending)
  }

  /** The total line of each upload in `us`, in that order. */
  function Totals(rs: seq<Record>, us: seq<Upload>): (ts: seq<UploadTotal>)
    ensures |ts| == |us|
    ensures forall i :: 0 <= i < |us| ==> ts[i] == UploadTotal(us[i], SumCounts(Members(rs, UploadOf, us[i])))
  {
    if us == [] then []
    else Totals(rs, us[..|us| - 1]) + [UploadTotal(us[|us| - 1], SumCounts(Members(rs, UploadOf, us[|us| - 1])))]
  }

  /** The grouped query before ORDER BY: one line per upload, in order of first appearance. */
  function UploadTotals(rs: seq<Record>): (ts: seq<UploadTotal>)
    ensures forall i, j :: 0 <= i < j < |ts| ==> ts[i].upload != ts[j].upload
  {
    Totals(rs, GroupKeys(rs, UploadOf))
  }

  /**
   * `get_all_uploads`: KeyError for a column outside the map; otherwise the upload lines
   * ordered by that column, page `page` of `pageSize`.
   */
  function GetAllUploads(rs: seq<Record>, page: int, pageSize: int, orderBy: string, descending: bool): (r: Result<seq<UploadTotal>>)
    requires page >= 1 && 1 <= pageSize <= 1000
    ensures r.Err? <==> orderBy !in UploadColumns
    ensures r.Err? ==> r.error == KeyError(orderBy)
    ensures r.Ok? ==> |r.value| <= pageSize && forall t :: t in r.value ==> t in UploadTotals(rs)
    ensures r.Ok? ==> |r.value| == PageLength(|UploadTotals(rs)|, page, pageSize)
  {
    if orderBy !in UploadColumns then Err(KeyError(orderBy))
    else
      SortedPage(UploadTotals(rs), UploadOrder(orderBy, descending), page, pageSize);
      Ok(Page(SortBy(UploadTotals(rs), UploadOrder(orderBy, descending)), page, pageSize))
  }

  /** Whichever known column orders them, every upload line is on some page. */
  lemma EveryUploadPaged(rs: seq<Record>, pageSize: int, orderBy: string, descending: bool, t: UploadTotal)
    requires 1 <= pageSize <= 1000 && orderBy in UploadColumns && t in UploadTotals(rs)
    ensures exists page :: page >= 1 && t in GetAllUploads(rs, page, pageSize, orderBy, descending).value
  {
    SortedOnSomePage(UploadTotals(rs), UploadOrder(orderBy, descending), t, pageSize);
    var page :| page >= 1 && t in Page(SortBy(UploadTotals(rs), UploadOrder(orderBy, descending)), page, pageSize);
    assert t in GetAllUploads(rs, page, pageSize, orderBy, descending).value;
  }

  /** Each upload line belongs to an upload that has rows, and carries the total of exactly its rows. */
  lemma UploadTotalsAreGroupSums(rs: seq<Record>)
    ensures forall t :: t in UploadTotals(rs) ==>
      (exists x :: x in rs && UploadOf(x) == t.upload) && t.errorsTotal == SumCounts(Members(rs, UploadOf, t.upload))
  {
    forall t | t in UploadTotals(rs)
      ensures (exists x :: x in rs && UploadOf(x) == t.upload) && t.errorsTotal == SumCounts(Members(rs, UploadOf, t.upload))
    {
      var i :| 0 <= i < |GroupKeys(rs, UploadOf)| && UploadTotals(rs)[i] == t;
      assert GroupKeys(rs, UploadOf)[i] in GroupKeys(rs, UploadOf);
    }
  }

  /** Every upload with rows has a line. */
  lemma EveryUploadTotalled(rs: seq<Record>)
    ensures forall x :: x in rs ==> exists t :: t in UploadTotals(rs) && t.upload == UploadOf(x)
  {
    forall x | x in rs ensures exists t :: t in UploadTotals(rs) && t.upload == UploadOf(x) {
      var i :| 0 <= i < |GroupKeys(rs, UploadOf)| && GroupKeys(rs, UploadOf)[i] == UploadOf(x);
      assert UploadTotals(rs)[i] in UploadTotals(rs);
    }
  }

  /** The sum of the upload lines' totals. */
  function TotalOfTotals(ts: seq<UploadTotal>): int {
    if ts == [] then 0 else TotalOfTotals(ts[..|ts| - 1]) + ts[|ts| - 1].errorsTotal
  }

  lemma {:induction false} TotalsSumGroups(rs: seq<Record>, us: seq<Upload>)
    ensures TotalOfTotals(Totals(rs, us)) == SumOverGroups(rs, UploadOf, us)
  {
    if us != [] {
      TotalsSumGroups(rs, us[..|us| - 1]);
      assert Totals(rs, us)[..|us| - 1] == Totals(rs, us[..|us| - 1]);
    }
  }

  /** Grouping by upload loses no error and counts none twice. */
  lemma UploadTotalsAddUp(rs: seq<Record>)
    ensures TotalOfTotals(UploadTotals(rs)) == SumCounts(rs)
  {
    TotalsSumGroups(rs, GroupKeys(rs, UploadOf));
    GroupSumsAddUp(rs, UploadOf);
  }

  /** The page is ordered by the named column, ascending or descending. */
  lemma GetAllUploadsOrdered(rs: seq<Record>, page: int, pageSize: int, orderBy: string, descending: bool)
    requires page >= 1 && 1 <= pageSize <= 1000 && orderBy in UploadColumns
    ensures forall i, j :: 0 <= i < j < |GetAllUploads(rs, page, pageSize, orderBy, descending).value| ==>
      UploadOrder(orderBy, descending)(GetAllUploads(rs, page, pageSize, orderBy, descending).value[i],
                                       GetAllUploads(rs, page, pageSize, orderBy, descending).value[j])
  {
    var le := UploadOrder(orderBy, descending);
    if orderBy == "upload_uuid" {
      ByStrTotal(TotalUuid, descending);
    } else if orderBy == "filename" {
      ByStrTotal(TotalFilename, descending);
    } else if orderBy == "created_at" {
      ByIntTotal(TotalCreatedAt, descending);
    } else {
      ByIntTotal(TotalErrors, descending);
    }
    PageSorted(SortBy(UploadTotals(rs), le), le, page, pageSize);
  }
}
