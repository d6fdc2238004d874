/**
 * The sort orders the queries use: ORDER BY a column ASC or DESC, and Python's
 * `sorted(..., key=..., reverse=...)`. Each is a comparison for `Seqs.SortBy`, and each
 * is shown to be a total preorder, so that what `SortBy` returns is sorted by it.
 */
module Orders {
  import opened Text
  import opened Seqs

  /** Ordering by an integer column; DESC (or `reverse=True`) flips the comparison. */
  function ByInt<T>(f: T -> int, descending: bool): (T, T) -> bool {
    if descending then (a: T, b: T) => f(a) >= f(b) else (a: T, b: T) => f(a) <= f(b)
  }

  /** Ordering by a real-valued column. */
  function ByReal<T>(f: T -> real, descending: bool): (T, T) -> bool {
    if descending then (a: T, b: T) => f(a) >= f(b) else (a: T, b: T) => f(a) <= f(b)
  }

  /** Ordering by a string column, in code-point order. */
  function ByStr<T>(f: T -> string, descending: bool): (T, T) -> bool {
    if descending then (a: T, b: T) => StrLe(f(b), f(a)) else (a: T, b: T) => StrLe(f(a), f(b))
  }

  lemma ByIntTotal<T(!new)>(f: T -> int, descending: bool)
    ensures TotalPreorder(ByInt(f, descending))
  {
  }

  lemma ByRealTotal<T(!new)>(f: T -> real, descending: bool)
    ensures TotalPreorder(ByReal(f, descending))
  {
  }

  lemma ByStrTotal<T(!new)>(f: T -> string, descending: bool)
    ensures TotalPreorder(ByStr(f, descending))
  {
    forall a: T, b: T ensures StrLe(f(a), f(b)) || StrLe(f(b), f(a)) {
      StrLeTotal(f(a), f(b));
    }
    forall a: T, b: T, c: T | StrLe(f(a), f(b)) && StrLe(f(b), f(c)) ensures StrLe(f(a), f(c)) {
      StrLeTransitive(f(a), f(b), f(c));
    }
  }

  /** A sort by an integer column puts the column in non-decreasing (ASC) or non-increasing (DESC) order. */
  lemma SortByInt<T(!new)>(s: seq<T>, f: T -> int, descending: bool)
    ensures forall i, j :: 0 <= i < j < |SortBy(s, ByInt(f, descending))| ==>
      if descending then f(SortBy(s, ByInt(f, descending))[i]) >= f(SortBy(s, ByInt(f, descending))[j]) else f(SortBy(s, ByInt(f, descending))[i]) <= f(SortBy(s, ByInt(f, descending))[j])
  {
    ByIntTotal(f, descending);
    var r := SortBy(s, ByInt(f, descending));
    assert Sorted(r, ByInt(f, descending));
  }

  /** The same for a real-valued column. */
  lemma SortByReal<T(!new)>(s: seq<T>, f: T -> real, descending: bool)
    ensures forall i, j :: 0 <= i < j < |SortBy(s, ByReal(f, descending))| ==>
      if descending then f(SortBy(s, ByReal(f, descending))[i]) >= f(SortBy(s, ByReal(f, descending))[j]) else f(SortBy(s, ByReal(f, descending))[i]) <= f(SortBy(s, ByReal(f, descending))[j])
  {
    ByRealTotal(f, descending);
    var r := SortBy(s, ByReal(f, descending));
    assert Sorted(r, ByReal(f, descending));
  }

  /** The same for a string column. */
  lemma SortByStr<T(!new)>(s: seq<T>, f: T -> string, descending: bool)
    ensures forall i, j :: 0 <= i < j < |SortBy(s, ByStr(f, descending))| ==>
      if descending then StrLe(f(SortBy(s, ByStr(f, descending))[j]), f(SortBy(s, ByStr(f, descending))[i])) else StrLe(f(SortBy(s, ByStr(f, descending))[i]), f(SortBy(s, ByStr(f, descending))[j]))
  {
    ByStrTotal(f, descending);
    var r := SortBy(s, ByStr(f, descending));
    assert Sorted(r, ByStr(f, descending));
  }

  /** Sorting elements whose string keys are pairwise different orders the keys strictly. */
  lemma SortByStrStrict<T(!new)>(s: seq<T>, f: T -> string, descending: bool)
    requires forall i, j :: 0 <= i < j < |s| ==> f(s[i]) != f(s[j])
    ensures forall i, j :: 0 <= i < j < |SortBy(s, ByStr(f, descending))| ==>
      if descending then StrLt(f(SortBy(s, ByStr(f, descending))[j]), f(SortBy(s, ByStr(f, descending))[i]))
      else StrLt(f(SortBy(s, ByStr(f, descending))[i]), f(SortBy(s, ByStr(f, descending))[j]))
  {
    DistinctKeysPermuted(s, SortBy(s, ByStr(f, descending)), f);
    SortByStr(s, f, descending);
  }

  /** A page of strictly key-ordered elements is strictly key-ordered. */
  lemma PageStrict<T>(s: seq<T>, f: T -> string, descending: bool, page: int, pageSize: int)
    requires page >= 1 && pageSize >= 1
    requires forall i, j :: 0 <= i < j < |s| ==> if descending then StrLt(f(s[j]), f(s[i])) else StrLt(f(s[i]), f(s[j]))
    ensures var r := Page(s, page, pageSize);
      forall i, j :: 0 <= i < j < |r| ==> if descending then StrLt(f(r[j]), f(r[i])) else StrLt(f(r[i]), f(r[j]))
  {
    var lt := (a: T, b: T) => if descending then StrLt(f(b), f(a)) else StrLt(f(a), f(b));
    assert Sorted(s, lt);
    PageSorted(s, lt, page, pageSize);
  }

  /** A page of elements with pairwise different keys, sorted by key, is strictly key-ordered. */
  lemma SortedPageStrict<T(!new)>(s: seq<T>, f: T -> string, descending: bool, page: int, pageSize: int)
    requires page >= 1 && pageSize >= 1
    requires forall i, j :: 0 <= i < j < |s| ==> f(s[i]) != f(s[j])
    ensures forall i, j :: 0 <= i < j < |Page(SortBy(s, ByStr(f, descending)), page, pageSize)| ==>
      var r := Page(SortBy(s, ByStr(f, descending)), page, pageSize);
      if descending then StrLt(f(r[j]), f(r[i])) else StrLt(f(r[i]), f(r[j]))
  {
    SortByStrStrict(s, f, descending);
    PageStrict(SortBy(s, ByStr(f, descending)), f, descending, page, pageSize);
  }
}
