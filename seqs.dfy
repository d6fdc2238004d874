/**
 * The relational building blocks the queries are made of, over sequences:
 * WHERE (`Where`), DISTINCT keys (`Dedup`), ORDER BY / `sorted` (`SortBy`),
 * OFFSET/LIMIT and slicing (`Page`), and SUM/MIN/MAX over an integer column.
 */
module Seqs {

  /** `le` orders every pair and is transitive: what a sort key supplies. */
  ghost predicate TotalPreorder<T(!new)>(le: (T, T) -> bool) {
    && (forall a, b :: le(a, b) || le(b, a))
    && (forall a, b, c :: le(a, b) && le(b, c) ==> le(a, c))
  }

  ghost predicate Sorted<T>(s: seq<T>, le: (T, T) -> bool) {
    forall i, j :: 0 <= i < j < |s| ==> le(s[i], s[j])
  }

  ghost predicate NoDups<T>(s: seq<T>) {
    forall i, j :: 0 <= i < j < |s| ==> s[i] != s[j]
  }

  /** Puts `x` in front of the first element it is `le` to. */
  function Insert<T>(x: T, s: seq<T>, le: (T, T) -> bool): (r: seq<T>)
    ensures |r| == |s| + 1
    ensures multiset(r) == multiset(s) + multiset{x}
  {
    if s == [] || le(x, s[0]) then [x] + s
    else
      assert s == [s[0]] + s[1..];
      [s[0]] + Insert(x, s[1..], le)
  }

  lemma {:induction false} InsertSorted<T(!new)>(x: T, s: seq<T>, le: (T, T) -> bool)
    ensures TotalPreorder(le) && Sorted(s, le) ==> Sorted(Insert(x, s, le), le)
  {
    if TotalPreorder(le) && Sorted(s, le) && s != [] && !le(x, s[0]) {
      InsertSorted(x, s[1..], le);
      SortedTail(s, le);
      assert le(s[0], x);
      InsertBehindHead(x, s, le);
    }
  }

  lemma SortedTail<T>(s: seq<T>, le: (T, T) -> bool)
    requires s != [] && Sorted(s, le)
    ensures Sorted(s[1..], le)
  {
    forall i, j | 0 <= i < j < |s[1..]| ensures le(s[1..][i], s[1..][j]) {
      assert s[1..][i] == s[i + 1] && s[1..][j] == s[j + 1];
    }
  }

  /** Inserting behind a head that precedes `x` and the rest keeps the sequence sorted. */
  lemma InsertBehindHead<T>(x: T, s: seq<T>, le: (T, T) -> bool)
    requires s != [] && !le(x, s[0]) && le(s[0], x)
    requires Sorted(s, le) && Sorted(Insert(x, s[1..], le), le)
    ensures Sorted(Insert(x, s, le), le)
  {
    HeadBelowInserted(x, s, le);
    ConsSorted(s[0], Insert(x, s[1..], le), le);
    assert Insert(x, s, le) == [s[0]] + Insert(x, s[1..], le);
  }

  lemma HeadBelowInserted<T>(x: T, s: seq<T>, le: (T, T) -> bool)
    requires s != [] && le(s[0], x) && Sorted(s, le)
    ensures forall y :: y in Insert(x, s[1..], le) ==> le(s[0], y)
  {
    forall y | y in Insert(x, s[1..], le) ensures le(s[0], y) {
      assert y in multiset(Insert(x, s[1..], le));
      if y != x {
        assert y in multiset(s[1..]);
        var j :| 0 <= j < |s[1..]| && s[1..][j] == y;
        assert s[j + 1] == y;
      }
    }
  }

  /** A sorted sequence behind an element that precedes all of it is sorted. */
  lemma ConsSorted<T>(h: T, t: seq<T>, le: (T, T) -> bool)
    requires Sorted(t, le) && forall y :: y in t ==> le(h, y)
    ensures Sorted([h] + t, le)
  {
    var r := [h] + t;
    forall i, j | 0 <= i < j < |r| ensures le(r[i], r[j]) {
      assert r[j] == t[j - 1];
      if i == 0 {
        assert t[j - 1] in t;
      } else {
        assert r[i] == t[i - 1];
      }
    }
  }

  /**
   * A stable insertion sort: the model of SQL ORDER BY and of Python's `sorted`
   * (which of several equal keys comes first is not part of the model).
   */
  function SortBy<T(!new)>(s: seq<T>, le: (T, T) -> bool): (r: seq<T>)
    ensures |r| == |s| && multiset(r) == multiset(s)
    ensures TotalPreorder(le) ==> Sorted(r, le)
  {
    if s == [] then []
    else
      var t := SortBy(s[1..], le);
      assert s == [s[0]] + s[1..];
      InsertSorted(s[0], t, le);
      Insert(s[0], t, le)
  }

  /** Sorting two elements swaps them exactly when the first does not come before the second. */
  lemma SortByTwo<T(!new)>(a: T, b: T, le: (T, T) -> bool)
    ensures SortBy([a, b], le) == if le(a, b) then [a, b] else [b, a]
  {
    assert [a, b][1..] == [b] && [b][1..] == [];
    assert SortBy([b], le) == [b];
    assert [b][1..] == [];
  }

  /** Sorting neither adds nor loses elements. */
  lemma SortBySameElements<T(!new)>(s: seq<T>, le: (T, T) -> bool)
    ensures forall x :: x in SortBy(s, le) <==> x in s
  {
    assert forall x :: x in SortBy(s, le) <==> x in multiset(SortBy(s, le));
    assert forall x :: x in s <==> x in multiset(s);
  }

  /** Sorting what is already sorted changes nothing. */
  lemma {:induction false} SortBySorted<T(!new)>(s: seq<T>, le: (T, T) -> bool)
    requires forall i :: 0 <= i < |s| - 1 ==> le(s[i], s[i + 1])
    ensures SortBy(s, le) == s
  {
    if s != [] {
      SortBySorted(s[1..], le);
      assert s == [s[0]] + s[1..];
    }
  }

  /** Elements of a sorted permutation are sorted as strictly as their order allows. */
  lemma SortedNoDupsStrict<T>(s: seq<T>, le: (T, T) -> bool, i: int, j: int)
    requires Sorted(s, le) && NoDups(s) && 0 <= i < j < |s|
    ensures le(s[i], s[j]) && s[i] != s[j]
  {
  }

  lemma MultisetNoDups<T>(s: seq<T>, t: seq<T>)
    requires multiset(s) == multiset(t) && NoDups(s)
    ensures NoDups(t)
  {
    forall i, j | 0 <= i < j < |t| ensures t[i] != t[j] {
      if t[i] == t[j] {
        assert t == t[..i] + [t[i]] + t[i + 1..j] + [t[j]] + t[j + 1..];
        assert multiset(t)[t[i]] >= 2;
        CountOneNoDups(s, t[i]);
      }
    }
  }

  lemma {:induction false} CountOneNoDups<T>(s: seq<T>, x: T)
    requires NoDups(s)
    ensures multiset(s)[x] <= 1
  {
    if s != [] {
      var u := s[..|s| - 1];
      assert s == u + [s[|s| - 1]];
      CountOneNoDups(u, x);
      if x == s[|s| - 1] {
        assert x !in u;
      }
    }
  }

  /** A permutation of elements with pairwise different keys still has pairwise different keys. */
  lemma DistinctKeysPermuted<T, K>(s: seq<T>, t: seq<T>, f: T -> K)
    requires multiset(s) == multiset(t)
    requires forall i, j :: 0 <= i < j < |s| ==> f(s[i]) != f(s[j])
    ensures forall i, j :: 0 <= i < j < |t| ==> f(t[i]) != f(t[j])
  {
    MultisetNoDups(s, t);
    forall i, j | 0 <= i < j < |t| ensures f(t[i]) != f(t[j]) {
      assert t[i] in multiset(s) && t[j] in multiset(s);
      var p :| 0 <= p < |s| && s[p] == t[i];
      var q :| 0 <= q < |s| && s[q] == t[j];
      assert p != q;
    }
  }

  /** `f` applied to each element, in order. */
  function Map<A, B>(f: A -> B, s: seq<A>): (r: seq<B>)
    ensures |r| == |s| && forall i :: 0 <= i < |s| ==> r[i] == f(s[i])
  {
    seq(|s|, i requires 0 <= i < |s| => f(s[i]))
  }

  lemma MapConcat<A, B>(f: A -> B, xs: seq<A>, ys: seq<A>)
    ensures Map(f, xs + ys) == Map(f, xs) + Map(f, ys)
  {
  }

  /** WHERE: the elements `keep` accepts, in their original order. */
  function Where<T(!new)>(s: seq<T>, keep: T -> bool): (r: seq<T>)
    ensures |r| <= |s|
    ensures forall x :: x in r <==> x in s && keep(x)
  {
    if s == [] then []
    else
      var u := s[..|s| - 1];
      assert s == u + [s[|s| - 1]];
      Where(u, keep) + if keep(s[|s| - 1]) then [s[|s| - 1]] else []
  }

  lemma {:induction false} WhereAppend<T(!new)>(a: seq<T>, b: seq<T>, keep: T -> bool)
    ensures Where(a + b, keep) == Where(a, keep) + Where(b, keep)
    decreases |b|
  {
    if b != [] {
      var v := b[..|b| - 1];
      assert (a + b)[..|a + b| - 1] == a + v;
      assert (a + b)[|a + b| - 1] == b[|b| - 1];
      WhereAppend(a, v, keep);
    } else {
      assert a + b == a;
    }
  }

  /** WHERE over two elements. */
  lemma WhereTwo<T(!new)>(a: T, b: T, keep: T -> bool)
    ensures Where([a, b], keep) == (if keep(a) then [a] else []) + (if keep(b) then [b] else [])
  {
    assert [a, b][..1] == [a] && [a][..0] == [];
  }

  /** WHERE rejecting every row is empty. */
  lemma {:induction false} WhereNone<T(!new)>(s: seq<T>, keep: T -> bool)
    requires forall x :: x in s ==> !keep(x)
    ensures Where(s, keep) == []
  {
    if s != [] {
      var u := s[..|s| - 1];
      assert forall x :: x in u ==> x in s;
      WhereNone(u, keep);
    }
  }

  /** The distinct values of `s`, each where it first occurs. */
  function Dedup<T(==,!new)>(s: seq<T>): (r: seq<T>)
    ensures |r| <= |s|
    ensures forall x :: x in r <==> x in s
    ensures NoDups(r)
  {
    if s == [] then []
    else
      var u := s[..|s| - 1];
      assert s == u + [s[|s| - 1]];
      var d := Dedup(u);
      if s[|s| - 1] in d then d else d + [s[|s| - 1]]
  }

  /** Adding an element adds it to the distinct values unless it is already there. */
  lemma DedupSnoc<T(!new)>(s: seq<T>, x: T)
    ensures Dedup(s + [x]) == if x in Dedup(s) then Dedup(s) else Dedup(s) + [x]
  {
    assert (s + [x])[..|s + [x]| - 1] == s;
  }

  /** How many of `total` elements page `page` of `pageSize` holds: a full page, the rest, or none. */
  function PageLength(total: int, page: int, pageSize: int): (n: int)
    requires page >= 1 && pageSize >= 1
    ensures 0 <= n <= pageSize
    ensures total <= 0 ==> n == 0
  {
    var offset := (page - 1) * pageSize;
    if offset >= total then 0 else if total - offset < pageSize then total - offset else pageSize
  }

  /** OFFSET (page-1)*pageSize LIMIT pageSize, and Python's `s[start:start + pageSize]`. */
  function Page<T>(s: seq<T>, page: int, pageSize: int): (r: seq<T>)
    requires page >= 1 && pageSize >= 1
    ensures |r| <= pageSize
    ensures |r| == PageLength(|s|, page, pageSize)
    ensures (page - 1) * pageSize >= |s| ==> r == []
    ensures (page - 1) * pageSize < |s| ==>
      |r| == if |s| - (page - 1) * pageSize < pageSize then |s| - (page - 1) * pageSize else pageSize
    ensures forall i :: 0 <= i < |r| ==> r[i] == s[(page - 1) * pageSize + i]
  {
    var offset := (page - 1) * pageSize;
    var n := PageLength(|s|, page, pageSize);
    NextOffset(page, pageSize, offset);
    if n == 0 then [] else s[offset..offset + n]
  }

  /** A page takes its elements from the whole. */
  lemma PageWithin<T>(s: seq<T>, page: int, pageSize: int)
    requires page >= 1 && pageSize >= 1
    ensures forall x :: x in Page(s, page, pageSize) ==> x in s
  {
  }

  /** A page of a sorted sequence is sorted. */
  lemma PageSorted<T>(s: seq<T>, le: (T, T) -> bool, page: int, pageSize: int)
    requires page >= 1 && pageSize >= 1 && Sorted(s, le)
    ensures Sorted(Page(s, page, pageSize), le)
  {
    var r, o := Page(s, page, pageSize), (page - 1) * pageSize;
    NextOffset(page, pageSize, o);
    assert forall i :: 0 <= i < |r| ==> r[i] == s[o + i];
    forall i, j | 0 <= i < j < |r| ensures le(r[i], r[j]) {
      assert le(s[o + i], s[o + j]);
    }
  }

  /** A page of `s` sorted by `le` is as long as the page allows and holds elements of `s`, in order. */
  lemma SortedPage<T(!new)>(s: seq<T>, le: (T, T) -> bool, page: int, pageSize: int)
    requires page >= 1 && pageSize >= 1
    ensures var r := Page(SortBy(s, le), page, pageSize);
      && |r| == PageLength(|s|, page, pageSize)
      && (forall x :: x in r ==> x in s)
      && (TotalPreorder(le) ==> Sorted(r, le))
  {
    SortBySameElements(s, le);
    PageWithin(SortBy(s, le), page, pageSize);
    if TotalPreorder(le) {
      PageSorted(SortBy(s, le), le, page, pageSize);
    }
  }

  /** Whatever the order, every element of `s` is on some page of `s` sorted by it. */
  lemma SortedOnSomePage<T(!new)>(s: seq<T>, le: (T, T) -> bool, x: T, pageSize: int)
    requires x in s && pageSize >= 1
    ensures exists page :: page >= 1 && x in Page(SortBy(s, le), page, pageSize)
  {
    SortBySameElements(s, le);
    OnSomePage(SortBy(s, le), x, pageSize);
  }

  /** Of a sorted sequence, everything on one page comes before everything on the next. */
  lemma PagesInOrder<T>(s: seq<T>, le: (T, T) -> bool, page: int, pageSize: int)
    requires page >= 1 && pageSize >= 1 && Sorted(s, le)
    ensures forall i, j {:trigger Page(s, page, pageSize)[i], Page(s, page + 1, pageSize)[j]} ::
      0 <= i < |Page(s, page, pageSize)| && 0 <= j < |Page(s, page + 1, pageSize)| ==>
      le(Page(s, page, pageSize)[i], Page(s, page + 1, pageSize)[j])
  {
    var o := (page - 1) * pageSize;
    NextOffset(page, pageSize, o);
    var p, q := Page(s, page, pageSize), Page(s, page + 1, pageSize);
    assert forall i :: 0 <= i < |p| ==> p[i] == s[o + i];
    assert forall j :: 0 <= j < |q| ==> q[j] == s[o + pageSize + j];
    forall i, j {:trigger p[i], q[j]} | 0 <= i < |p| && 0 <= j < |q|
      ensures le(p[i], q[j])
    {
      assert le(s[o + i], s[o + pageSize + j]);
    }
  }

  /** The next page starts `pageSize` further on. */
  lemma NextOffset(page: int, pageSize: int, o: int)
    requires page >= 1 && pageSize >= 1 && o == (page - 1) * pageSize
    ensures 0 <= o && (page + 1 - 1) * pageSize == o + pageSize
  {
  }

  /** The element at position i is on page i / pageSize + 1: paging loses nothing. */
  lemma PageContaining<T>(s: seq<T>, i: int, pageSize: int)
    requires 0 <= i < |s| && pageSize >= 1
    ensures s[i] in Page(s, i / pageSize + 1, pageSize)
  {
    var q, m := i / pageSize, i % pageSize;
    assert (q + 1 - 1) * pageSize + m == i;
    assert Page(s, q + 1, pageSize)[m] == s[i];
  }

  /** Every element is on some page. */
  lemma OnSomePage<T>(s: seq<T>, x: T, pageSize: int)
    requires x in s && pageSize >= 1
    ensures exists page :: page >= 1 && x in Page(s, page, pageSize)
  {
    var i :| 0 <= i < |s| && s[i] == x;
    PageContaining(s, i, pageSize);
    assert i / pageSize + 1 >= 1;
  }

  /** Pages 1..k laid end to end. */
  function FirstPages<T>(s: seq<T>, k: nat, pageSize: int): seq<T>
    requires pageSize >= 1
  {
    if k == 0 then [] else FirstPages(s, k - 1, pageSize) + Page(s, k, pageSize)
  }

  /** Consecutive pages neither overlap nor skip: pages 1..k are the first k*pageSize elements. */
  lemma {:induction false} PagesCover<T>(s: seq<T>, k: nat, pageSize: int)
    requires pageSize >= 1
    ensures FirstPages(s, k, pageSize) == s[..if k * pageSize < |s| then k * pageSize else |s|]
  {
    if k > 0 {
      PagesCover(s, k - 1, pageSize);
      var lo := (k - 1) * pageSize;
      assert lo + pageSize == k * pageSize;
      PageAt(s, k, pageSize, lo);
      SliceJoin(s, lo, lo + pageSize);
    }
  }

  function Cap<T>(s: seq<T>, n: int): int {
    if n < |s| then n else |s|
  }

  lemma PageAt<T>(s: seq<T>, page: int, pageSize: int, lo: int)
    requires page >= 1 && pageSize >= 1 && lo == (page - 1) * pageSize
    ensures 0 <= lo && 0 <= Cap(s, lo) <= Cap(s, lo + pageSize) <= |s|
    ensures Page(s, page, pageSize) == s[Cap(s, lo)..Cap(s, lo + pageSize)]
  {
  }

  lemma SliceJoin<T>(s: seq<T>, lo: int, hi: int)
    requires 0 <= lo <= hi
    ensures s[..Cap(s, lo)] + s[Cap(s, lo)..Cap(s, hi)] == s[..Cap(s, hi)]
  {
  }

  /** The sequences of `rs` laid end to end. */
  function Flatten<T>(rs: seq<seq<T>>): seq<T> {
    if rs == [] then [] else Flatten(rs[..|rs| - 1]) + rs[|rs| - 1]
  }

  lemma FlattenSnoc<T>(rs: seq<seq<T>>, r: seq<T>)
    ensures Flatten(rs + [r]) == Flatten(rs) + r
  {
    assert (rs + [r])[..|rs + [r]| - 1] == rs;
  }

  /** SQL SUM over an integer column. */
  function Sum(s: seq<int>): int {
    if s == [] then 0 else Sum(s[..|s| - 1]) + s[|s| - 1]
  }

  lemma {:induction false} SumAppend(a: seq<int>, b: seq<int>)
    ensures Sum(a + b) == Sum(a) + Sum(b)
    decreases |b|
  {
    if b != [] {
      assert a + b == (a + b[..|b| - 1]) + [b[|b| - 1]];
      SumAppend(a, b[..|b| - 1]);
    } else {
      assert a + b == a;
    }
  }

  /** SQL MIN over a non-empty group. */
  function Min(s: seq<int>): (m: int)
    requires s != []
    ensures m in s && forall x :: x in s ==> m <= x
  {
    if |s| == 1 then s[0]
    else
      var u := s[..|s| - 1];
      assert s == u + [s[|s| - 1]];
      var m := Min(u);
      if s[|s| - 1] < m then s[|s| - 1] else m
  }

  /** SQL MAX over a non-empty group. */
  function Max(s: seq<int>): (m: int)
    requires s != []
    ensures m in s && forall x :: x in s ==> x <= m
  {
    if |s| == 1 then s[0]
    else
      var u := s[..|s| - 1];
      assert s == u + [s[|s| - 1]];
      var m := Max(u);
      if s[|s| - 1] > m then s[|s| - 1] else m
  }

  /** A sum is at least |s| times a lower bound of its elements. */
  lemma {:induction false} SumAtLeast(s: seq<int>, m: int)
    requires forall x :: x in s ==> m <= x
    ensures |s| * m <= Sum(s)
  {
    if s != [] {
      var u := s[..|s| - 1];
      assert s == u + [s[|s| - 1]];
      assert forall x :: x in u ==> x in s;
      SumAtLeast(u, m);
      assert s[|s| - 1] in s;
      assert |s| * m == |u| * m + m;
    }
  }

  /** A sum is at most |s| times an upper bound of its elements. */
  lemma {:induction false} SumAtMost(s: seq<int>, m: int)
    requires forall x :: x in s ==> x <= m
    ensures Sum(s) <= |s| * m
  {
    if s != [] {
      var u := s[..|s| - 1];
      assert s == u + [s[|s| - 1]];
      assert forall x :: x in u ==> x in s;
      SumAtMost(u, m);
      assert s[|s| - 1] in s;
      assert |s| * m == |u| * m + m;
    }
  }
}
