/**
 * The `flamechart` table as the analytics read it: an immutable sequence of rows in
 * insertion order, the three prefix filters the queries use, and grouping by a key.
 */
module Store {
  import opened Wrappers
  import opened Text
  import opened Seqs

  /** One `Flamechart` row; timestamps are plain integers. */
  datatype Record = Record(
    id: int,
    filename: string,
    uploadUuid: string,
    prefix: string,
    errorCount: int,
    fromDate: int,
    toDate: int,
    createdAt: int)

  function CreatedAt(x: Record): int {
    x.createdAt
  }

  function PrefixOf(x: Record): string {
    x.prefix
  }

  /** Python truthiness of an optional prefix argument: both None and "" mean "no filter". */
  predicate Given(prefix: Option<string>) {
    prefix.Some? && prefix.value != []
  }

  /**
   * `_apply_prefix_filter`: a given prefix loses all its trailing slashes and then keeps
   * the rows whose prefix starts with what is left.
   */
  function ApplyPrefixFilter(rs: seq<Record>, prefix: Option<string>): (r: seq<Record>)
    ensures !Given(prefix) ==> r == rs
    ensures Given(prefix) ==>
      forall x :: x in r <==> x in rs && StartsWith(x.prefix, RStripChar(prefix.value, '/'))
  {
    if Given(prefix) then Where(rs, (x: Record) => StartsWith(x.prefix, RStripChar(prefix.value, '/')))
    else rs
  }

  /** `Flamechart.prefix.startswith(prefix)` applied only when a prefix is given. */
  function StartsWithFilter(rs: seq<Record>, prefix: Option<string>): (r: seq<Record>)
    ensures !Given(prefix) ==> r == rs
    ensures Given(prefix) ==> forall x :: x in r <==> x in rs && StartsWith(x.prefix, prefix.value)
  {
    if Given(prefix) then Where(rs, (x: Record) => StartsWith(x.prefix, prefix.value)) else rs
  }

  lemma WhereAll<T(!new)>(s: seq<T>, keep: T -> bool)
    requires forall x :: x in s ==> keep(x)
    ensures Where(s, keep) == s
  {
    if s != [] {
      var u := s[..|s| - 1];
      assert s == u + [s[|s| - 1]];
      assert forall x :: x in u ==> x in s;
      WhereAll(u, keep);
    }
  }

  /** Trailing slashes on the argument of `_apply_prefix_filter` make no difference. */
  lemma TrailingSlashIgnored(rs: seq<Record>, p: string)
    ensures ApplyPrefixFilter(rs, Some(p + ['/'])) == ApplyPrefixFilter(rs, Some(p))
  {
    var q := p + ['/'];
    assert q[..|q| - 1] == p;
    if p == [] {
      WhereAll(rs, (x: Record) => StartsWith(x.prefix, RStripChar(q, '/')));
    }
  }

  /** The error counts of some rows, in order. */
  function Counts(rs: seq<Record>): (c: seq<int>)
    ensures |c| == |rs| && forall i :: 0 <= i < |rs| ==> c[i] == rs[i].errorCount
  {
    seq(|rs|, i requires 0 <= i < |rs| => rs[i].errorCount)
  }

  /** SUM(error_count) over some rows. */
  function SumCounts(rs: seq<Record>): int {
    if rs == [] then 0 else SumCounts(rs[..|rs| - 1]) + rs[|rs| - 1].errorCount
  }

  /** The distinct values of a grouping key, in order of first occurrence. */
  function GroupKeys<K(==,!new)>(rs: seq<Record>, key: Record -> K): (ks: seq<K>)
    ensures NoDups(ks)
    ensures forall x :: x in rs ==> key(x) in ks
    ensures forall k :: k in ks ==> exists x :: x in rs && key(x) == k
  {
    var keys := seq(|rs|, i requires 0 <= i < |rs| => key(rs[i]));
    assert forall x :: x in rs ==> key(x) in keys by {
      forall x | x in rs ensures key(x) in keys {
        var i :| 0 <= i < |rs| && rs[i] == x;
        assert keys[i] == key(x);
      }
    }
    Dedup(keys)
  }

  /** The rows of one group. */
  function Members<K(==,!new)>(rs: seq<Record>, key: Record -> K, k: K): (g: seq<Record>)
    ensures forall x :: x in g <==> x in rs && key(x) == k
  {
    Where(rs, (x: Record) => key(x) == k)
  }

  /** The group sums of the groups listed in `ks`, added up. */
  function SumOverGroups<K(==,!new)>(rs: seq<Record>, key: Record -> K, ks: seq<K>): int {
    if ks == [] then 0
    else SumOverGroups(rs, key, ks[..|ks| - 1]) + SumCounts(Members(rs, key, ks[|ks| - 1]))
  }

  lemma MembersAppendRow<K(!new)>(u: seq<Record>, x: Record, key: Record -> K, k: K)
    ensures Members(u + [x], key, k) == Members(u, key, k) + if key(x) == k then [x] else []
  {
    assert (u + [x])[..|u + [x]| - 1] == u;
  }

  lemma SumCountsAppendRow(u: seq<Record>, x: Record)
    ensures SumCounts(u + [x]) == SumCounts(u) + x.errorCount
  {
    assert (u + [x])[..|u + [x]| - 1] == u;
  }

  lemma GroupKeysAppendRow<K(!new)>(u: seq<Record>, x: Record, key: Record -> K)
    ensures GroupKeys(u + [x], key)
         == if key(x) in GroupKeys(u, key) then GroupKeys(u, key) else GroupKeys(u, key) + [key(x)]
  {
    var rs := u + [x];
    var keys := seq(|rs|, i requires 0 <= i < |rs| => key(rs[i]));
    assert keys[..|keys| - 1] == seq(|u|, i requires 0 <= i < |u| => key(u[i]));
  }

  lemma {:induction false} SumOverGroupsAppendRow<K(!new)>(u: seq<Record>, x: Record, key: Record -> K, ks: seq<K>)
    requires NoDups(ks)
    ensures SumOverGroups(u + [x], key, ks)
         == SumOverGroups(u, key, ks) + if key(x) in ks then x.errorCount else 0
  {
    if ks != [] {
      var ks' := ks[..|ks| - 1];
      var k := ks[|ks| - 1];
      assert ks == ks' + [k];
      SumOverGroupsAppendRow(u, x, key, ks');
      MembersAppendRow(u, x, key, k);
      var m := Members(u, key, k);
      if key(x) == k {
        SumCountsAppendRow(m, x);
        assert key(x) !in ks';
      } else {
        assert m + [] == m;
      }
    }
  }

  lemma SumOverGroupsAppendKey<K(!new)>(rs: seq<Record>, key: Record -> K, ks: seq<K>, k: K)
    ensures SumOverGroups(rs, key, ks + [k]) == SumOverGroups(rs, key, ks) + SumCounts(Members(rs, key, k))
  {
    assert (ks + [k])[..|ks + [k]| - 1] == ks;
  }

  /**
   * Grouping loses nothing and counts nothing twice: the group sums add up to the
   * sum over all rows.
   */
  lemma {:induction false} GroupSumsAddUp<K(!new)>(rs: seq<Record>, key: Record -> K)
    ensures SumOverGroups(rs, key, GroupKeys(rs, key)) == SumCounts(rs)
    decreases |rs|, 1
  {
    if rs != [] {
      var u, x := rs[..|rs| - 1], rs[|rs| - 1];
      assert rs == u + [x];
      GroupSumsAddUpStep(u, x, key);
    }
  }

  lemma {:induction false} GroupSumsAddUpStep<K(!new)>(u: seq<Record>, x: Record, key: Record -> K)
    ensures SumOverGroups(u + [x], key, GroupKeys(u + [x], key)) == SumCounts(u + [x])
    decreases |u| + 1, 0
  {
    var ku := GroupKeys(u, key);
    GroupSumsAddUp(u, key);
    GroupKeysAppendRow(u, x, key);
    SumCountsAppendRow(u, x);
    if key(x) in ku {
      SumOverGroupsAppendRow(u, x, key, ku);
    } else {
      NewGroupSum(u, x, key, ku);
    }
  }

  lemma NewGroupSum<K(!new)>(u: seq<Record>, x: Record, key: Record -> K, ku: seq<K>)
    requires ku == GroupKeys(u, key) && key(x) !in ku
    ensures SumOverGroups(u + [x], key, ku + [key(x)]) == SumOverGroups(u, key, ku) + x.errorCount
  {
    var k := key(x);
    SumOverGroupsAppendKey(u + [x], key, ku, k);
    SumOverGroupsAppendRow(u, x, key, ku);
    MembersAppendRow(u, x, key, k);
    NoMembers(u, key, k);
    assert [] + [x] == [x];
    SumCountsAppendRow([], x);
  }

  lemma NoMembers<K(!new)>(u: seq<Record>, key: Record -> K, k: K)
    requires k !in GroupKeys(u, key)
    ensures Members(u, key, k) == []
  {
    WhereNone(u, (x: Record) => key(x) == k);
  }
}
