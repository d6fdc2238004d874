/**
 * `get_prefix_autocomplete`: the next path segments below what the user has typed. The
 * rows whose prefix starts with the query (trailing slashes removed) are read, at most
 * 1000 of them; each row's prefix past the query's length gives one segment, up to and
 * including its first `/`; the distinct segments are returned sorted.
 */
module Autocomplete {
  import opened Text
  import opened Seqs
  import opened Orders
  import opened Store

  /** The LIMIT on the rows read. */
  const RowLimit: nat := 1000

  /** `s[n:]`: empty when `n` is past the end. */
  function Remainder(s: string, n: nat): string {
    if n <= |s| then s[n..] else []
  }

  /** The first piece of `s.split(sep)` is all of `s` when `sep` does not occur, and otherwise runs up to the first `sep`. */
  lemma SplitHead(s: string, sep: char)
    ensures |Split(s, sep)| == 1 <==> sep !in s
    ensures |Split(s, sep)| == 1 ==> Split(s, sep)[0] == s
    ensures |Split(s, sep)| > 1 ==> Split(s, sep)[0] + [sep] <= s
  {
    var parts := Split(s, sep);
    if |parts| > 1 {
      assert Join(parts, sep) == parts[0] + [sep] + Join(parts[1..], sep);
      assert s[|parts[0]|] == sep;
    }
  }

  /**
   * The segment a remainder contributes: the remainder itself when it holds no `/`, and
   * otherwise its text up to and including the first `/`.
   */
  function Segment(rest: string): (seg: string)
    ensures seg <= rest
    ensures rest != [] ==> seg != []
    ensures '/' !in rest ==> seg == rest
    ensures '/' in rest ==> seg != [] && seg[|seg| - 1] == '/' && '/' !in seg[..|seg| - 1]
  {
    SplitHead(rest, '/');
    if |Split(rest, '/')| == 1 then Split(rest, '/')[0] else Split(rest, '/')[0] + "/"
  }

  /** Well-formed suggestion: non-empty, and either free of `/` or ending in its only `/`. */
  predicate Suggestion(seg: string) {
    seg != [] && ('/' !in seg || (seg[|seg| - 1] == '/' && '/' !in seg[..|seg| - 1]))
  }

  /** Whether row `x` contributes `seg` when its prefix is cut after `n` characters. */
  predicate Contributes(x: Record, n: nat, seg: string) {
    Remainder(x.prefix, n) != [] && Segment(Remainder(x.prefix, n)) == seg
  }

  /** LIMIT: the first `n` elements. */
  function First<T>(s: seq<T>, n: nat): (r: seq<T>)
    ensures |r| <= n && r <= s
    ensures |s| <= n ==> r == s
  {
    if |s| <= n then s else s[..n]
  }

  /** The rows the query reads: those whose prefix starts with `pattern`, at most 1000. */
  function Candidates(rs: seq<Record>, pattern: string): (r: seq<Record>)
    ensures |r| <= RowLimit
    ensures forall x :: x in r ==> x in rs && StartsWith(x.prefix, pattern)
  {
    First(Where(rs, (x: Record) => StartsWith(x.prefix, pattern)), RowLimit)
  }

  /** The segment of each row with a non-empty remainder, in row order. */
  function Contributions(rows: seq<Record>, n: nat): seq<string> {
    if rows == [] then []
    else
      Contributions(rows[..|rows| - 1], n)
        + if Remainder(rows[|rows| - 1].prefix, n) == [] then [] else [Segment(Remainder(rows[|rows| - 1].prefix, n))]
  }

  lemma {:induction false} ContributionsFromRows(rows: seq<Record>, n: nat)
    ensures forall seg :: seg in Contributions(rows, n) <==> exists x :: x in rows && Contributes(x, n, seg)
  {
    if rows != [] {
      var u, x := rows[..|rows| - 1], rows[|rows| - 1];
      assert rows == u + [x];
      ContributionsFromRows(u, n);
      ContributionsStep(rows, |rows| - 1, n);
      assert rows[..|rows| - 1] == u;
      assert rows[..|rows|] == rows;
      forall seg | seg in Contributions(rows, n)
        ensures exists y :: y in rows && Contributes(y, n, seg)
      {
        if seg in Contributions(u, n) {
          var y :| y in u && Contributes(y, n, seg);
          assert y in rows;
        } else {
          assert Contributes(x, n, seg);
        }
      }
      forall seg | exists y :: y in rows && Contributes(y, n, seg)
        ensures seg in Contributions(rows, n)
      {
        var y :| y in rows && Contributes(y, n, seg);
        if y != x {
          assert y in u;
        }
      }
    }
  }

  /** The set of segments, as its elements in order of first insertion. */
  function SegmentList(rows: seq<Record>, n: nat): (segs: seq<string>)
    ensures NoDups(segs)
    ensures forall seg :: seg in segs <==> exists x :: x in rows && Contributes(x, n, seg)
  {
    ContributionsFromRows(rows, n);
    Dedup(Contributions(rows, n))
  }

  /**
   * `sorted(next_segments)`: the distinct segments the rows contribute, strictly ascending,
   * each a well-formed suggestion.
   */
  function Suggestions(rows: seq<Record>, n: nat): (r: seq<string>)
    ensures forall i, j :: 0 <= i < j < |r| ==> StrLt(r[i], r[j])
    ensures forall seg :: seg in r <==> exists x :: x in rows && Contributes(x, n, seg)
    ensures forall seg :: seg in r ==> Suggestion(seg)
  {
    SortByStrStrict(SegmentList(rows, n), Value, false);
    SortBySameElements(SegmentList(rows, n), ByStr(Value, false));
    SortBy(SegmentList(rows, n), ByStr(Value, false))
  }

  function Value(s: string): string {
    s
  }

  lemma ContributionsStep(rows: seq<Record>, i: nat, n: nat)
    requires i < |rows|
    ensures Remainder(rows[i].prefix, n) == [] ==> Contributions(rows[..i + 1], n) == Contributions(rows[..i], n)
    ensures Remainder(rows[i].prefix, n) != [] ==>
      Contributions(rows[..i + 1], n) == Contributions(rows[..i], n) + [Segment(Remainder(rows[i].prefix, n))]
  {
    assert rows[..i + 1][..i] == rows[..i];
    assert Contributions(rows[..i], n) + [] == Contributions(rows[..i], n);
  }

  /** The loop over the rows read: each non-empty remainder adds its segment to the set. */
  method CollectSegments(rows: seq<Record>, n: nat) returns (nextSegments: seq<string>)
    ensures nextSegments == SegmentList(rows, n)
  {
    nextSegments := [];
    var i := 0;
    while i < |rows|
      invariant 0 <= i <= |rows|
      invariant nextSegments == Dedup(Contributions(rows[..i], n))
    {
      ContributionsStep(rows, i, n);
      var remaining := Remainder(rows[i].prefix, n);
      if remaining != [] {
        var segment := Segment(remaining);
        DedupSnoc(Contributions(rows[..i], n), segment);
        if segment !in nextSegments {
          nextSegments := nextSegments + [segment];
        }
      }
      i := i + 1;
    }
    assert rows[..|rows|] == rows;
  }

  /**
   * `get_prefix_autocomplete` as written: the rows are filtered with the query's trailing
   * slashes removed, but cut at the length of the query as typed.
   */
  method GetPrefixAutocompleteAsWritten(rs: seq<Record>, prefix: string) returns (r: seq<string>)
    ensures r == Suggestions(Candidates(rs, RStripChar(prefix, '/')), |prefix|)
    ensures forall i, j :: 0 <= i < j < |r| ==> StrLt(r[i], r[j])
    ensures forall seg :: seg in r ==> Suggestion(seg)
  {
    var nextSegments := CollectSegments(Candidates(rs, RStripChar(prefix, '/')), |prefix|);
    r := SortBy(nextSegments, ByStr(Value, false));
  }

  /** `get_prefix_autocomplete` corrected: the rows are filtered with the query as typed. */
  method GetPrefixAutocomplete(rs: seq<Record>, prefix: string) returns (r: seq<string>)
    ensures r == Suggestions(Candidates(rs, prefix), |prefix|)
    ensures forall i, j :: 0 <= i < j < |r| ==> StrLt(r[i], r[j])
    ensures forall seg :: seg in r ==> Suggestion(seg)
  {
    var nextSegments := CollectSegments(Candidates(rs, prefix), |prefix|);
    r := SortBy(nextSegments, ByStr(Value, false));
  }

  /** A row under the query contributes a segment that continues the query within its prefix. */
  lemma ContributionExtends(x: Record, prefix: string, seg: string)
    requires StartsWith(x.prefix, prefix) && Contributes(x, |prefix|, seg)
    ensures StartsWith(x.prefix, prefix + seg)
  {
    var rest := Remainder(x.prefix, |prefix|);
    assert x.prefix == prefix + rest;
    assert seg <= rest;
    assert (prefix + seg) == (prefix + rest)[..|prefix| + |seg|];
  }

  /** Corrected: every suggestion continues the query into a stored prefix. */
  lemma SuggestionsExtendQuery(rs: seq<Record>, prefix: string)
    ensures forall seg :: seg in Suggestions(Candidates(rs, prefix), |prefix|) ==>
      exists x :: x in rs && StartsWith(x.prefix, prefix + seg)
  {
    forall seg | seg in Suggestions(Candidates(rs, prefix), |prefix|)
      ensures exists x :: x in rs && StartsWith(x.prefix, prefix + seg)
    {
      var x :| x in Candidates(rs, prefix) && Contributes(x, |prefix|, seg);
      ContributionExtends(x, prefix, seg);
    }
  }

  /** Corrected: every row read whose prefix is longer than the query is continued by a suggestion. */
  lemma LongerPrefixesSuggested(rs: seq<Record>, prefix: string, x: Record)
    requires x in Candidates(rs, prefix) && |x.prefix| > |prefix|
    ensures exists seg :: seg in Suggestions(Candidates(rs, prefix), |prefix|) && StartsWith(x.prefix, prefix + seg)
  {
    var seg := Segment(Remainder(x.prefix, |prefix|));
    assert Contributes(x, |prefix|, seg);
    ContributionExtends(x, prefix, seg);
  }

  /** A stored prefix no longer than the query contributes nothing. */
  lemma ShortPrefixesIgnored(x: Record, n: nat, seg: string)
    requires |x.prefix| <= n
    ensures !Contributes(x, n, seg)
  {
  }

  // The query "app/" against the stored prefix "apple/x"

  lemma AppleIsRead(x: Record)
    requires x.prefix == "apple/x"
    ensures Candidates([x], RStripChar("app/", '/')) == [x]
    ensures Candidates([x], "app/") == []
  {
    assert RStripChar("app/", '/') == "app" by {
      assert "app/"[..3] == "app";
      assert RStripChar("app", '/') == "app";
    }
    assert StartsWith(x.prefix, "app") by {
      assert x.prefix[..3] == "app";
    }
    assert !StartsWith(x.prefix, "app/") by {
      assert x.prefix[3] != "app/"[3];
    }
  }

  lemma AppleSegment(x: Record)
    requires x.prefix == "apple/x"
    ensures Remainder(x.prefix, |"app/"|) == "e/x"
    ensures Segment("e/x") == "e/"
  {
    assert x.prefix[4..] == "e/x";
    assert Split("x", '/') == ["x"] by {
      assert "x"[1..] == [];
      assert Split([], '/') == [[]];
    }
    assert "e/x"[1..] == "/x" && "/x"[1..] == "x";
    assert Split("/x", '/') == [[], "x"];
    assert "e/x"[0] == 'e' && "e/x"[0] != '/';
    assert Split("e/x", '/') == [['e'] + []] + [[], "x"][1..];
    assert ['e'] + [] == "e" && [[], "x"][1..] == ["x"];
  }

  lemma AppleList(x: Record)
    requires x.prefix == "apple/x"
    ensures SegmentList([x], |"app/"|) == ["e/"]
  {
    AppleSegment(x);
    assert [x][..0] == [];
    assert SegmentList([], |"app/"|) == [];
  }

  /**
   * As written, the query "app/" against the single stored prefix "apple/x" suggests "e/",
   * though "app/e/" continues no stored prefix; corrected, it suggests nothing.
   */
  lemma StrippedQueryCutsSiblings(x: Record)
    requires x.prefix == "apple/x"
    ensures Suggestions(Candidates([x], RStripChar("app/", '/')), |"app/"|) == ["e/"]
    ensures !StartsWith(x.prefix, "app/" + "e/")
    ensures Suggestions(Candidates([x], "app/"), |"app/"|) == []
  {
    AppleIsRead(x);
    AppleList(x);
    assert SortBy(["e/"], ByStr(Value, false)) == ["e/"] by {
      assert ["e/"][1..] == [];
    }
    assert x.prefix[3] != ("app/" + "e/")[3];
    assert SegmentList([], |"app/"|) == [];
  }
}
