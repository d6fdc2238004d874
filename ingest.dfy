/**
 * Reading an uploaded flamechart file: one `prefix count` line per stored row. Each line is
 * stripped, blank lines and lines without a space are skipped, the text before the last space
 * is the prefix (with `;` read as `/` and a leading `//` cut to `/`), and the text after it
 * must be an integer, or the whole upload fails.
 */
module Ingest {
  import opened Wrappers
  import opened Text
  import opened Seqs

  // int() on the count

  predicate IsDigit(c: char) {
    '0' <= c <= '9'
  }

  predicate AllDigits(s: string) {
    s != [] && forall i :: 0 <= i < |s| ==> IsDigit(s[i])
  }

  /** The value of a string of decimal digits, most significant first. */
  function DigitsValue(s: string): nat {
    if s == [] then 0
    else DigitsValue(s[..|s| - 1]) * 10 + if IsDigit(s[|s| - 1]) then (s[|s| - 1] as int - '0' as int) else 0
  }

  /** `int(s)`: an optional sign and then decimal digits; anything else is no integer. */
  function ParseInt(s: string): Option<int> {
    if s != [] && (s[0] == '+' || s[0] == '-') then
      var v: int := DigitsValue(s[1..]);
      if AllDigits(s[1..]) then Some(if s[0] == '-' then -v else v) else None
    else if AllDigits(s) then Some(DigitsValue(s))
    else None
  }

  function Digit(d: nat): char
    requires d < 10
  {
    ('0' as int + d) as char
  }

  /** The decimal digits of `n`, without leading zeros. */
  function Digits(n: nat): (s: string)
    ensures AllDigits(s)
    ensures DigitsValue(s) == n
  {
    if n < 10 then
      assert [Digit(n)][..0] == [];
      [Digit(n)]
    else
      assert (Digits(n / 10) + [Digit(n % 10)])[..|Digits(n / 10)|] == Digits(n / 10);
      Digits(n / 10) + [Digit(n % 10)]
  }

  /** `str(n)`. */
  function Show(n: int): string {
    if n < 0 then "-" + Digits(-n) else Digits(n)
  }

  /** `int(str(n)) == n`. */
  lemma ParseShow(n: int)
    ensures ParseInt(Show(n)) == Some(n)
  {
    if n < 0 {
      assert Show(n)[1..] == Digits(-n);
    } else {
      assert IsDigit(Show(n)[0]);
    }
  }

  // one line

  /** What one line contributes: a prefix and its error count. */
  datatype Parsed = Parsed(prefix: string, errorCount: int)

  /** The stored prefix: `;` becomes `/`, and a prefix starting `//` loses its first character. */
  function StoredPrefix(head: string): (p: string)
    ensures ';' !in p
    ensures head != [] ==> p != []
  {
    var q := ReplaceChar(head, ';', '/');
    if StartsWith(q, "//") then q[1..] else q
  }

  /**
   * One line of the file: `Ok(None)` for a line skipped (blank, or with no space once
   * stripped), `Err` when the text after the last space is no integer.
   */
  function ParseLine(line: string): Result<Option<Parsed>> {
    var s := Strip(line);
    var k := LastIndex(s, ' ');
    if s == [] || k < 0 then Ok(None)
    else
      match ParseInt(s[k + 1..])
      case None => Err(ValueError(s[k + 1..]))
      case Some(n) => Ok(Some(Parsed(StoredPrefix(s[..k]), n)))
  }

  /**
   * A line is skipped exactly when it is blank or has no space (a tab does not separate); it
   * fails exactly when the text after its last space is no integer; otherwise it yields a
   * non-empty prefix without `;`, and the count read after the last space.
   */
  lemma ParseLineCases(line: string)
    ensures ParseLine(line) == Ok(None) <==> Strip(line) == [] || ' ' !in Strip(line)
    ensures ParseLine(line).Err? <==>
      ' ' in Strip(line) && ParseInt(Strip(line)[LastIndex(Strip(line), ' ') + 1..]).None?
    ensures ParseLine(line).Ok? && ParseLine(line).value.Some? ==>
      var p := ParseLine(line).value.value;
      && p.prefix != [] && ';' !in p.prefix
      && Some(p.errorCount) == ParseInt(Strip(line)[LastIndex(Strip(line), ' ') + 1..])
  {
    var s := Strip(line);
    var k := LastIndex(s, ' ');
    if ' ' in s {
      var j :| 0 <= j < |s| && s[j] == ' ';
      assert k >= j;
      assert k > 0 by {
        assert !IsSpace(s[0]);
      }
    } else {
      assert k < 0;
    }
  }

  /** A prefix that starts `//` is stored with exactly its first character removed. */
  lemma DoubleSlashLosesOne(head: string)
    requires StartsWith(ReplaceChar(head, ';', '/'), "//")
    ensures |StoredPrefix(head)| == |head| - 1
    ensures StoredPrefix(head) == ReplaceChar(head, ';', '/')[1..]
    ensures StartsWith(StoredPrefix(head), "/")
  {
  }

  /** The line an exporter writes for a prefix and a count. */
  function FormatLine(prefix: string, count: int): string {
    prefix + " " + Show(count)
  }

  /** A prefix that survives a round trip: as it is stored, and not padded with whitespace. */
  predicate Storable(prefix: string) {
    && prefix != []
    && !IsSpace(prefix[0])
    && ';' !in prefix
    && !StartsWith(prefix, "//")
  }

  lemma StripUnpadded(s: string)
    requires s != [] && !IsSpace(s[0]) && !IsSpace(s[|s| - 1])
    ensures Strip(s) == s
  {
    assert Leading(s) == 0;
    assert Trailing(s) == 0;
  }

  /** `str(n)` is a sign and digits: no whitespace anywhere in it. */
  lemma ShowUnspaced(n: int)
    ensures Show(n) != []
    ensures forall i :: 0 <= i < |Show(n)| ==> !IsSpace(Show(n)[i])
  {
    var d := Digits(if n < 0 then -n else n);
    assert forall i :: 0 <= i < |d| ==> IsDigit(d[i]);
  }

  /** The last space of `prefix + " " + tail`, when `tail` has none, is the one before it. */
  lemma LastSpaceBeforeTail(prefix: string, tail: string)
    requires ' ' !in tail
    ensures LastIndex(prefix + " " + tail, ' ') == |prefix|
    ensures (prefix + " " + tail)[..|prefix|] == prefix
    ensures (prefix + " " + tail)[|prefix| + 1..] == tail
  {
    JoinedParts(prefix, tail);
    NoSpaceAfter(prefix, tail);
    LastIndexAt(prefix + " " + tail, ' ', |prefix|);
  }

  lemma JoinedParts(prefix: string, tail: string)
    ensures (prefix + " " + tail)[..|prefix|] == prefix
    ensures (prefix + " " + tail)[|prefix|] == ' '
    ensures (prefix + " " + tail)[|prefix| + 1..] == tail
  {
    var line := prefix + " " + tail;
    assert line[..|prefix|] == prefix;
    assert line[|prefix| + 1..] == tail;
  }

  lemma NoSpaceAfter(prefix: string, tail: string)
    requires ' ' !in tail
    ensures forall j :: |prefix| < j < |prefix + " " + tail| ==> (prefix + " " + tail)[j] != ' '
  {
    var line := prefix + " " + tail;
    forall j | |prefix| < j < |line| ensures line[j] != ' ' {
      assert line[j] == tail[j - |prefix| - 1];
    }
  }

  /** Reading back a written line gives the prefix and the count that were written. */
  lemma FormatLineRoundTrip(prefix: string, count: int)
    requires Storable(prefix)
    ensures ParseLine(FormatLine(prefix, count)) == Ok(Some(Parsed(prefix, count)))
  {
    var line := FormatLine(prefix, count);
    ShowUnspaced(count);
    assert ' ' !in Show(count) by {
      assert IsSpace(' ');
    }
    assert line[|line| - 1] == Show(count)[|Show(count)| - 1];
    StripUnpadded(line);
    LastSpaceBeforeTail(prefix, Show(count));
    ParseShow(count);
    assert ReplaceChar(prefix, ';', '/') == prefix;
  }

  // the whole file

  /** What all rows of one upload share. */
  datatype Batch = Batch(uploadUuid: string, filename: string, fromDate: int, toDate: int,
                         createdAt: int, environment: Option<string>)

  /** One new row, before the database gives it an id. */
  datatype Entry = Entry(uploadUuid: string, filename: string, fromDate: int, toDate: int,
                         createdAt: int, prefix: string, environment: Option<string>, errorCount: int)

  function EntryOf(b: Batch, p: Parsed): Entry {
    Entry(b.uploadUuid, b.filename, b.fromDate, b.toDate, b.createdAt, p.prefix, b.environment, p.errorCount)
  }

  /** What reading one line gives. */
  type Outcome = Result<Option<Parsed>>

  /** The rows the line outcomes add, in order, or the first failure among them. */
  function Collect(b: Batch, ps: seq<Outcome>): Result<seq<Entry>> {
    if ps == [] then Ok([])
    else
      match Collect(b, ps[..|ps| - 1])
      case Err(e) => Err(e)
      case Ok(es) =>
        match ps[|ps| - 1]
        case Err(e) => Err(e)
        case Ok(None) => Ok(es)
        case Ok(Some(p)) => Ok(es + [EntryOf(b, p)])
  }

  /** The rows the lines of a file add, in line order, or the failure of the first line that fails. */
  function Ingested(b: Batch, lines: seq<string>): Result<seq<Entry>> {
    Collect(b, Map(ParseLine, lines))
  }

  /** A one-line file adds that line's row, or nothing, or fails with it. */
  lemma CollectOne(b: Batch, o: Outcome)
    ensures o.Err? ==> Collect(b, [o]) == Err(o.error)
    ensures o == Ok(None) ==> Collect(b, [o]) == Ok([])
    ensures o.Ok? && o.value.Some? ==> Collect(b, [o]) == Ok([EntryOf(b, o.value.value)])
  {
    assert [o][..0] == [];
    if o.Ok? && o.value.Some? {
      assert [] + [EntryOf(b, o.value.value)] == [EntryOf(b, o.value.value)];
    }
  }

  lemma {:induction false} FailureSticks(b: Batch, ps: seq<Outcome>, i: nat)
    requires i <= |ps| && Collect(b, ps[..i]).Err?
    ensures Collect(b, ps) == Collect(b, ps[..i])
    decreases |ps| - i
  {
    if i < |ps| {
      assert ps[..i + 1][..i] == ps[..i];
      FailureSticks(b, ps, i + 1);
    } else {
      assert ps[..i] == ps;
    }
  }

  /** One more outcome: a failure ends the collection, a skip adds nothing, a row is appended. */
  lemma CollectStep(b: Batch, ps: seq<Outcome>, i: nat)
    requires i < |ps| && Collect(b, ps[..i]).Ok?
    ensures ps[i].Err? ==> Collect(b, ps[..i + 1]) == Err(ps[i].error)
    ensures ps[i] == Ok(None) ==> Collect(b, ps[..i + 1]) == Collect(b, ps[..i])
    ensures ps[i].Ok? && ps[i].value.Some? ==>
      Collect(b, ps[..i + 1]) == Ok(Collect(b, ps[..i]).value + [EntryOf(b, ps[i].value.value)])
  {
    assert ps[..i + 1][..i] == ps[..i];
  }

  /**
   * The upload loop: each line of the decoded file in turn adds its row, is skipped, or ends
   * the upload with the error of `int()`; nothing is kept from a failed upload.
   */
  method UploadLines(b: Batch, lines: seq<string>) returns (r: Result<seq<Entry>>)
    ensures r == Ingested(b, lines)
  {
    ghost var ps := Map(ParseLine, lines);
    var entries: seq<Entry> := [];
    var i := 0;
    while i < |lines|
      invariant 0 <= i <= |lines|
      invariant Collect(b, ps[..i]) == Ok(entries)
    {
      var parsed := ParseLine(lines[i]);
      assert ps[i] == parsed;
      CollectStep(b, ps, i);
      if parsed.Err? {
        FailureSticks(b, ps, i + 1);
        return Err(parsed.error);
      }
      if parsed.value.Some? {
        entries := entries + [EntryOf(b, parsed.value.value)];
      }
      i := i + 1;
    }
    assert ps[..i] == ps;
    r := Ok(entries);
  }

  /** The decoded file split on newlines, as the loop reads it. */
  function Lines(content: string): (ls: seq<string>)
    ensures |ls| >= 1 && Join(ls, '\n') == content
  {
    Split(content, '\n')
  }

  lemma {:induction false} CollectConcat(b: Batch, xs: seq<Outcome>, ys: seq<Outcome>)
    ensures Collect(b, xs + ys) ==
      match Collect(b, xs)
      case Err(e) => Err(e)
      case Ok(ex) =>
        match Collect(b, ys)
        case Err(e) => Err(e)
        case Ok(ey) => Ok(ex + ey)
    decreases |ys|
  {
    if ys == [] {
      assert xs + ys == xs;
      if Collect(b, xs).Ok? {
        assert Collect(b, xs).value + [] == Collect(b, xs).value;
      }
    } else {
      var ys' := ys[..|ys| - 1];
      assert (xs + ys)[..|xs + ys| - 1] == xs + ys';
      assert (xs + ys)[|xs + ys| - 1] == ys[|ys| - 1];
      CollectConcat(b, xs, ys');
      match ys[|ys| - 1]
      case Err(_) =>
      case Ok(None) =>
      case Ok(Some(p)) =>
        if Collect(b, xs).Ok? && Collect(b, ys').Ok? {
          assert Collect(b, xs).value + Collect(b, ys').value + [EntryOf(b, p)]
            == Collect(b, xs).value + (Collect(b, ys').value + [EntryOf(b, p)]);
        }
    }
  }

  /** Reading two pieces of a file in turn: their rows in line order, or the first failure. */
  lemma IngestedConcat(b: Batch, xs: seq<string>, ys: seq<string>)
    ensures Ingested(b, xs + ys) ==
      match Ingested(b, xs)
      case Err(e) => Err(e)
      case Ok(ex) =>
        match Ingested(b, ys)
        case Err(e) => Err(e)
        case Ok(ey) => Ok(ex + ey)
  {
    MapConcat(ParseLine, xs, ys);
    CollectConcat(b, Map(ParseLine, xs), Map(ParseLine, ys));
  }

  lemma {:induction false} CollectFailsFirst(b: Batch, ps: seq<Outcome>)
    ensures Collect(b, ps).Err? <==> exists i :: 0 <= i < |ps| && ps[i].Err?
    ensures Collect(b, ps).Err? ==> exists i ::
      0 <= i < |ps| && ps[i] == Err(Collect(b, ps).error) && forall j :: 0 <= j < i ==> ps[j].Ok?
  {
    if ps != [] {
      var init := ps[..|ps| - 1];
      CollectFailsFirst(b, init);
      assert ps[..|ps| - 1] == init;
      assert forall j :: 0 <= j < |ps| - 1 ==> ps[j] == init[j];
      if Collect(b, init).Err? {
        assert Collect(b, ps) == Collect(b, init);
        var i :| 0 <= i < |init| && init[i] == Err(Collect(b, init).error) && forall j :: 0 <= j < i ==> init[j].Ok?;
        assert ps[i] == init[i];
      } else if ps[|ps| - 1].Err? {
        assert Collect(b, ps) == Err(ps[|ps| - 1].error);
      } else {
        assert Collect(b, ps).Ok?;
      }
    }
  }

  /** An upload fails exactly when some line fails, and then with the first such line's error. */
  lemma FailsOnFirstBadLine(b: Batch, lines: seq<string>)
    ensures Ingested(b, lines).Err? <==> exists i :: 0 <= i < |lines| && ParseLine(lines[i]).Err?
    ensures Ingested(b, lines).Err? ==> exists i ::
      && 0 <= i < |lines|
      && ParseLine(lines[i]) == Err(Ingested(b, lines).error)
      && forall j :: 0 <= j < i ==> ParseLine(lines[j]).Ok?
  {
    CollectFailsFirst(b, Map(ParseLine, lines));
  }

  lemma {:induction false} CollectRows(b: Batch, ps: seq<Outcome>)
    requires Collect(b, ps).Ok?
    ensures |Collect(b, ps).value| <= |ps|
    ensures forall e :: e in Collect(b, ps).value ==> exists i :: 0 <= i < |ps| && ps[i] == Ok(Some(Parsed(e.prefix, e.errorCount))) && e == EntryOf(b, ps[i].value.value)
    ensures forall i :: 0 <= i < |ps| && ps[i].Ok? && ps[i].value.Some? ==> EntryOf(b, ps[i].value.value) in Collect(b, ps).value
  {
    if ps != [] {
      var init := ps[..|ps| - 1];
      CollectRows(b, init);
      assert forall i :: 0 <= i < |init| ==> ps[i] == init[i];
    }
  }

  /**
   * A successful upload adds at most one row per line; every row carries the upload's uuid,
   * filename, dates, creation time and environment, and a prefix and count read from one of
   * the lines; and every line read as a prefix and a count has its row.
   */
  lemma IngestedRows(b: Batch, lines: seq<string>)
    requires Ingested(b, lines).Ok?
    ensures |Ingested(b, lines).value| <= |lines|
    ensures forall e :: e in Ingested(b, lines).value ==>
      && e.uploadUuid == b.uploadUuid && e.filename == b.filename
      && e.fromDate == b.fromDate && e.toDate == b.toDate && e.createdAt == b.createdAt
      && e.environment == b.environment
      && exists i :: 0 <= i < |lines| && ParseLine(lines[i]) == Ok(Some(Parsed(e.prefix, e.errorCount)))
    ensures forall i :: 0 <= i < |lines| && ParseLine(lines[i]).Ok? && ParseLine(lines[i]).value.Some? ==>
      EntryOf(b, ParseLine(lines[i]).value.value) in Ingested(b, lines).value
  {
    CollectRows(b, Map(ParseLine, lines));
  }
}
