/**
 * The generators that reshape a stream of rows (rowgenerators/generators.py):
 * `DataRowGenerator` keeps a window of rows, `SelectiveRowGenerator` takes the
 * header and comment rows off the front and emits one header followed by the
 * data, and `DictRowGenerator` turns each data row into a dictionary keyed by
 * the first row.
 */
module RowStreams {
  import opened Wrappers
  import opened PyText
  import opened Sources
  import opened Coalesce

  datatype GenError =
    | AssertionError           // `assert self.start > 0` failed
    | ValueError(text: string) // `int(text)` failed
    | UnboundLocalError        // `row` read after a loop over no rows

  // ---- DataRowGenerator ----

  /** The rows `DataRowGenerator` keeps: from `start` on, and up to `end` inclusive when there is one. */
  predicate InWindow(start: int, end: Option<int>, i: int) {
    !(i < start || (end.Some? && i > end.value))
  }

  /** `DataRowGenerator.__init__`: the start row must be positive. */
  function DataRowWindow(start: int, end: Option<int>): (r: Result<(int, Option<int>), GenError>)
    ensures r.Ok? <==> start > 0
    ensures r.Ok? ==> r.value == (start, end)
    ensures r.Err? ==> r.error == AssertionError
  {
    if start > 0 then Ok((start, end)) else Err(AssertionError)
  }

  /** `DataRowGenerator.__iter__`: the rows whose index is in the window, in order. */
  function DataRows(rows: seq<Row>, start: int, end: Option<int>): (out: seq<Row>)
    ensures |out| <= |rows|
  {
    if rows == [] then []
    else
      var n := |rows| - 1;
      DataRows(rows[..n], start, end) + if InWindow(start, end, n) then [rows[n]] else []
  }

  /** The default start of 0 is rejected by the generator's own check. */
  lemma DefaultStartRejected()
    ensures DataRowWindow(0, None) == Err(AssertionError)
  {
  }

  /** The window is one contiguous slice: rows `start` to `end` inclusive, cut at the end of the input. */
  lemma {:induction false} DataRowsSlice(rows: seq<Row>, start: int, end: Option<int>)
    requires start > 0
    ensures var lo := if start < |rows| then start else |rows|;
            var hi := if end.None? || end.value + 1 > |rows| then |rows| else end.value + 1;
            DataRows(rows, start, end) == if hi <= lo then [] else rows[lo..hi]
  {
    if rows != [] {
      var n := |rows| - 1;
      DataRowsSlice(rows[..n], start, end);
      if InWindow(start, end, n) {
        if start < n {
          SliceOfPrefix(rows, n, start, n);
        }
        SliceExtend(rows, start, n);
      } else if start <= n && end.Some? && end.value + 1 > start {
        SliceOfPrefix(rows, n, start, end.value + 1);
      }
    }
  }

  lemma SliceExtend(rows: seq<Row>, lo: int, n: nat)
    requires 0 < lo <= n < |rows|
    ensures rows[lo..n] + [rows[n]] == rows[lo..n + 1]
    ensures lo == n ==> rows[lo..n + 1] == [rows[n]]
  {
  }

  lemma SliceOfPrefix(rows: seq<Row>, n: nat, lo: nat, hi: nat)
    requires lo <= hi <= n <= |rows|
    ensures rows[..n][lo..hi] == rows[lo..hi]
  {
  }

  // ---- SelectiveRowGenerator ----

  /** The `headers` argument: a list of row numbers, or a string of comma-separated ones. */
  datatype HeaderSpec = Listed(lines: seq<int>) | Text(text: string)

  /** `[int(e) for e in parts if e]`: empty parts are skipped; the first part that is not a number raises. */
  function LineNumbers(parts: seq<string>): (r: Result<seq<int>, GenError>)
    ensures r.Ok? ==> |r.value| <= |parts|
  {
    if parts == [] then Ok([])
    else if parts[0] == "" then LineNumbers(parts[1..])
    else match ParseInt(parts[0])
      case None => Err(ValueError(parts[0]))
      case Some(n) =>
        match LineNumbers(parts[1..])
        case Err(e) => Err(e)
        case Ok(rest) => Ok([n] + rest)
  }

  function HeaderLines(h: HeaderSpec): Result<seq<int>, GenError> {
    match h
    case Listed(lines) => Ok(lines)
    case Text(t) => LineNumbers(SplitOn(t, ','))
  }

  /** An empty part anywhere in the list changes nothing. */
  lemma {:induction false} LineNumbersSkipEmpty(parts: seq<string>, k: nat)
    requires k <= |parts|
    ensures LineNumbers(parts[..k] + [""] + parts[k..]) == LineNumbers(parts)
  {
    var with := parts[..k] + [""] + parts[k..];
    if k == 0 {
      assert with[1..] == parts;
    } else {
      assert with[0] == parts[0];
      assert with[1..] == parts[1..][..k - 1] + [""] + parts[1..][k - 1..];
      LineNumbersSkipEmpty(parts[1..], k - 1);
    }
  }

  /** `str(n)` for each number. */
  function Decimals(ns: seq<int>): (parts: seq<string>)
    ensures |parts| == |ns|
  {
    seq(|ns|, k requires 0 <= k < |ns| => IntToString(ns[k]))
  }

  /** Reading back `",".join(map(str, ns))` gives `ns`: the header-line text round-trips. */
  lemma {:induction false} LineNumbersOfDecimals(ns: seq<int>)
    ensures LineNumbers(Decimals(ns)) == Ok(ns)
  {
    if ns != [] {
      LineNumbersOfDecimals(ns[1..]);
      DecimalsStep(ns);
    }
  }

  lemma DecimalsStep(ns: seq<int>)
    requires ns != [] && LineNumbers(Decimals(ns[1..])) == Ok(ns[1..])
    ensures LineNumbers(Decimals(ns)) == Ok(ns)
  {
    DecimalsCons(ns);
    LineNumbersStep(IntToString(ns[0]), Decimals(ns[1..]), ns[0], ns[1..]);
  }

  lemma DecimalsCons(ns: seq<int>)
    requires ns != []
    ensures Decimals(ns) == [IntToString(ns[0])] + Decimals(ns[1..])
    ensures [ns[0]] + ns[1..] == ns
  {
  }

  lemma LineNumbersStep(p: string, rest: seq<string>, n: int, ns: seq<int>)
    requires p == IntToString(n) && LineNumbers(rest) == Ok(ns)
    ensures LineNumbers([p] + rest) == Ok([n] + ns)
  {
    ParseIntToString(n);
    assert ([p] + rest)[1..] == rest;
  }

  lemma DecimalHasNoComma(i: int)
    ensures ',' !in IntToString(i)
  {
    var ds := NatToString(if i < 0 then -i else i);
    var s := IntToString(i);
    forall k | 0 <= k < |s|
      ensures s[k] != ','
    {
      if i < 0 && k > 0 {
        assert s[k] == ds[k - 1];
      }
    }
  }

  lemma HeaderTextRoundTrip(ns: seq<int>)
    requires ns != []
    ensures HeaderLines(Text(JoinWith(Decimals(ns), ','))) == Ok(ns)
  {
    var parts := Decimals(ns);
    forall k | 0 <= k < |parts|
      ensures ',' !in parts[k]
    {
      DecimalHasNoComma(ns[k]);
    }
    SplitJoin(parts, ',');
    LineNumbersOfDecimals(ns);
  }

  /** The settings `SelectiveRowGenerator.__init__` stores. */
  datatype Settings = Settings(start: int, headerLines: seq<int>, commentLines: seq<int>, loadHeaders: bool)

  /** `SelectiveRowGenerator.__init__`: a missing or zero start means 1; the header text is parsed before the start is checked. */
  function Configure(start: Option<int>, headers: HeaderSpec, comments: seq<int>, loadHeaders: bool): (r: Result<Settings, GenError>)
    ensures r.Ok? ==> r.value.start > 0 && r.value.commentLines == comments && r.value.loadHeaders == loadHeaders
    ensures r.Ok? ==> Ok(r.value.headerLines) == HeaderLines(headers)
    ensures r.Ok? ==> r.value.start == if start.None? || start.value == 0 then 1 else start.value
    ensures r.Err? ==> (HeaderLines(headers).Err? && r.error == HeaderLines(headers).error)
                       || (HeaderLines(headers).Ok? && start.Some? && start.value < 0 && r.error == AssertionError)
    ensures HeaderLines(headers).Ok? ==> (r.Ok? <==> start.None? || start.value >= 0)
  {
    var s := if start.None? || start.value == 0 then 1 else start.value;
    match HeaderLines(headers)
    case Err(e) => Err(e)
    case Ok(lines) => if s > 0 then Ok(Settings(s, lines, comments, loadHeaders)) else Err(AssertionError)
  }

  /** What the scan of lines 745-753 does with the row at index `i`; a header line wins over a comment line. */
  datatype Role = HeaderRow | CommentRow | StartRow | Skipped

  function RoleOf(s: Settings, i: int): Role {
    if i in s.headerLines then HeaderRow
    else if i in s.commentLines then CommentRow
    else if i == s.start then StartRow
    else Skipped
  }

  /** How many rows the scan reads: through the start row if it reaches one, otherwise all of them. */
  function Consumed(s: Settings, n: nat): (c: nat)
    ensures c <= n
  {
    if 0 <= s.start < n && RoleOf(s, s.start) == StartRow then s.start + 1 else n
  }

  /** The rows among the first `n` whose role is `role`, in order. */
  function Gather(rows: seq<Row>, s: Settings, n: nat, role: Role): seq<Row>
    requires n <= |rows|
  {
    if n == 0 then [] else Gather(rows, s, n - 1, role) + if RoleOf(s, n - 1) == role then [rows[n - 1]] else []
  }

  /** `['col0', 'col1', ...]`, one name per cell of `row`. */
  function FakeHeader(width: nat): (h: Row)
    ensures |h| == width
  {
    seq(width, i requires 0 <= i < width => "col" + NatToString(i))
  }

  /** The header `__iter__` emits first: the coalesced header rows, or made-up names when there are none. */
  function Lead(headers: seq<Row>, last: Row): Row {
    if headers != [] then Coalesced(headers).value else FakeHeader(|last|)
  }

  lemma NatToStringInjective(a: nat, b: nat)
    requires NatToString(a) == NatToString(b)
    ensures a == b
  {
    DigitsOfNat(a);
    DigitsOfNat(b);
  }

  /** The made-up header names all differ, so they work as dictionary keys. */
  lemma FakeHeaderDistinct(width: nat)
    ensures forall i, j :: 0 <= i < j < width ==> FakeHeader(width)[i] != FakeHeader(width)[j]
  {
    forall i, j | 0 <= i < j < width
      ensures FakeHeader(width)[i] != FakeHeader(width)[j]
    {
      if FakeHeader(width)[i] == FakeHeader(width)[j] {
        assert NatToString(i) == FakeHeader(width)[i][3..];
        assert NatToString(j) == FakeHeader(width)[j][3..];
        NatToStringInjective(i, j);
        assert false;
      }
    }
  }

  class SelectiveRowGenerator {
    const settings: Settings
    /** The header rows collected so far. */
    var headers: seq<Row>
    /** The comment rows collected so far. */
    var comments: seq<Row>

    constructor (settings: Settings)
      ensures this.settings == settings && headers == [] && comments == []
    {
      this.settings := settings;
      headers := [];
      comments := [];
    }

    /** `coalesce_headers`, filling copies of the rows so that `headers` itself is left as it was. */
    method CoalesceHeaders() returns (r: Option<Row>)
      ensures r == Coalesced(headers)
    {
      if headers == [] {
        return None;
      }
      var lines := NonEmpty(headers);
      if |lines| == 0 {
        return Some([]);
      }
      if |lines| == 1 {
        return Some(lines[0]);
      }
      var filled: seq<seq<Option<string>>> := [];
      for j := 0 to |lines|
        invariant FilledFrom(lines[..j], filled)
      {
        var f := FillForward(lines[j]);
        filled := filled + [f];
      }
      assert lines[..|lines|] == lines;
      var h := JoinFilled(filled, MinLen(lines));
      JoinFilledCoalesced(headers, filled);
      return Some(h);
    }

    /**
     * `__iter__`: header rows (when loaded) and comment rows before the start row
     * are collected, other rows before it dropped; then come the header, the start
     * row (or the last row read) and every row after it, unchanged. With no rows
     * at all, `row` is unbound.
     */
    /** The scan of lines 745-753: how many rows it reads, collecting header and comment rows on the way. */
    method Scan(rows: seq<Row>) returns (n: nat)
      modifies this`headers, this`comments
      ensures n == Consumed(settings, |rows|)
      ensures headers == old(headers) + (if settings.loadHeaders then Gather(rows, settings, n, HeaderRow) else [])
      ensures comments == old(comments) + Gather(rows, settings, n, CommentRow)
    {
      var i := 0;
      while i < |rows|
        invariant 0 <= i <= |rows|
        invariant forall k :: 0 <= k < i ==> RoleOf(settings, k) != StartRow
        invariant headers == old(headers) + (if settings.loadHeaders then Gather(rows, settings, i, HeaderRow) else [])
        invariant comments == old(comments) + Gather(rows, settings, i, CommentRow)
      {
        var row := rows[i];
        if i in settings.headerLines {
          if settings.loadHeaders {
            headers := headers + [row];
          }
        } else if i in settings.commentLines {
          comments := comments + [row];
        } else if i == settings.start {
          return i + 1;
        }
        i := i + 1;
      }
      return i;
    }

    /**
     * `__iter__`: header rows (when loaded) and comment rows before the start row
     * are collected, other rows before it dropped; then come the header, the start
     * row (or the last row read) and every row after it, unchanged. With no rows
     * at all, `row` is unbound.
     */
    method Iterate(rows: seq<Row>) returns (out: seq<Row>, err: Option<GenError>)
      modifies this`headers, this`comments
      ensures var n := Consumed(settings, |rows|);
              && headers == old(headers) + (if settings.loadHeaders then Gather(rows, settings, n, HeaderRow) else [])
              && comments == old(comments) + Gather(rows, settings, n, CommentRow)
      ensures rows == [] ==>
        err == Some(UnboundLocalError) && out == if old(headers) == [] then [] else [Coalesced(old(headers)).value]
      ensures rows != [] ==>
        var n := Consumed(settings, |rows|);
        && err == None
        && out == [Lead(headers, rows[n - 1])] + rows[n - 1..]
    {
      var i := Scan(rows);
      if i == 0 {
        assert rows == [] && headers == old(headers);
        err := Some(UnboundLocalError);
        if headers != [] {
          var h := CoalesceHeaders();
          return [h.value], err;
        }
        return [], err;
      }
      var row := rows[i - 1];
      var lead;
      if headers != [] {
        var h := CoalesceHeaders();
        lead := h.value;
      } else {
        lead := FakeHeader(|row|);
      }
      return [lead] + rows[i - 1..], None;
    }
  }

  /**
   * When the scan reaches the start row, the output is the header, then the
   * start row and every row after it; nothing before the start row is emitted.
   */
  lemma DataFollowsStart(s: Settings, rows: seq<Row>)
    requires 0 <= s.start < |rows| && RoleOf(s, s.start) == StartRow
    ensures Consumed(s, |rows|) == s.start + 1
    ensures rows[Consumed(s, |rows|) - 1..] == rows[s.start..]
  {
  }

  /** A row listed both as a header and as a comment goes to the headers only. */
  lemma HeaderWinsOverComment(s: Settings, rows: seq<Row>, n: nat, i: nat)
    requires n <= |rows| && i < n && i in s.headerLines && i in s.commentLines
    ensures rows[i] in Gather(rows, s, n, HeaderRow)
    ensures RoleOf(s, i) != CommentRow
  {
    GatherHas(rows, s, n, i);
  }

  lemma {:induction false} GatherHas(rows: seq<Row>, s: Settings, n: nat, i: nat)
    requires n <= |rows| && i < n
    ensures rows[i] in Gather(rows, s, n, RoleOf(s, i))
  {
    if i < n - 1 {
      GatherHas(rows, s, n - 1, i);
    }
  }

  // ---- DictRowGenerator ----

  /** `dict(zip(keys, row))`: pairs up to the shorter of the two; a repeated key keeps its last value. */
  function ZipDict(keys: Row, vals: Row): map<string, string>
    decreases |keys|
  {
    var n := if |keys| < |vals| then |keys| else |vals|;
    if n == 0 then map[] else ZipDict(keys[..n - 1], vals[..n - 1])[keys[n - 1] := vals[n - 1]]
  }

  /** The keys of the dictionary are the first `min(|keys|, |vals|)` keys; each maps to the value at its last position. */
  lemma {:induction false} ZipDictContents(keys: Row, vals: Row, j: nat)
    requires j < |keys| && j < |vals|
    ensures keys[j] in ZipDict(keys, vals)
    ensures (forall t :: j < t < |keys| && t < |vals| ==> keys[t] != keys[j]) ==> ZipDict(keys, vals)[keys[j]] == vals[j]
    decreases |keys|
  {
    var n := if |keys| < |vals| then |keys| else |vals|;
    if j < n - 1 {
      ZipDictContents(keys[..n - 1], vals[..n - 1], j);
    }
  }

  lemma {:induction false} ZipDictOnlyKeys(keys: Row, vals: Row, k: string)
    requires k in ZipDict(keys, vals)
    ensures exists j :: 0 <= j < |keys| && j < |vals| && keys[j] == k
    decreases |keys|
  {
    var n := if |keys| < |vals| then |keys| else |vals|;
    if keys[n - 1] != k {
      ZipDictOnlyKeys(keys[..n - 1], vals[..n - 1], k);
      var j :| 0 <= j < |keys[..n - 1]| && j < |vals[..n - 1]| && keys[..n - 1][j] == k;
      assert keys[j] == k;
    }
  }

  /** `[text_type(e).strip() for e in row]`. */
  function StripAll(row: Row): (r: Row)
    ensures |r| == |row|
  {
    seq(|row|, k requires 0 <= k < |row| => StripSpace(row[k]))
  }

  /** The index of the first non-empty row: an empty row leaves the keys falsy, so the next row is tried. */
  function FirstKeyRow(rows: seq<Row>): (k: nat)
    ensures k <= |rows|
    ensures forall j :: 0 <= j < k ==> rows[j] == []
    ensures k < |rows| ==> rows[k] != []
  {
    if rows == [] then 0
    else
      var n := |rows| - 1;
      var k := FirstKeyRow(rows[..n]);
      if k < n then k else if rows[n] != [] then n else n + 1
  }

  /** `out[j]` is the dictionary of the keys with the `j`-th row after row `k`. */
  predicate ZippedAfter(out: seq<map<string, string>>, keys: Row, rows: seq<Row>, k: nat) {
    k + |out| < |rows| && forall j :: 0 <= j < |out| ==> out[j] == ZipDict(keys, rows[k + 1 + j])
  }

  lemma ZippedAfterStep(out: seq<map<string, string>>, keys: Row, rows: seq<Row>, k: nat)
    requires ZippedAfter(out, keys, rows, k) && k + 1 + |out| < |rows|
    ensures ZippedAfter(out + [ZipDict(keys, rows[k + 1 + |out|])], keys, rows, k)
  {
  }

  /** Any index with only empty rows before it, and a non-empty row at it (or at the end), is `FirstKeyRow`. */
  lemma FirstKeyRowIs(rows: seq<Row>, k: nat)
    requires k <= |rows| && (forall j :: 0 <= j < k ==> rows[j] == []) && (k < |rows| ==> rows[k] != [])
    ensures FirstKeyRow(rows) == k
  {
  }

  /** `DictRowGenerator.__iter__`: the first non-empty row gives the keys, and each later row one dictionary. */
  method DictRows(rows: seq<Row>) returns (out: seq<map<string, string>>)
    ensures var k := FirstKeyRow(rows);
            && |out| == (if k < |rows| then |rows| - k - 1 else 0)
            && forall j :: 0 <= j < |out| ==> out[j] == ZipDict(StripAll(rows[k]), rows[k + 1 + j])
  {
    var keys: Row := [];  // `None` and `[]` are both falsy
    out := [];
    ghost var k: nat := 0;
    for i := 0 to |rows|
      invariant keys == [] ==> out == [] && forall j :: 0 <= j < i ==> rows[j] == []
      invariant keys != [] ==> k < i && rows[k] != [] && forall j :: 0 <= j < k ==> rows[j] == []
      invariant keys != [] ==> keys == StripAll(rows[k]) && |out| == i - k - 1 && ZippedAfter(out, keys, rows, k)
    {
      if keys == [] {
        keys := StripAll(rows[i]);
        k := i;
        continue;
      }
      ZippedAfterStep(out, keys, rows, k);
      out := out + [ZipDict(keys, rows[i])];
    }
    if keys == [] {
      k := |rows|;
    }
    FirstKeyRowIs(rows, k);
  }
}
