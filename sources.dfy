/**
 * Row sources (rowgenerators/generators.py): the row limit every `Source`
 * applies while iterating, the column slices of a fixed-width source, the
 * column list of a shapefile source, and the download URLs of the Socrata
 * and public Google Sheets sources.
 */
module Sources {
  import opened Wrappers
  import opened PyText

  /** A row as the generators see it: a list of cell texts. */
  type Row = seq<string>

  /** The `start()` and `finish()` hooks `Source.__iter__` calls around the rows. */
  datatype Event = Started | Finished

  /** `if self.limit`: `None` and `0` both switch the limit off. */
  predicate Limits(limit: Option<int>) {
    limit.Some? && limit.value != 0
  }

  /** Whether the row at index `i` gets through: the loop breaks at the first index above the limit. */
  predicate Passes(limit: Option<int>, i: int) {
    !Limits(limit) || i <= limit.value
  }

  class Source {
    /** Set from outside to cap the number of rows produced. */
    var limit: Option<int>
    /** The hook calls made so far. */
    var events: seq<Event>

    constructor ()
      ensures limit == None && events == []
    {
      limit := None;
      events := [];
    }

    /**
     * `Source.__iter__` over the rows `_get_row_gen()` produces: with a limit,
     * the loop stops at the first index above it, so rows 0 to `limit` (that is,
     * `limit + 1` of them) come through; without one, every row does.
     */
    method Iterate(rows: seq<Row>) returns (out: seq<Row>)
      modifies this`events
      ensures events == old(events) + [Started, Finished]
      ensures |out| <= |rows| && out == rows[..|out|]
      ensures forall i :: 0 <= i < |rows| ==> (i < |out| <==> Passes(limit, i))
    {
      events := events + [Started];
      out := [];
      var i := 0;
      while i < |rows|
        invariant 0 <= i <= |rows| && out == rows[..i]
        invariant forall k :: 0 <= k < i ==> Passes(limit, k)
      {
        if Limits(limit) && i > limit.value {
          break;
        }
        out := out + [rows[i]];
        i := i + 1;
      }
      assert forall k :: i <= k < |rows| ==> !Passes(limit, k);
      events := events + [Finished];
    }
  }

  /** The row count `Iterate` lets through: `min(n, limit + 1)`, none for a negative limit. */
  lemma LimitCount(limit: Option<int>, rows: seq<Row>, out: seq<Row>)
    requires |out| <= |rows|
    requires forall i :: 0 <= i < |rows| ==> (i < |out| <==> Passes(limit, i))
    ensures !Limits(limit) ==> |out| == |rows|
    ensures Limits(limit) ==>
      |out| == if limit.value < 0 then 0 else if limit.value + 1 < |rows| then limit.value + 1 else |rows|
  {
    if !Limits(limit) || (limit.value >= 0 && limit.value + 1 >= |rows|) {
      if |rows| > 0 {
        assert Passes(limit, |rows| - 1);
      }
    } else if limit.value < 0 {
      if |rows| > 0 {
        assert !Passes(limit, 0);
      }
    } else {
      assert Passes(limit, limit.value);
      assert !Passes(limit, limit.value + 1);
    }
  }

  // ---- FixedSource ----

  /** A column of a fixed-width schema; `start` counts from 1, and either number may be missing. */
  datatype Column = Column(name: string, start: Option<int>, width: Option<int>)

  datatype SourceError =
    | NoSchema                     // the source has no columns
    | MissingPosition(column: string)  // `int(None)` raised `TypeError` for this column's start or width

  /** A column with both a start and a width. */
  predicate Positioned(c: Column) { c.start.Some? && c.width.Some? }

  /** `[c.start - 1, c.start + c.width - 1)` for each column, or the error for the first bad one. */
  function Slices(columns: seq<Column>): (r: Result<seq<(int, int)>, SourceError>)
    ensures r.Ok? <==> forall k :: 0 <= k < |columns| ==> Positioned(columns[k])
    ensures r.Ok? ==> |r.value| == |columns| && forall k :: 0 <= k < |columns| ==>
      r.value[k] == (columns[k].start.value - 1, columns[k].start.value + columns[k].width.value - 1)
    ensures r.Err? ==> exists k :: 0 <= k < |columns| && r.error == MissingPosition(columns[k].name)
                                  && !Positioned(columns[k]) && forall j :: 0 <= j < k ==> Positioned(columns[j])
  {
    if columns == [] then Ok([])
    else
      var n := |columns| - 1;
      var c := columns[n];
      match Slices(columns[..n])
      case Err(e) => Err(e)
      case Ok(front) =>
        if !Positioned(c) then
          assert forall j :: 0 <= j < n ==> columns[..n][j] == columns[j];
          Err(MissingPosition(columns[n].name))
        else Ok(front + [(c.start.value - 1, c.start.value + c.width.value - 1)])
  }

  /** `make_fw_row_parser`: no schema, or a column without a start or width, is a `SourceError`. */
  function MakeParser(columns: seq<Column>): (r: Result<seq<(int, int)>, SourceError>)
    ensures columns == [] ==> r == Err(NoSchema)
    ensures columns != [] ==> r == Slices(columns)
  {
    if columns == [] then Err(NoSchema) else Slices(columns)
  }

  /** Where a Python slice bound lands in a sequence of length `n`: negatives count from the end, and both ends clamp. */
  function SliceBound(i: int, n: nat): (b: nat)
    ensures b <= n
  {
    if i < 0 then (if i + n < 0 then 0 else i + n) else if i > n then n else i
  }

  /** `s[lo:hi]` with Python's slice rules. */
  function PySlice(s: string, lo: int, hi: int): (r: string)
    ensures |r| <= |s|
  {
    var a := SliceBound(lo, |s|);
    var b := SliceBound(hi, |s|);
    if a < b then s[a..b] else []
  }

  /** The parser `make_fw_row_parser` returns, applied to one line. */
  function ParseLine(slices: seq<(int, int)>, line: string): (fields: seq<string>)
    ensures |fields| == |slices|
  {
    seq(|slices|, k requires 0 <= k < |slices| => PySlice(line, slices[k].0, slices[k].1))
  }

  /**
   * A column that starts at 1 or later and fits in the line reads exactly its
   * `width` characters from `start`; a field is never wider than its column.
   */
  lemma FieldOfColumn(columns: seq<Column>, line: string, k: nat)
    requires MakeParser(columns).Ok? && k < |columns|
    requires columns[k].start.value >= 1 && columns[k].width.value >= 0
    ensures |ParseLine(MakeParser(columns).value, line)| == |columns|
    ensures |ParseLine(MakeParser(columns).value, line)[k]| <= columns[k].width.value
    ensures columns[k].start.value + columns[k].width.value - 1 <= |line| ==>
      ParseLine(MakeParser(columns).value, line)[k]
        == line[columns[k].start.value - 1 .. columns[k].start.value + columns[k].width.value - 1]
  {
  }

  /** One row of `FixedSource.__iter__`: each field of the line with surrounding whitespace stripped. */
  function FixedRow(slices: seq<(int, int)>, line: string): (row: Row)
    ensures |row| == |slices|
  {
    var fields := ParseLine(slices, line);
    seq(|slices|, k requires 0 <= k < |slices| => StripSpace(fields[k]))
  }

  /** `FixedSource.__iter__` over the lines of the file: the parser is made first, so a bad schema yields no rows. */
  function FixedRows(columns: seq<Column>, lines: seq<string>): (r: Result<seq<Row>, SourceError>)
    ensures r.Err? <==> MakeParser(columns).Err?
    ensures r.Err? ==> r.error == MakeParser(columns).error
    ensures r.Ok? ==> |r.value| == |lines| && forall i :: 0 <= i < |lines| ==>
      |r.value[i]| == |columns| && r.value[i] == FixedRow(MakeParser(columns).value, lines[i])
  {
    match MakeParser(columns)
    case Err(e) => Err(e)
    case Ok(slices) => Ok(seq(|lines|, i requires 0 <= i < |lines| => FixedRow(slices, lines[i])))
  }

  /** A field of a fixed-width row has no whitespace at either end and is a piece of its column's slice. */
  lemma FixedFieldTrimmed(slices: seq<(int, int)>, line: string, k: nat)
    requires k < |slices|
    ensures var f := FixedRow(slices, line)[k];
            && (f == [] || (f[0] !in Whitespace && f[|f| - 1] !in Whitespace))
            && exists a :: PieceAt(f, ParseLine(slices, line)[k], a)
  {
    StripSpacePiece(ParseLine(slices, line)[k]);
  }

  /** `s.strip()` has no whitespace at either end and is a piece of `s`. */
  lemma StripSpacePiece(s: string)
    ensures var f := StripSpace(s);
            && (f == [] || (f[0] !in Whitespace && f[|f| - 1] !in Whitespace))
            && exists a :: PieceAt(f, s, a)
  {
    var l := LStrip(s, Whitespace);
    var f := RStrip(l, Whitespace);
    var a := |s| - |l|;
    assert f == s[a..a + |f|];
    assert PieceAt(f, s, a);
  }

  /** `f` occurs in `s` at index `a`. */
  predicate PieceAt(f: string, s: string, a: int) {
    0 <= a <= |s| - |f| && f == s[a..a + |f|]
  }

  /** A header name: the column's name, or its position when the name is empty. */
  datatype HeaderName = Named(name: string) | Position(index: nat)

  /** `FixedSource.headers`. */
  function FixedHeaders(columns: seq<Column>): (hs: seq<HeaderName>)
    ensures |hs| == |columns|
    ensures forall k :: 0 <= k < |columns| ==> (hs[k] == Position(k) <==> columns[k].name == "")
    ensures forall k :: 0 <= k < |columns| ==> hs[k].Named? ==> hs[k].name == columns[k].name
  {
    seq(|columns|, k requires 0 <= k < |columns| => if columns[k].name != "" then Named(columns[k].name) else Position(k))
  }

  // ---- ShapefileSource ----

  /** A column in the format the rest of the library expects. */
  datatype ColumnSpec = ColumnSpec(name: string, kind: string)

  /** `_convert_column((name, type))`: the type loses everything from its first `:` on (`str:20` becomes `str`). */
  function ConvertColumn(column: (string, string)): (c: ColumnSpec)
    ensures c.name == column.0
    ensures ':' !in c.kind && |c.kind| <= |column.1| && c.kind == column.1[..|c.kind|]
    ensures |c.kind| < |column.1| ==> column.1[|c.kind|] == ':'
  {
    var t := column.1;
    var i := IndexOf(t, ':');
    assert SplitOn(t, ':')[0] == t[..i];
    ColumnSpec(column.0, SplitOn(t, ':')[0])
  }

  /** `_get_columns`: the shape id first, the converted shapefile columns in order, the geometry last. */
  function GetColumns(columns: seq<(string, string)>): (cs: seq<ColumnSpec>)
    ensures |cs| == |columns| + 2
    ensures cs[0] == ColumnSpec("id", "int")
    ensures cs[|cs| - 1] == ColumnSpec("geometry", "geometry_type")
    ensures forall k :: 0 <= k < |columns| ==> cs[k + 1] == ConvertColumn(columns[k])
  {
    [ColumnSpec("id", "int")]
    + seq(|columns|, k requires 0 <= k < |columns| => ConvertColumn(columns[k]))
    + [ColumnSpec("geometry", "geometry_type")]
  }

  // ---- download URLs ----

  const RowsSuffix: string := "/rows.csv"

  /** `SocrataSource.download_url`. */
  function SocrataDownloadUrl(url: string): string {
    url + RowsSuffix
  }

  /** The Socrata URL ends in `/rows.csv`, and cutting that off gives back the dataset URL. */
  lemma SocrataUrlRecoverable(url: string)
    ensures EndsWith(SocrataDownloadUrl(url), RowsSuffix)
    ensures var d := SocrataDownloadUrl(url); d[..|d| - |RowsSuffix|] == url
  {
  }

  const GooglePrefix: string := "https://docs.google.com/spreadsheets/d/"
  const GoogleSuffix: string := "/export?format=csv"

  /** `GooglePublicSource.download_url`: the sheet key (the URL's netloc) put into the export template. */
  function GoogleDownloadUrl(netloc: string): string {
    GooglePrefix + netloc + GoogleSuffix
  }

  /** The export URL always asks for CSV, and the sheet key can be read back from it: distinct keys, distinct URLs. */
  lemma GoogleUrlRecoverable(netloc: string)
    ensures var d := GoogleDownloadUrl(netloc);
            StartsWith(d, GooglePrefix) && EndsWith(d, GoogleSuffix)
            && d[|GooglePrefix|..|d| - |GoogleSuffix|] == netloc
  {
  }
}
