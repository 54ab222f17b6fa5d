/**
 * How `SelectiveRowGenerator.coalesce_headers` (rowgenerators/generators.py)
 * merges a header spread over several rows into one: gaps in each row are
 * filled from the left, the cells of each column are joined with spaces, and
 * whitespace is tidied.
 */
module Coalesce {
  import opened Wrappers
  import opened PyText
  import opened Sources

  /**
   * The value cell `i` of a header row holds after the forward fill: the cell
   * itself when it is not blank, else the nearest non-blank cell to its left,
   * or `None` when there is none.
   */
  function Filled(hl: Row, i: nat): Option<string>
    requires i < |hl|
  {
    if !IsBlank(hl[i]) then Some(hl[i]) else if i == 0 then None else Filled(hl, i - 1)
  }

  /** `Filled` is what its description says: the nearest non-blank cell at or left of `i`. */
  lemma {:induction false} FilledIsNearest(hl: Row, i: nat)
    requires i < |hl|
    ensures Filled(hl, i).None? <==> forall k :: 0 <= k <= i ==> IsBlank(hl[k])
    ensures Filled(hl, i).Some? ==>
      exists j :: 0 <= j <= i && !IsBlank(hl[j]) && Filled(hl, i).value == hl[j]
                  && forall k :: j < k <= i ==> IsBlank(hl[k])
  {
    if IsBlank(hl[i]) && i > 0 {
      FilledIsNearest(hl, i - 1);
      if Filled(hl, i).Some? {
        var j :| 0 <= j <= i - 1 && !IsBlank(hl[j]) && Filled(hl, i - 1).value == hl[j]
                 && forall k :: j < k <= i - 1 ==> IsBlank(hl[k]);
        assert forall k :: j < k <= i ==> IsBlank(hl[k]);
      }
    }
  }

  /** The forward fill of lines 727-734 on a copy of one header row, with its running `last`. */
  method FillForward(hl: Row) returns (filled: seq<Option<string>>)
    ensures |filled| == |hl|
    ensures forall i :: 0 <= i < |hl| ==> filled[i] == Filled(hl, i)
  {
    filled := seq(|hl|, i requires 0 <= i < |hl| => Some(hl[i]));
    var last: Option<string> := None;
    for i := 0 to |hl|
      invariant |filled| == |hl|
      invariant forall k :: 0 <= k < i ==> filled[k] == Filled(hl, k)
      invariant forall k :: i <= k < |hl| ==> filled[k] == Some(hl[k])
      invariant last == if i == 0 then None else Filled(hl, i - 1)
    {
      if IsBlank(hl[i]) {
        filled := filled[i := last];
      } else {
        last := Some(hl[i]);
      }
    }
  }

  /** `text_type(col_val).strip() if col_val else ''`. */
  function CellText(v: Option<string>): string {
    if v.None? || v.value == "" then "" else StripSpace(v.value)
  }

  /** `re.sub(r'\s+', ' ', s)`: every run of whitespace becomes one space. */
  function CollapseSpace(s: string): string
    decreases |s|
  {
    if s == [] then []
    else if s[0] in Whitespace then
      var rest := LStrip(s, Whitespace);
      assert rest == [] || rest[0] != s[0];
      [' '] + CollapseSpace(rest)
    else [s[0]] + CollapseSpace(s[1..])
  }

  /** Only plain spaces, never two in a row. */
  predicate Tidy(s: string) {
    && (forall k :: 0 <= k < |s| && s[k] in Whitespace ==> s[k] == ' ')
    && (forall k :: 0 <= k < |s| - 1 ==> !(s[k] == ' ' && s[k + 1] == ' '))
  }

  /** No whitespace at either end. */
  predicate Trimmed(s: string) {
    s == [] || (s[0] !in Whitespace && s[|s| - 1] !in Whitespace)
  }

  /** Collapsing keeps a non-empty text non-empty, and a first character that is not whitespace. */
  lemma CollapseSpaceFirst(s: string)
    requires s != []
    ensures CollapseSpace(s) != []
    ensures s[0] !in Whitespace ==> CollapseSpace(s)[0] == s[0]
  {
  }

  /** Collapsing keeps a last character that is not whitespace. */
  lemma {:induction false} CollapseSpaceLast(s: string)
    requires s != [] && s[|s| - 1] !in Whitespace
    ensures CollapseSpace(s) != [] && CollapseSpace(s)[|CollapseSpace(s)| - 1] == s[|s| - 1]
    decreases |s|
  {
    if s[0] in Whitespace {
      var rest := LStrip(s, Whitespace);
      assert rest == [] || rest[0] != s[0];
      assert rest != [] && rest[|rest| - 1] == s[|s| - 1];
      CollapseSpaceLast(rest);
    } else if |s| > 1 {
      assert s[1..][|s[1..]| - 1] == s[|s| - 1];
      CollapseSpaceLast(s[1..]);
    }
  }

  lemma {:induction false} CollapseSpaceTidy(s: string)
    ensures Tidy(CollapseSpace(s))
    decreases |s|
  {
    if s != [] {
      var r := CollapseSpace(s);
      if s[0] in Whitespace {
        var rest := LStrip(s, Whitespace);
        assert rest == [] || rest[0] != s[0];
        CollapseSpaceTidy(rest);
        var tail := CollapseSpace(rest);
        if rest != [] {
          CollapseSpaceFirst(rest);
        }
        assert r == [' '] + tail;
        assert forall k :: 0 <= k < |tail| ==> r[k + 1] == tail[k];
      } else {
        CollapseSpaceTidy(s[1..]);
        var tail := CollapseSpace(s[1..]);
        assert r == [s[0]] + tail;
        assert forall k :: 0 <= k < |tail| ==> r[k + 1] == tail[k];
      }
    }
  }

  /** `re.sub(r'\s+', ' ', h.strip())`. */
  function Normalize(h: string): string {
    CollapseSpace(StripSpace(h))
  }

  /** A normalized header has no whitespace at its ends, and only single spaces inside. */
  lemma NormalizeTidy(h: string)
    ensures Tidy(Normalize(h)) && Trimmed(Normalize(h))
  {
    var t := StripSpace(h);
    assert t == [] || (t[0] !in Whitespace && t[|t| - 1] !in Whitespace);
    CollapseSpaceTidy(t);
    if t != [] {
      CollapseSpaceFirst(t);
      CollapseSpaceLast(t);
    }
  }

  /** `[list(hl) for hl in self.headers if bool(hl)]`: the non-empty header rows, in order. */
  function NonEmpty(headers: seq<Row>): (lines: seq<Row>)
    ensures |lines| <= |headers|
    ensures forall k :: 0 <= k < |lines| ==> lines[k] != [] && lines[k] in headers
    ensures lines == [] <==> forall k :: 0 <= k < |headers| ==> headers[k] == []
  {
    if headers == [] then []
    else
      var rest := NonEmpty(headers[1..]);
      assert forall k :: 1 <= k < |headers| ==> headers[k] == headers[1..][k - 1];
      if headers[0] == [] then rest else [headers[0]] + rest
  }

  /** `NonEmpty` keeps every non-empty row. */
  lemma {:induction false} NonEmptyKeeps(headers: seq<Row>, k: nat)
    requires k < |headers| && headers[k] != []
    ensures headers[k] in NonEmpty(headers)
  {
    if k > 0 {
      NonEmptyKeeps(headers[1..], k - 1);
    }
  }

  /** The length of the shortest row: `zip(*lines)` stops there. */
  function MinLen(lines: seq<Row>): (n: nat)
    requires |lines| >= 1
    ensures forall k :: 0 <= k < |lines| ==> n <= |lines[k]|
    ensures exists k :: 0 <= k < |lines| && n == |lines[k]|
  {
    if |lines| == 1 then |lines[0]|
    else
      var m := MinLen(lines[1..]);
      assert forall k :: 1 <= k < |lines| ==> lines[k] == lines[1..][k - 1];
      if |lines[0]| <= m then |lines[0]| else m
  }

  /** Column `c` of several rows, each cell filled from the left: one tuple of `zip(*header_lines)`. */
  function ColumnCells(lines: seq<Row>, c: nat): (cells: seq<string>)
    requires |lines| >= 1 && c < MinLen(lines)
    ensures |cells| == |lines|
    ensures forall r :: 0 <= r < |lines| ==> cells[r] == CellText(Filled(lines[r], c))
  {
    seq(|lines|, r requires 0 <= r < |lines| => CellText(Filled(lines[r], c)))
  }

  /** Header `c` of several rows: the filled cells of column `c`, joined with spaces and normalized. */
  function ColumnText(lines: seq<Row>, c: nat): string
    requires |lines| >= 1 && c < MinLen(lines)
  {
    Normalize(JoinWith(ColumnCells(lines, c), ' '))
  }

  /** What `coalesce_headers` returns for the collected header rows. */
  function Coalesced(headers: seq<Row>): Option<Row> {
    if headers == [] then None
    else
      var lines := NonEmpty(headers);
      if |lines| == 0 then Some([])
      else if |lines| == 1 then Some(lines[0])
      else Some(seq(MinLen(lines), c requires 0 <= c < MinLen(lines) => ColumnText(lines, c)))
  }

  /** `text_type(col_val).strip() if col_val else ''` for column `c` of the filled rows. */
  function FilledCells(filled: seq<seq<Option<string>>>, c: nat): (cells: seq<string>)
    requires forall k :: 0 <= k < |filled| ==> c < |filled[k]|
    ensures |cells| == |filled|
    ensures forall k :: 0 <= k < |filled| ==> cells[k] == CellText(filled[k][c])
  {
    seq(|filled|, k requires 0 <= k < |filled| => CellText(filled[k][c]))
  }

  /** The list comprehension over `zip(*header_lines)`: one normalized header per column, `width` of them. */
  function JoinFilled(filled: seq<seq<Option<string>>>, width: nat): (h: Row)
    requires |filled| >= 1 && forall k :: 0 <= k < |filled| ==> width <= |filled[k]|
    ensures |h| == width
  {
    seq(width, c requires 0 <= c < width => Normalize(JoinWith(FilledCells(filled, c), ' ')))
  }

  /** Rows `filled` holds `lines` after the forward fill. */
  predicate FilledFrom(lines: seq<Row>, filled: seq<seq<Option<string>>>) {
    && |filled| == |lines|
    && (forall k :: 0 <= k < |lines| ==> |filled[k]| == |lines[k]|)
    && forall k, i {:trigger filled[k][i]} :: 0 <= k < |lines| && 0 <= i < |lines[k]| ==> filled[k][i] == Filled(lines[k], i)
  }

  lemma FilledColumn(lines: seq<Row>, filled: seq<seq<Option<string>>>, c: nat)
    requires |lines| >= 1 && FilledFrom(lines, filled) && c < MinLen(lines)
    ensures JoinFilled(filled, MinLen(lines))[c] == ColumnText(lines, c)
  {
    FilledCellsAgree(lines, filled, c);
  }

  lemma FilledCellsAgree(lines: seq<Row>, filled: seq<seq<Option<string>>>, c: nat)
    requires |lines| >= 1 && FilledFrom(lines, filled) && c < MinLen(lines)
    ensures FilledCells(filled, c) == ColumnCells(lines, c)
  {
  }

  /** Joining the columns of the filled rows gives the coalesced header. */
  lemma JoinFilledCoalesced(headers: seq<Row>, filled: seq<seq<Option<string>>>)
    requires |NonEmpty(headers)| >= 2 && FilledFrom(NonEmpty(headers), filled)
    ensures Coalesced(headers) == Some(JoinFilled(filled, MinLen(NonEmpty(headers))))
  {
    var lines := NonEmpty(headers);
    var h := JoinFilled(filled, MinLen(lines));
    var spec := Coalesced(headers).value;
    forall c | 0 <= c < |h|
      ensures spec[c] == h[c]
    {
      FilledColumn(lines, filled, c);
    }
    assert spec == h;
  }

  /**
   * The four cases of `coalesce_headers`: nothing collected gives `None`; only
   * empty rows give `[]`; a single non-empty row comes back as it is; several
   * give one tidy header per column of the shortest row.
   */
  lemma CoalescedCases(headers: seq<Row>)
    ensures Coalesced(headers).None? <==> headers == []
    ensures headers != [] && (forall k :: 0 <= k < |headers| ==> headers[k] == []) ==> Coalesced(headers) == Some([])
    ensures |NonEmpty(headers)| == 1 ==> Coalesced(headers) == Some(NonEmpty(headers)[0])
    ensures |NonEmpty(headers)| >= 2 ==>
      var h := Coalesced(headers).value;
      |h| == MinLen(NonEmpty(headers))
      && (forall k :: 0 <= k < |NonEmpty(headers)| ==> |h| <= |NonEmpty(headers)[k]|)
      && forall c :: 0 <= c < |h| ==> Tidy(h[c]) && Trimmed(h[c])
  {
    var lines := NonEmpty(headers);
    if |lines| >= 2 {
      var h := Coalesced(headers).value;
      forall c | 0 <= c < |h|
        ensures Tidy(h[c]) && Trimmed(h[c])
      {
        NormalizeTidy(JoinWith(ColumnCells(lines, c), ' '));
      }
    }
  }
}
