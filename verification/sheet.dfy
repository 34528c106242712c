/**
  The worksheet as the extractor sees it: an immutable grid of cell values, the
  ordered list of merged ranges, and the last row the workbook library reports.
  Also the cell accessor `get_cell_value_with_merged` (app.py) and the parser
  for the single-cell references that column rules name.
 */
module Sheets {
  import opened Outcomes
  import opened Decimal

  type Year = y: int | 1 <= y <= 9999 witness 1
  type Month = m: int | 1 <= m <= 12 witness 1
  type Day = d: int | 1 <= d <= 31 witness 1
  type Hour = h: int | 0 <= h <= 23
  type Minute = m: int | 0 <= m <= 59
  type Second = s: int | 0 <= s <= 59

  /** A date-time cell value (also the clock reading that stamps a run). */
  datatype DateTime = DateTime(year: Year, month: Month, day: Day, hour: Hour, minute: Minute, second: Second)

  /** What a cell holds: nothing (Python `None`), text, an integer or a date-time. */
  datatype CellValue = NoValue | Str(text: string) | Int(number: int) | Stamp(at: DateTime)

  /** Python truthiness of a cell value: empty text, zero and `None` are false. */
  predicate Truthy(v: CellValue) {
    match v
    case NoValue => false
    case Str(t) => t != ""
    case Int(n) => n != 0
    case Stamp(_) => true
  }

  /** A merged range; its anchor is the top-left cell (minRow, minCol). */
  datatype MergedRange = MergedRange(minRow: int, maxRow: int, minCol: int, maxCol: int)

  /** The workbook library's `coordinate in merged_range`. */
  predicate Contains(m: MergedRange, row: int, col: int) {
    m.minRow <= row <= m.maxRow && m.minCol <= col <= m.maxCol
  }

  /** A worksheet: stored values by (row, column), merged ranges in the library's
      list order, and `max_row` as loaded. A position without an entry reads as `None`. */
  datatype Sheet = Sheet(cells: map<(int, int), CellValue>, merged: seq<MergedRange>, maxRow: nat)

  /** `ws.cell(row, col).value`: the stored value, with no merged fill. */
  function Raw(ws: Sheet, row: int, col: int): CellValue {
    if (row, col) in ws.cells then ws.cells[(row, col)] else NoValue
  }

  /** The index of the first range at or after `from` that contains the cell. */
  function FirstContaining(ranges: seq<MergedRange>, from: nat, row: int, col: int): (k: Option<nat>)
    requires from <= |ranges|
    ensures k.None? ==> forall i :: from <= i < |ranges| ==> !Contains(ranges[i], row, col)
    ensures k.Some? ==> from <= k.value < |ranges| && Contains(ranges[k.value], row, col)
    ensures k.Some? ==> forall i :: from <= i < k.value ==> !Contains(ranges[i], row, col)
    decreases |ranges| - from
  {
    if from == |ranges| then None
    else if Contains(ranges[from], row, col) then Some(from)
    else FirstContaining(ranges, from + 1, row, col)
  }

  /** `get_cell_value_with_merged`: a stored value is returned unchanged; an empty
      cell takes the anchor value of the first merged range, in list order, that
      contains it; a cell in no range stays empty. */
  function ValueWithMerged(ws: Sheet, row: int, col: int): (v: CellValue)
    ensures Raw(ws, row, col) != NoValue ==> v == Raw(ws, row, col)
    ensures Raw(ws, row, col) == NoValue && (forall i :: 0 <= i < |ws.merged| ==> !Contains(ws.merged[i], row, col))
      ==> v == NoValue
    ensures forall k ::
              (0 <= k < |ws.merged| && Raw(ws, row, col) == NoValue && Contains(ws.merged[k], row, col)
               && (forall i :: 0 <= i < k ==> !Contains(ws.merged[i], row, col)))
              ==> v == Raw(ws, ws.merged[k].minRow, ws.merged[k].minCol)
  {
    var direct := Raw(ws, row, col);
    if direct != NoValue then direct
    else
      match FirstContaining(ws.merged, 0, row, col)
      case None => NoValue
      case Some(k) => Raw(ws, ws.merged[k].minRow, ws.merged[k].minCol)
  }

  // ---------------------------------------------------------------------------
  // Single-cell references such as "B2", "$D$12" or "d7"
  // ---------------------------------------------------------------------------

  /** The largest row number the workbook library accepts. */
  const MaxRowNumber := 1048576

  predicate IsAsciiLetter(c: char) {
    'A' <= c <= 'Z' || 'a' <= c <= 'z'
  }

  predicate AllLetters(s: string) {
    forall i :: 0 <= i < |s| ==> IsAsciiLetter(s[i])
  }

  /** 'A'/'a' is 1, ..., 'Z'/'z' is 26. */
  function LetterValue(c: char): (n: nat)
    requires IsAsciiLetter(c)
    ensures 1 <= n <= 26
  {
    if 'A' <= c <= 'Z' then c as int - 64 else c as int - 96
  }

  /** Column letters read as a bijective base-26 numeral: "A" is 1, "Z" 26, "AA" 27. */
  function ColumnIndex(letters: string): nat
    requires AllLetters(letters)
  {
    if letters == [] then 0
    else ColumnIndex(letters[..|letters| - 1]) * 26 + LetterValue(letters[|letters| - 1])
  }

  /** The length of the run of ASCII letters in `s` starting at `i`. */
  function LetterRun(s: string, i: nat): (n: nat)
    requires i <= |s|
    ensures i + n <= |s| && forall k :: i <= k < i + n ==> IsAsciiLetter(s[k])
    ensures i + n == |s| || !IsAsciiLetter(s[i + n])
    decreases |s| - i
  {
    if i < |s| && IsAsciiLetter(s[i]) then 1 + LetterRun(s, i + 1) else 0
  }

  /** What `ws[ref]` denotes when it is a single cell: an optional '$', one to three
      column letters, an optional '$', and a row number from 1 to 1048576 in ASCII
      digits. A bare column, a bare row, a range or malformed text is not a single
      cell (`None`); reading `.value` from it raises. */
  function ParseRef(ref: string): (p: Option<(int, int)>)
    ensures p.Some? ==> 1 <= p.value.0 <= MaxRowNumber && 1 <= p.value.1
  {
    var i0 := if |ref| > 0 && ref[0] == '$' then 1 else 0;
    var n := LetterRun(ref, i0);
    var i1 := i0 + n;
    var i2 := if i1 < |ref| && ref[i1] == '$' then i1 + 1 else i1;
    var digits := ref[i2..];
    assert AllLetters(ref[i0..i1]) by {
      assert forall k :: 0 <= k < n ==> ref[i0..i1][k] == ref[i0 + k];
    }
    if 1 <= n <= 3 && |digits| >= 1 && AllDigits(digits) && 1 <= DigitsValue(digits) <= MaxRowNumber then
      Some((DigitsValue(digits), ColumnIndex(ref[i0..i1])))
    else
      None
  }

  /** Appending a row number to column letters, as the field resolver does with
      CELL_FIX, names exactly that row in that column. */
  lemma ColumnLettersWithRow(letters: string, row: int)
    requires 1 <= |letters| <= 3 && AllLetters(letters)
    requires 1 <= row <= MaxRowNumber
    ensures ParseRef(letters + IntToString(row)) == Some((row, ColumnIndex(letters)))
  {
    var digits := NatToString(row);
    var ref := letters + digits;
    assert IntToString(row) == digits;
    NatToStringRoundTrip(row);
    assert ref[..|letters|] == letters;
    assert ref[|letters|..] == digits;
    ParseRefOf(ref, |letters|);
  }

  /** A reference of one to three letters followed by a row number in range. */
  lemma ParseRefOf(ref: string, n: nat)
    requires 1 <= n <= 3 && n < |ref| && AllLetters(ref[..n]) && AllDigits(ref[n..])
    requires 1 <= DigitsValue(ref[n..]) <= MaxRowNumber
    ensures ParseRef(ref) == Some((DigitsValue(ref[n..]), ColumnIndex(ref[..n])))
  {
    assert ref[0] == ref[..n][0];
    assert ref[n] == ref[n..][0];
    LetterRunOf(ref, n);
    assert ref[0..n] == ref[..n];
  }

  lemma LetterRunOf(s: string, n: nat)
    requires n < |s| && AllLetters(s[..n]) && !IsAsciiLetter(s[n])
    ensures LetterRun(s, 0) == n
  {
    assert forall k :: 0 <= k < n ==> s[k] == s[..n][k];
  }
}
