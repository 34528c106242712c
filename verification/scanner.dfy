/**
  The row scanners of app.py: the `【項目定義】` field-section scan of
  `process_koumoku_data_for_single_sheet` (lines 377-423) and the logic-row scan
  of `process_koumoku_logic_for_seq_k` (lines 435-466).

  Each scanner is a recursion over row numbers that returns the rows it accepts
  together with the sequence number it stamps on each (SEQ_K for fields,
  SEQ_K_L for logic rows). Rendering those rows as INSERT statements is done by
  `Pipeline`; it does not influence which rows are accepted.
 */
module Scanner {
  import opened Sheets

  /** The field-section marker searched for in column B. */
  const ItemMarker := "【項目定義】"

  /** STOP_VALUES: section headers that end a scan (the field marker is among them). */
  const StopValues: set<string> := {
    "【帳票データ】", "【ファンクション定義】", "【メッセージ定義】", "【タブインデックス定義】",
    "【CSVデータ】", "【備考】", "【運用上の注意点】", "【項目定義】"
  }

  const ColumnB := 2
  const ColumnC := 3
  const ColumnBN := 66

  /** The raw value of column B (no merged fill), which every marker test reads. */
  function LabelAt(ws: Sheet, row: int): CellValue {
    Raw(ws, row, ColumnB)
  }

  predicate IsStopValue(v: CellValue) {
    v.Str? && v.text in StopValues
  }

  // ---------------------------------------------------------------------------
  // Field rows
  // ---------------------------------------------------------------------------

  /** B and C of the row lie in one merged range (not necessarily exactly B:C). */
  predicate MergedBC(ws: Sheet, row: int) {
    exists i :: 0 <= i < |ws.merged| && Contains(ws.merged[i], row, ColumnB) && Contains(ws.merged[i], row, ColumnC)
  }

  /** A label that names a field: non-empty and not one of the header words. */
  predicate IsFieldLabel(v: CellValue) {
    Truthy(v) && v != Str("画面") && v != Str("番号")
  }

  /** A row that the field scan turns into a field record. */
  predicate IsFieldRow(ws: Sheet, row: int) {
    && LabelAt(ws, row) != Str(ItemMarker)
    && !IsStopValue(LabelAt(ws, row))
    && MergedBC(ws, row)
    && IsFieldLabel(LabelAt(ws, row))
  }

  /** A row that ends the field scan: a stop marker other than the section's own
      (a repeated `【項目定義】` is skipped, not a stop). */
  predicate EndsFieldScan(ws: Sheet, row: int) {
    LabelAt(ws, row) != Str(ItemMarker) && IsStopValue(LabelAt(ws, row))
  }

  // ---------------------------------------------------------------------------
  // Logic rows
  // ---------------------------------------------------------------------------

  /** Some merged range containing B starts at column B and reaches at least BN. */
  predicate IsLogicRow(ws: Sheet, row: int) {
    exists i :: 0 <= i < |ws.merged| && Contains(ws.merged[i], row, ColumnB)
                && ws.merged[i].minCol == ColumnB && ws.merged[i].maxCol >= ColumnBN
  }

  /** A row after which the logic scan stops (it is itself still examined). */
  predicate EndsLogicScan(ws: Sheet, row: int) {
    IsStopValue(LabelAt(ws, row)) || LabelAt(ws, row) == Str(ItemMarker)
  }

  datatype LogicHit = LogicHit(row: int, seqKL: int)

  function LogicRows(hits: seq<LogicHit>): (rows: seq<int>)
    ensures |rows| == |hits| && forall i :: 0 <= i < |hits| ==> rows[i] == hits[i].row
  {
    seq(|hits|, i requires 0 <= i < |hits| => hits[i].row)
  }

  /** The loop of `process_koumoku_logic_for_seq_k` from `row` on, with the
      SEQ_K_L counter at `counter`: a logic row is stamped and the counter
      advances; then a stop marker in B ends the scan. */
  function LogicScan(ws: Sheet, row: int, counter: int): seq<LogicHit>
    decreases ws.maxRow + 1 - row
  {
    if row > ws.maxRow then []
    else
      var here := if IsLogicRow(ws, row) then [LogicHit(row, counter)] else [];
      if EndsLogicScan(ws, row) then here
      else here + LogicScan(ws, row + 1, counter + |here|)
  }

  /** SEQ_K_L runs through consecutive values from the starting counter. */
  lemma {:induction false} LogicScanNumbering(ws: Sheet, row: int, counter: int)
    ensures forall i :: 0 <= i < |LogicScan(ws, row, counter)| ==> LogicScan(ws, row, counter)[i].seqKL == counter + i
    decreases ws.maxRow + 1 - row
  {
    if row <= ws.maxRow && !EndsLogicScan(ws, row) {
      var here := if IsLogicRow(ws, row) then [LogicHit(row, counter)] else [];
      LogicScanNumbering(ws, row + 1, counter + |here|);
    }
  }

  /** Every hit is a logic row at or after `row`, with no stop marker from `row` up to it. */
  ghost predicate LogicHitsFrom(ws: Sheet, row: int, hits: seq<LogicHit>) {
    forall i :: 0 <= i < |hits| ==>
      && row <= hits[i].row <= ws.maxRow
      && IsLogicRow(ws, hits[i].row)
      && (forall k :: row <= k < hits[i].row ==> !EndsLogicScan(ws, k))
  }

  ghost predicate LogicRowsIncrease(hits: seq<LogicHit>) {
    forall i, j :: 0 <= i < j < |hits| ==> hits[i].row < hits[j].row
  }

  /** Every emitted row is a logic row at or after the start, no stop marker lies
      before it, and rows come out in strictly increasing order. */
  lemma {:induction false} LogicScanSound(ws: Sheet, row: int, counter: int)
    ensures LogicHitsFrom(ws, row, LogicScan(ws, row, counter))
    ensures LogicRowsIncrease(LogicScan(ws, row, counter))
    decreases ws.maxRow + 1 - row
  {
    if row <= ws.maxRow && !EndsLogicScan(ws, row) {
      var here := if IsLogicRow(ws, row) then [LogicHit(row, counter)] else [];
      var rest := LogicScan(ws, row + 1, counter + |here|);
      LogicScanSound(ws, row + 1, counter + |here|);
      LogicHitsPrepend(ws, row, here, rest);
    }
  }

  /** A hit on the current row, if any, put in front of the hits of the rows below. */
  lemma LogicHitsPrepend(ws: Sheet, row: int, here: seq<LogicHit>, rest: seq<LogicHit>)
    requires row <= ws.maxRow && !EndsLogicScan(ws, row)
    requires |here| <= 1 && forall i :: 0 <= i < |here| ==> here[i].row == row && IsLogicRow(ws, row)
    requires LogicHitsFrom(ws, row + 1, rest) && LogicRowsIncrease(rest)
    ensures LogicHitsFrom(ws, row, here + rest) && LogicRowsIncrease(here + rest)
  {
    var hits := here + rest;
    var n := |here|;
    assert forall i :: n <= i < |hits| ==> hits[i] == rest[i - n];
  }

  /** Every logic row from the start up to and including the first stop row is emitted. */
  lemma {:induction false} LogicScanComplete(ws: Sheet, row: int, counter: int, r: int)
    requires row <= r <= ws.maxRow && IsLogicRow(ws, r)
    requires forall k :: row <= k < r ==> !EndsLogicScan(ws, k)
    ensures r in LogicRows(LogicScan(ws, row, counter))
    decreases ws.maxRow + 1 - row
  {
    var hits := LogicScan(ws, row, counter);
    var here := if IsLogicRow(ws, row) then [LogicHit(row, counter)] else [];
    if r == row {
      assert hits[0].row == r;
    } else {
      LogicScanComplete(ws, row + 1, counter + |here|, r);
      var rest := LogicScan(ws, row + 1, counter + |here|);
      var i :| 0 <= i < |rest| && rest[i].row == r;
      assert hits == here + rest;
      assert hits[|here| + i].row == r;
    }
  }

  // ---------------------------------------------------------------------------
  // The field section
  // ---------------------------------------------------------------------------

  /** A field record: its row, its SEQ_K, and the logic rows scanned for it. */
  datatype FieldHit = FieldHit(row: int, seqK: int, logic: seq<LogicHit>)

  function FieldRows(hits: seq<FieldHit>): (rows: seq<int>)
    ensures |rows| == |hits| && forall i :: 0 <= i < |hits| ==> rows[i] == hits[i].row
  {
    seq(|hits|, i requires 0 <= i < |hits| => hits[i].row)
  }

  /** The inner loop after a marker row, from `row` on with SEQ_K at `counter`:
      the marker itself is skipped, another stop marker ends the scan, and a
      field row is stamped, followed by its logic scan starting at that same row. */
  function FieldScan(ws: Sheet, row: int, counter: int): seq<FieldHit>
    decreases ws.maxRow + 1 - row
  {
    if row > ws.maxRow then []
    else if LabelAt(ws, row) == Str(ItemMarker) then FieldScan(ws, row + 1, counter)
    else if IsStopValue(LabelAt(ws, row)) then []
    else if IsFieldRow(ws, row) then
      [FieldHit(row, counter, LogicScan(ws, row, 1))] + FieldScan(ws, row + 1, counter + 1)
    else FieldScan(ws, row + 1, counter)
  }

  /** The outer loop: every occurrence of the marker in column B from `row` on
      starts an inner scan, and SEQ_K continues across occurrences. */
  function SectionScan(ws: Sheet, row: int, counter: int): seq<FieldHit>
    decreases ws.maxRow + 1 - row
  {
    if row > ws.maxRow then []
    else if LabelAt(ws, row) == Str(ItemMarker) then
      var inner := FieldScan(ws, row + 1, counter);
      inner + SectionScan(ws, row + 1, counter + |inner|)
    else SectionScan(ws, row + 1, counter)
  }

  /** The fields of one sheet: the outer loop from row 1 with SEQ_K starting at 1. */
  function SheetFields(ws: Sheet): seq<FieldHit> {
    SectionScan(ws, 1, 1)
  }

  /** A well-stamped run of field records: SEQ_K consecutive from `counter`, and
      each record's logic rows scanned from its own row with SEQ_K_L from 1. */
  ghost predicate Stamped(ws: Sheet, hits: seq<FieldHit>, counter: int) {
    forall i :: 0 <= i < |hits| ==> hits[i].seqK == counter + i && hits[i].logic == LogicScan(ws, hits[i].row, 1)
  }

  lemma StampedAppend(ws: Sheet, a: seq<FieldHit>, b: seq<FieldHit>, counter: int)
    requires Stamped(ws, a, counter) && Stamped(ws, b, counter + |a|)
    ensures Stamped(ws, a + b, counter)
  {
    forall i | 0 <= i < |a + b|
      ensures (a + b)[i].seqK == counter + i && (a + b)[i].logic == LogicScan(ws, (a + b)[i].row, 1)
    {
      if i >= |a| {
        assert (a + b)[i] == b[i - |a|];
      }
    }
  }

  lemma {:induction false} FieldScanNumbering(ws: Sheet, row: int, counter: int)
    ensures Stamped(ws, FieldScan(ws, row, counter), counter)
    decreases ws.maxRow + 1 - row
  {
    if row <= ws.maxRow {
      if LabelAt(ws, row) == Str(ItemMarker) || (!IsStopValue(LabelAt(ws, row)) && !IsFieldRow(ws, row)) {
        FieldScanNumbering(ws, row + 1, counter);
      } else if !IsStopValue(LabelAt(ws, row)) {
        FieldScanNumbering(ws, row + 1, counter + 1);
        StampedAppend(ws, [FieldHit(row, counter, LogicScan(ws, row, 1))], FieldScan(ws, row + 1, counter + 1), counter);
      }
    }
  }

  /** SEQ_K is consecutive from 1 over the whole sheet, across every marker
      occurrence, and every field carries its own logic scan. */
  lemma {:induction false} SectionScanNumbering(ws: Sheet, row: int, counter: int)
    ensures Stamped(ws, SectionScan(ws, row, counter), counter)
    decreases ws.maxRow + 1 - row
  {
    if row <= ws.maxRow {
      if LabelAt(ws, row) == Str(ItemMarker) {
        var inner := FieldScan(ws, row + 1, counter);
        FieldScanNumbering(ws, row + 1, counter);
        SectionScanNumbering(ws, row + 1, counter + |inner|);
        StampedAppend(ws, inner, SectionScan(ws, row + 1, counter + |inner|), counter);
      } else {
        SectionScanNumbering(ws, row + 1, counter);
      }
    }
  }

  /** Every hit is a field row at or after `row`, with no ending stop marker from `row` up to it. */
  ghost predicate FieldHitsFrom(ws: Sheet, row: int, hits: seq<FieldHit>) {
    forall i :: 0 <= i < |hits| ==>
      && row <= hits[i].row <= ws.maxRow
      && IsFieldRow(ws, hits[i].row)
      && (forall k :: row <= k < hits[i].row ==> !EndsFieldScan(ws, k))
  }

  ghost predicate FieldRowsIncrease(hits: seq<FieldHit>) {
    forall i, j :: 0 <= i < j < |hits| ==> hits[i].row < hits[j].row
  }

  /** Every record of an inner scan is a field row after the start with no
      ending stop marker before it, in strictly increasing row order. */
  lemma {:induction false} FieldScanSound(ws: Sheet, row: int, counter: int)
    ensures FieldHitsFrom(ws, row, FieldScan(ws, row, counter))
    ensures FieldRowsIncrease(FieldScan(ws, row, counter))
    decreases ws.maxRow + 1 - row
  {
    if row <= ws.maxRow {
      if LabelAt(ws, row) == Str(ItemMarker) || (!IsStopValue(LabelAt(ws, row)) && !IsFieldRow(ws, row)) {
        FieldScanSound(ws, row + 1, counter);
        assert FieldScan(ws, row, counter) == FieldScan(ws, row + 1, counter);
      } else if !IsStopValue(LabelAt(ws, row)) {
        var rest := FieldScan(ws, row + 1, counter + 1);
        FieldScanSound(ws, row + 1, counter + 1);
        FieldHitsPrepend(ws, row, FieldHit(row, counter, LogicScan(ws, row, 1)), rest);
      }
    }
  }

  /** A record of the current field row put in front of the records below it. */
  lemma FieldHitsPrepend(ws: Sheet, row: int, hit: FieldHit, rest: seq<FieldHit>)
    requires row <= ws.maxRow && hit.row == row && IsFieldRow(ws, row)
    requires FieldHitsFrom(ws, row + 1, rest) && FieldRowsIncrease(rest)
    ensures FieldHitsFrom(ws, row, [hit] + rest) && FieldRowsIncrease([hit] + rest)
  {
    var hits := [hit] + rest;
    assert !EndsFieldScan(ws, row);
    assert forall i :: 1 <= i < |hits| ==> hits[i] == rest[i - 1];
  }

  /** Every field row after the start and before the first ending stop marker is
      a record of the inner scan. */
  lemma {:induction false} FieldScanComplete(ws: Sheet, row: int, counter: int, r: int)
    requires row <= r <= ws.maxRow && IsFieldRow(ws, r)
    requires forall k :: row <= k < r ==> !EndsFieldScan(ws, k)
    ensures r in FieldRows(FieldScan(ws, row, counter))
    decreases ws.maxRow + 1 - row
  {
    var hits := FieldScan(ws, row, counter);
    if r == row {
      assert hits[0].row == r;
    } else if LabelAt(ws, row) == Str(ItemMarker) || !IsFieldRow(ws, row) {
      assert !EndsFieldScan(ws, row);
      assert hits == FieldScan(ws, row + 1, counter);
      FieldScanComplete(ws, row + 1, counter, r);
    } else {
      FieldScanComplete(ws, row + 1, counter + 1, r);
      var rest := FieldScan(ws, row + 1, counter + 1);
      var i :| 0 <= i < |rest| && rest[i].row == r;
      assert hits[1 + i].row == r;
    }
  }

  /** Every hit is a field row reached from a marker occurrence at or after `row`
      without crossing an ending stop marker. */
  ghost predicate SectionHitsFrom(ws: Sheet, row: int, hits: seq<FieldHit>) {
    forall i :: 0 <= i < |hits| ==>
      && IsFieldRow(ws, hits[i].row) && hits[i].row <= ws.maxRow
      && exists m :: row <= m < hits[i].row && LabelAt(ws, m) == Str(ItemMarker)
                     && forall k :: m < k < hits[i].row ==> !EndsFieldScan(ws, k)
  }

  /** A section record comes from some marker occurrence above it: its row is a
      field row, reached from that marker without crossing an ending stop marker. */
  lemma {:induction false} SectionScanSound(ws: Sheet, row: int, counter: int)
    ensures SectionHitsFrom(ws, row, SectionScan(ws, row, counter))
    decreases ws.maxRow + 1 - row
  {
    if row <= ws.maxRow {
      if LabelAt(ws, row) == Str(ItemMarker) {
        var inner := FieldScan(ws, row + 1, counter);
        var rest := SectionScan(ws, row + 1, counter + |inner|);
        FieldScanSound(ws, row + 1, counter);
        SectionScanSound(ws, row + 1, counter + |inner|);
        var hits := SectionScan(ws, row, counter);
        assert hits == inner + rest;
        forall i | 0 <= i < |hits|
          ensures && IsFieldRow(ws, hits[i].row) && hits[i].row <= ws.maxRow
                  && exists m :: row <= m < hits[i].row && LabelAt(ws, m) == Str(ItemMarker)
                                 && forall k :: m < k < hits[i].row ==> !EndsFieldScan(ws, k)
        {
          if i < |inner| {
            assert hits[i] == inner[i];
            assert row < hits[i].row;
          } else {
            assert hits[i] == rest[i - |inner|];
            var m :| row + 1 <= m < hits[i].row && LabelAt(ws, m) == Str(ItemMarker)
                     && forall k :: m < k < hits[i].row ==> !EndsFieldScan(ws, k);
          }
        }
      } else {
        SectionScanSound(ws, row + 1, counter);
        assert SectionScan(ws, row, counter) == SectionScan(ws, row + 1, counter);
      }
    }
  }

  /** Every field row that follows a marker occurrence at or after the start,
      with no ending stop marker in between, is a record of the section. */
  lemma {:induction false} SectionScanComplete(ws: Sheet, row: int, counter: int, m: int, r: int)
    requires row <= m < r <= ws.maxRow && LabelAt(ws, m) == Str(ItemMarker) && IsFieldRow(ws, r)
    requires forall k :: m < k < r ==> !EndsFieldScan(ws, k)
    ensures r in FieldRows(SectionScan(ws, row, counter))
    decreases ws.maxRow + 1 - row
  {
    var hits := SectionScan(ws, row, counter);
    if LabelAt(ws, row) == Str(ItemMarker) {
      var inner := FieldScan(ws, row + 1, counter);
      var rest := SectionScan(ws, row + 1, counter + |inner|);
      assert hits == inner + rest;
      if m == row {
        FieldScanComplete(ws, row + 1, counter, r);
        var i :| 0 <= i < |inner| && inner[i].row == r;
        assert hits[i].row == r;
      } else {
        SectionScanComplete(ws, row + 1, counter + |inner|, m, r);
        var i :| 0 <= i < |rest| && rest[i].row == r;
        assert hits[|inner| + i].row == r;
      }
    } else {
      SectionScanComplete(ws, row + 1, counter, m, r);
    }
  }
  // ---------------------------------------------------------------------------
  // How often a row is recorded
  // ---------------------------------------------------------------------------

  /** No ending stop marker strictly between rows `m` and `r`. */
  ghost predicate NoEndBetween(ws: Sheet, m: int, r: int) {
    forall k :: m < k < r ==> !EndsFieldScan(ws, k)
  }

  /** The number of marker rows `m` with `from <= m < r` from which row `r` is
      reached without crossing an ending stop marker. */
  ghost function MarkersReaching(ws: Sheet, from: int, r: int): nat
    decreases r - from
  {
    if from >= r then 0
    else (if LabelAt(ws, from) == Str(ItemMarker) && NoEndBetween(ws, from, r) then 1 else 0)
         + MarkersReaching(ws, from + 1, r)
  }

  lemma FieldRowsAppend(a: seq<FieldHit>, b: seq<FieldHit>)
    ensures FieldRows(a + b) == FieldRows(a) + FieldRows(b)
  {
    assert forall i :: |a| <= i < |a + b| ==> (a + b)[i] == b[i - |a|];
  }

  /** Stepping past a row that is not an ending stop marker keeps the reach. */
  lemma NoEndShift(ws: Sheet, row: int, r: int)
    requires !EndsFieldScan(ws, row) && r != row
    ensures NoEndBetween(ws, row - 1, r) <==> NoEndBetween(ws, row, r)
  {
  }

  /** How often an inner scan started at `row` should record row `r`: once when
      `r` is a field row reached from the start without an ending stop marker. */
  ghost function InnerCount(ws: Sheet, row: int, r: int): nat {
    if IsFieldRow(ws, r) && row <= r <= ws.maxRow && NoEndBetween(ws, row - 1, r) then 1 else 0
  }

  /** An inner scan records a row at most once: exactly when it is a field row in
      the sheet reached from the start without crossing an ending stop marker. */
  lemma {:induction false} FieldScanCount(ws: Sheet, row: int, counter: int, r: int)
    ensures multiset(FieldRows(FieldScan(ws, row, counter)))[r] == InnerCount(ws, row, r)
    decreases ws.maxRow + 1 - row
  {
    if row <= ws.maxRow {
      var mark := LabelAt(ws, row);
      if mark == Str(ItemMarker) || (!IsStopValue(mark) && !IsFieldRow(ws, row)) {
        FieldScanCount(ws, row + 1, counter, r);
        FieldScanSkipStep(ws, row, counter, r);
      } else if !IsStopValue(mark) {
        FieldScanCount(ws, row + 1, counter + 1, r);
        FieldScanHitStep(ws, row, counter, r);
      } else {
        FieldScanStopStep(ws, row, counter, r);
      }
    }
  }

  lemma FieldScanSkipStep(ws: Sheet, row: int, counter: int, r: int)
    requires row <= ws.maxRow
    requires LabelAt(ws, row) == Str(ItemMarker) || (!IsStopValue(LabelAt(ws, row)) && !IsFieldRow(ws, row))
    requires multiset(FieldRows(FieldScan(ws, row + 1, counter)))[r] == InnerCount(ws, row + 1, r)
    ensures multiset(FieldRows(FieldScan(ws, row, counter)))[r] == InnerCount(ws, row, r)
  {
    assert FieldScan(ws, row, counter) == FieldScan(ws, row + 1, counter);
    if r != row { NoEndShift(ws, row, r); }
  }

  lemma FieldScanHitStep(ws: Sheet, row: int, counter: int, r: int)
    requires row <= ws.maxRow
    requires LabelAt(ws, row) != Str(ItemMarker) && !IsStopValue(LabelAt(ws, row)) && IsFieldRow(ws, row)
    requires multiset(FieldRows(FieldScan(ws, row + 1, counter + 1)))[r] == InnerCount(ws, row + 1, r)
    ensures multiset(FieldRows(FieldScan(ws, row, counter)))[r] == InnerCount(ws, row, r)
  {
    var hit := FieldHit(row, counter, LogicScan(ws, row, 1));
    var rest := FieldScan(ws, row + 1, counter + 1);
    assert FieldScan(ws, row, counter) == [hit] + rest;
    FieldRowsAppend([hit], rest);
    assert FieldRows([hit]) == [row];
    if r != row { NoEndShift(ws, row, r); }
  }

  lemma FieldScanStopStep(ws: Sheet, row: int, counter: int, r: int)
    requires row <= ws.maxRow
    requires LabelAt(ws, row) != Str(ItemMarker) && IsStopValue(LabelAt(ws, row))
    ensures multiset(FieldRows(FieldScan(ws, row, counter)))[r] == InnerCount(ws, row, r)
  {
    assert FieldScan(ws, row, counter) == [];
    assert r > row ==> !NoEndBetween(ws, row - 1, r) by {
      if r > row { assert EndsFieldScan(ws, row); }
    }
  }

  /** The outer loop records a row once for every marker occurrence above it from
      which it is reached without an ending stop marker: a field row below `n`
      such markers is recorded `n` times (`RepeatedMarkerRescans` shows n = 2). */
  lemma {:induction false} SectionScanCount(ws: Sheet, row: int, counter: int, r: int)
    ensures multiset(FieldRows(SectionScan(ws, row, counter)))[r]
            == if IsFieldRow(ws, r) && r <= ws.maxRow then MarkersReaching(ws, row, r) else 0
    decreases ws.maxRow + 1 - row
  {
    if row > ws.maxRow {
      assert r <= ws.maxRow ==> MarkersReaching(ws, row, r) == 0;
    } else if LabelAt(ws, row) == Str(ItemMarker) {
      var inner := FieldScan(ws, row + 1, counter);
      FieldScanCount(ws, row + 1, counter, r);
      SectionScanCount(ws, row + 1, counter + |inner|, r);
      SectionScanMarkerStep(ws, row, counter, r);
    } else {
      SectionScanCount(ws, row + 1, counter, r);
    }
  }

  lemma SectionScanMarkerStep(ws: Sheet, row: int, counter: int, r: int)
    requires row <= ws.maxRow && LabelAt(ws, row) == Str(ItemMarker)
    requires multiset(FieldRows(FieldScan(ws, row + 1, counter)))[r] == InnerCount(ws, row + 1, r)
    requires var n := |FieldScan(ws, row + 1, counter)|;
      multiset(FieldRows(SectionScan(ws, row + 1, counter + n)))[r]
      == if IsFieldRow(ws, r) && r <= ws.maxRow then MarkersReaching(ws, row + 1, r) else 0
    ensures multiset(FieldRows(SectionScan(ws, row, counter)))[r]
            == if IsFieldRow(ws, r) && r <= ws.maxRow then MarkersReaching(ws, row, r) else 0
  {
    var inner := FieldScan(ws, row + 1, counter);
    var rest := SectionScan(ws, row + 1, counter + |inner|);
    assert SectionScan(ws, row, counter) == inner + rest;
    FieldRowsAppend(inner, rest);
  }

  /** Over the whole sheet: each field row is recorded once per marker row above
      it from which it is reached without an ending stop marker, and no other row
      is recorded. */
  lemma SheetFieldsCount(ws: Sheet, r: int)
    ensures multiset(FieldRows(SheetFields(ws)))[r]
            == if IsFieldRow(ws, r) && r <= ws.maxRow then MarkersReaching(ws, 1, r) else 0
  {
    SectionScanCount(ws, 1, 1, r);
  }

  /** The outer loop rescans below every marker occurrence, so a field under two
      consecutive markers is recorded twice, first with SEQ_K 1 and then with 2. */
  lemma RepeatedMarkerRescans()
    ensures var ws := Sheet(map[(1, ColumnB) := Str(ItemMarker), (2, ColumnB) := Str(ItemMarker), (3, ColumnB) := Str("名前")],
                            [MergedRange(3, 3, ColumnB, ColumnC)], 3);
      && FieldRows(SheetFields(ws)) == [3, 3]
      && SheetFields(ws)[0].seqK == 1 && SheetFields(ws)[1].seqK == 2
  {
    var ws := Sheet(map[(1, ColumnB) := Str(ItemMarker), (2, ColumnB) := Str(ItemMarker), (3, ColumnB) := Str("名前")],
                    [MergedRange(3, 3, ColumnB, ColumnC)], 3);
    assert LabelAt(ws, 1) == Str(ItemMarker) && LabelAt(ws, 2) == Str(ItemMarker);
    assert LabelAt(ws, 3) == Str("名前") && !IsStopValue(LabelAt(ws, 3));
    assert Contains(ws.merged[0], 3, ColumnB) && Contains(ws.merged[0], 3, ColumnC);
    assert IsFieldRow(ws, 3);
    var hit1 := FieldHit(3, 1, LogicScan(ws, 3, 1));
    var hit2 := FieldHit(3, 2, LogicScan(ws, 3, 1));
    assert FieldScan(ws, 3, 1) == [hit1];
    assert FieldScan(ws, 3, 2) == [hit2];
    assert FieldScan(ws, 2, 1) == [hit1];
    assert SectionScan(ws, 3, 3) == [];
    assert SectionScan(ws, 2, 2) == [hit2];
    assert SheetFields(ws) == [hit1, hit2];
  }

  /** A logic row (a range from B to at least BN) also merges B with C, so when
      its B holds a field label it is a field row as well. */
  lemma LogicRowIsFieldRow(ws: Sheet, row: int)
    requires IsLogicRow(ws, row)
    requires LabelAt(ws, row) != Str(ItemMarker) && !IsStopValue(LabelAt(ws, row))
    requires IsFieldLabel(LabelAt(ws, row))
    ensures IsFieldRow(ws, row)
  {
    var i :| 0 <= i < |ws.merged| && Contains(ws.merged[i], row, ColumnB)
             && ws.merged[i].minCol == ColumnB && ws.merged[i].maxCol >= ColumnBN;
    assert Contains(ws.merged[i], row, ColumnC);
  }

  /** A field row followed by a texted logic row: the logic row is recorded as a
      field of its own and also stamped in the logic scan of the field above. */
  lemma LogicRowAlsoField()
    ensures var ws := Sheet(map[(1, ColumnB) := Str(ItemMarker), (2, ColumnB) := Str("名前"), (3, ColumnB) := Str("処理")],
                            [MergedRange(2, 2, ColumnB, ColumnC), MergedRange(3, 3, ColumnB, ColumnBN)], 3);
      && FieldRows(SheetFields(ws)) == [2, 3]
      && SheetFields(ws)[0].logic == [LogicHit(3, 1)]
  {
    var ws := Sheet(map[(1, ColumnB) := Str(ItemMarker), (2, ColumnB) := Str("名前"), (3, ColumnB) := Str("処理")],
                    [MergedRange(2, 2, ColumnB, ColumnC), MergedRange(3, 3, ColumnB, ColumnBN)], 3);
    assert LabelAt(ws, 1) == Str(ItemMarker);
    assert LabelAt(ws, 2) == Str("名前") && !IsStopValue(LabelAt(ws, 2));
    assert LabelAt(ws, 3) == Str("処理") && !IsStopValue(LabelAt(ws, 3));
    assert Contains(ws.merged[0], 2, ColumnB) && Contains(ws.merged[0], 2, ColumnC);
    assert IsFieldRow(ws, 2);
    assert !IsLogicRow(ws, 2);
    assert Contains(ws.merged[1], 3, ColumnB);
    assert IsLogicRow(ws, 3);
    LogicRowIsFieldRow(ws, 3);
    assert LogicScan(ws, 3, 1) == [LogicHit(3, 1)];
    assert LogicScan(ws, 2, 1) == [LogicHit(3, 1)];
    var hit2 := FieldHit(2, 1, [LogicHit(3, 1)]);
    var hit3 := FieldHit(3, 2, [LogicHit(3, 1)]);
    assert FieldScan(ws, 3, 2) == [hit3];
    assert FieldScan(ws, 2, 1) == [hit2, hit3];
    assert SectionScan(ws, 3, 3) == [];
    assert SectionScan(ws, 2, 3) == [];
    assert SheetFields(ws) == [hit2, hit3];
  }
}
