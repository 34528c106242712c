/**
  The column value resolvers of app.py: `process_column_value` (project and
  screen rows) and `process_column_value_koumoku` (field and field-logic rows).

  A column rule's VALUE directive selects the rendering. Each contract says what
  the written SQL literal decodes to: a counter numeral that reads back as the
  counter, a quoted text that reads back as the directive or the cell text, a
  mapped category code, or the empty literal `''`. Neither resolver escapes
  quotes (see `Literals.UnescapedQuoteEndsLiteral`).
 */
module Resolver {
  import opened Outcomes
  import opened Text
  import opened Decimal
  import opened Sheets
  import opened Literals

  /** One entry of the column-rule table (a missing key reads as ""). */
  datatype ColumnRule = ColumnRule(columnName: string, value: string, cellFix: string, dataType: string)

  /** `col_info.get('DATA_TYPE', '').lower() == 'nvarchar'`. No character outside
      ASCII lower-cases to one of these letters, so ASCII lower-casing decides it. */
  predicate IsNvarchar(dataType: string) {
    AsciiLower(dataType) == "nvarchar"
  }

  /** MAPPING_VALUE_DICT: the five document categories found in cell B2. */
  const CategoryCodes: map<string, string> := map[
    "項目定義書_帳票" := "1",
    "項目定義書_画面" := "2",
    "項目定義書_CSV" := "3",
    "項目定義書_IPO図" := "4",
    "項目定義書_ﾒﾆｭｰ" := "5"
  ]

  /** KOUMOKU_TYPE_MAPPING: the three field-type labels. */
  const ItemTypeCodes: map<string, string> := map[
    "ラベル" := "1",
    "チェックボックス" := "2",
    "処理" := "3"
  ]

  /** The category texts in code order: the k-th text (from 1) is written as code k. */
  const CategoryTexts: seq<string> :=
    ["項目定義書_帳票", "項目定義書_画面", "項目定義書_CSV", "項目定義書_IPO図", "項目定義書_ﾒﾆｭｰ"]

  /** The field-type labels in code order. */
  const ItemTypeTexts: seq<string> := ["ラベル", "チェックボックス", "処理"]

  /** The single digit `'1'`, `'2'`, ... naming position `i` (from 0) of a text list. */
  function CodeDigit(i: nat): string
    requires i < 9
  {
    [('1' as int + i) as char]
  }

  /** `table` numbers exactly the texts of `texts`, in list order, from 1. */
  ghost predicate CodedInOrder(table: map<string, string>, texts: seq<string>) {
    && |texts| <= 9
    && (forall t :: t in table <==> t in texts)
    && (forall i :: 0 <= i < |texts| ==> texts[i] in table && table[texts[i]] == CodeDigit(i))
  }

  /** MAPPING_VALUE_DICT numbers the five categories 1 to 5, and KOUMOKU_TYPE_MAPPING
      the three field types 1 to 3, in the order they are listed. */
  lemma CodeTablesInOrder()
    ensures CodedInOrder(CategoryCodes, CategoryTexts)
    ensures CodedInOrder(ItemTypeCodes, ItemTypeTexts)
  {
    CategoryCodesInOrder();
  }

  lemma CategoryCodesInOrder()
    ensures CodedInOrder(CategoryCodes, CategoryTexts)
  {
  }

  /** `table.get(value, "''")`: only text keys can match. */
  function MapLookup(table: map<string, string>, v: CellValue): string {
    if v.Str? && v.text in table then table[v.text] else EmptyLiteral
  }

  /** `str(counter) if counter is not None else "''"`: a bare canonical numeral
      that reads back as the counter (and so is `str(counter)` by
      `CanonicalNumeralUnique`), or the empty literal when there is no counter. */
  function CounterLiteral(counter: Option<int>): (r: string)
    ensures counter.Some? ==> IsCanonicalNumeral(r) && ParseInt(r) == Some(counter.value) && Decode(r) == Token(r)
    ensures counter.None? ==> r == EmptyLiteral
  {
    match counter
    case Some(n) =>
      IntToStringRoundTrip(n);
      IntToString(n)
    case None => EmptyLiteral
  }

  /** The `try` block of the direct-read branch: a reference that is not a single
      cell raises inside the `try` and gives `''`; otherwise the merged-aware value
      of the referenced cell is rendered by its type. */
  function DirectRead(ws: Sheet, ref: string, nvarchar: bool): string {
    match ParseRef(ref)
    case None => EmptyLiteral
    case Some(p) => FormatCell(ValueWithMerged(ws, p.0, p.1), nvarchar)
  }

  /** What a direct read writes: `''` for a bad reference or an empty cell,
      otherwise a literal that decodes to the referenced cell's value (the
      anchor's value inside a merged range), typed as the cell is. */
  lemma DirectReadSpec(ws: Sheet, ref: string, nvarchar: bool)
    ensures ParseRef(ref).None? ==> DirectRead(ws, ref, nvarchar) == EmptyLiteral
    ensures forall row, col :: ParseRef(ref) == Some((row, col)) ==>
      var v := ValueWithMerged(ws, row, col);
      var r := DirectRead(ws, ref, nvarchar);
      && (v.NoValue? ==> r == EmptyLiteral)
      && (v.Str? ==> Decode(r) == if nvarchar then National(v.text) else Plain(v.text))
      && (v.Int? ==> IsCanonicalNumeral(r) && ParseInt(r) == Some(v.number) && Decode(r) == Token(r))
      && (v.Stamp? ==> Decode(r).Plain? && ParseDateTime(Decode(r).text) == Some(v.at))
  {
    match ParseRef(ref)
    case None =>
    case Some(p) => FormatCellSpec(ValueWithMerged(ws, p.0, p.1), nvarchar);
  }

  /** The MAPPING directive on a non-empty reference: the referenced cell's text
      looked up in `table`, read outside any `try`, so a reference that is not a
      single cell raises. */
  function MappedCell(table: map<string, string>, ws: Sheet, ref: string): Res<string> {
    match ParseRef(ref)
    case None => Fail(BadCellReference(ref))
    case Some(p) => Ok(MapLookup(table, Raw(ws, p.0, p.1)))
  }

  /** What a MAPPING read writes, for a table that numbers a text list in order
      (both tables of app.py do, by `CodeTablesInOrder`): it fails exactly for a
      reference that is not a single cell. Otherwise the code is non-empty iff the
      referenced cell itself stores one of the listed texts, and then it is the
      single digit of that text's place in the list, so the written code names the
      text. The cell is read raw: a merged cell other than its range's anchor stores
      nothing and gives `''` (see `MappingReadsRawCell`). */
  lemma MappedCellSpec(table: map<string, string>, texts: seq<string>, ws: Sheet, ref: string)
    requires CodedInOrder(table, texts)
    ensures MappedCell(table, ws, ref).Fail? <==> ParseRef(ref).None?
    ensures MappedCell(table, ws, ref).Fail? ==> MappedCell(table, ws, ref).failure == BadCellReference(ref)
    ensures forall row, col :: ParseRef(ref) == Some((row, col)) ==>
      var v := Raw(ws, row, col);
      var r := MappedCell(table, ws, ref);
      && r.Ok?
      && (r.value != EmptyLiteral <==> v.Str? && v.text in texts)
      && (r.value != EmptyLiteral ==> exists i :: 0 <= i < |texts| && texts[i] == v.text && r.value == CodeDigit(i))
      && (v.NoValue? ==> r.value == EmptyLiteral)
  {
    match ParseRef(ref)
    case None =>
    case Some(p) =>
      var v := Raw(ws, p.0, p.1);
      if v.Str? && v.text in texts {
        var i :| 0 <= i < |texts| && texts[i] == v.text;
        assert table[v.text] == CodeDigit(i);
      }
  }

  /** Unlike a direct read, MAPPING does not fill merged cells: with B2:C2 merged
      and B2 holding the screen category, `C2` maps to `''` although its
      merged-aware value is that category. */
  lemma MappingReadsRawCell()
    ensures var ws := Sheet(map[(2, 2) := Str("項目定義書_画面")], [MergedRange(2, 2, 2, 3)], 2);
      && ValueWithMerged(ws, 2, 3) == Str("項目定義書_画面")
      && MappedCell(CategoryCodes, ws, "C2") == Ok(EmptyLiteral)
  {
    var ws := Sheet(map[(2, 2) := Str("項目定義書_画面")], [MergedRange(2, 2, 2, 3)], 2);
    assert ParseRef("C2") == Some((2, 3)) by {
      ColumnLettersWithRow("C", 2);
      assert IntToString(2) == "2";
    }
    assert Contains(ws.merged[0], 2, 3);
  }

  /** The VALUE directives are distinct texts; stated once so that the resolver
      proofs need not compare the literals character by character. */
  lemma DirectivesDistinct()
    ensures "NULL" != "BLANK"
    ensures "SYSTEMID" != "BLANK" && "SYSTEMID" != "NULL"
    ensures "T_KIHON_PJ.SYSTEM_ID" != "BLANK" && "T_KIHON_PJ.SYSTEM_ID" != "NULL" && "T_KIHON_PJ.SYSTEM_ID" != "SYSTEMID"
    ensures "AUTO_ID" != "BLANK" && "AUTO_ID" != "NULL" && "AUTO_ID" != "SYSTEMID" && "AUTO_ID" != "T_KIHON_PJ.SYSTEM_ID"
    ensures "SYSTEM DATE" != "BLANK" && "SYSTEM DATE" != "NULL" && "SYSTEM DATE" != "SYSTEMID" && "SYSTEM DATE" != "T_KIHON_PJ.SYSTEM_ID" && "SYSTEM DATE" != "AUTO_ID"
    ensures "AUTO_TIME" != "BLANK" && "AUTO_TIME" != "NULL" && "AUTO_TIME" != "SYSTEMID" && "AUTO_TIME" != "T_KIHON_PJ.SYSTEM_ID" && "AUTO_TIME" != "AUTO_ID" && "AUTO_TIME" != "SYSTEM DATE"
    ensures "MAPPING" != "BLANK" && "MAPPING" != "NULL" && "MAPPING" != "SYSTEMID" && "MAPPING" != "T_KIHON_PJ.SYSTEM_ID" && "MAPPING" != "AUTO_ID" && "MAPPING" != "SYSTEM DATE" && "MAPPING" != "AUTO_TIME"
    ensures "" != "BLANK" && "" != "NULL" && "" != "SYSTEMID" && "" != "T_KIHON_PJ.SYSTEM_ID" && "" != "AUTO_ID" && "" != "SYSTEM DATE" && "" != "AUTO_TIME" && "" != "MAPPING"
    ensures "T_KIHON_PJ_GAMEN.SEQ" != "BLANK" && "T_KIHON_PJ_GAMEN.SEQ" != "NULL" && "T_KIHON_PJ_GAMEN.SEQ" != "SYSTEMID" && "T_KIHON_PJ_GAMEN.SEQ" != "T_KIHON_PJ.SYSTEM_ID" && "T_KIHON_PJ_GAMEN.SEQ" != "AUTO_ID" && "T_KIHON_PJ_GAMEN.SEQ" != "SYSTEM DATE" && "T_KIHON_PJ_GAMEN.SEQ" != "AUTO_TIME" && "T_KIHON_PJ_GAMEN.SEQ" != "MAPPING" && "T_KIHON_PJ_GAMEN.SEQ" != ""
    ensures "T_KIHON_PJ_KOUMOKU.SEQ_K" != "BLANK" && "T_KIHON_PJ_KOUMOKU.SEQ_K" != "NULL" && "T_KIHON_PJ_KOUMOKU.SEQ_K" != "SYSTEMID" && "T_KIHON_PJ_KOUMOKU.SEQ_K" != "T_KIHON_PJ.SYSTEM_ID" && "T_KIHON_PJ_KOUMOKU.SEQ_K" != "AUTO_ID" && "T_KIHON_PJ_KOUMOKU.SEQ_K" != "SYSTEM DATE" && "T_KIHON_PJ_KOUMOKU.SEQ_K" != "AUTO_TIME" && "T_KIHON_PJ_KOUMOKU.SEQ_K" != "MAPPING" && "T_KIHON_PJ_KOUMOKU.SEQ_K" != "" && "T_KIHON_PJ_KOUMOKU.SEQ_K" != "T_KIHON_PJ_GAMEN.SEQ"
  {
  }

  /** The directives `process_column_value` recognises before its quoted fallback. */
  predicate IsScreenDirective(rule: ColumnRule) {
    || rule.value in {"BLANK", "NULL", "SYSTEMID", "T_KIHON_PJ.SYSTEM_ID", "SYSTEM DATE", "AUTO_TIME", "MAPPING", ""}
    || (rule.value == "AUTO_ID" && rule.columnName in {"SEQ", "JYUN"})
  }

  /** `process_column_value` (app.py:123-176). `screenSeq` and `jyun` are the screen
      counters, absent for the project row. Only MAPPING reads its cell outside a
      `try`, so only a MAPPING rule whose CELL_FIX is not a single cell fails. */
  function ResolveColumn(rule: ColumnRule, ws: Sheet, ctx: RunContext, screenSeq: Option<int>, jyun: Option<int>)
    : Res<string>
  {
    var v := rule.value;
    var fix := Strip(rule.cellFix);
    var nvarchar := IsNvarchar(rule.dataType);
    if v == "BLANK" then Ok(EmptyLiteral)
    else if v == "NULL" then Ok("NULL")
    else if v == "SYSTEMID" then Ok(Quote(ctx.systemId))
    else if v == "T_KIHON_PJ.SYSTEM_ID" then Ok(Quote(ctx.systemId))
    else if v == "AUTO_ID" && rule.columnName == "SEQ" then Ok(CounterLiteral(screenSeq))
    else if v == "AUTO_ID" && rule.columnName == "JYUN" then Ok(CounterLiteral(jyun))
    else if v == "SYSTEM DATE" || v == "AUTO_TIME" then Ok(Quote(ctx.systemDate))
    else if v == "MAPPING" then
      if fix == "" then Ok(EmptyLiteral) else MappedCell(CategoryCodes, ws, fix)
    else if v == "" then
      if fix == "" then Ok(EmptyLiteral) else Ok(DirectRead(ws, fix, nvarchar))
    else
      Ok(QuoteFor(v, nvarchar))
  }

  /** The value `process_column_value` writes for each kind of rule, and when it
      raises. */
  lemma ResolveColumnSpec(rule: ColumnRule, ws: Sheet, ctx: RunContext, screenSeq: Option<int>, jyun: Option<int>)
    ensures var r := ResolveColumn(rule, ws, ctx, screenSeq, jyun);
      && (r.Fail? <==> rule.value == "MAPPING" && Strip(rule.cellFix) != "" && ParseRef(Strip(rule.cellFix)).None?)
      && (rule.value == "BLANK" ==> r == Ok(EmptyLiteral))
      && (rule.value == "NULL" ==> r == Ok("NULL"))
      && (rule.value in {"SYSTEMID", "T_KIHON_PJ.SYSTEM_ID"} ==> r.Ok? && Decode(r.value) == Plain(ctx.systemId))
      && (rule.value in {"SYSTEM DATE", "AUTO_TIME"} ==> r.Ok? && Decode(r.value) == Plain(ctx.systemDate))
      && (rule.value == "AUTO_ID" && rule.columnName == "SEQ" ==> r == Ok(CounterLiteral(screenSeq)))
      && (rule.value == "AUTO_ID" && rule.columnName == "JYUN" ==> r == Ok(CounterLiteral(jyun)))
      && (rule.value == "MAPPING" ==>
            r == if Strip(rule.cellFix) == "" then Ok(EmptyLiteral) else MappedCell(CategoryCodes, ws, Strip(rule.cellFix)))
      && (rule.value == "" ==>
            r == Ok(if Strip(rule.cellFix) == "" then EmptyLiteral else DirectRead(ws, Strip(rule.cellFix), IsNvarchar(rule.dataType))))
      && (!IsScreenDirective(rule) ==>
            r.Ok? && Decode(r.value) == if IsNvarchar(rule.dataType) then National(rule.value) else Plain(rule.value))
  {
    DirectivesDistinct();
    ResolveColumnQuoted(rule, ws, ctx, screenSeq, jyun);
    ResolveColumnDirect(rule, ws, ctx, screenSeq, jyun);
  }

  /** The direct-read branch of `ResolveColumn` (an empty VALUE). */
  lemma ResolveColumnDirect(rule: ColumnRule, ws: Sheet, ctx: RunContext, screenSeq: Option<int>, jyun: Option<int>)
    ensures rule.value == "" ==>
      ResolveColumn(rule, ws, ctx, screenSeq, jyun)
      == Ok(if Strip(rule.cellFix) == "" then EmptyLiteral else DirectRead(ws, Strip(rule.cellFix), IsNvarchar(rule.dataType)))
  {
  }

  /** The branches of `ResolveColumn` that quote a text: the system id, the
      system date and the fallback. */
  lemma ResolveColumnQuoted(rule: ColumnRule, ws: Sheet, ctx: RunContext, screenSeq: Option<int>, jyun: Option<int>)
    ensures var r := ResolveColumn(rule, ws, ctx, screenSeq, jyun);
      && (rule.value in {"SYSTEMID", "T_KIHON_PJ.SYSTEM_ID"} ==> r.Ok? && Decode(r.value) == Plain(ctx.systemId))
      && (rule.value in {"SYSTEM DATE", "AUTO_TIME"} ==> r.Ok? && Decode(r.value) == Plain(ctx.systemDate))
      && (!IsScreenDirective(rule) ==>
            r.Ok? && Decode(r.value) == if IsNvarchar(rule.dataType) then National(rule.value) else Plain(rule.value))
  {
    var r := ResolveColumn(rule, ws, ctx, screenSeq, jyun);
    if rule.value in {"SYSTEMID", "T_KIHON_PJ.SYSTEM_ID"} {
      assert r == Ok(QuoteFor(ctx.systemId, false));
      DecodeQuoteFor(ctx.systemId, false);
    } else if rule.value in {"SYSTEM DATE", "AUTO_TIME"} {
      assert r == Ok(QuoteFor(ctx.systemDate, false));
      DecodeQuoteFor(ctx.systemDate, false);
    } else if !IsScreenDirective(rule) {
      assert r == Ok(QuoteFor(rule.value, IsNvarchar(rule.dataType)));
      DecodeQuoteFor(rule.value, IsNvarchar(rule.dataType));
    }
  }

  /** The reference the field resolver reads: CELL_FIX followed by the row number. */
  function RowRef(rule: ColumnRule, row: int): string {
    Strip(rule.cellFix) + IntToString(row)
  }

  /** The directives `process_column_value_koumoku` handles itself; everything
      else is passed to `ResolveColumn` without screen counters. */
  predicate IsFieldDirective(rule: ColumnRule) {
    || rule.value in {"MAPPING", "", "T_KIHON_PJ_GAMEN.SEQ", "T_KIHON_PJ_KOUMOKU.SEQ_K"}
    || (rule.value == "AUTO_ID" && rule.columnName in {"SEQ_K", "ROW_NO", "SEQ_K_L"})
  }

  /** `process_column_value_koumoku` (app.py:68-120): the field and field-logic
      resolver. `sheetSeq` is the screen's SEQ, `seqK` the field's SEQ_K and
      `seqKL` the logic row's SEQ_K_L (absent for the field row itself). Cell
      references are CELL_FIX with the current row appended. */
  function ResolveField(rule: ColumnRule, ws: Sheet, row: int, ctx: RunContext,
                        sheetSeq: Option<int>, seqK: Option<int>, seqKL: Option<int>): Res<string>
  {
    var v := rule.value;
    var fix := Strip(rule.cellFix);
    var name := rule.columnName;
    if v == "AUTO_ID" && name == "SEQ_K" then Ok(CounterLiteral(seqK))
    else if v == "AUTO_ID" && name == "ROW_NO" then Ok(CounterLiteral(seqK))
    else if v == "AUTO_ID" && name == "SEQ_K_L" then Ok(CounterLiteral(seqKL))
    else if v == "MAPPING" then
      if fix != "" then MappedCell(ItemTypeCodes, ws, RowRef(rule, row)) else Ok(EmptyLiteral)
    else if v == "" then
      if fix != "" then Ok(DirectRead(ws, RowRef(rule, row), IsNvarchar(rule.dataType))) else Ok(EmptyLiteral)
    else if v == "T_KIHON_PJ_GAMEN.SEQ" then Ok(CounterLiteral(sheetSeq))
    else if v == "T_KIHON_PJ_KOUMOKU.SEQ_K" then Ok(CounterLiteral(seqK))
    else ResolveColumn(rule, ws, ctx, None, None)
  }

  /** The value `process_column_value_koumoku` writes for each kind of rule, and
      when it raises. */
  lemma ResolveFieldSpec(rule: ColumnRule, ws: Sheet, row: int, ctx: RunContext,
                         sheetSeq: Option<int>, seqK: Option<int>, seqKL: Option<int>)
    ensures var r := ResolveField(rule, ws, row, ctx, sheetSeq, seqK, seqKL);
      && (r.Fail? <==> rule.value == "MAPPING" && Strip(rule.cellFix) != "" && ParseRef(RowRef(rule, row)).None?)
      && (rule.value == "AUTO_ID" && rule.columnName in {"SEQ_K", "ROW_NO"} ==> r == Ok(CounterLiteral(seqK)))
      && (rule.value == "AUTO_ID" && rule.columnName == "SEQ_K_L" ==> r == Ok(CounterLiteral(seqKL)))
      && (rule.value == "T_KIHON_PJ_GAMEN.SEQ" ==> r == Ok(CounterLiteral(sheetSeq)))
      && (rule.value == "T_KIHON_PJ_KOUMOKU.SEQ_K" ==> r == Ok(CounterLiteral(seqK)))
      && (rule.value == "MAPPING" ==>
            r == if Strip(rule.cellFix) == "" then Ok(EmptyLiteral) else MappedCell(ItemTypeCodes, ws, RowRef(rule, row)))
      && (rule.value == "" ==>
            r == Ok(if Strip(rule.cellFix) == "" then EmptyLiteral else DirectRead(ws, RowRef(rule, row), IsNvarchar(rule.dataType))))
      && (!IsFieldDirective(rule) ==> r == ResolveColumn(rule, ws, ctx, None, None) && r.Ok?)
  {
    ResolveColumnSpec(rule, ws, ctx, None, None);
  }

  /** Which resolver a row is rendered with, and the counters it is given. */
  datatype RowKind =
    | ProjectRow                                               // no counters
    | ScreenRow(sheetSeq: int)                                 // SEQ and JYUN
    | FieldRow(row: int, sheetSeq: int, seqK: int)             // no SEQ_K_L
    | LogicRow(row: int, sheetSeq: int, seqK: int, seqKL: int)

  function Resolve(rule: ColumnRule, ws: Sheet, ctx: RunContext, kind: RowKind): Res<string> {
    match kind
    case ProjectRow => ResolveColumn(rule, ws, ctx, None, None)
    case ScreenRow(s) => ResolveColumn(rule, ws, ctx, Some(s), Some(s))
    case FieldRow(row, s, k) => ResolveField(rule, ws, row, ctx, Some(s), Some(k), None)
    case LogicRow(row, s, k, l) => ResolveField(rule, ws, row, ctx, Some(s), Some(k), Some(l))
  }

  function ColumnNames(rules: seq<ColumnRule>): (r: seq<string>)
    ensures |r| == |rules| && forall i :: 0 <= i < |rules| ==> r[i] == rules[i].columnName
  {
    seq(|rules|, i requires 0 <= i < |rules| => rules[i].columnName)
  }

  /** The resolution of every rule of a row, in rule order. */
  function Attempts(rules: seq<ColumnRule>, ws: Sheet, ctx: RunContext, kind: RowKind): (r: seq<Res<string>>)
    ensures |r| == |rules|
  {
    seq(|rules|, i requires 0 <= i < |rules| => Resolve(rules[i], ws, ctx, kind))
  }
}
