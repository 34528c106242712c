/**
  The run of app.py: `process_all_tables_in_sequence` (lines 268-340) with the
  per-sheet field pass `process_koumoku_data_for_single_sheet` (lines 342-425)
  and the logic pass `process_koumoku_logic_for_seq_k` (lines 428-468), and the
  screen-only twin in `generate_insert_statements_from_excel` (lines 180-222).

  A run is first planned as the list of INSERT statements it attempts, in the
  order the Python code attempts them; each planned statement names its table,
  its column rules, its sheet and the counters its resolver is given. Rendering
  the plan yields the first failure among the statements, or all of them.
  Statements do not depend on each other's results, so rendering the plan fails
  exactly where the Python run raises.
 */
module Pipeline {
  import opened Outcomes
  import opened Sequences
  import opened Decimal
  import opened Sheets
  import opened Literals
  import opened Resolver
  import opened Emitter
  import opened Scanner

  const ProjectTable := "T_KIHON_PJ"
  const ScreenTable := "T_KIHON_PJ_GAMEN"
  const FieldTable := "T_KIHON_PJ_KOUMOKU"
  const LogicTable := "T_KIHON_PJ_KOUMOKU_LOGIC"

  /** The project row is read from the third sheet, and screens start there too. */
  const ProjectSheet := 2
  const FirstScreenSheet := 2

  datatype Workbook = Workbook(sheets: seq<Sheet>)

  /** The column-rule table: table name to its rules. */
  type TableInfo = map<string, seq<ColumnRule>>

  /** `table_info.get(table, [])`. */
  function RulesOf(info: TableInfo, table: string): seq<ColumnRule> {
    if table in info then info[table] else []
  }

  /** A sheet describes a screen when its raw B2 is one of the five category names. */
  predicate IsScreenSheet(ws: Sheet) {
    Raw(ws, 2, 2).Str? && Raw(ws, 2, 2).text in CategoryCodes
  }

  // ---------------------------------------------------------------------------
  // Planned statements and their rendering
  // ---------------------------------------------------------------------------

  /** An INSERT the run attempts. `listBuilt` marks the project row, whose names
      and values are kept in two lists rather than a dict. */
  datatype Statement = Insert(table: string, rules: seq<ColumnRule>, sheet: Sheet, kind: RowKind, listBuilt: bool)

  function Render(st: Statement, ctx: RunContext): Res<string> {
    var names := ColumnNames(st.rules);
    var attempts := Attempts(st.rules, st.sheet, ctx, st.kind);
    if st.listBuilt then ListInsert(st.table, names, attempts) else DictInsert(st.table, names, attempts)
  }

  /** Rendering under one run context, as a computation on statements. */
  function Renderer(ctx: RunContext): Statement -> Res<string> {
    st => Render(st, ctx)
  }

  /** The rendering of every statement, in order. */
  function RenderAll(sts: seq<Statement>, ctx: RunContext): seq<Res<string>> {
    AttemptEach(Renderer(ctx), sts)
  }

  /** Every screen row numbers both SEQ and JYUN with the screen's number. */
  lemma ScreenCounters(ws: Sheet, ctx: RunContext, sheetSeq: int, rule: ColumnRule)
    requires rule.value == "AUTO_ID" && rule.columnName in {"SEQ", "JYUN"}
    ensures Resolve(rule, ws, ctx, ScreenRow(sheetSeq)) == Ok(IntToString(sheetSeq))
  {
  }

  // ---------------------------------------------------------------------------
  // The statements of one sheet
  // ---------------------------------------------------------------------------

  function FieldStatement(ws: Sheet, info: TableInfo, sheetSeq: int, f: FieldHit): Statement {
    Insert(FieldTable, RulesOf(info, FieldTable), ws, FieldRow(f.row, sheetSeq, f.seqK), false)
  }

  function LogicStatement(ws: Sheet, info: TableInfo, sheetSeq: int, seqK: int, l: LogicHit): Statement {
    Insert(LogicTable, RulesOf(info, LogicTable), ws, LogicRow(l.row, sheetSeq, seqK, l.seqKL), false)
  }

  /** A field's statement followed by the statements of its logic rows. */
  function FieldGroup(ws: Sheet, info: TableInfo, sheetSeq: int, f: FieldHit): seq<Statement>
  {
    [FieldStatement(ws, info, sheetSeq, f)]
    + seq(|f.logic|, j requires 0 <= j < |f.logic| => LogicStatement(ws, info, sheetSeq, f.seqK, f.logic[j]))
  }

  function FieldGroups(ws: Sheet, info: TableInfo, sheetSeq: int): seq<seq<Statement>>
  {
    var fields := SheetFields(ws);
    seq(|fields|, i requires 0 <= i < |fields| => FieldGroup(ws, info, sheetSeq, fields[i]))
  }

  /** `process_koumoku_data_for_single_sheet`: the statements of every field of
      the sheet in scan order, each followed by those of its logic rows. */
  function SheetStatements(ws: Sheet, info: TableInfo, sheetSeq: int): seq<Statement> {
    Flatten(FieldGroups(ws, info, sheetSeq))
  }

  /** The k-th field of a sheet is stamped SEQ_K = k + 1 (ROW_NO alike), and the
      j-th logic row under it SEQ_K_L = j + 1, however many marker occurrences
      the sheet has. */
  lemma SheetCounters(ws: Sheet, info: TableInfo, sheetSeq: int, k: nat, rule: ColumnRule, ctx: RunContext)
    requires k < |SheetFields(ws)|
    ensures rule.value == "AUTO_ID" && rule.columnName in {"SEQ_K", "ROW_NO"} ==>
      Resolve(rule, ws, ctx, FieldStatement(ws, info, sheetSeq, SheetFields(ws)[k]).kind) == Ok(IntToString(k + 1))
    ensures forall j :: 0 <= j < |SheetFields(ws)[k].logic| && rule.value == "AUTO_ID" && rule.columnName == "SEQ_K_L" ==>
      var l := SheetFields(ws)[k].logic[j];
      Resolve(rule, ws, ctx, LogicStatement(ws, info, sheetSeq, SheetFields(ws)[k].seqK, l).kind) == Ok(IntToString(j + 1))
  {
    var f := SheetFields(ws)[k];
    FieldNumbering(ws, k);
    if rule.value == "AUTO_ID" && rule.columnName in {"SEQ_K", "ROW_NO"} {
      FieldCounter(rule, ws, ctx, f.row, sheetSeq, f.seqK);
    }
    forall j | 0 <= j < |f.logic| && rule.value == "AUTO_ID" && rule.columnName == "SEQ_K_L"
      ensures Resolve(rule, ws, ctx, LogicRow(f.logic[j].row, sheetSeq, f.seqK, f.logic[j].seqKL)) == Ok(IntToString(j + 1))
    {
      LogicCounter(rule, ws, ctx, f.logic[j].row, sheetSeq, f.seqK, f.logic[j].seqKL);
    }
  }

  /** The k-th field of a sheet has SEQ_K = k + 1 and its j-th logic row SEQ_K_L = j + 1. */
  lemma FieldNumbering(ws: Sheet, k: nat)
    requires k < |SheetFields(ws)|
    ensures SheetFields(ws)[k].seqK == k + 1
    ensures forall j :: 0 <= j < |SheetFields(ws)[k].logic| ==> SheetFields(ws)[k].logic[j].seqKL == j + 1
  {
    SectionScanNumbering(ws, 1, 1);
    LogicScanNumbering(ws, SheetFields(ws)[k].row, 1);
  }

  lemma FieldCounter(rule: ColumnRule, ws: Sheet, ctx: RunContext, row: int, sheetSeq: int, seqK: int)
    requires rule.value == "AUTO_ID" && rule.columnName in {"SEQ_K", "ROW_NO"}
    ensures Resolve(rule, ws, ctx, FieldRow(row, sheetSeq, seqK)) == Ok(IntToString(seqK))
  {
  }

  lemma LogicCounter(rule: ColumnRule, ws: Sheet, ctx: RunContext, row: int, sheetSeq: int, seqK: int, seqKL: int)
    requires rule.value == "AUTO_ID" && rule.columnName == "SEQ_K_L"
    ensures Resolve(rule, ws, ctx, LogicRow(row, sheetSeq, seqK, seqKL)) == Ok(IntToString(seqKL))
  {
  }

  // ---------------------------------------------------------------------------
  // Screens across the workbook
  // ---------------------------------------------------------------------------

  /** A screen: the sheet it is read from and its SEQ. */
  datatype Screen = Screen(sheetIndex: nat, sheetSeq: int)

  /** Which sheets describe a screen, sheet by sheet. */
  function ScreenFlags(wb: Workbook): (flags: seq<bool>)
    ensures |flags| == |wb.sheets| && forall i :: 0 <= i < |wb.sheets| ==> flags[i] == IsScreenSheet(wb.sheets[i])
  {
    seq(|wb.sheets|, i requires 0 <= i < |wb.sheets| => IsScreenSheet(wb.sheets[i]))
  }

  /** The GAMEN loop from sheet `index` on, with the next SEQ at `sheetSeq`: a
      screen sheet (flagged) takes the number and advances it; other sheets are
      skipped. */
  function ScreensFrom(flags: seq<bool>, index: nat, sheetSeq: int): (r: seq<Screen>)
    ensures forall k :: 0 <= k < |r| ==>
      && r[k].sheetSeq == sheetSeq + k
      && index <= r[k].sheetIndex < |flags|
      && flags[r[k].sheetIndex]
    ensures forall k, l :: 0 <= k < l < |r| ==> r[k].sheetIndex < r[l].sheetIndex
    decreases |flags| - index
  {
    if index >= |flags| then []
    else
      var rest := ScreensFrom(flags, index + 1, if flags[index] then sheetSeq + 1 else sheetSeq);
      if flags[index] then
        var r := [Screen(index, sheetSeq)] + rest;
        assert forall k :: 1 <= k < |r| ==> r[k] == rest[k - 1];
        r
      else rest
  }

  /** The screens of the workbook: SEQ from 1, sheets from the third on. */
  function Screens(wb: Workbook): seq<Screen> {
    ScreensFrom(ScreenFlags(wb), FirstScreenSheet, 1)
  }

  /** Every flagged sheet at or after `index` takes part. */
  lemma {:induction false} ScreensFromComplete(flags: seq<bool>, index: nat, sheetSeq: int, i: nat)
    requires index <= i < |flags| && flags[i]
    ensures exists k :: 0 <= k < |ScreensFrom(flags, index, sheetSeq)| && ScreensFrom(flags, index, sheetSeq)[k].sheetIndex == i
    decreases |flags| - index
  {
    var r := ScreensFrom(flags, index, sheetSeq);
    if i == index {
      assert r[0].sheetIndex == i;
    } else {
      var next := if flags[index] then sheetSeq + 1 else sheetSeq;
      var rest := ScreensFrom(flags, index + 1, next);
      ScreensFromComplete(flags, index + 1, next, i);
      var k :| 0 <= k < |rest| && rest[k].sheetIndex == i;
      if flags[index] {
        assert r[k + 1] == rest[k];
      } else {
        assert r[k] == rest[k];
      }
    }
  }

  /** SEQ runs 1..N over the screens in sheet order, and a sheet is a screen iff
      it is at index 2 or later and its B2 names a category. */
  lemma ScreensSpec(wb: Workbook)
    ensures forall k :: 0 <= k < |Screens(wb)| ==> Screens(wb)[k].sheetSeq == k + 1
    ensures forall k, l :: 0 <= k < l < |Screens(wb)| ==> Screens(wb)[k].sheetIndex < Screens(wb)[l].sheetIndex
    ensures forall i :: 0 <= i < |wb.sheets| ==>
      ((exists k :: 0 <= k < |Screens(wb)| && Screens(wb)[k].sheetIndex == i)
       <==> (FirstScreenSheet <= i && IsScreenSheet(wb.sheets[i])))
  {
    forall i | 0 <= i < |wb.sheets| && FirstScreenSheet <= i && IsScreenSheet(wb.sheets[i])
      ensures exists k :: 0 <= k < |Screens(wb)| && Screens(wb)[k].sheetIndex == i
    {
      ScreensFromComplete(ScreenFlags(wb), FirstScreenSheet, 1, i);
      var r := ScreensFrom(ScreenFlags(wb), FirstScreenSheet, 1);
      assert Screens(wb) == r;
      var k :| 0 <= k < |r| && r[k].sheetIndex == i;
      assert Screens(wb)[k].sheetIndex == i;
    }
  }

  /** The GAMEN statement of a screen. */
  function ScreenStatement(wb: Workbook, info: TableInfo, s: Screen): Statement
    requires s.sheetIndex < |wb.sheets|
  {
    Insert(ScreenTable, RulesOf(info, ScreenTable), wb.sheets[s.sheetIndex], ScreenRow(s.sheetSeq), false)
  }

  /** The statements of one screen: its GAMEN row, then its sheet's fields. */
  function ScreenGroup(wb: Workbook, info: TableInfo, s: Screen): seq<Statement>
    requires s.sheetIndex < |wb.sheets|
  {
    [ScreenStatement(wb, info, s)] + SheetStatements(wb.sheets[s.sheetIndex], info, s.sheetSeq)
  }

  function ScreenGroups(wb: Workbook, info: TableInfo): (parts: seq<seq<Statement>>)
    ensures |parts| == |Screens(wb)|
  {
    var screens := Screens(wb);
    seq(|screens|, k requires 0 <= k < |screens| => ScreenGroup(wb, info, screens[k]))
  }

  /** Every statement the run attempts after the project row, in order. */
  function Plan(wb: Workbook, info: TableInfo): seq<Statement> {
    Flatten(ScreenGroups(wb, info))
  }

  /** Where the k-th screen's statements sit in the plan: its GAMEN row first,
      then its sheet's field statements, then the next screen. */
  lemma PlanLayout(wb: Workbook, info: TableInfo, k: nat)
    requires k < |Screens(wb)|
    ensures var parts := ScreenGroups(wb, info);
      var s := Screens(wb)[k];
      var fields := SheetStatements(wb.sheets[s.sheetIndex], info, s.sheetSeq);
      && Offset(parts, k + 1) == Offset(parts, k) + 1 + |fields|
      && Offset(parts, k + 1) <= |Plan(wb, info)|
      && Plan(wb, info)[Offset(parts, k)] == ScreenStatement(wb, info, s)
      && Plan(wb, info)[Offset(parts, k) + 1..Offset(parts, k + 1)] == fields
  {
    var parts := ScreenGroups(wb, info);
    var o := Offset(parts, k);
    FlattenSlice(parts, k);
    var g := Plan(wb, info)[o..Offset(parts, k + 1)];
    assert g == parts[k];
    assert Plan(wb, info)[o] == g[0];
    assert Plan(wb, info)[o + 1..Offset(parts, k + 1)] == g[1..];
  }

  // ---------------------------------------------------------------------------
  // The whole run
  // ---------------------------------------------------------------------------

  /** The project row (`generate_insert_statements_from_excel(..., 2, ..., 'T_KIHON_PJ')`):
      a missing rule table or a workbook of fewer than three sheets aborts the run;
      otherwise one list-built row from the third sheet, without counters. */
  function ProjectStatement(wb: Workbook, info: TableInfo): (r: Res<Statement>)
    ensures ProjectTable !in info ==> r == Fail(MissingTable(ProjectTable))
    ensures ProjectTable in info && |wb.sheets| <= ProjectSheet ==> r == Fail(SheetOutOfRange(ProjectSheet))
    ensures ProjectTable in info && ProjectSheet < |wb.sheets| ==>
      r.Ok? && r.value.table == ProjectTable && r.value.rules == info[ProjectTable]
      && r.value.sheet == wb.sheets[ProjectSheet] && r.value.kind == ProjectRow && r.value.listBuilt
  {
    if ProjectTable !in info then Fail(MissingTable(ProjectTable))
    else if ProjectSheet >= |wb.sheets| then Fail(SheetOutOfRange(ProjectSheet))
    else Ok(Insert(ProjectTable, info[ProjectTable], wb.sheets[ProjectSheet], ProjectRow, true))
  }

  /** `process_all_tables_in_sequence`: the project row, then for each screen its
      GAMEN row followed by its field and logic rows; the first failure aborts. */
  function Run(wb: Workbook, ctx: RunContext, info: TableInfo): Res<seq<string>> {
    var project :- ProjectStatement(wb, info);
    Collect(RenderAll([project] + Plan(wb, info), ctx))
  }

  /** A successful run writes one statement per planned statement, each the
      rendering of that statement: the project row first, then the plan. */
  lemma RunRendersPlan(wb: Workbook, ctx: RunContext, info: TableInfo)
    requires Run(wb, ctx, info).Ok?
    ensures ProjectStatement(wb, info).Ok?
    ensures var out := Run(wb, ctx, info).value;
      && |out| == 1 + |Plan(wb, info)|
      && Render(ProjectStatement(wb, info).value, ctx) == Ok(out[0])
      && forall i :: 0 <= i < |Plan(wb, info)| ==> Render(Plan(wb, info)[i], ctx) == Ok(out[1 + i])
  {
    var plan := Plan(wb, info);
    var project := ProjectStatement(wb, info).value;
    assert Run(wb, ctx, info) == Collect(RenderAll([project] + plan, ctx));
    CollectEachCons(Renderer(ctx), project, plan, Run(wb, ctx, info).value);
  }

  /** The GAMEN statements of all screens, in screen order. */
  function ScreenOnlyPlan(wb: Workbook, info: TableInfo): (sts: seq<Statement>)
    ensures |sts| == |Screens(wb)|
  {
    var screens := Screens(wb);
    seq(|screens|, k requires 0 <= k < |screens| => ScreenStatement(wb, info, screens[k]))
  }

  /** The screen-only branch of `generate_insert_statements_from_excel`: a missing
      GAMEN rule table aborts; otherwise one GAMEN row per screen. */
  function ScreenStatements(wb: Workbook, ctx: RunContext, info: TableInfo): (r: Res<seq<string>>)
    ensures ScreenTable !in info ==> r == Fail(MissingTable(ScreenTable))
  {
    if ScreenTable !in info then Fail(MissingTable(ScreenTable))
    else Collect(RenderAll(ScreenOnlyPlan(wb, info), ctx))
  }

  /** The twin plans exactly the GAMEN statements of the full run's plan. */
  lemma ScreenOnlyPlanInPlan(wb: Workbook, info: TableInfo)
    ensures forall k :: 0 <= k < |Screens(wb)| ==>
      Offset(ScreenGroups(wb, info), k) < |Plan(wb, info)|
      && ScreenOnlyPlan(wb, info)[k] == Plan(wb, info)[Offset(ScreenGroups(wb, info), k)]
  {
    forall k | 0 <= k < |Screens(wb)|
      ensures Offset(ScreenGroups(wb, info), k) < |Plan(wb, info)|
      ensures ScreenOnlyPlan(wb, info)[k] == Plan(wb, info)[Offset(ScreenGroups(wb, info), k)]
    {
      PlanLayout(wb, info, k);
    }
  }

  /** The statements a successful run renders: the project row, then the plan. */
  lemma RunIsCollect(wb: Workbook, ctx: RunContext, info: TableInfo)
    requires Run(wb, ctx, info).Ok?
    ensures ProjectStatement(wb, info).Ok?
    ensures Run(wb, ctx, info) == Collect(RenderAll([ProjectStatement(wb, info).value] + Plan(wb, info), ctx))
  {
  }

  /** The twin agrees with the full run: when it has its rule table and the run
      succeeds, the twin succeeds with exactly the run's GAMEN rows. */
  lemma ScreenStatementsMatchRun(wb: Workbook, ctx: RunContext, info: TableInfo)
    requires ScreenTable in info && Run(wb, ctx, info).Ok?
    ensures ScreenStatements(wb, ctx, info).Ok?
    ensures |ScreenStatements(wb, ctx, info).value| == |Screens(wb)|
    ensures forall k :: 0 <= k < |Screens(wb)| ==>
      && 1 + Offset(ScreenGroups(wb, info), k) < |Run(wb, ctx, info).value|
      && ScreenStatements(wb, ctx, info).value[k] == Run(wb, ctx, info).value[1 + Offset(ScreenGroups(wb, info), k)]
  {
    RunIsCollect(wb, ctx, info);
    var project := ProjectStatement(wb, info).value;
    var twin := ScreenOnlyPlan(wb, info);
    TwinInRun(wb, info, project);
    var all := [project] + Plan(wb, info);
    var pick := seq(|twin|, k requires 0 <= k < |twin| => 1 + Offset(ScreenGroups(wb, info), k));
    CollectEachPick(Renderer(ctx), all, twin, pick);
    var out := Collect(AttemptEach(Renderer(ctx), all)).value;
    var twinOut := Collect(AttemptEach(Renderer(ctx), twin)).value;
    assert Run(wb, ctx, info) == Ok(out);
    assert ScreenStatements(wb, ctx, info) == Ok(twinOut);
    forall k | 0 <= k < |Screens(wb)|
      ensures 1 + Offset(ScreenGroups(wb, info), k) < |out| && twinOut[k] == out[1 + Offset(ScreenGroups(wb, info), k)]
    {
      assert pick[k] == 1 + Offset(ScreenGroups(wb, info), k);
    }
  }

  /** Behind the project row, the k-th GAMEN statement of the twin sits one past
      the k-th screen's offset in the plan. */
  lemma TwinInRun(wb: Workbook, info: TableInfo, project: Statement)
    ensures |ScreenOnlyPlan(wb, info)| == |Screens(wb)|
    ensures forall k :: 0 <= k < |Screens(wb)| ==>
      && 1 + Offset(ScreenGroups(wb, info), k) < |[project] + Plan(wb, info)|
      && ScreenOnlyPlan(wb, info)[k] == ([project] + Plan(wb, info))[1 + Offset(ScreenGroups(wb, info), k)]
  {
    ScreenOnlyPlanInPlan(wb, info);
  }
}
