# Basic-design workbook to INSERT script: a Dafny model

The repository turns a Japanese basic-design workbook (one sheet per screen,
with a `【項目定義】` field-definition section) into SQL INSERT statements for
the tables `T_KIHON_PJ` (project), `T_KIHON_PJ_GAMEN` (screens),
`T_KIHON_PJ_KOUMOKU` (fields) and `T_KIHON_PJ_KOUMOKU_LOGIC` (logic rows of a
field). Each output column follows a column rule (`VALUE`, `CELL_FIX`,
`DATA_TYPE`) from a JSON rule table. Three helper scripts complete the core:

- genjson.py extracts table names from an INSERT script and orders the rule table.
- run_insert_sql.py splits a script into statements.
- export_update_script.py writes row-numbered UPDATE scripts.

This project models that core as pure functions over immutable values and
proves what the code promises.

Modules, in dependency order:

- `Outcomes`: `Option`, the error type of a run (a bad cell reference in a
  MAPPING rule, a missing rule table, too few sheets) and `Collect`, which
  stops at the first failure as a raised Python exception does.
- `Text`, `Decimal`, `Sequences`: model Python's `str.strip` (the `isspace`
  set), `str(int)`, `"%02d"`, `", ".join` and `dict.fromkeys`.
- `Sheets`: the worksheet (cells, merged ranges in list order, `max_row`).
  It also holds `get_cell_value_with_merged` and the parser for single-cell
  references such as `D12`.
- `Literals`: the SQL literals written for a cell value, and the run's clock
  stamp (SYSTEMID `HHMMSS`, system date `YYYY-MM-DD`).
- `Resolver`: `process_column_value` and `process_column_value_koumoku`, the
  value of one column under its rule.
- `Emitter`: the INSERT text for a row. Rows are built either in a dict (a
  repeated column name keeps its first place and its last value) or in two
  lists.
- `Scanner`: the `【項目定義】` section scan and the logic-row scan, with the
  SEQ_K and SEQ_K_L numbers they stamp.
- `Pipeline`: the whole run.
  - It first builds the plan of statements, in the order the program attempts
    them: the project row, then for each screen its GAMEN row followed by its
    fields, each field followed by its logic rows.
  - The plan is then rendered.
  - The screen-only branch of `generate_insert_statements_from_excel` is
    modelled too.
- `StatementSplit`: `[s.strip() for s in content.split(';') if s.strip()]`.
- `UpdateScript`: the escaping and the `ROW_NUMBER()` UPDATE statements.
- `TableNames`: the INSERT-line pattern of genjson.py, the de-duplicated name
  list, the fixed key order of the grouped rule table and the `BLANK` marker.

Behaviour the model keeps on purpose, because the code has it:

- **Quotes are not escaped.** A text cell is written as `N'...'` or `'...'`
  without escaping, so `O'Brien` ends the literal early
  (`Literals.UnescapedQuoteEndsLiteral`): app.py lines 97-101 and 153-157 do
  not double it. Only the UPDATE script of export_update_script.py doubles
  quotes.
- **Each marker rescans the section.** The outer loop of
  `process_koumoku_data_for_single_sheet` starts a new section scan at every
  row whose B cell is `【項目定義】`. The inner scan skips a repeated marker
  rather than stopping at it. So a field below two markers, with no stop value
  between them, is recorded twice with consecutive SEQ_K
  (`Scanner.RepeatedMarkerRescans`). In general a field row is recorded once
  per marker above it that reaches it without an ending stop value
  (`Scanner.SheetFieldsCount`).
- **A texted logic row is a field too.** `merged_bc` only asks whether B and
  C lie in one range, and a logic row's range runs from B to at least BN. So a
  logic row whose B holds a label is also recorded as a field with its own
  SEQ_K, while the logic scan of the field above still stamps it
  (`Scanner.LogicRowIsFieldRow`, `Scanner.LogicRowAlsoField`).
- **MAPPING reads the raw cell.** A MAPPING rule reads `ws[ref].value`
  without looking through merged ranges, so a reference to a non-anchor cell
  of a merged range gives `''` even when the anchor holds a category
  (`Resolver.MappingReadsRawCell`). A direct rule reads through the range.
- **Bad references.** A MAPPING rule of a screen or project row reads
  `ws[cell_fix]` outside any `try`. An unparsable reference there therefore
  aborts the run (`Fail(BadCellReference)`). Under an empty rule, the same
  lookup sits inside `try` and yields `''`.

## Model

| member | source | states |
|---|---|---|
| Outcomes.Collect | app.py:313-321 | a list of attempted values succeeds iff every attempt succeeds, and then holds each attempt's value in its place |
| Outcomes.CollectFirstFailure | app.py:313-321 | a failed list reports the failure of the first failing attempt, every earlier attempt having succeeded, as an exception raised mid-loop aborts the run |
| Outcomes.CollectAppend | app.py:321-329 | collecting a concatenation is collecting the first part, then, only if it succeeded, the second part |
| Text.Strip | run_insert_sql.py:16 | `strip()` returns a contiguous infix whose cut-off ends are all whitespace and which neither starts nor ends with whitespace; it is empty iff the text is all whitespace |
| Text.TrimLeft | genjson.py:63 | the leading `\s*` of the INSERT pattern consumes exactly the maximal whitespace prefix |
| Decimal.NatToStringRoundTrip | app.py:75 | `str(n)` of a counter reads back as n |
| Decimal.IntToStringRoundTrip | app.py:138-140 | `str(i)` of any integer, sign included, parses back to i |
| Decimal.CanonicalNumeralUnique | app.py:138-140 | a canonical numeral (no leading zero, no `-0`) is exactly `str` of the number it parses to, so it is the only text `str` can give for that number |
| Decimal.Pad2 | app.py:10 | `%02d` gives at least two digits, exactly two below 100, and reads back as the number |
| Sequences.DedupSpec | genjson.py:71 | `dict.fromkeys` keeps every name exactly once, drops nothing, adds nothing, and orders the names by first appearance |
| Sheets.FirstContaining | app.py:62-64 | the search over merged ranges stops at the first range in list order that contains the cell, and reports none only when no range contains it |
| Sheets.ValueWithMerged | app.py:56-65 | a stored value is returned unchanged; an empty cell takes the anchor value of the first containing merged range; an empty cell in no range reads as None |
| Sheets.ParseRef | app.py:144 | the text `ws[...]` reads as a single cell: its contract bounds the row by the sheet limit; the round trip is `Sheets.ColumnLettersWithRow` |
| Sheets.ColumnLettersWithRow | app.py:83-85 | the reference built as column letters followed by the row number parses back to that row and that column |
| Literals.DecodeQuoteFor | app.py:98-101 | an nvarchar text column is written as `N'...'` and any other as `'...'`; the text between the outer quotes is the cell text itself, unescaped |
| Literals.FormatDateTimeRoundTrip | app.py:104-105 | `%Y-%m-%d %H:%M:%S` of a date-time parses back to the same date-time |
| Literals.FormatCellSpec | app.py:95-107 | None gives `''`; text gives the N-prefixed or plain literal of the text; an integer gives its canonical numeral unquoted, which parses back to it (so it is `str(n)` by `Decimal.CanonicalNumeralUnique`); a date-time gives a quoted stamp that parses back to it |
| Literals.UnescapedQuoteEndsLiteral | app.py:97-101 | the text `O'Brien` in an nvarchar column is written `N'O'Brien'`, whose quote is not doubled |
| Literals.ContextAt | app.py:9-11 | SYSTEMID is six digits reading back as the hour, minute and second of the clock; the system date is the date part of the clock's stamp |
| Resolver.CounterLiteral | app.py:137-140 | a present counter is written as its canonical numeral (no leading zero, no `-0`), unquoted, which parses back to it and so is `str` of it; an absent counter gives `''` |
| Resolver.DirectReadSpec | app.py:146-167 | under an empty rule a reference that is not a single cell gives `''`; otherwise the merged-aware value of the referenced cell decides: no value gives `''`, text reads back as the text (N-prefixed for nvarchar), an integer as its canonical numeral, a date-time as its stamp |
| Resolver.MappedCellSpec | app.py:143-145 | for a code table that numbers its listed texts 1, 2, 3, ... in order, a MAPPING read fails exactly when the reference is not a single cell; otherwise the result is non-`''` exactly when the raw cell stores one of the listed texts, and then it is the single digit of that text's position, so distinct texts get distinct codes; an empty cell gives `''` |
| Resolver.CodeTablesInOrder | app.py:14-28 | `MAPPING_VALUE_DICT` numbers exactly the five category texts 帳票, 画面, CSV, IPO図, ﾒﾆｭｰ as `1`..`5`, and `KOUMOKU_TYPE_MAPPING` exactly ラベル, チェックボックス, 処理 as `1`..`3`; no other text is a key |
| Resolver.MappingReadsRawCell | app.py:143-145 | a MAPPING reference to the non-anchor cell C2 of a merged range B2:C2 whose anchor holds 項目定義書_画面 gives `''`, although the merged-aware read of a direct rule sees the category there |
| Resolver.ResolveColumnSpec | app.py:123-176 | the value of every rule of a screen or project column: BLANK, NULL, SYSTEMID and the dates reading back as their texts, SEQ and JYUN counters, MAPPING through the five category codes (`Resolver.MappedCellSpec`), direct reads, and any other rule as a literal reading back as its own text; it fails iff a MAPPING rule names a non-blank reference that is not a single cell |
| Resolver.ResolveFieldSpec | app.py:68-120 | the value of every rule of a field or logic column: SEQ_K, ROW_NO and SEQ_K_L counters, MAPPING of column letters in the row through the three type codes, direct reads in the row, the SEQ references; every other rule falls back to the screen resolver without counters; it fails iff a MAPPING rule's reference in the row is not a single cell |
| Emitter.Put | app.py:316 | `row_data[name] = value` keeps the key set duplicate-free, appends a new name at the end, overwrites the value of an existing name in place, and leaves the other entries alone |
| Emitter.FromPairs | app.py:313-317 | the dict filled column by column; its contract keeps the names duplicate-free, and `Emitter.FromPairsContents` states the order and values |
| Emitter.FromPairsContents | app.py:313-317 | a dict filled from a list of name/value pairs has the names in first-appearance order, each holding the value of its last occurrence |
| Emitter.DictInsert | app.py:313-320 | a dict-built INSERT is written iff every column resolves; its column list is the de-duplicated names, each with its last value; otherwise the first failure propagates |
| Emitter.ListInsert | app.py:232-242 | a list-built INSERT is written iff every column resolves, with all names and values in rule order, repeats kept; otherwise the first failure propagates |
| Scanner.LogicScan | app.py:428-466 | `process_koumoku_logic_for_seq_k`; what it records is stated by `Scanner.LogicScanSound`, `Scanner.LogicScanComplete` and `Scanner.LogicScanNumbering` |
| Scanner.FieldScan | app.py:382-399 | the inner scan after one marker; stated by `Scanner.FieldScanSound`, `Scanner.FieldScanComplete` and `Scanner.FieldScanNumbering` |
| Scanner.SectionScan | app.py:378-399 | the outer loop over marker occurrences; stated by `Scanner.SectionScanSound`, `Scanner.SectionScanComplete`, `Scanner.SectionScanNumbering` and, for how often each row is recorded, `Scanner.SectionScanCount` |
| Scanner.SheetFields | app.py:371-423 | the field records of one sheet, scanned from its first row; stated by the `SectionScan` lemmas, `Scanner.SheetFieldsCount` and `Pipeline.SheetCounters` |
| Scanner.LogicScanNumbering | app.py:433-461 | the logic rows of a field are numbered SEQ_K_L 1, 2, 3, ... in scan order |
| Scanner.LogicScanSound | app.py:436-466 | every logic row recorded starts a merged range at B reaching at least BN; it lies at or after the field row with no stop marker before it; rows come out in increasing order |
| Scanner.LogicScanComplete | app.py:436-466 | every row of that kind reached before a stop marker is recorded |
| Scanner.FieldScanNumbering | app.py:371-423 | the records of one inner scan carry consecutive SEQ_K, and each carries the logic scan from its own row |
| Scanner.SectionScanNumbering | app.py:371-423 | SEQ_K continues across marker occurrences: the k-th record of a sheet carries SEQ_K k+1 |
| Scanner.FieldScanSound | app.py:382-399 | every record of an inner scan is a field row, meaning B and C merged and B a non-empty label other than the header words; no ending stop value precedes it; records come out in row order |
| Scanner.FieldScanComplete | app.py:382-399 | every field row reached before an ending stop value is recorded |
| Scanner.SectionScanSound | app.py:378-399 | every record of a sheet is a field row below some marker occurrence, with no ending stop value between them |
| Scanner.SectionScanComplete | app.py:378-399 | every field row below a marker occurrence with no ending stop value between them is recorded |
| Scanner.RepeatedMarkerRescans | app.py:378-386 | two consecutive markers above one field row make it recorded twice, with SEQ_K 1 and 2 |
| Scanner.FieldScanCount | app.py:382-399 | one inner scan records a row at most once: exactly when it is a field row at or after the start, with no ending stop value between the start and it |
| Scanner.SectionScanCount | app.py:378-399 | the outer loop records a row as many times as there are marker rows above it, at or after the start, from which it is reached with no ending stop value in between, and only when it is a field row; every other row is never recorded |
| Scanner.SheetFieldsCount | app.py:378-399 | over a whole sheet, a field row is recorded once per marker row above it with no ending stop value between them; no other row is recorded |
| Scanner.LogicRowIsFieldRow | app.py:390-399 | a logic row (a range from B to at least BN) contains B and C, so when its B holds a field label it is a field row as well |
| Scanner.LogicRowAlsoField | app.py:390-399 | a field row B2:C2 followed by a logic row B3:BN3 whose B holds text: the sheet's fields are rows 2 and 3, and the logic scan of the field at row 2 stamps row 3 |
| Pipeline.SheetCounters | app.py:401-407 | the k-th field statement of a sheet resolves SEQ_K and ROW_NO to k+1, and the j-th logic statement under it resolves SEQ_K_L to j+1 |
| Pipeline.Screens | app.py:294-331 | the screen sheets of a run from index 2 with SEQ from 1; stated by `Pipeline.ScreensSpec` |
| Pipeline.ScreensFrom | app.py:297-331 | the sheets that describe a screen take SEQ values in sheet order, one apart, and other sheets are skipped |
| Pipeline.ScreensFromComplete | app.py:297-305 | every screen sheet at or after the start index becomes a screen |
| Pipeline.ScreensSpec | app.py:294-331 | screens are numbered 1..N in sheet order, and a sheet is a screen iff it is at index 2 or later and its raw B2 names one of the five categories |
| Pipeline.Plan | app.py:297-331 | the statements of all screens in order; their layout is stated by `Pipeline.PlanLayout` |
| Pipeline.PlanLayout | app.py:297-331 | in the plan, the k-th screen's GAMEN row sits at its offset, its sheet's field statements follow it, and the next screen starts after them |
| Pipeline.ProjectStatement | app.py:186-230 | a missing T_KIHON_PJ rule table aborts; a workbook with fewer than three sheets aborts; otherwise one list-built project row comes from the third sheet |
| Pipeline.Run | app.py:270-331 | `process_all_tables_in_sequence`: the project row, then the plan, rendered in order with the first failure aborting; stated by `Pipeline.RunRendersPlan` and `Outcomes.CollectFirstFailure` |
| Pipeline.RunRendersPlan | app.py:280-331 | a successful run writes the rendered project row, then one rendered statement per planned statement, in plan order |
| Pipeline.ScreenStatements | app.py:195-222 | the screen-only branch: a missing GAMEN rule table aborts; its agreement with the full run is `Pipeline.ScreenStatementsMatchRun` |
| Pipeline.ScreenOnlyPlanInPlan | app.py:195-222 | the screen-only branch plans exactly the GAMEN statements of the full run, at their offsets |
| Pipeline.ScreenStatementsMatchRun | app.py:195-222 | when the full run succeeds, the screen-only branch succeeds with exactly the full run's GAMEN rows |
| StatementSplit.Statements | run_insert_sql.py:16 | the statements of a script; stated by `StatementSplit.StatementsShape`, `StatementSplit.StatementsAppend` and `StatementSplit.StatementsSingle` |
| StatementSplit.Split | run_insert_sql.py:16 | `split(';')` yields one more piece than there are separators, and no piece contains one |
| StatementSplit.SplitJoin | run_insert_sql.py:16 | joining the pieces with ';' gives the content back |
| StatementSplit.SplitAppend | run_insert_sql.py:16 | the pieces of `a;b` are the pieces of a followed by those of b |
| StatementSplit.DropEmptyMembers | run_insert_sql.py:16 | the filter keeps exactly the non-empty stripped pieces |
| StatementSplit.StatementsAppend | run_insert_sql.py:16 | the statements on either side of a ';' are kept apart, in order |
| StatementSplit.StatementsSingle | run_insert_sql.py:16 | a text without ';' is one statement, its stripped form, unless it is blank |
| StatementSplit.StatementsShape | run_insert_sql.py:16 | every statement is non-empty, free of ';' and of surrounding whitespace, and there are at most one more statements than separators |
| UpdateScript.Escape | Gen_script_master_shougunR/batch_python/export_update_script.py:71 | the three chained `replace` calls; stated by `UpdateScript.EscapeIsEscapeEach` and the other `Escape` lemmas |
| UpdateScript.EscapeIsEscapeEach | Gen_script_master_shougunR/batch_python/export_update_script.py:71 | the three chained replacements equal a per-character translation: a quote is doubled, CR dropped, LF made a space |
| UpdateScript.EscapeAppend | Gen_script_master_shougunR/batch_python/export_update_script.py:71 | escaping a concatenation is concatenating the escapes |
| UpdateScript.EscapeLineBreaks | Gen_script_master_shougunR/batch_python/export_update_script.py:71 | the escaped text has no CR or LF, and CRLF becomes one space |
| UpdateScript.EscapeQuotesDoubled | Gen_script_master_shougunR/batch_python/export_update_script.py:71 | every quote of the escaped text is doubled |
| UpdateScript.EscapeUndouble | Gen_script_master_shougunR/batch_python/export_update_script.py:71 | a value without line breaks is recovered exactly from its escaped text |
| UpdateScript.SetValue | Gen_script_master_shougunR/batch_python/export_update_script.py:67-72 | None is written NULL; any other value is written as an `N'...'` literal whose body is the escaped text, with quotes doubled and no line break; a value without line breaks reads back from it |
| UpdateScript.SetClauses | Gen_script_master_shougunR/batch_python/export_update_script.py:65-73 | `zip` pairs columns and values position by position and stops at the shorter list |
| UpdateScript.UpdateStatementsNumbered | Gen_script_master_shougunR/batch_python/export_update_script.py:64-76 | the k-th fetched row's statement sets `rn = k+1`, so rows are numbered 1..N in fetch order |
| TableNames.NameRun | genjson.py:63 | `([A-Z0-9_]+)` takes the maximal run of name characters |
| TableNames.MatchInsert | genjson.py:63-68 | `pattern.search(line)` and `match.group(1)`; stated by `TableNames.MatchInsertSound` and `TableNames.MatchInsertComplete` |
| TableNames.MatchInsertSound | genjson.py:63-68 | a line yields a name only if it splits into whitespace, the keyword (ignoring case), whitespace, the name, optional whitespace and `(` |
| TableNames.MatchInsertComplete | genjson.py:63-68 | every line of that shape yields its name |
| TableNames.RawTableNames | genjson.py:65-68 | a name is collected iff some line matches with it |
| TableNames.RawTableNamesAppend | genjson.py:65-68 | names are collected in line order |
| TableNames.RawTableNamesSingle | genjson.py:65-68 | a line contributes its name if it matches and nothing otherwise |
| TableNames.UniqueNames | genjson.py:71 | the de-duplicated list holds every collected name once, in first-appearance order |
| TableNames.TableNamesOf | genjson.py:63-71 | the written table list is duplicate-free and names exactly the tables of the matching INSERT lines, in first-appearance order |
| TableNames.PickInOrder | genjson.py:44-47 | a key is kept iff it is both listed and grouped, and it keeps its own group |
| TableNames.PickInOrderAppend | genjson.py:45-47 | the keys are visited in list order: the picks of a concatenated order are the picks of its parts in turn |
| TableNames.OrderGroups | genjson.py:40-47 | the ordered mapping holds exactly the grouped tables of the fixed key list, each with its group; any other table is dropped |
| TableNames.ReplaceBlank | genjson.py:19-20 | no cell equal to BLANK is left: such a cell becomes empty text, every other cell is unchanged |
| TableNames.ReplaceBlankColumn | genjson.py:19-20 | only the VALUE column is rewritten, and only when present; the other columns are unchanged |

## Left out

- Workbook and file I/O:
  - Loading workbooks and reading the JSON rule table (app.py `load_workbook`, `read_table_info_to_dict`) are left out. A workbook is given as a value.
  - Writing the output files and the progress prints are left out.
  - The module-level call at the end of app.py is left out.
- The default branch of `generate_insert_statements_from_excel` (app.py:245-265), for tables other than the project and the screen table, is left out. It reads a sheet through pandas, and the run never takes that branch.
- The clock: `datetime.now()` becomes a parameter of the run (`Literals.ContextAt`).
- Floating-point and boolean cell values are left out. A cell holds None, text, an integer or a date-time.
- Chart sheets are left out: every sheet of a workbook is a worksheet with cells. openpyxl also lists chart sheets, which have no cells. A chart sheet at index 2 would make the project row's MAPPING lookup `ws[cell_fix]` (app.py:144) raise. A chart sheet later in the list would raise on `ws["B2"]` inside the screen loop's `try` (app.py:299-302) and be skipped.
- Literals.FormatCellSpec: does not model cell types outside those four, which app.py formats as `'str(value)'`.
- The global dictionaries `seq_per_sheet_dict` and `seq_k_per_sheet_dict` are left out. They are written but never read by the core.
- Workbook-library details:
  - Cell access that extends `max_row` is left out.
  - Reference parsing accepts only ASCII letters and digits.
  - Reading an unparsable reference raises inside the workbook library; the model treats any reference that is not letters followed by a row number in range as unparsable.
- Sheets.ParseRef: states only the range of the parsed row and column; its round trip is `Sheets.ColumnLettersWithRow`.
- Literals.ContextAt: `%Y` is four digits for years 1000-9999, which is the range Python's clock produces in practice.
- Missing rule keys: a rule is given with all four of its fields. A key missing in the JSON reads as `''`, which the caller supplies. `col_info['COLUMN_NAME']` raising `KeyError` in the list-built branch is not modelled.
- Database work is left out: connecting, querying and executing (run_insert_sql.py, export_update_script.py). So are the header comment lines of the UPDATE script and the choice of target columns.
- UpdateScript.SetValue: a fetched value is given by its `str(val)` text; how the database driver renders each SQL type is not modelled.
- genjson.py helpers left out:
  - `try_readlines` and its encoding fallback;
  - the pandas steps (`read_excel`, `fillna`, `to_int_or_none`, `groupby`, `to_dict`);
  - `json.dumps`.
- TableNames.OrderGroups: its contract states contents; the order (that of the fixed key list) is stated by `TableNames.PickInOrderAppend`.
- TableNames.ReplaceBlankColumn: the column is a list of cell values; the pandas dtype handling of `replace` is not modelled.
