/**
  The UPDATE-script writer of export_update_script.py (lines 64-76): for every
  fetched row of a table it writes one UPDATE statement that sets the selected
  columns of the row with the same position, numbered 1, 2, ... by `ROW_NUMBER()`.

  A fetched value is `None` (rendered `NULL`) or anything else, of which only
  `str(val)` matters; `Value` carries that string.
 */
module UpdateScript {
  import opened Outcomes
  import opened Text
  import opened Decimal
  import opened Literals

  datatype DbValue = Null | Value(text: string)

  // ---------------------------------------------------------------------------
  // Escaping: `str(val).replace("'", "''").replace('\r', '').replace('\n', ' ')`
  // ---------------------------------------------------------------------------

  /** `s.replace("'", "''")`. */
  function DoubleQuotes(s: string): string {
    if s == [] then []
    else (if s[0] == '\'' then "''" else [s[0]]) + DoubleQuotes(s[1..])
  }

  /** `s.replace(c, '')`. */
  function Remove(s: string, c: char): (r: string)
    ensures c !in r
  {
    if s == [] then []
    else (if s[0] == c then [] else [s[0]]) + Remove(s[1..], c)
  }

  /** `s.replace(c, d)` for single characters. */
  function ReplaceChar(s: string, c: char, d: char): (r: string)
    ensures |r| == |s|
    ensures forall i :: 0 <= i < |s| ==> r[i] == if s[i] == c then d else s[i]
  {
    seq(|s|, i requires 0 <= i < |s| => if s[i] == c then d else s[i])
  }

  /** The three replacements, applied in the order the script applies them. */
  function Escape(s: string): string {
    ReplaceChar(Remove(DoubleQuotes(s), '\r'), '\n', ' ')
  }

  /** What one character of the value becomes in the escaped text. */
  function EscapeChar(c: char): string {
    if c == '\'' then "''"
    else if c == '\r' then ""
    else if c == '\n' then " "
    else [c]
  }

  /** The escaping as a character-by-character translation: a reference
      definition independent of the order of the replacements. */
  function EscapeEach(s: string): string {
    if s == [] then [] else EscapeChar(s[0]) + EscapeEach(s[1..])
  }

  /** The sequential replacements agree with the per-character translation:
      no replacement creates or destroys what a later one looks for. */
  lemma {:induction false} EscapeIsEscapeEach(s: string)
    ensures Escape(s) == EscapeEach(s)
  {
    if s != [] {
      EscapeIsEscapeEach(s[1..]);
      var head := if s[0] == '\'' then "''" else [s[0]];
      assert DoubleQuotes(s) == head + DoubleQuotes(s[1..]);
      RemoveAppend(head, DoubleQuotes(s[1..]), '\r');
      ReplaceCharAppend(Remove(head, '\r'), Remove(DoubleQuotes(s[1..]), '\r'), '\n', ' ');
      if s[0] == '\'' {
        assert Remove(head, '\r') == "''" by {
          assert head[1..] == "'";
        }
      }
    }
  }

  lemma {:induction false} RemoveAppend(a: string, b: string, c: char)
    ensures Remove(a + b, c) == Remove(a, c) + Remove(b, c)
  {
    if a == [] {
      assert a + b == b;
    } else {
      assert (a + b)[0] == a[0];
      assert (a + b)[1..] == a[1..] + b;
      RemoveAppend(a[1..], b, c);
    }
  }

  lemma ReplaceCharAppend(a: string, b: string, c: char, d: char)
    ensures ReplaceChar(a + b, c, d) == ReplaceChar(a, c, d) + ReplaceChar(b, c, d)
  {
  }

  /** Escaping maps concatenation to concatenation. */
  lemma {:induction false} EscapeAppend(a: string, b: string)
    ensures Escape(a + b) == Escape(a) + Escape(b)
  {
    EscapeIsEscapeEach(a + b);
    EscapeIsEscapeEach(a);
    EscapeIsEscapeEach(b);
    EscapeEachAppend(a, b);
  }

  lemma {:induction false} EscapeEachAppend(a: string, b: string)
    ensures EscapeEach(a + b) == EscapeEach(a) + EscapeEach(b)
  {
    if a == [] {
      assert a + b == b;
    } else {
      assert (a + b)[0] == a[0];
      assert (a + b)[1..] == a[1..] + b;
      EscapeEachAppend(a[1..], b);
    }
  }

  /** The escaped text has no line break left: a CR disappears and an LF
      becomes a space, so a Windows CRLF ends up as a single space. */
  lemma EscapeLineBreaks(s: string)
    ensures '\r' !in Escape(s) && '\n' !in Escape(s)
    ensures Escape("\r\n") == " "
  {
    var t := Remove(DoubleQuotes(s), '\r');
    assert '\r' !in t;
    assert Escape("\r\n") == " " by {
      EscapeIsEscapeEach("\r\n");
      assert "\r\n"[1..] == "\n";
    }
  }

  /** Every quote of the escaped text is doubled, so the text is a well-formed
      body for an `N'...'` literal. */
  lemma {:induction false} EscapeQuotesDoubled(s: string)
    ensures QuotesDoubled(Escape(s))
  {
    EscapeIsEscapeEach(s);
    EscapeEachQuotesDoubled(s);
  }

  lemma {:induction false} EscapeEachQuotesDoubled(s: string)
    ensures QuotesDoubled(EscapeEach(s))
  {
    if s != [] {
      EscapeEachQuotesDoubled(s[1..]);
      var t := EscapeEach(s);
      var rest := EscapeEach(s[1..]);
      if s[0] == '\'' {
        assert t == "''" + rest;
        assert t[2..] == rest;
      } else if s[0] == '\r' {
        assert t == rest;
      } else {
        var c := if s[0] == '\n' then ' ' else s[0];
        assert t == [c] + rest;
        assert t[0] != '\'' && t[1..] == rest;
      }
    }
  }

  /** Reads a literal body back: a doubled quote stands for one quote. */
  function Undouble(s: string): string
    decreases |s|
  {
    if s == [] then []
    else if |s| >= 2 && s[0] == '\'' && s[1] == '\'' then "'" + Undouble(s[2..])
    else [s[0]] + Undouble(s[1..])
  }

  /** A value without line breaks is recovered exactly from its escaped text. */
  lemma {:induction false} EscapeUndouble(s: string)
    requires '\r' !in s && '\n' !in s
    ensures Undouble(Escape(s)) == s
  {
    EscapeIsEscapeEach(s);
    EscapeEachUndouble(s);
  }

  lemma {:induction false} EscapeEachUndouble(s: string)
    requires '\r' !in s && '\n' !in s
    ensures Undouble(EscapeEach(s)) == s
  {
    if s != [] {
      EscapeEachUndouble(s[1..]);
      var t := EscapeEach(s);
      var rest := EscapeEach(s[1..]);
      if s[0] == '\'' {
        assert t == "''" + rest;
        assert t[2..] == rest;
      } else {
        assert t == [s[0]] + rest;
        assert t[1..] == rest;
      }
    }
  }

  // ---------------------------------------------------------------------------
  // SET clauses and statements
  // ---------------------------------------------------------------------------

  /** The right-hand side of one SET clause: `NULL` for `None`, otherwise an
      `N'...'` literal whose body is the escaped value. */
  function SetValue(v: DbValue): (q: string)
    ensures v.Null? ==> q == "NULL" && Decode(q) == Token("NULL")
    ensures v.Value? ==>
      (Decode(q) == National(Escape(v.text)) && QuotesDoubled(Decode(q).text) && '\r' !in q && '\n' !in q)
    ensures v.Value? && '\r' !in v.text && '\n' !in v.text ==> Undouble(Decode(q).text) == v.text
  {
    match v
    case Null => "NULL"
    case Value(t) =>
      DecodeQuoteFor(Escape(t), true);
      EscapeQuotesDoubled(t);
      EscapeLineBreaks(t);
      assert '\r' !in t && '\n' !in t ==> Undouble(Escape(t)) == t by {
        if '\r' !in t && '\n' !in t {
          EscapeUndouble(t);
        }
      }
      QuoteFor(Escape(t), true)
  }

  /** `zip(target_columns, row)`: one clause `col = value` per pair, in column
      order, as many as the shorter of the two lists. */
  function SetClauses(cols: seq<string>, row: seq<DbValue>): (r: seq<string>)
    ensures |r| == if |cols| <= |row| then |cols| else |row|
    ensures forall i :: 0 <= i < |r| ==> r[i] == cols[i] + " = " + SetValue(row[i])
  {
    if cols == [] || row == [] then []
    else [cols[0] + " = " + SetValue(row[0])] + SetClauses(cols[1..], row[1..])
  }

  const StatementEnd := ";\n\n"

  /** The UPDATE of the `idx`-th fetched row (0-based): the rows of the table are
      numbered in an arbitrary but fixed order and the row numbered `idx + 1` is set. */
  function UpdateStatement(table: string, setStr: string, idx: nat): string {
    ";WITH T AS (SELECT *, ROW_NUMBER() OVER (ORDER BY (SELECT 1)) AS rn FROM " + table + ")\n"
    + "UPDATE T SET " + setStr + " WHERE rn = " + NatToString(idx + 1) + StatementEnd
  }

  /** One statement per fetched row, in fetch order. */
  function UpdateStatements(table: string, cols: seq<string>, rows: seq<seq<DbValue>>): seq<string>
  {
    seq(|rows|, k requires 0 <= k < |rows| => UpdateStatement(table, Join(SetClauses(cols, rows[k]), ", "), k))
  }

  // ---------------------------------------------------------------------------
  // Reading the row number back
  // ---------------------------------------------------------------------------

  /** The maximal run of digits at the end of `s`. */
  function TrailingDigits(s: string): (r: string)
    ensures AllDigits(r) && |r| <= |s| && r == s[|s| - |r|..]
  {
    if s != [] && IsDigit(s[|s| - 1]) then
      var front := TrailingDigits(s[..|s| - 1]);
      front + [s[|s| - 1]]
    else []
  }

  /** The `rn` a statement sets: the number written just before its end. */
  function RowNumber(stmt: string): Option<nat> {
    if |stmt| >= |StatementEnd| && stmt[|stmt| - |StatementEnd|..] == StatementEnd then
      var digits := TrailingDigits(stmt[..|stmt| - |StatementEnd|]);
      if digits == [] then None else Some(DigitsValue(digits))
    else None
  }

  lemma {:induction false} TrailingDigitsAfterSpace(a: string, d: string)
    requires AllDigits(d)
    ensures TrailingDigits(a + " " + d) == d
    decreases |d|
  {
    var s := a + " " + d;
    if d == [] {
      assert s[|s| - 1] == ' ';
    } else {
      var n := |d| - 1;
      assert s[..|s| - 1] == a + " " + d[..n];
      TrailingDigitsAfterSpace(a, d[..n]);
      assert d == d[..n] + [d[n]];
    }
  }

  /** The k-th statement (0-based) updates the row numbered k + 1: rows are
      numbered 1..N in fetch order. */
  lemma UpdateStatementsNumbered(table: string, cols: seq<string>, rows: seq<seq<DbValue>>, k: nat)
    requires k < |rows|
    ensures RowNumber(UpdateStatements(table, cols, rows)[k]) == Some(k + 1)
  {
    var stmt := UpdateStatements(table, cols, rows)[k];
    var head := ";WITH T AS (SELECT *, ROW_NUMBER() OVER (ORDER BY (SELECT 1)) AS rn FROM " + table + ")\n"
      + "UPDATE T SET " + Join(SetClauses(cols, rows[k]), ", ") + " WHERE rn =";
    var digits := NatToString(k + 1);
    assert stmt == head + " " + digits + StatementEnd;
    assert stmt[..|stmt| - |StatementEnd|] == head + " " + digits;
    TrailingDigitsAfterSpace(head, digits);
    NatToStringRoundTrip(k + 1);
  }
}
