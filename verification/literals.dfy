/**
  SQL literal shapes written by the extractor, how a cell value is rendered as
  one (the direct-read branch of both resolvers in app.py), and the run's clock
  stamps (system id and system date, app.py lines 9-11).

  `Decode` reads a rendered literal back: `N'...'` is a national string, `'...'`
  a plain string, anything else a bare token such as `NULL` or a numeral. The
  contracts below state each rendering by what decoding it gives back.
 */
module Literals {
  import opened Outcomes
  import opened Decimal
  import opened Sheets

  /** The SQL empty-string literal `''`. */
  const EmptyLiteral := "''"

  function Quote(s: string): string {
    "'" + s + "'"
  }

  /** `N'...'` for an nvarchar column, `'...'` otherwise. */
  function QuoteFor(s: string, nvarchar: bool): string {
    if nvarchar then "N" + Quote(s) else Quote(s)
  }

  datatype Literal = Plain(text: string) | National(text: string) | Token(text: string)

  function Decode(q: string): Literal {
    if |q| >= 3 && q[0] == 'N' && q[1] == '\'' && q[|q| - 1] == '\'' then National(q[2..|q| - 1])
    else if |q| >= 2 && q[0] == '\'' && q[|q| - 1] == '\'' then Plain(q[1..|q| - 1])
    else Token(q)
  }

  lemma DecodeQuoteFor(s: string, nvarchar: bool)
    ensures Decode(QuoteFor(s, nvarchar)) == if nvarchar then National(s) else Plain(s)
  {
    var q := QuoteFor(s, nvarchar);
    if nvarchar {
      assert q[2..|q| - 1] == s;
    } else {
      assert q[1..|q| - 1] == s;
    }
  }

  /** A decimal numeral is a bare token. */
  lemma DecodeNumeral(i: int)
    ensures Decode(IntToString(i)) == Token(IntToString(i))
  {
  }

  /** The body of a well-formed SQL string literal: every quote is doubled. */
  predicate QuotesDoubled(s: string)
    decreases |s|
  {
    if s == [] then true
    else if s[0] != '\'' then QuotesDoubled(s[1..])
    else |s| >= 2 && s[1] == '\'' && QuotesDoubled(s[2..])
  }

  /** `strftime('%Y-%m-%d %H:%M:%S')`. The year is written without padding, as the
      C library on Linux does for years below 1000; the other fields are two digits. */
  function FormatDateTime(dt: DateTime): string {
    NatToString(dt.year) + StampTail(dt)
  }

  /** Reads a `YYYY-MM-DD HH:MM:SS` stamp: the fixed-width tail after the year. */
  function ParseDateTime(t: string): Option<DateTime> {
    if |t| < 16 then None else ParseStamp(t[..|t| - 15], t[|t| - 15..])
  }

  function ParseStamp(year: string, tail: string): Option<DateTime>
    requires |tail| == 15
  {
    if && AllDigits(year) && tail[0] == '-' && tail[3] == '-' && tail[6] == ' ' && tail[9] == ':' && tail[12] == ':'
       && AllDigits(tail[1..3]) && AllDigits(tail[4..6]) && AllDigits(tail[7..9])
       && AllDigits(tail[10..12]) && AllDigits(tail[13..15])
    then
      var y, mo, d := DigitsValue(year), DigitsValue(tail[1..3]), DigitsValue(tail[4..6]);
      var h, mi, s := DigitsValue(tail[7..9]), DigitsValue(tail[10..12]), DigitsValue(tail[13..15]);
      if 1 <= y <= 9999 && 1 <= mo <= 12 && 1 <= d <= 31 && h <= 23 && mi <= 59 && s <= 59 then
        Some(DateTime(y, mo, d, h, mi, s))
      else None
    else None
  }

  /** The fixed-width part `-MM-DD HH:MM:SS` of a timestamp. */
  function StampTail(dt: DateTime): string {
    "-" + Pad2(dt.month) + "-" + Pad2(dt.day) + " " + Pad2(dt.hour) + ":" + Pad2(dt.minute) + ":" + Pad2(dt.second)
  }

  lemma StampTailFields(dt: DateTime)
    ensures var tail := StampTail(dt);
      && |tail| == 15
      && tail[0] == '-' && tail[3] == '-' && tail[6] == ' ' && tail[9] == ':' && tail[12] == ':'
      && tail[1..3] == Pad2(dt.month) && tail[4..6] == Pad2(dt.day) && tail[7..9] == Pad2(dt.hour)
      && tail[10..12] == Pad2(dt.minute) && tail[13..15] == Pad2(dt.second)
  {
  }

  lemma ParseStampTail(dt: DateTime)
    ensures |StampTail(dt)| == 15
    ensures ParseStamp(NatToString(dt.year), StampTail(dt)) == Some(dt)
  {
    var tail := StampTail(dt);
    StampTailFields(dt);
    NatToStringRoundTrip(dt.year);
    assert DigitsValue(tail[1..3]) == dt.month;
    assert DigitsValue(tail[4..6]) == dt.day;
    assert DigitsValue(tail[7..9]) == dt.hour;
    assert DigitsValue(tail[10..12]) == dt.minute;
    assert DigitsValue(tail[13..15]) == dt.second;
  }

  /** The timestamp format is read back to the same date-time. */
  lemma FormatDateTimeRoundTrip(dt: DateTime)
    ensures ParseDateTime(FormatDateTime(dt)) == Some(dt)
  {
    var y := NatToString(dt.year);
    var t := FormatDateTime(dt);
    ParseStampTail(dt);
    assert t[..|t| - 15] == y;
    assert t[|t| - 15..] == StampTail(dt);
  }

  /** The direct-read rendering of a resolved cell value (app.py:95-107, 150-163):
      no value gives `''`; text is quoted verbatim, `N`-prefixed for nvarchar;
      an integer is its canonical numeral, which by `CanonicalNumeralUnique` is
      exactly `str(n)`; a date-time is a quoted timestamp. */
  function FormatCell(v: CellValue, nvarchar: bool): string {
    match v
    case NoValue => EmptyLiteral
    case Str(t) => QuoteFor(t, nvarchar)
    case Int(n) => IntToString(n)
    case Stamp(dt) => Quote(FormatDateTime(dt))
  }

  /** What `FormatCell` writes, read back through the SQL literal grammar. */
  lemma FormatCellSpec(v: CellValue, nvarchar: bool)
    ensures v == NoValue ==> FormatCell(v, nvarchar) == EmptyLiteral
    ensures v.Str? ==> Decode(FormatCell(v, nvarchar)) == if nvarchar then National(v.text) else Plain(v.text)
    ensures v.Int? ==> var r := FormatCell(v, nvarchar);
      IsCanonicalNumeral(r) && ParseInt(r) == Some(v.number) && Decode(r) == Token(r)
    ensures v.Stamp? ==> var r := FormatCell(v, nvarchar);
      Decode(r).Plain? && ParseDateTime(Decode(r).text) == Some(v.at)
  {
    match v
    case NoValue =>
    case Str(t) => DecodeQuoteFor(t, nvarchar);
    case Int(n) => IntToStringRoundTrip(n);
    case Stamp(dt) =>
      DecodeQuoteFor(FormatDateTime(dt), false);
      FormatDateTimeRoundTrip(dt);
  }

  /** Text is embedded without escaping, so a single quote in a cell ends the SQL
      string early: the literal written for the text O'Brien is not well formed. */
  lemma UnescapedQuoteEndsLiteral()
    ensures FormatCell(Str("O'Brien"), true) == "N'O'Brien'"
    ensures !QuotesDoubled(Decode(FormatCell(Str("O'Brien"), true)).text)
  {
    var body := Decode(FormatCell(Str("O'Brien"), true)).text;
    assert body == "O'Brien";
    assert body[1..] == "'Brien";
  }

  // ---------------------------------------------------------------------------
  // The run's clock stamps
  // ---------------------------------------------------------------------------

  /** The per-run values read from the clock once at start-up. */
  datatype RunContext = RunContext(systemId: string, systemDate: string)

  /** `systemid_value` is the time of day as HHMMSS and `system_date_value` the date
      as YYYY-MM-DD; together they are exactly the run's timestamp. */
  function ContextAt(now: DateTime): (ctx: RunContext)
    ensures |ctx.systemId| == 6 && AllDigits(ctx.systemId)
    ensures DigitsValue(ctx.systemId[..2]) == now.hour
    ensures DigitsValue(ctx.systemId[2..4]) == now.minute
    ensures DigitsValue(ctx.systemId[4..]) == now.second
    ensures FormatDateTime(now)
      == ctx.systemDate + " " + ctx.systemId[..2] + ":" + ctx.systemId[2..4] + ":" + ctx.systemId[4..]
  {
    var hh, mm, ss := Pad2(now.hour), Pad2(now.minute), Pad2(now.second);
    var id := hh + mm + ss;
    var date := NatToString(now.year) + "-" + Pad2(now.month) + "-" + Pad2(now.day);
    assert id[..2] == hh && id[2..4] == mm && id[4..] == ss;
    StampTimeOfDay(now);
    RunContext(id, date)
  }

  lemma StampTimeOfDay(now: DateTime)
    ensures FormatDateTime(now)
      == (NatToString(now.year) + "-" + Pad2(now.month) + "-" + Pad2(now.day))
         + " " + Pad2(now.hour) + ":" + Pad2(now.minute) + ":" + Pad2(now.second)
  {
  }
}
