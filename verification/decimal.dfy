/**
  Decimal rendering as Python's `str(int)` and `f"{n:02d}"` produce it, with the
  parsers that invert them. Every sequence number the tool writes into SQL is
  rendered here, so the round trips below are what make "the value written is
  the counter" a provable statement.
 */
module Decimal {
  import opened Outcomes

  predicate IsDigit(c: char) {
    '0' <= c <= '9'
  }

  predicate AllDigits(s: string) {
    forall i :: 0 <= i < |s| ==> IsDigit(s[i])
  }

  function DigitChar(d: nat): (c: char)
    requires d < 10
    ensures IsDigit(c)
  {
    (48 + d) as char
  }

  function DigitValue(c: char): nat
    requires IsDigit(c)
  {
    c as int - 48
  }

  /** The value of a run of decimal digits, most significant first. */
  function DigitsValue(s: string): nat
    requires AllDigits(s)
  {
    if s == [] then 0
    else DigitsValue(s[..|s| - 1]) * 10 + DigitValue(s[|s| - 1])
  }

  /** `str(n)` for a non-negative integer: at least one digit and no leading zero. */
  function NatToString(n: nat): (s: string)
    ensures 1 <= |s| && AllDigits(s)
    ensures |s| == 1 || s[0] != '0'
    ensures n > 0 ==> s[0] != '0'
    decreases n
  {
    if n < 10 then [DigitChar(n)] else NatToString(n / 10) + [DigitChar(n % 10)]
  }

  lemma {:induction false} NatToStringRoundTrip(n: nat)
    ensures DigitsValue(NatToString(n)) == n
    decreases n
  {
    if n >= 10 {
      var s := NatToString(n);
      assert s[..|s| - 1] == NatToString(n / 10);
      NatToStringRoundTrip(n / 10);
    }
  }

  /** Numbers of at most four digits are at least 1000 exactly when they print with four. */
  lemma {:induction false} NatToStringLength(n: nat)
    ensures n < 10 <==> |NatToString(n)| == 1
    ensures 10 <= n < 100 ==> |NatToString(n)| == 2
    ensures 100 <= n < 1000 ==> |NatToString(n)| == 3
    ensures 1000 <= n < 10000 ==> |NatToString(n)| == 4
    decreases n
  {
    if n >= 10 {
      NatToStringLength(n / 10);
    }
  }

  /** `str(i)` for any integer: a minus sign exactly for negative values. */
  function IntToString(i: int): (s: string)
    ensures 1 <= |s|
    ensures s[0] == '-' <==> i < 0
    ensures i >= 0 ==> AllDigits(s)
    ensures IsCanonicalNumeral(s)
  {
    if i < 0 then "-" + NatToString(-i) else NatToString(i)
  }

  /** The shape of `str(i)`: digits without a leading zero, after a minus sign
      only when the digits are not zero. */
  predicate IsCanonicalNumeral(s: string) {
    || (|s| >= 1 && AllDigits(s) && (|s| == 1 || s[0] != '0'))
    || (|s| >= 2 && s[0] == '-' && AllDigits(s[1..]) && s[1] != '0')
  }

  /** Reads back an optionally negative run of decimal digits. */
  function ParseInt(s: string): Option<int> {
    if |s| >= 2 && s[0] == '-' && AllDigits(s[1..]) then Some(-(DigitsValue(s[1..]) as int))
    else if |s| >= 1 && AllDigits(s) then Some(DigitsValue(s))
    else None
  }

  /** `str(i)` is read back as `i`: a rendered counter carries its value. */
  lemma IntToStringRoundTrip(i: int)
    ensures ParseInt(IntToString(i)) == Some(i)
  {
    var s := IntToString(i);
    if i < 0 {
      var t := NatToString(-i);
      assert s[1..] == t;
      NatToStringRoundTrip(-i);
      assert ParseInt(s) == Some(-(DigitsValue(t) as int));
    } else {
      NatToStringRoundTrip(i);
      assert s[0] != '-';
    }
  }

  /** `f"{n:02d}"` and the two-digit fields of `strftime`: zero-padded to width two. */
  function Pad2(n: nat): (s: string)
    ensures AllDigits(s) && 2 <= |s|
    ensures n < 100 ==> |s| == 2
    ensures DigitsValue(s) == n
  {
    NatToStringLength(n);
    NatToStringRoundTrip(n);
    if n < 10 then
      var s := "0" + NatToString(n);
      assert s[..1] == "0";
      s
    else
      NatToString(n)
  }

  /** A canonical numeral is `str` of the number it reads as: `str(int)` is the
      only canonical spelling of a number. */
  lemma CanonicalNumeralUnique(s: string)
    requires IsCanonicalNumeral(s)
    ensures ParseInt(s).Some? && IntToString(ParseInt(s).value) == s
  {
    if |s| >= 2 && s[0] == '-' && AllDigits(s[1..]) && s[1] != '0' {
      var d := s[1..];
      DigitsNatToString(d);
      DigitsValuePositive(d);
      assert s == "-" + d;
    } else {
      DigitsNatToString(s);
    }
  }

  /** A run of digits without a leading zero is `str` of its value. */
  lemma {:induction false} DigitsNatToString(d: string)
    requires 1 <= |d| && AllDigits(d) && (|d| == 1 || d[0] != '0')
    ensures NatToString(DigitsValue(d)) == d
    decreases |d|
  {
    var p := d[..|d| - 1];
    if |d| == 1 {
      assert p == [];
    } else {
      assert p[0] == d[0];
      DigitsNatToString(p);
      DigitsValuePositive(p);
      var n := DigitsValue(d);
      assert n / 10 == DigitsValue(p) && n % 10 == DigitValue(d[|d| - 1]);
      assert d == p + [d[|d| - 1]];
    }
  }

  /** Digits led by a non-zero digit have a positive value. */
  lemma {:induction false} DigitsValuePositive(d: string)
    requires 1 <= |d| && AllDigits(d) && d[0] != '0'
    ensures DigitsValue(d) >= 1 && (|d| >= 2 ==> DigitsValue(d) >= 10)
    decreases |d|
  {
    var p := d[..|d| - 1];
    if |d| >= 2 {
      assert p[0] == d[0];
      DigitsValuePositive(p);
    }
  }
}
