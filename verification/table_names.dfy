/**
  The helpers of genjson.py: the table names of the INSERT statements of a
  script (lines 63-71), the fixed key order of the grouped mapping (lines
  40-47) and the BLANK marker of the mapping sheet (lines 19-20).

  The line pattern is `^\s*INSERT INTO\s+([A-Z0-9_]+)\s*\(` compiled with
  IGNORECASE on `str`. Under Python's Unicode case-insensitive matching the
  pattern letter I also matches U+0130 and U+0131, S also matches U+017F, and
  the class [A-Z] also matches those three and U+212A (KELVIN SIGN). `\s` is the
  whitespace of `str.isspace()`.
 */
module TableNames {
  import opened Outcomes
  import opened Text
  import opened Sequences
  import opened Sheets

  const Keyword := "INSERT INTO"

  /** `c` matches the pattern letter `p` of the keyword, ignoring case. */
  predicate KeywordChar(c: char, p: char) {
    if p == 'I' then c == 'I' || c == 'i' || c == '\U{0130}' || c == '\U{0131}'
    else if p == 'S' then c == 'S' || c == 's' || c == '\U{017F}'
    else if 'A' <= p <= 'Z' then c == p || c == (p as int + 32) as char
    else c == p
  }

  predicate KeywordMatches(kw: string) {
    |kw| == |Keyword| && forall i :: 0 <= i < |kw| ==> KeywordChar(kw[i], Keyword[i])
  }

  /** `[A-Z0-9_]` under IGNORECASE. */
  predicate IsNameChar(c: char) {
    || 'A' <= c <= 'Z' || 'a' <= c <= 'z' || '0' <= c <= '9' || c == '_'
    || c == '\U{0130}' || c == '\U{0131}' || c == '\U{017F}' || c == '\U{212A}'
  }

  predicate AllNameChars(s: string) {
    forall i :: 0 <= i < |s| ==> IsNameChar(s[i])
  }

  /** The longest prefix of `s` made of name characters. */
  function NameRun(s: string): (r: string)
    ensures |r| <= |s| && r == s[..|r|] && AllNameChars(r)
    ensures |r| == |s| || !IsNameChar(s[|r|])
  {
    if s != [] && IsNameChar(s[0]) then
      var rest := NameRun(s[1..]);
      assert s[1..][..|rest|] == s[1..|rest| + 1];
      [s[0]] + rest
    else []
  }

  /** `pattern.search(line)`, group 1. The leading `\s*`, the `\s+` and the
      name are each taken as long as possible; since neither the keyword's first
      letter nor a name character nor '(' is whitespace, and '(' is not a name
      character, that is the only way the pattern can match. */
  function MatchInsert(line: string): Option<string> {
    AfterLead(TrimLeft(line))
  }

  /** The keyword right at the start, then the rest of the pattern. */
  function AfterLead(s: string): Option<string> {
    if |s| < |Keyword| || !KeywordMatches(s[..|Keyword|]) then None
    else AfterKeyword(s[|Keyword|..])
  }

  /** At least one whitespace character, then the rest of the pattern. */
  function AfterKeyword(g: string): Option<string> {
    var t := TrimLeft(g);
    if |t| == |g| then None else AfterGap(t)
  }

  /** The name, as long as possible and not empty, then `\s*\(`. */
  function AfterGap(t: string): Option<string> {
    var name := NameRun(t);
    if name != [] && OpensParen(t[|name|..]) then Some(name) else None
  }

  /** `\s*\(` at the start of `s`. */
  predicate OpensParen(s: string) {
    var u := TrimLeft(s);
    u != [] && u[0] == '('
  }

  /** `line` is laid out as the pattern requires, with `name` in the group. */
  ghost predicate InsertShape(line: string, lead: string, kw: string, gap: string, name: string, pad: string, rest: string) {
    && line == lead + (kw + (gap + (name + (pad + ("(" + rest)))))
    && AllSpace(lead) && KeywordMatches(kw) && gap != [] && AllSpace(gap)
    && name != [] && AllNameChars(name) && AllSpace(pad)
  }

  lemma KeywordNotSpace(kw: string)
    requires KeywordMatches(kw)
    ensures !IsSpace(kw[0])
  {
    assert KeywordChar(kw[0], Keyword[0]);
  }

  /** The part of the shape after the keyword's whitespace. */
  ghost predicate NameShape(t: string, name: string, pad: string, rest: string) {
    t == name + (pad + ("(" + rest)) && name != [] && AllNameChars(name) && AllSpace(pad)
  }

  lemma OpensParenSound(s: string) returns (pad: string, rest: string)
    requires OpensParen(s)
    ensures s == pad + ("(" + rest) && AllSpace(pad)
  {
    var u := TrimLeft(s);
    pad := s[..|s| - |u|];
    rest := u[1..];
    assert u == "(" + rest;
    assert s == pad + u;
  }

  lemma AfterGapSound(t: string) returns (pad: string, rest: string)
    requires AfterGap(t).Some?
    ensures NameShape(t, AfterGap(t).value, pad, rest)
  {
    var name := NameRun(t);
    pad, rest := OpensParenSound(t[|name|..]);
    assert t == name + t[|name|..];
  }

  lemma AfterKeywordSound(g: string) returns (gap: string, t: string, pad: string, rest: string)
    requires AfterKeyword(g).Some?
    ensures g == gap + t && gap != [] && AllSpace(gap)
    ensures NameShape(t, AfterKeyword(g).value, pad, rest)
  {
    t := TrimLeft(g);
    gap := g[..|g| - |t|];
    assert g == gap + t;
    pad, rest := AfterGapSound(t);
  }

  /** The shape of the line once the leading whitespace is skipped. */
  ghost predicate KeywordShape(s: string, kw: string, gap: string, name: string, pad: string, rest: string) {
    && s == kw + (gap + (name + (pad + ("(" + rest))))
    && KeywordMatches(kw) && gap != [] && AllSpace(gap)
    && name != [] && AllNameChars(name) && AllSpace(pad)
  }

  lemma AfterLeadSound(s: string) returns (kw: string, gap: string, pad: string, rest: string)
    requires AfterLead(s).Some?
    ensures KeywordShape(s, kw, gap, AfterLead(s).value, pad, rest)
  {
    kw := s[..|Keyword|];
    var g := s[|Keyword|..];
    assert s == kw + g;
    var t;
    gap, t, pad, rest := AfterKeywordSound(g);
  }

  lemma LeadSplit(line: string) returns (lead: string, s: string)
    ensures s == TrimLeft(line) && line == lead + s && AllSpace(lead)
  {
    s := TrimLeft(line);
    lead := line[..|line| - |s|];
    assert line == lead + s;
  }

  /** A name is reported only for a line of the INSERT shape. */
  lemma MatchInsertSound(line: string)
    requires MatchInsert(line).Some?
    ensures exists lead, kw, gap, pad, rest ::
      InsertShape(line, lead, kw, gap, MatchInsert(line).value, pad, rest)
  {
    var lead, s := LeadSplit(line);
    var kw, gap, pad, rest := AfterLeadSound(s);
    assert InsertShape(line, lead, kw, gap, MatchInsert(line).value, pad, rest);
  }

  /** TrimLeft skips exactly a whitespace prefix that is followed by a non-space. */
  lemma {:induction false} TrimLeftPrefix(a: string, b: string)
    requires AllSpace(a)
    requires b == [] || !IsSpace(b[0])
    ensures TrimLeft(a + b) == b
    decreases |a|
  {
    if a == [] {
      assert a + b == b;
    } else {
      assert (a + b)[1..] == a[1..] + b;
      TrimLeftPrefix(a[1..], b);
    }
  }

  lemma {:induction false} NameRunPrefix(name: string, b: string)
    requires AllNameChars(name)
    requires b == [] || !IsNameChar(b[0])
    ensures NameRun(name + b) == name
    decreases |name|
  {
    if name == [] {
      assert name + b == b;
    } else {
      assert (name + b)[1..] == name[1..] + b;
      NameRunPrefix(name[1..], b);
    }
  }

  lemma AfterGapComplete(name: string, pad: string, rest: string)
    requires name != [] && AllNameChars(name) && AllSpace(pad)
    ensures AfterGap(name + (pad + ("(" + rest))) == Some(name)
  {
    var tail := "(" + rest;
    var afterName := pad + tail;
    assert !IsNameChar(afterName[0]) by {
      if pad == [] {
        assert afterName[0] == '(';
      } else {
        assert afterName[0] == pad[0] && IsSpace(pad[0]);
      }
    }
    NameRunPrefix(name, afterName);
    assert (name + afterName)[|name|..] == afterName;
    TrimLeftPrefix(pad, tail);
  }

  lemma AfterKeywordComplete(gap: string, name: string, pad: string, rest: string)
    requires gap != [] && AllSpace(gap) && name != [] && AllNameChars(name) && AllSpace(pad)
    ensures AfterKeyword(gap + (name + (pad + ("(" + rest)))) == Some(name)
  {
    var afterGap := name + (pad + ("(" + rest));
    assert afterGap[0] == name[0];
    TrimLeftPrefix(gap, afterGap);
    AfterGapComplete(name, pad, rest);
  }

  /** Every line of the INSERT shape yields its table name, whatever follows
      the '('. Together with soundness: the captured name is unique. */
  lemma MatchInsertComplete(line: string, lead: string, kw: string, gap: string, name: string, pad: string, rest: string)
    requires InsertShape(line, lead, kw, gap, name, pad, rest)
    ensures MatchInsert(line) == Some(name)
  {
    KeywordNotSpace(kw);
    var gapAll := gap + (name + (pad + ("(" + rest)));
    var afterLead := kw + gapAll;
    assert afterLead[0] == kw[0];
    TrimLeftPrefix(lead, afterLead);
    assert afterLead[..|Keyword|] == kw;
    assert afterLead[|Keyword|..] == gapAll;
    AfterKeywordComplete(gap, name, pad, rest);
  }

  /** The present values of `xs`, in order. */
  function Somes(xs: seq<Option<string>>): (r: seq<string>)
    ensures |r| <= |xs|
    ensures forall x :: x in r <==> Some(x) in xs
  {
    if xs == [] then []
    else
      var here := match xs[0] case Some(x) => [x] case None => [];
      assert xs == [xs[0]] + xs[1..];
      here + Somes(xs[1..])
  }

  lemma {:induction false} SomesAppend(xs: seq<Option<string>>, ys: seq<Option<string>>)
    ensures Somes(xs + ys) == Somes(xs) + Somes(ys)
  {
    if xs == [] {
      assert xs + ys == ys;
    } else {
      assert (xs + ys)[0] == xs[0];
      assert (xs + ys)[1..] == xs[1..] + ys;
      SomesAppend(xs[1..], ys);
    }
  }

  /** `pattern.search` applied to every line. */
  function MatchAll(lines: seq<string>): (r: seq<Option<string>>)
    ensures |r| == |lines| && forall i :: 0 <= i < |lines| ==> r[i] == MatchInsert(lines[i])
  {
    seq(|lines|, i requires 0 <= i < |lines| => MatchInsert(lines[i]))
  }

  /** The names found, one per matching line, in line order, repeats kept. */
  function RawTableNames(lines: seq<string>): (r: seq<string>)
    ensures |r| <= |lines|
    ensures forall n :: n in r <==> exists i :: 0 <= i < |lines| && MatchAll(lines)[i] == Some(n)
  {
    var ms := MatchAll(lines);
    SomesMembers(ms);
    Somes(ms)
  }

  lemma SomesMembers(xs: seq<Option<string>>)
    ensures forall n :: n in Somes(xs) <==> exists i :: 0 <= i < |xs| && xs[i] == Some(n)
  {
  }

  /** The raw list follows the lines: the names of a concatenation of scripts
      are the names of the first followed by those of the second. */
  lemma RawTableNamesAppend(a: seq<string>, b: seq<string>)
    ensures RawTableNames(a + b) == RawTableNames(a) + RawTableNames(b)
  {
    assert MatchAll(a + b) == MatchAll(a) + MatchAll(b);
    SomesAppend(MatchAll(a), MatchAll(b));
  }

  /** One line contributes its name if it matches and nothing otherwise. */
  lemma RawTableNamesSingle(line: string)
    ensures RawTableNames([line]) == match MatchInsert(line) case Some(n) => [n] case None => []
  {
    var ms := MatchAll([line]);
    assert ms == [ms[0]];
    assert Somes(ms) == (match ms[0] case Some(n) => [n] case None => []) + Somes(ms[1..]);
  }

  /** `list(dict.fromkeys(names))`: a dict used as an ordered set. */
  method UniqueNames(names: seq<string>) returns (unique: seq<string>)
    ensures unique == Dedup(names)
    ensures NoDuplicates(unique)
    ensures forall n :: n in unique <==> n in names
  {
    unique := [];
    var i := 0;
    while i < |names|
      invariant 0 <= i <= |names|
      invariant unique == DedupUpTo(names, i)
    {
      if names[i] !in unique {
        unique := unique + [names[i]];
      }
      i := i + 1;
    }
    DedupMembers(names);
  }

  /** The unique table names of a script, in order of first appearance. */
  method TableNamesOf(lines: seq<string>) returns (unique: seq<string>)
    ensures NoDuplicates(unique)
    ensures forall n :: n in unique <==> exists i :: 0 <= i < |lines| && MatchAll(lines)[i] == Some(n)
    ensures unique == Dedup(RawTableNames(lines))
  {
    var raw := RawTableNames(lines);
    unique := UniqueNames(raw);
  }

  // ---------------------------------------------------------------------------
  // The key order of the grouped mapping
  // ---------------------------------------------------------------------------

  const KeyOrder: seq<string> := [
    "T_KIHON_PJ", "T_KIHON_PJ_GAMEN", "T_KIHON_PJ_GAMEN_YOUKEN", "T_KIHON_PJ_KOUMOKU",
    "T_KIHON_PJ_KOUMOKU_LOGIC", "T_KIHON_PJ_FUNC", "T_KIHON_PJ_FUNC_LOGIC", "T_KIHON_PJ_IPO",
    "T_KIHON_PJ_KOUMOKU_CSV", "T_KIHON_PJ_KOUMOKU_CSV_LOGIC", "T_KIHON_PJ_KOUMOKU_RE",
    "T_KIHON_PJ_KOUMOKU_RE_LOGIC", "T_KIHON_PJ_MENU", "T_KIHON_PJ_MESSAGE", "T_KIHON_PJ_TAB"
  ]

  /** The keys of an ordered dict, in order. */
  function KeysOf<V>(r: seq<(string, V)>): (ks: seq<string>)
    ensures |ks| == |r| && forall j :: 0 <= j < |r| ==> ks[j] == r[j].0
  {
    seq(|r|, j requires 0 <= j < |r| => r[j].0)
  }

  /** Fills an ordered dict with the entries of `grouped` whose key is in
      `order`, visiting `order` from the front: a key is present exactly when it
      is both listed and grouped, and it holds its group. */
  function PickInOrder<V>(order: seq<string>, grouped: map<string, V>): (r: seq<(string, V)>)
    ensures |r| <= |order|
    ensures forall k :: k in KeysOf(r) <==> k in order && k in grouped
    ensures forall j :: 0 <= j < |r| ==> r[j].0 in grouped && r[j].1 == grouped[r[j].0]
  {
    if order == [] then []
    else
      var rest := PickInOrder(order[1..], grouped);
      var here := if order[0] in grouped then [(order[0], grouped[order[0]])] else [];
      var r := here + rest;
      assert order == [order[0]] + order[1..];
      KeysOfAppend(here, rest);
      assert KeysOf(here) == if order[0] in grouped then [order[0]] else [];
      r
  }

  lemma KeysOfAppend<V>(x: seq<(string, V)>, y: seq<(string, V)>)
    ensures KeysOf(x + y) == KeysOf(x) + KeysOf(y)
  {
  }

  /** The picking follows `order`: the picks of `a + b` are the picks of `a`
      followed by those of `b`, and one key contributes its entry if present. */
  lemma {:induction false} PickInOrderAppend<V>(a: seq<string>, b: seq<string>, grouped: map<string, V>)
    ensures PickInOrder(a + b, grouped) == PickInOrder(a, grouped) + PickInOrder(b, grouped)
  {
    if a == [] {
      assert a + b == b;
    } else {
      assert (a + b)[0] == a[0];
      assert (a + b)[1..] == a[1..] + b;
      PickInOrderAppend(a[1..], b, grouped);
      var here := if a[0] in grouped then [(a[0], grouped[a[0]])] else [];
      ConcatAssoc(here, PickInOrder(a[1..], grouped), PickInOrder(b, grouped));
    }
  }

  lemma PickInOrderSingle<V>(k: string, grouped: map<string, V>)
    ensures PickInOrder([k], grouped) == if k in grouped then [(k, grouped[k])] else []
  {
    assert [k][1..] == [];
  }

  /** The ordered mapping written to the JSON file: the tables of `KeyOrder`
      that are present, each with its own group; any other table is left out.
      The order is that of `KeyOrder`, by PickInOrderAppend. */
  function OrderGroups<V>(grouped: map<string, V>): (r: seq<(string, V)>)
    ensures forall k :: k in KeysOf(r) <==> k in KeyOrder && k in grouped
    ensures forall j :: 0 <= j < |r| ==> r[j].0 in grouped && r[j].1 == grouped[r[j].0]
  {
    PickInOrder(KeyOrder, grouped)
  }

  // ---------------------------------------------------------------------------
  // The BLANK marker
  // ---------------------------------------------------------------------------

  const Blank := Str("BLANK")

  /** `series.replace('BLANK', '')`: a cell equal to the string BLANK becomes
      the empty string; every other cell is kept. */
  function ReplaceBlank(values: seq<CellValue>): (r: seq<CellValue>)
    ensures |r| == |values| && Blank !in r
    ensures forall i :: 0 <= i < |values| && values[i] != Blank ==> r[i] == values[i]
    ensures forall i :: 0 <= i < |values| && values[i] == Blank ==> r[i] == Str("")
  {
    seq(|values|, i requires 0 <= i < |values| => if values[i] == Blank then Str("") else values[i])
  }

  /** After the replacement no BLANK is left, and replacing again changes nothing. */
  lemma ReplaceBlankClears(values: seq<CellValue>)
    ensures Blank !in ReplaceBlank(values)
    ensures ReplaceBlank(ReplaceBlank(values)) == ReplaceBlank(values)
  {
  }

  /** The frame step: only the VALUE column is touched, and only when present. */
  function ReplaceBlankColumn(frame: map<string, seq<CellValue>>): (r: map<string, seq<CellValue>>)
    ensures r.Keys == frame.Keys
    ensures forall c :: c in frame && c != "VALUE" ==> r[c] == frame[c]
    ensures "VALUE" in frame ==> r["VALUE"] == ReplaceBlank(frame["VALUE"])
  {
    if "VALUE" in frame then frame["VALUE" := ReplaceBlank(frame["VALUE"])] else frame
  }
}
