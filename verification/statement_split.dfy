/**
  The statement splitter of run_insert_sql.py (`run_sql_file`, line 16): the
  file content is cut at every ';', each piece is stripped of surrounding
  whitespace, and the pieces that are left empty are dropped.
 */
module StatementSplit {
  import opened Text
  import opened Sequences

  /** `s.split(c)`: the pieces between the occurrences of `c`, in order. */
  function Split(s: string, c: char): (r: seq<string>)
    ensures |r| == Count(s, c) + 1
    ensures forall i :: 0 <= i < |r| ==> c !in r[i]
    decreases |s|
  {
    if c !in s then
      CountAbsent(s, c);
      [s]
    else
      var k := FirstIndex(s, c);
      var rest := Split(s[k + 1..], c);
      assert c !in s[..k];
      CountAbsent(s[..k], c);
      assert s == s[..k] + [c] + s[k + 1..];
      CountAppend(s[..k] + [c], s[k + 1..], c);
      CountAppend(s[..k], [c], c);
      [s[..k]] + rest
  }

  /** Splitting loses nothing: joining the pieces with `c` gives `s` back. */
  lemma {:induction false} SplitJoin(s: string, c: char)
    ensures Join(Split(s, c), [c]) == s
    decreases |s|
  {
    if c in s {
      var k := FirstIndex(s, c);
      var rest := Split(s[k + 1..], c);
      SplitJoin(s[k + 1..], c);
      assert |rest| >= 1;
      assert Split(s, c) == [s[..k]] + rest;
      assert s == s[..k] + [c] + s[k + 1..];
    }
  }

  /** Every piece stripped, in order. */
  function StripAll(pieces: seq<string>): (r: seq<string>)
    ensures |r| == |pieces| && forall i :: 0 <= i < |pieces| ==> r[i] == Strip(pieces[i])
  {
    seq(|pieces|, i requires 0 <= i < |pieces| => Strip(pieces[i]))
  }

  /** The non-empty strings of `xs`, in order. */
  function DropEmpty(xs: seq<string>): seq<string> {
    if xs == [] then []
    else (if xs[0] != "" then [xs[0]] else []) + DropEmpty(xs[1..])
  }

  /** `[stmt.strip() for stmt in content.split(';') if stmt.strip()]`. */
  function Statements(content: string): seq<string> {
    DropEmpty(StripAll(Split(content, ';')))
  }

  /** Splitting at a separator distributes: the pieces of `a + c + b` are the
      pieces of `a` followed by the pieces of `b`. */
  lemma {:induction false} SplitAppend(a: string, b: string, c: char)
    ensures Split(a + [c] + b, c) == Split(a, c) + Split(b, c)
    decreases |a|
  {
    if c !in a {
      SplitAppendFirst(a, b, c);
    } else {
      var k := FirstIndex(a, c);
      var rest := a[k + 1..];
      SplitAppendLater(a, b, c, k);
      SplitAppend(rest, b, c);
      ConcatAssoc([a[..k]], Split(rest, c), Split(b, c));
    }
  }

  lemma SplitAppendFirst(a: string, b: string, c: char)
    requires c !in a
    ensures Split(a + [c] + b, c) == [a] + Split(b, c)
    ensures Split(a, c) == [a]
  {
    var s := a + [c] + b;
    assert s[..|a|] == a;
    assert s[|a| + 1..] == b;
    SplitAt(s, c, |a|);
  }

  lemma SplitAppendLater(a: string, b: string, c: char, k: nat)
    requires k < |a| && a[k] == c && c !in a[..k]
    ensures Split(a + [c] + b, c) == [a[..k]] + Split(a[k + 1..] + [c] + b, c)
    ensures Split(a, c) == [a[..k]] + Split(a[k + 1..], c)
  {
    var s := a + [c] + b;
    assert s[..k] == a[..k];
    assert s[k + 1..] == a[k + 1..] + [c] + b;
    SplitAt(s, c, k);
    SplitAt(a, c, k);
  }

  /** The first piece ends at the first separator. */
  lemma SplitAt(s: string, c: char, k: nat)
    requires k < |s| && s[k] == c && c !in s[..k]
    ensures Split(s, c) == [s[..k]] + Split(s[k + 1..], c)
  {
    assert forall i :: 0 <= i < k ==> s[i] == s[..k][i];
    assert FirstIndex(s, c) == k;
  }

  /** DropEmpty maps concatenation to concatenation. */
  lemma {:induction false} DropEmptyAppend(xs: seq<string>, ys: seq<string>)
    ensures DropEmpty(xs + ys) == DropEmpty(xs) + DropEmpty(ys)
  {
    if xs == [] {
      assert xs + ys == ys;
    } else {
      assert (xs + ys)[0] == xs[0];
      assert (xs + ys)[1..] == xs[1..] + ys;
      DropEmptyAppend(xs[1..], ys);
    }
  }

  /** DropEmpty keeps exactly the non-empty strings, at most one per input. */
  lemma {:induction false} DropEmptyMembers(xs: seq<string>)
    ensures |DropEmpty(xs)| <= |xs|
    ensures forall s :: s in DropEmpty(xs) <==> s in xs && s != ""
  {
    if xs != [] {
      DropEmptyMembers(xs[1..]);
      assert xs == [xs[0]] + xs[1..];
    }
  }

  /** Statements on either side of a ';' are kept apart and in order. */
  lemma StatementsAppend(a: string, b: string)
    ensures Statements(a + ";" + b) == Statements(a) + Statements(b)
  {
    SplitAppend(a, b, ';');
    assert a + ";" + b == a + [';'] + b;
    StripAllAppend(Split(a, ';'), Split(b, ';'));
    DropEmptyAppend(StripAll(Split(a, ';')), StripAll(Split(b, ';')));
  }

  lemma StripAllAppend(xs: seq<string>, ys: seq<string>)
    ensures StripAll(xs + ys) == StripAll(xs) + StripAll(ys)
  {
  }

  /** A text without ';' is one statement, its strip, unless it is blank. */
  lemma StatementsSingle(s: string)
    requires ';' !in s
    ensures Statements(s) == if Strip(s) == "" then [] else [Strip(s)]
  {
    assert Split(s, ';') == [s];
    var t := Strip(s);
    assert StripAll([s]) == [t];
    assert DropEmpty([t]) == (if t != "" then [t] else []) + DropEmpty([]);
  }

  /** Stripping never introduces a character. */
  lemma StripKeepsOut(p: string, c: char)
    requires c !in p
    ensures c !in Strip(p)
  {
    var r := Strip(p);
    var i := StripStart(p);
    assert forall k :: 0 <= k < |r| ==> r[k] == p[i + k];
  }

  /** None of the statements is empty, contains ';' or starts or ends with
      whitespace, and there is at most one more than there are ';'. */
  lemma StatementsShape(content: string)
    ensures forall k :: 0 <= k < |Statements(content)| ==>
      && Statements(content)[k] != ""
      && ';' !in Statements(content)[k]
      && !IsSpace(Statements(content)[k][0])
      && !IsSpace(Statements(content)[k][|Statements(content)[k]| - 1])
    ensures |Statements(content)| <= Count(content, ';') + 1
  {
    var pieces := Split(content, ';');
    var r := Statements(content);
    var stripped := StripAll(pieces);
    DropEmptyMembers(stripped);
    forall k | 0 <= k < |r|
      ensures r[k] != "" && ';' !in r[k] && !IsSpace(r[k][0]) && !IsSpace(r[k][|r[k]| - 1])
    {
      assert r[k] in stripped;
      var j :| 0 <= j < |pieces| && stripped[j] == r[k];
      StripKeepsOut(pieces[j], ';');
    }
  }
}
