/**
  INSERT assembly (app.py:214-220, 232-242, 313-320, 404-412, 449-457).

  Screen, field and field-logic rows collect their values in a Python dict keyed
  by column name: a repeated COLUMN_NAME keeps the place of its first occurrence
  and the value of its last. The project row collects two parallel lists instead.
  Either way the names and the values are joined with ", " in the same order.
 */
module Emitter {
  import opened Outcomes
  import opened Text
  import opened Sequences

  /** An insertion-ordered dict from column name to SQL literal. */
  type Row = seq<(string, string)>

  function Keys(d: Row): (r: seq<string>)
    ensures |r| == |d| && forall i :: 0 <= i < |d| ==> r[i] == d[i].0
  {
    seq(|d|, i requires 0 <= i < |d| => d[i].0)
  }

  function Values(d: Row): (r: seq<string>)
    ensures |r| == |d| && forall i :: 0 <= i < |d| ==> r[i] == d[i].1
  {
    seq(|d|, i requires 0 <= i < |d| => d[i].1)
  }

  /** `d[name] = value` on a dict (no repeated key): an existing key keeps its
      place and takes the new value; a new key goes to the end. */
  function Put(d: Row, name: string, value: string): (r: Row)
    requires NoDuplicates(Keys(d))
    ensures NoDuplicates(Keys(r))
    ensures Keys(r) == if name in Keys(d) then Keys(d) else Keys(d) + [name]
    ensures forall j :: 0 <= j < |r| && r[j].0 == name ==> r[j].1 == value
    ensures forall j :: 0 <= j < |d| && d[j].0 != name ==> r[j] == d[j]
  {
    if name in Keys(d) then
      var r := seq(|d|, i requires 0 <= i < |d| => if d[i].0 == name then (name, value) else d[i]);
      assert Keys(r) == Keys(d);
      r
    else
      var r := d + [(name, value)];
      assert Keys(r) == Keys(d) + [name];
      r
  }

  /** A dict filled from `pairs` left to right. */
  function FromPairs(pairs: Row): (d: Row)
    ensures NoDuplicates(Keys(d))
  {
    FromPairsUpTo(pairs, |pairs|)
  }

  /** The dict after the first `n` assignments. */
  function FromPairsUpTo(pairs: Row, n: nat): (d: Row)
    requires n <= |pairs|
    ensures NoDuplicates(Keys(d))
    decreases n
  {
    if n == 0 then [] else Put(FromPairsUpTo(pairs, n - 1), pairs[n - 1].0, pairs[n - 1].1)
  }

  /** The keys after `n` assignments are the first `n` names, de-duplicated. */
  lemma {:induction false} FromPairsKeys(pairs: Row, n: nat)
    requires n <= |pairs|
    ensures Keys(FromPairsUpTo(pairs, n)) == DedupUpTo(Keys(pairs), n)
    decreases n
  {
    if n > 0 {
      FromPairsKeys(pairs, n - 1);
      DedupUpToLast(Keys(pairs), n);
      KeysPutStep(FromPairsUpTo(pairs, n - 1), pairs[n - 1].0, pairs[n - 1].1, DedupUpTo(Keys(pairs), n - 1));
    }
  }

  lemma KeysPutStep(d: Row, x: string, v: string, prev: seq<string>)
    requires NoDuplicates(Keys(d)) && Keys(d) == prev
    ensures Keys(Put(d, x, v)) == if x in prev then prev else prev + [x]
  {
  }

  /** Every key of `d` is among the first `n` names and holds the value of the
      last of them with that name. */
  ghost predicate HoldsLastValues(pairs: Row, n: nat, d: Row)
    requires n <= |pairs|
  {
    forall j :: 0 <= j < |d| ==>
      && (exists i :: 0 <= i < n && Keys(pairs)[i] == d[j].0)
      && d[j].1 == pairs[LastIndexBefore(Keys(pairs), d[j].0, n)].1
  }

  lemma {:induction false} FromPairsValues(pairs: Row, n: nat)
    requires n <= |pairs|
    ensures HoldsLastValues(pairs, n, FromPairsUpTo(pairs, n))
    decreases n
  {
    if n > 0 {
      FromPairsValues(pairs, n - 1);
      var ks := Keys(pairs);
      var d := FromPairsUpTo(pairs, n - 1);
      var r := FromPairsUpTo(pairs, n);
      var x := pairs[n - 1].0;
      assert r == Put(d, x, pairs[n - 1].1);
      forall j | 0 <= j < |r|
        ensures && (exists i :: 0 <= i < n && ks[i] == r[j].0)
                && r[j].1 == pairs[LastIndexBefore(ks, r[j].0, n)].1
      {
        if r[j].0 == x {
          assert ks[n - 1] == x;
        } else {
          assert Keys(r)[j] == r[j].0;
          assert j < |d| && r[j] == d[j];
          var i :| 0 <= i < n - 1 && ks[i] == d[j].0;
          assert ks[n - 1] != r[j].0;
          assert LastIndexBefore(ks, r[j].0, n) == LastIndexBefore(ks, r[j].0, n - 1);
        }
      }
    }
  }

  /** The keys of the dict are the names in order of first occurrence, and each
      key holds the value of the last pair with that name. */
  lemma FromPairsContents(pairs: Row)
    ensures Keys(FromPairs(pairs)) == Dedup(Keys(pairs))
    ensures forall j :: 0 <= j < |FromPairs(pairs)| ==>
      FromPairs(pairs)[j].0 in Keys(pairs)
      && FromPairs(pairs)[j].1 == pairs[LastIndex(Keys(pairs), FromPairs(pairs)[j].0)].1
  {
    FromPairsKeys(pairs, |pairs|);
    FromPairsValues(pairs, |pairs|);
  }

  /** `INSERT INTO <table> (<names>) VALUES (<values>);` */
  function RenderInsert(table: string, names: seq<string>, values: seq<string>): string {
    "INSERT INTO " + table + " (" + Join(names, ", ") + ") VALUES (" + Join(values, ", ") + ");"
  }

  /** Pairs each name with the value at the same position. */
  function Zip(names: seq<string>, values: seq<string>): (d: Row)
    requires |names| == |values|
    ensures Keys(d) == names && Values(d) == values
  {
    seq(|names|, i requires 0 <= i < |names| => (names[i], values[i]))
  }

  /** The dict-built rows (screen, field, field-logic). `attempts[i]` is the
      resolution of the column `names[i]`; the first failing one aborts the row.
      Otherwise the INSERT names each distinct column once, in first-occurrence
      order, with the value of the last column of that name, and names and
      values pair up. */
  function DictInsert(table: string, names: seq<string>, attempts: seq<Res<string>>): (r: Res<string>)
    requires |names| == |attempts|
    ensures r.Ok? <==> forall i :: 0 <= i < |attempts| ==> attempts[i].Ok?
    ensures r.Fail? ==> Collect(attempts) == Fail(r.failure)
    ensures r.Ok? ==> exists d: Row ::
      && r.value == RenderInsert(table, Keys(d), Values(d))
      && Keys(d) == Dedup(names)
      && forall j :: 0 <= j < |d| ==>
           d[j].0 in names && attempts[LastIndex(names, d[j].0)] == Ok(d[j].1)
  {
    var values :- Collect(attempts);
    var pairs := Zip(names, values);
    var d := FromPairs(pairs);
    FromPairsContents(pairs);
    Ok(RenderInsert(table, Keys(d), Values(d)))
  }

  /** The list-built project row: one name and one value per rule, in rule order. */
  function ListInsert(table: string, names: seq<string>, attempts: seq<Res<string>>): (r: Res<string>)
    requires |names| == |attempts|
    ensures r.Ok? <==> forall i :: 0 <= i < |attempts| ==> attempts[i].Ok?
    ensures r.Fail? ==> Collect(attempts) == Fail(r.failure)
    ensures r.Ok? ==> exists values: seq<string> ::
      && r.value == RenderInsert(table, names, values)
      && |values| == |names|
      && forall i :: 0 <= i < |attempts| ==> attempts[i] == Ok(values[i])
  {
    var values :- Collect(attempts);
    Ok(RenderInsert(table, names, values))
  }
}
