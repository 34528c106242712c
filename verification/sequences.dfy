/**
  Order-preserving de-duplication, the behaviour of `list(dict.fromkeys(xs))`
  and of the key order of a Python dict filled left to right.
 */
module Sequences {

  predicate NoDuplicates<T(==)>(xs: seq<T>) {
    forall i, j :: 0 <= i < j < |xs| ==> xs[i] != xs[j]
  }

  /** The position of the first occurrence of `x` in `xs`. */
  function FirstIndex<T(==)>(xs: seq<T>, x: T): (k: nat)
    requires x in xs
    ensures k < |xs| && xs[k] == x
    ensures forall i :: 0 <= i < k ==> xs[i] != x
  {
    FirstIndexFrom(xs, x, 0)
  }

  /** The first occurrence of `x` at or after `from`. */
  function FirstIndexFrom<T(==)>(xs: seq<T>, x: T, from: nat): (k: nat)
    requires from <= |xs| && exists i :: from <= i < |xs| && xs[i] == x
    ensures from <= k < |xs| && xs[k] == x
    ensures forall i :: from <= i < k ==> xs[i] != x
    decreases |xs| - from
  {
    if xs[from] == x then from else FirstIndexFrom(xs, x, from + 1)
  }

  /** Each element once, at the place of its first occurrence: the elements of
      `xs` are visited from the front and each is appended unless already kept. */
  function Dedup<T(==)>(xs: seq<T>): seq<T> {
    DedupUpTo(xs, |xs|)
  }

  /** The de-duplication of the first `n` elements of `xs`. */
  function DedupUpTo<T(==)>(xs: seq<T>, n: nat): seq<T>
    requires n <= |xs|
    decreases n
  {
    if n == 0 then []
    else
      var d := DedupUpTo(xs, n - 1);
      if xs[n - 1] in d then d else d + [xs[n - 1]]
  }

  /** The last of the first `n` elements is appended exactly when it is new. */
  lemma DedupUpToLast<T>(xs: seq<T>, n: nat)
    requires 0 < n <= |xs|
    ensures DedupUpTo(xs, n) ==
      if xs[n - 1] in DedupUpTo(xs, n - 1) then DedupUpTo(xs, n - 1) else DedupUpTo(xs, n - 1) + [xs[n - 1]]
  {
  }

  /** De-duplication keeps every element exactly once, drops none, adds none,
      and orders them by first occurrence. */
  lemma DedupSpec<T>(xs: seq<T>)
    ensures var r := Dedup(xs);
      && NoDuplicates(r)
      && (forall i :: 0 <= i < |r| ==> r[i] in xs)
      && (forall i :: 0 <= i < |xs| ==> xs[i] in r)
      && (forall i, j :: 0 <= i < j < |r| ==> FirstIndex(xs, r[i]) < FirstIndex(xs, r[j]))
  {
    DedupUpToSpec(xs, |xs|);
  }

  lemma DedupUpToSpec<T>(xs: seq<T>, n: nat)
    requires n <= |xs|
    ensures var r := DedupUpTo(xs, n);
      && NoDuplicates(r)
      && (forall i :: 0 <= i < |r| ==> r[i] in xs && FirstIndex(xs, r[i]) < n)
      && (forall k :: 0 <= k < n ==> xs[k] in r)
      && (forall i, j :: 0 <= i < j < |r| ==> FirstIndex(xs, r[i]) < FirstIndex(xs, r[j]))
  {
    DedupUpToCovers(xs, n);
    DedupUpToOrigins(xs, n);
  }

  /** Every one of the first `n` elements is kept. */
  lemma {:induction false} DedupUpToCovers<T>(xs: seq<T>, n: nat)
    requires n <= |xs|
    ensures forall k :: 0 <= k < n ==> xs[k] in DedupUpTo(xs, n)
    decreases n
  {
    if n > 0 {
      DedupUpToCovers(xs, n - 1);
    }
  }

  /** The kept elements are distinct, each first occurs among the first `n`,
      and they are in order of first occurrence. */
  lemma {:induction false} DedupUpToOrigins<T>(xs: seq<T>, n: nat)
    requires n <= |xs|
    ensures var r := DedupUpTo(xs, n);
      && NoDuplicates(r)
      && (forall i :: 0 <= i < |r| ==> r[i] in xs && FirstIndex(xs, r[i]) < n)
      && (forall i, j :: 0 <= i < j < |r| ==> FirstIndex(xs, r[i]) < FirstIndex(xs, r[j]))
    decreases n
  {
    if n > 0 {
      DedupUpToOrigins(xs, n - 1);
      var d := DedupUpTo(xs, n - 1);
      var x := xs[n - 1];
      DedupUpToLast(xs, n);
      if x !in d {
        NewIsFirst(xs, n - 1);
        DedupAppendNew(xs, d, x, n - 1);
      }
    }
  }

  /** An element the de-duplication of the first `m` has not kept does not
      occur among them. */
  lemma NewIsFirst<T>(xs: seq<T>, m: nat)
    requires m < |xs| && xs[m] !in DedupUpTo(xs, m)
    ensures forall k :: 0 <= k < m ==> xs[k] != xs[m]
  {
    DedupUpToCovers(xs, m);
  }

  lemma DedupAppendNew<T>(xs: seq<T>, d: seq<T>, x: T, m: nat)
    requires m < |xs| && xs[m] == x && x !in d
    requires forall k :: 0 <= k < m ==> xs[k] != x
    requires NoDuplicates(d)
    requires forall i :: 0 <= i < |d| ==> d[i] in xs && FirstIndex(xs, d[i]) < m
    requires forall i, j :: 0 <= i < j < |d| ==> FirstIndex(xs, d[i]) < FirstIndex(xs, d[j])
    ensures var r := d + [x];
      && NoDuplicates(r)
      && (forall i :: 0 <= i < |r| ==> r[i] in xs && FirstIndex(xs, r[i]) < m + 1)
      && (forall i, j :: 0 <= i < j < |r| ==> FirstIndex(xs, r[i]) < FirstIndex(xs, r[j]))
  {
    assert FirstIndex(xs, x) == m;
    var r := d + [x];
    assert forall i :: 0 <= i < |d| ==> r[i] == d[i];
  }

  /** The position of the last occurrence of `x` in `xs`. */
  function LastIndex<T(==)>(xs: seq<T>, x: T): (k: nat)
    requires x in xs
    ensures k < |xs| && xs[k] == x
    ensures forall i :: k < i < |xs| ==> xs[i] != x
  {
    LastIndexBefore(xs, x, |xs|)
  }

  /** The last occurrence of `x` before `stop`. */
  function LastIndexBefore<T(==)>(xs: seq<T>, x: T, stop: nat): (k: nat)
    requires stop <= |xs| && exists i :: 0 <= i < stop && xs[i] == x
    ensures k < stop && xs[k] == x
    ensures forall i :: k < i < stop ==> xs[i] != x
    decreases stop
  {
    if xs[stop - 1] == x then stop - 1 else LastIndexBefore(xs, x, stop - 1)
  }

  /** De-duplication keeps exactly the elements of `xs`. */
  lemma DedupMembers<T>(xs: seq<T>)
    ensures NoDuplicates(Dedup(xs))
    ensures forall x :: x in Dedup(xs) <==> x in xs
  {
    var r := Dedup(xs);
    DedupSpec(xs);
    forall x | x in xs ensures x in r {
      var i :| 0 <= i < |xs| && xs[i] == x;
    }
  }

  /** Concatenation is associative; stated once so that proofs about nested
      concatenations do not rediscover it element by element. */
  lemma ConcatAssoc<T>(x: seq<T>, y: seq<T>, z: seq<T>)
    ensures x + (y + z) == (x + y) + z
  {
  }

  function Flatten<T>(parts: seq<seq<T>>): seq<T> {
    if parts == [] then [] else parts[0] + Flatten(parts[1..])
  }

  lemma {:induction false} FlattenAppend<T>(a: seq<seq<T>>, b: seq<seq<T>>)
    ensures Flatten(a + b) == Flatten(a) + Flatten(b)
  {
    if a == [] {
      assert a + b == b;
    } else {
      assert (a + b)[1..] == a[1..] + b;
      FlattenAppend(a[1..], b);
    }
  }

  /** Where part `k` starts in the flattened sequence. */
  function Offset<T>(parts: seq<seq<T>>, k: nat): nat
    requires k <= |parts|
  {
    |Flatten(parts[..k])|
  }

  /** Element `j` of part `k` sits at `Offset(parts, k) + j`. */
  lemma FlattenIndex<T>(parts: seq<seq<T>>, k: nat, j: nat)
    requires k < |parts| && j < |parts[k]|
    ensures Offset(parts, k) + j < |Flatten(parts)|
    ensures Flatten(parts)[Offset(parts, k) + j] == parts[k][j]
  {
    assert parts == parts[..k] + parts[k..];
    FlattenAppend(parts[..k], parts[k..]);
    assert Flatten(parts[k..]) == parts[k] + Flatten(parts[k + 1..]) by {
      assert parts[k..][1..] == parts[k + 1..];
    }
  }

  /** Part `k` ends where part `k + 1` starts. */
  lemma OffsetNext<T>(parts: seq<seq<T>>, k: nat)
    requires k < |parts|
    ensures Offset(parts, k + 1) == Offset(parts, k) + |parts[k]|
  {
    assert parts[..k + 1] == parts[..k] + [parts[k]];
    FlattenAppend(parts[..k], [parts[k]]);
    assert Flatten([parts[k]]) == parts[k] + Flatten([]);
  }

  /** Part `k` occupies `Offset(parts, k)` up to `Offset(parts, k + 1)`. */
  lemma FlattenSlice<T>(parts: seq<seq<T>>, k: nat)
    requires k < |parts|
    ensures Offset(parts, k + 1) == Offset(parts, k) + |parts[k]| <= |Flatten(parts)|
    ensures Flatten(parts)[Offset(parts, k)..Offset(parts, k + 1)] == parts[k]
  {
    var front := Flatten(parts[..k]);
    var back := Flatten(parts[k + 1..]);
    FlattenAround(parts, k);
    OffsetNext(parts, k);
    SliceMiddle(front, parts[k], back);
  }

  /** The flattening is what comes before part `k`, part `k`, then what follows. */
  lemma FlattenAround<T>(parts: seq<seq<T>>, k: nat)
    requires k < |parts|
    ensures Flatten(parts) == Flatten(parts[..k]) + parts[k] + Flatten(parts[k + 1..])
  {
    assert parts == parts[..k] + parts[k..];
    FlattenAppend(parts[..k], parts[k..]);
    assert parts[k..][1..] == parts[k + 1..];
    ConcatAssoc(Flatten(parts[..k]), parts[k], Flatten(parts[k + 1..]));
  }

  lemma SliceMiddle<T>(a: seq<T>, b: seq<T>, c: seq<T>)
    ensures (a + b + c)[|a|..|a| + |b|] == b
  {
  }
}
