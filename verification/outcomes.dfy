/**
  Failure-compatible result types shared by every module of the extraction model.

  The Python tool signals two kinds of trouble by raising: a column rule that
  names something the workbook library cannot read as a single cell (outside a
  `try`), and a table or sheet that the run needs but that is missing. Both abort
  the whole run, so the model carries them as `Fail` values that propagate with `:-`.
 */
module Outcomes {
  import opened Sequences

  /** The conventional Some/None datatype. */
  datatype Option<+T> = None | Some(value: T)

  /** Why a run was aborted. */
  datatype Failure =
    | BadCellReference(reference: string)   // the text did not name a single cell
    | MissingTable(table: string)           // the column-rule table has no such key
    | SheetOutOfRange(index: int)           // the workbook has too few sheets

  /** Either a value or the failure that aborted its computation. */
  datatype Res<+T> = Ok(value: T) | Fail(failure: Failure) {

    predicate IsFailure() {
      Fail?
    }

    function PropagateFailure<U>(): Res<U>
      requires Fail?
    {
      Fail(failure)
    }

    function Extract(): T
      requires Ok?
    {
      value
    }
  }

  /** Runs the computations in order and stops at the first that fails, as a
      sequence of Python statements does when one of them raises. */
  function Collect<T>(xs: seq<Res<T>>): (r: Res<seq<T>>)
    ensures r.Ok? <==> forall i :: 0 <= i < |xs| ==> xs[i].Ok?
    ensures r.Ok? ==> |r.value| == |xs| && forall i :: 0 <= i < |xs| ==> xs[i] == Ok(r.value[i])
  {
    CollectUpTo(xs, |xs|)
  }

  /** The first `n` computations run in order. */
  function CollectUpTo<T>(xs: seq<Res<T>>, n: nat): (r: Res<seq<T>>)
    requires n <= |xs|
    ensures r.Ok? <==> forall i :: 0 <= i < n ==> xs[i].Ok?
    ensures r.Ok? ==> |r.value| == n && forall i :: 0 <= i < n ==> xs[i] == Ok(r.value[i])
    decreases n
  {
    if n == 0 then Ok([])
    else
      match CollectUpTo(xs, n - 1)
      case Fail(e) => Fail(e)
      case Ok(done) =>
        match xs[n - 1]
        case Fail(e) => Fail(e)
        case Ok(v) => Ok(done + [v])
  }

  /** A failed collection reports the failure of the first failing computation:
      every computation before it succeeded. */
  lemma CollectFirstFailure<T>(xs: seq<Res<T>>)
    requires Collect(xs).Fail?
    ensures exists i :: 0 <= i < |xs| && xs[i] == Fail(Collect(xs).failure)
                        && forall j :: 0 <= j < i ==> xs[j].Ok?
  {
    var i := FirstFailure(xs, |xs|);
  }

  /** Where a failed collection of the first `n` computations stopped. */
  function FirstFailure<T>(xs: seq<Res<T>>, n: nat): (i: nat)
    requires n <= |xs| && CollectUpTo(xs, n).Fail?
    ensures i < n && xs[i] == Fail(CollectUpTo(xs, n).failure)
    ensures forall j :: 0 <= j < i ==> xs[j].Ok?
    decreases n
  {
    if CollectUpTo(xs, n - 1).Fail? then FirstFailure(xs, n - 1) else n - 1
  }

  /** Appending computations does not change how the earlier ones collect. */
  lemma {:induction false} CollectUpToPrefix<T>(xs: seq<Res<T>>, ys: seq<Res<T>>, n: nat)
    requires n <= |xs|
    ensures CollectUpTo(xs + ys, n) == CollectUpTo(xs, n)
    decreases n
  {
    if n > 0 {
      CollectUpToPrefix(xs, ys, n - 1);
      assert (xs + ys)[n - 1] == xs[n - 1];
    }
  }

  /** Collecting a concatenation is collecting the first part, then, only if
      that succeeded, the second part. */
  lemma CollectAppend<T>(xs: seq<Res<T>>, ys: seq<Res<T>>)
    ensures Collect(xs + ys) == (match Collect(xs)
                                 case Fail(e) => Fail(e)
                                 case Ok(a) => match Collect(ys)
                                               case Fail(e) => Fail(e)
                                               case Ok(b) => Ok(a + b))
  {
    CollectUpToAppend(xs, ys, |ys|);
    assert (xs + ys)[..|xs + ys|] == xs + ys;
  }

  lemma {:induction false} CollectUpToAppend<T>(xs: seq<Res<T>>, ys: seq<Res<T>>, k: nat)
    requires k <= |ys|
    ensures CollectUpTo(xs + ys, |xs| + k) == (match Collect(xs)
                                               case Fail(e) => Fail(e)
                                               case Ok(a) => match CollectUpTo(ys, k)
                                                             case Fail(e) => Fail(e)
                                                             case Ok(b) => Ok(a + b))
    decreases k
  {
    if k == 0 {
      CollectUpToPrefix(xs, ys, |xs|);
      if Collect(xs).Ok? {
        assert Collect(xs).value + [] == Collect(xs).value;
      }
    } else {
      CollectUpToAppend(xs, ys, k - 1);
      assert (xs + ys)[|xs| + k - 1] == ys[k - 1];
      if Collect(xs).Ok? && CollectUpTo(ys, k).Ok? {
        ConcatAssoc(Collect(xs).value, CollectUpTo(ys, k - 1).value, [ys[k - 1].value]);
      }
    }
  }

  /** Picking computations out of a successful run of computations succeeds with
      the corresponding results. */
  lemma CollectPick<T>(xs: seq<Res<T>>, ys: seq<Res<T>>, pick: seq<nat>)
    requires Collect(xs).Ok?
    requires |pick| == |ys| && forall k :: 0 <= k < |ys| ==> pick[k] < |xs| && ys[k] == xs[pick[k]]
    ensures Collect(ys).Ok? && |Collect(ys).value| == |ys|
    ensures forall k :: 0 <= k < |ys| ==> Collect(ys).value[k] == Collect(xs).value[pick[k]]
  {
  }

  /** Every element of `xs` run through the computation `f`, in order. */
  function AttemptEach<S, T>(f: S -> Res<T>, xs: seq<S>): (r: seq<Res<T>>)
    ensures |r| == |xs|
  {
    seq(|xs|, i requires 0 <= i < |xs| => f(xs[i]))
  }

  /** A successful run of `f` over `xs` yields `f`'s result for each element. */
  lemma CollectEach<S, T>(f: S -> Res<T>, xs: seq<S>, out: seq<T>)
    requires Collect(AttemptEach(f, xs)) == Ok(out)
    ensures |out| == |xs| && forall i :: 0 <= i < |xs| ==> f(xs[i]) == Ok(out[i])
  {
    var rs := AttemptEach(f, xs);
    assert forall i :: 0 <= i < |xs| ==> rs[i] == f(xs[i]);
  }

  /** The same, for a list with a distinguished head. */
  lemma CollectEachCons<S, T>(f: S -> Res<T>, x: S, xs: seq<S>, out: seq<T>)
    requires Collect(AttemptEach(f, [x] + xs)) == Ok(out)
    ensures |out| == 1 + |xs| && f(x) == Ok(out[0])
    ensures forall i :: 0 <= i < |xs| ==> f(xs[i]) == Ok(out[1 + i])
  {
    CollectEach(f, [x] + xs, out);
    assert forall i :: 0 <= i < |xs| ==> ([x] + xs)[1 + i] == xs[i];
  }

  /** Running a computation over elements picked out of a list whose run
      succeeded succeeds too, with the results at the picked places. */
  lemma CollectEachPick<S, T>(f: S -> Res<T>, all: seq<S>, some: seq<S>, pick: seq<nat>)
    requires Collect(AttemptEach(f, all)).Ok?
    requires |pick| == |some| && forall k :: 0 <= k < |some| ==> pick[k] < |all| && some[k] == all[pick[k]]
    ensures Collect(AttemptEach(f, some)).Ok? && |Collect(AttemptEach(f, some)).value| == |some|
    ensures forall k :: 0 <= k < |some| ==>
      Collect(AttemptEach(f, some)).value[k] == Collect(AttemptEach(f, all)).value[pick[k]]
  {
    CollectPick(AttemptEach(f, all), AttemptEach(f, some), pick);
  }
}
