/** Order-preserving filtering, the `Array.prototype.filter` the runner uses on its
    registries, and `Array.prototype.map` with a callback that may throw. */
module Seqs {
  import opened Wrappers

  /** The elements of `xs` that satisfy `p`, in their original order. */
  function Filter<T>(xs: seq<T>, p: T -> bool): seq<T>
    decreases |xs|
  {
    if xs == [] then []
    else if p(xs[|xs| - 1]) then Filter(xs[..|xs| - 1], p) + [xs[|xs| - 1]]
    else Filter(xs[..|xs| - 1], p)
  }

  /** Concatenation is associative; stated for the solver, which does not regroup appends. */
  lemma ConcatAssoc<T>(a: seq<T>, b: seq<T>, c: seq<T>)
    ensures a + b + c == a + (b + c)
  {
  }

  /** `Filter` keeps exactly the elements that satisfy the predicate: all of `xs` when
      every element does, none when none does. */
  lemma {:induction false} FilterSpec<T(!new)>(xs: seq<T>, p: T -> bool)
    ensures |Filter(xs, p)| <= |xs|
    ensures forall x :: x in Filter(xs, p) <==> x in xs && p(x)
    ensures (forall i :: 0 <= i < |xs| ==> p(xs[i])) ==> Filter(xs, p) == xs
    ensures (forall i :: 0 <= i < |xs| ==> !p(xs[i])) ==> Filter(xs, p) == []
    decreases |xs|
  {
    if xs != [] {
      var init := xs[..|xs| - 1];
      FilterSpec(init, p);
      assert xs == init + [xs[|xs| - 1]];
    }
  }

  /** Filtering distributes over concatenation: together with the one-element case this
      says that `Filter` keeps the relative order of the elements it keeps. */
  lemma {:induction false} FilterConcat<T(!new)>(xs: seq<T>, ys: seq<T>, p: T -> bool)
    ensures Filter(xs + ys, p) == Filter(xs, p) + Filter(ys, p)
    decreases |ys|
  {
    if ys == [] {
      assert xs + ys == xs;
    } else {
      var ys' := ys[..|ys| - 1];
      var y := ys[|ys| - 1];
      assert (xs + ys)[..|xs + ys| - 1] == xs + ys';
      assert (xs + ys)[|xs + ys| - 1] == y;
      FilterConcat(xs, ys', p);
    }
  }

  /** A one-element sequence is kept exactly when its element satisfies the predicate. */
  lemma FilterSingleton<T(!new)>(x: T, p: T -> bool)
    ensures Filter([x], p) == if p(x) then [x] else []
  {
    assert [x][..0] == [];
  }

  /** `xs.map(f)` where `f` may throw: the results in order, or the first error thrown. */
  function MapResult<T, U>(xs: seq<T>, f: T -> Result<U>): Result<seq<U>>
    decreases |xs|
  {
    if xs == [] then Ok([])
    else
      var n := |xs| - 1;
      match MapResult(xs[..n], f)
      case Fail(e) => Fail(e)
      case Ok(ys) =>
        match f(xs[n])
        case Fail(e) => Fail(e)
        case Ok(y) => Ok(ys + [y])
  }

  /** The map succeeds exactly when the callback succeeds on every element, and then holds
      its results pointwise; otherwise it throws the error of the first element on which
      the callback throws. */
  lemma {:induction false} MapResultSpec<T, U>(xs: seq<T>, f: T -> Result<U>)
    ensures MapResult(xs, f).Ok? <==> forall i :: 0 <= i < |xs| ==> f(xs[i]).Ok?
    ensures MapResult(xs, f).Ok? ==>
      |MapResult(xs, f).value| == |xs| && forall i :: 0 <= i < |xs| ==> f(xs[i]) == Ok(MapResult(xs, f).value[i])
    ensures MapResult(xs, f).Fail? ==>
      exists i :: 0 <= i < |xs| && f(xs[i]) == Fail(MapResult(xs, f).error) &&
                  forall j :: 0 <= j < i ==> f(xs[j]).Ok?
    decreases |xs|
  {
    if xs != [] {
      var n := |xs| - 1;
      MapResultSpec(xs[..n], f);
      assert forall i :: 0 <= i < n ==> xs[..n][i] == xs[i];
      var r := MapResult(xs, f);
      if r.Fail? && MapResult(xs[..n], f).Fail? {
        var i :| 0 <= i < n && f(xs[..n][i]) == Fail(MapResult(xs[..n], f).error) &&
                 forall j :: 0 <= j < i ==> f(xs[..n][j]).Ok?;
        assert f(xs[i]) == Fail(r.error);
      } else if r.Fail? {
        assert f(xs[n]) == Fail(r.error);
      }
    }
  }
}
