/** Small shared vocabulary: optional values, finite sums over sequences, distinctness. */
module Sums {

  datatype Option<+T> = None | Some(value: T)

  type Id = nat

  /** The sum of `f` over a sequence, peeled from the right so that appending is one unfolding. */
  function Sum<T>(xs: seq<T>, f: T -> int): int
  {
    if xs == [] then 0 else Sum(xs[..|xs| - 1], f) + f(xs[|xs| - 1])
  }

  predicate Distinct<T(==)>(xs: seq<T>)
  {
    forall i, j :: 0 <= i < j < |xs| ==> xs[i] != xs[j]
  }

  lemma SumAppend<T>(xs: seq<T>, x: T, f: T -> int)
    ensures Sum(xs + [x], f) == Sum(xs, f) + f(x)
  {
    assert (xs + [x])[..|xs|] == xs;
  }

  lemma {:induction false} SumConcat<T>(xs: seq<T>, ys: seq<T>, f: T -> int)
    ensures Sum(xs + ys, f) == Sum(xs, f) + Sum(ys, f)
  {
    if ys == [] {
      assert xs + ys == xs;
    } else {
      var front := ys[..|ys| - 1];
      SumConcat(xs, front, f);
      assert (xs + ys)[..|xs + ys| - 1] == xs + front;
    }
  }

  lemma {:induction false} SumUpdate<T>(xs: seq<T>, i: nat, x: T, f: T -> int)
    requires i < |xs|
    ensures Sum(xs[i := x], f) == Sum(xs, f) - f(xs[i]) + f(x)
  {
    var n := |xs| - 1;
    if i == n {
      assert xs[i := x][..n] == xs[..n];
    } else {
      SumUpdate(xs[..n], i, x, f);
      assert xs[i := x][..n] == xs[..n][i := x];
    }
  }

  lemma {:induction false} SumNonNegative<T>(xs: seq<T>, f: T -> int)
    requires forall x :: x in xs ==> 0 <= f(x)
    ensures 0 <= Sum(xs, f)
  {
    if xs != [] {
      SumNonNegative(xs[..|xs| - 1], f);
    }
  }

  lemma {:induction false} SumMonotone<T>(xs: seq<T>, f: T -> int, g: T -> int)
    requires forall x :: x in xs ==> f(x) <= g(x)
    ensures Sum(xs, f) <= Sum(xs, g)
  {
    if xs != [] {
      SumMonotone(xs[..|xs| - 1], f, g);
    }
  }

  lemma {:induction false} SumCongruent<T>(xs: seq<T>, f: T -> int, g: T -> int)
    requires forall x :: x in xs ==> f(x) == g(x)
    ensures Sum(xs, f) == Sum(xs, g)
  {
    if xs != [] {
      SumCongruent(xs[..|xs| - 1], f, g);
    }
  }

  lemma {:induction false} SumScaled<T>(xs: seq<T>, k: int, f: T -> int, g: T -> int)
    requires forall x :: x in xs ==> g(x) == k * f(x)
    ensures Sum(xs, g) == k * Sum(xs, f)
  {
    if xs != [] {
      var n := |xs| - 1;
      SumScaled(xs[..n], k, f, g);
      assert k * (Sum(xs[..n], f) + f(xs[n])) == k * Sum(xs[..n], f) + k * f(xs[n]);
    }
  }

  /** Two sequences whose terms agree position by position. */
  lemma {:induction false} SumPointwise<T, U>(xs: seq<T>, ys: seq<U>, f: T -> int, g: U -> int)
    requires |xs| == |ys|
    requires forall i :: 0 <= i < |xs| ==> f(xs[i]) == g(ys[i])
    ensures Sum(xs, f) == Sum(ys, g)
  {
    if xs != [] {
      var n := |xs| - 1;
      forall i | 0 <= i < n
        ensures f(xs[..n][i]) == g(ys[..n][i])
      {
        assert f(xs[i]) == g(ys[i]);
      }
      SumPointwise(xs[..n], ys[..n], f, g);
    }
  }

  /** Each non-negative term is bounded by the whole sum. */
  lemma {:induction false} SumDominates<T>(xs: seq<T>, i: nat, f: T -> int)
    requires i < |xs|
    requires forall x :: x in xs ==> 0 <= f(x)
    ensures f(xs[i]) <= Sum(xs, f)
  {
    var n := |xs| - 1;
    if i == n {
      SumNonNegative(xs[..n], f);
    } else {
      SumDominates(xs[..n], i, f);
    }
  }

  /** Two functions that differ at one element only, over a sequence without repetitions. */
  lemma {:induction false} SumPoint<T>(xs: seq<T>, p: T, f: T -> int, g: T -> int)
    requires Distinct(xs) && p in xs
    requires forall x :: x in xs && x != p ==> f(x) == g(x)
    ensures Sum(xs, g) == Sum(xs, f) + g(p) - f(p)
  {
    var n := |xs| - 1;
    var front := xs[..n];
    if xs[n] == p {
      assert p !in front;
      SumCongruent(front, f, g);
    } else {
      assert p in front by {
        var i :| 0 <= i < |xs| && xs[i] == p;
        assert front[i] == p;
      }
      SumPoint(front, p, f, g);
    }
  }
}
