/** Sums over sequences, and the fact that they do not depend on the order of the sequence. */
module Sums {
  function SumBy<T>(xs: seq<T>, f: T -> int): int
  {
    if xs == [] then 0 else f(xs[0]) + SumBy(xs[1..], f)
  }

  lemma {:induction false} SumByConcat<T>(xs: seq<T>, ys: seq<T>, f: T -> int)
    ensures SumBy(xs + ys, f) == SumBy(xs, f) + SumBy(ys, f)
  {
    if xs == [] {
      assert xs + ys == ys;
    } else {
      assert (xs + ys)[1..] == xs[1..] + ys;
      SumByConcat(xs[1..], ys, f);
    }
  }

  lemma SumByAppend<T>(xs: seq<T>, x: T, f: T -> int)
    ensures SumBy(xs + [x], f) == SumBy(xs, f) + f(x)
  {
    SumByConcat(xs, [x], f);
    assert [x][1..] == [];
  }

  lemma SumByPair<T>(x: T, y: T, f: T -> int)
    ensures SumBy([x, y], f) == f(x) + f(y)
  {
    SumByAppend([x], y, f);
    assert [x] + [y] == [x, y] && [x][1..] == [];
  }

  function RemoveAt<T>(xs: seq<T>, i: nat): seq<T>
    requires i < |xs|
  {
    xs[..i] + xs[i + 1..]
  }

  lemma MultisetRemoveAt<T>(xs: seq<T>, i: nat)
    requires i < |xs|
    ensures multiset(RemoveAt(xs, i)) == multiset(xs) - multiset{xs[i]}
  {
    assert xs == xs[..i] + [xs[i]] + xs[i + 1..];
  }

  lemma {:induction false} SumByRemoveAt<T>(xs: seq<T>, i: nat, f: T -> int)
    requires i < |xs|
    ensures SumBy(xs, f) == f(xs[i]) + SumBy(RemoveAt(xs, i), f)
  {
    SumByConcat(xs[..i], xs[i + 1..], f);
    SumByConcat(xs[..i], xs[i..], f);
    assert xs[..i] + xs[i..] == xs;
    assert xs[i..][1..] == xs[i + 1..];
  }

  lemma {:induction false} SumByPermuted<T>(xs: seq<T>, ys: seq<T>, f: T -> int)
    requires multiset(xs) == multiset(ys)
    ensures SumBy(xs, f) == SumBy(ys, f)
  {
    if xs == [] {
      assert |multiset(ys)| == 0;
    } else {
      assert xs[0] in multiset(ys);
      var i :| 0 <= i < |ys| && ys[i] == xs[0];
      MultisetRemoveAt(xs, 0);
      MultisetRemoveAt(ys, i);
      SumByRemoveAt(xs, 0, f);
      SumByRemoveAt(ys, i, f);
      SumByPermuted(RemoveAt(xs, 0), RemoveAt(ys, i), f);
    }
  }

  lemma {:induction false} SumByNonNegative<T>(xs: seq<T>, f: T -> int)
    requires forall x :: x in xs ==> f(x) >= 0
    ensures SumBy(xs, f) >= 0
  {
    if xs != [] {
      assert xs[0] in xs;
      SumByNonNegative(xs[1..], f);
    }
  }

  /** Pointwise equal summands give equal sums. */
  lemma {:induction false} SumByCongruent<T, U>(xs: seq<T>, f: T -> int, ys: seq<U>, g: U -> int)
    requires |xs| == |ys| && forall i :: 0 <= i < |xs| ==> f(xs[i]) == g(ys[i])
    ensures SumBy(xs, f) == SumBy(ys, g)
  {
    if xs != [] {
      SumByCongruent(xs[1..], f, ys[1..], g);
    }
  }
}
