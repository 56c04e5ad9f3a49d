/** Sums over sequences. */
module Sums {
  function Sum<T>(xs: seq<T>, f: T -> nat): nat {
    if xs == [] then 0 else f(xs[0]) + Sum(xs[1..], f)
  }

  lemma SumOne<T>(x: T, f: T -> nat)
    ensures Sum([x], f) == f(x)
  {
    assert [x][1..] == [];
  }

  lemma {:induction false} SumConcat<T>(a: seq<T>, b: seq<T>, f: T -> nat)
    ensures Sum(a + b, f) == Sum(a, f) + Sum(b, f)
  {
    if a == [] { assert a + b == b; } else {
      assert (a + b)[1..] == a[1..] + b;
      SumConcat(a[1..], b, f);
    }
  }

  lemma SumSplit<T>(xs: seq<T>, k: nat, f: T -> nat)
    requires k <= |xs|
    ensures Sum(xs, f) == Sum(xs[..k], f) + Sum(xs[k..], f)
  {
    SumConcat(xs[..k], xs[k..], f);
    assert xs[..k] + xs[k..] == xs;
  }

  /** If no summand grows, the sum drops exactly when some summand does. */
  lemma {:induction false} SumStep<T>(xs: seq<T>, ys: seq<T>, f: T -> nat)
    requires |xs| == |ys| && forall i :: 0 <= i < |xs| ==> f(ys[i]) <= f(xs[i])
    ensures Sum(ys, f) < Sum(xs, f) <==> exists i :: 0 <= i < |xs| && f(ys[i]) < f(xs[i])
    ensures Sum(ys, f) <= Sum(xs, f)
  {
    if xs != [] {
      assert forall i :: 0 <= i < |xs[1..]| ==> xs[1..][i] == xs[i + 1] && ys[1..][i] == ys[i + 1];
      SumStep(xs[1..], ys[1..], f);
      if i :| 0 <= i < |xs| && f(ys[i]) < f(xs[i]) {
        if i > 0 { assert f(ys[1..][i - 1]) < f(xs[1..][i - 1]); }
      }
    }
  }

  /** Replacing one summand. */
  lemma {:induction false} SumUpdate<T>(xs: seq<T>, k: nat, x: T, f: T -> nat)
    requires k < |xs|
    ensures Sum(xs[k := x], f) + f(xs[k]) == Sum(xs, f) + f(x)
  {
    if k == 0 {
      assert xs[k := x][1..] == xs[1..];
    } else {
      assert xs[k := x][1..] == xs[1..][k - 1 := x];
      SumUpdate(xs[1..], k - 1, x, f);
    }
  }

  /** A positive sum has a positive summand. */
  lemma {:induction false} SumPositive<T>(xs: seq<T>, f: T -> nat) returns (k: nat)
    requires Sum(xs, f) > 0
    ensures k < |xs| && f(xs[k]) > 0
  {
    if f(xs[0]) > 0 {
      k := 0;
    } else {
      k := SumPositive(xs[1..], f);
      k := k + 1;
    }
  }

  lemma {:induction false} SumAtLeast<T>(xs: seq<T>, k: nat, f: T -> nat)
    requires k < |xs|
    ensures f(xs[k]) <= Sum(xs, f)
  {
    if k > 0 { SumAtLeast(xs[1..], k - 1, f); }
  }

  lemma {:induction false} SumAtMost<T>(xs: seq<T>, f: T -> nat, b: nat)
    requires forall k :: 0 <= k < |xs| ==> f(xs[k]) <= b
    ensures Sum(xs, f) <= b * |xs|
  {
    if xs != [] { SumAtMost(xs[1..], f, b); }
  }
}
