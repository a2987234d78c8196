/** Sums and minima of finite lists of reals, and why their order does not matter. */
module Sums {

  function Sum(xs: seq<real>): real {
    if xs == [] then 0.0 else xs[0] + Sum(xs[1..])
  }

  function MinOf(x: real, y: real): real { if x < y then x else y }

  function MaxOf(x: real, y: real): real { if x < y then y else x }

  /** The least entry of a non-empty list. */
  function Min(xs: seq<real>): (m: real)
    requires xs != []
    ensures m in xs
    ensures forall x | x in xs :: m <= x
  {
    if |xs| == 1 then xs[0] else
      assert forall x | x in xs :: x == xs[0] || x in xs[1..];
      MinOf(xs[0], Min(xs[1..]))
  }

  lemma {:induction false} SumAppend(xs: seq<real>, ys: seq<real>)
    ensures Sum(xs + ys) == Sum(xs) + Sum(ys)
  {
    if xs == [] {
      assert xs + ys == ys;
    } else {
      assert (xs + ys)[1..] == xs[1..] + ys;
      SumAppend(xs[1..], ys);
    }
  }

  lemma SumSnoc(xs: seq<real>, y: real)
    ensures Sum(xs + [y]) == Sum(xs) + y
  {
    SumAppend(xs, [y]);
  }

  /** Removing one occurrence removes exactly its value from the sum. */
  lemma {:induction false} SumRemove(xs: seq<real>, k: nat)
    requires k < |xs|
    ensures Sum(xs) == xs[k] + Sum(xs[..k] + xs[k + 1..])
  {
    var rest := xs[..k] + xs[k + 1..];
    if k == 0 {
      assert rest == xs[1..];
    } else {
      var tail := xs[1..];
      SumRemove(tail, k - 1);
      assert rest[1..] == tail[..k - 1] + tail[k..];
    }
  }

  lemma RemoveFromMultiset<T>(xs: seq<T>, k: nat)
    requires k < |xs|
    ensures multiset(xs[..k] + xs[k + 1..]) == multiset(xs) - multiset{xs[k]}
  {
    assert xs == xs[..k] + [xs[k]] + xs[k + 1..];
    assert multiset(xs) == multiset(xs[..k]) + multiset{xs[k]} + multiset(xs[k + 1..]);
  }

  lemma TailMultiset<T>(xs: seq<T>)
    requires xs != []
    ensures multiset(xs[1..]) == multiset(xs) - multiset{xs[0]}
  {
    RemoveFromMultiset(xs, 0);
    assert xs[..0] + xs[1..] == xs[1..];
  }

  /** The sum depends on the multiset of entries only. */
  lemma {:induction false} SumPermute(xs: seq<real>, ys: seq<real>)
    requires multiset(xs) == multiset(ys)
    ensures Sum(xs) == Sum(ys)
    decreases |xs|
  {
    if xs == [] {
      assert |multiset(ys)| == 0;
    } else {
      assert xs[0] in multiset(ys);
      var k :| 0 <= k < |ys| && ys[k] == xs[0];
      TailMultiset(xs);
      RemoveFromMultiset(ys, k);
      SumPermute(xs[1..], ys[..k] + ys[k + 1..]);
      SumRemove(ys, k);
    }
  }

  /** So does the minimum. */
  lemma MinPermute(xs: seq<real>, ys: seq<real>)
    requires xs != [] && multiset(xs) == multiset(ys)
    ensures ys != [] && Min(xs) == Min(ys)
  {
    assert xs[0] in multiset(ys);
    assert Min(xs) in multiset(xs) && Min(ys) in multiset(ys);
    assert Min(xs) in ys && Min(ys) in xs;
  }

  /** Pointwise smaller lists have smaller sums. */
  lemma {:induction false} SumMonotone(xs: seq<real>, ys: seq<real>)
    requires |xs| == |ys|
    requires forall i | 0 <= i < |xs| :: xs[i] <= ys[i]
    ensures Sum(xs) <= Sum(ys)
  {
    if xs == [] {
    } else {
      SumMonotone(xs[1..], ys[1..]);
    }
  }

  /** ... and smaller minima. */
  lemma MinMonotone(xs: seq<real>, ys: seq<real>)
    requires |xs| == |ys| > 0
    requires forall i | 0 <= i < |xs| :: xs[i] <= ys[i]
    ensures Min(xs) <= Min(ys)
  {
    var i :| 0 <= i < |ys| && ys[i] == Min(ys);
    assert xs[i] in xs;
  }

  lemma {:induction false} SumNonnegative(xs: seq<real>)
    requires forall x | x in xs :: x >= 0.0
    ensures Sum(xs) >= 0.0
  {
    if xs == [] {
    } else {
      assert xs[0] in xs;
      assert forall x | x in xs[1..] :: x in xs;
      SumNonnegative(xs[1..]);
    }
  }
}
