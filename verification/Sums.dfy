/** Sums of a natural-number measure over sequences and sets of keys. */
module Sums {
  import opened Bytes

  function Sum<T>(xs: seq<T>, f: T -> nat): nat {
    if xs == [] then 0 else f(xs[0]) + Sum(xs[1..], f)
  }

  lemma {:induction false} SumAppend<T>(xs: seq<T>, ys: seq<T>, f: T -> nat)
    ensures Sum(xs + ys, f) == Sum(xs, f) + Sum(ys, f)
  {
    if xs == [] {
      assert xs + ys == ys;
    } else {
      SumAppend(xs[1..], ys, f);
      assert (xs + ys)[1..] == xs[1..] + ys;
    }
  }

  /** A sum splits off any one of its terms. */
  lemma SumSplit<T>(xs: seq<T>, i: nat, f: T -> nat)
    requires i < |xs|
    ensures Sum(xs, f) == f(xs[i]) + Sum(xs[..i] + xs[i + 1..], f)
  {
    hide Sum;
    assert xs == xs[..i] + ([xs[i]] + xs[i + 1..]);
    SumAppend(xs[..i], [xs[i]] + xs[i + 1..], f);
    SumAppend(xs[..i], xs[i + 1..], f);
    SumHead(xs[i], xs[i + 1..], f);
  }

  lemma SumHead<T>(x: T, xs: seq<T>, f: T -> nat)
    ensures Sum([x] + xs, f) == f(x) + Sum(xs, f)
  {
    assert ([x] + xs)[1..] == xs;
  }

  /** A sum does not depend on the order of its terms. */
  lemma {:induction false} SumPermutation<T>(xs: seq<T>, ys: seq<T>, f: T -> nat)
    requires multiset(xs) == multiset(ys)
    ensures Sum(xs, f) == Sum(ys, f)
    decreases |xs|
  {
    hide Sum;
    SameLength(xs, ys);
    if xs == [] {
      assert ys == [];
    } else {
      assert xs[0] in multiset(ys);
      var i :| 0 <= i < |ys| && ys[i] == xs[0];
      WithoutOne(xs, 0);
      WithoutOne(ys, i);
      SumSplit(xs, 0, f);
      SumSplit(ys, i, f);
      SumPermutation(xs[..0] + xs[0 + 1..], ys[..i] + ys[i + 1..], f);
    }
  }

  lemma SameLength<T>(xs: seq<T>, ys: seq<T>)
    requires multiset(xs) == multiset(ys)
    ensures |xs| == |ys|
  {
    assert |multiset(xs)| == |multiset(ys)|;
  }

  lemma WithoutOne<T>(xs: seq<T>, i: nat)
    requires i < |xs|
    ensures multiset(xs[..i] + xs[i + 1..]) == multiset(xs) - multiset{xs[i]}
  {
    assert xs == xs[..i] + [xs[i]] + xs[i + 1..];
  }

  lemma {:induction false} SumCongruence<T>(xs: seq<T>, f: T -> nat, g: T -> nat)
    requires forall x :: x in xs ==> f(x) == g(x)
    ensures Sum(xs, f) == Sum(xs, g)
  {
    if xs != [] {
      SumCongruence(xs[1..], f, g);
    }
  }

  lemma {:induction false} SumMonotone<T>(xs: seq<T>, f: T -> nat, g: T -> nat)
    requires forall x :: x in xs ==> f(x) <= g(x)
    ensures Sum(xs, f) <= Sum(xs, g)
  {
    if xs != [] {
      SumMonotone(xs[1..], f, g);
    }
  }

  /** The sum over a set of keys, taken in scan order. */
  function SumOver(s: set<string>, f: string -> nat): nat {
    Sum(Ascending(s), f)
  }

  lemma SumOverRemove(s: set<string>, k: string, f: string -> nat)
    requires k in s
    ensures SumOver(s, f) == f(k) + SumOver(s - {k}, f)
  {
    AscendingElements(s);
    AscendingElements(s - {k});
    var ys := [k] + Ascending(s - {k});
    assert s == {k} + (s - {k});
    assert multiset(ys) == multiset(s);
    SumPermutation(Ascending(s), ys, f);
    assert ys[1..] == Ascending(s - {k});
  }

  lemma SumOverCongruence(s: set<string>, f: string -> nat, g: string -> nat)
    requires forall x :: x in s ==> f(x) == g(x)
    ensures SumOver(s, f) == SumOver(s, g)
  {
    AscendingElements(s);
    SumCongruence(Ascending(s), f, g);
  }

  /** A term that is larger makes the sum larger when no term is smaller. */
  lemma SumOverStrict(s: set<string>, k: string, f: string -> nat, g: string -> nat)
    requires k in s && f(k) < g(k)
    requires forall x :: x in s ==> f(x) <= g(x)
    ensures SumOver(s, f) < SumOver(s, g)
  {
    SumOverRemove(s, k, f);
    SumOverRemove(s, k, g);
    AscendingElements(s - {k});
    SumMonotone(Ascending(s - {k}), f, g);
  }
}
