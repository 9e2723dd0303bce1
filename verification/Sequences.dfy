/** Folds over sequences used by several models, and the facts that make their order irrelevant. */
module Sequences {

  function Gather<T, U>(xs: seq<T>, f: T -> seq<U>): seq<U> {
    if xs == [] then [] else f(xs[0]) + Gather(xs[1..], f)
  }

  function Sum<T>(xs: seq<T>, g: T -> real): real {
    if xs == [] then 0.0 else Sum(xs[..|xs| - 1], g) + g(xs[|xs| - 1])
  }

  lemma {:induction false} GatherConcat<T, U>(xs: seq<T>, ys: seq<T>, f: T -> seq<U>)
    ensures Gather(xs + ys, f) == Gather(xs, f) + Gather(ys, f)
  {
    if xs == [] {
      assert xs + ys == ys;
    } else {
      assert (xs + ys)[1..] == xs[1..] + ys;
      GatherConcat(xs[1..], ys, f);
    }
  }

  lemma {:induction false} SumConcat<T>(xs: seq<T>, ys: seq<T>, g: T -> real)
    ensures Sum(xs + ys, g) == Sum(xs, g) + Sum(ys, g)
  {
    if ys == [] {
      assert xs + ys == xs;
    } else {
      assert (xs + ys)[..|xs + ys| - 1] == xs + ys[..|ys| - 1];
      SumConcat(xs, ys[..|ys| - 1], g);
    }
  }

  /** Where the head of one arrangement sits in another arrangement of the same elements. */
  lemma Rearranged<T>(xs: seq<T>, ys: seq<T>) returns (i: nat)
    requires xs != [] && multiset(xs) == multiset(ys)
    ensures i < |ys| && ys[i] == xs[0]
    ensures ys == ys[..i] + [ys[i]] + ys[i + 1..]
    ensures multiset(xs[1..]) == multiset(ys[..i] + ys[i + 1..])
  {
    assert xs[0] in multiset(ys);
    i :| 0 <= i < |ys| && ys[i] == xs[0];
    assert xs == [xs[0]] + xs[1..];
    assert ys == ys[..i] + [ys[i]] + ys[i + 1..];
    var rest := ys[..i] + ys[i + 1..];
    assert multiset(xs[1..]) == multiset(xs) - multiset{xs[0]};
    assert multiset(rest) == multiset(ys) - multiset{ys[i]};
  }

  lemma {:induction false} GatherPermutes<T, U>(xs: seq<T>, ys: seq<T>, f: T -> seq<U>)
    requires multiset(xs) == multiset(ys)
    ensures multiset(Gather(xs, f)) == multiset(Gather(ys, f))
    decreases |xs|
  {
    if xs == [] {
      assert |multiset(ys)| == 0;
    } else {
      var i := Rearranged(xs, ys);
      GatherPermutes(xs[1..], ys[..i] + ys[i + 1..], f);
      GatherConcat(ys[..i], ys[i + 1..], f);
      GatherConcat(ys[..i], [ys[i]], f);
      GatherConcat(ys[..i] + [ys[i]], ys[i + 1..], f);
      assert Gather([ys[i]], f) == f(xs[0]) + Gather<T, U>([], f);
    }
  }

  lemma {:induction false} SumPermutes<T>(xs: seq<T>, ys: seq<T>, g: T -> real)
    requires multiset(xs) == multiset(ys)
    ensures Sum(xs, g) == Sum(ys, g)
    decreases |xs|
  {
    if xs == [] {
      assert |multiset(ys)| == 0;
    } else {
      var i := Rearranged(xs, ys);
      SumPermutes(xs[1..], ys[..i] + ys[i + 1..], g);
      SumConcat(ys[..i], ys[i + 1..], g);
      SumConcat(ys[..i], [ys[i]], g);
      SumConcat(ys[..i] + [ys[i]], ys[i + 1..], g);
      SumConcat([xs[0]], xs[1..], g);
      assert xs == [xs[0]] + xs[1..];
      assert Sum([ys[i]], g) == g(xs[0]) == Sum([xs[0]], g);
    }
  }

  lemma SameMultisetSameSize<T>(a: seq<T>, b: seq<T>)
    requires multiset(a) == multiset(b)
    ensures |a| == |b|
  {
    assert |multiset(a)| == |a| && |multiset(b)| == |b|;
  }

  ghost predicate Distinct<T>(xs: seq<T>) {
    forall i, j :: 0 <= i < j < |xs| ==> xs[i] != xs[j]
  }

  function Indicator<T(==)>(chosen: set<T>): T -> real {
    x => if x in chosen then 1.0 else 0.0
  }

  /** Counting the listed members of `chosen` counts each member once. */
  lemma {:induction false} SumOverChosen<T>(xs: seq<T>, chosen: set<T>)
    requires Distinct(xs)
    requires forall x :: x in chosen ==> x in xs
    ensures Sum(xs, Indicator(chosen)) == |chosen| as real
  {
    if xs == [] {
      assert chosen == {};
    } else {
      var rest, last := xs[..|xs| - 1], xs[|xs| - 1];
      assert xs == rest + [last] && last !in rest;
      var fewer := chosen - {last};
      SumOverChosen(rest, fewer);
      SumAgrees(rest, Indicator(chosen), Indicator(fewer));
      if last !in chosen {
        assert fewer == chosen;
      }
    }
  }

  lemma {:induction false} SumAgrees<T>(xs: seq<T>, f: T -> real, g: T -> real)
    requires forall x :: x in xs ==> f(x) == g(x)
    ensures Sum(xs, f) == Sum(xs, g)
  {
    if xs != [] {
      SumAgrees(xs[..|xs| - 1], f, g);
    }
  }

  lemma {:induction false} SumBounded<T>(xs: seq<T>, f: T -> real, g: T -> real)
    requires forall x :: x in xs ==> f(x) <= g(x)
    ensures Sum(xs, f) <= Sum(xs, g)
  {
    if xs != [] {
      SumBounded(xs[..|xs| - 1], f, g);
    }
  }

  lemma {:induction false} SumAdds<T>(xs: seq<T>, f: T -> real, g: T -> real, h: T -> real)
    requires forall x :: x in xs ==> h(x) == f(x) + g(x)
    ensures Sum(xs, h) == Sum(xs, f) + Sum(xs, g)
  {
    if xs != [] {
      SumAdds(xs[..|xs| - 1], f, g, h);
    }
  }

  lemma {:induction false} SumScales<T>(xs: seq<T>, f: T -> real, g: T -> real, k: real)
    requires forall x :: x in xs ==> g(x) == k * f(x)
    ensures Sum(xs, g) == k * Sum(xs, f)
  {
    if xs != [] {
      SumScales(xs[..|xs| - 1], f, g, k);
    }
  }

  /** Adding `c` for every listed member of `chosen` adds it once per member. */
  lemma SumOverChosenScaled<T>(xs: seq<T>, chosen: set<T>, f: T -> real, c: real)
    requires Distinct(xs)
    requires forall x :: x in chosen ==> x in xs
    requires forall x :: x in xs ==> f(x) == if x in chosen then c else 0.0
    ensures Sum(xs, f) == c * |chosen| as real
  {
    SumOverChosen(xs, chosen);
    SumScales(xs, Indicator(chosen), f, c);
  }
}
