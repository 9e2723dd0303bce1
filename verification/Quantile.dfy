/**
 Equal-tailed credible intervals by bisection. The Beta distribution function is a parameter: the
 ordering of the two quantiles does not depend on anything it promises.
 */
module Quantile {

  const TOLERANCE: real := 0.000000000001
  const MAX_ITERATIONS: nat := 200

  datatype Bracket = Bracket(lo: real, hi: real) {
    function Mid(): real { 0.5 * (lo + hi) }
  }

  datatype Interval = Interval(lower: real, upper: real) | NonPositiveShape

  function Halve(cdf: real -> real, p: real, b: Bracket): Bracket {
    if cdf(b.Mid()) < p then Bracket(b.Mid(), b.hi) else Bracket(b.lo, b.Mid())
  }

  /** The bracket after `k` halvings of the unit interval. */
  function Narrowed(cdf: real -> real, p: real, k: nat): Bracket {
    if k == 0 then Bracket(0.0, 1.0) else Halve(cdf, p, Narrowed(cdf, p, k - 1))
  }

  function Half(k: nat): real {
    if k == 0 then 1.0 else Half(k - 1) / 2.0
  }

  lemma {:induction false} NarrowedWidth(cdf: real -> real, p: real, k: nat)
    ensures Narrowed(cdf, p, k).hi - Narrowed(cdf, p, k).lo == Half(k)
    ensures 0.0 <= Narrowed(cdf, p, k).lo && Narrowed(cdf, p, k).hi <= 1.0
    ensures Half(k) > 0.0
  {
    if k > 0 {
      NarrowedWidth(cdf, p, k - 1);
    }
  }

  lemma {:induction false} HalfSplits(a: nat, b: nat)
    ensures Half(a + b) == Half(a) * Half(b)
  {
    if b > 0 {
      HalfSplits(a, b - 1);
      assert a + b - 1 == a + (b - 1);
    }
  }

  lemma {:induction false} HalfDecreases(a: nat, b: nat)
    requires a <= b
    ensures 0.0 < Half(b) <= Half(a)
  {
    if a < b {
      HalfDecreases(a, b - 1);
    } else if b > 0 {
      HalfDecreases(a - 1, b - 1);
    }
  }

  lemma HalfOfTen()
    ensures Half(10) == 1.0 / 1024.0
  {
    assert Half(2) == 0.25;
    assert Half(4) == 1.0 / 16.0;
    assert Half(6) == 1.0 / 64.0;
    assert Half(8) == 1.0 / 256.0;
  }

  /** 2^-39 is still too wide and 2^-40 is narrow enough, so the loop stops after 40 halvings. */
  lemma FortyHalvings()
    ensures Half(40) < TOLERANCE <= Half(39)
  {
    HalfOfTen();
    HalfSplits(10, 10);
    HalfSplits(20, 20);
    assert Half(40) == Half(39) / 2.0;
  }

  method BetaPpf(cdf: real -> real, p: real) returns (x: real, halvings: nat)
    ensures halvings == 40
    ensures x == Narrowed(cdf, p, 40).Mid()
  {
    FortyHalvings();
    var lo, hi := 0.0, 1.0;
    halvings := 0;
    while halvings < MAX_ITERATIONS
      invariant halvings <= 39
      invariant Bracket(lo, hi) == Narrowed(cdf, p, halvings)
      decreases MAX_ITERATIONS - halvings
    {
      var mid := 0.5 * (lo + hi);
      assert mid == Bracket(lo, hi).Mid();
      if cdf(mid) < p {
        lo := mid;
      } else {
        hi := mid;
      }
      halvings := halvings + 1;
      assert Bracket(lo, hi) == Narrowed(cdf, p, halvings);
      NarrowedWidth(cdf, p, halvings);
      if hi - lo < TOLERANCE {
        if halvings < 40 { HalfDecreases(halvings, 39); }
        break;
      }
      if halvings == 40 { assert false; }
    }
    x := 0.5 * (lo + hi);
  }

  /** Two bisections of the same function stay together until one goes left and the other right. */
  lemma {:induction false} BracketsAreOrdered(cdf: real -> real, p: real, q: real, k: nat)
    requires p <= q
    ensures var a, b := Narrowed(cdf, p, k), Narrowed(cdf, q, k);
            a == b || a.hi <= b.lo
  {
    if k > 0 {
      BracketsAreOrdered(cdf, p, q, k - 1);
      NarrowedWidth(cdf, p, k - 1);
      NarrowedWidth(cdf, q, k - 1);
    }
  }

  /** For any function used as the distribution, a smaller probability never gets a larger quantile. */
  lemma QuantilesAreOrdered(cdf: real -> real, p: real, q: real, k: nat)
    requires p <= q
    ensures Narrowed(cdf, p, k).Mid() <= Narrowed(cdf, q, k).Mid()
  {
    BracketsAreOrdered(cdf, p, q, k);
    NarrowedWidth(cdf, p, k);
    NarrowedWidth(cdf, q, k);
  }

  /** `c` separates the points whose distribution value is below `p` from the others. */
  ghost predicate Crossing(cdf: real -> real, p: real, c: real) {
    && 0.0 <= c <= 1.0
    && (forall x :: 0.0 <= x < c ==> cdf(x) < p)
    && (forall x :: c < x <= 1.0 ==> p <= cdf(x))
  }

  lemma {:induction false} BracketHoldsTheCrossing(cdf: real -> real, p: real, c: real, k: nat)
    requires Crossing(cdf, p, c)
    ensures Narrowed(cdf, p, k).lo <= c <= Narrowed(cdf, p, k).hi
  {
    if k > 0 {
      BracketHoldsTheCrossing(cdf, p, c, k - 1);
      NarrowedWidth(cdf, p, k - 1);
      var mid := Narrowed(cdf, p, k - 1).Mid();
      assert mid < c ==> cdf(mid) < p;
      assert c < mid ==> p <= cdf(mid);
    }
  }

  /** After k halvings the midpoint is within 2^-(k+1) of the point where the function reaches p. */
  lemma QuantileIsAccurate(cdf: real -> real, p: real, c: real, k: nat)
    requires Crossing(cdf, p, c)
    ensures -Half(k + 1) <= Narrowed(cdf, p, k).Mid() - c <= Half(k + 1)
  {
    BracketHoldsTheCrossing(cdf, p, c, k);
    NarrowedWidth(cdf, p, k);
  }

  /** `x` is within 2^-41 of every point at which `cdf` crosses `p`. */
  ghost predicate Approximates(cdf: real -> real, p: real, x: real) {
    forall c :: Crossing(cdf, p, c) ==> -Half(41) <= x - c <= Half(41)
  }

  lemma FortyHalvingsApproximate(cdf: real -> real, p: real)
    ensures Approximates(cdf, p, Narrowed(cdf, p, 40).Mid())
  {
    forall c | Crossing(cdf, p, c)
      ensures -Half(41) <= Narrowed(cdf, p, 40).Mid() - c <= Half(41)
    {
      QuantileIsAccurate(cdf, p, c, 40);
    }
  }

  function Distribution(cdf: (real, real, real) -> real, alpha: real, beta: real): real -> real {
    x => cdf(alpha, beta, x)
  }

  lemma TailsAreOrdered(cdf: real -> real, tail: real)
    ensures var lower, upper := Narrowed(cdf, tail, 40).Mid(), Narrowed(cdf, 1.0 - tail, 40).Mid();
            && 0.0 <= lower <= 1.0 && 0.0 <= upper <= 1.0
            && (tail <= 0.5 ==> lower <= upper) && (tail >= 0.5 ==> upper <= lower)
  {
    NarrowedWidth(cdf, tail, 40);
    NarrowedWidth(cdf, 1.0 - tail, 40);
    if tail <= 0.5 {
      QuantilesAreOrdered(cdf, tail, 1.0 - tail, 40);
    }
    if tail >= 0.5 {
      QuantilesAreOrdered(cdf, 1.0 - tail, tail, 40);
    }
  }

  /** The interval is ordered for every distribution function, provided the confidence level is not
      negative, and each bound sits within 2^-41 of the point it approximates. */
  method BetaCredibleInterval(cdf: (real, real, real) -> real, alpha: real, beta: real, confidence: real)
    returns (r: Interval)
    ensures r.NonPositiveShape? <==> alpha <= 0.0 || beta <= 0.0
    ensures r.Interval? && 0.0 <= confidence ==> 0.0 <= r.lower <= r.upper <= 1.0
    ensures r.Interval? && confidence <= 0.0 ==> r.upper <= r.lower
    ensures r.Interval? ==>
              && Approximates(Distribution(cdf, alpha, beta), (1.0 - confidence) / 2.0, r.lower)
              && Approximates(Distribution(cdf, alpha, beta), 1.0 - (1.0 - confidence) / 2.0, r.upper)
  {
    if alpha <= 0.0 || beta <= 0.0 {
      return NonPositiveShape;
    }
    var tail := (1.0 - confidence) / 2.0;
    var f := Distribution(cdf, alpha, beta);
    var lower, _ := BetaPpf(f, tail);
    var upper, _ := BetaPpf(f, 1.0 - tail);
    TailsAreOrdered(f, tail);
    FortyHalvingsApproximate(f, tail);
    FortyHalvingsApproximate(f, 1.0 - tail);
    r := Interval(lower, upper);
  }
}
