/**
 The graph-only decision: firing edges are signed forces whose sum gives a direction, whose
 agreement and mass give a confidence, and whose expert weights give a magnitude.
 */
module Decisions {
  import opened Wrappers
  import opened Sequences
  import opened Directions

  datatype Magnitude = Small | Medium | Large

  datatype Polarity = Occurrence | Resolution

  datatype EdgeFields = Edge(factor: Option<string>, direction: Direction, weight: real, alpha: real, beta: real)

  /** A firing edge as the schema admits it: weight in [0, 1], positive reliability counts. */
  type Edge = e: EdgeFields | 0.0 <= e.weight <= 1.0 && e.alpha > 0.0 && e.beta > 0.0
    witness Edge(None, Neutral, 0.0, 1.0, 1.0)

  datatype Settings = Settings(deadband: real, smallMax: real, mediumMax: real, halfpoint: real)

  /** An edge with the direction it actually pushes. */
  datatype Force = Force(edge: Edge, direction: Direction)

  datatype Decision = Decision(
    direction: Direction, magnitude: Magnitude, confidence: real, contributing: seq<Force>)

  /** What `decide` may do: abstain, decide, or divide by an empty list of agreeing edges. */
  datatype Outcome = NoDecision | Decided(decision: Decision) | DividedByZero

  function Reliability(e: Edge): (r: real)
    ensures 0.0 < r < 1.0
  {
    e.alpha / (e.alpha + e.beta)
  }

  function Strength(e: Edge): (s: real)
    ensures 0.0 <= s <= e.weight
    ensures s == 0.0 <==> e.weight == 0.0
  {
    e.weight * Reliability(e)
  }

  function Flip(d: Direction): Direction {
    match d
    case Up => Down
    case Down => Up
    case Neutral => Neutral
  }

  predicate IsResolution(e: Edge, polarities: map<string, Polarity>) {
    e.factor.Some? && e.factor.value in polarities && polarities[e.factor.value] == Resolution
  }

  /** The edge's direction after its factor's polarity; `None` when the price gate drops it. */
  function ResolvedDirection(e: Edge, polarities: map<string, Polarity>, elevated: bool): Option<Direction> {
    var direction := if IsResolution(e, polarities) then Flip(e.direction) else e.direction;
    if IsResolution(e, polarities) && direction == Down && !elevated then None else Some(direction)
  }

  /** The forces left after the polarity and price gates, neutral ones included. */
  function Effective(edges: seq<Edge>, polarities: map<string, Polarity>, elevated: bool): seq<Force> {
    Gather(edges,
           (e: Edge) =>
             var d := ResolvedDirection(e, polarities, elevated);
             if d.Some? then [Force(e, d.value)] else [])
  }

  function Directional(forces: seq<Force>): seq<Force> {
    Gather(forces, (f: Force) => if f.direction != Neutral then [f] else [])
  }

  function Pushing(forces: seq<Force>, d: Direction): seq<Force> {
    Gather(forces, (f: Force) => if f.direction == d then [f] else [])
  }

  function Signed(f: Force): real {
    if f.direction == Up then Strength(f.edge) else -Strength(f.edge)
  }

  function StrengthOf(f: Force): real { Strength(f.edge) }

  function WeightOf(f: Force): real { f.edge.weight }

  function Net(forces: seq<Force>): real { Sum(forces, Signed) }

  function Total(forces: seq<Force>): real { Sum(forces, StrengthOf) }

  /** The total strength is not negative and bounds the net force. */
  lemma {:induction false} NetWithinTotal(forces: seq<Force>)
    ensures 0.0 <= Abs(Net(forces)) <= Total(forces)
  {
    if forces != [] {
      NetWithinTotal(forces[..|forces| - 1]);
    }
  }

  function Abs(x: real): real { if x < 0.0 then -x else x }

  /** Rounding to four decimals, ties to the even digit. */
  function Round4(x: real): real {
    var scaled := x * 10000.0;
    var low := scaled.Floor;
    var rest := scaled - low as real;
    var n := if rest < 0.5 then low else if rest > 0.5 then low + 1
             else if low % 2 == 0 then low else low + 1;
    n as real / 10000.0
  }

  function RawConfidence(net: real, total: real, halfpoint: real): real
    requires total >= 0.0 && halfpoint > 0.0
  {
    var consensus := if total > 0.0 then Abs(net) / total else 0.0;
    var mass := if total > 0.0 then total / (total + halfpoint) else 0.0;
    if consensus * mass < 1.0 then consensus * mass else 1.0
  }

  function DirectionOf(net: real, confidence: real, deadband: real): Direction {
    if confidence < deadband then Neutral else if net > 0.0 then Up else Down
  }

  function MagnitudeOf(average: real, s: Settings): Magnitude {
    if average < s.smallMax then Small else if average < s.mediumMax then Medium else Large
  }

  /** The reported confidence of a set of directional forces. */
  function ConfidenceOf(forces: seq<Force>, halfpoint: real): real
    requires halfpoint > 0.0
  {
    NetWithinTotal(forces);
    Round4(RawConfidence(Net(forces), Total(forces), halfpoint))
  }

  function Agreeing(forces: seq<Force>, d: Direction): seq<Force> {
    if d == Neutral then forces else Pushing(forces, d)
  }

  function AverageWeight(forces: seq<Force>): real
    requires forces != []
  {
    Sum(forces, WeightOf) / |forces| as real
  }

  /** What `decide` computes from the forces that passed the polarity and price gates. */
  function Verdict(effective: seq<Force>, s: Settings): Outcome
    requires s.halfpoint > 0.0
  {
    var forces := Directional(effective);
    if forces == [] then NoDecision
    else
      var confidence := ConfidenceOf(forces, s.halfpoint);
      var direction := DirectionOf(Net(forces), confidence, s.deadband);
      var agreeing := Agreeing(forces, direction);
      if agreeing == [] then DividedByZero
      else Decided(Decision(direction, MagnitudeOf(AverageWeight(agreeing), s), confidence, effective))
  }

  method Accumulate(forces: seq<Force>) returns (net: real, total: real)
    ensures net == Net(forces) && total == Total(forces)
  {
    net, total := 0.0, 0.0;
    for i := 0 to |forces|
      invariant net == Net(forces[..i]) && total == Total(forces[..i])
    {
      assert forces[..i + 1][..i] == forces[..i];
      var strength := Strength(forces[i].edge);
      var sign := if forces[i].direction == Up then 1.0 else -1.0;
      net := net + sign * strength;
      total := total + strength;
    }
    assert forces[..|forces|] == forces;
  }

  method Decide(edges: seq<Edge>, polarities: map<string, Polarity>, elevated: bool, s: Settings)
    returns (r: Outcome)
    requires s.halfpoint > 0.0
    ensures r == Verdict(Effective(edges, polarities, elevated), s)
  {
    var effective := Effective(edges, polarities, elevated);
    var forces := Directional(effective);
    if forces == [] {
      return NoDecision;
    }
    var net, total := Accumulate(forces);
    NetWithinTotal(forces);
    var confidence := Round4(RawConfidence(net, total, s.halfpoint));
    var direction := DirectionOf(net, confidence, s.deadband);
    var agreeing := Agreeing(forces, direction);
    if agreeing == [] {
      return DividedByZero;
    }
    r := Decided(Decision(direction, MagnitudeOf(AverageWeight(agreeing), s), confidence, effective));
  }

  // ---- The order of the edges ----

  /** The order in which edges are listed only orders the explanation, not the decision. */
  lemma DecisionIgnoresOrder(
    edges: seq<Edge>, edges': seq<Edge>, polarities: map<string, Polarity>, elevated: bool, s: Settings)
    requires s.halfpoint > 0.0
    requires multiset(edges) == multiset(edges')
    ensures var r, r' := Verdict(Effective(edges, polarities, elevated), s),
                         Verdict(Effective(edges', polarities, elevated), s);
            && (r.NoDecision? <==> r'.NoDecision?)
            && (r.DividedByZero? <==> r'.DividedByZero?)
            && (r.Decided? ==>
                  && r'.decision.direction == r.decision.direction
                  && r'.decision.confidence == r.decision.confidence
                  && r'.decision.magnitude == r.decision.magnitude
                  && multiset(r'.decision.contributing) == multiset(r.decision.contributing))
  {
    var f := (e: Edge) =>
      var d := ResolvedDirection(e, polarities, elevated);
      if d.Some? then [Force(e, d.value)] else [];
    GatherPermutes(edges, edges', f);
    var a, a' := Effective(edges, polarities, elevated), Effective(edges', polarities, elevated);
    assert a == Gather(edges, f) && a' == Gather(edges', f);
    VerdictIgnoresOrder(a, a', s);
  }

  lemma VerdictIgnoresOrder(a: seq<Force>, b: seq<Force>, s: Settings)
    requires s.halfpoint > 0.0
    requires multiset(a) == multiset(b)
    ensures var r, r' := Verdict(a, s), Verdict(b, s);
            && (r.NoDecision? <==> r'.NoDecision?)
            && (r.DividedByZero? <==> r'.DividedByZero?)
            && (r.Decided? ==>
                  && r'.decision.direction == r.decision.direction
                  && r'.decision.confidence == r.decision.confidence
                  && r'.decision.magnitude == r.decision.magnitude
                  && multiset(r'.decision.contributing) == multiset(r.decision.contributing))
  {
    var p := (f: Force) => if f.direction != Neutral then [f] else [];
    GatherPermutes(a, b, p);
    var fa, fb := Directional(a), Directional(b);
    assert fa == Gather(a, p) && fb == Gather(b, p);
    SumPermutes(fa, fb, Signed);
    SumPermutes(fa, fb, StrengthOf);
    SameMultisetSameSize(fa, fb);
    if fa != [] {
      NetWithinTotal(fa);
      var d := DirectionOf(Net(fa), ConfidenceOf(fa, s.halfpoint), s.deadband);
      var q := (f: Force) => if f.direction == d then [f] else [];
      GatherPermutes(fa, fb, q);
      assert Pushing(fa, d) == Gather(fa, q) && Pushing(fb, d) == Gather(fb, q);
      SumPermutes(Pushing(fa, d), Pushing(fb, d), WeightOf);
      SumPermutes(fa, fb, WeightOf);
      SameMultisetSameSize(Pushing(fa, d), Pushing(fb, d));
    }
  }

  // ---- Confidence ----

  /** Consensus times mass is the net force over total strength plus half-point, and stays below 1. */
  lemma ConfidenceClosedForm(forces: seq<Force>, halfpoint: real)
    requires halfpoint > 0.0
    ensures 0.0 <= Abs(Net(forces)) <= Total(forces)
    ensures RawConfidence(Net(forces), Total(forces), halfpoint) == Abs(Net(forces)) / (Total(forces) + halfpoint)
    ensures 0.0 <= RawConfidence(Net(forces), Total(forces), halfpoint) < 1.0
  {
    NetWithinTotal(forces);
    var n, t := Abs(Net(forces)), Total(forces);
    if t > 0.0 {
      assert n / t * (t / (t + halfpoint)) == n / (t + halfpoint);
    }
  }

  lemma Round4Near(x: real)
    ensures -0.00005 <= Round4(x) - x <= 0.00005
    ensures x == 0.0 ==> Round4(x) == 0.0
    ensures 0.0 <= x <= 1.0 ==> 0.0 <= Round4(x) <= 1.0
  {
  }

  lemma Round4Monotone(x: real, y: real)
    requires x <= y
    ensures Round4(x) <= Round4(y)
  {
    var a, b := (x * 10000.0).Floor, (y * 10000.0).Floor;
    assert a <= b;
  }

  // ---- When decide divides by zero ----

  ghost predicate AllDirectional(forces: seq<Force>) {
    forall f :: f in forces ==> f.direction != Neutral
  }

  lemma {:induction false} DirectionalIsDirectional(forces: seq<Force>)
    ensures AllDirectional(Directional(forces))
  {
    if forces != [] {
      DirectionalIsDirectional(forces[1..]);
      var p := (f: Force) => if f.direction != Neutral then [f] else [];
      assert Directional(forces) == p(forces[0]) + Directional(forces[1..]);
    }
  }

  lemma {:induction false} PushingHolds(forces: seq<Force>, d: Direction)
    ensures forall f :: f in Pushing(forces, d) <==> f in forces && f.direction == d
  {
    if forces != [] {
      PushingHolds(forces[1..], d);
      var q := (f: Force) => if f.direction == d then [f] else [];
      assert Pushing(forces, d) == q(forces[0]) + Pushing(forces[1..], d);
    }
  }

  /** With nothing pushing down the net force is the whole strength; with nothing up, its opposite. */
  lemma {:induction false} OneSidedForces(forces: seq<Force>)
    requires AllDirectional(forces)
    ensures (forall f :: f in forces ==> f.direction == Up) ==> Net(forces) == Total(forces)
    ensures (forall f :: f in forces ==> f.direction == Down) ==> Net(forces) == -Total(forces)
    ensures Total(forces) == 0.0 <==> forall f :: f in forces ==> f.edge.weight == 0.0
  {
    if forces != [] {
      var rest := forces[..|forces| - 1];
      OneSidedForces(rest);
      NetWithinTotal(rest);
      assert forces == rest + [forces[|forces| - 1]];
    }
  }

  /** A directional verdict always has an agreeing edge as soon as the deadband is positive. The
      division by the number of agreeing edges fails exactly when there is no deadband and every
      directional edge is an upward edge of weight zero. */
  lemma DividesByZeroExactlyWhen(effective: seq<Force>, s: Settings)
    requires s.halfpoint > 0.0
    ensures Verdict(effective, s).DividedByZero? <==>
            && s.deadband <= 0.0
            && Directional(effective) != []
            && (forall f :: f in Directional(effective) ==> f.direction == Up && f.edge.weight == 0.0)
  {
    var forces := Directional(effective);
    if forces != [] {
      DirectionalIsDirectional(effective);
      OneSidedForces(forces);
      ConfidenceClosedForm(forces, s.halfpoint);
      var raw := RawConfidence(Net(forces), Total(forces), s.halfpoint);
      Round4Near(raw);
      var direction := DirectionOf(Net(forces), Round4(raw), s.deadband);
      PushingHolds(forces, direction);
      assert forces[0] in forces;
      assert Pushing(forces, direction) == [] || Pushing(forces, direction)[0] in Pushing(forces, direction);
      if direction != Neutral && Pushing(forces, direction) == [] {
        assert forall f :: f in forces ==> f.direction != direction;
      }
    }
  }

  /** The failing input: one upward edge of weight zero, with the deadband switched off. */
  lemma ZeroWeightEdgeDividesByZero()
    ensures var s := Settings(0.0, 0.4, 0.7, 0.5);
            var e: Edge := Edge(Some("SANCTIONS"), Up, 0.0, 1.0, 1.0);
            Verdict(Effective([e], map[], false), s) == DividedByZero
  {
    var s := Settings(0.0, 0.4, 0.7, 0.5);
    var e: Edge := Edge(Some("SANCTIONS"), Up, 0.0, 1.0, 1.0);
    var f := (e: Edge) =>
      var d := ResolvedDirection(e, map[], false);
      if d.Some? then [Force(e, d.value)] else [];
    var effective := Effective([e], map[], false);
    assert effective == Gather([e], f) == f(e) + Gather([e][1..], f) == [Force(e, Up)];
    var p := (f: Force) => if f.direction != Neutral then [f] else [];
    assert Directional([Force(e, Up)]) == p(Force(e, Up)) + Gather([Force(e, Up)][1..], p) == [Force(e, Up)];
    DividesByZeroExactlyWhen(effective, s);
  }

  /** Behind a positive deadband a directional verdict has a net force. */
  lemma DirectionHasNetForce(forces: seq<Force>, s: Settings)
    requires s.halfpoint > 0.0 && s.deadband > 0.0
    requires DirectionOf(Net(forces), ConfidenceOf(forces, s.halfpoint), s.deadband) != Neutral
    ensures Net(forces) != 0.0
  {
    ConfidenceClosedForm(forces, s.halfpoint);
    Round4Near(RawConfidence(Net(forces), Total(forces), s.halfpoint));
  }

  lemma OneMore(bound: real, n: nat)
    ensures bound * (n + 1) as real == bound * n as real + bound
  {
  }

  lemma {:induction false} SumBelow(forces: seq<Force>, bound: real)
    requires forces != [] && forall f :: f in forces ==> f.edge.weight < bound
    ensures Sum(forces, WeightOf) < bound * |forces| as real
  {
    var rest, last := forces[..|forces| - 1], forces[|forces| - 1];
    assert last in forces && WeightOf(last) < bound;
    OneMore(bound, |rest|);
    if rest != [] {
      SumBelow(rest, bound);
    }
  }

  lemma {:induction false} SumAtLeast(forces: seq<Force>, bound: real)
    requires forall f :: f in forces ==> bound <= f.edge.weight
    ensures bound * |forces| as real <= Sum(forces, WeightOf)
  {
    if forces != [] {
      var rest, last := forces[..|forces| - 1], forces[|forces| - 1];
      assert last in forces && bound <= WeightOf(last);
      OneMore(bound, |rest|);
      SumAtLeast(rest, bound);
    }
  }

  lemma QuotientBound(x: real, n: real, bound: real)
    requires n > 0.0
    ensures x < bound * n ==> x / n < bound
    ensures bound * n <= x ==> bound <= x / n
  {
    var q := x / n;
    assert q * n == x;
    assert (q - bound) * n == x - bound * n;
  }

  lemma AverageBetween(forces: seq<Force>, bound: real)
    requires forces != []
    ensures (forall f :: f in forces ==> f.edge.weight < bound) ==> AverageWeight(forces) < bound
    ensures (forall f :: f in forces ==> bound <= f.edge.weight) ==> bound <= AverageWeight(forces)
  {
    QuotientBound(Sum(forces, WeightOf), |forces| as real, bound);
    if forall f :: f in forces ==> f.edge.weight < bound {
      SumBelow(forces, bound);
    }
    if forall f :: f in forces ==> bound <= f.edge.weight {
      SumAtLeast(forces, bound);
    }
  }

  /** What a decision says: its sign is the sign of the net force, it is directional exactly when the
      rounded confidence reaches the deadband, and its magnitude is that of the edges agreeing with it. */
  lemma DecisionMeaning(effective: seq<Force>, s: Settings)
    requires s.halfpoint > 0.0 && s.deadband > 0.0 && s.smallMax <= s.mediumMax
    requires Verdict(effective, s).Decided?
    ensures var d, forces := Verdict(effective, s).decision, Directional(effective);
            && (d.direction == Up <==> s.deadband <= d.confidence && Net(forces) > 0.0)
            && (d.direction == Down <==> s.deadband <= d.confidence && Net(forces) < 0.0)
            && 0.0 <= Total(forces)
            && -0.00005 <= d.confidence - Abs(Net(forces)) / (Total(forces) + s.halfpoint) <= 0.00005
            && 0.0 <= d.confidence <= 1.0
    ensures var d, forces := Verdict(effective, s).decision, Directional(effective);
            && ((forall f :: f in Agreeing(forces, d.direction) ==> f.edge.weight < s.smallMax) ==>
                  d.magnitude == Small)
            && ((forall f :: f in Agreeing(forces, d.direction) ==> s.mediumMax <= f.edge.weight) ==>
                  d.magnitude == Large)
  {
    var d, forces := Verdict(effective, s).decision, Directional(effective);
    ConfidenceClosedForm(forces, s.halfpoint);
    Round4Near(RawConfidence(Net(forces), Total(forces), s.halfpoint));
    if d.direction != Neutral {
      DirectionHasNetForce(forces, s);
    }
    AverageBetween(Agreeing(forces, d.direction), s.smallMax);
    AverageBetween(Agreeing(forces, d.direction), s.mediumMax);
  }

  // ---- Symmetry ----

  function Mirrored(forces: seq<Force>): seq<Force> {
    Gather(forces, (f: Force) => [Force(f.edge, Flip(f.direction))])
  }

  lemma MirroredHead(forces: seq<Force>)
    requires forces != []
    ensures Mirrored(forces) == [Force(forces[0].edge, Flip(forces[0].direction))] + Mirrored(forces[1..])
  {
  }

  lemma {:induction false} MirrorCommutes(forces: seq<Force>, d: Direction)
    ensures Directional(Mirrored(forces)) == Mirrored(Directional(forces))
    ensures Pushing(Mirrored(forces), Flip(d)) == Mirrored(Pushing(forces, d))
  {
    if forces != [] {
      var f, rest := forces[0], forces[1..];
      MirrorCommutes(rest, d);
      MirroredHead(forces);
      var m := Force(f.edge, Flip(f.direction));
      assert ([m] + Mirrored(rest))[1..] == Mirrored(rest);
      if f.direction != Neutral {
        assert Directional(forces) == [f] + Directional(rest);
        MirroredHead([f] + Directional(rest));
      } else {
        assert Directional(forces) == Directional(rest);
      }
      if f.direction == d {
        assert Pushing(forces, d) == [f] + Pushing(rest, d);
        MirroredHead([f] + Pushing(rest, d));
      } else {
        assert Pushing(forces, d) == Pushing(rest, d);
      }
    }
  }

  lemma {:induction false} MirrorSums(forces: seq<Force>)
    ensures |Mirrored(forces)| == |forces|
    ensures AllDirectional(forces) ==> Net(Mirrored(forces)) == -Net(forces)
    ensures Total(Mirrored(forces)) == Total(forces)
    ensures Sum(Mirrored(forces), WeightOf) == Sum(forces, WeightOf)
  {
    if forces != [] {
      var f, rest := forces[0], forces[1..];
      MirrorSums(rest);
      var m := Force(f.edge, Flip(f.direction));
      assert Mirrored(forces) == [m] + Mirrored(rest);
      assert forces == [f] + rest;
      SumConcat([m], Mirrored(rest), Signed);
      SumConcat([f], rest, Signed);
      SumConcat([m], Mirrored(rest), StrengthOf);
      SumConcat([f], rest, StrengthOf);
      SumConcat([m], Mirrored(rest), WeightOf);
      SumConcat([f], rest, WeightOf);
    }
  }

  lemma ConfidenceMirrors(forces: seq<Force>, halfpoint: real)
    requires halfpoint > 0.0 && AllDirectional(forces)
    ensures ConfidenceOf(Mirrored(forces), halfpoint) == ConfidenceOf(forces, halfpoint)
  {
    MirrorSums(forces);
    NetWithinTotal(forces);
    var n, n' := Net(forces), Net(Mirrored(forces));
    assert n' == -n && Abs(n') == Abs(n);
    assert RawConfidence(n', Total(forces), halfpoint) == RawConfidence(n, Total(forces), halfpoint);
  }

  lemma AgreeingMirrors(forces: seq<Force>, d: Direction)
    ensures Agreeing(Mirrored(forces), Flip(d)) == Mirrored(Agreeing(forces, d))
    ensures |Agreeing(Mirrored(forces), Flip(d))| == |Agreeing(forces, d)|
    ensures Agreeing(forces, d) != [] ==>
              AverageWeight(Agreeing(Mirrored(forces), Flip(d))) == AverageWeight(Agreeing(forces, d))
  {
    MirrorCommutes(forces, d);
    MirrorSums(Agreeing(forces, d));
  }

  /** Reversing every effective force reverses the direction and changes nothing else. */
  lemma VerdictMirrors(effective: seq<Force>, s: Settings)
    requires s.halfpoint > 0.0 && s.deadband > 0.0
    ensures var r, r' := Verdict(effective, s), Verdict(Mirrored(effective), s);
            && (r.NoDecision? <==> r'.NoDecision?)
            && (r.Decided? <==> r'.Decided?)
            && (r.Decided? ==>
                  && r'.decision.direction == Flip(r.decision.direction)
                  && r'.decision.confidence == r.decision.confidence
                  && r'.decision.magnitude == r.decision.magnitude)
  {
    var forces := Directional(effective);
    MirrorCommutes(effective, Neutral);
    MirrorSums(forces);
    if forces != [] {
      DirectionalIsDirectional(effective);
      ConfidenceMirrors(forces, s.halfpoint);
      var d := DirectionOf(Net(forces), ConfidenceOf(forces, s.halfpoint), s.deadband);
      if d != Neutral { DirectionHasNetForce(forces, s); }
      assert DirectionOf(Net(Mirrored(forces)), ConfidenceOf(Mirrored(forces), s.halfpoint), s.deadband) == Flip(d);
      AgreeingMirrors(forces, d);
    }
  }

  // ---- More evidence of the same kind ----

  lemma MoreMassMoreConfidence(n: real, t: real, x: real, h: real)
    requires 0.0 <= n <= t && 0.0 <= x && 0.0 < h
    ensures n / (t + h) <= (n + x) / (t + x + h)
  {
    assert n * (t + x + h) <= (n + x) * (t + h);
    assert n / (t + h) == n * (t + x + h) / ((t + h) * (t + x + h));
    assert (n + x) / (t + x + h) == (n + x) * (t + h) / ((t + h) * (t + x + h));
  }

  lemma AgreeingForceAddsConfidence(forces: seq<Force>, extra: Force, halfpoint: real)
    requires halfpoint > 0.0
    requires (Net(forces) > 0.0 && extra.direction == Up) || (Net(forces) < 0.0 && extra.direction == Down)
    ensures Net(forces) > 0.0 <==> Net(forces + [extra]) > 0.0
    ensures ConfidenceOf(forces, halfpoint) <= ConfidenceOf(forces + [extra], halfpoint)
  {
    SumConcat(forces, [extra], Signed);
    SumConcat(forces, [extra], StrengthOf);
    assert Sum([extra], Signed) == Signed(extra) && Sum([extra], StrengthOf) == StrengthOf(extra);
    ConfidenceClosedForm(forces, halfpoint);
    ConfidenceClosedForm(forces + [extra], halfpoint);
    MoreMassMoreConfidence(Abs(Net(forces)), Total(forces), Strength(extra.edge), halfpoint);
    Round4Monotone(RawConfidence(Net(forces), Total(forces), halfpoint),
                   RawConfidence(Net(forces + [extra]), Total(forces + [extra]), halfpoint));
  }

  /** One more force in the decided direction keeps the direction and never lowers the confidence. */
  lemma AgreeingForceReinforces(effective: seq<Force>, extra: Force, s: Settings)
    requires s.halfpoint > 0.0 && s.deadband > 0.0
    requires Verdict(effective, s).Decided?
    requires Verdict(effective, s).decision.direction != Neutral
    requires extra.direction == Verdict(effective, s).decision.direction
    ensures var r, r' := Verdict(effective, s), Verdict(effective + [extra], s);
            && r'.Decided?
            && r'.decision.direction == r.decision.direction
            && r'.decision.confidence >= r.decision.confidence
  {
    var forces := Directional(effective);
    var p := (f: Force) => if f.direction != Neutral then [f] else [];
    GatherConcat(effective, [extra], p);
    assert Gather([extra], p) == [extra];
    assert Directional(effective + [extra]) == Gather(effective + [extra], p) == forces + [extra];
    DirectionHasNetForce(forces, s);
    AgreeingForceAddsConfidence(forces, extra, s.halfpoint);
    DividesByZeroExactlyWhen(effective + [extra], s);
  }
}
