/**
 A decision said from the edges it is made of: which way each edge pulls after its factor's polarity and the price
 gate, how hard, and what the pulls on either side add up to.
 */
module Forces {
  import opened Wrappers
  import opened Sequences
  import opened Directions
  import opened Decisions

  // ---- One edge ----

  /** An edge whose factor did not resolve pulls its own way. A resolved factor turns its edge around: a downward pull
      then counts only where the price is elevated. */
  ghost function Pull(e: Edge, polarities: map<string, Polarity>, elevated: bool): Option<Direction> {
    if e.factor.None? || e.factor.value !in polarities || polarities[e.factor.value] != Resolution
    then Some(e.direction)
    else match e.direction
         case Up => if elevated then Some(Down) else None
         case Down => Some(Up)
         case Neutral => Some(Neutral)
  }

  /** How hard an edge pulls: its weight times the share of its outcomes that were right. */
  ghost function Hardness(e: Edge): real {
    e.weight * e.alpha / (e.alpha + e.beta)
  }

  lemma StrengthIsHardness(e: Edge)
    ensures Strength(e) == Hardness(e) >= 0.0
    ensures Hardness(e) == 0.0 <==> e.weight == 0.0
  {
    var sum := e.alpha + e.beta;
    var q := e.alpha / sum;
    assert q * sum == e.alpha;
    assert e.weight * e.alpha == (e.weight * q) * sum;
  }

  /** The edges that survive are those that pull, each once and in order, with the way they pull. */
  lemma {:induction false} EffectiveExactly(
    edges: seq<Edge>, polarities: map<string, Polarity>, elevated: bool, f: Force)
    ensures f in Effective(edges, polarities, elevated) <==>
            f.edge in edges && Pull(f.edge, polarities, elevated) == Some(f.direction)
  {
    if edges != [] {
      EffectiveStep(edges, polarities, elevated);
      EffectiveExactly(edges[1..], polarities, elevated, f);
      assert edges == [edges[0]] + edges[1..];
    }
  }

  function Turned(e: Edge, d: Option<Direction>): seq<Force> {
    if d.Some? then [Force(e, d.value)] else []
  }

  lemma EffectiveStep(edges: seq<Edge>, polarities: map<string, Polarity>, elevated: bool)
    requires edges != []
    ensures Effective(edges, polarities, elevated)
            == Turned(edges[0], Pull(edges[0], polarities, elevated)) + Effective(edges[1..], polarities, elevated)
  {
  }

  // ---- All edges ----

  /** What the edges pulling one way amount to. */
  ghost function Mass(edges: seq<Edge>, polarities: map<string, Polarity>, elevated: bool, d: Direction): real {
    if edges == [] then 0.0
    else (if Pull(edges[0], polarities, elevated) == Some(d) then Hardness(edges[0]) else 0.0)
         + Mass(edges[1..], polarities, elevated, d)
  }

  ghost function Weight(edges: seq<Edge>, polarities: map<string, Polarity>, elevated: bool, d: Direction): real {
    if edges == [] then 0.0
    else (if Pull(edges[0], polarities, elevated) == Some(d) then edges[0].weight else 0.0)
         + Weight(edges[1..], polarities, elevated, d)
  }

  ghost function Number(edges: seq<Edge>, polarities: map<string, Polarity>, elevated: bool, d: Direction): nat {
    if edges == [] then 0
    else (if Pull(edges[0], polarities, elevated) == Some(d) then 1 else 0)
         + Number(edges[1..], polarities, elevated, d)
  }

  ghost function Pulling(edges: seq<Edge>, polarities: map<string, Polarity>, elevated: bool): seq<Force> {
    Directional(Effective(edges, polarities, elevated))
  }

  lemma DirectionalConcat(a: seq<Force>, b: seq<Force>)
    ensures Directional(a + b) == Directional(a) + Directional(b)
  {
    GatherConcat(a, b, (f: Force) => if f.direction != Neutral then [f] else []);
  }

  lemma PushingConcat(a: seq<Force>, b: seq<Force>, d: Direction)
    ensures Pushing(a + b, d) == Pushing(a, d) + Pushing(b, d)
  {
    GatherConcat(a, b, (f: Force) => if f.direction == d then [f] else []);
  }

  lemma PullingStep(edges: seq<Edge>, polarities: map<string, Polarity>, elevated: bool)
    requires edges != []
    ensures var d := Pull(edges[0], polarities, elevated);
            Pulling(edges, polarities, elevated)
            == (if d.Some? && d.value != Neutral then [Force(edges[0], d.value)] else [])
               + Pulling(edges[1..], polarities, elevated)
  {
    var d := Pull(edges[0], polarities, elevated);
    EffectiveStep(edges, polarities, elevated);
    DirectionalConcat(Turned(edges[0], d), Effective(edges[1..], polarities, elevated));
    if d.Some? {
      DirectionalOne(Force(edges[0], d.value));
    }
  }

  lemma DirectionalOne(f: Force)
    ensures Directional([f]) == if f.direction != Neutral then [f] else []
  {
    var p := (f: Force) => if f.direction != Neutral then [f] else [];
    assert Gather([f], p) == p(f) + Gather([f][1..], p) == p(f);
  }

  lemma PushingOne(f: Force, d: Direction)
    ensures Pushing([f], d) == if f.direction == d then [f] else []
  {
    var q := (f: Force) => if f.direction == d then [f] else [];
    assert Gather([f], q) == q(f) + Gather([f][1..], q) == q(f);
  }

  lemma SumOne(f: Force, g: Force -> real)
    ensures Sum([f], g) == g(f)
  {
    assert [f][..0] == [];
  }

  /** The net force is what pulls up less what pulls down, and the total is both together. */
  lemma {:induction false} MassAddsUp(edges: seq<Edge>, polarities: map<string, Polarity>, elevated: bool)
    ensures var up, down := Mass(edges, polarities, elevated, Up), Mass(edges, polarities, elevated, Down);
            && Net(Pulling(edges, polarities, elevated)) == up - down
            && Total(Pulling(edges, polarities, elevated)) == up + down
            && up >= 0.0 && down >= 0.0
  {
    if edges != [] {
      var d, rest := Pull(edges[0], polarities, elevated), Pulling(edges[1..], polarities, elevated);
      MassAddsUp(edges[1..], polarities, elevated);
      PullingStep(edges, polarities, elevated);
      StrengthIsHardness(edges[0]);
      if d.Some? && d.value != Neutral {
        var f := Force(edges[0], d.value);
        SumConcat([f], rest, Signed);
        SumConcat([f], rest, StrengthOf);
        SumOne(f, Signed);
        SumOne(f, StrengthOf);
      } else {
        assert [] + rest == rest;
      }
    }
  }

  lemma {:induction false} WeightsAddUp(
    edges: seq<Edge>, polarities: map<string, Polarity>, elevated: bool, d: Direction)
    requires d != Neutral
    ensures var pushing := Pushing(Pulling(edges, polarities, elevated), d);
            && |pushing| == Number(edges, polarities, elevated, d)
            && Sum(pushing, WeightOf) == Weight(edges, polarities, elevated, d)
  {
    if edges != [] {
      var way, rest := Pull(edges[0], polarities, elevated), Pulling(edges[1..], polarities, elevated);
      WeightsAddUp(edges[1..], polarities, elevated, d);
      PullingStep(edges, polarities, elevated);
      if way.Some? && way.value != Neutral {
        var f := Force(edges[0], way.value);
        PushingConcat([f], rest, d);
        PushingOne(f, d);
        if way.value == d {
          SumConcat([f], Pushing(rest, d), WeightOf);
          SumOne(f, WeightOf);
        } else {
          assert [] + Pushing(rest, d) == Pushing(rest, d);
        }
      } else {
        assert [] + rest == rest;
      }
    }
  }

  lemma {:induction false} BothWaysAddUp(edges: seq<Edge>, polarities: map<string, Polarity>, elevated: bool)
    ensures var forces := Pulling(edges, polarities, elevated);
            && |forces| == Number(edges, polarities, elevated, Up) + Number(edges, polarities, elevated, Down)
            && Sum(forces, WeightOf)
               == Weight(edges, polarities, elevated, Up) + Weight(edges, polarities, elevated, Down)
  {
    if edges != [] {
      var d, rest := Pull(edges[0], polarities, elevated), Pulling(edges[1..], polarities, elevated);
      BothWaysAddUp(edges[1..], polarities, elevated);
      PullingStep(edges, polarities, elevated);
      if d.Some? && d.value != Neutral {
        var f := Force(edges[0], d.value);
        SumConcat([f], rest, WeightOf);
        SumOne(f, WeightOf);
      } else {
        assert [] + rest == rest;
      }
    }
  }

  // ---- The decision ----

  /** `y` is `x` to four decimals, a tie going to the even digit. */
  ghost predicate RoundsTo(x: real, y: real) {
    exists n: int :: IsRounded(x, y, n)
  }

  ghost predicate IsRounded(x: real, y: real, n: int) {
    var off := x * 10000.0 - n as real;
    y == n as real / 10000.0 && -0.5 <= off <= 0.5 && (off == 0.5 || off == -0.5 ==> n % 2 == 0)
  }

  lemma Round4Exactly(x: real)
    ensures RoundsTo(x, Round4(x))
  {
    var scaled := x * 10000.0;
    var low := scaled.Floor;
    var rest := scaled - low as real;
    var n := if rest < 0.5 then low else if rest > 0.5 then low + 1 else if low % 2 == 0 then low else low + 1;
    assert IsRounded(x, Round4(x), n);
  }

  /** The magnitude a sum of `n` weights calls for. */
  ghost function Size(sum: real, n: nat, s: Settings): Magnitude {
    if sum < s.smallMax * n as real then Small else if sum < s.mediumMax * n as real then Medium else Large
  }

  lemma SizeOfAverage(forces: seq<Force>, s: Settings)
    requires forces != []
    ensures MagnitudeOf(AverageWeight(forces), s) == Size(Sum(forces, WeightOf), |forces|, s)
  {
    QuotientBound(Sum(forces, WeightOf), |forces| as real, s.smallMax);
    QuotientBound(Sum(forces, WeightOf), |forces| as real, s.mediumMax);
  }

  /** Nothing pulls down, and whatever pulls up weighs nothing. */
  lemma IdleMeans(edges: seq<Edge>, polarities: map<string, Polarity>, elevated: bool)
    ensures (forall f :: f in Pulling(edges, polarities, elevated) ==> f.direction == Up && f.edge.weight == 0.0) <==>
            Number(edges, polarities, elevated, Down) == 0 && Mass(edges, polarities, elevated, Up) == 0.0
  {
    var forces := Pulling(edges, polarities, elevated);
    WeightsAddUp(edges, polarities, elevated, Down);
    MassAddsUp(edges, polarities, elevated);
    DirectionalIsDirectional(Effective(edges, polarities, elevated));
    PushingHolds(forces, Down);
    OneSidedForces(forces);
    assert Pushing(forces, Down) == [] || Pushing(forces, Down)[0] in Pushing(forces, Down);
    if Pushing(forces, Down) == [] {
      forall f | f in forces ensures f.direction == Up {
        assert f !in Pushing(forces, Down);
      }
    }
  }

  /** There is a decision exactly when something pulls up or down, but for the division by zero. */
  lemma DecidesExactlyWhen(edges: seq<Edge>, polarities: map<string, Polarity>, elevated: bool, s: Settings)
    requires s.halfpoint > 0.0
    ensures var r := Verdict(Effective(edges, polarities, elevated), s);
            var n := Number(edges, polarities, elevated, Up) + Number(edges, polarities, elevated, Down);
            && (r.NoDecision? <==> n == 0)
            && (r.DividedByZero? <==>
                  && s.deadband <= 0.0 && n > 0 && Number(edges, polarities, elevated, Down) == 0
                  && Mass(edges, polarities, elevated, Up) == 0.0)
  {
    BothWaysAddUp(edges, polarities, elevated);
    IdleMeans(edges, polarities, elevated);
    DividesByZeroExactlyWhen(Effective(edges, polarities, elevated), s);
  }

  lemma VerdictParts(effective: seq<Force>, s: Settings)
    requires s.halfpoint > 0.0 && Verdict(effective, s).Decided?
    ensures var d, forces := Verdict(effective, s).decision, Directional(effective);
            && d.confidence == ConfidenceOf(forces, s.halfpoint) && d.contributing == effective
            && d.direction == DirectionOf(Net(forces), d.confidence, s.deadband)
            && Agreeing(forces, d.direction) != []
            && d.magnitude == MagnitudeOf(AverageWeight(Agreeing(forces, d.direction)), s)
  {
  }

  lemma ConfidenceOfSides(forces: seq<Force>, up: real, down: real, halfpoint: real)
    requires halfpoint > 0.0 && up >= 0.0 && down >= 0.0 && Net(forces) == up - down && Total(forces) == up + down
    ensures RoundsTo((if up > down then up - down else down - up) / (up + down + halfpoint),
                     ConfidenceOf(forces, halfpoint))
  {
    ConfidenceClosedForm(forces, halfpoint);
    Round4Exactly(RawConfidence(Net(forces), Total(forces), halfpoint));
  }

  /** What a decision says of its edges: the confidence is the difference of the two sides over their sum and the
      half-point, to four decimals; and it points to the heavier side once the confidence reaches the deadband. */
  lemma EdgesDecide(edges: seq<Edge>, polarities: map<string, Polarity>, elevated: bool, s: Settings)
    requires s.halfpoint > 0.0 && Verdict(Effective(edges, polarities, elevated), s).Decided?
    ensures var d := Verdict(Effective(edges, polarities, elevated), s).decision;
            var up, down := Mass(edges, polarities, elevated, Up), Mass(edges, polarities, elevated, Down);
            && up + down + s.halfpoint > 0.0
            && RoundsTo((if up > down then up - down else down - up) / (up + down + s.halfpoint), d.confidence)
            && d.direction == (if d.confidence < s.deadband then Neutral else if up > down then Up else Down)
            && d.contributing == Effective(edges, polarities, elevated)
  {
    MassAddsUp(edges, polarities, elevated);
    VerdictParts(Effective(edges, polarities, elevated), s);
    ConfidenceOfSides(Pulling(edges, polarities, elevated), Mass(edges, polarities, elevated, Up),
                      Mass(edges, polarities, elevated, Down), s.halfpoint);
  }

  /** Its magnitude is that of the edges on its side, or of both sides when it is neutral. */
  lemma EdgesWeigh(edges: seq<Edge>, polarities: map<string, Polarity>, elevated: bool, s: Settings)
    requires s.halfpoint > 0.0 && Verdict(Effective(edges, polarities, elevated), s).Decided?
    ensures var d := Verdict(Effective(edges, polarities, elevated), s).decision;
            d.magnitude
            == if d.direction == Neutral
               then Size(Weight(edges, polarities, elevated, Up) + Weight(edges, polarities, elevated, Down),
                         Number(edges, polarities, elevated, Up) + Number(edges, polarities, elevated, Down), s)
               else Size(Weight(edges, polarities, elevated, d.direction),
                         Number(edges, polarities, elevated, d.direction), s)
  {
    var d := Verdict(Effective(edges, polarities, elevated), s).decision;
    VerdictParts(Effective(edges, polarities, elevated), s);
    SizeOfAverage(Agreeing(Pulling(edges, polarities, elevated), d.direction), s);
    if d.direction == Neutral {
      BothWaysAddUp(edges, polarities, elevated);
    } else {
      WeightsAddUp(edges, polarities, elevated, d.direction);
    }
  }

  /** A lone edge decides its own way, and a resolved factor turns it around: upward edges count, downward, only where
      the price is elevated. */
  lemma LoneEdgeDecides(e: Edge, polarities: map<string, Polarity>, elevated: bool, s: Settings)
    requires s.halfpoint > 0.0 && e.weight > 0.0 && e.direction != Neutral
    ensures var r := Verdict(Effective([e], polarities, elevated), s);
            var resolved := e.factor.Some? && e.factor.value in polarities && polarities[e.factor.value] == Resolution;
            if resolved && e.direction == Up && !elevated then r.NoDecision?
            else
              && r.Decided?
              && r.decision.direction
                 == if r.decision.confidence < s.deadband then Neutral
                    else if !resolved then e.direction
                    else if e.direction == Up then Down else Up
  {
    assert [e][1..] == [];
    StrengthIsHardness(e);
    DecidesExactlyWhen([e], polarities, elevated, s);
    if Verdict(Effective([e], polarities, elevated), s).Decided? {
      EdgesDecide([e], polarities, elevated, s);
    }
    forall d ensures Mass([e], polarities, elevated, d)
                     == (if Pull(e, polarities, elevated) == Some(d) then Hardness(e) else 0.0)
    {
      assert Mass([e][1..], polarities, elevated, d) == 0.0;
    }
    forall d ensures Number([e], polarities, elevated, d)
                     == (if Pull(e, polarities, elevated) == Some(d) then 1 else 0)
    {
      assert Number([e][1..], polarities, elevated, d) == 0;
    }
  }
}
