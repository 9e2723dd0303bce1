/**
 How far one scored message moves the graph: exactly when each edge stays within its share of the step, and
 when all edges together stay within the step.
 */
module WeightMovement {
  import opened Wrappers
  import opened Sequences
  import opened Credibility

  // ---- What a message credits ----

  /** The contributions whose influence a message shares out. */
  function Shared(ids: IdReader, m: Scored): seq<Contribution> {
    if !m.propagated then m.edges
    else if Correlations(ids, m.edges).Some? then Correlations(ids, m.edges).value
    else []
  }

  /** The contributions whose writes land: all of them, or those before the first id that does not parse. */
  function Credited(ids: IdReader, m: Scored): seq<Contribution> {
    if m.propagated then Shared(ids, m) else m.edges[..ParsedPrefix(ids, m.edges)]
  }

  /** The move each shared contribution is worth. */
  function Moves(ids: IdReader, p: Policy, m: Scored): map<string, real> {
    Deltas(p, ProportionalCredits(Shared(ids, m)))
  }

  lemma CreditedAreShared(ids: IdReader, p: Policy, m: Scored)
    ensures forall c :: c in Credited(ids, m) ==> c in Shared(ids, m)
    ensures forall c :: c in Shared(ids, m) ==> c.id in Moves(ids, p, m)
  {
    var shared := Shared(ids, m);
    CreditsCover(shared, |shared|);
    assert shared[..|shared|] == shared;
  }

  /** The graph phase credits exactly those contributions by those moves. */
  lemma PhaseCredits(ids: IdReader, p: Policy, g: map<string, EdgeState>, m: Scored)
    ensures forall c :: c in Credited(ids, m) ==> c.id in Moves(ids, p, m)
    ensures GraphPhase(ids, p, g, m).0 == CreditEdges(g, Credited(ids, m), Moves(ids, p, m), m.correct, p)
  {
    CreditedAreShared(ids, p, m);
  }

  lemma {:induction false} CorrelationsAreListed(ids: IdReader, edges: seq<Contribution>)
    requires Distinct(Ids(edges)) && Correlations(ids, edges).Some?
    ensures forall c :: c in Correlations(ids, edges).value ==> c in edges
    ensures Distinct(Ids(Correlations(ids, edges).value))
  {
    if edges != [] {
      var rest := edges[1..];
      assert Ids(rest) == Ids(edges)[1..];
      CorrelationsAreListed(ids, rest);
      var found := Correlations(ids, rest).value;
      forall i | 0 <= i < |found| ensures found[i].id != edges[0].id {
        assert found[i] in rest;
        var k :| 0 <= k < |rest| && rest[k] == found[i];
        assert Ids(edges)[k + 1] == found[i].id && Ids(edges)[0] == edges[0].id;
      }
      assert Distinct(Ids([edges[0]] + found)) by {
        assert Ids([edges[0]] + found) == [edges[0].id] + Ids(found);
      }
    }
  }

  lemma SharedAreDistinct(ids: IdReader, m: Scored)
    requires Distinct(Ids(m.edges))
    ensures Distinct(Ids(Shared(ids, m))) && Distinct(Ids(Credited(ids, m)))
  {
    if m.propagated {
      if Correlations(ids, m.edges).Some? {
        CorrelationsAreListed(ids, m.edges);
      }
    } else {
      var k := ParsedPrefix(ids, m.edges);
      assert Ids(m.edges[..k]) == Ids(m.edges)[..k];
    }
  }

  lemma MovesAreShares(ids: IdReader, p: Policy, m: Scored)
    requires ValidPolicy(p) && Distinct(Ids(m.edges))
    ensures forall c :: c in Shared(ids, m) ==> c.id in Moves(ids, p, m) && 0.0 <= Moves(ids, p, m)[c.id]
    ensures Shared(ids, m) != [] ==> Sum(Shared(ids, m), ValueIn(Moves(ids, p, m))) == p.step
  {
    SharedAreDistinct(ids, m);
    if Shared(ids, m) != [] {
      DeltasSumToStep(Shared(ids, m), p);
    }
  }

  /** What one applied message does to the graph, edge by edge. */
  lemma ProcessPointwise(ids: IdReader, p: Policy, s: Learner, m: Scored)
    requires m.prediction !in s.processed && Distinct(Ids(m.edges))
    ensures var after, moves := Process(ids, p, s, m, false).0.graph, Moves(ids, p, m);
            && after == GraphPhase(ids, p, s.graph, m).0
            && after.Keys == s.graph.Keys
            && (forall id :: id in s.graph && id !in Ids(Credited(ids, m)) ==> after[id] == s.graph[id])
            && (forall c :: c in Credited(ids, m) && c.id in s.graph ==>
                  && c.id in moves
                  && after[c.id] == s.graph[c.id].(
                       weight := ApplyWeightDelta(s.graph[c.id].weight, moves[c.id], m.correct, p)))
  {
    PhaseCredits(ids, p, s.graph, m);
    SharedAreDistinct(ids, m);
    CreditEdgesPointwise(s.graph, Credited(ids, m), Moves(ids, p, m), m.correct, p);
  }

  // ---- One weight ----

  /** By how much bringing a stray weight back into the band exceeds its share. */
  function Overshoot(weight: real, delta: real, p: Policy): real {
    if Outside(weight, p) > delta then Outside(weight, p) - delta else 0.0
  }

  /** How much of its share a weight cannot use because the far end of the band is nearer. */
  function Unused(weight: real, delta: real, correct: bool, p: Policy): real {
    var room := Distance(weight, if correct then 1.0 else p.floor);
    if delta > room then delta - room else 0.0
  }

  /** A weight moves by exactly its share, plus the overshoot, less what it cannot use. */
  lemma MoveIsExact(weight: real, delta: real, correct: bool, p: Policy)
    requires ValidPolicy(p) && 0.0 <= delta
    ensures var moved := Distance(weight, ApplyWeightDelta(weight, delta, correct, p));
            moved == delta + Overshoot(weight, delta, p) - Unused(weight, delta, correct, p)
  {
  }

  // ---- One message ----

  /** Every edge a message credits moves by at most its share if and only if every credited edge of the graph
      lies within its share of the band. */
  lemma SharesBoundMovesExactlyWhen(ids: IdReader, p: Policy, s: Learner, m: Scored)
    requires ValidPolicy(p) && m.prediction !in s.processed && Distinct(Ids(m.edges))
    ensures forall c :: c in Credited(ids, m) ==> c.id in Moves(ids, p, m)
    ensures var after, moves := Process(ids, p, s, m, false).0.graph, Moves(ids, p, m);
            && after.Keys == s.graph.Keys
            && ((forall c :: c in Credited(ids, m) && c.id in s.graph ==>
                   Distance(s.graph[c.id].weight, after[c.id].weight) <= moves[c.id])
                <==>
                (forall c :: c in Credited(ids, m) && c.id in s.graph ==>
                   Outside(s.graph[c.id].weight, p) <= moves[c.id]))
  {
    CreditedAreShared(ids, p, m);
    MovesAreShares(ids, p, m);
    ProcessPointwise(ids, p, s, m);
    var after, moves := Process(ids, p, s, m, false).0.graph, Moves(ids, p, m);
    forall c | c in Credited(ids, m) && c.id in s.graph
      ensures Distance(s.graph[c.id].weight, after[c.id].weight) <= moves[c.id]
              <==> Outside(s.graph[c.id].weight, p) <= moves[c.id]
    {
      WeightDeltaIsBounded(s.graph[c.id].weight, moves[c.id], m.correct, p);
    }
  }

  /** How far the credited edges of the graph overshoot their shares. */
  function Excess(ids: IdReader, p: Policy, g: map<string, EdgeState>, m: Scored): Contribution -> real {
    var moves := Moves(ids, p, m);
    (c: Contribution) =>
      if c.id in g && c.id in Ids(Credited(ids, m)) && c.id in moves
      then Overshoot(g[c.id].weight, moves[c.id], p) else 0.0
  }

  /** What is left of the shares: all of it where no write lands. */
  function Spare(ids: IdReader, p: Policy, g: map<string, EdgeState>, m: Scored): Contribution -> real {
    var moves := Moves(ids, p, m);
    (c: Contribution) =>
      if c.id in g && c.id in Ids(Credited(ids, m)) && c.id in moves
      then Unused(g[c.id].weight, moves[c.id], m.correct, p) else ValueIn(moves)(c)
  }

  /** All weights together move by at most one step plus the corrections of stray weights, and by at most one step
      if and only if the overshoots fit into what the shares leave unused. Both can be read off the graph before
      the message is applied. */
  lemma OneMessageMovesOneStep(ids: IdReader, p: Policy, s: Learner, m: Scored)
    requires ValidPolicy(p) && m.prediction !in s.processed && Distinct(Ids(m.edges))
    ensures var after, shared := Process(ids, p, s, m, false).0.graph, Shared(ids, m);
            && (forall id :: id in s.graph && id !in Ids(shared) ==> id in after && after[id] == s.graph[id])
            && (Sum(shared, Moved(s.graph, after)) <= p.step <==>
                Sum(shared, Excess(ids, p, s.graph, m)) <= Sum(shared, Spare(ids, p, s.graph, m)))
            && Sum(shared, Moved(s.graph, after)) <= p.step + Sum(shared, Correction(s.graph, p))
  {
    var after, shared := Process(ids, p, s, m, false).0.graph, Shared(ids, m);
    ProcessPointwise(ids, p, s, m);
    CreditedIdsAreShared(ids, m);
    MovesAreShares(ids, p, m);
    SumOfMoves(ids, p, s, m);
    ExcessWithinCorrections(ids, p, s.graph, m);
  }

  lemma ExcessWithinCorrections(ids: IdReader, p: Policy, g: map<string, EdgeState>, m: Scored)
    requires ValidPolicy(p) && Distinct(Ids(m.edges))
    ensures var shared := Shared(ids, m);
            Sum(shared, Excess(ids, p, g, m)) - Sum(shared, Spare(ids, p, g, m)) <= Sum(shared, Correction(g, p))
  {
    var shared := Shared(ids, m);
    MovesAreShares(ids, p, m);
    var none := (c: Contribution) => 0.0;
    SumBounded(shared, Excess(ids, p, g, m), Correction(g, p));
    SumBounded(shared, none, Spare(ids, p, g, m));
    SumOfConstant(shared, none, 0.0);
  }

  lemma CreditedIdsAreShared(ids: IdReader, m: Scored)
    ensures forall id :: id in Ids(Credited(ids, m)) ==> id in Ids(Shared(ids, m))
  {
    var credited, shared := Credited(ids, m), Shared(ids, m);
    forall id | id in Ids(credited) ensures id in Ids(shared) {
      var i :| 0 <= i < |credited| && Ids(credited)[i] == id;
      assert Ids(shared)[i] == id;
    }
  }

  lemma MoveOfShared(ids: IdReader, p: Policy, s: Learner, m: Scored, c: Contribution)
    requires ValidPolicy(p) && m.prediction !in s.processed && Distinct(Ids(m.edges)) && c in Shared(ids, m)
    ensures Moved(s.graph, Process(ids, p, s, m, false).0.graph)(c) + Spare(ids, p, s.graph, m)(c)
            == ValueIn(Moves(ids, p, m))(c) + Excess(ids, p, s.graph, m)(c)
  {
    ProcessPointwise(ids, p, s, m);
    MovesAreShares(ids, p, m);
    var credited, moves := Credited(ids, m), Moves(ids, p, m);
    if c.id in s.graph && c.id in Ids(credited) {
      var i :| 0 <= i < |credited| && Ids(credited)[i] == c.id;
      assert credited[i] in credited;
      MoveIsExact(s.graph[c.id].weight, moves[c.id], m.correct, p);
    }
  }

  lemma SumOfMoves(ids: IdReader, p: Policy, s: Learner, m: Scored)
    requires ValidPolicy(p) && m.prediction !in s.processed && Distinct(Ids(m.edges))
    ensures var shared, after := Shared(ids, m), Process(ids, p, s, m, false).0.graph;
            Sum(shared, Moved(s.graph, after)) + Sum(shared, Spare(ids, p, s.graph, m))
            == Sum(shared, ValueIn(Moves(ids, p, m))) + Sum(shared, Excess(ids, p, s.graph, m))
  {
    var shared, after := Shared(ids, m), Process(ids, p, s, m, false).0.graph;
    var moved, spare := Moved(s.graph, after), Spare(ids, p, s.graph, m);
    var share, excess := ValueIn(Moves(ids, p, m)), Excess(ids, p, s.graph, m);
    var left := (c: Contribution) => moved(c) + spare(c);
    var right := (c: Contribution) => share(c) + excess(c);
    forall c | c in shared ensures left(c) == right(c) {
      MoveOfShared(ids, p, s, m, c);
    }
    SumAgrees(shared, left, right);
    SumAdds(shared, moved, spare, left);
    SumAdds(shared, share, excess, right);
  }

  /** In particular a message whose credited weights all lie in the band moves them by at most one step. */
  lemma InBandMovesOneStep(ids: IdReader, p: Policy, s: Learner, m: Scored)
    requires ValidPolicy(p) && m.prediction !in s.processed && Distinct(Ids(m.edges))
    requires forall c :: c in Credited(ids, m) && c.id in s.graph ==> p.floor <= s.graph[c.id].weight <= 1.0
    ensures Sum(Shared(ids, m), Moved(s.graph, Process(ids, p, s, m, false).0.graph)) <= p.step
  {
    var shared, none := Shared(ids, m), (c: Contribution) => 0.0;
    MovesAreShares(ids, p, m);
    var excess, spare := Excess(ids, p, s.graph, m), Spare(ids, p, s.graph, m);
    forall c | c in shared ensures excess(c) <= none(c) <= spare(c) {
      var credited := Credited(ids, m);
      if c.id in s.graph && c.id in Ids(credited) {
        var i :| 0 <= i < |credited| && Ids(credited)[i] == c.id;
        assert credited[i] in credited;
      }
    }
    SumBounded(shared, excess, none);
    SumBounded(shared, none, spare);
    OneMessageMovesOneStep(ids, p, s, m);
  }

  /** The failing input: a weight the schema admits below the floor, and a miss that moves it by more than twice
      the step. */
  lemma StrayWeightMovesMore()
    ensures var p := Policy(1.0, 0.02, 0.05, name => name);
            var m := Scored(7, false, [Contribution("SANCTIONS->GOLD", 1.0)], [], false);
            var s := Learner(map["SANCTIONS->GOLD" := EdgeState(1.0, 1.0, 0.0)], map[], {});
            var after := Process(IdReader(id => true, id => NotACorrelation), p, s, m, false).0.graph;
            && ValidPolicy(p)
            && after == map["SANCTIONS->GOLD" := EdgeState(1.0, 1.0, 0.05)]
            && Moved(s.graph, after)(m.edges[0]) == 0.05 > p.step
  {
    var p := Policy(1.0, 0.02, 0.05, name => name);
    var c: Contribution := Contribution("SANCTIONS->GOLD", 1.0);
    var m := Scored(7, false, [c], [], false);
    var s := Learner(map["SANCTIONS->GOLD" := EdgeState(1.0, 1.0, 0.0)], map[], {});
    var ids := IdReader(id => true, id => NotACorrelation);
    SingleEdgeMoves(ids, p, s.graph, m, c);
    ReadableParses(ids, p, s.graph, m);
  }
}
