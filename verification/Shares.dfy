/** Credit in proportion: what an edge contributed decides how far a message moves it. */
module Shares {
  import opened Wrappers
  import opened Sequences
  import opened Credibility
  import opened WeightMovement

  lemma QuotientTimes(x: real, t: real)
    requires t > 0.0
    ensures x / t * t == x
  {
  }

  lemma {:induction false} TotalIsNotNegative(edges: seq<Contribution>)
    ensures Sum(edges, Influence) >= 0.0
  {
    if edges != [] {
      TotalIsNotNegative(edges[..|edges| - 1]);
    }
  }

  /** A share of a positive total is the edge's part of it; without any influence all shares are equal. */
  lemma ShareExactly(edges: seq<Contribution>, c: Contribution, total: real)
    requires edges != [] && total == Sum(edges, Influence)
    ensures total >= 0.0
    ensures total > 0.0 ==> Share(edges, c) * total == c.influence
    ensures total == 0.0 ==> Share(edges, c) * |edges| as real == 1.0
  {
    TotalIsNotNegative(edges);
    var n := |edges| as real;
    QuotientTimes(1.0, n);
    if total > 0.0 {
      QuotientTimes(c.influence, total);
    }
  }

  lemma CrossMultiply(x: real, y: real, a: real, b: real, total: real)
    requires x * total == a && y * total == b
    ensures x * b == y * a
  {
    assert x * (y * total) == y * (x * total);
  }

  /** Shares stand to each other as the influences do. */
  lemma SharesAreProportional(edges: seq<Contribution>, a: Contribution, b: Contribution)
    requires edges != [] && Sum(edges, Influence) > 0.0
    ensures Share(edges, a) * b.influence == Share(edges, b) * a.influence
  {
    var total := Sum(edges, Influence);
    ShareExactly(edges, a, total);
    ShareExactly(edges, b, total);
    CrossMultiply(Share(edges, a), Share(edges, b), a.influence, b.influence, total);
  }

  /** The weight of a credited edge after the message: moved up on a hit and down on a miss, and kept between the floor
      and one. */
  ghost predicate MovedTo(before: real, after: real, move: real, correct: bool, p: Policy) {
    var target := if correct then before + move else before - move;
    after == if target >= 1.0 then 1.0 else if target < p.floor then p.floor else target
  }

  lemma DeltaMovesTo(weight: real, delta: real, correct: bool, p: Policy)
    requires ValidPolicy(p)
    ensures MovedTo(weight, ApplyWeightDelta(weight, delta, correct, p), delta, correct, p)
  {
  }

  lemma CreditIsShare(edges: seq<Contribution>, c: Contribution)
    requires Distinct(Ids(edges)) && c in edges
    ensures c.id in ProportionalCredits(edges) && ProportionalCredits(edges)[c.id] == Share(edges, c)
  {
    CreditsCover(edges, |edges|);
    assert edges[..|edges|] == edges;
    var i :| 0 <= i < |edges| && edges[i] == c;
  }

  // ---- What a message shares out ----

  /** Every id up to the contribution's own can be read as a causal edge. */
  ghost predicate ReadUpTo(ids: IdReader, edges: seq<Contribution>, i: nat)
    requires i < |edges|
  {
    forall j :: 0 <= j <= i ==> ids.isCausal(edges[j].id)
  }

  lemma CreditedDirectly(ids: IdReader, m: Scored, i: nat)
    requires !m.propagated && i < |m.edges| && Distinct(Ids(m.edges))
    ensures Shared(ids, m) == m.edges
    ensures m.edges[i].id in Ids(Credited(ids, m)) <==> ReadUpTo(ids, m.edges, i)
    ensures m.edges[i] in Credited(ids, m) <==> ReadUpTo(ids, m.edges, i)
  {
    var k, credited := ParsedPrefix(ids, m.edges), Credited(ids, m);
    if i < k {
      assert credited[i] == m.edges[i] && Ids(credited)[i] == m.edges[i].id;
    } else {
      forall j | 0 <= j < |credited| ensures Ids(credited)[j] != m.edges[i].id && credited[j] != m.edges[i] {
        assert Ids(m.edges)[j] != Ids(m.edges)[i];
      }
    }
  }

  /** The influence of the correlation edges of a message. */
  ghost function CorrelatedInfluence(ids: IdReader, edges: seq<Contribution>): real {
    if edges == [] then 0.0
    else (if ids.correlation(edges[0].id) == Correlation then edges[0].influence else 0.0)
         + CorrelatedInfluence(ids, edges[1..])
  }

  ghost predicate AllKnown(ids: IdReader, edges: seq<Contribution>) {
    forall c :: c in edges ==> ids.correlation(c.id) != UnknownAsset
  }

  /** A propagated message shares its credit among its correlation edges, unless one of them names an unknown asset. */
  lemma {:induction false} CorrelationsExactly(ids: IdReader, edges: seq<Contribution>)
    ensures Correlations(ids, edges).Some? <==> AllKnown(ids, edges)
    ensures Correlations(ids, edges).Some? ==>
              && (forall c :: c in Correlations(ids, edges).value <==>
                                c in edges && ids.correlation(c.id) == Correlation)
              && Sum(Correlations(ids, edges).value, Influence) == CorrelatedInfluence(ids, edges)
  {
    if edges != [] {
      CorrelationsExactly(ids, edges[1..]);
      assert edges == [edges[0]] + edges[1..];
      assert edges[0] in edges;
      if Correlations(ids, edges).Some? && ids.correlation(edges[0].id) == Correlation {
        SumConcat([edges[0]], Correlations(ids, edges[1..]).value, Influence);
        assert Sum([edges[0]], Influence) == edges[0].influence by {
          assert [edges[0]][..0] == [];
        }
      }
    }
  }

  // ---- What a message moves ----

  /** The part of the step a contribution earns. */
  ghost predicate IsPart(move: real, step: real, c: Contribution, total: real, n: nat) {
    if total > 0.0 then move * total == step * c.influence else move * n as real == step
  }

  ghost predicate IsShare(share: real, c: Contribution, total: real, n: nat) {
    if total > 0.0 then share * total == c.influence else share * n as real == 1.0
  }

  lemma PartOfStep(step: real, share: real, c: Contribution, total: real, n: nat)
    requires IsShare(share, c, total, n)
    ensures IsPart(step * share, step, c, total, n)
  {
    assert step * share * total == step * (share * total);
    assert step * share * n as real == step * (share * n as real);
  }

  lemma CreditEarns(edges: seq<Contribution>, c: Contribution) returns (share: real)
    requires Distinct(Ids(edges)) && c in edges
    ensures c.id in ProportionalCredits(edges) && ProportionalCredits(edges)[c.id] == share
    ensures IsShare(share, c, Sum(edges, Influence), |edges|)
  {
    share := Share(edges, c);
    CreditIsShare(edges, c);
    ShareExactly(edges, c, Sum(edges, Influence));
  }

  lemma DeltaOf(p: Policy, credits: map<string, real>, id: string, credit: real)
    requires id in credits && credits[id] == credit
    ensures id in Deltas(p, credits) && Deltas(p, credits)[id] == p.step * credit
  {
  }

  lemma DeltaIsPart(p: Policy, credits: map<string, real>, c: Contribution, share: real, total: real, n: nat)
    requires c.id in credits && credits[c.id] == share
    requires IsShare(share, c, total, n)
    ensures c.id in Deltas(p, credits) && IsPart(Deltas(p, credits)[c.id], p.step, c, total, n)
  {
    DeltaOf(p, credits, c.id, share);
    PartOfStep(p.step, share, c, total, n);
  }

  lemma PartOfCredit(p: Policy, edges: seq<Contribution>, c: Contribution)
    requires Distinct(Ids(edges)) && c in edges
    ensures var moves := Deltas(p, ProportionalCredits(edges));
            c.id in moves && IsPart(moves[c.id], p.step, c, Sum(edges, Influence), |edges|)
  {
    var share := CreditEarns(edges, c);
    DeltaIsPart(p, ProportionalCredits(edges), c, share, Sum(edges, Influence), |edges|);
  }

  lemma MoveIsPart(ids: IdReader, p: Policy, m: Scored, c: Contribution)
    requires Distinct(Ids(m.edges)) && c in Shared(ids, m)
    ensures c.id in Moves(ids, p, m)
    ensures IsPart(Moves(ids, p, m)[c.id], p.step, c, Sum(Shared(ids, m), Influence), |Shared(ids, m)|)
  {
    SharedAreDistinct(ids, m);
    PartOfCredit(p, Shared(ids, m), c);
  }

  /** Every credited edge has moved by what `moves` gives it, and every other edge is as it was. */
  ghost predicate MovedBy(
    p: Policy, correct: bool, credited: seq<Contribution>, moves: map<string, real>,
    before: map<string, EdgeState>, after: map<string, EdgeState>)
  {
    && after.Keys == before.Keys
    && (forall id :: id in before && id !in Ids(credited) ==> after[id] == before[id])
    && (forall c :: c in credited && c.id in before ==>
          && c.id in moves
          && MovedTo(before[c.id].weight, after[c.id].weight, moves[c.id], correct, p))
  }

  lemma ProcessMoves(ids: IdReader, p: Policy, s: Learner, m: Scored)
    requires ValidPolicy(p) && m.prediction !in s.processed && Distinct(Ids(m.edges))
    ensures MovedBy(p, m.correct, Credited(ids, m), Moves(ids, p, m), s.graph, Process(ids, p, s, m, false).0.graph)
  {
    ProcessPointwise(ids, p, s, m);
    var moves, after := Moves(ids, p, m), Process(ids, p, s, m, false).0.graph;
    forall c | c in Credited(ids, m) && c.id in s.graph
      ensures MovedTo(s.graph[c.id].weight, after[c.id].weight, moves[c.id], m.correct, p)
    {
      DeltaMovesTo(s.graph[c.id].weight, moves[c.id], m.correct, p);
    }
  }

  /** Contribution `i` of a direct message moved its edge by its part of the step, if every id up to its own could be
      read, and not at all otherwise; edges the message does not name are as they were. */
  ghost predicate DirectlyMoved(
    ids: IdReader, p: Policy, m: Scored, before: map<string, EdgeState>, after: map<string, EdgeState>, i: nat,
    move: real)
    requires i < |m.edges| && m.edges[i].id in before
  {
    && after.Keys == before.Keys
    && IsPart(move, p.step, m.edges[i], Sum(m.edges, Influence), |m.edges|)
    && (if ReadUpTo(ids, m.edges, i)
        then MovedTo(before[m.edges[i].id].weight, after[m.edges[i].id].weight, move, m.correct, p)
        else after[m.edges[i].id] == before[m.edges[i].id])
    && forall id :: id in before && id !in Ids(m.edges) ==> after[id] == before[id]
  }

  /** A direct message moves each contributing edge by its part of the influence: a tenth of the influence earns a
      tenth of the step. */
  lemma DirectMessageMoves(ids: IdReader, p: Policy, s: Learner, m: Scored, i: nat) returns (move: real)
    requires ValidPolicy(p) && m.prediction !in s.processed && Distinct(Ids(m.edges)) && !m.propagated
    requires i < |m.edges| && m.edges[i].id in s.graph
    ensures DirectlyMoved(ids, p, m, s.graph, Process(ids, p, s, m, false).0.graph, i, move)
  {
    ProcessMoves(ids, p, s, m);
    MoveIsPart(ids, p, m, m.edges[i]);
    move := Moves(ids, p, m)[m.edges[i].id];
    DirectMoves(ids, p, m, s.graph, Process(ids, p, s, m, false).0.graph, i, Moves(ids, p, m));
  }

  lemma DirectMoves(
    ids: IdReader, p: Policy, m: Scored, before: map<string, EdgeState>, after: map<string, EdgeState>, i: nat,
    moves: map<string, real>)
    requires MovedBy(p, m.correct, Credited(ids, m), moves, before, after) && Distinct(Ids(m.edges)) && !m.propagated
    requires i < |m.edges| && m.edges[i].id in before && m.edges[i].id in moves
    requires IsPart(moves[m.edges[i].id], p.step, m.edges[i], Sum(m.edges, Influence), |m.edges|)
    ensures DirectlyMoved(ids, p, m, before, after, i, moves[m.edges[i].id])
  {
    CreditedDirectly(ids, m, i);
    forall id | id in Ids(Credited(ids, m)) ensures id in Ids(m.edges) {
      var j :| 0 <= j < |Credited(ids, m)| && Ids(Credited(ids, m))[j] == id;
      assert Ids(m.edges)[j] == id;
    }
  }

  /** A contribution of a propagated message moved its edge by its part of the step among the correlation edges, if it
      is one of them and no contribution names an unknown asset, and not at all otherwise. */
  ghost predicate IndirectlyMoved(
    ids: IdReader, p: Policy, m: Scored, before: map<string, EdgeState>, after: map<string, EdgeState>,
    c: Contribution, move: real, n: nat)
    requires c.id in before
  {
    && after.Keys == before.Keys
    && if AllKnown(ids, m.edges) && ids.correlation(c.id) == Correlation
       then
         && IsPart(move, p.step, c, CorrelatedInfluence(ids, m.edges), n)
         && MovedTo(before[c.id].weight, after[c.id].weight, move, m.correct, p)
       else after[c.id] == before[c.id]
  }

  /** A propagated message credits the correlation edges behind it, and no causal edge. */
  lemma PropagatedMessageMoves(ids: IdReader, p: Policy, s: Learner, m: Scored, c: Contribution)
    returns (move: real, n: nat)
    requires ValidPolicy(p) && m.prediction !in s.processed && Distinct(Ids(m.edges)) && m.propagated
    requires c in m.edges && c.id in s.graph
    ensures IndirectlyMoved(ids, p, m, s.graph, Process(ids, p, s, m, false).0.graph, c, move, n)
  {
    ProcessMoves(ids, p, s, m);
    CorrelationsExactly(ids, m.edges);
    move, n := 0.0, |Shared(ids, m)|;
    if AllKnown(ids, m.edges) && ids.correlation(c.id) == Correlation {
      MoveIsPart(ids, p, m, c);
      move := Moves(ids, p, m)[c.id];
    } else {
      UncreditedId(ids, m, c);
    }
  }

  lemma UncreditedId(ids: IdReader, m: Scored, c: Contribution)
    requires m.propagated && Distinct(Ids(m.edges)) && c in m.edges && c !in Shared(ids, m)
    ensures c.id !in Ids(Credited(ids, m))
  {
    var shared := Shared(ids, m);
    CorrelationsExactly(ids, m.edges);
    var i :| 0 <= i < |m.edges| && m.edges[i] == c;
    forall j | 0 <= j < |shared| ensures Ids(shared)[j] != c.id {
      assert shared[j] in shared;
      var k :| 0 <= k < |m.edges| && m.edges[k] == shared[j];
      assert Ids(m.edges)[i] == c.id && Ids(m.edges)[k] == shared[j].id;
    }
  }

  /** Two edges that end up inside the band have moved in the ratio of their influences. */
  ghost predicate MovedInRatio(
    p: Policy, before: map<string, EdgeState>, after: map<string, EdgeState>, a: Contribution, b: Contribution)
    requires a.id in before && b.id in before
  {
    && a.id in after && b.id in after
    && InRatio(p, before[a.id].weight, after[a.id].weight, a.influence,
               before[b.id].weight, after[b.id].weight, b.influence)
  }

  lemma MovesAreProportional(ids: IdReader, p: Policy, s: Learner, m: Scored, a: Contribution, b: Contribution)
    requires ValidPolicy(p) && m.prediction !in s.processed && Distinct(Ids(m.edges))
    requires a in Credited(ids, m) && b in Credited(ids, m) && a.id in s.graph && b.id in s.graph
    requires Sum(Shared(ids, m), Influence) > 0.0
    ensures MovedInRatio(p, s.graph, Process(ids, p, s, m, false).0.graph, a, b)
  {
    ProcessMoves(ids, p, s, m);
    CreditedAreShared(ids, p, m);
    MoveIsPart(ids, p, m, a);
    MoveIsPart(ids, p, m, b);
    PairMovesInRatio(p, m.correct, Credited(ids, m), Moves(ids, p, m), s.graph, Process(ids, p, s, m, false).0.graph,
                     a, b, Sum(Shared(ids, m), Influence), |Shared(ids, m)|);
  }

  lemma PairMovesInRatio(
    p: Policy, correct: bool, credited: seq<Contribution>, moves: map<string, real>, before: map<string, EdgeState>,
    after: map<string, EdgeState>, a: Contribution, b: Contribution, total: real, n: nat)
    requires MovedBy(p, correct, credited, moves, before, after) && total > 0.0
    requires a in credited && b in credited && a.id in before && b.id in before && a.id in moves && b.id in moves
    requires IsPart(moves[a.id], p.step, a, total, n) && IsPart(moves[b.id], p.step, b, total, n)
    ensures MovedInRatio(p, before, after, a, b)
  {
    PartInProportion(moves[a.id], p.step, a, total, n);
    PartInProportion(moves[b.id], p.step, b, total, n);
    PairMoves(before[a.id].weight, after[a.id].weight, moves[a.id], a.influence,
              before[b.id].weight, after[b.id].weight, moves[b.id], b.influence, total, correct, p);
  }

  ghost predicate InProportion(move: real, influence: real, step: real, total: real) {
    move * total == step * influence
  }

  ghost predicate InRatio(p: Policy, wa: real, wa': real, a: real, wb: real, wb': real, b: real) {
    p.floor < wa' < 1.0 && p.floor < wb' < 1.0 ==> (wa' - wa) * b == (wb' - wb) * a
  }

  lemma PartInProportion(move: real, step: real, c: Contribution, total: real, n: nat)
    requires IsPart(move, step, c, total, n) && total > 0.0
    ensures InProportion(move, c.influence, step, total)
  {
  }

  lemma PairMoves(
    wa: real, wa': real, ma: real, a: real, wb: real, wb': real, mb: real, b: real, total: real, correct: bool,
    p: Policy)
    requires MovedTo(wa, wa', ma, correct, p) && MovedTo(wb, wb', mb, correct, p)
    requires InProportion(ma, a, p.step, total) && InProportion(mb, b, p.step, total) && total > 0.0
    ensures InRatio(p, wa, wa', a, wb, wb', b)
  {
    RatioOfMoves(ma, mb, a, b, p.step, total);
    if p.floor < wa' < 1.0 && p.floor < wb' < 1.0 {
      var sign := if correct then 1.0 else -1.0;
      assert wa' - wa == sign * ma && wb' - wb == sign * mb;
    }
  }

  lemma RatioOfMoves(ma: real, mb: real, a: real, b: real, step: real, total: real)
    requires total > 0.0 && ma * total == step * a && mb * total == step * b
    ensures ma * b == mb * a
  {
    assert (ma * b) * total == (ma * total) * b == step * a * b;
    assert (mb * a) * total == (mb * total) * a == step * b * a;
    assert (ma * b - mb * a) * total == 0.0;
  }

  // ---- Sources ----

  ghost predicate IsSource(p: Policy, sources: seq<string>, name: string) {
    exists i :: 0 <= i < |sources| && p.normalise(sources[i]) == name
  }

  /** A source of the message has gained `credit` on the side of the outcome, starting from the prior where nothing is
      stored; any other source is as it was. */
  ghost predicate SourceGained(
    p: Policy, m: Scored, before: map<string, Counts>, after: map<string, Counts>, name: string, credit: real)
  {
    if IsSource(p, m.sources, name) then
      var counts := if name in before then before[name] else Counts(p.priorFloor, p.priorFloor);
      && name in after
      && after[name] == (if m.correct then Counts(counts.alpha + credit, counts.beta)
                         else Counts(counts.alpha, counts.beta + credit))
    else (name in after <==> name in before) && (name in after ==> after[name] == before[name])
  }

  lemma CreditedSources(p: Policy, sources: seq<string>, name: string)
    ensures name in SourceCredits(p, sources) <==> IsSource(p, sources, name)
  {
  }

  /** What a message does for its sources: one observation, split evenly over the list. */
  lemma SourcesGain(ids: IdReader, p: Policy, s: Learner, m: Scored, name: string) returns (credit: real)
    requires ValidPolicy(p) && AtLeastPrior(p, s.sources) && m.prediction !in s.processed && Readable(ids, m)
    ensures IsSource(p, m.sources, name) ==> credit * |m.sources| as real == 1.0
    ensures SourceGained(p, m, s.sources, Process(ids, p, s, m, false).0.sources, name, credit)
  {
    ProcessStep(ids, p, s, m, false);
    credit := UpdatedSources(p, s.sources, m, name);
  }

  lemma UpdatedSources(p: Policy, sources: map<string, Counts>, m: Scored, name: string) returns (credit: real)
    requires ValidPolicy(p) && AtLeastPrior(p, sources)
    ensures IsSource(p, m.sources, name) ==> credit * |m.sources| as real == 1.0
    ensures var updates := SourceUpdates(p, sources, SourceCredits(p, m.sources), m.correct);
            SourceGained(p, m, sources, sources + updates, name, credit)
  {
    CreditedSources(p, m.sources, name);
    credit := 0.0;
    if IsSource(p, m.sources, name) {
      credit := SourceCreditsAreEqual(p, m.sources);
    }
    CreditedCounts(p, sources, SourceCredits(p, m.sources), m, name, credit);
  }

  lemma CreditedCounts(
    p: Policy, sources: map<string, Counts>, credits: map<string, real>, m: Scored, name: string, credit: real)
    requires ValidPolicy(p) && AtLeastPrior(p, sources)
    requires name in credits <==> IsSource(p, m.sources, name)
    requires name in credits ==> credits[name] == credit && 0.0 <= credit
    ensures SourceGained(p, m, sources, sources + SourceUpdates(p, sources, credits, m.correct), name, credit)
  {
    EvidencePointwise(p, sources, credits, m.correct, name);
  }
}
