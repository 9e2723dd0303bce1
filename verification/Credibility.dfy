/**
 Learning from scored predictions: proportional credit moves edge weights in the graph, equal credit
 moves the Beta counts of sources, and a guard row makes redelivered messages harmless.
 */
module Credibility {
  import opened Wrappers
  import opened Sequences
  import EdgeIds

  datatype ContributionFields = Contribution(id: string, influence: real)

  type Contribution = c: ContributionFields | 0.0 <= c.influence <= 1.0
    witness Contribution("", 0.0)

  datatype Scored = Scored(
    prediction: nat, correct: bool, edges: seq<Contribution>, sources: seq<string>, propagated: bool)

  datatype EdgeState = EdgeState(alpha: real, beta: real, weight: real)

  datatype Counts = Counts(alpha: real, beta: real)

  /** The graph's edge states by edge id, the source table, and the idempotency guard. */
  datatype Learner = Learner(
    graph: map<string, EdgeState>, sources: map<string, Counts>, processed: set<nat>)

  datatype Policy = Policy(priorFloor: real, step: real, floor: real, normalise: string -> string)

  ghost predicate ValidPolicy(p: Policy) {
    p.priorFloor > 0.0 && 0.0 < p.step <= 1.0 && 0.0 <= p.floor < 1.0
  }

  datatype CorrelationId = NotACorrelation | Correlation | UnknownAsset

  /** What the two parsers say about an id. */
  datatype IdReader = IdReader(isCausal: string -> bool, correlation: string -> CorrelationId)

  /** The reader that goes with the names of the reference data. */
  function ReaderFor(reg: EdgeIds.Registry): IdReader {
    IdReader(
      id => EdgeIds.ParseEdgeId(reg, id).Success?,
      id =>
        var r := EdgeIds.ParseCorrelationEdgeId(reg, id);
        if r.Failure? then UnknownAsset else if r.value.None? then NotACorrelation else Correlation)
  }

  /** It reads every edge the graph can print: causal edges as causal, propagated ones as correlations, and as
      causal too only where a name is both an asset and a factor. */
  lemma RegistryEdgesAreRead(reg: EdgeIds.Registry, e: EdgeIds.FiringEdge)
    requires EdgeIds.PlainRegistry(reg)
    ensures EdgeIds.CausalEdge(reg, e) ==> ReaderFor(reg).isCausal(EdgeIds.EdgeId(e))
    ensures EdgeIds.PropagatedEdge(reg, e) ==>
              && ReaderFor(reg).correlation(EdgeIds.EdgeId(e)) == Correlation
              && (ReaderFor(reg).isCausal(EdgeIds.EdgeId(e)) <==> e.source.value in reg.factors)
  {
    if EdgeIds.CausalEdge(reg, e) {
      EdgeIds.CausalEdgeRoundTrip(reg, e);
    }
    if EdgeIds.PropagatedEdge(reg, e) {
      EdgeIds.PropagatedEdgeRoundTrip(reg, e);
      EdgeIds.PropagatedEdgeIsNoCause(reg, e);
    }
  }

  datatype Outcome = Applied | Duplicate | Withdrawn | Rejected

  // ---- Credit ----

  function Influence(c: Contribution): real { c.influence }

  function Share(edges: seq<Contribution>, c: Contribution): real
    requires edges != []
  {
    var total := Sum(edges, Influence);
    if total <= 0.0 then 1.0 / |edges| as real else c.influence / total
  }

  function CreditsUpTo(edges: seq<Contribution>, k: nat): map<string, real>
    requires k <= |edges|
  {
    if k == 0 then map[]
    else CreditsUpTo(edges, k - 1)[edges[k - 1].id := Share(edges, edges[k - 1])]
  }

  /** Each edge id with its share of the message's total influence; a repeated id keeps its last share. */
  function ProportionalCredits(edges: seq<Contribution>): map<string, real> {
    CreditsUpTo(edges, |edges|)
  }

  function SourceCredits(p: Policy, sources: seq<string>): map<string, real> {
    map i | 0 <= i < |sources| :: p.normalise(sources[i]) := 1.0 / |sources| as real
  }

  function ApplyBernoulli(c: Counts, credit: real, correct: bool, floor: real): Counts {
    var alpha := if correct then c.alpha + credit else c.alpha;
    var beta := if correct then c.beta else c.beta + credit;
    Counts(if alpha < floor then floor else alpha, if beta < floor then floor else beta)
  }

  /** Moves a weight up on a hit and down on a miss, and clamps it to the band. */
  function ApplyWeightDelta(weight: real, delta: real, correct: bool, p: Policy): real {
    var moved := if correct then weight + delta else weight - delta;
    var raised := if moved < p.floor then p.floor else moved;
    if raised < 1.0 then raised else 1.0
  }

  /** The move each credit is worth. */
  function Deltas(p: Policy, credits: map<string, real>): map<string, real> {
    map id | id in credits :: p.step * credits[id]
  }

  function CreditEdge(g: map<string, EdgeState>, id: string, delta: real, correct: bool, p: Policy)
    : map<string, EdgeState>
  {
    if id in g then g[id := g[id].(weight := ApplyWeightDelta(g[id].weight, delta, correct, p))] else g
  }

  /** Credits the listed edges one after the other; an edge missing from the graph is skipped. */
  function CreditEdges(
    g: map<string, EdgeState>, edges: seq<Contribution>, deltas: map<string, real>, correct: bool, p: Policy)
    : map<string, EdgeState>
    requires forall c :: c in edges ==> c.id in deltas
  {
    if edges == [] then g
    else
      var rest, last := edges[..|edges| - 1], edges[|edges| - 1];
      CreditEdge(CreditEdges(g, rest, deltas, correct, p), last.id, deltas[last.id], correct, p)
  }

  lemma {:induction false} CreditsCover(edges: seq<Contribution>, k: nat)
    requires k <= |edges|
    ensures forall c :: c in edges[..k] ==> c.id in CreditsUpTo(edges, k)
    ensures Distinct(Ids(edges)) ==>
              forall i :: 0 <= i < k ==> CreditsUpTo(edges, k)[edges[i].id] == Share(edges, edges[i])
  {
    if k > 0 {
      CreditsCover(edges, k - 1);
      assert edges[..k] == edges[..k - 1] + [edges[k - 1]];
      forall i | 0 <= i < k && Distinct(Ids(edges))
        ensures CreditsUpTo(edges, k)[edges[i].id] == Share(edges, edges[i])
      {
        if i < k - 1 {
          assert Ids(edges)[i] != Ids(edges)[k - 1];
          assert edges[i] in edges[..k - 1];
        }
      }
    }
  }

  lemma CreditEdgesStep(
    g: map<string, EdgeState>, edges: seq<Contribution>, deltas: map<string, real>, correct: bool, p: Policy, i: nat)
    requires i < |edges|
    requires forall c :: c in edges ==> c.id in deltas
    ensures CreditEdges(g, edges[..i + 1], deltas, correct, p) ==
            CreditEdge(CreditEdges(g, edges[..i], deltas, correct, p),
                       edges[i].id, deltas[edges[i].id], correct, p)
  {
    assert edges[..i + 1][..i] == edges[..i];
  }

  function Ids(edges: seq<Contribution>): (ids: seq<string>)
    ensures |ids| == |edges|
    ensures forall i :: 0 <= i < |edges| ==> ids[i] == edges[i].id
  {
    seq(|edges|, i requires 0 <= i < |edges| => edges[i].id)
  }

  // ---- The update of one message ----

  /** How many leading ids parse as causal edges. */
  function ParsedPrefix(ids: IdReader, edges: seq<Contribution>): (k: nat)
    ensures k <= |edges|
    ensures forall i :: 0 <= i < k ==> ids.isCausal(edges[i].id)
    ensures k < |edges| ==> !ids.isCausal(edges[k].id)
  {
    if edges == [] || !ids.isCausal(edges[0].id) then 0
    else
      var k := ParsedPrefix(ids, edges[1..]);
      assert forall i :: 0 <= i < k ==> edges[1..][i] == edges[i + 1];
      1 + k
  }

  /** The contributions that are correlation edges; `None` when one of them names an unknown asset. */
  function Correlations(ids: IdReader, edges: seq<Contribution>): Option<seq<Contribution>> {
    if edges == [] then Some([])
    else
      var rest := Correlations(ids, edges[1..]);
      match ids.correlation(edges[0].id)
      case UnknownAsset => None
      case NotACorrelation => rest
      case Correlation => if rest.None? then None else Some([edges[0]] + rest.value)
  }

  /** The graph writes of one message, and whether the message survived the parsing of its ids. The
      writes for the ids before a malformed one have already landed when it is found. */
  function GraphPhase(ids: IdReader, p: Policy, g: map<string, EdgeState>, m: Scored)
    : (map<string, EdgeState>, bool)
  {
    if m.propagated then
      var cs := Correlations(ids, m.edges);
      if cs.None? then (g, false)
      else
        CreditsCover(cs.value, |cs.value|);
        assert cs.value[..|cs.value|] == cs.value;
        (CreditEdges(g, cs.value, Deltas(p, ProportionalCredits(cs.value)), m.correct, p), true)
    else
      CreditsCover(m.edges, |m.edges|);
      assert m.edges[..|m.edges|] == m.edges;
      var k := ParsedPrefix(ids, m.edges);
      (CreditEdges(g, m.edges[..k], Deltas(p, ProportionalCredits(m.edges)), m.correct, p), k == |m.edges|)
  }

  function StateOf(p: Policy, sources: map<string, Counts>, name: string): Counts {
    if name in sources then sources[name] else Counts(p.priorFloor, p.priorFloor)
  }

  /** The new counts of every source of the message, each computed from its stored state. */
  function SourceUpdates(p: Policy, sources: map<string, Counts>, credits: map<string, real>, correct: bool)
    : map<string, Counts>
  {
    map name | name in credits ::
      ApplyBernoulli(StateOf(p, sources, name), credits[name], correct, p.priorFloor)
  }

  /** The relational transaction: claim the guard row and store the source updates, or do nothing. */
  function CommitPhase(s: Learner, prediction: nat, updates: map<string, Counts>): Learner {
    if prediction in s.processed then s
    else s.(sources := s.sources + updates, processed := s.processed + {prediction})
  }

  function Process(ids: IdReader, p: Policy, s: Learner, m: Scored, withdrawn: bool)
    : (Learner, Outcome)
  {
    if m.prediction in s.processed then (s, Duplicate)
    else if withdrawn then (CommitPhase(s, m.prediction, map[]), Withdrawn)
    else
      var (g, parsed) := GraphPhase(ids, p, s.graph, m);
      if !parsed then (s.(graph := g), Rejected)
      else
        var updates := SourceUpdates(p, s.sources, SourceCredits(p, m.sources), m.correct);
        (CommitPhase(s.(graph := g), m.prediction, updates), Applied)
  }

  class CredibilityPipeline {
    var graph: map<string, EdgeState>
    var sources: map<string, Counts>
    var processed: set<nat>
    const ids: IdReader
    const policy: Policy

    ghost function State(): Learner
      reads this
    {
      Learner(graph, sources, processed)
    }

    constructor (ids: IdReader, policy: Policy, graph: map<string, EdgeState>)
      ensures this.ids == ids && this.policy == policy
      ensures State() == Learner(graph, map[], {})
    {
      this.ids, this.policy := ids, policy;
      this.graph, this.sources, this.processed := graph, map[], {};
    }

    method UpdateCorrelationEdges(m: Scored) returns (parsed: bool)
      requires m.propagated
      modifies this`graph
      ensures (graph, parsed) == GraphPhase(ids, policy, old(graph), m)
    {
      var cs := Correlations(ids, m.edges);
      if cs.None? {
        return false;
      }
      var edges := cs.value;
      var deltas := Deltas(policy, ProportionalCredits(edges));
      CreditsCover(edges, |edges|);
      assert edges[..|edges|] == edges;
      for i := 0 to |edges|
        invariant graph == CreditEdges(old(graph), edges[..i], deltas, m.correct, policy)
      {
        CreditEdgesStep(old(graph), edges, deltas, m.correct, policy, i);
        graph := CreditEdge(graph, edges[i].id, deltas[edges[i].id], m.correct, policy);
      }
      return true;
    }

    method UpdateCausalEdges(m: Scored) returns (parsed: bool)
      requires !m.propagated
      modifies this`graph
      ensures (graph, parsed) == GraphPhase(ids, policy, old(graph), m)
    {
      var edges := m.edges;
      var deltas := Deltas(policy, ProportionalCredits(edges));
      CreditsCover(edges, |edges|);
      assert edges[..|edges|] == edges;
      ghost var k := ParsedPrefix(ids, edges);
      var i := 0;
      while i < |edges| && ids.isCausal(edges[i].id)
        invariant 0 <= i <= k
        invariant graph == CreditEdges(old(graph), edges[..i], deltas, m.correct, policy)
      {
        CreditEdgesStep(old(graph), edges, deltas, m.correct, policy, i);
        graph := CreditEdge(graph, edges[i].id, deltas[edges[i].id], m.correct, policy);
        i := i + 1;
      }
      assert i == k;
      parsed := i == |edges|;
    }

    method UpdateEdges(m: Scored) returns (parsed: bool)
      modifies this`graph
      ensures (graph, parsed) == GraphPhase(ids, policy, old(graph), m)
    {
      if m.propagated {
        parsed := UpdateCorrelationEdges(m);
      } else {
        parsed := UpdateCausalEdges(m);
      }
    }

    method UpdateSources(m: Scored) returns (updates: map<string, Counts>)
      ensures updates == SourceUpdates(policy, sources, SourceCredits(policy, m.sources), m.correct)
    {
      var credits := SourceCredits(policy, m.sources);
      ghost var expected := SourceUpdates(policy, sources, credits, m.correct);
      updates := map[];
      var left := credits.Keys;
      while left != {}
        invariant left <= credits.Keys
        invariant updates.Keys == credits.Keys - left
        invariant forall name :: name in updates ==> updates[name] == expected[name]
      {
        var name :| name in left;
        updates := updates[name := ApplyBernoulli(
                             StateOf(policy, sources, name), credits[name], m.correct, policy.priorFloor)];
        left := left - {name};
      }
      assert updates.Keys == expected.Keys;
    }

    /** Applies one scored prediction, guarding against redelivery and skipping withdrawn ones. */
    method ProcessScored(m: Scored, withdrawn: bool) returns (outcome: Outcome)
      modifies this
      ensures (State(), outcome) == Process(ids, policy, old(State()), m, withdrawn)
    {
      if m.prediction in processed {
        return Duplicate;
      }
      if withdrawn {
        assert sources + map[] == sources;
        processed := processed + {m.prediction};
        return Withdrawn;
      }
      var parsed := UpdateEdges(m);
      if !parsed {
        return Rejected;
      }
      var updates := UpdateSources(m);
      sources := sources + updates;
      processed := processed + {m.prediction};
      return Applied;
    }
  }

  // ---- Conservation within one message ----

  /** The shares of a message's edges are not negative and add up to one. */
  lemma SharesSumToOne(edges: seq<Contribution>)
    requires edges != []
    ensures forall c :: c in edges ==> 0.0 <= Share(edges, c) <= 1.0
    ensures Sum(edges, (c: Contribution) => Share(edges, c)) == 1.0
  {
    var share := (c: Contribution) => Share(edges, c);
    var total := Sum(edges, Influence);
    if total <= 0.0 {
      SumOfConstant(edges, share, 1.0 / |edges| as real);
    } else {
      SumScales(edges, Influence, share, 1.0 / total);
      forall c | c in edges
        ensures 0.0 <= Share(edges, c) <= 1.0
      {
        var i :| 0 <= i < |edges| && edges[i] == c;
        InfluenceWithinTotal(edges, i);
        QuotientInUnit(c.influence, total);
      }
    }
  }

  lemma QuotientInUnit(x: real, total: real)
    requires 0.0 <= x <= total && 0.0 < total
    ensures 0.0 <= x / total <= 1.0
  {
    assert x / total * total == x;
  }

  lemma {:induction false} InfluenceWithinTotal(edges: seq<Contribution>, i: nat)
    requires i < |edges|
    ensures edges[i].influence <= Sum(edges, Influence)
  {
    var rest := edges[..|edges| - 1];
    SumBounded(rest, (c: Contribution) => 0.0, Influence);
    SumOfConstant(rest, (c: Contribution) => 0.0, 0.0);
    if i < |rest| {
      InfluenceWithinTotal(rest, i);
    }
  }

  lemma {:induction false} SumOfConstant<T>(xs: seq<T>, f: T -> real, k: real)
    requires forall x :: x in xs ==> f(x) == k
    ensures Sum(xs, f) == |xs| as real * k
  {
    if xs != [] {
      var n := |xs| - 1;
      SumOfConstant(xs[..n], f, k);
      assert (n as real + 1.0) * k == n as real * k + k;
    }
  }

  /** How far a weight lies outside the band it is clamped to. */
  function Outside(weight: real, p: Policy): real {
    if weight < p.floor then p.floor - weight else if weight > 1.0 then weight - 1.0 else 0.0
  }

  function Distance(x: real, y: real): real { if x < y then y - x else x - y }

  /** A touched weight ends inside the band and moves the right way, by its share of the step plus the
      correction of a weight that lay outside the band; it stays within its share exactly when the correction does. */
  lemma WeightDeltaIsBounded(weight: real, delta: real, correct: bool, p: Policy)
    requires ValidPolicy(p) && 0.0 <= delta
    ensures var after := ApplyWeightDelta(weight, delta, correct, p);
            && p.floor <= after <= 1.0
            && Distance(weight, after) <= delta + Outside(weight, p)
            && (Distance(weight, after) <= delta <==> Outside(weight, p) <= delta)
            && (correct && weight <= 1.0 ==> weight <= after)
            && (!correct && p.floor <= weight ==> after <= weight)
  {
  }

  /** With distinct ids each edge of the graph is moved once, by its own share, and no other edge moves. */
  lemma {:induction false} CreditEdgesPointwise(
    g: map<string, EdgeState>, edges: seq<Contribution>, deltas: map<string, real>, correct: bool, p: Policy)
    requires forall c :: c in edges ==> c.id in deltas
    requires Distinct(Ids(edges))
    ensures var after := CreditEdges(g, edges, deltas, correct, p);
            && after.Keys == g.Keys
            && (forall id :: id in g && id !in Ids(edges) ==> after[id] == g[id])
            && (forall c :: c in edges && c.id in g ==>
                  after[c.id] == g[c.id].(
                    weight := ApplyWeightDelta(g[c.id].weight, deltas[c.id], correct, p)))
  {
    if edges != [] {
      var rest, last := edges[..|edges| - 1], edges[|edges| - 1];
      assert edges == rest + [last];
      assert Ids(edges) == Ids(rest) + [last.id];
      assert last.id !in Ids(rest) by {
        forall i | 0 <= i < |rest| ensures Ids(rest)[i] != last.id {
          assert Ids(edges)[i] != Ids(edges)[|rest|];
        }
      }
      assert Distinct(Ids(rest)) by {
        forall i, j | 0 <= i < j < |rest| ensures Ids(rest)[i] != Ids(rest)[j] {
          assert Ids(edges)[i] != Ids(edges)[j];
        }
      }
      CreditEdgesPointwise(g, rest, deltas, correct, p);
      forall c | c in rest ensures c.id in Ids(rest) {
        var i :| 0 <= i < |rest| && rest[i] == c;
        assert Ids(rest)[i] == c.id;
      }
    }
  }

  function Moved(g: map<string, EdgeState>, after: map<string, EdgeState>): Contribution -> real {
    (c: Contribution) => if c.id in g && c.id in after then Distance(g[c.id].weight, after[c.id].weight) else 0.0
  }

  function Correction(g: map<string, EdgeState>, p: Policy): Contribution -> real {
    (c: Contribution) => if c.id in g then Outside(g[c.id].weight, p) else 0.0
  }

  function ValueIn(values: map<string, real>): Contribution -> real {
    (c: Contribution) => if c.id in values then values[c.id] else 0.0
  }

  /** The credits of a message with distinct ids are not negative and add up to one. */
  lemma CreditsSumToOne(edges: seq<Contribution>)
    requires edges != [] && Distinct(Ids(edges))
    ensures var credits := ProportionalCredits(edges);
            && (forall c :: c in edges ==> c.id in credits && 0.0 <= credits[c.id])
            && Sum(edges, ValueIn(credits)) == 1.0
  {
    CreditsCover(edges, |edges|);
    assert edges[..|edges|] == edges;
    SharesSumToOne(edges);
    var credits := ProportionalCredits(edges);
    var share := (c: Contribution) => Share(edges, c);
    forall c | c in edges
      ensures c.id in credits && credits[c.id] == share(c)
    {
      var i :| 0 <= i < |edges| && edges[i] == c;
    }
    SumAgrees(edges, ValueIn(credits), share);
  }

  lemma ScaledCredits(edges: seq<Contribution>, credits: map<string, real>, p: Policy)
    requires ValidPolicy(p)
    requires forall c :: c in edges ==> c.id in credits && 0.0 <= credits[c.id]
    ensures var deltas := Deltas(p, credits);
            && (forall c :: c in edges ==> c.id in deltas && 0.0 <= deltas[c.id])
            && Sum(edges, ValueIn(deltas)) == p.step * Sum(edges, ValueIn(credits))
  {
    forall c | c in edges ensures 0.0 <= Deltas(p, credits)[c.id] {
      assert 0.0 <= p.step * credits[c.id];
    }
    SumScales(edges, ValueIn(credits), ValueIn(Deltas(p, credits)), p.step);
  }

  /** The moves of a message with distinct ids are not negative and add up to the step. */
  lemma DeltasSumToStep(edges: seq<Contribution>, p: Policy)
    requires ValidPolicy(p) && edges != [] && Distinct(Ids(edges))
    ensures var deltas := Deltas(p, ProportionalCredits(edges));
            && (forall c :: c in edges ==> c.id in deltas && 0.0 <= deltas[c.id])
            && Sum(edges, ValueIn(deltas)) == p.step
  {
    CreditsSumToOne(edges);
    ScaledCredits(edges, ProportionalCredits(edges), p);
  }

  function Evidence(p: Policy, sources: map<string, Counts>): string -> real {
    name => StateOf(p, sources, name).alpha + StateOf(p, sources, name).beta - 2.0 * p.priorFloor
  }

  ghost predicate AtLeastPrior(p: Policy, sources: map<string, Counts>) {
    forall name :: name in sources ==>
                     sources[name].alpha >= p.priorFloor && sources[name].beta >= p.priorFloor
  }

  /** A credited source gains its credit on one side; every other source keeps its counts. */
  lemma EvidencePointwise(
    p: Policy, sources: map<string, Counts>, credits: map<string, real>, correct: bool, name: string)
    requires p.priorFloor > 0.0 && AtLeastPrior(p, sources)
    requires name in credits ==> 0.0 <= credits[name]
    ensures var before, after := StateOf(p, sources, name),
                                 StateOf(p, sources + SourceUpdates(p, sources, credits, correct), name);
            && after.alpha >= p.priorFloor && after.beta >= p.priorFloor
            && after == if name !in credits then before
                        else if correct then Counts(before.alpha + credits[name], before.beta)
                        else Counts(before.alpha, before.beta + credits[name])
  {
  }

  function Growth(credits: map<string, real>): string -> real {
    name => if name in credits then credits[name] else 0.0
  }

  lemma PriorIsKept(p: Policy, sources: map<string, Counts>, credits: map<string, real>, correct: bool)
    requires p.priorFloor > 0.0 && AtLeastPrior(p, sources)
    requires forall name :: name in credits ==> 0.0 <= credits[name]
    ensures AtLeastPrior(p, sources + SourceUpdates(p, sources, credits, correct))
  {
  }

  lemma EvidenceGrowsByCredits(
    p: Policy, sources: map<string, Counts>, credits: map<string, real>, correct: bool, everyone: seq<string>)
    requires p.priorFloor > 0.0 && AtLeastPrior(p, sources)
    requires forall name :: name in credits ==> 0.0 <= credits[name]
    ensures Sum(everyone, Evidence(p, sources + SourceUpdates(p, sources, credits, correct))) ==
            Sum(everyone, Evidence(p, sources)) + Sum(everyone, Growth(credits))
  {
    var after := sources + SourceUpdates(p, sources, credits, correct);
    forall name
      ensures Evidence(p, after)(name) == Evidence(p, sources)(name) + Growth(credits)(name)
    {
      EvidencePointwise(p, sources, credits, correct, name);
    }
    SumAdds(everyone, Evidence(p, sources), Growth(credits), Evidence(p, after));
  }

  lemma SourceCreditsAreEqual(p: Policy, sources: seq<string>) returns (credit: real)
    requires sources != []
    ensures 0.0 < credit && credit * |sources| as real == 1.0
    ensures forall name :: name in SourceCredits(p, sources) ==> SourceCredits(p, sources)[name] == credit
  {
    credit := 1.0 / |sources| as real;
  }

  lemma CreditTimes(credit: real, n: nat, k: nat, growth: real)
    requires credit * n as real == 1.0
    requires growth == credit * k as real && credit > 0.0
    ensures k == n ==> growth == 1.0
    ensures k < n ==> growth < 1.0
  {
    assert k < n ==> credit * k as real < credit * n as real;
  }

  lemma GrowthOfEqualCredits(credits: map<string, real>, credit: real, everyone: seq<string>)
    requires Distinct(everyone)
    requires forall name :: name in credits ==> credits[name] == credit && name in everyone
    ensures Sum(everyone, Growth(credits)) == credit * |credits.Keys| as real
  {
    SumOverChosenScaled(everyone, credits.Keys, Growth(credits), credit);
  }

  lemma EqualCreditMass(credits: map<string, real>, credit: real, n: nat, everyone: seq<string>)
    requires Distinct(everyone)
    requires 0.0 < credit && credit * n as real == 1.0
    requires forall name :: name in credits ==> credits[name] == credit && name in everyone
    ensures |credits.Keys| == n ==> Sum(everyone, Growth(credits)) == 1.0
    ensures |credits.Keys| < n ==> Sum(everyone, Growth(credits)) < 1.0
  {
    GrowthOfEqualCredits(credits, credit, everyone);
    CreditTimes(credit, n, |credits.Keys|, Sum(everyone, Growth(credits)));
  }

  /** The credit a message hands out is one observation in all when no source is repeated, and less
      than one otherwise. */
  lemma SourceCreditMass(p: Policy, sources: seq<string>, everyone: seq<string>, credits: map<string, real>)
    requires sources != [] && Distinct(everyone)
    requires credits == SourceCredits(p, sources)
    requires forall name :: name in credits ==> name in everyone
    ensures |credits.Keys| == |sources| ==> Sum(everyone, Growth(credits)) == 1.0
    ensures |credits.Keys| < |sources| ==> Sum(everyone, Growth(credits)) < 1.0
    ensures forall name :: name in credits ==> 0.0 <= credits[name]
  {
    var credit := SourceCreditsAreEqual(p, sources);
    EqualCreditMass(credits, credit, |sources|, everyone);
  }

  // ---- Whole delivery sequences ----

  /** One delivery of a scored message, with the prediction's withdrawal status at that moment. */
  datatype Delivery = Delivery(message: Scored, withdrawn: bool)

  function Deliver(ids: IdReader, p: Policy, s: Learner, ds: seq<Delivery>): Learner {
    if ds == [] then s
    else
      var last := ds[|ds| - 1];
      Process(ids, p, Deliver(ids, p, s, ds[..|ds| - 1]), last.message, last.withdrawn).0
  }

  /** Every id of the message can be parsed. */
  predicate Readable(ids: IdReader, m: Scored) {
    if m.propagated then Correlations(ids, m.edges).Some? else ParsedPrefix(ids, m.edges) == |m.edges|
  }

  function Predictions(ds: seq<Delivery>): set<nat> {
    set d | d in ds :: d.message.prediction
  }

  /** The first delivery of every prediction that was not withdrawn by then, in delivery order. */
  function FirstDeliveries(done: set<nat>, ds: seq<Delivery>): seq<Scored> {
    if ds == [] then []
    else
      var before, last := ds[..|ds| - 1], ds[|ds| - 1];
      FirstDeliveries(done, before) +
      if last.message.prediction in done + Predictions(before) || last.withdrawn then [] else [last.message]
  }

  /** Learning from a list of messages, with no guard at all. */
  function Learned(ids: IdReader, p: Policy, g: map<string, EdgeState>, ms: seq<Scored>): map<string, EdgeState> {
    if ms == [] then g
    else GraphPhase(ids, p, Learned(ids, p, g, ms[..|ms| - 1]), ms[|ms| - 1]).0
  }

  function LearnedSources(p: Policy, sources: map<string, Counts>, ms: seq<Scored>): map<string, Counts> {
    if ms == [] then sources
    else
      var before, m := LearnedSources(p, sources, ms[..|ms| - 1]), ms[|ms| - 1];
      before + SourceUpdates(p, before, SourceCredits(p, m.sources), m.correct)
  }

  lemma {:induction false} PredictionsGrow(before: seq<Delivery>, d: Delivery)
    ensures Predictions(before + [d]) == Predictions(before) + {d.message.prediction}
  {
    forall id | id in Predictions(before) ensures id in Predictions(before + [d]) {
      var x :| x in before && x.message.prediction == id;
      assert x in before + [d];
    }
    assert d in before + [d];
  }

  lemma ReadableParses(ids: IdReader, p: Policy, g: map<string, EdgeState>, m: Scored)
    ensures GraphPhase(ids, p, g, m).1 <==> Readable(ids, m)
  {
  }

  /** What one delivery does to a learner, in terms of the unguarded update. */
  lemma ProcessStep(ids: IdReader, p: Policy, t: Learner, m: Scored, withdrawn: bool)
    requires Readable(ids, m)
    ensures Process(ids, p, t, m, withdrawn).0 ==
            if m.prediction in t.processed then t
            else if withdrawn then t.(processed := t.processed + {m.prediction})
            else Learner(GraphPhase(ids, p, t.graph, m).0,
                         t.sources + SourceUpdates(p, t.sources, SourceCredits(p, m.sources), m.correct),
                         t.processed + {m.prediction})
  {
    ReadableParses(ids, p, t.graph, m);
    assert t.sources + map[] == t.sources;
  }

  lemma LearnStep(ids: IdReader, p: Policy, s: Learner, ms: seq<Scored>, m: Scored)
    ensures Learned(ids, p, s.graph, ms + [m]) == GraphPhase(ids, p, Learned(ids, p, s.graph, ms), m).0
    ensures var before := LearnedSources(p, s.sources, ms);
            LearnedSources(p, s.sources, ms + [m]) ==
            before + SourceUpdates(p, before, SourceCredits(p, m.sources), m.correct)
  {
    assert (ms + [m])[..|ms|] == ms;
  }

  /** The state reached by learning once from each first delivery. */
  function LearnedOnce(ids: IdReader, p: Policy, s: Learner, ds: seq<Delivery>): Learner {
    var firsts := FirstDeliveries(s.processed, ds);
    Learner(Learned(ids, p, s.graph, firsts), LearnedSources(p, s.sources, firsts), s.processed + Predictions(ds))
  }

  lemma LearnedOnceStep(ids: IdReader, p: Policy, s: Learner, before: seq<Delivery>, d: Delivery)
    requires Readable(ids, d.message)
    ensures LearnedOnce(ids, p, s, before + [d]) ==
            Process(ids, p, LearnedOnce(ids, p, s, before), d.message, d.withdrawn).0
  {
    var ds, t, m := before + [d], LearnedOnce(ids, p, s, before), d.message;
    assert ds[..|before|] == before;
    PredictionsGrow(before, d);
    assert s.processed + Predictions(ds) == t.processed + {m.prediction};
    ProcessStep(ids, p, t, m, d.withdrawn);
    var firsts := FirstDeliveries(s.processed, before);
    if m.prediction in t.processed || d.withdrawn {
      assert FirstDeliveries(s.processed, ds) == firsts;
    } else {
      assert FirstDeliveries(s.processed, ds) == firsts + [m];
      LearnStep(ids, p, s, firsts, m);
    }
  }

  /** Exactly once: whatever is redelivered, in whatever order, the weights and counts are those of
      learning once from the first delivery of each prediction that was not withdrawn. */
  lemma {:induction false} ExactlyOnce(ids: IdReader, p: Policy, s: Learner, ds: seq<Delivery>)
    requires forall d :: d in ds ==> Readable(ids, d.message)
    ensures Deliver(ids, p, s, ds) == LearnedOnce(ids, p, s, ds)
  {
    if ds == [] {
      assert s.processed + Predictions(ds) == s.processed;
    } else {
      var before, last := ds[..|ds| - 1], ds[|ds| - 1];
      assert ds == before + [last];
      ExactlyOnce(ids, p, s, before);
      LearnedOnceStep(ids, p, s, before, last);
    }
  }

  /** Delivery `i` is the first of its prediction, of message `m`, and was not withdrawn. */
  ghost predicate IsFirst(done: set<nat>, ds: seq<Delivery>, m: Scored, i: nat)
    requires i < |ds|
  {
    ds[i] == Delivery(m, false) && m.prediction !in done + Predictions(ds[..i])
  }

  ghost predicate DeliveredFirst(done: set<nat>, ds: seq<Delivery>, m: Scored) {
    exists i :: 0 <= i < |ds| && IsFirst(done, ds, m, i)
  }

  lemma DeliveredFirstGrows(done: set<nat>, before: seq<Delivery>, last: Delivery, m: Scored)
    ensures DeliveredFirst(done, before + [last], m) <==>
            DeliveredFirst(done, before, m)
            || (last == Delivery(m, false) && m.prediction !in done + Predictions(before))
  {
    var ds := before + [last];
    forall i | 0 <= i < |before| ensures IsFirst(done, ds, m, i) <==> IsFirst(done, before, m, i) {
      assert ds[..i] == before[..i];
    }
    assert ds[..|before|] == before;
    assert IsFirst(done, ds, m, |before|) <==>
           last == Delivery(m, false) && m.prediction !in done + Predictions(before);
  }

  /** The messages learned from are exactly those at the first delivery of their prediction. */
  lemma {:induction false} FirstDeliveriesAreFirst(done: set<nat>, ds: seq<Delivery>, m: Scored)
    ensures m in FirstDeliveries(done, ds) <==> DeliveredFirst(done, ds, m)
  {
    if ds != [] {
      var before, last := ds[..|ds| - 1], ds[|ds| - 1];
      assert ds == before + [last];
      FirstDeliveriesAreFirst(done, before, m);
      DeliveredFirstGrows(done, before, last, m);
    }
  }

  /** So no prediction is learned from twice. */
  lemma {:induction false} FirstDeliveriesAreDistinct(done: set<nat>, ds: seq<Delivery>)
    ensures forall i, j :: 0 <= i < j < |FirstDeliveries(done, ds)| ==>
                             FirstDeliveries(done, ds)[i].prediction != FirstDeliveries(done, ds)[j].prediction
    ensures forall m :: m in FirstDeliveries(done, ds) ==> m.prediction in Predictions(ds) && m.prediction !in done
  {
    if ds != [] {
      var before, last := ds[..|ds| - 1], ds[|ds| - 1];
      assert ds == before + [last];
      FirstDeliveriesAreDistinct(done, before);
      PredictionsGrow(before, last);
      var firsts := FirstDeliveries(done, before);
      forall i | 0 <= i < |firsts| ensures firsts[i].prediction in Predictions(before) {
        assert firsts[i] in firsts;
      }
    }
  }

  /** A weight of `after` lies in the band or is the one in `g`; nothing but weights differs. */
  ghost predicate Banded(p: Policy, g: map<string, EdgeState>, after: map<string, EdgeState>) {
    && after.Keys == g.Keys
    && forall id :: id in after ==>
                      && (p.floor <= after[id].weight <= 1.0 || after[id].weight == g[id].weight)
                      && after[id].alpha == g[id].alpha
                      && after[id].beta == g[id].beta
  }

  lemma {:induction false} BandIsKept(
    g0: map<string, EdgeState>, g: map<string, EdgeState>, edges: seq<Contribution>, deltas: map<string, real>,
    correct: bool, p: Policy)
    requires ValidPolicy(p) && Banded(p, g0, g)
    requires forall c :: c in edges ==> c.id in deltas
    ensures Banded(p, g0, CreditEdges(g, edges, deltas, correct, p))
  {
    if edges != [] {
      BandIsKept(g0, g, edges[..|edges| - 1], deltas, correct, p);
    }
  }

  lemma GraphPhaseKeepsBand(
    ids: IdReader, p: Policy, g0: map<string, EdgeState>, g: map<string, EdgeState>, m: Scored)
    requires ValidPolicy(p) && Banded(p, g0, g)
    ensures Banded(p, g0, GraphPhase(ids, p, g, m).0)
  {
    if m.propagated {
      var cs := Correlations(ids, m.edges);
      if cs.Some? {
        CreditsCover(cs.value, |cs.value|);
        assert cs.value[..|cs.value|] == cs.value;
        BandIsKept(g0, g, cs.value, Deltas(p, ProportionalCredits(cs.value)), m.correct, p);
      }
    } else {
      CreditsCover(m.edges, |m.edges|);
      assert m.edges[..|m.edges|] == m.edges;
      BandIsKept(
        g0, g, m.edges[..ParsedPrefix(ids, m.edges)], Deltas(p, ProportionalCredits(m.edges)), m.correct, p);
    }
  }

  /** Over any delivery sequence from any graph, malformed messages included, every weight that changed lies in
      the band, every other weight is as it was, and the reliability counts of the edges stay frozen. */
  lemma {:induction false} WeightsStayInBand(ids: IdReader, p: Policy, s: Learner, ds: seq<Delivery>)
    requires ValidPolicy(p)
    ensures Banded(p, s.graph, Deliver(ids, p, s, ds).graph)
  {
    if ds != [] {
      var before := ds[..|ds| - 1];
      WeightsStayInBand(ids, p, s, before);
      GraphPhaseKeepsBand(ids, p, s.graph, Deliver(ids, p, s, before).graph, ds[|ds| - 1].message);
    }
  }

  /** Total source evidence counts the predictions learned from, one observation each. */
  lemma {:induction false} EvidenceCountsPredictions(
    p: Policy, sources: map<string, Counts>, ms: seq<Scored>, everyone: seq<string>)
    requires p.priorFloor > 0.0 && AtLeastPrior(p, sources) && Distinct(everyone)
    requires forall m :: m in ms ==>
               && m.sources != [] && |SourceCredits(p, m.sources).Keys| == |m.sources|
               && forall name :: name in SourceCredits(p, m.sources) ==> name in everyone
    ensures AtLeastPrior(p, LearnedSources(p, sources, ms))
    ensures Sum(everyone, Evidence(p, LearnedSources(p, sources, ms))) ==
            Sum(everyone, Evidence(p, sources)) + |ms| as real
  {
    if ms != [] {
      var rest, m := ms[..|ms| - 1], ms[|ms| - 1];
      EvidenceCountsPredictions(p, sources, rest, everyone);
      var before, credits := LearnedSources(p, sources, rest), SourceCredits(p, m.sources);
      assert Sum(everyone, Growth(credits)) == 1.0 && (forall name :: name in credits ==> 0.0 <= credits[name]) by {
        SourceCreditMass(p, m.sources, everyone, credits);
      }
      PriorIsKept(p, before, credits, m.correct);
      EvidenceGrowsByCredits(p, before, credits, m.correct, everyone);
    }
  }

  /** A message with one contribution moves its edge by the whole step. */
  lemma SingleEdgeMoves(ids: IdReader, p: Policy, g: map<string, EdgeState>, m: Scored, c: Contribution)
    requires m.edges == [c] && !m.propagated && ids.isCausal(c.id) && c.id in g
    ensures Readable(ids, m)
    ensures GraphPhase(ids, p, g, m).0 ==
            g[c.id := g[c.id].(weight := ApplyWeightDelta(g[c.id].weight, p.step, m.correct, p))]
  {
    CreditsCover([c], 1);
    assert [c][..1] == [c];
    assert Ids([c]) == [c.id];
    assert Sum([c], Influence) == Sum([c][..0], Influence) + c.influence == c.influence;
    assert Share([c], c) == 1.0;
    assert ProportionalCredits([c])[c.id] == 1.0;
    var deltas := Deltas(p, ProportionalCredits([c]));
    assert deltas[c.id] == p.step;
    assert ParsedPrefix(ids, [c]) == 1;
    CreditEdgesStep(g, [c], deltas, m.correct, p, 0);
  }
}
