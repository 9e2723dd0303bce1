/**
 Two deliveries of one scored message that both pass the guard check before either commits. The guard row
 protects the source counts; the graph is read and written edge by edge by both, in any interleaving.
 */
module Overlaps {
  import opened Sequences
  import opened Credibility
  import opened WeightMovement

  /** What both deliveries do: credit these edges in order, by these moves. */
  datatype Job = Job(edges: seq<Contribution>, moves: map<string, real>, correct: bool, policy: Policy)

  ghost predicate ValidJob(j: Job) {
    && ValidPolicy(j.policy) && Distinct(Ids(j.edges))
    && forall c :: c in j.edges ==> c.id in j.moves && 0.0 <= j.moves[c.id]
  }

  function Bump(j: Job, c: Contribution, weight: real): real
    requires c.id in j.moves
  {
    ApplyWeightDelta(weight, j.moves[c.id], j.correct, j.policy)
  }

  /** A delivery reads an edge on its even steps and writes it on its odd steps. */
  datatype Progress = Progress(steps: nat, read: real)

  datatype Race = Race(graph: map<string, EdgeState>, first: Progress, second: Progress)

  function Advance(j: Job, g: map<string, EdgeState>, q: Progress): (map<string, EdgeState>, Progress)
    requires forall c :: c in j.edges ==> c.id in j.moves
  {
    if q.steps >= 2 * |j.edges| then (g, q)
    else
      var c := j.edges[q.steps / 2];
      assert c in j.edges;
      if c.id !in g then (g, Progress(q.steps + 1, q.read))
      else if q.steps % 2 == 0 then (g, Progress(q.steps + 1, g[c.id].weight))
      else (g[c.id := g[c.id].(weight := Bump(j, c, q.read))], Progress(q.steps + 1, q.read))
  }

  /** One step of the delivery that the schedule names. */
  function Turn(j: Job, r: Race, first: bool): Race
    requires forall c :: c in j.edges ==> c.id in j.moves
  {
    if first then
      var (g, q) := Advance(j, r.graph, r.first); Race(g, q, r.second)
    else
      var (g, q) := Advance(j, r.graph, r.second); Race(g, r.first, q)
  }

  function Raced(j: Job, r: Race, schedule: seq<bool>): Race
    requires forall c :: c in j.edges ==> c.id in j.moves
  {
    if schedule == [] then r else Turn(j, Raced(j, r, schedule[..|schedule| - 1]), schedule[|schedule| - 1])
  }

  function Started(g: map<string, EdgeState>): Race {
    Race(g, Progress(0, 0.0), Progress(0, 0.0))
  }

  predicate Finished(j: Job, r: Race) {
    r.first.steps == 2 * |j.edges| == r.second.steps
  }

  // ---- Whatever the schedule, an edge is credited once or twice ----

  /** Where one delivery stands with the weight of edge `i`. */
  ghost predicate ReadsRight(weight: real, once: real, q: Progress, other: Progress, i: nat) {
    q.steps == 2 * i + 1 ==> q.read == weight || (other.steps > 2 * i + 1 && q.read == once)
  }

  /** The weight of edge `i`: untouched, credited once, or, after both deliveries, once or twice. */
  ghost predicate EdgeStands(j: Job, g: map<string, EdgeState>, r: Race, i: nat)
    requires i < |j.edges| && (forall c :: c in j.edges ==> c.id in j.moves)
  {
    var c := j.edges[i];
    assert c in j.edges;
    c.id in g && c.id in r.graph ==>
      var weight, now := g[c.id].weight, r.graph[c.id].weight;
      var once := Bump(j, c, weight);
      && ReadsRight(weight, once, r.first, r.second, i) && ReadsRight(weight, once, r.second, r.first, i)
      && (r.first.steps <= 2 * i + 1 && r.second.steps <= 2 * i + 1 ==> now == weight)
      && ((r.first.steps <= 2 * i + 1) != (r.second.steps <= 2 * i + 1) ==> now == once)
      && (r.first.steps > 2 * i + 1 && r.second.steps > 2 * i + 1 ==> now == once || now == Bump(j, c, once))
  }

  ghost predicate Standing(j: Job, g: map<string, EdgeState>, r: Race)
    requires forall c :: c in j.edges ==> c.id in j.moves
  {
    && r.graph.Keys == g.Keys
    && r.first.steps <= 2 * |j.edges| && r.second.steps <= 2 * |j.edges|
    && (forall id :: id in g && id !in Ids(j.edges) ==> r.graph[id] == g[id])
    && (forall id :: id in g ==> r.graph[id] == g[id].(weight := r.graph[id].weight))
    && (forall i :: 0 <= i < |j.edges| ==> EdgeStands(j, g, r, i))
  }

  /** The same race with the two deliveries exchanged. */
  function Swapped(r: Race): Race {
    Race(r.graph, r.second, r.first)
  }

  lemma FirstTurnStands(j: Job, g: map<string, EdgeState>, r: Race)
    requires ValidJob(j) && Standing(j, g, r)
    ensures Standing(j, g, Turn(j, r, true))
  {
    var after := Turn(j, r, true);
    if r.first.steps < 2 * |j.edges| {
      var k := r.first.steps / 2;
      var c := j.edges[k];
      assert Ids(j.edges)[k] == c.id;
      assert EdgeStands(j, g, r, k);
      forall i | 0 <= i < |j.edges| ensures EdgeStands(j, g, after, i) {
        assert EdgeStands(j, g, r, i);
        assert Ids(j.edges)[i] == j.edges[i].id;
        assert i != k ==> j.edges[i].id != c.id;
      }
    }
  }

  lemma SwapStands(j: Job, g: map<string, EdgeState>, r: Race)
    requires ValidJob(j) && Standing(j, g, r)
    ensures Standing(j, g, Swapped(r))
  {
    forall i | 0 <= i < |j.edges| ensures EdgeStands(j, g, Swapped(r), i) {
      assert EdgeStands(j, g, r, i);
    }
  }

  lemma TurnStands(j: Job, g: map<string, EdgeState>, r: Race, first: bool)
    requires ValidJob(j) && Standing(j, g, r)
    ensures Standing(j, g, Turn(j, r, first))
  {
    if first {
      FirstTurnStands(j, g, r);
    } else {
      SwapStands(j, g, r);
      FirstTurnStands(j, g, Swapped(r));
      SwapStands(j, g, Turn(j, Swapped(r), true));
    }
  }

  lemma {:induction false} RaceStands(j: Job, g: map<string, EdgeState>, schedule: seq<bool>)
    requires ValidJob(j)
    ensures Standing(j, g, Raced(j, Started(g), schedule))
  {
    if schedule != [] {
      RaceStands(j, g, schedule[..|schedule| - 1]);
      TurnStands(j, g, Raced(j, Started(g), schedule[..|schedule| - 1]), schedule[|schedule| - 1]);
    }
  }

  // ---- When a second credit changes nothing ----

  /** Crediting the weight again leaves it where the first credit put it. */
  predicate Absorbs(weight: real, delta: real, correct: bool, p: Policy) {
    delta == 0.0 || (if correct then weight + delta >= 1.0 else weight - delta <= p.floor)
  }

  lemma AbsorbsExactly(weight: real, delta: real, correct: bool, p: Policy)
    requires ValidPolicy(p) && 0.0 <= delta
    ensures var once := ApplyWeightDelta(weight, delta, correct, p);
            ApplyWeightDelta(once, delta, correct, p) == once <==> Absorbs(weight, delta, correct, p)
  {
  }

  // ---- One delivery after the other ----

  function Repeat(who: bool, n: nat): seq<bool> {
    seq(n, i => who)
  }

  /** The schedule in which the second delivery touches the graph only after the first is through with it. */
  function InTurn(j: Job): seq<bool> {
    Repeat(true, 2 * |j.edges|) + Repeat(false, 2 * |j.edges|)
  }

  lemma RaceTakesTurn(j: Job, r: Race, s: seq<bool>, who: bool)
    requires forall c :: c in j.edges ==> c.id in j.moves
    ensures Raced(j, r, s + [who]) == Turn(j, Raced(j, r, s), who)
  {
    assert (s + [who])[..|s|] == s;
  }

  lemma {:induction false} RaceConcat(j: Job, r: Race, s: seq<bool>, t: seq<bool>)
    requires forall c :: c in j.edges ==> c.id in j.moves
    ensures Raced(j, r, s + t) == Raced(j, Raced(j, r, s), t)
    decreases |t|
  {
    if t == [] {
      assert s + t == s;
    } else {
      var front, last := t[..|t| - 1], t[|t| - 1];
      RaceConcat(j, r, s, front);
      RaceTakesTurn(j, r, s + front, last);
      assert s + t == s + front + [last];
    }
  }

  function Of(r: Race, first: bool): Progress {
    if first then r.first else r.second
  }

  lemma TwoTurns(j: Job, r: Race, who: bool, i: nat)
    requires ValidJob(j) && i < |j.edges| && Of(r, who).steps == 2 * i
    ensures var c := j.edges[i];
            var after := Turn(j, Turn(j, r, who), who);
            && c.id in j.moves
            && after.graph == CreditEdge(r.graph, c.id, j.moves[c.id], j.correct, j.policy)
            && Of(after, who).steps == 2 * i + 2 && Of(after, !who) == Of(r, !who)
  {
    assert j.edges[i] in j.edges;
  }

  lemma RepeatedTurns(j: Job, r: Race, who: bool, n: nat)
    requires forall c :: c in j.edges ==> c.id in j.moves
    ensures Raced(j, r, Repeat(who, n + 2)) == Turn(j, Turn(j, Raced(j, r, Repeat(who, n)), who), who)
  {
    assert Repeat(who, n + 2) == Repeat(who, n + 1) + [who];
    assert Repeat(who, n + 1) == Repeat(who, n) + [who];
    RaceTakesTurn(j, r, Repeat(who, n + 1), who);
    RaceTakesTurn(j, r, Repeat(who, n), who);
  }

  lemma AloneStep(j: Job, r: Race, who: bool, i: nat)
    requires ValidJob(j) && i < |j.edges| && Of(Raced(j, r, Repeat(who, 2 * i)), who).steps == 2 * i
    ensures var before, after := Raced(j, r, Repeat(who, 2 * i)), Raced(j, r, Repeat(who, 2 * i + 2));
            var c := j.edges[i];
            && c.id in j.moves
            && after.graph == CreditEdge(before.graph, c.id, j.moves[c.id], j.correct, j.policy)
            && Of(after, who).steps == 2 * i + 2 && Of(after, !who) == Of(before, !who)
  {
    RepeatedTurns(j, r, who, 2 * i);
    TwoTurns(j, Raced(j, r, Repeat(who, 2 * i)), who, i);
  }

  /** From `r`, one delivery alone has credited its first `i` edges and stands at `now`. */
  ghost predicate AloneAt(j: Job, r: Race, who: bool, i: nat, now: Race)
    requires i <= |j.edges| && forall c :: c in j.edges ==> c.id in j.moves
  {
    && now.graph == CreditEdges(r.graph, j.edges[..i], j.moves, j.correct, j.policy)
    && Of(now, who).steps == 2 * i && Of(now, !who) == Of(r, !who)
  }

  lemma AloneGoesOn(j: Job, r: Race, who: bool, i: nat)
    requires ValidJob(j) && i < |j.edges| && AloneAt(j, r, who, i, Raced(j, r, Repeat(who, 2 * i)))
    ensures AloneAt(j, r, who, i + 1, Raced(j, r, Repeat(who, 2 * i + 2)))
  {
    AloneStep(j, r, who, i);
    AlsoCredited(
      j, r.graph, i, Raced(j, r, Repeat(who, 2 * i)).graph, Raced(j, r, Repeat(who, 2 * i + 2)).graph);
  }

  /** A delivery that runs alone for a while credits its edges one after the other. */
  lemma {:induction false} AloneCredits(j: Job, r: Race, who: bool, i: nat)
    requires ValidJob(j) && i <= |j.edges| && Of(r, who).steps == 0
    ensures AloneAt(j, r, who, i, Raced(j, r, Repeat(who, 2 * i)))
  {
    if i > 0 {
      AloneCredits(j, r, who, i - 1);
      AloneGoesOn(j, r, who, i - 1);
      assert 2 * (i - 1) + 2 == 2 * i;
    }
  }

  lemma AlsoCredited(
    j: Job, g: map<string, EdgeState>, k: nat, before: map<string, EdgeState>, after: map<string, EdgeState>)
    requires ValidJob(j) && k < |j.edges| && j.edges[k].id in j.moves
    requires before == CreditEdges(g, j.edges[..k], j.moves, j.correct, j.policy)
    requires after == CreditEdge(before, j.edges[k].id, j.moves[j.edges[k].id], j.correct, j.policy)
    ensures after == CreditEdges(g, j.edges[..k + 1], j.moves, j.correct, j.policy)
  {
    CreditEdgesStep(g, j.edges, j.moves, j.correct, j.policy, k);
  }

  lemma InTurnCreditsTwice(j: Job, g: map<string, EdgeState>)
    requires ValidJob(j)
    ensures var r := Raced(j, Started(g), InTurn(j));
            var once := CreditEdges(g, j.edges, j.moves, j.correct, j.policy);
            Finished(j, r) && r.graph == CreditEdges(once, j.edges, j.moves, j.correct, j.policy)
  {
    var n := |j.edges|;
    assert j.edges[..n] == j.edges;
    AloneCredits(j, Started(g), true, n);
    var half := Raced(j, Started(g), Repeat(true, 2 * n));
    AloneCredits(j, half, false, n);
    RaceConcat(j, Started(g), Repeat(true, 2 * n), Repeat(false, 2 * n));
  }

  // ---- Learning under an overlap ----

  function JobOf(ids: IdReader, p: Policy, m: Scored): (j: Job)
    ensures forall c :: c in j.edges ==> c.id in j.moves
  {
    CreditedAreShared(ids, p, m);
    Job(Credited(ids, m), Moves(ids, p, m), m.correct, p)
  }

  lemma JobIsValid(ids: IdReader, p: Policy, m: Scored)
    requires ValidPolicy(p) && Distinct(Ids(m.edges))
    ensures ValidJob(JobOf(ids, p, m))
  {
    CreditedAreShared(ids, p, m);
    SharedAreDistinct(ids, m);
    MovesAreShares(ids, p, m);
  }

  /** The state after both deliveries, under one interleaving of their reads and writes of the graph. Whichever
      commits first claims the guard row and stores the source counts; the other stores nothing. */
  function Overlapped(ids: IdReader, p: Policy, s: Learner, m: Scored, schedule: seq<bool>): Learner {
    Process(ids, p, s, m, false).0.(graph := Raced(JobOf(ids, p, m), Started(s.graph), schedule).graph)
  }

  predicate Completes(ids: IdReader, p: Policy, s: Learner, m: Scored, schedule: seq<bool>) {
    Finished(JobOf(ids, p, m), Raced(JobOf(ids, p, m), Started(s.graph), schedule))
  }

  /** Under every interleaving each credited edge ends up credited once or twice, and no other edge changes. */
  lemma CreditedOnceOrTwice(ids: IdReader, p: Policy, s: Learner, m: Scored, schedule: seq<bool>)
    requires ValidPolicy(p) && Distinct(Ids(m.edges)) && Completes(ids, p, s, m, schedule)
    ensures var g, after, moves := s.graph, Overlapped(ids, p, s, m, schedule).graph, Moves(ids, p, m);
            && after.Keys == g.Keys
            && (forall id :: id in g && id !in Ids(Credited(ids, m)) ==> after[id] == g[id])
            && (forall c :: c in Credited(ids, m) && c.id in g ==>
                  && c.id in moves
                  && var once := ApplyWeightDelta(g[c.id].weight, moves[c.id], m.correct, p);
                     || after[c.id] == g[c.id].(weight := once)
                     || after[c.id] == g[c.id].(weight := ApplyWeightDelta(once, moves[c.id], m.correct, p)))
  {
    var j := JobOf(ids, p, m);
    JobIsValid(ids, p, m);
    RaceStands(j, s.graph, schedule);
    forall c | c in j.edges && c.id in s.graph
      ensures c.id in j.moves
      ensures var after := Raced(j, Started(s.graph), schedule).graph;
              var once := Bump(j, c, s.graph[c.id].weight);
              && c.id in after
              && (after[c.id] == s.graph[c.id].(weight := once)
                  || after[c.id] == s.graph[c.id].(weight := Bump(j, c, once)))
    {
      var i :| 0 <= i < |j.edges| && j.edges[i] == c;
      assert EdgeStands(j, s.graph, Raced(j, Started(s.graph), schedule), i);
    }
  }

  /** The guard protects the sources but not the graph: one after the other, both deliveries credit the edges. */
  lemma OverlapCreditsEdgesTwice(ids: IdReader, p: Policy, s: Learner, m: Scored)
    requires ValidPolicy(p) && m.prediction !in s.processed && Distinct(Ids(m.edges))
    ensures var once, schedule := Process(ids, p, s, m, false).0, InTurn(JobOf(ids, p, m));
            && Completes(ids, p, s, m, schedule)
            && Overlapped(ids, p, s, m, schedule) == once.(graph := GraphPhase(ids, p, once.graph, m).0)
  {
    var j := JobOf(ids, p, m);
    JobIsValid(ids, p, m);
    InTurnCreditsTwice(j, s.graph);
    ProcessPointwise(ids, p, s, m);
    PhaseCredits(ids, p, s.graph, m);
    PhaseCredits(ids, p, Process(ids, p, s, m, false).0.graph, m);
  }

  /** Every credited edge of the graph is already pushed against the end of the band, or has no share. */
  ghost predicate AllAbsorb(ids: IdReader, p: Policy, g: map<string, EdgeState>, m: Scored) {
    forall c :: c in Credited(ids, m) && c.id in g && c.id in Moves(ids, p, m) ==>
                  Absorbs(g[c.id].weight, Moves(ids, p, m)[c.id], m.correct, p)
  }

  lemma AbsorbedGraph(ids: IdReader, p: Policy, s: Learner, m: Scored, schedule: seq<bool>)
    requires ValidPolicy(p) && m.prediction !in s.processed && Distinct(Ids(m.edges))
    requires Completes(ids, p, s, m, schedule) && AllAbsorb(ids, p, s.graph, m)
    ensures Overlapped(ids, p, s, m, schedule).graph == Process(ids, p, s, m, false).0.graph
  {
    var g, moves, credited := s.graph, Moves(ids, p, m), Credited(ids, m);
    var after, once := Overlapped(ids, p, s, m, schedule).graph, Process(ids, p, s, m, false).0.graph;
    CreditedOnceOrTwice(ids, p, s, m, schedule);
    ProcessPointwise(ids, p, s, m);
    MovesAreShares(ids, p, m);
    CreditedAreShared(ids, p, m);
    forall id | id in g ensures after[id] == once[id] {
      if id in Ids(credited) {
        var i :| 0 <= i < |credited| && Ids(credited)[i] == id;
        var c := credited[i];
        assert c in credited;
        AbsorbsExactly(g[c.id].weight, moves[c.id], m.correct, p);
      }
    }
  }

  lemma TwiceMeansAbsorbed(ids: IdReader, p: Policy, s: Learner, m: Scored)
    requires ValidPolicy(p) && m.prediction !in s.processed && Distinct(Ids(m.edges))
    requires var once := Process(ids, p, s, m, false).0; GraphPhase(ids, p, once.graph, m).0 == once.graph
    ensures AllAbsorb(ids, p, s.graph, m)
  {
    var g, moves, credited := s.graph, Moves(ids, p, m), Credited(ids, m);
    var once := Process(ids, p, s, m, false).0.graph;
    ProcessPointwise(ids, p, s, m);
    ProcessPointwise(ids, p, s.(graph := once), m);
    MovesAreShares(ids, p, m);
    CreditedAreShared(ids, p, m);
    forall c | c in credited && c.id in g && c.id in moves
      ensures Absorbs(g[c.id].weight, moves[c.id], m.correct, p)
    {
      AbsorbsExactly(g[c.id].weight, moves[c.id], m.correct, p);
    }
  }

  /** An overlap of one delivery after the other leaves the state of a single delivery if and only if every
      credited edge absorbs a second credit; and then so does every other interleaving. */
  lemma OverlapHarmlessExactlyWhen(ids: IdReader, p: Policy, s: Learner, m: Scored)
    requires ValidPolicy(p) && m.prediction !in s.processed && Distinct(Ids(m.edges))
    ensures Overlapped(ids, p, s, m, InTurn(JobOf(ids, p, m))) == Process(ids, p, s, m, false).0
            <==> AllAbsorb(ids, p, s.graph, m)
    ensures (forall schedule :: Completes(ids, p, s, m, schedule) ==>
                                  Overlapped(ids, p, s, m, schedule) == Process(ids, p, s, m, false).0)
            <==> AllAbsorb(ids, p, s.graph, m)
  {
    OverlapCreditsEdgesTwice(ids, p, s, m);
    var once := Process(ids, p, s, m, false).0;
    var schedule := InTurn(JobOf(ids, p, m));
    assert Completes(ids, p, s, m, schedule);
    if AllAbsorb(ids, p, s.graph, m) {
      forall schedule | Completes(ids, p, s, m, schedule) ensures Overlapped(ids, p, s, m, schedule) == once {
        AbsorbedGraph(ids, p, s, m, schedule);
      }
    }
    if Overlapped(ids, p, s, m, schedule) == once {
      TwiceMeansAbsorbed(ids, p, s, m);
    }
  }

  // ---- Inputs ----

  /** With one contributing edge inside the band, an overlap moves it by two steps. */
  lemma OverlapMovesTwoSteps(ids: IdReader, p: Policy, s: Learner, m: Scored, c: Contribution)
    requires ValidPolicy(p) && m.prediction !in s.processed
    requires m.edges == [c] && !m.propagated && ids.isCausal(c.id) && c.id in s.graph
    requires p.floor + 2.0 * p.step <= s.graph[c.id].weight <= 1.0 - 2.0 * p.step
    ensures var w := s.graph[c.id].weight;
            var once := Process(ids, p, s, m, false).0.graph;
            var overlapped := Overlapped(ids, p, s, m, InTurn(JobOf(ids, p, m))).graph;
            && c.id in once && c.id in overlapped
            && once[c.id].weight == (if m.correct then w + p.step else w - p.step)
            && overlapped[c.id].weight == (if m.correct then w + 2.0 * p.step else w - 2.0 * p.step)
  {
    SingleEdgeMoves(ids, p, s.graph, m, c);
    var once := GraphPhase(ids, p, s.graph, m).0;
    SingleEdgeMoves(ids, p, once, m, c);
    ReadableParses(ids, p, s.graph, m);
    OverlapCreditsEdgesTwice(ids, p, s, m);
  }

  /** When both deliveries read the edge before either writes it, one credit is lost and no harm done. */
  lemma LostWriteCreditsOnce(ids: IdReader, p: Policy, s: Learner, m: Scored, c: Contribution)
    requires ValidPolicy(p) && m.prediction !in s.processed
    requires m.edges == [c] && !m.propagated && ids.isCausal(c.id) && c.id in s.graph
    ensures Completes(ids, p, s, m, [true, false, true, false])
    ensures Overlapped(ids, p, s, m, [true, false, true, false]) == Process(ids, p, s, m, false).0
  {
    assert ParsedPrefix(ids, m.edges) == 1;
    assert Credited(ids, m) == [c] && c in Credited(ids, m);
    assert Ids(m.edges) == [c.id];
    CreditedAreShared(ids, p, m);
    BothReadFirst(JobOf(ids, p, m), s.graph, c);
    ProcessPointwise(ids, p, s, m);
    SingleEdgeMoves(ids, p, s.graph, m, c);
    CreditedOnly(ids, p, s.graph, m, c);
  }

  lemma CreditedOnly(ids: IdReader, p: Policy, g: map<string, EdgeState>, m: Scored, c: Contribution)
    requires Credited(ids, m) == [c] && c.id in g && c.id in Moves(ids, p, m)
    ensures GraphPhase(ids, p, g, m).0
            == g[c.id := g[c.id].(weight := ApplyWeightDelta(g[c.id].weight, Moves(ids, p, m)[c.id], m.correct, p))]
  {
    PhaseCredits(ids, p, g, m);
    CreditEdgesStep(g, [c], Moves(ids, p, m), m.correct, p, 0);
    assert [c][..1] == [c];
  }

  lemma BothReadFirst(j: Job, g: map<string, EdgeState>, c: Contribution)
    requires j.edges == [c] && c.id in j.moves && c.id in g
    ensures var after := Raced(j, Started(g), [true, false, true, false]);
            Finished(j, after) && after.graph == g[c.id := g[c.id].(weight := Bump(j, c, g[c.id].weight))]
  {
    var w := g[c.id].weight;
    var written := g[c.id := g[c.id].(weight := Bump(j, c, w))];
    RaceTakesTurn(j, Started(g), [], true);
    assert [] + [true] == [true];
    assert Raced(j, Started(g), [true]) == Race(g, Progress(1, w), Progress(0, 0.0));
    RaceTakesTurn(j, Started(g), [true], false);
    assert [true] + [false] == [true, false];
    assert Raced(j, Started(g), [true, false]) == Race(g, Progress(1, w), Progress(1, w));
    RaceTakesTurn(j, Started(g), [true, false], true);
    assert [true, false] + [true] == [true, false, true];
    assert Raced(j, Started(g), [true, false, true]) == Race(written, Progress(2, w), Progress(1, w));
    RaceTakesTurn(j, Started(g), [true, false, true], false);
    assert [true, false, true] + [false] == [true, false, true, false];
    assert written[c.id := written[c.id].(weight := Bump(j, c, w))] == written;
  }
}
