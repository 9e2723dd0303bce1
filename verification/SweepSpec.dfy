/**
 What a close sweep asks of the stance table, call by call. The world answers each call (whether the market is open,
 which of several equally recent rows is read); everything else about a sweep follows from its contexts, the graph
 and those answers.
 */
module SweepSpec {
  import opened Wrappers
  import opened Directions
  import opened Decisions
  import opened Stances
  import opened Propagation

  /** A claimed context: its causal edges are `None` when the graph cannot be read. */
  datatype Context = Context(
    asset: Asset, window: Instant, version: nat,
    edges: Option<seq<Edge>>, polarities: map<string, Polarity>, elevated: bool)

  /** A directional decision waiting for its propagation. */
  datatype Deferred = Deferred(root: Node, window: Instant, version: nat, confidence: real)

  /** What the configuration demands. A deadband of zero is allowed, and can make a decision divide by zero. */
  predicate Configured(s: Settings) {
    s.halfpoint > 0.0
  }

  lemma TakesNext<T>(xs: seq<T>, i: nat)
    requires i < |xs|
    ensures xs[i] in xs && xs[..i + 1] == xs[..i] + [xs[i]]
  {
  }

  // ---- Stances to be stored ----

  datatype Wish = Wish(key: Key, direction: Direction)

  /** The calls ask for these stances, in this order, at this instant. */
  predicate Fulfils(calls: seq<Call>, wishes: seq<Wish>, now: Instant) {
    && |calls| == |wishes|
    && forall i :: 0 <= i < |calls| ==>
                     calls[i].key == wishes[i].key && calls[i].direction == wishes[i].direction && calls[i].now == now
  }

  /** The stances that were stored, as nodes that fire. */
  function StoredNodes(rows: Table, calls: seq<Call>, limits: Limits): seq<Node> {
    if calls == [] then []
    else
      var before, last := calls[..|calls| - 1], calls[|calls| - 1];
      StoredNodes(rows, before, limits)
      + if Store(Run(rows, before, limits), last, limits).1 then [Node(last.key.asset, last.direction)] else []
  }

  lemma {:induction false} RunConcat(rows: Table, calls: seq<Call>, more: seq<Call>, limits: Limits)
    ensures Run(rows, calls + more, limits) == Run(Run(rows, calls, limits), more, limits)
    ensures StoredNodes(rows, calls + more, limits)
            == StoredNodes(rows, calls, limits) + StoredNodes(Run(rows, calls, limits), more, limits)
    decreases |more|
  {
    if more == [] {
      assert calls + more == calls;
    } else {
      var n := |more| - 1;
      assert (calls + more)[..|calls + more| - 1] == calls + more[..n];
      RunConcat(rows, calls, more[..n], limits);
    }
  }

  lemma FulfilsConcat(calls: seq<Call>, wishes: seq<Wish>, more: seq<Call>, others: seq<Wish>, now: Instant)
    requires Fulfils(calls, wishes, now) && Fulfils(more, others, now)
    ensures Fulfils(calls + more, wishes + others, now)
  {
  }

  lemma OneCall(rows: Table, c: Call, limits: Limits)
    ensures Run(rows, [c], limits) == Store(rows, c, limits).0
    ensures StoredNodes(rows, [c], limits)
            == if Store(rows, c, limits).1 then [Node(c.key.asset, c.direction)] else []
  {
    assert [c][..0] == [];
  }

  // ---- The direct pass ----

  function DecisionOf(c: Context, s: Settings): Decisions.Outcome
    requires Configured(s)
  {
    if c.edges.None? then NoDecision else Verdict(Effective(c.edges.value, c.polarities, c.elevated), s)
  }

  function DirectWish(c: Context, s: Settings): seq<Wish>
    requires Configured(s)
  {
    var v := DecisionOf(c, s);
    if v.Decided? then [Wish(Key(c.asset, c.window, c.version, 0), v.decision.direction)] else []
  }

  function DirectDeferred(c: Context, s: Settings): seq<Deferred>
    requires Configured(s)
  {
    var v := DecisionOf(c, s);
    if v.Decided? && v.decision.direction != Neutral
    then [Deferred(Node(c.asset, v.decision.direction), c.window, c.version, v.decision.confidence)] else []
  }

  /** Every decision of the batch, in the order of its contexts. */
  function DirectWishes(contexts: seq<Context>, s: Settings): seq<Wish>
    requires Configured(s)
  {
    if contexts == [] then []
    else DirectWishes(contexts[..|contexts| - 1], s) + DirectWish(contexts[|contexts| - 1], s)
  }

  function DeferredOf(contexts: seq<Context>, s: Settings): seq<Deferred>
    requires Configured(s)
  {
    if contexts == [] then []
    else DeferredOf(contexts[..|contexts| - 1], s) + DirectDeferred(contexts[|contexts| - 1], s)
  }

  /** The first `k` contexts can be decided, and the next one, if there is one, divides by zero. */
  ghost predicate StopsAt(contexts: seq<Context>, s: Settings, k: nat)
    requires Configured(s)
  {
    && k <= |contexts|
    && (forall i :: 0 <= i < k ==> !DecisionOf(contexts[i], s).DividedByZero?)
    && (k < |contexts| ==> DecisionOf(contexts[k], s).DividedByZero?)
  }

  /** `calls` asked for the decisions of the contexts, leaving the table as `rows` and `deferred` to propagate. */
  ghost predicate DirectAsked(
    start: Table, rows: Table, contexts: seq<Context>, deferred: seq<Deferred>, s: Settings, now: Instant,
    limits: Limits, calls: seq<Call>)
    requires Configured(s)
  {
    && Fulfils(calls, DirectWishes(contexts, s), now)
    && rows == Run(start, calls, limits) && deferred == DeferredOf(contexts, s)
  }

  lemma DirectAskedStep(
    start: Table, rows: Table, contexts: seq<Context>, deferred: seq<Deferred>, s: Settings, now: Instant,
    limits: Limits, calls: seq<Call>, c: Context, after: Table, asked: seq<Call>)
    requires Configured(s) && DirectAsked(start, rows, contexts, deferred, s, now, limits, calls)
    requires Fulfils(asked, DirectWish(c, s), now) && after == Run(rows, asked, limits)
    ensures DirectAsked(start, after, contexts + [c], deferred + DirectDeferred(c, s), s, now, limits, calls + asked)
  {
    assert (contexts + [c])[..|contexts|] == contexts;
    RunConcat(start, calls, asked, limits);
    FulfilsConcat(calls, DirectWishes(contexts, s), asked, DirectWish(c, s), now);
  }

  // ---- Propagation ----

  /** The direction decided from all edges reaching a target, unless it is neutral or undecided. */
  function Choice(edges: seq<Edge>, s: Settings): Option<Direction>
    requires Configured(s)
  {
    var v := Verdict(Effective(edges, map[], false), s);
    if v.Decided? && v.decision.direction != Neutral then Some(v.decision.direction) else None
  }

  /** Which direction a level decides for a target, if any. */
  type Chooser = (seq<Node>, Asset) -> Option<Direction>

  function ChooserOf(g: Graph, s: Settings): Chooser
    requires Configured(s)
  {
    (level, t) => Choice(EdgesTo(g, level, t), s)
  }

  function TargetWish(target: Asset, chosen: Option<Direction>, window: Instant, version: nat, depth: nat): seq<Wish> {
    if chosen.Some? then [Wish(Key(target, window, version, depth), chosen.value)] else []
  }

  /** A stance for every target of a level that is decided up or down. */
  function LevelWishes(
    order: seq<Asset>, level: seq<Node>, choose: Chooser, window: Instant, version: nat, depth: nat): seq<Wish>
  {
    if order == [] then []
    else LevelWishes(order[..|order| - 1], level, choose, window, version, depth)
         + TargetWish(order[|order| - 1], choose(level, order[|order| - 1]), window, version, depth)
  }

  /** `calls` asked for the stances of `order`, leaving the table as `rows` and `next` as what was stored. */
  ghost predicate LevelAsked(
    start: Table, rows: Table, order: seq<Asset>, next: seq<Node>, level: seq<Node>, choose: Chooser, window: Instant,
    version: nat, depth: nat, now: Instant, limits: Limits, calls: seq<Call>)
  {
    && Fulfils(calls, LevelWishes(order, level, choose, window, version, depth), now)
    && rows == Run(start, calls, limits) && next == StoredNodes(start, calls, limits)
  }

  lemma LevelAskedStep(
    start: Table, rows: Table, order: seq<Asset>, next: seq<Node>, level: seq<Node>, choose: Chooser, window: Instant,
    version: nat, depth: nat, now: Instant, limits: Limits, calls: seq<Call>,
    target: Asset, after: Table, asked: seq<Call>, news: seq<Node>)
    requires LevelAsked(start, rows, order, next, level, choose, window, version, depth, now, limits, calls)
    requires Fulfils(asked, TargetWish(target, choose(level, target), window, version, depth), now)
    requires after == Run(rows, asked, limits) && news == StoredNodes(rows, asked, limits)
    ensures LevelAsked(
              start, after, order + [target], next + news, level, choose, window, version, depth, now, limits,
              calls + asked)
  {
    var order' := order + [target];
    assert order'[..|order|] == order;
    RunConcat(start, calls, asked, limits);
    FulfilsConcat(calls, LevelWishes(order, level, choose, window, version, depth),
                  asked, TargetWish(target, choose(level, target), window, version, depth), now);
  }

  /** Where a propagation stands: what it has visited, the level that fires next, and the table. */
  datatype Stage = Stage(visited: set<Asset>, level: seq<Node>, depth: nat, rows: Table)

  /** One level is over: its targets are visited, and those that were stored fire next. */
  function Advance(g: Graph, limits: Limits, st: Stage, calls: seq<Call>): Stage {
    Stage(st.visited + (set t | t in LevelOrder(g, st.level, st.visited)), StoredNodes(st.rows, calls, limits),
          st.depth + 1, Run(st.rows, calls, limits))
  }

  function StageAfter(g: Graph, limits: Limits, st: Stage, waves: seq<seq<Call>>): Stage {
    if waves == [] then st
    else Advance(g, limits, StageAfter(g, limits, st, waves[..|waves| - 1]), waves[|waves| - 1])
  }

  predicate Exhausted(st: Stage, cap: nat) {
    st.level == [] || st.depth >= cap
  }

  /** A wave asks for a stance of every target its level decides, once, from all the edges that reach it. */
  predicate ProperWave(
    g: Graph, s: Settings, st: Stage, calls: seq<Call>, window: Instant, version: nat, now: Instant, cap: nat)
    requires Configured(s)
  {
    && !Exhausted(st, cap)
    && Fulfils(calls, LevelWishes(LevelOrder(g, st.level, st.visited), st.level, ChooserOf(g, s), window, version,
                                  st.depth + 1), now)
  }

  ghost predicate ProperWaveAt(
    g: Graph, s: Settings, limits: Limits, st: Stage, waves: seq<seq<Call>>, window: Instant, version: nat,
    now: Instant, cap: nat, k: nat)
    requires Configured(s) && k < |waves|
  {
    ProperWave(g, s, StageAfter(g, limits, st, waves[..k]), waves[k], window, version, now, cap)
  }

  ghost predicate ProperWaves(
    g: Graph, s: Settings, limits: Limits, st: Stage, waves: seq<seq<Call>>, window: Instant, version: nat,
    now: Instant, cap: nat)
    requires Configured(s)
  {
    forall k: nat :: k < |waves| ==> ProperWaveAt(g, s, limits, st, waves, window, version, now, cap, k)
  }

  lemma WaveAtAppends(
    g: Graph, s: Settings, limits: Limits, st: Stage, waves: seq<seq<Call>>, calls: seq<Call>, window: Instant,
    version: nat, now: Instant, cap: nat, k: nat)
    requires Configured(s) && k < |waves|
    requires ProperWaveAt(g, s, limits, st, waves, window, version, now, cap, k)
    ensures ProperWaveAt(g, s, limits, st, waves + [calls], window, version, now, cap, k)
  {
    assert (waves + [calls])[..k] == waves[..k];
  }

  lemma StageAppends(g: Graph, limits: Limits, st: Stage, waves: seq<seq<Call>>, calls: seq<Call>)
    ensures StageAfter(g, limits, st, waves + [calls]) == Advance(g, limits, StageAfter(g, limits, st, waves), calls)
  {
    assert (waves + [calls])[..|waves|] == waves;
  }

  lemma WaveAppends(
    g: Graph, s: Settings, limits: Limits, st: Stage, waves: seq<seq<Call>>, calls: seq<Call>, window: Instant,
    version: nat, now: Instant, cap: nat)
    requires Configured(s) && ProperWaves(g, s, limits, st, waves, window, version, now, cap)
    requires ProperWave(g, s, StageAfter(g, limits, st, waves), calls, window, version, now, cap)
    ensures ProperWaves(g, s, limits, st, waves + [calls], window, version, now, cap)
  {
    var more := waves + [calls];
    forall k: nat | k < |more| ensures ProperWaveAt(g, s, limits, st, more, window, version, now, cap, k) {
      if k < |waves| {
        WaveAtAppends(g, s, limits, st, waves, calls, window, version, now, cap, k);
      } else {
        assert more[..k] == waves;
      }
    }
  }

  lemma AskedIsProper(
    g: Graph, s: Settings, limits: Limits, calls: seq<Call>, window: Instant, version: nat, now: Instant,
    cap: nat, visited: set<Asset>, level: seq<Node>, depth: nat, before: Table, order: seq<Asset>, next: seq<Node>,
    rows: Table)
    requires Configured(s) && level != [] && depth < cap && order == LevelOrder(g, level, visited)
    requires LevelAsked(before, rows, order, next, level, ChooserOf(g, s), window, version, depth + 1, now, limits,
                        calls)
    ensures ProperWave(g, s, Stage(visited, level, depth, before), calls, window, version, now, cap)
    ensures Advance(g, limits, Stage(visited, level, depth, before), calls)
            == Stage(visited + (set t | t in order), next, depth + 1, rows)
  {
  }

  /** The waves so far were all proper, and led to this stage. */
  ghost predicate Underway(
    g: Graph, s: Settings, limits: Limits, st: Stage, waves: seq<seq<Call>>, window: Instant, version: nat,
    now: Instant, cap: nat, at: Stage)
    requires Configured(s)
  {
    ProperWaves(g, s, limits, st, waves, window, version, now, cap) && StageAfter(g, limits, st, waves) == at
  }

  lemma WaveGoesOn(
    g: Graph, s: Settings, limits: Limits, st: Stage, waves: seq<seq<Call>>, calls: seq<Call>, window: Instant,
    version: nat, now: Instant, cap: nat, at: Stage, next: Stage)
    requires Configured(s) && Underway(g, s, limits, st, waves, window, version, now, cap, at)
    requires ProperWave(g, s, at, calls, window, version, now, cap) && Advance(g, limits, at, calls) == next
    ensures Underway(g, s, limits, st, waves + [calls], window, version, now, cap, next)
  {
    StageAppends(g, limits, st, waves, calls);
    WaveAppends(g, s, limits, st, waves, calls, window, version, now, cap);
  }

  /** A level that asked for its stances is a wave, and leaves the next stage. */
  lemma WaveTaken(
    g: Graph, s: Settings, limits: Limits, st: Stage, waves: seq<seq<Call>>, calls: seq<Call>, window: Instant,
    version: nat, now: Instant, cap: nat, visited: set<Asset>, level: seq<Node>, depth: nat, before: Table,
    order: seq<Asset>, next: seq<Node>, rows: Table)
    requires Configured(s) && level != [] && depth < cap && order == LevelOrder(g, level, visited)
    requires Underway(g, s, limits, st, waves, window, version, now, cap, Stage(visited, level, depth, before))
    requires LevelAsked(before, rows, order, next, level, ChooserOf(g, s), window, version, depth + 1, now, limits,
                        calls)
    ensures Underway(g, s, limits, st, waves + [calls], window, version, now, cap,
                     Stage(visited + (set t | t in order), next, depth + 1, rows))
  {
    AskedIsProper(g, s, limits, calls, window, version, now, cap, visited, level, depth, before, order, next, rows);
    WaveGoesOn(g, s, limits, st, waves, calls, window, version, now, cap, Stage(visited, level, depth, before),
               Stage(visited + (set t | t in order), next, depth + 1, rows));
  }

  // ---- The whole sweep ----

  /** The decisions confident enough to propagate, in order. */
  function Strong(deferred: seq<Deferred>, minimum: real): seq<Deferred> {
    if deferred == [] then []
    else Strong(deferred[..|deferred| - 1], minimum)
         + if deferred[|deferred| - 1].confidence >= minimum then [deferred[|deferred| - 1]] else []
  }

  /** A propagation starts from its own asset and passes over every directly decided one. */
  function StageFor(d: Deferred, direct: set<Asset>, rows: Table): Stage {
    Stage({d.root.asset} + direct, [d.root], 0, rows)
  }

  /** The table after one propagation for each of the roots, one after the other. */
  function RowsAfter(
    g: Graph, limits: Limits, direct: set<Asset>, rows: Table, roots: seq<Deferred>, journeys: seq<seq<seq<Call>>>)
    : Table
    requires |roots| == |journeys|
  {
    if roots == [] then rows
    else
      var n := |roots| - 1;
      StageAfter(g, limits, StageFor(roots[n], direct, RowsAfter(g, limits, direct, rows, roots[..n], journeys[..n])),
                 journeys[n]).rows
  }

  ghost predicate ProperJourney(
    g: Graph, s: Settings, limits: Limits, d: Deferred, direct: set<Asset>, rows: Table, waves: seq<seq<Call>>,
    now: Instant, cap: nat)
    requires Configured(s)
  {
    var st := StageFor(d, direct, rows);
    && ProperWaves(g, s, limits, st, waves, d.window, d.version, now, cap)
    && Exhausted(StageAfter(g, limits, st, waves), cap)
  }

  ghost predicate ProperJourneyAt(
    g: Graph, s: Settings, limits: Limits, direct: set<Asset>, rows: Table, roots: seq<Deferred>,
    journeys: seq<seq<seq<Call>>>, now: Instant, cap: nat, k: nat)
    requires Configured(s) && |roots| == |journeys| && k < |roots|
  {
    ProperJourney(g, s, limits, roots[k], direct, RowsAfter(g, limits, direct, rows, roots[..k], journeys[..k]),
                  journeys[k], now, cap)
  }

  /** Every root was propagated to the end, from the table its predecessors left. */
  ghost predicate ProperJourneys(
    g: Graph, s: Settings, limits: Limits, direct: set<Asset>, rows: Table, roots: seq<Deferred>,
    journeys: seq<seq<seq<Call>>>, now: Instant, cap: nat)
    requires Configured(s) && |roots| == |journeys|
  {
    forall k: nat :: k < |roots| ==> ProperJourneyAt(g, s, limits, direct, rows, roots, journeys, now, cap, k)
  }

  /** Every decision that is confident enough was propagated, leaving the table as `rows`. */
  ghost predicate Propagated(
    g: Graph, s: Settings, limits: Limits, direct: set<Asset>, mid: Table, rows: Table, deferred: seq<Deferred>,
    minimum: real, journeys: seq<seq<seq<Call>>>, now: Instant, cap: nat)
    requires Configured(s)
  {
    var roots := Strong(deferred, minimum);
    && |journeys| == |roots|
    && ProperJourneys(g, s, limits, direct, mid, roots, journeys, now, cap)
    && rows == RowsAfter(g, limits, direct, mid, roots, journeys)
  }

  lemma PropagatedStep(
    g: Graph, s: Settings, limits: Limits, direct: set<Asset>, mid: Table, rows: Table, deferred: seq<Deferred>,
    minimum: real, journeys: seq<seq<seq<Call>>>, now: Instant, cap: nat, d: Deferred, waves: seq<seq<Call>>,
    after: Table)
    requires Configured(s)
    requires Propagated(g, s, limits, direct, mid, rows, deferred, minimum, journeys, now, cap)
    requires d.confidence >= minimum ==>
               && ProperJourney(g, s, limits, d, direct, rows, waves, now, cap)
               && after == StageAfter(g, limits, StageFor(d, direct, rows), waves).rows
    requires d.confidence < minimum ==> after == rows
    ensures Propagated(g, s, limits, direct, mid, after, deferred + [d], minimum,
                       if d.confidence >= minimum then journeys + [waves] else journeys, now, cap)
  {
    assert (deferred + [d])[..|deferred|] == deferred;
    if d.confidence >= minimum {
      JourneyAppends(g, s, limits, direct, mid, Strong(deferred, minimum), journeys, now, cap, d, waves);
      RowsAppend(g, limits, direct, mid, Strong(deferred, minimum), journeys, d, waves);
    } else {
      assert Strong(deferred, minimum) + [] == Strong(deferred, minimum);
    }
  }

  lemma JourneyAtAppends(
    g: Graph, s: Settings, limits: Limits, direct: set<Asset>, rows: Table, roots: seq<Deferred>,
    journeys: seq<seq<seq<Call>>>, now: Instant, cap: nat, d: Deferred, waves: seq<seq<Call>>, k: nat)
    requires Configured(s) && |roots| == |journeys| && k < |roots|
    requires ProperJourneyAt(g, s, limits, direct, rows, roots, journeys, now, cap, k)
    ensures ProperJourneyAt(g, s, limits, direct, rows, roots + [d], journeys + [waves], now, cap, k)
  {
    assert (roots + [d])[..k] == roots[..k] && (journeys + [waves])[..k] == journeys[..k];
  }

  lemma RowsAppend(
    g: Graph, limits: Limits, direct: set<Asset>, rows: Table, roots: seq<Deferred>, journeys: seq<seq<seq<Call>>>,
    d: Deferred, waves: seq<seq<Call>>)
    requires |roots| == |journeys|
    ensures RowsAfter(g, limits, direct, rows, roots + [d], journeys + [waves])
            == StageAfter(g, limits, StageFor(d, direct, RowsAfter(g, limits, direct, rows, roots, journeys)),
                          waves).rows
  {
    assert (roots + [d])[..|roots|] == roots && (journeys + [waves])[..|roots|] == journeys;
  }

  lemma JourneyAppends(
    g: Graph, s: Settings, limits: Limits, direct: set<Asset>, rows: Table, roots: seq<Deferred>,
    journeys: seq<seq<seq<Call>>>, now: Instant, cap: nat, d: Deferred, waves: seq<seq<Call>>)
    requires Configured(s) && |roots| == |journeys|
    requires ProperJourneys(g, s, limits, direct, rows, roots, journeys, now, cap)
    requires var after := RowsAfter(g, limits, direct, rows, roots, journeys);
             ProperJourney(g, s, limits, d, direct, after, waves, now, cap)
    ensures ProperJourneys(g, s, limits, direct, rows, roots + [d], journeys + [waves], now, cap)
  {
    var roots', journeys' := roots + [d], journeys + [waves];
    forall k: nat | k < |roots'|
      ensures ProperJourneyAt(g, s, limits, direct, rows, roots', journeys', now, cap, k)
    {
      if k < |roots| {
        JourneyAtAppends(g, s, limits, direct, rows, roots, journeys, now, cap, d, waves, k);
      } else {
        assert roots'[..k] == roots && journeys'[..k] == journeys;
      }
    }
  }
}
