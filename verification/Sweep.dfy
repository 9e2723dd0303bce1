/**
 One close sweep over the stance table: direct stances first, then propagation from every directional
 one. The module tracks what the propagation phase as a whole may do to the table.
 */
module Sweep {
  import opened Wrappers
  import opened Sequences
  import opened Directions
  import opened Decisions
  import opened Stances
  import opened Propagation
  import opened SweepSpec

  // ---- What propagation may do to the table ----

  /** Rows from `|base|` on are new. Old rows are still there; at most their status became withdrawn.
      Every new row is a directional propagated stance of this instant, outside the excluded assets. */
  ghost predicate Grown(base: Table, rows: Table, now: Instant, banned: set<Asset>) {
    && |base| <= |rows|
    && (forall i :: 0 <= i < |base| ==>
          rows[i] == base[i] || (base[i].status == Pending && rows[i] == base[i].(status := Withdrawn)))
    && (forall i :: |base| <= i < |rows| ==>
          && rows[i].asset !in banned && rows[i].decidedAt == now
          && rows[i].key.depth > 0 && rows[i].direction != Neutral)
    && DecidedBy(rows, now)
  }

  /** The directional open rows of the asset at this instant all point in direction `d`. */
  ghost predicate OpenNowPoint(rows: Table, now: Instant, a: Asset, d: Direction) {
    forall i :: 0 <= i < |rows| && IsOpen(rows[i], a) && rows[i].decidedAt == now && rows[i].direction != Neutral ==>
                  rows[i].direction == d
  }

  /** The asset had no open stance in `base`, or a latest one pointing in direction `d`. */
  ghost predicate FollowsStance(base: Table, a: Asset, d: Direction) {
    || (forall i :: 0 <= i < |base| ==> !IsOpen(base[i], a))
    || (exists k: nat :: IsLatest(base, a, k) && base[k].direction == d)
  }

  /** Propagation has not stored anything for the asset. */
  ghost predicate Untouched(base: Table, rows: Table, now: Instant, a: Asset) {
    && |base| <= |rows|
    && (forall i :: 0 <= i < |base| && base[i].asset == a ==> rows[i] == base[i])
    && (forall i :: |base| <= i < |rows| ==> rows[i].asset != a)
    && exists d :: OpenNowPoint(base, now, a, d)
  }

  /** Propagation has stored stances for the asset, all in direction `d`, which follows the stance the
      asset had before; one of them is open. */
  ghost predicate Settled(base: Table, rows: Table, now: Instant, a: Asset, d: Direction) {
    && |base| <= |rows|
    && (forall i :: |base| <= i < |rows| && rows[i].asset == a ==> rows[i].direction == d)
    && (exists j :: |base| <= j < |rows| && IsOpen(rows[j], a))
    && OpenNowPoint(rows, now, a, d)
    && FollowsStance(base, a, d)
  }

  /** Everything the propagation phase guarantees about the table, as an invariant of each store. */
  ghost predicate Phase(base: Table, rows: Table, now: Instant, banned: set<Asset>) {
    && Grown(base, rows, now, banned)
    && forall a :: a !in banned ==> Untouched(base, rows, now, a) || exists d :: Settled(base, rows, now, a, d)
  }

  /** What storing a propagated stance does: it follows the stance it found, or there was none. */
  lemma PropagatedStore(rows: Table, c: Call, limits: Limits)
    requires c.key.depth > 0 && Store(rows, c, limits).1
    ensures var active := LatestActive(rows, c.key.asset, c.pick);
            && Store(rows, c, limits) == Insert(rows, c, active)
            && (active.Some? ==> rows[active.value].direction == c.direction)
  {
  }

  /** `after` is `rows` with the open stance `active` of the asset withdrawn and one new row. */
  ghost predicate Inserted(rows: Table, after: Table, c: Call, active: Option<nat>) {
    && |after| == |rows| + 1
    && after[|rows|] == Prediction(c.key.asset, c.direction, c.now, c.key, active, Pending)
    && (forall i :: 0 <= i < |rows| ==>
          after[i] == if active == Some(i) then rows[i].(status := Withdrawn) else rows[i])
    && match active
       case Some(k) => IsLatest(rows, c.key.asset, k) && rows[k].direction == c.direction
       case None => forall i :: 0 <= i < |rows| ==> !IsOpen(rows[i], c.key.asset)
  }

  lemma InsertedRows(rows: Table, c: Call, limits: Limits) returns (active: Option<nat>)
    requires c.key.depth > 0 && Store(rows, c, limits).1
    ensures Inserted(rows, Store(rows, c, limits).0, c, active)
  {
    active := LatestActive(rows, c.key.asset, c.pick);
    PropagatedStore(rows, c, limits);
  }

  lemma InsertKeepsOther(base: Table, rows: Table, after: Table, c: Call, active: Option<nat>, now: Instant, a: Asset)
    requires Inserted(rows, after, c, active) && a != c.key.asset
    ensures Untouched(base, rows, now, a) ==> Untouched(base, after, now, a)
    ensures forall d :: Settled(base, rows, now, a, d) ==> Settled(base, after, now, a, d)
  {
    assert forall i :: 0 <= i < |rows| && rows[i].asset == a ==> after[i] == rows[i];
    forall d | Settled(base, rows, now, a, d) ensures Settled(base, after, now, a, d) {
      var j :| |base| <= j < |rows| && IsOpen(rows[j], a);
      assert IsOpen(after[j], a);
    }
  }

  /** After a stored propagation every open row of the asset at this instant points its way. */
  lemma InsertedPoints(rows: Table, after: Table, c: Call, active: Option<nat>, d: Direction)
    requires Inserted(rows, after, c, active) && DecidedBy(rows, c.now) && c.direction != Neutral
    requires OpenNowPoint(rows, c.now, c.key.asset, d)
    ensures OpenNowPoint(after, c.now, c.key.asset, c.direction)
  {
    forall i | 0 <= i < |after| && IsOpen(after[i], c.key.asset) && after[i].decidedAt == c.now
               && after[i].direction != Neutral
      ensures after[i].direction == c.direction
    {
      if i < |rows| {
        assert IsOpen(rows[i], c.key.asset);
        assert rows[active.value].decidedAt == c.now;
      }
    }
  }

  lemma UntouchedBecomesSettled(
    base: Table, rows: Table, after: Table, c: Call, active: Option<nat>, banned: set<Asset>)
    requires Inserted(rows, after, c, active) && Grown(base, rows, c.now, banned)
    requires Untouched(base, rows, c.now, c.key.asset) && c.direction != Neutral
    ensures Settled(base, after, c.now, c.key.asset, c.direction)
  {
    var a := c.key.asset;
    var d :| OpenNowPoint(base, c.now, a, d);
    forall i | 0 <= i < |rows| && IsOpen(rows[i], a) ensures i < |base| && rows[i] == base[i] {
      assert i < |base| ==> rows[i].asset == base[i].asset;
    }
    assert OpenNowPoint(rows, c.now, a, d);
    InsertedPoints(rows, after, c, active, d);
    assert IsOpen(after[|rows|], a);
    if active.Some? {
      assert IsLatest(base, a, active.value);
    } else {
      assert forall i :: 0 <= i < |base| && base[i].asset == a ==> rows[i] == base[i];
    }
  }

  lemma SettledStaysSettled(
    base: Table, rows: Table, after: Table, c: Call, active: Option<nat>, banned: set<Asset>, d: Direction)
    requires Inserted(rows, after, c, active) && Grown(base, rows, c.now, banned)
    requires Settled(base, rows, c.now, c.key.asset, d) && c.direction != Neutral
    ensures c.direction == d && Settled(base, after, c.now, c.key.asset, d)
  {
    var a := c.key.asset;
    var j :| |base| <= j < |rows| && IsOpen(rows[j], a);
    assert rows[j].decidedAt == c.now;
    assert active.Some? && rows[active.value].decidedAt == c.now;
    assert rows[active.value].direction == d;
    InsertedPoints(rows, after, c, active, d);
    assert IsOpen(after[|rows|], a);
  }

  lemma InsertKeepsGrown(base: Table, rows: Table, after: Table, c: Call, active: Option<nat>, banned: set<Asset>)
    requires Inserted(rows, after, c, active) && Grown(base, rows, c.now, banned)
    requires c.key.asset !in banned && c.key.depth > 0 && c.direction != Neutral
    ensures Grown(base, after, c.now, banned)
  {
  }

  lemma InsertKeepsAsset(
    base: Table, rows: Table, after: Table, c: Call, active: Option<nat>, banned: set<Asset>, a: Asset)
    requires Inserted(rows, after, c, active) && Grown(base, rows, c.now, banned) && c.direction != Neutral
    requires Untouched(base, rows, c.now, a) || exists d :: Settled(base, rows, c.now, a, d)
    ensures Untouched(base, after, c.now, a) || exists d :: Settled(base, after, c.now, a, d)
  {
    if a != c.key.asset {
      InsertKeepsOther(base, rows, after, c, active, c.now, a);
    } else if Untouched(base, rows, c.now, a) {
      UntouchedBecomesSettled(base, rows, after, c, active, banned);
    } else {
      var d :| Settled(base, rows, c.now, a, d);
      SettledStaysSettled(base, rows, after, c, active, banned, d);
    }
  }

  /** Any propagated store, refused or carried out, keeps the guarantees of the phase. */
  lemma StoreKeepsPhase(base: Table, rows: Table, c: Call, limits: Limits, banned: set<Asset>)
    requires Phase(base, rows, c.now, banned)
    requires c.key.asset !in banned && c.key.depth > 0 && c.direction != Neutral
    ensures Phase(base, Store(rows, c, limits).0, c.now, banned)
  {
    var after := Store(rows, c, limits).0;
    if Store(rows, c, limits).1 {
      var active := InsertedRows(rows, c, limits);
      InsertKeepsGrown(base, rows, after, c, active, banned);
      forall a | a !in banned
        ensures Untouched(base, after, c.now, a) || exists d :: Settled(base, after, c.now, a, d)
      {
        InsertKeepsAsset(base, rows, after, c, active, banned, a);
      }
    } else {
      assert after == rows;
    }
  }

  // ---- The sweep ----

  ghost predicate Directional(c: Context, s: Settings)
    requires Configured(s)
  {
    DecisionOf(c, s).Decided? && DecisionOf(c, s).decision.direction != Neutral
  }

  /** Some target of some level divides by zero. */
  ghost predicate Breaks(g: Graph, s: Settings)
    requires Configured(s)
  {
    exists level, t :: DividesAt(g, s, level, t)
  }

  ghost predicate DividesAt(g: Graph, s: Settings, level: seq<Node>, t: Asset)
    requires Configured(s)
  {
    Verdict(Effective(EdgesTo(g, level, t), map[], false), s).DividedByZero?
  }

  class PredictionPipeline {
    const repo: PredictionRepository
    const graph: Graph
    const limits: Limits
    const settings: Settings
    const maxDepth: nat
    const minConfidence: real

    constructor (
      repo: PredictionRepository, graph: Graph, limits: Limits, settings: Settings, maxDepth: nat, minConfidence: real)
      ensures this.repo == repo && this.graph == graph && this.limits == limits
      ensures this.settings == settings && this.maxDepth == maxDepth && this.minConfidence == minConfidence
    {
      this.repo, this.graph, this.limits := repo, graph, limits;
      this.settings, this.maxDepth, this.minConfidence := settings, maxDepth, minConfidence;
    }

    /** Whether the market is open and which of several equally recent rows is read is up to the world. */
    method StoreStance(key: Key, direction: Direction, now: Instant) returns (stored: bool, ghost c: Call)
      modifies repo
      ensures c.key == key && c.direction == direction && c.now == now
      ensures (repo.rows, stored) == Store(old(repo.rows), c, limits)
    {
      var open: bool, pick: nat := *, *;
      var call := Call(key, direction, now, open, pick);
      c := call;
      stored := repo.StorePrediction(call, limits);
    }

    /** Decides one target and stores its stance; `taken` is its direction when it was stored. A decision that
        divides by zero aborts the sweep. */
    method DecideTarget(
      target: Asset, edges: seq<Edge>, depth: nat, window: Instant, version: nat, now: Instant,
      ghost banned: set<Asset>, ghost base: Table)
      returns (taken: Option<Direction>, aborted: bool, ghost calls: seq<Call>)
      requires Configured(settings) && depth > 0 && target !in banned
      requires Phase(base, repo.rows, now, banned)
      modifies repo
      ensures Phase(base, repo.rows, now, banned)
      ensures Fulfils(calls, TargetWish(target, Choice(edges, settings), window, version, depth), now)
      ensures repo.rows == Run(old(repo.rows), calls, limits)
      ensures StoredNodes(old(repo.rows), calls, limits) == if taken.Some? then [Node(target, taken.value)] else []
      ensures taken.Some? ==> taken == Choice(edges, settings)
      ensures |repo.rows| == |old(repo.rows)| + if taken.Some? then 1 else 0
      ensures aborted <==> Verdict(Effective(edges, map[], false), settings).DividedByZero?
    {
      var verdict := Decide(edges, map[], false, settings);
      aborted, calls := verdict.DividedByZero?, [];
      if !verdict.Decided? || verdict.decision.direction == Neutral {
        taken := None;
        return;
      }
      var direction := verdict.decision.direction;
      var stored, c := StoreStance(Key(target, window, version, depth), direction, now);
      StoreKeepsPhase(base, old(repo.rows), c, limits, banned);
      StoreGrowsByOne(old(repo.rows), c, limits);
      OneCall(old(repo.rows), c, limits);
      calls := [c];
      taken := if stored then Some(direction) else None;
    }

    /** Decides every target of a level once, from all the edges that reach it. */
    method DecideLevel(
      order: seq<Asset>, inbound: map<Asset, seq<Edge>>, depth: nat, window: Instant, version: nat, now: Instant,
      ghost banned: set<Asset>, ghost base: Table, ghost before: Marks, ghost level: seq<Node>)
      returns (next: seq<Node>, produced: nat, aborted: bool, ghost marks: Marks, ghost calls: seq<Call>)
      requires Configured(settings) && depth > 0
      requires Distinct(order) && forall t :: t in order ==> t in inbound && t !in banned && t !in before
      requires forall t :: t in order ==> inbound[t] == EdgesTo(graph, level, t)
      requires Phase(base, repo.rows, now, banned)
      modifies repo
      ensures Phase(base, repo.rows, now, banned)
      ensures !aborted ==> LevelDecided(before, marks, order, next, level, ChooserOf(graph, settings), depth)
      ensures !aborted ==>
                LevelAsked(old(repo.rows), repo.rows, order, next, level, ChooserOf(graph, settings), window, version,
                           depth, now, limits, calls)
      ensures |repo.rows| == |old(repo.rows)| + produced
      ensures aborted ==> settings.deadband <= 0.0 && Breaks(graph, settings)
    {
      next, produced, aborted, marks, calls := [], 0, false, before, [];
      ghost var choose := ChooserOf(graph, settings);
      for i := 0 to |order|
        invariant Phase(base, repo.rows, now, banned)
        invariant LevelDecided(before, marks, order[..i], next, level, choose, depth)
        invariant LevelAsked(old(repo.rows), repo.rows, order[..i], next, level, choose, window, version, depth, now,
                             limits, calls)
        invariant |repo.rows| == |old(repo.rows)| + produced
      {
        var target := order[i];
        NextInOrder(order, i);
        ghost var rows := repo.rows;
        var taken, failed, asked := DecideTarget(target, inbound[target], depth, window, version, now, banned, base);
        if failed {
          DividesByZeroExactlyWhen(Effective(inbound[target], map[], false), settings);
          assert DividesAt(graph, settings, level, target);
          aborted := true;
          return;
        }
        LevelStep(before, marks, order[..i], next, level, choose, depth, target, taken);
        LevelAskedStep(old(repo.rows), rows, order[..i], next, level, choose, window, version, depth, now, limits,
                       calls, target, repo.rows, asked, StoredNodes(rows, asked, limits));
        marks, calls := marks[target := Mark(depth, taken)], calls + asked;
        if taken.Some? {
          produced := produced + 1;
          next := next + [Node(target, taken.value)];
        }
      }
      assert order[..|order|] == order;
    }

    /** One level: collect all inbound edges of every unvisited target, then decide each target once. */
    method PropagateLevel(
      level: seq<Node>, visited: set<Asset>, depth: nat, window: Instant, version: nat, now: Instant,
      ghost banned: set<Asset>, ghost base: Table, ghost before: Marks)
      returns (next: seq<Node>, order: seq<Asset>, produced: nat, aborted: bool, ghost marks: Marks,
               ghost inbound: map<Asset, seq<Edge>>, ghost calls: seq<Call>)
      requires Configured(settings) && visited == banned + before.Keys
      requires Phase(base, repo.rows, now, banned)
      modifies repo
      ensures Phase(base, repo.rows, now, banned)
      ensures |repo.rows| == |old(repo.rows)| + produced
      ensures Collected(order, inbound, visited, Inbound(graph, level)) && order == LevelOrder(graph, level, visited)
      ensures !aborted ==> LevelDecided(before, marks, order, next, level, ChooserOf(graph, settings), depth + 1)
      ensures !aborted ==>
                LevelAsked(old(repo.rows), repo.rows, order, next, level, ChooserOf(graph, settings), window, version,
                           depth + 1, now, limits, calls)
      ensures aborted ==> settings.deadband <= 0.0 && Breaks(graph, settings)
    {
      var targets, arrivals := CollectInbound(graph, level, visited);
      TargetsAreNew(graph, level, visited, targets, arrivals);
      order, inbound := targets, arrivals;
      next, produced, aborted, marks, calls := DecideLevel(
        order, arrivals, depth + 1, window, version, now, banned, base, before, level);
    }

    /** Propagates one direct decision level by level, never beyond the depth cap. `marks` and `levels` record the
        levels that were completed, and `waves` what each of them asked of the table. */
    method RunPropagation(
      root: Node, window: Instant, version: nat, now: Instant, banned: set<Asset>, ghost base: Table)
      returns (produced: nat, aborted: bool, ghost marks: Marks, ghost levels: seq<seq<Node>>,
               ghost waves: seq<seq<Call>>)
      requires Configured(settings) && root.asset in banned
      requires Phase(base, repo.rows, now, banned)
      modifies repo
      ensures Phase(base, repo.rows, now, banned)
      ensures |repo.rows| == |old(repo.rows)| + produced
      ensures Layered(graph, root, banned, marks, maxDepth)
      ensures !aborted ==> Saturated(graph, root, banned, marks, maxDepth)
      ensures Recorded(root, marks, levels, ChooserOf(graph, settings))
      ensures var start := Stage(banned, [root], 0, old(repo.rows));
              var end := StageAfter(graph, limits, start, waves);
              && ProperWaves(graph, settings, limits, start, waves, window, version, now, maxDepth)
              && (!aborted ==> Exhausted(end, maxDepth) && repo.rows == end.rows)
      ensures aborted ==> settings.deadband <= 0.0 && Breaks(graph, settings)
    {
      var visited, level, depth := banned, [root], 0;
      produced, aborted, marks, levels, waves := 0, false, map[], [level], [];
      ghost var start := Stage(banned, [root], 0, repo.rows);
      RootIsRecorded(graph, root, banned, ChooserOf(graph, settings));
      while level != [] && depth < maxDepth
        invariant depth <= maxDepth && visited == banned + marks.Keys
        invariant Covered(graph, root, banned, marks, levels, ChooserOf(graph, settings), level, depth)
        invariant Phase(base, repo.rows, now, banned)
        invariant |repo.rows| == |old(repo.rows)| + produced
        invariant Underway(graph, settings, limits, start, waves, window, version, now, maxDepth,
                           Stage(visited, level, depth, repo.rows))
        decreases maxDepth - depth
      {
        ghost var rows := repo.rows;
        var next, order, stored, failed, after, inbound, calls := PropagateLevel(
          level, visited, depth, window, version, now, banned, base, marks);
        if failed {
          LayeredBelow(graph, root, banned, marks, depth, maxDepth);
          return produced + stored, true, marks, levels, waves;
        }
        CoversMore(
          graph, root, banned, marks, after, levels, order, inbound, next, ChooserOf(graph, settings), level, depth);
        VisitedGrows(banned, marks, after, order, depth + 1);
        WaveTaken(graph, settings, limits, start, waves, calls, window, version, now, maxDepth,
                  visited, level, depth, rows, order, next, repo.rows);
        marks, levels, waves := after, levels + [next], waves + [calls];
        visited, level, depth, produced := visited + (set t | t in order), next, depth + 1, produced + stored;
      }
      LayeredBelow(graph, root, banned, marks, depth, maxDepth);
      if level == [] {
        EmptyLevelSaturates(graph, root, banned, marks, levels, depth, maxDepth);
      }
    }

    /** Decides one context from its causal edges and stores the stance. */
    method DecideContext(c: Context, now: Instant, ghost before: Table, ghost direct: set<Asset>)
      returns (waiting: seq<Deferred>, stored: bool, failed: bool, ghost calls: seq<Call>)
      requires Configured(settings) && DirectlyGrown(before, repo.rows, now, direct)
      modifies repo
      ensures failed <==> DecisionOf(c, settings).DividedByZero?
      ensures Fulfils(calls, DirectWish(c, settings), now)
      ensures repo.rows == Run(old(repo.rows), calls, limits)
      ensures waiting == DirectDeferred(c, settings)
      ensures DirectlyGrown(before, repo.rows, now, if waiting == [] then direct else direct + {c.asset})
      ensures |repo.rows| == |old(repo.rows)| + if stored then 1 else 0
    {
      waiting, stored, failed, calls := [], false, false, [];
      if c.edges.None? {
        return;
      }
      var verdict := Decide(c.edges.value, c.polarities, c.elevated, settings);
      failed := verdict.DividedByZero?;
      if !verdict.Decided? {
        return;
      }
      var direction := verdict.decision.direction;
      ghost var call;
      stored, call := StoreStance(Key(c.asset, c.window, c.version, 0), direction, now);
      DirectStoreGrows(before, old(repo.rows), call, limits, direct);
      StoreGrowsByOne(old(repo.rows), call, limits);
      OneCall(old(repo.rows), call, limits);
      calls := [call];
      if direction != Neutral {
        waiting := [Deferred(Node(c.asset, direction), c.window, c.version, verdict.decision.confidence)];
      }
    }

    /** Pass 0: every direct decision of the batch is made and stored before anything propagates. The pass stops at a
        context that divides by zero; `decided` contexts come before it. */
    method DecideDirect(contexts: seq<Context>, now: Instant)
      returns (deferred: seq<Deferred>, direct: set<Asset>, produced: nat, aborted: bool, decided: nat,
               ghost calls: seq<Call>)
      requires Configured(settings) && OneDirectionNow(repo.rows, now)
      modifies repo
      ensures StopsAt(contexts, settings, decided) && (aborted <==> decided < |contexts|)
      ensures DirectAsked(
                old(repo.rows), repo.rows, contexts[..decided], deferred, settings, now, limits, calls)
      ensures DirectSet(contexts[..decided], deferred, direct, settings)
      ensures DirectlyGrown(old(repo.rows), repo.rows, now, direct)
      ensures |repo.rows| == |old(repo.rows)| + produced
      ensures aborted ==> settings.deadband <= 0.0
    {
      deferred, direct, produced, aborted, decided, calls := [], {}, 0, false, 0, [];
      ghost var done: seq<Context> := [];
      while decided < |contexts|
        invariant decided <= |contexts| && done == contexts[..decided]
        invariant DirectDone(old(repo.rows), repo.rows, done, deferred, direct, settings, now, limits, calls)
        invariant DirectlyGrown(old(repo.rows), repo.rows, now, direct)
        invariant |repo.rows| == |old(repo.rows)| + produced
        decreases |contexts| - decided
      {
        var context := contexts[decided];
        ghost var rows := repo.rows;
        var waiting, stored, failed, asked := DecideContext(context, now, old(repo.rows), direct);
        if failed {
          FailsOnlyWithoutDeadband(context, settings);
          StopsHere(contexts, settings, decided);
          aborted := true;
          return;
        }
        TakesNext(contexts, decided);
        DirectDoneStep(old(repo.rows), rows, done, deferred, direct, settings, now, limits, calls, context, repo.rows,
                       asked, waiting);
        calls, deferred, done := calls + asked, deferred + waiting, done + [context];
        if waiting != [] {
          direct := direct + {context.asset};
        }
        if stored {
          produced := produced + 1;
        }
        decided := decided + 1;
      }
      EndsDecided(contexts, settings);
    }

    /** One sweep. `mid` is the table after the direct pass; everything after it is propagation, one journey for each
        direct decision that is confident enough. */
    method CloseReadyContexts(contexts: seq<Context>, now: Instant)
      returns (produced: nat, aborted: bool, ghost decided: nat, ghost calls: seq<Call>, ghost mid: Table,
               ghost direct: set<Asset>, ghost journeys: seq<seq<seq<Call>>>)
      requires Configured(settings) && OneDirectionNow(repo.rows, now)
      modifies repo
      ensures StopsAt(contexts, settings, decided)
      ensures Fulfils(calls, DirectWishes(contexts[..decided], settings), now)
      ensures mid == Run(old(repo.rows), calls, limits)
      ensures forall a :: a in direct <==> IsDirect(contexts[..decided], settings, a)
      ensures !aborted ==>
                && decided == |contexts|
                && Propagated(graph, settings, limits, direct, mid, repo.rows, DeferredOf(contexts, settings),
                              minConfidence, journeys, now, maxDepth)
      ensures DirectlyGrown(old(repo.rows), mid, now, direct)
      ensures Phase(mid, repo.rows, now, direct)
      ensures |repo.rows| == |old(repo.rows)| + produced
      ensures aborted ==> settings.deadband <= 0.0 && (decided < |contexts| || Breaks(graph, settings))
    {
      var deferred, directAssets, stored, failed, count, asked := DecideDirect(contexts, now);
      produced, aborted, mid, direct := stored, failed, repo.rows, directAssets;
      decided, calls, journeys := count, asked, [];
      PhaseStarts(old(repo.rows), mid, now, direct);
      if aborted {
        return;
      }
      assert contexts[..decided] == contexts;
      for i := 0 to |deferred|
        invariant Phase(mid, repo.rows, now, direct)
        invariant |repo.rows| == |old(repo.rows)| + produced
        invariant Propagated(graph, settings, limits, direct, mid, repo.rows, deferred[..i], minConfidence, journeys,
                             now, maxDepth)
      {
        var d := deferred[i];
        TakesNext(deferred, i);
        ghost var rows, waves := repo.rows, [];
        if d.confidence >= minConfidence {
          var visited := {d.root.asset} + directAssets;
          assert visited == direct;
          var more, broken, _, _, path := RunPropagation(d.root, d.window, d.version, now, visited, mid);
          produced, waves := produced + more, path;
          if broken {
            aborted := true;
            return;
          }
        }
        PropagatedStep(graph, settings, limits, direct, mid, rows, deferred[..i], minConfidence, journeys, now,
                       maxDepth, d, waves, repo.rows);
        journeys := if d.confidence >= minConfidence then journeys + [waves] else journeys;
      }
      assert deferred[..|deferred|] == deferred;
    }
  }

  /** No stance is from the future, and the stances an asset took at this very instant do not contradict each
      other; a table with none from this instant always qualifies. */
  ghost predicate OneDirectionNow(rows: Table, now: Instant) {
    DecidedBy(rows, now) && forall a :: PointsOneWay(rows, now, a)
  }

  ghost predicate PointsOneWay(rows: Table, now: Instant, a: Asset) {
    exists d :: OpenNowPoint(rows, now, a, d)
  }

  /** Some context of the batch decides the asset up or down from its own causal edges. */
  ghost predicate IsDirect(contexts: seq<Context>, s: Settings, a: Asset)
    requires Configured(s)
  {
    exists c :: c in contexts && c.asset == a && Directional(c, s)
  }

  lemma IsDirectStep(contexts: seq<Context>, c: Context, s: Settings)
    requires Configured(s)
    ensures forall a :: IsDirect(contexts + [c], s, a) <==>
                          IsDirect(contexts, s, a) || (c.asset == a && Directional(c, s))
  {
    forall a
      ensures IsDirect(contexts + [c], s, a) <==> IsDirect(contexts, s, a) || (c.asset == a && Directional(c, s))
    {
      if IsDirect(contexts, s, a) {
        var x :| x in contexts && x.asset == a && Directional(x, s);
        assert x in contexts + [c];
      }
      if c.asset == a && Directional(c, s) {
        assert c in contexts + [c];
      }
    }
  }

  /** The assets decided directly are those of the contexts that decide, and of what waits to propagate. */
  ghost predicate DirectSet(contexts: seq<Context>, deferred: seq<Deferred>, direct: set<Asset>, s: Settings)
    requires Configured(s)
  {
    && (forall a :: a in direct <==> IsDirect(contexts, s, a))
    && (forall d :: d in deferred ==> d.root.asset in direct && d.root.direction != Neutral)
  }

  lemma DirectSetStep(contexts: seq<Context>, deferred: seq<Deferred>, direct: set<Asset>, s: Settings, c: Context)
    requires Configured(s) && DirectSet(contexts, deferred, direct, s)
    ensures var waiting := DirectDeferred(c, s);
            && (waiting != [] <==> Directional(c, s))
            && DirectSet(contexts + [c], deferred + waiting, if waiting == [] then direct else direct + {c.asset}, s)
  {
    IsDirectStep(contexts, c, s);
  }

  ghost predicate AllDecidable(contexts: seq<Context>, s: Settings)
    requires Configured(s)
  {
    forall c :: c in contexts ==> !DecisionOf(c, s).DividedByZero?
  }

  /** The direct pass over the contexts so far. */
  ghost predicate DirectDone(
    start: Table, rows: Table, contexts: seq<Context>, deferred: seq<Deferred>, direct: set<Asset>, s: Settings,
    now: Instant, limits: Limits, calls: seq<Call>)
    requires Configured(s)
  {
    && AllDecidable(contexts, s) && DirectSet(contexts, deferred, direct, s)
    && DirectAsked(start, rows, contexts, deferred, s, now, limits, calls)
  }

  lemma DirectDoneStep(
    start: Table, rows: Table, contexts: seq<Context>, deferred: seq<Deferred>, direct: set<Asset>, s: Settings,
    now: Instant, limits: Limits, calls: seq<Call>, c: Context, after: Table, asked: seq<Call>, waiting: seq<Deferred>)
    requires Configured(s) && DirectDone(start, rows, contexts, deferred, direct, s, now, limits, calls)
    requires !DecisionOf(c, s).DividedByZero? && waiting == DirectDeferred(c, s)
    requires Fulfils(asked, DirectWish(c, s), now) && after == Run(rows, asked, limits)
    ensures DirectDone(start, after, contexts + [c], deferred + waiting,
                       if waiting == [] then direct else direct + {c.asset}, s, now, limits, calls + asked)
  {
    DirectAskedStep(start, rows, contexts, deferred, s, now, limits, calls, c, after, asked);
    DirectSetStep(contexts, deferred, direct, s, c);
  }

  lemma StopsHere(contexts: seq<Context>, s: Settings, k: nat)
    requires Configured(s) && k < |contexts|
    requires AllDecidable(contexts[..k], s) && DecisionOf(contexts[k], s).DividedByZero?
    ensures StopsAt(contexts, s, k)
  {
    forall i | 0 <= i < k ensures !DecisionOf(contexts[i], s).DividedByZero? {
      assert contexts[i] in contexts[..k];
    }
  }

  lemma EndsDecided(contexts: seq<Context>, s: Settings)
    requires Configured(s) && AllDecidable(contexts[..|contexts|], s)
    ensures StopsAt(contexts, s, |contexts|)
  {
    forall i | 0 <= i < |contexts| ensures !DecisionOf(contexts[i], s).DividedByZero? {
      assert contexts[i] in contexts[..|contexts|];
    }
  }

  lemma FailsOnlyWithoutDeadband(c: Context, s: Settings)
    requires Configured(s) && DecisionOf(c, s).DividedByZero?
    ensures s.deadband <= 0.0
  {
    DividesByZeroExactlyWhen(Effective(c.edges.value, c.polarities, c.elevated), s);
  }

  /** The direct pass keeps the old rows, adds rows of depth zero, and every directional row it adds
      belongs to a directly decided asset. */
  ghost predicate DirectlyGrown(before: Table, rows: Table, now: Instant, direct: set<Asset>) {
    && |before| <= |rows|
    && (forall i :: 0 <= i < |before| ==>
          rows[i] == before[i] || (before[i].status == Pending && rows[i] == before[i].(status := Withdrawn)))
    && (forall i :: |before| <= i < |rows| ==>
          && rows[i].decidedAt == now && rows[i].key.depth == 0
          && (rows[i].asset in direct || rows[i].direction == Neutral))
    && OneDirectionNow(before, now)
  }

  lemma DirectStoreGrows(before: Table, rows: Table, c: Call, limits: Limits, direct: set<Asset>)
    requires DirectlyGrown(before, rows, c.now, direct) && c.key.depth == 0
    ensures var direct' := if c.direction == Neutral then direct else direct + {c.key.asset};
            DirectlyGrown(before, Store(rows, c, limits).0, c.now, direct')
  {
    StoreAddsAtMostOne(rows, c, limits);
  }

  /** A store leaves the rows as they are or withdrawn, and adds at most the row it was asked for. */
  lemma StoreAddsAtMostOne(rows: Table, c: Call, limits: Limits)
    ensures var after := Store(rows, c, limits).0;
            && |rows| <= |after| <= |rows| + 1
            && (forall i :: 0 <= i < |rows| ==>
                  after[i] == rows[i] || (rows[i].status == Pending && after[i] == rows[i].(status := Withdrawn)))
            && (|after| == |rows| + 1 ==>
                  && after[|rows|].asset == c.key.asset && after[|rows|].key == c.key
                  && after[|rows|].decidedAt == c.now && after[|rows|].direction == c.direction)
  {
  }

  lemma PhaseStarts(before: Table, mid: Table, now: Instant, direct: set<Asset>)
    requires DirectlyGrown(before, mid, now, direct)
    ensures Phase(mid, mid, now, direct)
  {
    forall a | a !in direct ensures Untouched(mid, mid, now, a) {
      assert PointsOneWay(before, now, a);
      var d :| OpenNowPoint(before, now, a, d);
      forall i | 0 <= i < |mid| && IsOpen(mid[i], a) && mid[i].decidedAt == now && mid[i].direction != Neutral
        ensures mid[i].direction == d
      {
        assert i < |before| && mid[i] == before[i];
      }
      assert OpenNowPoint(mid, now, a, d);
    }
    assert DecidedBy(mid, now);
  }

  /** What a sweep guarantees about any two propagated stances of one asset, and about the stance the
      asset held when propagation began. */
  lemma PropagatedStancesAgree(mid: Table, rows: Table, now: Instant, direct: set<Asset>, i: nat, j: nat)
    requires Phase(mid, rows, now, direct)
    requires |mid| <= i < |rows| && |mid| <= j < |rows| && rows[i].asset == rows[j].asset
    ensures rows[i].direction == rows[j].direction
    ensures rows[i].asset !in direct
    ensures FollowsStance(mid, rows[i].asset, rows[i].direction)
  {
    assert !Untouched(mid, rows, now, rows[i].asset);
    var d :| Settled(mid, rows, now, rows[i].asset, d);
  }

  /** The targets of `order` were each decided once at this depth; `next` holds those that were stored,
      each in its decided direction. */
  ghost predicate LevelDecided(
    before: Marks, marks: Marks, order: seq<Asset>, next: seq<Node>, level: seq<Node>, choose: Chooser, depth: nat)
  {
    && Extended(before, marks, order, depth)
    && (forall n :: n in next <==> n.asset in order && marks[n.asset].stored == Some(n.direction))
    && (forall t :: t in order && marks[t].stored.Some? ==> marks[t].stored == choose(level, t))
  }

  lemma NextInOrder(order: seq<Asset>, i: nat)
    requires Distinct(order) && i < |order|
    ensures order[i] in order && order[i] !in order[..i] && order[..i + 1] == order[..i] + [order[i]]
  {
  }

  lemma LevelStep(
    before: Marks, marks: Marks, order: seq<Asset>, next: seq<Node>, level: seq<Node>, choose: Chooser, depth: nat,
    target: Asset, taken: Option<Direction>)
    requires LevelDecided(before, marks, order, next, level, choose, depth)
    requires target !in order && target !in before
    requires taken.Some? ==> taken == choose(level, target)
    ensures LevelDecided(
              before, marks[target := Mark(depth, taken)], order + [target],
              if taken.Some? then next + [Node(target, taken.value)] else next, level, choose, depth)
  {
    var marks', order' := marks[target := Mark(depth, taken)], order + [target];
    assert forall t :: t in order' <==> t in order || t == target;
    if taken.Some? {
      var last := Node(target, taken.value);
      assert forall n :: n in next + [last] <==> n in next || n == last;
    }
  }

  lemma StoreGrowsByOne(rows: Table, c: Call, limits: Limits)
    ensures |Store(rows, c, limits).0| == |rows| + if Store(rows, c, limits).1 then 1 else 0
  {
  }

  /** `levels[k]` holds the stances stored at depth `k`, and every stored direction is the one decided
      from all the edges the level above sends to the target. */
  ghost predicate Recorded(root: Node, marks: Marks, levels: seq<seq<Node>>, choose: Chooser) {
    && (forall k :: 0 <= k < |levels| ==> IsLevel(root, marks, levels[k], k))
    && (forall t :: t in marks ==> 1 <= marks[t].depth < |levels|)
    && (forall t :: t in marks && marks[t].stored.Some? ==>
          marks[t].stored == choose(levels[marks[t].depth - 1], t))
  }

  lemma RootIsRecorded(g: Graph, root: Node, banned: set<Asset>, choose: Chooser)
    requires root.asset in banned
    ensures Layered(g, root, banned, map[], 0) && Saturated(g, root, banned, map[], 0)
    ensures Recorded(root, map[], [[root]], choose)
  {
  }

  lemma LayeredBelow(g: Graph, root: Node, banned: set<Asset>, marks: Marks, d: nat, cap: nat)
    requires Layered(g, root, banned, marks, d) && d <= cap
    ensures Layered(g, root, banned, marks, cap)
  {
  }

  lemma TargetsAreNew(
    g: Graph, level: seq<Node>, visited: set<Asset>, order: seq<Asset>, inbound: map<Asset, seq<Edge>>)
    requires Collected(order, inbound, visited, Inbound(g, level))
    ensures Distinct(order) && forall t :: t in order ==> t in inbound && t !in visited
    ensures forall t :: t in order ==> inbound[t] == EdgesTo(g, level, t)
  {
  }

  lemma RecordedStep(
    root: Node, banned: set<Asset>, before: Marks, marks: Marks,
    levels: seq<seq<Node>>, order: seq<Asset>, next: seq<Node>, choose: Chooser, d: nat)
    requires |levels| == d + 1 && root.asset in banned
    requires Recorded(root, before, levels, choose)
    requires forall t :: t in order ==> t !in banned && t !in before
    requires LevelDecided(before, marks, order, next, levels[d], choose, d + 1)
    ensures Recorded(root, marks, levels + [next], choose)
  {
    var levels' := levels + [next];
    forall k: nat | k < |levels'| ensures IsLevel(root, marks, levels'[k], k) {
      LevelPersists(root, banned, before, marks, levels, order, next, choose, d, k);
    }
    forall t | t in marks
      ensures 1 <= marks[t].depth < |levels'|
      ensures marks[t].stored.Some? ==> marks[t].stored == choose(levels'[marks[t].depth - 1], t)
    {
      if t in before {
        assert levels'[before[t].depth - 1] == levels[before[t].depth - 1];
      } else {
        assert t in order && levels'[d] == levels[d];
      }
    }
  }

  /** Deciding the collected targets of a level completes the next level. */
  lemma CompleteLevel(
    g: Graph, root: Node, banned: set<Asset>, before: Marks, marks: Marks, levels: seq<seq<Node>>,
    order: seq<Asset>, inbound: map<Asset, seq<Edge>>, next: seq<Node>, choose: Chooser, d: nat)
    requires |levels| == d + 1
    requires Layered(g, root, banned, before, d) && Saturated(g, root, banned, before, d)
    requires Recorded(root, before, levels, choose)
    requires Collected(order, inbound, banned + before.Keys, Inbound(g, levels[d]))
    requires LevelDecided(before, marks, order, next, levels[d], choose, d + 1)
    ensures Layered(g, root, banned, marks, d + 1) && Saturated(g, root, banned, marks, d + 1)
    ensures Recorded(root, marks, levels + [next], choose)
  {
    CollectedIsBetween(g, root, banned, before, marks, levels[d], order, inbound, d);
    NextLevel(g, root, banned, before, marks, levels[d], order, d);
    RecordedStep(root, banned, before, marks, levels, order, next, choose, d);
  }

  /** Everything down to depth `d` is decided at its shortest distance and recorded; `level` is the last level. */
  ghost predicate Covered(
    g: Graph, root: Node, banned: set<Asset>, marks: Marks, levels: seq<seq<Node>>, choose: Chooser, level: seq<Node>,
    d: nat)
  {
    && |levels| == d + 1 && levels[d] == level
    && Layered(g, root, banned, marks, d) && Saturated(g, root, banned, marks, d)
    && Recorded(root, marks, levels, choose)
  }

  lemma CoversMore(
    g: Graph, root: Node, banned: set<Asset>, before: Marks, marks: Marks, levels: seq<seq<Node>>,
    order: seq<Asset>, inbound: map<Asset, seq<Edge>>, next: seq<Node>, choose: Chooser, level: seq<Node>, d: nat)
    requires Covered(g, root, banned, before, levels, choose, level, d)
    requires Collected(order, inbound, banned + before.Keys, Inbound(g, level))
    requires LevelDecided(before, marks, order, next, level, choose, d + 1)
    ensures Covered(g, root, banned, marks, levels + [next], choose, next, d + 1)
  {
    CompleteLevel(g, root, banned, before, marks, levels, order, inbound, next, choose, d);
  }

  lemma VisitedGrows(banned: set<Asset>, before: Marks, marks: Marks, order: seq<Asset>, d: nat)
    requires Extended(before, marks, order, d)
    ensures banned + before.Keys + (set t | t in order) == banned + marks.Keys
  {
  }

  lemma LevelPersists(
    root: Node, banned: set<Asset>, before: Marks, marks: Marks, levels: seq<seq<Node>>, order: seq<Asset>,
    next: seq<Node>, choose: Chooser, d: nat, k: nat)
    requires |levels| == d + 1 && k <= d + 1 && root.asset in banned
    requires forall t :: t in order ==> t !in banned && t !in before
    requires forall t :: t in before ==> 1 <= before[t].depth <= d
    requires LevelDecided(before, marks, order, next, levels[d], choose, d + 1)
    requires k <= d ==> IsLevel(root, before, levels[k], k)
    ensures IsLevel(root, marks, (levels + [next])[k], k)
  {
    var level := (levels + [next])[k];
    forall n
      ensures n in level <==>
              Taken(root, marks, n.asset) == Some(n.direction) && DepthOf(root, marks, n.asset) == k
    {
      if k == d + 1 {
        assert n in next <==> n.asset in order && marks[n.asset].stored == Some(n.direction);
      } else {
        assert n in levels[k] <==>
               Taken(root, before, n.asset) == Some(n.direction) && DepthOf(root, before, n.asset) == k;
      }
    }
  }

  /** When a level stores nothing there is nothing left to fire. */
  lemma EmptyLevelSaturates(
    g: Graph, root: Node, banned: set<Asset>, marks: Marks, levels: seq<seq<Node>>, d: nat, cap: nat)
    requires d <= cap && |levels| == d + 1 && levels[d] == []
    requires Layered(g, root, banned, marks, d) && Saturated(g, root, banned, marks, d)
    requires IsLevel(root, marks, levels[d], d)
    ensures Saturated(g, root, banned, marks, cap)
  {
    forall a, t | Fires(g, root, marks, a, t)
      ensures DepthOf(root, marks, a) < d
    {
      assert Node(a, Taken(root, marks, a).value) !in levels[d];
    }
  }

  /** That condition is needed: where an asset took two opposite stances at this instant, the database may pick
      either, and two propagated stores leave it with both directions. */
  lemma TiedStancesCanSplit(rows: Table, up: nat, down: nat, first: Key, second: Key, now: Instant, limits: Limits)
    requires DecidedBy(rows, now) && up < |rows| && down < |rows| && first.asset == second.asset
    requires IsOpen(rows[up], first.asset) && rows[up].decidedAt == now && rows[up].direction == Up
    requires IsOpen(rows[down], first.asset) && rows[down].decidedAt == now && rows[down].direction == Down
    requires first.depth > 0 && second.depth > 0 && first != second && !HasKey(rows, first) && !HasKey(rows, second)
    ensures var once := Store(rows, Call(first, Up, now, false, up), limits).0;
            var twice := Store(once, Call(second, Down, now, false, down), limits).0;
            && |twice| == |rows| + 2
            && twice[|rows|].asset == twice[|rows| + 1].asset == first.asset
            && twice[|rows|].direction == Up && twice[|rows| + 1].direction == Down
  {
    var once := Store(rows, Call(first, Up, now, false, up), limits).0;
    assert IsLatest(rows, first.asset, up);
    assert once[down] == rows[down] && IsLatest(once, first.asset, down);
    assert !HasKey(once, second);
  }
}
