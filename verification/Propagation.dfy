/**
 The close sweep: direct decisions are stored first, then each one is propagated level by level over
 correlation edges. Every level gathers all edges reaching a target before deciding it once.
 */
module Propagation {
  import opened Wrappers
  import opened Sequences
  import opened Directions
  import opened Decisions
  import opened Stances

  datatype CorrelationEdge = CorrelationEdge(target: Asset, edge: Edge)

  /** An asset that took a direction; its correlation edges fire under the matching upstream condition. */
  datatype Node = Node(asset: Asset, direction: Direction)

  /** The correlation edges a node fires, or `None` when the graph cannot be read. */
  type Graph = Node -> Option<seq<CorrelationEdge>>

  function Out(g: Graph, n: Node): seq<CorrelationEdge> {
    if g(n).None? then [] else g(n).value
  }

  /** The graph can be read, and one of the node's edges leads to the target. */
  ghost predicate Linked(g: Graph, n: Node, target: Asset) {
    g(n).Some? && exists i :: 0 <= i < |g(n).value| && g(n).value[i].target == target
  }

  function Reaching(edges: seq<CorrelationEdge>, target: Asset): seq<Edge> {
    Gather(edges, (e: CorrelationEdge) => if e.target == target then [e.edge] else [])
  }

  /** Every edge from the nodes of a level to one target, in reading order. */
  function EdgesTo(g: Graph, level: seq<Node>, target: Asset): seq<Edge> {
    Gather(level, (n: Node) => Reaching(Out(g, n), target))
  }

  lemma EdgesToStep(g: Graph, level: seq<Node>, i: nat, target: Asset)
    requires i < |level|
    ensures EdgesTo(g, level[..i + 1], target) == EdgesTo(g, level[..i], target) + Reaching(Out(g, level[i]), target)
  {
    var f := (n: Node) => Reaching(Out(g, n), target);
    assert level[..i + 1] == level[..i] + [level[i]];
    GatherConcat(level[..i], [level[i]], f);
    assert Gather([level[i]], f) == f(level[i]) + Gather<Node, Edge>([], f) == f(level[i]);
  }

  lemma ReachingStep(edges: seq<CorrelationEdge>, j: nat, target: Asset)
    requires j < |edges|
    ensures Reaching(edges[..j + 1], target) ==
            Reaching(edges[..j], target) + if edges[j].target == target then [edges[j].edge] else []
  {
    var f := (e: CorrelationEdge) => if e.target == target then [e.edge] else [];
    assert edges[..j + 1] == edges[..j] + [edges[j]];
    GatherConcat(edges[..j], [edges[j]], f);
    assert Gather([edges[j]], f) == f(edges[j]) + Gather<CorrelationEdge, Edge>([], f) == f(edges[j]);
  }

  lemma {:induction false} ReachingHits(edges: seq<CorrelationEdge>, target: Asset)
    ensures Reaching(edges, target) != [] <==> exists i :: 0 <= i < |edges| && edges[i].target == target
  {
    if edges != [] {
      var n := |edges| - 1;
      ReachingHits(edges[..n], target);
      ReachingStep(edges, n, target);
      assert edges[..n + 1] == edges;
      if Reaching(edges[..n], target) != [] {
        var i :| 0 <= i < n && edges[..n][i].target == target;
        assert edges[i].target == target;
      }
      if i :| 0 <= i < |edges| && edges[i].target == target {
        assert i == n || edges[..n][i].target == target;
      }
    }
  }

  /** A target has inbound edges exactly when some node of the level is linked to it. */
  lemma {:induction false} EdgesToHits(g: Graph, level: seq<Node>, target: Asset)
    ensures EdgesTo(g, level, target) != [] <==> exists n :: n in level && Linked(g, n, target)
  {
    if level != [] {
      var k := |level| - 1;
      var rest, last := level[..k], level[k];
      EdgesToHits(g, rest, target);
      EdgesToStep(g, level, k, target);
      assert level[..k + 1] == level == rest + [last];
      ReachingHits(Out(g, last), target);
      assert Linked(g, last, target) <==> Reaching(Out(g, last), target) != [];
      if n :| n in level && Linked(g, n, target) {
        assert n in rest || n == last;
      }
      if n :| n in rest && Linked(g, n, target) {
        assert n in level;
      }
    }
  }

  /** The collected edges of every unvisited target are those `f` lists; targets without any are absent. */
  ghost predicate Collected(
    order: seq<Asset>, inbound: map<Asset, seq<Edge>>, visited: set<Asset>, f: Asset -> seq<Edge>)
  {
    && Distinct(order)
    && (forall t :: t in order <==> t in inbound)
    && (forall t :: t in inbound <==> t !in visited && f(t) != [])
    && (forall t :: t in inbound ==> inbound[t] == f(t))
  }

  lemma CollectedAlike(
    order: seq<Asset>, inbound: map<Asset, seq<Edge>>, visited: set<Asset>, f: Asset -> seq<Edge>,
    f': Asset -> seq<Edge>)
    requires Collected(order, inbound, visited, f)
    requires forall t :: f(t) == f'(t)
    ensures Collected(order, inbound, visited, f')
  {
  }

  lemma ArrivalCollected(
    order: seq<Asset>, inbound: map<Asset, seq<Edge>>, visited: set<Asset>, f: Asset -> seq<Edge>,
    target: Asset, e: Edge, f': Asset -> seq<Edge>)
    requires Collected(order, inbound, visited, f)
    requires forall t :: f'(t) == f(t) + if t == target then [e] else []
    ensures target in visited ==> Collected(order, inbound, visited, f')
    ensures target !in visited && target in inbound ==>
              Collected(order, inbound[target := inbound[target] + [e]], visited, f')
    ensures target !in visited && target !in inbound ==>
              Collected(order + [target], inbound[target := [e]], visited, f')
  {
    forall t | t != target ensures f'(t) == f(t) {
      assert f'(t) == f(t) + [];
    }
    assert f'(target) == f(target) + [e];
  }

  function Inbound(g: Graph, level: seq<Node>): Asset -> seq<Edge> {
    t => EdgesTo(g, level, t)
  }

  function Joined(f: Asset -> seq<Edge>, edges: seq<CorrelationEdge>): Asset -> seq<Edge> {
    t => f(t) + Reaching(edges, t)
  }

  // ---- The order of the targets ----

  function Names(edges: seq<CorrelationEdge>): seq<Asset> {
    Gather(edges, (e: CorrelationEdge) => [e.target])
  }

  /** What the nodes of a level fire at, in reading order. */
  function Targets(g: Graph, level: seq<Node>): seq<Asset> {
    Gather(level, (n: Node) => Names(Out(g, n)))
  }

  /** The first occurrence of each unvisited target. */
  function Firsts(targets: seq<Asset>, visited: set<Asset>): seq<Asset> {
    if targets == [] then []
    else
      var before, last := Firsts(targets[..|targets| - 1], visited), targets[|targets| - 1];
      if last in visited || last in before then before else before + [last]
  }

  /** The targets of a level in the order they are first met. */
  function LevelOrder(g: Graph, level: seq<Node>, visited: set<Asset>): seq<Asset> {
    Firsts(Targets(g, level), visited)
  }

  lemma FirstsStep(targets: seq<Asset>, target: Asset, visited: set<Asset>)
    ensures var before := Firsts(targets, visited);
            Firsts(targets + [target], visited)
            == if target in visited || target in before then before else before + [target]
  {
    assert (targets + [target])[..|targets|] == targets;
  }

  lemma TargetsStep(g: Graph, level: seq<Node>, i: nat)
    requires i < |level|
    ensures Targets(g, level[..i + 1]) == Targets(g, level[..i]) + Names(Out(g, level[i]))
  {
    var f := (n: Node) => Names(Out(g, n));
    assert level[..i + 1] == level[..i] + [level[i]];
    GatherConcat(level[..i], [level[i]], f);
    assert Gather([level[i]], f) == f(level[i]) + Gather<Node, Asset>([], f) == f(level[i]);
  }

  lemma NamesStep(edges: seq<CorrelationEdge>, j: nat)
    requires j < |edges|
    ensures Names(edges[..j + 1]) == Names(edges[..j]) + [edges[j].target]
  {
    var f := (e: CorrelationEdge) => [e.target];
    assert edges[..j + 1] == edges[..j] + [edges[j]];
    GatherConcat(edges[..j], [edges[j]], f);
    assert Gather([edges[j]], f) == f(edges[j]) + Gather<CorrelationEdge, Asset>([], f) == f(edges[j]);
  }

  lemma NextTarget(before: seq<Asset>, edges: seq<CorrelationEdge>, j: nat, visited: set<Asset>)
    requires j < |edges|
    ensures var order, target := Firsts(before + Names(edges[..j]), visited), edges[j].target;
            Firsts(before + Names(edges[..j + 1]), visited)
            == if target in visited || target in order then order else order + [target]
  {
    NamesStep(edges, j);
    assert before + Names(edges[..j + 1]) == before + Names(edges[..j]) + [edges[j].target];
    FirstsStep(before + Names(edges[..j]), edges[j].target, visited);
  }

  /** Sorts the edges of one node to their targets, behind what is there already. */
  method AddArrivals(
    edges: seq<CorrelationEdge>, visited: set<Asset>, order: seq<Asset>, inbound: map<Asset, seq<Edge>>,
    ghost f: Asset -> seq<Edge>, ghost seen: seq<Asset>)
    returns (order': seq<Asset>, inbound': map<Asset, seq<Edge>>)
    requires Collected(order, inbound, visited, f) && order == Firsts(seen, visited)
    ensures Collected(order', inbound', visited, Joined(f, edges))
    ensures order' == Firsts(seen + Names(edges), visited)
  {
    order', inbound' := order, inbound;
    assert seen + Names(edges[..0]) == seen;
    CollectedAlike(order, inbound, visited, f, Joined(f, edges[..0]));
    for j := 0 to |edges|
      invariant Collected(order', inbound', visited, Joined(f, edges[..j]))
      invariant order' == Firsts(seen + Names(edges[..j]), visited)
    {
      var target := edges[j].target;
      NextTarget(seen, edges, j, visited);
      ArrivalJoins(f, edges, j);
      ArrivalCollected(order', inbound', visited, Joined(f, edges[..j]), target, edges[j].edge,
                       Joined(f, edges[..j + 1]));
      if target !in visited {
        if target in inbound' {
          inbound' := inbound'[target := inbound'[target] + [edges[j].edge]];
        } else {
          order', inbound' := order' + [target], inbound'[target := [edges[j].edge]];
        }
      }
    }
    assert edges[..|edges|] == edges;
  }

  lemma ArrivalJoins(f: Asset -> seq<Edge>, edges: seq<CorrelationEdge>, j: nat)
    requires j < |edges|
    ensures forall t :: Joined(f, edges[..j + 1])(t)
                        == Joined(f, edges[..j])(t) + if t == edges[j].target then [edges[j].edge] else []
  {
    forall t
      ensures Joined(f, edges[..j + 1])(t)
              == Joined(f, edges[..j])(t) + if t == edges[j].target then [edges[j].edge] else []
    {
      ReachingStep(edges, j, t);
    }
  }

  /** All correlation edges reaching each unvisited target, gathered before anything is decided. */
  method CollectInbound(g: Graph, level: seq<Node>, visited: set<Asset>)
    returns (order: seq<Asset>, inbound: map<Asset, seq<Edge>>)
    ensures Collected(order, inbound, visited, Inbound(g, level))
    ensures order == LevelOrder(g, level, visited)
  {
    order, inbound := [], map[];
    for i := 0 to |level|
      invariant Collected(order, inbound, visited, Inbound(g, level[..i]))
      invariant order == Firsts(Targets(g, level[..i]), visited)
    {
      var edges := Out(g, level[i]);
      order, inbound := AddArrivals(
        edges, visited, order, inbound, Inbound(g, level[..i]), Targets(g, level[..i]));
      TargetsStep(g, level, i);
      forall t ensures Joined(Inbound(g, level[..i]), edges)(t) == Inbound(g, level[..i + 1])(t) {
        EdgesToStep(g, level, i, t);
      }
      CollectedAlike(
        order, inbound, visited, Joined(Inbound(g, level[..i]), edges), Inbound(g, level[..i + 1]));
    }
    assert level[..|level|] == level;
  }

  // ---- Levels ----

  /** A decided target: the level that decided it, and its direction if the stance was stored. */
  datatype Mark = Mark(depth: nat, stored: Option<Direction>)

  type Marks = map<Asset, Mark>

  ghost function Taken(root: Node, marks: Marks, a: Asset): Option<Direction> {
    if a == root.asset then Some(root.direction) else if a in marks then marks[a].stored else None
  }

  ghost function DepthOf(root: Node, marks: Marks, a: Asset): nat {
    if a != root.asset && a in marks then marks[a].depth else 0
  }

  /** `s` took a direction under which it is linked to `t`. */
  ghost predicate Fires(g: Graph, root: Node, marks: Marks, s: Asset, t: Asset) {
    Taken(root, marks, s).Some? && Linked(g, Node(s, Taken(root, marks, s).value), t)
  }

  /** Every target was decided one level below a node firing at it, and no node firing at it is higher up. */
  ghost predicate Layered(g: Graph, root: Node, banned: set<Asset>, marks: Marks, d: nat) {
    && root.asset in banned
    && (forall t :: t in marks ==> t !in banned && 1 <= marks[t].depth <= d)
    && (forall t :: t in marks ==>
          exists s :: Fires(g, root, marks, s, t) && DepthOf(root, marks, s) + 1 == marks[t].depth)
    && (forall s, t :: Fires(g, root, marks, s, t) && t in marks ==>
          marks[t].depth <= DepthOf(root, marks, s) + 1)
  }

  /** Whatever a node above level `d` fires at has been decided, or was excluded from the start. */
  ghost predicate Saturated(g: Graph, root: Node, banned: set<Asset>, marks: Marks, d: nat) {
    forall s, t :: Fires(g, root, marks, s, t) && DepthOf(root, marks, s) < d ==> t in banned || t in marks
  }

  ghost predicate IsLevel(root: Node, marks: Marks, level: seq<Node>, d: nat) {
    forall n :: n in level <==>
                  Taken(root, marks, n.asset) == Some(n.direction) && DepthOf(root, marks, n.asset) == d
  }

  /** `marks` is `before` plus the targets of `order`, all decided at depth `d`. */
  ghost predicate Extended(before: Marks, marks: Marks, order: seq<Asset>, d: nat) {
    && (forall t :: t in marks <==> t in before || t in order)
    && (forall t :: t in before ==> marks[t] == before[t])
    && (forall t :: t in order ==> marks[t].depth == d)
  }

  /** The situation between two levels: `level` is complete down to depth `d`, and `order` lists the
      new targets it fires at. */
  ghost predicate Between(
    g: Graph, root: Node, banned: set<Asset>, before: Marks, marks: Marks, level: seq<Node>, order: seq<Asset>, d: nat)
  {
    && Layered(g, root, banned, before, d) && Saturated(g, root, banned, before, d)
    && IsLevel(root, before, level, d)
    && (forall t :: t in order ==> t !in banned && t !in before)
    && (forall n, t :: n in level && Linked(g, n, t) ==> t in banned || t in before || t in order)
    && (forall t :: t in order ==> exists n :: n in level && Linked(g, n, t))
    && Extended(before, marks, order, d + 1)
  }

  lemma CollectedIsBetween(
    g: Graph, root: Node, banned: set<Asset>, before: Marks, marks: Marks,
    level: seq<Node>, order: seq<Asset>, inbound: map<Asset, seq<Edge>>, d: nat)
    requires Layered(g, root, banned, before, d) && Saturated(g, root, banned, before, d)
    requires IsLevel(root, before, level, d)
    requires Collected(order, inbound, banned + before.Keys, Inbound(g, level))
    requires Extended(before, marks, order, d + 1)
    ensures Between(g, root, banned, before, marks, level, order, d)
  {
    forall t
      ensures t in order <==> t !in banned && t !in before && exists n :: n in level && Linked(g, n, t)
    {
      EdgesToHits(g, level, t);
      assert t in order <==> t in inbound;
      assert Inbound(g, level)(t) == EdgesTo(g, level, t);
    }
  }

  /** A node known before keeps its stance and its depth. */
  lemma KnownKeepsItsPlace(
    g: Graph, root: Node, banned: set<Asset>, before: Marks, marks: Marks, level: seq<Node>, order: seq<Asset>, d: nat,
    s: Asset)
    requires Between(g, root, banned, before, marks, level, order, d)
    requires s == root.asset || s in before
    ensures Taken(root, marks, s) == Taken(root, before, s)
    ensures DepthOf(root, marks, s) == DepthOf(root, before, s) <= d
  {
  }

  lemma FiringStaysLayered(
    g: Graph, root: Node, banned: set<Asset>, before: Marks, marks: Marks, level: seq<Node>, order: seq<Asset>, d: nat,
    s: Asset, t: Asset)
    requires Between(g, root, banned, before, marks, level, order, d)
    requires Fires(g, root, marks, s, t)
    ensures t in marks ==> marks[t].depth <= DepthOf(root, marks, s) + 1
    ensures DepthOf(root, marks, s) < d + 1 ==> t in banned || t in marks
  {
    if s == root.asset || s in before {
      KnownKeepsItsPlace(g, root, banned, before, marks, level, order, d, s);
      assert Fires(g, root, before, s, t);
      if DepthOf(root, before, s) == d {
        var n := Node(s, Taken(root, before, s).value);
        assert n in level && Linked(g, n, t);
      }
    } else {
      assert s in order;
    }
  }

  lemma DecidedHasFiringNode(
    g: Graph, root: Node, banned: set<Asset>, before: Marks, marks: Marks, level: seq<Node>, order: seq<Asset>, d: nat,
    t: Asset)
    requires Between(g, root, banned, before, marks, level, order, d) && t in marks
    ensures exists s :: Fires(g, root, marks, s, t) && DepthOf(root, marks, s) + 1 == marks[t].depth
  {
    if t in before {
      var s :| Fires(g, root, before, s, t) && DepthOf(root, before, s) + 1 == before[t].depth;
      KnownKeepsItsPlace(g, root, banned, before, marks, level, order, d, s);
      assert Fires(g, root, marks, s, t);
    } else {
      var n :| n in level && Linked(g, n, t);
      KnownKeepsItsPlace(g, root, banned, before, marks, level, order, d, n.asset);
      assert Fires(g, root, marks, n.asset, t);
    }
  }

  /** Deciding the new targets completes one more level. */
  lemma NextLevel(
    g: Graph, root: Node, banned: set<Asset>, before: Marks, marks: Marks, level: seq<Node>, order: seq<Asset>, d: nat)
    requires Between(g, root, banned, before, marks, level, order, d)
    ensures Layered(g, root, banned, marks, d + 1) && Saturated(g, root, banned, marks, d + 1)
  {
    forall s, t | Fires(g, root, marks, s, t)
      ensures t in marks ==> marks[t].depth <= DepthOf(root, marks, s) + 1
      ensures DepthOf(root, marks, s) < d + 1 ==> t in banned || t in marks
    {
      FiringStaysLayered(g, root, banned, before, marks, level, order, d, s, t);
    }
    forall t | t in marks
      ensures exists s :: Fires(g, root, marks, s, t) && DepthOf(root, marks, s) + 1 == marks[t].depth
    {
      DecidedHasFiringNode(g, root, banned, before, marks, level, order, d, t);
    }
  }

  // ---- Shortest distance ----

  /** A chain of assets from the root, each firing at the next one. */
  ghost predicate Path(g: Graph, root: Node, marks: Marks, p: seq<Asset>) {
    && p != [] && p[0] == root.asset
    && forall i :: 0 <= i < |p| - 1 ==> Fires(g, root, marks, p[i], p[i + 1])
  }

  lemma {:induction false} NoShorterPath(g: Graph, root: Node, banned: set<Asset>, marks: Marks, d: nat, p: seq<Asset>)
    requires Layered(g, root, banned, marks, d)
    requires Path(g, root, marks, p)
    ensures DepthOf(root, marks, p[|p| - 1]) <= |p| - 1
  {
    if |p| > 1 {
      var n := |p| - 1;
      assert forall i :: 0 <= i < n - 1 ==> Fires(g, root, marks, p[..n][i], p[..n][i + 1]);
      NoShorterPath(g, root, banned, marks, d, p[..n]);
      assert Fires(g, root, marks, p[n - 1], p[n]);
    }
  }

  lemma FiringNode(g: Graph, root: Node, banned: set<Asset>, marks: Marks, d: nat, t: Asset) returns (s: Asset)
    requires Layered(g, root, banned, marks, d) && t in marks
    ensures Fires(g, root, marks, s, t) && DepthOf(root, marks, s) + 1 == marks[t].depth
    ensures s == root.asset || s in marks
  {
    s :| Fires(g, root, marks, s, t) && DepthOf(root, marks, s) + 1 == marks[t].depth;
  }

  lemma PathExtends(g: Graph, root: Node, marks: Marks, q: seq<Asset>, t: Asset)
    requires Path(g, root, marks, q) && Fires(g, root, marks, q[|q| - 1], t)
    ensures Path(g, root, marks, q + [t])
  {
    var p := q + [t];
    forall i | 0 <= i < |p| - 1 ensures Fires(g, root, marks, p[i], p[i + 1]) {
      if i + 1 < |q| {
        assert p[i] == q[i] && p[i + 1] == q[i + 1];
      }
    }
  }

  lemma {:induction false} PathOfDepth(g: Graph, root: Node, banned: set<Asset>, marks: Marks, d: nat, t: Asset)
    returns (p: seq<Asset>)
    requires Layered(g, root, banned, marks, d)
    requires t == root.asset || t in marks
    ensures Path(g, root, marks, p) && p[|p| - 1] == t && |p| - 1 == DepthOf(root, marks, t)
    decreases DepthOf(root, marks, t)
  {
    if t == root.asset {
      p := [t];
    } else {
      var s := FiringNode(g, root, banned, marks, d, t);
      var q := PathOfDepth(g, root, banned, marks, d, s);
      PathExtends(g, root, marks, q, t);
      p := q + [t];
    }
  }

  /** A target is decided at the length of a shortest chain of stored stances leading to it. */
  lemma DecidedAtShortestDistance(g: Graph, root: Node, banned: set<Asset>, marks: Marks, d: nat, t: Asset)
    requires Layered(g, root, banned, marks, d) && t in marks
    ensures exists p :: Path(g, root, marks, p) && p[|p| - 1] == t && |p| - 1 == marks[t].depth
    ensures forall p :: Path(g, root, marks, p) && p[|p| - 1] == t ==> marks[t].depth <= |p| - 1
  {
    var q := PathOfDepth(g, root, banned, marks, d, t);
    forall p | Path(g, root, marks, p) && p[|p| - 1] == t ensures marks[t].depth <= |p| - 1 {
      NoShorterPath(g, root, banned, marks, d, p);
    }
  }
}
