/**
 The gateway as a whole: any number of requests, each somewhere on its route, over one store that answers their
 reservations. Restarts kill every request under way; other parts of the service report submissions, reconcile
 late results and reset profiles at any time.
 */
module GatewaySystem {
  import opened Wrappers
  import opened GatewayStore
  import opened GatewaySafety
  import opened Engine

  /** One request: its profile, the calls its route makes with the answers it gets, and how the route ends. */
  datatype Route = Route(
    profile: Id, eligible: seq<Id>, outcome: Outcome, trace: seq<Call>, rounds: seq<Round>, turns: seq<Turn>,
    bound: Option<Binding>)

  /** What the engine's routing method guarantees of every route. */
  ghost predicate IsRoute(r: Route, tabs: nat) {
    && Routed(r.eligible, tabs, r.outcome, r.trace, r.rounds, r.turns, r.bound)
    && WithinReach(r.trace, r.eligible, tabs)
  }

  /** The store with what requests hold, how far each live request has come, and which requests have begun. */
  datatype System = System(gateway: Gateway, live: map<Id, nat>, begun: set<Id>)

  datatype Happening =
    | Begin(request: Id)
    | Go(request: Id, at: Instant)
    | Crash(at: Instant)
    | Elsewhere(op: Op, at: Instant)

  type Routes = map<Id, Route>

  function Provider(r: Route, c: Call): Resource
    requires c.Tried? || c.Closed?
  {
    Resource(r.profile, c.provider)
  }

  function ReserveStep(request: Id, r: Route, c: Call, at: Instant): Step
    requires c.Tried?
  {
    Step(DoReserve(Provider(r, c), c.attempt, request, c.slot), at)
  }

  /** What a call does to the store and to what its request holds. An interrupted reservation or finish that did
      commit is a step all the same; one that did not, and a request that is gone, leave no step. */
  function Effects(request: Id, r: Route, c: Call, at: Instant): seq<Event> {
    match c
    case Tried(_, attempt, _, grant) =>
      if grant == Lost(false) then []
      else [Store(ReserveStep(request, r, c, at))] + if grant == Lost(true) then [Abandon(attempt)] else []
    case Closed(_, attempt, answer, fate) =>
      if fate == Done || fate == CutOff(true)
      then [Store(Step(DoFinish(Provider(r, c), attempt, answer), at))] else [Abandon(attempt)]
    case _ => []
  }

  /** The store grants exactly the reservations the calls were told about. */
  predicate AnsweredBy(db: Db, request: Id, r: Route, c: Call, at: Instant) {
    c.Tried? && c.grant != Lost(false) ==>
      Reserve(db, Provider(r, c), c.attempt, request, c.slot, at).1 == (c.grant != Denied)
  }

  predicate Enabled(s: System, routes: Routes, h: Happening) {
    match h
    case Begin(q) => q in routes && q !in s.begun
    case Go(q, at) =>
      && q in s.live && q in routes && s.live[q] < |routes[q].trace|
      && AnsweredBy(s.gateway.db, q, routes[q], routes[q].trace[s.live[q]], at)
    case Crash(_) => true
    case Elsewhere(op, _) => op.DoSubmit? || op.DoTerminal? || op.DoReset?
  }

  function EventsOf(s: System, routes: Routes, h: Happening): seq<Event>
    requires Enabled(s, routes, h)
  {
    match h
    case Begin(_) => []
    case Go(q, at) => Effects(q, routes[q], routes[q].trace[s.live[q]], at)
    case Crash(at) => [Store(Step(Restart, at))]
    case Elsewhere(op, at) => [Store(Step(op, at))]
  }

  function Next(s: System, routes: Routes, h: Happening, cfg: Config): System
    requires Enabled(s, routes, h)
  {
    var gateway := Live(s.gateway, EventsOf(s, routes, h), cfg);
    match h
    case Begin(q) => System(gateway, s.live[q := 0], s.begun + {q})
    case Go(q, _) => System(gateway, s.live[q := s.live[q] + 1], s.begun)
    case Crash(_) => System(gateway, map[], s.begun)
    case Elsewhere(_, _) => s.(gateway := gateway)
  }

  // ---- What requests hold ----

  /** The reservation a request under way was granted and has not given back. */
  ghost predicate HoldsAt(s: System, routes: Routes, q: Id, k: nat) {
    && q in s.live && q in routes && k < s.live[q] < |routes[q].trace|
    && routes[q].trace[k].Tried? && routes[q].trace[k].grant == Granted
  }

  ghost predicate Ledger(s: System, routes: Routes) {
    && HeldInFlight(s.gateway)
    && (forall q :: q in s.live ==> q in routes && q in s.begun && s.live[q] <= |routes[q].trace|)
    && (forall q, k: nat :: HoldsAt(s, routes, q, k) ==>
          && routes[q].trace[k].attempt in s.gateway.held
          && s.gateway.held[routes[q].trace[k].attempt] == Provider(routes[q], routes[q].trace[k]))
    && (forall q, k: nat, q', k': nat :: HoldsAt(s, routes, q, k) && HoldsAt(s, routes, q', k') && q != q' ==>
          routes[q].trace[k].attempt != routes[q'].trace[k'].attempt)
  }

  /** An attempt that is granted is new, so nobody holds it. */
  lemma GrantedIsNew(s: System, routes: Routes, q: Id, at: Instant)
    requires Ledger(s, routes) && q in s.live && s.live[q] < |routes[q].trace|
    requires routes[q].trace[s.live[q]].Tried? && AnsweredBy(s.gateway.db, q, routes[q], routes[q].trace[s.live[q]], at)
    requires routes[q].trace[s.live[q]].grant == Granted || routes[q].trace[s.live[q]].grant == Lost(true)
    ensures routes[q].trace[s.live[q]].attempt !in s.gateway.held
  {
  }

  /** What a request closes, it holds. */
  lemma ClosesWhatItHolds(s: System, routes: Routes, q: Id, tabs: nat)
    requires Ledger(s, routes) && q in s.live && s.live[q] < |routes[q].trace|
    requires IsRoute(routes[q], tabs) && routes[q].trace[s.live[q]].Closed?
    ensures ClosesHeld(s, routes, q)
  {
    var r, n := routes[q], s.live[q];
    FinishesWhatItHolds(r.eligible, tabs, r.outcome, r.trace, r.rounds, r.turns, r.bound, n);
    var k: nat :| k < n && r.trace[k].Tried? && r.trace[k].grant == Granted
             && r.trace[k].provider == r.trace[n].provider && r.trace[k].attempt == r.trace[n].attempt;
    assert HoldsAt(s, routes, q, k);
  }

  // ---- Every happening keeps the ledger ----

  /** The live request `q` makes its next call; its effect on what is held is one of three. */
  ghost predicate Moves(s: System, after: System, routes: Routes, q: Id) {
    && q in s.live && q in routes && s.live[q] < |routes[q].trace|
    && after.live == s.live[q := s.live[q] + 1] && after.begun == s.begun
    && var c := routes[q].trace[s.live[q]];
       || (after.gateway.held == s.gateway.held && !(c.Tried? && c.grant == Granted))
       || (c.Tried? && c.attempt !in s.gateway.held
           && after.gateway.held == s.gateway.held[c.attempt := Provider(routes[q], c)])
       || (c.Closed? && s.live[q] == |routes[q].trace| - 1
           && after.gateway.held == s.gateway.held - {c.attempt}
           && exists k: nat :: HoldsAt(s, routes, q, k) && routes[q].trace[k].attempt == c.attempt)
  }

  /** What a request held before its next call, or holds since. */
  lemma HeldBefore(s: System, after: System, routes: Routes, q: Id, x: Id, k: nat)
    requires Ledger(s, routes) && Moves(s, after, routes, q) && HoldsAt(after, routes, x, k)
    ensures HoldsAt(s, routes, x, k)
            || (&& x == q && k == s.live[q] && routes[q].trace[k].attempt !in s.gateway.held
                && var c := routes[q].trace[k];
                   after.gateway.held == s.gateway.held[c.attempt := Provider(routes[q], c)])
  {
  }

  lemma MoveKeepsHeld(s: System, after: System, routes: Routes, q: Id, x: Id, k: nat)
    requires Ledger(s, routes) && Moves(s, after, routes, q) && HoldsAt(after, routes, x, k)
    ensures routes[x].trace[k].attempt in after.gateway.held
    ensures after.gateway.held[routes[x].trace[k].attempt] == Provider(routes[x], routes[x].trace[k])
  {
    HeldBefore(s, after, routes, q, x, k);
    if HoldsAt(s, routes, x, k) {
      var c := routes[q].trace[s.live[q]];
      if c.Closed? && after.gateway.held == s.gateway.held - {c.attempt} && after.gateway.held != s.gateway.held {
        var j: nat :| HoldsAt(s, routes, q, j) && routes[q].trace[j].attempt == c.attempt;
        assert x != q;
      }
    }
  }

  lemma MoveKeepsApart(s: System, after: System, routes: Routes, q: Id, x: Id, k: nat, x': Id, k': nat)
    requires Ledger(s, routes) && Moves(s, after, routes, q)
    requires HoldsAt(after, routes, x, k) && HoldsAt(after, routes, x', k') && x != x'
    ensures routes[x].trace[k].attempt != routes[x'].trace[k'].attempt
  {
    HeldBefore(s, after, routes, q, x, k);
    HeldBefore(s, after, routes, q, x', k');
  }

  lemma MoveKeepsLedger(s: System, after: System, routes: Routes, q: Id)
    requires Ledger(s, routes) && Moves(s, after, routes, q) && HeldInFlight(after.gateway)
    ensures Ledger(after, routes)
  {
    forall x, k: nat | HoldsAt(after, routes, x, k)
      ensures routes[x].trace[k].attempt in after.gateway.held
      ensures after.gateway.held[routes[x].trace[k].attempt] == Provider(routes[x], routes[x].trace[k])
    {
      MoveKeepsHeld(s, after, routes, q, x, k);
    }
    forall x, k: nat, x', k': nat | HoldsAt(after, routes, x, k) && HoldsAt(after, routes, x', k') && x != x'
      ensures routes[x].trace[k].attempt != routes[x'].trace[k'].attempt
    {
      MoveKeepsApart(s, after, routes, q, x, k, x', k');
    }
  }

  /** The events of a call are allowed, in time, and leave what is held in flight. */
  ghost predicate Sound(g: Gateway, now: Instant, events: seq<Event>, cfg: Config) {
    LivesFrom(g, now, events, cfg) && HeldInFlight(Live(g, events, cfg))
  }

  lemma SoundPrepend(g: Gateway, now: Instant, e: Event, rest: seq<Event>, cfg: Config)
    requires HeldInFlight(g) && Allowed(g, e) && (e.Store? ==> now < e.step.at)
    ensures Live(g, [e] + rest, cfg) == Live(React(g, e, cfg), rest, cfg)
    ensures Sound(React(g, e, cfg), if e.Store? then e.step.at else now, rest, cfg) ==> Sound(g, now, [e] + rest, cfg)
    ensures HeldInFlight(React(g, e, cfg))
  {
    assert ([e] + rest)[1..] == rest;
    EventKeepsHeld(g, e, cfg);
  }

  lemma SoundOne(g: Gateway, now: Instant, e: Event, cfg: Config)
    requires HeldInFlight(g) && Allowed(g, e) && (e.Store? ==> now < e.step.at)
    ensures Sound(g, now, [e], cfg) && Live(g, [e], cfg) == React(g, e, cfg)
  {
    SoundPrepend(g, now, e, [], cfg);
    assert [e] + [] == [e];
  }

  lemma SoundTwo(g: Gateway, now: Instant, e: Event, f: Event, cfg: Config)
    requires HeldInFlight(g) && Allowed(g, e) && e.Store? && now < e.step.at && f.Abandon?
    ensures Sound(g, now, [e] + [f], cfg) && Live(g, [e] + [f], cfg) == React(React(g, e, cfg), f, cfg)
  {
    SoundPrepend(g, now, e, [f], cfg);
    SoundOne(React(g, e, cfg), e.step.at, f, cfg);
  }

  lemma TryMoves(s: System, routes: Routes, q: Id, at: Instant, now: Instant, cfg: Config)
    requires Ledger(s, routes) && Enabled(s, routes, Go(q, at)) && now < at && routes[q].trace[s.live[q]].Tried?
    ensures Sound(s.gateway, now, EventsOf(s, routes, Go(q, at)), cfg)
    ensures Moves(s, Next(s, routes, Go(q, at), cfg), routes, q)
  {
    var r := routes[q];
    var c := r.trace[s.live[q]];
    if c.grant == Granted || c.grant == Lost(true) {
      GrantedIsNew(s, routes, q, at);
    }
    var e := Store(ReserveStep(q, r, c, at));
    if c.grant == Lost(true) {
      SoundTwo(s.gateway, now, e, Abandon(c.attempt), cfg);
      assert s.gateway.held[c.attempt := Provider(r, c)] - {c.attempt} == s.gateway.held;
    } else if c.grant != Lost(false) {
      SoundOne(s.gateway, now, e, cfg);
      assert [e] + [] == [e];
    }
  }

  /** The request's next call closes an attempt it holds, and is its last. */
  ghost predicate ClosesHeld(s: System, routes: Routes, q: Id) {
    && q in s.live && q in routes && s.live[q] == |routes[q].trace| - 1
    && var c := routes[q].trace[s.live[q]];
       && c.Closed? && c.attempt in s.gateway.held && s.gateway.held[c.attempt] == Provider(routes[q], c)
       && exists k: nat :: HoldsAt(s, routes, q, k) && routes[q].trace[k].attempt == c.attempt
  }

  lemma CloseMoves(s: System, routes: Routes, q: Id, at: Instant, now: Instant, cfg: Config)
    requires HeldInFlight(s.gateway) && Enabled(s, routes, Go(q, at)) && now < at && ClosesHeld(s, routes, q)
    ensures Sound(s.gateway, now, EventsOf(s, routes, Go(q, at)), cfg)
    ensures Moves(s, Next(s, routes, Go(q, at), cfg), routes, q)
  {
    var r := routes[q];
    var c := r.trace[s.live[q]];
    var e := if c.fate == Done || c.fate == CutOff(true)
             then Store(Step(DoFinish(Provider(r, c), c.attempt, c.answer), at)) else Abandon(c.attempt);
    SoundOne(s.gateway, now, e, cfg);
    assert EventsOf(s, routes, Go(q, at)) == [e];
    assert React(s.gateway, e, cfg).held == s.gateway.held - {c.attempt};
  }

  lemma GoKeeps(s: System, routes: Routes, q: Id, at: Instant, now: Instant, cfg: Config, tabs: nat)
    requires Ledger(s, routes) && Enabled(s, routes, Go(q, at)) && now < at && IsRoute(routes[q], tabs)
    ensures Sound(s.gateway, now, EventsOf(s, routes, Go(q, at)), cfg)
    ensures Ledger(Next(s, routes, Go(q, at), cfg), routes)
  {
    var c := routes[q].trace[s.live[q]];
    if c.Tried? {
      TryMoves(s, routes, q, at, now, cfg);
    } else if c.Closed? {
      ClosesWhatItHolds(s, routes, q, tabs);
      CloseMoves(s, routes, q, at, now, cfg);
    }
    MoveKeepsLedger(s, Next(s, routes, Go(q, at), cfg), routes, q);
  }

  lemma ElsewhereKeeps(s: System, routes: Routes, op: Op, at: Instant, now: Instant, cfg: Config)
    requires Ledger(s, routes) && Enabled(s, routes, Elsewhere(op, at)) && now < at
    ensures Sound(s.gateway, now, EventsOf(s, routes, Elsewhere(op, at)), cfg)
    ensures Ledger(Next(s, routes, Elsewhere(op, at), cfg), routes)
  {
    SoundOne(s.gateway, now, Store(Step(op, at)), cfg);
    SameHoldings(s, Next(s, routes, Elsewhere(op, at), cfg), routes);
  }

  lemma SameHoldings(s: System, after: System, routes: Routes)
    requires Ledger(s, routes) && HeldInFlight(after.gateway)
    requires after.gateway.held == s.gateway.held && after.live == s.live && after.begun == s.begun
    ensures Ledger(after, routes)
  {
    forall q, k: nat ensures HoldsAt(after, routes, q, k) <==> HoldsAt(s, routes, q, k) {}
  }

  lemma BeginKeeps(s: System, routes: Routes, q: Id, cfg: Config)
    requires Ledger(s, routes) && Enabled(s, routes, Begin(q))
    ensures Ledger(Next(s, routes, Begin(q), cfg), routes)
  {
    var after := Next(s, routes, Begin(q), cfg);
    forall x, k: nat ensures HoldsAt(after, routes, x, k) <==> HoldsAt(s, routes, x, k) {}
  }

  function TimeOf(h: Happening, now: Instant): Instant {
    if h.Begin? then now else h.at
  }

  ghost predicate AllRoutes(routes: Routes, tabs: nat) {
    forall q :: q in routes ==> IsRoute(routes[q], tabs)
  }

  lemma HappeningKeeps(s: System, routes: Routes, h: Happening, now: Instant, cfg: Config, tabs: nat)
    requires Ledger(s, routes) && Enabled(s, routes, h) && AllRoutes(routes, tabs) && (h.Begin? || now < h.at)
    ensures Sound(s.gateway, now, EventsOf(s, routes, h), cfg)
    ensures Ledger(Next(s, routes, h, cfg), routes)
  {
    match h
    case Begin(q) => BeginKeeps(s, routes, q, cfg);
    case Go(q, at) => GoKeeps(s, routes, q, at, now, cfg, tabs);
    case Crash(at) => SoundOne(s.gateway, now, Store(Step(Restart, at)), cfg);
    case Elsewhere(op, at) => ElsewhereKeeps(s, routes, op, at, now, cfg);
  }

  // ---- Whole histories ----

  function After(s: System, routes: Routes, hs: seq<Happening>, cfg: Config): System
    requires Possible(s, routes, hs, cfg)
    decreases |hs|
  {
    if hs == [] then s else After(Next(s, routes, hs[0], cfg), routes, hs[1..], cfg)
  }

  /** Each happening is possible where it happens. */
  predicate Possible(s: System, routes: Routes, hs: seq<Happening>, cfg: Config)
    decreases |hs|
  {
    hs == [] || (Enabled(s, routes, hs[0]) && Possible(Next(s, routes, hs[0], cfg), routes, hs[1..], cfg))
  }

  predicate InOrder(hs: seq<Happening>, now: Instant)
    decreases |hs|
  {
    hs == [] || ((hs[0].Begin? || now < hs[0].at) && InOrder(hs[1..], TimeOf(hs[0], now)))
  }

  function AllEvents(s: System, routes: Routes, hs: seq<Happening>, cfg: Config): seq<Event>
    requires Possible(s, routes, hs, cfg)
    decreases |hs|
  {
    if hs == [] then []
    else EventsOf(s, routes, hs[0]) + AllEvents(Next(s, routes, hs[0], cfg), routes, hs[1..], cfg)
  }

  lemma {:induction false} LivesConcat(
    g: Gateway, now: Instant, a: seq<Event>, b: seq<Event>, cfg: Config, later: Instant)
    requires LivesFrom(g, now, a, cfg) && LivesFrom(Live(g, a, cfg), later, b, cfg)
    requires now <= later && forall e :: e in a && e.Store? ==> e.step.at <= later
    ensures LivesFrom(g, now, a + b, cfg) && Live(g, a + b, cfg) == Live(Live(g, a, cfg), b, cfg)
    decreases |a|
  {
    if a == [] {
      assert a + b == b;
      LivesLater(g, now, later, b, cfg);
    } else {
      var e := a[0];
      assert (a + b)[1..] == a[1..] + b;
      LivesConcat(React(g, e, cfg), if e.Store? then e.step.at else now, a[1..], b, cfg, later);
    }
  }

  lemma {:induction false} LivesLater(g: Gateway, now: Instant, later: Instant, events: seq<Event>, cfg: Config)
    requires LivesFrom(g, later, events, cfg) && now <= later
    ensures LivesFrom(g, now, events, cfg)
    decreases |events|
  {
    if events != [] && events[0].Abandon? {
      LivesLater(React(g, events[0], cfg), now, later, events[1..], cfg);
    }
  }

  lemma EventsInTime(s: System, routes: Routes, h: Happening, now: Instant)
    requires Enabled(s, routes, h) && (h.Begin? || now < h.at)
    ensures now <= TimeOf(h, now)
    ensures forall e :: e in EventsOf(s, routes, h) && e.Store? ==> e.step.at == TimeOf(h, now)
  {
  }

  /** Every interleaving of routes, crashes and other operations is one of the histories in which requests finish
      only what they hold. */
  lemma {:induction false} RoutesLiveProperly(
    s: System, routes: Routes, hs: seq<Happening>, now: Instant, cfg: Config, tabs: nat)
    requires Ledger(s, routes) && AllRoutes(routes, tabs) && Possible(s, routes, hs, cfg) && InOrder(hs, now)
    ensures LivesFrom(s.gateway, now, AllEvents(s, routes, hs, cfg), cfg)
    ensures Live(s.gateway, AllEvents(s, routes, hs, cfg), cfg) == After(s, routes, hs, cfg).gateway
    ensures Ledger(After(s, routes, hs, cfg), routes)
    decreases |hs|
  {
    if hs != [] {
      var h := hs[0];
      HappeningKeeps(s, routes, h, now, cfg, tabs);
      var next := Next(s, routes, h, cfg);
      RoutesLiveProperly(next, routes, hs[1..], TimeOf(h, now), cfg, tabs);
      EventsInTime(s, routes, h, now);
      LivesConcat(s.gateway, now, EventsOf(s, routes, h), AllEvents(next, routes, hs[1..], cfg), cfg, TimeOf(h, now));
    }
  }

  // ---- Slots ----

  lemma EffectsAskForSlots(s: System, routes: Routes, h: Happening, tabs: nat)
    requires Enabled(s, routes, h) && AllRoutes(routes, tabs)
    ensures forall e :: e in EventsOf(s, routes, h) && e.Store? ==> AsksForSlots(e.step, tabs)
  {
    if h.Go? {
      var r := routes[h.request];
      var c := r.trace[s.live[h.request]];
      assert IsRoute(r, tabs) && c in r.trace;
      CallAsksForSlots(h.request, r, c, h.at, tabs);
    }
  }

  lemma CallAsksForSlots(request: Id, r: Route, c: Call, at: Instant, tabs: nat)
    requires c.Tried? ==> c.slot < tabs
    ensures forall e :: e in Effects(request, r, c, at) && e.Store? ==> AsksForSlots(e.step, tabs)
  {
  }

  lemma {:induction false} StepsOfConcat(a: seq<Event>, b: seq<Event>)
    ensures StepsOf(a + b) == StepsOf(a) + StepsOf(b)
  {
    if a == [] {
      assert a + b == b;
    } else {
      var first := if a[0].Store? then [a[0].step] else [];
      calc {
        StepsOf(a + b);
      ==  { assert (a + b)[0] == a[0] && (a + b)[1..] == a[1..] + b; }
        first + StepsOf(a[1..] + b);
      ==  { StepsOfConcat(a[1..], b); }
        first + (StepsOf(a[1..]) + StepsOf(b));
      ==
        first + StepsOf(a[1..]) + StepsOf(b);
      ==
        StepsOf(a) + StepsOf(b);
      }
    }
  }

  lemma {:induction false} StepsAskForSlots(events: seq<Event>, tabs: nat)
    requires forall e :: e in events && e.Store? ==> AsksForSlots(e.step, tabs)
    ensures forall s :: s in StepsOf(events) ==> AsksForSlots(s, tabs)
  {
    if events != [] {
      assert events[0] in events;
      StepsAskForSlots(events[1..], tabs);
    }
  }

  lemma {:induction false} HistoryAsksForSlots(s: System, routes: Routes, hs: seq<Happening>, cfg: Config, tabs: nat)
    requires AllRoutes(routes, tabs) && Possible(s, routes, hs, cfg)
    ensures forall x :: x in StepsOf(AllEvents(s, routes, hs, cfg)) ==> AsksForSlots(x, tabs)
    decreases |hs|
  {
    if hs != [] {
      var next := Next(s, routes, hs[0], cfg);
      EffectsAskForSlots(s, routes, hs[0], tabs);
      StepsAskForSlots(EventsOf(s, routes, hs[0]), tabs);
      HistoryAsksForSlots(next, routes, hs[1..], cfg, tabs);
      StepsOfConcat(EventsOf(s, routes, hs[0]), AllEvents(next, routes, hs[1..], cfg));
    }
  }

  // ---- The gateway from its first start ----

  const FIRST := System(Gateway(EMPTY, map[]), map[], {})

  /** However requests, crashes and other operations interleave, the store goes through one of the proper runs:
      its invariant holds, and no provider ever has more active attempts than tabs, nor two on one slot. */
  lemma GatewayIsSafe(
    routes: Routes, hs: seq<Happening>, now: Instant, cfg: Config, tabs: nat, r: Resource)
    requires AllRoutes(routes, tabs) && Possible(FIRST, routes, hs, cfg) && InOrder(hs, now)
    ensures var steps, db := StepsOf(AllEvents(FIRST, routes, hs, cfg)), After(FIRST, routes, hs, cfg).gateway.db;
            && RunsFrom(EMPTY, now, steps, cfg) && db == Run(EMPTY, steps, cfg)
            && Invariant(db, EndOf(now, steps))
            && |ActiveOn(db, r)| <= tabs
            && (forall id, other :: id in ActiveOn(db, r) && other in ActiveOn(db, r) && id != other ==>
                                      db.attempts[id].slot != db.attempts[other].slot)
  {
    var events := AllEvents(FIRST, routes, hs, cfg);
    RoutesLiveProperly(FIRST, routes, hs, now, cfg, tabs);
    RequestsRunProperly(FIRST.gateway, now, events, cfg);
    HistoryAsksForSlots(FIRST, routes, hs, cfg, tabs);
    InvariantHolds(EMPTY, now, StepsOf(events), cfg);
    TabsBoundAttempts(now, StepsOf(events), cfg, tabs, r);
  }

  /** A route the engine's method returns is one a request of the system may take. */
  method TakeRoute(e: Engine, profile: Id, required: set<string>, budget: int)
    returns (ghost r: Route, calls: seq<Call>)
    ensures IsRoute(r, e.tabs) && r.profile == profile && r.trace == calls
  {
    var outcome, trace, rounds, turns, bound := e.Route(required, budget);
    r := Route(profile, Eligible(e.adapters, required), outcome, trace, rounds, turns, bound);
    calls := trace;
  }
}
