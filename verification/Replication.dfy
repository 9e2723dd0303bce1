/**
 The replication protocol as a whole: any number of workers claiming, failing, dying and committing,
 and every message delivered late, twice, out of order or never.
 */
module Replication {
  import opened Wrappers
  import opened IntradayTypes
  import opened IntradayContract
  import opened Collector
  import opened StreamSafety
  import opened BatchLog

  /** Verification's requests and batches, the collector's store, and the attempts under way, each with
      the row it started from. */
  datatype System = System(
    requested: map<Id, Request>, store: Store, workers: map<Token, Row>, used: set<Token>, batches: map<Id, Table>)

  datatype Event =
    | Ask(request: Request)
    | Add(stream: Id, samplingOn: bool)
    | Lease(stream: Id, token: Token, now: Time)
    | Finish(token: Token, visit: Visit)
    | Die(token: Token)
    | Deliver(position: nat)

  type Currencies = Id -> string

  const INITIAL := System(map[], Store(map[], []), map[], {}, map[])

  /** The messages of one stream, in the order they were committed. */
  function Emitted(outbox: seq<Message>, id: Id): seq<Message> {
    if outbox == [] then []
    else Emitted(outbox[..|outbox| - 1], id)
         + (if outbox[|outbox| - 1].stream == id then [outbox[|outbox| - 1]] else [])
  }

  function TableOf(s: System, id: Id): Table {
    if id in s.batches then s.batches[id] else map[]
  }

  /** A message arrives: unknown streams are dropped, everything else is received on its stream. */
  function Arrive(s: System, m: Message, currencies: Currencies): (System, Reply) {
    if m.stream !in s.requested then (s, Orphaned)
    else
      var stream := s.requested[m.stream];
      var received := Receive(TableOf(s, m.stream), m, stream, currencies(stream.asset));
      (s.(batches := s.batches[m.stream := received.0]), received.1)
  }

  ghost predicate Enabled(s: System, e: Event, currencies: Currencies) {
    match e
    case Ask(request) => ValidRequest(request)
    case Add(id, _) => id in s.requested
    case Lease(id, token, now) => token !in s.used && Claimable(s.store, id, now)
    case Finish(token, visit) =>
      token in s.workers && Admissible(visit, s.workers[token].request, currencies(s.workers[token].request.asset))
    case Die(token) => token in s.workers
    case Deliver(position) => position < |s.store.outbox|
  }

  function Next(s: System, e: Event, settings: Settings, currencies: Currencies): System
    requires Enabled(s, e, currencies)
  {
    match e
    case Ask(request) =>
      if request.stream in s.requested then s else s.(requested := s.requested[request.stream := request])
    case Add(id, samplingOn) => s.(store := Register(s.store, s.requested[id], samplingOn))
    case Lease(id, token, now) =>
      var store := Claim(s.store, id, token, now);
      s.(store := store, workers := s.workers[token := store.streams[id]], used := s.used + {token})
    case Finish(token, visit) =>
      s.(store := Conclude(s.store, s.workers[token], token, visit, settings), workers := s.workers - {token})
    case Die(token) => s.(workers := s.workers - {token})
    case Deliver(position) => Arrive(s, s.store.outbox[position], currencies).0
  }

  // ---- The invariant ----

  /** Streams are stored under their own id, as requested. */
  ghost predicate Registered(s: System) {
    && (forall id :: id in s.requested ==> s.requested[id].stream == id && ValidRequest(s.requested[id]))
    && (forall id :: id in s.store.streams ==> id in s.requested && s.store.streams[id].request == s.requested[id])
  }

  ghost predicate StreamsSound(s: System, currencies: Currencies) {
    && (forall id :: id in s.store.streams ==>
                       StreamInvariant(s.store.streams[id], Emitted(s.store.outbox, id),
                                       currencies(s.store.streams[id].request.asset)))
    && (forall id :: id !in s.store.streams ==> Emitted(s.store.outbox, id) == [])
  }

  /** An attempt that still holds the lease started from the row as it is now. */
  ghost predicate Fenced(s: System) {
    && (forall t :: t in s.workers ==>
                      && t in s.used && !s.workers[t].done && s.workers[t].lease == Some(t)
                      && s.workers[t].request.stream in s.store.streams
                      && s.store.streams[s.workers[t].request.stream].request == s.workers[t].request)
    && (forall t :: t in s.workers ==>
                      Holds(s.store, s.workers[t].request.stream, t) ==>
                      s.store.streams[s.workers[t].request.stream] == s.workers[t])
    && (forall id :: id in s.store.streams && s.store.streams[id].lease.Some? ==>
                       s.store.streams[id].lease.value in s.used)
  }

  ghost predicate BatchesMirror(s: System) {
    forall id :: id in s.batches ==> Mirrors(s.batches[id], Emitted(s.store.outbox, id))
  }

  ghost predicate Invariant(s: System, currencies: Currencies) {
    Registered(s) && StreamsSound(s, currencies) && Fenced(s) && BatchesMirror(s)
  }

  // ---- Messages of a stream ----

  lemma EmittedAppends(outbox: seq<Message>, m: Message, id: Id)
    ensures Emitted(outbox + [m], id) == Emitted(outbox, id) + if m.stream == id then [m] else []
  {
    assert (outbox + [m])[..|outbox|] == outbox;
  }

  lemma {:induction false} EmittedPosition(outbox: seq<Message>, k: nat) returns (i: nat)
    requires k < |outbox|
    ensures i < |Emitted(outbox, outbox[k].stream)| && Emitted(outbox, outbox[k].stream)[i] == outbox[k]
    decreases |outbox|
  {
    var id, last := outbox[k].stream, |outbox| - 1;
    if k == last {
      i := |Emitted(outbox[..last], id)|;
    } else {
      i := EmittedPosition(outbox[..last], k);
    }
  }

  // ---- Every event keeps the invariant ----

  /** Nothing a stream's soundness speaks of has changed. */
  predicate SameStream(row: Row, now: Row) {
    && row.request == now.request && row.bars == now.bars && row.revision == now.revision
    && row.done == now.done && row.mode == now.mode && row.fallback == now.fallback
  }

  lemma SameStreamSound(row: Row, now: Row, log: seq<Message>, currency: string)
    requires StreamInvariant(row, log, currency) && SameStream(row, now)
    ensures StreamInvariant(now, log, currency)
  {
  }

  lemma PostponedSound(row: Row, now: Row, log: seq<Message>, v: Visit, settings: Settings, currency: string)
    requires StreamInvariant(row, log, currency) && Admissible(v, row.request, currency)
    requires Gather(row, v, settings).Retry?
    requires now.request == row.request && now.bars == row.bars && now.revision == row.revision && now.done == row.done
    requires now.mode == Gather(row, v, settings).mode && now.fallback == Gather(row, v, settings).fallback
    ensures StreamInvariant(now, log, currency)
  {
    RetryKeepsSources(row, v, settings, currency);
  }

  lemma NewRequestRegistered(s: System, after: System, request: Request)
    requires Registered(s) && ValidRequest(request) && request.stream !in s.requested
    requires after == s.(requested := s.requested[request.stream := request])
    ensures Registered(after)
  {
  }

  lemma NewRequestKeepsRest(s: System, after: System, currencies: Currencies)
    requires StreamsSound(s, currencies) && Fenced(s) && BatchesMirror(s)
    requires after.store == s.store && after.workers == s.workers
    requires after.used == s.used && after.batches == s.batches
    ensures StreamsSound(after, currencies) && Fenced(after) && BatchesMirror(after)
  {
  }

  lemma AskKeeps(s: System, request: Request, settings: Settings, currencies: Currencies)
    requires Invariant(s, currencies) && Enabled(s, Ask(request), currencies)
    ensures Invariant(Next(s, Ask(request), settings, currencies), currencies)
  {
    if request.stream !in s.requested {
      var after := s.(requested := s.requested[request.stream := request]);
      NewRequestRegistered(s, after, request);
      NewRequestKeepsRest(s, after, currencies);
    }
  }

  /** One stream changes, soundly, and nothing is said. */
  lemma SoundUpdate(s: System, after: System, id: Id, row: Row, currencies: Currencies)
    requires StreamsSound(s, currencies)
    requires after.store.outbox == s.store.outbox && after.store.streams == s.store.streams[id := row]
    requires StreamInvariant(row, Emitted(s.store.outbox, id), currencies(row.request.asset))
    ensures StreamsSound(after, currencies)
  {
    forall other | other in after.store.streams
      ensures StreamInvariant(after.store.streams[other], Emitted(after.store.outbox, other),
                              currencies(after.store.streams[other].request.asset))
    {
      if other != id {
        assert after.store.streams[other] == s.store.streams[other];
      }
    }
  }

  lemma AddKeepsRest(s: System, id: Id, samplingOn: bool)
    requires Registered(s) && Fenced(s) && BatchesMirror(s) && id in s.requested && id !in s.store.streams
    ensures var after := s.(store := Register(s.store, s.requested[id], samplingOn));
            Registered(after) && Fenced(after) && BatchesMirror(after)
  {
  }

  lemma AddKeeps(s: System, id: Id, samplingOn: bool, settings: Settings, currencies: Currencies)
    requires Invariant(s, currencies) && Enabled(s, Add(id, samplingOn), currencies)
    ensures Invariant(Next(s, Add(id, samplingOn), settings, currencies), currencies)
  {
    var request := s.requested[id];
    if id !in s.store.streams {
      FreshStream(request, samplingOn, currencies(request.asset));
      SoundUpdate(s, Next(s, Add(id, samplingOn), settings, currencies), id, NewRow(request, samplingOn), currencies);
      AddKeepsRest(s, id, samplingOn);
    }
  }

  lemma LeaseKeepsRest(s: System, id: Id, token: Token, now: Time)
    requires Registered(s) && Fenced(s) && BatchesMirror(s) && token !in s.used && Claimable(s.store, id, now)
    ensures var store := Claim(s.store, id, token, now);
            var after := s.(store := store, workers := s.workers[token := store.streams[id]], used := s.used + {token});
            Registered(after) && Fenced(after) && BatchesMirror(after)
  {
  }

  lemma LeaseKeeps(s: System, id: Id, token: Token, now: Time, settings: Settings, currencies: Currencies)
    requires Invariant(s, currencies) && Enabled(s, Lease(id, token, now), currencies)
    ensures Invariant(Next(s, Lease(id, token, now), settings, currencies), currencies)
  {
    var row := s.store.streams[id];
    var leased := row.(lease := Some(token), nextAttemptAt := now + 300);
    SameStreamSound(row, leased, Emitted(s.store.outbox, id), currencies(row.request.asset));
    SoundUpdate(s, Next(s, Lease(id, token, now), settings, currencies), id, leased, currencies);
    LeaseKeepsRest(s, id, token, now);
  }

  lemma DieKeeps(s: System, token: Token, settings: Settings, currencies: Currencies)
    requires Invariant(s, currencies) && Enabled(s, Die(token), currencies)
    ensures Invariant(Next(s, Die(token), settings, currencies), currencies)
  {
  }

  /** The store after a held attempt: its own row, and what it said. */
  lemma HeldConclusion(store: Store, row: Row, token: Token, v: Visit, settings: Settings)
    requires Holds(store, row.request.stream, token) && store.streams[row.request.stream] == row
    ensures var g := Gather(row, v, settings);
            var after := Conclude(store, row, token, v, settings);
            var id := row.request.stream;
            && after.streams.Keys == store.streams.Keys
            && (forall other :: other in store.streams && other != id ==> after.streams[other] == store.streams[other])
            && after.streams[id].lease.None?
            && (g.Fetched? ==> var w := Write(row, g, v, settings);
                               after.streams[id] == w.row && after.outbox == store.outbox + Spoken(w))
            && (g.Retry? ==> after.outbox == store.outbox && after.streams[id].bars == row.bars
                             && after.streams[id].revision == row.revision && after.streams[id].done == row.done
                             && after.streams[id].mode == g.mode && after.streams[id].fallback == g.fallback
                             && after.streams[id].request == row.request)
  {
    var g := Gather(row, v, settings);
    if g.Fetched? {
      var w := Write(row, g, v, settings);
      assert w.message.None? ==> store.outbox + Spoken(w) == store.outbox;
    }
  }

  lemma FinishKeepsStream(s: System, token: Token, v: Visit, settings: Settings, currencies: Currencies)
    requires Invariant(s, currencies) && Enabled(s, Finish(token, v), currencies)
    requires Holds(s.store, s.workers[token].request.stream, token)
    ensures var row := s.workers[token];
            var id := row.request.stream;
            var after := Conclude(s.store, row, token, v, settings);
            && id in after.streams
            && StreamInvariant(after.streams[id], Emitted(after.outbox, id), currencies(row.request.asset))
            && Emitted(s.store.outbox, id) <= Emitted(after.outbox, id)
            && after.streams[id].request == row.request
            && (forall other :: other != id ==> Emitted(after.outbox, other) == Emitted(s.store.outbox, other))
  {
    var row := s.workers[token];
    var id := row.request.stream;
    var currency := currencies(row.request.asset);
    var log := Emitted(s.store.outbox, id);
    var after := Conclude(s.store, row, token, v, settings);
    HeldConclusion(s.store, row, token, v, settings);
    var g := Gather(row, v, settings);
    if g.Fetched? {
      var w := Write(row, g, v, settings);
      WriteKeepsStream(row, log, v, settings, currency);
      SpokenIsEmitted(s.store.outbox, w, row);
    } else {
      PostponedSound(row, after.streams[id], log, v, settings, currency);
    }
  }

  lemma SpokenIsEmitted(outbox: seq<Message>, w: Written, row: Row)
    requires w.message.Some? ==> w.message.value.stream == row.request.stream
    ensures Emitted(outbox + Spoken(w), row.request.stream) == Emitted(outbox, row.request.stream) + Spoken(w)
    ensures forall other :: other != row.request.stream ==> Emitted(outbox + Spoken(w), other) == Emitted(outbox, other)
  {
    if w.message.Some? {
      forall id ensures Emitted(outbox + Spoken(w), id)
                        == Emitted(outbox, id) + if w.message.value.stream == id then [w.message.value] else []
      {
        EmittedAppends(outbox, w.message.value, id);
      }
    } else {
      assert outbox + Spoken(w) == outbox;
      assert Emitted(outbox, row.request.stream) + [] == Emitted(outbox, row.request.stream);
    }
  }

  /** A held attempt ends: its stream moves on, the others and their logs stay. */
  lemma HeldFinishSound(s: System, after: System, id: Id, currencies: Currencies)
    requires StreamsSound(s, currencies) && id in s.store.streams
    requires after.store.streams.Keys == s.store.streams.Keys
    requires forall other :: other in s.store.streams && other != id ==>
                               after.store.streams[other] == s.store.streams[other]
    requires forall other :: other != id ==> Emitted(after.store.outbox, other) == Emitted(s.store.outbox, other)
    requires StreamInvariant(after.store.streams[id], Emitted(after.store.outbox, id),
                             currencies(after.store.streams[id].request.asset))
    ensures StreamsSound(after, currencies)
  {
    forall other | other in after.store.streams
      ensures StreamInvariant(after.store.streams[other], Emitted(after.store.outbox, other),
                              currencies(after.store.streams[other].request.asset))
    {
      if other != id {
        assert after.store.streams[other] == s.store.streams[other];
      }
    }
  }

  lemma HeldFinishRest(s: System, after: System, token: Token, id: Id)
    requires Registered(s) && Fenced(s) && BatchesMirror(s)
    requires token in s.workers && id == s.workers[token].request.stream
    requires Holds(s.store, id, token)
    requires after == s.(store := after.store, workers := s.workers - {token})
    requires after.store.streams.Keys == s.store.streams.Keys
    requires forall other :: other in s.store.streams && other != id ==>
                               after.store.streams[other] == s.store.streams[other]
    requires after.store.streams[id].lease.None? && after.store.streams[id].request == s.store.streams[id].request
    requires forall other :: Emitted(s.store.outbox, other) <= Emitted(after.store.outbox, other)
    ensures Registered(after) && Fenced(after) && BatchesMirror(after)
  {
  }

  lemma FinishKeeps(s: System, token: Token, v: Visit, settings: Settings, currencies: Currencies)
    requires Invariant(s, currencies) && Enabled(s, Finish(token, v), currencies)
    ensures Invariant(Next(s, Finish(token, v), settings, currencies), currencies)
  {
    var row := s.workers[token];
    var after := Next(s, Finish(token, v), settings, currencies);
    if Holds(s.store, row.request.stream, token) {
      FinishKeepsStream(s, token, v, settings, currencies);
      HeldConclusion(s.store, row, token, v, settings);
      HeldFinishSound(s, after, row.request.stream, currencies);
      HeldFinishRest(s, after, token, row.request.stream);
    } else {
      DieKeeps(s, token, settings, currencies);
    }
  }

  /** The message is a revision of its stream's log that the stream's request accepts. */
  ghost predicate Known(m: Message, log: seq<Message>, request: Request, currency: string) {
    1 <= m.revision <= |log| && log[m.revision - 1] == m && Complaint(m, request, currency).None?
  }

  lemma KnownRevision(row: Row, log: seq<Message>, i: nat, currency: string)
    requires StreamInvariant(row, log, currency) && i < |log|
    ensures Known(log[i], log, row.request, currency)
  {
  }

  lemma SilentUnlessStored(s: System, id: Id, currencies: Currencies)
    requires StreamsSound(s, currencies) && Emitted(s.store.outbox, id) != []
    ensures id in s.store.streams
    ensures StreamInvariant(s.store.streams[id], Emitted(s.store.outbox, id),
                            currencies(s.store.streams[id].request.asset))
  {
  }

  /** A message in the outbox belongs to a stream that was requested, and is one of its log's revisions. */
  lemma OutboxMessageKnown(s: System, k: nat, currencies: Currencies)
    requires Invariant(s, currencies) && k < |s.store.outbox|
    ensures s.store.outbox[k].stream in s.requested
    ensures var m := s.store.outbox[k];
            Known(m, Emitted(s.store.outbox, m.stream), s.requested[m.stream], currencies(s.requested[m.stream].asset))
  {
    var m := s.store.outbox[k];
    var i := EmittedPosition(s.store.outbox, k);
    SilentUnlessStored(s, m.stream, currencies);
    KnownRevision(s.store.streams[m.stream], Emitted(s.store.outbox, m.stream), i,
                  currencies(s.store.streams[m.stream].request.asset));
  }

  /** A known message is stored, or already there. */
  lemma KnownIsReceived(table: Table, m: Message, log: seq<Message>, request: Request, currency: string)
    requires Mirrors(table, log) && Known(m, log, request, currency)
    ensures var (after, reply) := Receive(table, m, request, currency);
            (reply == Stored || reply == Repeated) && m.revision in after && Mirrors(after, log)
  {
  }

  lemma KnownArrives(s: System, m: Message, currencies: Currencies)
    requires BatchesMirror(s) && m.stream in s.requested
    requires Known(m, Emitted(s.store.outbox, m.stream), s.requested[m.stream], currencies(s.requested[m.stream].asset))
    ensures var (after, reply) := Arrive(s, m, currencies);
            && (reply == Stored || reply == Repeated)
            && m.revision in TableOf(after, m.stream)
            && BatchesMirror(after) && after == s.(batches := after.batches)
  {
    var request := s.requested[m.stream];
    KnownIsReceived(TableOf(s, m.stream), m, Emitted(s.store.outbox, m.stream), request, currencies(request.asset));
  }

  /** However late, repeated or reordered, no delivery is ever refused. */
  lemma DeliveriesAreAccepted(s: System, k: nat, currencies: Currencies)
    requires Invariant(s, currencies) && k < |s.store.outbox|
    ensures var (after, reply) := Arrive(s, s.store.outbox[k], currencies);
            && (reply == Stored || reply == Repeated)
            && s.store.outbox[k].revision in TableOf(after, s.store.outbox[k].stream)
            && BatchesMirror(after) && after == s.(batches := after.batches)
  {
    var m := s.store.outbox[k];
    OutboxMessageKnown(s, k, currencies);
    KnownArrives(s, m, currencies);
  }

  lemma DeliverKeeps(s: System, k: nat, settings: Settings, currencies: Currencies)
    requires Invariant(s, currencies) && Enabled(s, Deliver(k), currencies)
    ensures Invariant(Next(s, Deliver(k), settings, currencies), currencies)
  {
    DeliveriesAreAccepted(s, k, currencies);
    SameStoreSame(s, Next(s, Deliver(k), settings, currencies), currencies);
  }

  lemma SameStoreSame(s: System, after: System, currencies: Currencies)
    requires Registered(s) && StreamsSound(s, currencies) && Fenced(s) && after == s.(batches := after.batches)
    ensures Registered(after) && StreamsSound(after, currencies) && Fenced(after)
  {
  }

  lemma EventKeepsInvariant(s: System, e: Event, settings: Settings, currencies: Currencies)
    requires Invariant(s, currencies) && Enabled(s, e, currencies)
    ensures Invariant(Next(s, e, settings, currencies), currencies)
  {
    match e
    case Ask(request) => AskKeeps(s, request, settings, currencies);
    case Add(id, samplingOn) => AddKeeps(s, id, samplingOn, settings, currencies);
    case Lease(id, token, now) => LeaseKeeps(s, id, token, now, settings, currencies);
    case Finish(token, v) => FinishKeeps(s, token, v, settings, currencies);
    case Die(token) => DieKeeps(s, token, settings, currencies);
    case Deliver(k) => DeliverKeeps(s, k, settings, currencies);
  }

  // ---- Whole runs ----

  /** The states a history passes through, starting with the empty system. */
  ghost predicate History(states: seq<System>, events: seq<Event>, settings: Settings, currencies: Currencies) {
    && |states| == |events| + 1 && states[0] == INITIAL
    && forall i :: 0 <= i < |events| ==>
                     Enabled(states[i], events[i], currencies)
                     && states[i + 1] == Next(states[i], events[i], settings, currencies)
  }

  lemma {:induction false} InvariantHolds(
    states: seq<System>, events: seq<Event>, settings: Settings, currencies: Currencies, i: nat)
    requires History(states, events, settings, currencies) && i < |states|
    ensures Invariant(states[i], currencies)
  {
    if i > 0 {
      InvariantHolds(states, events, settings, currencies, i - 1);
      EventKeepsInvariant(states[i - 1], events[i - 1], settings, currencies);
    }
  }

  lemma {:induction false} EmittedPrefix(a: seq<Message>, b: seq<Message>, id: Id)
    requires a <= b
    ensures Emitted(a, id) <= Emitted(b, id)
    decreases |b|
  {
    if a != b {
      EmittedPrefix(a, b[..|b| - 1], id);
    }
  }

  lemma OutboxGrows(s: System, e: Event, settings: Settings, currencies: Currencies)
    requires Enabled(s, e, currencies)
    ensures s.store.outbox <= Next(s, e, settings, currencies).store.outbox
  {
  }

  lemma OutboxGrowsAt(
    states: seq<System>, events: seq<Event>, settings: Settings, currencies: Currencies, i: nat)
    requires History(states, events, settings, currencies) && i < |events|
    ensures states[i].store.outbox <= states[i + 1].store.outbox
  {
    OutboxGrows(states[i], events[i], settings, currencies);
  }

  lemma {:induction false} PrefixChain(logs: seq<seq<Message>>, i: nat, n: nat)
    requires i <= n < |logs| && forall k :: 0 <= k < |logs| - 1 ==> logs[k] <= logs[k + 1]
    ensures logs[i] <= logs[n]
    decreases n
  {
    if i < n {
      PrefixChain(logs, i, n - 1);
    }
  }

  lemma LogGrows(
    states: seq<System>, events: seq<Event>, settings: Settings, currencies: Currencies, i: nat, n: nat)
    requires History(states, events, settings, currencies) && i <= n < |states|
    ensures states[i].store.outbox <= states[n].store.outbox
  {
    var logs := seq(|states|, k requires 0 <= k < |states| => states[k].store.outbox);
    forall k | 0 <= k < |logs| - 1 ensures logs[k] <= logs[k + 1] {
      OutboxGrowsAt(states, events, settings, currencies, k);
    }
    PrefixChain(logs, i, n);
  }

  /** A stream starts at revision 0 and moves by at most one. */
  lemma RevisionStep(s: System, e: Event, settings: Settings, currencies: Currencies, id: Id)
    requires Enabled(s, e, currencies) && Fenced(s)
    requires id in Next(s, e, settings, currencies).store.streams
    ensures var now := Next(s, e, settings, currencies).store.streams[id].revision;
            if id in s.store.streams then s.store.streams[id].revision <= now <= s.store.streams[id].revision + 1
            else now == 0
  {
    if e.Finish? {
      ConclusionRevision(s.store, s.workers[e.token], e.token, e.visit, settings, id);
    }
  }

  lemma ConclusionRevision(store: Store, row: Row, token: Token, v: Visit, settings: Settings, id: Id)
    requires Holds(store, row.request.stream, token) ==> store.streams[row.request.stream] == row
    requires id in Conclude(store, row, token, v, settings).streams
    ensures id in store.streams
    ensures var was, now := store.streams[id].revision, Conclude(store, row, token, v, settings).streams[id].revision;
            was <= now <= was + 1
  {
    if Holds(store, row.request.stream, token) {
      HeldConclusion(store, row, token, v, settings);
      var g := Gather(row, v, settings);
      if g.Fetched? {
        SaysWhatItStores(row, g, v, settings);
      }
    }
  }

  ghost predicate AtRevision(s: System, id: Id, k: nat) {
    id in s.store.streams && s.store.streams[id].revision == k
  }

  /** Every revision up to the current one was the current one at some point. */
  lemma {:induction false} RevisionReached(
    states: seq<System>, events: seq<Event>, settings: Settings, currencies: Currencies, n: nat, id: Id, k: nat)
    returns (i: nat)
    requires History(states, events, settings, currencies) && n < |states|
    requires id in states[n].store.streams && k <= states[n].store.streams[id].revision
    ensures i <= n && AtRevision(states[i], id, k)
    decreases n
  {
    if states[n].store.streams[id].revision == k {
      i := n;
    } else {
      InvariantHolds(states, events, settings, currencies, n - 1);
      RevisionStep(states[n - 1], events[n - 1], settings, currencies, id);
      i := RevisionReached(states, events, settings, currencies, n - 1, id, k);
    }
  }

  /** At any point of any history a stream's log is numbered 1, 2, 3, ..., replays to its bars, ends with a
      final message exactly when it is done, and says pages before charts with at most one replacement;
      its bars are all samples or all provider minutes. */
  lemma StreamsReplay(
    states: seq<System>, events: seq<Event>, settings: Settings, currencies: Currencies, n: nat, id: Id)
    requires History(states, events, settings, currencies) && n < |states| && id in states[n].store.streams
    ensures var row, log := states[n].store.streams[id], Emitted(states[n].store.outbox, id);
            && Replay(log) == row.bars && |log| == row.revision && Numbered(log, row.done)
            && InOrder(log) && (AllSampled(row.bars) || AllCharted(row.bars))
  {
    InvariantHolds(states, events, settings, currencies, n);
  }

  lemma LogIsNumbered(s: System, id: Id, currencies: Currencies)
    requires StreamsSound(s, currencies)
    ensures forall i :: 0 <= i < |Emitted(s.store.outbox, id)| ==> Emitted(s.store.outbox, id)[i].revision == i + 1
    ensures forall i :: 0 <= i < |Emitted(s.store.outbox, id)| - 1 ==> !Emitted(s.store.outbox, id)[i].final
  {
    if Emitted(s.store.outbox, id) != [] {
      SilentUnlessStored(s, id, currencies);
    }
  }

  /** Whatever was lost, repeated or reordered: the rows Verification uses are the longest prefix of the
      stream's log delivered without a gap. */
  lemma DeliveredPrefix(
    states: seq<System>, events: seq<Event>, settings: Settings, currencies: Currencies, n: nat, id: Id,
    rows: seq<Message>, k: nat)
    requires History(states, events, settings, currencies) && n < |states|
    requires Selected(rows, TableOf(states[n], id)) && Used(rows, k)
    ensures var log := Emitted(states[n].store.outbox, id);
            k <= |log| && rows[..k] == log[..k] && LongestPrefix(TableOf(states[n], id), k)
  {
    InvariantHolds(states, events, settings, currencies, n);
    LogIsNumbered(states[n], id, currencies);
    UsedIsPrefix(rows, TableOf(states[n], id), Emitted(states[n].store.outbox, id), k);
  }

  /** And the bars it rebuilds are the collector's bars as they were at that revision. */
  lemma EndToEnd(
    states: seq<System>, events: seq<Event>, settings: Settings, currencies: Currencies, n: nat, id: Id,
    rows: seq<Message>, k: nat, i: nat)
    requires History(states, events, settings, currencies) && n < |states|
    requires Selected(rows, TableOf(states[n], id)) && Used(rows, k)
    requires i <= n && AtRevision(states[i], id, k)
    ensures Summary(rows[..k]).bars == states[i].store.streams[id].bars
  {
    DeliveredPrefix(states, events, settings, currencies, n, id, rows, k);
    StreamsReplay(states, events, settings, currencies, i, id);
    LogGrows(states, events, settings, currencies, i, n);
    EmittedPrefix(states[i].store.outbox, states[n].store.outbox, id);
    assert Emitted(states[i].store.outbox, id) == rows[..k];
  }

  /** There is such a revision, and the rebuilt stream is final exactly when the collector is done and
      everything it said has arrived. */
  lemma EndToEndFinal(
    states: seq<System>, events: seq<Event>, settings: Settings, currencies: Currencies, n: nat, id: Id,
    rows: seq<Message>, k: nat)
    requires History(states, events, settings, currencies) && n < |states|
    requires Selected(rows, TableOf(states[n], id)) && Used(rows, k) && id in states[n].store.streams
    ensures exists i :: 0 <= i <= n && AtRevision(states[i], id, k)
    ensures Summary(rows[..k]).final <==> states[n].store.streams[id].done && k == states[n].store.streams[id].revision
  {
    DeliveredPrefix(states, events, settings, currencies, n, id, rows, k);
    StreamsReplay(states, events, settings, currencies, n, id);
    var i := RevisionReached(states, events, settings, currencies, n, id, k);
    var log := Emitted(states[n].store.outbox, id);
    if k > 0 {
      assert rows[..k][k - 1] == log[..k][k - 1];
    }
  }

  /** Lease fencing, for every interleaving of claims, expiries, failures, deaths and commits: a worker that
      still holds the lease started from the stream exactly as it is now, so nothing another worker wrote is
      lost; a worker that was superseded changes nothing. */
  lemma Fencing(
    states: seq<System>, events: seq<Event>, settings: Settings, currencies: Currencies, n: nat, token: Token, v: Visit)
    requires History(states, events, settings, currencies) && n < |events| && events[n] == Finish(token, v)
    ensures var s, after := states[n], states[n + 1];
            token in s.workers
            && var row := s.workers[token];
               if Holds(s.store, row.request.stream, token)
               then s.store.streams[row.request.stream] == row
               else after.store == s.store
  {
    InvariantHolds(states, events, settings, currencies, n);
    assert Enabled(states[n], events[n], currencies);
  }

  /** The stream went from `row` to `now`, saying `log` then `later`: still switching, or switched with one
      replacing message. */
  ghost predicate SwitchedOrSwitching(now: Row, log: seq<Message>, later: seq<Message>) {
    || (Switching(now) && later == log)
    || (&& |later| == |log| + 1 && later[..|log|] == log && later[|log|].replacing && later[|log|].source == Charts
        && AllCharted(now.bars))
  }

  lemma SwitchingFinish(s: System, token: Token, v: Visit, settings: Settings, currencies: Currencies)
    requires Invariant(s, currencies) && Enabled(s, Finish(token, v), currencies)
    requires Holds(s.store, s.workers[token].request.stream, token) && Switching(s.workers[token])
    ensures var id := s.workers[token].request.stream;
            var after := Conclude(s.store, s.workers[token], token, v, settings);
            id in after.streams
            && SwitchedOrSwitching(after.streams[id], Emitted(s.store.outbox, id), Emitted(after.outbox, id))
  {
    var row := s.workers[token];
    var currency := currencies(row.request.asset);
    HeldConclusion(s.store, row, token, v, settings);
    SwitchIsCarriedOut(row, v, settings);
    var g := Gather(row, v, settings);
    if g.Fetched? {
      var w := Write(row, g, v, settings);
      GatheredFits(row, v, settings, currency);
      WrittenBarsAgree(row, g, v, settings, currency);
      SpokenIsEmitted(s.store.outbox, w, row);
    }
  }

  lemma ConclusionElsewhere(store: Store, row: Row, token: Token, v: Visit, settings: Settings, id: Id)
    requires id in store.streams && !(row.request.stream == id && Holds(store, id, token))
    requires Holds(store, row.request.stream, token) ==> store.streams[row.request.stream] == row
    ensures id in Conclude(store, row, token, v, settings).streams
    ensures Conclude(store, row, token, v, settings).streams[id] == store.streams[id]
  {
    if Holds(store, row.request.stream, token) {
      HeldConclusion(store, row, token, v, settings);
      assert id in Conclude(store, row, token, v, settings).streams;
    }
  }

  lemma OtherEvents(s: System, e: Event, settings: Settings, currencies: Currencies, id: Id)
    requires Enabled(s, e, currencies) && id in s.store.streams && !e.Finish?
    requires forall x :: x in s.requested ==> s.requested[x].stream == x
    ensures id in Next(s, e, settings, currencies).store.streams
    ensures var row, now := s.store.streams[id], Next(s, e, settings, currencies).store.streams[id];
            now == row.(lease := now.lease, nextAttemptAt := now.nextAttemptAt)
  {
  }

  /** Events that do not conclude an attempt on the stream leave its source and bars alone. */
  lemma OtherEventsKeepSource(s: System, e: Event, settings: Settings, currencies: Currencies, id: Id)
    requires Enabled(s, e, currencies) && Fenced(s) && Registered(s) && id in s.store.streams
    requires e.Finish? ==> !(s.workers[e.token].request.stream == id && Holds(s.store, id, e.token))
    ensures var after := Next(s, e, settings, currencies).store;
            && id in after.streams && after.streams[id].mode == s.store.streams[id].mode
            && after.streams[id].bars == s.store.streams[id].bars
  {
    if e.Finish? {
      ConclusionElsewhere(s.store, s.workers[e.token], e.token, e.visit, settings, id);
    } else {
      OtherEvents(s, e, settings, currencies, id);
    }
  }

  lemma OtherEventsKeepLog(s: System, e: Event, settings: Settings, currencies: Currencies, id: Id)
    requires Enabled(s, e, currencies) && Fenced(s)
    requires e.Finish? ==> !(s.workers[e.token].request.stream == id && Holds(s.store, id, e.token))
    ensures Emitted(Next(s, e, settings, currencies).store.outbox, id) == Emitted(s.store.outbox, id)
  {
    if e.Finish? && Holds(s.store, s.workers[e.token].request.stream, e.token) {
      var row := s.workers[e.token];
      HeldConclusion(s.store, row, e.token, e.visit, settings);
      var g := Gather(row, e.visit, settings);
      if g.Fetched? {
        SpokenIsEmitted(s.store.outbox, Write(row, g, e.visit, settings), row);
      }
    }
  }

  /** Of all the messages so far, exactly the first one after `log` replaces, and it is from charts. */
  ghost predicate CarriedOutAfter(log: seq<Message>, later: seq<Message>) {
    && log < later && later[|log|].replacing && later[|log|].source == Charts
    && forall i :: 0 <= i < |later| && i != |log| ==> !later[i].replacing
  }

  /** A stream's logs and whether it was switching, one entry per state. */
  ghost predicate SwitchRun(logs: seq<seq<Message>>, switching: seq<bool>) {
    && |logs| == |switching|
    && (forall i :: 0 <= i < |logs| ==> InOrder(logs[i]))
    && (forall i :: 0 <= i < |logs| - 1 ==> SwitchMove(logs[i], switching[i], logs[i + 1], switching[i + 1]))
  }

  ghost predicate SwitchMove(log: seq<Message>, before: bool, later: seq<Message>, after: bool) {
    && log <= later
    && (before ==> || (after && later == log)
                   || (|log| < |later| && later[|log|].replacing && later[|log|].source == Charts))
  }

  lemma {:induction false} SwitchRunEnds(logs: seq<seq<Message>>, switching: seq<bool>, n: nat, m: nat)
    requires SwitchRun(logs, switching) && n <= m < |logs| && switching[n]
    ensures (switching[m] && logs[m] == logs[n]) || CarriedOutAfter(logs[n], logs[m])
    decreases m
  {
    if n < m {
      SwitchRunEnds(logs, switching, n, m - 1);
      assert SwitchMove(logs[m - 1], switching[m - 1], logs[m], switching[m]);
      ReplacedOnlyHere(logs[n], logs[m]);
    }
  }

  ghost predicate IsSwitching(s: System, id: Id) {
    id in s.store.streams && Switching(s.store.streams[id])
  }

  lemma StreamMoves(
    states: seq<System>, events: seq<Event>, settings: Settings, currencies: Currencies, i: nat, id: Id)
    requires History(states, events, settings, currencies) && i < |events|
    ensures SwitchMove(Emitted(states[i].store.outbox, id), IsSwitching(states[i], id),
                       Emitted(states[i + 1].store.outbox, id), IsSwitching(states[i + 1], id))
  {
    OutboxGrowsAt(states, events, settings, currencies, i);
    EmittedPrefix(states[i].store.outbox, states[i + 1].store.outbox, id);
    if IsSwitching(states[i], id) {
      SwitchAt(states, events, settings, currencies, i, id);
    }
  }

  lemma LogInOrder(
    states: seq<System>, events: seq<Event>, settings: Settings, currencies: Currencies, i: nat, id: Id)
    requires History(states, events, settings, currencies) && i < |states|
    ensures InOrder(Emitted(states[i].store.outbox, id))
  {
    InvariantHolds(states, events, settings, currencies, i);
    if Emitted(states[i].store.outbox, id) != [] {
      SilentUnlessStored(states[i], id, currencies);
    }
  }

  /** A switch that a failed fetch interrupted is never forgotten. However much later, the stream is still in the
      middle of it and has said nothing since, or the first thing it said was the one message that replaces. */
  lemma SwitchSurvives(
    states: seq<System>, events: seq<Event>, settings: Settings, currencies: Currencies, n: nat, m: nat, id: Id)
    requires History(states, events, settings, currencies) && n <= m < |states| && IsSwitching(states[n], id)
    ensures var log, later := Emitted(states[n].store.outbox, id), Emitted(states[m].store.outbox, id);
            (IsSwitching(states[m], id) && later == log) || CarriedOutAfter(log, later)
  {
    var logs := seq(|states|, k requires 0 <= k < |states| => Emitted(states[k].store.outbox, id));
    var switching := seq(|states|, k requires 0 <= k < |states| => IsSwitching(states[k], id));
    forall k | 0 <= k < |logs| ensures InOrder(logs[k]) {
      LogInOrder(states, events, settings, currencies, k, id);
    }
    forall k | 0 <= k < |logs| - 1 ensures SwitchMove(logs[k], switching[k], logs[k + 1], switching[k + 1]) {
      StreamMoves(states, events, settings, currencies, k, id);
    }
    SwitchRunEnds(logs, switching, n, m);
  }

  /** Replacing at most once, a log that replaces right after `log` replaces nowhere else. */
  lemma ReplacedOnlyHere(log: seq<Message>, later: seq<Message>)
    requires log <= later && InOrder(later)
    ensures |log| < |later| && later[|log|].replacing && later[|log|].source == Charts ==> CarriedOutAfter(log, later)
  {
  }

  lemma SwitchAt(
    states: seq<System>, events: seq<Event>, settings: Settings, currencies: Currencies, n: nat, id: Id)
    requires History(states, events, settings, currencies) && n < |events|
    requires id in states[n].store.streams && Switching(states[n].store.streams[id])
    ensures id in states[n + 1].store.streams
    ensures SwitchedOrSwitching(states[n + 1].store.streams[id],
                                Emitted(states[n].store.outbox, id), Emitted(states[n + 1].store.outbox, id))
  {
    InvariantHolds(states, events, settings, currencies, n);
    SwitchStep(states[n], events[n], settings, currencies, id);
  }

  lemma SwitchStep(s: System, e: Event, settings: Settings, currencies: Currencies, id: Id)
    requires Invariant(s, currencies) && Enabled(s, e, currencies)
    requires id in s.store.streams && Switching(s.store.streams[id])
    ensures var after := Next(s, e, settings, currencies).store;
            id in after.streams
            && SwitchedOrSwitching(after.streams[id], Emitted(s.store.outbox, id), Emitted(after.outbox, id))
  {
    if e.Finish? && s.workers[e.token].request.stream == id && Holds(s.store, id, e.token) {
      SwitchingFinish(s, e.token, e.visit, settings, currencies);
      HeldConclusion(s.store, s.workers[e.token], e.token, e.visit, settings);
    } else {
      OtherEventsKeepSource(s, e, settings, currencies, id);
      OtherEventsKeepLog(s, e, settings, currencies, id);
    }
  }
}
