/** Scoring against a live stream: the ticks an evaluation goes through while the replication protocol runs. */
module ScoredHistory {
  import opened Wrappers
  import opened IntradayTypes
  import opened IntradayContract
  import opened Collector
  import opened StreamSafety
  import opened BatchLog
  import opened Replication
  import opened VerdictStability
  import opened IntradayVerification

  // ---- Tables only grow ----

  lemma TableGrows(s: System, e: Event, settings: Settings, currencies: Currencies, id: Id)
    requires Enabled(s, e, currencies)
    ensures TableOf(s, id).Keys <= TableOf(Next(s, e, settings, currencies), id).Keys
  {
  }

  lemma {:induction false} SubsetChain(keys: seq<set<nat>>, i: nat, n: nat)
    requires i <= n < |keys| && forall k :: 0 <= k < |keys| - 1 ==> keys[k] <= keys[k + 1]
    ensures keys[i] <= keys[n]
    decreases n
  {
    if i < n {
      SubsetChain(keys, i, n - 1);
    }
  }

  lemma TablesGrow(
    states: seq<System>, events: seq<Event>, settings: Settings, currencies: Currencies, i: nat, n: nat, id: Id)
    requires History(states, events, settings, currencies) && i <= n < |states|
    ensures TableOf(states[i], id).Keys <= TableOf(states[n], id).Keys
  {
    var keys := seq(|states|, k requires 0 <= k < |states| => TableOf(states[k], id).Keys);
    forall k | 0 <= k < |keys| - 1 ensures keys[k] <= keys[k + 1] {
      TableGrowsAt(states, events, settings, currencies, k, id);
    }
    SubsetChain(keys, i, n);
  }

  lemma TableGrowsAt(
    states: seq<System>, events: seq<Event>, settings: Settings, currencies: Currencies, i: nat, id: Id)
    requires History(states, events, settings, currencies) && i < |events|
    ensures TableOf(states[i], id).Keys <= TableOf(states[i + 1], id).Keys
  {
    TableGrows(states[i], events[i], settings, currencies, id);
  }

  /** So the usable prefix never gets shorter. */
  lemma LongerTableLongerPrefix(table: Table, later: Table, k: nat, n: nat)
    requires table.Keys <= later.Keys && LongestPrefix(table, k) && LongestPrefix(later, n)
    ensures k <= n
  {
    assert n + 1 <= k ==> n + 1 in table.Keys;
  }

  // ---- What a scoring sees ----

  /** One thing that happens to an evaluation: it is scored from what has arrived by some point of the history,
      or its prediction is superseded. */
  datatype Visit =
    | Scoring(point: nat, rows: seq<Message>, used: nat, bars: seq<Bar>, superseded: Option<Time>, now: Time)
    | Superseding(decisionAt: Time)

  ghost predicate SeesHistory(v: Visit, states: seq<System>, id: Id) {
    v.Scoring? ==>
      && v.point < |states| && Selected(v.rows, TableOf(states[v.point], id)) && Used(v.rows, v.used)
      && Lists(v.bars, Summary(v.rows[..v.used]).bars)
  }

  ghost function TickOf(v: Visit): Tick
    requires v.Scoring? ==> v.used <= |v.rows|
  {
    match v
    case Scoring(_, rows, used, bars, superseded, now) => TickFrom(superseded, bars, rows, used, now)
    case Superseding(at) => Supersede(at)
  }

  /** The stream has only ever spoken from charts, without replacing anything. */
  ghost predicate ChartsOnly(log: seq<Message>) {
    forall i :: 0 <= i < |log| ==> log[i].source == Charts && !log[i].replacing
  }

  lemma {:induction false} ChartsReplayCharted(log: seq<Message>, request: Request, currency: string)
    requires AllPromised(log, request, currency) && ChartsOnly(log)
    ensures Keyed(Replay(log))
    ensures forall t :: t in Replay(log) ==> ValidBar(Replay(log)[t]) && Replay(log)[t].sample.None?
  {
    if log != [] {
      var last := log[|log| - 1];
      ChartsReplayCharted(log[..|log| - 1], request, currency);
      ByStartContents(last.bars);
      assert Promised(last, request, currency);
      NoBarComplaint(last.bars, last, request, currency);
      forall b | b in last.bars ensures ValidBar(b) && b.sample.None? {
        assert BarComplaint(b, last, request, currency).None?;
      }
    }
  }

  lemma PrefixPromised(log: seq<Message>, k: nat, request: Request, currency: string)
    requires AllPromised(log, request, currency) && ChartsOnly(log) && k <= |log|
    ensures AllPromised(log[..k], request, currency) && ChartsOnly(log[..k])
  {
  }

  lemma LogIsPromised(s: System, id: Id, currencies: Currencies)
    requires StreamsSound(s, currencies) && id in s.store.streams
    ensures AllPromised(Emitted(s.store.outbox, id), s.store.streams[id].request,
                        currencies(s.store.streams[id].request.asset))
  {
  }

  /** What a scoring lists are provider minutes: a replayed prefix of the stream's log. */
  lemma ScoringSeesPrefix(
    states: seq<System>, events: seq<Event>, settings: Settings, currencies: Currencies, id: Id, v: Visit, n: nat)
    requires History(states, events, settings, currencies) && v.Scoring? && v.point <= n < |states|
    requires SeesHistory(v, states, id)
    requires id in states[n].store.streams && ChartsOnly(Emitted(states[n].store.outbox, id))
    ensures var log := Emitted(states[n].store.outbox, id);
            && v.used <= |log| && Lists(v.bars, Replay(log[..v.used])) && Keyed(Replay(log[..v.used]))
            && Charted(v.bars)
            && LongestPrefix(TableOf(states[v.point], id), v.used)
  {
    var log := Emitted(states[n].store.outbox, id);
    DeliveredPrefix(states, events, settings, currencies, v.point, id, v.rows, v.used);
    LogGrows(states, events, settings, currencies, v.point, n);
    EmittedPrefix(states[v.point].store.outbox, states[n].store.outbox, id);
    assert v.rows[..v.used] == log[..v.used];
    InvariantHolds(states, events, settings, currencies, n);
    var request := states[n].store.streams[id].request;
    LogIsPromised(states[n], id, currencies);
    PrefixPromised(log, v.used, request, currencies(request.asset));
    ChartsReplayCharted(log[..v.used], request, currencies(request.asset));
  }

  /** Later scorings see no fewer minutes. */
  lemma ScoringsArrive(
    states: seq<System>, events: seq<Event>, settings: Settings, currencies: Currencies, id: Id, v: Visit, w: Visit,
    n: nat)
    requires History(states, events, settings, currencies) && v.Scoring? && w.Scoring?
    requires v.point <= w.point <= n < |states| && SeesHistory(v, states, id) && SeesHistory(w, states, id)
    requires id in states[n].store.streams && ChartsOnly(Emitted(states[n].store.outbox, id))
    ensures NoMinuteLost(v.bars, w.bars)
  {
    ScoringSeesPrefix(states, events, settings, currencies, id, v, n);
    ScoringSeesPrefix(states, events, settings, currencies, id, w, n);
    TablesGrow(states, events, settings, currencies, v.point, w.point, id);
    LongerTableLongerPrefix(TableOf(states[v.point], id), TableOf(states[w.point], id), v.used, w.used);
    PrefixesArrive(Emitted(states[n].store.outbox, id), v.used, w.used, v.bars, w.bars);
  }

  /** Scorings of one evaluation follow the history in order. */
  ghost predicate Follow(visits: seq<Visit>, states: seq<System>, id: Id, n: nat) {
    && (forall i :: 0 <= i < |visits| ==> SeesHistory(visits[i], states, id))
    && (forall i :: 0 <= i < |visits| && visits[i].Scoring? ==> visits[i].point <= n)
    && (forall i, j :: 0 <= i < j < |visits| && visits[i].Scoring? && visits[j].Scoring? ==>
                         visits[i].point <= visits[j].point)
  }

  ghost function TicksOf(visits: seq<Visit>): (ticks: seq<Tick>)
    requires forall i :: 0 <= i < |visits| && visits[i].Scoring? ==> visits[i].used <= |visits[i].rows|
    ensures |ticks| == |visits|
    ensures forall i :: 0 <= i < |visits| ==> ticks[i] == TickOf(visits[i])
  {
    seq(|visits|, i requires 0 <= i < |visits| => TickOf(visits[i]))
  }

  lemma HistoryArrives(
    states: seq<System>, events: seq<Event>, settings: Settings, currencies: Currencies, id: Id, visits: seq<Visit>,
    n: nat)
    requires History(states, events, settings, currencies) && n < |states| && Follow(visits, states, id, n)
    requires id in states[n].store.streams && ChartsOnly(Emitted(states[n].store.outbox, id))
    ensures Arriving(TicksOf(visits))
  {
    var ticks := TicksOf(visits);
    forall i | 0 <= i < |ticks| && ticks[i].Score? ensures Charted(ticks[i].bars) {
      ScoringSeesPrefix(states, events, settings, currencies, id, visits[i], n);
    }
    forall i, j | 0 <= i < j < |ticks| && ticks[i].Score? && ticks[j].Score?
      ensures NoMinuteLost(ticks[i].bars, ticks[j].bars)
    {
      ScoringsArrive(states, events, settings, currencies, id, visits[i], visits[j], n);
    }
  }

  /** While the replication protocol runs, in whatever way, and the stream speaks from charts without replacing:
      a baseline once recorded is kept, or the evaluation ends unscorable or withdrawn. */
  lemma BaselineIsKeptInHistory(
    states: seq<System>, events: seq<Event>, settings: Settings, currencies: Currencies, id: Id, visits: seq<Visit>,
    n: nat, rows: seq<IntradayVerification.Row>, i: nat, j: nat)
    requires History(states, events, settings, currencies) && n < |states| && Follow(visits, states, id, n)
    requires id in states[n].store.streams && ChartsOnly(Emitted(states[n].store.outbox, id))
    requires Course(rows, TicksOf(visits)) && i <= j < |rows| && BaselineOf(rows[i]).Some?
    ensures Ended(rows[j]) || BaselineOf(rows[j]) == BaselineOf(rows[i])
  {
    HistoryArrives(states, events, settings, currencies, id, visits, n);
    BaselineIsKept(rows, TicksOf(visits), i, j);
  }
}
