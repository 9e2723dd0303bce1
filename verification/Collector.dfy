/**
 Collecting one session of minutes: a leased attempt reads a source, works out the change against the
 bars it saw, and commits the change as the next revision only if it still holds the lease.
 */
module Collector {
  import opened Wrappers
  import opened IntradayTypes
  import Avanza
  import FinanceAdapter

  type Token = nat

  /** A stream as stored: the request, the bars so far, and who is working on it. */
  datatype Row = Row(
    request: Request, bars: map<Time, Bar>, revision: nat, done: bool, lease: Option<Token>,
    nextAttemptAt: Time, mode: Source, fallback: Option<string>, lastError: Option<string>)

  /** Retry window and finalization delay after the close, and the poll interval, in seconds. */
  datatype Settings = Settings(retry: nat, finalization: nat, poll: nat)

  datatype FinanceReply = Bars(bars: seq<Bar>) | Invalid | Unavailable

  /** What one attempt meets: the time, whether page sampling is on, what each source would answer, and
      the cadence of the sample the bars happen to list first. */
  datatype Visit = Visit(
    now: Time, samplingOn: bool, reading: Avanza.Reading, finance: FinanceReply, cadence: nat)

  /** The sources keep their promises. */
  ghost predicate Admissible(v: Visit, request: Request, currency: string) {
    && (v.reading.Minutes? ==>
          Avanza.SampledMinutes(v.reading.bars, request.opens, request.closes, currency, v.now))
    && (v.reading.Failed? ==> v.reading.reason != "")
    && (v.finance.Bars? ==> FinanceAdapter.FinanceMinutes(v.finance.bars, request.opens, request.closes, v.now))
    && v.cadence > 0
  }

  predicate AnySampled(bars: map<Time, Bar>) {
    exists t :: t in bars && bars[t].sample.Some?
  }

  /** What an attempt meets, read from the sources themselves. Pages whose session no longer has the requested
      window, and charts that cannot be had, are failures of their source. */
  method Meet(
    request: Request, now: Time, samplingOn: bool, cadence: nat, desk: Avanza.Desk,
    samples: seq<Avanza.PriceSample>, l: Avanza.Listing, chart: Option<FinanceAdapter.Chart>)
    returns (v: Visit)
    requires ValidRequest(request) && cadence > 0
    requires forall s :: s in samples ==> Avanza.ValidPriceSample(s)
    ensures Admissible(v, request, l.currency)
    ensures v.now == now && v.samplingOn == samplingOn && v.cadence == cadence
    ensures if l.session.opens == request.opens && l.session.closes == request.closes
            then Avanza.IsReading(desk, samples, l, now, v.reading)
            else v.reading == Avanza.Failed("AVANZA_READ_ERROR")
    ensures v.finance.Unavailable? <==> chart.None?
    ensures chart.Some? ==>
              FinanceAdapter.IsFiltered(
                chart.value, request.opens, request.closes, now,
                if v.finance.Bars? then Success(v.finance.bars) else Failure(""))
  {
    var reading := Avanza.Failed("AVANZA_READ_ERROR");
    if l.session.opens == request.opens && l.session.closes == request.closes {
      reading := Avanza.Read(desk, samples, l, now);
    }
    var finance := Unavailable;
    if chart.Some? {
      var bars := FinanceAdapter.Filter(chart.value, request.opens, request.closes, now);
      finance := if bars.Success? then Bars(bars.value) else Invalid;
    }
    v := Visit(now, samplingOn, reading, finance, cadence);
  }

  // ---- Reading a source ----

  datatype Gathered =
    | Retry(mode: Source, fallback: Option<string>)
    | Fetched(bars: seq<Bar>, replace: bool, mode: Source, fallback: Option<string>, failure: Option<string>)

  function Deadline(request: Request, settings: Settings): Time {
    request.closes + settings.retry
  }

  /** Pages first where they are on; any page failure switches the stream to charts for good. */
  function Gather(row: Row, v: Visit, settings: Settings): Gathered {
    var off := row.mode == Pages && !v.samplingOn;
    var mode := if off then Charts else row.mode;
    var fallback := if off then Some("FINANCE_MODE") else row.fallback;
    var replace := off || (row.mode == Charts && AnySampled(row.bars));
    if v.now > Deadline(row.request, settings) then
      Fetched([], replace, mode, fallback, Some("DATA_DEADLINE_EXPIRED"))
    else if mode == Pages then
      match v.reading
      case Minutes(bars) => Fetched(bars, replace, mode, fallback, None)
      case Pending => Fetched([], replace, mode, fallback, None)
      case Failed(reason) => FromCharts(v, true, true, Some(reason))
    else FromCharts(v, replace, AnySampled(row.bars), fallback)
  }

  /** A charts fetch; `refused` and `read` say whether the stored bars are replaced when the chart is
      invalid and when it is read. */
  function FromCharts(v: Visit, refused: bool, read: bool, fallback: Option<string>): Gathered {
    match v.finance
    case Bars(bars) => Fetched(bars, read, Charts, fallback, None)
    case Invalid => Fetched([], refused, Charts, fallback, Some("INVALID_PROVIDER_DATA"))
    case Unavailable => Retry(Charts, fallback)
  }

  // ---- The change ----

  /** The fetched bars that differ from what was there. */
  function Changed(previous: map<Time, Bar>, fetched: seq<Bar>): seq<Bar> {
    if fetched == [] then []
    else
      var b := fetched[|fetched| - 1];
      Changed(previous, fetched[..|fetched| - 1])
      + (if b.start in previous && previous[b.start] == b then [] else [b])
  }

  function Kept(row: Row, g: Gathered): map<Time, Bar>
    requires g.Fetched?
  {
    if g.replace then map[] else row.bars
  }

  function Slots(request: Request, cadence: nat): set<Time> {
    set t | request.opens <= t < request.closes && IsSlot(request.opens, cadence, t)
  }

  function SampledSlots(bars: map<Time, Bar>): set<Time> {
    set t | t in bars && bars[t].sample.Some? :: bars[t].sample.value.scheduledAt
  }

  predicate Complete(request: Request, mode: Source, bars: map<Time, Bar>, cadence: nat) {
    if mode == Pages then SampledSlots(bars) == Slots(request, cadence)
    else |bars| == (request.closes - request.opens) / MINUTE
  }

  /** What a successful attempt writes: the row, and the message if anything is worth saying. */
  datatype Written = Written(row: Row, message: Option<Message>)

  function Write(row: Row, g: Gathered, v: Visit, settings: Settings): Written
    requires g.Fetched?
  {
    var previous := Kept(row, g);
    var changed := Changed(previous, g.bars);
    var bars := previous + ByStart(changed);
    Assemble(row, g, v, settings, changed, bars, Complete(row.request, g.mode, bars, v.cadence))
  }

  /** An attempt is the last one when the provider failed for good, the session is complete and settled, or
      time is up. */
  predicate IsFinal(row: Row, g: Gathered, v: Visit, settings: Settings, complete: bool)
    requires g.Fetched?
  {
    || g.failure.Some?
    || (v.now >= row.request.closes + settings.finalization && complete)
    || v.now >= Deadline(row.request, settings)
  }

  function Assemble(
    row: Row, g: Gathered, v: Visit, settings: Settings, changed: seq<Bar>, bars: map<Time, Bar>, complete: bool)
    : Written
    requires g.Fetched?
  {
    var final := IsFinal(row, g, v, settings, complete);
    var failure := if final && !complete && g.failure.None? then Some("MISSING_BARS") else g.failure;
    var spoken := changed != [] || final || g.replace;
    var revision := if spoken then row.revision + 1 else row.revision;
    Written(
      Row(row.request, bars, revision, final, None, v.now + settings.poll, g.mode, g.fallback, failure),
      if spoken then
        Some(Message(row.request.stream, row.request.asset, row.request.registry, v.now, revision, changed, final,
                     failure, g.mode, g.fallback, g.replace))
      else None)
  }

  // ---- The store ----

  datatype Store = Store(streams: map<Id, Row>, outbox: seq<Message>)

  function NewRow(request: Request, samplingOn: bool): Row {
    Row(request, map[], 0, false, None, request.opens,
        if samplingOn && request.policy == LastKnownPrice then Pages else Charts, None, None)
  }

  /** A provider that is neither charted nor sampled, or another registry version, is refused. */
  predicate Registrable(request: Request, samplingOn: bool, charted: bool, registry: string) {
    && (charted || (samplingOn && request.policy == LastKnownPrice))
    && registry == request.registry
  }

  function Register(store: Store, request: Request, samplingOn: bool): Store {
    if request.stream in store.streams then store
    else store.(streams := store.streams[request.stream := NewRow(request, samplingOn)])
  }

  predicate Claimable(store: Store, id: Id, now: Time) {
    id in store.streams && !store.streams[id].done && store.streams[id].nextAttemptAt <= now
  }

  function Claim(store: Store, id: Id, token: Token, now: Time): Store
    requires Claimable(store, id, now)
  {
    store.(streams := store.streams[id := store.streams[id].(lease := Some(token), nextAttemptAt := now + 300)])
  }

  /** The stream is due, and none has been due longer. */
  ghost predicate Earliest(store: Store, id: Id, now: Time) {
    && Claimable(store, id, now)
    && forall other :: Claimable(store, other, now) ==>
                         store.streams[id].nextAttemptAt <= store.streams[other].nextAttemptAt
  }

  lemma {:induction false} EarliestExists(store: Store, due: set<Id>, now: Time)
    requires due != {} && forall id :: id in due ==> id in store.streams
    ensures exists id :: id in due && forall other :: other in due ==>
                           store.streams[id].nextAttemptAt <= store.streams[other].nextAttemptAt
    decreases |due|
  {
    var any :| any in due;
    if due != {any} {
      var rest := due - {any};
      assert rest != {};
      EarliestExists(store, rest, now);
      var first :| first in rest && forall other :: other in rest ==>
                     store.streams[first].nextAttemptAt <= store.streams[other].nextAttemptAt;
      var best := if store.streams[any].nextAttemptAt < store.streams[first].nextAttemptAt then any else first;
      assert best in due && forall other :: other in due ==>
               store.streams[best].nextAttemptAt <= store.streams[other].nextAttemptAt;
    }
  }

  predicate Holds(store: Store, id: Id, token: Token) {
    id in store.streams && store.streams[id].lease == Some(token)
  }

  /** A fetch that must be tried again gives the lease back and remembers the source. */
  function Postpone(store: Store, id: Id, token: Token, at: Time, mode: Source, fallback: Option<string>): Store {
    if !Holds(store, id, token) then store
    else store.(streams := store.streams[id := store.streams[id].(
                  lease := None, nextAttemptAt := at, lastError := Some("PROVIDER_UNAVAILABLE"),
                  mode := mode, fallback := fallback)])
  }

  /** The columns a commit sets. */
  function Landed(was: Row, w: Row): Row {
    was.(bars := w.bars, revision := w.revision, done := w.done, lease := None, nextAttemptAt := w.nextAttemptAt,
    lastError := w.lastError, mode := w.mode, fallback := w.fallback)
  }

  function Commit(store: Store, id: Id, token: Token, w: Written): Store {
    if !Holds(store, id, token) then store
    else Store(store.streams[id := Landed(store.streams[id], w.row)],
               if w.message.Some? then store.outbox + [w.message.value] else store.outbox)
  }

  /** The end of an attempt that started from `row`. Without the lease nothing is written. */
  function Conclude(store: Store, row: Row, token: Token, v: Visit, settings: Settings): Store {
    var g := Gather(row, v, settings);
    match g
    case Retry(mode, fallback) => Postpone(store, row.request.stream, token, v.now + settings.poll, mode, fallback)
    case Fetched(_, _, _, _, _) => Commit(store, row.request.stream, token, Write(row, g, v, settings))
  }

  class IntradayCollector {
    var streams: map<Id, Row>
    var outbox: seq<Message>
    const settings: Settings

    ghost function State(): Store
      reads this
    {
      Store(streams, outbox)
    }

    constructor (settings: Settings)
      ensures this.settings == settings && State() == Store(map[], [])
    {
      this.settings, streams, outbox := settings, map[], [];
    }

    method AddStream(request: Request, samplingOn: bool, charted: bool, registry: string) returns (accepted: bool)
      modifies this
      ensures accepted <==> Registrable(request, samplingOn, charted, registry)
      ensures State() == if accepted then Register(old(State()), request, samplingOn) else old(State())
    {
      var sampled := samplingOn && request.policy == LastKnownPrice;
      accepted := (charted || sampled) && registry == request.registry;
      if accepted && request.stream !in streams {
        streams := streams[request.stream :=
          Row(request, map[], 0, false, None, request.opens, if sampled then Pages else Charts, None, None)];
      }
    }

    /** Take the lease of the stream that has been due longest, if any is due. */
    method TakeLease(token: Token, now: Time) returns (taken: Option<Id>, row: Option<Row>)
      modifies this
      ensures taken.None? <==> forall id :: !Claimable(old(State()), id, now)
      ensures taken.None? ==> State() == old(State()) && row.None?
      ensures taken.Some? ==>
                && Earliest(old(State()), taken.value, now)
                && State() == Claim(old(State()), taken.value, token, now)
                && row == Some(streams[taken.value])
    {
      var due := set id | id in streams && !streams[id].done && streams[id].nextAttemptAt <= now;
      if due == {} {
        assert forall id :: Claimable(State(), id, now) ==> id in due;
        return None, None;
      }
      EarliestExists(State(), due, now);
      var id :| id in due && forall other :: other in due ==> streams[id].nextAttemptAt <= streams[other].nextAttemptAt;
      assert Claimable(State(), id, now) && forall other :: Claimable(State(), other, now) ==> other in due;
      streams := streams[id := streams[id].(lease := Some(token), nextAttemptAt := now + 300)];
      return Some(id), Some(streams[id]);
    }

    /** Read the source the stream is on, switching to charts where pages are off or fail. */
    method ReadSource(row: Row, v: Visit) returns (g: Gathered)
      ensures g == Gather(row, v, settings)
    {
      var mode, fallback := row.mode, row.fallback;
      var replace := mode == Charts && AnySampled(row.bars);
      if mode == Pages && !v.samplingOn {
        mode, fallback, replace := Charts, Some("FINANCE_MODE"), true;
      }
      if v.now > Deadline(row.request, settings) {
        return Fetched([], replace, mode, fallback, Some("DATA_DEADLINE_EXPIRED"));
      }
      if mode == Pages {
        match v.reading {
          case Minutes(bars) => return Fetched(bars, replace, mode, fallback, None);
          case Pending => return Fetched([], replace, mode, fallback, None);
          case Failed(reason) => mode, fallback, replace := Charts, Some(reason), true;
        }
      } else if v.finance.Bars? {
        replace := AnySampled(row.bars);
      }
      match v.finance {
        case Bars(bars) => g := Fetched(bars, replace, mode, fallback, None);
        case Invalid => g := Fetched([], replace, mode, fallback, Some("INVALID_PROVIDER_DATA"));
        case Unavailable => g := Retry(mode, fallback);
      }
    }

    /** Which bars changed, and the bars with the change applied. */
    method Merge(previous: map<Time, Bar>, fetched: seq<Bar>) returns (changed: seq<Bar>, bars: map<Time, Bar>)
      ensures changed == Changed(previous, fetched)
      ensures bars == previous + ByStart(changed)
    {
      changed := [];
      for i := 0 to |fetched|
        invariant changed == Changed(previous, fetched[..i])
      {
        assert fetched[..i + 1][..i] == fetched[..i];
        if !(fetched[i].start in previous && previous[fetched[i].start] == fetched[i]) {
          changed := changed + [fetched[i]];
        }
      }
      assert fetched[..|fetched|] == fetched;
      bars := previous;
      for i := 0 to |changed|
        invariant bars == previous + ByStart(changed[..i])
      {
        assert changed[..i + 1][..i] == changed[..i];
        bars := bars[changed[i].start := changed[i]];
      }
      assert changed[..|changed|] == changed;
    }

    /** Work out what the attempt would write, from the row it started from. */
    method Prepare(row: Row, g: Gathered, v: Visit) returns (w: Written)
      requires g.Fetched?
      ensures w == Write(row, g, v, settings)
    {
      var changed, bars := Merge(if g.replace then map[] else row.bars, g.bars);
      w := Announce(row, g, v, changed, bars, Complete(row.request, g.mode, bars, v.cadence));
    }

    method Announce(row: Row, g: Gathered, v: Visit, changed: seq<Bar>, bars: map<Time, Bar>, complete: bool)
      returns (w: Written)
      requires g.Fetched?
      ensures w == Assemble(row, g, v, settings, changed, bars, complete)
    {
      var final := g.failure.Some? || (v.now >= row.request.closes + settings.finalization && complete)
                   || v.now >= Deadline(row.request, settings);
      var failure := g.failure;
      if final && !complete && failure.None? {
        failure := Some("MISSING_BARS");
      }
      var revision, message := row.revision, None;
      if changed != [] || final || g.replace {
        revision := revision + 1;
        message := Some(Message(row.request.stream, row.request.asset, row.request.registry, v.now, revision, changed,
                                final, failure, g.mode, g.fallback, g.replace));
      }
      w := Written(
        Row(row.request, bars, revision, final, None, v.now + settings.poll, g.mode, g.fallback, failure), message);
    }

    method GiveBack(id: Id, token: Token, at: Time, mode: Source, fallback: Option<string>)
      modifies this
      ensures State() == Postpone(old(State()), id, token, at, mode, fallback)
    {
      if id in streams && streams[id].lease == Some(token) {
        streams := streams[id := streams[id].(
          lease := None, nextAttemptAt := at, lastError := Some("PROVIDER_UNAVAILABLE"),
          mode := mode, fallback := fallback)];
      }
    }

    /** One transaction, fenced by the lease. */
    method CommitAttempt(id: Id, token: Token, w: Written)
      modifies this
      ensures State() == Commit(old(State()), id, token, w)
    {
      if !(id in streams && streams[id].lease == Some(token)) {
        return;
      }
      if w.message.Some? {
        outbox := outbox + [w.message.value];
      }
      streams := streams[id := streams[id].(
        bars := w.row.bars, revision := w.row.revision, done := w.row.done, lease := None,
        nextAttemptAt := w.row.nextAttemptAt, lastError := w.row.lastError,
        mode := w.row.mode, fallback := w.row.fallback)];
    }

    /** Finish the attempt that started from `row`. */
    method Collect(row: Row, token: Token, v: Visit)
      modifies this
      ensures State() == Conclude(old(State()), row, token, v, settings)
    {
      var g := ReadSource(row, v);
      if g.Retry? {
        GiveBack(row.request.stream, token, v.now + settings.poll, g.mode, g.fallback);
      } else {
        var w := Prepare(row, g, v);
        CommitAttempt(row.request.stream, token, w);
      }
    }
  }
}
