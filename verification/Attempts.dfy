/**
 What one attempt leaves behind, said from what its sources answered: which bars are stored, which source the
 stream is on, whether it ends, and what is announced.
 */
module Attempts {
  import opened Wrappers
  import opened IntradayTypes
  import opened Collector
  import opened StreamSafety
  import opened BatchLog
  import opened Replication

  /** The outcome an attempt owes: the bars it kept, the bars it read, and where the stream now stands. */
  datatype Landing = Landing(
    kept: map<Time, Bar>, read: seq<Bar>, source: Source, fallback: Option<string>, replaced: bool,
    failure: Option<string>)

  predicate OnCadence(request: Request, cadence: nat, t: Time) {
    request.opens <= t < request.closes && cadence > 0 && (t - request.opens) % cadence == 0
  }

  predicate IsSampled(bars: map<Time, Bar>, t: Time) {
    exists k :: k in bars && bars[k].sample.Some? && bars[k].sample.value.scheduledAt == t
  }

  /** Every minute of the session on charts, every slot of the cadence and no other on pages. */
  ghost predicate Whole(request: Request, source: Source, bars: map<Time, Bar>, cadence: nat) {
    match source
    case Charts => MINUTE * |bars| == request.closes - request.opens
    case Pages => forall t :: OnCadence(request, cadence, t) <==> IsSampled(bars, t)
  }

  /** The stream ends on a failure, at the deadline, or once it is whole and settled. */
  ghost predicate Ends(row: Row, l: Landing, bars: map<Time, Bar>, v: Visit, settings: Settings) {
    || l.failure.Some?
    || v.now >= row.request.closes + settings.retry
    || (v.now >= row.request.closes + settings.finalization && Whole(row.request, l.source, bars, v.cadence))
  }

  ghost function Reason(row: Row, l: Landing, bars: map<Time, Bar>, v: Visit, settings: Settings): Option<string> {
    if l.failure.None? && Ends(row, l, bars, v, settings) && !Whole(row.request, l.source, bars, v.cadence)
    then Some("MISSING_BARS") else l.failure
  }

  /** The row an attempt leaves: what it kept with what it read over it. */
  ghost predicate RowLands(row: Row, now: Row, l: Landing, v: Visit, settings: Settings) {
    && now.request == row.request && now.lease.None? && now.nextAttemptAt == v.now + settings.poll
    && now.bars == l.kept + ByStart(l.read) && now.mode == l.source && now.fallback == l.fallback
    && (now.done <==> Ends(row, l, now.bars, v, settings))
    && now.lastError == Reason(row, l, now.bars, v, settings)
  }

  /** What is announced: the bars that differ from those kept, and how the row now stands. */
  ghost predicate MessageLands(row: Row, now: Row, l: Landing, v: Visit, m: Message) {
    && m.stream == row.request.stream && m.asset == row.request.asset && m.registry == row.request.registry
    && m.occurredAt == v.now && m.revision == row.revision + 1 && m.final == now.done && m.failure == now.lastError
    && m.source == l.source && m.fallback == l.fallback && m.replacing == l.replaced
    && DistinctStarts(m.bars)
    && forall b :: b in m.bars <==> b in l.read && !(b.start in l.kept && l.kept[b.start] == b)
  }

  /** The attempt changes its own stream, and announces it as the next revision exactly when bars changed, the
      stream ended or its bars were replaced. */
  ghost predicate Lands(store: Store, after: Store, row: Row, l: Landing, v: Visit, settings: Settings) {
    var id := row.request.stream;
    && after.streams.Keys == store.streams.Keys && id in after.streams
    && (forall other :: other in store.streams && other != id ==> after.streams[other] == store.streams[other])
    && var now := after.streams[id];
       && RowLands(row, now, l, v, settings)
       && if now.bars != row.bars || now.done || l.replaced
          then now.revision == row.revision + 1
               && exists m :: after.outbox == store.outbox + [m] && MessageLands(row, now, l, v, m)
          else now.revision == row.revision && after.outbox == store.outbox
  }

  // ---- Registration and claims ----

  /** A new stream starts empty, on pages exactly where they are sampled and asked for, and is due from the open on;
      a known stream and all others are left alone. */
  lemma StreamStarts(store: Store, request: Request, samplingOn: bool, charted: bool, registry: string, now: Time)
    ensures var after, id := Register(store, request, samplingOn), request.stream;
            var onPages := samplingOn && request.policy == LastKnownPrice;
            && (Registrable(request, samplingOn, charted, registry) <==>
                  registry == request.registry && (charted || onPages))
            && id in after.streams && after.outbox == store.outbox
            && (forall other :: other in store.streams ==>
                                  other in after.streams && after.streams[other] == store.streams[other])
            && (id !in store.streams ==>
                  && after.streams.Keys == store.streams.Keys + {id} && after.streams[id].request == request
                  && after.streams[id].bars == map[] && after.streams[id].revision == 0
                  && after.streams[id].fallback.None?
                  && after.streams[id].mode == (if onPages then Pages else Charts)
                  && (Claimable(after, id, now) <==> request.opens <= now))
  {
  }

  /** A claimed stream cannot be claimed again for five minutes, and can be from then on; nothing else changes. */
  lemma ClaimHoldsFor(store: Store, id: Id, token: Token, now: Time, at: Time)
    requires Claimable(store, id, now)
    ensures var after := Claim(store, id, token, now);
            && Holds(after, id, token) && (Claimable(after, id, at) <==> now + 300 <= at)
            && after.outbox == store.outbox && after.streams.Keys == store.streams.Keys
            && (forall other :: other in store.streams && other != id ==>
                                  after.streams[other] == store.streams[other])
            && after.streams[id].bars == store.streams[id].bars
            && after.streams[id].revision == store.streams[id].revision
  {
  }

  // ---- From the commit to its meaning ----

  lemma {:induction false} ChangedExactly(previous: map<Time, Bar>, fetched: seq<Bar>, b: Bar)
    ensures b in Changed(previous, fetched) <==> b in fetched && !(b.start in previous && previous[b.start] == b)
  {
    if fetched != [] {
      ChangedExactly(previous, fetched[..|fetched| - 1], b);
      assert fetched == fetched[..|fetched| - 1] + [fetched[|fetched| - 1]];
    }
  }

  /** Nothing changed exactly when overlaying what was read changes nothing. */
  lemma NoChangeMeans(previous: map<Time, Bar>, fetched: seq<Bar>)
    requires DistinctStarts(fetched)
    ensures Changed(previous, fetched) == [] <==> previous + ByStart(fetched) == previous
  {
    DeltaIsEnough(previous, fetched);
    var changed := Changed(previous, fetched);
    if changed == [] {
      assert previous + ByStart(changed) == previous;
    } else {
      var b := changed[|changed| - 1];
      assert b in changed;
      ChangedExactly(previous, fetched, b);
      assert ByStart(changed)[b.start] == b;
      assert (previous + ByStart(changed))[b.start] == b;
    }
  }

  lemma WholeMeansComplete(request: Request, source: Source, bars: map<Time, Bar>, cadence: nat)
    requires ValidRequest(request)
    ensures Complete(request, source, bars, cadence) <==> Whole(request, source, bars, cadence)
  {
    match source
    case Charts =>
      assert request.closes - request.opens == MINUTE * ((request.closes - request.opens) / MINUTE);
    case Pages =>
      forall t
        ensures t in Slots(request, cadence) <==> OnCadence(request, cadence, t)
        ensures t in SampledSlots(bars) <==> IsSampled(bars, t)
      {
      }
      if Complete(request, source, bars, cadence) {
        forall t ensures OnCadence(request, cadence, t) <==> IsSampled(bars, t) {
          assert t in SampledSlots(bars) <==> t in Slots(request, cadence);
        }
      }
      if Whole(request, source, bars, cadence) {
        forall t ensures t in SampledSlots(bars) <==> t in Slots(request, cadence) {
          assert OnCadence(request, cadence, t) <==> IsSampled(bars, t);
        }
      }
  }

  ghost function LandingOf(row: Row, g: Gathered): Landing
    requires g.Fetched?
  {
    Landing(if g.replace then map[] else row.bars, g.bars, g.mode, g.fallback, g.replace, g.failure)
  }

  lemma WrittenLands(row: Row, g: Gathered, v: Visit, settings: Settings)
    requires g.Fetched? && ValidRequest(row.request) && DistinctStarts(g.bars)
    ensures RowLands(row, Write(row, g, v, settings).row, LandingOf(row, g), v, settings)
  {
    var l := LandingOf(row, g);
    DeltaIsEnough(l.kept, g.bars);
    WholeMeansComplete(row.request, g.mode, l.kept + ByStart(g.bars), v.cadence);
  }

  lemma SpokenLands(row: Row, g: Gathered, v: Visit, settings: Settings)
    requires g.Fetched? && ValidRequest(row.request) && DistinctStarts(g.bars)
    ensures var w, l := Write(row, g, v, settings), LandingOf(row, g);
            && (w.message.Some? <==> w.row.bars != row.bars || w.row.done || g.replace)
            && w.row.revision == row.revision + (if w.message.Some? then 1 else 0)
            && (w.message.Some? ==> MessageLands(row, w.row, l, v, w.message.value))
  {
    var w, l := Write(row, g, v, settings), LandingOf(row, g);
    DeltaIsEnough(l.kept, g.bars);
    NoChangeMeans(l.kept, g.bars);
    ChangedAreFetched(l.kept, g.bars);
    forall b
      ensures b in Changed(l.kept, g.bars) <==> b in g.bars && !(b.start in l.kept && l.kept[b.start] == b)
    {
      ChangedExactly(l.kept, g.bars, b);
    }
  }

  /** The sources gave this landing. */
  ghost predicate GatheredAs(row: Row, v: Visit, settings: Settings, l: Landing) {
    var g := Gather(row, v, settings);
    g.Fetched? && LandingOf(row, g) == l && DistinctStarts(l.read)
  }

  lemma FetchedLands(store: Store, row: Row, token: Token, v: Visit, settings: Settings, l: Landing)
    requires Holds(store, row.request.stream, token) && store.streams[row.request.stream] == row
    requires ValidRequest(row.request) && GatheredAs(row, v, settings, l)
    ensures Lands(store, Conclude(store, row, token, v, settings), row, l, v, settings)
  {
    var g := Gather(row, v, settings);
    HeldConclusion(store, row, token, v, settings);
    WrittenStoreLands(store, Conclude(store, row, token, v, settings), row, g, v, settings);
  }

  lemma WrittenStoreLands(store: Store, after: Store, row: Row, g: Gathered, v: Visit, settings: Settings)
    requires g.Fetched? && ValidRequest(row.request) && DistinctStarts(g.bars)
    requires row.request.stream in store.streams && after.streams.Keys == store.streams.Keys
    requires forall other :: other in store.streams && other != row.request.stream ==>
                               after.streams[other] == store.streams[other]
    requires var w := Write(row, g, v, settings);
             after.streams[row.request.stream] == w.row && after.outbox == store.outbox + Spoken(w)
    ensures Lands(store, after, row, LandingOf(row, g), v, settings)
  {
    var w := Write(row, g, v, settings);
    WrittenLands(row, g, v, settings);
    SpokenLands(row, g, v, settings);
    if w.message.Some? {
      assert after.outbox == store.outbox + [w.message.value];
    }
  }

  // ---- The cases ----

  /** An attempt that still holds its lease, with nothing left to wait for. */
  ghost predicate Attempting(store: Store, row: Row, token: Token, v: Visit, currency: string) {
    && Holds(store, row.request.stream, token) && store.streams[row.request.stream] == row
    && ValidRequest(row.request) && Admissible(v, row.request, currency)
  }

  predicate BeforeDeadline(row: Row, v: Visit, settings: Settings) {
    v.now <= row.request.closes + settings.retry
  }

  ghost predicate HasSamples(row: Row) {
    exists t :: t in row.bars && row.bars[t].sample.Some?
  }

  /** The source an attempt turns to, and the reason it has left pages for. */
  function TurnsTo(row: Row, v: Visit): (Source, Option<string>) {
    if row.mode == Charts then (Charts, row.fallback)
    else if !v.samplingOn then (Charts, Some("FINANCE_MODE"))
    else if v.reading.Failed? then (Charts, Some(v.reading.reason))
    else (Pages, row.fallback)
  }

  ghost function PagesLanding(row: Row, v: Visit): Landing
    requires row.mode == Pages && v.samplingOn && !v.reading.Failed?
  {
    Landing(row.bars, if v.reading.Minutes? then v.reading.bars else [], Pages, row.fallback, false, None)
  }

  lemma PagesGather(row: Row, v: Visit, settings: Settings, currency: string)
    requires Admissible(v, row.request, currency) && BeforeDeadline(row, v, settings)
    requires row.mode == Pages && v.samplingOn && !v.reading.Failed?
    ensures GatheredAs(row, v, settings, PagesLanding(row, v))
  {
  }

  /** Pages that answer add their minutes to the stored ones; a session that has not begun adds none. */
  lemma PagesAttempt(store: Store, row: Row, token: Token, v: Visit, settings: Settings, currency: string)
    requires Attempting(store, row, token, v, currency) && BeforeDeadline(row, v, settings)
    requires row.mode == Pages && v.samplingOn && !v.reading.Failed?
    ensures Lands(store, Conclude(store, row, token, v, settings), row, PagesLanding(row, v), v, settings)
  {
    PagesGather(row, v, settings, currency);
    FetchedLands(store, row, token, v, settings, PagesLanding(row, v));
  }

  ghost function ChartsLanding(row: Row, v: Visit): Landing
    requires row.mode == Charts && v.finance.Bars?
  {
    if HasSamples(row) then Landing(map[], v.finance.bars, Charts, row.fallback, true, None)
    else Landing(row.bars, v.finance.bars, Charts, row.fallback, false, None)
  }

  lemma ChartsGather(row: Row, v: Visit, settings: Settings, currency: string)
    requires Admissible(v, row.request, currency) && BeforeDeadline(row, v, settings)
    requires row.mode == Charts && v.finance.Bars?
    ensures GatheredAs(row, v, settings, ChartsLanding(row, v))
  {
  }

  /** Charts that answer add their minutes to stored chart minutes, and replace stored samples. */
  lemma ChartsAttempt(store: Store, row: Row, token: Token, v: Visit, settings: Settings, currency: string)
    requires Attempting(store, row, token, v, currency) && BeforeDeadline(row, v, settings)
    requires row.mode == Charts && v.finance.Bars?
    ensures Lands(store, Conclude(store, row, token, v, settings), row, ChartsLanding(row, v), v, settings)
  {
    ChartsGather(row, v, settings, currency);
    FetchedLands(store, row, token, v, settings, ChartsLanding(row, v));
  }

  ghost function SwitchedOffLanding(row: Row, v: Visit): Landing
    requires row.mode == Pages && !v.samplingOn && v.finance.Bars?
  {
    if HasSamples(row) then Landing(map[], v.finance.bars, Charts, Some("FINANCE_MODE"), true, None)
    else Landing(row.bars, v.finance.bars, Charts, Some("FINANCE_MODE"), false, None)
  }

  lemma SwitchedOffGather(row: Row, v: Visit, settings: Settings, currency: string)
    requires Admissible(v, row.request, currency) && BeforeDeadline(row, v, settings)
    requires row.mode == Pages && !v.samplingOn && v.finance.Bars?
    ensures GatheredAs(row, v, settings, SwitchedOffLanding(row, v))
  {
  }

  /** Where sampling was switched off a page stream becomes a chart stream; charts that answer replace what
      samples it has. */
  lemma SwitchedOffAttempt(store: Store, row: Row, token: Token, v: Visit, settings: Settings, currency: string)
    requires Attempting(store, row, token, v, currency) && BeforeDeadline(row, v, settings)
    requires row.mode == Pages && !v.samplingOn && v.finance.Bars?
    ensures Lands(store, Conclude(store, row, token, v, settings), row, SwitchedOffLanding(row, v), v, settings)
  {
    SwitchedOffGather(row, v, settings, currency);
    FetchedLands(store, row, token, v, settings, SwitchedOffLanding(row, v));
  }

  ghost function FallbackLanding(row: Row, v: Visit): Landing
    requires row.mode == Pages && v.samplingOn && v.reading.Failed? && v.finance.Bars?
  {
    Landing(map[], v.finance.bars, Charts, Some(v.reading.reason), true, None)
  }

  lemma FallbackGather(row: Row, v: Visit, settings: Settings, currency: string)
    requires Admissible(v, row.request, currency) && BeforeDeadline(row, v, settings)
    requires row.mode == Pages && v.samplingOn && v.reading.Failed? && v.finance.Bars?
    ensures GatheredAs(row, v, settings, FallbackLanding(row, v))
  {
  }

  /** Pages that fail are replaced by charts for good, with the failure as the reason. */
  lemma FallbackAttempt(store: Store, row: Row, token: Token, v: Visit, settings: Settings, currency: string)
    requires Attempting(store, row, token, v, currency) && BeforeDeadline(row, v, settings)
    requires row.mode == Pages && v.samplingOn && v.reading.Failed? && v.finance.Bars?
    ensures Lands(store, Conclude(store, row, token, v, settings), row, FallbackLanding(row, v), v, settings)
  {
    FallbackGather(row, v, settings, currency);
    FetchedLands(store, row, token, v, settings, FallbackLanding(row, v));
  }

  ghost function InvalidLanding(row: Row, v: Visit): Landing
    requires TurnsTo(row, v).0 == Charts && v.finance.Invalid?
  {
    var replaced := row.mode == Pages || HasSamples(row);
    Landing(if replaced then map[] else row.bars, [], Charts, TurnsTo(row, v).1, replaced,
            Some("INVALID_PROVIDER_DATA"))
  }

  lemma InvalidGather(row: Row, v: Visit, settings: Settings, currency: string)
    requires Admissible(v, row.request, currency) && BeforeDeadline(row, v, settings)
    requires TurnsTo(row, v).0 == Charts && v.finance.Invalid?
    ensures GatheredAs(row, v, settings, InvalidLanding(row, v))
  {
  }

  /** Charts that make no sense end the stream, and take stored samples and left pages with them. */
  lemma InvalidAttempt(store: Store, row: Row, token: Token, v: Visit, settings: Settings, currency: string)
    requires Attempting(store, row, token, v, currency) && BeforeDeadline(row, v, settings)
    requires TurnsTo(row, v).0 == Charts && v.finance.Invalid?
    ensures Lands(store, Conclude(store, row, token, v, settings), row, InvalidLanding(row, v), v, settings)
  {
    InvalidGather(row, v, settings, currency);
    FetchedLands(store, row, token, v, settings, InvalidLanding(row, v));
  }

  ghost function LateLanding(row: Row, v: Visit): Landing {
    if row.mode == Pages && !v.samplingOn
    then Landing(map[], [], Charts, Some("FINANCE_MODE"), true, Some("DATA_DEADLINE_EXPIRED"))
    else
      var replaced := row.mode == Charts && HasSamples(row);
      Landing(if replaced then map[] else row.bars, [], row.mode, row.fallback, replaced, Some("DATA_DEADLINE_EXPIRED"))
  }

  lemma LateGather(row: Row, v: Visit, settings: Settings, currency: string)
    requires Admissible(v, row.request, currency) && !BeforeDeadline(row, v, settings)
    ensures GatheredAs(row, v, settings, LateLanding(row, v))
  {
  }

  /** Past the deadline no source is asked and the stream ends. */
  lemma LateAttempt(store: Store, row: Row, token: Token, v: Visit, settings: Settings, currency: string)
    requires Attempting(store, row, token, v, currency) && !BeforeDeadline(row, v, settings)
    ensures Lands(store, Conclude(store, row, token, v, settings), row, LateLanding(row, v), v, settings)
  {
    LateGather(row, v, settings, currency);
    FetchedLands(store, row, token, v, settings, LateLanding(row, v));
  }

  /** Charts that cannot be had are asked again later: only the schedule and the source are remembered. */
  lemma UnavailableAttempt(store: Store, row: Row, token: Token, v: Visit, settings: Settings, currency: string)
    requires Attempting(store, row, token, v, currency) && BeforeDeadline(row, v, settings)
    requires TurnsTo(row, v).0 == Charts && v.finance.Unavailable?
    ensures var after := Conclude(store, row, token, v, settings);
            && after.outbox == store.outbox
            && after.streams == store.streams[row.request.stream := row.(
                 lease := None, nextAttemptAt := v.now + settings.poll, lastError := Some("PROVIDER_UNAVAILABLE"),
                 mode := Charts, fallback := TurnsTo(row, v).1)]
  {
    UnavailableGather(row, v, settings);
  }

  lemma UnavailableGather(row: Row, v: Visit, settings: Settings)
    requires BeforeDeadline(row, v, settings) && TurnsTo(row, v).0 == Charts && v.finance.Unavailable?
    ensures Gather(row, v, settings) == Retry(Charts, TurnsTo(row, v).1)
  {
  }

  /** An attempt that lost its lease changes nothing. */
  lemma SupersededAttempt(store: Store, row: Row, token: Token, v: Visit, settings: Settings)
    requires !(row.request.stream in store.streams && store.streams[row.request.stream].lease == Some(token))
    ensures Conclude(store, row, token, v, settings) == store
  {
  }

  // ---- Through the whole protocol ----

  /** The source an attempt in time turns to answers, and the minute is in its answer. */
  ghost predicate Reads(row: Row, v: Visit, settings: Settings, b: Bar) {
    && BeforeDeadline(row, v, settings)
    && match TurnsTo(row, v).0
       case Pages => v.reading.Minutes? && b in v.reading.bars
       case Charts => v.finance.Bars? && b in v.finance.bars
  }

  lemma {:induction false} ReadIsStored(read: seq<Bar>, b: Bar)
    requires DistinctStarts(read) && b in read
    ensures b.start in ByStart(read) && ByStart(read)[b.start] == b
  {
    var front, last := read[..|read| - 1], read[|read| - 1];
    assert read == front + [last];
    if b != last {
      ReadIsStored(front, b);
      LastStartIsNew(read);
    }
  }

  lemma LandedIsStored(store: Store, after: Store, row: Row, l: Landing, v: Visit, settings: Settings, b: Bar)
    requires Lands(store, after, row, l, v, settings) && DistinctStarts(l.read) && b in l.read
    ensures var bars := after.streams[row.request.stream].bars;
            b.start in bars && bars[b.start] == b
  {
    ReadIsStored(l.read, b);
  }

  /** Whatever the source, a minute an attempt reads in time is stored by the time it ends. */
  lemma ReadMinuteIsStored(
    store: Store, row: Row, token: Token, v: Visit, settings: Settings, currency: string, b: Bar)
    requires Attempting(store, row, token, v, currency) && Reads(row, v, settings, b)
    ensures var after := Conclude(store, row, token, v, settings).streams;
            && row.request.stream in after
            && var bars := after[row.request.stream].bars;
               b.start in bars && bars[b.start] == b
  {
    var after := Conclude(store, row, token, v, settings);
    if TurnsTo(row, v).0 == Pages {
      PagesAttempt(store, row, token, v, settings, currency);
      LandedIsStored(store, after, row, PagesLanding(row, v), v, settings, b);
    } else if row.mode == Charts {
      ChartsAttempt(store, row, token, v, settings, currency);
      LandedIsStored(store, after, row, ChartsLanding(row, v), v, settings, b);
    } else if !v.samplingOn {
      SwitchedOffAttempt(store, row, token, v, settings, currency);
      LandedIsStored(store, after, row, SwitchedOffLanding(row, v), v, settings, b);
    } else {
      FallbackAttempt(store, row, token, v, settings, currency);
      LandedIsStored(store, after, row, FallbackLanding(row, v), v, settings, b);
    }
  }

  /** Event `n` of the history ends an attempt that still holds its lease. */
  ghost predicate HeldFinish(
    states: seq<System>, events: seq<Event>, n: nat, token: Token, v: Visit, row: Row)
    requires |states| == |events| + 1
  {
    && n < |events| && events[n] == Finish(token, v)
    && token in states[n].workers && states[n].workers[token] == row
    && Holds(states[n].store, row.request.stream, token)
  }

  lemma HeldFinishAttempts(
    states: seq<System>, events: seq<Event>, settings: Settings, currencies: Currencies, n: nat, token: Token, v: Visit,
    row: Row)
    requires History(states, events, settings, currencies) && HeldFinish(states, events, n, token, v, row)
    ensures Attempting(states[n].store, row, token, v, currencies(row.request.asset))
    ensures states[n + 1].store == Conclude(states[n].store, row, token, v, settings)
  {
    Fencing(states, events, settings, currencies, n, token, v);
    InvariantHolds(states, events, settings, currencies, n);
    FinishConcludes(states[n], token, v, settings, currencies);
  }

  lemma FinishConcludes(s: System, token: Token, v: Visit, settings: Settings, currencies: Currencies)
    requires Enabled(s, Finish(token, v), currencies)
    ensures Next(s, Finish(token, v), settings, currencies).store
            == Conclude(s.store, s.workers[token], token, v, settings)
  {
  }

  /** Over any history: a minute that a leaseholder reads is in its stream's bars afterwards, and in the bars that
      Verification rebuilds from that revision, whatever happens in between. */
  lemma ReadMinutesAreRebuilt(
    states: seq<System>, events: seq<Event>, settings: Settings, currencies: Currencies, n: nat, token: Token, v: Visit,
    row: Row, m: nat, rows: seq<Message>, k: nat, b: Bar)
    requires History(states, events, settings, currencies) && HeldFinish(states, events, n, token, v, row)
    requires Reads(row, v, settings, b) && n < m < |states|
    requires Selected(rows, TableOf(states[m], row.request.stream)) && Used(rows, k)
    requires AtRevision(states[n + 1], row.request.stream, k)
    ensures var bars := Summary(rows[..k]).bars;
            && b.start in bars && bars[b.start] == b
            && bars == states[n + 1].store.streams[row.request.stream].bars
  {
    HeldFinishAttempts(states, events, settings, currencies, n, token, v, row);
    ReadMinuteIsStored(states[n].store, row, token, v, settings, currencies(row.request.asset), b);
    EndToEnd(states, events, settings, currencies, m, row.request.stream, rows, k, n + 1);
  }
}
