/**
 What every attempt keeps of one stream: its log of messages replays to its bars, its sources come in
 one order with at most one replacement, and every message is one Verification accepts.
 */
module StreamSafety {
  import opened Wrappers
  import opened IntradayTypes
  import opened IntradayContract
  import opened Collector
  import Avanza
  import FinanceAdapter

  // ---- The delta ----

  lemma {:induction false} ChangedAreFetched(previous: map<Time, Bar>, fetched: seq<Bar>)
    requires DistinctStarts(fetched)
    ensures DistinctStarts(Changed(previous, fetched))
    ensures forall b :: b in Changed(previous, fetched) ==> b in fetched
  {
    if fetched != [] {
      var front, last := fetched[..|fetched| - 1], fetched[|fetched| - 1];
      ChangedAreFetched(previous, front);
      assert fetched == front + [last];
      var c := Changed(previous, front);
      forall i | 0 <= i < |c| ensures c[i].start != last.start {
        assert c[i] in front;
        var k :| 0 <= k < |front| && front[k] == c[i];
        assert fetched[k] == c[i];
      }
    }
  }

  lemma LastStartIsNew(fetched: seq<Bar>)
    requires DistinctStarts(fetched) && fetched != []
    ensures fetched[|fetched| - 1].start !in ByStart(fetched[..|fetched| - 1])
  {
    var front, last := fetched[..|fetched| - 1], fetched[|fetched| - 1];
    ByStartContents(front);
    forall k | 0 <= k < |front| ensures front[k].start != last.start {
      assert fetched[k] == front[k];
    }
  }

  /** The delta holds every bar that differs from what was there, and no bar that was not fetched. */
  ghost predicate DeltaOf(previous: map<Time, Bar>, all: map<Time, Bar>, delta: map<Time, Bar>) {
    && (forall t :: t in delta ==> t in all && all[t] == delta[t])
    && (forall t :: t in all ==> t in delta || (t in previous && previous[t] == all[t]))
  }

  lemma DeltaGrows(previous: map<Time, Bar>, all: map<Time, Bar>, delta: map<Time, Bar>, b: Bar)
    requires DeltaOf(previous, all, delta) && b.start !in all
    ensures b.start in previous && previous[b.start] == b ==> DeltaOf(previous, all[b.start := b], delta)
    ensures DeltaOf(previous, all[b.start := b], delta[b.start := b])
  {
  }

  lemma DeltaOverlays(previous: map<Time, Bar>, all: map<Time, Bar>, delta: map<Time, Bar>)
    requires DeltaOf(previous, all, delta)
    ensures previous + delta == previous + all
  {
    forall t ensures t in previous + delta <==> t in previous + all {
      if t in all {
        assert t in delta || t in previous;
      }
      if t in delta {
        assert t in all;
      }
    }
    forall t | t in previous + all ensures (previous + delta)[t] == (previous + all)[t] {
      assert t in all ==> t in delta || previous[t] == all[t];
    }
    assert previous + delta == previous + all;
  }

  lemma {:induction false} ChangedIsDelta(previous: map<Time, Bar>, fetched: seq<Bar>)
    requires DistinctStarts(fetched)
    ensures DeltaOf(previous, ByStart(fetched), ByStart(Changed(previous, fetched)))
  {
    if fetched != [] {
      var front, last := fetched[..|fetched| - 1], fetched[|fetched| - 1];
      var c := Changed(previous, front);
      ChangedIsDelta(previous, front);
      LastStartIsNew(fetched);
      DeltaGrows(previous, ByStart(front), ByStart(c), last);
      if last.start in previous && previous[last.start] == last {
        assert Changed(previous, fetched) == c;
      } else {
        assert Changed(previous, fetched)[..|c|] == c;
      }
    }
  }

  /** Leaving out the unchanged bars loses nothing. */
  lemma DeltaIsEnough(previous: map<Time, Bar>, fetched: seq<Bar>)
    requires DistinctStarts(fetched)
    ensures previous + ByStart(Changed(previous, fetched)) == previous + ByStart(fetched)
  {
    ChangedIsDelta(previous, fetched);
    DeltaOverlays(previous, ByStart(fetched), ByStart(Changed(previous, fetched)));
  }

  // ---- A session has few minutes ----

  lemma {:induction false} MinuteGrid(times: set<Time>, opens: Time, n: nat)
    requires opens % MINUTE == 0
    requires forall t :: t in times ==> opens <= t < opens + MINUTE * n && t % MINUTE == 0
    ensures |times| <= n
    decreases n
  {
    if n == 0 {
      EmptyWithoutMembers(times);
    } else {
      var top := opens + MINUTE * (n - 1);
      MinuteGrid(times - {top}, opens, n - 1);
    }
  }

  lemma {:induction false} StartsAreAsMany(bars: seq<Bar>, starts: set<Time>)
    requires DistinctStarts(bars)
    requires forall t :: t in starts <==> exists b :: b in bars && b.start == t
    ensures |starts| == |bars|
    decreases |bars|
  {
    if bars == [] {
      EmptyWithoutMembers(starts);
    } else {
      var front, last := bars[..|bars| - 1], bars[|bars| - 1];
      assert bars == front + [last];
      assert last.start in starts;
      forall t ensures t in starts - {last.start} <==> exists b :: b in front && b.start == t {
        if t in starts - {last.start} {
          var b :| b in bars && b.start == t;
          assert b in front;
        }
        if b :| b in front && b.start == t {
          assert b in bars;
          var k :| 0 <= k < |front| && front[k] == b;
          assert bars[k].start != last.start;
        }
      }
      StartsAreAsMany(front, starts - {last.start});
    }
  }

  /** A message never outgrows its schema: a session has at most 1440 minutes. */
  lemma SessionFits(bars: seq<Bar>, request: Request)
    requires ValidRequest(request) && DistinctStarts(bars)
    requires forall b :: b in bars ==> ValidBar(b) && InSession(b, request)
    ensures |bars| <= 1440
  {
    var starts := set i | 0 <= i < |bars| :: bars[i].start;
    forall t ensures t in starts <==> exists b :: b in bars && b.start == t {
      if t in starts {
        var i :| 0 <= i < |bars| && bars[i].start == t;
        assert bars[i] in bars;
      }
    }
    StartsAreAsMany(bars, starts);
    MinuteGrid(starts, request.opens, 1440);
  }

  // ---- Sources ----

  ghost predicate AllSampled(bars: map<Time, Bar>) {
    forall t :: t in bars ==> bars[t].sample.Some?
  }

  ghost predicate AllCharted(bars: map<Time, Bar>) {
    forall t :: t in bars ==> bars[t].sample.None?
  }

  /** A stream on charts that still stores samples is in the middle of its switch. */
  ghost predicate Switching(row: Row) {
    row.mode == Charts && AnySampled(row.bars)
  }

  ghost predicate SourcesAgree(row: Row) {
    && (row.mode == Pages ==> row.request.policy == LastKnownPrice && AllSampled(row.bars))
    && (row.mode == Charts ==> AllCharted(row.bars) || AllSampled(row.bars))
    && (Switching(row) ==> row.request.policy == LastKnownPrice && Given(row.fallback))
  }

  /** What an attempt gathers fits the source it ends on; bars of the other source are only ever kept when
      there are none. */
  ghost predicate Fits(g: Gathered, row: Row, v: Visit, currency: string)
    requires g.Fetched?
  {
    && (g.mode == Pages ==>
          && row.mode == Pages && !g.replace
          && Avanza.SampledMinutes(g.bars, row.request.opens, row.request.closes, currency, v.now))
    && (g.mode == Charts ==>
          && FinanceAdapter.FinanceMinutes(g.bars, row.request.opens, row.request.closes, v.now)
          && (!g.replace ==> AllCharted(row.bars)))
    && (g.replace ==> row.request.policy == LastKnownPrice && Given(g.fallback))
  }

  lemma GatheredFits(row: Row, v: Visit, settings: Settings, currency: string)
    requires SourcesAgree(row) && Admissible(v, row.request, currency)
    requires Gather(row, v, settings).Fetched?
    ensures Fits(Gather(row, v, settings), row, v, currency)
  {
  }

  /** A switch interrupted by an unavailable chart is not forgotten: the stream stays in the middle of it,
      or replaces. */
  lemma SwitchIsCarriedOut(row: Row, v: Visit, settings: Settings)
    requires SourcesAgree(row) && Switching(row)
    ensures var g := Gather(row, v, settings);
            && (g.Retry? ==> g.mode == Charts && g.fallback == row.fallback)
            && (g.Fetched? ==> g.replace && g.mode == Charts
                               && Write(row, g, v, settings).message.Some?
                               && Write(row, g, v, settings).message.value.replacing
                               && AllCharted(Kept(row, g)))
  {
  }

  /** Pages that fail while the charts are unavailable leave the stream in the middle of its switch. */
  lemma InterruptedSwitch(row: Row, v: Visit, settings: Settings)
    requires SourcesAgree(row) && row.mode == Pages && v.samplingOn && v.now <= Deadline(row.request, settings)
    requires v.reading.Failed? && v.finance.Unavailable?
    ensures Gather(row, v, settings) == Retry(Charts, Some(v.reading.reason))
  {
  }

  // ---- The message ----

  ghost predicate Promised(m: Message, request: Request, currency: string) {
    m.stream == request.stream && ValidMessage(m) && Complaint(m, request, currency).None?
  }

  lemma SampledMinuteAccepted(b: Bar, m: Message, request: Request, currency: string, now: Time)
    requires Avanza.SampledMinute(b, request.opens, request.closes, currency, now)
    requires m.source == Pages && m.occurredAt == now && request.policy == LastKnownPrice
    ensures BarComplaint(b, m, request, currency).None? && InSession(b, request) && b.start + MINUTE <= m.occurredAt
  {
  }

  lemma FinanceMinuteAccepted(b: Bar, m: Message, request: Request, currency: string, now: Time)
    requires FinanceAdapter.FinanceMinute(b, request.opens, request.closes, now)
    requires m.source == Charts && m.occurredAt == now
    ensures BarComplaint(b, m, request, currency).None? && InSession(b, request) && b.start + MINUTE <= m.occurredAt
  {
  }

  lemma BarsAccepted(row: Row, g: Gathered, v: Visit, currency: string, m: Message)
    requires g.Fetched? && Fits(g, row, v, currency) && SourcesAgree(row)
    requires m.source == g.mode && m.occurredAt == v.now && (forall b :: b in m.bars ==> b in g.bars)
    ensures forall b :: b in m.bars ==> ValidBar(b) && BarComplaint(b, m, row.request, currency).None?
                                        && InSession(b, row.request) && b.start + MINUTE <= m.occurredAt
  {
    forall b | b in m.bars
      ensures ValidBar(b) && BarComplaint(b, m, row.request, currency).None?
              && InSession(b, row.request) && b.start + MINUTE <= m.occurredAt
    {
      if g.mode == Pages {
        SampledMinuteAccepted(b, m, row.request, currency, v.now);
      } else {
        FinanceMinuteAccepted(b, m, row.request, currency, v.now);
      }
    }
  }

  lemma NoComplaint(m: Message, request: Request, currency: string)
    requires m.asset == request.asset && m.registry == request.registry
    requires forall b :: b in m.bars ==> BarComplaint(b, m, request, currency).None?
                                         && InSession(b, request) && b.start + MINUTE <= m.occurredAt
    requires Replaceable(m, request) && DistinctStarts(m.bars)
    requires m.final && !Given(m.failure) ==> m.occurredAt >= request.closes
    ensures Complaint(m, request, currency).None?
  {
    NoBarComplaint(m.bars, m, request, currency);
  }

  /** A final message without a failure comes after the close. */
  lemma FinalAfterClose(row: Row, g: Gathered, v: Visit, settings: Settings, complete: bool)
    requires g.Fetched? && (g.failure.Some? ==> Given(g.failure))
    requires IsFinal(row, g, v, settings, complete)
    ensures g.failure.None? ==> v.now >= row.request.closes
  {
  }

  lemma FailuresAreNamed(row: Row, v: Visit, settings: Settings)
    ensures var g := Gather(row, v, settings);
            g.Fetched? && g.failure.Some? ==> Given(g.failure)
  {
  }

  /** Every message an attempt can emit passes all of Verification's checks. */
  lemma MessageAccepted(row: Row, g: Gathered, v: Visit, settings: Settings, currency: string)
    requires SourcesAgree(row) && ValidRequest(row.request)
    requires g.Fetched? && Fits(g, row, v, currency) && (g.failure.Some? ==> Given(g.failure))
    requires Write(row, g, v, settings).message.Some?
    ensures Promised(Write(row, g, v, settings).message.value, row.request, currency)
  {
    var w := Write(row, g, v, settings);
    var m := w.message.value;
    ChangedAreFetched(Kept(row, g), g.bars);
    BarsAccepted(row, g, v, currency, m);
    SessionFits(m.bars, row.request);
    if m.final {
      FinalAfterClose(row, g, v, settings, Complete(row.request, g.mode, w.row.bars, v.cadence));
    }
    NoComplaint(m, row.request, currency);
  }

  // ---- The stream and its log ----

  /** Revisions 1, 2, 3, ...; only the last message may be final, and it is exactly when the stream is done. */
  ghost predicate Numbered(log: seq<Message>, done: bool) {
    && (forall i :: 0 <= i < |log| ==> log[i].revision == i + 1)
    && (forall i :: 0 <= i < |log| - 1 ==> !log[i].final)
    && (done <==> log != [] && log[|log| - 1].final)
  }

  ghost predicate LogMatches(row: Row, log: seq<Message>) {
    |log| == row.revision && Numbered(log, row.done) && Replay(log) == row.bars
  }

  ghost predicate AllPromised(log: seq<Message>, request: Request, currency: string) {
    forall i :: 0 <= i < |log| ==> Promised(log[i], request, currency)
  }

  /** Page messages come before chart messages, and at most one message replaces. */
  ghost predicate InOrder(log: seq<Message>) {
    && (forall i, j :: 0 <= i < j < |log| && log[i].source == Charts ==> log[j].source == Charts)
    && (forall i, j :: 0 <= i < j < |log| ==> !(log[i].replacing && log[j].replacing))
  }

  /** Where the stream stands agrees with what it has said. */
  ghost predicate SourcesMatch(row: Row, log: seq<Message>) {
    && SourcesAgree(row) && InOrder(log)
    && (forall i :: 0 <= i < |log| && log[i].source == Charts ==> row.mode == Charts)
    && (forall i :: 0 <= i < |log| && log[i].replacing ==> row.mode == Charts && AllCharted(row.bars))
  }

  ghost predicate StreamInvariant(row: Row, log: seq<Message>, currency: string) {
    && ValidRequest(row.request)
    && LogMatches(row, log)
    && AllPromised(log, row.request, currency)
    && SourcesMatch(row, log)
  }

  function Spoken(w: Written): seq<Message> {
    if w.message.Some? then [w.message.value] else []
  }

  lemma FreshStream(request: Request, samplingOn: bool, currency: string)
    requires ValidRequest(request)
    ensures StreamInvariant(NewRow(request, samplingOn), [], currency)
  {
  }

  lemma LogAppends(log: seq<Message>, m: Message)
    requires Numbered(log, false) && m.revision == |log| + 1
    ensures Numbered(log + [m], m.final)
    ensures Replay(log + [m]) == Apply(Replay(log), m)
  {
    assert (log + [m])[..|log|] == log;
  }

  /** What a commit says is what it stores; when it says nothing, it stores nothing new. */
  lemma SaysWhatItStores(row: Row, g: Gathered, v: Visit, settings: Settings)
    requires g.Fetched?
    ensures var w := Write(row, g, v, settings);
            && (w.message.Some? ==>
                  && w.row.revision == row.revision + 1 == w.message.value.revision
                  && w.row.done == w.message.value.final
                  && w.row.bars == Apply(row.bars, w.message.value))
            && (w.message.None? ==> w.row.revision == row.revision && !w.row.done && w.row.bars == row.bars)
  {
    var changed := Changed(Kept(row, g), g.bars);
    var bars := Kept(row, g) + ByStart(changed);
    AssembledSays(row, g, v, settings, changed, bars, Complete(row.request, g.mode, bars, v.cadence));
    if changed == [] && !g.replace {
      assert row.bars + ByStart(changed) == row.bars;
    }
  }

  lemma AssembledSays(
    row: Row, g: Gathered, v: Visit, settings: Settings, changed: seq<Bar>, bars: map<Time, Bar>, complete: bool)
    requires g.Fetched?
    ensures var w := Assemble(row, g, v, settings, changed, bars, complete);
            && w.row.bars == bars
            && (w.message.Some? ==>
                  && w.row.revision == row.revision + 1 == w.message.value.revision
                  && w.row.done == w.message.value.final
                  && w.message.value.bars == changed && w.message.value.replacing == g.replace)
            && (w.message.None? ==> w.row.revision == row.revision && !w.row.done && changed == [] && !g.replace)
  {
  }

  lemma WriteKeepsLog(row: Row, log: seq<Message>, g: Gathered, v: Visit, settings: Settings)
    requires LogMatches(row, log) && !row.done && g.Fetched?
    ensures LogMatches(Write(row, g, v, settings).row, log + Spoken(Write(row, g, v, settings)))
  {
    SaysWhatItStores(row, g, v, settings);
    SpokenKeepsLog(row, log, Write(row, g, v, settings));
  }

  lemma SpokenKeepsLog(row: Row, log: seq<Message>, w: Written)
    requires LogMatches(row, log) && !row.done
    requires w.message.Some? ==>
               && w.row.revision == row.revision + 1 == w.message.value.revision
               && w.row.done == w.message.value.final
               && w.row.bars == Apply(row.bars, w.message.value)
    requires w.message.None? ==> w.row.revision == row.revision && !w.row.done && w.row.bars == row.bars
    ensures LogMatches(w.row, log + Spoken(w))
  {
    if w.message.Some? {
      LogAppends(log, w.message.value);
    } else {
      assert log + [] == log;
    }
  }

  lemma WrittenBarsAgree(row: Row, g: Gathered, v: Visit, settings: Settings, currency: string)
    requires SourcesAgree(row) && g.Fetched? && Fits(g, row, v, currency)
    ensures var bars := Write(row, g, v, settings).row.bars;
            if g.mode == Pages then AllSampled(bars) else AllCharted(bars)
  {
    var changed := Changed(Kept(row, g), g.bars);
    ChangedAreFetched(Kept(row, g), g.bars);
    ByStartContents(changed);
    var bars := Write(row, g, v, settings).row.bars;
    forall t | t in bars ensures bars[t].sample.Some? <==> g.mode == Pages {
      if t in ByStart(changed) {
        assert ByStart(changed)[t] in g.bars;
      }
    }
  }

  /** A replacement happens only on a stream that has not replaced before. */
  lemma ReplacesOnce(row: Row, log: seq<Message>, v: Visit, settings: Settings)
    requires SourcesMatch(row, log)
    requires Gather(row, v, settings).Fetched? && Gather(row, v, settings).replace
    ensures forall i :: 0 <= i < |log| ==> !log[i].replacing
  {
  }

  lemma WriteKeepsSources(row: Row, log: seq<Message>, v: Visit, settings: Settings, currency: string)
    requires SourcesMatch(row, log) && Admissible(v, row.request, currency)
    requires Gather(row, v, settings).Fetched?
    ensures var w := Write(row, Gather(row, v, settings), v, settings);
            SourcesMatch(w.row, log + Spoken(w))
  {
    var g := Gather(row, v, settings);
    GatheredFits(row, v, settings, currency);
    WrittenBarsAgree(row, g, v, settings, currency);
    SourcesAdvance(row, log, g, Write(row, g, v, settings), v, currency);
    if g.replace {
      ReplacesOnce(row, log, v, settings);
    }
    OrderAdvances(row, log, g, Write(row, g, v, settings));
  }

  lemma SourcesAdvance(row: Row, log: seq<Message>, g: Gathered, w: Written, v: Visit, currency: string)
    requires SourcesMatch(row, log) && g.Fetched? && Fits(g, row, v, currency)
    requires w.row.request == row.request && w.row.mode == g.mode && w.row.fallback == g.fallback
    requires if g.mode == Pages then AllSampled(w.row.bars) else AllCharted(w.row.bars)
    requires w.message.Some? ==> w.message.value.source == g.mode && w.message.value.replacing == g.replace
    ensures SourcesAgree(w.row)
    ensures forall m :: m in log + Spoken(w) && m.source == Charts ==> w.row.mode == Charts
    ensures forall m :: m in log + Spoken(w) && m.replacing ==> w.row.mode == Charts && AllCharted(w.row.bars)
  {
  }

  lemma OrderAdvances(row: Row, log: seq<Message>, g: Gathered, w: Written)
    requires SourcesMatch(row, log) && g.Fetched?
    requires g.mode == Pages ==> row.mode == Pages
    requires g.replace ==> forall i :: 0 <= i < |log| ==> !log[i].replacing
    requires w.message.Some? ==> w.message.value.source == g.mode && w.message.value.replacing == g.replace
    ensures InOrder(log + Spoken(w))
  {
  }

  /** Every attempt that ends in a commit keeps the stream and its log together. */
  lemma WriteKeepsStream(row: Row, log: seq<Message>, v: Visit, settings: Settings, currency: string)
    requires StreamInvariant(row, log, currency) && !row.done && Admissible(v, row.request, currency)
    requires Gather(row, v, settings).Fetched?
    ensures var w := Write(row, Gather(row, v, settings), v, settings);
            StreamInvariant(w.row, log + Spoken(w), currency)
  {
    var g := Gather(row, v, settings);
    var w := Write(row, g, v, settings);
    WriteKeepsLog(row, log, g, v, settings);
    WriteKeepsSources(row, log, v, settings, currency);
    if w.message.Some? {
      GatheredFits(row, v, settings, currency);
      FailuresAreNamed(row, v, settings);
      MessageAccepted(row, g, v, settings, currency);
    }
  }

  lemma RetryKeepsSources(row: Row, v: Visit, settings: Settings, currency: string)
    requires SourcesAgree(row) && Admissible(v, row.request, currency)
    requires Gather(row, v, settings).Retry?
    ensures var g := Gather(row, v, settings);
            SourcesAgree(row.(mode := g.mode, fallback := g.fallback)) && g.mode == Charts
  {
  }

  // ---- What the end of a stream means ----

  predicate OnMinute(t: Time, opens: Time, closes: Time) {
    opens <= t < closes && t % MINUTE == 0
  }

  ghost predicate Filled(times: set<Time>, opens: Time, closes: Time) {
    forall t :: OnMinute(t, opens, closes) ==> t in times
  }

  lemma FilledGrows(times: set<Time>, opens: Time, top: Time)
    requires top % MINUTE == 0 && opens <= top && top in times
    ensures Filled(times, opens, top + MINUTE) <==> Filled(times - {top}, opens, top)
  {
    if Filled(times, opens, top + MINUTE) {
      forall t | OnMinute(t, opens, top) ensures t in times - {top} {
        assert OnMinute(t, opens, top + MINUTE);
      }
    }
    if Filled(times - {top}, opens, top) {
      forall t | OnMinute(t, opens, top + MINUTE) ensures t in times {
        assert t == top || OnMinute(t, opens, top);
      }
    }
  }

  /** As many whole minutes as fit means every one of them. */
  lemma {:induction false} FullGrid(times: set<Time>, opens: Time, n: nat)
    requires opens % MINUTE == 0
    requires forall t :: t in times ==> OnMinute(t, opens, opens + MINUTE * n)
    ensures |times| == n <==> Filled(times, opens, opens + MINUTE * n)
    decreases n
  {
    if n == 0 {
      EmptyWithoutMembers(times);
    } else {
      var top := opens + MINUTE * (n - 1);
      if top in times {
        FullGrid(times - {top}, opens, n - 1);
        FilledGrows(times, opens, top);
      } else {
        MinuteGrid(times, opens, n - 1);
        assert OnMinute(top, opens, opens + MINUTE * n);
      }
    }
  }

  /** Counting the bars of a charts stream is the same as finding every minute of its session. */
  lemma CompleteChartsMeans(request: Request, bars: map<Time, Bar>, cadence: nat)
    requires ValidRequest(request)
    requires forall t :: t in bars ==> OnMinute(t, request.opens, request.closes)
    ensures Complete(request, Charts, bars, cadence) <==> Filled(bars.Keys, request.opens, request.closes)
  {
    var n := (request.closes - request.opens) / MINUTE;
    assert request.closes == request.opens + MINUTE * n;
    FullGrid(bars.Keys, request.opens, n);
    assert |bars| == |bars.Keys|;
  }

  /** Everything a stream has said lies on the minutes of its session, so everything it stores does. */
  lemma {:induction false} ReplayInSession(log: seq<Message>, request: Request, currency: string)
    requires AllPromised(log, request, currency)
    ensures forall t :: t in Replay(log) ==> OnMinute(t, request.opens, request.closes)
  {
    if log != [] {
      var last := log[|log| - 1];
      ReplayInSession(log[..|log| - 1], request, currency);
      ByStartContents(last.bars);
      assert Promised(last, request, currency);
      forall t | t in ByStart(last.bars) ensures OnMinute(t, request.opens, request.closes) {
        var b := ByStart(last.bars)[t];
        assert b in last.bars && InSession(b, request);
      }
    }
  }

  /** A stream ends with every minute there after the close, or with a reason; once its time is up it ends. */
  lemma EndMeans(row: Row, g: Gathered, v: Visit, settings: Settings)
    requires g.Fetched? && (g.failure.Some? ==> Given(g.failure))
    ensures var w := Write(row, g, v, settings);
            && (w.row.done ==>
                  || (w.row.lastError.None? && v.now >= row.request.closes
                      && Complete(row.request, g.mode, w.row.bars, v.cadence))
                  || Given(w.row.lastError))
            && (v.now >= Deadline(row.request, settings) || g.failure.Some? ==> w.row.done)
            && (w.row.done ==> w.message.Some? && w.message.value.final && w.message.value.failure == w.row.lastError)
  {
    var changed := Changed(Kept(row, g), g.bars);
    var bars := Kept(row, g) + ByStart(changed);
    EndOfAssembled(row, g, v, settings, changed, bars, Complete(row.request, g.mode, bars, v.cadence));
  }

  lemma EndOfAssembled(
    row: Row, g: Gathered, v: Visit, settings: Settings, changed: seq<Bar>, bars: map<Time, Bar>, complete: bool)
    requires g.Fetched? && (g.failure.Some? ==> Given(g.failure))
    ensures var w := Assemble(row, g, v, settings, changed, bars, complete);
            && (w.row.done ==>
                  (w.row.lastError.None? && v.now >= row.request.closes && complete) || Given(w.row.lastError))
            && (v.now >= Deadline(row.request, settings) || g.failure.Some? ==> w.row.done)
            && (w.row.done ==> w.message.Some? && w.message.value.final && w.message.value.failure == w.row.lastError)
  {
  }
}
