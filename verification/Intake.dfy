/**
 What comes in, said from the evidence itself: which samples and charts give which minutes, and which messages
 Verification takes.
 */
module Intake {
  import opened Wrappers
  import opened IntradayTypes
  import opened Sorting
  import opened IntradayContract
  import opened BatchLog
  import Avanza
  import FinanceAdapter

  // ---- Samples ----

  /** A regular sample that has been read by now. */
  predicate IsKnown(s: Avanza.PriceSample, now: Time) {
    s.kind == Avanza.Regular && s.observedAt <= now
  }

  /** The sample is of this listing and session, was read in an open market within two minutes of its slot, and its
      slot is on the session's grid. */
  predicate Belongs(s: Avanza.PriceSample, l: Avanza.Listing) {
    && s.asset == l.asset && s.registry == l.registry && s.currency == l.currency && s.quoteUnit == l.currency
    && s.day == l.session.day && s.opens == l.session.opens && s.closes == l.session.closes
    && s.marketOpen && (s.quality == Fresh || s.quality == FreshnessUnknown)
    && s.scheduledAt <= s.observedAt <= s.scheduledAt + 120 && s.observedAt < l.session.closes
    && (s.interval > 0 ==> (s.scheduledAt - l.session.opens) % s.interval == 0)
  }

  ghost predicate OneCadence(samples: seq<Avanza.PriceSample>, now: Time) {
    forall s, s' :: s in samples && s' in samples && IsKnown(s, now) && IsKnown(s', now) ==>
                      s.mapping == s'.mapping && s.interval == s'.interval
  }

  ghost predicate OneASlot(samples: seq<Avanza.PriceSample>, now: Time) {
    forall i, j :: 0 <= i < j < |samples| && IsKnown(samples[i], now) && IsKnown(samples[j], now) ==>
                     samples[i].scheduledAt != samples[j].scheduledAt
  }

  ghost predicate AllBelong(samples: seq<Avanza.PriceSample>, l: Avanza.Listing, now: Time) {
    forall s :: s in samples && IsKnown(s, now) ==> Belongs(s, l)
  }

  /** The known samples make up one session: one mapping, one cadence, one sample a slot, each of this listing. */
  ghost predicate OneSession(samples: seq<Avanza.PriceSample>, l: Avanza.Listing, now: Time) {
    OneCadence(samples, now) && OneASlot(samples, now) && AllBelong(samples, l, now)
  }

  /** Two minutes after a slot of the session, its sample is still missing. */
  ghost predicate IsOverdue(samples: seq<Avanza.PriceSample>, l: Avanza.Listing, interval: nat, now: Time, t: Time) {
    && l.session.opens <= t < l.session.closes && interval > 0 && (t - l.session.opens) % interval == 0
    && t + 120 <= now && forall s :: s in samples && IsKnown(s, now) ==> s.scheduledAt != t
  }

  /** The minute is over, began no earlier than the one the sample was read in, and the sample has not run out. */
  predicate StandsFor(s: Avanza.PriceSample, t: Time, now: Time) {
    && t % MINUTE == 0 && s.observedAt < t + MINUTE <= now
    && t < s.scheduledAt + s.interval && t + MINUTE <= s.closes
  }

  /** The minute a sample stands for: its price throughout, its own evidence, and carried once its minute is past. */
  function CarriedMinute(s: Avanza.PriceSample, t: Time): Bar {
    var expires := if s.closes < s.scheduledAt + s.interval then s.closes else s.scheduledAt + s.interval;
    Bar(t, s.price, s.price, s.price, s.price,
        Some(Sample(s.id, s.scheduledAt, s.observedAt, expires, s.interval, s.mapping, s.currency, s.quotedAt,
                    s.quality)),
        t > s.observedAt)
  }

  lemma BelongsIsSound(s: Avanza.PriceSample, l: Avanza.Listing)
    requires Avanza.ValidPriceSample(s)
    ensures Belongs(s, l) <==> Avanza.Identified(s, l) && Avanza.Sound(s, l)
  {
  }

  lemma OneMoreSlot(front: seq<Avanza.PriceSample>, last: Avanza.PriceSample, now: Time)
    ensures OneASlot(front + [last], now) <==>
            && OneASlot(front, now)
            && (IsKnown(last, now) ==>
                  forall i :: 0 <= i < |front| && IsKnown(front[i], now) ==> front[i].scheduledAt != last.scheduledAt)
  {
    var samples := front + [last];
    if OneASlot(samples, now) {
      forall i, j | 0 <= i < j < |front| && IsKnown(front[i], now) && IsKnown(front[j], now)
        ensures front[i].scheduledAt != front[j].scheduledAt
      {
        assert samples[i] == front[i] && samples[j] == front[j];
      }
      forall i | 0 <= i < |front| && IsKnown(front[i], now) && IsKnown(last, now)
        ensures front[i].scheduledAt != last.scheduledAt
      {
        assert samples[i] == front[i] && samples[|front|] == last;
      }
    }
  }

  lemma {:induction false} SelectedApart(samples: seq<Avanza.PriceSample>, now: Time)
    ensures DistinctBy(Avanza.SelectRegular(samples, now), Avanza.SlotOf) <==> OneASlot(samples, now)
  {
    if samples != [] {
      var front, last := samples[..|samples| - 1], samples[|samples| - 1];
      SelectedApart(front, now);
      assert samples == front + [last];
      OneMoreSlot(front, last, now);
      if IsKnown(last, now) {
        LastApart(front, now, last);
        AppendedApart(Avanza.SelectRegular(front, now), last);
      } else {
        assert Avanza.SelectRegular(samples, now) == Avanza.SelectRegular(front, now);
      }
    }
  }

  lemma AppendedApart(kept: seq<Avanza.PriceSample>, last: Avanza.PriceSample)
    ensures DistinctBy(kept + [last], Avanza.SlotOf) <==>
            && DistinctBy(kept, Avanza.SlotOf)
            && forall s :: s in kept ==> s.scheduledAt != last.scheduledAt
  {
    var all := kept + [last];
    if DistinctBy(all, Avanza.SlotOf) {
      forall i, j | 0 <= i < j < |kept| ensures Avanza.SlotOf(kept[i]) != Avanza.SlotOf(kept[j]) {
        assert all[i] == kept[i] && all[j] == kept[j];
      }
      forall s | s in kept ensures s.scheduledAt != last.scheduledAt {
        var i :| 0 <= i < |kept| && kept[i] == s;
        assert all[i] == s && all[|kept|] == last;
        assert Avanza.SlotOf(all[i]) != Avanza.SlotOf(all[|kept|]);
      }
    }
  }

  lemma LastApart(front: seq<Avanza.PriceSample>, now: Time, last: Avanza.PriceSample)
    ensures (forall s :: s in Avanza.SelectRegular(front, now) ==> s.scheduledAt != last.scheduledAt) <==>
            forall i :: 0 <= i < |front| && IsKnown(front[i], now) ==> front[i].scheduledAt != last.scheduledAt
  {
    forall s ensures s in Avanza.SelectRegular(front, now) <==> s in front && IsKnown(s, now) {
      Avanza.SelectedExactly(front, now, s);
    }
    if forall s :: s in Avanza.SelectRegular(front, now) ==> s.scheduledAt != last.scheduledAt {
      forall i | 0 <= i < |front| && IsKnown(front[i], now) ensures front[i].scheduledAt != last.scheduledAt {
        assert front[i] in front;
      }
    }
  }

  lemma UnmixedMeans(samples: seq<Avanza.PriceSample>)
    ensures Avanza.Unmixed(samples) <==>
            forall s, s' :: s in samples && s' in samples ==> s.mapping == s'.mapping && s.interval == s'.interval
  {
    if Avanza.Unmixed(samples) {
      forall s, s' | s in samples && s' in samples ensures s.mapping == s'.mapping && s.interval == s'.interval {
        var i :| 0 <= i < |samples| && samples[i] == s;
        var j :| 0 <= j < |samples| && samples[j] == s';
        assert i < j || j < i || i == j;
      }
    }
  }

  lemma SlotsStayApart(regular: seq<Avanza.PriceSample>)
    ensures Avanza.DistinctSlots(SortBy(regular, Avanza.SlotOf)) <==> DistinctBy(regular, Avanza.SlotOf)
  {
    var sorted := SortBy(regular, Avanza.SlotOf);
    assert Avanza.DistinctSlots(sorted) <==> DistinctBy(sorted, Avanza.SlotOf) by {
      if Avanza.DistinctSlots(sorted) {
        forall i, j | 0 <= i < j < |sorted| ensures Avanza.SlotOf(sorted[i]) != Avanza.SlotOf(sorted[j]) {}
      }
      if DistinctBy(sorted, Avanza.SlotOf) {
        forall i, j | 0 <= i < j < |sorted| ensures sorted[i].scheduledAt != sorted[j].scheduledAt {
          assert Avanza.SlotOf(sorted[i]) != Avanza.SlotOf(sorted[j]);
        }
      }
    }
    if DistinctBy(regular, Avanza.SlotOf) {
      DistinctRearranged(regular, sorted, Avanza.SlotOf);
    }
    if DistinctBy(sorted, Avanza.SlotOf) {
      DistinctRearranged(sorted, regular, Avanza.SlotOf);
    }
  }

  lemma CadenceMeans(samples: seq<Avanza.PriceSample>, now: Time, sorted: seq<Avanza.PriceSample>)
    requires forall s :: s in sorted <==> s in samples && IsKnown(s, now)
    ensures Avanza.Unmixed(sorted) <==> OneCadence(samples, now)
  {
    UnmixedMeans(sorted);
  }

  lemma BelongingMeans(
    samples: seq<Avanza.PriceSample>, l: Avanza.Listing, now: Time, regular: seq<Avanza.PriceSample>)
    requires forall s :: s in samples ==> Avanza.ValidPriceSample(s)
    requires forall s :: s in regular <==> s in samples && IsKnown(s, now)
    ensures (forall s :: s in regular ==> Avanza.Identified(s, l) && Avanza.Sound(s, l)) <==> AllBelong(samples, l, now)
  {
    forall s | s in samples ensures Belongs(s, l) <==> Avanza.Identified(s, l) && Avanza.Sound(s, l) {
      BelongsIsSound(s, l);
    }
  }

  lemma SlotsAscend(sorted: seq<Avanza.PriceSample>)
    requires OrderedBy(sorted, Avanza.SlotOf) && Avanza.DistinctSlots(sorted)
    ensures InSlotOrder(sorted)
  {
    forall i, j | 0 <= i < j < |sorted| ensures sorted[i].scheduledAt < sorted[j].scheduledAt {
      assert Avanza.SlotOf(sorted[i]) <= Avanza.SlotOf(sorted[j]);
    }
  }

  ghost predicate InSlotOrder(samples: seq<Avanza.PriceSample>) {
    forall i, j :: 0 <= i < j < |samples| ==> samples[i].scheduledAt < samples[j].scheduledAt
  }

  /** Validation succeeds exactly on one session, and then returns all known samples, in the order of their slots. */
  lemma ValidatesExactlyWhen(samples: seq<Avanza.PriceSample>, l: Avanza.Listing, now: Time)
    requires forall s :: s in samples ==> Avanza.ValidPriceSample(s)
    ensures var r := Avanza.ValidateSamples(samples, l, now);
            && (r.Success? <==> OneSession(samples, l, now))
            && (r.Success? ==> InSlotOrder(r.value) && forall s :: s in r.value <==> s in samples && IsKnown(s, now))
  {
    var regular := Avanza.SelectRegular(samples, now);
    var sorted := SortBy(regular, Avanza.SlotOf);
    Avanza.ValidationIsExact(samples, l, now);
    Avanza.SortedAreStored(samples, now);
    forall s ensures s in regular <==> s in samples && IsKnown(s, now) {
      Avanza.SelectedExactly(samples, now, s);
    }
    CadenceMeans(samples, now, sorted);
    SlotsStayApart(regular);
    SelectedApart(samples, now);
    BelongingMeans(samples, l, now, regular);
    SortOrders(regular, Avanza.SlotOf);
    if Avanza.DistinctSlots(sorted) {
      SlotsAscend(sorted);
    }
  }

  lemma CoversMeans(s: Avanza.PriceSample, t: Time, now: Time)
    requires Avanza.ValidPriceSample(s)
    ensures Avanza.Covers(s, t, now) <==> StandsFor(s, t, now)
    ensures StandsFor(s, t, now) ==> Avanza.MinuteBar(s, t) == CarriedMinute(s, t)
  {
  }

  /** What a read of listed, collected and unadjusted pages gives: minutes exactly when the known samples are one
      series with nothing overdue, and then exactly the minutes those samples stand for. */
  lemma PagesGive(
    desk: Avanza.Desk, samples: seq<Avanza.PriceSample>, l: Avanza.Listing, now: Time, r: Avanza.Reading)
    requires forall s :: s in samples ==> Avanza.ValidPriceSample(s)
    requires Avanza.IsReading(desk, samples, l, now, r)
    ensures r.Minutes? <==>
              && desk.listed && desk.trading && desk.collecting && !desk.adjusted && desk.matching
              && OneSession(samples, l, now)
              && exists s :: s in samples && IsKnown(s, now) && forall t :: !IsOverdue(samples, l, s.interval, now, t)
    ensures r.Minutes? ==>
              forall b :: b in r.bars <==>
                exists s :: s in samples && IsKnown(s, now) && StandsFor(s, b.start, now)
                            && b == CarriedMinute(s, b.start)
  {
    ValidatesExactlyWhen(samples, l, now);
    var valid := Avanza.ValidateSamples(samples, l, now);
    if valid.Success? {
      SlotsMissed(samples, valid.value, l, now);
      if valid.value != [] {
        assert valid.value[0] in valid.value;
      }
    }
    if r.Minutes? {
      forall b
        ensures b in r.bars <==>
                exists s :: s in samples && IsKnown(s, now) && StandsFor(s, b.start, now)
                            && b == CarriedMinute(s, b.start)
      {
        MinuteComesFrom(samples, valid.value, now, r.bars, b);
      }
    }
  }

  lemma SlotsMissed(
    samples: seq<Avanza.PriceSample>, valid: seq<Avanza.PriceSample>, l: Avanza.Listing, now: Time)
    requires forall s :: s in valid <==> s in samples && IsKnown(s, now)
    ensures forall interval: nat ::
              Avanza.MissesSlot(valid, l, interval, now) <==> exists t :: IsOverdue(samples, l, interval, now, t)
  {
    forall interval: nat
      ensures Avanza.MissesSlot(valid, l, interval, now) <==> exists t :: IsOverdue(samples, l, interval, now, t)
    {
      if Avanza.MissesSlot(valid, l, interval, now) {
        var t :| l.session.opens <= t < l.session.closes
                 && IsSlot(l.session.opens, interval, t) && t + Avanza.GRACE <= now && !Avanza.Sampled(valid, t);
        assert IsOverdue(samples, l, interval, now, t);
      }
      if t :| IsOverdue(samples, l, interval, now, t) {
        assert IsSlot(l.session.opens, interval, t) && !Avanza.Sampled(valid, t);
      }
    }
  }

  lemma MinuteComesFrom(
    samples: seq<Avanza.PriceSample>, valid: seq<Avanza.PriceSample>, now: Time, bars: seq<Bar>, b: Bar)
    requires forall s :: s in samples ==> Avanza.ValidPriceSample(s)
    requires forall s :: s in valid <==> s in samples && IsKnown(s, now)
    requires forall s, t :: s in valid && Avanza.Covers(s, t, now) ==> Avanza.MinuteBar(s, t) in bars
    requires forall x :: x in bars ==> Avanza.FromSample(x, valid, now)
    ensures b in bars <==>
            exists s :: s in samples && IsKnown(s, now) && StandsFor(s, b.start, now) && b == CarriedMinute(s, b.start)
  {
    if b in bars {
      assert Avanza.FromSample(b, valid, now);
      var s :| s in valid && Avanza.Covers(s, b.start, now) && b == Avanza.MinuteBar(s, b.start);
      CoversMeans(s, b.start, now);
    }
    if s :| s in samples && IsKnown(s, now) && StandsFor(s, b.start, now) && b == CarriedMinute(s, b.start) {
      CoversMeans(s, b.start, now);
      assert s in valid;
    }
  }

  // ---- Charts ----

  /** Entry `i` of the chart is a completed minute of the session with all four prices. */
  predicate IsTraded(c: FinanceAdapter.Chart, i: nat, opens: Time, closes: Time, now: Time)
    requires FinanceAdapter.WellShaped(c) && i < |c.stamps|
  {
    && opens <= c.stamps[i] && c.stamps[i] < closes && c.stamps[i] + 60 <= now
    && c.open[i] != None && c.high[i] != None && c.low[i] != None && c.close[i] != None
  }

  function TradedMinute(c: FinanceAdapter.Chart, i: nat, opens: Time, closes: Time, now: Time): Bar
    requires FinanceAdapter.WellShaped(c) && i < |c.stamps| && IsTraded(c, i, opens, closes, now)
  {
    Bar(c.stamps[i], open := c.open[i].value, high := c.high[i].value, low := c.low[i].value, close := c.close[i].value,
        sample := None, carried := false)
  }

  /** A chart with entries: four prices for each, a positive price range on the minute that holds open and close, and
      no minute told in two ways. */
  ghost predicate Coherent(c: FinanceAdapter.Chart, opens: Time, closes: Time, now: Time) {
    && |c.open| == |c.stamps| && |c.high| == |c.stamps| && |c.low| == |c.stamps| && |c.close| == |c.stamps|
    && (forall i :: 0 <= i < |c.stamps| && IsTraded(c, i, opens, closes, now) ==>
          && c.stamps[i] % 60 == 0 && c.low[i].value > 0.0
          && c.low[i].value <= c.open[i].value <= c.high[i].value
          && c.low[i].value <= c.close[i].value <= c.high[i].value)
    && (forall i, j ::
          0 <= i < j < |c.stamps| && c.stamps[i] == c.stamps[j]
          && IsTraded(c, i, opens, closes, now) && IsTraded(c, j, opens, closes, now) ==>
            TradedMinute(c, i, opens, closes, now) == TradedMinute(c, j, opens, closes, now))
  }

  lemma TradedIsKept(c: FinanceAdapter.Chart, i: nat, opens: Time, closes: Time, now: Time)
    requires FinanceAdapter.WellShaped(c) && i < |c.stamps|
    ensures FinanceAdapter.Kept(c, i, opens, closes, now) <==> IsTraded(c, i, opens, closes, now)
    ensures IsTraded(c, i, opens, closes, now) ==>
              FinanceAdapter.BarAt(c, i) == TradedMinute(c, i, opens, closes, now)
  {
  }

  lemma CoherentMeans(c: FinanceAdapter.Chart, opens: Time, closes: Time, now: Time)
    ensures Coherent(c, opens, closes, now) <==>
            FinanceAdapter.WellShaped(c) && FinanceAdapter.Consistent(c, |c.stamps|, opens, closes, now)
  {
    if FinanceAdapter.WellShaped(c) {
      forall i: nat | i < |c.stamps|
        ensures FinanceAdapter.Kept(c, i, opens, closes, now) <==> IsTraded(c, i, opens, closes, now)
        ensures IsTraded(c, i, opens, closes, now) ==>
                  FinanceAdapter.BarAt(c, i) == TradedMinute(c, i, opens, closes, now)
      {
        TradedIsKept(c, i, opens, closes, now);
      }
    }
  }

  /** What a chart gives: its traded minutes, each once and in order; it is refused exactly when it has entries and is
      not coherent. */
  lemma ChartsGive(
    c: FinanceAdapter.Chart, opens: Time, closes: Time, now: Time, r: Result<seq<Bar>, string>)
    requires FinanceAdapter.IsFiltered(c, opens, closes, now, r)
    ensures r.Success? <==> c.stamps == [] || Coherent(c, opens, closes, now)
    ensures c.stamps == [] ==> r == Success([])
    ensures r.Success? && c.stamps != [] ==>
              && FinanceAdapter.WellShaped(c)
              && (forall i, j :: 0 <= i < j < |r.value| ==> r.value[i].start < r.value[j].start)
              && (forall b :: b in r.value <==>
                    exists i :: 0 <= i < |c.stamps| && IsTraded(c, i, opens, closes, now)
                                && b == TradedMinute(c, i, opens, closes, now))
  {
    CoherentMeans(c, opens, closes, now);
    if r.Success? && c.stamps != [] {
      forall b
        ensures FinanceAdapter.FromChart(b, c, |c.stamps|, opens, closes, now) <==>
                exists i :: 0 <= i < |c.stamps| && IsTraded(c, i, opens, closes, now)
                            && b == TradedMinute(c, i, opens, closes, now)
      {
        ChartMinute(c, opens, closes, now, b);
      }
    }
  }

  lemma ChartMinute(c: FinanceAdapter.Chart, opens: Time, closes: Time, now: Time, b: Bar)
    requires FinanceAdapter.WellShaped(c)
    ensures FinanceAdapter.FromChart(b, c, |c.stamps|, opens, closes, now) <==>
            exists i :: 0 <= i < |c.stamps| && IsTraded(c, i, opens, closes, now)
                        && b == TradedMinute(c, i, opens, closes, now)
  {
    if FinanceAdapter.FromChart(b, c, |c.stamps|, opens, closes, now) {
      var i :| 0 <= i < |c.stamps| && FinanceAdapter.Kept(c, i, opens, closes, now) && b == FinanceAdapter.BarAt(c, i);
      TradedIsKept(c, i, opens, closes, now);
    }
    if i :| 0 <= i < |c.stamps| && IsTraded(c, i, opens, closes, now) && b == TradedMinute(c, i, opens, closes, now) {
      TradedIsKept(c, i, opens, closes, now);
    }
  }

  // ---- Messages ----

  /** A minute a message may carry: of the session, over by the time it was sent, and with the evidence its source
      owes. */
  ghost predicate MayCarry(b: Bar, m: Message, stream: Request, currency: string) {
    && stream.opens <= b.start < stream.closes && b.start + 60 <= m.occurredAt
    && match b.sample
       case None => m.source == Charts
       case Some(s) =>
         && m.source == Pages && stream.policy == LastKnownPrice && s.currency == currency
         && stream.opens <= s.scheduledAt < stream.closes && stream.opens <= s.observedAt < stream.closes
         && s.interval > 0 && (s.scheduledAt - stream.opens) % s.interval == 0
         && s.observedAt <= m.occurredAt && s.expiresAt <= stream.closes
  }

  /** A message of the stream whose minutes are all in order, told once each; which replaces only pages by charts with
      a reason; and which ends the stream before the close only with a failure. */
  ghost predicate IsProper(m: Message, stream: Request, currency: string) {
    && m.asset == stream.asset && m.registry == stream.registry
    && AllMayCarry(m, stream, currency)
    && (forall i, j :: 0 <= i < j < |m.bars| ==> m.bars[i].start != m.bars[j].start)
    && (m.replacing ==>
          && stream.policy == LastKnownPrice && m.source == Charts && m.fallback.Some? && m.fallback.value != "")
    && (m.final && m.occurredAt < stream.closes ==> m.failure.Some? && m.failure.value != "")
  }

  /** The same revision, told again. */
  ghost predicate IsRepeat(m: Message, n: Message) {
    n == m.(stream := n.stream, asset := n.asset, registry := n.registry, occurredAt := n.occurredAt,
    revision := n.revision)
  }

  lemma MayCarryMeans(b: Bar, m: Message, stream: Request, currency: string)
    ensures MayCarry(b, m, stream, currency) <==>
            && InSession(b, stream) && b.start + MINUTE <= m.occurredAt && BarComplaint(b, m, stream, currency).None?
  {
  }

  ghost predicate AllMayCarry(m: Message, stream: Request, currency: string) {
    forall b :: b in m.bars ==> MayCarry(b, m, stream, currency)
  }

  /** No minute is outside the session or unfinished, and none is refused. */
  lemma CarriesMeans(m: Message, stream: Request, currency: string)
    ensures AllMayCarry(m, stream, currency) <==>
            && !(exists b :: b in m.bars && !InSession(b, stream))
            && !(exists b :: b in m.bars && b.start + MINUTE > m.occurredAt)
            && BarsComplaint(m.bars, m, stream, currency).None?
  {
    NoBarComplaint(m.bars, m, stream, currency);
    forall b | b in m.bars
      ensures MayCarry(b, m, stream, currency) <==>
              && InSession(b, stream) && b.start + MINUTE <= m.occurredAt && BarComplaint(b, m, stream, currency).None?
    {
      MayCarryMeans(b, m, stream, currency);
    }
  }

  lemma ProperMeans(m: Message, stream: Request, currency: string)
    ensures Complaint(m, stream, currency).None? <==> IsProper(m, stream, currency)
  {
    CarriesMeans(m, stream, currency);
  }

  /** What happens to a message on a known stream: a proper one with a new revision is stored, a repeat is recognised,
      and everything else is refused without a trace. */
  lemma MessageIsTaken(table: Table, m: Message, stream: Request, currency: string)
    ensures var (after, reply) := Receive(table, m, stream, currency);
            && (reply.Stored? <==> IsProper(m, stream, currency) && m.revision !in table)
            && (reply.Repeated? <==>
                  IsProper(m, stream, currency) && m.revision in table && IsRepeat(table[m.revision], m))
            && !reply.Orphaned?
            && after == if reply.Stored? then table[m.revision := m] else table
  {
    ProperMeans(m, stream, currency);
  }
}
