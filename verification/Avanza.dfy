/**
 Sampled prices: validating a session's samples and carrying each one forward over the minutes it
 stands for.
 */
module Avanza {
  import opened Wrappers
  import opened IntradayTypes
  import opened Sorting

  const GRACE: Time := 120

  datatype Kind = Regular | CloseCheck

  datatype Session = Session(day: int, opens: Time, closes: Time)

  /** A point observation of a price page. */
  datatype PriceSample = PriceSample(
    id: Id, asset: Id, mapping: string, registry: string, day: int, opens: Time, closes: Time,
    scheduledAt: Time, observedAt: Time, quotedAt: Option<Time>, price: real, currency: string,
    quoteUnit: string, interval: nat, kind: Kind, marketOpen: bool, quality: Quality)

  /** What the message schema guarantees of every stored sample. */
  predicate ValidPriceSample(s: PriceSample) {
    && s.opens < s.closes
    && s.scheduledAt <= s.observedAt
    && s.price > 0.0
    && (s.interval == 600 || s.interval == 900)
    && (s.quotedAt.Some? ==> s.quotedAt.value <= s.observedAt)
    && (s.quality == Fresh ==> s.quotedAt.Some?)
    && (s.kind == Regular ==> s.opens <= s.scheduledAt < s.closes)
    && (s.kind == CloseCheck ==> s.closes <= s.scheduledAt)
  }

  function Expiry(s: PriceSample): Time {
    if s.scheduledAt + s.interval < s.closes then s.scheduledAt + s.interval else s.closes
  }

  function Evidence(s: PriceSample): Sample {
    Sample(s.id, s.scheduledAt, s.observedAt, Expiry(s), s.interval, s.mapping, s.currency, s.quotedAt, s.quality)
  }

  /** Unusable quality is refused first; the schema refuses everything else that is malformed. */
  function Provenance(s: PriceSample): Result<Sample, string> {
    if !Usable(s.quality) then Failure("INVALID_SAMPLE_QUALITY")
    else if !ValidSample(Evidence(s)) then Failure("AVANZA_READ_ERROR")
    else Success(Evidence(s))
  }

  // ---- Selection and order ----

  function SelectRegular(samples: seq<PriceSample>, now: Time): seq<PriceSample> {
    if samples == [] then []
    else SelectRegular(samples[..|samples| - 1], now)
         + (if samples[|samples| - 1].kind == Regular && samples[|samples| - 1].observedAt <= now
            then [samples[|samples| - 1]] else [])
  }

  lemma {:induction false} SelectedExactly(samples: seq<PriceSample>, now: Time, s: PriceSample)
    ensures s in SelectRegular(samples, now) <==> s in samples && s.kind == Regular && s.observedAt <= now
  {
    if samples != [] {
      SelectedExactly(samples[..|samples| - 1], now, s);
      assert samples == samples[..|samples| - 1] + [samples[|samples| - 1]];
    }
  }

  function SlotOf(s: PriceSample): Time {
    s.scheduledAt
  }

  // ---- Validation ----

  /** The listing and session the samples are asked for. */
  datatype Listing = Listing(asset: Id, session: Session, currency: string, registry: string)

  predicate Identified(s: PriceSample, l: Listing) {
    && s.asset == l.asset && s.currency == l.currency && s.quoteUnit == l.currency && s.registry == l.registry
    && s.day == l.session.day && s.opens == l.session.opens && s.closes == l.session.closes
  }

  predicate Sound(s: PriceSample, l: Listing) {
    && s.marketOpen
    && Usable(s.quality)
    && s.scheduledAt <= s.observedAt < l.session.closes
    && s.observedAt - s.scheduledAt <= GRACE
    && s.interval > 0 && (s.scheduledAt - l.session.opens) % s.interval == 0
  }

  predicate Unmixed(samples: seq<PriceSample>) {
    forall i, j :: 0 <= i < j < |samples| ==>
                     samples[i].mapping == samples[j].mapping && samples[i].interval == samples[j].interval
  }

  predicate DistinctSlots(samples: seq<PriceSample>) {
    forall i, j :: 0 <= i < j < |samples| ==> samples[i].scheduledAt != samples[j].scheduledAt
  }

  /** The first complaint about a sample, in slot order. */
  function FirstFault(samples: seq<PriceSample>, l: Listing): Option<string>
    requires forall s :: s in samples ==> ValidPriceSample(s)
  {
    if samples == [] then None
    else if !Identified(samples[0], l) then Some("SAMPLE_IDENTITY_MISMATCH")
    else if !Sound(samples[0], l) then Some("INVALID_SAMPLE_EVIDENCE")
    else FirstFault(samples[1..], l)
  }

  /** A validated session: one cadence, one sample a slot, in slot order, each sound and identified. */
  ghost predicate Validated(samples: seq<PriceSample>, l: Listing, now: Time) {
    && Unmixed(samples) && DistinctSlots(samples) && OrderedBy(samples, SlotOf)
    && forall s :: s in samples ==>
                     ValidPriceSample(s) && s.kind == Regular && s.observedAt <= now && Identified(s, l) && Sound(s, l)
  }

  lemma {:induction false} NoFault(samples: seq<PriceSample>, l: Listing)
    requires forall s :: s in samples ==> ValidPriceSample(s)
    ensures FirstFault(samples, l).None? <==> forall s :: s in samples ==> Identified(s, l) && Sound(s, l)
  {
    if samples != [] {
      assert samples[0] in samples;
      NoFault(samples[1..], l);
      assert forall s :: s in samples ==> s == samples[0] || s in samples[1..];
    }
  }

  function ValidateSamples(samples: seq<PriceSample>, l: Listing, now: Time): Result<seq<PriceSample>, string>
    requires forall s :: s in samples ==> ValidPriceSample(s)
  {
    SortedAreStored(samples, now);
    var regular := SortBy(SelectRegular(samples, now), SlotOf);
    if !Unmixed(regular) then Failure("MIXED_MAPPING_OR_CADENCE")
    else if !DistinctSlots(regular) then Failure("DUPLICATE_SAMPLE_SLOT")
    else
      var fault := FirstFault(regular, l);
      if fault.Some? then Failure(fault.value) else Success(regular)
  }

  lemma SortedAreStored(samples: seq<PriceSample>, now: Time)
    ensures forall s :: s in SortBy(SelectRegular(samples, now), SlotOf) <==>
                          s in samples && s.kind == Regular && s.observedAt <= now
  {
    var selected := SelectRegular(samples, now);
    forall s ensures s in SortBy(selected, SlotOf) <==> s in samples && s.kind == Regular && s.observedAt <= now {
      SelectedExactly(samples, now, s);
      assert s in selected <==> s in multiset(selected);
      assert s in SortBy(selected, SlotOf) <==> s in multiset(SortBy(selected, SlotOf));
    }
  }

  /** Validation keeps every regular sample known by `now`, orders them, and succeeds exactly on sessions
      whose samples are unmixed, distinct, identified and sound. */
  lemma ValidationIsExact(samples: seq<PriceSample>, l: Listing, now: Time)
    requires forall s :: s in samples ==> ValidPriceSample(s)
    ensures var regular := SelectRegular(samples, now);
            var r := ValidateSamples(samples, l, now);
            && (r.Success? <==>
                  && Unmixed(SortBy(regular, SlotOf)) && DistinctSlots(SortBy(regular, SlotOf))
                  && forall s :: s in regular ==> Identified(s, l) && Sound(s, l))
            && (r.Success? ==> Validated(r.value, l, now) && multiset(r.value) == multiset(regular))
  {
    var regular := SelectRegular(samples, now);
    SortOrders(regular, SlotOf);
    SortedAreStored(samples, now);
    forall s ensures s in regular <==> s in SortBy(regular, SlotOf) {
      SelectedExactly(samples, now, s);
    }
    NoFault(SortBy(regular, SlotOf), l);
  }

  // ---- Minutes ----

  function Limit(s: PriceSample, now: Time): Time {
    if now < s.closes then now else s.closes
  }

  /** The sample stands for this minute: it was read in it or before, has not expired, and the minute is over. */
  predicate Covers(s: PriceSample, t: Time, now: Time) {
    && t % MINUTE == 0
    && MinuteOf(s.observedAt) <= t < Expiry(s)
    && t + MINUTE <= Limit(s, now)
  }

  function MinuteBar(s: PriceSample, t: Time): Bar {
    Bar(t, s.price, s.price, s.price, s.price, Some(Evidence(s)), t != MinuteOf(s.observedAt))
  }

  function SampleMinutes(s: PriceSample, before: Time, now: Time): map<Time, Bar> {
    map t | MinuteOf(s.observedAt) <= t < before && Covers(s, t, now) :: MinuteBar(s, t)
  }

  function MinuteMap(samples: seq<PriceSample>, now: Time): map<Time, Bar> {
    if samples == [] then map[]
    else var last := samples[|samples| - 1];
         MinuteMap(samples[..|samples| - 1], now) + SampleMinutes(last, Expiry(last), now)
  }

  /** One sample's minutes over what is already there. */
  method CarryForward(before: map<Time, Bar>, s: PriceSample, evidence: Sample, now: Time)
    returns (minutes: map<Time, Bar>)
    requires Keyed(before) && evidence == Evidence(s)
    ensures Keyed(minutes) && minutes == before + SampleMinutes(s, Expiry(s), now)
  {
    minutes := before;
    var start := MinuteOf(s.observedAt);
    var at := start;
    while at < evidence.expiresAt && at + MINUTE <= Limit(s, now)
      invariant start <= at && at % MINUTE == 0
      invariant minutes == before + SampleMinutes(s, at, now)
      decreases evidence.expiresAt - at
    {
      minutes := minutes[at := Bar(at, s.price, s.price, s.price, s.price, Some(evidence), at != start)];
      OverlayAdvances(before, s, at, now);
      at := at + MINUTE;
    }
    MinutesEnd(s, at, now);
  }

  lemma OverlayAdvances(before: map<Time, Bar>, s: PriceSample, at: Time, now: Time)
    requires MinuteOf(s.observedAt) <= at < Expiry(s) && at % MINUTE == 0 && at + MINUTE <= Limit(s, now)
    ensures before + SampleMinutes(s, at + MINUTE, now) == (before + SampleMinutes(s, at, now))[at := MinuteBar(s, at)]
  {
    MinuteAdvances(s, at, now);
  }

  method MinuteValues(samples: seq<PriceSample>, now: Time) returns (r: Result<seq<Bar>, string>)
    ensures r.Success? <==> forall s :: s in samples ==> Provenance(s).Success?
    ensures r.Success? ==> Ascending(r.value)
    ensures r.Success? ==>
              forall b :: b in r.value <==> b.start in MinuteMap(samples, now) && MinuteMap(samples, now)[b.start] == b
  {
    var minutes: map<Time, Bar> := map[];
    for i := 0 to |samples|
      invariant minutes == MinuteMap(samples[..i], now)
      invariant Keyed(minutes)
      invariant forall s :: s in samples[..i] ==> Provenance(s).Success?
    {
      var s := samples[i];
      var evidence := Provenance(s);
      if evidence.Failure? {
        assert s in samples;
        return Failure(evidence.error);
      }
      minutes := CarryForward(minutes, s, evidence.value, now);
      assert samples[..i + 1][..i] == samples[..i];
    }
    assert samples[..|samples|] == samples;
    var bars := SortedByStart(minutes);
    r := Success(bars);
  }

  lemma MinuteAdvances(s: PriceSample, at: Time, now: Time)
    requires MinuteOf(s.observedAt) <= at < Expiry(s) && at % MINUTE == 0 && at + MINUTE <= Limit(s, now)
    ensures SampleMinutes(s, at + MINUTE, now) == SampleMinutes(s, at, now)[at := MinuteBar(s, at)]
  {
    assert forall t :: at < t < at + MINUTE ==> t % MINUTE != 0;
  }

  lemma MinutesEnd(s: PriceSample, at: Time, now: Time)
    requires at % MINUTE == 0 && MinuteOf(s.observedAt) <= at
    requires at >= Expiry(s) || at + MINUTE > Limit(s, now)
    ensures SampleMinutes(s, at, now) == SampleMinutes(s, Expiry(s), now)
  {
  }

  // ---- What the minutes of a validated session are ----

  lemma SlotsAreApart(a: Time, b: Time, interval: nat)
    requires interval == 600 || interval == 900
    requires a < b && a % interval == 0 && b % interval == 0
    ensures a + interval <= b
  {
    if interval == 600 {
      assert a % 600 == 0 && b % 600 == 0;
    } else {
      assert a % 900 == 0 && b % 900 == 0;
    }
  }

  /** A slot on the session's grid is a whole minute, so a read never belongs to a minute before its slot. */
  lemma ReadAfterSlot(opens: Time, slot: Time, observed: Time, interval: nat)
    requires opens % MINUTE == 0 && (interval == 600 || interval == 900) && (slot - opens) % interval == 0
    requires slot <= observed
    ensures slot <= MinuteOf(observed)
  {
    var q := (slot - opens) / interval;
    var minutes := if interval == 600 then 10 * q else 15 * q;
    assert slot - opens == MINUTE * minutes;
    assert slot == MINUTE * (minutes + opens / MINUTE);
  }

  /** An earlier sample expires before the minute in which a later one was read. */
  lemma SamplesExpireInTurn(samples: seq<PriceSample>, l: Listing, now: Time, i: nat, j: nat)
    requires Validated(samples, l, now) && l.session.opens % MINUTE == 0 && i < j < |samples|
    ensures Expiry(samples[i]) <= MinuteOf(samples[j].observedAt)
  {
    assert samples[i] in samples && samples[j] in samples;
    assert SlotOf(samples[i]) <= SlotOf(samples[j]);
    ExpiresBefore(samples[i], samples[j], l);
  }

  lemma ExpiresBefore(s: PriceSample, later: PriceSample, l: Listing)
    requires ValidPriceSample(s) && ValidPriceSample(later) && Sound(s, l) && Sound(later, l)
    requires s.interval == later.interval && s.scheduledAt < later.scheduledAt && l.session.opens % MINUTE == 0
    ensures Expiry(s) <= MinuteOf(later.observedAt)
  {
    SlotsAreApart(s.scheduledAt - l.session.opens, later.scheduledAt - l.session.opens, s.interval);
    ReadAfterSlot(l.session.opens, later.scheduledAt, later.observedAt, later.interval);
  }

  /** Minutes of different samples never overlap. */
  lemma MinutesNeverOverlap(samples: seq<PriceSample>, l: Listing, now: Time, i: nat, j: nat, t: Time)
    requires Validated(samples, l, now) && l.session.opens % MINUTE == 0 && i < |samples| && j < |samples|
    requires Covers(samples[i], t, now) && Covers(samples[j], t, now)
    ensures i == j
  {
    if i < j {
      SamplesExpireInTurn(samples, l, now, i, j);
    } else if j < i {
      SamplesExpireInTurn(samples, l, now, j, i);
    }
  }

  lemma PrefixValidated(samples: seq<PriceSample>, l: Listing, now: Time)
    requires Validated(samples, l, now) && samples != []
    ensures Validated(samples[..|samples| - 1], l, now)
  {
  }

  /** So each minute belongs to the one sample that covers it. */
  lemma {:induction false} MinuteOfSample(samples: seq<PriceSample>, l: Listing, now: Time, i: nat, t: Time)
    requires Validated(samples, l, now) && l.session.opens % MINUTE == 0 && i < |samples|
    requires Covers(samples[i], t, now)
    ensures t in MinuteMap(samples, now) && MinuteMap(samples, now)[t] == MinuteBar(samples[i], t)
    decreases |samples|
  {
    var last := |samples| - 1;
    if i < last {
      PrefixValidated(samples, l, now);
      MinuteOfSample(samples[..last], l, now, i, t);
      if Covers(samples[last], t, now) {
        MinutesNeverOverlap(samples, l, now, i, last, t);
      }
    }
  }

  lemma {:induction false} SampleOfMinute(samples: seq<PriceSample>, now: Time, t: Time) returns (i: nat)
    requires t in MinuteMap(samples, now)
    ensures i < |samples| && Covers(samples[i], t, now)
    ensures MinuteMap(samples, now)[t] == MinuteBar(samples[i], t)
    decreases |samples|
  {
    var last := |samples| - 1;
    if Covers(samples[last], t, now) {
      i := last;
    } else {
      i := SampleOfMinute(samples[..last], now, t);
    }
  }

  /** What Verification may rely on for sampled minutes of a session. */
  ghost predicate SampledMinute(b: Bar, opens: Time, closes: Time, currency: string, now: Time) {
    && ValidBar(b) && b.sample.Some?
    && opens <= b.start && b.start + MINUTE <= closes && b.start + MINUTE <= now
    && var s := b.sample.value;
    && opens <= s.scheduledAt && s.observedAt < closes && s.observedAt <= now
    && s.expiresAt <= closes && s.currency == currency
    && (s.scheduledAt - opens) % s.interval == 0
  }

  ghost predicate SampledMinutes(bars: seq<Bar>, opens: Time, closes: Time, currency: string, now: Time) {
    DistinctStarts(bars) && forall b :: b in bars ==> SampledMinute(b, opens, closes, currency, now)
  }

  lemma CoveredMinuteIsSampled(s: PriceSample, l: Listing, now: Time, t: Time)
    requires ValidPriceSample(s) && s.kind == Regular && s.observedAt <= now && Identified(s, l) && Sound(s, l)
    requires l.session.opens % MINUTE == 0
    requires Covers(s, t, now)
    ensures Provenance(s).Success?
    ensures SampledMinute(MinuteBar(s, t), l.session.opens, l.session.closes, l.currency, now)
  {
    assert MinuteOf(s.observedAt) >= l.session.opens;
  }

  lemma SoundSampleHasEvidence(s: PriceSample, l: Listing)
    requires ValidPriceSample(s) && s.kind == Regular && Identified(s, l) && Sound(s, l)
    ensures Provenance(s) == Success(Evidence(s))
  {
  }

  /** The minutes derived from a validated session satisfy that promise. */
  lemma ValidatedMinutesAreSampled(samples: seq<PriceSample>, l: Listing, now: Time, bars: seq<Bar>)
    requires Validated(samples, l, now) && l.session.opens % MINUTE == 0
    requires Ascending(bars)
    requires forall b :: b in bars ==> b.start in MinuteMap(samples, now) && MinuteMap(samples, now)[b.start] == b
    ensures SampledMinutes(bars, l.session.opens, l.session.closes, l.currency, now)
  {
    forall b | b in bars ensures SampledMinute(b, l.session.opens, l.session.closes, l.currency, now) {
      var i := SampleOfMinute(samples, now, b.start);
      assert samples[i] in samples;
      CoveredMinuteIsSampled(samples[i], l, now, b.start);
    }
  }

  // ---- Reading a session ----

  /** The bar is a minute of one of the samples. */
  ghost predicate FromSample(b: Bar, samples: seq<PriceSample>, now: Time) {
    exists s :: s in samples && Covers(s, b.start, now) && b == MinuteBar(s, b.start)
  }

  /** What a read of the session gives: its minutes, nothing yet, or a reason to fall back. */
  datatype Reading = Minutes(bars: seq<Bar>) | Pending | Failed(reason: string)

  predicate Sampled(samples: seq<PriceSample>, t: Time) {
    exists s :: s in samples && s.scheduledAt == t
  }

  /** Some slot whose collection deadline has passed was never read. */
  predicate MissesSlot(samples: seq<PriceSample>, l: Listing, interval: nat, now: Time) {
    exists t | l.session.opens <= t < l.session.closes ::
      IsSlot(l.session.opens, interval, t) && t + GRACE <= now && !Sampled(samples, t)
  }

  lemma EveryMinuteIsThere(
    valid: seq<PriceSample>, l: Listing, now: Time, bars: seq<Bar>, s: PriceSample, t: Time)
    requires Validated(valid, l, now) && l.session.opens % MINUTE == 0
    requires forall b :: b in bars <==> b.start in MinuteMap(valid, now) && MinuteMap(valid, now)[b.start] == b
    requires s in valid && Covers(s, t, now)
    ensures MinuteBar(s, t) in bars
  {
    var i :| 0 <= i < |valid| && valid[i] == s;
    MinuteOfSample(valid, l, now, i, t);
  }

  lemma {:induction false} FaultsAreNamed(samples: seq<PriceSample>, l: Listing)
    requires forall s :: s in samples ==> ValidPriceSample(s)
    ensures FirstFault(samples, l).Some? ==> FirstFault(samples, l).value != ""
  {
    if samples != [] {
      FaultsAreNamed(samples[1..], l);
    }
  }

  /** Why samples give no minutes, once they are due. */
  function SampleFailure(valid: Result<seq<PriceSample>, string>): string {
    if valid.Failure? then valid.error
    else if valid.value == [] then "NO_AVANZA_HISTORY" else "MISSING_AVANZA_SLOT"
  }

  /** Minutes are read exactly from a validated, non-empty session with no slot overdue; they satisfy the
      promise above and leave out no covered minute. Otherwise there is a reason. */
  method ReadSamples(samples: seq<PriceSample>, l: Listing, now: Time) returns (r: Reading)
    requires forall s :: s in samples ==> ValidPriceSample(s)
    requires l.session.opens % MINUTE == 0
    ensures var valid := ValidateSamples(samples, l, now);
            && (r.Minutes? <==>
                  valid.Success? && valid.value != [] && !MissesSlot(valid.value, l, valid.value[0].interval, now))
            && (r.Minutes? ==> forall s, t :: s in valid.value && Covers(s, t, now) ==> MinuteBar(s, t) in r.bars)
            && (r.Minutes? ==> forall b :: b in r.bars ==> FromSample(b, valid.value, now))
    ensures r.Minutes? ==>
              Ascending(r.bars) && SampledMinutes(r.bars, l.session.opens, l.session.closes, l.currency, now)
    ensures r.Failed? ==> r.reason != "" && r.reason == SampleFailure(ValidateSamples(samples, l, now))
    ensures r.Pending? <==> ValidateSamples(samples, l, now) == Success([]) && now < l.session.opens + GRACE
  {
    var valid := ValidateSamples(samples, l, now);
    ValidationIsExact(samples, l, now);
    if valid.Failure? {
      SortedAreStored(samples, now);
      FaultsAreNamed(SortBy(SelectRegular(samples, now), SlotOf), l);
      return Failed(valid.error);
    }
    if valid.value == [] {
      return if now < l.session.opens + GRACE then Pending else Failed("NO_AVANZA_HISTORY");
    }
    if MissesSlot(valid.value, l, valid.value[0].interval, now) {
      return Failed("MISSING_AVANZA_SLOT");
    }
    var values := ReadValid(valid.value, l, now);
    r := Minutes(values);
  }

  /** What is known before any sample is looked at: whether the asset is listed, the day trades, samples are being
      collected at all, the price series is adjusted, and the stored rows belong to the listing. */
  datatype Desk = Desk(listed: bool, trading: bool, collecting: bool, adjusted: bool, matching: bool)

  predicate Readable(desk: Desk) {
    desk.listed && desk.trading && desk.collecting && !desk.adjusted && desk.matching
  }

  /** A read of the session: minutes exactly when nothing stands in the way and the samples themselves give them,
      every covered minute and no other; nothing yet on a closed day or before anything is due; otherwise a reason. */
  ghost predicate IsReading(desk: Desk, samples: seq<PriceSample>, l: Listing, now: Time, r: Reading)
    requires forall s :: s in samples ==> ValidPriceSample(s)
  {
    var valid := ValidateSamples(samples, l, now);
    && (r.Minutes? <==>
          && Readable(desk) && valid.Success? && valid.value != []
          && !MissesSlot(valid.value, l, valid.value[0].interval, now))
    && (r.Minutes? ==> forall s, t :: s in valid.value && Covers(s, t, now) ==> MinuteBar(s, t) in r.bars)
    && (r.Minutes? ==> forall b :: b in r.bars ==> FromSample(b, valid.value, now))
    && (r.Minutes? ==>
          Ascending(r.bars) && SampledMinutes(r.bars, l.session.opens, l.session.closes, l.currency, now))
    && (r.Pending? <==>
          && desk.listed
          && (|| !desk.trading
              || (now < l.session.opens + GRACE && (!desk.collecting || (Readable(desk) && valid == Success([]))))))
    && (r.Failed? ==>
          && r.reason != ""
          && r.reason == if !desk.listed then "UNSUPPORTED_AVANZA_LISTING"
                         else if !desk.collecting then "COLLECTOR_NOT_INITIALIZED"
                         else if desk.adjusted then "ADJUSTED_PRICE_SERIES_UNSUPPORTED"
                         else if !desk.matching then "STORED_LISTING_MISMATCH"
                         else SampleFailure(valid))
  }

  method Read(desk: Desk, samples: seq<PriceSample>, l: Listing, now: Time) returns (r: Reading)
    requires forall s :: s in samples ==> ValidPriceSample(s)
    requires l.session.opens % MINUTE == 0
    ensures IsReading(desk, samples, l, now, r)
  {
    if !desk.listed {
      return Failed("UNSUPPORTED_AVANZA_LISTING");
    }
    if !desk.trading {
      return Pending;
    }
    if !desk.collecting {
      return if now < l.session.opens + GRACE then Pending else Failed("COLLECTOR_NOT_INITIALIZED");
    }
    if desk.adjusted {
      return Failed("ADJUSTED_PRICE_SERIES_UNSUPPORTED");
    }
    if !desk.matching {
      return Failed("STORED_LISTING_MISMATCH");
    }
    r := ReadSamples(samples, l, now);
  }

  method ReadValid(valid: seq<PriceSample>, l: Listing, now: Time) returns (bars: seq<Bar>)
    requires Validated(valid, l, now) && l.session.opens % MINUTE == 0
    ensures Ascending(bars) && SampledMinutes(bars, l.session.opens, l.session.closes, l.currency, now)
    ensures forall s, t :: s in valid && Covers(s, t, now) ==> MinuteBar(s, t) in bars
    ensures forall b :: b in bars ==> FromSample(b, valid, now)
  {
    forall s | s in valid ensures Provenance(s).Success? {
      SoundSampleHasEvidence(s, l);
    }
    var values := MinuteValues(valid, now);
    bars := values.value;
    ValidatedMinutesAreSampled(valid, l, now, bars);
    forall s, t | s in valid && Covers(s, t, now) ensures MinuteBar(s, t) in bars {
      EveryMinuteIsThere(valid, l, now, bars, s, t);
    }
    forall b | b in bars ensures FromSample(b, valid, now) {
      var i := SampleOfMinute(valid, now, b.start);
      assert valid[i] in valid;
    }
  }
}
