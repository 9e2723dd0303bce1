/** Repeating a sample over several minutes is not evidence: only the samples themselves decide. */
module CarryForward {
  import opened Wrappers
  import opened IntradayTypes
  import opened Sorting
  import opened IntradayPolicy
  import Avanza

  /** Some minute shows this observation inside the window. */
  ghost predicate Shows(c: Case, bars: seq<Bar>, o: Observation) {
    InWindow(c, o.sample) && exists b :: b in bars && b.sample == Some(o.sample) && b.close == o.close
  }

  /** Two minutes disagree about one sample. */
  ghost predicate Conflicting(c: Case, bars: seq<Bar>) {
    exists o, o' :: Shows(c, bars, o) && Shows(c, bars, o') && o.sample.id == o'.sample.id && o != o'
  }

  lemma {:induction false} FindFinds(kept: seq<Observation>, id: Id)
    ensures Find(kept, id).Some? ==> Find(kept, id).value in kept && Find(kept, id).value.sample.id == id
    ensures Find(kept, id).None? ==> forall o :: o in kept ==> o.sample.id != id
  {
    if kept != [] {
      FindFinds(kept[..|kept| - 1], id);
      assert kept == kept[..|kept| - 1] + [kept[|kept| - 1]];
    }
  }

  lemma ShowsMore(c: Case, front: seq<Bar>, b: Bar, o: Observation)
    ensures Shows(c, front + [b], o) <==>
            Shows(c, front, o) || (InWindow(c, o.sample) && b.sample == Some(o.sample) && b.close == o.close)
  {
    if Shows(c, front, o) {
      var x :| x in front && x.sample == Some(o.sample) && x.close == o.close;
      assert x in front + [b];
    }
    assert b in front + [b];
  }

  ghost predicate IdsDistinct(kept: seq<Observation>) {
    forall i, j :: 0 <= i < j < |kept| ==> kept[i].sample.id != kept[j].sample.id
  }

  /** What is kept is exactly what is shown, once per sample; nothing is kept exactly when minutes conflict. */
  lemma {:induction false} UniqueIsExact(c: Case, bars: seq<Bar>)
    ensures Unique(c, bars).Some? ==>
              && IdsDistinct(Unique(c, bars).value)
              && forall o :: o in Unique(c, bars).value <==> Shows(c, bars, o)
    ensures Unique(c, bars).None? ==> Conflicting(c, bars)
    decreases |bars|
  {
    if bars != [] {
      var front, b := bars[..|bars| - 1], bars[|bars| - 1];
      assert bars == front + [b];
      UniqueIsExact(c, front);
      forall o ensures Shows(c, bars, o) <==>
                       Shows(c, front, o) || (InWindow(c, o.sample) && b.sample == Some(o.sample) && b.close == o.close)
      {
        ShowsMore(c, front, b, o);
      }
      var before := Unique(c, front);
      if before.None? {
        ConflictPersists(c, front, b);
      } else if b.sample.Some? && InWindow(c, b.sample.value) {
        FindFinds(before.value, b.sample.value.id);
        var prior := Find(before.value, b.sample.value.id);
        var news := Observation(b.sample.value, b.close);
        if prior.Some? && prior.value != news {
          assert Shows(c, bars, prior.value) && Shows(c, bars, news);
        }
      }
    }
  }

  lemma ConflictPersists(c: Case, front: seq<Bar>, b: Bar)
    requires Conflicting(c, front)
    ensures Conflicting(c, front + [b])
  {
    var o, o' :| Shows(c, front, o) && Shows(c, front, o') && o.sample.id == o'.sample.id && o != o';
    ShowsMore(c, front, b, o);
    ShowsMore(c, front, b, o');
  }

  /** A conflict is never overlooked. */
  lemma ConflictIsFound(c: Case, bars: seq<Bar>)
    requires Conflicting(c, bars)
    ensures Unique(c, bars).None?
  {
    UniqueIsExact(c, bars);
  }

  /** Different observations were made at different times. */
  ghost predicate TimesDiffer(c: Case, bars: seq<Bar>) {
    forall o, o' :: Shows(c, bars, o) && Shows(c, bars, o') && o != o' ==> o.sample.observedAt != o'.sample.observedAt
  }

  lemma KeptTimesDiffer(c: Case, bars: seq<Bar>)
    requires TimesDiffer(c, bars) && Unique(c, bars).Some?
    ensures DistinctBy(Unique(c, bars).value, ObservedKey)
  {
    UniqueIsExact(c, bars);
    var kept := Unique(c, bars).value;
    forall i, j | 0 <= i < j < |kept| ensures ObservedKey(kept[i]) != ObservedKey(kept[j]) {
      assert kept[i] in kept && kept[j] in kept;
      assert kept[i].sample.id != kept[j].sample.id;
    }
  }

  /** The observations in order are a function of what is shown, not of how often or in which order. */
  lemma SameEvidenceSameOrder(c: Case, bars: seq<Bar>, others: seq<Bar>)
    requires TimesDiffer(c, bars) && (forall o :: Shows(c, bars, o) <==> Shows(c, others, o))
    ensures Unique(c, bars).Some? <==> Unique(c, others).Some?
    ensures Unique(c, bars).Some? ==>
              SortBy(Unique(c, bars).value, ObservedKey) == SortBy(Unique(c, others).value, ObservedKey)
  {
    UniqueIsExact(c, bars);
    UniqueIsExact(c, others);
    if Unique(c, bars).None? {
      assert Conflicting(c, others);
      ConflictIsFound(c, others);
    } else if Unique(c, others).None? {
      assert Conflicting(c, bars);
      ConflictIsFound(c, bars);
    } else {
      KeptTimesDiffer(c, bars);
      KeptTimesDiffer(c, others);
      SortsEqual(Unique(c, bars).value, Unique(c, others).value, ObservedKey);
    }
  }

  ghost predicate OnlySamples(bars: seq<Bar>) {
    forall b :: b in bars ==> ValidBar(b) && b.sample.Some?
  }

  lemma RepresentedIsAllThatDiffers(
    c: Case, obs: seq<Observation>, n: nat, m: nat, final: bool, failure: Option<string>, previous: Option<Outcome>)
    requires forall o :: o in obs ==> ValidSample(o.sample) && o.close > 0.0
    ensures EvaluateObserved(c, obs, n, final, failure, previous)
            == EvaluateObserved(c, obs, m, final, failure, previous).(representedMinutes := n)
  {
  }

  lemma LastKnownEqual(
    c: Case, bars: seq<Bar>, others: seq<Bar>, final: bool, failure: Option<string>, previous: Option<Outcome>)
    requires OnlySamples(bars) && OnlySamples(others)
    requires Unique(c, bars).Some? <==> Unique(c, others).Some?
    requires Unique(c, bars).Some? ==>
               SortBy(Unique(c, bars).value, ObservedKey) == SortBy(Unique(c, others).value, ObservedKey)
    ensures EvaluateLastKnown(c, bars, final, failure, previous).(representedMinutes := 0)
            == EvaluateLastKnown(c, others, final, failure, previous).(representedMinutes := 0)
  {
    if Unique(c, bars).Some? {
      SortedObservations(c, bars);
      RepresentedIsAllThatDiffers(
        c, SortBy(Unique(c, bars).value, ObservedKey), |bars|, |others|, final, failure, previous);
    }
  }

  lemma SampledEvaluation(
    c: Case, bars: seq<Bar>, final: bool, failure: Option<string>, previous: Option<Outcome>)
    requires OnlySamples(bars) && bars != []
    ensures Evaluation(c, bars, final, failure, previous)
            == if c.policy.version != LastKnownPrice then Refuse("UNEXPECTED_PRICE_BASIS")
               else EvaluateLastKnown(c, bars, final, failure, previous)
  {
    assert bars[0] in bars;
  }

  /** Sampled minutes that show the same observations give the same result, but for the minutes represented. */
  lemma EvidenceDecides(
    c: Case, bars: seq<Bar>, others: seq<Bar>, final: bool, failure: Option<string>, previous: Option<Outcome>)
    requires OnlySamples(bars) && OnlySamples(others) && (bars == [] <==> others == [])
    requires TimesDiffer(c, bars) && (forall o :: Shows(c, bars, o) <==> Shows(c, others, o))
    ensures Evaluation(c, bars, final, failure, previous).(representedMinutes := 0)
            == Evaluation(c, others, final, failure, previous).(representedMinutes := 0)
  {
    if bars != [] {
      SampledEvaluation(c, bars, final, failure, previous);
      SampledEvaluation(c, others, final, failure, previous);
      SameEvidenceSameOrder(c, bars, others);
      LastKnownEqual(c, bars, others, final, failure, previous);
    }
  }

  // ---- The minutes of a validated session ----

  /** Each sample once, in the minute it was read. */
  function OncePerSample(samples: seq<Avanza.PriceSample>): seq<Bar> {
    seq(|samples|, i requires 0 <= i < |samples| =>
      Avanza.MinuteBar(samples[i], MinuteOf(samples[i].observedAt)))
  }

  /** Every sample has completed at least the minute it was read in. */
  ghost predicate EachHasAMinute(samples: seq<Avanza.PriceSample>, now: Time) {
    forall s :: s in samples ==> Avanza.Covers(s, MinuteOf(s.observedAt), now)
  }

  /** The expanded minutes of a session, in any order. */
  ghost predicate Expanded(bars: seq<Bar>, samples: seq<Avanza.PriceSample>, now: Time) {
    AllFromSamples(bars, samples, now) && AllRead(bars, samples)
  }

  ghost predicate AllFromSamples(bars: seq<Bar>, samples: seq<Avanza.PriceSample>, now: Time) {
    forall b :: b in bars ==> Avanza.FromSample(b, samples, now)
  }

  ghost predicate AllRead(bars: seq<Bar>, samples: seq<Avanza.PriceSample>) {
    forall s :: s in samples ==> Avanza.MinuteBar(s, MinuteOf(s.observedAt)) in bars
  }

  ghost predicate ObservedIn(o: Observation, samples: seq<Avanza.PriceSample>) {
    exists s :: s in samples && o == Observation(Avanza.Evidence(s), s.price)
  }

  lemma ShownIsObserved(c: Case, bars: seq<Bar>, samples: seq<Avanza.PriceSample>, now: Time, o: Observation)
    requires AllFromSamples(bars, samples, now) && Shows(c, bars, o)
    ensures ObservedIn(o, samples)
  {
    var b :| b in bars && b.sample == Some(o.sample) && b.close == o.close;
    assert Avanza.FromSample(b, samples, now);
  }

  lemma ObservedIsShown(c: Case, bars: seq<Bar>, samples: seq<Avanza.PriceSample>, o: Observation)
    requires AllRead(bars, samples) && InWindow(c, o.sample) && ObservedIn(o, samples)
    ensures Shows(c, bars, o)
  {
    var s :| s in samples && o == Observation(Avanza.Evidence(s), s.price);
    var b := Avanza.MinuteBar(s, MinuteOf(s.observedAt));
    assert b in bars && b.sample == Some(o.sample) && b.close == o.close;
  }

  /** Two expansions of the same samples show the same observations. */
  lemma ExpansionsShowTheSame(
    c: Case, bars: seq<Bar>, others: seq<Bar>, samples: seq<Avanza.PriceSample>, now: Time, o: Observation)
    requires AllFromSamples(bars, samples, now) && AllRead(others, samples) && Shows(c, bars, o)
    ensures Shows(c, others, o)
  {
    ShownIsObserved(c, bars, samples, now, o);
    ObservedIsShown(c, others, samples, o);
  }

  lemma OnceIsExpanded(samples: seq<Avanza.PriceSample>, now: Time)
    requires EachHasAMinute(samples, now)
    ensures Expanded(OncePerSample(samples), samples, now)
  {
    var bars := OncePerSample(samples);
    forall b | b in bars ensures Avanza.FromSample(b, samples, now) {
      var i :| 0 <= i < |samples| && bars[i] == b;
      assert samples[i] in samples;
    }
    forall s | s in samples ensures Avanza.MinuteBar(s, MinuteOf(s.observedAt)) in bars {
      var i :| 0 <= i < |samples| && samples[i] == s;
      assert bars[i] == Avanza.MinuteBar(s, MinuteOf(s.observedAt));
    }
  }

  lemma ExpandedEmpty(bars: seq<Bar>, samples: seq<Avanza.PriceSample>, now: Time)
    requires Expanded(bars, samples, now)
    ensures bars == [] <==> samples == []
  {
    if bars != [] {
      assert Avanza.FromSample(bars[0], samples, now);
    }
    if samples != [] {
      assert samples[0] in samples;
    }
  }

  lemma ValidatedTimesDiffer(samples: seq<Avanza.PriceSample>, l: Avanza.Listing, now: Time, i: nat, j: nat)
    requires Avanza.Validated(samples, l, now) && l.session.opens % MINUTE == 0 && i < j < |samples|
    ensures samples[i].observedAt < samples[j].observedAt
  {
    Avanza.SamplesExpireInTurn(samples, l, now, i, j);
    assert samples[i] in samples && samples[j] in samples;
  }

  lemma ObservedTimesDiffer(
    samples: seq<Avanza.PriceSample>, l: Avanza.Listing, now: Time, o: Observation, o': Observation)
    requires Avanza.Validated(samples, l, now) && l.session.opens % MINUTE == 0
    requires ObservedIn(o, samples) && ObservedIn(o', samples) && o != o'
    ensures o.sample.observedAt != o'.sample.observedAt
  {
    var s :| s in samples && o == Observation(Avanza.Evidence(s), s.price);
    var s' :| s' in samples && o' == Observation(Avanza.Evidence(s'), s'.price);
    var i :| 0 <= i < |samples| && samples[i] == s;
    var j :| 0 <= j < |samples| && samples[j] == s';
    if i < j {
      ValidatedTimesDiffer(samples, l, now, i, j);
    } else if j < i {
      ValidatedTimesDiffer(samples, l, now, j, i);
    }
  }

  lemma ExpandedTimesDiffer(
    c: Case, bars: seq<Bar>, samples: seq<Avanza.PriceSample>, l: Avanza.Listing, now: Time)
    requires Avanza.Validated(samples, l, now) && l.session.opens % MINUTE == 0
    requires AllFromSamples(bars, samples, now)
    ensures TimesDiffer(c, bars)
  {
    forall o, o' | Shows(c, bars, o) && Shows(c, bars, o') && o != o'
      ensures o.sample.observedAt != o'.sample.observedAt
    {
      ShownIsObserved(c, bars, samples, now, o);
      ShownIsObserved(c, bars, samples, now, o');
      ObservedTimesDiffer(samples, l, now, o, o');
    }
  }

  lemma ExpandedIsSampled(
    bars: seq<Bar>, samples: seq<Avanza.PriceSample>, l: Avanza.Listing, now: Time)
    requires Avanza.Validated(samples, l, now) && l.session.opens % MINUTE == 0
    requires AllFromSamples(bars, samples, now)
    ensures OnlySamples(bars)
  {
    forall b | b in bars ensures ValidBar(b) && b.sample.Some? {
      assert Avanza.FromSample(b, samples, now);
      var s :| s in samples && Avanza.Covers(s, b.start, now) && b == Avanza.MinuteBar(s, b.start);
      Avanza.CoveredMinuteIsSampled(s, l, now, b.start);
    }
  }

  /** Carrying samples forward over their minutes adds no evidence: the expanded minutes are judged exactly as
      one minute per sample, but for the count of minutes represented. */
  lemma CarryForwardAddsNothing(
    c: Case, bars: seq<Bar>, samples: seq<Avanza.PriceSample>, l: Avanza.Listing, now: Time,
    final: bool, failure: Option<string>, previous: Option<Outcome>)
    requires Avanza.Validated(samples, l, now) && l.session.opens % MINUTE == 0
    requires EachHasAMinute(samples, now) && Expanded(bars, samples, now)
    ensures OnlySamples(bars) && OnlySamples(OncePerSample(samples))
    ensures Evaluation(c, bars, final, failure, previous).(representedMinutes := 0)
            == Evaluation(c, OncePerSample(samples), final, failure, previous).(representedMinutes := 0)
  {
    var once := OncePerSample(samples);
    OnceIsExpanded(samples, now);
    ExpandedIsSampled(bars, samples, l, now);
    ExpandedIsSampled(once, samples, l, now);
    ExpandedTimesDiffer(c, bars, samples, l, now);
    forall o ensures Shows(c, bars, o) <==> Shows(c, once, o) {
      if Shows(c, bars, o) {
        ExpansionsShowTheSame(c, bars, once, samples, now, o);
      }
      if Shows(c, once, o) {
        ExpansionsShowTheSame(c, once, bars, samples, now, o);
      }
    }
    ExpandedEmpty(bars, samples, now);
    ExpandedEmpty(once, samples, now);
    EvidenceDecides(c, bars, once, final, failure, previous);
  }

  /** What a read returns is such an expansion, once every sample has completed its first minute. */
  method ReadExpanded(desk: Avanza.Desk, samples: seq<Avanza.PriceSample>, l: Avanza.Listing, now: Time)
    returns (r: Avanza.Reading)
    requires forall s :: s in samples ==> Avanza.ValidPriceSample(s)
    requires l.session.opens % MINUTE == 0
    ensures r.Minutes? ==>
              && var valid := Avanza.ValidateSamples(samples, l, now);
              && valid.Success? && Avanza.Validated(valid.value, l, now)
              && (EachHasAMinute(valid.value, now) ==> Expanded(r.bars, valid.value, now))
  {
    r := Avanza.Read(desk, samples, l, now);
    Avanza.ValidationIsExact(samples, l, now);
  }
}
