/** What a verdict on page prices says, in terms of the samples behind the minutes. */
module SampledMeaning {
  import opened Wrappers
  import opened IntradayTypes
  import opened Sorting
  import opened IntradayPolicy
  import opened VerdictMeaning
  import opened CarryForward

  /** A sample read from the decision and the open on, and before the close. */
  ghost predicate Read(c: Case, bars: seq<Bar>, s: Sample, price: real) {
    && c.decisionAt <= s.observedAt && c.window.opens <= s.observedAt < c.window.closes
    && exists b :: b in bars && b.sample == Some(s) && b.close == price
  }

  ghost predicate PageQuote(c: Case, bars: seq<Bar>, p: Print) {
    exists s :: Read(c, bars, s, p.close) && p == Print(s.observedAt, p.close, p.close, p.close)
  }

  /** The minutes tell two stories about one sample. */
  ghost predicate Contradictory(c: Case, bars: seq<Bar>) {
    exists s, x, s', x' :: Read(c, bars, s, x) && Read(c, bars, s', x') && s.id == s'.id && (s != s' || x != x')
  }

  ghost predicate IsEarliest(c: Case, bars: seq<Bar>, s: Sample, price: real) {
    Read(c, bars, s, price) && forall s', x :: Read(c, bars, s', x) ==> s.observedAt <= s'.observedAt
  }

  ghost predicate IsLatestRead(c: Case, bars: seq<Bar>, s: Sample, price: real) {
    Read(c, bars, s, price) && forall s', x :: Read(c, bars, s', x) ==> s'.observedAt <= s.observedAt
  }

  /** One mapping, currency and cadence, and one sample per slot. */
  ghost predicate OneSeries(c: Case, bars: seq<Bar>) {
    forall s, x, s', x' :: Read(c, bars, s, x) && Read(c, bars, s', x') ==>
                             && s.mapping == s'.mapping && s.currency == s'.currency && s.interval == s'.interval
                             && (s.scheduledAt == s'.scheduledAt ==> s.id == s'.id)
  }

  predicate IsPending(first: Sample, closes: Time, t: Time) {
    first.scheduledAt <= t < closes && first.interval > 0 && (t - first.scheduledAt) % first.interval == 0
  }

  ghost predicate IsRead(c: Case, bars: seq<Bar>, t: Time) {
    exists s, x :: Read(c, bars, s, x) && s.scheduledAt == t
  }

  /** Every slot from the baseline's to the close was read, and no other. */
  ghost predicate AllSlots(c: Case, bars: seq<Bar>, first: Sample) {
    forall t :: IsPending(first, c.window.closes, t) <==> IsRead(c, bars, t)
  }

  // ---- The observations in order ----

  lemma ReadIsShown(c: Case, bars: seq<Bar>, o: Observation)
    ensures Shows(c, bars, o) <==> Read(c, bars, o.sample, o.close)
  {
  }

  lemma ContradictionIsConflict(c: Case, bars: seq<Bar>)
    ensures Contradictory(c, bars) <==> Conflicting(c, bars)
  {
    if Contradictory(c, bars) {
      var s, x, s', x' :|
        Read(c, bars, s, x) && Read(c, bars, s', x') && s.id == s'.id && (s != s' || x != x');
      ReadIsShown(c, bars, Observation(s, x));
      ReadIsShown(c, bars, Observation(s', x'));
      assert Shows(c, bars, Observation(s, x)) && Shows(c, bars, Observation(s', x'));
    }
    if Conflicting(c, bars) {
      var o, o' :| Shows(c, bars, o) && Shows(c, bars, o') && o.sample.id == o'.sample.id && o != o';
      assert Read(c, bars, o.sample, o.close) && Read(c, bars, o'.sample, o'.close);
    }
  }

  /** The observations a story without contradictions gives, by the time they were made. */
  ghost predicate Ordered(c: Case, bars: seq<Bar>, obs: seq<Observation>) {
    && OrderedBy(obs, ObservedKey) && IdsDistinct(obs)
    && (forall o :: o in obs <==> Read(c, bars, o.sample, o.close))
    && (forall o :: o in obs ==> ValidSample(o.sample) && o.close > 0.0)
  }

  lemma IdsStayDistinct(xs: seq<Observation>, ys: seq<Observation>)
    requires IdsDistinct(xs) && multiset(ys) == multiset(xs)
    ensures IdsDistinct(ys)
  {
    SameMembers(xs, ys);
    forall i, j | 0 <= i < j < |ys| ensures ys[i].sample.id != ys[j].sample.id {
      assert ys[i] in ys && ys[j] in ys;
      var k :| 0 <= k < |xs| && xs[k] == ys[i];
      var l :| 0 <= l < |xs| && xs[l] == ys[j];
      if ys[i] == ys[j] {
        TwiceCounted(ys, i, j);
        OnceInDistinct(xs, ys[i]);
        assert false;
      }
      assert k != l;
    }
  }

  lemma {:induction false} OnceInDistinct(xs: seq<Observation>, o: Observation)
    requires IdsDistinct(xs)
    ensures multiset(xs)[o] <= 1
  {
    if xs != [] {
      var front, last := xs[..|xs| - 1], xs[|xs| - 1];
      assert xs == front + [last];
      OnceInDistinct(front, o);
      if o == last && o in front {
        assert false;
      }
    }
  }

  lemma SortedIsOrdered(c: Case, bars: seq<Bar>) returns (obs: seq<Observation>)
    requires OnlySamples(bars) && !Contradictory(c, bars)
    ensures Unique(c, bars).Some? && obs == SortBy(Unique(c, bars).value, ObservedKey)
    ensures Ordered(c, bars, obs)
  {
    ContradictionIsConflict(c, bars);
    UniqueIsExact(c, bars);
    var kept := Unique(c, bars).value;
    obs := SortBy(kept, ObservedKey);
    SortMembers(kept, ObservedKey);
    SortOrders(kept, ObservedKey);
    SortedObservations(c, bars);
    IdsStayDistinct(kept, obs);
    forall o ensures o in obs <==> Read(c, bars, o.sample, o.close) {
      ReadIsShown(c, bars, o);
    }
  }

  lemma EndsOfOrdered(c: Case, bars: seq<Bar>, obs: seq<Observation>)
    requires Ordered(c, bars, obs) && obs != []
    ensures IsEarliest(c, bars, obs[0].sample, obs[0].close)
    ensures IsLatestRead(c, bars, obs[|obs| - 1].sample, obs[|obs| - 1].close)
  {
    assert obs[0] in obs && obs[|obs| - 1] in obs;
    forall s, x | Read(c, bars, s, x)
      ensures obs[0].sample.observedAt <= s.observedAt <= obs[|obs| - 1].sample.observedAt
    {
      assert Observation(s, x) in obs;
      var i :| 0 <= i < |obs| && obs[i] == Observation(s, x);
      assert ObservedKey(obs[0]) <= ObservedKey(obs[i]) <= ObservedKey(obs[|obs| - 1]);
    }
  }

  lemma NoObservations(c: Case, bars: seq<Bar>, obs: seq<Observation>)
    requires Ordered(c, bars, obs)
    ensures obs == [] <==> forall s, x :: !Read(c, bars, s, x)
  {
    if obs != [] {
      assert obs[0] in obs;
    }
    if s, x :| Read(c, bars, s, x) {
      assert Observation(s, x) in obs;
    }
  }

  lemma SeriesMeans(c: Case, bars: seq<Bar>, obs: seq<Observation>)
    requires Ordered(c, bars, obs)
    ensures Uniform(obs) && DistinctSlots(obs) <==> OneSeries(c, bars)
  {
    if Uniform(obs) && DistinctSlots(obs) {
      forall s, x, s', x' | Read(c, bars, s, x) && Read(c, bars, s', x')
        ensures s.mapping == s'.mapping && s.currency == s'.currency && s.interval == s'.interval
        ensures s.scheduledAt == s'.scheduledAt ==> s.id == s'.id
      {
        assert Observation(s, x) in obs && Observation(s', x') in obs;
        var i :| 0 <= i < |obs| && obs[i] == Observation(s, x);
        var j :| 0 <= j < |obs| && obs[j] == Observation(s', x');
        assert i < j || j < i || i == j;
      }
    }
    if OneSeries(c, bars) {
      forall i, j | 0 <= i < j < |obs|
        ensures obs[i].sample.mapping == obs[j].sample.mapping && obs[i].sample.currency == obs[j].sample.currency
        ensures obs[i].sample.interval == obs[j].sample.interval
        ensures obs[i].sample.scheduledAt != obs[j].sample.scheduledAt
      {
        assert obs[i] in obs && obs[j] in obs;
        assert Read(c, bars, obs[i].sample, obs[i].close) && Read(c, bars, obs[j].sample, obs[j].close);
        assert obs[i].sample.id != obs[j].sample.id;
      }
    }
  }

  lemma SlotsMean(c: Case, bars: seq<Bar>, obs: seq<Observation>)
    requires Ordered(c, bars, obs) && obs != []
    ensures var first := obs[0].sample;
            SlotsOf(obs) == SlotsFrom(first.scheduledAt, c.window.closes, first.interval) <==> AllSlots(c, bars, first)
  {
    var first := obs[0].sample;
    var expected := SlotsFrom(first.scheduledAt, c.window.closes, first.interval);
    forall t
      ensures t in SlotsOf(obs) <==> IsRead(c, bars, t)
      ensures t in expected <==> IsPending(first, c.window.closes, t)
    {
      if t in SlotsOf(obs) {
        var i :| 0 <= i < |obs| && obs[i].sample.scheduledAt == t;
        assert obs[i] in obs && Read(c, bars, obs[i].sample, obs[i].close);
      }
      if IsRead(c, bars, t) {
        var s, x :| Read(c, bars, s, x) && s.scheduledAt == t;
        assert Observation(s, x) in obs;
        var i :| 0 <= i < |obs| && obs[i] == Observation(s, x);
      }
    }
    if SlotsOf(obs) == expected {
      forall t ensures IsPending(first, c.window.closes, t) <==> IsRead(c, bars, t) {
        assert t in SlotsOf(obs) <==> t in expected;
      }
    }
    if AllSlots(c, bars, first) {
      forall t ensures t in SlotsOf(obs) <==> t in expected {
        assert IsPending(first, c.window.closes, t) <==> IsRead(c, bars, t);
      }
    }
  }

  lemma PagesAreListed(c: Case, bars: seq<Bar>, obs: seq<Observation>)
    requires Ordered(c, bars, obs)
    ensures Enumerates(PagePrints(obs), iset p | PageQuote(c, bars, p))
  {
    var prints := PagePrints(obs);
    forall i, j | 0 <= i < j < |prints| ensures prints[i].at <= prints[j].at {
      assert ObservedKey(obs[i]) <= ObservedKey(obs[j]);
    }
    forall p ensures p in prints <==> PageQuote(c, bars, p) {
      if p in prints {
        var i :| 0 <= i < |prints| && prints[i] == p;
        assert obs[i] in obs && Read(c, bars, obs[i].sample, p.close);
      }
      if PageQuote(c, bars, p) {
        var s :| Read(c, bars, s, p.close) && p == Print(s.observedAt, p.close, p.close, p.close);
        assert Observation(s, p.close) in obs;
        var i :| 0 <= i < |obs| && obs[i] == Observation(s, p.close);
        assert prints[i] == p;
      }
    }
  }

  // ---- The verdict ----

  ghost predicate Late(c: Case, first: Sample) {
    first.observedAt - From(c) > first.interval + 120
  }

  ghost predicate Short(c: Case, first: Sample) {
    c.window.closes - first.observedAt < c.policy.minMinutes * 60
  }

  ghost predicate Revised(previous: Option<Outcome>, first: Sample, price: real) {
    previous.Some? && previous.value.basis == LastKnownPrice && Revises(previous, first.observedAt, price)
  }

  /** Why page prices are not judged. */
  ghost function Obstacle(c: Case, bars: seq<Bar>, previous: Option<Outcome>, first: Sample, price: real)
    : Option<string>
  {
    if Late(c, first) then Some("BASELINE_TOO_LATE")
    else if Short(c, first) then Some("INSUFFICIENT_WINDOW")
    else if Revised(previous, first, price) then Some("BASELINE_REVISED")
    else if !OneSeries(c, bars) then Some("MIXED_SAMPLE_IDENTITY")
    else None
  }

  /** Page prices that were mixed with provider minutes, asked for by no policy, or that contradict themselves. */
  lemma PagesRefused(c: Case, bars: seq<Bar>, final: bool, failure: Option<string>, previous: Option<Outcome>)
    requires (forall b :: b in bars ==> ValidBar(b)) && exists b :: b in bars && b.sample.Some?
    ensures var r := Evaluation(c, bars, final, failure, previous);
            && (c.policy.version != LastKnownPrice || (exists b :: b in bars && b.sample.None?) ==>
                  r == Refuse("UNEXPECTED_PRICE_BASIS"))
            && (c.policy.version == LastKnownPrice && OnlySamples(bars) && Contradictory(c, bars) ==>
                  r == Refuse("CONFLICTING_SAMPLE"))
  {
    ContradictionIsConflict(c, bars);
    if Contradictory(c, bars) {
      ConflictIsFound(c, bars);
    }
  }

  ghost predicate Judgeable(c: Case, bars: seq<Bar>) {
    OnlySamples(bars) && bars != [] && c.policy.version == LastKnownPrice && !Contradictory(c, bars)
  }

  /** Without a sample in the window there is nothing to judge. */
  lemma PagesEmpty(c: Case, bars: seq<Bar>, final: bool, failure: Option<string>, previous: Option<Outcome>)
    requires Judgeable(c, bars) && forall s, x :: !Read(c, bars, s, x)
    ensures var r := Evaluation(c, bars, final, failure, previous);
            && Undecided(r) && r.baseline.None? && r.basis == LastKnownPrice
            && r.status == (if final then Unscorable else Pending)
            && r.reason == if !final then None else if Given(failure) then failure else Some("NO_BASELINE")
  {
    var obs := SortedIsOrdered(c, bars);
    SampledEvaluation(c, bars, final, failure, previous);
    NoObservations(c, bars, obs);
  }

  /** How the evaluation of page prices stands. */
  ghost predicate StandsRight(
    c: Case, bars: seq<Bar>, final: bool, failure: Option<string>, previous: Option<Outcome>, first: Sample,
    price: real, r: Outcome)
  {
    var obstacle := Obstacle(c, bars, previous, first, price);
    var complete := AllSlots(c, bars, first) && !Given(failure);
    && r.basis == LastKnownPrice && r.representedMinutes == |bars|
    && if obstacle.Some? then Undecided(r) && r.baseline.None? && r.status == Unscorable && r.reason == obstacle
       else
         && r.baseline == Some(Baseline(first.observedAt, price, first.observedAt - From(c)))
         && r.complete == complete
         && r.status == (if !final then Pending else if complete then Scored else Unscorable)
         && r.reason == if !final || complete then None
                        else if Given(failure) then failure else Some("MISSING_SAMPLES")
  }

  /** What page prices decide. */
  ghost predicate PricesRight(
    c: Case, bars: seq<Bar>, settled: bool, price: real, last: real, r: Outcome)
  {
    var quotes := iset p | PageQuote(c, bars, p);
    && ReachedRight(c, price, quotes, settled, r.reached)
    && HitRight(c, price, quotes, r.hitObservedAt)
    && r.hitAt == (if r.hitObservedAt.Some? then Some(MinuteOf(r.hitObservedAt.value)) else None)
    && ClosingRight(c, price, last, settled, r.closing, r.closingCorrect)
    && ExtremesRight(price, quotes, r.maxUp, r.maxDown)
  }

  lemma ObservedEvaluation(
    c: Case, bars: seq<Bar>, final: bool, failure: Option<string>, previous: Option<Outcome>, obs: seq<Observation>)
    requires Judgeable(c, bars) && Ordered(c, bars, obs)
    requires Unique(c, bars).Some? && obs == SortBy(Unique(c, bars).value, ObservedKey)
    ensures Evaluation(c, bars, final, failure, previous)
            == EvaluateObserved(c, obs, |bars|, final, failure, previous)
  {
    SampledEvaluation(c, bars, final, failure, previous);
  }

  lemma StandingOf(
    c: Case, bars: seq<Bar>, final: bool, failure: Option<string>, previous: Option<Outcome>, obs: seq<Observation>)
    requires Ordered(c, bars, obs) && obs != []
    ensures StandsRight(c, bars, final, failure, previous, obs[0].sample, obs[0].close,
                        EvaluateObserved(c, obs, |bars|, final, failure, previous))
  {
    assert obs[0] in obs;
    SeriesMeans(c, bars, obs);
    SlotsMean(c, bars, obs);
    ObservedStands(c, obs, |bars|, final, failure, previous);
    assert StartOf(c) == From(c);
  }

  /** Page prices judged, with the instant of the first hit beside its minute. */
  ghost function JudgedPages(o: Outcome, c: Case, price: real, prints: seq<Print>, settled: bool): Outcome
    requires prints != [] && price > 0.0
  {
    var hit := FirstHit(c, price, prints);
    Judge(o, c, price, prints, settled).(hitObservedAt := if hit.Some? then Some(hit.value.at) else None)
  }

  lemma PagesJudged(o: Outcome, c: Case, bars: seq<Bar>, price: real, prints: seq<Print>, settled: bool)
    requires prints != [] && price > 0.0 && Enumerates(prints, iset p | PageQuote(c, bars, p))
    ensures PricesRight(c, bars, settled, price, prints[|prints| - 1].close, JudgedPages(o, c, price, prints, settled))
  {
    var quotes := iset p | PageQuote(c, bars, p);
    JudgedRight(o, c, price, prints, settled, quotes);
    var r, after := Judge(o, c, price, prints, settled), JudgedPages(o, c, price, prints, settled);
    assert after == r.(hitObservedAt := after.hitObservedAt);
  }

  lemma ObservedPages(
    c: Case, bars: seq<Bar>, final: bool, failure: Option<string>, previous: Option<Outcome>, obs: seq<Observation>)
    requires Ordered(c, bars, obs) && obs != [] && obs[0].close > 0.0
    requires Obstacle(c, bars, previous, obs[0].sample, obs[0].close).None?
    ensures EvaluateObserved(c, obs, |bars|, final, failure, previous)
            == JudgedPages(Observed(c, obs, |bars|, final, failure), c, obs[0].close, PagePrints(obs),
                           final && SlotsAllRead(c, obs) && !Given(failure))
  {
    SeriesMeans(c, bars, obs);
    ObservedStands(c, obs, |bars|, final, failure, previous);
    assert StartOf(c) == From(c);
  }

  lemma PricesOf(
    c: Case, bars: seq<Bar>, final: bool, failure: Option<string>, previous: Option<Outcome>, obs: seq<Observation>)
    requires Ordered(c, bars, obs) && obs != []
    requires Obstacle(c, bars, previous, obs[0].sample, obs[0].close).None?
    ensures PricesRight(c, bars, final && AllSlots(c, bars, obs[0].sample) && !Given(failure), obs[0].close,
                        obs[|obs| - 1].close, EvaluateObserved(c, obs, |bars|, final, failure, previous))
  {
    assert obs[0] in obs;
    SlotsMean(c, bars, obs);
    PagesAreListed(c, bars, obs);
    ObservedPages(c, bars, final, failure, previous, obs);
    PagesJudged(Observed(c, obs, |bars|, final, failure), c, bars, obs[0].close, PagePrints(obs),
                final && SlotsAllRead(c, obs) && !Given(failure));
  }

  /** The verdict on page prices: its baseline is an earliest sample, every obstacle is named, and otherwise its
      prices are those of the samples and it is settled once the stream is final with every slot read. */
  lemma SampleVerdict(c: Case, bars: seq<Bar>, final: bool, failure: Option<string>, previous: Option<Outcome>)
    returns (first: Sample, price: real, last: real)
    requires Judgeable(c, bars) && exists s, x :: Read(c, bars, s, x)
    ensures IsEarliest(c, bars, first, price) && exists s :: IsLatestRead(c, bars, s, last)
    ensures var r := Evaluation(c, bars, final, failure, previous);
            var settled := final && AllSlots(c, bars, first) && !Given(failure);
            && StandsRight(c, bars, final, failure, previous, first, price, r)
            && (Obstacle(c, bars, previous, first, price).None? ==> PricesRight(c, bars, settled, price, last, r))
  {
    var obs := SortedIsOrdered(c, bars);
    ObservedEvaluation(c, bars, final, failure, previous, obs);
    NoObservations(c, bars, obs);
    EndsOfOrdered(c, bars, obs);
    first, price, last := obs[0].sample, obs[0].close, obs[|obs| - 1].close;
    StandingOf(c, bars, final, failure, previous, obs);
    if Obstacle(c, bars, previous, first, price).None? {
      PricesOf(c, bars, final, failure, previous, obs);
    }
  }

  ghost predicate SlotsAllRead(c: Case, obs: seq<Observation>)
    requires obs != []
  {
    SlotsOf(obs) == SlotsFrom(obs[0].sample.scheduledAt, c.window.closes, obs[0].sample.interval)
  }

  /** What an evaluation holds before its page prices are judged. */
  ghost function Observed(c: Case, obs: seq<Observation>, n: nat, final: bool, failure: Option<string>): Outcome
    requires obs != []
  {
    var first := obs[0];
    var at := first.sample.observedAt;
    var expected := SlotsFrom(first.sample.scheduledAt, c.window.closes, first.sample.interval);
    var complete := SlotsOf(obs) == expected && !Given(failure);
    BLANK.(basis := LastKnownPrice, representedMinutes := n, observedSamples := |obs|, observedBars := |obs|,
    status := FinalStatus(final, complete),
    reason := if final && !complete then Some(OrElse(failure, "MISSING_SAMPLES")) else None,
    baseline := Some(Baseline(at, first.close, at - StartOf(c))),
    expectedBars := |expected|, expectedSamples := |expected|, complete := complete)
  }

  lemma ObservedStands(
    c: Case, obs: seq<Observation>, n: nat, final: bool, failure: Option<string>, previous: Option<Outcome>)
    requires obs != [] && forall o :: o in obs ==> ValidSample(o.sample) && o.close > 0.0
    requires obs[0].close > 0.0
    ensures var r := EvaluateObserved(c, obs, n, final, failure, previous);
            var first := obs[0].sample;
            var obstacle := if first.observedAt - StartOf(c) > first.interval + 120 then Some("BASELINE_TOO_LATE")
                            else if c.window.closes - first.observedAt < c.policy.minMinutes * 60
                            then Some("INSUFFICIENT_WINDOW")
                            else if Revised(previous, first, obs[0].close) then Some("BASELINE_REVISED")
                            else if !(Uniform(obs) && DistinctSlots(obs)) then Some("MIXED_SAMPLE_IDENTITY")
                            else None;
            && r.basis == LastKnownPrice && r.representedMinutes == n
            && (obstacle.Some? ==>
                  Undecided(r) && r.baseline.None? && r.status == Unscorable && r.reason == obstacle)
            && (obstacle.None? ==>
                  var hit := FirstHit(c, obs[0].close, PagePrints(obs));
                  r == Judge(Observed(c, obs, n, final, failure), c, obs[0].close, PagePrints(obs),
                             final && SlotsAllRead(c, obs) && !Given(failure)).(
                         hitObservedAt := if hit.Some? then Some(hit.value.at) else None))
  {
  }
}
