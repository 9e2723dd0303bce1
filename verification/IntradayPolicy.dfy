/**
 The intraday shadow policy: a baseline, whether the target was reached and where the session closed, from
 provider minutes or from observed page prices.
 */
module IntradayPolicy {
  import opened Wrappers
  import opened IntradayTypes
  import opened Sorting
  import opened Directions

  datatype Window = Window(opens: Time, closes: Time)

  datatype Policy = Policy(version: PricePolicy, target: real, band: real, minMinutes: nat, maxDelay: nat)

  /** What is being evaluated: fixed for a prediction. */
  datatype Case = Case(decisionAt: Time, window: Window, direction: Direction, policy: Policy)

  datatype Status = Pending | Scored | Unscorable | Withdrawn

  datatype Baseline = Baseline(at: Time, price: real, delay: int)

  datatype Outcome = Outcome(
    status: Status, reason: Option<string>, baseline: Option<Baseline>, reached: Option<bool>,
    hitAt: Option<Time>, hitObservedAt: Option<Time>, closing: Option<real>, closingCorrect: Option<bool>,
    maxUp: Option<real>, maxDown: Option<real>, expectedBars: int, observedBars: nat, complete: bool,
    basis: PricePolicy, representedMinutes: nat, expectedSamples: nat, observedSamples: nat, fallback: Option<string>)

  const BLANK := Outcome(Pending, None, None, None, None, None, None, None, None, None, 0, 0, false,
                         ProviderMinute, 0, 0, 0, None)

  function Refuse(reason: string): Outcome {
    BLANK.(status := Unscorable, reason := Some(reason))
  }

  function OrElse(reason: Option<string>, default: string): string {
    if Given(reason) then reason.value else default
  }

  function StartOf(c: Case): Time {
    if c.decisionAt < c.window.opens then c.window.opens else c.decisionAt
  }

  /** The first whole minute at or after an instant. */
  function FirstMinute(t: Time): (m: Time)
    ensures t <= m < t + MINUTE && m % MINUTE == 0
  {
    if MinuteOf(t) < t then MinuteOf(t) + MINUTE else MinuteOf(t)
  }

  /** Division that truncates toward zero. */
  function WholeMinutes(d: int): int {
    if d >= 0 then d / MINUTE else -((-d) / MINUTE)
  }

  // ---- Judging an ordered run of prices ----

  /** A price observation: a minute's extremes and close, or one page price. */
  datatype Print = Print(at: Time, high: real, low: real, close: real)

  predicate Hits(c: Case, price: real, p: Print) {
    || (c.direction == Up && p.high >= price * (1.0 + c.policy.target))
    || (c.direction == Down && p.low <= price * (1.0 - c.policy.target))
  }

  function FirstHit(c: Case, price: real, prints: seq<Print>): Option<Print> {
    if prints == [] then None
    else if Hits(c, price, prints[0]) then Some(prints[0])
    else FirstHit(c, price, prints[1..])
  }

  function Highest(prints: seq<Print>, price: real): real
    requires prints != [] && price > 0.0
  {
    var last := prints[|prints| - 1].high / price - 1.0;
    if |prints| == 1 then last
    else var rest := Highest(prints[..|prints| - 1], price);
         if rest < last then last else rest
  }

  function Lowest(prints: seq<Print>, price: real): real
    requires prints != [] && price > 0.0
  {
    var last := prints[|prints| - 1].low / price - 1.0;
    if |prints| == 1 then last
    else var rest := Lowest(prints[..|prints| - 1], price);
         if rest > last then last else rest
  }

  function Breached(c: Case, up: real, down: real): bool {
    up > c.policy.band || down < -c.policy.band
  }

  /** Decided as soon as it can no longer change; otherwise only once the session is settled. */
  function Reached(c: Case, hit: bool, breached: bool, settled: bool): Option<bool> {
    if c.direction == Neutral then
      if breached then Some(false) else if settled then Some(true) else None
    else
      if hit then Some(true) else if settled then Some(false) else None
  }

  function ClosingCorrect(c: Case, closing: real): bool {
    var actual := if closing > c.policy.band then Up else if closing < -c.policy.band then Down else Neutral;
    actual == c.direction
  }

  /** Everything that follows from the prices: `settled` says the session is final and complete. */
  function Judge(o: Outcome, c: Case, price: real, prints: seq<Print>, settled: bool): Outcome
    requires prints != [] && price > 0.0
  {
    var up, down := Highest(prints, price), Lowest(prints, price);
    var hit := FirstHit(c, price, prints);
    var closing := prints[|prints| - 1].close / price - 1.0;
    o.(reached := Reached(c, hit.Some?, Breached(c, up, down), settled),
    hitAt := if hit.Some? then Some(MinuteOf(hit.value.at)) else None,
    closing := if settled then Some(closing) else None,
    closingCorrect := if settled then Some(ClosingCorrect(c, closing)) else None,
    maxUp := Some(up), maxDown := Some(down))
  }

  function FinalStatus(final: bool, complete: bool): Status {
    if !final then Pending else if complete then Scored else Unscorable
  }

  // ---- Provider minutes ----

  function StartKey(b: Bar): Time {
    b.start
  }

  predicate IsEligible(c: Case, b: Bar) {
    FirstMinute(StartOf(c)) <= b.start && b.start + MINUTE <= c.window.closes
  }

  function SelectEligible(c: Case, bars: seq<Bar>): seq<Bar> {
    if bars == [] then []
    else SelectEligible(c, bars[..|bars| - 1])
         + (if IsEligible(c, bars[|bars| - 1]) then [bars[|bars| - 1]] else [])
  }

  function Eligible(c: Case, bars: seq<Bar>): seq<Bar> {
    SortBy(SelectEligible(c, bars), StartKey)
  }

  function MinutePrint(b: Bar): Print {
    Print(b.start, b.high, b.low, b.close)
  }

  function MinutePrints(bars: seq<Bar>): seq<Print> {
    seq(|bars|, i requires 0 <= i < |bars| => MinutePrint(bars[i]))
  }

  function ExpectedMinutes(c: Case): int {
    WholeMinutes(c.window.closes - FirstMinute(StartOf(c)))
  }

  predicate OnGrid(c: Case, t: Time) {
    FirstMinute(StartOf(c)) <= t && (t - FirstMinute(StartOf(c))) % MINUTE == 0
  }

  function ExpectedStamps(c: Case): set<Time> {
    var first := FirstMinute(StartOf(c));
    set t | first <= t < first + MINUTE * ExpectedMinutes(c) && OnGrid(c, t)
  }

  function Stamps(bars: seq<Bar>): set<Time> {
    set i | 0 <= i < |bars| :: bars[i].start
  }

  predicate ChartComplete(c: Case, eligible: seq<Bar>, failure: Option<string>) {
    Stamps(eligible) == ExpectedStamps(c) && !Given(failure)
  }

  /** A recorded baseline must be the one found again. */
  predicate BaselineRevised(previous: Option<Outcome>, at: Time, price: real) {
    && previous.Some? && previous.value.baseline.Some?
    && (previous.value.baseline.value.at != at || previous.value.baseline.value.price != price)
  }

  function EvaluateEligible(
    c: Case, eligible: seq<Bar>, final: bool, failure: Option<string>, previous: Option<Outcome>): Outcome
    requires forall b :: b in eligible ==> ValidBar(b)
  {
    if eligible == [] then
      BLANK.(status := if final then Unscorable else Pending,
      reason := if final then Some(OrElse(failure, "NO_BASELINE")) else None, expectedBars := ExpectedMinutes(c))
    else
      assert eligible[0] in eligible && ValidBar(eligible[0]);
      var first := eligible[0];
      var delay := first.start - StartOf(c);
      if delay > c.policy.maxDelay then
        BLANK.(status := if final then Unscorable else Pending, reason := Some("BASELINE_TOO_LATE"))
      else if BaselineRevised(previous, first.start, first.open) then
        Refuse("BASELINE_REVISED").(baseline := previous.value.baseline)
      else
        var complete := ChartComplete(c, eligible, failure);
        Judge(
          BLANK.(status := FinalStatus(final, complete),
          reason := if final && !complete then Some(OrElse(failure, "MISSING_BARS")) else None,
          baseline := Some(Baseline(first.start, first.open, delay)),
          expectedBars := ExpectedMinutes(c), observedBars := |Stamps(eligible)|, complete := complete),
          c, first.open, MinutePrints(eligible), final && complete)
  }

  function EvaluateMinutes(
    c: Case, bars: seq<Bar>, final: bool, failure: Option<string>, previous: Option<Outcome>): Outcome
    requires forall b :: b in bars ==> ValidBar(b)
  {
    EligibleMembers(c, bars);
    if ExpectedMinutes(c) < c.policy.minMinutes then Refuse("INSUFFICIENT_WINDOW")
    else EvaluateEligible(c, Eligible(c, bars), final, failure, previous)
  }

  lemma {:induction false} SelectedExactly(c: Case, bars: seq<Bar>, b: Bar)
    ensures b in SelectEligible(c, bars) <==> b in bars && IsEligible(c, b)
  {
    if bars != [] {
      SelectedExactly(c, bars[..|bars| - 1], b);
      assert bars == bars[..|bars| - 1] + [bars[|bars| - 1]];
    }
  }

  lemma EligibleMembers(c: Case, bars: seq<Bar>)
    ensures forall b :: b in Eligible(c, bars) <==> b in bars && IsEligible(c, b)
  {
    SortMembers(SelectEligible(c, bars), StartKey);
    forall b ensures b in Eligible(c, bars) <==> b in bars && IsEligible(c, b) {
      SelectedExactly(c, bars, b);
    }
  }

  // ---- Observed page prices ----

  /** The price of one sample; minutes that repeat it add nothing. */
  datatype Observation = Observation(sample: Sample, close: real)

  function ObservedKey(o: Observation): Time {
    o.sample.observedAt
  }

  predicate InWindow(c: Case, s: Sample) {
    StartOf(c) <= s.observedAt < c.window.closes
  }

  /** The observation already kept for a sample id. */
  function Find(kept: seq<Observation>, id: Id): Option<Observation> {
    if kept == [] then None
    else if kept[|kept| - 1].sample.id == id then Some(kept[|kept| - 1])
    else Find(kept[..|kept| - 1], id)
  }

  /** One observation per sample in the order first met, unless two minutes disagree about a sample. */
  function Unique(c: Case, bars: seq<Bar>): Option<seq<Observation>> {
    if bars == [] then Some([])
    else
      var b := bars[|bars| - 1];
      match Unique(c, bars[..|bars| - 1])
      case None => None
      case Some(kept) =>
        if b.sample.None? || !InWindow(c, b.sample.value) then Some(kept)
        else
          var prior := Find(kept, b.sample.value.id);
          if prior.None? then Some(kept + [Observation(b.sample.value, b.close)])
          else if prior.value == Observation(b.sample.value, b.close) then Some(kept)
          else None
  }

  predicate Uniform(obs: seq<Observation>) {
    forall i, j :: 0 <= i < j < |obs| ==>
                     && obs[i].sample.mapping == obs[j].sample.mapping
                     && obs[i].sample.currency == obs[j].sample.currency
                     && obs[i].sample.interval == obs[j].sample.interval
  }

  predicate DistinctSlots(obs: seq<Observation>) {
    forall i, j :: 0 <= i < j < |obs| ==> obs[i].sample.scheduledAt != obs[j].sample.scheduledAt
  }

  function SlotsFrom(from: Time, closes: Time, interval: nat): set<Time> {
    set t | from <= t < closes && IsSlot(from, interval, t)
  }

  function SlotsOf(obs: seq<Observation>): set<Time> {
    set i | 0 <= i < |obs| :: obs[i].sample.scheduledAt
  }

  function PagePrint(o: Observation): Print {
    Print(o.sample.observedAt, o.close, o.close, o.close)
  }

  function PagePrints(obs: seq<Observation>): seq<Print> {
    seq(|obs|, i requires 0 <= i < |obs| => PagePrint(obs[i]))
  }

  /** The verdict on the observations in the order they were made. */
  function EvaluateObserved(
    c: Case, obs: seq<Observation>, represented: nat, final: bool, failure: Option<string>, previous: Option<Outcome>)
    : Outcome
    requires forall o :: o in obs ==> ValidSample(o.sample) && o.close > 0.0
  {
    var common := BLANK.(basis := LastKnownPrice, representedMinutes := represented,
                  observedSamples := |obs|, observedBars := |obs|);
    if obs == [] then
      common.(status := if final then Unscorable else Pending,
      reason := if final then Some(OrElse(failure, "NO_BASELINE")) else None)
    else
      assert obs[0] in obs;
      var first := obs[0];
      var at := first.sample.observedAt;
      var interval := first.sample.interval;
      if at - StartOf(c) > interval + 120 then common.(status := Unscorable, reason := Some("BASELINE_TOO_LATE"))
      else if c.window.closes - at < c.policy.minMinutes * 60 then
        common.(status := Unscorable, reason := Some("INSUFFICIENT_WINDOW"))
      else if previous.Some? && previous.value.basis == LastKnownPrice
              && BaselineRevised(previous, at, first.close) then
        common.(status := Unscorable, reason := Some("BASELINE_REVISED"))
      else if !Uniform(obs) || !DistinctSlots(obs) then
        common.(status := Unscorable, reason := Some("MIXED_SAMPLE_IDENTITY"))
      else
        var expected := SlotsFrom(first.sample.scheduledAt, c.window.closes, interval);
        var complete := SlotsOf(obs) == expected && !Given(failure);
        var judged := Judge(
          common.(status := FinalStatus(final, complete),
          reason := if final && !complete then Some(OrElse(failure, "MISSING_SAMPLES")) else None,
          baseline := Some(Baseline(at, first.close, at - StartOf(c))),
          expectedBars := |expected|, expectedSamples := |expected|, complete := complete),
          c, first.close, PagePrints(obs), final && complete);
        var hit := FirstHit(c, first.close, PagePrints(obs));
        judged.(hitObservedAt := if hit.Some? then Some(hit.value.at) else None)
  }

  lemma {:induction false} UniqueComesFromBars(c: Case, bars: seq<Bar>, o: Observation)
    requires Unique(c, bars).Some? && o in Unique(c, bars).value
    ensures exists b :: b in bars && b.sample == Some(o.sample) && b.close == o.close && InWindow(c, o.sample)
  {
    var front, b := bars[..|bars| - 1], bars[|bars| - 1];
    assert b in bars;
    if o in Unique(c, front).value {
      UniqueComesFromBars(c, front, o);
      var x :| x in front && x.sample == Some(o.sample) && x.close == o.close && InWindow(c, o.sample);
      assert x in bars;
    }
  }

  lemma SortedObservations(c: Case, bars: seq<Bar>)
    requires forall b :: b in bars ==> ValidBar(b)
    requires Unique(c, bars).Some?
    ensures forall o :: o in SortBy(Unique(c, bars).value, ObservedKey) ==> ValidSample(o.sample) && o.close > 0.0
  {
    var obs := SortBy(Unique(c, bars).value, ObservedKey);
    SortMembers(Unique(c, bars).value, ObservedKey);
    forall o | o in obs ensures ValidSample(o.sample) && o.close > 0.0 {
      UniqueComesFromBars(c, bars, o);
    }
  }

  function EvaluateLastKnown(
    c: Case, bars: seq<Bar>, final: bool, failure: Option<string>, previous: Option<Outcome>): Outcome
    requires forall b :: b in bars ==> ValidBar(b)
  {
    var unique := Unique(c, bars);
    if unique.None? then Refuse("CONFLICTING_SAMPLE")
    else
      SortedObservations(c, bars);
      EvaluateObserved(c, SortBy(unique.value, ObservedKey), |bars|, final, failure, previous)
  }

  // ---- The evaluation ----

  /** Sampled and provider minutes are never mixed. */
  function Evaluation(
    c: Case, bars: seq<Bar>, final: bool, failure: Option<string>, previous: Option<Outcome>): Outcome
    requires forall b :: b in bars ==> ValidBar(b)
  {
    if forall b :: b in bars ==> b.sample.None? then EvaluateMinutes(c, bars, final, failure, previous)
    else if c.policy.version != LastKnownPrice || exists b :: b in bars && b.sample.None? then
      Refuse("UNEXPECTED_PRICE_BASIS")
    else EvaluateLastKnown(c, bars, final, failure, previous)
  }

  // ---- The loops ----

  method FindHit(c: Case, price: real, prints: seq<Print>) returns (hit: Option<Print>)
    ensures hit == FirstHit(c, price, prints)
  {
    hit := None;
    for i := 0 to |prints|
      invariant FirstHit(c, price, prints) == FirstHit(c, price, prints[i..])
    {
      assert prints[i..][0] == prints[i] && prints[i..][1..] == prints[i + 1..];
      if Hits(c, price, prints[i]) {
        return Some(prints[i]);
      }
    }
  }

  method Extremes(prints: seq<Print>, price: real) returns (up: real, down: real)
    requires prints != [] && price > 0.0
    ensures up == Highest(prints, price) && down == Lowest(prints, price)
  {
    up, down := prints[0].high / price - 1.0, prints[0].low / price - 1.0;
    assert prints[..1] == [prints[0]];
    for i := 1 to |prints|
      invariant up == Highest(prints[..i], price) && down == Lowest(prints[..i], price)
    {
      assert prints[..i + 1][..i] == prints[..i];
      var high, low := prints[i].high / price - 1.0, prints[i].low / price - 1.0;
      if up < high {
        up := high;
      }
      if down > low {
        down := low;
      }
    }
    assert prints[..|prints|] == prints;
  }

  method JudgePrices(o: Outcome, c: Case, price: real, prints: seq<Print>, settled: bool) returns (r: Outcome)
    requires prints != [] && price > 0.0
    ensures r == Judge(o, c, price, prints, settled)
  {
    var up, down := Extremes(prints, price);
    var hit := FindHit(c, price, prints);
    var reached: Option<bool> := if hit.Some? then Some(true) else if settled then Some(false) else None;
    if c.direction == Neutral {
      var breached := up > c.policy.band || down < -c.policy.band;
      reached := if breached then Some(false) else if settled then Some(true) else None;
    }
    var closing, correct := None, None;
    if settled {
      var move := prints[|prints| - 1].close / price - 1.0;
      closing, correct := Some(move), Some(ClosingCorrect(c, move));
    }
    r := o.(reached := reached, hitAt := if hit.Some? then Some(MinuteOf(hit.value.at)) else None,
    closing := closing, closingCorrect := correct, maxUp := Some(up), maxDown := Some(down));
  }

  /** One observation per sample, or a conflict. */
  method CollectUnique(c: Case, bars: seq<Bar>) returns (r: Option<seq<Observation>>)
    ensures r == Unique(c, bars)
  {
    var kept: seq<Observation> := [];
    for i := 0 to |bars|
      invariant Unique(c, bars[..i]) == Some(kept)
    {
      assert bars[..i + 1][..i] == bars[..i];
      var b := bars[i];
      if b.sample.Some? && InWindow(c, b.sample.value) {
        var prior := Find(kept, b.sample.value.id);
        if prior.Some? && (prior.value.close != b.close || prior.value.sample != b.sample.value) {
          ConflictStays(c, bars, i + 1);
          return None;
        }
        if prior.None? {
          kept := kept + [Observation(b.sample.value, b.close)];
        }
      }
    }
    assert bars[..|bars|] == bars;
    r := Some(kept);
  }

  lemma {:induction false} ConflictStays(c: Case, bars: seq<Bar>, i: nat)
    requires i <= |bars| && Unique(c, bars[..i]).None?
    ensures Unique(c, bars).None?
    decreases |bars| - i
  {
    if i < |bars| {
      assert bars[..i + 1][..i] == bars[..i];
      ConflictStays(c, bars, i + 1);
    } else {
      assert bars[..i] == bars;
    }
  }

  /** The slots due from the baseline's slot to the close. */
  method ExpectedSlots(from: Time, closes: Time, interval: nat) returns (slots: set<Time>)
    requires interval > 0
    ensures slots == SlotsFrom(from, closes, interval)
  {
    slots := {};
    var at, n := from, 0;
    while at < closes
      invariant n >= 0 && at == from + n * interval
      invariant slots == set t | from <= t < at && t < closes && IsSlot(from, interval, t)
      decreases closes - at
    {
      SlotAdvances(from, closes, interval, at, n);
      slots := slots + {at};
      at, n := at + interval, n + 1;
    }
  }

  lemma SlotAdvances(from: Time, closes: Time, interval: nat, at: Time, n: nat)
    requires interval > 0 && at == from + n * interval && at < closes
    ensures (set t | from <= t < at + interval && t < closes && IsSlot(from, interval, t))
            == (set t | from <= t < at && t < closes && IsSlot(from, interval, t)) + {at}
    ensures at + interval == from + (n + 1) * interval
  {
    forall t | at <= t < at + interval ensures IsSlot(from, interval, t) <==> t == at {
      SlotOffset(t - from, n, interval);
    }
  }

  lemma SlotOffset(d: int, n: nat, interval: nat)
    requires interval > 0 && n * interval <= d < n * interval + interval
    ensures d % interval == 0 <==> d == n * interval
  {
    var q := d / interval;
    assert d == q * interval + d % interval;
    if q < n {
      ProductGrows(q + 1, n, interval);
    } else if q > n {
      ProductGrows(n + 1, q, interval);
    }
  }

  lemma ProductGrows(a: int, b: int, k: nat)
    requires a <= b
    ensures a * k <= b * k
  {
  }

  method ScoreMinutes(c: Case, bars: seq<Bar>, final: bool, failure: Option<string>, previous: Option<Outcome>)
    returns (r: Outcome)
    requires forall b :: b in bars ==> ValidBar(b)
    ensures r == EvaluateMinutes(c, bars, final, failure, previous)
  {
    EligibleMembers(c, bars);
    if ExpectedMinutes(c) < c.policy.minMinutes {
      return Refuse("INSUFFICIENT_WINDOW");
    }
    var eligible := Eligible(c, bars);
    if eligible == [] {
      return BLANK.(status := if final then Unscorable else Pending,
                    reason := if final then Some(OrElse(failure, "NO_BASELINE")) else None,
                    expectedBars := ExpectedMinutes(c));
    }
    var first := eligible[0];
    assert first in eligible;
    var delay := first.start - StartOf(c);
    if delay > c.policy.maxDelay {
      return BLANK.(status := if final then Unscorable else Pending, reason := Some("BASELINE_TOO_LATE"));
    }
    if BaselineRevised(previous, first.start, first.open) {
      return Refuse("BASELINE_REVISED").(baseline := previous.value.baseline);
    }
    var complete := ChartComplete(c, eligible, failure);
    var o := BLANK.(status := FinalStatus(final, complete),
    reason := if final && !complete then Some(OrElse(failure, "MISSING_BARS")) else None,
    baseline := Some(Baseline(first.start, first.open, delay)),
    expectedBars := ExpectedMinutes(c), observedBars := |Stamps(eligible)|, complete := complete);
    r := JudgePrices(o, c, first.open, MinutePrints(eligible), final && complete);
  }

  method ScoreObserved(
    c: Case, obs: seq<Observation>, represented: nat, final: bool, failure: Option<string>, previous: Option<Outcome>)
    returns (r: Outcome)
    requires forall o :: o in obs ==> ValidSample(o.sample) && o.close > 0.0
    ensures r == EvaluateObserved(c, obs, represented, final, failure, previous)
  {
    var common := BLANK.(basis := LastKnownPrice, representedMinutes := represented,
                  observedSamples := |obs|, observedBars := |obs|);
    if obs == [] {
      return common.(status := if final then Unscorable else Pending,
                     reason := if final then Some(OrElse(failure, "NO_BASELINE")) else None);
    }
    var first := obs[0];
    assert first in obs;
    var at, interval := first.sample.observedAt, first.sample.interval;
    if at - StartOf(c) > interval + 120 {
      return common.(status := Unscorable, reason := Some("BASELINE_TOO_LATE"));
    }
    if c.window.closes - at < c.policy.minMinutes * 60 {
      return common.(status := Unscorable, reason := Some("INSUFFICIENT_WINDOW"));
    }
    if previous.Some? && previous.value.basis == LastKnownPrice && BaselineRevised(previous, at, first.close) {
      return common.(status := Unscorable, reason := Some("BASELINE_REVISED"));
    }
    if !Uniform(obs) || !DistinctSlots(obs) {
      return common.(status := Unscorable, reason := Some("MIXED_SAMPLE_IDENTITY"));
    }
    var expected := ExpectedSlots(first.sample.scheduledAt, c.window.closes, interval);
    var complete := SlotsOf(obs) == expected && !Given(failure);
    var o := common.(status := FinalStatus(final, complete),
    reason := if final && !complete then Some(OrElse(failure, "MISSING_SAMPLES")) else None,
    baseline := Some(Baseline(at, first.close, at - StartOf(c))),
    expectedBars := |expected|, expectedSamples := |expected|, complete := complete);
    r := JudgePrices(o, c, first.close, PagePrints(obs), final && complete);
    var hit := FindHit(c, first.close, PagePrints(obs));
    r := r.(hitObservedAt := if hit.Some? then Some(hit.value.at) else None);
  }

  method Evaluate(c: Case, bars: seq<Bar>, final: bool, failure: Option<string>, previous: Option<Outcome>)
    returns (r: Outcome)
    requires forall b :: b in bars ==> ValidBar(b)
    ensures r == Evaluation(c, bars, final, failure, previous)
  {
    if forall b :: b in bars ==> b.sample.None? {
      r := ScoreMinutes(c, bars, final, failure, previous);
      return;
    }
    if c.policy.version != LastKnownPrice || exists b :: b in bars && b.sample.None? {
      return Refuse("UNEXPECTED_PRICE_BASIS");
    }
    var unique := CollectUnique(c, bars);
    if unique.None? {
      return Refuse("CONFLICTING_SAMPLE");
    }
    SortedObservations(c, bars);
    r := ScoreObserved(c, SortBy(unique.value, ObservedKey), |bars|, final, failure, previous);
  }
}
