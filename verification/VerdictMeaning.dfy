/** What a verdict says, in terms of the prices and not of how they are scanned. */
module VerdictMeaning {
  import opened Wrappers
  import opened IntradayTypes
  import opened Directions
  import opened IntradayPolicy
  import opened VerdictStability

  // ---- What prices decide ----

  /** The price reaches the target in the predicted direction. */
  ghost predicate Touches(c: Case, price: real, p: Print) {
    match c.direction
    case Up => p.high >= price * (1.0 + c.policy.target)
    case Down => p.low <= price * (1.0 - c.policy.target)
    case Neutral => false
  }

  /** The price leaves the neutral band around the baseline. */
  ghost predicate LeavesBand(c: Case, price: real, p: Print) {
    p.high > price * (1.0 + c.policy.band) || p.low < price * (1.0 - c.policy.band)
  }

  ghost predicate TargetTouched(c: Case, price: real, quotes: iset<Print>) {
    exists p :: p in quotes && Touches(c, price, p)
  }

  ghost predicate BandLeft(c: Case, price: real, quotes: iset<Print>) {
    exists p :: p in quotes && LeavesBand(c, price, p)
  }

  /** A directional call is right once its target is touched, and wrong only once a settled session ends without;
      a neutral call is wrong once the band is left, and right only once a settled session ends inside. */
  ghost predicate ReachedRight(c: Case, price: real, quotes: iset<Print>, settled: bool, reached: Option<bool>) {
    if c.direction == Neutral then
      && (reached == Some(false) <==> BandLeft(c, price, quotes))
      && (reached == Some(true) <==> settled && !BandLeft(c, price, quotes))
    else
      && (reached == Some(true) <==> TargetTouched(c, price, quotes))
      && (reached == Some(false) <==> settled && !TargetTouched(c, price, quotes))
  }

  /** The first hit is an earliest price that touches the target. */
  ghost predicate HitRight(c: Case, price: real, quotes: iset<Print>, hit: Option<Time>) {
    && (hit.Some? <==> TargetTouched(c, price, quotes))
    && (hit.Some? ==> exists p :: p in quotes && Touches(c, price, p) && hit.value == p.at
                                  && forall q :: q in quotes && Touches(c, price, q) ==> p.at <= q.at)
  }

  /** Judged only on a settled session, by the side of the band the last price is on. */
  ghost predicate ClosingRight(
    c: Case, price: real, last: real, settled: bool, closing: Option<real>, correct: Option<bool>)
  {
    && (closing.Some? <==> settled) && (correct.Some? <==> settled)
    && (settled ==> price * (1.0 + closing.value) == last)
    && (settled ==>
          (correct == Some(true) <==>
             var above, below := last > price * (1.0 + c.policy.band), last < price * (1.0 - c.policy.band);
             match c.direction
             case Up => above
             case Down => below && !above
             case Neutral => !above && !below))
  }

  /** The largest rise and the largest fall over the baseline are those of some price, and bound all others. */
  ghost predicate ExtremesRight(price: real, quotes: iset<Print>, up: Option<real>, down: Option<real>) {
    && up.Some? && down.Some?
    && (exists p :: p in quotes && p.high == price * (1.0 + up.value))
    && (exists p :: p in quotes && p.low == price * (1.0 + down.value))
    && (forall p :: p in quotes ==> Between(price, p, up.value, down.value))
  }

  /** `prints` lists the quotes in the order of their times. */
  ghost predicate Enumerates(prints: seq<Print>, quotes: iset<Print>) {
    InTime(prints) && forall p :: p in prints <==> p in quotes
  }

  lemma LeavesByReturn(c: Case, price: real, p: Print)
    requires price > 0.0
    ensures LeavesBand(c, price, p) <==>
            p.high / price - 1.0 > c.policy.band || p.low / price - 1.0 < -c.policy.band
  {
    ReturnOf(p.high, price, c.policy.band);
    ReturnOf(p.low, price, -c.policy.band);
  }

  lemma BreachedMeans(c: Case, price: real, prints: seq<Print>, quotes: iset<Print>)
    requires prints != [] && price > 0.0 && Enumerates(prints, quotes)
    ensures Breached(c, Highest(prints, price), Lowest(prints, price)) <==> BandLeft(c, price, quotes)
  {
    var h := HighestIsHighest(prints, price);
    var l := LowestIsLowest(prints, price);
    LeavesByReturn(c, price, h);
    LeavesByReturn(c, price, l);
    assert h in quotes && l in quotes;
    if BandLeft(c, price, quotes) {
      var p :| p in quotes && LeavesBand(c, price, p);
      LeavesByReturn(c, price, p);
      assert p in prints;
    }
  }

  lemma HitMeans(c: Case, price: real, prints: seq<Print>, quotes: iset<Print>)
    requires Enumerates(prints, quotes)
    ensures var hit := FirstHit(c, price, prints);
            HitRight(c, price, quotes, if hit.Some? then Some(hit.value.at) else None)
  {
    FirstHitIsFirst(c, price, prints);
    forall p ensures Hits(c, price, p) <==> Touches(c, price, p) {}
    var hit := FirstHit(c, price, prints);
    if hit.Some? {
      assert hit.value in quotes && Touches(c, price, hit.value);
    }
  }

  lemma ReachedMeans(o: Outcome, c: Case, price: real, prints: seq<Print>, settled: bool, quotes: iset<Print>)
    requires prints != [] && price > 0.0 && Enumerates(prints, quotes)
    ensures ReachedRight(c, price, quotes, settled, Judge(o, c, price, prints, settled).reached)
  {
    HitMeans(c, price, prints, quotes);
    BreachedMeans(c, price, prints, quotes);
  }

  lemma ClosingMeans(o: Outcome, c: Case, price: real, prints: seq<Print>, settled: bool)
    requires prints != [] && price > 0.0
    ensures var r := Judge(o, c, price, prints, settled);
            ClosingRight(c, price, prints[|prints| - 1].close, settled, r.closing, r.closingCorrect)
  {
    var last := prints[|prints| - 1].close;
    ReturnOf(last, price, c.policy.band);
    ReturnOf(last, price, -c.policy.band);
  }

  lemma ReturnAtMost(x: real, price: real, k: real)
    requires price > 0.0
    ensures x / price - 1.0 <= k <==> x <= price * (1.0 + k)
    ensures x / price - 1.0 >= k <==> x >= price * (1.0 + k)
    ensures x / price - 1.0 == k <==> x == price * (1.0 + k)
  {
    ReturnOf(x, price, k);
  }

  lemma ExtremesMean(o: Outcome, c: Case, price: real, prints: seq<Print>, settled: bool, quotes: iset<Print>)
    requires prints != [] && price > 0.0 && Enumerates(prints, quotes)
    ensures var r := Judge(o, c, price, prints, settled);
            ExtremesRight(price, quotes, r.maxUp, r.maxDown)
  {
    var up, down := Highest(prints, price), Lowest(prints, price);
    var h := HighestIsHighest(prints, price);
    var l := LowestIsLowest(prints, price);
    ExtremesOf(price, quotes, up, down, h, l);
  }

  lemma ExtremesOf(price: real, quotes: iset<Print>, up: real, down: real, h: Print, l: Print)
    requires price > 0.0 && h in quotes && l in quotes && h.high / price - 1.0 == up && l.low / price - 1.0 == down
    requires forall p :: p in quotes ==> p.high / price - 1.0 <= up && p.low / price - 1.0 >= down
    ensures ExtremesRight(price, quotes, Some(up), Some(down))
  {
    ReturnAtMost(h.high, price, up);
    ReturnAtMost(l.low, price, down);
    forall p | p in quotes ensures Between(price, p, up, down) {
      BetweenReturns(price, p, up, down);
    }
  }

  ghost predicate Between(price: real, p: Print, up: real, down: real) {
    p.high <= price * (1.0 + up) && p.low >= price * (1.0 + down)
  }

  lemma BetweenReturns(price: real, p: Print, up: real, down: real)
    requires price > 0.0 && p.high / price - 1.0 <= up && p.low / price - 1.0 >= down
    ensures Between(price, p, up, down)
  {
    ReturnAtMost(p.high, price, up);
    ReturnAtMost(p.low, price, down);
  }

  lemma ReturnOf(x: real, price: real, k: real)
    requires price > 0.0
    ensures x / price - 1.0 > k <==> x > price * (1.0 + k)
    ensures x / price - 1.0 < k <==> x < price * (1.0 + k)
    ensures price * (1.0 + (x / price - 1.0)) == x
  {
    var q := x / price;
    assert q * price == x;
    ProductOrder(q, 1.0 + k, price);
  }

  lemma ProductOrder(a: real, b: real, p: real)
    requires p > 0.0
    ensures a > b <==> a * p > b * p
    ensures a < b <==> a * p < b * p
  {
    assert (a - b) * p == a * p - b * p;
    if a > b {
      assert (a - b) * p > 0.0;
    } else if a < b {
      assert (b - a) * p > 0.0;
      assert (b - a) * p == b * p - a * p;
    }
  }

  // ---- Provider minutes ----

  function From(c: Case): (t: Time)
    ensures t >= c.decisionAt && t >= c.window.opens && (t == c.decisionAt || t == c.window.opens)
  {
    if c.decisionAt < c.window.opens then c.window.opens else c.decisionAt
  }

  /** A minute counts when it begins no earlier than the decision and the open, and ends by the close. */
  ghost predicate Counts(c: Case, b: Bar) {
    c.decisionAt <= b.start && c.window.opens <= b.start && b.start + MINUTE <= c.window.closes
  }

  /** A whole minute of the evaluated part of the session. */
  predicate IsDue(c: Case, t: Time) {
    t % MINUTE == 0 && c.decisionAt <= t && c.window.opens <= t && t + MINUTE <= c.window.closes
  }

  ghost predicate AllDue(c: Case, bars: seq<Bar>) {
    forall t :: IsDue(c, t) ==> HasMinute(bars, t)
  }

  ghost predicate MinuteQuote(c: Case, bars: seq<Bar>, p: Print) {
    exists b :: b in bars && Counts(c, b) && p == Print(b.start, b.high, b.low, b.close)
  }

  /** Fewer whole minutes are left than the policy asks for. */
  ghost predicate TooShort(c: Case) {
    var left := c.window.closes - FirstMinute(From(c));
    if c.policy.minMinutes == 0 then left <= -MINUTE else left < MINUTE * c.policy.minMinutes
  }

  lemma ShortMeans(c: Case)
    ensures ExpectedMinutes(c) < c.policy.minMinutes <==> TooShort(c)
  {
    var left := c.window.closes - FirstMinute(From(c));
    assert StartOf(c) == From(c);
    if left >= 0 {
      assert left == MINUTE * (left / MINUTE) + left % MINUTE;
    } else {
      assert -left == MINUTE * (-left / MINUTE) + -left % MINUTE;
    }
  }

  lemma DueIsExpected(c: Case, t: Time)
    ensures t in ExpectedStamps(c) <==> IsDue(c, t)
  {
    var first := FirstMinute(StartOf(c));
    var d := c.window.closes - first;
    if IsDue(c, t) {
      var k := (t - first) / MINUTE;
      assert t == first + MINUTE * k;
      assert d >= MINUTE * (k + 1);
      assert OnGrid(c, t);
    }
    if t in ExpectedStamps(c) {
      var k := (t - first) / MINUTE;
      assert t == first + MINUTE * k;
      assert k < ExpectedMinutes(c);
      assert d >= MINUTE * ExpectedMinutes(c);
    }
  }

  lemma CountsIsEligible(c: Case, b: Bar)
    requires ValidBar(b)
    ensures IsEligible(c, b) <==> Counts(c, b)
  {
    assert StartOf(c) == From(c);
  }

  lemma EligibleCounts(c: Case, bars: seq<Bar>)
    requires Charted(bars)
    ensures forall b :: b in Eligible(c, bars) <==> b in bars && Counts(c, b)
  {
    EligibleMembers(c, bars);
    forall b | b in bars ensures IsEligible(c, b) <==> Counts(c, b) {
      CountsIsEligible(c, b);
    }
  }

  /** A session is complete exactly when every due minute is there and nothing failed. */
  lemma CompleteMeans(c: Case, bars: seq<Bar>, failure: Option<string>)
    requires Charted(bars)
    ensures ChartComplete(c, Eligible(c, bars), failure) <==> AllDue(c, bars) && !Given(failure)
  {
    EligibleCounts(c, bars);
    var e := Eligible(c, bars);
    forall t ensures t in Stamps(e) <==> IsDue(c, t) && HasMinute(bars, t) {
      if t in Stamps(e) {
        var i :| 0 <= i < |e| && e[i].start == t;
        assert e[i] in e;
      }
      if IsDue(c, t) && HasMinute(bars, t) {
        var b :| b in bars && b.start == t;
        assert b in e;
        var i :| 0 <= i < |e| && e[i] == b;
      }
    }
    forall t ensures t in ExpectedStamps(c) <==> IsDue(c, t) {
      DueIsExpected(c, t);
    }
    if Stamps(e) == ExpectedStamps(c) {
      forall t | IsDue(c, t) ensures HasMinute(bars, t) {
        assert t in Stamps(e);
      }
    }
    if AllDue(c, bars) {
      forall t ensures t in Stamps(e) <==> t in ExpectedStamps(c) {}
    }
  }

  ghost predicate IsFirst(c: Case, bars: seq<Bar>, b: Bar) {
    b in bars && Counts(c, b) && forall x :: x in bars && Counts(c, x) ==> b.start <= x.start
  }

  ghost predicate IsLast(c: Case, bars: seq<Bar>, b: Bar) {
    b in bars && Counts(c, b) && forall x :: x in bars && Counts(c, x) ==> x.start <= b.start
  }

  lemma EndsOfEligible(c: Case, bars: seq<Bar>)
    requires Charted(bars)
    ensures var e := Eligible(c, bars);
            e != [] ==> IsFirst(c, bars, e[0]) && IsLast(c, bars, e[|e| - 1])
    ensures Eligible(c, bars) == [] <==> forall b :: b in bars ==> !Counts(c, b)
  {
    EligibleCounts(c, bars);
    EligibleAscends(c, bars);
    var e := Eligible(c, bars);
    if e != [] {
      assert e[0] in e && e[|e| - 1] in e;
      forall x | x in bars && Counts(c, x) ensures e[0].start <= x.start <= e[|e| - 1].start {
        assert x in e;
        var i :| 0 <= i < |e| && e[i] == x;
      }
    }
  }

  lemma SameStartSameBar(bars: seq<Bar>, b: Bar, x: Bar)
    requires DistinctStarts(bars) && b in bars && x in bars && b.start == x.start
    ensures b == x
  {
    var i :| 0 <= i < |bars| && bars[i] == b;
    var j :| 0 <= j < |bars| && bars[j] == x;
    if i < j || j < i {
      assert false;
    }
  }

  lemma OnlyOneFirst(c: Case, bars: seq<Bar>, b: Bar, x: Bar)
    requires Charted(bars)
    ensures IsFirst(c, bars, b) && IsFirst(c, bars, x) ==> b == x
    ensures IsLast(c, bars, b) && IsLast(c, bars, x) ==> b == x
  {
    if b in bars && x in bars && b.start == x.start {
      SameStartSameBar(bars, b, x);
    }
  }

  lemma MinutesAreListed(c: Case, bars: seq<Bar>)
    requires Charted(bars)
    ensures Enumerates(MinutePrints(Eligible(c, bars)), iset p | MinuteQuote(c, bars, p))
  {
    EligibleCounts(c, bars);
    EligibleAscends(c, bars);
    var e := Eligible(c, bars);
    var prints := MinutePrints(e);
    forall p ensures p in prints <==> MinuteQuote(c, bars, p) {
      if p in prints {
        var i :| 0 <= i < |prints| && prints[i] == p;
        assert e[i] in e;
      }
      if MinuteQuote(c, bars, p) {
        var b :| b in bars && Counts(c, b) && p == Print(b.start, b.high, b.low, b.close);
        assert b in e;
        var i :| 0 <= i < |e| && e[i] == b;
        assert prints[i] == p;
      }
    }
  }

  /** A recorded baseline differs from the one found now. */
  ghost predicate Revises(previous: Option<Outcome>, at: Time, price: real) {
    && previous.Some? && previous.value.baseline.Some?
    && !(previous.value.baseline.value.at == at && previous.value.baseline.value.price == price)
  }

  /** Nothing is decided. */
  ghost predicate Undecided(r: Outcome) {
    r.reached.None? && r.hitAt.None? && r.closing.None? && r.closingCorrect.None? && !r.complete
  }

  /** When provider minutes cannot be judged, and what is said instead. */
  lemma MinutesRefused(c: Case, bars: seq<Bar>, final: bool, failure: Option<string>, previous: Option<Outcome>)
    requires Charted(bars)
    ensures var r := Evaluation(c, bars, final, failure, previous);
            var waiting := if final then Unscorable else Pending;
            && (TooShort(c) ==>
                  Undecided(r) && r.baseline.None? && r.status == Unscorable && r.reason == Some("INSUFFICIENT_WINDOW"))
            && (!TooShort(c) && (forall b :: b in bars ==> !Counts(c, b)) ==>
                  && Undecided(r) && r.baseline.None? && r.status == waiting
                  && r.reason == if !final then None else if Given(failure) then failure else Some("NO_BASELINE"))
            && (forall b :: !TooShort(c) && IsFirst(c, bars, b) && b.start - From(c) > c.policy.maxDelay ==>
                  && Undecided(r) && r.baseline.None? && r.status == waiting && r.reason == Some("BASELINE_TOO_LATE"))
            && (forall b ::
                  !TooShort(c) && IsFirst(c, bars, b) && b.start - From(c) <= c.policy.maxDelay
                  && Revises(previous, b.start, b.open) ==>
                    && Undecided(r) && r.baseline == previous.value.baseline && r.status == Unscorable
                    && r.reason == Some("BASELINE_REVISED"))
  {
    ShortMeans(c);
    EndsOfEligible(c, bars);
    ChartedEvaluation(c, bars, final, failure, previous);
    var e := Eligible(c, bars);
    assert StartOf(c) == From(c);
    forall b | IsFirst(c, bars, b) ensures e != [] && b == e[0] {
      OnlyOneFirst(c, bars, b, e[0]);
    }
  }

  /** The first minute that counts can be the baseline: enough is left of the session, it is not too late, and it
      does not contradict a recorded one. */
  ghost predicate Sets(c: Case, bars: seq<Bar>, previous: Option<Outcome>, first: Bar) {
    && IsFirst(c, bars, first) && !TooShort(c)
    && first.start - From(c) <= c.policy.maxDelay && !Revises(previous, first.start, first.open)
  }

  lemma JudgedMinutes(
    c: Case, bars: seq<Bar>, final: bool, failure: Option<string>, previous: Option<Outcome>, first: Bar)
    requires Charted(bars) && Sets(c, bars, previous, first)
    ensures var e := Eligible(c, bars);
            && e != [] && e[0] == first && first.open > 0.0
            && Evaluation(c, bars, final, failure, previous)
               == Judge(Judging(c, e, final, failure), c, first.open, MinutePrints(e),
                        final && ChartComplete(c, e, failure))
  {
    ShortMeans(c);
    EndsOfEligible(c, bars);
    ChartedEvaluation(c, bars, final, failure, previous);
    var e := Eligible(c, bars);
    OnlyOneFirst(c, bars, first, e[0]);
    assert StartOf(c) == From(c);
    EligibleVerdict(c, e, final, failure, previous);
  }

  /** How the evaluation of provider minutes stands: its baseline is the open of the first minute that counts, and it
      is scored once the stream is final with every due minute there. */
  lemma StatusMeans(
    c: Case, bars: seq<Bar>, final: bool, failure: Option<string>, previous: Option<Outcome>, first: Bar)
    requires Charted(bars) && Sets(c, bars, previous, first)
    ensures var r := Evaluation(c, bars, final, failure, previous);
            var complete := AllDue(c, bars) && !Given(failure);
            && r.baseline == Some(Baseline(first.start, first.open, first.start - From(c)))
            && r.complete == complete && r.basis == ProviderMinute
            && r.status == (if !final then Pending else if complete then Scored else Unscorable)
            && r.reason == if !final || complete then None
                           else if Given(failure) then failure else Some("MISSING_BARS")
  {
    JudgedMinutes(c, bars, final, failure, previous, first);
    CompleteMeans(c, bars, failure);
  }

  /** The verdict on provider minutes, in terms of the minutes themselves: its prices are the highs, lows and closes
      of those that count, against the open of the first. */
  lemma MinuteVerdict(
    c: Case, bars: seq<Bar>, final: bool, failure: Option<string>, previous: Option<Outcome>, first: Bar, last: Bar)
    requires Charted(bars) && Sets(c, bars, previous, first) && IsLast(c, bars, last)
    ensures var r := Evaluation(c, bars, final, failure, previous);
            var settled := final && AllDue(c, bars) && !Given(failure);
            var quotes := iset p | MinuteQuote(c, bars, p);
            MinutesRight(c, first.open, quotes, last.close, settled, r)
  {
    var e := Eligible(c, bars);
    JudgedMinutes(c, bars, final, failure, previous, first);
    CompleteMeans(c, bars, failure);
    EndsOfEligible(c, bars);
    OnlyOneFirst(c, bars, last, e[|e| - 1]);
    MinutesAreListed(c, bars);
    EligibleCounts(c, bars);
    EligibleAscends(c, bars);
    MinutesJudged(Judging(c, e, final, failure), c, first.open, e, final && ChartComplete(c, e, failure),
                  iset p | MinuteQuote(c, bars, p));
  }

  /** What minute prices decide. */
  ghost predicate MinutesRight(c: Case, price: real, quotes: iset<Print>, last: real, settled: bool, r: Outcome) {
    && ReachedRight(c, price, quotes, settled, r.reached)
    && HitRight(c, price, quotes, r.hitAt)
    && ClosingRight(c, price, last, settled, r.closing, r.closingCorrect)
    && ExtremesRight(price, quotes, r.maxUp, r.maxDown)
  }

  lemma MinutesJudged(o: Outcome, c: Case, price: real, e: seq<Bar>, settled: bool, quotes: iset<Print>)
    requires e != [] && price > 0.0 && Ascending(e) && (forall b :: b in e ==> ValidBar(b))
    requires Enumerates(MinutePrints(e), quotes)
    ensures MinutesRight(c, price, quotes, e[|e| - 1].close, settled, Judge(o, c, price, MinutePrints(e), settled))
  {
    JudgedRight(o, c, price, MinutePrints(e), settled, quotes);
    HitsOnTheMinute(c, price, e);
  }

  /** What an evaluation holds before its prices are judged. */
  ghost function Judging(c: Case, e: seq<Bar>, final: bool, failure: Option<string>): Outcome
    requires e != []
  {
    var complete := ChartComplete(c, e, failure);
    BLANK.(status := FinalStatus(final, complete),
    reason := if final && !complete then Some(OrElse(failure, "MISSING_BARS")) else None,
    baseline := Some(Baseline(e[0].start, e[0].open, e[0].start - StartOf(c))),
    expectedBars := ExpectedMinutes(c), observedBars := |Stamps(e)|, complete := complete)
  }

  lemma EligibleVerdict(c: Case, e: seq<Bar>, final: bool, failure: Option<string>, previous: Option<Outcome>)
    requires e != [] && (forall b :: b in e ==> ValidBar(b))
    requires e[0].start - StartOf(c) <= c.policy.maxDelay && !Revises(previous, e[0].start, e[0].open)
    ensures e[0].open > 0.0
    ensures EvaluateEligible(c, e, final, failure, previous)
            == Judge(Judging(c, e, final, failure), c, e[0].open, MinutePrints(e),
                     final && ChartComplete(c, e, failure))
  {
    assert e[0] in e;
  }

  /** Whatever the outcome held before, its prices are judged right. */
  lemma JudgedRight(o: Outcome, c: Case, price: real, prints: seq<Print>, settled: bool, quotes: iset<Print>)
    requires prints != [] && price > 0.0 && Enumerates(prints, quotes)
    ensures var r := Judge(o, c, price, prints, settled);
            && ReachedRight(c, price, quotes, settled, r.reached)
            && ClosingRight(c, price, prints[|prints| - 1].close, settled, r.closing, r.closingCorrect)
            && ExtremesRight(price, quotes, r.maxUp, r.maxDown)
            && var hit := FirstHit(c, price, prints);
               && HitRight(c, price, quotes, if hit.Some? then Some(hit.value.at) else None)
               && r.hitAt == (if hit.Some? then Some(MinuteOf(hit.value.at)) else None)
  {
    ReachedMeans(o, c, price, prints, settled, quotes);
    ClosingMeans(o, c, price, prints, settled);
    ExtremesMean(o, c, price, prints, settled, quotes);
    HitMeans(c, price, prints, quotes);
  }

  lemma HitsOnTheMinute(c: Case, price: real, e: seq<Bar>)
    requires Ascending(e) && forall b :: b in e ==> ValidBar(b)
    ensures var hit := FirstHit(c, price, MinutePrints(e));
            hit.Some? ==> MinuteOf(hit.value.at) == hit.value.at
  {
    var prints := MinutePrints(e);
    FirstHitIsFirst(c, price, prints);
    var hit := FirstHit(c, price, prints);
    if hit.Some? {
      var i :| 0 <= i < |prints| && prints[i] == hit.value;
      assert e[i] in e;
    }
  }
}
