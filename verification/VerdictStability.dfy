/**
 What does not change a verdict: earlier minutes, the order minutes are listed in, minutes that arrive
 later, and minutes that only repeat a sample.
 */
module VerdictStability {
  import opened Wrappers
  import opened IntradayTypes
  import opened Sorting
  import opened IntradayPolicy

  // ---- Which minutes count ----

  ghost predicate Charted(bars: seq<Bar>) {
    DistinctStarts(bars) && forall b :: b in bars ==> ValidBar(b) && b.sample.None?
  }

  lemma {:induction false} SelectKeepsDistinct(c: Case, bars: seq<Bar>)
    requires DistinctStarts(bars)
    ensures DistinctBy(SelectEligible(c, bars), StartKey)
  {
    if bars != [] {
      var front, last := bars[..|bars| - 1], bars[|bars| - 1];
      SelectKeepsDistinct(c, front);
      var kept := SelectEligible(c, front);
      forall i | 0 <= i < |kept| ensures kept[i].start != last.start {
        SelectedExactly(c, front, kept[i]);
        assert kept[i] in kept;
        var k :| 0 <= k < |front| && front[k] == kept[i];
        assert bars[k] == kept[i];
      }
    }
  }

  /** The eligible minutes depend only on which eligible bars there are. */
  lemma EligibleEqual(c: Case, bars: seq<Bar>, others: seq<Bar>)
    requires DistinctStarts(bars) && DistinctStarts(others)
    requires forall b :: IsEligible(c, b) ==> (b in bars <==> b in others)
    ensures Eligible(c, bars) == Eligible(c, others)
  {
    SelectKeepsDistinct(c, bars);
    SelectKeepsDistinct(c, others);
    forall b ensures b in SelectEligible(c, bars) <==> b in SelectEligible(c, others) {
      SelectedExactly(c, bars, b);
      SelectedExactly(c, others, b);
    }
    SortsEqual(SelectEligible(c, bars), SelectEligible(c, others), StartKey);
  }

  /** Minutes before the decision, and the order of the minutes, never affect the result. */
  lemma EarlierMinutesIrrelevant(
    c: Case, bars: seq<Bar>, others: seq<Bar>, final: bool, failure: Option<string>, previous: Option<Outcome>)
    requires Charted(bars) && Charted(others)
    requires forall b: Bar :: b.start >= c.decisionAt ==> (b in bars <==> b in others)
    ensures Evaluation(c, bars, final, failure, previous) == Evaluation(c, others, final, failure, previous)
  {
    EligibleEqual(c, bars, others);
    ChartedEvaluation(c, bars, final, failure, previous);
    ChartedEvaluation(c, others, final, failure, previous);
  }

  /** The evaluation of provider minutes looks at the eligible ones only. */
  lemma ChartedEvaluation(
    c: Case, bars: seq<Bar>, final: bool, failure: Option<string>, previous: Option<Outcome>)
    requires Charted(bars)
    ensures forall b :: b in Eligible(c, bars) ==> ValidBar(b)
    ensures Evaluation(c, bars, final, failure, previous)
            == if ExpectedMinutes(c) < c.policy.minMinutes then Refuse("INSUFFICIENT_WINDOW")
               else EvaluateEligible(c, Eligible(c, bars), final, failure, previous)
  {
    EligibleMembers(c, bars);
  }

  lemma EligibleAscends(c: Case, bars: seq<Bar>)
    requires DistinctStarts(bars)
    ensures Ascending(Eligible(c, bars))
  {
    SelectKeepsDistinct(c, bars);
    SortOrders(SelectEligible(c, bars), StartKey);
    SortDistinct(SelectEligible(c, bars), StartKey);
    var e := Eligible(c, bars);
    forall i, j | 0 <= i < j < |e| ensures e[i].start < e[j].start {
      assert StartKey(e[i]) <= StartKey(e[j]) && StartKey(e[i]) != StartKey(e[j]);
    }
  }

  // ---- Judging more prices ----

  ghost predicate InTime(prints: seq<Print>) {
    forall i, j :: 0 <= i < j < |prints| ==> prints[i].at <= prints[j].at
  }

  lemma {:induction false} FirstHitIsFirst(c: Case, price: real, prints: seq<Print>)
    requires InTime(prints)
    ensures var hit := FirstHit(c, price, prints);
            && (hit.None? <==> forall p :: p in prints ==> !Hits(c, price, p))
            && (hit.Some? ==> hit.value in prints && Hits(c, price, hit.value)
                              && forall p :: p in prints && Hits(c, price, p) ==> hit.value.at <= p.at)
  {
    if prints != [] {
      FirstHitIsFirst(c, price, prints[1..]);
      assert prints[0] in prints;
      forall p | p in prints ensures p == prints[0] || p in prints[1..] {}
      forall p | p in prints[1..] ensures p in prints && prints[0].at <= p.at {
        var k :| 0 <= k < |prints[1..]| && prints[1..][k] == p;
        assert prints[k + 1] == p;
      }
    }
  }

  lemma {:induction false} HighestIsHighest(prints: seq<Print>, price: real) returns (p: Print)
    requires prints != [] && price > 0.0
    ensures p in prints && Highest(prints, price) == p.high / price - 1.0
    ensures forall q :: q in prints ==> q.high / price - 1.0 <= Highest(prints, price)
  {
    var front, last := prints[..|prints| - 1], prints[|prints| - 1];
    assert prints == front + [last];
    p := last;
    if front != [] {
      var r := HighestIsHighest(front, price);
      if Highest(front, price) >= last.high / price - 1.0 {
        p := r;
      }
    }
  }

  lemma {:induction false} LowestIsLowest(prints: seq<Print>, price: real) returns (p: Print)
    requires prints != [] && price > 0.0
    ensures p in prints && Lowest(prints, price) == p.low / price - 1.0
    ensures forall q :: q in prints ==> q.low / price - 1.0 >= Lowest(prints, price)
  {
    var front, last := prints[..|prints| - 1], prints[|prints| - 1];
    assert prints == front + [last];
    p := last;
    if front != [] {
      var r := LowestIsLowest(front, price);
      if Lowest(front, price) <= last.low / price - 1.0 {
        p := r;
      }
    }
  }

  lemma MoreBreachesMore(c: Case, price: real, prints: seq<Print>, more: seq<Print>)
    requires prints != [] && more != [] && price > 0.0
    requires forall p :: p in prints ==> p in more
    ensures Breached(c, Highest(prints, price), Lowest(prints, price)) ==>
              Breached(c, Highest(more, price), Lowest(more, price))
  {
    var h := HighestIsHighest(prints, price);
    var l := LowestIsLowest(prints, price);
    var h' := HighestIsHighest(more, price);
    var l' := LowestIsLowest(more, price);
  }

  lemma MoreHitsEarlier(c: Case, price: real, prints: seq<Print>, more: seq<Print>)
    requires InTime(prints) && InTime(more)
    requires forall p :: p in prints ==> p in more
    ensures FirstHit(c, price, prints).Some? ==>
              && FirstHit(c, price, more).Some?
              && FirstHit(c, price, more).value.at <= FirstHit(c, price, prints).value.at
  {
    FirstHitIsFirst(c, price, prints);
    FirstHitIsFirst(c, price, more);
  }

  /** The later judgement keeps what the earlier one decided. */
  ghost predicate Keeps(earlier: Outcome, later: Outcome) {
    && (earlier.reached.Some? ==> later.reached == earlier.reached)
    && (earlier.hitAt.Some? ==> later.hitAt.Some? && later.hitAt.value <= earlier.hitAt.value)
  }

  lemma MinuteOfMonotone(a: Time, b: Time)
    requires a <= b
    ensures MinuteOf(a) <= MinuteOf(b)
  {
  }

  /** More prices over the same baseline never flip a decided verdict, nor move the first hit later. */
  lemma JudgementIsStable(
    o: Outcome, o': Outcome, c: Case, price: real, prints: seq<Print>, more: seq<Print>, settled: bool, settled': bool)
    requires prints != [] && more != [] && price > 0.0 && InTime(prints) && InTime(more)
    requires forall p :: p in prints ==> p in more
    requires settled ==> settled' && more == prints
    ensures Keeps(Judge(o, c, price, prints, settled), Judge(o', c, price, more, settled'))
  {
    MoreHitsEarlier(c, price, prints, more);
    MoreBreachesMore(c, price, prints, more);
    var hit, hit' := FirstHit(c, price, prints), FirstHit(c, price, more);
    if hit.Some? {
      MinuteOfMonotone(hit'.value.at, hit.value.at);
    }
  }

  // ---- Provider minutes arriving ----

  lemma PrintsFollow(eligible: seq<Bar>, more: seq<Bar>)
    requires Ascending(eligible) && Ascending(more)
    requires forall b :: b in eligible ==> b in more
    ensures InTime(MinutePrints(eligible)) && InTime(MinutePrints(more))
    ensures forall p :: p in MinutePrints(eligible) ==> p in MinutePrints(more)
  {
    forall p | p in MinutePrints(eligible) ensures p in MinutePrints(more) {
      var i :| 0 <= i < |eligible| && MinutePrints(eligible)[i] == p;
      assert eligible[i] in eligible;
      var j :| 0 <= j < |more| && more[j] == eligible[i];
      assert MinutePrints(more)[j] == p;
    }
  }

  /** Aligned minutes of the window are exactly the expected ones. */
  lemma EligibleIsExpected(c: Case, b: Bar)
    requires ValidBar(b) && IsEligible(c, b)
    ensures b.start in ExpectedStamps(c)
  {
    var first := FirstMinute(StartOf(c));
    var k := (b.start - first) / MINUTE;
    assert b.start == first + MINUTE * k;
    var d := c.window.closes - first;
    assert d >= MINUTE * (k + 1);
    assert ExpectedMinutes(c) == d / MINUTE >= k + 1;
    assert OnGrid(c, b.start);
  }

  /** A complete session cannot gain a minute. */
  lemma CompleteCannotGrow(c: Case, bars: seq<Bar>, more: seq<Bar>)
    requires Charted(bars) && Charted(more) && (forall b :: b in bars ==> b in more)
    requires Stamps(Eligible(c, bars)) == ExpectedStamps(c)
    ensures Eligible(c, more) == Eligible(c, bars)
  {
    EligibleMembers(c, bars);
    forall b | IsEligible(c, b) ensures b in bars <==> b in more {
      if b in more {
        EligibleIsExpected(c, b);
        var e := Eligible(c, bars);
        var i :| 0 <= i < |e| && e[i].start == b.start;
        assert e[i] in e;
        SameStartSameBar(more, e[i], b);
      }
    }
    EligibleEqual(c, more, bars);
  }

  lemma SameStartSameBar(bars: seq<Bar>, a: Bar, b: Bar)
    requires DistinctStarts(bars) && a in bars && b in bars && a.start == b.start
    ensures a == b
  {
    var i :| 0 <= i < |bars| && bars[i] == a;
    var j :| 0 <= j < |bars| && bars[j] == b;
  }

  /** An evaluation that judged prices: the window was long enough and the baseline stood. */
  ghost predicate Judged(c: Case, eligible: seq<Bar>, previous: Option<Outcome>) {
    && ExpectedMinutes(c) >= c.policy.minMinutes
    && eligible != [] && eligible[0].start - StartOf(c) <= c.policy.maxDelay
    && !BaselineRevised(previous, eligible[0].start, eligible[0].open)
  }

  lemma UnjudgedDecidesNothing(
    c: Case, bars: seq<Bar>, final: bool, failure: Option<string>, previous: Option<Outcome>)
    requires Charted(bars) && !Judged(c, Eligible(c, bars), previous)
    ensures var r := Evaluation(c, bars, final, failure, previous);
            r.reached.None? && r.hitAt.None? && (r.status == Pending ==> r.baseline.None?)
  {
    EligibleMembers(c, bars);
  }

  lemma JudgedBaseline(c: Case, bars: seq<Bar>, final: bool, failure: Option<string>, previous: Option<Outcome>)
    requires Charted(bars) && Judged(c, Eligible(c, bars), previous)
    ensures var e := Eligible(c, bars);
            Evaluation(c, bars, final, failure, previous).baseline
            == Some(Baseline(e[0].start, e[0].open, e[0].start - StartOf(c)))
  {
    EligibleMembers(c, bars);
  }

  /** As minutes arrive without revision and the baseline stays the same, a decided verdict never flips and
      the first hit never moves later. */
  lemma VerdictIsStable(
    c: Case, bars: seq<Bar>, more: seq<Bar>, final: bool, failure: Option<string>, previous: Option<Outcome>,
    final': bool, failure': Option<string>, fallback: Option<string>)
    requires Charted(bars) && Charted(more) && (forall b :: b in bars ==> b in more)
    requires final ==> final' && failure' == failure
    requires Eligible(c, bars) != [] ==> Eligible(c, more) != [] && Eligible(c, more)[0] == Eligible(c, bars)[0]
    ensures var earlier := Evaluation(c, bars, final, failure, previous);
            Keeps(earlier, Evaluation(c, more, final', failure', Some(earlier.(fallback := fallback))))
  {
    var earlier := Evaluation(c, bars, final, failure, previous);
    var e, e' := Eligible(c, bars), Eligible(c, more);
    if Judged(c, e, previous) {
      EligibleMembers(c, bars);
      EligibleMembers(c, more);
      EligibleAscends(c, bars);
      EligibleAscends(c, more);
      JudgedBaseline(c, bars, final, failure, previous);
      if Stamps(e) == ExpectedStamps(c) {
        CompleteCannotGrow(c, bars, more);
      }
      JudgedStable(c, e, e', final, failure, previous, final', failure', Some(earlier.(fallback := fallback)));
    } else {
      UnjudgedDecidesNothing(c, bars, final, failure, previous);
    }
  }

  lemma JudgedStable(
    c: Case, e: seq<Bar>, e': seq<Bar>, final: bool, failure: Option<string>, previous: Option<Outcome>,
    final': bool, failure': Option<string>, previous': Option<Outcome>)
    requires forall b :: b in e ==> ValidBar(b) && b in e'
    requires forall b :: b in e' ==> ValidBar(b)
    requires Ascending(e) && Ascending(e') && Judged(c, e, previous) && Judged(c, e', previous')
    requires e[0] == e'[0] && (Stamps(e) == ExpectedStamps(c) ==> e' == e)
    requires final ==> final' && failure' == failure
    ensures Keeps(EvaluateEligible(c, e, final, failure, previous),
                  EvaluateEligible(c, e', final', failure', previous'))
  {
    PrintsFollow(e, e');
    assert e[0] in e;
    var settled := final && ChartComplete(c, e, failure);
    var settled' := final' && ChartComplete(c, e', failure');
    forall o, o' ensures Keeps(Judge(o, c, e[0].open, MinutePrints(e), settled),
                               Judge(o', c, e[0].open, MinutePrints(e'), settled'))
    {
      JudgementIsStable(o, o', c, e[0].open, MinutePrints(e), MinutePrints(e'), settled, settled');
    }
  }

  // ---- The recorded baseline ----

  /** Minutes may be corrected, but none disappears. */
  ghost predicate NoMinuteLost(bars: seq<Bar>, more: seq<Bar>) {
    forall b :: b in bars ==> HasMinute(more, b.start)
  }

  ghost predicate HasMinute(bars: seq<Bar>, t: Time) {
    exists b :: b in bars && b.start == t
  }

  /** The recorded baseline can still be found: its minute is there, in the window and in time. */
  ghost predicate Recorded(c: Case, bars: seq<Bar>, r: Outcome) {
    r.baseline.Some? && r.status == Pending ==>
      && HasMinute(bars, r.baseline.value.at)
      && FirstMinute(StartOf(c)) <= r.baseline.value.at && r.baseline.value.at + MINUTE <= c.window.closes
      && r.baseline.value.delay == r.baseline.value.at - StartOf(c) <= c.policy.maxDelay
      && ExpectedMinutes(c) >= c.policy.minMinutes
  }

  lemma EvaluationRecords(c: Case, bars: seq<Bar>, final: bool, failure: Option<string>, previous: Option<Outcome>)
    requires Charted(bars)
    ensures Recorded(c, bars, Evaluation(c, bars, final, failure, previous))
  {
    EligibleMembers(c, bars);
    var e := Eligible(c, bars);
    if Judged(c, e, previous) {
      JudgedBaseline(c, bars, final, failure, previous);
      assert e[0] in e;
    } else {
      UnjudgedDecidesNothing(c, bars, final, failure, previous);
    }
  }

  lemma FirstEligibleBy(c: Case, bars: seq<Bar>, t: Time)
    requires DistinctStarts(bars) && HasMinute(bars, t)
    requires FirstMinute(StartOf(c)) <= t && t + MINUTE <= c.window.closes
    ensures Eligible(c, bars) != [] && Eligible(c, bars)[0].start <= t
  {
    EligibleMembers(c, bars);
    EligibleAscends(c, bars);
    var e := Eligible(c, bars);
    var b :| b in bars && b.start == t;
    assert b in e;
    var k :| 0 <= k < |e| && e[k] == b;
  }

  lemma RevisedGivesUp(c: Case, bars: seq<Bar>, final: bool, failure: Option<string>, previous: Option<Outcome>)
    requires Charted(bars) && Eligible(c, bars) != []
    requires Eligible(c, bars)[0].start - StartOf(c) <= c.policy.maxDelay
    requires !Judged(c, Eligible(c, bars), previous)
    ensures Evaluation(c, bars, final, failure, previous).status == Unscorable
  {
    EligibleMembers(c, bars);
  }

  /** The next evaluation keeps the recorded baseline or gives up. */
  lemma BaselineSurvives(
    c: Case, bars: seq<Bar>, more: seq<Bar>, r: Outcome, final: bool, failure: Option<string>)
    requires Charted(more) && NoMinuteLost(bars, more)
    requires Recorded(c, bars, r) && r.status == Pending && r.baseline.Some?
    ensures var later := Evaluation(c, more, final, failure, Some(r));
            later.status == Unscorable || later.baseline == r.baseline
  {
    assert HasMinute(more, r.baseline.value.at) by {
      var b :| b in bars && b.start == r.baseline.value.at;
    }
    FirstEligibleBy(c, more, r.baseline.value.at);
    if Judged(c, Eligible(c, more), Some(r)) {
      JudgedBaseline(c, more, final, failure, Some(r));
    } else {
      RevisedGivesUp(c, more, final, failure, Some(r));
    }
  }
}
