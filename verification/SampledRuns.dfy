/** The recorded baseline on sampled prices, over any sequence of ticks that keeps the samples already shown. */
module SampledRuns {
  import opened Wrappers
  import opened IntradayTypes
  import opened Sorting
  import opened IntradayPolicy
  import opened CarryForward
  import opened IntradayVerification

  /** Samples only, none of them taken back, and the stream never replaced. */
  ghost predicate Sampling(ticks: seq<Tick>) {
    && (forall i :: 0 <= i < |ticks| && ticks[i].Score? ==> OnlySamples(ticks[i].bars) && !ticks[i].replaced)
    && (forall i, j :: 0 <= i < j < |ticks| && ticks[i].Score? && ticks[j].Score? ==>
                         forall b :: b in ticks[i].bars ==> b in ticks[j].bars)
  }

  ghost predicate ShowsSome(c: Case, bars: seq<Bar>) {
    exists o :: Shows(c, bars, o)
  }

  lemma ShowsStays(c: Case, bars: seq<Bar>, more: seq<Bar>)
    requires ShowsSome(c, bars) && forall b :: b in bars ==> b in more
    ensures ShowsSome(c, more) && more != []
  {
    var o :| Shows(c, bars, o);
    assert Shows(c, more, o);
  }

  /** Without an observation there is no baseline. */
  lemma SampledBaselineIsShown(
    c: Case, bars: seq<Bar>, final: bool, failure: Option<string>, previous: Option<Outcome>)
    requires OnlySamples(bars)
    ensures var r := Evaluation(c, bars, final, failure, previous);
            r.status == Pending && r.baseline.Some? ==>
              && r.basis == LastKnownPrice && r.baseline.value.delay == r.baseline.value.at - StartOf(c)
              && ShowsSome(c, bars)
  {
    if bars == [] {
      NothingToEvaluate(c, final, failure, previous);
    } else {
      SampledEvaluation(c, bars, final, failure, previous);
      UniqueIsExact(c, bars);
      if Unique(c, bars).Some? {
        SortedObservations(c, bars);
        var obs := SortBy(Unique(c, bars).value, ObservedKey);
        SortMembers(Unique(c, bars).value, ObservedKey);
        ObservedBaseline(c, obs, |bars|, final, failure, previous);
        if obs != [] {
          assert obs[0] in obs;
        }
      }
    }
  }

  lemma NothingToEvaluate(c: Case, final: bool, failure: Option<string>, previous: Option<Outcome>)
    ensures Evaluation(c, [], final, failure, previous).baseline.None?
  {
    assert Eligible(c, []) == [];
  }

  lemma ObservedBaseline(
    c: Case, obs: seq<Observation>, n: nat, final: bool, failure: Option<string>, previous: Option<Outcome>)
    requires forall o :: o in obs ==> ValidSample(o.sample) && o.close > 0.0
    ensures var r := EvaluateObserved(c, obs, n, final, failure, previous);
            && (r.baseline.Some? ==>
                  && obs != [] && r.basis == LastKnownPrice
                  && r.baseline.value.delay == r.baseline.value.at - StartOf(c))
            && (obs != [] && r.status != Unscorable ==> r.baseline.Some?)
  {
  }

  lemma ObservedKeepsBaseline(
    c: Case, obs: seq<Observation>, n: nat, final: bool, failure: Option<string>, r: Outcome)
    requires obs != [] && forall o :: o in obs ==> ValidSample(o.sample) && o.close > 0.0
    requires r.basis == LastKnownPrice && r.baseline.Some?
    requires r.baseline.value.delay == r.baseline.value.at - StartOf(c)
    ensures var later := EvaluateObserved(c, obs, n, final, failure, Some(r));
            later.status == Unscorable || later.baseline == r.baseline
  {
  }

  /** The next evaluation of samples that include the old ones keeps the recorded baseline or gives up. */
  lemma SampledBaselineSurvives(
    c: Case, bars: seq<Bar>, more: seq<Bar>, r: Outcome, final: bool, failure: Option<string>)
    requires OnlySamples(more) && ShowsSome(c, bars) && (forall b :: b in bars ==> b in more)
    requires r.basis == LastKnownPrice && r.baseline.Some?
    requires r.baseline.value.delay == r.baseline.value.at - StartOf(c)
    ensures var later := Evaluation(c, more, final, failure, Some(r));
            later.status == Unscorable || later.baseline == r.baseline
  {
    ShowsStays(c, bars, more);
    SampledEvaluation(c, more, final, failure, Some(r));
    LastKnownBaseline(c, more, r, final, failure);
  }

  lemma LastKnownBaseline(c: Case, bars: seq<Bar>, r: Outcome, final: bool, failure: Option<string>)
    requires OnlySamples(bars) && ShowsSome(c, bars)
    requires r.basis == LastKnownPrice && r.baseline.Some?
    requires r.baseline.value.delay == r.baseline.value.at - StartOf(c)
    ensures var later := EvaluateLastKnown(c, bars, final, failure, Some(r));
            later.status == Unscorable || later.baseline == r.baseline
  {
    if Unique(c, bars).Some? {
      ObservationsExist(c, bars);
      SortedObservations(c, bars);
      ObservedKeepsBaseline(c, SortBy(Unique(c, bars).value, ObservedKey), |bars|, final, failure, r);
    }
  }

  lemma ObservationsExist(c: Case, bars: seq<Bar>)
    requires ShowsSome(c, bars) && Unique(c, bars).Some?
    ensures SortBy(Unique(c, bars).value, ObservedKey) != []
  {
    UniqueIsExact(c, bars);
    SortMembers(Unique(c, bars).value, ObservedKey);
    var o :| Shows(c, bars, o);
    assert o in SortBy(Unique(c, bars).value, ObservedKey);
  }

  // ---- Over any sequence of ticks ----

  /** A recorded baseline rests on samples some earlier tick has shown. */
  ghost predicate Rests(row: Row, ticks: seq<Tick>, i: nat)
    requires i <= |ticks|
  {
    row.status == Pending && BaselineOf(row).Some? ==>
      && row.result.value.basis == LastKnownPrice
      && row.result.value.baseline.value.delay == row.result.value.baseline.value.at - StartOf(row.subject)
      && exists k :: 0 <= k < i && ticks[k].Score? && ShowsSome(row.subject, ticks[k].bars)
  }

  lemma ScoringRests(row: Row, t: Tick)
    requires t.Score? && OnlySamples(t.bars)
    ensures var r := Scoring(row, t);
            r.status == Pending && r.baseline.Some? ==>
              && r.basis == LastKnownPrice && r.baseline.value.delay == r.baseline.value.at - StartOf(row.subject)
              && ShowsSome(row.subject, t.bars)
  {
    var late := GivenUp(row, t);
    SampledBaselineIsShown(row.subject, t.bars, t.final || late,
                           if late then Some("OBSERVATION_DEADLINE_EXPIRED") else t.failure, Recalled(row, t.replaced));
  }

  lemma {:induction false} CourseRests(rows: seq<Row>, ticks: seq<Tick>, i: nat)
    requires Course(rows, ticks) && Sampling(ticks) && i < |rows|
    ensures Rests(rows[i], ticks, i)
  {
    if i > 0 {
      CourseRests(rows, ticks, i - 1);
      if ticks[i - 1].Score? && rows[i - 1].status == Pending {
        ScoringRests(rows[i - 1], ticks[i - 1]);
      }
    }
  }

  lemma SampledTickKeepsBaseline(row: Row, ticks: seq<Tick>, i: nat)
    requires i < |ticks| && WellFormed(ticks[i]) && Sampling(ticks) && Rests(row, ticks, i) && BaselineOf(row).Some?
    ensures Ended(After(row, ticks[i])) || BaselineOf(After(row, ticks[i])) == BaselineOf(row)
  {
    var t := ticks[i];
    if t.Score? && row.status == Pending {
      var k :| 0 <= k < i && ticks[k].Score? && ShowsSome(row.subject, ticks[k].bars);
      var late := GivenUp(row, t);
      SampledBaselineSurvives(row.subject, ticks[k].bars, t.bars, row.result.value, t.final || late,
                              if late then Some("OBSERVATION_DEADLINE_EXPIRED") else t.failure);
    }
  }

  /** On sampled prices too: over any sequence of ticks that takes no sample back and sees no replacement, a
      recorded baseline is kept, or the evaluation ends unscorable or withdrawn. */
  lemma {:induction false} SampledBaselineIsKept(rows: seq<Row>, ticks: seq<Tick>, i: nat, j: nat)
    requires Course(rows, ticks) && Sampling(ticks) && i <= j < |rows| && BaselineOf(rows[i]).Some?
    ensures Ended(rows[j]) || BaselineOf(rows[j]) == BaselineOf(rows[i])
    decreases j
  {
    if i < j {
      SampledBaselineIsKept(rows, ticks, i, j - 1);
      if Ended(rows[j - 1]) {
        EndedStaysEnded(rows[j - 1], ticks[j - 1]);
      } else {
        CourseRests(rows, ticks, j - 1);
        SampledTickKeepsBaseline(rows[j - 1], ticks, j - 1);
      }
    }
  }
}
