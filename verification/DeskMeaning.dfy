/** What a scoring does to an open evaluation: withdrawal, patience with unfinished streams, and replaced streams. */
module DeskMeaning {
  import opened Wrappers
  import opened IntradayTypes
  import opened Sorting
  import opened IntradayPolicy
  import opened VerdictStability
  import opened VerdictMeaning
  import opened IntradayVerification

  /** A stance replaced by the time its session opens is withdrawn by the next scoring, and by the news itself, in
      whichever order they come; one replaced later is not. */
  lemma SupersededExactlyWhen(row: Row, t: Tick, at: Time)
    requires row.stream.Some? && row.status == Pending && t.Score? && WellFormed(t) && t.superseded == Some(at)
    ensures var scored, told := After(row, t), After(row, Supersede(at));
            if at <= row.subject.window.opens
            then
              && scored == told == row.(status := Withdrawn, result := Some(SUPERSEDED))
              && After(told, t) == told && After(scored, Supersede(at)) == scored
            else
              && scored.status != Withdrawn && told == row
  {
    if at > row.subject.window.opens {
      ScoringStatus(row, t);
    }
  }

  /** An evaluation is open only until its stream is final, scored only without a failure, and never withdrawn. */
  ghost predicate StatusFits(r: Outcome, final: bool, failure: Option<string>) {
    && r.status != Withdrawn && (r.status == Pending ==> !final) && (r.status == Scored ==> final && !Given(failure))
  }

  lemma MinutesStatus(c: Case, e: seq<Bar>, final: bool, failure: Option<string>, previous: Option<Outcome>)
    requires forall b :: b in e ==> ValidBar(b)
    ensures StatusFits(EvaluateEligible(c, e, final, failure, previous), final, failure)
  {
  }

  lemma PagesStatus(
    c: Case, obs: seq<Observation>, n: nat, final: bool, failure: Option<string>, previous: Option<Outcome>)
    requires forall o :: o in obs ==> ValidSample(o.sample) && o.close > 0.0
    ensures StatusFits(EvaluateObserved(c, obs, n, final, failure, previous), final, failure)
  {
  }

  lemma EvaluateMinutesStatus(
    c: Case, bars: seq<Bar>, final: bool, failure: Option<string>, previous: Option<Outcome>)
    requires forall b :: b in bars ==> ValidBar(b)
    ensures StatusFits(EvaluateMinutes(c, bars, final, failure, previous), final, failure)
  {
    EligibleMembers(c, bars);
    MinutesStatus(c, Eligible(c, bars), final, failure, previous);
  }

  lemma EvaluatePagesStatus(
    c: Case, bars: seq<Bar>, final: bool, failure: Option<string>, previous: Option<Outcome>)
    requires forall b :: b in bars ==> ValidBar(b)
    ensures StatusFits(EvaluateLastKnown(c, bars, final, failure, previous), final, failure)
  {
    if Unique(c, bars).Some? {
      SortedObservations(c, bars);
      PagesStatus(c, SortBy(Unique(c, bars).value, ObservedKey), |bars|, final, failure, previous);
    }
  }

  lemma EvaluationStatus(c: Case, bars: seq<Bar>, final: bool, failure: Option<string>, previous: Option<Outcome>)
    requires forall b :: b in bars ==> ValidBar(b)
    ensures StatusFits(Evaluation(c, bars, final, failure, previous), final, failure)
  {
    EvaluateMinutesStatus(c, bars, final, failure, previous);
    EvaluatePagesStatus(c, bars, final, failure, previous);
  }

  lemma ScoringStatus(row: Row, t: Tick)
    requires t.Score? && WellFormed(t)
    requires t.superseded.Some? ==> t.superseded.value > row.subject.window.opens
    ensures var late := GivenUp(row, t);
            StatusFits(Scoring(row, t), t.final || late,
                       if late then Some("OBSERVATION_DEADLINE_EXPIRED") else t.failure)
  {
    var late := GivenUp(row, t);
    EvaluationStatus(row.subject, t.bars, t.final || late,
                     if late then Some("OBSERVATION_DEADLINE_EXPIRED") else t.failure, Recalled(row, t.replaced));
  }

  /** Nothing stands in the way of a scoring. */
  ghost predicate Scorable(row: Row, t: Tick) {
    && row.status == Pending && t.Score? && WellFormed(t)
    && (t.superseded.Some? ==> t.superseded.value > row.subject.window.opens)
  }

  /** What a scoring evaluates: the stream as it is until fifty hours after the close, and after that an unfinished
      stream as if it had ended without the rest; with the earlier result, unless that rests on page prices and the
      stream was replaced since. */
  lemma ScoringEvaluates(row: Row, t: Tick)
    requires Scorable(row, t)
    ensures var after := After(row, t);
            var overdue := !t.final && t.now > row.subject.window.closes + 50 * 3600;
            var recalled := if t.replaced && row.result.Some? && row.result.value.basis == LastKnownPrice then None
                            else row.result;
            var failure := if overdue then Some("OBSERVATION_DEADLINE_EXPIRED") else t.failure;
            && after.subject == row.subject && after.stream == row.stream
            && after.result.Some? && after.status == after.result.value.status
            && after.result.value
               == Evaluation(row.subject, t.bars, t.final || overdue, failure, recalled).(fallback := t.fallback)
  {
  }

  /** An unfinished stream does not keep an evaluation open for ever: fifty hours after the close the next scoring
      ends it, and never as scored. */
  lemma PatienceEnds(row: Row, t: Tick)
    requires Scorable(row, t) && !t.final && t.now > row.subject.window.closes + 50 * 3600
    ensures After(row, t).status == Unscorable
  {
    ScoringStatus(row, t);
  }

  /** A stream that went over to charts may start again: whatever baseline its page prices had set, the first minute
      that counts sets a new one. */
  lemma ReplacedStreamStartsAgain(row: Row, t: Tick, first: Bar)
    requires Scorable(row, t) && t.replaced && Charted(t.bars) && Sets(row.subject, t.bars, None, first)
    requires row.result.Some? && row.result.value.basis == LastKnownPrice
    ensures BaselineOf(After(row, t)) == Some(Baseline(first.start, first.open, first.start - From(row.subject)))
  {
    var late := GivenUp(row, t);
    StatusMeans(row.subject, t.bars, t.final || late,
                if late then Some("OBSERVATION_DEADLINE_EXPIRED") else t.failure, None, first);
  }

  /** A stream that was not replaced may not: another first minute ends the evaluation. */
  lemma RevisedStreamEnds(row: Row, t: Tick, first: Bar)
    requires Scorable(row, t) && !t.replaced && Charted(t.bars) && Sets(row.subject, t.bars, None, first)
    requires Revises(row.result, first.start, first.open)
    ensures After(row, t).status == Unscorable && BaselineOf(After(row, t)) == row.result.value.baseline
  {
    var late := GivenUp(row, t);
    MinutesRefused(row.subject, t.bars, t.final || late,
                   if late then Some("OBSERVATION_DEADLINE_EXPIRED") else t.failure, row.result);
  }
}
