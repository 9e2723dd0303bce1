/**
 Verification's intraday desk: which predictions are open, what supersedes them, which batches arrived, and
 how an open evaluation is scored again as more arrive.
 */
module IntradayVerification {
  import opened Wrappers
  import opened IntradayTypes
  import opened IntradayContract
  import opened BatchLog
  import opened IntradayPolicy
  import opened VerdictStability

  /** Unfinished streams are given up this long after the close. */
  const PATIENCE: Time := 50 * 3600

  /** One evaluated prediction; without a supported session there is no stream and nothing to score. */
  datatype Row = Row(subject: Case, stream: Option<Id>, status: Status, result: Option<Outcome>)

  const SUPERSEDED := BLANK.(status := Withdrawn, reason := Some("SUPERSEDED_BEFORE_OPEN"))

  // ---- What happens to one evaluation ----

  datatype Tick =
    | Score(superseded: Option<Time>, bars: seq<Bar>, final: bool, failure: Option<string>, replaced: bool,
            fallback: Option<string>, now: Time)
    | Supersede(decisionAt: Time)

  predicate WellFormed(t: Tick) {
    t.Score? ==> forall b :: b in t.bars ==> ValidBar(b)
  }

  /** A baseline found on sampled prices does not bind a stream that was replaced. */
  function Recalled(row: Row, replaced: bool): Option<Outcome> {
    if replaced && row.result.Some? && row.result.value.basis == LastKnownPrice then None else row.result
  }

  predicate GivenUp(row: Row, t: Tick)
    requires t.Score?
  {
    t.now > row.subject.window.closes + PATIENCE && !t.final
  }

  function Scoring(row: Row, t: Tick): Outcome
    requires t.Score? && WellFormed(t)
  {
    if t.superseded.Some? && t.superseded.value <= row.subject.window.opens then SUPERSEDED
    else
      var late := GivenUp(row, t);
      Evaluation(row.subject, t.bars, t.final || late,
                 if late then Some("OBSERVATION_DEADLINE_EXPIRED") else t.failure,
                 Recalled(row, t.replaced)).(fallback := t.fallback)
  }

  /** Only open evaluations are scored; a stance replaced before the session opened is withdrawn. */
  function After(row: Row, t: Tick): Row
    requires WellFormed(t)
  {
    match t
    case Supersede(at) =>
      if row.stream.Some? && row.subject.window.opens >= at
      then row.(status := Withdrawn, result := Some(SUPERSEDED)) else row
    case Score(_, _, _, _, _, _, _) =>
      if row.status != Pending then row
      else var r := Scoring(row, t); row.(status := r.status, result := Some(r))
  }

  // ---- Over any sequence of ticks ----

  ghost predicate Course(rows: seq<Row>, ticks: seq<Tick>) {
    && |rows| == |ticks| + 1
    && rows[0].status == Pending && rows[0].result.None?
    && (forall i :: 0 <= i < |ticks| ==> WellFormed(ticks[i]) && rows[i + 1] == After(rows[i], ticks[i]))
  }

  /** Provider minutes only, and none of them disappears: what a stream without replacement gives. */
  ghost predicate Arriving(ticks: seq<Tick>) {
    && (forall i :: 0 <= i < |ticks| && ticks[i].Score? ==> Charted(ticks[i].bars))
    && (forall i, j :: 0 <= i < j < |ticks| && ticks[i].Score? && ticks[j].Score? ==>
                         NoMinuteLost(ticks[i].bars, ticks[j].bars))
  }

  /** The row's own result carries its status, and its baseline can be found among the bars last scored. */
  ghost predicate Standing(row: Row, ticks: seq<Tick>, i: nat)
    requires i <= |ticks|
  {
    row.status == Pending && row.result.Some? ==>
      && row.result.value.status == Pending && row.result.value.basis == ProviderMinute
      && exists k :: 0 <= k < i && ticks[k].Score? && Recorded(row.subject, ticks[k].bars, row.result.value)
  }

  lemma RecordedAnyway(c: Case, bars: seq<Bar>, r: Outcome, fallback: Option<string>)
    requires Recorded(c, bars, r)
    ensures Recorded(c, bars, r.(fallback := fallback))
  {
  }

  lemma MinutesOnProviderBasis(
    c: Case, bars: seq<Bar>, final: bool, failure: Option<string>, previous: Option<Outcome>)
    requires Charted(bars)
    ensures Evaluation(c, bars, final, failure, previous).basis == ProviderMinute
  {
    EligibleMembers(c, bars);
  }

  lemma ScoringStands(row: Row, t: Tick)
    requires t.Score? && Charted(t.bars)
    ensures var r := Scoring(row, t);
            r.status == Pending ==> r.basis == ProviderMinute && Recorded(row.subject, t.bars, r)
  {
    var late := GivenUp(row, t);
    var failure := if late then Some("OBSERVATION_DEADLINE_EXPIRED") else t.failure;
    var r := Evaluation(row.subject, t.bars, t.final || late, failure, Recalled(row, t.replaced));
    EvaluationRecords(row.subject, t.bars, t.final || late, failure, Recalled(row, t.replaced));
    MinutesOnProviderBasis(row.subject, t.bars, t.final || late, failure, Recalled(row, t.replaced));
    RecordedAnyway(row.subject, t.bars, r, t.fallback);
  }

  lemma {:induction false} CourseStands(rows: seq<Row>, ticks: seq<Tick>, i: nat)
    requires Course(rows, ticks) && Arriving(ticks) && i < |rows|
    ensures Standing(rows[i], ticks, i) && rows[i].subject == rows[0].subject
  {
    if i > 0 {
      CourseStands(rows, ticks, i - 1);
      if ticks[i - 1].Score? && rows[i - 1].status == Pending {
        ScoringStands(rows[i - 1], ticks[i - 1]);
      }
    }
  }

  /** One more scoring keeps the recorded baseline, or the evaluation ends. */
  lemma ScoringKeepsBaseline(row: Row, t: Tick, bars: seq<Bar>)
    requires t.Score? && Charted(t.bars) && NoMinuteLost(bars, t.bars)
    requires row.status == Pending && row.result.Some? && row.result.value.baseline.Some?
    requires row.result.value.status == Pending && row.result.value.basis == ProviderMinute
    requires Recorded(row.subject, bars, row.result.value)
    ensures var r := Scoring(row, t);
            r.status == Unscorable || r.status == Withdrawn || r.baseline == row.result.value.baseline
  {
    var late := GivenUp(row, t);
    BaselineSurvives(row.subject, bars, t.bars, row.result.value, t.final || late,
                     if late then Some("OBSERVATION_DEADLINE_EXPIRED") else t.failure);
  }

  /** The baseline recorded for an evaluation, if any. */
  function BaselineOf(row: Row): Option<Baseline> {
    if row.result.Some? then row.result.value.baseline else None
  }

  predicate Ended(row: Row) {
    row.status == Unscorable || row.status == Withdrawn
  }

  lemma TickKeepsBaseline(row: Row, t: Tick, ticks: seq<Tick>, i: nat)
    requires i < |ticks| && t == ticks[i] && Arriving(ticks) && Standing(row, ticks, i) && WellFormed(t)
    requires BaselineOf(row).Some?
    ensures Ended(After(row, t)) || BaselineOf(After(row, t)) == BaselineOf(row)
  {
    if t.Score? && row.status == Pending {
      var k :| 0 <= k < i && ticks[k].Score? && Recorded(row.subject, ticks[k].bars, row.result.value);
      ScoringKeepsBaseline(row, t, ticks[k].bars);
    }
  }

  lemma EndedStaysEnded(row: Row, t: Tick)
    requires WellFormed(t) && Ended(row)
    ensures Ended(After(row, t))
  {
  }

  /** Over any sequence of ticks without a source replacement, a recorded baseline is kept, or the evaluation
      ends unscorable or withdrawn. */
  lemma {:induction false} BaselineIsKept(rows: seq<Row>, ticks: seq<Tick>, i: nat, j: nat)
    requires Course(rows, ticks) && Arriving(ticks) && i <= j < |rows|
    requires BaselineOf(rows[i]).Some?
    ensures Ended(rows[j]) || BaselineOf(rows[j]) == BaselineOf(rows[i])
    decreases j
  {
    if i < j {
      BaselineIsKept(rows, ticks, i, j - 1);
      if Ended(rows[j - 1]) {
        EndedStaysEnded(rows[j - 1], ticks[j - 1]);
      } else {
        CourseStands(rows, ticks, j - 1);
        TickKeepsBaseline(rows[j - 1], ticks[j - 1], ticks, j - 1);
      }
    }
  }

  // ---- Verdicts that stay ----

  /** Minutes arrive without revision and the baseline minute stays the first. */
  ghost predicate Follows(c: Case, bars: seq<Bar>, more: seq<Bar>) {
    && (forall b :: b in bars ==> b in more)
    && (Eligible(c, bars) != [] ==> Eligible(c, more) != [] && Eligible(c, more)[0] == Eligible(c, bars)[0])
  }

  ghost predicate Growing(ticks: seq<Tick>, c: Case) {
    && (forall i :: 0 <= i < |ticks| && ticks[i].Score? ==> Charted(ticks[i].bars))
    && (forall i, j :: 0 <= i < j < |ticks| && ticks[i].Score? && ticks[j].Score? ==>
                         Follows(c, ticks[i].bars, ticks[j].bars))
  }

  lemma FinalIsNeverPending(c: Case, bars: seq<Bar>, failure: Option<string>, previous: Option<Outcome>)
    requires Charted(bars)
    ensures Evaluation(c, bars, true, failure, previous).status != Pending
  {
    EligibleMembers(c, bars);
  }

  /** An open evaluation shows the last scoring it went through. */
  ghost predicate ScoredLast(rows: seq<Row>, ticks: seq<Tick>, i: nat, k: nat)
    requires |rows| == |ticks| + 1 && i < |rows|
  {
    && k < i && ticks[k].Score? && WellFormed(ticks[k]) && rows[k].status == Pending
    && rows[k].subject == rows[i].subject && rows[i].result == Some(Scoring(rows[k], ticks[k]))
  }

  lemma {:induction false} LastScoring(rows: seq<Row>, ticks: seq<Tick>, i: nat) returns (k: nat)
    requires Course(rows, ticks) && i < |rows| && rows[i].status == Pending && rows[i].result.Some?
    ensures ScoredLast(rows, ticks, i, k)
  {
    if ticks[i - 1].Score? {
      k := i - 1;
    } else {
      k := LastScoring(rows, ticks, i - 1);
    }
  }

  lemma {:induction false} SubjectStays(rows: seq<Row>, ticks: seq<Tick>, i: nat)
    requires Course(rows, ticks) && i < |rows|
    ensures rows[i].subject == rows[0].subject
  {
    if i > 0 {
      SubjectStays(rows, ticks, i - 1);
    }
  }

  /** Scoring an open evaluation again keeps what its last scoring decided. */
  lemma RescoringKeeps(before: Row, earlier: Tick, row: Row, t: Tick)
    requires earlier.Score? && t.Score? && Charted(earlier.bars) && Charted(t.bars)
    requires before.status == Pending && row.status == Pending && before.subject == row.subject
    requires row.result == Some(Scoring(before, earlier)) && row.result.value.status == Pending
    requires Follows(row.subject, earlier.bars, t.bars)
    ensures Scoring(row, t).status == Withdrawn || Keeps(row.result.value, Scoring(row, t))
  {
    var c := row.subject;
    var late, late' := GivenUp(before, earlier), GivenUp(row, t);
    var failure := if late then Some("OBSERVATION_DEADLINE_EXPIRED") else earlier.failure;
    var failure' := if late' then Some("OBSERVATION_DEADLINE_EXPIRED") else t.failure;
    var previous := Recalled(before, earlier.replaced);
    if earlier.final || late {
      FinalIsNeverPending(c, earlier.bars, failure, previous);
    }
    MinutesOnProviderBasis(c, earlier.bars, earlier.final || late, failure, previous);
    VerdictIsStable(c, earlier.bars, t.bars, earlier.final || late, failure, previous,
                    t.final || late', failure', earlier.fallback);
  }

  lemma RowsCarryTheirStatus(rows: seq<Row>, ticks: seq<Tick>, i: nat)
    requires Course(rows, ticks) && i < |rows| && rows[i].status == Pending && rows[i].result.Some?
    ensures rows[i].result.value.status == Pending
  {
    if i > 0 && !ticks[i - 1].Score? {
      RowsCarryTheirStatus(rows, ticks, i - 1);
    }
  }

  lemma TickKeepsVerdict(rows: seq<Row>, ticks: seq<Tick>, i: nat)
    requires Course(rows, ticks) && i < |ticks| && Growing(ticks, rows[0].subject) && rows[i].result.Some?
    ensures rows[i + 1].status == Withdrawn
            || (rows[i + 1].result.Some? && Keeps(rows[i].result.value, rows[i + 1].result.value))
  {
    if ticks[i].Score? && rows[i].status == Pending {
      var k := LastScoring(rows, ticks, i);
      SubjectStays(rows, ticks, i);
      RowsCarryTheirStatus(rows, ticks, i);
      RescoringKeeps(rows[k], ticks[k], rows[i], ticks[i]);
    }
  }

  lemma {:induction false} WithdrawnStays(rows: seq<Row>, ticks: seq<Tick>, i: nat, j: nat)
    requires Course(rows, ticks) && i <= j < |rows| && rows[i].status == Withdrawn
    ensures rows[j].status == Withdrawn
    decreases j
  {
    if i < j {
      WithdrawnStays(rows, ticks, i, j - 1);
    }
  }

  /** As minutes arrive, a decided `reached` never flips and the first hit never moves later, whatever ticks lie
      in between; only withdrawal takes a verdict back. */
  lemma {:induction false} VerdictNeverFlips(rows: seq<Row>, ticks: seq<Tick>, i: nat, j: nat)
    requires Course(rows, ticks) && Growing(ticks, rows[0].subject) && i <= j < |rows| && rows[i].result.Some?
    ensures rows[j].status == Withdrawn
            || (rows[j].result.Some? && Keeps(rows[i].result.value, rows[j].result.value))
    decreases j
  {
    if i < j {
      VerdictNeverFlips(rows, ticks, i, j - 1);
      if rows[j - 1].status == Withdrawn {
        WithdrawnStays(rows, ticks, j - 1, j);
      } else {
        TickKeepsVerdict(rows, ticks, j - 1);
      }
    }
  }

  // ---- The desk ----

  lemma {:induction false} ReplayIsValid(log: seq<Message>)
    requires forall m :: m in log ==> ValidMessage(m)
    ensures Keyed(Replay(log)) && forall t :: t in Replay(log) ==> ValidBar(Replay(log)[t])
  {
    if log != [] {
      var last := log[|log| - 1];
      ReplayIsValid(log[..|log| - 1]);
      ByStartContents(last.bars);
      assert last in log;
    }
  }

  /** The bars of a dictionary, listed. */
  ghost predicate Lists(bars: seq<Bar>, m: map<Time, Bar>) {
    DistinctStarts(bars) && forall b :: b in bars <==> b.start in m && m[b.start] == b
  }

  /** Rebuilding from a longer prefix of the same log loses no minute, unless a replacement came in between. */
  lemma PrefixesArrive(log: seq<Message>, k: nat, n: nat, bars: seq<Bar>, more: seq<Bar>)
    requires k <= n <= |log| && (forall i :: k <= i < n ==> !log[i].replacing)
    requires Lists(bars, Replay(log[..k])) && Lists(more, Replay(log[..n])) && Keyed(Replay(log[..n]))
    ensures NoMinuteLost(bars, more)
  {
    ReplayKeepsMinutes(log, k, n);
    var later := Replay(log[..n]);
    forall b | b in bars ensures HasMinute(more, b.start) {
      assert b.start in later;
      assert later[b.start] in more;
    }
  }

  /** A scoring from the batches that have arrived. */
  ghost function TickFrom(
    superseded: Option<Time>, bars: seq<Bar>, rows: seq<Message>, k: nat, now: Time): Tick
    requires k <= |rows|
  {
    var r := Summary(rows[..k]);
    Score(superseded, bars, r.final, r.failure, r.replaced, r.fallback, now)
  }

  function Lookup<V>(m: map<Id, V>, id: Id): Option<V> {
    if id in m then Some(m[id]) else None
  }

  /** Assets without a calendar are not evaluated; a calendar may not support the session, or give it. */
  datatype Coverage = NoCalendar | Unsupported | Session(request: Request)

  class Desk {
    var streams: map<Id, Request>
    var batches: map<Id, Table>
    var evaluations: map<Id, Row>
    var withdrawals: map<Id, Time>
    const currencies: Id -> string

    ghost function TableAt(id: Id): Table
      reads this
    {
      if id in batches then batches[id] else map[]
    }

    constructor (currencies: Id -> string)
      ensures streams == map[] && batches == map[] && evaluations == map[] && withdrawals == map[]
      ensures this.currencies == currencies
    {
      this.currencies := currencies;
      streams, batches, evaluations, withdrawals := map[], map[], map[], map[];
    }

    /** A message is dropped, refused, stored or recognised; a stored revision never changes. */
    method Observe(m: Message) returns (reply: Reply)
      modifies this`batches
      ensures m.stream !in streams ==> reply == Orphaned && batches == old(batches)
      ensures m.stream in streams ==>
                (TableAt(m.stream), reply)
                == Receive(old(TableAt(m.stream)), m, streams[m.stream], currencies(streams[m.stream].asset))
      ensures forall id :: id != m.stream ==> TableAt(id) == old(TableAt(id))
      ensures forall r :: r in old(TableAt(m.stream)) ==>
                            r in TableAt(m.stream) && TableAt(m.stream)[r] == old(TableAt(m.stream))[r]
    {
      if m.stream !in streams {
        return Orphaned;
      }
      var stream := streams[m.stream];
      var complaint := Complaint(m, stream, currencies(stream.asset));
      if complaint.Some? {
        return Refused(complaint.value);
      }
      var table: Table := if m.stream in batches then batches[m.stream] else map[];
      if m.revision !in table {
        batches := batches[m.stream := table[m.revision := m]];
        return Stored;
      }
      reply := if SameContent(table[m.revision], m) then Repeated else Refused("conflicting intraday revision");
    }

    /** A newer prediction replaces an older one: remembered for messages in the wrong order, and applied at
        once if the older one is already here. */
    method Withdraw(prior: Id, decisionAt: Time)
      modifies this`withdrawals, this`evaluations
      ensures withdrawals == old(withdrawals)[prior :=
                if prior in old(withdrawals) && old(withdrawals)[prior] < decisionAt
                then old(withdrawals)[prior] else decisionAt]
      ensures evaluations.Keys == old(evaluations).Keys
      ensures forall id :: id in evaluations ==>
                             evaluations[id] == if id == prior then After(old(evaluations)[id], Supersede(decisionAt))
                                                else old(evaluations)[id]
    {
      if prior !in withdrawals || decisionAt < withdrawals[prior] {
        withdrawals := withdrawals[prior := decisionAt];
      }
      if prior in evaluations {
        var row := evaluations[prior];
        if row.stream.Some? && row.subject.window.opens >= decisionAt {
          evaluations := evaluations[prior := row.(status := Withdrawn, result := Some(SUPERSEDED))];
        }
      }
    }

    /** A prediction on a covered asset is evaluated once; its stream is requested once. */
    method OpenEvaluation(id: Id, subject: Case, coverage: Coverage) returns (asked: bool)
      modifies this`streams, this`evaluations
      ensures id in old(evaluations) || coverage.NoCalendar? ==>
                evaluations == old(evaluations) && streams == old(streams) && !asked
      ensures asked <==> id !in old(evaluations) && coverage.Session? && coverage.request.stream !in old(streams)
      ensures streams == if asked then old(streams)[coverage.request.stream := coverage.request] else old(streams)
      ensures id !in old(evaluations) && !coverage.NoCalendar? ==>
                evaluations == old(evaluations)[id :=
                  if coverage.Session? then Row(subject, Some(coverage.request.stream), Pending, None)
                  else Row(subject, None, Unscorable, Some(Refuse("UNSUPPORTED_CALENDAR")))]
    {
      asked := false;
      if coverage.NoCalendar? || id in evaluations {
        return;
      }
      if coverage.Session? {
        var request := coverage.request;
        if request.stream !in streams {
          streams := streams[request.stream := request];
          asked := true;
        }
        evaluations := evaluations[id := Row(subject, Some(request.stream), Pending, None)];
      } else {
        evaluations := evaluations[id := Row(subject, None, Unscorable, Some(Refuse("UNSUPPORTED_CALENDAR")))];
      }
    }

    method ScoreRow(row: Row, superseded: Option<Time>, bars: seq<Bar>, r: Rebuilt, now: Time) returns (result: Outcome)
      requires forall b :: b in bars ==> ValidBar(b)
      ensures result == Scoring(row, Score(superseded, bars, r.final, r.failure, r.replaced, r.fallback, now))
    {
      if superseded.Some? && superseded.value <= row.subject.window.opens {
        return SUPERSEDED;
      }
      var final, failure := r.final, r.failure;
      if now > row.subject.window.closes + PATIENCE && !final {
        final, failure := true, Some("OBSERVATION_DEADLINE_EXPIRED");
      }
      var previous := row.result;
      if r.replaced && previous.Some? && previous.value.basis == LastKnownPrice {
        previous := None;
      }
      result := Evaluate(row.subject, bars, final, failure, previous);
      result := result.(fallback := r.fallback);
    }

    /** Score one open evaluation from the rows a query returned for its stream. */
    method ScoreOne(id: Id, rows: seq<Message>, now: Time) returns (k: nat, ghost bars: seq<Bar>)
      requires id in evaluations && forall m :: m in rows ==> ValidMessage(m)
      modifies this`evaluations
      ensures Used(rows, k) && Lists(bars, Summary(rows[..k]).bars)
      ensures var tick := TickFrom(Lookup(withdrawals, id), bars, rows, k, now);
              WellFormed(tick) && evaluations == old(evaluations)[id := After(old(evaluations)[id], tick)]
    {
      var row := evaluations[id];
      var r;
      r, k := Rebuild(rows);
      ReplayIsValid(rows[..k]);
      var listed := SortedByStart(r.bars);
      bars := listed;
      if row.status != Pending {
        return;
      }
      var result := ScoreRow(row, Lookup(withdrawals, id), listed, r, now);
      evaluations := evaluations[id := row.(status := result.status, result := Some(result))];
    }
  }
}
