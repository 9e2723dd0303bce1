/**
 Market sessions on a local calendar: which session a decision is measured from (baseline) and
 which one settles it, without looking ahead of the decision instant.
 */
module Sessions {

  // Calendar dates count days from some Monday; instants are UTC seconds.
  type Day = int
  type Instant = int

  /** One market's clock: the local date of an instant, and the instant at which the local session
      of a date is complete (its closing wall-clock converted to UTC). */
  datatype Market = Market(localDate: Instant -> Day, completedAt: Day -> Instant)

  /** The local date never goes backwards, sessions complete in the order of their dates, and none completes
      before its own date. */
  ghost predicate Orderly(market: Market) {
    && (forall s, t :: s <= t ==> market.localDate(s) <= market.localDate(t))
    && (forall d, e :: d <= e ==> market.completedAt(d) <= market.completedAt(e))
    && (forall d :: market.localDate(market.completedAt(d)) >= d)
  }

  /** The zone never skipped a date, so a closing wall-clock falls on its own date. */
  ghost predicate SkipsNoDate(market: Market) {
    forall d :: market.localDate(market.completedAt(d)) == d
  }

  const MONDAY := 0
  const FRIDAY := 4
  const SATURDAY := 5
  const SUNDAY := 6

  predicate IsTradingDay(day: Day) {
    day % 7 < 5
  }

  predicate IsSessionComplete(market: Market, session: Day, now: Instant) {
    market.completedAt(session) <= now
  }

  lemma GapBefore(cursor: Day, day: Day)
    requires cursor < day && IsTradingDay(cursor) && forall d :: cursor < d < day ==> !IsTradingDay(d)
    ensures day - cursor == if day % 7 == MONDAY then 3 else if day % 7 == SUNDAY then 2 else 1
  {
    assert cursor < day - 1 ==> !IsTradingDay(day - 1);
    assert cursor < day - 2 ==> !IsTradingDay(day - 2);
    assert cursor < day - 3 ==> !IsTradingDay(day - 3);
  }

  lemma GapAfter(day: Day, cursor: Day)
    requires day < cursor && IsTradingDay(cursor) && forall d :: day < d < cursor ==> !IsTradingDay(d)
    ensures cursor - day == if day % 7 == FRIDAY then 3 else if day % 7 == SATURDAY then 2 else 1
  {
    assert day + 1 < cursor ==> !IsTradingDay(day + 1);
    assert day + 2 < cursor ==> !IsTradingDay(day + 2);
    assert day + 3 < cursor ==> !IsTradingDay(day + 3);
  }

  method PreviousSession(day: Day) returns (cursor: Day)
    ensures cursor < day && IsTradingDay(cursor)
    ensures forall d :: cursor < d < day ==> !IsTradingDay(d)
    ensures day - cursor == if day % 7 == MONDAY then 3 else if day % 7 == SUNDAY then 2 else 1
  {
    cursor := day - 1;
    while !IsTradingDay(cursor)
      invariant cursor < day
      invariant forall d :: cursor < d < day ==> !IsTradingDay(d)
      decreases cursor % 7
    {
      cursor := cursor - 1;
    }
    GapBefore(cursor, day);
  }

  method NextSession(day: Day) returns (cursor: Day)
    ensures day < cursor && IsTradingDay(cursor)
    ensures forall d :: day < d < cursor ==> !IsTradingDay(d)
    ensures cursor - day == if day % 7 == FRIDAY then 3 else if day % 7 == SATURDAY then 2 else 1
  {
    cursor := day + 1;
    while !IsTradingDay(cursor)
      invariant day < cursor
      invariant forall d :: day < d < cursor ==> !IsTradingDay(d)
      decreases if IsTradingDay(cursor) then 0 else 7 - cursor % 7
    {
      cursor := cursor + 1;
    }
    GapAfter(day, cursor);
  }

  /** The baseline is the last trading session complete at the decision; the settlement is the
      very next trading session, and it is still open at the decision. */
  ghost predicate Resolved(market: Market, decisionAt: Instant, baseline: Day, settlement: Day) {
    && IsTradingDay(baseline)
    && IsSessionComplete(market, baseline, decisionAt)
    && (forall d :: IsTradingDay(d) && IsSessionComplete(market, d, decisionAt) ==> d <= baseline)
    && baseline < settlement
    && IsTradingDay(settlement)
    && (forall d :: baseline < d < settlement ==> !IsTradingDay(d))
    && !IsSessionComplete(market, settlement, decisionAt)
  }

  /** Sessions dated after the local date are not complete; those dated before it are, unless the zone skipped
      a date. */
  lemma CompletionFollowsTheCalendar(market: Market, session: Day, now: Instant)
    requires Orderly(market)
    ensures IsSessionComplete(market, session, market.completedAt(session))
    ensures !IsSessionComplete(market, session, market.completedAt(session) - 1)
    ensures market.localDate(now) < session ==> !IsSessionComplete(market, session, now)
    ensures SkipsNoDate(market) && session < market.localDate(now) ==> IsSessionComplete(market, session, now)
  {
    var closing := market.completedAt(session);
    assert market.localDate(closing) >= session;
    assert now <= closing ==> market.localDate(now) <= market.localDate(closing);
    assert closing <= now ==> market.localDate(closing) <= market.localDate(now);
    if SkipsNoDate(market) {
      assert market.localDate(closing) == session;
    }
  }

  /** The last trading day up to a date. */
  ghost predicate LastTradingDay(day: Day, today: Day) {
    day <= today && IsTradingDay(day) && forall d :: day < d <= today ==> !IsTradingDay(d)
  }

  /** The trading day before another. */
  ghost predicate Precedes(before: Day, day: Day) {
    before < day && IsTradingDay(before) && forall d :: before < d < day ==> !IsTradingDay(d)
  }

  /** Two sessions are enough: the one of the local date, or the one before it, is complete. */
  ghost predicate OneOfTwoComplete(market: Market, now: Instant) {
    forall last, before :: LastTradingDay(last, market.localDate(now)) && Precedes(before, last) ==>
      IsSessionComplete(market, last, now) || IsSessionComplete(market, before, now)
  }

  /** Without look-ahead, exactly when the session of the local date or the one before it is complete. */
  method ResolveBaselineSettlement(market: Market, decisionAt: Instant)
    returns (baseline: Day, settlement: Day)
    requires Orderly(market)
    ensures Resolved(market, decisionAt, baseline, settlement) <==> OneOfTwoComplete(market, decisionAt)
    ensures SkipsNoDate(market) ==> Resolved(market, decisionAt, baseline, settlement)
    ensures baseline < settlement && !IsSessionComplete(market, settlement, decisionAt)
  {
    var last := TradingDayUpTo(market.localDate(decisionAt));
    baseline := last;
    if !IsSessionComplete(market, last, decisionAt) {
      baseline := PreviousSession(last);
    }
    settlement := NextSession(baseline);
    ResolutionExactly(market, decisionAt, last, baseline, settlement);
  }

  method TradingDayUpTo(today: Day) returns (day: Day)
    ensures LastTradingDay(day, today)
  {
    day := today;
    while !IsTradingDay(day)
      invariant day <= today
      invariant forall d :: day < d <= today ==> !IsTradingDay(d)
      decreases day % 7
    {
      day := day - 1;
    }
  }

  lemma ResolutionExactly(market: Market, now: Instant, last: Day, baseline: Day, settlement: Day)
    requires Orderly(market) && LastTradingDay(last, market.localDate(now))
    requires if IsSessionComplete(market, last, now) then baseline == last else Precedes(baseline, last)
    requires Precedes(baseline, settlement) && IsTradingDay(settlement)
    ensures Resolved(market, now, baseline, settlement) <==> OneOfTwoComplete(market, now)
    ensures SkipsNoDate(market) ==> Resolved(market, now, baseline, settlement)
    ensures !IsSessionComplete(market, settlement, now)
  {
    if IsSessionComplete(market, last, now) {
      CompletionFollowsTheCalendar(market, settlement, now);
      assert forall l :: LastTradingDay(l, market.localDate(now)) ==> l == last;
    } else {
      assert settlement == last;
      CompletionFollowsTheCalendar(market, baseline, now);
      assert forall l, b :: LastTradingDay(l, market.localDate(now)) && Precedes(b, l) ==> l == last && b == baseline;
      assert LastTradingDay(last, market.localDate(now)) && Precedes(baseline, last);
    }
    forall d | d > market.localDate(now) ensures !IsSessionComplete(market, d, now) {
      CompletionFollowsTheCalendar(market, d, now);
    }
  }

  /** A zone that skips the fourth of five weekdays: days of ten seconds, sessions complete at the fifth. */
  const SKIPPING := Market(
    t => if t < 30 then t / 10 else t / 10 + 1,
    d => if d < 3 then 10 * d + 5 else if d == 3 then 35 else 10 * (d - 1) + 5)

  /** On the morning after a skipped weekday neither candidate session is complete, and the baseline looks ahead. */
  lemma SkippedDateLooksAhead(baseline: Day, settlement: Day)
    requires LastTradingDay(4, SKIPPING.localDate(31)) && Precedes(baseline, 4) && Precedes(baseline, settlement)
    ensures Orderly(SKIPPING) && !SkipsNoDate(SKIPPING)
    ensures !IsSessionComplete(SKIPPING, 4, 31) && baseline == 3 && !IsSessionComplete(SKIPPING, baseline, 31)
    ensures !Resolved(SKIPPING, 31, baseline, settlement)
  {
    assert IsTradingDay(3);
    assert SKIPPING.localDate(SKIPPING.completedAt(3)) == 4;
  }

  /** The resolution is unique, and a later decision never moves either session backwards. */
  lemma ResolutionIsMonotone(market: Market, t1: Instant, b1: Day, s1: Day, t2: Instant, b2: Day, s2: Day)
    requires t1 <= t2
    requires Resolved(market, t1, b1, s1) && Resolved(market, t2, b2, s2)
    ensures b1 <= b2 && s1 <= s2
    ensures t1 == t2 ==> b1 == b2 && s1 == s2
    ensures b1 < b2 ==> s1 <= b2
  {
    assert IsSessionComplete(market, b1, t2);
  }
}
