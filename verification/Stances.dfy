/**
 The stance table: every stored prediction is a stance of an asset. An open market admits a few
 stances a day; a closed one replaces the latest open stance.
 */
module Stances {
  import opened Wrappers
  import opened Directions

  type Asset = string
  type Instant = int
  type Day = int

  datatype Status = Pending | Withdrawn

  /** Asset, window, context version and propagation depth identify a prediction for replays. */
  datatype Key = Key(asset: Asset, window: Instant, version: nat, depth: nat)

  datatype Prediction = Prediction(
    asset: Asset, direction: Direction, decidedAt: Instant, key: Key, supersedes: Option<nat>, status: Status)

  // A prediction's id is its position in the table.
  type Table = seq<Prediction>

  /** One request to store a stance, with what the outside world answers: whether the asset's market
      is open, and which row the database picks when several are equally recent. */
  datatype Call = Call(key: Key, direction: Direction, now: Instant, open: bool, pick: nat)

  /** The daily cap, and the local date of an instant on each asset's own calendar. */
  datatype Limits = Limits(cap: nat, dateOf: (Asset, Instant) -> Day)

  predicate IsOpen(r: Prediction, asset: Asset) {
    r.asset == asset && r.status == Pending
  }

  /** Row `i` is an open stance of the asset and none is more recent. */
  predicate IsLatest(rows: Table, asset: Asset, i: nat) {
    && i < |rows|
    && IsOpen(rows[i], asset)
    && forall j :: 0 <= j < |rows| && IsOpen(rows[j], asset) ==> rows[j].decidedAt <= rows[i].decidedAt
  }

  function Scan(rows: Table, asset: Asset): (r: Option<nat>)
    ensures r.Some? ==> IsLatest(rows, asset, r.value)
    ensures r.None? ==> forall j :: 0 <= j < |rows| ==> !IsOpen(rows[j], asset)
  {
    if rows == [] then None
    else
      var n := |rows| - 1;
      var r := Scan(rows[..n], asset);
      if IsOpen(rows[n], asset) && (r.None? || rows[r.value].decidedAt <= rows[n].decidedAt) then Some(n) else r
  }

  /** The asset's current stance: any open row of maximal decision time. */
  function LatestActive(rows: Table, asset: Asset, pick: nat): (r: Option<nat>)
    ensures r.Some? ==> IsLatest(rows, asset, r.value)
    ensures r.None? <==> forall j :: 0 <= j < |rows| ==> !IsOpen(rows[j], asset)
    ensures IsLatest(rows, asset, pick) ==> r == Some(pick)
  {
    if IsLatest(rows, asset, pick) then Some(pick) else Scan(rows, asset)
  }

  function Tally(rows: Table, p: Prediction -> bool): nat {
    if rows == [] then 0
    else Tally(rows[..|rows| - 1], p) + if p(rows[|rows| - 1]) then 1 else 0
  }

  function StandsOn(asset: Asset, day: Day, limits: Limits): Prediction -> bool {
    (r: Prediction) => IsOpen(r, asset) && limits.dateOf(asset, r.decidedAt) == day
  }

  function Standing(asset: Asset): Prediction -> bool {
    (r: Prediction) => IsOpen(r, asset)
  }

  /** The stances of the asset that still count on a local date; withdrawn ones do not. */
  function CountOn(rows: Table, asset: Asset, day: Day, limits: Limits): nat {
    Tally(rows, StandsOn(asset, day, limits))
  }

  predicate HasKey(rows: Table, key: Key) {
    exists i :: 0 <= i < |rows| && rows[i].key == key
  }

  /** Inserts a prediction unless its key is known, and withdraws the superseded one if asked to. */
  function Insert(rows: Table, c: Call, supersedes: Option<nat>): (Table, bool)
    requires supersedes.Some? ==> supersedes.value < |rows|
  {
    if HasKey(rows, c.key) then (rows, false)
    else
      var row := Prediction(c.key.asset, c.direction, c.now, c.key, supersedes, Pending);
      var kept := if supersedes.None? then rows
                  else rows[supersedes.value := rows[supersedes.value].(status := Withdrawn)];
      (kept + [row], true)
  }

  /** Why a stance is not stored, or how it is. */
  datatype Plan = Contradicts | Unchanged | LimitReached | Add | Replace

  function PlanFor(rows: Table, c: Call, limits: Limits): Plan {
    var asset := c.key.asset;
    var active := LatestActive(rows, asset, c.pick);
    if c.key.depth > 0 && active.Some? && rows[active.value].direction != c.direction then Contradicts
    else if !c.open then Replace
    else if active.Some? && rows[active.value].direction == c.direction then Unchanged
    else if CountOn(rows, asset, limits.dateOf(asset, c.now), limits) >= limits.cap then LimitReached
    else Add
  }

  function Store(rows: Table, c: Call, limits: Limits): (Table, bool) {
    match PlanFor(rows, c, limits)
    case Add => Insert(rows, c, None)
    case Replace => Insert(rows, c, LatestActive(rows, c.key.asset, c.pick))
    case _ => (rows, false)
  }

  class PredictionRepository {
    var rows: Table

    constructor ()
      ensures rows == []
    {
      rows := [];
    }

    method CountPredictionsOn(asset: Asset, day: Day, limits: Limits) returns (count: nat)
      ensures count == CountOn(rows, asset, day, limits)
    {
      count := 0;
      for i := 0 to |rows|
        invariant count == Tally(rows[..i], StandsOn(asset, day, limits))
      {
        assert rows[..i + 1][..i] == rows[..i];
        if IsOpen(rows[i], asset) && limits.dateOf(asset, rows[i].decidedAt) == day {
          count := count + 1;
        }
      }
      assert rows[..|rows|] == rows;
    }

    /** The insert, the withdrawal of the superseded row and the answer are one transaction. */
    method StorePredictionWithOutbox(c: Call, supersedes: Option<nat>) returns (stored: bool)
      requires supersedes.Some? ==> supersedes.value < |rows|
      modifies this
      ensures (rows, stored) == Insert(old(rows), c, supersedes)
    {
      if HasKey(rows, c.key) {
        return false;
      }
      var row := Prediction(c.key.asset, c.direction, c.now, c.key, supersedes, Pending);
      if supersedes.Some? {
        rows := rows[supersedes.value := rows[supersedes.value].(status := Withdrawn)];
      }
      rows := rows + [row];
      return true;
    }

    method StorePrediction(c: Call, limits: Limits) returns (stored: bool)
      modifies this
      ensures (rows, stored) == Store(old(rows), c, limits)
    {
      var asset := c.key.asset;
      var active := LatestActive(rows, asset, c.pick);
      if c.key.depth > 0 && active.Some? && rows[active.value].direction != c.direction {
        return false;
      }
      var supersedes := None;
      if c.open {
        if active.Some? && rows[active.value].direction == c.direction {
          return false;
        }
        var count := CountPredictionsOn(asset, limits.dateOf(asset, c.now), limits);
        if count >= limits.cap {
          return false;
        }
      } else {
        supersedes := active;
      }
      stored := StorePredictionWithOutbox(c, supersedes);
    }
  }

  // ---- Counting rows ----

  lemma TallyAppend(rows: Table, row: Prediction, p: Prediction -> bool)
    ensures Tally(rows + [row], p) == Tally(rows, p) + if p(row) then 1 else 0
  {
    assert (rows + [row])[..|rows|] == rows;
  }

  lemma {:induction false} TallyUpdate(rows: Table, i: nat, row: Prediction, p: Prediction -> bool)
    requires i < |rows|
    ensures Tally(rows[i := row], p) + (if p(rows[i]) then 1 else 0) == Tally(rows, p) + if p(row) then 1 else 0
  {
    var n := |rows| - 1;
    if i == n {
      assert rows[i := row][..n] == rows[..n];
    } else {
      TallyUpdate(rows[..n], i, row, p);
      assert rows[i := row][..n] == rows[..n][i := row];
    }
  }

  lemma {:induction false} TallyZero(rows: Table, p: Prediction -> bool)
    requires forall i :: 0 <= i < |rows| ==> !p(rows[i])
    ensures Tally(rows, p) == 0
  {
    if rows != [] {
      TallyZero(rows[..|rows| - 1], p);
    }
  }

  /** What a stored stance does to a tally: the new row comes in, the superseded row goes out. */
  lemma InsertTally(rows: Table, c: Call, supersedes: Option<nat>, p: Prediction -> bool)
    requires supersedes.Some? ==> supersedes.value < |rows|
    requires Insert(rows, c, supersedes).1
    requires forall r: Prediction :: r.status == Withdrawn ==> !p(r)
    ensures var row := Prediction(c.key.asset, c.direction, c.now, c.key, supersedes, Pending);
            Tally(Insert(rows, c, supersedes).0, p) ==
            Tally(rows, p)
            - (if supersedes.Some? && p(rows[supersedes.value]) then 1 else 0)
            + (if p(row) then 1 else 0)
  {
    var row := Prediction(c.key.asset, c.direction, c.now, c.key, supersedes, Pending);
    if supersedes.Some? {
      var i := supersedes.value;
      TallyUpdate(rows, i, rows[i].(status := Withdrawn), p);
      TallyAppend(rows[i := rows[i].(status := Withdrawn)], row, p);
    } else {
      TallyAppend(rows, row, p);
    }
  }

  // ---- The daily cap ----

  /** Local dates never go back on any asset's calendar. */
  ghost predicate CalendarMonotone(limits: Limits) {
    forall asset, s, t :: s <= t ==> limits.dateOf(asset, s) <= limits.dateOf(asset, t)
  }

  ghost predicate DecidedBy(rows: Table, now: Instant) {
    forall i :: 0 <= i < |rows| ==> rows[i].decidedAt <= now
  }

  ghost predicate WithinCap(rows: Table, limits: Limits) {
    forall asset, day :: CountOn(rows, asset, day, limits) <= limits.cap
  }

  /** A closed-market store replaces at most one stance; if that stance is of an earlier date, the
      asset had none on the new date. */
  lemma ReplaceKeepsCap(rows: Table, c: Call, limits: Limits, asset: Asset, day: Day)
    requires CalendarMonotone(limits) && limits.cap >= 1
    requires DecidedBy(rows, c.now) && CountOn(rows, asset, day, limits) <= limits.cap
    requires PlanFor(rows, c, limits) == Replace
    ensures CountOn(Store(rows, c, limits).0, asset, day, limits) <= limits.cap
  {
    var active := LatestActive(rows, c.key.asset, c.pick);
    var p := StandsOn(asset, day, limits);
    if Insert(rows, c, active).1 {
      InsertTally(rows, c, active, p);
      if asset == c.key.asset && day == limits.dateOf(asset, c.now) {
        if active.None? || !p(rows[active.value]) {
          forall i | 0 <= i < |rows| ensures !p(rows[i]) {
            if IsOpen(rows[i], asset) {
              assert rows[i].decidedAt <= rows[active.value].decidedAt <= c.now;
              assert limits.dateOf(asset, rows[i].decidedAt) <= limits.dateOf(asset, rows[active.value].decidedAt);
              assert limits.dateOf(asset, rows[active.value].decidedAt) <= limits.dateOf(asset, c.now);
            }
          }
          TallyZero(rows, p);
        }
      }
    }
  }

  lemma StoreKeepsCap(rows: Table, c: Call, limits: Limits)
    requires CalendarMonotone(limits) && limits.cap >= 1
    requires DecidedBy(rows, c.now) && WithinCap(rows, limits)
    ensures WithinCap(Store(rows, c, limits).0, limits)
    ensures DecidedBy(Store(rows, c, limits).0, c.now)
  {
    forall asset, day
      ensures CountOn(Store(rows, c, limits).0, asset, day, limits) <= limits.cap
    {
      assert CountOn(rows, asset, day, limits) <= limits.cap;
      match PlanFor(rows, c, limits)
      case Replace => ReplaceKeepsCap(rows, c, limits, asset, day);
      case Add =>
        if Insert(rows, c, None).1 {
          InsertTally(rows, c, None, StandsOn(asset, day, limits));
        }
      case _ =>
    }
  }

  function Run(rows: Table, calls: seq<Call>, limits: Limits): Table {
    if calls == [] then rows
    else Store(Run(rows, calls[..|calls| - 1], limits), calls[|calls| - 1], limits).0
  }

  ghost predicate InTimeOrder(calls: seq<Call>) {
    forall i, j :: 0 <= i < j < |calls| ==> calls[i].now <= calls[j].now
  }

  lemma {:induction false} RunDecidedBy(calls: seq<Call>, limits: Limits, now: Instant)
    requires forall i :: 0 <= i < |calls| ==> calls[i].now <= now
    ensures DecidedBy(Run([], calls, limits), now)
  {
    if calls != [] {
      RunDecidedBy(calls[..|calls| - 1], limits, now);
    }
  }

  /** However open-market and closed-market stores alternate, no asset ever has more than the capped
      number of standing predictions on one local date. */
  lemma {:induction false} DailyCapHolds(calls: seq<Call>, limits: Limits)
    requires CalendarMonotone(limits) && limits.cap >= 1 && InTimeOrder(calls)
    ensures WithinCap(Run([], calls, limits), limits)
  {
    if calls != [] {
      var before, last := calls[..|calls| - 1], calls[|calls| - 1];
      DailyCapHolds(before, limits);
      RunDecidedBy(before, limits, last.now);
      StoreKeepsCap(Run([], before, limits), last, limits);
    }
  }

  // ---- The closed market ----

  /** A closed-market store never changes how many stances of the asset stand open, except from none
      to one: it leaves exactly one if and only if at most one was open before. */
  lemma ClosedStoreReplacesOne(rows: Table, c: Call, limits: Limits)
    requires !c.open && Store(rows, c, limits).1
    ensures var before := Tally(rows, Standing(c.key.asset));
            Tally(Store(rows, c, limits).0, Standing(c.key.asset)) == if before == 0 then 1 else before
    ensures Tally(Store(rows, c, limits).0, Standing(c.key.asset)) == 1 <==>
            Tally(rows, Standing(c.key.asset)) <= 1
  {
    var active := LatestActive(rows, c.key.asset, c.pick);
    var p := Standing(c.key.asset);
    InsertTally(rows, c, active, p);
    if active.None? {
      TallyZero(rows, p);
    } else {
      TallyUpdate(rows, active.value, rows[active.value].(status := Withdrawn), p);
    }
  }

  const FRIDAY_UP := Call(Key("GOLD", 0, 1, 0), Up, 0, true, 0)
  const FRIDAY_DOWN := Call(Key("GOLD", 1, 1, 0), Down, 1, true, 0)
  const SATURDAY := Call(Key("GOLD", 2, 1, 0), Up, 100000, false, 0)

  lemma FirstFridayStance(limits: Limits)
    requires limits.cap >= 2
    ensures Run([], [FRIDAY_UP], limits) == [Prediction("GOLD", Up, 0, FRIDAY_UP.key, None, Pending)]
  {
    assert [FRIDAY_UP][..0] == [];
    assert !HasKey([], FRIDAY_UP.key);
  }

  lemma SecondFridayStance(limits: Limits)
    requires limits.cap >= 2
    ensures Run([], [FRIDAY_UP, FRIDAY_DOWN], limits) ==
            [Prediction("GOLD", Up, 0, FRIDAY_UP.key, None, Pending),
             Prediction("GOLD", Down, 1, FRIDAY_DOWN.key, None, Pending)]
  {
    FirstFridayStance(limits);
    assert [FRIDAY_UP, FRIDAY_DOWN][..1] == [FRIDAY_UP];
    var r1 := [Prediction("GOLD", Up, 0, FRIDAY_UP.key, None, Pending)];
    TallyAppend([], r1[0], StandsOn("GOLD", limits.dateOf("GOLD", 1), limits));
    assert [] + r1 == r1;
    assert IsLatest(r1, "GOLD", 0);
    assert !HasKey(r1, FRIDAY_DOWN.key);
  }

  lemma TwoOpenStances(first: Prediction, second: Prediction, asset: Asset)
    requires IsOpen(first, asset) && IsOpen(second, asset)
    ensures Tally([first, second], Standing(asset)) == 2
  {
    TallyAppend([], first, Standing(asset));
    TallyAppend([first], second, Standing(asset));
    assert [] + [first] == [first] && [first] + [second] == [first, second];
  }

  /** Two opposite stances of one open day survive the weekend: the closed store withdraws only the
      later one, and two stances are open afterwards. */
  lemma ClosedMarketCanLeaveTwo(limits: Limits)
    requires limits.cap >= 2
    ensures Tally(Run([], [FRIDAY_UP, FRIDAY_DOWN, SATURDAY], limits), Standing("GOLD")) == 2
  {
    var friday := Run([], [FRIDAY_UP, FRIDAY_DOWN], limits);
    assert Tally(friday, Standing("GOLD")) == 2 && !HasKey(friday, SATURDAY.key) by {
      SecondFridayStance(limits);
      TwoOpenStances(friday[0], friday[1], "GOLD");
    }
    assert [FRIDAY_UP, FRIDAY_DOWN, SATURDAY][..2] == [FRIDAY_UP, FRIDAY_DOWN];
    ClosedStoreReplacesOne(friday, SATURDAY, limits);
  }
}
