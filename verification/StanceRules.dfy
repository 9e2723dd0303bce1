/** The rules of the stance table, said from its rows: when a stance is admitted, and what it does to the others. */
module StanceRules {
  import opened Wrappers
  import opened Stances

  /** Row `i` is the stance the asset holds: open, and none of its open rows is more recent. */
  ghost predicate Holds(rows: Table, asset: Asset, i: nat) {
    && i < |rows| && rows[i].asset == asset && rows[i].status == Pending
    && forall j :: 0 <= j < |rows| && rows[j].asset == asset && rows[j].status == Pending ==>
                     rows[j].decidedAt <= rows[i].decidedAt
  }

  ghost predicate HoldsNone(rows: Table, asset: Asset) {
    forall j :: 0 <= j < |rows| && rows[j].asset == asset ==> rows[j].status != Pending
  }

  /** A row of the asset that still stands on a local date. */
  ghost predicate IsStanding(r: Prediction, asset: Asset, day: Day, limits: Limits) {
    r.asset == asset && r.status == Pending && limits.dateOf(asset, r.decidedAt) == day
  }

  ghost function StandingRows(rows: Table, asset: Asset, day: Day, limits: Limits): set<nat> {
    set i: nat | i < |rows| && IsStanding(rows[i], asset, day, limits)
  }

  lemma {:induction false} CountIsCardinality(rows: Table, asset: Asset, day: Day, limits: Limits)
    ensures CountOn(rows, asset, day, limits) == |StandingRows(rows, asset, day, limits)|
  {
    if rows == [] {
      assert StandingRows(rows, asset, day, limits) == {};
    } else {
      var n := |rows| - 1;
      CountIsCardinality(rows[..n], asset, day, limits);
      LastRowStands(rows, asset, day, limits);
      WithLast(StandingRows(rows, asset, day, limits), n);
    }
  }

  lemma WithLast(s: set<nat>, n: nat)
    ensures |s| == |s - {n}| + if n in s then 1 else 0
  {
    if n in s {
      assert s == (s - {n}) + {n};
    } else {
      assert s == s - {n};
    }
  }

  lemma StandsOnMeans(r: Prediction, asset: Asset, day: Day, limits: Limits)
    ensures StandsOn(asset, day, limits)(r) <==> IsStanding(r, asset, day, limits)
  {
    assert IsOpen(r, asset) <==> r.asset == asset && r.status == Pending;
    assert StandsOn(asset, day, limits)(r) ==> IsOpen(r, asset);
    assert StandsOn(asset, day, limits)(r) ==> limits.dateOf(asset, r.decidedAt) == day;
    assert IsOpen(r, asset) && limits.dateOf(asset, r.decidedAt) == day ==> StandsOn(asset, day, limits)(r);
  }

  lemma LastRowStands(rows: Table, asset: Asset, day: Day, limits: Limits)
    requires rows != []
    ensures var n, after := |rows| - 1, StandingRows(rows, asset, day, limits);
            && StandingRows(rows[..n], asset, day, limits) == after - {n}
            && CountOn(rows, asset, day, limits)
               == CountOn(rows[..n], asset, day, limits) + if n in after then 1 else 0
  {
    var n := |rows| - 1;
    StandsOnMeans(rows[n], asset, day, limits);
    forall i: nat | i < n
      ensures i in StandingRows(rows[..n], asset, day, limits) <==> i in StandingRows(rows, asset, day, limits)
    {
      assert rows[..n][i] == rows[i];
    }
  }

  ghost predicate KeyIsNew(rows: Table, key: Key) {
    forall i :: 0 <= i < |rows| ==> rows[i].key != key
  }

  /** The row a stored stance becomes. */
  function Entry(c: Call, supersedes: Option<nat>): Prediction {
    Prediction(c.key.asset, c.direction, c.now, c.key, supersedes, Pending)
  }

  /** The database answers with a stance the asset holds, if it holds any. */
  ghost predicate Picks(rows: Table, c: Call) {
    Holds(rows, c.key.asset, c.pick) || HoldsNone(rows, c.key.asset)
  }


  /** On an open market a stance is admitted exactly when it changes the direction the asset holds, is not a
      propagation against it, and the asset has room left on its local date; nothing is withdrawn. */
  lemma OpenMarketAdmits(rows: Table, c: Call, limits: Limits)
    requires c.open && Picks(rows, c)
    ensures var (after, stored) := Store(rows, c, limits);
            && (stored <==>
                  && KeyIsNew(rows, c.key)
                  && (HoldsNone(rows, c.key.asset)
                      || (c.key.depth == 0 && rows[c.pick].direction != c.direction))
                  && |StandingRows(rows, c.key.asset, limits.dateOf(c.key.asset, c.now), limits)| < limits.cap)
            && after == if stored then rows + [Entry(c, None)] else rows
  {
    CountIsCardinality(rows, c.key.asset, limits.dateOf(c.key.asset, c.now), limits);
    PickIsActive(rows, c);
  }

  /** On a closed market a stance replaces the one the asset holds, whatever its direction; only a propagation against
      it, or a repeated prediction, is turned away. */
  lemma ClosedMarketReplaces(rows: Table, c: Call, limits: Limits)
    requires !c.open && Picks(rows, c)
    ensures var (after, stored) := Store(rows, c, limits);
            && (stored <==>
                  && KeyIsNew(rows, c.key)
                  && (HoldsNone(rows, c.key.asset) || c.key.depth == 0 || rows[c.pick].direction == c.direction))
            && after == if !stored then rows
                        else if HoldsNone(rows, c.key.asset) then rows + [Entry(c, None)]
                        else rows[c.pick := rows[c.pick].(status := Withdrawn)] + [Entry(c, Some(c.pick))]
  {
    PickIsActive(rows, c);
  }

  lemma PickIsActive(rows: Table, c: Call)
    requires Picks(rows, c)
    ensures LatestActive(rows, c.key.asset, c.pick) == if HoldsNone(rows, c.key.asset) then None else Some(c.pick)
  {
    if Holds(rows, c.key.asset, c.pick) {
      assert IsLatest(rows, c.key.asset, c.pick);
    }
  }
}
