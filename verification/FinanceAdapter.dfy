/** Minute bars from a finance chart: what is kept, what is skipped, and what invalidates the whole chart. */
module FinanceAdapter {
  import opened Wrappers
  import opened IntradayTypes

  /** Parallel arrays; a missing price marks a minute without trades. */
  datatype Chart = Chart(
    stamps: seq<Time>, open: seq<Option<real>>, high: seq<Option<real>>, low: seq<Option<real>>,
    close: seq<Option<real>>)

  predicate WellShaped(c: Chart) {
    |c.open| == |c.high| == |c.low| == |c.close| == |c.stamps|
  }

  /** A completed minute of the session with all four prices. */
  predicate Kept(c: Chart, i: nat, opens: Time, closes: Time, now: Time)
    requires WellShaped(c) && i < |c.stamps|
  {
    && opens <= c.stamps[i] < closes
    && c.stamps[i] + MINUTE <= now
    && c.open[i].Some? && c.high[i].Some? && c.low[i].Some? && c.close[i].Some?
  }

  function BarAt(c: Chart, i: nat): Bar
    requires WellShaped(c) && i < |c.stamps|
    requires c.open[i].Some? && c.high[i].Some? && c.low[i].Some? && c.close[i].Some?
  {
    Bar(c.stamps[i], c.open[i].value, c.high[i].value, c.low[i].value, c.close[i].value, None, false)
  }

  /** Every kept minute is a valid bar, and a minute given twice is given the same both times. */
  ghost predicate Consistent(c: Chart, n: nat, opens: Time, closes: Time, now: Time)
    requires WellShaped(c) && n <= |c.stamps|
  {
    && (forall i :: 0 <= i < n && Kept(c, i, opens, closes, now) ==> ValidBar(BarAt(c, i)))
    && (forall i, j :: 0 <= i < j < n && Kept(c, i, opens, closes, now) && Kept(c, j, opens, closes, now) ==>
                         c.stamps[i] == c.stamps[j] ==> BarAt(c, i) == BarAt(c, j))
  }

  ghost predicate FromChart(b: Bar, c: Chart, n: nat, opens: Time, closes: Time, now: Time)
    requires WellShaped(c) && n <= |c.stamps|
  {
    exists i :: 0 <= i < n && Kept(c, i, opens, closes, now) && b == BarAt(c, i)
  }

  /** What Verification may rely on for provider minutes of a session. */
  ghost predicate FinanceMinute(b: Bar, opens: Time, closes: Time, now: Time) {
    ValidBar(b) && b.sample.None? && opens <= b.start < closes && b.start + MINUTE <= now
  }

  ghost predicate FinanceMinutes(bars: seq<Bar>, opens: Time, closes: Time, now: Time) {
    DistinctStarts(bars) && forall b :: b in bars ==> FinanceMinute(b, opens, closes, now)
  }

  /** The kept minutes in order, each once; the chart is refused exactly when it is inconsistent. */
  ghost predicate IsFiltered(c: Chart, opens: Time, closes: Time, now: Time, r: Result<seq<Bar>, string>) {
    && (c.stamps == [] ==> r == Success([]))
    && (c.stamps != [] ==>
          (r.Success? <==> WellShaped(c) && Consistent(c, |c.stamps|, opens, closes, now)))
    && (r.Success? ==> Ascending(r.value) && FinanceMinutes(r.value, opens, closes, now))
    && (r.Success? && c.stamps != [] ==>
          forall b :: b in r.value <==> FromChart(b, c, |c.stamps|, opens, closes, now))
  }

  method Filter(c: Chart, opens: Time, closes: Time, now: Time) returns (r: Result<seq<Bar>, string>)
    ensures IsFiltered(c, opens, closes, now, r)
  {
    if c.stamps == [] {
      return Success([]);
    }
    if !WellShaped(c) {
      return Failure("intraday OHLC length mismatch");
    }
    var bars: map<Time, Bar> := map[];
    for i := 0 to |c.stamps|
      invariant Keyed(bars) && Consistent(c, i, opens, closes, now)
      invariant forall b: Bar :: (b.start in bars && bars[b.start] == b) <==> FromChart(b, c, i, opens, closes, now)
    {
      if Kept(c, i, opens, closes, now) {
        var bar := BarAt(c, i);
        if !ValidBar(bar) {
          return Failure("malformed intraday chart");
        }
        if bar.start in bars && bars[bar.start] != bar {
          assert FromChart(bars[bar.start], c, i, opens, closes, now);
          return Failure("conflicting duplicate intraday timestamp");
        }
        KeepStep(c, i, opens, closes, now, bars);
        bars := bars[bar.start := bar];
      } else {
        SkipStep(c, i, opens, closes, now);
      }
    }
    var sorted := SortedByStart(bars);
    KeptAreFinance(c, opens, closes, now, sorted);
    r := Success(sorted);
  }

  lemma SkipStep(c: Chart, i: nat, opens: Time, closes: Time, now: Time)
    requires WellShaped(c) && i < |c.stamps| && !Kept(c, i, opens, closes, now)
    ensures Consistent(c, i + 1, opens, closes, now) <==> Consistent(c, i, opens, closes, now)
    ensures forall b :: FromChart(b, c, i + 1, opens, closes, now) <==> FromChart(b, c, i, opens, closes, now)
  {
  }

  lemma KeepStep(c: Chart, i: nat, opens: Time, closes: Time, now: Time, bars: map<Time, Bar>)
    requires WellShaped(c) && i < |c.stamps| && Kept(c, i, opens, closes, now)
    requires Keyed(bars) && Consistent(c, i, opens, closes, now) && ValidBar(BarAt(c, i))
    requires forall b: Bar :: (b.start in bars && bars[b.start] == b) <==> FromChart(b, c, i, opens, closes, now)
    requires c.stamps[i] in bars ==> bars[c.stamps[i]] == BarAt(c, i)
    ensures Consistent(c, i + 1, opens, closes, now)
    ensures forall b: Bar ::
              (b.start in bars[c.stamps[i] := BarAt(c, i)] && bars[c.stamps[i] := BarAt(c, i)][b.start] == b)
              <==> FromChart(b, c, i + 1, opens, closes, now)
  {
    forall k | 0 <= k < i && Kept(c, k, opens, closes, now) && c.stamps[k] == c.stamps[i]
      ensures BarAt(c, k) == BarAt(c, i)
    {
      assert FromChart(BarAt(c, k), c, i, opens, closes, now);
    }
    forall b: Bar
      ensures (b.start in bars[c.stamps[i] := BarAt(c, i)] && bars[c.stamps[i] := BarAt(c, i)][b.start] == b)
              <==> FromChart(b, c, i + 1, opens, closes, now)
    {
      assert FromChart(b, c, i + 1, opens, closes, now) <==> FromChart(b, c, i, opens, closes, now) || b == BarAt(c, i);
    }
  }

  lemma KeptAreFinance(c: Chart, opens: Time, closes: Time, now: Time, bars: seq<Bar>)
    requires WellShaped(c) && Consistent(c, |c.stamps|, opens, closes, now) && Ascending(bars)
    requires forall b :: b in bars ==> FromChart(b, c, |c.stamps|, opens, closes, now)
    ensures FinanceMinutes(bars, opens, closes, now)
  {
  }
}
