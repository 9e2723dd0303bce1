/**
 The intraday messages shared by Market Data and Verification, with the validation their schemas
 enforce. Times are whole seconds; prices are exact.
 */
module IntradayTypes {
  import opened Wrappers

  type Id = string
  type Time = int

  const MINUTE: Time := 60

  function MinuteOf(t: Time): (m: Time)
    ensures m <= t < m + MINUTE && m % MINUTE == 0
  {
    t - t % MINUTE
  }

  /** A point of the grid of a given cadence. */
  predicate IsSlot(from: Time, interval: nat, t: Time) {
    interval > 0 && (t - from) % interval == 0
  }

  datatype Quality = Fresh | FreshnessUnknown | Stale | SessionMismatch

  predicate Usable(q: Quality) {
    q == Fresh || q == FreshnessUnknown
  }

  /** The original observation behind a derived minute. */
  datatype Sample = Sample(
    id: Id, scheduledAt: Time, observedAt: Time, expiresAt: Time, interval: nat,
    mapping: string, currency: string, quotedAt: Option<Time>, quality: Quality)

  predicate ValidSample(s: Sample) {
    && (s.interval == 600 || s.interval == 900)
    && s.scheduledAt <= s.observedAt < s.expiresAt
    && s.observedAt - s.scheduledAt <= 120
    && s.expiresAt - s.scheduledAt <= s.interval
    && (s.quotedAt.Some? ==> s.quotedAt.value <= s.observedAt)
    && Usable(s.quality)
    && (s.quality == Fresh ==> s.quotedAt.Some?)
  }

  /** A completed minute, or a last-known sample carried over a minute. */
  datatype Bar = Bar(
    start: Time, open: real, high: real, low: real, close: real, sample: Option<Sample>, carried: bool)

  predicate ValidBar(b: Bar) {
    && b.start % MINUTE == 0
    && 0.0 < b.low <= b.open <= b.high
    && b.low <= b.close <= b.high
    && (b.carried ==> b.sample.Some?)
    && (b.sample.Some? ==>
          && ValidSample(b.sample.value)
          && b.open == b.high == b.low == b.close
          && MinuteOf(b.sample.value.observedAt) <= b.start < b.sample.value.expiresAt
          && (b.carried <==> b.start > MinuteOf(b.sample.value.observedAt)))
  }

  datatype PricePolicy = ProviderMinute | LastKnownPrice

  /** One regular session of one asset, requested by Verification. */
  datatype Request = Request(
    stream: Id, asset: Id, registry: string, opens: Time, closes: Time, policy: PricePolicy)

  predicate ValidRequest(r: Request) {
    && 0 < r.closes - r.opens <= 86400
    && (r.closes - r.opens) % MINUTE == 0
    && r.opens % MINUTE == 0
  }

  /** Sampled price pages, or finance charts. */
  datatype Source = Pages | Charts

  /** One revision of a stream: additions and corrections, or a whole replacement. */
  datatype Message = Message(
    stream: Id, asset: Id, registry: string, occurredAt: Time, revision: nat, bars: seq<Bar>,
    final: bool, failure: Option<string>, source: Source, fallback: Option<string>, replacing: bool)

  predicate ValidMessage(m: Message) {
    && m.revision >= 1
    && |m.bars| <= 1500
    && (forall b :: b in m.bars ==> ValidBar(b))
  }

  /** Absent and empty reasons are both no reason. */
  predicate Given(reason: Option<string>) {
    reason.Some? && reason.value != ""
  }

  // ---- Bars by their start ----

  ghost predicate Keyed(m: map<Time, Bar>) {
    forall t :: t in m ==> m[t].start == t
  }

  predicate Ascending(bars: seq<Bar>) {
    forall i, j :: 0 <= i < j < |bars| ==> bars[i].start < bars[j].start
  }

  predicate DistinctStarts(bars: seq<Bar>) {
    forall i, j :: 0 <= i < j < |bars| ==> bars[i].start != bars[j].start
  }

  /** The bars as a dictionary; the last bar of a minute wins. */
  function ByStart(bars: seq<Bar>): map<Time, Bar> {
    if bars == [] then map[]
    else ByStart(bars[..|bars| - 1])[bars[|bars| - 1].start := bars[|bars| - 1]]
  }

  lemma {:induction false} ByStartContents(bars: seq<Bar>)
    ensures Keyed(ByStart(bars))
    ensures forall t :: t in ByStart(bars) ==> ByStart(bars)[t] in bars
    ensures forall b :: b in bars ==> b.start in ByStart(bars)
  {
    if bars != [] {
      ByStartContents(bars[..|bars| - 1]);
      forall b | b in bars ensures b.start in ByStart(bars) {
        if b != bars[|bars| - 1] {
          assert b in bars[..|bars| - 1];
        }
      }
    }
  }

  /** Where a minute belongs among ascending bars. */
  function Place(bars: seq<Bar>, t: Time): (k: nat)
    requires Ascending(bars)
    ensures k <= |bars|
    ensures forall i :: 0 <= i < k ==> bars[i].start < t
    ensures forall i :: k <= i < |bars| ==> bars[i].start >= t
  {
    if bars == [] || bars[|bars| - 1].start < t then |bars| else Place(bars[..|bars| - 1], t)
  }

  method InsertByStart(bars: seq<Bar>, b: Bar) returns (r: seq<Bar>)
    requires Ascending(bars) && (forall x :: x in bars ==> x.start != b.start)
    ensures Ascending(r) && |r| == |bars| + 1
    ensures forall x :: x in r <==> x in bars || x == b
  {
    var k := Place(bars, b.start);
    r := bars[..k] + [b] + bars[k..];
    assert bars == bars[..k] + bars[k..];
    if k < |bars| {
      assert bars[k] in bars;
    }
  }

  lemma EmptyWithoutMembers(times: set<Time>)
    ensures (forall t :: t !in times) ==> times == {}
  {
    if forall t :: t !in times {
      assert times == {};
    }
  }

  method AnyOf(times: set<Time>) returns (t: Time)
    requires times != {}
    ensures t in times
  {
    EmptyWithoutMembers(times);
    t :| t in times;
  }

  /** The values of a dictionary in the order of their minutes. */
  method SortedByStart(m: map<Time, Bar>) returns (bars: seq<Bar>)
    requires Keyed(m)
    ensures Ascending(bars) && |bars| == |m|
    ensures forall b :: b in bars <==> b.start in m && m[b.start] == b
  {
    bars := [];
    var rest: set<Time> := m.Keys;
    while rest != {}
      invariant rest <= m.Keys && Ascending(bars)
      invariant |bars| == |m.Keys| - |rest|
      invariant forall b :: b in bars <==> b.start in m && b.start !in rest && m[b.start] == b
      decreases |rest|
    {
      var t := AnyOf(rest);
      bars := InsertByStart(bars, m[t]);
      rest := rest - {t};
    }
  }
}
