/** What Verification demands of an intraday message before it stores it, and how it replays a stream. */
module IntradayContract {
  import opened Wrappers
  import opened IntradayTypes

  predicate InSession(b: Bar, stream: Request) {
    stream.opens <= b.start < stream.closes
  }

  /** The provenance a sampled minute must carry. */
  predicate Provenanced(s: Sample, stream: Request, currency: string, at: Time) {
    && stream.opens <= s.observedAt < stream.closes
    && stream.opens <= s.scheduledAt < stream.closes
    && s.interval > 0 && (s.scheduledAt - stream.opens) % s.interval == 0
    && s.observedAt <= at
    && s.currency == currency
    && s.expiresAt <= stream.closes
  }

  function BarComplaint(b: Bar, m: Message, stream: Request, currency: string): Option<string> {
    if b.sample.Some? then
      if stream.policy != LastKnownPrice || m.source != Pages then
        Some("sampled minutes require last-known policy and Avanza source")
      else if !Provenanced(b.sample.value, stream, currency, m.occurredAt) then
        Some("sampled minute provenance mismatch")
      else None
    else if m.source == Pages then Some("Avanza minute missing sample provenance")
    else None
  }

  /** The first minute that is refused, in the order of the message. */
  function BarsComplaint(bars: seq<Bar>, m: Message, stream: Request, currency: string): Option<string> {
    if bars == [] then None
    else
      var first := BarComplaint(bars[0], m, stream, currency);
      if first.Some? then first else BarsComplaint(bars[1..], m, stream, currency)
  }

  predicate Replaceable(m: Message, stream: Request) {
    m.replacing ==> stream.policy == LastKnownPrice && m.source == Charts && Given(m.fallback)
  }

  /** The checks, in the order they are made. */
  function Complaint(m: Message, stream: Request, currency: string): Option<string> {
    if m.asset != stream.asset || m.registry != stream.registry then Some("intraday stream identity mismatch")
    else if exists b :: b in m.bars && !InSession(b, stream) then Some("intraday bar outside requested session")
    else
      var bad := BarsComplaint(m.bars, m, stream, currency);
      if bad.Some? then bad
      else if !Replaceable(m, stream) then Some("invalid source replacement")
      else if exists b :: b in m.bars && b.start + MINUTE > m.occurredAt then
        Some("intraday bar not yet complete at observation time")
      else if m.final && !Given(m.failure) && m.occurredAt < stream.closes then
        Some("final intraday observation before session close")
      else if !DistinctStarts(m.bars) then Some("duplicate intraday bar timestamp")
      else None
  }

  lemma {:induction false} NoBarComplaint(bars: seq<Bar>, m: Message, stream: Request, currency: string)
    ensures BarsComplaint(bars, m, stream, currency).None?
            <==> forall b :: b in bars ==> BarComplaint(b, m, stream, currency).None?
  {
    if bars != [] {
      assert bars[0] in bars;
      NoBarComplaint(bars[1..], m, stream, currency);
      assert forall b :: b in bars ==> b == bars[0] || b in bars[1..];
    }
  }

  // ---- Replay ----

  /** One revision over the bars before it. */
  function Apply(bars: map<Time, Bar>, m: Message): map<Time, Bar> {
    (if m.replacing then map[] else bars) + ByStart(m.bars)
  }

  /** A stream's revisions in order: clear on replacement, then overwrite by minute. */
  function Replay(log: seq<Message>): map<Time, Bar> {
    if log == [] then map[] else Apply(Replay(log[..|log| - 1]), log[|log| - 1])
  }
}
