/**
 Routing one request: providers in priority order, slots in turn, one reservation, one dispatch, one
 finish. Every call to the store and to an adapter is recorded with the answer it got; the answers are
 arbitrary, including cancellation and failure at every point where the engine waits.
 */
module Engine {
  import opened Wrappers
  import opened GatewayStore

  datatype Adapter = Adapter(name: Id, capabilities: set<string>)

  /** What a row says: no row or one that no longer blocks, a blocking reason, or no answer at all. */
  datatype Standing = Open | Shut(reason: Status) | NoStanding

  /** A reservation is granted, refused, or interrupted with its transaction committed or not. */
  datatype Grant = Granted | Denied | Lost(committed: bool)

  datatype Probe = Ready | NotReady(answer: Answer) | ProbeStopped | ProbeFailed

  datatype Execution = Answered(answer: Answer) | ExecutionStopped | ExecutionFailed

  /** Finishing an attempt: done, failed in the store, or cut off by a cancellation, committed or not. */
  datatype Fate = Done | StoreFailed | CutOff(committed: bool)

  datatype Call =
    | Asked(provider: Id, standing: Standing)
    | Tried(provider: Id, attempt: Id, slot: nat, grant: Grant)
    | Probed(provider: Id, slot: nat, probe: Probe)
    | Dispatched(provider: Id, attempt: Id, slot: nat, execution: Execution)
    | Closed(provider: Id, attempt: Id, answer: Answer, fate: Fate)
    | Slept(whole: bool, took: nat)

  datatype Outcome = Unsupported | Expired | Unavailable(status: Status) | Delivered(answer: Answer) | Interrupted

  // ---- Counting calls ----

  /** Reserving and settling mean that the store's transaction committed. */
  datatype Effect = Reserves | Dispatches | Finishes | Settles

  predicate Has(c: Call, e: Effect) {
    match e
    case Reserves => c.Tried? && (c.grant == Granted || c.grant == Lost(true))
    case Dispatches => c.Dispatched?
    case Finishes => c.Closed?
    case Settles => c.Closed? && (c.fate == Done || c.fate == CutOff(true))
  }

  function Count(trace: seq<Call>, e: Effect): nat {
    if trace == [] then 0 else (if Has(trace[0], e) then 1 else 0) + Count(trace[1..], e)
  }

  lemma {:induction false} CountConcat(s: seq<Call>, t: seq<Call>, e: Effect)
    ensures Count(s + t, e) == Count(s, e) + Count(t, e)
  {
    if s == [] {
      assert s + t == t;
    } else {
      assert (s + t)[1..] == s[1..] + t;
      CountConcat(s[1..], t, e);
    }
  }

  lemma {:induction false} QuietCounts(s: seq<Call>, e: Effect)
    requires AllQuiet(s)
    ensures Count(s, e) == 0
  {
    if s != [] {
      assert s[0] in s;
      QuietCounts(s[1..], e);
    }
  }

  // ---- The shape of a route ----

  /** A call that leaves no reservation behind and reaches no provider. */
  predicate Quiet(c: Call) {
    c.Asked? || c.Slept? || (c.Tried? && (c.grant == Denied || c.grant == Lost(false)))
  }

  ghost predicate AllQuiet(trace: seq<Call>) {
    forall c :: c in trace ==> Quiet(c)
  }

  /** How a pass left one provider behind: shut by its row, or with every slot taken. */
  datatype Turn = Skipped(reason: Status) | Full(attempt: Id)

  function Denials(p: Id, attempt: Id, slots: nat): seq<Call> {
    seq(slots, i requires 0 <= i => Tried(p, attempt, i, Denied))
  }

  function TurnCalls(p: Id, turn: Turn, tabs: nat): seq<Call> {
    match turn
    case Skipped(reason) => [Asked(p, Shut(reason))]
    case Full(attempt) => [Asked(p, Open)] + Denials(p, attempt, tabs)
  }

  function PassCalls(eligible: seq<Id>, turns: seq<Turn>, tabs: nat): seq<Call>
    requires |turns| <= |eligible|
  {
    if turns == [] then []
    else PassCalls(eligible, turns[..|turns| - 1], tabs)
         + TurnCalls(eligible[|turns| - 1], turns[|turns| - 1], tabs)
  }

  function Verdict(probe: Probe, execution: Option<Execution>): Answer {
    match probe
    case NotReady(answer) => answer
    case ProbeStopped => Answer(Disconnected, None)
    case ProbeFailed => Answer(SubmissionUnknown, None)
    case Ready =>
      match execution
      case Some(Answered(answer)) => answer
      case _ => Answer(SubmissionUnknown, None)
  }

  /** Cancellation and timeouts propagate, after the attempt is finished behind a shield. */
  predicate Stopped(probe: Probe, execution: Option<Execution>) {
    probe.ProbeStopped? || (probe.Ready? && execution == Some(ExecutionStopped))
  }

  /** What an attempt is closed as. What a provider said is passed on; a provider that was never reached is
      disconnected; and once it may have been reached, anything but an answer leaves the submission unknown. */
  lemma ClosedAs(p: Id, b: Binding, tabs: nat)
    requires ValidBinding(b, tabs)
    ensures var calls := Service(p, b.attempt, b.slot, b.probe, b.execution, b.fate);
            var last := calls[|calls| - 1];
            && last.Closed? && last.provider == p && last.attempt == b.attempt && last.fate == b.fate
            && (b.probe.NotReady? ==> last.answer == b.probe.answer)
            && (b.probe.ProbeStopped? ==> last.answer == Answer(Disconnected, None))
            && (b.probe.ProbeFailed? ==> last.answer == Answer(SubmissionUnknown, None))
            && (b.probe.Ready? ==>
                  && calls[|calls| - 2] == Dispatched(p, b.attempt, b.slot, b.execution.value)
                  && last.answer == match b.execution.value
                                    case Answered(answer) => answer
                                    case ExecutionStopped => Answer(SubmissionUnknown, None)
                                    case ExecutionFailed => Answer(SubmissionUnknown, None))
  {
  }

  /** Everything after the granted reservation. */
  function Service(p: Id, attempt: Id, slot: nat, probe: Probe, execution: Option<Execution>, fate: Fate): seq<Call> {
    [Probed(p, slot, probe)]
    + (if probe.Ready? && execution.Some? then [Dispatched(p, attempt, slot, execution.value)] else [])
    + [Closed(p, attempt, Verdict(probe, execution), fate)]
  }

  /** The provider, slot and answers of a request that obtained its reservation. */
  datatype Binding = Binding(attempt: Id, slot: nat, probe: Probe, execution: Option<Execution>, fate: Fate)

  predicate ValidBinding(b: Binding, tabs: nat) {
    && b.slot < tabs
    && (b.execution.Some? <==> b.probe.Ready?)
    && (b.probe.NotReady? ==> b.probe.answer.status != Succeeded)
    && (Stopped(b.probe, b.execution) ==> !b.fate.CutOff?)
  }

  /** The whole request, when a reservation was granted: earlier passes and earlier providers left nothing
      behind, then the first open provider with a free slot is asked for its lowest free slot. */
  function BoundCalls(quiet: seq<Call>, eligible: seq<Id>, turns: seq<Turn>, tabs: nat, b: Binding): seq<Call>
    requires |turns| < |eligible|
  {
    var p := eligible[|turns|];
    quiet + (PassCalls(eligible, turns, tabs)
             + ([Asked(p, Open)] + Denials(p, b.attempt, b.slot) + [Tried(p, b.attempt, b.slot, Granted)])
             + Service(p, b.attempt, b.slot, b.probe, b.execution, b.fate))
  }

  predicate AllLimited(turns: seq<Turn>) {
    forall t :: t in turns ==> t == Skipped(RateLimited)
  }

  predicate SomeFull(turns: seq<Turn>) {
    exists t :: t in turns && t.Full?
  }

  lemma AppendTurn(turns: seq<Turn>, t: Turn)
    ensures AllLimited(turns + [t]) <==> AllLimited(turns) && t == Skipped(RateLimited)
    ensures SomeFull(turns + [t]) <==> SomeFull(turns) || t.Full?
  {
    assert t in turns + [t];
    forall x | x in turns ensures x in turns + [t] {}
  }

  lemma AppendCalls(eligible: seq<Id>, turns: seq<Turn>, t: Turn, tabs: nat)
    requires |turns| < |eligible|
    ensures PassCalls(eligible, turns + [t], tabs)
            == PassCalls(eligible, turns, tabs) + TurnCalls(eligible[|turns|], t, tabs)
  {
    assert (turns + [t])[..|turns|] == turns;
  }

  lemma {:induction false} PassesAreQuiet(eligible: seq<Id>, turns: seq<Turn>, tabs: nat)
    requires |turns| <= |eligible|
    ensures AllQuiet(PassCalls(eligible, turns, tabs))
  {
    if turns != [] {
      PassesAreQuiet(eligible, turns[..|turns| - 1], tabs);
    }
  }

  lemma CountOne(c: Call, e: Effect)
    ensures Count([c], e) == if Has(c, e) then 1 else 0
  {
    assert [c][1..] == [];
  }

  lemma ServiceCounts(p: Id, b: Binding, tabs: nat, e: Effect)
    requires ValidBinding(b, tabs)
    ensures Count(Service(p, b.attempt, b.slot, b.probe, b.execution, b.fate), e)
            == match e
               case Reserves => 0
               case Dispatches => if b.probe.Ready? then 1 else 0
               case Finishes => 1
               case Settles => if b.fate == Done || b.fate == CutOff(true) then 1 else 0
  {
    var probed := [Probed(p, b.slot, b.probe)];
    var middle := if b.probe.Ready? then [Dispatched(p, b.attempt, b.slot, b.execution.value)] else [];
    var closed := [Closed(p, b.attempt, Verdict(b.probe, b.execution), b.fate)];
    CountConcat(probed + middle, closed, e);
    CountConcat(probed, middle, e);
    CountOne(probed[0], e);
    CountOne(closed[0], e);
    if b.probe.Ready? {
      CountOne(middle[0], e);
    }
  }

  /** A bound request reserved once, finished once, and dispatched exactly when its probe said ready. */
  lemma BoundCounts(quiet: seq<Call>, eligible: seq<Id>, turns: seq<Turn>, tabs: nat, b: Binding, e: Effect)
    requires AllQuiet(quiet) && |turns| < |eligible| && ValidBinding(b, tabs)
    ensures Count(BoundCalls(quiet, eligible, turns, tabs, b), e)
            == match e
               case Dispatches => if b.probe.Ready? then 1 else 0
               case Settles => if b.fate == Done || b.fate == CutOff(true) then 1 else 0
               case _ => 1
  {
    var p := eligible[|turns|];
    PassesAreQuiet(eligible, turns, tabs);
    var pass := PassCalls(eligible, turns, tabs);
    var search := [Asked(p, Open)] + Denials(p, b.attempt, b.slot);
    var grant := Tried(p, b.attempt, b.slot, Granted);
    var service := Service(p, b.attempt, b.slot, b.probe, b.execution, b.fate);
    QuietCounts(quiet, e);
    QuietCounts(pass, e);
    QuietCounts(search, e);
    CountOne(grant, e);
    ServiceCounts(p, b, tabs, e);
    CountConcat(quiet, pass + (search + [grant]) + service, e);
    CountConcat(pass + (search + [grant]), service, e);
    CountConcat(pass, search + [grant], e);
    CountConcat(search, [grant], e);
  }

  // ---- The request ----

  function Eligible(adapters: seq<Adapter>, required: set<string>): seq<Id> {
    if adapters == [] then []
    else (if required <= adapters[0].capabilities then [adapters[0].name] else [])
         + Eligible(adapters[1..], required)
  }

  /** `places` are the adapters that can do all that is required, in the order of their priority. */
  ghost predicate Capable(adapters: seq<Adapter>, required: set<string>, places: seq<nat>) {
    && (forall i, j :: 0 <= i < j < |places| ==> places[i] < places[j])
    && (forall k: nat :: k in places <==> k < |adapters| && required <= adapters[k].capabilities)
  }

  lemma CapableStep(adapters: seq<Adapter>, required: set<string>, rest: seq<nat>, places: seq<nat>)
    requires adapters != [] && Capable(adapters[1..], required, rest)
    requires var first := if required <= adapters[0].capabilities then [0] else [];
             places == first + seq(|rest|, i requires 0 <= i < |rest| => rest[i] + 1)
    ensures Capable(adapters, required, places)
  {
    var shifted := seq(|rest|, i requires 0 <= i < |rest| => rest[i] + 1);
    forall k: nat ensures k in places <==> k < |adapters| && required <= adapters[k].capabilities {
      assert k in places <==> (k == 0 && required <= adapters[0].capabilities) || k in shifted;
      if k > 0 {
        if k - 1 in rest {
          var i :| 0 <= i < |rest| && rest[i] == k - 1;
          assert shifted[i] == k;
        }
        assert k - 1 in rest <==> k - 1 < |adapters[1..]| && required <= adapters[1..][k - 1].capabilities;
      }
    }
  }

  ghost predicate NamesAt(adapters: seq<Adapter>, places: seq<nat>, names: seq<Id>) {
    && |places| == |names|
    && forall i :: 0 <= i < |places| ==> places[i] < |adapters| && adapters[places[i]].name == names[i]
  }

  lemma NamesShift(adapters: seq<Adapter>, rest: seq<nat>, names: seq<Id>, first: seq<nat>, places: seq<nat>)
    requires adapters != [] && NamesAt(adapters[1..], rest, names) && (first == [] || first == [0])
    requires places == first + seq(|rest|, i requires 0 <= i < |rest| => rest[i] + 1)
    ensures NamesAt(adapters, places, (if first == [] then [] else [adapters[0].name]) + names)
  {
    forall i | 0 <= i < |rest| ensures adapters[1..][rest[i]] == adapters[rest[i] + 1] {}
  }

  /** The providers asked are exactly the capable ones, each once, in order. */
  lemma {:induction false} EligibleExactly(adapters: seq<Adapter>, required: set<string>) returns (places: seq<nat>)
    ensures Capable(adapters, required, places) && NamesAt(adapters, places, Eligible(adapters, required))
  {
    if adapters == [] {
      places := [];
    } else {
      var rest := EligibleExactly(adapters[1..], required);
      var first := if required <= adapters[0].capabilities then [0] else [];
      places := first + seq(|rest|, i requires 0 <= i < |rest| => rest[i] + 1);
      CapableStep(adapters, required, rest, places);
      NamesShift(adapters, rest, Eligible(adapters[1..], required), first, places);
    }
  }

  /** A call that was interrupted while the engine waited for its answer. */
  predicate CutShort(c: Call) {
    (c.Asked? && c.standing.NoStanding?) || (c.Tried? && c.grant.Lost?) || (c.Slept? && !c.whole)
  }

  /** A pass that found some provider busy, and how long it took together with the sleep after it. */
  datatype Round = Round(turns: seq<Turn>, took: nat)

  function RoundCalls(eligible: seq<Id>, rounds: seq<Round>, tabs: nat): seq<Call>
    requires forall r :: r in rounds ==> |r.turns| <= |eligible|
  {
    if rounds == [] then []
    else
      var last := rounds[|rounds| - 1];
      RoundCalls(eligible, rounds[..|rounds| - 1], tabs)
      + (PassCalls(eligible, last.turns, tabs) + [Slept(true, last.took)])
  }

  /** Every provider had its turn in every round, and one of them was busy. */
  ghost predicate AllBusy(eligible: seq<Id>, rounds: seq<Round>) {
    forall r :: r in rounds ==> |r.turns| == |eligible| && SomeFull(r.turns)
  }

  function Spent(rounds: seq<Round>): nat {
    if rounds == [] then 0 else Spent(rounds[..|rounds| - 1]) + rounds[|rounds| - 1].took
  }

  /** How a request that never got a reservation was cut off: asking for a row, trying a slot, or asleep. */
  datatype Cut = Asking | Trying(attempt: Id, slot: nat, committed: bool) | Sleeping(took: nat)

  predicate IsCut(eligible: seq<Id>, turns: seq<Turn>, tabs: nat, cut: Cut) {
    match cut
    case Asking => |turns| < |eligible|
    case Trying(_, slot, _) => |turns| < |eligible| && slot < tabs
    case Sleeping(_) => |turns| == |eligible| && SomeFull(turns)
  }

  function CutCalls(eligible: seq<Id>, turns: seq<Turn>, tabs: nat, cut: Cut): seq<Call>
    requires IsCut(eligible, turns, tabs, cut)
  {
    match cut
    case Asking => [Asked(eligible[|turns|], NoStanding)]
    case Trying(attempt, slot, committed) =>
      [Asked(eligible[|turns|], Open)] + Denials(eligible[|turns|], attempt, slot)
      + [Tried(eligible[|turns|], attempt, slot, Lost(committed))]
    case Sleeping(took) => [Slept(false, took)]
  }

  /** A route ends in exactly one of these ways: after rounds that all found someone busy, a last pass binds the
      request, finds everyone shut, is cut off, or is never begun because time is up. */
  ghost predicate Routed(
    eligible: seq<Id>, tabs: nat, outcome: Outcome, trace: seq<Call>,
    rounds: seq<Round>, turns: seq<Turn>, bound: Option<Binding>)
  {
    && AllBusy(eligible, rounds)
    && |turns| <= |eligible|
    && var quiet := RoundCalls(eligible, rounds, tabs);
       && (bound.Some? ==>
             && |turns| < |eligible|
             && ValidBinding(bound.value, tabs)
             && trace == BoundCalls(quiet, eligible, turns, tabs, bound.value))
       && match outcome
          case Unsupported => eligible == [] && trace == []
          case Expired => bound.None? && trace == quiet
          case Unavailable(status) =>
            && bound.None? && eligible != [] && |turns| == |eligible|
            && trace == quiet + PassCalls(eligible, turns, tabs)
            && !SomeFull(turns)
            && status == if AllLimited(turns) then RateLimited else Temporary
          case Delivered(answer) =>
            && bound.Some?
            && answer == Verdict(bound.value.probe, bound.value.execution)
            && !Stopped(bound.value.probe, bound.value.execution)
            && bound.value.fate == Done
          case Interrupted =>
            && (bound.None? ==>
                  exists cut :: IsCut(eligible, turns, tabs, cut)
                                && trace == quiet + (PassCalls(eligible, turns, tabs)
                                                     + CutCalls(eligible, turns, tabs, cut)))
            && (bound.Some? ==> Stopped(bound.value.probe, bound.value.execution) || bound.value.fate != Done)
  }

  lemma {:induction false} RoundsAreQuiet(eligible: seq<Id>, rounds: seq<Round>, tabs: nat)
    requires AllBusy(eligible, rounds)
    ensures AllQuiet(RoundCalls(eligible, rounds, tabs))
  {
    if rounds != [] {
      var last := rounds[|rounds| - 1];
      assert last in rounds;
      RoundsAreQuiet(eligible, rounds[..|rounds| - 1], tabs);
      PassesAreQuiet(eligible, last.turns, tabs);
    }
  }

  lemma RoundAppends(eligible: seq<Id>, rounds: seq<Round>, r: Round, tabs: nat)
    requires AllBusy(eligible, rounds) && |r.turns| == |eligible| && SomeFull(r.turns)
    ensures AllBusy(eligible, rounds + [r])
    ensures RoundCalls(eligible, rounds + [r], tabs)
            == RoundCalls(eligible, rounds, tabs) + (PassCalls(eligible, r.turns, tabs) + [Slept(true, r.took)])
    ensures Spent(rounds + [r]) == Spent(rounds) + r.took
  {
    assert (rounds + [r])[..|rounds|] == rounds;
  }

  lemma CutEndsShort(eligible: seq<Id>, turns: seq<Turn>, tabs: nat, cut: Cut)
    requires IsCut(eligible, turns, tabs, cut)
    ensures var calls := CutCalls(eligible, turns, tabs, cut);
            calls != [] && AllQuiet(calls[..|calls| - 1]) && CutShort(calls[|calls| - 1])
  {
    if cut.Trying? {
      var p := eligible[|turns|];
      var calls := CutCalls(eligible, turns, tabs, cut);
      assert calls[..|calls| - 1] == [Asked(p, Open)] + Denials(p, cut.attempt, cut.slot);
    }
  }

  /** The engine asks only eligible providers for slots, and only for slots they have. */
  predicate WithinReach(trace: seq<Call>, eligible: seq<Id>, tabs: nat) {
    forall c :: c in trace && c.Tried? ==> c.slot < tabs && c.provider in eligible
  }

  /** The reservation or the final write was interrupted at the wrong moment. */
  predicate Abandoned(trace: seq<Call>) {
    trace != [] && var last := trace[|trace| - 1];
    || (last.Tried? && last.grant == Lost(true))
    || (last.Closed? && (last.fate == StoreFailed || last.fate == CutOff(false)))
  }

  function RoutedCount(trace: seq<Call>, bound: Option<Binding>, e: Effect): nat {
    match bound
    case None => if trace != [] && Has(trace[|trace| - 1], e) then 1 else 0
    case Some(b) =>
      match e
      case Dispatches => if b.probe.Ready? then 1 else 0
      case Settles => if b.fate == Done || b.fate == CutOff(true) then 1 else 0
      case _ => 1
  }

  /** Before it is bound, a request only looks; its very last call may be an interrupted reservation. */
  lemma UnboundEndsInSearch(
    eligible: seq<Id>, tabs: nat, outcome: Outcome, trace: seq<Call>, rounds: seq<Round>, turns: seq<Turn>)
    requires Routed(eligible, tabs, outcome, trace, rounds, turns, None)
    requires trace != []
    ensures AllQuiet(trace[..|trace| - 1])
    ensures Quiet(trace[|trace| - 1]) || (outcome.Interrupted? && CutShort(trace[|trace| - 1]))
  {
    var quiet, pass := RoundCalls(eligible, rounds, tabs), PassCalls(eligible, turns, tabs);
    RoundsAreQuiet(eligible, rounds, tabs);
    PassesAreQuiet(eligible, turns, tabs);
    if outcome.Interrupted? {
      var cut :| IsCut(eligible, turns, tabs, cut)
                 && trace == quiet + (pass + CutCalls(eligible, turns, tabs, cut));
      CutEndsShort(eligible, turns, tabs, cut);
      QuietBefore(quiet, pass, CutCalls(eligible, turns, tabs, cut));
    } else {
      AllQuietEnds(quiet, pass, trace);
    }
  }

  lemma QuietBefore(quiet: seq<Call>, pass: seq<Call>, calls: seq<Call>)
    requires AllQuiet(quiet) && AllQuiet(pass) && calls != [] && AllQuiet(calls[..|calls| - 1])
    ensures var trace := quiet + (pass + calls);
            AllQuiet(trace[..|trace| - 1]) && trace[|trace| - 1] == calls[|calls| - 1]
  {
    var trace := quiet + (pass + calls);
    assert trace[..|trace| - 1] == quiet + (pass + calls[..|calls| - 1]);
  }

  lemma AllQuietEnds(quiet: seq<Call>, pass: seq<Call>, trace: seq<Call>)
    requires AllQuiet(quiet) && AllQuiet(pass) && trace != [] && (trace == quiet || trace == quiet + pass)
    ensures AllQuiet(trace[..|trace| - 1]) && Quiet(trace[|trace| - 1])
  {
    assert trace[|trace| - 1] in trace;
  }

  lemma RoutedCounts(
    eligible: seq<Id>, tabs: nat, outcome: Outcome, trace: seq<Call>,
    rounds: seq<Round>, turns: seq<Turn>, bound: Option<Binding>, e: Effect)
    requires Routed(eligible, tabs, outcome, trace, rounds, turns, bound)
    ensures Count(trace, e) == RoutedCount(trace, bound, e)
  {
    if bound.Some? {
      RoundsAreQuiet(eligible, rounds, tabs);
      BoundCounts(RoundCalls(eligible, rounds, tabs), eligible, turns, tabs, bound.value, e);
    } else if trace != [] {
      UnboundEndsInSearch(eligible, tabs, outcome, trace, rounds, turns);
      OnlyLastCounts(trace, e);
    }
  }

  lemma OnlyLastCounts(trace: seq<Call>, e: Effect)
    requires trace != [] && AllQuiet(trace[..|trace| - 1])
    ensures Count(trace, e) == if Has(trace[|trace| - 1], e) then 1 else 0
  {
    var before, last := trace[..|trace| - 1], trace[|trace| - 1];
    assert trace == before + [last];
    CountConcat(before, [last], e);
    QuietCounts(before, e);
    CountOne(last, e);
  }

  lemma {:induction false} SkippedCalls(eligible: seq<Id>, turns: seq<Turn>, tabs: nat)
    requires |turns| <= |eligible| && !SomeFull(turns)
    ensures var calls := PassCalls(eligible, turns, tabs);
            && |calls| == |turns|
            && forall i :: 0 <= i < |turns| ==>
                             turns[i].Skipped? && calls[i] == Asked(eligible[i], Shut(turns[i].reason))
  {
    if turns != [] {
      var n := |turns| - 1;
      assert turns[n] in turns;
      assert !SomeFull(turns[..n]) by {
        forall t | t in turns[..n] ensures !t.Full? {
          assert t in turns;
        }
      }
      SkippedCalls(eligible, turns[..n], tabs);
    }
  }

  /** Every provider was asked, and its row shut it out. */
  ghost predicate AllShut(calls: seq<Call>, eligible: seq<Id>) {
    && |calls| == |eligible|
    && forall i :: 0 <= i < |calls| ==>
                     calls[i].Asked? && calls[i].provider == eligible[i] && calls[i].standing.Shut?
  }

  ghost predicate ShutByLimits(calls: seq<Call>) {
    forall c :: c in calls ==> c.Asked? && c.standing == Shut(RateLimited)
  }

  lemma LimitsShut(eligible: seq<Id>, turns: seq<Turn>, tabs: nat)
    requires |turns| == |eligible| && !SomeFull(turns)
    ensures AllShut(PassCalls(eligible, turns, tabs), eligible)
    ensures AllLimited(turns) <==> ShutByLimits(PassCalls(eligible, turns, tabs))
  {
    var calls := PassCalls(eligible, turns, tabs);
    SkippedCalls(eligible, turns, tabs);
    if AllLimited(turns) {
      forall c | c in calls ensures c.Asked? && c.standing == Shut(RateLimited) {
        var i :| 0 <= i < |calls| && calls[i] == c;
        assert turns[i] in turns;
      }
    }
    if ShutByLimits(calls) {
      forall t | t in turns ensures t == Skipped(RateLimited) {
        var i :| 0 <= i < |turns| && turns[i] == t;
        assert calls[i] in calls;
      }
    }
  }

  /** What it means to be told that no provider is available: the last thing the request did was to ask every capable
      provider, each of which was shut, and it is a rate limit exactly when all of them were shut by one. */
  lemma UnavailableMeans(
    eligible: seq<Id>, tabs: nat, status: Status, trace: seq<Call>, rounds: seq<Round>, turns: seq<Turn>,
    bound: Option<Binding>)
    requires Routed(eligible, tabs, Unavailable(status), trace, rounds, turns, bound)
    ensures |eligible| <= |trace| && AllShut(trace[|trace| - |eligible|..], eligible)
    ensures status == if ShutByLimits(trace[|trace| - |eligible|..]) then RateLimited else Temporary
  {
    LimitsShut(eligible, turns, tabs);
    assert trace[|trace| - |eligible|..] == PassCalls(eligible, turns, tabs);
  }

  /** A bound route ends with its finish. */
  lemma BoundEndsClosed(quiet: seq<Call>, eligible: seq<Id>, turns: seq<Turn>, tabs: nat, b: Binding)
    requires |turns| < |eligible|
    ensures var trace := BoundCalls(quiet, eligible, turns, tabs, b);
            trace != [] && trace[|trace| - 1].Closed? && trace[|trace| - 1].fate == b.fate
  {
  }

  /** At most one of each, never more than reservations, and as many settled unless abandoned. */
  ghost predicate Accounted(trace: seq<Call>, reserves: nat, dispatches: nat, finishes: nat, settles: nat) {
    && settles <= reserves <= 1 && dispatches <= reserves && finishes <= reserves
    && (settles == reserves <==> !Abandoned(trace))
  }

  lemma BoundAccounts(trace: seq<Call>, b: Binding)
    requires trace != [] && trace[|trace| - 1].Closed? && trace[|trace| - 1].fate == b.fate
    ensures Accounted(trace, RoutedCount(trace, Some(b), Reserves), RoutedCount(trace, Some(b), Dispatches),
                      RoutedCount(trace, Some(b), Finishes), RoutedCount(trace, Some(b), Settles))
  {
  }

  lemma UnboundAccounts(trace: seq<Call>)
    requires trace != [] ==> Quiet(trace[|trace| - 1]) || CutShort(trace[|trace| - 1])
    ensures Accounted(trace, RoutedCount(trace, None, Reserves), RoutedCount(trace, None, Dispatches),
                      RoutedCount(trace, None, Finishes), RoutedCount(trace, None, Settles))
  {
  }

  /** Single dispatch: at most one reservation, one dispatch and one finish; and the attempt a request
      reserved is finished in the store exactly once, unless the request was cut off while its
      reservation or its last, unshielded write was under way, or the store failed. */
  lemma SingleDispatch(
    eligible: seq<Id>, tabs: nat, outcome: Outcome, trace: seq<Call>,
    rounds: seq<Round>, turns: seq<Turn>, bound: Option<Binding>)
    requires Routed(eligible, tabs, outcome, trace, rounds, turns, bound)
    ensures Accounted(trace, Count(trace, Reserves), Count(trace, Dispatches), Count(trace, Finishes),
                      Count(trace, Settles))
  {
    if bound.Some? {
      BoundEndsClosed(RoundCalls(eligible, rounds, tabs), eligible, turns, tabs, bound.value);
      BoundAccounts(trace, bound.value);
    } else {
      if trace != [] {
        UnboundEndsInSearch(eligible, tabs, outcome, trace, rounds, turns);
      }
      UnboundAccounts(trace);
    }
    RoutedCounts(eligible, tabs, outcome, trace, rounds, turns, bound, Reserves);
    RoutedCounts(eligible, tabs, outcome, trace, rounds, turns, bound, Dispatches);
    RoutedCounts(eligible, tabs, outcome, trace, rounds, turns, bound, Finishes);
    RoutedCounts(eligible, tabs, outcome, trace, rounds, turns, bound, Settles);
  }

  lemma {:induction false} TurnsReach(eligible: seq<Id>, turns: seq<Turn>, tabs: nat)
    requires |turns| <= |eligible|
    ensures WithinReach(PassCalls(eligible, turns, tabs), eligible, tabs)
  {
    if turns != [] {
      TurnsReach(eligible, turns[..|turns| - 1], tabs);
      assert eligible[|turns| - 1] in eligible;
    }
  }

  lemma PassReaches(quiet: seq<Call>, eligible: seq<Id>, turns: seq<Turn>, tabs: nat, tail: seq<Call>)
    requires |turns| <= |eligible| && WithinReach(tail, eligible, tabs)
    ensures WithinReach(quiet, eligible, tabs) ==>
              WithinReach(quiet + (PassCalls(eligible, turns, tabs) + tail), eligible, tabs)
  {
    TurnsReach(eligible, turns, tabs);
  }

  /** Cut off while its reservation commits, a request leaves an attempt behind that nobody finishes. */
  lemma ReservationCanBeAbandoned()
    ensures var trace := [Asked("p", Open), Tried("p", "a", 0, Lost(true))];
            && Routed(["p"], 1, Interrupted, trace, [], [], None) && WithinReach(trace, ["p"], 1)
            && Count(trace, Reserves) == 1 && Count(trace, Settles) == 0 && Abandoned(trace)
  {
    var trace := [Asked("p", Open), Tried("p", "a", 0, Lost(true))];
    var cut := Trying("a", 0, true);
    assert trace == [] + ([] + CutCalls(["p"], [], 1, cut)) && IsCut(["p"], [], 1, cut);
    SingleDispatch(["p"], 1, Interrupted, trace, [], [], None);
    RoutedCounts(["p"], 1, Interrupted, trace, [], [], None, Reserves);
  }

  /** So does a request whose provider answered, cut off before its last write commits. */
  lemma LastWriteCanBeAbandoned()
    ensures var answer := Answer(Succeeded, None);
            var trace := [Asked("p", Open), Tried("p", "a", 0, Granted), Probed("p", 0, Ready),
                          Dispatched("p", "a", 0, Answered(answer)), Closed("p", "a", answer, CutOff(false))];
            var b := Binding("a", 0, Ready, Some(Answered(answer)), CutOff(false));
            && Routed(["p"], 1, Interrupted, trace, [], [], Some(b)) && WithinReach(trace, ["p"], 1)
            && Count(trace, Reserves) == 1 && Count(trace, Settles) == 0 && Abandoned(trace)
  {
    var answer := Answer(Succeeded, None);
    var trace := [Asked("p", Open), Tried("p", "a", 0, Granted), Probed("p", 0, Ready),
                  Dispatched("p", "a", 0, Answered(answer)), Closed("p", "a", answer, CutOff(false))];
    var b := Binding("a", 0, Ready, Some(Answered(answer)), CutOff(false));
    assert trace == BoundCalls([], ["p"], [], 1, b);
    RoutedCounts(["p"], 1, Interrupted, trace, [], [], Some(b), Reserves);
    RoutedCounts(["p"], 1, Interrupted, trace, [], [], Some(b), Settles);
  }

  lemma ServiceClosesLast(before: seq<Call>, p: Id, b: Binding, k: nat)
    requires forall i :: 0 <= i < |before| ==> !before[i].Closed?
    requires var trace := before + ([Tried(p, b.attempt, b.slot, Granted)]
                                    + Service(p, b.attempt, b.slot, b.probe, b.execution, b.fate));
             k < |trace| && trace[k].Closed?
    ensures var trace := before + ([Tried(p, b.attempt, b.slot, Granted)]
                                   + Service(p, b.attempt, b.slot, b.probe, b.execution, b.fate));
            && k == |trace| - 1 && |before| < k && trace[|before|] == Tried(p, b.attempt, b.slot, Granted)
            && trace[k].provider == p && trace[k].attempt == b.attempt
  {
  }

  lemma QuietNeverCloses(s: seq<Call>)
    requires AllQuiet(s)
    ensures forall i :: 0 <= i < |s| ==> !s[i].Closed?
  {
    forall i | 0 <= i < |s| ensures !s[i].Closed? {
      assert s[i] in s;
    }
  }

  /** Call `k` is the last one, and finishes an attempt granted before under the same provider. */
  ghost predicate FinishesHeld(trace: seq<Call>, k: nat) {
    && k == |trace| - 1 && trace[k].Closed?
    && exists j :: 0 <= j < k && trace[j].Tried? && trace[j].grant == Granted
                   && trace[j].provider == trace[k].provider && trace[j].attempt == trace[k].attempt
  }

  lemma BoundFinishes(
    eligible: seq<Id>, tabs: nat, quiet: seq<Call>, turns: seq<Turn>, b: Binding, trace: seq<Call>, k: nat)
    requires AllQuiet(quiet) && |turns| < |eligible| && trace == BoundCalls(quiet, eligible, turns, tabs, b)
    requires k < |trace| && trace[k].Closed?
    ensures FinishesHeld(trace, k)
  {
    var p := eligible[|turns|];
    PassesAreQuiet(eligible, turns, tabs);
    var before := quiet + (PassCalls(eligible, turns, tabs) + ([Asked(p, Open)] + Denials(p, b.attempt, b.slot)));
    assert AllQuiet(before);
    assert trace == before + ([Tried(p, b.attempt, b.slot, Granted)]
                              + Service(p, b.attempt, b.slot, b.probe, b.execution, b.fate));
    QuietNeverCloses(before);
    ServiceClosesLast(before, p, b, k);
  }

  lemma UnboundNeverFinishes(
    eligible: seq<Id>, tabs: nat, outcome: Outcome, trace: seq<Call>, rounds: seq<Round>, turns: seq<Turn>, k: nat)
    requires Routed(eligible, tabs, outcome, trace, rounds, turns, None) && k < |trace|
    ensures !trace[k].Closed?
  {
    UnboundEndsInSearch(eligible, tabs, outcome, trace, rounds, turns);
    OpenToTheEnd(trace, k);
  }

  lemma OpenToTheEnd(trace: seq<Call>, k: nat)
    requires k < |trace| && AllQuiet(trace[..|trace| - 1]) && !trace[|trace| - 1].Closed?
    ensures !trace[k].Closed?
  {
    if k < |trace| - 1 {
      assert trace[k] in trace[..|trace| - 1];
    }
  }

  /** A request finishes only the attempt and provider it was granted, after the grant. */
  lemma FinishesWhatItHolds(
    eligible: seq<Id>, tabs: nat, outcome: Outcome, trace: seq<Call>,
    rounds: seq<Round>, turns: seq<Turn>, bound: Option<Binding>, k: nat)
    requires Routed(eligible, tabs, outcome, trace, rounds, turns, bound)
    requires k < |trace| && trace[k].Closed?
    ensures FinishesHeld(trace, k)
  {
    if bound.Some? {
      RoundsAreQuiet(eligible, rounds, tabs);
      BoundFinishes(eligible, tabs, RoundCalls(eligible, rounds, tabs), turns, bound.value, trace, k);
    } else {
      UnboundNeverFinishes(eligible, tabs, outcome, trace, rounds, turns, k);
    }
  }

  /** A visit that ended with the request bound to the provider. */
  ghost predicate Bound(p: Id, tabs: nat, outcome: Outcome, calls: seq<Call>, b: Binding) {
    && ValidBinding(b, tabs)
    && calls == ([Asked(p, Open)] + Denials(p, b.attempt, b.slot) + [Tried(p, b.attempt, b.slot, Granted)])
                + Service(p, b.attempt, b.slot, b.probe, b.execution, b.fate)
    && outcome == if Stopped(b.probe, b.execution) || b.fate != Done then Interrupted
                  else Delivered(Verdict(b.probe, b.execution))
  }

  /** A visit that was cut off before the request was bound. */
  ghost predicate CutOffAt(p: Id, tabs: nat, calls: seq<Call>) {
    || calls == [Asked(p, NoStanding)]
    || exists attempt, slot, committed :: IsCutTry(p, tabs, calls, attempt, slot, committed)
  }

  predicate IsCutTry(p: Id, tabs: nat, calls: seq<Call>, attempt: Id, slot: nat, committed: bool) {
    slot < tabs && calls == [Asked(p, Open)] + Denials(p, attempt, slot) + [Tried(p, attempt, slot, Lost(committed))]
  }

  lemma CutTryIsCut(p: Id, tabs: nat, calls: seq<Call>, attempt: Id, slot: nat, committed: bool)
    requires IsCutTry(p, tabs, calls, attempt, slot, committed)
    ensures CutOffAt(p, tabs, calls)
  {
  }

  lemma CutOffIsCut(eligible: seq<Id>, turns: seq<Turn>, tabs: nat, visit: seq<Call>) returns (cut: Cut)
    requires |turns| < |eligible| && CutOffAt(eligible[|turns|], tabs, visit)
    ensures IsCut(eligible, turns, tabs, cut) && visit == CutCalls(eligible, turns, tabs, cut)
  {
    var p := eligible[|turns|];
    if visit == [Asked(p, NoStanding)] {
      cut := Asking;
    } else {
      var attempt, slot, committed :| IsCutTry(p, tabs, visit, attempt, slot, committed);
      cut := Trying(attempt, slot, committed);
    }
  }

  lemma EndsHere(
    rounds: seq<Round>, eligible: seq<Id>, turns: seq<Turn>, tabs: nat, outcome: Outcome, visit: seq<Call>,
    bound: Option<Binding>)
    requires AllBusy(eligible, rounds) && |turns| < |eligible|
    requires bound.None? ==> outcome == Interrupted && CutOffAt(eligible[|turns|], tabs, visit)
    requires bound.Some? ==> Bound(eligible[|turns|], tabs, outcome, visit, bound.value)
    ensures Routed(eligible, tabs, outcome,
                   RoundCalls(eligible, rounds, tabs) + (PassCalls(eligible, turns, tabs) + visit),
                   rounds, turns, bound)
  {
    var calls := PassCalls(eligible, turns, tabs);
    if bound.None? {
      var cut := CutOffIsCut(eligible, turns, tabs, visit);
    } else {
      var b, p := bound.value, eligible[|turns|];
      var search := [Asked(p, Open)] + Denials(p, b.attempt, b.slot) + [Tried(p, b.attempt, b.slot, Granted)];
      var service := Service(p, b.attempt, b.slot, b.probe, b.execution, b.fate);
      assert calls + visit == calls + search + service;
    }
  }

  lemma {:induction false} RoundsReach(eligible: seq<Id>, rounds: seq<Round>, tabs: nat)
    requires AllBusy(eligible, rounds)
    ensures WithinReach(RoundCalls(eligible, rounds, tabs), eligible, tabs)
  {
    if rounds != [] {
      var last := rounds[|rounds| - 1];
      assert last in rounds;
      RoundsReach(eligible, rounds[..|rounds| - 1], tabs);
      TurnsReach(eligible, last.turns, tabs);
    }
  }

  /** Every round begins with time left, and takes at least the sleep. */
  ghost predicate Paced(rounds: seq<Round>, budget: int) {
    forall i :: 0 <= i < |rounds| ==>
                  var left := budget - Spent(rounds[..i]);
                  left > 0 && rounds[i].took >= if left < 100 then left else 100
  }

  lemma PacedAppends(rounds: seq<Round>, r: Round, budget: int)
    requires Paced(rounds, budget) && budget - Spent(rounds) > 0
    requires r.took >= if budget - Spent(rounds) < 100 then budget - Spent(rounds) else 100
    ensures Paced(rounds + [r], budget)
  {
    var more := rounds + [r];
    forall i | 0 <= i < |more|
      ensures var left := budget - Spent(more[..i]);
              left > 0 && more[i].took >= if left < 100 then left else 100
    {
      assert more[..i] == rounds[..i];
      assert i == |rounds| ==> rounds[..i] == rounds;
    }
  }

  /** A request with providers to ask gives up waiting exactly when its time is up. */
  ghost predicate KeepsTime(eligible: seq<Id>, outcome: Outcome, rounds: seq<Round>, budget: int) {
    && Paced(rounds, budget)
    && (outcome.Unsupported? <==> eligible == [])
    && (eligible != [] ==> (outcome.Expired? <==> Spent(rounds) >= budget))
  }

  class Engine {
    const adapters: seq<Adapter>
    const tabs: nat
    const queueSize: nat
    var active: nat

    constructor (adapters: seq<Adapter>, tabs: nat, queueSize: nat)
      ensures this.adapters == adapters && this.tabs == tabs && this.queueSize == queueSize && active == 0
    {
      this.adapters, this.tabs, this.queueSize, active := adapters, tabs, queueSize, 0;
    }

    /** The queue bounds the requests being routed, and a request always gives its place back. */
    method Complete(required: set<string>, budget: int)
      returns (outcome: Option<Outcome>, trace: seq<Call>, ghost rounds: seq<Round>, ghost turns: seq<Turn>,
               ghost bound: Option<Binding>)
      modifies this`active
      ensures active == old(active)
      ensures outcome.None? <==> old(active) >= queueSize
      ensures outcome.None? ==> trace == []
      ensures outcome.Some? ==>
                Routed(Eligible(adapters, required), tabs, outcome.value, trace, rounds, turns, bound)
                && KeepsTime(Eligible(adapters, required), outcome.value, rounds, budget)
      ensures Count(trace, Reserves) <= 1 && Count(trace, Dispatches) <= 1 && Count(trace, Finishes) <= 1
    {
      if active >= queueSize {
        return None, [], [], [], None;
      }
      active := active + 1;
      var result, calls;
      result, calls, rounds, turns, bound := Route(required, budget);
      SingleDispatch(Eligible(adapters, required), tabs, result, calls, rounds, turns, bound);
      active := active - 1;
      return Some(result), calls, rounds, turns, bound;
    }

    /** Ask one open provider for each of its slots in turn. */
    method ReserveSlot(p: Id, attempt: Id) returns (slot: nat, grant: Grant, calls: seq<Call>)
      ensures slot <= tabs && (slot == tabs <==> grant == Denied)
      ensures grant == Denied ==> calls == TurnCalls(p, Full(attempt), tabs)
      ensures grant != Denied ==>
                calls == [Asked(p, Open)] + Denials(p, attempt, slot) + [Tried(p, attempt, slot, grant)]
      ensures WithinReach(calls, [p], tabs)
    {
      slot, calls, grant := 0, [Asked(p, Open)], Denied;
      while slot < tabs
        invariant slot <= tabs && calls == [Asked(p, Open)] + Denials(p, attempt, slot)
        invariant WithinReach(calls, [p], tabs)
      {
        grant := *;
        calls := calls + [Tried(p, attempt, slot, grant)];
        if grant != Denied {
          return;
        }
        slot := slot + 1;
      }
      grant := Denied;
    }

    /** Probe, dispatch and finish under a granted reservation. */
    method Serve(p: Id, attempt: Id, slot: nat) returns (outcome: Outcome, calls: seq<Call>, ghost b: Binding)
      requires slot < tabs
      ensures b.attempt == attempt && b.slot == slot && ValidBinding(b, tabs)
      ensures calls == Service(p, attempt, slot, b.probe, b.execution, b.fate)
      ensures outcome == if Stopped(b.probe, b.execution) || b.fate != Done then Interrupted
                         else Delivered(Verdict(b.probe, b.execution))
    {
      var probe: Probe := *;
      if probe.NotReady? && probe.answer.status == Succeeded {
        probe := Ready;
      }
      calls := [Probed(p, slot, probe)];
      var last, stopped := Answer(SubmissionUnknown, None), false;
      ghost var execution: Option<Execution> := None;
      match probe {
        case Ready =>
          var ran: Execution := *;
          execution := Some(ran);
          calls := calls + [Dispatched(p, attempt, slot, ran)];
          match ran {
            case Answered(answer) => last := answer;
            case ExecutionStopped => stopped := true;
            case ExecutionFailed =>
          }
        case NotReady(answer) => last := answer;
        case ProbeStopped => last, stopped := Answer(Disconnected, None), true;
        case ProbeFailed =>
      }
      var failed: bool, cut: bool, committed: bool := *, *, *;
      var fate := if failed then StoreFailed else if cut && !stopped then CutOff(committed) else Done;
      calls := calls + [Closed(p, attempt, last, fate)];
      b := Binding(attempt, slot, probe, execution, fate);
      outcome := if stopped || fate != Done then Interrupted else Delivered(last);
    }

    /** One provider in turn: left behind, cut short, or bound to the request. */
    method Visit(p: Id) returns (ended: Option<Outcome>, calls: seq<Call>, turn: Turn, ghost bound: Option<Binding>)
      ensures WithinReach(calls, [p], tabs)
      ensures ended.None? ==> bound.None? && calls == TurnCalls(p, turn, tabs)
      ensures ended.Some? && bound.None? ==>
                ended.value == Interrupted && CutOffAt(p, tabs, calls)
      ensures ended.Some? && bound.Some? ==> Bound(p, tabs, ended.value, calls, bound.value)
    {
      turn, bound := Skipped(Temporary), None;
      var standing: Standing := *;
      if standing.NoStanding? {
        return Some(Interrupted), [Asked(p, standing)], turn, None;
      }
      if standing.Shut? {
        return None, [Asked(p, standing)], Skipped(standing.reason), None;
      }
      var attempt: Id := *;
      var slot, grant, tries := ReserveSlot(p, attempt);
      if grant == Denied {
        return None, tries, Full(attempt), None;
      }
      if grant.Lost? {
        CutTryIsCut(p, tabs, tries, attempt, slot, grant.committed);
        return Some(Interrupted), tries, turn, None;
      }
      var result, service, b := Serve(p, attempt, slot);
      return Some(result), tries + service, turn, Some(b);
    }

    /** One pass over the eligible providers. It ends the request unless some provider had all its slots taken. */
    method Pass(eligible: seq<Id>, before: seq<Call>, ghost rounds: seq<Round>)
      returns (ended: Option<Outcome>, trace: seq<Call>, ghost turns: seq<Turn>, ghost bound: Option<Binding>)
      requires AllBusy(eligible, rounds) && before == RoundCalls(eligible, rounds, tabs) && eligible != []
      ensures ended.Some? ==> Routed(eligible, tabs, ended.value, trace, rounds, turns, bound)
      ensures ended.Some? ==> !ended.value.Expired? && !ended.value.Unsupported?
      ensures ended.None? ==>
                && |turns| == |eligible| && SomeFull(turns)
                && trace == before + PassCalls(eligible, turns, tabs)
      ensures WithinReach(trace, eligible, tabs)
    {
      var busy, limited, calls := false, true, [];
      turns, bound := [], None;
      RoundsReach(eligible, rounds, tabs);
      for i := 0 to |eligible|
        invariant |turns| == i && calls == PassCalls(eligible, turns, tabs)
        invariant busy <==> SomeFull(turns)
        invariant limited <==> AllLimited(turns)
      {
        var done, visit, turn, b := Visit(eligible[i]);
        assert eligible[i] in eligible;
        PassReaches(before, eligible, turns, tabs, visit);
        if done.Some? {
          EndsHere(rounds, eligible, turns, tabs, done.value, visit, b);
          return done, before + (calls + visit), turns, b;
        }
        limited := limited && turn == Skipped(RateLimited);
        busy := busy || turn.Full?;
        AppendTurn(turns, turn);
        AppendCalls(eligible, turns, turn, tabs);
        calls, turns := calls + visit, turns + [turn];
      }
      PassReaches(before, eligible, turns, tabs, []);
      assert calls + [] == calls;
      trace := before + calls;
      if busy {
        ended := None;
      } else {
        ended := Some(Unavailable(if limited then RateLimited else Temporary));
      }
    }

    method Route(required: set<string>, budget: int)
      returns (outcome: Outcome, trace: seq<Call>, ghost rounds: seq<Round>, ghost turns: seq<Turn>,
               ghost bound: Option<Binding>)
      ensures Routed(Eligible(adapters, required), tabs, outcome, trace, rounds, turns, bound)
      ensures KeepsTime(Eligible(adapters, required), outcome, rounds, budget)
      ensures WithinReach(trace, Eligible(adapters, required), tabs)
    {
      var eligible := Eligible(adapters, required);
      trace, rounds, turns, bound := [], [], [], None;
      if eligible == [] {
        return Unsupported, trace, rounds, turns, bound;
      }
      var remaining := budget;
      while remaining > 0
        invariant AllBusy(eligible, rounds) && trace == RoundCalls(eligible, rounds, tabs)
        invariant WithinReach(trace, eligible, tabs)
        invariant remaining == budget - Spent(rounds)
        invariant Paced(rounds, budget)
        decreases remaining
      {
        var ended;
        ghost var before := trace;
        ended, trace, turns, bound := Pass(eligible, trace, rounds);
        if ended.Some? {
          return ended.value, trace, rounds, turns, bound;
        }
        var whole: bool, elapsed: nat := *, *;
        var took := (if remaining < 100 then remaining else 100) + elapsed;
        trace := trace + [Slept(whole, took)];
        assert trace == before + (PassCalls(eligible, turns, tabs) + [Slept(whole, took)]);
        if !whole {
          assert IsCut(eligible, turns, tabs, Sleeping(took));
          return Interrupted, trace, rounds, turns, None;
        }
        RoundAppends(eligible, rounds, Round(turns, took), tabs);
        PacedAppends(rounds, Round(turns, took), budget);
        rounds := rounds + [Round(turns, took)];
        remaining := remaining - took;
      }
      return Expired, trace, rounds, [], None;
    }
  }
}
