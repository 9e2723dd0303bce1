/**
 Whole-run guarantees of the gateway store: providers with attempts of unknown outcome stay
 quarantined, rate limits are honoured until their own deadline, and slots are exclusive.
 */
module GatewaySafety {
  import opened Wrappers
  import opened GatewayStore

  /** The operations of the store, as they reach the database one after the other. */
  datatype Op =
    | Restart
    | DoReserve(resource: Resource, attempt: Id, request: Id, slot: nat)
    | DoSubmit(attempt: Id)
    | DoFinish(resource: Resource, attempt: Id, result: Answer)
    | DoTerminal(resource: Resource, attempt: Id)
    | DoReset(profile: Id)

  datatype Step = Step(op: Op, at: Instant)

  function Apply(db: Db, s: Step, cfg: Config): Db {
    match s.op
    case Restart => Start(db, s.at, cfg)
    case DoReserve(r, id, request, slot) => Reserve(db, r, id, request, slot, s.at).0
    case DoSubmit(id) => Submit(db, id, s.at)
    case DoFinish(r, id, result) => Finish(db, r, id, result, s.at, cfg)
    case DoTerminal(r, id) => Terminal(db, r, id, s.at)
    case DoReset(profile) => Reset(db, profile, s.at)
  }

  /** The engine finishes an attempt only while it holds it: in flight, under its own provider. */
  predicate Proper(db: Db, s: Step) {
    s.op.DoFinish? ==>
      s.op.attempt in db.attempts && db.attempts[s.op.attempt].resource == s.op.resource
      && InFlight(db.attempts[s.op.attempt])
  }

  // ---- The invariant ----

  ghost predicate InThePast(db: Db, now: Instant) {
    && (forall id :: id in db.attempts ==> db.attempts[id].createdAt <= now)
    && (forall r :: r in db.availability ==> db.availability[r].updatedAt <= now)
  }

  /** The provider's row was written after the attempt was created, or had expired by then. */
  predicate WrittenSince(row: Availability, a: Attempt) {
    || row.updatedAt > a.createdAt
    || (row.nextCheckAt.Some? && row.nextCheckAt.value <= a.createdAt)
  }

  ghost predicate RowsOutliveAttempts(db: Db) {
    forall id :: id in db.attempts && db.attempts[id].resource in db.availability ==>
                   WrittenSince(db.availability[db.attempts[id].resource], db.attempts[id])
  }

  /** A provider with an unknown attempt has a row. */
  ghost predicate UnknownsHaveRows(db: Db) {
    forall id :: id in db.attempts && db.attempts[id].state == Unknown ==>
                   db.attempts[id].resource in db.availability
  }

  /** While a provider has an unknown attempt, its row is newer than every attempt still in flight. */
  ghost predicate RowsShieldUnknowns(db: Db) {
    forall id, other :: id in db.attempts && other in db.attempts
                     && db.attempts[id].state == Unknown && InFlight(db.attempts[other])
                     && db.attempts[other].resource == db.attempts[id].resource
                     && db.attempts[id].resource in db.availability
      ==> db.availability[db.attempts[id].resource].updatedAt > db.attempts[other].createdAt
  }

  /** A quarantine row has no expiry and is backed by an unknown attempt. */
  ghost predicate QuarantinesAreBacked(db: Db) {
    forall r :: r in db.availability && db.availability[r].reason == SubmissionUnknown ==>
                  db.availability[r].nextCheckAt.None? && HasUnknown(db.attempts, r)
  }

  ghost predicate SlotsAreExclusive(db: Db) {
    forall id, other :: id in db.attempts && other in db.attempts && id != other
                     && IsActive(db.attempts[id]) && IsActive(db.attempts[other])
                     && db.attempts[id].resource == db.attempts[other].resource
      ==> db.attempts[id].slot != db.attempts[other].slot
  }

  ghost predicate Invariant(db: Db, now: Instant) {
    && InThePast(db, now) && RowsOutliveAttempts(db) && UnknownsHaveRows(db)
    && RowsShieldUnknowns(db) && QuarantinesAreBacked(db) && SlotsAreExclusive(db)
  }

  // ---- What every operation but a reservation does to attempts and rows ----

  /** Attempts keep their provider, slot and creation time, and none becomes active again. */
  ghost predicate AttemptsKept(before: map<Id, Attempt>, after: map<Id, Attempt>) {
    forall id :: id in after ==>
                   && id in before
                   && after[id].resource == before[id].resource
                   && after[id].slot == before[id].slot
                   && after[id].createdAt == before[id].createdAt
                   && (IsActive(after[id]) ==> IsActive(before[id]))
  }

  /** A row is an old one or was written at this instant. */
  ghost predicate RowsCarried(before: map<Resource, Availability>, after: map<Resource, Availability>, at: Instant) {
    forall r :: r in after ==> after[r].updatedAt == at || (r in before && after[r] == before[r])
  }

  lemma KeptAttemptsStayApart(db: Db, after: Db, now: Instant, at: Instant)
    requires InThePast(db, now) && RowsOutliveAttempts(db) && SlotsAreExclusive(db) && now < at
    requires AttemptsKept(db.attempts, after.attempts) && RowsCarried(db.availability, after.availability, at)
    ensures InThePast(after, at) && RowsOutliveAttempts(after) && SlotsAreExclusive(after)
  {
  }

  /** An unknown attempt that is left alone keeps its provider's quarantine backed. */
  lemma StillUnknown(before: map<Id, Attempt>, after: map<Id, Attempt>, r: Resource)
    requires HasUnknown(before, r)
    requires forall id :: id in before && before[id].resource == r && before[id].state == Unknown ==>
                            id in after && after[id] == before[id]
    ensures HasUnknown(after, r)
  {
    var id :| id in before && before[id].resource == r && before[id].state == Unknown;
    assert id in after;
  }

  /** Nothing becomes unknown or in flight, and providers with unknown attempts keep their rows. */
  ghost predicate UnknownsShrink(db: Db, after: Db) {
    forall id :: id in after.attempts && id in db.attempts ==>
                   && (after.attempts[id].state == Unknown ==>
                         && db.attempts[id].state == Unknown
                         && (after.attempts[id].resource in db.availability ==>
                               && after.attempts[id].resource in after.availability
                               && after.availability[after.attempts[id].resource]
                                  == db.availability[after.attempts[id].resource]))
                   && (InFlight(after.attempts[id]) ==> InFlight(db.attempts[id]))
  }

  lemma ShrinkingUnknownsStayCovered(db: Db, after: Db)
    requires UnknownsHaveRows(db) && RowsShieldUnknowns(db)
    requires AttemptsKept(db.attempts, after.attempts) && UnknownsShrink(db, after)
    ensures UnknownsHaveRows(after) && RowsShieldUnknowns(after)
  {
  }

  // ---- Restart ----

  lemma RestartCarries(db: Db, at: Instant, cfg: Config)
    ensures AttemptsKept(db.attempts, Start(db, at, cfg).attempts)
    ensures RowsCarried(db.availability, Start(db, at, cfg).availability, at)
    ensures forall id :: id in Start(db, at, cfg).attempts ==> !InFlight(Start(db, at, cfg).attempts[id])
  {
  }

  /** Every attempt that is unknown after a restart has a row: its own quarantine, or a rate limit. */
  lemma RestartQuarantines(db: Db, at: Instant, cfg: Config)
    ensures UnknownsHaveRows(Start(db, at, cfg))
  {
    var attempts := Orphaned(db.attempts, at);
    var unknown := UnknownResources(attempts);
    var after := Start(db, at, cfg);
    forall id | id in after.attempts && after.attempts[id].state == Unknown
      ensures after.attempts[id].resource in after.availability
    {
      assert attempts[id].resource in unknown;
    }
  }

  lemma RestartBacksQuarantine(db: Db, at: Instant, cfg: Config, r: Resource)
    requires QuarantinesAreBacked(db)
    requires r in Start(db, at, cfg).availability && Start(db, at, cfg).availability[r].reason == SubmissionUnknown
    ensures Start(db, at, cfg).availability[r].nextCheckAt.None? && HasUnknown(Start(db, at, cfg).attempts, r)
  {
    var attempts := Orphaned(db.attempts, at);
    var after := Start(db, at, cfg);
    if r !in UnknownResources(attempts) {
      assert HasUnknown(db.attempts, r);
      StillUnknown(db.attempts, attempts, r);
      assert false;
    } else {
      var id :| id in attempts && attempts[id].state == Unknown && attempts[id].resource == r;
      assert id in after.attempts;
    }
  }

  lemma StartKeepsInvariant(db: Db, now: Instant, at: Instant, cfg: Config)
    requires Invariant(db, now) && now < at
    ensures Invariant(Start(db, at, cfg), at)
  {
    var after := Start(db, at, cfg);
    RestartCarries(db, at, cfg);
    KeptAttemptsStayApart(db, after, now, at);
    RestartQuarantines(db, at, cfg);
    forall r | r in after.availability && after.availability[r].reason == SubmissionUnknown
      ensures after.availability[r].nextCheckAt.None? && HasUnknown(after.attempts, r)
    {
      RestartBacksQuarantine(db, at, cfg, r);
    }
  }

  // ---- Reservation and submission ----

  /** A reservation succeeds only on a provider without rows in force and without unknown attempts. */
  lemma ReserveKeepsRows(db: Db, now: Instant, r: Resource, id: Id, request: Id, slot: nat, at: Instant)
    requires InThePast(db, now) && RowsOutliveAttempts(db) && SlotsAreExclusive(db) && now < at
    ensures InThePast(Reserve(db, r, id, request, slot, at).0, at)
    ensures RowsOutliveAttempts(Reserve(db, r, id, request, slot, at).0)
    ensures SlotsAreExclusive(Reserve(db, r, id, request, slot, at).0)
  {
  }

  lemma ReserveKeepsUnknowns(db: Db, r: Resource, id: Id, request: Id, slot: nat, at: Instant)
    requires UnknownsHaveRows(db) && RowsShieldUnknowns(db)
    ensures UnknownsHaveRows(Reserve(db, r, id, request, slot, at).0)
    ensures RowsShieldUnknowns(Reserve(db, r, id, request, slot, at).0)
  {
  }

  lemma ReserveKeepsInvariant(db: Db, now: Instant, r: Resource, id: Id, request: Id, slot: nat, at: Instant)
    requires Invariant(db, now) && now < at
    ensures Invariant(Reserve(db, r, id, request, slot, at).0, at)
  {
    var after := Reserve(db, r, id, request, slot, at).0;
    ReserveKeepsRows(db, now, r, id, request, slot, at);
    ReserveKeepsUnknowns(db, r, id, request, slot, at);
    forall x | x in after.availability && after.availability[x].reason == SubmissionUnknown
      ensures HasUnknown(after.attempts, x)
    {
      StillUnknown(db.attempts, after.attempts, x);
    }
  }

  lemma SubmitCarries(db: Db, id: Id, at: Instant)
    ensures AttemptsKept(db.attempts, Submit(db, id, at).attempts)
    ensures RowsCarried(db.availability, Submit(db, id, at).availability, at)
    ensures UnknownsShrink(db, Submit(db, id, at))
  {
  }

  lemma SubmitBacksQuarantine(db: Db, id: Id, at: Instant, x: Resource)
    requires HasUnknown(db.attempts, x)
    ensures HasUnknown(Submit(db, id, at).attempts, x)
  {
    StillUnknown(db.attempts, Submit(db, id, at).attempts, x);
  }

  lemma SubmitKeepsInvariant(db: Db, now: Instant, id: Id, at: Instant)
    requires Invariant(db, now) && now < at
    ensures Invariant(Submit(db, id, at), at)
  {
    var after := Submit(db, id, at);
    SubmitCarries(db, id, at);
    KeptAttemptsStayApart(db, after, now, at);
    ShrinkingUnknownsStayCovered(db, after);
    forall x | x in after.availability && after.availability[x].reason == SubmissionUnknown
      ensures HasUnknown(after.attempts, x)
    {
      SubmitBacksQuarantine(db, id, at, x);
    }
  }

  // ---- Finishing an attempt ----

  lemma FinishCarries(db: Db, r: Resource, id: Id, result: Answer, at: Instant, cfg: Config)
    requires id in db.attempts && IsActive(db.attempts[id])
    ensures AttemptsKept(db.attempts, Finish(db, r, id, result, at, cfg).attempts)
    ensures RowsCarried(db.availability, Finish(db, r, id, result, at, cfg).availability, at)
  {
  }

  /** A success clears the provider's row only when no unknown attempt hides behind it. */
  lemma FinishKeepsUnknownsCovered(db: Db, r: Resource, id: Id, result: Answer, at: Instant, cfg: Config)
    requires UnknownsHaveRows(db) && RowsShieldUnknowns(db)
    requires id in db.attempts && db.attempts[id].resource == r && InFlight(db.attempts[id])
    ensures UnknownsHaveRows(Finish(db, r, id, result, at, cfg))
  {
  }

  /** A row that an unknown result leaves in place is newer than every attempt in flight. */
  lemma FinishKeepsShield(db: Db, now: Instant, r: Resource, id: Id, result: Answer, at: Instant, cfg: Config)
    requires InThePast(db, now) && now < at && RowsOutliveAttempts(db) && RowsShieldUnknowns(db)
    requires id in db.attempts && db.attempts[id].resource == r && InFlight(db.attempts[id])
    ensures RowsShieldUnknowns(Finish(db, r, id, result, at, cfg))
  {
  }

  lemma FinishBacksQuarantine(
    db: Db, r: Resource, id: Id, result: Answer, at: Instant, cfg: Config, x: Resource)
    requires QuarantinesAreBacked(db)
    requires id in db.attempts && db.attempts[id].resource == r && InFlight(db.attempts[id])
    requires x in Finish(db, r, id, result, at, cfg).availability
    requires Finish(db, r, id, result, at, cfg).availability[x].reason == SubmissionUnknown
    ensures Finish(db, r, id, result, at, cfg).availability[x].nextCheckAt.None?
    ensures HasUnknown(Finish(db, r, id, result, at, cfg).attempts, x)
  {
    var after := Finish(db, r, id, result, at, cfg);
    if x in db.availability && after.availability[x] == db.availability[x] {
      StillUnknown(db.attempts, after.attempts, x);
    } else {
      assert after.attempts[id].state == Unknown;
    }
  }

  lemma FinishKeepsInvariant(db: Db, now: Instant, r: Resource, id: Id, result: Answer, at: Instant, cfg: Config)
    requires Invariant(db, now) && now < at
    requires id in db.attempts && db.attempts[id].resource == r && InFlight(db.attempts[id])
    ensures Invariant(Finish(db, r, id, result, at, cfg), at)
  {
    var after := Finish(db, r, id, result, at, cfg);
    FinishCarries(db, r, id, result, at, cfg);
    KeptAttemptsStayApart(db, after, now, at);
    FinishKeepsUnknownsCovered(db, r, id, result, at, cfg);
    FinishKeepsShield(db, now, r, id, result, at, cfg);
    forall x | x in after.availability && after.availability[x].reason == SubmissionUnknown
      ensures after.availability[x].nextCheckAt.None? && HasUnknown(after.attempts, x)
    {
      FinishBacksQuarantine(db, r, id, result, at, cfg, x);
    }
  }

  // ---- Reconciliation and reset ----

  lemma TerminalCarries(db: Db, r: Resource, id: Id, at: Instant)
    ensures AttemptsKept(db.attempts, Terminal(db, r, id, at).attempts)
    ensures RowsCarried(db.availability, Terminal(db, r, id, at).availability, at)
    ensures UnknownsShrink(db, Terminal(db, r, id, at))
  {
  }

  lemma TerminalBacksQuarantine(db: Db, r: Resource, id: Id, at: Instant, x: Resource)
    requires HasUnknown(db.attempts, x)
    requires x in Terminal(db, r, id, at).availability
    requires Terminal(db, r, id, at).availability[x].reason == SubmissionUnknown
    ensures HasUnknown(Terminal(db, r, id, at).attempts, x)
  {
    if x != r {
      StillUnknown(db.attempts, Terminal(db, r, id, at).attempts, x);
    }
  }

  lemma TerminalKeepsInvariant(db: Db, now: Instant, r: Resource, id: Id, at: Instant)
    requires Invariant(db, now) && now < at
    ensures Invariant(Terminal(db, r, id, at), at)
  {
    var after := Terminal(db, r, id, at);
    TerminalCarries(db, r, id, at);
    KeptAttemptsStayApart(db, after, now, at);
    ShrinkingUnknownsStayCovered(db, after);
    forall x | x in after.availability && after.availability[x].reason == SubmissionUnknown
      ensures HasUnknown(after.attempts, x)
    {
      TerminalBacksQuarantine(db, r, id, at, x);
    }
  }

  lemma ResetCarries(db: Db, profile: Id, at: Instant)
    ensures AttemptsKept(db.attempts, Reset(db, profile, at).attempts)
    ensures RowsCarried(db.availability, Reset(db, profile, at).availability, at)
    ensures UnknownsShrink(db, Reset(db, profile, at))
  {
  }

  lemma ResetBacksQuarantine(db: Db, profile: Id, at: Instant, x: Resource)
    requires HasUnknown(db.attempts, x) && x.profile != profile
    ensures HasUnknown(Reset(db, profile, at).attempts, x)
  {
    StillUnknown(db.attempts, Reset(db, profile, at).attempts, x);
  }

  lemma ResetKeepsInvariant(db: Db, now: Instant, profile: Id, at: Instant)
    requires Invariant(db, now) && now < at
    ensures Invariant(Reset(db, profile, at), at)
  {
    var after := Reset(db, profile, at);
    ResetCarries(db, profile, at);
    KeptAttemptsStayApart(db, after, now, at);
    ShrinkingUnknownsStayCovered(db, after);
    forall x | x in after.availability && after.availability[x].reason == SubmissionUnknown
      ensures HasUnknown(after.attempts, x)
    {
      ResetBacksQuarantine(db, profile, at, x);
    }
  }

  // ---- Whole runs ----

  function Run(db: Db, steps: seq<Step>, cfg: Config): Db
    decreases |steps|
  {
    if steps == [] then db else Run(Apply(db, steps[0], cfg), steps[1..], cfg)
  }

  /** Steps happen one after the other, after `now`, and finish only what is held. */
  ghost predicate RunsFrom(db: Db, now: Instant, steps: seq<Step>, cfg: Config)
    decreases |steps|
  {
    steps == [] || (now < steps[0].at && Proper(db, steps[0])
                    && RunsFrom(Apply(db, steps[0], cfg), steps[0].at, steps[1..], cfg))
  }

  function EndOf(now: Instant, steps: seq<Step>): Instant {
    if steps == [] then now else steps[|steps| - 1].at
  }

  lemma StepKeepsInvariant(db: Db, now: Instant, s: Step, cfg: Config)
    requires Invariant(db, now) && now < s.at && Proper(db, s)
    ensures Invariant(Apply(db, s, cfg), s.at)
  {
    match s.op
    case Restart => StartKeepsInvariant(db, now, s.at, cfg);
    case DoReserve(r, id, request, slot) => ReserveKeepsInvariant(db, now, r, id, request, slot, s.at);
    case DoSubmit(id) => SubmitKeepsInvariant(db, now, id, s.at);
    case DoFinish(r, id, result) => FinishKeepsInvariant(db, now, r, id, result, s.at, cfg);
    case DoTerminal(r, id) => TerminalKeepsInvariant(db, now, r, id, s.at);
    case DoReset(profile) => ResetKeepsInvariant(db, now, profile, s.at);
  }

  lemma {:induction false} InvariantHolds(db: Db, now: Instant, steps: seq<Step>, cfg: Config)
    requires Invariant(db, now) && RunsFrom(db, now, steps, cfg)
    ensures Invariant(Run(db, steps, cfg), EndOf(now, steps))
    decreases |steps|
  {
    if steps != [] {
      StepKeepsInvariant(db, now, steps[0], cfg);
      InvariantHolds(Apply(db, steps[0], cfg), steps[0].at, steps[1..], cfg);
    }
  }

  const EMPTY := Db(map[], map[])

  lemma {:induction false} RunSplits(db: Db, now: Instant, steps: seq<Step>, k: nat, cfg: Config)
    requires RunsFrom(db, now, steps, cfg) && k < |steps|
    ensures RunsFrom(db, now, steps[..k], cfg)
    ensures EndOf(now, steps[..k]) < steps[k].at && Proper(Run(db, steps[..k], cfg), steps[k])
    ensures Run(db, steps[..k + 1], cfg) == Apply(Run(db, steps[..k], cfg), steps[k], cfg)
    decreases k
  {
    if k == 0 {
      assert steps[..1][1..] == [];
    } else {
      var next := Apply(db, steps[0], cfg);
      RunSplits(next, steps[0].at, steps[1..], k - 1, cfg);
      assert steps[1..][..k - 1] == steps[..k][1..];
      assert steps[1..][..k] == steps[..k + 1][1..];
    }
  }

  // ---- Unknown outcomes are quarantined ----

  /** In every reachable state unknown attempts and quarantine rows account for each other, nothing can
      be reserved where an outcome is unknown, and a restart quarantines all that was in flight. */
  lemma UnknownQuarantine(now: Instant, steps: seq<Step>, cfg: Config, at: Instant)
    requires RunsFrom(EMPTY, now, steps, cfg)
    ensures var db := Run(EMPTY, steps, cfg);
            && (forall id :: id in db.attempts && db.attempts[id].state == Unknown ==>
                               db.attempts[id].resource in db.availability)
            && (forall r :: r in db.availability && db.availability[r].reason == SubmissionUnknown ==>
                              HasUnknown(db.attempts, r))
            && (forall r, id, request, slot :: Reserve(db, r, id, request, slot, at).1 ==> !HasUnknown(db.attempts, r))
            && (forall id :: id in db.attempts && InFlight(db.attempts[id]) ==>
                               && id in Start(db, at, cfg).attempts
                               && Start(db, at, cfg).attempts[id].state == Unknown
                               && db.attempts[id].resource in Start(db, at, cfg).availability)
  {
    var db := Run(EMPTY, steps, cfg);
    InvariantHolds(EMPTY, now, steps, cfg);
    RestartQuarantines(db, at, cfg);
    var after := Start(db, at, cfg);
    forall id | id in db.attempts && InFlight(db.attempts[id])
      ensures id in after.attempts && after.attempts[id].state == Unknown
      ensures db.attempts[id].resource in after.availability
    {
      assert after.attempts[id] == db.attempts[id].(state := Unknown, updatedAt := at);
    }
  }

  /** The only ways out of an unknown outcome: its own late result, or a reset of its profile. */
  predicate Settles(s: Step, id: Id, r: Resource) {
    || (s.op.DoTerminal? && BaseId(s.op.attempt) == id)
    || (s.op.DoReset? && s.op.profile == r.profile)
  }

  lemma UnknownSurvivesStep(db: Db, s: Step, cfg: Config, id: Id)
    requires id in db.attempts && db.attempts[id].state == Unknown
    requires Proper(db, s) && !Settles(s, id, db.attempts[id].resource)
    ensures id in Apply(db, s, cfg).attempts && Apply(db, s, cfg).attempts[id] == db.attempts[id]
  {
  }

  lemma {:induction false} UnknownStaysQuarantined(db: Db, now: Instant, steps: seq<Step>, cfg: Config, id: Id)
    requires RunsFrom(db, now, steps, cfg)
    requires id in db.attempts && db.attempts[id].state == Unknown
    requires forall s :: s in steps ==> !Settles(s, id, db.attempts[id].resource)
    ensures id in Run(db, steps, cfg).attempts && Run(db, steps, cfg).attempts[id] == db.attempts[id]
    ensures forall other, request, slot, at ::
              !Reserve(Run(db, steps, cfg), db.attempts[id].resource, other, request, slot, at).1
    decreases |steps|
  {
    if steps != [] {
      UnknownSurvivesStep(db, steps[0], cfg, id);
      UnknownStaysQuarantined(Apply(db, steps[0], cfg), steps[0].at, steps[1..], cfg, id);
    }
  }

  // ---- Rate limits hold until their own deadline ----

  /** The row still stands at `at`: it never expires, or expires later. */
  predicate Covers(row: Availability, at: Instant) {
    row.nextCheckAt.None? || row.nextCheckAt.value > at
  }

  predicate LimitedAt(db: Db, r: Resource, at: Instant) {
    r in db.availability && db.availability[r].reason == RateLimited && Covers(db.availability[r], at)
  }

  predicate ReportsLimit(s: Step, r: Resource) {
    s.op.DoFinish? && s.op.resource == r && s.op.result.status == RateLimited
  }

  /** No step but a reset of the profile lifts a rate limit that is still in force; only another report
      of the limit rewrites it. Late successes of other slots cannot, because the row is newer than they are. */
  lemma RateLimitSurvivesStep(db: Db, now: Instant, s: Step, cfg: Config, r: Resource)
    requires RowsOutliveAttempts(db) && InThePast(db, now) && now < s.at && Proper(db, s)
    requires LimitedAt(db, r, s.at)
    requires !(s.op.DoReset? && s.op.profile == r.profile)
    ensures r in Apply(db, s, cfg).availability && Apply(db, s, cfg).availability[r].reason == RateLimited
    ensures !ReportsLimit(s, r) ==> Apply(db, s, cfg).availability[r] == db.availability[r]
  {
    match s.op
    case Restart =>
    case DoReserve(_, _, _, _) =>
    case DoSubmit(_) =>
    case DoFinish(x, id, result) =>
    case DoTerminal(_, _) =>
    case DoReset(_) =>
  }

  /** In every run, whatever step comes next while a rate limit is in force. */
  lemma RateLimitPersists(now: Instant, steps: seq<Step>, k: nat, cfg: Config, r: Resource)
    requires RunsFrom(EMPTY, now, steps, cfg) && k < |steps|
    requires LimitedAt(Run(EMPTY, steps[..k], cfg), r, steps[k].at)
    requires !(steps[k].op.DoReset? && steps[k].op.profile == r.profile)
    ensures var db := Run(EMPTY, steps[..k], cfg);
            var after := Run(EMPTY, steps[..k + 1], cfg);
            && r in after.availability && after.availability[r].reason == RateLimited
            && (!ReportsLimit(steps[k], r) ==> after.availability[r] == db.availability[r])
  {
    RunSplits(EMPTY, now, steps, k, cfg);
    InvariantHolds(EMPTY, now, steps[..k], cfg);
    RateLimitSurvivesStep(Run(EMPTY, steps[..k], cfg), EndOf(now, steps[..k]), steps[k], cfg, r);
  }

  /** The next check a rate-limit report asks for. */
  function NextCheck(s: Step, cfg: Config): Instant
    requires s.op.DoFinish?
  {
    if s.op.result.resetAt.Some? then s.op.result.resetAt.value else s.at + cfg.retrySeconds
  }

  /** Until `limit`, a provider limited beyond it stays limited and unreservable, as long as every further
      report also names a time beyond it. */
  lemma {:induction false} RateLimitHoldsUntil(
    db: Db, now: Instant, steps: seq<Step>, cfg: Config, r: Resource, limit: Instant)
    requires Invariant(db, now) && RunsFrom(db, now, steps, cfg)
    requires LimitedAt(db, r, limit)
    requires forall s :: s in steps ==>
                           && s.at <= limit
                           && !(s.op.DoReset? && s.op.profile == r.profile)
                           && (ReportsLimit(s, r) ==> NextCheck(s, cfg) > limit)
    ensures LimitedAt(Run(db, steps, cfg), r, limit)
    ensures forall id, request, slot, at :: at <= limit ==> !Reserve(Run(db, steps, cfg), r, id, request, slot, at).1
    decreases |steps|
  {
    if steps != [] {
      var s := steps[0];
      assert s in steps;
      RateLimitSurvivesStep(db, now, s, cfg, r);
      StepKeepsInvariant(db, now, s, cfg);
      RateLimitHoldsUntil(Apply(db, s, cfg), s.at, steps[1..], cfg, r, limit);
    }
  }

  // ---- Slots ----

  predicate SlotsBelow(attempts: map<Id, Attempt>, tabs: nat) {
    forall id :: id in attempts ==> attempts[id].slot < tabs
  }

  /** The engine only asks for the slots it has. */
  predicate AsksForSlots(s: Step, tabs: nat) {
    s.op.DoReserve? ==> s.op.slot < tabs
  }

  function ActiveOn(db: Db, r: Resource): set<Id> {
    set id | id in db.attempts && db.attempts[id].resource == r && IsActive(db.attempts[id])
  }

  lemma StepKeepsSlotsBelow(db: Db, s: Step, cfg: Config, tabs: nat)
    requires SlotsBelow(db.attempts, tabs) && AsksForSlots(s, tabs)
    ensures SlotsBelow(Apply(db, s, cfg).attempts, tabs)
  {
  }

  lemma {:induction false} RunKeepsSlotsBelow(db: Db, steps: seq<Step>, cfg: Config, tabs: nat)
    requires SlotsBelow(db.attempts, tabs)
    requires forall s :: s in steps ==> AsksForSlots(s, tabs)
    ensures SlotsBelow(Run(db, steps, cfg).attempts, tabs)
    decreases |steps|
  {
    if steps != [] {
      assert steps[0] in steps;
      StepKeepsSlotsBelow(db, steps[0], cfg, tabs);
      RunKeepsSlotsBelow(Apply(db, steps[0], cfg), steps[1..], cfg, tabs);
    }
  }

  /** Attempts with distinct slots below `tabs` are at most `tabs` many. */
  lemma {:induction false} DistinctSlotsFit(ids: set<Id>, slotOf: map<Id, nat>, tabs: nat)
    requires forall id :: id in ids ==> id in slotOf && slotOf[id] < tabs
    requires forall id, other :: id in ids && other in ids && id != other ==> slotOf[id] != slotOf[other]
    ensures |ids| <= tabs
    decreases tabs
  {
    if ids != {} {
      if top :| top in ids && slotOf[top] == tabs - 1 {
        DistinctSlotsFit(ids - {top}, slotOf, tabs - 1);
      } else {
        var id :| id in ids;
        DistinctSlotsFit(ids, slotOf, tabs - 1);
      }
    }
  }

  /** Across all concurrent requests a provider has at most one active attempt per slot, and at most as
      many as it has tabs. */
  lemma TabsBoundAttempts(now: Instant, steps: seq<Step>, cfg: Config, tabs: nat, r: Resource)
    requires RunsFrom(EMPTY, now, steps, cfg)
    requires forall s :: s in steps ==> AsksForSlots(s, tabs)
    ensures var db := Run(EMPTY, steps, cfg);
            && |ActiveOn(db, r)| <= tabs
            && (forall id, other :: id in ActiveOn(db, r) && other in ActiveOn(db, r) && id != other ==>
                                      db.attempts[id].slot != db.attempts[other].slot)
  {
    var db := Run(EMPTY, steps, cfg);
    InvariantHolds(EMPTY, now, steps, cfg);
    RunKeepsSlotsBelow(EMPTY, steps, cfg, tabs);
    DistinctSlotsFit(ActiveOn(db, r), map id | id in db.attempts :: db.attempts[id].slot, tabs);
  }

  // ---- Requests hold what they finish ----

  /** The attempts live requests hold, beside the database. A request stops holding its attempt when it
      finishes it, when it is cancelled without finishing it, and when the process dies. */
  datatype Gateway = Gateway(db: Db, held: map<Id, Resource>)

  datatype Event = Store(step: Step) | Abandon(attempt: Id)

  function React(g: Gateway, e: Event, cfg: Config): Gateway {
    match e
    case Abandon(id) => g.(held := g.held - {id})
    case Store(s) =>
      var db := Apply(g.db, s, cfg);
      var held := match s.op
        case Restart => map[]
        case DoReserve(r, id, request, slot) =>
          if Reserve(g.db, r, id, request, slot, s.at).1 then g.held[id := r] else g.held
        case DoFinish(r, id, _) => g.held - {id}
        case _ => g.held;
      Gateway(db, held)
  }

  /** A request finishes only the attempt it holds. */
  predicate Allowed(g: Gateway, e: Event) {
    e.Store? && e.step.op.DoFinish? ==>
      e.step.op.attempt in g.held && g.held[e.step.op.attempt] == e.step.op.resource
  }

  ghost predicate HeldInFlight(g: Gateway) {
    forall id :: id in g.held ==>
                   id in g.db.attempts && InFlight(g.db.attempts[id]) && g.db.attempts[id].resource == g.held[id]
  }

  lemma EventKeepsHeld(g: Gateway, e: Event, cfg: Config)
    requires HeldInFlight(g) && Allowed(g, e)
    ensures HeldInFlight(React(g, e, cfg))
    ensures e.Store? ==> Proper(g.db, e.step)
  {
    if e.Store? {
      match e.step.op
      case Restart =>
      case DoReserve(_, _, _, _) => ReserveKeepsHeld(g, e.step, cfg);
      case DoSubmit(id) => assert AttemptsKept(g.db.attempts, Submit(g.db, id, e.step.at).attempts);
      case DoFinish(_, _, _) =>
      case DoTerminal(_, _) => SettlingKeepsHeld(g, e.step, cfg);
      case DoReset(_) => SettlingKeepsHeld(g, e.step, cfg);
    }
  }

  lemma ReserveKeepsHeld(g: Gateway, s: Step, cfg: Config)
    requires HeldInFlight(g) && s.op.DoReserve?
    ensures HeldInFlight(React(g, Store(s), cfg))
  {
  }

  /** Reconciliation and reset touch attempts of unknown outcome only. */
  lemma SettlingKeepsHeld(g: Gateway, s: Step, cfg: Config)
    requires HeldInFlight(g) && (s.op.DoTerminal? || s.op.DoReset?)
    ensures HeldInFlight(React(g, Store(s), cfg))
  {
  }

  function Live(g: Gateway, events: seq<Event>, cfg: Config): Gateway
    decreases |events|
  {
    if events == [] then g else Live(React(g, events[0], cfg), events[1..], cfg)
  }

  ghost predicate LivesFrom(g: Gateway, now: Instant, events: seq<Event>, cfg: Config)
    decreases |events|
  {
    events == []
    || (&& Allowed(g, events[0])
        && (events[0].Store? ==> now < events[0].step.at)
        && LivesFrom(React(g, events[0], cfg), if events[0].Store? then events[0].step.at else now, events[1..], cfg))
  }

  function StepsOf(events: seq<Event>): seq<Step> {
    if events == [] then [] else (if events[0].Store? then [events[0].step] else []) + StepsOf(events[1..])
  }

  /** So the store only ever sees finishes of attempts in flight, under their own provider: every history
      of live requests, cancellations and crashes is one of the runs above. */
  lemma {:induction false} RequestsRunProperly(g: Gateway, now: Instant, events: seq<Event>, cfg: Config)
    requires HeldInFlight(g) && LivesFrom(g, now, events, cfg)
    ensures RunsFrom(g.db, now, StepsOf(events), cfg)
    ensures Live(g, events, cfg).db == Run(g.db, StepsOf(events), cfg)
    ensures HeldInFlight(Live(g, events, cfg))
    decreases |events|
  {
    if events != [] {
      var e := events[0];
      EventKeepsHeld(g, e, cfg);
      var g' := React(g, e, cfg);
      RequestsRunProperly(g', if e.Store? then e.step.at else now, events[1..], cfg);
      var rest := StepsOf(events[1..]);
      if e.Store? {
        assert StepsOf(events) == [e.step] + rest;
        assert StepsOf(events)[1..] == rest;
      } else {
        assert StepsOf(events) == rest;
      }
    }
  }

  // ---- Why a finish must be held ----

  const GPT := Resource("profile", "gpt")

  /** The finish statement does not look at the attempt's state. Finishing an attempt that a restart has made
      unknown takes the last unknown attempt from behind its quarantine row. */
  lemma StrayFinishBreaksQuarantine(cfg: Config)
    ensures var steps := [Step(DoReserve(GPT, "a", "q", 0), 1), Step(Restart, 2),
                          Step(DoFinish(GPT, "a", Answer(InvalidOutput, None)), 3)];
            var db := Run(EMPTY, steps, cfg);
            && RunsFrom(EMPTY, 0, steps[..2], cfg)
            && GPT in db.availability && db.availability[GPT].reason == SubmissionUnknown
            && !HasUnknown(db.attempts, GPT)
            && !Invariant(db, 3)
  {
    var reserve, restart := Step(DoReserve(GPT, "a", "q", 0), 1), Step(Restart, 2);
    var finish := Step(DoFinish(GPT, "a", Answer(InvalidOutput, None)), 3);
    ThreeSteps(reserve, restart, finish, cfg);
    ReservedThenUnknown(cfg);
    FinishedBehindQuarantine(cfg);
    assert [reserve, restart, finish][..2] == [reserve, restart];
    TwoProperSteps(reserve, restart, cfg);
    assert !QuarantinesAreBacked(Apply(UNKNOWN, finish, cfg));
  }

  const UNKNOWN := Db(map["a" := Attempt(GPT, "q", 0, Unknown, 1, 2)],
                      map[GPT := Availability(SubmissionUnknown, None, None, 2)])

  lemma ReservedThenUnknown(cfg: Config)
    ensures Apply(Apply(EMPTY, Step(DoReserve(GPT, "a", "q", 0), 1), cfg), Step(Restart, 2), cfg) == UNKNOWN
  {
    assert Reserve(EMPTY, GPT, "a", "q", 0, 1).0 == Db(map["a" := Attempt(GPT, "q", 0, Reserved, 1, 1)], map[]);
    OneUnknownAfterRestart(cfg);
  }

  lemma FinishedBehindQuarantine(cfg: Config)
    ensures var after := Apply(UNKNOWN, Step(DoFinish(GPT, "a", Answer(InvalidOutput, None)), 3), cfg);
            && GPT in after.availability && after.availability[GPT].reason == SubmissionUnknown
            && !HasUnknown(after.attempts, GPT)
  {
    var after := Apply(UNKNOWN, Step(DoFinish(GPT, "a", Answer(InvalidOutput, None)), 3), cfg);
    assert after.attempts == map["a" := Attempt(GPT, "q", 0, Finished, 1, 3)];
  }

  lemma TwoProperSteps(a: Step, b: Step, cfg: Config)
    requires 0 < a.at < b.at && !a.op.DoFinish? && !b.op.DoFinish?
    ensures RunsFrom(EMPTY, 0, [a, b], cfg)
  {
    assert [a, b][1..] == [b] && [b][1..] == [];
    assert RunsFrom(Apply(EMPTY, a, cfg), a.at, [b], cfg);
  }

  lemma ThreeSteps(a: Step, b: Step, c: Step, cfg: Config)
    ensures Run(EMPTY, [a, b, c], cfg) == Apply(Apply(Apply(EMPTY, a, cfg), b, cfg), c, cfg)
  {
    var one := Apply(EMPTY, a, cfg);
    assert [a, b, c][1..] == [b, c] && [b, c][1..] == [c] && [c][1..] == [];
    assert Run(one, [b, c], cfg) == Run(Apply(one, b, cfg), [c], cfg);
  }

  lemma OneUnknownAfterRestart(cfg: Config)
    ensures Start(Db(map["a" := Attempt(GPT, "q", 0, Reserved, 1, 1)], map[]), 2, cfg)
            == Db(map["a" := Attempt(GPT, "q", 0, Unknown, 1, 2)],
                  map[GPT := Availability(SubmissionUnknown, None, None, 2)])
  {
    var attempts := Orphaned(map["a" := Attempt(GPT, "q", 0, Reserved, 1, 1)], 2);
    assert attempts == map["a" := Attempt(GPT, "q", 0, Unknown, 1, 2)];
    assert UnknownResources(attempts) == {GPT} by {
      assert attempts["a"].resource == GPT;
    }
    assert Quarantined(map[], {GPT}, 2) == map[GPT := Availability(SubmissionUnknown, None, None, 2)];
  }
}
