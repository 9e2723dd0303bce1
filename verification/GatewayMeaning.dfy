/**
 What each transaction of the gateway store means for the provider it names: when a slot is granted, what a result
 records or clears, and how a blocked provider opens again.
 */
module GatewayMeaning {
  import opened Wrappers
  import opened GatewayStore
  import opened GatewaySafety

  // ---- Reservations ----

  /** A row bars its provider until its next check has come; without one, for good. */
  predicate Barred(db: Db, r: Resource, now: Instant) {
    r in db.availability && !(db.availability[r].nextCheckAt.Some? && db.availability[r].nextCheckAt.value <= now)
  }

  /** Nothing of the provider is of unknown outcome, and nothing unfinished sits on the slot. */
  ghost predicate SlotIsFree(db: Db, r: Resource, slot: nat) {
    forall id :: id in db.attempts && db.attempts[id].resource == r ==>
                   && db.attempts[id].state != Unknown
                   && (db.attempts[id].slot == slot ==> db.attempts[id].state == Finished)
  }

  /** A slot is granted exactly when nothing stands in the way, and a grant adds one reserved attempt. */
  lemma GrantedExactlyWhen(db: Db, r: Resource, id: Id, request: Id, slot: nat, now: Instant)
    ensures var (after, granted) := Reserve(db, r, id, request, slot, now);
            && (granted <==> !Barred(db, r, now) && SlotIsFree(db, r, slot) && id !in db.attempts)
            && after.availability == db.availability
            && after.attempts == if granted then db.attempts[id := Attempt(r, request, slot, Reserved, now, now)]
                                 else db.attempts
  {
  }

  // ---- Results ----

  predicate SpeaksOfProvider(s: Status) {
    s != Succeeded && s != Refused && s != InvalidOutput && s != InvalidRequest
  }

  /** A row that a weaker report may not touch: a rate limit or quarantine that has not run out. */
  predicate IsShielded(db: Db, r: Resource, now: Instant) {
    && r in db.availability
    && (db.availability[r].reason == RateLimited || db.availability[r].reason == SubmissionUnknown)
    && !(db.availability[r].nextCheckAt.Some? && db.availability[r].nextCheckAt.value <= now)
  }

  /** A result settles its own attempt and no other; an unknown submission leaves it unknown. */
  lemma FinishSettlesItsAttempt(db: Db, r: Resource, id: Id, result: Answer, now: Instant, cfg: Config)
    ensures var after := Finish(db, r, id, result, now, cfg).attempts;
            && after.Keys == db.attempts.Keys
            && (forall other :: other in after && other != id ==> after[other] == db.attempts[other])
            && (id in after ==>
                  after[id] == db.attempts[id].(
                    state := if result.status == SubmissionUnknown then Unknown else Finished, updatedAt := now))
  {
  }

  /** A report about the provider is written down unless the row is shielded; a rate limit always is. */
  lemma ReportIsRecorded(db: Db, r: Resource, id: Id, result: Answer, now: Instant, cfg: Config)
    requires SpeaksOfProvider(result.status)
    ensures var after := Finish(db, r, id, result, now, cfg).availability;
            var next := if result.resetAt.Some? then result.resetAt.value else now + cfg.retrySeconds;
            && (forall x :: x != r ==> (x in after <==> x in db.availability))
            && (forall x :: x != r && x in after ==> after[x] == db.availability[x])
            && r in after
            && after[r] == if IsShielded(db, r, now) && result.status != RateLimited then db.availability[r]
                           else Availability(result.status, result.resetAt,
                                             if result.status == SubmissionUnknown then None else Some(next), now)
  {
  }

  /** So a rate limit, the first one included, keeps the provider shut until its reset. */
  lemma LimitIsRecorded(db: Db, r: Resource, id: Id, resetAt: Option<Instant>, now: Instant, cfg: Config)
    ensures var after := Finish(db, r, id, Answer(RateLimited, resetAt), now, cfg);
            var next := if resetAt.Some? then resetAt.value else now + cfg.retrySeconds;
            && r in after.availability && after.availability[r].reason == RateLimited
            && after.availability[r].nextCheckAt == Some(next)
            && (forall other, request, slot, at :: at < next ==> !Reserve(after, r, other, request, slot, at).1)
  {
    ReportIsRecorded(db, r, id, Answer(RateLimited, resetAt), now, cfg);
  }

  /** A success or a refusal clears exactly the row that is no newer than the attempt; request failures clear and
      record nothing. */
  lemma SuccessClearsItsRow(db: Db, r: Resource, id: Id, result: Answer, now: Instant, cfg: Config)
    requires !SpeaksOfProvider(result.status)
    ensures var after := Finish(db, r, id, result, now, cfg).availability;
            var cleared := && (result.status == Succeeded || result.status == Refused)
                           && r in db.availability && id in db.attempts
                           && db.availability[r].updatedAt <= db.attempts[id].createdAt;
            after == if cleared then db.availability - {r} else db.availability
  {
  }

  /** Over any run: from the report of a rate limit on, the provider stays limited and refuses every reservation up
      to any instant before its reset, unless its profile is reset or a later report names an earlier one. */
  lemma ReportedLimitHolds(now: Instant, steps: seq<Step>, k: nat, cfg: Config, r: Resource, limit: Instant)
    requires RunsFrom(EMPTY, now, steps, cfg) && k < |steps|
    requires steps[k].op.DoFinish? && steps[k].op.resource == r && steps[k].op.result.status == RateLimited
    requires limit < var reset := steps[k].op.result.resetAt;
                     if reset.Some? then reset.value else steps[k].at + cfg.retrySeconds
    requires forall s :: s in steps[k + 1..] ==>
                           && s.at <= limit
                           && !(s.op.DoReset? && s.op.profile == r.profile)
                           && (ReportsLimit(s, r) ==> NextCheck(s, cfg) > limit)
    ensures var db := Run(EMPTY, steps, cfg);
            && LimitedAt(db, r, limit)
            && (forall id, request, slot, at :: at <= limit ==> !Reserve(db, r, id, request, slot, at).1)
  {
    var s, before := steps[k], Run(EMPTY, steps[..k], cfg);
    RunSplits(EMPTY, now, steps, k, cfg);
    InvariantHolds(EMPTY, now, steps[..k], cfg);
    StepKeepsInvariant(before, EndOf(now, steps[..k]), s, cfg);
    LimitIsRecorded(before, r, s.op.attempt, s.op.result.resetAt, s.at, cfg);
    RunContinues(EMPTY, now, steps, k + 1, cfg);
    RateLimitHoldsUntil(Apply(before, s, cfg), s.at, steps[k + 1..], cfg, r, limit);
  }

  /** A run is its first steps, and then the rest from where they end. */
  lemma {:induction false} RunContinues(db: Db, now: Instant, steps: seq<Step>, k: nat, cfg: Config)
    requires RunsFrom(db, now, steps, cfg) && k <= |steps|
    ensures Run(db, steps, cfg) == Run(Run(db, steps[..k], cfg), steps[k..], cfg)
    ensures RunsFrom(Run(db, steps[..k], cfg), EndOf(now, steps[..k]), steps[k..], cfg)
    decreases k
  {
    if k == 0 {
      assert steps[..0] == [] && steps[0..] == steps;
    } else {
      RunContinues(Apply(db, steps[0], cfg), steps[0].at, steps[1..], k - 1, cfg);
      assert steps[1..][..k - 1] == steps[..k][1..] && steps[1..][k - 1..] == steps[k..];
    }
  }

  // ---- Recovery ----

  /** A restart: attempts in flight become unknown, old finished ones are forgotten, the rest stay. */
  lemma RestartedAttempts(db: Db, now: Instant, cfg: Config)
    ensures var after := Start(db, now, cfg).attempts;
            forall id ::
              && (id in after <==>
                    && id in db.attempts
                    && !(db.attempts[id].state == Finished
                         && db.attempts[id].updatedAt < now - cfg.retentionDays * 86400))
              && (id in after ==>
                    after[id] == if db.attempts[id].state == Reserved || db.attempts[id].state == Submitted
                                 then db.attempts[id].(state := Unknown, updatedAt := now) else db.attempts[id])
  {
  }

  ghost predicate Unfinished(db: Db, r: Resource) {
    exists id :: id in db.attempts && db.attempts[id].resource == r && db.attempts[id].state != Finished
  }

  /** Providers with anything unfinished are quarantined for good unless they are rate limited; rows about requests
      are forgotten, and all others stay. */
  lemma RestartedRows(db: Db, now: Instant, cfg: Config, r: Resource)
    ensures var after := Start(db, now, cfg).availability;
            var limited := r in db.availability && db.availability[r].reason == RateLimited;
            if Unfinished(db, r) && !limited
            then r in after && after[r] == Availability(SubmissionUnknown, None, None, now)
            else
              && (r in after <==>
                    r in db.availability && db.availability[r].reason != InvalidOutput
                    && db.availability[r].reason != InvalidRequest)
              && (r in after ==> after[r] == db.availability[r])
  {
    var attempts := Orphaned(db.attempts, now);
    assert r in UnknownResources(attempts) <==> Unfinished(db, r) by {
      if Unfinished(db, r) {
        var id :| id in db.attempts && db.attempts[id].resource == r && db.attempts[id].state != Finished;
        assert id in attempts && attempts[id].state == Unknown && attempts[id].resource == r;
      }
    }
  }

  /** A late result settles an unknown attempt of its provider, under the attempt's own or its repair's id, and the
      quarantine goes with the last of them; nothing else changes. */
  lemma LateResultReopens(db: Db, r: Resource, base: Id, suffixed: bool, now: Instant)
    requires !(|base| >= 7 && base[|base| - 7..] == "-repair")
    ensures var after := Terminal(db, r, if suffixed then base + "-repair" else base, now);
            var unknown := base in db.attempts && db.attempts[base].resource == r && db.attempts[base].state == Unknown;
            var last := forall id :: id in db.attempts && id != base && db.attempts[id].resource == r ==>
                                       db.attempts[id].state != Unknown;
            var lifted := unknown && last && r in db.availability && db.availability[r].reason == SubmissionUnknown;
            && after.attempts == (if unknown
                                  then db.attempts[base := db.attempts[base].(state := Finished, updatedAt := now)]
                                  else db.attempts)
            && after.availability == if lifted then db.availability - {r} else db.availability
  {
    if suffixed {
      assert (base + "-repair")[|base|..] == "-repair" && (base + "-repair")[..|base|] == base;
    }
    if base in db.attempts && db.attempts[base].resource == r {
      OthersUnknown(db.attempts, r, base, db.attempts[base].(state := Finished, updatedAt := now));
    }
  }

  /** Once the attempt is settled, what is unknown of the provider are its other attempts. */
  lemma OthersUnknown(attempts: map<Id, Attempt>, r: Resource, base: Id, settled: Attempt)
    requires settled.state == Finished
    ensures HasUnknown(attempts[base := settled], r) <==>
            exists id :: id in attempts && id != base && attempts[id].resource == r && attempts[id].state == Unknown
  {
    var after := attempts[base := settled];
    if HasUnknown(after, r) {
      var id :| id in after && after[id].resource == r && after[id].state == Unknown;
      assert id in attempts && id != base;
    }
    if id :| id in attempts && id != base && attempts[id].resource == r && attempts[id].state == Unknown {
      assert id in after && after[id] == attempts[id];
    }
  }

  /** After a reset nothing of the profile is barred or unknown, so every slot without an attempt in flight can be
      reserved again; other profiles are as they were. */
  lemma ResetReopens(db: Db, profile: Id, now: Instant, r: Resource, slot: nat, id: Id, request: Id, at: Instant)
    ensures var after := Reset(db, profile, now);
            && (r.profile == profile ==>
                  (Reserve(after, r, id, request, slot, at).1 <==>
                     && id !in db.attempts
                     && forall x :: x in db.attempts && db.attempts[x].resource == r && db.attempts[x].slot == slot ==>
                                      db.attempts[x].state != Reserved && db.attempts[x].state != Submitted))
            && (r.profile != profile ==>
                  && (r in after.availability <==> r in db.availability)
                  && (r in db.availability ==> after.availability[r] == db.availability[r]))
            && (forall x :: x in db.attempts && db.attempts[x].resource.profile != profile ==>
                              x in after.attempts && after.attempts[x] == db.attempts[x])
  {
    var after := Reset(db, profile, now);
    GrantedExactlyWhen(after, r, id, request, slot, at);
    if r.profile == profile {
      assert r !in after.availability;
      assert forall x :: x in after.attempts <==> x in db.attempts;
    }
  }

  /** Only a reserved attempt is marked as submitted, under its own or its repair's id. */
  lemma SubmissionIsMarked(db: Db, base: Id, suffixed: bool, now: Instant)
    requires !(|base| >= 7 && base[|base| - 7..] == "-repair")
    ensures var after := Submit(db, if suffixed then base + "-repair" else base, now);
            && after.availability == db.availability
            && after.attempts == if base in db.attempts && db.attempts[base].state == Reserved
                                 then db.attempts[base := db.attempts[base].(state := Submitted, updatedAt := now)]
                                 else db.attempts
  {
    if suffixed {
      assert (base + "-repair")[|base|..] == "-repair" && (base + "-repair")[..|base|] == base;
    }
  }
}
