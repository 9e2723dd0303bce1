/**
 The browser gateway's persistent state: attempts that may be in flight or of unknown outcome, and the
 availability row of each provider. Each operation is one transaction at its own instant.
 */
module GatewayStore {
  import opened Wrappers

  type Id = string
  type Instant = int

  datatype Status =
    | Succeeded | RateLimited | LoginRequired | VerificationRequired | Disconnected | UiChanged
    | Temporary | InvalidOutput | SubmissionUnknown | InvalidRequest | Refused

  predicate IsRequestFailure(s: Status) {
    s == InvalidOutput || s == InvalidRequest
  }

  /** A provider as seen by one browser profile. */
  datatype Resource = Resource(profile: Id, provider: Id)

  datatype AttemptState = Reserved | Submitted | Unknown | Finished

  datatype Attempt = Attempt(
    resource: Resource, request: Id, slot: nat, state: AttemptState, createdAt: Instant, updatedAt: Instant)

  datatype Availability = Availability(
    reason: Status, resetAt: Option<Instant>, nextCheckAt: Option<Instant>, updatedAt: Instant)

  datatype Answer = Answer(status: Status, resetAt: Option<Instant>)

  datatype Db = Db(attempts: map<Id, Attempt>, availability: map<Resource, Availability>)

  datatype Config = Config(retrySeconds: nat, retentionDays: nat)

  predicate InFlight(a: Attempt) {
    a.state == Reserved || a.state == Submitted
  }

  predicate IsActive(a: Attempt) {
    a.state != Finished
  }

  predicate HasUnknown(attempts: map<Id, Attempt>, r: Resource) {
    exists id :: id in attempts && attempts[id].resource == r && attempts[id].state == Unknown
  }

  /** Late events of a repaired job carry the attempt's id with a suffix. */
  function BaseId(id: Id): Id {
    if |id| >= 7 && id[|id| - 7..] == "-repair" then id[..|id| - 7] else id
  }

  // ---- Transactions ----

  function Orphaned(attempts: map<Id, Attempt>, now: Instant): map<Id, Attempt> {
    map id | id in attempts ::
      if InFlight(attempts[id]) then attempts[id].(state := Unknown, updatedAt := now) else attempts[id]
  }

  function UnknownResources(attempts: map<Id, Attempt>): set<Resource> {
    set id | id in attempts && attempts[id].state == Unknown :: attempts[id].resource
  }

  function Quarantined(availability: map<Resource, Availability>, unknown: set<Resource>, now: Instant)
    : map<Resource, Availability>
  {
    map r | r in availability.Keys + unknown ::
      if r in unknown && (r !in availability || availability[r].reason != RateLimited)
      then Availability(SubmissionUnknown, None, None, now)
      else availability[r]
  }

  /** Crash recovery: nothing that was in flight can still be trusted. */
  function Start(db: Db, now: Instant, cfg: Config): Db {
    var attempts := Orphaned(db.attempts, now);
    var rows := Quarantined(db.availability, UnknownResources(attempts), now);
    Db(map id | id in attempts
            && !(attempts[id].state == Finished && attempts[id].updatedAt < now - cfg.retentionDays * 86400)
         :: attempts[id],
       map r | r in rows && !IsRequestFailure(rows[r].reason) :: rows[r])
  }

  predicate Blocked(availability: map<Resource, Availability>, r: Resource, now: Instant) {
    r in availability && (availability[r].nextCheckAt.None? || availability[r].nextCheckAt.value > now)
  }

  predicate SlotTaken(attempts: map<Id, Attempt>, r: Resource, slot: nat) {
    exists id :: id in attempts && attempts[id].resource == r && attempts[id].slot == slot && IsActive(attempts[id])
  }

  function Reserve(db: Db, r: Resource, id: Id, request: Id, slot: nat, now: Instant): (Db, bool) {
    if Blocked(db.availability, r, now) || HasUnknown(db.attempts, r)
       || id in db.attempts || SlotTaken(db.attempts, r, slot)
    then (db, false)
    else (db.(attempts := db.attempts[id := Attempt(r, request, slot, Reserved, now, now)]), true)
  }

  function Submit(db: Db, id: Id, now: Instant): Db {
    var base := BaseId(id);
    if base in db.attempts && db.attempts[base].state == Reserved
    then db.(attempts := db.attempts[base := db.attempts[base].(state := Submitted, updatedAt := now)])
    else db
  }

  /** The availability row after a result that says something about the provider. */
  function Reported(availability: map<Resource, Availability>, r: Resource, result: Answer, now: Instant, cfg: Config)
    : map<Resource, Availability>
  {
    var next := if result.resetAt.Some? then result.resetAt.value else now + cfg.retrySeconds;
    var row := Availability(
                 result.status, result.resetAt, if result.status == SubmissionUnknown then None else Some(next), now);
    if r !in availability
       || (availability[r].reason != RateLimited && availability[r].reason != SubmissionUnknown)
       || (availability[r].nextCheckAt.Some? && availability[r].nextCheckAt.value <= now)
       || result.status == RateLimited
    then availability[r := row]
    else availability
  }

  function Finish(db: Db, r: Resource, id: Id, result: Answer, now: Instant, cfg: Config): Db {
    var attempts := if id in db.attempts
                    then db.attempts[id := db.attempts[id].(
                           state := if result.status == SubmissionUnknown then Unknown else Finished, updatedAt := now)]
                    else db.attempts;
    var rows := if IsRequestFailure(result.status) then db.availability
                else if result.status == Succeeded || result.status == Refused then
                  if r in db.availability && id in attempts
                     && db.availability[r].updatedAt <= attempts[id].createdAt
                  then db.availability - {r}
                  else db.availability
                else Reported(db.availability, r, result, now, cfg);
    Db(attempts, rows)
  }

  /** A late result reconciles an attempt of unknown outcome, and nothing else. */
  function Terminal(db: Db, r: Resource, id: Id, now: Instant): Db {
    var base := BaseId(id);
    if base in db.attempts && db.attempts[base].resource == r && db.attempts[base].state == Unknown then
      var attempts := db.attempts[base := db.attempts[base].(state := Finished, updatedAt := now)];
      Db(attempts,
         if r in db.availability && db.availability[r].reason == SubmissionUnknown && !HasUnknown(attempts, r)
         then db.availability - {r} else db.availability)
    else db
  }

  function Reset(db: Db, profile: Id, now: Instant): Db {
    Db(map id | id in db.attempts ::
         if db.attempts[id].resource.profile == profile && db.attempts[id].state == Unknown
         then db.attempts[id].(state := Finished, updatedAt := now) else db.attempts[id],
       map r | r in db.availability && r.profile != profile :: db.availability[r])
  }

  class PostgresStore {
    var attempts: map<Id, Attempt>
    var rows: map<Resource, Availability>
    const cfg: Config

    ghost function State(): Db
      reads this
    {
      Db(attempts, rows)
    }

    constructor (cfg: Config)
      ensures this.cfg == cfg && State() == Db(map[], map[])
    {
      this.cfg, attempts, rows := cfg, map[], map[];
    }

    method StartUp(now: Instant)
      modifies this
      ensures State() == Start(old(State()), now, cfg)
    {
      attempts := map id | id in attempts ::
        if InFlight(attempts[id]) then attempts[id].(state := Unknown, updatedAt := now) else attempts[id];
      var unknown := set id | id in attempts && attempts[id].state == Unknown :: attempts[id].resource;
      rows := map r | r in rows.Keys + unknown ::
        if r in unknown && (r !in rows || rows[r].reason != RateLimited)
        then Availability(SubmissionUnknown, None, None, now)
        else rows[r];
      rows := map r | r in rows && !IsRequestFailure(rows[r].reason) :: rows[r];
      attempts := map id | id in attempts
                        && !(attempts[id].state == Finished && attempts[id].updatedAt < now - cfg.retentionDays * 86400)
                     :: attempts[id];
    }

    method TryReserve(r: Resource, id: Id, request: Id, slot: nat, now: Instant) returns (reserved: bool)
      modifies this
      ensures (State(), reserved) == Reserve(old(State()), r, id, request, slot, now)
    {
      reserved := !(Blocked(rows, r, now) || HasUnknown(attempts, r) || id in attempts || SlotTaken(attempts, r, slot));
      if reserved {
        attempts := attempts[id := Attempt(r, request, slot, Reserved, now, now)];
      }
    }

    method MarkSubmitted(id: Id, now: Instant)
      modifies this
      ensures State() == Submit(old(State()), id, now)
    {
      var base := BaseId(id);
      if base in attempts && attempts[base].state == Reserved {
        attempts := attempts[base := attempts[base].(state := Submitted, updatedAt := now)];
      }
    }

    method FinishAttempt(r: Resource, id: Id, result: Answer, now: Instant)
      modifies this
      ensures State() == Finish(old(State()), r, id, result, now, cfg)
    {
      if id in attempts {
        var state := if result.status == SubmissionUnknown then Unknown else Finished;
        attempts := attempts[id := attempts[id].(state := state, updatedAt := now)];
      }
      if IsRequestFailure(result.status) {
        return;
      }
      if result.status == Succeeded || result.status == Refused {
        if r in rows && id in attempts && rows[r].updatedAt <= attempts[id].createdAt {
          rows := rows - {r};
        }
      } else {
        rows := Reported(rows, r, result, now, cfg);
      }
    }

    method Reconcile(r: Resource, id: Id, now: Instant)
      modifies this
      ensures State() == Terminal(old(State()), r, id, now)
    {
      var base := BaseId(id);
      if base in attempts && attempts[base].resource == r && attempts[base].state == Unknown {
        attempts := attempts[base := attempts[base].(state := Finished, updatedAt := now)];
        if r in rows && rows[r].reason == SubmissionUnknown && !HasUnknown(attempts, r) {
          rows := rows - {r};
        }
      }
    }

    method ResetProfile(profile: Id, now: Instant)
      modifies this
      ensures State() == Reset(old(State()), profile, now)
    {
      attempts := map id | id in attempts ::
        if attempts[id].resource.profile == profile && attempts[id].state == Unknown
        then attempts[id].(state := Finished, updatedAt := now) else attempts[id];
      rows := map r | r in rows && r.profile != profile :: rows[r];
    }
  }
}
