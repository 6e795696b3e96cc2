/** Reminders, notification preferences and the dispatch worker, one atomic step per transaction. */
module Reminders {
  import opened Common

  type ReminderId = nat
  type ApplicationId = nat
  type UserId = nat
  type WorkerId = nat
  type Time = nat

  datatype Status = Scheduled | Delivered | Read | Snoozed | Cancelled | Failed

  /** REMINDER_TRANSITIONS. */
  predicate Allowed(current: Status, target: Status) {
    match current
    case Scheduled => target in {Snoozed, Cancelled}
    case Snoozed => target in {Scheduled, Cancelled}
    case Delivered => target in {Read, Snoozed}
    case Read => false
    case Cancelled => target == Scheduled
    case Failed => target in {Scheduled, Cancelled}
  }

  datatype Reminder = Reminder(
    application: ApplicationId,
    key: string,
    scheduledAt: Time,
    timezone: string,
    message: Option<string>,
    status: Status,
    deliveredAt: Option<Time>,
    readAt: Option<Time>,
    failure: Option<string>
  )

  /** Left out of the payload, an explicit null, or a value. */
  datatype Field<+T> = Unset | Null | Set(value: T)

  datatype Patch = Patch(status: Field<Status>, scheduledAt: Field<Time>, timezone: Field<string>,
                         message: Field<string>)

  datatype NewReminder = NewReminder(key: string, scheduledAt: Time, timezone: string, message: Option<string>)

  datatype Health = Health(
    lastStarted: Option<Time>,
    lastCompleted: Option<Time>,
    processed: nat,
    failed: nat,
    lastError: Option<string>
  )

  /**
   * A dispatch between its two transactions. It works from the health row it loaded: sessions do not
   * expire objects on commit. `base` is the number of deliveries there had been when it loaded it.
   */
  datatype Worker = Worker(now: Time, loaded: Health, base: nat)

  datatype System = System(
    owners: map<ApplicationId, UserId>,
    reminders: map<ReminderId, Reminder>,
    preferences: map<UserId, bool>,
    health: Option<Health>,
    workers: map<WorkerId, Worker>,
    /** Every delivery and every DELIVERED to SNOOZED move so far, by reminder. */
    deliveries: multiset<ReminderId>,
    snoozes: multiset<ReminderId>,
    usedReminders: set<ReminderId>,
    usedApplications: set<ApplicationId>
  )

  datatype ReminderError = NotFound | InvalidTransition | NullViolation | DispatchFailed(error: string)

  // ---- Student operations -----------------------------------------------------------------------

  predicate OptedOut(preferences: map<UserId, bool>, user: UserId) {
    user in preferences && !preferences[user]
  }

  predicate Owns(s: System, user: UserId, application: ApplicationId) {
    application in s.owners && s.owners[application] == user
  }

  predicate Awaiting(r: Reminder) {
    r.status in {Scheduled, Snoozed}
  }

  function Existing(reminders: map<ReminderId, Reminder>, application: ApplicationId, key: string): set<ReminderId> {
    set id | id in reminders && reminders[id].application == application && reminders[id].key == key
  }

  function Fresh(application: ApplicationId, req: NewReminder): Reminder {
    Reminder(application, req.key, req.scheduledAt, req.timezone, req.message, Scheduled, None, None, None)
  }

  function Created(s: System, id: ReminderId, application: ApplicationId, user: UserId, taskOk: bool,
                   req: NewReminder): System
  {
    if !Owns(s, user, application) || !taskOk || Existing(s.reminders, application, req.key) != {} then s
    else s.(reminders := s.reminders[id := Fresh(application, req)], usedReminders := s.usedReminders + {id})
  }

  function Patched(r: Reminder, p: Patch, now: Time): Result<Reminder, ReminderError> {
    if p.status.Set? && p.status.value != r.status && !Allowed(r.status, p.status.value) then Err(InvalidTransition)
    else if p.status.Null? || p.scheduledAt.Null? || p.timezone.Null? then Err(NullViolation)
    else
      var rearmed := p.status.Set? && p.status.value == Scheduled;
      Ok(r.(status := if p.status.Set? then p.status.value else r.status,
            scheduledAt := if p.scheduledAt.Set? then p.scheduledAt.value else r.scheduledAt,
            timezone := if p.timezone.Set? then p.timezone.value else r.timezone,
            message := match p.message case Unset => r.message case Null => None case Set(m) => Some(m),
            deliveredAt := if rearmed then None else r.deliveredAt,
            readAt := if p.status.Set? && p.status.value == Read then Some(now) else if rearmed then None else r.readAt,
            failure := if rearmed then None else r.failure))
  }

  predicate Reachable(s: System, application: ApplicationId, id: ReminderId, user: UserId) {
    id in s.reminders && s.reminders[id].application == application && Owns(s, user, application)
  }

  function Updated(s: System, application: ApplicationId, id: ReminderId, user: UserId, p: Patch, now: Time): System {
    if !Reachable(s, application, id, user) then s
    else
      var before, after := s.reminders[id], Patched(s.reminders[id], p, now);
      if after.Err? then s
      else
        var undone := before.status == Delivered && after.value.status == Snoozed;
        s.(reminders := s.reminders[id := after.value],
           snoozes := if undone then s.snoozes + multiset{id} else s.snoozes)
  }

  /** Opting out also cancels whatever still waits for delivery. */
  function Preferred(s: System, user: UserId, enabled: bool): System {
    s.(preferences := s.preferences[user := enabled],
       reminders :=
         if enabled then s.reminders
         else map id | id in s.reminders :: CancelledFor(s, user, s.reminders[id]))
  }

  function CancelledFor(s: System, user: UserId, r: Reminder): Reminder {
    if Owns(s, user, r.application) && Awaiting(r) then r.(status := Cancelled) else r
  }

  function Opened(s: System, application: ApplicationId, user: UserId): System {
    s.(owners := s.owners[application := user], usedApplications := s.usedApplications + {application})
  }

  /** Deleting an application takes its reminders with it. */
  function Closed(s: System, application: ApplicationId): System {
    s.(owners := s.owners - {application},
       reminders := map id | id in s.reminders && s.reminders[id].application != application :: s.reminders[id])
  }

  // ---- The worker -------------------------------------------------------------------------------

  const NO_HEALTH := Health(None, None, 0, 0, None)

  function StartedHealth(health: Option<Health>, now: Time): Health {
    (if health.Some? then health.value else NO_HEALTH).(lastStarted := Some(now))
  }

  function Started(s: System, worker: WorkerId, now: Time): System {
    var h := StartedHealth(s.health, now);
    s.(health := Some(h), workers := s.workers[worker := Worker(now, h, |s.deliveries|)])
  }

  function Claimed(s: System, now: Time): set<ReminderId> {
    set id |
      && id in s.reminders
      && s.reminders[id].application in s.owners
      && !OptedOut(s.preferences, s.owners[s.reminders[id].application])
      && Awaiting(s.reminders[id])
      && s.reminders[id].scheduledAt <= now
  }

  function Deliver(r: Reminder, now: Time): Reminder {
    r.(status := Delivered, deliveredAt := Some(now), failure := None)
  }

  /** A flush writes the columns whose value differs from the one loaded, and no other. */
  function Flushed(current: Health, loaded: Health, wanted: Health): Health {
    Health(if wanted.lastStarted != loaded.lastStarted then wanted.lastStarted else current.lastStarted,
           if wanted.lastCompleted != loaded.lastCompleted then wanted.lastCompleted else current.lastCompleted,
           if wanted.processed != loaded.processed then wanted.processed else current.processed,
           if wanted.failed != loaded.failed then wanted.failed else current.failed,
           if wanted.lastError != loaded.lastError then wanted.lastError else current.lastError)
  }

  function Completed(loaded: Health, now: Time, count: nat): Health {
    loaded.(lastCompleted := Some(now), processed := loaded.processed + count, lastError := None)
  }

  /** The claim and its bookkeeping, in one transaction. */
  function Dispatched(s: System, now: Time, loaded: Health): System
    requires s.health.Some?
  {
    var ids := Claimed(s, now);
    s.(reminders := map id | id in s.reminders :: if id in ids then Deliver(s.reminders[id], now) else s.reminders[id],
       health := Some(Flushed(s.health.value, loaded, Completed(loaded, now, |ids|))),
       deliveries := s.deliveries + multiset(ids))
  }

  /** After the rollback the row is read again, so the failure is counted on its present value. */
  function FailureNoted(s: System, error: string): System
    requires s.health.Some?
  {
    s.(health := Some(s.health.value.(failed := s.health.value.failed + 1, lastError := Some(error))))
  }

  /** The dispatch commits, fails first and rolls back, or fails once its claim is committed. */
  datatype Outcome = Commits | FailsBefore(error: string) | FailsAfter(error: string)

  function Finished(s: System, worker: WorkerId, outcome: Outcome): System
    requires worker in s.workers && s.health.Some?
  {
    var w, rest := s.workers[worker], s.(workers := s.workers - {worker});
    match outcome
    case Commits => Dispatched(rest, w.now, w.loaded)
    case FailsBefore(e) => FailureNoted(rest, e)
    case FailsAfter(e) => FailureNoted(Dispatched(rest, w.now, w.loaded), e)
  }

  // ---- Actions ----------------------------------------------------------------------------------

  datatype Action =
    | Open(application: ApplicationId, user: UserId)
    | Close(application: ApplicationId)
    | Create(id: ReminderId, application: ApplicationId, user: UserId, taskOk: bool, req: NewReminder)
    | Update(application: ApplicationId, id: ReminderId, user: UserId, patch: Patch, now: Time)
    | Prefer(user: UserId, enabled: bool)
    | Start(worker: WorkerId, now: Time)
    | Finish(worker: WorkerId, outcome: Outcome)

  const EMPTY := System(map[], map[], map[], None, map[], multiset{}, multiset{}, {}, {})

  predicate Enabled(s: System, a: Action) {
    match a
    case Open(application, _) => application !in s.usedApplications
    case Create(id, _, _, _, _) => id !in s.usedReminders
    case Start(worker, _) => worker !in s.workers
    case Finish(worker, _) => worker in s.workers && s.health.Some?
    case _ => true
  }

  function Step(s: System, a: Action): System
    requires Enabled(s, a)
  {
    match a
    case Open(application, user) => Opened(s, application, user)
    case Close(application) => Closed(s, application)
    case Create(id, application, user, taskOk, req) => Created(s, id, application, user, taskOk, req)
    case Update(application, id, user, patch, now) => Updated(s, application, id, user, patch, now)
    case Prefer(user, enabled) => Preferred(s, user, enabled)
    case Start(worker, now) => Started(s, worker, now)
    case Finish(worker, outcome) => Finished(s, worker, outcome)
  }
}
