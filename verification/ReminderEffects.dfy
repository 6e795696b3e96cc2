/** What a caller sees of each reminder operation and of a dispatch: every column, counter and answer. */
module ReminderEffects {
  import opened Common
  import opened Reminders

  // ---- Statuses ---------------------------------------------------------------------------------

  /** From where each status can be reached; nothing but the worker delivers, and nothing fails a reminder. */
  lemma StatusesReached(current: Status, target: Status)
    ensures target == Scheduled ==> (Allowed(current, target) <==> current in {Snoozed, Cancelled, Failed})
    ensures target == Snoozed ==> (Allowed(current, target) <==> current in {Scheduled, Delivered})
    ensures target == Cancelled ==> (Allowed(current, target) <==> current in {Scheduled, Snoozed, Failed})
    ensures target == Read ==> (Allowed(current, target) <==> current == Delivered)
    ensures target in {Delivered, Failed} ==> !Allowed(current, target)
  {
  }

  // ---- Creating and patching --------------------------------------------------------------------

  /** A new reminder waits as requested, under a key that no reminder of the application had. */
  ghost predicate CreationSeen(s: System, t: System, id: ReminderId, application: ApplicationId, user: UserId,
                               taskOk: bool, req: NewReminder)
  {
    if application !in s.owners || s.owners[application] != user || !taskOk
       || exists k :: k in s.reminders && s.reminders[k].application == application && s.reminders[k].key == req.key
    then t == s
    else
      && t.owners == s.owners && t.preferences == s.preferences && t.health == s.health
      && t.reminders == s.reminders[id := Reminder(application, req.key, req.scheduledAt, req.timezone, req.message,
                                                   Scheduled, None, None, None)]
  }

  lemma CreationIsSeen(s: System, id: ReminderId, application: ApplicationId, user: UserId, taskOk: bool,
                       req: NewReminder)
    ensures CreationSeen(s, Created(s, id, application, user, taskOk, req), id, application, user, taskOk, req)
  {
    if k :| k in s.reminders && s.reminders[k].application == application && s.reminders[k].key == req.key {
      assert k in Existing(s.reminders, application, req.key);
    }
  }

  /** The value a field has after a patch. */
  function Sent<T>(field: Field<T>, before: T): T {
    if field.Set? then field.value else before
  }

  /** Field by field; moving to SCHEDULED forgets the delivery, moving to READ records the time. */
  ghost predicate RowPatched(r: Reminder, q: Reminder, p: Patch, now: Time) {
    && q.application == r.application && q.key == r.key
    && q.status == Sent(p.status, r.status) && q.scheduledAt == Sent(p.scheduledAt, r.scheduledAt)
    && q.timezone == Sent(p.timezone, r.timezone)
    && q.message == (if p.message.Null? then None else if p.message.Set? then Some(p.message.value) else r.message)
    && q.deliveredAt == (if p.status == Set(Scheduled) then None else r.deliveredAt)
    && q.failure == (if p.status == Set(Scheduled) then None else r.failure)
    && q.readAt == (if p.status == Set(Read) then Some(now) else if p.status == Set(Scheduled) then None else r.readAt)
  }

  ghost predicate PatchSeen(r: Reminder, p: Patch, now: Time, reply: Result<Reminder, ReminderError>) {
    if p.status.Set? && p.status.value != r.status && !Allowed(r.status, p.status.value)
    then reply == Err(InvalidTransition)
    else if p.status == Null || p.scheduledAt == Null || p.timezone == Null then reply == Err(NullViolation)
    else reply.Ok? && RowPatched(r, reply.value, p, now)
  }

  /** An update changes the one reminder, or nothing and says why. */
  ghost predicate UpdateSeen(s: System, t: System, application: ApplicationId, id: ReminderId, user: UserId, p: Patch,
                             now: Time, reply: Result<Reminder, ReminderError>)
  {
    && t.owners == s.owners && t.preferences == s.preferences && t.health == s.health
    && (reply.Err? ==> t.reminders == s.reminders)
    && if id !in s.reminders || s.reminders[id].application != application
          || application !in s.owners || s.owners[application] != user
       then reply == Err(NotFound)
       else
         && PatchSeen(s.reminders[id], p, now, reply)
         && (reply.Ok? ==> t.reminders == s.reminders[id := reply.value])
  }

  lemma UpdateIsSeen(s: System, application: ApplicationId, id: ReminderId, user: UserId, p: Patch, now: Time)
    ensures var t := Updated(s, application, id, user, p, now);
            var known := Reachable(s, application, id, user);
            var reply := if known then Patched(s.reminders[id], p, now) else Err(NotFound);
            UpdateSeen(s, t, application, id, user, p, now, reply)
  {
    hide Allowed;
  }

  // ---- Opting out -------------------------------------------------------------------------------

  /** Only opting out touches reminders: those of the user's applications that still wait are cancelled. */
  ghost predicate PreferenceSeen(s: System, t: System, user: UserId, enabled: bool) {
    && t.owners == s.owners && t.health == s.health && t.preferences == s.preferences[user := enabled]
    && t.reminders.Keys == s.reminders.Keys
    && forall id :: id in s.reminders ==>
         var r := s.reminders[id];
         t.reminders[id] ==
           if !enabled && r.application in s.owners && s.owners[r.application] == user
              && (r.status == Scheduled || r.status == Snoozed)
           then r.(status := Cancelled) else r
  }

  lemma PreferenceIsSeen(s: System, user: UserId, enabled: bool)
    ensures PreferenceSeen(s, Preferred(s, user, enabled), user, enabled)
  {
  }

  /** Deleting an application deletes its reminders and no others. */
  lemma ClosureIsSeen(s: System, application: ApplicationId)
    ensures var t := Closed(s, application);
            && t.owners == s.owners - {application} && t.preferences == s.preferences && t.health == s.health
            && (forall id :: id in t.reminders <==> id in s.reminders && s.reminders[id].application != application)
            && forall id :: id in t.reminders ==> t.reminders[id] == s.reminders[id]
  {
  }

  // ---- Dispatch ---------------------------------------------------------------------------------

  /** Waiting, due, and its student has not opted out. */
  predicate Due(s: System, id: ReminderId, now: Time) {
    && id in s.reminders
    && (s.reminders[id].status == Scheduled || s.reminders[id].status == Snoozed)
    && s.reminders[id].scheduledAt <= now
    && s.reminders[id].application in s.owners
    && var user := s.owners[s.reminders[id].application];
       user in s.preferences ==> s.preferences[user]
  }

  /** Every due reminder is marked delivered now, and no other one is touched. */
  ghost predicate ClaimSeen(s: System, t: System, now: Time) {
    && t.reminders.Keys == s.reminders.Keys
    && forall id :: id in s.reminders ==>
         var r := s.reminders[id];
         t.reminders[id] ==
           if Due(s, id, now)
           then r.(status := Delivered, deliveredAt := Some(now), failure := None)
           else r
  }

  /** How many reminders are due. */
  function DueCount(s: System, now: Time): nat {
    |set id | id in s.reminders && Due(s, id, now)|
  }

  /** Everything one worker alone does: what is claimed, what the health row says afterwards, the answer. */
  ghost predicate DispatchSeen(s: System, t: System, now: Time, outcome: Outcome, r: Result<nat, ReminderError>) {
    var h := if s.health.Some? then s.health.value else Health(None, None, 0, 0, None);
    var n := DueCount(s, now);
    && t.owners == s.owners && t.preferences == s.preferences
    && match outcome
       case Commits =>
         && ClaimSeen(s, t, now) && r == Ok(n)
         && t.health == Some(Health(Some(now), Some(now), h.processed + n, h.failed, None))
       case FailsBefore(e) =>
         && t.reminders == s.reminders && r == Err(DispatchFailed(e))
         && t.health == Some(Health(Some(now), h.lastCompleted, h.processed, h.failed + 1, Some(e)))
       case FailsAfter(e) =>
         && ClaimSeen(s, t, now) && r == Err(DispatchFailed(e))
         && t.health == Some(Health(Some(now), Some(now), h.processed + n, h.failed + 1, Some(e)))
  }

  lemma ClaimedAreDue(s: System, now: Time)
    ensures forall id :: id in Claimed(s, now) <==> Due(s, id, now)
    ensures |Claimed(s, now)| == DueCount(s, now)
  {
    assert Claimed(s, now) == set id | id in s.reminders && Due(s, id, now);
  }

  lemma DispatchIsSeen(s: System, now: Time, outcome: Outcome)
    ensures var r := match outcome
                     case Commits => Ok(|Claimed(s, now)|)
                     case FailsBefore(e) => Err(DispatchFailed(e))
                     case FailsAfter(e) => Err(DispatchFailed(e));
            DispatchSeen(s, Finished(Started(s, 0, now), 0, outcome), now, outcome, r)
  {
    var begun := Started(s, 0, now);
    var rest := begun.(workers := begun.workers - {0});
    hide Due, DueCount;
    ClaimedAreDue(s, now);
    assert Claimed(rest, now) == Claimed(s, now);
  }

  /**
   * A commit that overlaps others writes only what it changed itself: the completion time, the count if
   * anything was claimed, and the error it had loaded. An error noted meanwhile stays.
   */
  lemma OverlappingCommit(s: System, now: Time, loaded: Health)
    requires s.health.Some?
    ensures var (before, after, n) := (s.health.value, Dispatched(s, now, loaded).health.value, DueCount(s, now));
            && after.lastStarted == before.lastStarted && after.failed == before.failed
            && after.lastCompleted == (if loaded.lastCompleted == Some(now) then before.lastCompleted else Some(now))
            && after.processed == (if n == 0 then before.processed else loaded.processed + n)
            && after.lastError == (if loaded.lastError == None then before.lastError else None)
    ensures ClaimSeen(s, Dispatched(s, now, loaded), now)
  {
    hide Due, DueCount;
    ClaimedAreDue(s, now);
  }
}
