/** The reminder half of the command service, and the dispatch worker, over one set of tables. */
module ReminderService {
  import opened Common
  import opened Reminders
  import opened ReminderRuns
  import opened ReminderEffects

  class ReminderStore {
    var owners: map<ApplicationId, UserId>
    var reminders: map<ReminderId, Reminder>
    var preferences: map<UserId, bool>
    var health: Option<Health>

    ghost var deliveries: multiset<ReminderId>
    ghost var snoozes: multiset<ReminderId>
    ghost var usedReminders: set<ReminderId>
    ghost var usedApplications: set<ApplicationId>

    ghost function Tables(): System
      reads this
    {
      System(owners, reminders, preferences, health, map[], deliveries, snoozes, usedReminders, usedApplications)
    }

    ghost predicate Valid()
      reads this
    {
      SystemOk(Tables()) && Conserved(Tables())
    }

    constructor ()
      ensures Valid() && Tables() == EMPTY
    {
      owners, reminders, preferences, health := map[], map[], map[], None;
      deliveries, snoozes, usedReminders, usedApplications := multiset{}, multiset{}, {}, {};
    }

    method OpenApplication(application: ApplicationId, user: UserId)
      requires Valid() && application !in usedApplications
      modifies this
      ensures Valid() && Tables() == Step(old(Tables()), Open(application, user))
    {
      StepKeepsOk(Tables(), Open(application, user));
      owners := owners[application := user];
      usedApplications := usedApplications + {application};
    }

    /** The reminder under this key: the one there already, or else a new one with the given id. */
    method CreateReminder(id: ReminderId, application: ApplicationId, user: UserId, taskOk: bool, req: NewReminder)
      returns (r: Result<ReminderId, ReminderError>)
      requires Valid() && id !in usedReminders
      modifies this
      ensures Valid() && Tables() == Step(old(Tables()), Create(id, application, user, taskOk, req))
      ensures CreationSeen(old(Tables()), Tables(), id, application, user, taskOk, req)
      ensures r.Ok? <==> Owns(old(Tables()), user, application) && taskOk
      ensures r.Ok? ==> Existing(reminders, application, req.key) == {r.value}
      ensures r.Ok? && r.value != id ==> Tables() == old(Tables())
    {
      hide EntryOk, CountersOk, CreationSeen;
      CreationIsSeen(Tables(), id, application, user, taskOk, req);
      CreateKeepsOk(Tables(), id, application, user, taskOk, req);
      if application !in owners || owners[application] != user || !taskOk {
        return Err(NotFound);
      }
      var existing := Existing(reminders, application, req.key);
      if existing != {} {
        var found :| found in existing;
        KeyIsUnique(reminders, found);
        return Ok(found);
      }
      reminders := reminders[id := Fresh(application, req)];
      usedReminders := usedReminders + {id};
      KeyIsUnique(reminders, id);
      r := Ok(id);
    }

    method UpdateReminder(application: ApplicationId, id: ReminderId, user: UserId, patch: Patch, now: Time)
      returns (r: Result<Reminder, ReminderError>)
      requires Valid()
      modifies this
      ensures Valid() && Tables() == Step(old(Tables()), Update(application, id, user, patch, now))
      ensures UpdateSeen(old(Tables()), Tables(), application, id, user, patch, now, r)
      ensures if Reachable(old(Tables()), application, id, user)
              then r == Patched(old(reminders)[id], patch, now) else r == Err(NotFound)
      ensures r.Ok? ==> id in reminders && reminders[id] == r.value && ReminderOk(r.value)
      ensures r.Err? ==> Tables() == old(Tables())
    {
      hide SystemOk, ReminderOk, Conserved, Allowed, UpdateSeen;
      ReminderEffects.UpdateIsSeen(Tables(), application, id, user, patch, now);
      UpdateIsGood(Tables(), application, id, user, patch, now);
      if id !in reminders || reminders[id].application != application
         || application !in owners || owners[application] != user {
        return Err(NotFound);
      }
      var reminder := reminders[id];
      if patch.status.Set? && patch.status.value != reminder.status && !Allowed(reminder.status, patch.status.value) {
        return Err(InvalidTransition);
      }
      if patch.status.Set? && patch.status.value == Read {
        reminder := reminder.(readAt := Some(now));
      }
      if patch.status.Set? && patch.status.value == Scheduled {
        reminder := reminder.(deliveredAt := None, readAt := None, failure := None);
      }
      if patch.status.Null? || patch.scheduledAt.Null? || patch.timezone.Null? {
        return Err(NullViolation);
      }
      if patch.status.Set? {
        reminder := reminder.(status := patch.status.value);
      }
      if patch.scheduledAt.Set? {
        reminder := reminder.(scheduledAt := patch.scheduledAt.value);
      }
      if patch.timezone.Set? {
        reminder := reminder.(timezone := patch.timezone.value);
      }
      if patch.message.Null? {
        reminder := reminder.(message := None);
      } else if patch.message.Set? {
        reminder := reminder.(message := Some(patch.message.value));
      }
      if reminders[id].status == Delivered && reminder.status == Snoozed {
        snoozes := snoozes + multiset{id};
      }
      reminders := reminders[id := reminder];
      r := Ok(reminder);
    }

    method UpdateNotificationPreference(user: UserId, enabled: bool)
      requires Valid()
      modifies this
      ensures Valid() && Tables() == Step(old(Tables()), Prefer(user, enabled))
      ensures PreferenceSeen(old(Tables()), Tables(), user, enabled)
      ensures OptedOut(preferences, user) <==> !enabled
      ensures !enabled ==> forall id :: BelongsTo(Tables(), id, user) ==> !Awaiting(reminders[id])
    {
      hide SystemOk, PreferenceSeen;
      PreferenceIsSeen(Tables(), user, enabled);
      PreferKeepsOk(Tables(), user, enabled);
      ghost var start := Tables();
      preferences := preferences[user := enabled];
      if !enabled {
        CancelWaiting(user);
      }
      assert Tables() == Preferred(start, user, enabled);
      OptOutCancels(start, user);
    }

    /** The loop that cancels what an opted-out student still had waiting. */
    method CancelWaiting(user: UserId)
      modifies this`reminders
      ensures reminders == map id | id in old(reminders) :: CancelledFor(old(Tables()), user, old(reminders)[id])
    {
      ghost var start := Tables();
      var rest: set<ReminderId> := set id: ReminderId | id in reminders && reminders[id].application in owners
                           && owners[reminders[id].application] == user && Awaiting(reminders[id]);
      while rest != {}
        invariant reminders.Keys == start.reminders.Keys
        invariant forall id :: id in rest ==>
          id in start.reminders && Owns(start, user, start.reminders[id].application) && Awaiting(start.reminders[id])
        invariant forall id :: id in reminders ==>
          reminders[id] ==
            if id in rest then start.reminders[id] else CancelledFor(start, user, start.reminders[id])
        decreases |rest|
      {
        var id :| id in rest;
        reminders := reminders[id := reminders[id].(status := Cancelled)];
        rest := rest - {id};
      }
    }

    /** One worker alone: every delivery is counted once, whether or not the job then fails. */
    method DispatchDueReminders(now: Time, outcome: Outcome) returns (r: Result<nat, ReminderError>)
      requires Valid()
      modifies this
      ensures Valid() && Tables() == Finished(Started(old(Tables()), 0, now), 0, outcome)
      ensures DispatchSeen(old(Tables()), Tables(), now, outcome, r)
      ensures r == match outcome
                   case Commits => Ok(|Claimed(old(Tables()), now)|)
                   case FailsBefore(e) => Err(DispatchFailed(e))
                   case FailsAfter(e) => Err(DispatchFailed(e))
      ensures outcome.FailsBefore? ==> reminders == old(reminders) && deliveries == old(deliveries)
      ensures !outcome.FailsBefore? ==> Claimed(Tables(), now) == {}
    {
      hide SystemOk, Claimed, Dispatched, Conserved, DispatchSeen;
      DispatchIsSeen(Tables(), now, outcome);
      AloneIsGood(Tables(), now, outcome);
      AloneInSteps(Tables(), now, outcome);
      var record := Begin(now);
      ClaimReads(Tables(), old(Tables()), now);
      if outcome.FailsBefore? {
        NoteFailure(outcome.error);
        return Err(DispatchFailed(outcome.error));
      }
      ghost var begun := Tables();
      var count := ClaimDue(now, record);
      NothingLeft(begun, now, record);
      if outcome.FailsAfter? {
        ghost var done := Tables();
        NoteFailure(outcome.error);
        ClaimReads(Tables(), done, now);
        return Err(DispatchFailed(outcome.error));
      }
      r := Ok(count);
    }

    /** Loads the health row, creating it the first time, and commits the start. */
    method Begin(now: Time) returns (record: Health)
      modifies this`health
      ensures health == Some(record) && record == StartedHealth(old(health), now)
    {
      if health.None? {
        health := Some(NO_HEALTH);
      }
      record := health.value.(lastStarted := Some(now));
      health := Some(record);
    }

    /** The bulk UPDATE and the counters kept on the loaded row, committed together. */
    method ClaimDue(now: Time, record: Health) returns (count: nat)
      requires health.Some?
      modifies this
      ensures health.Some? && Tables() == Dispatched(old(Tables()), now, record)
      ensures count == |Claimed(old(Tables()), now)|
    {
      var claimed := set id | id in reminders && reminders[id].application in owners
                              && !OptedOut(preferences, owners[reminders[id].application])
                              && Awaiting(reminders[id]) && reminders[id].scheduledAt <= now;
      assert claimed == Claimed(Tables(), now);
      hide Claimed;
      reminders := map id | id in reminders :: if id in claimed then Deliver(reminders[id], now) else reminders[id];
      deliveries := deliveries + multiset(claimed);
      count := |claimed|;
      var wanted := record.(lastCompleted := Some(now), processed := record.processed + count, lastError := None);
      health := Some(Flushed(health.value, record, wanted));
    }

    /** A failure is counted on the row as it then is. */
    method NoteFailure(error: string)
      requires health.Some?
      modifies this`health
      ensures Tables() == FailureNoted(old(Tables()), error)
      ensures var row := old(health.value);
              health == Some(Health(row.lastStarted, row.lastCompleted, row.processed, row.failed + 1, Some(error)))
    {
      health := Some(health.value.(failed := health.value.failed + 1, lastError := Some(error)));
    }
  }

  lemma KeyIsUnique(reminders: map<ReminderId, Reminder>, id: ReminderId)
    requires OneKey(reminders) && id in reminders
    ensures Existing(reminders, reminders[id].application, reminders[id].key) == {id}
  {
  }

  lemma UpdateIsGood(s: System, application: ApplicationId, id: ReminderId, user: UserId, p: Patch, now: Time)
    requires SystemOk(s) && Conserved(s)
    ensures SystemOk(Updated(s, application, id, user, p, now)) && Conserved(Updated(s, application, id, user, p, now))
    ensures id in s.reminders && Patched(s.reminders[id], p, now).Ok? ==>
      ReminderOk(Patched(s.reminders[id], p, now).value)
  {
    hide OneKey, CountersOk, Patched;
    UpdateKeepsOk(s, application, id, user, p, now);
    if id in s.reminders && Patched(s.reminders[id], p, now).Ok? {
      assert EntryOk(s, id);
      PatchKeepsOk(s.reminders[id], p, now);
    }
  }

  /** A claim looks at reminders, their owners and the preferences only. */
  lemma ClaimReads(s: System, t: System, now: Time)
    requires s.reminders == t.reminders && s.owners == t.owners && s.preferences == t.preferences
    ensures Claimed(s, now) == Claimed(t, now)
  {
  }

  lemma OptOutCancels(s: System, user: UserId)
    ensures forall id :: BelongsTo(Preferred(s, user, false), id, user) ==>
      !Awaiting(Preferred(s, user, false).reminders[id])
  {
  }

  /** The two transactions of a worker that runs alone. */
  lemma AloneInSteps(s: System, now: Time, outcome: Outcome)
    requires s.workers == map[]
    ensures var h, t := StartedHealth(s.health, now), Finished(Started(s, 0, now), 0, outcome);
            var begun := s.(health := Some(h));
            match outcome
            case Commits => t == Dispatched(begun, now, h)
            case FailsBefore(e) => t == FailureNoted(begun, e)
            case FailsAfter(e) => t == FailureNoted(Dispatched(begun, now, h), e)
  {
    hide Dispatched;
    var started := Started(s, 0, now);
    assert started.workers - {0} == map[];
    assert started.(workers := started.workers - {0}) == s.(health := Some(StartedHealth(s.health, now)));
  }

  lemma NothingLeft(s: System, now: Time, loaded: Health)
    requires s.health.Some?
    ensures Claimed(Dispatched(s, now, loaded), now) == {}
  {
    DispatchTwiceDeliversOnce(s, now, loaded, now, loaded);
  }

  lemma AloneIsGood(s: System, now: Time, outcome: Outcome)
    requires SystemOk(s) && Conserved(s) && s.workers == map[]
    ensures var t := Finished(Started(s, 0, now), 0, outcome);
            SystemOk(t) && Conserved(t) && t.workers == map[]
  {
    hide SystemOk, Finished, Started;
    StartsWell(s, now);
    var begun := Started(s, 0, now);
    StepKeepsOk(s, Start(0, now));
    StepKeepsOk(begun, Finish(0, outcome));
    CountersHold(begun);
    StepConserves(begun, Finish(0, outcome));
    WorkersAfter(begun, outcome);
  }

  lemma CountersHold(s: System)
    requires SystemOk(s)
    ensures CountersOk(s)
  {
  }

  lemma StartsWell(s: System, now: Time)
    requires Conserved(s) && s.workers == map[]
    ensures var t := Started(s, 0, now);
            && t == Step(s, Start(0, now)) && t.health.Some? && t.workers.Keys == {0}
            && Conserved(t) && CopiesConserved(t) && t.workers[0].base == |t.deliveries|
  {
  }

  lemma WorkersAfter(s: System, outcome: Outcome)
    requires s.workers.Keys == {0} && s.health.Some?
    ensures Finished(s, 0, outcome).workers == map[] && Finished(s, 0, outcome) == Step(s, Finish(0, outcome))
  {
    hide Claimed;
    assert (s.workers - {0}).Keys == {};
  }
}
