/** What every run of reminders keeps, whatever the students and workers do in between. */
module ReminderRuns {
  import opened Common
  import opened Reminders

  /** The timestamps of a reminder say what its status says. */
  predicate ReminderOk(r: Reminder) {
    && (r.readAt.Some? <==> r.status == Read)
    && (r.status in {Delivered, Read} ==> r.deliveredAt.Some?)
    && (r.status == Scheduled ==> r.deliveredAt.None? && r.readAt.None?)
  }

  /** 1 while a delivery stands, 0 once it was snoozed away or before there was one. */
  function Standing(r: Reminder): nat {
    if r.status in {Delivered, Read} then 1 else 0
  }

  ghost predicate EntryOk(s: System, id: ReminderId)
    requires id in s.reminders
  {
    && ReminderOk(s.reminders[id])
    && id in s.usedReminders
    && s.reminders[id].application in s.owners
    && s.deliveries[id] == s.snoozes[id] + Standing(s.reminders[id])
  }

  ghost predicate OneKey(reminders: map<ReminderId, Reminder>) {
    forall i, j :: i in reminders && j in reminders && i != j ==>
      !(reminders[i].application == reminders[j].application && reminders[i].key == reminders[j].key)
  }

  function Processed(s: System): nat {
    if s.health.Some? then s.health.value.processed else 0
  }

  /** The counter never claims more than was delivered, and neither does any copy of it. */
  ghost predicate CountersOk(s: System) {
    && Processed(s) <= |s.deliveries|
    && (s.workers != map[] ==> s.health.Some?)
    && forall w :: w in s.workers ==> s.workers[w].loaded.processed <= s.workers[w].base <= |s.deliveries|
  }

  ghost predicate SystemOk(s: System) {
    && (forall id :: id in s.reminders ==> EntryOk(s, id))
    && (forall id :: s.deliveries[id] <= s.snoozes[id] + 1)
    && (forall id :: id !in s.usedReminders ==> s.deliveries[id] == 0 && s.snoozes[id] == 0)
    && (forall a :: a in s.owners ==> a in s.usedApplications)
    && OneKey(s.reminders)
    && CountersOk(s)
  }

  // ---- Every step keeps it ----------------------------------------------------------------------

  lemma CreateKeepsOk(s: System, id: ReminderId, application: ApplicationId, user: UserId, taskOk: bool,
                      req: NewReminder)
    requires SystemOk(s) && id !in s.usedReminders
    ensures SystemOk(Created(s, id, application, user, taskOk, req))
  {
    var t := Created(s, id, application, user, taskOk, req);
    if t != s {
      forall i | i in s.reminders
        ensures !(s.reminders[i].application == application && s.reminders[i].key == req.key)
      {
        assert i !in Existing(s.reminders, application, req.key);
      }
      forall i | i in t.reminders
        ensures EntryOk(t, i)
      {
        assert i != id ==> EntryOk(s, i);
      }
    }
  }

  lemma UpdateKeepsOk(s: System, application: ApplicationId, id: ReminderId, user: UserId, p: Patch, now: Time)
    requires SystemOk(s)
    ensures SystemOk(Updated(s, application, id, user, p, now))
  {
    var t := Updated(s, application, id, user, p, now);
    if t != s {
      assert EntryOk(s, id);
      PatchKeepsOk(s.reminders[id], p, now);
      forall i | i in t.reminders
        ensures EntryOk(t, i)
      {
        assert EntryOk(s, i);
      }
    }
  }

  /** A legal patch keeps the timestamps honest, and only a snooze takes a delivery back. */
  lemma PatchKeepsOk(r: Reminder, p: Patch, now: Time)
    requires ReminderOk(r) && Patched(r, p, now).Ok?
    ensures var q := Patched(r, p, now).value;
            && ReminderOk(q) && q.application == r.application && q.key == r.key
            && Standing(r) == Standing(q) + (if r.status == Delivered && q.status == Snoozed then 1 else 0)
  {
  }

  lemma PreferKeepsOk(s: System, user: UserId, enabled: bool)
    requires SystemOk(s)
    ensures SystemOk(Preferred(s, user, enabled))
  {
    var t := Preferred(s, user, enabled);
    KeysKept(s.reminders, t.reminders);
    hide OneKey;
    forall i | i in t.reminders
      ensures EntryOk(t, i)
    {
      assert EntryOk(s, i);
    }
  }

  lemma CloseKeepsOk(s: System, application: ApplicationId)
    requires SystemOk(s)
    ensures SystemOk(Closed(s, application))
  {
    var t := Closed(s, application);
    forall i | i in t.reminders
      ensures EntryOk(t, i)
    {
      assert EntryOk(s, i);
    }
  }

  /** The books of one claim: deliveries grow by what was claimed, the counter from the loaded copy. */
  lemma DispatchCounts(s: System, now: Time, loaded: Health)
    requires s.health.Some?
    ensures var t, n := Dispatched(s, now, loaded), |Claimed(s, now)|;
            && |t.deliveries| == |s.deliveries| + n
            && Processed(t) == (if n == 0 then Processed(s) else loaded.processed + n)
            && t.workers == s.workers && t.health.Some?
  {
    hide Claimed;
  }

  lemma ClaimDelivers(s: System, now: Time, loaded: Health, id: ReminderId)
    requires s.health.Some?
    ensures Dispatched(s, now, loaded).deliveries[id] == s.deliveries[id] + (if id in Claimed(s, now) then 1 else 0)
  {
    hide Claimed;
  }

  lemma DispatchKeepsEntry(s: System, now: Time, loaded: Health, id: ReminderId)
    requires s.health.Some? && id in s.reminders && EntryOk(s, id)
    ensures EntryOk(Dispatched(s, now, loaded), id)
    ensures id in Claimed(s, now) ==> s.deliveries[id] == s.snoozes[id]
  {
    ClaimDelivers(s, now, loaded, id);
  }

  /** Changing reminders other than in application and key keeps keys unique. */
  lemma KeysKept(r: map<ReminderId, Reminder>, t: map<ReminderId, Reminder>)
    requires OneKey(r)
    requires forall id :: id in t ==> id in r && t[id].application == r[id].application && t[id].key == r[id].key
    ensures OneKey(t)
  {
  }

  lemma DispatchKeepsKeys(s: System, now: Time, loaded: Health)
    requires s.health.Some? && OneKey(s.reminders)
    ensures OneKey(Dispatched(s, now, loaded).reminders)
  {
    hide OneKey, Claimed;
    KeysKept(s.reminders, Dispatched(s, now, loaded).reminders);
  }

  lemma DispatchKeepsOk(s: System, now: Time, loaded: Health)
    requires SystemOk(s) && s.health.Some? && loaded.processed <= |s.deliveries|
    ensures SystemOk(Dispatched(s, now, loaded))
  {
    hide EntryOk, OneKey, Claimed;
    var t := Dispatched(s, now, loaded);
    assert t.snoozes == s.snoozes && t.usedReminders == s.usedReminders && t.owners == s.owners;
    forall id | id in t.reminders
      ensures EntryOk(t, id)
    {
      DispatchKeepsEntry(s, now, loaded, id);
    }
    forall id
      ensures t.deliveries[id] <= t.snoozes[id] + 1
      ensures id !in t.usedReminders ==> t.deliveries[id] == 0
    {
      DispatchKeepsCount(s, now, loaded, id);
    }
    DispatchKeepsKeys(s, now, loaded);
    DispatchCounts(s, now, loaded);
  }

  lemma DispatchKeepsCount(s: System, now: Time, loaded: Health, id: ReminderId)
    requires s.health.Some? && s.deliveries[id] <= s.snoozes[id] + 1
    requires id in s.reminders ==> EntryOk(s, id)
    ensures Dispatched(s, now, loaded).deliveries[id] <= s.snoozes[id] + 1
    ensures id !in s.usedReminders ==> Dispatched(s, now, loaded).deliveries[id] == s.deliveries[id]
  {
    ClaimDelivers(s, now, loaded, id);
    if id in s.reminders {
      DispatchKeepsEntry(s, now, loaded, id);
    }
  }

  lemma FinishKeepsOk(s: System, worker: WorkerId, outcome: Outcome)
    requires SystemOk(s) && worker in s.workers && s.health.Some?
    ensures SystemOk(Finished(s, worker, outcome))
  {
    hide EntryOk, OneKey, Claimed;
    var w, rest := s.workers[worker], s.(workers := s.workers - {worker});
    SameEntries(s, rest);
    assert SystemOk(rest);
    DispatchKeepsOk(rest, w.now, w.loaded);
    var d := Dispatched(rest, w.now, w.loaded);
    match outcome
    case Commits =>
    case FailsBefore(e) => SameEntries(rest, FailureNoted(rest, e));
    case FailsAfter(e) => SameEntries(d, FailureNoted(d, e));
  }

  lemma SameEntries(s: System, t: System)
    requires t.reminders == s.reminders && t.owners == s.owners && t.usedReminders == s.usedReminders
    requires t.deliveries == s.deliveries && t.snoozes == s.snoozes
    requires forall id :: id in s.reminders ==> EntryOk(s, id)
    ensures forall id :: id in t.reminders ==> EntryOk(t, id)
  {
    forall id | id in t.reminders
      ensures EntryOk(t, id)
    {
      assert EntryOk(s, id);
    }
  }

  lemma StepKeepsOk(s: System, a: Action)
    requires SystemOk(s) && Enabled(s, a)
    ensures SystemOk(Step(s, a))
  {
    hide OneKey, Claimed, Patched, CancelledFor;
    match a
    case Open(application, user) =>
      forall i | i in s.reminders
        ensures EntryOk(Opened(s, application, user), i)
      {
        assert EntryOk(s, i);
      }
    case Close(application) => CloseKeepsOk(s, application);
    case Create(id, application, user, taskOk, req) => CreateKeepsOk(s, id, application, user, taskOk, req);
    case Update(application, id, user, patch, now) => UpdateKeepsOk(s, application, id, user, patch, now);
    case Prefer(user, enabled) => PreferKeepsOk(s, user, enabled);
    case Start(worker, now) => SameEntries(s, Started(s, worker, now));
    case Finish(worker, outcome) => FinishKeepsOk(s, worker, outcome);
  }

  // ---- Runs -------------------------------------------------------------------------------------

  ghost predicate IsRun(states: seq<System>, actions: seq<Action>) {
    && |states| == |actions| + 1
    && states[0] == EMPTY
    && forall i :: 0 <= i < |actions| ==> Enabled(states[i], actions[i]) && states[i + 1] == Step(states[i], actions[i])
  }

  lemma {:induction false} RunKeepsOk(states: seq<System>, actions: seq<Action>, n: nat)
    requires IsRun(states, actions) && n < |states|
    ensures SystemOk(states[n])
  {
    if n > 0 {
      RunKeepsOk(states, actions, n - 1);
      StepKeepsOk(states[n - 1], actions[n - 1]);
    }
  }

  /**
   * Every delivery of a reminder but at most one was taken back by a DELIVERED to SNOOZED move;
   * for a reminder that still exists, the number of deliveries is exactly that plus the one standing.
   */
  lemma DeliveriesMatchSnoozes(states: seq<System>, actions: seq<Action>, n: nat, id: ReminderId)
    requires IsRun(states, actions) && n < |states|
    ensures states[n].deliveries[id] <= 1 + states[n].snoozes[id]
    ensures id in states[n].reminders ==>
              && states[n].deliveries[id] == states[n].snoozes[id] + Standing(states[n].reminders[id])
              && ReminderOk(states[n].reminders[id])
  {
    RunKeepsOk(states, actions, n);
    assert id in states[n].reminders ==> EntryOk(states[n], id);
  }

  // ---- The claim --------------------------------------------------------------------------------

  /** A committed dispatch leaves nothing due behind and so a repeat at that time delivers nothing. */
  lemma DispatchTwiceDeliversOnce(s: System, now: Time, loaded: Health, again: Time, reloaded: Health)
    requires s.health.Some? && again <= now
    ensures Claimed(Dispatched(s, now, loaded), again) == {}
    ensures Dispatched(Dispatched(s, now, loaded), again, reloaded).reminders == Dispatched(s, now, loaded).reminders
    ensures Dispatched(Dispatched(s, now, loaded), again, reloaded).deliveries == Dispatched(s, now, loaded).deliveries
  {
    var t := Dispatched(s, now, loaded);
    forall id
      ensures id !in Claimed(t, again)
    {
      if id in t.reminders && t.reminders[id].scheduledAt <= again {
        assert id in Claimed(s, now) || t.reminders[id] == s.reminders[id];
      }
    }
    assert Claimed(t, again) == {};
    assert Dispatched(t, again, reloaded).reminders == t.reminders;
  }

  /** The step delivered this reminder. */
  predicate Delivers(s: System, a: Action, id: ReminderId) {
    && a.Finish? && !a.outcome.FailsBefore? && a.worker in s.workers
    && id in Claimed(s, s.workers[a.worker].now)
  }

  lemma DeliveriesStep(s: System, a: Action, id: ReminderId)
    requires Enabled(s, a)
    ensures Step(s, a).deliveries[id] == s.deliveries[id] + (if Delivers(s, a, id) then 1 else 0)
  {
    hide Claimed, Dispatched, Patched, CancelledFor;
    if a.Finish? {
      var w, rest := s.workers[a.worker], s.(workers := s.workers - {a.worker});
      ClaimIgnoresWorkers(s, a.worker, w.now);
      ClaimDelivers(rest, w.now, w.loaded, id);
    }
  }

  /** Who owned the reminder: fixed for as long as it exists. */
  predicate BelongsTo(s: System, id: ReminderId, user: UserId) {
    id in s.reminders && Owns(s, user, s.reminders[id].application)
  }

  /** A reminder never changes hands. */
  lemma OwnerIsFixed(s: System, a: Action, id: ReminderId, user: UserId)
    requires SystemOk(s) && Enabled(s, a) && id in s.reminders && id in Step(s, a).reminders
    ensures BelongsTo(Step(s, a), id, user) <==> BelongsTo(s, id, user)
    ensures Step(s, a).reminders[id].application == s.reminders[id].application
  {
    hide OneKey, CountersOk, Claimed, Patched, Awaiting, Dispatched, Updated, Existing, CancelledFor;
    assert EntryOk(s, id);
    if a.Prefer? {
      CancellingKeepsApplication(s, a.user, s.reminders[id]);
    } else if a.Finish? {
      var w, rest := s.workers[a.worker], s.(workers := s.workers - {a.worker});
      DispatchKeepsReminder(rest, w.now, w.loaded, id);
    } else if a.Update? {
      UpdateKeepsApplication(s, a.application, a.id, a.user, a.patch, a.now, id);
    }
  }

  lemma CancellingKeepsApplication(s: System, user: UserId, r: Reminder)
    ensures CancelledFor(s, user, r).application == r.application
  {
  }

  lemma DispatchKeepsReminder(s: System, now: Time, loaded: Health, id: ReminderId)
    requires s.health.Some? && id in s.reminders
    ensures var t := Dispatched(s, now, loaded);
            && id in t.reminders && t.reminders[id].application == s.reminders[id].application && t.owners == s.owners
            && t.reminders[id] == (if id in Claimed(s, now) then Deliver(s.reminders[id], now) else s.reminders[id])
  {
  }

  lemma UpdateKeepsApplication(s: System, application: ApplicationId, i: ReminderId, user: UserId, p: Patch, now: Time,
                               id: ReminderId)
    requires id in s.reminders
    ensures var t := Updated(s, application, i, user, p, now);
            id in t.reminders && t.reminders[id].application == s.reminders[id].application && t.owners == s.owners
  {
  }

  lemma GoneStaysGone(s: System, a: Action, id: ReminderId)
    requires Enabled(s, a) && id in s.usedReminders
    ensures id in Step(s, a).usedReminders
    ensures id in Step(s, a).reminders ==> id in s.reminders
  {
    hide Claimed, Patched, CancelledFor, Existing;
  }

  /** Over a run a reminder stays with the application and the user it was created for. */
  lemma {:induction false} RemindersNeverChangeHands(states: seq<System>, actions: seq<Action>, id: ReminderId,
                                                     user: UserId, i: nat, j: nat)
    requires IsRun(states, actions) && i <= j < |states| && id in states[i].reminders
    ensures id in states[j].usedReminders
    ensures id in states[j].reminders ==>
              && (BelongsTo(states[j], id, user) <==> BelongsTo(states[i], id, user))
              && states[j].reminders[id].application == states[i].reminders[id].application
    decreases j
  {
    hide SystemOk, BelongsTo, Step, Enabled;
    if i < j {
      RemindersNeverChangeHands(states, actions, id, user, i, j - 1);
      RunKeepsOk(states, actions, j - 1);
      GoneStaysGone(states[j - 1], actions[j - 1], id);
      if id in states[j].reminders {
        OwnerIsFixed(states[j - 1], actions[j - 1], id, user);
      }
    } else {
      RunKeepsOk(states, actions, i);
      UsedIfThere(states[i], id);
    }
  }

  lemma UsedIfThere(s: System, id: ReminderId)
    requires SystemOk(s) && id in s.reminders
    ensures id in s.usedReminders
  {
    assert EntryOk(s, id);
  }

  /** From an opt-out until the next opt-in, nothing of that user's is delivered, old or new. */
  lemma {:induction false} SilentWhileOptedOut(states: seq<System>, actions: seq<Action>, user: UserId, i: nat, j: nat)
    requires IsRun(states, actions) && i <= j < |states|
    requires OptedOut(states[i].preferences, user)
    requires forall k :: i <= k < j ==> actions[k] != Prefer(user, true)
    ensures OptedOut(states[j].preferences, user)
    ensures forall k, id :: i <= k < j && BelongsTo(states[k], id, user) ==> !Delivers(states[k], actions[k], id)
    decreases j
  {
    hide OptedOut, BelongsTo, Delivers, Step, Enabled;
    if i < j {
      SilentWhileOptedOut(states, actions, user, i, j - 1);
      PreferenceKept(states[j - 1], actions[j - 1], user);
      OptedOutNotDelivered(states[j - 1], actions[j - 1], user);
    }
  }

  lemma OptedOutNotDelivered(s: System, a: Action, user: UserId)
    requires OptedOut(s.preferences, user)
    ensures forall id :: BelongsTo(s, id, user) ==> !Delivers(s, a, id)
  {
  }

  /** So the deliveries of each of the user's reminders stand still between an opt-out and the next opt-in. */
  lemma {:induction false} DeliveriesStandStill(states: seq<System>, actions: seq<Action>, user: UserId,
                                                id: ReminderId, i: nat, j: nat)
    requires IsRun(states, actions) && i <= j < |states|
    requires OptedOut(states[i].preferences, user) && BelongsTo(states[i], id, user)
    requires forall k :: i <= k < j ==> actions[k] != Prefer(user, true)
    ensures states[j].deliveries[id] == states[i].deliveries[id]
    decreases j
  {
    hide Step, Enabled, Claimed;
    if i < j {
      DeliveriesStandStill(states, actions, user, id, i, j - 1);
      SilentWhileOptedOut(states, actions, user, i, j);
      RemindersNeverChangeHands(states, actions, id, user, i, j - 1);
      DeliveriesStep(states[j - 1], actions[j - 1], id);
      OnlyPresentDelivered(states[j - 1], actions[j - 1], id);
    }
  }

  lemma OnlyPresentDelivered(s: System, a: Action, id: ReminderId)
    ensures Delivers(s, a, id) ==> id in s.reminders
  {
  }

  lemma PreferenceKept(s: System, a: Action, user: UserId)
    requires Enabled(s, a) && a != Prefer(user, true) && OptedOut(s.preferences, user)
    ensures OptedOut(Step(s, a).preferences, user)
  {
  }

  predicate Rearms(a: Action, id: ReminderId) {
    a.Update? && a.id == id && a.patch.status.Set? && a.patch.status.value in {Scheduled, Snoozed}
  }

  lemma OnlyRearmingAwaits(s: System, a: Action, id: ReminderId)
    requires Enabled(s, a) && id in s.usedReminders && !Rearms(a, id)
    requires id in s.reminders ==> !Awaiting(s.reminders[id])
    ensures id in Step(s, a).usedReminders
    ensures id in Step(s, a).reminders ==> !Awaiting(Step(s, a).reminders[id])
    ensures !Delivers(s, a, id)
  {
    if a.Finish? {
      var w, rest := s.workers[a.worker], s.(workers := s.workers - {a.worker});
      assert Finished(s, a.worker, a.outcome).reminders
             in {rest.reminders, Dispatched(rest, w.now, w.loaded).reminders};
    }
  }

  /**
   * What an opt-out cancelled stays undelivered, even after opting in again, until the student
   * schedules or snoozes that very reminder.
   */
  lemma {:induction false} CancelledUntilRearmed(states: seq<System>, actions: seq<Action>, user: UserId,
                                                 id: ReminderId, i: nat, j: nat)
    requires IsRun(states, actions) && i < j < |states|
    requires actions[i] == Prefer(user, false) && BelongsTo(states[i], id, user)
    requires forall k :: i <= k < j ==> !Rearms(actions[k], id)
    ensures id in states[j].usedReminders
    ensures id in states[j].reminders ==> !Awaiting(states[j].reminders[id])
    ensures states[j].deliveries[id] == states[i].deliveries[id]
    decreases j
  {
    if j == i + 1 {
      RunKeepsOk(states, actions, i);
      assert EntryOk(states[i], id);
    } else {
      CancelledUntilRearmed(states, actions, user, id, i, j - 1);
      OnlyRearmingAwaits(states[j - 1], actions[j - 1], id);
      DeliveriesStep(states[j - 1], actions[j - 1], id);
    }
  }

  // ---- The worker's counter ---------------------------------------------------------------------

  /** The counter equals the deliveries made. */
  predicate Conserved(s: System) {
    Processed(s) == |s.deliveries|
  }

  /** The step does not commit a non-empty claim on top of deliveries made since its worker started. */
  predicate NoOverlap(s: System, a: Action) {
    a.Finish? && !a.outcome.FailsBefore? && a.worker in s.workers && Claimed(s, s.workers[a.worker].now) != {} ==>
      s.workers[a.worker].base == |s.deliveries|
  }

  /** Every copy of the counter was right when its worker loaded it. */
  ghost predicate CopiesConserved(s: System) {
    forall w :: w in s.workers ==> s.workers[w].loaded.processed == s.workers[w].base
  }

  lemma StepConserves(s: System, a: Action)
    requires CountersOk(s) && Enabled(s, a) && Conserved(s) && CopiesConserved(s)
    ensures Conserved(Step(s, a)) <==> NoOverlap(s, a)
    ensures CopiesConserved(Step(s, a))
  {
    hide Dispatched, Claimed, Patched, CancelledFor;
    if a.Finish? {
      var w, rest := s.workers[a.worker], s.(workers := s.workers - {a.worker});
      ClaimIgnoresWorkers(s, a.worker, w.now);
      DispatchCounts(rest, w.now, w.loaded);
    }
  }

  lemma ClaimIgnoresWorkers(s: System, worker: WorkerId, now: Time)
    ensures Claimed(s.(workers := s.workers - {worker}), now) == Claimed(s, now)
  {
  }

  /**
   * The counter is right all along a run exactly when no worker commits deliveries on top of those
   * another worker committed since it started: overlapping workers lose counts, sequential ones none.
   */
  lemma {:induction false} CounterExactIffNoOverlap(states: seq<System>, actions: seq<Action>, n: nat)
    requires IsRun(states, actions) && n < |states|
    ensures (forall k :: 0 <= k <= n ==> Conserved(states[k]))
      <==> (forall k :: 0 <= k < n ==> NoOverlap(states[k], actions[k]))
    ensures (forall k :: 0 <= k <= n ==> Conserved(states[k])) ==> CopiesConserved(states[n])
    ensures Processed(states[n]) <= |states[n].deliveries|
  {
    RunKeepsOk(states, actions, n);
    if n > 0 {
      CounterExactIffNoOverlap(states, actions, n - 1);
      RunKeepsOk(states, actions, n - 1);
      if forall k :: 0 <= k <= n - 1 ==> Conserved(states[k]) {
        StepConserves(states[n - 1], actions[n - 1]);
      }
    }
  }

  // ---- Overlapping workers, concretely ----------------------------------------------------------

  const DUE := NewReminder("a", 0, "UTC", None)
  const LATER := NewReminder("b", 0, "UTC", None)

  /** Two workers start together; each delivers one reminder; the second to finish overwrites the count. */
  const OVERLAP := [
    Open(0, 7), Create(0, 0, 7, true, DUE), Start(1, 5), Start(2, 5), Finish(1, Commits),
    Create(1, 0, 7, true, LATER), Finish(2, Commits)
  ]

  ghost function After(actions: seq<Action>): System {
    if actions == [] then EMPTY
    else
      var s, a := After(actions[..|actions| - 1]), actions[|actions| - 1];
      if Enabled(s, a) then Step(s, a) else s
  }

  ghost predicate AllEnabled(actions: seq<Action>) {
    actions == [] ||
    (var n := |actions| - 1; AllEnabled(actions[..n]) && Enabled(After(actions[..n]), actions[n]))
  }

  lemma {:induction false} EnabledIsRun(actions: seq<Action>) returns (states: seq<System>)
    requires AllEnabled(actions)
    ensures IsRun(states, actions) && states[|actions|] == After(actions)
  {
    hide Enabled, Step;
    if actions == [] {
      states := [EMPTY];
    } else {
      var front := actions[..|actions| - 1];
      var before := EnabledIsRun(front);
      states := before + [After(actions)];
    }
  }

  lemma OneStep(done: seq<Action>, a: Action)
    requires AllEnabled(done) && Enabled(After(done), a)
    ensures AllEnabled(done + [a]) && After(done + [a]) == Step(After(done), a)
  {
    assert (done + [a])[..|done|] == done;
  }

  const FIRST := Fresh(0, DUE)
  const SECOND := Fresh(0, LATER)
  const LOADED := Health(Some(5), None, 0, 0, None)

  lemma OverlapStarts()
    ensures var done := [Open(0, 7), Create(0, 0, 7, true, DUE), Start(1, 5), Start(2, 5)];
            && AllEnabled(done)
            && After(done) == System(map[0 := 7], map[0 := FIRST], map[], Some(LOADED),
                                     map[1 := Worker(5, LOADED, 0), 2 := Worker(5, LOADED, 0)],
                                     multiset{}, multiset{}, {0}, {0})
  {
    hide Claimed, Dispatched, Patched, CancelledFor;
    var a, b, c, d := Open(0, 7), Create(0, 0, 7, true, DUE), Start(1, 5), Start(2, 5);
    assert AllEnabled([]) && After([]) == EMPTY;
    OneStep([], a);
    assert [] + [a] == [a];
    OneStep([a], b);
    assert Existing(map[], 0, "a") == {};
    assert [a] + [b] == [a, b];
    OneStep([a, b], c);
    assert [a, b] + [c] == [a, b, c];
    OneStep([a, b, c], d);
    assert [a, b, c] + [d] == [a, b, c, d];
  }

  lemma OverlapLosesACount() returns (states: seq<System>)
    ensures IsRun(states, OVERLAP)
    ensures Processed(states[|OVERLAP|]) == 1 && |states[|OVERLAP|].deliveries| == 2
  {
    hide IsRun, Claimed, Dispatched, Patched;
    OverlapStarts();
    var done := [Open(0, 7), Create(0, 0, 7, true, DUE), Start(1, 5), Start(2, 5)];
    var s := After(done);
    OneStep(done, Finish(1, Commits));
    var t := Step(s, Finish(1, Commits));
    FirstClaim(s, t);
    OneStep(done + [Finish(1, Commits)], Create(1, 0, 7, true, LATER));
    var u := Step(t, Create(1, 0, 7, true, LATER));
    SecondReminder(t, u);
    var most := done + [Finish(1, Commits)] + [Create(1, 0, 7, true, LATER)];
    OneStep(most, Finish(2, Commits));
    SecondClaim(u);
    assert OVERLAP == most + [Finish(2, Commits)];
    states := EnabledIsRun(OVERLAP);
  }

  lemma FirstClaim(s: System, t: System)
    requires s == System(map[0 := 7], map[0 := FIRST], map[], Some(LOADED),
                         map[1 := Worker(5, LOADED, 0), 2 := Worker(5, LOADED, 0)], multiset{}, multiset{}, {0}, {0})
    requires t == Step(s, Finish(1, Commits))
    ensures t.reminders == map[0 := Deliver(FIRST, 5)] && t.owners == map[0 := 7] && t.preferences == map[]
    ensures t.health.Some? && t.health.value.processed == 1 && t.deliveries == multiset{0} && t.usedReminders == {0}
    ensures t.workers == map[2 := Worker(5, LOADED, 0)]
  {
    var rest := s.(workers := s.workers - {1});
    assert Claimed(rest, 5) == {0};
    hide Claimed;
  }

  lemma SecondReminder(t: System, u: System)
    requires t.reminders == map[0 := Deliver(FIRST, 5)] && t.owners == map[0 := 7] && t.usedReminders == {0}
    requires u == Step(t, Create(1, 0, 7, true, LATER))
    ensures u == t.(reminders := map[0 := Deliver(FIRST, 5), 1 := SECOND], usedReminders := {0, 1})
  {
    assert DUE.key[0] != LATER.key[0];
    assert Existing(t.reminders, 0, "b") == {};
  }

  lemma SecondClaim(u: System)
    requires u.reminders == map[0 := Deliver(FIRST, 5), 1 := SECOND] && u.owners == map[0 := 7]
    requires u.preferences == map[]
    requires u.health.Some? && u.health.value.processed == 1 && u.deliveries == multiset{0}
    requires u.workers == map[2 := Worker(5, LOADED, 0)]
    ensures Processed(Step(u, Finish(2, Commits))) == 1 && |Step(u, Finish(2, Commits)).deliveries| == 2
  {
    var rest := u.(workers := u.workers - {2});
    assert Claimed(rest, 5) == {1};
    DispatchCounts(rest, 5, LOADED);
  }
}
