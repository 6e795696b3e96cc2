/** Runs of the workspace: creates, deletes, and updates that commit at any time after they read. */
module ApplicationRuns {
  import opened Common
  import opened Applications
  import opened ApplicationHistory

  // ---- The event log ----------------------------------------------------------------------------

  /** The lifecycle reached by following the logged changes, or none if some change does not link up. */
  ghost function Replay(first: Lifecycle, events: seq<Event>, id: ApplicationId): Option<Lifecycle> {
    if events == [] then Some(first)
    else Advance(Replay(first, events[..|events| - 1], id), events[|events| - 1], id)
  }

  function Advance(before: Option<Lifecycle>, e: Event, id: ApplicationId): Option<Lifecycle> {
    if e.application != id || !e.LifecycleChanged? then before
    else if before == Some(e.previous) then Some(e.next)
    else None
  }

  ghost function UpdatesLogged(events: seq<Event>, id: ApplicationId): nat {
    if events == [] then 0
    else
      UpdatesLogged(events[..|events| - 1], id)
      + (if events[|events| - 1].Updated? && events[|events| - 1].application == id then 1 else 0)
  }

  /** The log of a live application leads from its first lifecycle to its present one. */
  ghost predicate Recorded(s: Workspace, id: ApplicationId)
    requires id in s.applications
  {
    && Initial(s.history, id).Some?
    && Replay(Initial(s.history, id).value.lifecycle, s.events, id) == Some(s.applications[id].lifecycle)
    && UpdatesLogged(s.events, id) + 1 == s.applications[id].version
  }

  // ---- The invariant ----------------------------------------------------------------------------

  function Lookup(applications: map<ApplicationId, Row>, id: ApplicationId): Option<Row> {
    if id in applications then Some(applications[id]) else None
  }

  ghost predicate WorkspaceOk(s: Workspace) {
    && Legal(s.history)
    && (forall id :: Current(s.history, id) == Lookup(s.applications, id))
    && (forall e :: e in s.events ==> e.application in s.applications)
    && (forall id :: id in s.applications ==> Recorded(s, id))
    && OnePerOpportunity(s.applications)
  }

  ghost predicate OnePerOpportunity(applications: map<ApplicationId, Row>) {
    forall i, j :: i in applications && j in applications && i != j ==>
      !(applications[i].user == applications[j].user && applications[i].opportunity == applications[j].opportunity)
  }

  const EMPTY := Workspace(map[], [], [])

  ghost predicate Enabled(s: Workspace, a: Action) {
    match a
    case Create(id, _, _, _, _, _) => NeverOpened(s.history, id)
    case Update(id, user, read, _, _) => Seen(s.history, id, user, read)
    case Delete(_, _) => true
    case DeleteAll(user, order) =>
      (forall id :: id in order <==> id in Owned(s.applications, user))
      && forall i, j :: 0 <= i < j < |order| ==> order[i] != order[j]
  }

  ghost function Step(s: Workspace, a: Action): Workspace {
    match a
    case Create(id, user, opportunity, verified, saved, details) =>
      CreatedIn(s, id, user, opportunity, verified, saved, details)
    case Update(id, user, read, patch, now) => UpdatedIn(s, id, user, read, patch, now)
    case Delete(id, user) => if id in Owned(s.applications, user) then DeletedIn(s, id) else s
    case DeleteAll(_, order) => DeletedAllIn(s, order)
  }

  // ---- Events under each operation --------------------------------------------------------------

  lemma LogOneMore(first: Lifecycle, events: seq<Event>, e: Event, id: ApplicationId)
    ensures Replay(first, events + [e], id) == Advance(Replay(first, events, id), e, id)
    ensures UpdatesLogged(events + [e], id) ==
            UpdatesLogged(events, id) + (if e.Updated? && e.application == id then 1 else 0)
  {
    assert (events + [e])[..|events|] == events;
  }

  lemma {:induction false} SilentLog(first: Lifecycle, events: seq<Event>, id: ApplicationId)
    requires forall e :: e in events ==> e.application != id
    ensures Replay(first, events, id) == Some(first) && UpdatesLogged(events, id) == 0
  {
    if events != [] {
      var front := events[..|events| - 1];
      assert forall e :: e in front ==> e in events;
      SilentLog(first, front, id);
      assert events[|events| - 1] in events;
    }
  }

  lemma {:induction false} WithoutKeepsOthers(first: Lifecycle, events: seq<Event>, gone: ApplicationId,
                                              id: ApplicationId)
    requires gone != id
    ensures Replay(first, Without(events, gone), id) == Replay(first, events, id)
    ensures UpdatesLogged(Without(events, gone), id) == UpdatesLogged(events, id)
  {
    if events == [] {
      assert Without(events, gone) == [];
    } else {
      hide Replay, UpdatesLogged;
      var front, last := events[..|events| - 1], events[|events| - 1];
      WithoutKeepsOthers(first, front, gone, id);
      assert events == front + [last];
      LogOneMore(first, front, last, id);
      LogOneMore(first, Without(front, gone), last, id);
    }
  }

  lemma {:induction false} WithoutDrops(events: seq<Event>, gone: ApplicationId, e: Event)
    ensures e in Without(events, gone) <==> e in events && e.application != gone
  {
    if events != [] {
      WithoutDrops(events[..|events| - 1], gone, e);
      assert events == events[..|events| - 1] + [events[|events| - 1]];
    }
  }

  /** An announced replacement extends the replay by exactly the move it made. */
  lemma AnnouncedReplays(first: Lifecycle, events: seq<Event>, id: ApplicationId, user: UserId, read: Row,
                         patch: Patch, now: Time)
    requires Prepare(read, patch, now).Ok? && !BreaksNotNull(Prepare(read, patch, now).value)
    requires Replay(first, events, id) == Some(read.lifecycle)
    ensures var w := Prepare(read, patch, now).value;
            && Replay(first, events + Announced(id, user, read, w), id) == Some(Written(read, w).lifecycle)
            && UpdatesLogged(events + Announced(id, user, read, w), id) == UpdatesLogged(events, id) + 1
  {
    hide Replay, UpdatesLogged;
    var w := Prepare(read, patch, now).value;
    var done := Updated(id, user, !w.lifecycle.Unset?, w.details.Keys);
    if w.announced.Some? {
      var change := LifecycleChanged(id, user, read.lifecycle, w.announced.value);
      LogOneMore(first, events, change, id);
      LogOneMore(first, events + [change], done, id);
      assert events + Announced(id, user, read, w) == events + [change] + [done];
    } else {
      LogOneMore(first, events, done, id);
      assert events + Announced(id, user, read, w) == events + [done];
    }
  }

  lemma AnnouncedElsewhere(first: Lifecycle, events: seq<Event>, at: ApplicationId, user: UserId, read: Row, w: Write,
                           id: ApplicationId)
    requires at != id
    ensures Replay(first, events + Announced(at, user, read, w), id) == Replay(first, events, id)
    ensures UpdatesLogged(events + Announced(at, user, read, w), id) == UpdatesLogged(events, id)
  {
    var done := Updated(at, user, !w.lifecycle.Unset?, w.details.Keys);
    if w.announced.Some? {
      var change := LifecycleChanged(at, user, read.lifecycle, w.announced.value);
      LogOneMore(first, events, change, id);
      LogOneMore(first, events + [change], done, id);
      assert events + Announced(at, user, read, w) == events + [change] + [done];
    } else {
      LogOneMore(first, events, done, id);
      assert events + Announced(at, user, read, w) == events + [done];
    }
  }

  // ---- Every step keeps the invariant -----------------------------------------------------------

  lemma InitialExtends(h: seq<Entry>, e: Entry, id: ApplicationId)
    requires !e.Opened? || e.id != id
    ensures Initial(h + [e], id) == Initial(h, id)
  {
    assert (h + [e])[..|h|] == h;
  }

  lemma CreateKeepsOk(s: Workspace, id: ApplicationId, user: UserId, opportunity: OpportunityId, verified: bool,
                      saved: Option<Legacy>, details: map<Detail, Option<string>>)
    requires WorkspaceOk(s) && NeverOpened(s.history, id)
    ensures WorkspaceOk(CreatedIn(s, id, user, opportunity, verified, saved, details))
  {
    var t := CreatedIn(s, id, user, opportunity, verified, saved, details);
    UnopenedHasNoRow(s.history, id);
    if t != s {
      var row := NewRow(user, opportunity, saved, details);
      ExtendLegal(s.history, Opened(id, row));
      assert Lookup(s.applications, id).None?;
      forall k | k in t.applications
        ensures Recorded(t, k)
      {
        if k == id {
          assert t.history[..|s.history|] == s.history;
          SilentLog(row.lifecycle, s.events, id);
          LogOneMore(row.lifecycle, s.events, Created(id, user, opportunity), id);
        } else {
          InitialExtends(s.history, Opened(id, row), k);
          LogOneMore(Initial(s.history, k).value.lifecycle, s.events, Created(id, user, opportunity), k);
        }
      }
    }
  }

  /**
   * The heart of the optimistic update: when the guarded statement matches, the row it replaces is
   * the row the request validated against, so the move applied was legal from where it really was.
   */
  lemma CommitReplacesWhatWasRead(s: Workspace, id: ApplicationId, user: UserId, read: Row, patch: Patch, now: Time)
    requires WorkspaceOk(s) && Seen(s.history, id, user, read)
    ensures UpdateReply(s.applications, id, user, read, patch, now).Ok? ==>
              && id in s.applications && s.applications[id] == read
              && Successor(read, UpdateReply(s.applications, id, user, read, patch, now).value)
  {
    if UpdateReply(s.applications, id, user, read, patch, now).Ok? {
      assert Current(s.history, id) == Lookup(s.applications, id);
      SnapshotIsCurrent(s.history, id, user, read);
    }
  }

  /** Exactly when an update takes effect, whatever happened since it read. */
  lemma UpdateSucceedsExactly(s: Workspace, id: ApplicationId, user: UserId, read: Row, patch: Patch, now: Time)
    requires WorkspaceOk(s) && Seen(s.history, id, user, read)
    ensures UpdateReply(s.applications, id, user, read, patch, now).Ok? <==>
            && id in s.applications && s.applications[id] == read
            && patch.expected == Some(read.version)
            && (patch.lifecycle.Set? ==>
                  patch.lifecycle.value == read.lifecycle || Allowed(read.lifecycle, patch.lifecycle.value))
            && !patch.lifecycle.Null?
            && (PersonalTimezone in patch.details ==> patch.details[PersonalTimezone].Some?)
  {
    CommitReplacesWhatWasRead(s, id, user, read, patch, now);
  }

  lemma UpdateKeepsOk(s: Workspace, id: ApplicationId, user: UserId, read: Row, patch: Patch, now: Time)
    requires WorkspaceOk(s) && Seen(s.history, id, user, read)
    ensures WorkspaceOk(UpdatedIn(s, id, user, read, patch, now))
  {
    hide Recorded;
    var t := UpdatedIn(s, id, user, read, patch, now);
    if UpdateReply(s.applications, id, user, read, patch, now).Ok? {
      CommitReplacesWhatWasRead(s, id, user, read, patch, now);
      assert Current(s.history, id) == Lookup(s.applications, id);
      ExtendLegal(s.history, Replaced(id, read, Written(read, Prepare(read, patch, now).value)));
      forall k | k in t.applications
        ensures Recorded(t, k)
      {
        UpdateKeepsRecord(s, id, user, read, patch, now, k);
      }
    } else {
      assert t == s;
    }
  }

  lemma UpdateKeepsRecord(s: Workspace, id: ApplicationId, user: UserId, read: Row, patch: Patch, now: Time,
                          k: ApplicationId)
    requires UpdateReply(s.applications, id, user, read, patch, now).Ok? && s.applications[id] == read
    requires k in s.applications && Recorded(s, k)
    ensures Recorded(UpdatedIn(s, id, user, read, patch, now), k)
  {
    hide Replay, UpdatesLogged, Initial, Announced;
    var w := Prepare(read, patch, now).value;
    InitialExtends(s.history, Replaced(id, read, Written(read, w)), k);
    if k == id {
      AnnouncedReplays(Initial(s.history, id).value.lifecycle, s.events, id, user, read, patch, now);
    } else {
      AnnouncedElsewhere(Initial(s.history, k).value.lifecycle, s.events, id, user, read, w, k);
    }
  }

  lemma DeleteKeepsOk(s: Workspace, id: ApplicationId)
    requires WorkspaceOk(s) && id in s.applications
    ensures WorkspaceOk(DeletedIn(s, id))
  {
    var t := DeletedIn(s, id);
    assert Current(s.history, id) == Lookup(s.applications, id);
    ExtendLegal(s.history, Closed(id));
    forall e | e in t.events
      ensures e.application in t.applications
    {
      WithoutDrops(s.events, id, e);
    }
    forall k | k in t.applications
      ensures Recorded(t, k)
    {
      assert Recorded(s, k);
      InitialExtends(s.history, Closed(id), k);
      WithoutKeepsOthers(Initial(s.history, k).value.lifecycle, s.events, id, k);
    }
  }

  lemma {:induction false} DeleteAllKeepsOk(s: Workspace, ids: seq<ApplicationId>)
    requires WorkspaceOk(s)
    ensures WorkspaceOk(DeletedAllIn(s, ids))
    ensures forall id :: id in DeletedAllIn(s, ids).applications <==> id in s.applications && id !in ids
    ensures forall id :: id in DeletedAllIn(s, ids).applications ==>
      DeletedAllIn(s, ids).applications[id] == s.applications[id]
    decreases |ids|
  {
    if ids != [] {
      var front, last := ids[..|ids| - 1], ids[|ids| - 1];
      DeleteAllKeepsOk(s, front);
      var t := DeletedAllIn(s, front);
      if last in t.applications {
        DeleteKeepsOk(t, last);
      }
      assert ids == front + [last];
    }
  }

  lemma NothingDeleted(s: Workspace)
    ensures DeletedAllIn(s, []) == s
  {
  }

  lemma DeleteNext(s: Workspace, ids: seq<ApplicationId>, i: nat)
    requires i < |ids|
    ensures var t := DeletedAllIn(s, ids[..i]);
            DeletedAllIn(s, ids[..i + 1]) == (if ids[i] in t.applications then DeletedIn(t, ids[i]) else t)
  {
    assert ids[..i + 1][..i] == ids[..i];
  }

  lemma StepKeepsOk(s: Workspace, a: Action)
    requires WorkspaceOk(s) && Enabled(s, a)
    ensures WorkspaceOk(Step(s, a))
  {
    match a
    case Create(id, user, opportunity, verified, saved, details) =>
      CreateKeepsOk(s, id, user, opportunity, verified, saved, details);
    case Update(id, user, read, patch, now) => UpdateKeepsOk(s, id, user, read, patch, now);
    case Delete(id, user) =>
      if id in Owned(s.applications, user) {
        DeleteKeepsOk(s, id);
      }
    case DeleteAll(_, order) => DeleteAllKeepsOk(s, order);
  }

  // ---- Runs -------------------------------------------------------------------------------------

  ghost predicate IsRun(states: seq<Workspace>, actions: seq<Action>) {
    && |states| == |actions| + 1
    && states[0] == EMPTY
    && forall i :: 0 <= i < |actions| ==> Enabled(states[i], actions[i]) && states[i + 1] == Step(states[i], actions[i])
  }

  lemma {:induction false} RunKeepsOk(states: seq<Workspace>, actions: seq<Action>, n: nat)
    requires IsRun(states, actions) && n < |states|
    ensures WorkspaceOk(states[n])
  {
    if n > 0 {
      RunKeepsOk(states, actions, n - 1);
      StepKeepsOk(states[n - 1], actions[n - 1]);
    }
  }

  lemma {:induction false} DeleteAllExtends(s: Workspace, ids: seq<ApplicationId>)
    ensures s.history <= DeletedAllIn(s, ids).history
    decreases |ids|
  {
    if ids != [] {
      DeleteAllExtends(s, ids[..|ids| - 1]);
    }
  }

  lemma StepExtends(s: Workspace, a: Action)
    ensures s.history <= Step(s, a).history
  {
    if a.DeleteAll? {
      DeleteAllExtends(s, a.order);
    }
  }

  lemma {:induction false} HistoryExtends(states: seq<Workspace>, actions: seq<Action>, i: nat, j: nat)
    requires IsRun(states, actions) && i <= j < |states|
    ensures states[i].history <= states[j].history
    decreases j
  {
    if i < j {
      HistoryExtends(states, actions, i, j - 1);
      StepExtends(states[j - 1], actions[j - 1]);
    }
  }

  /** The step is an update of `id` that the service answered with the new row. */
  ghost predicate Succeeds(s: Workspace, a: Action, id: ApplicationId) {
    a.Update? && a.id == id && UpdateReply(s.applications, id, a.user, a.read, a.patch, a.now).Ok?
  }

  lemma SuccessIsLogged(s: Workspace, a: Action, id: ApplicationId)
    requires WorkspaceOk(s) && Enabled(s, a) && Succeeds(s, a, id)
    ensures var h := s.history;
            && Step(s, a).history == h + [Replaced(id, a.read, Step(s, a).applications[id])]
            && a.patch.expected == Some(a.read.version)
  {
    CommitReplacesWhatWasRead(s, id, a.user, a.read, a.patch, a.now);
  }

  /** Among all updates of a run that carry one expected version, at most one takes effect. */
  lemma AtMostOneWinner(states: seq<Workspace>, actions: seq<Action>, id: ApplicationId, i: nat, j: nat)
    requires IsRun(states, actions) && i < |actions| && j < |actions|
    requires Succeeds(states[i], actions[i], id) && Succeeds(states[j], actions[j], id)
    requires actions[i].patch.expected == actions[j].patch.expected
    ensures i == j
  {
    if i < j {
      LaterUpdateSeesLaterVersion(states, actions, id, i, j);
    } else if j < i {
      LaterUpdateSeesLaterVersion(states, actions, id, j, i);
    }
  }

  lemma LaterUpdateSeesLaterVersion(states: seq<Workspace>, actions: seq<Action>, id: ApplicationId, i: nat, j: nat)
    requires IsRun(states, actions) && i < j < |actions|
    requires Succeeds(states[i], actions[i], id) && Succeeds(states[j], actions[j], id)
    ensures actions[i].read.version < actions[j].read.version
  {
    RunKeepsOk(states, actions, i);
    RunKeepsOk(states, actions, j);
    RunKeepsOk(states, actions, j + 1);
    SuccessIsLogged(states[i], actions[i], id);
    SuccessIsLogged(states[j], actions[j], id);
    HistoryExtends(states, actions, i + 1, j);
    OneUpdatePerVersion(states[j + 1].history, |states[i].history|, |states[j].history|);
  }

  /** How many of the first `n` actions were successful updates of `id`. */
  ghost function Successes(states: seq<Workspace>, actions: seq<Action>, id: ApplicationId, n: nat): nat
    requires n <= |actions| && |states| == |actions| + 1
  {
    if n == 0 then 0
    else Successes(states, actions, id, n - 1) + (if Succeeds(states[n - 1], actions[n - 1], id) then 1 else 0)
  }

  lemma {:induction false} DeletingReplacesNothing(s: Workspace, ids: seq<ApplicationId>, id: ApplicationId)
    ensures Replacements(DeletedAllIn(s, ids).history, id) == Replacements(s.history, id)
    decreases |ids|
  {
    hide Without;
    if ids != [] {
      var front, last := ids[..|ids| - 1], ids[|ids| - 1];
      DeletingReplacesNothing(s, front, id);
      var t := DeletedAllIn(s, front);
      if last in t.applications {
        assert DeletedAllIn(s, ids).history == t.history + [Closed(last)];
        ClosingReplacesNothing(t.history, last, id);
      } else {
        assert DeletedAllIn(s, ids) == t;
      }
    }
  }

  lemma ClosingReplacesNothing(h: seq<Entry>, closed: ApplicationId, id: ApplicationId)
    ensures Replacements(h + [Closed(closed)], id) == Replacements(h, id)
  {
    assert (h + [Closed(closed)])[..|h|] == h;
  }

  lemma StepCounts(s: Workspace, a: Action, id: ApplicationId)
    ensures Replacements(Step(s, a).history, id) == Replacements(s.history, id) + (if Succeeds(s, a, id) then 1 else 0)
  {
    var t := Step(s, a);
    match a
    case DeleteAll(_, order) => DeletingReplacesNothing(s, order, id);
    case _ =>
      if t.history != s.history {
        assert t.history[..|s.history|] == s.history;
      }
  }

  /** A live application's version is one more than the number of its updates that succeeded. */
  lemma VersionCountsSuccesses(states: seq<Workspace>, actions: seq<Action>, id: ApplicationId, n: nat)
    requires IsRun(states, actions) && n < |states| && id in states[n].applications
    ensures states[n].applications[id].version == 1 + Successes(states, actions, id, n)
  {
    RunKeepsOk(states, actions, n);
    assert Current(states[n].history, id) == Lookup(states[n].applications, id);
    VersionCountsUpdates(states[n].history, id);
    ReplacementsAreSuccesses(states, actions, id, n);
  }

  lemma {:induction false} ReplacementsAreSuccesses(states: seq<Workspace>, actions: seq<Action>, id: ApplicationId,
                                                    n: nat)
    requires IsRun(states, actions) && n < |states|
    ensures Replacements(states[n].history, id) == Successes(states, actions, id, n)
  {
    if n > 0 {
      ReplacementsAreSuccesses(states, actions, id, n - 1);
      StepCounts(states[n - 1], actions[n - 1], id);
    }
  }

  /** Replaying the logged changes from the first lifecycle gives the present one, in every reachable state. */
  lemma LogReplays(states: seq<Workspace>, actions: seq<Action>, id: ApplicationId, n: nat)
    requires IsRun(states, actions) && n < |states| && id in states[n].applications
    ensures Initial(states[n].history, id).Some?
    ensures Replay(Initial(states[n].history, id).value.lifecycle, states[n].events, id) ==
            Some(states[n].applications[id].lifecycle)
    ensures UpdatesLogged(states[n].events, id) == Successes(states, actions, id, n)
  {
    RunKeepsOk(states, actions, n);
    assert Recorded(states[n], id);
    VersionCountsSuccesses(states, actions, id, n);
  }

  /** Between any two moments of a run at which an application exists. */
  lemma LifecycleOverRun(states: seq<Workspace>, actions: seq<Action>, id: ApplicationId, i: nat, j: nat)
    requires IsRun(states, actions) && i <= j < |states| && id in states[i].applications && id in states[j].applications
    ensures var a, b := states[i].applications[id], states[j].applications[id];
            && Stage(a.lifecycle) <= Stage(b.lifecycle)
            && (Terminal(a.lifecycle) ==> b.lifecycle == a.lifecycle)
            && (a.submittedAt.Some? || PostSubmission(a.lifecycle) ==> b.submittedAt == a.submittedAt)
            && a.version <= b.version && (a.version == b.version ==> a == b)
  {
    RunKeepsOk(states, actions, i);
    RunKeepsOk(states, actions, j);
    HistoryExtends(states, actions, i, j);
    var k := |states[i].history|;
    assert states[j].history[..k] == states[i].history;
    assert Current(states[i].history, id) == Lookup(states[i].applications, id);
    assert Current(states[j].history, id) == Lookup(states[j].applications, id);
    StagesGrow(states[j].history, id, k);
    VersionsGrow(states[j].history, id, k);
  }
}
