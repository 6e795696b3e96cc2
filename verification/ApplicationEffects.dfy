/** What a caller sees of each application command: the columns that change, the events logged, the answer. */
module ApplicationEffects {
  import opened Common
  import opened Applications
  import opened ApplicationRuns

  // ---- Lifecycles -------------------------------------------------------------------------------

  /** The steps of an application, in order. */
  function Rung(l: Lifecycle): nat {
    match l
    case Saved => 0
    case Preparing => 1
    case ReadyToSubmit => 2
    case Submitted => 3
    case DecisionReceived => 4
    case Accepted => 5
    case Declined => 5
    case Withdrawn => 6
  }

  /** One step forward, one step back before submission, or withdrawal while anything is still open. */
  lemma MovesAllowed(current: Lifecycle, target: Lifecycle)
    ensures Allowed(current, target) <==>
            || (target == Withdrawn && current !in {Accepted, Declined, Withdrawn})
            || (target != Withdrawn && Rung(target) == Rung(current) + 1)
            || Rung(target) + 1 == Rung(current) <= 2
  {
  }

  /** Which statuses of the older tracker become which lifecycle. */
  lemma LegacyOrigins(status: LegacyStatus)
    ensures LegacyLifecycle(status) == Saved <==> status == Interested
    ensures LegacyLifecycle(status) == Preparing <==>
            status in {Researching, PreparingDocuments, WaitingForRecommendation}
    ensures LegacyLifecycle(status) == ReadyToSubmit <==> status == ReadyToApply
    ensures LegacyLifecycle(status) == Submitted <==> status == LegacySubmitted
    ensures LegacyLifecycle(status) == DecisionReceived <==> status == InterviewStage
    ensures LegacyLifecycle(status) == Accepted <==> status == LegacyAccepted
    ensures LegacyLifecycle(status) == Declined <==> status == Rejected
    ensures LegacyLifecycle(status) == Withdrawn <==> status in {LegacyWithdrawn, Expired}
  {
  }

  // ---- Columns ----------------------------------------------------------------------------------

  /** `after` has the new value of every detail that has one, and otherwise the old value. */
  ghost predicate Overlaid(before: map<Detail, Option<string>>, sent: map<Detail, Option<string>>,
                           after: map<Detail, Option<string>>)
  {
    forall d: Detail ::
      && (d in after <==> d in sent || d in before)
      && (d in sent ==> after[d] == sent[d]) && (d in before && d !in sent ==> after[d] == before[d])
  }

  /** The row of a new application, continuing the older tracker's row if there is one. */
  ghost predicate RowStarted(row: Row, user: UserId, opportunity: OpportunityId, saved: Option<Legacy>,
                             details: map<Detail, Option<string>>)
  {
    && row.user == user && row.opportunity == opportunity && row.version == 1
    && match saved
       case None => row.lifecycle == Saved && row.submittedAt == None && row.details == details
       case Some(s) =>
         && row.lifecycle == LegacyLifecycle(s.status) && row.submittedAt == s.submittedAt
         && Overlaid(s.details, details, row.details)
  }

  /** The named columns change, entering SUBMITTED for the first time is stamped, the version counts up. */
  ghost predicate RowEdited(before: Row, after: Row, patch: Patch, now: Time) {
    && after.user == before.user && after.opportunity == before.opportunity && after.version == before.version + 1
    && after.lifecycle == (if patch.lifecycle.Set? then patch.lifecycle.value else before.lifecycle)
    && after.submittedAt == (if before.submittedAt == None && patch.lifecycle == Set(Submitted)
                                && before.lifecycle != Submitted
                             then Some(now) else before.submittedAt)
    && Overlaid(before.details, patch.details, after.details)
  }

  // ---- Updates ----------------------------------------------------------------------------------

  /** Why an update that read `read` is refused, when the row is `present` as it commits. */
  function Objection(present: Option<Row>, user: UserId, read: Row, patch: Patch): Option<AppError> {
    if patch.expected == None then Some(VersionRequired)
    else if patch.expected != Some(read.version) then Some(VersionConflict)
    else if patch.lifecycle.Set? && patch.lifecycle.value != read.lifecycle
            && !Allowed(read.lifecycle, patch.lifecycle.value)
    then Some(InvalidTransition)
    else if present.None? || present.value.user != user || present.value.version != read.version
    then Some(VersionConflict)
    else if patch.lifecycle.Null? || (PersonalTimezone in patch.details && patch.details[PersonalTimezone] == None)
    then Some(NullViolation)
    else None
  }

  /** The events of a successful update: the move, if there is one, and the fields sent. */
  function Logged(id: ApplicationId, user: UserId, read: Row, patch: Patch): seq<Event> {
    var sent := Updated(id, user, patch.lifecycle.Set?, patch.details.Keys);
    if patch.lifecycle.Set? && patch.lifecycle.value != read.lifecycle
    then [LifecycleChanged(id, user, read.lifecycle, patch.lifecycle.value), sent]
    else [sent]
  }

  /** Everything an update does and answers: nothing and the objection, or one row edited and its events. */
  ghost predicate UpdateSeen(s: Workspace, t: Workspace, id: ApplicationId, user: UserId, read: Row, patch: Patch,
                             now: Time, r: Result<Row, AppError>)
  {
    match Objection(Lookup(s.applications, id), user, read, patch)
    case Some(e) => t == s && r == Err(e)
    case None =>
      && id in s.applications && r.Ok? && RowEdited(s.applications[id], r.value, patch, now)
      && t.applications == s.applications[id := r.value]
      && t.events == s.events + Logged(id, user, read, patch)
  }

  lemma UpdateIsSeen(s: Workspace, id: ApplicationId, user: UserId, read: Row, patch: Patch, now: Time)
    requires id in s.applications && s.applications[id].version == read.version ==>
               s.applications[id].lifecycle == read.lifecycle && s.applications[id].submittedAt == read.submittedAt
    ensures UpdateSeen(s, UpdatedIn(s, id, user, read, patch, now), id, user, read, patch, now,
                       UpdateReply(s.applications, id, user, read, patch, now))
  {
    hide Allowed;
  }

  // ---- Creation and deletion --------------------------------------------------------------------

  ghost predicate CreationSeen(s: Workspace, t: Workspace, id: ApplicationId, user: UserId, opportunity: OpportunityId,
                               verified: bool, saved: Option<Legacy>, details: map<Detail, Option<string>>)
  {
    if !verified
       || exists k ::
            k in s.applications && s.applications[k].user == user && s.applications[k].opportunity == opportunity
    then t == s
    else
      && id in t.applications && t.applications == s.applications[id := t.applications[id]]
      && RowStarted(t.applications[id], user, opportunity, saved, details)
      && t.events == s.events + [Created(id, user, opportunity)]
  }

  lemma CreationIsSeen(s: Workspace, id: ApplicationId, user: UserId, opportunity: OpportunityId, verified: bool,
                       saved: Option<Legacy>, details: map<Detail, Option<string>>)
    ensures CreationSeen(s, CreatedIn(s, id, user, opportunity, verified, saved, details), id, user, opportunity,
                         verified, saved, details)
  {
    hide LegacyLifecycle;
  }

  /** The events of one application, in order. */
  function Trail(events: seq<Event>, id: ApplicationId): seq<Event> {
    if events == [] then []
    else
      var n := |events| - 1;
      Trail(events[..n], id) + if events[n].application == id then [events[n]] else []
  }

  lemma {:induction false} WithoutTrail(events: seq<Event>, gone: ApplicationId, id: ApplicationId)
    ensures Trail(Without(events, gone), id) == if id == gone then [] else Trail(events, id)
  {
    if events != [] {
      var n := |events| - 1;
      WithoutTrail(events[..n], gone, id);
      var rest := Without(events[..n], gone);
      assert (rest + [events[n]])[..|rest|] == rest;
    }
  }

  /** The applications are gone with their events; everything else is as it was. */
  ghost predicate DeletionSeen(s: Workspace, t: Workspace, gone: set<ApplicationId>) {
    && t.applications == s.applications - gone
    && forall id :: Trail(t.events, id) == if id in gone then [] else Trail(s.events, id)
  }

  lemma DeletionIsSeen(s: Workspace, id: ApplicationId)
    requires id in s.applications
    ensures DeletionSeen(s, DeletedIn(s, id), {id})
  {
    forall k
      ensures Trail(DeletedIn(s, id).events, k) == if k == id then [] else Trail(s.events, k)
    {
      WithoutTrail(s.events, id, k);
    }
  }

  function IdsOf(ids: seq<ApplicationId>): set<ApplicationId> {
    set id | id in ids
  }

  lemma DeletionsCompose(s: Workspace, t: Workspace, u: Workspace, gone: set<ApplicationId>, id: ApplicationId)
    requires DeletionSeen(s, t, gone) && DeletionSeen(t, u, {id})
    ensures DeletionSeen(s, u, gone + {id})
  {
    hide Trail;
    assert s.applications - gone - {id} == s.applications - (gone + {id});
  }

  lemma NothingGone(s: Workspace)
    ensures DeletionSeen(s, s, {})
  {
    assert s.applications - {} == s.applications;
  }

  lemma {:induction false} AllDeletionsSeen(s: Workspace, ids: seq<ApplicationId>)
    requires forall id :: id in ids ==> id in s.applications
    requires forall i, j :: 0 <= i < j < |ids| ==> ids[i] != ids[j]
    ensures DeletionSeen(s, DeletedAllIn(s, ids), IdsOf(ids))
    decreases |ids|
  {
    hide DeletionSeen, DeletedIn;
    if ids == [] {
      NothingGone(s);
      assert IdsOf(ids) == {};
    } else {
      var front, last := ids[..|ids| - 1], ids[|ids| - 1];
      assert ids == front + [last];
      AllDeletionsSeen(s, front);
      var t := DeletedAllIn(s, front);
      NotYetGone(s, t, IdsOf(front), last);
      DeletionIsSeen(t, last);
      DeletionsCompose(s, t, DeletedIn(t, last), IdsOf(front), last);
      assert IdsOf(ids) == IdsOf(front) + {last};
    }
  }

  lemma NotYetGone(s: Workspace, t: Workspace, gone: set<ApplicationId>, id: ApplicationId)
    requires DeletionSeen(s, t, gone) && id in s.applications && id !in gone
    ensures id in t.applications
  {
  }
}
