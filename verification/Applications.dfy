/** The application workspace: rows, lifecycle rules, and the two halves of an optimistic update. */
module Applications {
  import opened Common

  type ApplicationId = nat
  type UserId = nat
  type OpportunityId = nat
  type Time = nat

  datatype Lifecycle =
    | Saved | Preparing | ReadyToSubmit | Submitted
    | DecisionReceived | Accepted | Declined | Withdrawn

  /** The transition table of `_validate_transition`. */
  predicate Allowed(current: Lifecycle, target: Lifecycle) {
    match current
    case Saved => target in {Preparing, Withdrawn}
    case Preparing => target in {Saved, ReadyToSubmit, Withdrawn}
    case ReadyToSubmit => target in {Preparing, Submitted, Withdrawn}
    case Submitted => target in {DecisionReceived, Withdrawn}
    case DecisionReceived => target in {Accepted, Declined, Withdrawn}
    case Accepted => false
    case Declined => false
    case Withdrawn => false
  }

  /** The columns a student edits that no rule looks at. */
  datatype Detail = PersonalDeadline | PersonalTimezone | Notes | DecisionNotes

  datatype Row = Row(
    user: UserId,
    opportunity: OpportunityId,
    lifecycle: Lifecycle,
    submittedAt: Option<Time>,
    details: map<Detail, Option<string>>,
    version: nat
  )

  /** A payload field is left out, sent as an explicit null, or sent with a value. */
  datatype LifecycleField = Unset | Null | Set(value: Lifecycle)

  datatype Patch = Patch(expected: Option<nat>, lifecycle: LifecycleField, details: map<Detail, Option<string>>)

  datatype AppError =
    | NotFound | AlreadyExists | Unverified
    | VersionRequired | VersionConflict | InvalidTransition | NullViolation

  datatype Event =
    | Created(application: ApplicationId, actor: UserId, opportunity: OpportunityId)
    | LifecycleChanged(application: ApplicationId, actor: UserId, previous: Lifecycle, next: Lifecycle)
    | Updated(application: ApplicationId, actor: UserId, lifecycleSent: bool, details: set<Detail>)

  /** What really happened to the rows, in commit order; rows themselves keep no history. */
  datatype Entry =
    | Opened(id: ApplicationId, row: Row)
    | Replaced(id: ApplicationId, before: Row, after: Row)
    | Closed(id: ApplicationId)

  datatype Workspace = Workspace(
    applications: map<ApplicationId, Row>,
    events: seq<Event>,
    history: seq<Entry>
  )

  // ---- Creation ---------------------------------------------------------------------------------

  datatype LegacyStatus =
    | Interested | Researching | PreparingDocuments | WaitingForRecommendation | ReadyToApply | LegacySubmitted
    | InterviewStage | LegacyAccepted | Rejected | LegacyWithdrawn | Expired

  /** The row of the older tracker that a new application may continue. */
  datatype Legacy = Legacy(status: LegacyStatus, submittedAt: Option<Time>, details: map<Detail, Option<string>>)

  function LegacyLifecycle(status: LegacyStatus): Lifecycle {
    match status
    case Interested => Saved
    case Researching => Preparing
    case PreparingDocuments => Preparing
    case WaitingForRecommendation => Preparing
    case ReadyToApply => ReadyToSubmit
    case LegacySubmitted => Submitted
    case InterviewStage => DecisionReceived
    case LegacyAccepted => Accepted
    case Rejected => Declined
    case LegacyWithdrawn => Withdrawn
    case Expired => Withdrawn
  }

  function NewRow(user: UserId, opportunity: OpportunityId, saved: Option<Legacy>,
                  details: map<Detail, Option<string>>): Row
  {
    match saved
    case None => Row(user, opportunity, Saved, None, details, 1)
    case Some(s) => Row(user, opportunity, LegacyLifecycle(s.status), s.submittedAt, s.details + details, 1)
  }

  predicate Taken(applications: map<ApplicationId, Row>, user: UserId, opportunity: OpportunityId) {
    exists id :: id in applications && applications[id].user == user && applications[id].opportunity == opportunity
  }

  // ---- The two halves of an update --------------------------------------------------------------

  /** The column changes one request wants, decided from the row it read. */
  datatype Write = Write(
    expected: nat,
    lifecycle: LifecycleField,
    stamp: Option<Time>,
    details: map<Detail, Option<string>>,
    /** The transition announced in the event log, again as seen in the row read. */
    announced: Option<Lifecycle>
  )

  function Moves(read: Row, patch: Patch): bool {
    patch.lifecycle.Set? && patch.lifecycle.value != read.lifecycle
  }

  /** First half: everything the request checks and decides against the row it read. */
  function Prepare(read: Row, patch: Patch, now: Time): Result<Write, AppError> {
    if patch.expected.None? then Err(VersionRequired)
    else if patch.expected.value != read.version then Err(VersionConflict)
    else if Moves(read, patch) && !Allowed(read.lifecycle, patch.lifecycle.value) then Err(InvalidTransition)
    else
      var submits := Moves(read, patch) && patch.lifecycle.value == Submitted && read.submittedAt.None?;
      Ok(Write(patch.expected.value, patch.lifecycle, if submits then Some(now) else None, patch.details,
               if Moves(read, patch) then Some(patch.lifecycle.value) else None))
  }

  /** The row as the UPDATE statement leaves it: only the named columns change, and the version. */
  function Written(row: Row, w: Write): Row {
    row.(lifecycle := if w.lifecycle.Set? then w.lifecycle.value else row.lifecycle,
         submittedAt := if w.stamp.Some? then w.stamp else row.submittedAt,
         details := row.details + w.details,
         version := row.version + 1)
  }

  /** Both columns are NOT NULL, so an explicit null fails the statement. */
  predicate BreaksNotNull(w: Write) {
    w.lifecycle.Null? || (PersonalTimezone in w.details && w.details[PersonalTimezone].None?)
  }

  predicate Matches(applications: map<ApplicationId, Row>, id: ApplicationId, user: UserId, expected: nat) {
    id in applications && applications[id].user == user && applications[id].version == expected
  }

  function Announced(id: ApplicationId, user: UserId, read: Row, w: Write): seq<Event> {
    (if w.announced.Some? then [LifecycleChanged(id, user, read.lifecycle, w.announced.value)] else [])
    + [Updated(id, user, !w.lifecycle.Unset?, w.details.Keys)]
  }

  /** Second half: the guarded statement and its events, in one transaction. */
  ghost function Committed(s: Workspace, id: ApplicationId, user: UserId, read: Row, w: Write): Workspace {
    if !Matches(s.applications, id, user, w.expected) || BreaksNotNull(w) then s
    else
      var before := s.applications[id];
      var after := Written(before, w);
      Workspace(s.applications[id := after], s.events + Announced(id, user, read, w),
                s.history + [Replaced(id, before, after)])
  }

  function CommitReply(applications: map<ApplicationId, Row>, id: ApplicationId, user: UserId,
                       w: Write): Result<Row, AppError>
  {
    if !Matches(applications, id, user, w.expected) then Err(VersionConflict)
    else if BreaksNotNull(w) then Err(NullViolation)
    else Ok(Written(applications[id], w))
  }

  // ---- Whole operations -------------------------------------------------------------------------

  datatype Action =
    | Create(id: ApplicationId, user: UserId, opportunity: OpportunityId, verified: bool, saved: Option<Legacy>,
             details: map<Detail, Option<string>>)
    /** An update commits long after it read `read`: any other action may have come between. */
    | Update(id: ApplicationId, user: UserId, read: Row, patch: Patch, now: Time)
    | Delete(id: ApplicationId, user: UserId)
    | DeleteAll(user: UserId, order: seq<ApplicationId>)

  ghost function CreatedIn(s: Workspace, id: ApplicationId, user: UserId, opportunity: OpportunityId, verified: bool,
                           saved: Option<Legacy>, details: map<Detail, Option<string>>): Workspace
  {
    if Taken(s.applications, user, opportunity) || !verified then s
    else
      var row := NewRow(user, opportunity, saved, details);
      Workspace(s.applications[id := row], s.events + [Created(id, user, opportunity)], s.history + [Opened(id, row)])
  }

  ghost function UpdatedIn(s: Workspace, id: ApplicationId, user: UserId, read: Row, patch: Patch, now: Time): Workspace
  {
    var w := Prepare(read, patch, now);
    if w.Err? then s else Committed(s, id, user, read, w.value)
  }

  function UpdateReply(applications: map<ApplicationId, Row>, id: ApplicationId, user: UserId, read: Row, patch: Patch,
                       now: Time): Result<Row, AppError>
  {
    var w := Prepare(read, patch, now);
    if w.Err? then Err(w.error) else CommitReply(applications, id, user, w.value)
  }

  /** The events of a deleted application go with it (ON DELETE CASCADE). */
  function Without(events: seq<Event>, id: ApplicationId): seq<Event> {
    if events == [] then []
    else
      var rest := Without(events[..|events| - 1], id);
      if events[|events| - 1].application == id then rest else rest + [events[|events| - 1]]
  }

  ghost function DeletedIn(s: Workspace, id: ApplicationId): Workspace
    requires id in s.applications
  {
    Workspace(s.applications - {id}, Without(s.events, id), s.history + [Closed(id)])
  }

  function Owned(applications: map<ApplicationId, Row>, user: UserId): set<ApplicationId> {
    set id | id in applications && applications[id].user == user
  }

  /** The deletions of `ids`, one row at a time in the given order. */
  ghost function DeletedAllIn(s: Workspace, ids: seq<ApplicationId>): Workspace
    decreases |ids|
  {
    if ids == [] then s
    else
      var t := DeletedAllIn(s, ids[..|ids| - 1]);
      if ids[|ids| - 1] in t.applications then DeletedIn(t, ids[|ids| - 1]) else t
  }
}
