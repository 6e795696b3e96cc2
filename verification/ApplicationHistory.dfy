/** What a legal history of application rows implies, however the requests interleave. */
module ApplicationHistory {
  import opened Common
  import opened Applications

  // ---- Legal histories --------------------------------------------------------------------------

  /** The row an application has after a history, if it is there. */
  ghost function Current(h: seq<Entry>, id: ApplicationId): Option<Row> {
    if h == [] then None
    else
      var last := h[|h| - 1];
      if last.id != id then Current(h[..|h| - 1], id)
      else
        match last
        case Opened(_, row) => Some(row)
        case Replaced(_, _, after) => Some(after)
        case Closed(_) => None
  }

  ghost predicate NeverOpened(h: seq<Entry>, id: ApplicationId) {
    forall e :: e in h ==> e.id != id
  }

  /** One replacement keeps every rule of the workspace. */
  predicate Successor(before: Row, after: Row) {
    && after.version == before.version + 1
    && after.user == before.user && after.opportunity == before.opportunity
    && (after.lifecycle == before.lifecycle || Allowed(before.lifecycle, after.lifecycle))
    && (if before.lifecycle != Submitted && after.lifecycle == Submitted && before.submittedAt.None?
        then after.submittedAt.Some?
        else after.submittedAt == before.submittedAt)
  }

  ghost predicate Follows(h: seq<Entry>, e: Entry) {
    match e
    case Opened(id, row) => NeverOpened(h, id) && row.version == 1
    case Replaced(id, before, after) => Current(h, id) == Some(before) && Successor(before, after)
    case Closed(id) => Current(h, id).Some?
  }

  ghost predicate Legal(h: seq<Entry>) {
    h == [] || (Legal(h[..|h| - 1]) && Follows(h[..|h| - 1], h[|h| - 1]))
  }

  /** The row was really there, for that user, at some moment of the history. */
  ghost predicate Seen(h: seq<Entry>, id: ApplicationId, user: UserId, row: Row) {
    row.user == user && exists k :: 0 <= k <= |h| && Current(h[..k], id) == Some(row)
  }

  /** The row an application was created with. */
  ghost function Initial(h: seq<Entry>, id: ApplicationId): Option<Row> {
    if h == [] then None
    else if h[|h| - 1].Opened? && h[|h| - 1].id == id then Some(h[|h| - 1].row)
    else Initial(h[..|h| - 1], id)
  }

  ghost function Replacements(h: seq<Entry>, id: ApplicationId): nat {
    if h == [] then 0
    else Replacements(h[..|h| - 1], id) + (if h[|h| - 1].Replaced? && h[|h| - 1].id == id then 1 else 0)
  }

  lemma {:induction false} LegalPrefix(h: seq<Entry>, k: nat)
    requires Legal(h) && k <= |h|
    ensures Legal(h[..k])
    ensures k < |h| ==> Follows(h[..k], h[k])
  {
    if k == |h| {
      assert h[..k] == h;
    } else if k < |h| - 1 {
      LegalPrefix(h[..|h| - 1], k);
      assert h[..|h| - 1][..k] == h[..k];
    }
  }

  lemma ExtendLegal(h: seq<Entry>, e: Entry)
    requires Legal(h) && Follows(h, e)
    ensures Legal(h + [e])
    ensures forall id :: id != e.id ==> Current(h + [e], id) == Current(h, id)
    ensures Current(h + [e], e.id) ==
            match e case Opened(_, row) => Some(row) case Replaced(_, _, after) => Some(after) case Closed(_) => None
  {
    assert (h + [e])[..|h|] == h;
  }

  lemma {:induction false} UnopenedHasNoRow(h: seq<Entry>, id: ApplicationId)
    requires NeverOpened(h, id)
    ensures Current(h, id).None? && Initial(h, id).None? && Replacements(h, id) == 0
  {
    if h != [] {
      assert h[|h| - 1] in h;
      assert forall e :: e in h[..|h| - 1] ==> e in h;
      UnopenedHasNoRow(h[..|h| - 1], id);
    }
  }

  lemma {:induction false} RowWasOpened(h: seq<Entry>, id: ApplicationId, k: nat)
    requires k <= |h| && Current(h[..k], id).Some?
    ensures !NeverOpened(h, id)
  {
    if NeverOpened(h, id) {
      assert forall e :: e in h[..k] ==> e in h;
      UnopenedHasNoRow(h[..k], id);
    }
  }

  // ---- Versions ---------------------------------------------------------------------------------

  /** Versions only grow, so an equal version means the very same row. */
  lemma {:induction false} VersionsGrow(h: seq<Entry>, id: ApplicationId, k: nat)
    requires Legal(h) && k <= |h|
    requires Current(h[..k], id).Some? && Current(h, id).Some?
    ensures var a, b := Current(h[..k], id).value, Current(h, id).value;
            a.version <= b.version && (a.version == b.version ==> a == b)
  {
    if k == |h| {
      assert h[..k] == h;
    } else {
      var front := h[..|h| - 1];
      assert front[..k] == h[..k];
      RowWasOpened(front, id, k);
      VersionsGrow(front, id, k);
    }
  }

  /** Compare-and-swap: matching the version a request read means matching the row it read. */
  lemma SnapshotIsCurrent(h: seq<Entry>, id: ApplicationId, user: UserId, read: Row)
    requires Legal(h) && Seen(h, id, user, read) && Current(h, id).Some?
    ensures Current(h, id).value.version == read.version ==> Current(h, id) == Some(read)
  {
    var k :| 0 <= k <= |h| && Current(h[..k], id) == Some(read);
    VersionsGrow(h, id, k);
  }

  /** The version counts the updates that took effect. */
  lemma {:induction false} VersionCountsUpdates(h: seq<Entry>, id: ApplicationId)
    requires Legal(h) && Current(h, id).Some?
    ensures Current(h, id).value.version == 1 + Replacements(h, id)
  {
    var front, last := h[..|h| - 1], h[|h| - 1];
    if last.id == id && last.Opened? {
      UnopenedHasNoRow(front, id);
    } else {
      VersionCountsUpdates(front, id);
    }
  }

  /** No two replacements of an application start from the same version. */
  lemma OneUpdatePerVersion(h: seq<Entry>, i: nat, j: nat)
    requires Legal(h) && i < j < |h|
    requires h[i].Replaced? && h[j].Replaced? && h[i].id == h[j].id
    ensures h[i].before.version < h[j].before.version
  {
    var id := h[i].id;
    LegalPrefix(h, i);
    LegalPrefix(h, j);
    LegalPrefix(h, i + 1);
    assert h[..i + 1] == h[..i] + [h[i]];
    ExtendLegal(h[..i], h[i]);
    assert h[..j][..i + 1] == h[..i + 1];
    VersionsGrow(h[..j], id, i + 1);
  }

  // ---- Lifecycles -------------------------------------------------------------------------------

  /** How far along a lifecycle is; nothing moves back across submission. */
  function Stage(l: Lifecycle): nat {
    match l
    case Saved => 0
    case Preparing => 0
    case ReadyToSubmit => 0
    case Submitted => 1
    case DecisionReceived => 2
    case Accepted => 3
    case Declined => 3
    case Withdrawn => 3
  }

  predicate Terminal(l: Lifecycle) {
    l in {Accepted, Declined, Withdrawn}
  }

  /** Exactly the three terminal lifecycles allow no transition. */
  lemma TerminalMeansStuck(l: Lifecycle)
    ensures Terminal(l) <==> forall target :: !Allowed(l, target)
  {
    assert Allowed(Saved, Preparing) && Allowed(Preparing, Saved) && Allowed(ReadyToSubmit, Submitted);
    assert Allowed(Submitted, Withdrawn) && Allowed(DecisionReceived, Accepted);
  }

  /** Past submission the lifecycle only advances, and the submission time is settled. */
  lemma {:induction false} StagesGrow(h: seq<Entry>, id: ApplicationId, k: nat)
    requires Legal(h) && k <= |h|
    requires Current(h[..k], id).Some? && Current(h, id).Some?
    ensures var a, b := Current(h[..k], id).value, Current(h, id).value;
            && Stage(a.lifecycle) <= Stage(b.lifecycle)
            && (Stage(a.lifecycle) >= 1 && Stage(b.lifecycle) == Stage(a.lifecycle) ==> a.lifecycle == b.lifecycle)
            && (Stage(a.lifecycle) >= 1 || a.submittedAt.Some? ==> b.submittedAt == a.submittedAt)
            && a.user == b.user && a.opportunity == b.opportunity
  {
    if k == |h| {
      assert h[..k] == h;
    } else {
      var front := h[..|h| - 1];
      assert front[..k] == h[..k];
      RowWasOpened(front, id, k);
      StagesGrow(front, id, k);
    }
  }

  lemma TerminalIsFinal(h: seq<Entry>, id: ApplicationId, k: nat)
    requires Legal(h) && k <= |h|
    requires Current(h[..k], id).Some? && Terminal(Current(h[..k], id).value.lifecycle)
    requires Current(h, id).Some?
    ensures Current(h, id).value.lifecycle == Current(h[..k], id).value.lifecycle
  {
    StagesGrow(h, id, k);
  }

  predicate Submits(e: Entry) {
    e.Replaced? && e.before.lifecycle != Submitted && e.after.lifecycle == Submitted
  }

  /** An application enters SUBMITTED at most once. */
  lemma SubmittedOnce(h: seq<Entry>, i: nat, j: nat)
    requires Legal(h) && i < |h| && j < |h| && h[i].id == h[j].id && Submits(h[i]) && Submits(h[j])
    ensures i == j
  {
    if i < j {
      SubmitsInOrder(h, i, j);
    } else if j < i {
      SubmitsInOrder(h, j, i);
    }
  }

  lemma SubmitsInOrder(h: seq<Entry>, i: nat, j: nat)
    requires Legal(h) && i < j < |h| && h[i].id == h[j].id && Submits(h[i])
    ensures !Submits(h[j])
  {
    LegalPrefix(h, i);
    LegalPrefix(h, j);
    assert h[..i + 1] == h[..i] + [h[i]];
    ExtendLegal(h[..i], h[i]);
    if h[j].Replaced? {
      assert h[..j][..i + 1] == h[..i + 1];
      StagesGrow(h[..j], h[i].id, i + 1);
    }
  }

  predicate PostSubmission(l: Lifecycle) {
    l in {Submitted, DecisionReceived, Accepted, Declined}
  }

  /**
   * After submission the time is recorded, except for an application created from a legacy row
   * that was already past submission and carried none: those never get one.
   */
  lemma {:induction false} SubmissionIsStamped(h: seq<Entry>, id: ApplicationId)
    requires Legal(h) && Current(h, id).Some? && PostSubmission(Current(h, id).value.lifecycle)
    ensures Initial(h, id).Some?
    ensures var first := Initial(h, id).value;
            Current(h, id).value.submittedAt.Some? <==> first.submittedAt.Some? || !PostSubmission(first.lifecycle)
  {
    StampFollowsOrigin(h, id);
  }

  lemma {:induction false} StampFollowsOrigin(h: seq<Entry>, id: ApplicationId)
    requires Legal(h) && Current(h, id).Some?
    ensures Initial(h, id).Some?
    ensures var first, row := Initial(h, id).value, Current(h, id).value;
            && (first.submittedAt.Some? ==> row.submittedAt.Some?)
            && (PostSubmission(first.lifecycle) ==> Stage(row.lifecycle) >= 1 && row.submittedAt == first.submittedAt)
            && (!PostSubmission(first.lifecycle) && PostSubmission(row.lifecycle) ==> row.submittedAt.Some?)
  {
    var front, last := h[..|h| - 1], h[|h| - 1];
    if !(last.id == id && last.Opened?) {
      StampFollowsOrigin(front, id);
    }
  }

  /** Which new applications start without the record: legacy rows past submission, and only those. */
  lemma UnstampedOrigins(user: UserId, opportunity: OpportunityId, saved: Option<Legacy>,
                         details: map<Detail, Option<string>>)
    ensures var row := NewRow(user, opportunity, saved, details);
            PostSubmission(row.lifecycle) && row.submittedAt.None? <==>
            && saved.Some? && saved.value.submittedAt.None?
            && saved.value.status in {LegacySubmitted, InterviewStage, LegacyAccepted, Rejected}
  {
  }
}
