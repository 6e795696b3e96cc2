/** The command service over the application tables. */
module ApplicationService {
  import opened Common
  import opened Applications
  import opened ApplicationHistory
  import opened ApplicationRuns
  import opened ApplicationEffects

  class ApplicationCommandService {
    var applications: map<ApplicationId, Row>
    var events: seq<Event>
    ghost var history: seq<Entry>

    ghost function Tables(): Workspace
      reads this
    {
      Workspace(applications, events, history)
    }

    ghost predicate Valid()
      reads this
    {
      WorkspaceOk(Tables())
    }

    constructor ()
      ensures Valid() && Tables() == EMPTY
    {
      applications, events, history := map[], [], [];
    }

    method Get(id: ApplicationId, user: UserId) returns (r: Result<Row, AppError>)
      requires Valid()
      ensures if id in Owned(applications, user) then r == Ok(applications[id]) else r == Err(NotFound)
      ensures r.Ok? ==> Seen(history, id, user, r.value)
    {
      if id !in applications || applications[id].user != user {
        return Err(NotFound);
      }
      assert Current(history[..|history|], id) == Some(applications[id]) by {
        assert history[..|history|] == history;
        assert Current(history, id) == Lookup(applications, id);
      }
      r := Ok(applications[id]);
    }

    method Create(id: ApplicationId, user: UserId, opportunity: OpportunityId, verified: bool, saved: Option<Legacy>,
                  details: map<Detail, Option<string>>) returns (r: Result<Row, AppError>)
      requires Valid() && NeverOpened(history, id)
      modifies this
      ensures Valid() && Tables() == CreatedIn(old(Tables()), id, user, opportunity, verified, saved, details)
      ensures CreationSeen(old(Tables()), Tables(), id, user, opportunity, verified, saved, details)
      ensures r.Ok? <==> !Taken(old(applications), user, opportunity) && verified
      ensures match r
              case Ok(row) => id in applications && row == applications[id] && row.version == 1
              case Err(e) => e == if Taken(old(applications), user, opportunity) then AlreadyExists else Unverified
    {
      CreateKeepsOk(Tables(), id, user, opportunity, verified, saved, details);
      CreationIsSeen(Tables(), id, user, opportunity, verified, saved, details);
      hide CreationSeen;
      if exists k :: k in applications && applications[k].user == user && applications[k].opportunity == opportunity {
        return Err(AlreadyExists);
      }
      if !verified {
        return Err(Unverified);
      }
      var row := NewRow(user, opportunity, saved, details);
      applications := applications[id := row];
      events := events + [Created(id, user, opportunity)];
      history := history + [Opened(id, row)];
      r := Ok(row);
    }

    /** A whole update with nothing in between: the version read is the version replaced. */
    method Update(id: ApplicationId, user: UserId, patch: Patch, now: Time) returns (r: Result<Row, AppError>)
      requires Valid()
      modifies this
      ensures Valid()
      ensures id !in Owned(old(applications), user) ==> r == Err(NotFound) && Tables() == old(Tables())
      ensures id in Owned(old(applications), user) ==>
                && r == UpdateReply(old(applications), id, user, old(applications)[id], patch, now)
                && Tables() == UpdatedIn(old(Tables()), id, user, old(applications)[id], patch, now)
                && UpdateSeen(old(Tables()), Tables(), id, user, old(applications)[id], patch, now, r)
    {
      var read := Get(id, user);
      if read.Err? {
        return read;
      }
      r := FinishUpdate(id, user, read.value, patch, now);
    }

    /** The rest of an update that read `read` at some earlier moment. */
    method FinishUpdate(id: ApplicationId, user: UserId, read: Row, patch: Patch, now: Time)
      returns (r: Result<Row, AppError>)
      requires Valid() && Seen(history, id, user, read)
      modifies this
      ensures Valid() && Tables() == UpdatedIn(old(Tables()), id, user, read, patch, now)
      ensures r == UpdateReply(old(applications), id, user, read, patch, now)
      ensures UpdateSeen(old(Tables()), Tables(), id, user, read, patch, now, r)
      ensures r.Ok? ==> id in old(applications) && old(applications)[id] == read && Successor(read, r.value)
      ensures r.Err? ==> Tables() == old(Tables())
    {
      hide WorkspaceOk, Seen, UpdateSeen;
      ReadIsPresent(Tables(), id, user, read);
      UpdateIsSeen(Tables(), id, user, read, patch, now);
      UpdateKeepsOk(Tables(), id, user, read, patch, now);
      CommitReplacesWhatWasRead(Tables(), id, user, read, patch, now);
      if patch.expected.None? {
        return Err(VersionRequired);
      }
      var expected := patch.expected.value;
      if expected != read.version {
        return Err(VersionConflict);
      }
      var stamp, announced := None, None;
      if patch.lifecycle.Set? && patch.lifecycle.value != read.lifecycle {
        var target := patch.lifecycle.value;
        if !Allowed(read.lifecycle, target) {
          return Err(InvalidTransition);
        }
        if target == Submitted && read.submittedAt.None? {
          stamp := Some(now);
        }
        announced := Some(target);
      }
      var write := Write(expected, patch.lifecycle, stamp, patch.details, announced);
      if !(id in applications && applications[id].user == user && applications[id].version == expected) {
        return Err(VersionConflict);
      }
      if BreaksNotNull(write) {
        return Err(NullViolation);
      }
      history := history + [Replaced(id, applications[id], Written(applications[id], write))];
      applications := applications[id := Written(applications[id], write)];
      if announced.Some? {
        events := events + [LifecycleChanged(id, user, read.lifecycle, announced.value)];
      }
      events := events + [Updated(id, user, !patch.lifecycle.Unset?, patch.details.Keys)];
      r := Ok(applications[id]);
      assert Tables().events == UpdatedIn(old(Tables()), id, user, read, patch, now).events;
    }

    method Delete(id: ApplicationId, user: UserId) returns (r: Result<(), AppError>)
      requires Valid()
      modifies this
      ensures Valid() && Tables() == Step(old(Tables()), Action.Delete(id, user))
      ensures r.Ok? <==> id in Owned(old(applications), user)
      ensures id !in Owned(applications, user)
      ensures if r.Ok? then DeletionSeen(old(Tables()), Tables(), {id}) else Tables() == old(Tables())
    {
      var row := Get(id, user);
      if row.Err? {
        return Err(NotFound);
      }
      DeleteKeepsOk(Tables(), id);
      DeletionIsSeen(Tables(), id);
      applications, events, history := applications - {id}, Without(events, id), history + [Closed(id)];
      r := Ok(());
    }

    /** Deletes everything the user owns and nothing else. */
    method DeleteAllApplicationData(user: UserId, order: seq<ApplicationId>)
      requires Valid() && Enabled(Tables(), DeleteAll(user, order))
      modifies this
      ensures Valid() && Tables() == Step(old(Tables()), DeleteAll(user, order))
      ensures forall id :: id in applications <==> id in old(applications) && old(applications)[id].user != user
      ensures forall id :: id in applications ==> applications[id] == old(applications)[id]
      ensures DeletionSeen(old(Tables()), Tables(), Owned(old(applications), user))
    {
      hide WorkspaceOk, DeletedAllIn, DeletionSeen;
      ghost var start := Tables();
      AllDeletionsSeen(start, order);
      assert IdsOf(order) == Owned(applications, user);
      DeleteAllKeepsOk(start, order);
      NothingDeleted(start);
      var i := 0;
      while i < |order|
        invariant 0 <= i <= |order|
        invariant Tables() == DeletedAllIn(start, order[..i])
      {
        DeleteNext(start, order, i);
        var id := order[i];
        if id in applications {
          applications, events, history := applications - {id}, Without(events, id), history + [Closed(id)];
        }
        i := i + 1;
      }
      assert order[..|order|] == order;
    }
  }

  /** A row with the version that was read is the row that was read. */
  lemma ReadIsPresent(s: Workspace, id: ApplicationId, user: UserId, read: Row)
    requires WorkspaceOk(s) && Seen(s.history, id, user, read)
    ensures id in s.applications && s.applications[id].version == read.version ==> s.applications[id] == read
  {
    assert Current(s.history, id) == Lookup(s.applications, id);
    if id in s.applications && s.applications[id].version == read.version {
      SnapshotIsCurrent(s.history, id, user, read);
    }
  }
}
