/**
 * Losing the claim of a rotation to a concurrent winner: from the lost claim through the reread to a
 * family without a live token, whatever other requests do between the two transactions.
 */
module RefreshRace {
  import opened Common
  import opened RefreshTokens
  import opened RefreshProtocol
  import opened RefreshSafety

  /** The token is in the table, in this family, and marked as replaced. */
  predicate Marked(s: State, token: TokenId, family: FamilyId) {
    token in s.tokens && s.tokens[token].family == family && s.tokens[token].replacedBy.Some?
  }

  /** A purge up to `before` takes neither the token nor the replacement its marker points to. */
  predicate SparesMarker(s: State, token: TokenId, before: int) {
    token in s.tokens ==>
      && !Purgeable(s.tokens[token], before)
      && (s.tokens[token].replacedBy.Some? && s.tokens[token].replacedBy.value in s.tokens ==>
            !Purgeable(s.tokens[s.tokens[token].replacedBy.value], before))
  }

  // ---- What each step does to a marker ----------------------------------------------------------

  /** Exactly when a purge leaves a marker standing; with links that outlive, only the token itself counts. */
  lemma PurgeKeepsMarkerIff(s: State, token: TokenId, family: FamilyId, before: int)
    requires StateOk(s) && Marked(s, token, family)
    ensures Marked(Purge(s, before), token, family) <==> SparesMarker(s, token, before)
    ensures LinksOutlive(s.tokens) ==> (SparesMarker(s, token, before) <==> !Purgeable(s.tokens[token], before))
  {
    hide LogOk, LastOf, Next;
    assert TokenOk(s.users, s.tokens, s.log, token);
  }

  /** Closing the owner's account removes the family; closing another one leaves the marker. */
  lemma CloseContainsOrKeeps(s: State, token: TokenId, family: FamilyId, user: UserId)
    requires StateOk(s) && Marked(s, token, family)
    ensures if s.tokens[token].user == user then Dead(CloseAccount(s, user), family)
            else Marked(CloseAccount(s, user), token, family)
  {
    hide LastOf, Next;
    var t := s.tokens[token];
    assert TokenOk(s.users, s.tokens, s.log, token);
    forall id | id in s.tokens && s.tokens[id].family == family
      ensures s.tokens[id].user == t.user
    {
      assert TokenOk(s.users, s.tokens, s.log, id);
      OneOwner(s.log, Issue(token, t.user, family), Issue(id, s.tokens[id].user, family));
    }
    if t.user != user {
      assert TokenOk(s.users, s.tokens, s.log, t.replacedBy.value);
      ReplacementHasSameOwner(s, token);
    }
  }

  lemma ReplacementHasSameOwner(s: State, token: TokenId)
    requires StateOk(s) && token in s.tokens && s.tokens[token].replacedBy.Some?
    ensures s.tokens[token].replacedBy.value in s.tokens
    ensures s.tokens[s.tokens[token].replacedBy.value].user == s.tokens[token].user
  {
    assert TokenOk(s.users, s.tokens, s.log, token);
    FamilyIsChain(s.users, s.tokens, s.log, token, s.tokens[token].replacedBy.value);
  }

  lemma RevokingKeepsMarker(s: State, token: TokenId, family: FamilyId, f: FamilyId, user: UserId, now: nat)
    requires Marked(s, token, family)
    ensures Marked(s.(tokens := RevokeFamily(s.tokens, f, now)), token, family)
    ensures Marked(s.(tokens := RevokeUser(s.tokens, user, now)), token, family)
    ensures Marked(ContainFamily(s, f, user, now), token, family)
  {
  }

  lemma IssuingKeepsMarker(cfg: Config, s: State, token: TokenId, family: FamilyId,
                           user: UserId, id: TokenId, f: FamilyId, now: nat)
    requires StateOk(s) && Marked(s, token, family) && user in s.users && FreshToken(s.log, id)
    ensures Marked(IssuePair(cfg, s, user, id, f, now), token, family)
  {
    StoredIsNotFresh(s, token, id);
  }

  lemma StoredIsNotFresh(s: State, token: TokenId, id: TokenId)
    requires StateOk(s) && token in s.tokens && FreshToken(s.log, id)
    ensures token != id
  {
    assert TokenOk(s.users, s.tokens, s.log, token);
    Logged(s.log, Issue(token, s.tokens[token].user, s.tokens[token].family));
  }

  /** No commit of a refresh, stale or not, unmarks a token: only an unrevoked one is rotated. */
  lemma CommitKeepsMarker(cfg: Config, s: State, p: Pending, replacement: TokenId, token: TokenId, family: FamilyId)
    requires StateOk(s) && Marked(s, token, family) && FreshToken(s.log, replacement)
    ensures Marked(CommitRefresh(cfg, s, p, replacement).state, token, family)
  {
    hide LogOk, LastOf, Next, RevokeFamily, FreshToken, ContainFamily;
    assert TokenOk(s.users, s.tokens, s.log, token);
    StoredIsNotFresh(s, token, replacement);
    match p
    case Contain(_, f, user, now) => RevokingKeepsMarker(s, token, family, f, user, now);
    case Deactivate(f, now) => RevokingKeepsMarker(s, token, family, f, 0, now);
    case Reread(t, now) =>
      if t in s.tokens {
        RevokingKeepsMarker(s, token, family, s.tokens[t].family, s.tokens[t].user, now);
      }
    case _ =>
  }

  lemma OtherStepsKeepMarker(cfg: Config, sys: System, a: Action, token: TokenId, family: FamilyId)
    requires SystemOk(sys) && Enabled(sys, a) && Marked(sys.state, token, family)
    requires !a.DoPurge? && !a.DoClose?
    ensures Marked(Apply(cfg, sys, a).state, token, family)
  {
    hide StateOk, Marked, FreshToken, FreshFamily, PendingOk, CommitRefresh, IssuePair, ContainFamily, RevokeUser;
    var s := sys.state;
    match a
    case DoRegister(user, role, id, f, now) => RegisterKeepsMarker(cfg, s, token, family, user, role, id, f, now);
    case DoLogin(user, _, id, f, now) =>
      if user in s.users {
        IssuingKeepsMarker(cfg, s, token, family, user, id, f, now);
      }
    case DoCommit(slot, replacement) => CommitKeepsMarker(cfg, s, sys.inFlight[slot], replacement, token, family);
    case DoLogout(raw, now) =>
      if raw in s.tokens {
        RevokingKeepsMarker(s, token, family, s.tokens[raw].family, s.tokens[raw].user, now);
      }
    case DoInvalidate(user, now) => InvalidatingKeepsMarker(s, token, family, user, now);
    case DoConfirmReset(id, _, now) =>
      if ResetUsable(s, id, now) {
        var m := s.(resets := s.resets[id := s.resets[id].(consumedAt := Some(now))]);
        SameTokensSameMarker(s, m, token, family);
        InvalidatingKeepsMarker(m, token, family, s.resets[id].user, now);
      }
    case DoPresent(_, _, _) =>
    case DoRequestReset(_, _, _) => SameTokensSameMarker(s, Apply(cfg, sys, a).state, token, family);
    case DoAdminister(_, _, _) => SameTokensSameMarker(s, Apply(cfg, sys, a).state, token, family);
    case _ =>
  }

  lemma SameTokensSameMarker(s: State, t: State, token: TokenId, family: FamilyId)
    requires Marked(s, token, family) && t.tokens == s.tokens
    ensures Marked(t, token, family)
  {
  }

  lemma InvalidatingKeepsMarker(s: State, token: TokenId, family: FamilyId, user: UserId, now: nat)
    requires Marked(s, token, family)
    ensures Marked(InvalidateSessions(s, user, now), token, family)
  {
  }

  lemma RegisterKeepsMarker(cfg: Config, s: State, token: TokenId, family: FamilyId,
                            user: UserId, role: nat, id: TokenId, f: FamilyId, now: nat)
    requires StateOk(s) && Marked(s, token, family) && FreshToken(s.log, id)
    ensures Marked(Register(cfg, s, user, role, id, f, now), token, family)
  {
    StoredIsNotFresh(s, token, id);
  }

  // ---- The reread -------------------------------------------------------------------------------

  /** The reread contains the family exactly when it still finds the marker, and otherwise changes nothing. */
  lemma RereadContainsIffMarked(cfg: Config, s: State, token: TokenId, family: FamilyId, now: nat, replacement: TokenId)
    requires StateOk(s) && (token in s.tokens ==> s.tokens[token].family == family)
    ensures var t := CommitRefresh(cfg, s, Reread(token, now), replacement).state;
            if Marked(s, token, family) then Dead(t, family) else t == s
  {
    if Marked(s, token, family) {
      assert TokenOk(s.users, s.tokens, s.log, token);
      ContainLeavesDead(s, token, family, s.tokens[token].user, now);
    }
  }

  /** Between the lost claim and the reread: the slot is left alone and no purge takes the marker. */
  ghost predicate Undisturbed(run: seq<System>, actions: seq<Action>, slot: nat, token: TokenId, m: nat, k: nat)
    requires |run| == |actions| + 1 && k <= |actions|
  {
    forall i | m < i < k ::
      && !(actions[i].DoCommit? && actions[i].slot == slot)
      && (actions[i].DoPurge? ==> SparesMarker(run[i].state, token, actions[i].before))
  }

  /** The claim at `m` is lost: the rotation's token was replaced meanwhile. */
  predicate LosesClaim(sys: System, a: Action, slot: nat, token: TokenId) {
    && a.DoCommit? && a.slot == slot && slot in sys.inFlight
    && sys.inFlight[slot].Rotate? && sys.inFlight[slot].token == token
    && token in sys.state.tokens && sys.state.tokens[token].replacedBy.Some?
  }

  lemma LostClaimStep(cfg: Config, sys: System, a: Action, slot: nat, token: TokenId)
    requires SystemOk(sys) && Enabled(sys, a) && LosesClaim(sys, a, slot, token)
    ensures var next := Apply(cfg, sys, a);
            && next.state == sys.state
            && slot in next.inFlight && next.inFlight[slot] == Reread(token, sys.inFlight[slot].now)
  {
    LostClaimRereads(cfg, sys.state, sys.inFlight[slot], a.replacement);
  }

  /** One step in between keeps the reread waiting and the marker standing, unless the family dies. */
  lemma WaitingStep(cfg: Config, sys: System, a: Action, slot: nat, token: TokenId, family: FamilyId)
    requires SystemOk(sys) && Enabled(sys, a) && slot in sys.inFlight
    requires !(a.DoCommit? && a.slot == slot)
    requires a.DoPurge? ==> SparesMarker(sys.state, token, a.before)
    requires Marked(sys.state, token, family) || Dead(sys.state, family)
    ensures var next := Apply(cfg, sys, a);
            && slot in next.inFlight && next.inFlight[slot] == sys.inFlight[slot]
            && (Marked(next.state, token, family) || Dead(next.state, family))
  {
    hide Apply, Enabled, Marked, Dead, SparesMarker, SystemOk;
    WaitingStays(cfg, sys, a, slot);
    if Marked(sys.state, token, family) {
      MarkerStandsOrDies(cfg, sys, a, token, family);
    } else {
      DeadStaysDead(cfg, sys, a, family);
    }
  }

  lemma DeadStaysDead(cfg: Config, sys: System, a: Action, family: FamilyId)
    requires SystemOk(sys) && Enabled(sys, a) && Dead(sys.state, family)
    ensures Dead(Apply(cfg, sys, a).state, family)
  {
    hide Apply, Enabled, Dead, SystemOk, StateOk, Later;
    StepIsGood(cfg, sys, a);
  }

  lemma MarkerStandsOrDies(cfg: Config, sys: System, a: Action, token: TokenId, family: FamilyId)
    requires SystemOk(sys) && Enabled(sys, a) && Marked(sys.state, token, family)
    requires a.DoPurge? ==> SparesMarker(sys.state, token, a.before)
    ensures Marked(Apply(cfg, sys, a).state, token, family) || Dead(Apply(cfg, sys, a).state, family)
  {
    hide StateOk, Marked, Dead, SparesMarker, Purge, CloseAccount, PendingOk, Enabled, Purgeable, LinksOutlive;
    if a.DoPurge? {
      PurgeKeepsMarkerIff(sys.state, token, family, a.before);
    } else if a.DoClose? {
      InTheTable(sys.state, token, family);
      CloseContainsOrKeeps(sys.state, token, family, a.user);
    } else {
      OtherStepsKeepMarker(cfg, sys, a, token, family);
    }
  }

  lemma InTheTable(s: State, token: TokenId, family: FamilyId)
    requires Marked(s, token, family)
    ensures token in s.tokens
  {
  }

  lemma WaitingStays(cfg: Config, sys: System, a: Action, slot: nat)
    requires Enabled(sys, a) && slot in sys.inFlight && !(a.DoCommit? && a.slot == slot)
    ensures slot in Apply(cfg, sys, a).inFlight && Apply(cfg, sys, a).inFlight[slot] == sys.inFlight[slot]
  {
  }

  lemma {:induction false} WaitsForReread(cfg: Config, run: seq<System>, actions: seq<Action>, m: nat, k: nat,
                                          slot: nat, token: TokenId)
    requires IsRun(cfg, run, actions) && run[0] == START && m < k <= |actions|
    requires LosesClaim(run[m], actions[m], slot, token) && Undisturbed(run, actions, slot, token, m, k)
    ensures slot in run[k].inFlight && run[k].inFlight[slot] == Reread(token, run[m].inFlight[slot].now)
    ensures var family := run[m].state.tokens[token].family;
            Marked(run[k].state, token, family) || Dead(run[k].state, family)
    decreases k
  {
    hide Apply, Enabled, Dead, SystemOk;
    if k == m + 1 {
      RunKeepsOk(cfg, run, actions, m);
      LostClaimStep(cfg, run[m], actions[m], slot, token);
    } else {
      WaitsForReread(cfg, run, actions, m, k - 1, slot, token);
      RunKeepsOk(cfg, run, actions, k - 1);
      WaitingStep(cfg, run[k - 1], actions[k - 1], slot, token, run[m].state.tokens[token].family);
    }
  }

  /**
   * Losing the claim to a concurrent winner is contained: once the loser has reread, the family has no
   * live token in any later state. Logins, logouts, resets, closures and refreshes of any age may come
   * between the two transactions; of purges, those that spare the marker.
   */
  lemma LostRaceIsContained(cfg: Config, run: seq<System>, actions: seq<Action>, m: nat, k: nat, n: nat,
                            slot: nat, token: TokenId)
    requires IsRun(cfg, run, actions) && run[0] == START && m < k < n <= |actions|
    requires LosesClaim(run[m], actions[m], slot, token) && Undisturbed(run, actions, slot, token, m, k)
    requires actions[k].DoCommit? && actions[k].slot == slot
    ensures Dead(run[n].state, run[m].state.tokens[token].family)
  {
    var family := run[m].state.tokens[token].family;
    WaitsForReread(cfg, run, actions, m, k, slot, token);
    RunKeepsOk(cfg, run, actions, k);
    RereadStep(cfg, run[k], actions[k], slot, token, family);
    RunIsGood(cfg, run, actions, k + 1, n);
  }

  lemma RereadStep(cfg: Config, sys: System, a: Action, slot: nat, token: TokenId, family: FamilyId)
    requires SystemOk(sys) && Enabled(sys, a) && a.DoCommit? && a.slot == slot
    requires sys.inFlight[slot].Reread? && sys.inFlight[slot].token == token
    requires Marked(sys.state, token, family) || Dead(sys.state, family)
    ensures Dead(Apply(cfg, sys, a).state, family)
  {
    hide StateOk, Dead, FreshToken, CommitRefresh;
    if Marked(sys.state, token, family) {
      RereadContainsIffMarked(cfg, sys.state, token, family, sys.inFlight[slot].now, a.replacement);
    } else {
      StepIsGood(cfg, sys, a);
    }
  }

  // ---- Exactly when the reread finds the marker -------------------------------------------------

  /** The step spares the marker: a purge takes neither row of it, a closure is of another account. */
  predicate KeepsMarker(s: State, a: Action, token: TokenId) {
    && (a.DoPurge? ==> SparesMarker(s, token, a.before))
    && (a.DoClose? && token in s.tokens ==> s.tokens[token].user != a.user)
  }

  ghost predicate MarkerKept(run: seq<System>, actions: seq<Action>, token: TokenId, m: nat, k: nat)
    requires |run| == |actions| + 1 && k <= |actions|
  {
    forall i | m <= i < k :: KeepsMarker(run[i].state, actions[i], token)
  }

  /** The token was issued and used, and no row says by what it was replaced. */
  predicate Unmarked(s: State, token: TokenId) {
    && !FreshToken(s.log, token)
    && (token in s.tokens ==> s.tokens[token].replacedBy.None? && s.tokens[token].revokedAt.Some?)
  }

  /** A step that takes a marker leaves the token unmarked. */
  lemma TakenOrKept(cfg: Config, sys: System, a: Action, token: TokenId, family: FamilyId)
    requires SystemOk(sys) && Enabled(sys, a) && Marked(sys.state, token, family)
    ensures if KeepsMarker(sys.state, a, token) then Marked(Apply(cfg, sys, a).state, token, family)
            else Unmarked(Apply(cfg, sys, a).state, token)
  {
    hide StateOk, PendingOk, Purgeable, LinksOutlive, Dead, FreshToken;
    var s := sys.state;
    if a.DoPurge? {
      PurgeKeepsMarkerIff(s, token, family, a.before);
      MarkedIsIssued(s, token, family);
    } else if a.DoClose? {
      MarkedIsIssued(s, token, family);
      if s.tokens[token].user != a.user {
        CloseContainsOrKeeps(s, token, family, a.user);
      }
    } else {
      OtherStepsKeepMarker(cfg, sys, a, token, family);
    }
  }

  lemma MarkedIsIssued(s: State, token: TokenId, family: FamilyId)
    requires StateOk(s) && Marked(s, token, family)
    ensures !FreshToken(s.log, token) && s.tokens[token].revokedAt.Some?
  {
    hide LastOf, Next;
    assert TokenOk(s.users, s.tokens, s.log, token);
    if FreshToken(s.log, token) {
      StoredIsNotFresh(s, token, token);
    }
  }

  lemma CommitKeepsUnmarked(cfg: Config, s: State, p: Pending, replacement: TokenId, token: TokenId)
    requires Unmarked(s, token) && FreshToken(s.log, replacement)
    ensures var t := CommitRefresh(cfg, s, p, replacement).state;
            token in t.tokens ==> t.tokens[token].replacedBy.None? && t.tokens[token].revokedAt.Some?
  {
    assert replacement != token;
    hide FreshToken;
  }

  /** No step marks the token again: only an unrevoked row is linked, and no identifier is drawn twice. */
  lemma UnmarkedStays(cfg: Config, sys: System, a: Action, token: TokenId)
    requires SystemOk(sys) && Enabled(sys, a) && Unmarked(sys.state, token)
    ensures Unmarked(Apply(cfg, sys, a).state, token)
  {
    var (s, t) := (sys.state, Apply(cfg, sys, a).state);
    assert !FreshToken(t.log, token) by {
      LogGrows(cfg, sys, a);
      IssuedStaysIssued(s.log, t.log, token);
    }
    hide SystemOk, FreshFamily, FreshUser, FreshToken, CommitRefresh;
    match a
    case DoCommit(slot, replacement) => CommitKeepsUnmarked(cfg, s, sys.inFlight[slot], replacement, token);
    case DoRegister(_, _, id, _, _) => assert id != token;
    case DoLogin(_, _, id, _, _) => assert id != token;
    case _ =>
  }

  lemma LogGrows(cfg: Config, sys: System, a: Action)
    requires SystemOk(sys) && Enabled(sys, a)
    ensures sys.state.log <= Apply(cfg, sys, a).state.log
  {
    hide SystemOk, Enabled, Apply, StateOk, Dead;
    StepIsGood(cfg, sys, a);
  }

  lemma IssuedStaysIssued(log: seq<Issue>, longer: seq<Issue>, token: TokenId)
    requires log <= longer && !FreshToken(log, token)
    ensures !FreshToken(longer, token)
  {
    var i :| 0 <= i < |log| && log[i].id == token;
    assert longer[i].id == token;
  }

  /**
   * At any later point of a run the marker stands exactly when every purge in between spared it and the
   * account of its owner was not closed; a lost marker does not return.
   */
  lemma {:induction false} MarkerStandsIff(cfg: Config, run: seq<System>, actions: seq<Action>, m: nat, k: nat,
                                           token: TokenId, family: FamilyId)
    requires IsRun(cfg, run, actions) && run[0] == START && m <= k <= |actions|
    requires Marked(run[m].state, token, family)
    ensures Marked(run[k].state, token, family) <==> MarkerKept(run, actions, token, m, k)
    ensures !MarkerKept(run, actions, token, m, k) ==> Unmarked(run[k].state, token)
    decreases k
  {
    hide Apply, Enabled, SystemOk, KeepsMarker, FreshToken;
    if m < k {
      MarkerStandsIff(cfg, run, actions, m, k - 1, token, family);
      RunKeepsOk(cfg, run, actions, k - 1);
      if MarkerKept(run, actions, token, m, k - 1) {
        TakenOrKept(cfg, run[k - 1], actions[k - 1], token, family);
      } else {
        UnmarkedStays(cfg, run[k - 1], actions[k - 1], token);
      }
    }
  }

  ghost predicate LeftAlone(actions: seq<Action>, slot: nat, m: nat, k: nat)
    requires k <= |actions|
  {
    forall i | m < i < k :: !(actions[i].DoCommit? && actions[i].slot == slot)
  }

  lemma {:induction false} StaysInFlight(cfg: Config, run: seq<System>, actions: seq<Action>, m: nat, k: nat,
                                         slot: nat, token: TokenId)
    requires IsRun(cfg, run, actions) && run[0] == START && m < k <= |actions|
    requires LosesClaim(run[m], actions[m], slot, token) && LeftAlone(actions, slot, m, k)
    ensures slot in run[k].inFlight && run[k].inFlight[slot] == Reread(token, run[m].inFlight[slot].now)
    decreases k
  {
    hide Apply, Enabled, SystemOk;
    if k == m + 1 {
      RunKeepsOk(cfg, run, actions, m);
      LostClaimStep(cfg, run[m], actions[m], slot, token);
    } else {
      StaysInFlight(cfg, run, actions, m, k - 1, slot, token);
      WaitingStays(cfg, run[k - 1], actions[k - 1], slot);
    }
  }

  /** Whatever comes in between: the reread contains the family if no step took the marker, else it does nothing. */
  lemma RereadContainsIffMarkerKept(cfg: Config, run: seq<System>, actions: seq<Action>, m: nat, k: nat,
                                    slot: nat, token: TokenId)
    requires IsRun(cfg, run, actions) && run[0] == START && m < k < |actions|
    requires LosesClaim(run[m], actions[m], slot, token) && LeftAlone(actions, slot, m, k)
    requires actions[k].DoCommit? && actions[k].slot == slot
    ensures if MarkerKept(run, actions, token, m, k) then Dead(run[k + 1].state, run[m].state.tokens[token].family)
            else run[k + 1].state == run[k].state
  {
    hide SystemOk, Dead, KeepsMarker, FreshToken;
    var family := run[m].state.tokens[token].family;
    StaysInFlight(cfg, run, actions, m, k, slot, token);
    MarkerStandsIff(cfg, run, actions, m, k, token, family);
    RunKeepsOk(cfg, run, actions, k);
    RereadStepIff(cfg, run[k], actions[k], slot, token, family);
  }

  lemma RereadStepIff(cfg: Config, sys: System, a: Action, slot: nat, token: TokenId, family: FamilyId)
    requires SystemOk(sys) && Enabled(sys, a) && a.DoCommit? && a.slot == slot
    requires sys.inFlight[slot].Reread? && sys.inFlight[slot].token == token
    requires Marked(sys.state, token, family) || Unmarked(sys.state, token)
    ensures if Marked(sys.state, token, family) then Dead(Apply(cfg, sys, a).state, family)
            else Apply(cfg, sys, a).state == sys.state
  {
    hide StateOk, Dead, FreshToken, ContainFamily;
    if Marked(sys.state, token, family) {
      RereadContainsIffMarked(cfg, sys.state, token, family, sys.inFlight[slot].now, a.replacement);
    }
  }

  // ---- A purge in between -----------------------------------------------------------------------

  const SECOND_READ := Reread(1, 2)

  function OnlySecond(cfg: Config): map<TokenId, Token> {
    map[2 := Token(0, 0, 2 + cfg.refreshTtl, None, None)]
  }

  lemma BothRead(cfg: Config)
    requires cfg.refreshTtl >= 100
    ensures StepsTo(cfg, System(Family(First(cfg), 1, 0), map[0 := READ_FIRST]), DoPresent(1, 1, 2),
                    System(Family(First(cfg), 1, 0), map[0 := READ_FIRST, 1 := READ_FIRST]))
  {
  }

  lemma OneWins(cfg: Config)
    requires cfg.refreshTtl >= 100
    ensures StepsTo(cfg, System(Family(First(cfg), 1, 0), map[0 := READ_FIRST, 1 := READ_FIRST]), DoCommit(0, 2),
                    System(Family(Second(cfg), 2, 0), map[1 := READ_FIRST]))
  {
    hide RotateTokens, FreshToken, IssuesUpTo, ClaimsUpTo;
    BeyondIsFresh(1, 2);
    OneMore(1);
    FirstRotated(cfg);
    assert map[0 := READ_FIRST, 1 := READ_FIRST] - {0} == map[1 := READ_FIRST];
  }

  lemma OtherLoses(cfg: Config)
    requires cfg.refreshTtl >= 100
    ensures StepsTo(cfg, System(Family(Second(cfg), 2, 0), map[1 := READ_FIRST]), DoCommit(1, 3),
                    System(Family(Second(cfg), 2, 0), map[1 := SECOND_READ]))
    ensures LosesClaim(System(Family(Second(cfg), 2, 0), map[1 := READ_FIRST]), DoCommit(1, 3), 1, 1)
  {
    hide FreshToken, IssuesUpTo, ClaimsUpTo;
    BeyondIsFresh(2, 3);
  }

  lemma PurgeTakesMarker(cfg: Config)
    requires cfg.refreshTtl >= 100
    ensures StepsTo(cfg, System(Family(Second(cfg), 2, 0), map[1 := SECOND_READ]), DoPurge(2),
                    System(Family(OnlySecond(cfg), 2, 0), map[1 := SECOND_READ]))
  {
    assert PurgedIds(Second(cfg), 2) == {1};
    assert DeleteTokens(Second(cfg), {1}) == OnlySecond(cfg);
    assert PurgeResets(map[], 2) == map[];
  }

  lemma NothingToReread(cfg: Config)
    ensures StepsTo(cfg, System(Family(OnlySecond(cfg), 2, 0), map[1 := SECOND_READ]), DoCommit(1, 3),
                    System(Family(OnlySecond(cfg), 2, 0), map[]))
  {
    hide FreshToken, IssuesUpTo, ClaimsUpTo;
    BeyondIsFresh(2, 3);
    assert map[1 := SECOND_READ] - {1} == map[];
  }

  /**
   * A purge whose cutoff reaches the winner's commit can fall between the lost claim and the reread: it
   * removes the row, the reread finds nothing, and the winner's token stays live.
   */
  lemma PurgeCanHideTheRace(cfg: Config) returns (run: seq<System>, actions: seq<Action>)
    requires cfg.refreshTtl >= 100
    ensures IsRun(cfg, run, actions) && run[0] == START && |actions| == 7
    ensures LosesClaim(run[4], actions[4], 1, 1) && actions[5] == DoPurge(2) && actions[6] == DoCommit(1, 3)
    ensures !Dead(run[7].state, run[4].state.tokens[1].family)
  {
    hide Apply, Enabled, First, Second, OnlySecond, LosesClaim;
    actions := [DoRegister(0, 0, 1, 0, 1), DoPresent(0, 1, 2), DoPresent(1, 1, 2), DoCommit(0, 2), DoCommit(1, 3),
                DoPurge(2), DoCommit(1, 3)];
    run := [START,
            System(Family(First(cfg), 1, 0), map[]),
            System(Family(First(cfg), 1, 0), map[0 := READ_FIRST]),
            System(Family(First(cfg), 1, 0), map[0 := READ_FIRST, 1 := READ_FIRST]),
            System(Family(Second(cfg), 2, 0), map[1 := READ_FIRST]),
            System(Family(Second(cfg), 2, 0), map[1 := SECOND_READ]),
            System(Family(OnlySecond(cfg), 2, 0), map[1 := SECOND_READ]),
            System(Family(OnlySecond(cfg), 2, 0), map[])];
    IssueFirst(cfg);
    PresentFirst(cfg);
    BothRead(cfg);
    OneWins(cfg);
    OtherLoses(cfg);
    PurgeTakesMarker(cfg);
    NothingToReread(cfg);
    WinnerLives(cfg);
  }

  lemma WinnerLives(cfg: Config)
    ensures !Dead(Family(OnlySecond(cfg), 2, 0), 0)
    ensures 1 in Second(cfg) && Second(cfg)[1].family == 0
  {
    assert 2 in OnlySecond(cfg);
  }
}
