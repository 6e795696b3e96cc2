/**
 * Refresh-token rotation as a concurrent protocol. A refresh is split at its read:
 * any number of refresh requests may hold a stale reading (`Pending`) while logins,
 * logouts, password resets, session invalidations, account closures and purges run.
 *
 * Assumption: each committed transaction is atomic, the version increment and the
 * family-wide revocation included. Under an isolation level that lets a transaction
 * act on rows it read before another one committed, the theorems do not apply.
 */
module RefreshProtocol {
  import opened Common
  import opened RefreshTokens

  /** A refresh between its read and its commit, with everything it remembers of the read. */
  datatype Pending =
    | Contain(token: TokenId, family: FamilyId, user: UserId, now: nat)
    | Expire(token: TokenId, now: nat)
    | Deactivate(family: FamilyId, now: nat)
    | Rotate(token: TokenId, family: FamilyId, user: UserId, role: nat, version: nat, now: nat)
    | Reread(token: TokenId, now: nat)

  /** The read: lookup and checks. None is a rejection that writes nothing. */
  function ReadRefresh(s: State, raw: TokenId, now: nat): Option<Pending> {
    if raw !in s.tokens then None else
      var t := s.tokens[raw];
      if t.revokedAt.Some? then
        if t.replacedBy.Some? then Some(Contain(raw, t.family, t.user, now)) else None
      else if t.expiresAt <= now then Some(Expire(raw, now))
      else if t.user !in s.users || !s.users[t.user].active then Some(Deactivate(t.family, now))
      else Some(Rotate(raw, t.family, t.user, s.users[t.user].role, s.users[t.user].version, now))
  }

  /** Revoke the family and bump the user, unless the user is gone and the transaction fails. */
  function ContainFamily(s: State, family: FamilyId, user: UserId, now: nat): State {
    if user !in s.users then s
    else s.(tokens := RevokeFamily(s.tokens, family, now), users := BumpVersion(s.users, user))
  }

  /** What one transaction does, and what the request still has to do after it. */
  datatype Outcome = Outcome(state: State, rest: Option<Pending>)

  function CommitRefresh(cfg: Config, s: State, p: Pending, replacement: TokenId): Outcome {
    match p
    case Contain(_, family, user, now) => Outcome(ContainFamily(s, family, user, now), None)
    case Expire(token, now) =>
      if token in s.tokens
      then Outcome(s.(tokens := s.tokens[token := s.tokens[token].(revokedAt := Some(now))]), None)
      else Outcome(s, None)
    case Deactivate(family, now) => Outcome(s.(tokens := RevokeFamily(s.tokens, family, now)), None)
    case Rotate(token, family, user, role, version, now) =>
      if Claimable(s.tokens, token, now) then
        Outcome(s.(tokens := RotateTokens(s.tokens, token, replacement, now + cfg.refreshTtl, now),
                   log := s.log + [Issue(replacement, user, family)],
                   claims := s.claims + [Claims(user, role, version)]), None)
      else Outcome(s, Some(Reread(token, now)))
    case Reread(token, now) =>
      if token in s.tokens && s.tokens[token].replacedBy.Some?
      then Outcome(ContainFamily(s, s.tokens[token].family, s.tokens[token].user, now), None)
      else Outcome(s, None)
  }

  // ---- The other operations, one transaction each -----------------------------------------------

  function IssuePair(cfg: Config, s: State, user: UserId, id: TokenId, family: FamilyId, now: nat): State
    requires user in s.users
  {
    s.(tokens := s.tokens[id := Token(user, family, now + cfg.refreshTtl, None, None)],
       log := s.log + [Issue(id, user, family)],
       claims := s.claims + [Claims(user, s.users[user].role, s.users[user].version)])
  }

  function Register(cfg: Config, s: State, user: UserId, role: nat, id: TokenId, family: FamilyId, now: nat): State {
    IssuePair(cfg, s.(users := s.users[user := User(role, true, 0)]), user, id, family, now)
  }

  function Login(cfg: Config, s: State, user: UserId, passwordOk: bool, id: TokenId, family: FamilyId, now: nat): State
  {
    if user in s.users && passwordOk && s.users[user].active then IssuePair(cfg, s, user, id, family, now) else s
  }

  function Logout(s: State, raw: TokenId, now: nat): State {
    if raw in s.tokens then ContainFamily(s, s.tokens[raw].family, s.tokens[raw].user, now) else s
  }

  function InvalidateSessions(s: State, user: UserId, now: nat): State {
    s.(tokens := RevokeUser(s.tokens, user, now), users := BumpVersion(s.users, user))
  }

  function RequestReset(cfg: Config, s: State, user: UserId, id: TokenId, now: nat): State {
    if user in s.users && s.users[user].active
    then s.(resets := InvalidateResets(s.resets, user, now)[id := ResetToken(user, now + cfg.resetTtl, None)])
    else s
  }

  predicate ResetUsable(s: State, id: TokenId, now: nat) {
    && id in s.resets && s.resets[id].consumedAt.None? && s.resets[id].expiresAt > now
    && s.resets[id].user in s.users && s.users[s.resets[id].user].active
  }

  /** `accepted` is the password screening; a refused password rolls the consumption back. */
  function ConfirmReset(s: State, id: TokenId, accepted: bool, now: nat): State {
    if ResetUsable(s, id, now) && accepted
    then InvalidateSessions(s.(resets := s.resets[id := s.resets[id].(consumedAt := Some(now))]),
                            s.resets[id].user, now)
    else s
  }

  function PurgeResets(resets: map<TokenId, ResetToken>, before: int): map<TokenId, ResetToken> {
    map id | id in resets
      && !((resets[id].consumedAt.Some? && resets[id].consumedAt.value <= before) || resets[id].expiresAt <= before) ::
      resets[id]
  }

  function Purge(s: State, before: int): State {
    s.(tokens := DeleteTokens(s.tokens, PurgedIds(s.tokens, before)), resets := PurgeResets(s.resets, before))
  }

  /** Deleting a user cascades to the tokens. */
  function CloseAccount(s: State, user: UserId): State {
    s.(users := s.users - {user},
       tokens := DeleteTokens(s.tokens, set id | id in s.tokens && s.tokens[id].user == user),
       resets := map id | id in s.resets && s.resets[id].user != user :: s.resets[id])
  }

  /** Changes to role and activity made elsewhere. */
  function Administer(s: State, user: UserId, role: nat, active: bool): State {
    if user in s.users then s.(users := s.users[user := s.users[user].(role := role, active := active)]) else s
  }

  // ---- The state machine ------------------------------------------------------------------------

  datatype System = System(state: State, inFlight: map<nat, Pending>)

  datatype Action =
    | DoRegister(user: UserId, role: nat, id: TokenId, family: FamilyId, now: nat)
    | DoLogin(user: UserId, passwordOk: bool, id: TokenId, family: FamilyId, now: nat)
    | DoPresent(slot: nat, raw: TokenId, now: nat)
    | DoCommit(slot: nat, replacement: TokenId)
    | DoLogout(raw: TokenId, now: nat)
    | DoInvalidate(user: UserId, now: nat)
    | DoRequestReset(user: UserId, id: TokenId, now: nat)
    | DoConfirmReset(id: TokenId, accepted: bool, now: nat)
    | DoPurge(before: int)
    | DoClose(user: UserId)
    | DoAdminister(user: UserId, role: nat, active: bool)

  /** A random identifier names no user of the past. */
  predicate FreshUser(s: State, user: UserId) {
    && user !in s.users
    && (forall i | 0 <= i < |s.log| :: s.log[i].user != user)
    && (forall i | 0 <= i < |s.claims| :: s.claims[i].user != user)
  }

  /** Freshly drawn identifiers are fresh; everything else may happen at any time. */
  predicate Enabled(sys: System, a: Action) {
    match a
    case DoRegister(user, _, id, family, _) =>
      FreshUser(sys.state, user) && FreshToken(sys.state.log, id) && FreshFamily(sys.state.log, family)
    case DoLogin(_, _, id, family, _) => FreshToken(sys.state.log, id) && FreshFamily(sys.state.log, family)
    case DoPresent(slot, _, _) => slot !in sys.inFlight
    case DoCommit(slot, replacement) => slot in sys.inFlight && FreshToken(sys.state.log, replacement)
    case DoRequestReset(_, id, _) => id !in sys.state.resets
    case _ => true
  }

  function Put(inFlight: map<nat, Pending>, slot: nat, p: Option<Pending>): map<nat, Pending> {
    if p.Some? then inFlight[slot := p.value] else inFlight - {slot}
  }

  function Apply(cfg: Config, sys: System, a: Action): System
    requires Enabled(sys, a)
  {
    var s := sys.state;
    match a
    case DoRegister(user, role, id, family, now) => sys.(state := Register(cfg, s, user, role, id, family, now))
    case DoLogin(user, passwordOk, id, family, now) => sys.(state := Login(cfg, s, user, passwordOk, id, family, now))
    case DoPresent(slot, raw, now) => sys.(inFlight := Put(sys.inFlight, slot, ReadRefresh(s, raw, now)))
    case DoCommit(slot, replacement) =>
      var o := CommitRefresh(cfg, s, sys.inFlight[slot], replacement);
      System(o.state, Put(sys.inFlight, slot, o.rest))
    case DoLogout(raw, now) => sys.(state := Logout(s, raw, now))
    case DoInvalidate(user, now) => sys.(state := InvalidateSessions(s, user, now))
    case DoRequestReset(user, id, now) => sys.(state := RequestReset(cfg, s, user, id, now))
    case DoConfirmReset(id, accepted, now) => sys.(state := ConfirmReset(s, id, accepted, now))
    case DoPurge(before) => sys.(state := Purge(s, before))
    case DoClose(user) => sys.(state := CloseAccount(s, user))
    case DoAdminister(user, role, active) => sys.(state := Administer(s, user, role, active))
  }

  // ---- Invariant --------------------------------------------------------------------------------

  /** No access token is ahead of its user. */
  ghost predicate ClaimsOk(s: State) {
    forall i | 0 <= i < |s.claims| && s.claims[i].user in s.users ::
      s.claims[i].version <= s.users[s.claims[i].user].version
  }

  ghost predicate StateOk(s: State) {
    TokensOk(s.users, s.tokens, s.log) && ClaimsOk(s)
  }

  /** What a stale reading still guarantees, however much has happened since. */
  ghost predicate PendingOk(s: State, p: Pending) {
    match p
    case Contain(token, family, user, _) => Issue(token, user, family) in s.log
    case Rotate(token, family, user, _, version, _) =>
      Issue(token, user, family) in s.log && (user in s.users ==> version <= s.users[user].version)
    case _ => true
  }

  ghost predicate SystemOk(sys: System) {
    StateOk(sys.state) && forall slot | slot in sys.inFlight :: PendingOk(sys.state, sys.inFlight[slot])
  }

  /** Some token was once issued to the user. */
  ghost predicate Known(s: State, user: UserId) {
    || (exists i | 0 <= i < |s.log| :: s.log[i].user == user)
    || (exists i | 0 <= i < |s.claims| :: s.claims[i].user == user)
  }

  /** Histories grow, versions do not shrink, closed accounts do not come back. */
  ghost predicate Later(s: State, t: State) {
    && s.log <= t.log && s.claims <= t.claims
    && forall u | Known(s, u) && u in t.users :: u in s.users && s.users[u].version <= t.users[u].version
  }

  lemma KnownLater(s: State, t: State, user: UserId)
    requires s.log <= t.log && s.claims <= t.claims && Known(s, user)
    ensures Known(t, user)
  {
    if i :| 0 <= i < |s.log| && s.log[i].user == user {
      assert t.log[i].user == user;
    } else {
      var i :| 0 <= i < |s.claims| && s.claims[i].user == user;
      assert t.claims[i].user == user;
    }
  }

  lemma LaterKeepsPending(s: State, t: State, p: Pending)
    requires Later(s, t) && PendingOk(s, p)
    ensures PendingOk(t, p)
  {
    if p.Contain? || p.Rotate? {
      var e := Issue(p.token, p.user, p.family);
      var i :| 0 <= i < |s.log| && s.log[i] == e;
      assert t.log[i] == e;
      assert Known(s, p.user);
    }
  }

  lemma LaterTransitive(s: State, t: State, u: State)
    requires Later(s, t) && Later(t, u)
    ensures Later(s, u)
  {
    forall user | Known(s, user) && user in u.users
      ensures user in s.users && s.users[user].version <= u.users[user].version
    {
      KnownLater(s, t, user);
    }
  }

  /** One step of any kind: the invariant is kept, time goes forward, the dead stay dead. */
  ghost predicate GoodStep(s: State, t: State) {
    StateOk(t) && Later(s, t) && forall f :: Dead(s, f) ==> Dead(t, f)
  }

  /** Steps that only retire tokens and raise versions or remove users. */
  lemma RetiringIsGood(s: State, t: State)
    requires StateOk(s) && Retires(s.tokens, t.tokens) && t.log == s.log && t.claims == s.claims
    requires forall u | u in t.users :: u in s.users && s.users[u].version <= t.users[u].version
    requires forall id | id in t.tokens :: t.tokens[id].user in t.users
    ensures GoodStep(s, t)
  {
    RetiringKeepsTokensOk(s.users, t.users, s.tokens, t.tokens, s.log);
    forall f | Dead(s, f)
      ensures Dead(t, f)
    {
      RetiringKeepsDead(s, t, f);
    }
  }

  lemma OwnersKnown(s: State)
    requires StateOk(s)
    ensures forall id | id in s.tokens :: s.tokens[id].user in s.users
  {
    forall id | id in s.tokens
      ensures s.tokens[id].user in s.users
    {
      assert TokenOk(s.users, s.tokens, s.log, id);
    }
  }

  lemma ContainIsGood(s: State, family: FamilyId, user: UserId, now: nat)
    requires StateOk(s)
    ensures GoodStep(s, ContainFamily(s, family, user, now))
  {
    OwnersKnown(s);
    RevokingRetires(s.users, s.tokens, s.log, family, user, now);
    if user in s.users {
      RetiringIsGood(s, ContainFamily(s, family, user, now));
    }
  }

  lemma InvalidateIsGood(s: State, user: UserId, now: nat)
    requires StateOk(s)
    ensures GoodStep(s, InvalidateSessions(s, user, now))
  {
    OwnersKnown(s);
    RevokingRetires(s.users, s.tokens, s.log, 0, user, now);
    RetiringIsGood(s, InvalidateSessions(s, user, now));
  }

  lemma DeactivateIsGood(s: State, family: FamilyId, now: nat)
    requires StateOk(s)
    ensures GoodStep(s, s.(tokens := RevokeFamily(s.tokens, family, now)))
  {
    OwnersKnown(s);
    RevokingRetires(s.users, s.tokens, s.log, family, 0, now);
    RetiringIsGood(s, s.(tokens := RevokeFamily(s.tokens, family, now)));
  }

  lemma ExpireIsGood(s: State, token: TokenId, now: nat)
    requires StateOk(s) && token in s.tokens
    ensures GoodStep(s, s.(tokens := s.tokens[token := s.tokens[token].(revokedAt := Some(now))]))
  {
    hide LogOk, LastOf, Next, ClaimsOk, Later;
    OwnersKnown(s);
    RevokingRetires(s.users, s.tokens, s.log, 0, 0, now);
    RetiringIsGood(s, s.(tokens := s.tokens[token := s.tokens[token].(revokedAt := Some(now))]));
  }

  lemma PurgeIsGood(s: State, before: int)
    requires StateOk(s)
    ensures GoodStep(s, Purge(s, before))
  {
    OwnersKnown(s);
    DeletingRetires(s.users, s.tokens, s.log, PurgedIds(s.tokens, before));
    RetiringIsGood(s, Purge(s, before));
  }

  lemma CloseIsGood(s: State, user: UserId)
    requires StateOk(s)
    ensures GoodStep(s, CloseAccount(s, user))
  {
    OwnersKnown(s);
    DeletingRetires(s.users, s.tokens, s.log, set id | id in s.tokens && s.tokens[id].user == user);
    RetiringIsGood(s, CloseAccount(s, user));
  }

  lemma AdministerIsGood(s: State, user: UserId, role: nat, active: bool)
    requires StateOk(s)
    ensures GoodStep(s, Administer(s, user, role, active))
  {
    OwnersKnown(s);
    DeletingRetires(s.users, s.tokens, s.log, {});
    if user in s.users {
      RetiringIsGood(s, Administer(s, user, role, active));
    }
  }

  /** A new pair for a user: the first token of a fresh family. */
  lemma IssueIsGood(cfg: Config, s: State, user: UserId, id: TokenId, family: FamilyId, now: nat)
    requires StateOk(s) && user in s.users && FreshToken(s.log, id) && FreshFamily(s.log, family)
    ensures GoodStep(s, IssuePair(cfg, s, user, id, family, now))
  {
    var t := IssuePair(cfg, s, user, id, family, now);
    IssuingKeepsTokensOk(s.users, s.tokens, s.log, Issue(id, user, family), now + cfg.refreshTtl);
    forall f | Dead(s, f)
      ensures Dead(t, f)
    {
      DeadUnderIssue(s, t, Issue(id, user, family), f);
    }
  }

  lemma DeadUnderIssue(s: State, t: State, e: Issue, f: FamilyId)
    requires Dead(s, f) && t.log == s.log + [e] && e.family != f
    requires forall id | id in t.tokens && t.tokens[id].family == f ::
               && id in s.tokens && s.tokens[id].family == f
               && (s.tokens[id].revokedAt.Some? ==> t.tokens[id].revokedAt.Some?)
    ensures Dead(t, f)
  {
    var i :| 0 <= i < |s.log| && s.log[i].family == f;
    assert t.log[i].family == f;
  }

  lemma RegisterIsGood(cfg: Config, s: State, user: UserId, role: nat, id: TokenId, family: FamilyId, now: nat)
    requires StateOk(s) && FreshUser(s, user) && FreshToken(s.log, id) && FreshFamily(s.log, family)
    ensures GoodStep(s, Register(cfg, s, user, role, id, family, now))
  {
    var m := s.(users := s.users[user := User(role, true, 0)]);
    forall k | k in s.tokens
      ensures TokenOk(m.users, m.tokens, m.log, k)
    {
      assert TokenOk(s.users, s.tokens, s.log, k);
    }
    assert Later(s, m);
    IssueIsGood(cfg, m, user, id, family, now);
    LaterTransitive(s, m, IssuePair(cfg, m, user, id, family, now));
    assert forall f :: Dead(s, f) ==> Dead(m, f);
  }

  /** A claimed rotation: the family was live, so no dead family gains a token. */
  lemma RotateIsGood(cfg: Config, s: State, p: Pending, replacement: TokenId)
    requires StateOk(s) && p.Rotate? && PendingOk(s, p) && Claimable(s.tokens, p.token, p.now)
    requires FreshToken(s.log, replacement)
    ensures GoodStep(s, CommitRefresh(cfg, s, p, replacement).state)
  {
    hide LogOk, LastOf, Next;
    var token := s.tokens[p.token];
    assert TokenOk(s.users, s.tokens, s.log, p.token);
    SameIssue(s.log, Issue(p.token, p.user, p.family), Issue(p.token, token.user, token.family));
    RotatingKeepsTokensOk(s.users, s.tokens, s.log, p.token, replacement, p.now + cfg.refreshTtl, p.now);
    RotateIsLater(cfg, s, p, replacement);
    forall f | Dead(s, f)
      ensures Dead(CommitRefresh(cfg, s, p, replacement).state, f)
    {
      RotateKeepsDead(cfg, s, p, replacement, f);
    }
  }

  lemma RotateIsLater(cfg: Config, s: State, p: Pending, replacement: TokenId)
    requires ClaimsOk(s) && p.Rotate? && PendingOk(s, p) && Claimable(s.tokens, p.token, p.now)
    ensures var t := CommitRefresh(cfg, s, p, replacement).state; ClaimsOk(t) && Later(s, t)
  {
    hide RotateTokens;
  }

  lemma RotateKeepsDead(cfg: Config, s: State, p: Pending, replacement: TokenId, f: FamilyId)
    requires p.Rotate? && Claimable(s.tokens, p.token, p.now) && s.tokens[p.token].family == p.family && Dead(s, f)
    ensures Dead(CommitRefresh(cfg, s, p, replacement).state, f)
  {
    var t := CommitRefresh(cfg, s, p, replacement).state;
    assert p.family != f;
    DeadUnderIssue(s, t, Issue(replacement, p.user, p.family), f);
  }

  lemma SameIssue(log: seq<Issue>, a: Issue, b: Issue)
    requires LogOk(log) && a in log && b in log && a.id == b.id
    ensures a == b
  {
    var i :| 0 <= i < |log| && log[i] == a;
    LoggedOnce(log, b, i);
  }

  lemma CommitIsGood(cfg: Config, s: State, p: Pending, replacement: TokenId)
    requires StateOk(s) && PendingOk(s, p) && FreshToken(s.log, replacement)
    ensures GoodStep(s, CommitRefresh(cfg, s, p, replacement).state)
  {
    hide StateOk, GoodStep, RevokeFamily, ContainFamily, RotateTokens;
    match p
    case Contain(_, family, user, now) => ContainIsGood(s, family, user, now);
    case Expire(token, now) =>
      if token in s.tokens {
        ExpireIsGood(s, token, now);
      } else {
        NothingIsGood(s);
      }
    case Deactivate(family, now) => DeactivateIsGood(s, family, now);
    case Rotate(token, _, _, _, _, now) =>
      if Claimable(s.tokens, token, now) {
        RotateIsGood(cfg, s, p, replacement);
      } else {
        NothingIsGood(s);
      }
    case Reread(token, now) =>
      if token in s.tokens {
        ContainIsGood(s, s.tokens[token].family, s.tokens[token].user, now);
      }
      NothingIsGood(s);
  }

  lemma NothingIsGood(s: State)
    requires StateOk(s)
    ensures GoodStep(s, s)
  {
  }

  lemma ResetIsGood(cfg: Config, s: State, user: UserId, id: TokenId, accepted: bool, now: nat)
    requires StateOk(s)
    ensures GoodStep(s, RequestReset(cfg, s, user, id, now)) && GoodStep(s, ConfirmReset(s, id, accepted, now))
  {
    OwnersKnown(s);
    DeletingRetires(s.users, s.tokens, s.log, {});
    RetiringIsGood(s, RequestReset(cfg, s, user, id, now));
    if ResetUsable(s, id, now) {
      var m := s.(resets := s.resets[id := s.resets[id].(consumedAt := Some(now))]);
      InvalidateIsGood(m, s.resets[id].user, now);
    } else {
      NothingIsGood(s);
    }
  }

  /** Every action of the system is a good step on the tables. */
  lemma StepIsGood(cfg: Config, sys: System, a: Action)
    requires SystemOk(sys) && Enabled(sys, a)
    ensures GoodStep(sys.state, Apply(cfg, sys, a).state)
  {
    hide StateOk, GoodStep, FreshToken, FreshFamily, FreshUser, PendingOk, Register, Login, Logout, Purge,
         CloseAccount, Administer, CommitRefresh, RequestReset, ConfirmReset, InvalidateSessions;
    var s := sys.state;
    match a
    case DoRegister(user, role, id, family, now) => RegisterIsGood(cfg, s, user, role, id, family, now);
    case DoLogin(user, passwordOk, id, family, now) => LoginIsGood(cfg, s, user, passwordOk, id, family, now);
    case DoPresent(_, _, _) => NothingIsGood(s);
    case DoCommit(slot, replacement) => CommitIsGood(cfg, s, sys.inFlight[slot], replacement);
    case DoLogout(raw, now) => LogoutIsGood(s, raw, now);
    case DoInvalidate(user, now) => InvalidateIsGood(s, user, now);
    case DoRequestReset(user, id, now) => ResetIsGood(cfg, s, user, id, true, now);
    case DoConfirmReset(id, accepted, now) => ResetIsGood(cfg, s, 0, id, accepted, now);
    case DoPurge(before) => PurgeIsGood(s, before);
    case DoClose(user) => CloseIsGood(s, user);
    case DoAdminister(user, role, active) => AdministerIsGood(s, user, role, active);
  }

  lemma LoginIsGood(cfg: Config, s: State, user: UserId, passwordOk: bool, id: TokenId, family: FamilyId, now: nat)
    requires StateOk(s) && FreshToken(s.log, id) && FreshFamily(s.log, family)
    ensures GoodStep(s, Login(cfg, s, user, passwordOk, id, family, now))
  {
    hide StateOk, GoodStep, FreshToken, FreshFamily, IssuePair;
    NothingIsGood(s);
    if user in s.users {
      IssueIsGood(cfg, s, user, id, family, now);
    }
  }

  lemma LogoutIsGood(s: State, raw: TokenId, now: nat)
    requires StateOk(s)
    ensures GoodStep(s, Logout(s, raw, now))
  {
    hide StateOk, GoodStep, ContainFamily;
    NothingIsGood(s);
    if raw in s.tokens {
      ContainIsGood(s, s.tokens[raw].family, s.tokens[raw].user, now);
    }
  }

  /** A reading is sound when taken. */
  lemma ReadIsOk(s: State, raw: TokenId, now: nat)
    requires StateOk(s) && ReadRefresh(s, raw, now).Some?
    ensures PendingOk(s, ReadRefresh(s, raw, now).value)
  {
    assert TokenOk(s.users, s.tokens, s.log, raw);
  }

  /** The invariant survives every step, whatever is in flight. */
  lemma StepKeepsOk(cfg: Config, sys: System, a: Action)
    requires SystemOk(sys) && Enabled(sys, a)
    ensures SystemOk(Apply(cfg, sys, a))
  {
    hide StateOk, PendingOk, Later;
    var next := Apply(cfg, sys, a);
    StepIsGood(cfg, sys, a);
    forall slot | slot in next.inFlight
      ensures PendingOk(next.state, next.inFlight[slot])
    {
      PendingSurvives(cfg, sys, a, slot);
    }
  }

  lemma PendingSurvives(cfg: Config, sys: System, a: Action, slot: nat)
    requires SystemOk(sys) && Enabled(sys, a) && slot in Apply(cfg, sys, a).inFlight
    requires Later(sys.state, Apply(cfg, sys, a).state)
    ensures PendingOk(Apply(cfg, sys, a).state, Apply(cfg, sys, a).inFlight[slot])
  {
    var next := Apply(cfg, sys, a);
    if slot in sys.inFlight && next.inFlight[slot] == sys.inFlight[slot] {
      LaterKeepsPending(sys.state, next.state, sys.inFlight[slot]);
    } else if a.DoPresent? {
      ReadIsOk(sys.state, a.raw, a.now);
    }
  }

  // ---- Runs -------------------------------------------------------------------------------------

  ghost predicate IsRun(cfg: Config, run: seq<System>, actions: seq<Action>) {
    && |run| == |actions| + 1
    && forall i | 0 <= i < |actions| :: Enabled(run[i], actions[i]) && run[i + 1] == Apply(cfg, run[i], actions[i])
  }

  const START := System(EMPTY, map[])

  /** The invariant holds along every run of the service from empty tables. */
  lemma {:induction false} RunKeepsOk(cfg: Config, run: seq<System>, actions: seq<Action>, n: nat)
    requires IsRun(cfg, run, actions) && run[0] == START && n <= |actions|
    ensures SystemOk(run[n])
  {
    hide Apply, Enabled;
    if n == 0 {
      assert TokensOk(map[], map[], []);
    } else {
      RunKeepsOk(cfg, run, actions, n - 1);
      StepKeepsOk(cfg, run[n - 1], actions[n - 1]);
    }
  }

  /** From any point of a run to any later one. */
  lemma {:induction false} RunIsGood(cfg: Config, run: seq<System>, actions: seq<Action>, m: nat, n: nat)
    requires IsRun(cfg, run, actions) && run[0] == START && m <= n <= |actions|
    ensures GoodStep(run[m].state, run[n].state)
    decreases n - m
  {
    hide Apply, Enabled, StateOk, Later, Dead, PendingOk;
    RunKeepsOk(cfg, run, actions, m);
    if m == n {
      NothingIsGood(run[m].state);
    } else {
      RunIsGood(cfg, run, actions, m, n - 1);
      RunKeepsOk(cfg, run, actions, n - 1);
      StepIsGood(cfg, run[n - 1], actions[n - 1]);
      LaterTransitive(run[m].state, run[n - 1].state, run[n].state);
    }
  }
}
