/**
 * Safety of whole runs of the refresh protocol: rotation chains, permanent
 * containment of reuse, access tokens that stay rejected, and what a purge keeps.
 */
module RefreshSafety {
  import opened Common
  import opened RefreshTokens
  import opened RefreshProtocol

  /** At every point of every run each family is a chain with at most one live token, its tail. */
  lemma RunFamiliesAreChains(cfg: Config, run: seq<System>, actions: seq<Action>, n: nat, a: TokenId, b: TokenId)
    requires IsRun(cfg, run, actions) && run[0] == START && n <= |actions|
    requires a in run[n].state.tokens && b in run[n].state.tokens
    ensures var (tokens, log) := (run[n].state.tokens, run[n].state.log);
      && (a != b && tokens[a].family == tokens[b].family ==> tokens[a].revokedAt.Some? || tokens[b].revokedAt.Some?)
      && (tokens[a].replacedBy.Some? && tokens[a].replacedBy == tokens[b].replacedBy ==> a == b)
      && (tokens[a].replacedBy == Some(b) ==>
            && tokens[a].family == tokens[b].family && tokens[a].user == tokens[b].user && tokens[a].revokedAt.Some?
            && exists i: nat, j: nat :: FollowsAt(log, i, j) && log[i].id == a && log[j].id == b)
      && (tokens[a].revokedAt.None? ==> tokens[a].replacedBy.None? && LastOf(log, tokens[a].family) == Some(a))
  {
    RunKeepsOk(cfg, run, actions, n);
    var s := run[n].state;
    FamilyIsChain(s.users, s.tokens, s.log, a, b);
  }

  // ---- Reuse containment ------------------------------------------------------------------------

  /** Presenting a token that was already replaced always leads to containment of its family. */
  lemma ReplacedTokenIsContained(s: State, raw: TokenId, now: nat)
    requires StateOk(s) && raw in s.tokens && s.tokens[raw].replacedBy.Some?
    ensures ReadRefresh(s, raw, now) == Some(Contain(raw, s.tokens[raw].family, s.tokens[raw].user, now))
  {
    assert TokenOk(s.users, s.tokens, s.log, raw);
  }

  /** A rotation that lost its claim writes nothing and rereads. */
  lemma LostClaimRereads(cfg: Config, s: State, p: Pending, replacement: TokenId)
    requires StateOk(s) && p.Rotate? && p.token in s.tokens && s.tokens[p.token].replacedBy.Some?
    ensures CommitRefresh(cfg, s, p, replacement) == Outcome(s, Some(Reread(p.token, p.now)))
  {
    assert TokenOk(s.users, s.tokens, s.log, p.token);
  }

  /** Containment leaves the family without a live token, even when the account is already gone. */
  lemma ContainLeavesDead(s: State, token: TokenId, family: FamilyId, user: UserId, now: nat)
    requires StateOk(s) && Issue(token, user, family) in s.log
    ensures Dead(ContainFamily(s, family, user, now), family)
  {
    var i :| 0 <= i < |s.log| && s.log[i] == Issue(token, user, family);
    forall id | id in s.tokens && s.tokens[id].family == family
      ensures s.tokens[id].user == user && user in s.users
    {
      assert TokenOk(s.users, s.tokens, s.log, id);
      var j :| 0 <= j < |s.log| && s.log[j] == Issue(id, s.tokens[id].user, family);
      assert i == j || s.log[i].user == s.log[j].user;
    }
  }

  /** The family an action condemns, if any. */
  function Condemned(sys: System, a: Action): Option<FamilyId> {
    match a
    case DoCommit(slot, _) =>
      if slot !in sys.inFlight then None else
        (match sys.inFlight[slot]
         case Contain(_, family, _, _) => Some(family)
         case Reread(token, _) =>
           if token in sys.state.tokens && sys.state.tokens[token].replacedBy.Some?
           then Some(sys.state.tokens[token].family) else None
         case _ => None)
    case DoLogout(raw, _) => if raw in sys.state.tokens then Some(sys.state.tokens[raw].family) else None
    case _ => None
  }

  lemma CondemnedDies(cfg: Config, sys: System, a: Action)
    requires SystemOk(sys) && Enabled(sys, a) && Condemned(sys, a).Some?
    ensures Dead(Apply(cfg, sys, a).state, Condemned(sys, a).value)
  {
    hide Dead, LogOk, ContainFamily, FreshToken;
    var s := sys.state;
    match a
    case DoCommit(slot, _) =>
      match sys.inFlight[slot] {
        case Contain(token, family, user, now) => ContainLeavesDead(s, token, family, user, now);
        case Reread(token, now) =>
          assert TokenOk(s.users, s.tokens, s.log, token);
          ContainLeavesDead(s, token, s.tokens[token].family, s.tokens[token].user, now);
        case _ =>
      }
    case DoLogout(raw, now) =>
      assert TokenOk(s.users, s.tokens, s.log, raw);
      ContainLeavesDead(s, raw, s.tokens[raw].family, s.tokens[raw].user, now);
    case _ =>
  }

  /**
   * Containment is permanent: once reuse was detected, a reread found the marker, or the
   * session was logged out, no later step, stale in-flight refreshes included, gives the
   * family a live token again.
   */
  lemma ContainmentIsPermanent(cfg: Config, run: seq<System>, actions: seq<Action>, m: nat, n: nat)
    requires IsRun(cfg, run, actions) && run[0] == START && m < n <= |actions|
    requires Condemned(run[m], actions[m]).Some?
    ensures Dead(run[n].state, Condemned(run[m], actions[m]).value)
  {
    hide Dead, StateOk, Later, Enabled, Condemned, Apply, PendingOk;
    RunKeepsOk(cfg, run, actions, m);
    CondemnedDies(cfg, run[m], actions[m]);
    RunIsGood(cfg, run, actions, m + 1, n);
  }

  // ---- Access tokens ----------------------------------------------------------------------------

  /** The user whose sessions an action ends. */
  function Ended(sys: System, a: Action): Option<UserId> {
    var s := sys.state;
    match a
    case DoCommit(slot, _) =>
      if slot !in sys.inFlight then None else
        (match sys.inFlight[slot]
         case Contain(_, _, user, _) => Some(user)
         case Reread(token, _) =>
           if token in s.tokens && s.tokens[token].replacedBy.Some? then Some(s.tokens[token].user) else None
         case _ => None)
    case DoLogout(raw, _) => if raw in s.tokens then Some(s.tokens[raw].user) else None
    case DoInvalidate(user, _) => Some(user)
    case DoConfirmReset(id, accepted, now) =>
      if ResetUsable(s, id, now) && accepted then Some(s.resets[id].user) else None
    case DoClose(user) => Some(user)
    case _ => None
  }

  /** Ending sessions raises the version past every access token issued so far. */
  lemma EndingRaisesVersion(cfg: Config, sys: System, a: Action)
    requires SystemOk(sys) && Enabled(sys, a) && Ended(sys, a).Some?
    ensures var (user, t) := (Ended(sys, a).value, Apply(cfg, sys, a).state);
            user in t.users ==> user in sys.state.users && t.users[user].version > sys.state.users[user].version
  {
    hide StateOk, PendingOk, RevokeFamily, RevokeUser, DeleteTokens, FreshToken, FreshFamily, FreshUser;
  }

  /** An access token is honoured exactly while the account is as it was when the token was issued, and active. */
  lemma HonouredExactly(users: map<UserId, User>, c: Claims)
    ensures Accepts(users, c) <==> c.user in users && users[c.user] == User(c.role, true, c.version)
  {
  }

  /** `c` can be honoured in no state from `t` on. */
  lemma RejectedFromThenOn(s: State, t: State, u: State, c: Claims)
    requires Later(s, t) && Later(t, u) && Known(s, c.user)
    requires c.user in s.users ==> c.version <= s.users[c.user].version
    requires c.user in t.users ==> c.user in s.users && t.users[c.user].version > s.users[c.user].version
    ensures !Accepts(u.users, c)
  {
    KnownLater(s, t, c.user);
  }

  /**
   * After logout, detected reuse, password reset, invalidation or closure every access
   * token issued earlier to that user is rejected in every later state.
   */
  lemma EndedSessionsStayEnded(cfg: Config, run: seq<System>, actions: seq<Action>, m: nat, n: nat, i: nat)
    requires IsRun(cfg, run, actions) && run[0] == START && m < n <= |actions|
    requires i < |run[m].state.claims| && Ended(run[m], actions[m]) == Some(run[m].state.claims[i].user)
    ensures !Accepts(run[n].state.users, run[m].state.claims[i])
  {
    hide Enabled, Ended, Apply, PendingOk, TokensOk, Accepts;
    RunKeepsOk(cfg, run, actions, m);
    EndingRaisesVersion(cfg, run[m], actions[m]);
    RunIsGood(cfg, run, actions, m, m + 1);
    RunIsGood(cfg, run, actions, m + 1, n);
    assert Known(run[m].state, run[m].state.claims[i].user);
    RejectedFromThenOn(run[m].state, run[m + 1].state, run[n].state, run[m].state.claims[i]);
  }

  /** What a refresh that read the user before the event could issue is rejected from then on. */
  lemma StaleClaimsRejected(cfg: Config, run: seq<System>, actions: seq<Action>, m: nat, n: nat, slot: nat)
    requires IsRun(cfg, run, actions) && run[0] == START && m < n <= |actions|
    requires slot in run[m].inFlight && run[m].inFlight[slot].Rotate?
    requires Ended(run[m], actions[m]) == Some(run[m].inFlight[slot].user)
    ensures var p := run[m].inFlight[slot];
            !Accepts(run[n].state.users, Claims(p.user, p.role, p.version))
  {
    hide Enabled, Ended, Apply, TokensOk, Accepts;
    var p := run[m].inFlight[slot];
    RunKeepsOk(cfg, run, actions, m);
    assert PendingOk(run[m].state, p);
    EndingRaisesVersion(cfg, run[m], actions[m]);
    RunIsGood(cfg, run, actions, m, m + 1);
    RunIsGood(cfg, run, actions, m + 1, n);
    var i :| 0 <= i < |run[m].state.log| && run[m].state.log[i] == Issue(p.token, p.user, p.family);
    assert Known(run[m].state, p.user);
    RejectedFromThenOn(run[m].state, run[m + 1].state, run[n].state, Claims(p.user, p.role, p.version));
  }

  /** A refresh that read the user before the event and commits after it issues no token that is ever honoured. */
  lemma StaleRefreshIssuesRejectedToken(cfg: Config, run: seq<System>, actions: seq<Action>, m: nat, k: nat, n: nat,
                                        slot: nat)
    requires IsRun(cfg, run, actions) && run[0] == START && m < k < n <= |actions|
    requires slot in run[m].inFlight && run[m].inFlight[slot].Rotate?
    requires Ended(run[m], actions[m]) == Some(run[m].inFlight[slot].user)
    requires actions[k].DoCommit? && actions[k].slot == slot && run[k].inFlight[slot] == run[m].inFlight[slot]
    ensures var (before, after) := (run[k].state.claims, run[k + 1].state.claims);
            after == before || (|after| == |before| + 1 && !Accepts(run[n].state.users, after[|before|]))
  {
    hide Accepts, Ended, RotateTokens, Claimable;
    StaleClaimsRejected(cfg, run, actions, m, n, slot);
    var p := run[m].inFlight[slot];
    assert run[k + 1].state == CommitRefresh(cfg, run[k].state, p, actions[k].replacement).state;
  }

  // ---- Signing a user out -----------------------------------------------------------------------

  /** The user whose every session an action ends, on every device. */
  function SignsOut(sys: System, a: Action): Option<UserId> {
    match a
    case DoInvalidate(user, _) => Some(user)
    case DoConfirmReset(id, accepted, now) =>
      if ResetUsable(sys.state, id, now) && accepted then Some(sys.state.resets[id].user) else None
    case DoClose(user) => Some(user)
    case _ => None
  }

  /** Afterwards the user has no unrevoked refresh token. */
  lemma SignOutRevokesAll(cfg: Config, sys: System, a: Action)
    requires Enabled(sys, a) && SignsOut(sys, a).Some?
    ensures var t := Apply(cfg, sys, a).state;
            forall id | id in t.tokens && t.tokens[id].user == SignsOut(sys, a).value :: t.tokens[id].revokedAt.Some?
  {
    hide FreshToken, FreshFamily, FreshUser, BumpVersion;
  }

  /** A family of that user is dead from the event on. */
  lemma SignOutKillsFamily(cfg: Config, sys: System, a: Action, i: nat)
    requires SystemOk(sys) && Enabled(sys, a) && i < |sys.state.log|
    requires SignsOut(sys, a) == Some(sys.state.log[i].user)
    ensures Dead(Apply(cfg, sys, a).state, sys.state.log[i].family)
  {
    var t := Apply(cfg, sys, a).state;
    var e := sys.state.log[i];
    hide SignsOut, Apply, Enabled;
    SignOutRevokesAll(cfg, sys, a);
    StepIsGood(cfg, sys, a);
    assert t.log[i] == e;
    forall id | id in t.tokens && t.tokens[id].family == e.family
      ensures t.tokens[id].revokedAt.Some?
    {
      assert TokenOk(t.users, t.tokens, t.log, id);
      OneOwner(t.log, e, Issue(id, t.tokens[id].user, e.family));
    }
  }

  lemma OneOwner(log: seq<Issue>, a: Issue, b: Issue)
    requires LogOk(log) && a in log && b in log && a.family == b.family
    ensures a.user == b.user
  {
    var i :| 0 <= i < |log| && log[i] == a;
    var j :| 0 <= j < |log| && log[j] == b;
    assert i == j || log[i].user == log[j].user;
  }

  /**
   * After a sign-out, password reset or closure no refresh token issued to that user before it, and none
   * that a refresh in flight at the time may still issue in its family, is live in any later state.
   */
  lemma SignedOutStaysSignedOut(cfg: Config, run: seq<System>, actions: seq<Action>, m: nat, n: nat, i: nat)
    requires IsRun(cfg, run, actions) && run[0] == START && m < n <= |actions|
    requires i < |run[m].state.log| && SignsOut(run[m], actions[m]) == Some(run[m].state.log[i].user)
    ensures Dead(run[n].state, run[m].state.log[i].family)
  {
    hide Dead, StateOk, Later, Enabled, SignsOut, Apply, PendingOk;
    RunKeepsOk(cfg, run, actions, m);
    SignOutKillsFamily(cfg, run[m], actions[m], i);
    RunIsGood(cfg, run, actions, m + 1, n);
  }

  // ---- Purge ------------------------------------------------------------------------------------

  /** Links are stamped in order: a token is revoked no later than its replacement, and before that one expires. */
  ghost predicate StampedInOrder(tokens: map<TokenId, Token>) {
    forall id | id in tokens && tokens[id].replacedBy.Some? && tokens[id].replacedBy.value in tokens ::
      LinkStamped(tokens[id], tokens[tokens[id].replacedBy.value])
  }

  predicate LinkStamped(t: Token, r: Token) {
    && t.revokedAt.Some? && t.revokedAt.value < r.expiresAt
    && (r.revokedAt.Some? ==> t.revokedAt.value <= r.revokedAt.value)
  }

  /** The purge forgets that a surviving token was replaced. */
  ghost predicate ErasesMarker(tokens: map<TokenId, Token>, before: int) {
    exists id :: id in DeleteTokens(tokens, PurgedIds(tokens, before))
                 && DeleteTokens(tokens, PurgedIds(tokens, before))[id].replacedBy != tokens[id].replacedBy
  }

  /** `path` runs along replacement links, each token descending from the one before. */
  ghost predicate Descends(tokens: map<TokenId, Token>, path: seq<TokenId>) {
    && (forall i | 0 <= i < |path| :: path[i] in tokens)
    && (forall i | 0 <= i < |path| - 1 :: tokens[path[i]].replacedBy == Some(path[i + 1]))
  }

  /** Whenever a token is purged so is every token it descends from. */
  lemma {:induction false} PurgeIsAncestorClosed(tokens: map<TokenId, Token>, before: int, path: seq<TokenId>)
    requires StampedInOrder(tokens) && Descends(tokens, path) && path != []
    requires path[|path| - 1] in PurgedIds(tokens, before)
    ensures forall i | 0 <= i < |path| :: path[i] in PurgedIds(tokens, before)
    decreases |path|
  {
    if |path| > 1 {
      var (a, b) := (path[|path| - 2], path[|path| - 1]);
      assert tokens[a].replacedBy == Some(b);
      assert LinkStamped(tokens[a], tokens[b]);
      PurgeIsAncestorClosed(tokens, before, path[..|path| - 1]);
      assert path == path[..|path| - 1] + [b];
    }
  }

  /** So ON DELETE SET NULL never erases the reuse marker of a surviving row. */
  lemma PurgeKeepsMarkers(tokens: map<TokenId, Token>, before: int)
    requires StampedInOrder(tokens)
    ensures !ErasesMarker(tokens, before)
  {
    forall id | id in DeleteTokens(tokens, PurgedIds(tokens, before))
      ensures DeleteTokens(tokens, PurgedIds(tokens, before))[id].replacedBy == tokens[id].replacedBy
    {
      if tokens[id].replacedBy.Some? && tokens[id].replacedBy.value in tokens {
        assert LinkStamped(tokens[id], tokens[tokens[id].replacedBy.value]);
      }
    }
  }

  /** The cutoff from which on a purge removes the row. */
  function LastsUntil(t: Token): nat {
    if t.revokedAt.Some? && t.revokedAt.value < t.expiresAt then t.revokedAt.value else t.expiresAt
  }

  ghost predicate LinksOutlive(tokens: map<TokenId, Token>) {
    forall id | id in tokens && tokens[id].replacedBy.Some? && tokens[id].replacedBy.value in tokens ::
      LastsUntil(tokens[id]) <= LastsUntil(tokens[tokens[id].replacedBy.value])
  }

  /** No purge, whatever its cutoff, erases a marker exactly when every replacement outlives what it replaced. */
  lemma MarkersSafeIffLinksOutlive(tokens: map<TokenId, Token>)
    ensures (forall before: int :: !ErasesMarker(tokens, before)) <==> LinksOutlive(tokens)
  {
    forall id | id in tokens && tokens[id].replacedBy.Some? && tokens[id].replacedBy.value in tokens
                && LastsUntil(tokens[id]) > LastsUntil(tokens[tokens[id].replacedBy.value])
      ensures ErasesMarker(tokens, LastsUntil(tokens[tokens[id].replacedBy.value]))
    {
      var before := LastsUntil(tokens[tokens[id].replacedBy.value]);
      assert tokens[id].replacedBy.value in PurgedIds(tokens, before);
      assert id in DeleteTokens(tokens, PurgedIds(tokens, before));
    }
    if LinksOutlive(tokens) {
      forall before: int
        ensures !ErasesMarker(tokens, before)
      {
        OutlivingKeepsMarkers(tokens, before);
      }
    }
  }

  lemma OutlivingKeepsMarkers(tokens: map<TokenId, Token>, before: int)
    requires LinksOutlive(tokens)
    ensures !ErasesMarker(tokens, before)
  {
    forall id | id in DeleteTokens(tokens, PurgedIds(tokens, before))
      ensures DeleteTokens(tokens, PurgedIds(tokens, before))[id].replacedBy == tokens[id].replacedBy
    {
    }
  }

  /** A usable token is never purged: the cutoff is not in the future. */
  lemma UsableTokensSurvivePurge(tokens: map<TokenId, Token>, id: TokenId, now: nat, before: int)
    requires Claimable(tokens, id, now) && before <= now
    ensures id in DeleteTokens(tokens, PurgedIds(tokens, before))
    ensures Claimable(DeleteTokens(tokens, PurgedIds(tokens, before)), id, now)
  {
  }

  // ---- Password resets --------------------------------------------------------------------------

  /** A user has at most one reset token that could still be redeemed. */
  ghost predicate OneOpenReset(resets: map<TokenId, ResetToken>) {
    forall i, j | i in resets && j in resets && resets[i].user == resets[j].user
                  && resets[i].consumedAt.None? && resets[j].consumedAt.None? :: i == j
  }

  /** Reset rows are kept, consumed or removed. */
  ghost predicate ResetsRetire(before: map<TokenId, ResetToken>, after: map<TokenId, ResetToken>) {
    forall id | id in after :: id in before && after[id].user == before[id].user
                               && (after[id].consumedAt.None? ==> before[id].consumedAt.None?)
  }

  lemma RequestKeepsOneOpenReset(cfg: Config, s: State, user: UserId, id: TokenId, now: nat)
    requires OneOpenReset(s.resets)
    ensures OneOpenReset(RequestReset(cfg, s, user, id, now).resets)
  {
    var t := RequestReset(cfg, s, user, id, now);
    forall i, j | i in t.resets && j in t.resets && t.resets[i].user == t.resets[j].user
                  && t.resets[i].consumedAt.None? && t.resets[j].consumedAt.None?
      ensures i == j
    {
      assert i != id ==> i in s.resets;
      assert j != id ==> j in s.resets;
    }
  }

  lemma OtherStepsRetireResets(cfg: Config, sys: System, a: Action)
    requires Enabled(sys, a) && !a.DoRequestReset?
    ensures ResetsRetire(sys.state.resets, Apply(cfg, sys, a).state.resets)
  {
    hide RevokeFamily, RevokeUser, BumpVersion, DeleteTokens, PurgedIds, RotateTokens, Claimable;
  }

  /** However requests and redemptions interleave, an older link dies when a newer one is sent. */
  lemma {:induction false} RunKeepsOneOpenReset(cfg: Config, run: seq<System>, actions: seq<Action>, n: nat)
    requires IsRun(cfg, run, actions) && run[0] == START && n <= |actions|
    ensures OneOpenReset(run[n].state.resets)
  {
    hide Apply, Enabled, RequestReset;
    if n > 0 {
      RunKeepsOneOpenReset(cfg, run, actions, n - 1);
      var a := actions[n - 1];
      if a.DoRequestReset? {
        RequestKeepsOneOpenReset(cfg, run[n - 1].state, a.user, a.id, a.now);
        RequestStep(cfg, run[n - 1], a);
      } else {
        OtherStepsRetireResets(cfg, run[n - 1], a);
      }
    }
  }

  lemma RequestStep(cfg: Config, sys: System, a: Action)
    requires Enabled(sys, a) && a.DoRequestReset?
    ensures Apply(cfg, sys, a).state == RequestReset(cfg, sys.state, a.user, a.id, a.now)
  {
  }

  // ---- Purge under interleaving -----------------------------------------------------------------

  /** One user and one family, in which tokens 1 to n were issued. */
  function Family(tokens: map<TokenId, Token>, n: nat, version: nat): State {
    State(map[0 := User(0, true, version)], tokens, map[], IssuesUpTo(n), ClaimsUpTo(n))
  }

  function IssuesUpTo(n: nat): seq<Issue> {
    if n == 0 then [] else IssuesUpTo(n - 1) + [Issue(n, 0, 0)]
  }

  function ClaimsUpTo(n: nat): seq<Claims> {
    if n == 0 then [] else ClaimsUpTo(n - 1) + [Claims(0, 0, 0)]
  }

  lemma {:induction false} BeyondIsFresh(n: nat, id: TokenId)
    requires id > n
    ensures FreshToken(IssuesUpTo(n), id)
  {
    if n > 0 {
      BeyondIsFresh(n - 1, id);
    }
  }

  function First(cfg: Config): map<TokenId, Token> {
    map[1 := Token(0, 0, 1 + cfg.refreshTtl, None, None)]
  }

  function Second(cfg: Config): map<TokenId, Token> {
    map[1 := Token(0, 0, 1 + cfg.refreshTtl, Some(2), Some(2)), 2 := Token(0, 0, 2 + cfg.refreshTtl, None, None)]
  }

  function Third(cfg: Config, revokedAt: Option<nat>): map<TokenId, Token> {
    map[1 := Token(0, 0, 1 + cfg.refreshTtl, Some(2), Some(2)),
        2 := Token(0, 0, 2 + cfg.refreshTtl, Some(10), Some(3)),
        3 := Token(0, 0, 10 + cfg.refreshTtl, revokedAt, None)]
  }

  const READ_FIRST := Rotate(1, 0, 0, 0, 0, 2)
  const HELD_UP := Contain(1, 0, 0, 5)
  const READ_SECOND := Rotate(2, 0, 0, 0, 0, 10)

  ghost predicate StepsTo(cfg: Config, sys: System, a: Action, next: System) {
    Enabled(sys, a) && Apply(cfg, sys, a) == next
  }

  lemma IssueFirst(cfg: Config)
    ensures StepsTo(cfg, START, DoRegister(0, 0, 1, 0, 1), System(Family(First(cfg), 1, 0), map[]))
  {
    assert IssuesUpTo(1) == [] + [Issue(1, 0, 0)] && ClaimsUpTo(1) == [] + [Claims(0, 0, 0)];
  }

  lemma OneMore(n: nat)
    ensures IssuesUpTo(n + 1) == IssuesUpTo(n) + [Issue(n + 1, 0, 0)]
    ensures ClaimsUpTo(n + 1) == ClaimsUpTo(n) + [Claims(0, 0, 0)]
  {
  }

  lemma FirstRotated(cfg: Config)
    ensures RotateTokens(First(cfg), 1, 2, 2 + cfg.refreshTtl, 2) == Second(cfg)
  {
  }

  lemma SecondRotated(cfg: Config)
    ensures RotateTokens(Second(cfg), 2, 3, 10 + cfg.refreshTtl, 10) == Third(cfg, None)
  {
  }

  lemma ThirdRevoked(cfg: Config)
    ensures RevokeFamily(Third(cfg, None), 0, 5) == Third(cfg, Some(5))
  {
  }

  lemma PresentFirst(cfg: Config)
    requires cfg.refreshTtl >= 100
    ensures StepsTo(cfg, System(Family(First(cfg), 1, 0), map[]), DoPresent(0, 1, 2),
                    System(Family(First(cfg), 1, 0), map[0 := READ_FIRST]))
  {
  }

  lemma RotateFirst(cfg: Config)
    requires cfg.refreshTtl >= 100
    ensures StepsTo(cfg, System(Family(First(cfg), 1, 0), map[0 := READ_FIRST]), DoCommit(0, 2),
                    System(Family(Second(cfg), 2, 0), map[]))
  {
    hide RotateTokens, FreshToken, IssuesUpTo, ClaimsUpTo;
    BeyondIsFresh(1, 2);
    OneMore(1);
    FirstRotated(cfg);
    assert map[0 := READ_FIRST] - {0} == map[];
  }

  lemma PresentAgain(cfg: Config)
    requires cfg.refreshTtl >= 100
    ensures StepsTo(cfg, System(Family(Second(cfg), 2, 0), map[]), DoPresent(1, 1, 5),
                    System(Family(Second(cfg), 2, 0), map[1 := HELD_UP]))
    ensures StepsTo(cfg, System(Family(Second(cfg), 2, 0), map[1 := HELD_UP]), DoPresent(2, 2, 10),
                    System(Family(Second(cfg), 2, 0), map[1 := HELD_UP, 2 := READ_SECOND]))
  {
  }

  lemma RotateSecond(cfg: Config)
    requires cfg.refreshTtl >= 100
    ensures StepsTo(cfg, System(Family(Second(cfg), 2, 0), map[1 := HELD_UP, 2 := READ_SECOND]), DoCommit(2, 3),
                    System(Family(Third(cfg, None), 3, 0), map[1 := HELD_UP]))
  {
    hide RotateTokens, FreshToken, IssuesUpTo, ClaimsUpTo;
    BeyondIsFresh(2, 3);
    OneMore(2);
    SecondRotated(cfg);
    assert map[1 := HELD_UP, 2 := READ_SECOND] - {2} == map[1 := HELD_UP];
  }

  lemma ContainLate(cfg: Config)
    ensures StepsTo(cfg, System(Family(Third(cfg, None), 3, 0), map[1 := HELD_UP]), DoCommit(1, 4),
                    System(Family(Third(cfg, Some(5)), 3, 1), map[]))
  {
    hide RevokeFamily, FreshToken, IssuesUpTo, ClaimsUpTo;
    BeyondIsFresh(3, 4);
    ThirdRevoked(cfg);
    assert map[1 := HELD_UP] - {1} == map[];
  }

  /**
   * Requests in flight can break the order of the stamps. Token 2 replaces token 1.
   * One request presents token 1 at 5 and is held up; another rotates token 2 at 10;
   * the first then revokes the family as of 5. A purge up to 7 deletes the
   * replacement of token 2 but not token 2, whose reuse marker is erased.
   */
  lemma PurgeCanEraseMarkersUnderInterleaving(cfg: Config) returns (run: seq<System>, actions: seq<Action>)
    requires cfg.refreshTtl >= 100
    ensures IsRun(cfg, run, actions) && run[0] == START
    ensures ErasesMarker(run[|actions|].state.tokens, 7)
  {
    hide Apply, Enabled, Family, First, Second, Third;
    actions := [DoRegister(0, 0, 1, 0, 1), DoPresent(0, 1, 2), DoCommit(0, 2), DoPresent(1, 1, 5), DoPresent(2, 2, 10),
                DoCommit(2, 3), DoCommit(1, 4)];
    run := [START,
            System(Family(First(cfg), 1, 0), map[]),
            System(Family(First(cfg), 1, 0), map[0 := READ_FIRST]),
            System(Family(Second(cfg), 2, 0), map[]),
            System(Family(Second(cfg), 2, 0), map[1 := HELD_UP]),
            System(Family(Second(cfg), 2, 0), map[1 := HELD_UP, 2 := READ_SECOND]),
            System(Family(Third(cfg, None), 3, 0), map[1 := HELD_UP]),
            System(Family(Third(cfg, Some(5)), 3, 1), map[])];
    IssueFirst(cfg);
    PresentFirst(cfg);
    RotateFirst(cfg);
    PresentAgain(cfg);
    RotateSecond(cfg);
    ContainLate(cfg);
    LateContainErases(cfg);
  }

  lemma LateContainErases(cfg: Config)
    requires cfg.refreshTtl >= 100
    ensures ErasesMarker(Family(Third(cfg, Some(5)), 3, 1).tokens, 7)
  {
    var tokens := Third(cfg, Some(5));
    assert 3 in PurgedIds(tokens, 7) && 2 !in PurgedIds(tokens, 7);
    assert DeleteTokens(tokens, PurgedIds(tokens, 7))[2].replacedBy == None;
  }
}
