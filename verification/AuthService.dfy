/**
 * `AuthService` (`app/modules/auth/service.py`) with calls that run one at a time:
 * the methods change the tables statement by statement and are proved against the
 * transitions of RefreshProtocol. Under a clock that never steps back the links stay
 * stamped in order, which is what a purge needs.
 *
 * Identifiers drawn at random arrive as parameters and are required to be fresh;
 * password hashing and screening arrive as their verdicts.
 */
module AuthService {
  import opened Common
  import opened RefreshTokens
  import opened RefreshProtocol
  import opened RefreshSafety

  datatype Issued = Issued(access: Claims, refresh: TokenId)

  datatype AuthError =
    | InvalidRefreshToken
    | RefreshTokenExpired
    | InvalidCredentials
    | InvalidOrExpiredToken
    | CompromisedPassword

  /** A refresh that nobody interrupts: the read, then its commit. */
  function Refreshed(cfg: Config, s: State, raw: TokenId, now: nat, replacement: TokenId): State {
    var p := ReadRefresh(s, raw, now);
    if p.None? then s else CommitRefresh(cfg, s, p.value, replacement).state
  }

  /** What the caller of an uninterrupted refresh is told. */
  function RefreshReply(s: State, raw: TokenId, now: nat, replacement: TokenId): Result<Issued, AuthError> {
    match ReadRefresh(s, raw, now)
    case Some(Rotate(_, _, user, role, version, _)) => Ok(Issued(Claims(user, role, version), replacement))
    case Some(Expire(_, _)) => Err(RefreshTokenExpired)
    case _ => Err(InvalidRefreshToken)
  }

  /** No revocation is in the future. */
  ghost predicate RevokedBy(tokens: map<TokenId, Token>, clock: nat) {
    forall id | id in tokens && tokens[id].revokedAt.Some? :: tokens[id].revokedAt.value <= clock
  }

  ghost predicate Stamped(tokens: map<TokenId, Token>, clock: nat) {
    StampedInOrder(tokens) && RevokedBy(tokens, clock)
  }

  /** Rows are kept, unlinked, or revoked as of `now`. */
  ghost predicate RevokesAt(before: map<TokenId, Token>, after: map<TokenId, Token>, now: nat) {
    forall id | id in after :: id in before &&
      (|| after[id] == before[id]
       || after[id] == before[id].(replacedBy := None)
       || (before[id].revokedAt.None? && after[id] == before[id].(revokedAt := Some(now))))
  }

  lemma RevokingKeepsStamps(s: State, after: map<TokenId, Token>, clock: nat, now: nat)
    requires StateOk(s) && Stamped(s.tokens, clock) && clock <= now && RevokesAt(s.tokens, after, now)
    ensures Stamped(after, now)
  {
    hide LogOk, LastOf, Next;
    forall id | id in after && after[id].replacedBy.Some? && after[id].replacedBy.value in after
      ensures LinkStamped(after[id], after[after[id].replacedBy.value])
    {
      assert TokenOk(s.users, s.tokens, s.log, id);
      assert LinkStamped(s.tokens[id], s.tokens[s.tokens[id].replacedBy.value]);
    }
  }

  lemma IssuingKeepsStamps(s: State, id: TokenId, t: Token, clock: nat, now: nat)
    requires StateOk(s) && Stamped(s.tokens, clock) && clock <= now
    requires FreshToken(s.log, id) && t.revokedAt.None? && t.replacedBy.None?
    ensures Stamped(s.tokens[id := t], now)
  {
    hide LastOf, Next;
    var after := s.tokens[id := t];
    forall k | k in after && after[k].replacedBy.Some? && after[k].replacedBy.value in after
      ensures LinkStamped(after[k], after[after[k].replacedBy.value])
    {
      assert TokenOk(s.users, s.tokens, s.log, k);
      assert LinkStamped(s.tokens[k], s.tokens[s.tokens[k].replacedBy.value]);
      assert after[k].replacedBy.value != id by { NotLogged(s, id); }
    }
  }

  lemma NotLogged(s: State, id: TokenId)
    requires StateOk(s) && FreshToken(s.log, id)
    ensures id !in s.tokens
  {
    hide LogOk, LastOf, Next;
    forall k | k in s.tokens
      ensures k != id
    {
      assert TokenOk(s.users, s.tokens, s.log, k);
      Logged(s.log, Issue(k, s.tokens[k].user, s.tokens[k].family));
    }
  }

  /** Claim, insert, link: the three statements of a rotation. */
  lemma RotationInSteps(tokens: map<TokenId, Token>, raw: TokenId, replacement: TokenId, expiresAt: nat, now: nat)
    requires raw in tokens && raw != replacement
    ensures var token := tokens[raw];
            var claimed := tokens[raw := token.(revokedAt := Some(now))];
            var inserted := claimed[replacement := Token(token.user, token.family, expiresAt, None, None)];
            inserted[raw := inserted[raw].(replacedBy := Some(replacement))]
            == RotateTokens(tokens, raw, replacement, expiresAt, now)
  {
  }

  lemma RotatingKeepsStamps(s: State, id: TokenId, replacement: TokenId, expiresAt: nat, clock: nat, now: nat)
    requires StateOk(s) && Stamped(s.tokens, clock) && clock <= now < expiresAt
    requires FreshToken(s.log, replacement) && id in s.tokens && s.tokens[id].revokedAt.None?
    ensures Stamped(RotateTokens(s.tokens, id, replacement, expiresAt, now), now)
  {
    hide LogOk, LastOf, Next;
    var after := RotateTokens(s.tokens, id, replacement, expiresAt, now);
    NotLogged(s, replacement);
    forall k | k in after && after[k].replacedBy.Some? && after[k].replacedBy.value in after
      ensures LinkStamped(after[k], after[after[k].replacedBy.value])
    {
      if k != id {
        assert TokenOk(s.users, s.tokens, s.log, k);
        assert LinkStamped(s.tokens[k], s.tokens[s.tokens[k].replacedBy.value]);
      }
    }
  }

  /** An uninterrupted refresh keeps the stamps in order. */
  lemma RefreshKeepsStamps(cfg: Config, s: State, raw: TokenId, clock: nat, now: nat, replacement: TokenId)
    requires cfg.refreshTtl >= 1 && StateOk(s) && Stamped(s.tokens, clock) && clock <= now
    requires FreshToken(s.log, replacement)
    ensures Stamped(Refreshed(cfg, s, raw, now, replacement).tokens, now)
  {
    hide StateOk, Stamped, RotateTokens, FreshToken;
    var p := ReadRefresh(s, raw, now);
    if p.Some? && p.value.Rotate? {
      RotatingKeepsStamps(s, raw, replacement, now + cfg.refreshTtl, clock, now);
    } else {
      RevokingKeepsStamps(s, Refreshed(cfg, s, raw, now, replacement).tokens, clock, now);
    }
  }

  // ---- What a caller sees of the tables ---------------------------------------------------------

  /** The chosen tokens that were not revoked yet are revoked as of `now`; nothing else changes. */
  ghost predicate RevokedAmong(before: map<TokenId, Token>, after: map<TokenId, Token>, chosen: set<TokenId>, now: nat)
  {
    && after.Keys == before.Keys
    && forall id | id in before ::
         after[id] ==
           if id in chosen && before[id].revokedAt.None? then before[id].(revokedAt := Some(now)) else before[id]
  }

  /** One user's version goes up by one. */
  ghost predicate VersionRaised(before: map<UserId, User>, after: map<UserId, User>, user: UserId) {
    user in before && after == before[user := before[user].(version := before[user].version + 1)]
  }

  function FamilyTokens(tokens: map<TokenId, Token>, family: FamilyId): set<TokenId> {
    set id | id in tokens && tokens[id].family == family
  }

  function UserTokens(tokens: map<TokenId, Token>, user: UserId): set<TokenId> {
    set id | id in tokens && tokens[id].user == user
  }

  /** The cutoff from which on a purge removes the row. */
  function ResetLastsUntil(r: ResetToken): nat {
    if r.consumedAt.Some? && r.consumedAt.value < r.expiresAt then r.consumedAt.value else r.expiresAt
  }

  /** Everything an uninterrupted refresh does and answers, one case after the other. */
  ghost predicate RefreshSeen(cfg: Config, s: State, t: State, raw: TokenId, replacement: TokenId, now: nat,
                              r: Result<Issued, AuthError>)
  {
    && t.resets == s.resets
    && if raw !in s.tokens then t == s && r == Err(InvalidRefreshToken)
       else
         var token := s.tokens[raw];
         if token.revokedAt.Some? then
           && r == Err(InvalidRefreshToken)
           && (token.replacedBy.None? ==> t == s)
           && (token.replacedBy.Some? ==>
                 && VersionRaised(s.users, t.users, token.user)
                 && RevokedAmong(s.tokens, t.tokens, FamilyTokens(s.tokens, token.family), now))
         else if token.expiresAt <= now then
           r == Err(RefreshTokenExpired) && t.users == s.users && RevokedAmong(s.tokens, t.tokens, {raw}, now)
         else
           token.user in s.users && t.users == s.users
           && var user := s.users[token.user];
              if !user.active then
                && r == Err(InvalidRefreshToken)
                && RevokedAmong(s.tokens, t.tokens, FamilyTokens(s.tokens, token.family), now)
              else
                && r == Ok(Issued(Claims(token.user, user.role, user.version), replacement))
                && t.log == s.log + [Issue(replacement, token.user, token.family)]
                && t.claims == s.claims + [r.value.access]
                && t.tokens ==
                     s.tokens[raw := token.(revokedAt := Some(now), replacedBy := Some(replacement))]
                             [replacement := Token(token.user, token.family, now + cfg.refreshTtl, None, None)]
  }

  lemma RefreshIsSeen(cfg: Config, s: State, raw: TokenId, replacement: TokenId, now: nat)
    requires StateOk(s) && FreshToken(s.log, replacement)
    ensures RefreshSeen(cfg, s, Refreshed(cfg, s, raw, now, replacement), raw, replacement, now,
                        RefreshReply(s, raw, now, replacement))
  {
    hide LogOk, LastOf, Next, FreshToken;
    OwnersKnown(s);
  }

  /** The user is signed out everywhere: no refresh token is left that could be claimed, at any time. */
  ghost predicate SignOutSeen(s: State, t: State, user: UserId, now: nat) {
    && RevokedAmong(s.tokens, t.tokens, UserTokens(s.tokens, user), now)
    && (forall id, at | id in t.tokens && t.tokens[id].user == user :: !Claimable(t.tokens, id, at))
    && if user in s.users then VersionRaised(s.users, t.users, user) else t.users == s.users
  }

  lemma SignOutIsSeen(s: State, user: UserId, now: nat)
    ensures SignOutSeen(s, InvalidateSessions(s, user, now), user, now)
  {
  }

  /** Rows whose time has come are gone; the others stay, without links to rows that are gone. */
  ghost predicate PurgeSeen(s: State, t: State, before: int) {
    && t.users == s.users
    && (forall id :: id in t.tokens <==> id in s.tokens && LastsUntil(s.tokens[id]) > before)
    && (forall id | id in t.tokens :: t.tokens[id] ==
          if s.tokens[id].replacedBy.Some? && s.tokens[id].replacedBy.value in s.tokens
             && s.tokens[id].replacedBy.value !in t.tokens
          then s.tokens[id].(replacedBy := None) else s.tokens[id])
    && (forall id :: id in t.resets <==> id in s.resets && ResetLastsUntil(s.resets[id]) > before)
    && forall id | id in t.resets :: t.resets[id] == s.resets[id]
  }

  lemma PurgeIsSeen(s: State, before: int)
    ensures PurgeSeen(s, Purge(s, before), before)
  {
  }

  /** The user is gone with everything that was the user's; nothing else changes. */
  ghost predicate ClosureSeen(s: State, t: State, user: UserId) {
    && t.users == s.users - {user}
    && (forall id :: id in t.tokens <==> id in s.tokens && s.tokens[id].user != user)
    && (forall id | id in t.tokens :: t.tokens[id] == s.tokens[id])
    && (forall id :: id in t.resets <==> id in s.resets && s.resets[id].user != user)
    && forall id | id in t.resets :: t.resets[id] == s.resets[id]
  }

  lemma ClosureIsSeen(s: State, user: UserId)
    requires StateOk(s)
    ensures ClosureSeen(s, CloseAccount(s, user), user)
  {
    hide LogOk, LastOf, Next;
    forall id | id in s.tokens && s.tokens[id].replacedBy.Some?
      ensures s.tokens[id].replacedBy.value in s.tokens
      ensures s.tokens[s.tokens[id].replacedBy.value].user == s.tokens[id].user
    {
      assert TokenOk(s.users, s.tokens, s.log, id);
      FamilyIsChain(s.users, s.tokens, s.log, id, s.tokens[id].replacedBy.value);
    }
  }

  lemma RedemptionIsSeen(s: State, id: TokenId, screened: bool, now: nat)
    ensures var t := ConfirmReset(s, id, screened, now);
            if Redeemable(s, id, now) && screened
            then
              && SignOutSeen(s, t, s.resets[id].user, now)
              && t.resets == s.resets[id := s.resets[id].(consumedAt := Some(now))]
            else t == s
  {
    hide SignOutSeen, RevokeUser;
    if Redeemable(s, id, now) {
      SignOutIsSeen(s, s.resets[id].user, now);
      SameSignOut(s, id, now);
    }
  }

  lemma RedemptionRevokes(s: State, id: TokenId, screened: bool, now: nat)
    ensures RevokesAt(s.tokens, ConfirmReset(s, id, screened, now).tokens, now)
  {
  }

  lemma SameSignOut(s: State, id: TokenId, now: nat)
    requires id in s.resets && SignOutSeen(s, InvalidateSessions(s, s.resets[id].user, now), s.resets[id].user, now)
    ensures var m := s.(resets := s.resets[id := s.resets[id].(consumedAt := Some(now))]);
            SignOutSeen(s, InvalidateSessions(m, s.resets[id].user, now), s.resets[id].user, now)
  {
    hide RevokeUser, BumpVersion, RevokedAmong, VersionRaised;
  }

  /** The password reset can be redeemed. */
  predicate Redeemable(s: State, id: TokenId, now: nat) {
    id in s.resets
    && var reset := s.resets[id];
       reset.consumedAt == None && now < reset.expiresAt && reset.user in s.users && s.users[reset.user].active
  }

  class AuthService {
    const cfg: Config
    var users: map<UserId, User>
    var tokens: map<TokenId, Token>
    var resets: map<TokenId, ResetToken>

    ghost var log: seq<Issue>
    ghost var claims: seq<Claims>
    ghost var clock: nat
    /** Whether no call so far has seen the clock step back. */
    ghost var monotone: bool

    ghost function Tables(): State
      reads this
    {
      State(users, tokens, resets, log, claims)
    }

    ghost predicate Valid()
      reads this
    {
      cfg.refreshTtl >= 1 && StateOk(Tables()) && (monotone ==> Stamped(tokens, clock))
    }

    constructor (cfg: Config)
      requires cfg.refreshTtl >= 1
      ensures Valid() && Tables() == EMPTY && monotone && clock == 0 && this.cfg == cfg
    {
      this.cfg := cfg;
      users, tokens, resets := map[], map[], map[];
      log, claims, clock, monotone := [], [], 0, true;
    }

    method Register(user: UserId, role: nat, id: TokenId, family: FamilyId, now: nat) returns (r: Issued)
      requires Valid() && FreshUser(Tables(), user) && FreshToken(log, id) && FreshFamily(log, family)
      modifies this
      ensures Valid() && Tables() == RefreshProtocol.Register(cfg, old(Tables()), user, role, id, family, now)
      ensures users == old(users)[user := User(role, true, 0)] && resets == old(resets)
      ensures tokens == old(tokens)[id := Token(user, family, now + cfg.refreshTtl, None, None)]
      ensures log == old(log) + [Issue(id, user, family)] && claims == old(claims) + [r.access]
      ensures monotone == (old(monotone) && old(clock) <= now) && clock == now
      ensures r == Issued(Claims(user, role, 0), id) && Accepts(users, r.access)
    {
      hide StateOk, Stamped, FreshUser, FreshToken, FreshFamily;
      RegisterIsGood(cfg, Tables(), user, role, id, family, now);
      if monotone && clock <= now {
        IssuingKeepsStamps(Tables(), id, Token(user, family, now + cfg.refreshTtl, None, None), clock, now);
      }
      monotone, clock := monotone && clock <= now, now;
      users := users[user := User(role, true, 0)];
      r := IssueTokenPair(user, id, family, now);
    }

    /** `_issue_token_pair`, inside the caller's transaction. */
    method IssueTokenPair(user: UserId, id: TokenId, family: FamilyId, now: nat) returns (r: Issued)
      requires user in users
      modifies this`tokens, this`log, this`claims
      ensures Tables() == IssuePair(cfg, old(Tables()), user, id, family, now)
      ensures r == Issued(Claims(user, users[user].role, users[user].version), id)
    {
      var access := Claims(user, users[user].role, users[user].version);
      claims := claims + [access];
      tokens := tokens[id := Token(user, family, now + cfg.refreshTtl, None, None)];
      log := log + [Issue(id, user, family)];
      r := Issued(access, id);
    }

    method Login(user: UserId, passwordOk: bool, id: TokenId, family: FamilyId, now: nat)
      returns (r: Result<Issued, AuthError>)
      requires Valid() && FreshToken(log, id) && FreshFamily(log, family)
      modifies this
      ensures Valid() && Tables() == RefreshProtocol.Login(cfg, old(Tables()), user, passwordOk, id, family, now)
      ensures monotone == (old(monotone) && old(clock) <= now) && clock == now
      ensures r.Ok? <==> user in users && passwordOk && users[user].active
      ensures if r.Ok? then r.value.refresh == id && Accepts(users, r.value.access) else r.error == InvalidCredentials
      ensures users == old(users) && resets == old(resets)
      ensures tokens == if r.Ok? then old(tokens)[id := Token(user, family, now + cfg.refreshTtl, None, None)]
                        else old(tokens)
      ensures log == old(log) + (if r.Ok? then [Issue(id, user, family)] else [])
      ensures claims == old(claims) + (if r.Ok? then [r.value.access] else [])
    {
      hide StateOk, Stamped, FreshToken, FreshFamily;
      LoginIsGood(cfg, Tables(), user, passwordOk, id, family, now);
      if monotone && clock <= now {
        IssuingKeepsStamps(Tables(), id, Token(user, family, now + cfg.refreshTtl, None, None), clock, now);
        RevokingKeepsStamps(Tables(), tokens, clock, now);
      }
      monotone, clock := monotone && clock <= now, now;
      if user !in users {
        return Err(InvalidCredentials);
      }
      if !passwordOk || !users[user].active {
        return Err(InvalidCredentials);
      }
      var pair := IssueTokenPair(user, id, family, now);
      r := Ok(pair);
    }

    method Refresh(raw: TokenId, replacement: TokenId, now: nat) returns (r: Result<Issued, AuthError>)
      requires Valid() && FreshToken(log, replacement)
      modifies this
      ensures Valid() && Tables() == Refreshed(cfg, old(Tables()), raw, now, replacement)
      ensures r == RefreshReply(old(Tables()), raw, now, replacement)
      ensures monotone == (old(monotone) && old(clock) <= now) && clock == now
      ensures r.Ok? ==> Accepts(users, r.value.access) && Claimable(tokens, replacement, now)
      ensures RefreshSeen(cfg, old(Tables()), Tables(), raw, replacement, now, r)
    {
      hide StateOk, Stamped, FreshToken, RevokeFamily, BumpVersion, RefreshSeen;
      RefreshIsSeen(cfg, Tables(), raw, replacement, now);
      RefreshIsGood(cfg, Tables(), raw, now, replacement);
      if monotone && clock <= now {
        RefreshKeepsStamps(cfg, Tables(), raw, clock, now, replacement);
      }
      monotone, clock := monotone && clock <= now, now;
      if raw !in tokens {
        return Err(InvalidRefreshToken);
      }
      var token := tokens[raw];
      if token.revokedAt.Some? {
        if token.replacedBy.Some? {
          OwnersKnown(Tables());
          tokens := RevokeFamily(tokens, token.family, now);
          users := BumpVersion(users, token.user);
        }
        return Err(InvalidRefreshToken);
      }
      if token.expiresAt <= now {
        tokens := tokens[raw := token.(revokedAt := Some(now))];
        return Err(RefreshTokenExpired);
      }
      OwnersKnown(Tables());
      var user := users[token.user];
      if !user.active {
        tokens := RevokeFamily(tokens, token.family, now);
        return Err(InvalidRefreshToken);
      }
      NotLogged(Tables(), replacement);
      var pair := Rotate(raw, replacement, now);
      return Ok(pair);
    }

    /** Claims the token presented, inserts its replacement and links the two. */
    method Rotate(raw: TokenId, replacement: TokenId, now: nat) returns (r: Issued)
      requires raw in tokens && tokens[raw].user in users && raw != replacement
      modifies this`tokens, this`log, this`claims
      ensures tokens == RotateTokens(old(tokens), raw, replacement, now + cfg.refreshTtl, now)
      ensures var token := old(tokens)[raw]; var user := users[token.user];
              && log == old(log) + [Issue(replacement, token.user, token.family)]
              && r == Issued(Claims(token.user, user.role, user.version), replacement)
              && claims == old(claims) + [r.access]
    {
      RotationInSteps(tokens, raw, replacement, now + cfg.refreshTtl, now);
      var token := tokens[raw];
      var user := users[token.user];
      tokens := tokens[raw := token.(revokedAt := Some(now))];
      tokens := tokens[replacement := Token(token.user, token.family, now + cfg.refreshTtl, None, None)];
      tokens := tokens[raw := tokens[raw].(replacedBy := Some(replacement))];
      log := log + [Issue(replacement, token.user, token.family)];
      r := Issued(Claims(token.user, user.role, user.version), replacement);
      claims := claims + [r.access];
    }

    method Logout(raw: TokenId, now: nat)
      requires Valid()
      modifies this
      ensures Valid() && Tables() == RefreshProtocol.Logout(old(Tables()), raw, now)
      ensures if raw !in old(tokens) then Tables() == old(Tables())
              else
                var token := old(tokens)[raw];
                && VersionRaised(old(users), users, token.user) && resets == old(resets)
                && RevokedAmong(old(tokens), tokens, FamilyTokens(old(tokens), token.family), now)
      ensures monotone == (old(monotone) && old(clock) <= now) && clock == now
    {
      hide StateOk, Stamped;
      LogoutIsGood(Tables(), raw, now);
      if monotone && clock <= now {
        RevokingKeepsStamps(Tables(), RefreshProtocol.Logout(Tables(), raw, now).tokens, clock, now);
      }
      OwnersKnown(Tables());
      monotone, clock := monotone && clock <= now, now;
      if raw in tokens {
        var token := tokens[raw];
        tokens := RevokeFamily(tokens, token.family, now);
        users := BumpVersion(users, token.user);
      }
    }

    method InvalidateUserSessions(user: UserId, now: nat)
      requires Valid()
      modifies this
      ensures Valid() && Tables() == InvalidateSessions(old(Tables()), user, now)
      ensures SignOutSeen(old(Tables()), Tables(), user, now) && resets == old(resets)
      ensures monotone == (old(monotone) && old(clock) <= now) && clock == now
    {
      hide StateOk, Stamped, SignOutSeen;
      SignOutIsSeen(Tables(), user, now);
      InvalidateIsGood(Tables(), user, now);
      if monotone && clock <= now {
        RevokingKeepsStamps(Tables(), RevokeUser(tokens, user, now), clock, now);
      }
      monotone, clock := monotone && clock <= now, now;
      tokens := RevokeUser(tokens, user, now);
      users := BumpVersion(users, user);
    }

    method RequestPasswordReset(user: UserId, id: TokenId, now: nat) returns (issued: bool)
      requires Valid()
      modifies this`resets
      ensures Valid() && Tables() == RequestReset(cfg, old(Tables()), user, id, now)
      ensures issued <==> user in users && users[user].active
      ensures if !issued then resets == old(resets)
              else
                && resets.Keys == old(resets).Keys + {id} && resets[id] == ResetToken(user, now + cfg.resetTtl, None)
                && forall k | k in old(resets) && k != id ::
                     resets[k] == if old(resets)[k].user == user && old(resets)[k].consumedAt.None?
                                  then old(resets)[k].(consumedAt := Some(now)) else old(resets)[k]
    {
      if user !in users || !users[user].active {
        return false;
      }
      resets := InvalidateResets(resets, user, now);
      resets := resets[id := ResetToken(user, now + cfg.resetTtl, None)];
      return true;
    }

    method ConfirmPasswordReset(id: TokenId, screened: bool, now: nat) returns (r: Result<(), AuthError>)
      requires Valid()
      modifies this
      ensures Valid() && Tables() == ConfirmReset(old(Tables()), id, screened, now)
      ensures monotone == (old(monotone) && old(clock) <= now) && clock == now
      ensures r == if !Redeemable(old(Tables()), id, now) then Err(InvalidOrExpiredToken)
                   else if !screened then Err(CompromisedPassword) else Ok(())
      ensures r.Err? ==> Tables() == old(Tables())
      ensures r.Ok? ==>
        var user := old(resets)[id].user;
        && SignOutSeen(old(Tables()), Tables(), user, now)
        && resets == old(resets)[id := old(resets)[id].(consumedAt := Some(now))]
    {
      hide StateOk, Stamped, SignOutSeen, RevokeUser, RevokesAt;
      RedemptionIsSeen(Tables(), id, screened, now);
      ResetIsGood(cfg, Tables(), 0, id, screened, now);
      if monotone && clock <= now {
        RedemptionRevokes(Tables(), id, screened, now);
        RevokingKeepsStamps(Tables(), ConfirmReset(Tables(), id, screened, now).tokens, clock, now);
      }
      monotone, clock := monotone && clock <= now, now;
      if id !in resets || resets[id].consumedAt.Some? || resets[id].expiresAt <= now
         || resets[id].user !in users || !users[resets[id].user].active {
        return Err(InvalidOrExpiredToken);
      }
      if !screened {
        return Err(CompromisedPassword);
      }
      var user := resets[id].user;
      resets := resets[id := resets[id].(consumedAt := Some(now))];
      users := BumpVersion(users, user);
      tokens := RevokeUser(tokens, user, now);
      return Ok(());
    }

    /** `purge_expired_auth_tokens`: the cutoff lies `retention` in the past. */
    method PurgeExpiredAuthTokens(now: nat)
      requires Valid()
      modifies this
      ensures Valid() && Tables() == Purge(old(Tables()), now - cfg.retention)
      ensures monotone == (old(monotone) && old(clock) <= now) && clock == now
      ensures monotone ==> forall id | id in tokens :: tokens[id] == old(tokens)[id]
      ensures forall id | Claimable(old(tokens), id, now) :: id in tokens
      ensures PurgeSeen(old(Tables()), Tables(), now - cfg.retention)
    {
      hide StateOk, Stamped, DeleteTokens, PurgedIds, Claimable, PurgeResets, PurgeSeen;
      PurgeIsSeen(Tables(), now - cfg.retention);
      var before := now - cfg.retention;
      PurgeIsGood(Tables(), before);
      UsableSurvive(tokens, now, before);
      if monotone && clock <= now {
        PurgeKeepsStamps(Tables(), before, clock, now);
      }
      monotone, clock := monotone && clock <= now, now;
      resets := PurgeResets(resets, before);
      tokens := DeleteTokens(tokens, PurgedIds(tokens, before));
    }

    method CloseStudentAccount(user: UserId)
      requires Valid()
      modifies this
      ensures Valid() && Tables() == CloseAccount(old(Tables()), user) && monotone == old(monotone)
      ensures clock == old(clock)
      ensures ClosureSeen(old(Tables()), Tables(), user)
    {
      hide StateOk, Stamped, ClosureSeen;
      ClosureIsSeen(Tables(), user);
      CloseIsGood(Tables(), user);
      if monotone {
        RevokingKeepsStamps(Tables(), CloseAccount(Tables(), user).tokens, clock, clock);
      }
      var owned := set id | id in tokens && tokens[id].user == user;
      users := users - {user};
      tokens := DeleteTokens(tokens, owned);
      resets := map id | id in resets && resets[id].user != user :: resets[id];
    }
  }

  lemma RefreshIsGood(cfg: Config, s: State, raw: TokenId, now: nat, replacement: TokenId)
    requires StateOk(s) && FreshToken(s.log, replacement)
    ensures GoodStep(s, Refreshed(cfg, s, raw, now, replacement))
  {
    hide StateOk, GoodStep, FreshToken, PendingOk, CommitRefresh;
    NothingIsGood(s);
    if ReadRefresh(s, raw, now).Some? {
      ReadIsOk(s, raw, now);
      CommitIsGood(cfg, s, ReadRefresh(s, raw, now).value, replacement);
    }
  }

  /** A purge under a clock that never stepped back keeps the stamps and every surviving row as it was. */
  lemma PurgeKeepsStamps(s: State, before: int, clock: nat, now: nat)
    requires StateOk(s) && Stamped(s.tokens, clock) && clock <= now
    ensures Stamped(Purge(s, before).tokens, now)
    ensures forall id | id in Purge(s, before).tokens :: id in s.tokens && Purge(s, before).tokens[id] == s.tokens[id]
  {
    hide StateOk;
    PurgeKeepsMarkers(s.tokens, before);
    RevokingKeepsStamps(s, Purge(s, before).tokens, clock, now);
  }

  lemma UsableSurvive(tokens: map<TokenId, Token>, now: nat, before: int)
    requires before <= now
    ensures forall id | Claimable(tokens, id, now) :: id in DeleteTokens(tokens, PurgedIds(tokens, before))
  {
    forall id | Claimable(tokens, id, now)
      ensures id in DeleteTokens(tokens, PurgedIds(tokens, before))
    {
      UsableTokensSurvivePurge(tokens, id, now, before);
    }
  }
}
