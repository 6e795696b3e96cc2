/**
 * The tables behind refresh-token rotation (`app/modules/auth`): users, refresh
 * tokens and password-reset tokens, the statements the repository issues on them,
 * and what makes a token table a forest of rotation chains.
 *
 * A raw token is identified with the primary key of its row: hashes are unique.
 * Two histories are kept beside the tables, for statements about whole runs: `log`,
 * every refresh token ever issued, and `claims`, every access token ever issued.
 * Instants are counts of an arbitrary unit.
 */
module RefreshTokens {
  import opened Common

  type TokenId = nat
  type UserId = nat
  type FamilyId = nat

  datatype User = User(role: nat, active: bool, version: nat)

  datatype Token = Token(user: UserId, family: FamilyId, expiresAt: nat, revokedAt: Option<nat>,
                         replacedBy: Option<TokenId>)

  datatype ResetToken = ResetToken(user: UserId, expiresAt: nat, consumedAt: Option<nat>)

  /** A refresh token as issued. */
  datatype Issue = Issue(id: TokenId, user: UserId, family: FamilyId)

  /** The payload of an access token. */
  datatype Claims = Claims(user: UserId, role: nat, version: nat)

  datatype State = State(
    users: map<UserId, User>, tokens: map<TokenId, Token>, resets: map<TokenId, ResetToken>,
    log: seq<Issue>, claims: seq<Claims>)

  /** Lifetimes; the settings validate all of them to be at least a day. */
  datatype Config = Config(refreshTtl: nat, resetTtl: nat, retention: nat)

  const EMPTY := State(map[], map[], map[], [], [])

  // ---- Statements of the repository -------------------------------------------------------------

  /** UPDATE ... SET revoked_at WHERE family_id = ... AND revoked_at IS NULL */
  function RevokeFamily(tokens: map<TokenId, Token>, family: FamilyId, at: nat): map<TokenId, Token> {
    map id | id in tokens ::
      if tokens[id].family == family && tokens[id].revokedAt.None?
      then tokens[id].(revokedAt := Some(at)) else tokens[id]
  }

  /** UPDATE ... SET revoked_at WHERE user_id = ... AND revoked_at IS NULL */
  function RevokeUser(tokens: map<TokenId, Token>, user: UserId, at: nat): map<TokenId, Token> {
    map id | id in tokens ::
      if tokens[id].user == user && tokens[id].revokedAt.None? then tokens[id].(revokedAt := Some(at)) else tokens[id]
  }

  /** The guard of `claim_refresh_token_rotation`. */
  predicate Claimable(tokens: map<TokenId, Token>, id: TokenId, now: nat) {
    id in tokens && tokens[id].revokedAt.None? && tokens[id].expiresAt > now
  }

  /** DELETE of a set of rows, with ON DELETE SET NULL on `replaced_by_token_id`. */
  function DeleteTokens(tokens: map<TokenId, Token>, gone: set<TokenId>): map<TokenId, Token> {
    map id | id in tokens && id !in gone ::
      var t := tokens[id];
      if t.replacedBy.Some? && t.replacedBy.value in gone then t.(replacedBy := None) else t
  }

  /** Revoked or expired at or before the retention cutoff. */
  predicate Purgeable(t: Token, before: int) {
    (t.revokedAt.Some? && t.revokedAt.value <= before) || t.expiresAt <= before
  }

  function PurgedIds(tokens: map<TokenId, Token>, before: int): set<TokenId> {
    set id | id in tokens && Purgeable(tokens[id], before)
  }

  function BumpVersion(users: map<UserId, User>, user: UserId): map<UserId, User> {
    if user in users then users[user := users[user].(version := users[user].version + 1)] else users
  }

  function InvalidateResets(resets: map<TokenId, ResetToken>, user: UserId, at: nat): map<TokenId, ResetToken> {
    map id | id in resets ::
      if resets[id].user == user && resets[id].consumedAt.None? then resets[id].(consumedAt := Some(at)) else resets[id]
  }

  /** `get_current_user`: whether an access token is honoured. */
  predicate Accepts(users: map<UserId, User>, c: Claims) {
    c.user in users && users[c.user].active && users[c.user].role == c.role && users[c.user].version == c.version
  }

  // ---- Rotation chains in the issue log ---------------------------------------------------------

  /** The latest token issued in a family. */
  function LastOf(log: seq<Issue>, family: FamilyId): Option<TokenId> {
    if log == [] then None else
      var e := log[|log| - 1];
      if e.family == family then Some(e.id) else LastOf(log[..|log| - 1], family)
  }

  /** The token issued next in the family of `id`. */
  function Next(log: seq<Issue>, id: TokenId): Option<TokenId> {
    if log == [] then None else
      var (before, e) := (log[..|log| - 1], log[|log| - 1]);
      var next := Next(before, id);
      if next.Some? then next else if LastOf(before, e.family) == Some(id) then Some(e.id) else None
  }

  predicate FreshToken(log: seq<Issue>, id: TokenId) {
    forall i | 0 <= i < |log| :: log[i].id != id
  }

  predicate FreshFamily(log: seq<Issue>, family: FamilyId) {
    forall i | 0 <= i < |log| :: log[i].family != family
  }

  /** Identifiers are never reused and a family belongs to one user. */
  ghost predicate LogOk(log: seq<Issue>) {
    && (forall i, j | 0 <= i < j < |log| :: log[i].id != log[j].id)
    && (forall i, j | 0 <= i < j < |log| && log[i].family == log[j].family :: log[i].user == log[j].user)
  }

  lemma LastOfSnoc(log: seq<Issue>, e: Issue, family: FamilyId)
    ensures LastOf(log + [e], family) == if e.family == family then Some(e.id) else LastOf(log, family)
  {
    assert (log + [e])[..|log|] == log;
  }

  lemma NextSnoc(log: seq<Issue>, e: Issue, id: TokenId)
    ensures Next(log + [e], id)
         == if Next(log, id).Some? then Next(log, id)
            else if LastOf(log, e.family) == Some(id) then Some(e.id) else None
  {
    assert (log + [e])[..|log|] == log;
  }

  lemma {:induction false} LastOfIsLogged(log: seq<Issue>, family: FamilyId)
    ensures match LastOf(log, family)
            case None => FreshFamily(log, family)
            case Some(id) => exists i ::
              && 0 <= i < |log| && log[i].id == id && log[i].family == family
              && forall k | i < k < |log| :: log[k].family != family
  {
    if log != [] {
      var n := |log| - 1;
      LastOfIsLogged(log[..n], family);
      if log[n].family != family && LastOf(log[..n], family).Some? {
        var i :| 0 <= i < n && log[..n][i].id == LastOf(log, family).value && log[i].family == family
                 && forall k | i < k < n :: log[..n][k].family != family;
        assert log[i].id == LastOf(log, family).value;
        assert forall k | i < k < |log| :: k < n ==> log[k] == log[..n][k];
      }
    }
  }

  /** `b` follows `a` in the log as the very next token of the same family. */
  ghost predicate FollowsAt(log: seq<Issue>, i: nat, j: nat) {
    && i < j < |log| && log[i].family == log[j].family
    && forall k | i < k < j :: log[k].family != log[i].family
  }

  /** `Next` means what it says: issued later, same family, nothing of the family in between. */
  lemma {:induction false} NextFollows(log: seq<Issue>, id: TokenId) returns (i: nat, j: nat)
    requires Next(log, id).Some?
    ensures FollowsAt(log, i, j) && log[i].id == id && log[j].id == Next(log, id).value
  {
    var n := |log| - 1;
    var before := log[..n];
    if Next(before, id).Some? {
      i, j := NextFollows(before, id);
      assert forall k | i < k < j :: log[k] == before[k];
    } else {
      LastOfIsLogged(before, log[n].family);
      i :| 0 <= i < n && before[i].id == id && before[i].family == log[n].family
           && forall k | i < k < n :: before[k].family != log[n].family;
      j := n;
      assert forall k | i < k < n :: log[k] == before[k];
    }
  }

  lemma IssueUnique(log: seq<Issue>, i: nat, j: nat)
    requires LogOk(log) && i < |log| && j < |log| && log[i].id == log[j].id
    ensures i == j
  {
  }

  /** No token is the successor of two. */
  lemma NextInjective(log: seq<Issue>, a: TokenId, b: TokenId)
    requires LogOk(log) && Next(log, a).Some? && Next(log, a) == Next(log, b)
    ensures a == b
  {
    var i, j := NextFollows(log, a);
    var k, l := NextFollows(log, b);
    IssueUnique(log, j, l);
  }

  /** The latest token of a family has no successor yet. */
  lemma LastHasNoNext(log: seq<Issue>, family: FamilyId, id: TokenId)
    requires LogOk(log) && LastOf(log, family) == Some(id)
    ensures Next(log, id) == None
  {
    hide LogOk;
    LastOfIsLogged(log, family);
    var i: nat :| i < |log| && log[i].id == id && log[i].family == family
                  && forall k | i < k < |log| :: log[k].family != family;
    if Next(log, id).Some? {
      var k, j := NextFollows(log, id);
      IssueUnique(log, i, k);
      assert false;
    }
  }

  // ---- What the token table keeps ---------------------------------------------------------------

  /** One row, against the log and the rest of the table. */
  ghost predicate TokenOk(users: map<UserId, User>, tokens: map<TokenId, Token>, log: seq<Issue>, id: TokenId)
    requires id in tokens
  {
    var t := tokens[id];
    && t.user in users
    && Issue(id, t.user, t.family) in log
    && (t.revokedAt.None? ==> LastOf(log, t.family) == Some(id))
    && (t.replacedBy.Some? ==> t.revokedAt.Some? && Next(log, id) == t.replacedBy && t.replacedBy.value in tokens)
  }

  ghost predicate TokensOk(users: map<UserId, User>, tokens: map<TokenId, Token>, log: seq<Issue>) {
    LogOk(log) && forall id | id in tokens :: TokenOk(users, tokens, log, id)
  }

  /** No usable link to the family: it was issued and holds no unrevoked token. */
  ghost predicate Dead(s: State, family: FamilyId) {
    && !FreshFamily(s.log, family)
    && forall id | id in s.tokens && s.tokens[id].family == family :: s.tokens[id].revokedAt.Some?
  }

  /**
   * A family is a chain: one live token at most, which is the tail; a token has one
   * replacement and one predecessor; links stay inside family and user and lead
   * strictly forward in issue order, so they cannot form a cycle.
   */
  lemma FamilyIsChain(users: map<UserId, User>, tokens: map<TokenId, Token>, log: seq<Issue>, a: TokenId, b: TokenId)
    requires TokensOk(users, tokens, log) && a in tokens && b in tokens
    ensures a != b && tokens[a].family == tokens[b].family ==> tokens[a].revokedAt.Some? || tokens[b].revokedAt.Some?
    ensures tokens[a].replacedBy.Some? && tokens[a].replacedBy == tokens[b].replacedBy ==> a == b
    ensures tokens[a].replacedBy == Some(b) ==>
      && tokens[a].family == tokens[b].family && tokens[a].user == tokens[b].user && tokens[a].revokedAt.Some?
      && exists i: nat, j: nat :: FollowsAt(log, i, j) && log[i].id == a && log[j].id == b
    ensures tokens[a].revokedAt.None? ==> tokens[a].replacedBy.None? && LastOf(log, tokens[a].family) == Some(a)
  {
    assert TokenOk(users, tokens, log, a) && TokenOk(users, tokens, log, b);
    if tokens[a].replacedBy.Some? && tokens[a].replacedBy == tokens[b].replacedBy {
      NextInjective(log, a, b);
    }
    if tokens[a].replacedBy == Some(b) {
      var i, j := NextFollows(log, a);
      LoggedOnce(log, Issue(a, tokens[a].user, tokens[a].family), i);
      LoggedOnce(log, Issue(b, tokens[b].user, tokens[b].family), j);
    }
  }

  lemma LoggedOnce(log: seq<Issue>, e: Issue, i: nat)
    requires LogOk(log) && e in log && i < |log| && log[i].id == e.id
    ensures log[i] == e
  {
    var j :| 0 <= j < |log| && log[j] == e;
    IssueUnique(log, i, j);
  }

  /** An update that creates nothing, revives nothing and links nothing. */
  ghost predicate Retires(before: map<TokenId, Token>, after: map<TokenId, Token>) {
    forall id | id in after ::
      && id in before
      && after[id].user == before[id].user && after[id].family == before[id].family
      && (before[id].revokedAt.Some? ==> after[id].revokedAt.Some?)
      && (after[id].replacedBy.Some? ==>
            after[id].replacedBy == before[id].replacedBy && after[id].replacedBy.value in after)
  }

  lemma RetiringKeepsTokensOk(users: map<UserId, User>, users': map<UserId, User>,
                              before: map<TokenId, Token>, after: map<TokenId, Token>, log: seq<Issue>)
    requires TokensOk(users, before, log) && Retires(before, after)
    requires forall id | id in after :: after[id].user in users ==> after[id].user in users'
    ensures TokensOk(users', after, log)
  {
    hide LogOk, LastOf, Next;
    forall id | id in after
      ensures TokenOk(users', after, log, id)
    {
      assert TokenOk(users, before, log, id);
    }
  }

  /** A family without a live token still has none after a retiring update. */
  lemma RetiringKeepsDead(s: State, t: State, family: FamilyId)
    requires Dead(s, family) && Retires(s.tokens, t.tokens) && t.log == s.log
    ensures Dead(t, family)
  {
  }

  lemma RevokingRetires(users: map<UserId, User>, tokens: map<TokenId, Token>, log: seq<Issue>, family: FamilyId,
                        user: UserId, at: nat)
    requires TokensOk(users, tokens, log)
    ensures Retires(tokens, RevokeFamily(tokens, family, at)) && Retires(tokens, RevokeUser(tokens, user, at))
  {
    forall id | id in tokens
      ensures tokens[id].replacedBy.Some? ==> tokens[id].replacedBy.value in tokens
    {
      assert TokenOk(users, tokens, log, id);
    }
  }

  lemma DeletingRetires(users: map<UserId, User>, tokens: map<TokenId, Token>, log: seq<Issue>, gone: set<TokenId>)
    requires TokensOk(users, tokens, log)
    ensures Retires(tokens, DeleteTokens(tokens, gone))
  {
    forall id | id in tokens
      ensures tokens[id].replacedBy.Some? ==> tokens[id].replacedBy.value in tokens
    {
      assert TokenOk(users, tokens, log, id);
    }
  }

  /** The first token of a new family. */
  lemma IssuingKeepsTokensOk(users: map<UserId, User>, tokens: map<TokenId, Token>, log: seq<Issue>,
                             e: Issue, expiresAt: nat)
    requires TokensOk(users, tokens, log) && e.user in users
    requires FreshToken(log, e.id) && FreshFamily(log, e.family)
    ensures TokensOk(users, tokens[e.id := Token(e.user, e.family, expiresAt, None, None)], log + [e])
  {
    var tokens' := tokens[e.id := Token(e.user, e.family, expiresAt, None, None)];
    LastOfIsLogged(log, e.family);
    forall id | id in tokens'
      ensures TokenOk(users, tokens', log + [e], id)
    {
      LastOfSnoc(log, e, tokens'[id].family);
      NextSnoc(log, e, id);
      if id != e.id {
        assert TokenOk(users, tokens, log, id);
        assert tokens[id].family != e.family by { Logged(log, Issue(id, tokens[id].user, tokens[id].family)); }
      }
    }
  }

  lemma Logged(log: seq<Issue>, e: Issue)
    requires e in log
    ensures exists i | 0 <= i < |log| :: log[i] == e
  {
  }

  /** Claim, insert and link, as one transaction. */
  function RotateTokens(tokens: map<TokenId, Token>, id: TokenId, replacement: TokenId, expiresAt: nat,
                        now: nat): map<TokenId, Token>
    requires id in tokens
  {
    var t := tokens[id];
    tokens[id := t.(revokedAt := Some(now), replacedBy := Some(replacement))]
          [replacement := Token(t.user, t.family, expiresAt, None, None)]
  }

  /** Rotating the live token of a family extends its chain by one. */
  lemma RotatingKeepsTokensOk(users: map<UserId, User>, tokens: map<TokenId, Token>, log: seq<Issue>,
                              id: TokenId, replacement: TokenId, expiresAt: nat, now: nat)
    requires TokensOk(users, tokens, log) && id in tokens && tokens[id].revokedAt.None? && FreshToken(log, replacement)
    ensures var e := Issue(replacement, tokens[id].user, tokens[id].family);
            TokensOk(users, RotateTokens(tokens, id, replacement, expiresAt, now), log + [e])
  {
    var e := Issue(replacement, tokens[id].user, tokens[id].family);
    var tokens' := RotateTokens(tokens, id, replacement, expiresAt, now);
    assert TokenOk(users, tokens, log, id);
    Logged(log, Issue(id, tokens[id].user, tokens[id].family));
    LastHasNoNext(log, e.family, id);
    assert LogOk(log + [e]) by { LogExtends(log, e, Issue(id, e.user, e.family)); }
    forall k | k in tokens'
      ensures TokenOk(users, tokens', log + [e], k)
    {
      LastOfSnoc(log, e, tokens'[k].family);
      NextSnoc(log, e, k);
      if k != replacement && k != id {
        assert TokenOk(users, tokens, log, k);
      }
    }
  }

  lemma LogExtends(log: seq<Issue>, e: Issue, sibling: Issue)
    requires LogOk(log) && FreshToken(log, e.id)
    requires sibling in log && sibling.family == e.family && sibling.user == e.user
    ensures LogOk(log + [e])
  {
    var j :| 0 <= j < |log| && log[j] == sibling;
  }
}
