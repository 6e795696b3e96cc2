/**
 * Which counters a request is charged to, with which limits (`_keys_for`, `_limit_for`, `dispatch`).
 *
 * Reading the client address, the bearer token and the body identifier out of the
 * HTTP request is a parameter.
 */
module RateLimitKeys {
  import opened Common
  import opened RateLimitBackend

  datatype RouteClass =
    | AuthLogin
    | AuthRegistration
    | AccountRecovery
    | AccountVerification
    | AdminReauthentication
    | Webauthn
    | Assistant
    | DocumentUpload
    | CommunityWrite

  datatype RateKey =
    | GlobalMinute(route: RouteClass)
    | GlobalDaily(route: RouteClass)
    | Ip(route: RouteClass, address: string)
    | Account(route: RouteClass, identifier: string)
    | Token(route: RouteClass, identifier: string)
    | User(route: RouteClass, user: string)

  /** A limit the settings validate to be at least one. */
  type Limit = n: nat | n >= 1 witness 1

  datatype Settings = Settings(
    loginGlobal: Limit, login: Limit, registration: Limit, recovery: Limit, verification: Limit,
    reauthentication: Limit, webauthn: Limit, assistant: Limit, documentUpload: Limit, communityWrite: Limit,
    assistantDaily: Limit, documentDaily: Limit,
    maxAttempts: Option<nat>, windowSeconds: nat, backend: Backend)

  /** `path` and body boiled down to what the middleware branches on. */
  datatype Request = Request(route: Option<RouteClass>, address: string, user: string,
                             identifier: Option<string>, confirms: bool)

  /** `self.max_attempts or ...`: zero counts as absent. */
  function OrElse(override: Option<nat>, setting: Limit): Limit {
    if override.Some? && override.value != 0 then override.value else setting
  }

  function LimitFor(s: Settings, route: RouteClass): Limit {
    match route
    case AuthLogin => OrElse(s.maxAttempts, s.login)
    case AuthRegistration => OrElse(s.maxAttempts, s.registration)
    case AccountRecovery => s.recovery
    case AccountVerification => s.verification
    case AdminReauthentication => s.reauthentication
    case Webauthn => s.webauthn
    case Assistant => s.assistant
    case DocumentUpload => s.documentUpload
    case CommunityWrite => s.communityWrite
  }

  function KeysFor(r: Request, route: RouteClass): seq<RateKey> {
    [Ip(route, r.address)] +
    match route
    case AuthLogin | AuthRegistration | AccountRecovery =>
      if r.identifier.Some? then [Account(route, r.identifier.value)] else []
    case AccountVerification =>
      if !r.confirms then [User(route, r.user)]
      else if r.identifier.Some? then [Token(route, r.identifier.value)] else []
    case _ => [User(route, r.user)]
  }

  /** The protected global counter of a route, charged before the client's own keys. */
  function GlobalKeys(route: RouteClass): seq<RateKey> {
    match route
    case AuthLogin => [GlobalMinute(route)]
    case Assistant | DocumentUpload => [GlobalDaily(route)]
    case _ => []
  }

  /** All keys a request is charged to, in order, when nothing blocks it. */
  function Charged(r: Request): seq<RateKey> {
    if r.route.None? then [] else GlobalKeys(r.route.value) + KeysFor(r, r.route.value)
  }

  const DAY := 86_400

  /** The limit and window of a key are determined by the key alone. */
  function LimitOf(s: Settings, key: RateKey): Limit {
    match key
    case GlobalMinute(_) => s.loginGlobal
    case GlobalDaily(route) => if route.Assistant? then s.assistantDaily else s.documentDaily
    case _ => LimitFor(s, key.route)
  }

  function WindowOf(s: Settings, key: RateKey): nat {
    if key.GlobalDaily? then DAY else s.windowSeconds
  }

  // ---- The charges, key by key ------------------------------------------------------------------

  /** The route is limited by the account named in the body. */
  predicate NamesAccount(route: RouteClass) {
    route in {AuthLogin, AuthRegistration, AccountRecovery}
  }

  /** The request counts against the key: by address always, by who it is for, and by shared capacity. */
  predicate ChargedTo(r: Request, key: RateKey) {
    && r.route == Some(key.route)
    && match key
       case Ip(_, address) => address == r.address
       case Account(route, identifier) => NamesAccount(route) && r.identifier == Some(identifier)
       case Token(route, identifier) => route == AccountVerification && r.confirms && r.identifier == Some(identifier)
       case User(route, user) =>
         user == r.user && !NamesAccount(route) && (route == AccountVerification ==> !r.confirms)
       case GlobalMinute(route) => route == AuthLogin
       case GlobalDaily(route) => route in {Assistant, DocumentUpload}
  }

  /** A request is charged to exactly those keys, to each once. */
  lemma ChargedExactly(r: Request)
    ensures forall key :: key in Charged(r) <==> ChargedTo(r, key)
    ensures forall i, j | 0 <= i < j < |Charged(r)| :: Charged(r)[i] != Charged(r)[j]
  {
  }

  /** The key that says who a request is for. */
  predicate IsIdentity(key: RateKey) {
    key.Account? || key.Token? || key.User?
  }

  /** It is charged last, the shared capacity first. */
  lemma ChargeOrder(r: Request, key: RateKey)
    requires ChargedTo(r, key)
    ensures |Charged(r)| > 0
    ensures IsIdentity(key) ==> Charged(r)[|Charged(r)| - 1] == key
    ensures key.GlobalMinute? || key.GlobalDaily? ==> Charged(r)[0] == key
  {
  }

  // ---- The limits, key by key -------------------------------------------------------------------

  /** The override of the tests, where it applies and is not zero. */
  function Overridden(s: Settings, setting: Limit): Limit {
    if s.maxAttempts in {None, Some(0)} then setting else s.maxAttempts.value
  }

  /** The setting behind every key, and its window. */
  lemma LimitsAsConfigured(s: Settings, key: RateKey)
    ensures key.GlobalMinute? ==> LimitOf(s, key) == s.loginGlobal
    ensures key == GlobalDaily(Assistant) ==> LimitOf(s, key) == s.assistantDaily
    ensures key == GlobalDaily(DocumentUpload) ==> LimitOf(s, key) == s.documentDaily
    ensures !key.GlobalMinute? && !key.GlobalDaily? ==>
      LimitOf(s, key) ==
        if key.route == AuthLogin then Overridden(s, s.login)
        else if key.route == AuthRegistration then Overridden(s, s.registration)
        else if key.route == AccountRecovery then s.recovery
        else if key.route == AccountVerification then s.verification
        else if key.route == AdminReauthentication then s.reauthentication
        else if key.route == Webauthn then s.webauthn
        else if key.route == Assistant then s.assistant
        else if key.route == DocumentUpload then s.documentUpload
        else s.communityWrite
    ensures WindowOf(s, key) == if key.GlobalDaily? then 24 * 60 * 60 else s.windowSeconds
  {
  }

  /** Every key of the list carries this limit and window. */
  ghost predicate FollowsPolicy(s: Settings, keys: seq<RateKey>, maximum: Limit, windowSeconds: nat) {
    forall i | 0 <= i < |keys| :: LimitOf(s, keys[i]) == maximum && WindowOf(s, keys[i]) == windowSeconds
  }

  /** The limit and window `dispatch` passes are those of the keys it passes them with. */
  lemma KeysFollowPolicy(s: Settings, r: Request, route: RouteClass)
    ensures FollowsPolicy(s, KeysFor(r, route), LimitFor(s, route), s.windowSeconds)
    ensures route.AuthLogin? ==> FollowsPolicy(s, GlobalKeys(route), s.loginGlobal, s.windowSeconds)
    ensures route.Assistant? ==> FollowsPolicy(s, GlobalKeys(route), s.assistantDaily, DAY)
    ensures route.DocumentUpload? ==> FollowsPolicy(s, GlobalKeys(route), s.documentDaily, DAY)
  {
  }
}
