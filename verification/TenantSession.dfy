/** Database sessions: the tenant or bypass context they carry, and the settings transactions run under. */
module TenantSession {
  import opened Common
  import opened TenantPolicies

  /** What `session.info` holds: the bypass marker of system sessions, and the tenant once bound. */
  datatype Info = Info(bypass: bool, tenant: Option<UserId>)

  datatype Flag = Missing | Off | On

  /** The two PostgreSQL settings; an empty or missing tenant text reads as no tenant. */
  datatype Settings = Settings(bypass: Flag, tenant: Option<UserId>)

  /** What a connection has between transactions: nothing is ever set at session level. */
  const NOTHING := Settings(Missing, None)

  /** How the policy functions read the settings. */
  function ContextOf(s: Settings): Context {
    if s.bypass == On then Bypass else Bound(s.tenant)
  }

  /** What `_apply_postgres_context` sets for a session. */
  function Wanted(info: Info): Settings {
    if info.bypass then Settings(On, None) else Settings(Off, info.tenant)
  }

  datatype BindError = Privileged | TenantChange

  /**
   * A session and the transaction-local settings of its connection: none outside a transaction, and
   * inside one a level for the transaction and for each open savepoint, the last being in force.
   */
  datatype State = State(info: Info, levels: seq<Settings>)

  datatype Op = Begin | Savepoint | RollbackTo | Release | End | Bind(tenant: UserId)

  predicate CanStep(s: State, op: Op) {
    match op
    case Begin => s.levels == []
    case Savepoint => s.levels != []
    case RollbackTo => |s.levels| >= 2
    case Release => |s.levels| >= 2
    case End => s.levels != []
    case Bind(_) => true
  }

  function BindFault(info: Info, tenant: UserId): Option<BindError> {
    if info.bypass then Some(Privileged)
    else if info.tenant.Some? && info.tenant.value != tenant then Some(TenantChange)
    else None
  }

  function BoundTo(s: State, tenant: UserId): State {
    var info := s.info.(tenant := Some(tenant));
    State(info, if s.levels == [] then [] else s.levels[|s.levels| - 1 := Wanted(info)])
  }

  /** Beginning a transaction or a savepoint reapplies the context; ending a level drops what was set in it. */
  function Step(s: State, op: Op): State
    requires CanStep(s, op)
  {
    match op
    case Begin => s.(levels := [Wanted(s.info)])
    case Savepoint => s.(levels := s.levels + [Wanted(s.info)])
    case RollbackTo => s.(levels := s.levels[..|s.levels| - 1])
    case Release => s.(levels := s.levels[..|s.levels| - 2] + [s.levels[|s.levels| - 1]])
    case End => s.(levels := [])
    case Bind(tenant) => if BindFault(s.info, tenant).Some? then s else BoundTo(s, tenant)
  }

  function InForce(s: State): Settings {
    if s.levels == [] then NOTHING else s.levels[|s.levels| - 1]
  }

  // ---- Which context is in force ----------------------------------------------------------------

  /** The policies see the bypass in a system session and otherwise the tenant, if one is bound. */
  predicate Announces(settings: Settings, info: Info) {
    ContextOf(settings) == if info.bypass then Bypass else Bound(info.tenant)
  }

  /** Beginning a transaction, opening a savepoint and binding a tenant put the session's own context in force. */
  lemma ContextApplied(s: State, op: Op)
    requires CanStep(s, op) && (s.info.bypass ==> s.info.tenant.None?)
    ensures op.Begin? || op.Savepoint? ==> Announces(InForce(Step(s, op)), s.info) && Step(s, op).info == s.info
    ensures op.Bind? ==>
      if s.info.bypass || (s.info.tenant.Some? && s.info.tenant != Some(op.tenant)) then Step(s, op) == s
      else
        && Step(s, op).info == Info(false, Some(op.tenant))
        && (s.levels != [] ==> ContextOf(InForce(Step(s, op))) == Bound(Some(op.tenant)))
  {
  }

  /** How many levels are open afterwards, and that the levels below are left alone. */
  lemma LevelsKept(s: State, op: Op)
    requires CanStep(s, op)
    ensures var n := |s.levels|;
            var t := Step(s, op);
            match op
            case Begin => n == 0 && |t.levels| == 1
            case Savepoint => |t.levels| == n + 1 && t.levels[..n] == s.levels
            case RollbackTo => |t.levels| == n - 1 && t.levels == s.levels[..n - 1] && t.info == s.info
            case Release =>
              |t.levels| == n - 1 && t.levels[..n - 2] == s.levels[..n - 2] && InForce(t) == InForce(s)
              && t.info == s.info
            case End => t.levels == [] && t.info == s.info && ContextOf(InForce(t)) == Bound(None)
            case Bind(_) => |t.levels| == n && (n > 0 ==> t.levels[..n - 1] == s.levels[..n - 1])
  {
  }

  // ---- What every session keeps -----------------------------------------------------------------

  /** The session's own context, or (for an API session) none at all. */
  predicate Fits(info: Info, s: Settings) {
    s == Wanted(info) || (!info.bypass && s == Wanted(Info(false, None)))
  }

  /** A system session is never bound, and no level ever carries a foreign context. */
  ghost predicate Faithful(s: State) {
    && (s.info.bypass ==> s.info.tenant.None?)
    && forall i :: 0 <= i < |s.levels| ==> Fits(s.info, s.levels[i])
  }

  /** Every level carries exactly the session's context. */
  ghost predicate Exact(s: State) {
    forall i :: 0 <= i < |s.levels| ==> s.levels[i] == Wanted(s.info)
  }

  lemma StepKeepsFaithful(s: State, op: Op)
    requires Faithful(s) && CanStep(s, op)
    ensures Faithful(Step(s, op))
    ensures Step(s, op).info.bypass == s.info.bypass
    ensures s.info.tenant.Some? ==> Step(s, op).info.tenant == s.info.tenant
  {
  }

  /** The first binding of the session, made while a savepoint is open. */
  predicate BindsNested(s: State, op: Op) {
    op.Bind? && !s.info.bypass && s.info.tenant.None? && |s.levels| >= 2
  }

  /** Only a first binding inside a savepoint leaves an outer level without the context. */
  lemma StepKeepsExact(s: State, op: Op)
    requires Faithful(s) && Exact(s) && CanStep(s, op)
    ensures Exact(Step(s, op)) <==> !BindsNested(s, op)
  {
    if BindsNested(s, op) {
      assert Step(s, op).levels[0] == s.levels[0];
    }
  }

  ghost predicate IsRun(states: seq<State>, ops: seq<Op>) {
    && |states| == |ops| + 1
    && states[0].levels == [] && states[0].info.tenant.None?
    && forall i :: 0 <= i < |ops| ==> CanStep(states[i], ops[i]) && states[i + 1] == Step(states[i], ops[i])
  }

  /** Between two moments of a session its kind is fixed, and so is the tenant once there is one. */
  lemma {:induction false} SessionNeverChangesTenant(states: seq<State>, ops: seq<Op>, i: nat, j: nat)
    requires IsRun(states, ops) && i <= j < |states|
    ensures Faithful(states[j])
    ensures states[j].info.bypass == states[i].info.bypass
    ensures states[i].info.tenant.Some? ==> states[j].info.tenant == states[i].info.tenant
    decreases j
  {
    if j > 0 {
      SessionNeverChangesTenant(states, ops, if i < j then i else j - 1, j - 1);
      StepKeepsFaithful(states[j - 1], ops[j - 1]);
    }
  }

  /** Every transaction runs in the session's context throughout, exactly when no first binding is nested. */
  lemma {:induction false} ContextExactIffNotNested(states: seq<State>, ops: seq<Op>, n: nat)
    requires IsRun(states, ops) && n < |states|
    ensures (forall k :: 0 <= k <= n ==> Exact(states[k]))
      <==> (forall k :: 0 <= k < n ==> !BindsNested(states[k], ops[k]))
  {
    if n > 0 {
      ContextExactIffNotNested(states, ops, n - 1);
      SessionNeverChangesTenant(states, ops, n - 1, n - 1);
      if forall k :: 0 <= k <= n - 1 ==> Exact(states[k]) {
        StepKeepsExact(states[n - 1], ops[n - 1]);
        assert Exact(states[n]) <==> !BindsNested(states[n - 1], ops[n - 1]);
      }
    }
  }

  /** Concretely: after the savepoint is rolled back the transaction runs without the tenant just bound. */
  lemma NestedBindingIsLost(tenant: UserId) returns (states: seq<State>)
    ensures IsRun(states, [Begin, Savepoint, Bind(tenant), RollbackTo])
    ensures states[4].info.tenant == Some(tenant) && ContextOf(InForce(states[4])) == Bound(None)
  {
    var unbound, bound := Info(false, None), Info(false, Some(tenant));
    var outer := Wanted(unbound);
    states := [State(unbound, []), State(unbound, [outer]), State(unbound, [outer, outer]),
               State(bound, [outer, Wanted(bound)]), State(bound, [outer])];
  }

  /**
   * With the policies: at every moment of an API session the rows it selects are rows of the one
   * tenant the session is ever bound to, and all of them when its context is exact; a connection
   * between transactions selects nothing, so nothing carries over to its next session.
   */
  lemma SessionSelectsItsTenantsRows(states: seq<State>, ops: seq<Op>, k: nat, n: nat, db: Database)
    requires IsRun(states, ops) && k <= n < |states| && !states[0].info.bypass && Good(db)
    ensures forall key :: key in Selected(db, ContextOf(InForce(states[k]))) ==>
              states[n].info.tenant.Some? && OwnerOf(db, key) == states[n].info.tenant
    ensures states[k].levels != [] && Exact(states[k]) ==>
              forall key :: key in db && states[k].info.tenant.Some? && OwnerOf(db, key) == states[k].info.tenant ==>
                key in Selected(db, ContextOf(InForce(states[k])))
    ensures states[k].levels == [] ==> Selected(db, ContextOf(InForce(states[k]))) == map[]
  {
    SessionNeverChangesTenant(states, ops, 0, k);
    SessionNeverChangesTenant(states, ops, k, n);
    UnboundSeesNothing(db);
    var s := states[k];
    assert InForce(s) == NOTHING || Fits(s.info, InForce(s));
    forall key | key in db
      ensures Visible(db, s.info.tenant, key) <==> s.info.tenant.Some? && OwnerOf(db, key) == s.info.tenant
    {
      PoliciesMeanOwnership(db, s.info.tenant, key);
    }
  }

  // ---- The session and its connection as objects ------------------------------------------------

  class Connection {
    const postgres: bool
    var atSession: Settings
    var levels: seq<Settings>

    constructor (postgres: bool)
      ensures this.postgres == postgres && atSession == NOTHING && levels == []
    {
      this.postgres := postgres;
      atSession, levels := NOTHING, [];
    }

    /** `set_config(..., true)`: the current level only. */
    method SetLocal(bypass: Flag, tenant: Option<UserId>)
      requires levels != []
      modifies this`levels
      ensures levels == old(levels)[|old(levels)| - 1 := Settings(bypass, tenant)]
    {
      levels := levels[|levels| - 1 := levels[|levels| - 1].(bypass := bypass)];
      levels := levels[|levels| - 1 := levels[|levels| - 1].(tenant := tenant)];
    }
  }

  class Session {
    const bypass: bool
    var tenant: Option<UserId>
    const connection: Connection

    ghost function Snapshot(): State
      reads this, connection
    {
      State(Info(bypass, tenant), connection.levels)
    }

    /** On PostgreSQL no level carries a foreign context, and nothing is set beyond a transaction. */
    ghost predicate Valid()
      reads this, connection
    {
      connection.atSession == NOTHING && (connection.postgres ==> Faithful(Snapshot())) && (bypass ==> tenant.None?)
    }

    constructor (bypass: bool, connection: Connection)
      requires connection.levels == [] && connection.atSession == NOTHING
      ensures Valid() && this.connection == connection && Snapshot() == State(Info(bypass, None), [])
    {
      this.bypass, this.connection, tenant := bypass, connection, None;
    }

    /** `_apply_postgres_context`. */
    method ApplyContext()
      requires connection.levels != []
      modifies connection`levels
      ensures connection.levels ==
              if connection.postgres
              then old(connection.levels)[|old(connection.levels)| - 1 := Wanted(Info(bypass, tenant))]
              else old(connection.levels)
    {
      if !connection.postgres {
        return;
      }
      if bypass {
        connection.SetLocal(On, None);
        return;
      }
      connection.SetLocal(Off, tenant);
    }

    /** A transaction begins on the connection and the after-begin hook runs. */
    method BeginTransaction()
      requires Valid() && connection.levels == []
      modifies connection`levels
      ensures Valid() && connection.levels != []
      ensures connection.postgres ==> Snapshot() == Step(old(Snapshot()), Begin)
      ensures connection.postgres ==> connection.levels == [Settings(if bypass then On else Off, tenant)]
    {
      connection.levels := [connection.atSession];
      ApplyContext();
    }

    method BeginNested()
      requires Valid() && connection.levels != []
      modifies connection`levels
      ensures Valid() && connection.levels != []
      ensures connection.postgres ==> Snapshot() == Step(old(Snapshot()), Savepoint)
      ensures connection.postgres ==>
        connection.levels == old(connection.levels) + [Settings(if bypass then On else Off, tenant)]
    {
      connection.levels := connection.levels + [connection.levels[|connection.levels| - 1]];
      ApplyContext();
    }

    method EndNested(commit: bool)
      requires Valid() && |connection.levels| >= 2
      modifies connection`levels
      ensures Valid() && Snapshot() == Step(old(Snapshot()), if commit then Release else RollbackTo)
      ensures connection.levels[..|connection.levels| - 1] == old(connection.levels)[..|connection.levels| - 1]
      ensures connection.levels[|connection.levels| - 1] ==
              old(connection.levels)[if commit then |connection.levels| else |connection.levels| - 1]
    {
      var n := |connection.levels|;
      connection.levels :=
        if commit then connection.levels[..n - 2] + [connection.levels[n - 1]] else connection.levels[..n - 1];
    }

    /** Commit or rollback: transaction-local settings are gone, whoever uses the connection next. */
    method EndTransaction()
      requires Valid() && connection.levels != []
      modifies connection`levels
      ensures Valid() && Snapshot() == Step(old(Snapshot()), End)
      ensures connection.levels == [] && connection.atSession == NOTHING
    {
      connection.levels := [];
    }

    /** `bind_tenant_context`. */
    method BindTenant(tenantId: UserId) returns (r: Option<BindError>)
      requires Valid()
      modifies this`tenant, connection`levels
      ensures Valid()
      ensures r == BindFault(Info(bypass, old(tenant)), tenantId)
      ensures r == Some(Privileged) <==> bypass
      ensures r == Some(TenantChange) <==> !bypass && old(tenant).Some? && old(tenant) != Some(tenantId)
      ensures r.None? && connection.postgres && old(connection.levels) != [] ==>
        connection.levels == old(connection.levels)[|old(connection.levels)| - 1 := Settings(Off, Some(tenantId))]
      ensures r.Some? ==> Snapshot() == old(Snapshot())
      ensures r.None? ==> tenant == Some(tenantId) && old(tenant) in {None, Some(tenantId)}
      ensures connection.postgres ==> Snapshot() == Step(old(Snapshot()), Bind(tenantId))
    {
      if bypass {
        return Some(Privileged);
      }
      if tenant.Some? && tenant.value != tenantId {
        return Some(TenantChange);
      }
      StepKeepsFaithfulIf(connection.postgres, Snapshot(), Bind(tenantId));
      tenant := Some(tenantId);
      if connection.levels != [] {
        ApplyContext();
      }
      r := None;
    }
  }

  lemma StepKeepsFaithfulIf(postgres: bool, s: State, op: Op)
    requires (postgres ==> Faithful(s)) && CanStep(s, op)
    ensures postgres ==> Faithful(Step(s, op))
  {
  }
}
