/** Writes under the policies: tenants stay apart, and each works as if alone in the database. */
module TenantWrites {
  import opened Common
  import opened TenantPolicies

  datatype Write =
    | Insert(key: Key, row: Row)
    | Update(key: Key, row: Row)
    | Delete(key: Key)

  // ---- What a deletion takes with it ------------------------------------------------------------

  /** The row goes too: it is the one deleted, or a cascading column leads to one that goes. */
  ghost predicate Doomed(db: Database, root: Key, key: Key)
    decreases Rank(key.table)
  {
    PoliciesWellFounded(key.table);
    && key in db && Shaped(key.table, db[key])
    && (key == root || exists i :: Follows(db, key, i, Cascade) && Doomed(db, root, Parent(key.table, db[key], i)))
  }

  /** The row's `i`-th column is filled and reacts to its parent's deletion in the given way. */
  predicate Follows(db: Database, key: Key, i: nat, how: OnDelete)
    requires key in db && Shaped(key.table, db[key])
  {
    i < |db[key].refs| && db[key].refs[i].Some? && PolicyOf(key.table).refs[i].onDelete == how
  }

  /** Some surviving row holds a RESTRICT column on a row that would go. */
  ghost predicate Held(db: Database, root: Key) {
    exists key, i :: key in db && Shaped(key.table, db[key]) && !Doomed(db, root, key)
                     && Follows(db, key, i, Restrict) && Doomed(db, root, Parent(key.table, db[key], i))
  }

  /** A surviving row afterwards: SET NULL columns to rows that went are cleared. */
  ghost function Cleared(db: Database, root: Key, key: Key): Row
    requires key in db && Shaped(key.table, db[key])
  {
    var row := db[key];
    row.(refs := seq(|row.refs|, i requires 0 <= i < |row.refs| =>
      if Follows(db, key, i, SetNull) && Doomed(db, root, Parent(key.table, row, i)) then None else row.refs[i]))
  }

  ghost function Removed(db: Database, root: Key): Database {
    map key | key in db && Shaped(key.table, db[key]) && !Doomed(db, root, key) :: Cleared(db, root, key)
  }

  // ---- One statement of a tenant session --------------------------------------------------------

  /** A statement touches only rows USING lets through and leaves only rows WITH CHECK lets through. */
  ghost predicate Permitted(db: Database, user: UserId, w: Write) {
    match w
    case Insert(key, row) => key !in db && Shaped(key.table, row) && Passes(db, Some(user), key.table, row)
    case Update(key, row) =>
      Visible(db, Some(user), key) && Shaped(key.table, row) && Passes(db, Some(user), key.table, row)
    case Delete(key) => Visible(db, Some(user), key) && !Held(db, key)
  }

  ghost function Effect(db: Database, w: Write): Database {
    match w
    case Insert(key, row) => db[key := row]
    case Update(key, row) => db[key := row]
    case Delete(key) => Removed(db, key)
  }

  /** A refused statement changes nothing. */
  ghost function Apply(db: Database, user: UserId, w: Write): Database {
    if Permitted(db, user, w) then Effect(db, w) else db
  }

  // ---- Owners under writes ----------------------------------------------------------------------

  /** The row was there before with the same owner column and the same way to its root. */
  ghost predicate SameRoot(before: Database, after: Database, key: Key)
    requires key in after
  {
    && key in before && Shaped(key.table, before[key]) && Shaped(key.table, after[key])
    && before[key].owner == after[key].owner
    && (!PolicyOf(key.table).owned ==>
          |before[key].refs| > 0 && before[key].refs[0] == after[key].refs[0] && after[key].refs[0].Some?
          && Parent(key.table, after[key], 0) in after)
  }

  ghost predicate SameRoots(before: Database, after: Database) {
    forall key :: key in after ==> SameRoot(before, after, key)
  }

  lemma {:induction false} OwnersKept(before: Database, after: Database, key: Key)
    requires SameRoots(before, after) && key in after
    ensures OwnerOf(after, key) == OwnerOf(before, key)
    decreases Rank(key.table)
  {
    PoliciesWellFounded(key.table);
    assert SameRoot(before, after, key);
    if !PolicyOf(key.table).owned {
      OwnersKept(before, after, Parent(key.table, after[key], 0));
    }
  }

  /** Storing a row of the owner already there, or of a new key, changes no other row's owner. */
  lemma {:induction false} OwnersUnderStore(db: Database, key: Key, row: Row, k: Key)
    requires Good(db) && RowIntact(db, key.table, row)
    requires key in db ==> RowOwner(db, key.table, row) == OwnerOf(db, key)
    requires k == key || k in db
    ensures OwnerOf(db[key := row], k) == if k == key then RowOwner(db, key.table, row) else OwnerOf(db, k)
    decreases Rank(k.table)
  {
    var t := db[key := row];
    PoliciesWellFounded(k.table);
    if k != key {
      assert RowGood(db, k.table, db[k]);
    }
    if !PolicyOf(k.table).owned {
      var p := Parent(k.table, t[k], 0);
      OwnersUnderStore(db, key, row, p);
    }
  }

  lemma StoreKeepsGood(db: Database, user: UserId, key: Key, row: Row)
    requires Good(db) && Shaped(key.table, row) && Passes(db, Some(user), key.table, row)
    requires key !in db || OwnerOf(db, key) == Some(user)
    ensures Good(db[key := row])
    ensures OwnerOf(db[key := row], key) == Some(user)
    ensures forall k :: k in db && k != key ==> OwnerOf(db[key := row], k) == OwnerOf(db, k)
  {
    var t := db[key := row];
    PassingMeansOwned(db, Some(user), key.table, row);
    forall k | k in t
      ensures OwnerOf(t, k) == if k == key then Some(user) else OwnerOf(db, k)
    {
      OwnersUnderStore(db, key, row, k);
    }
    forall k | k in t
      ensures RowGood(t, k.table, t[k])
    {
      assert k != key ==> RowGood(db, k.table, db[k]);
    }
  }

  /** A cascade never leaves the family: every row that goes had the owner of the row deleted. */
  lemma {:induction false} DoomedAreOwned(db: Database, root: Key, key: Key)
    requires Good(db) && Doomed(db, root, key)
    ensures OwnerOf(db, key) == OwnerOf(db, root) && root in db
    decreases Rank(key.table)
  {
    if key != root {
      PoliciesWellFounded(key.table);
      var i :| Follows(db, key, i, Cascade) && Doomed(db, root, Parent(key.table, db[key], i));
      assert RowGood(db, key.table, db[key]);
      DoomedAreOwned(db, root, Parent(key.table, db[key], i));
    }
  }

  lemma ClearedKeepsShape(db: Database, root: Key, key: Key)
    requires key in db && Shaped(key.table, db[key])
    ensures var row := Cleared(db, root, key);
            && Shaped(key.table, row) && row.owner == db[key].owner && row.data == db[key].data
            && forall i: nat :: i < |row.refs| ==>
                 row.refs[i] ==
                   if Follows(db, key, i, SetNull) && Doomed(db, root, Parent(key.table, db[key], i))
                   then None else db[key].refs[i]
  {
    PoliciesWellFounded(key.table);
  }

  /** A surviving row's mandatory parents survive with it. */
  lemma SurvivorKeepsParents(db: Database, root: Key, key: Key, i: nat)
    requires Good(db) && !Held(db, root) && key in Removed(db, root)
    requires i < |Cleared(db, root, key).refs| && Cleared(db, root, key).refs[i].Some?
    ensures db[key].refs[i] == Cleared(db, root, key).refs[i]
    ensures Parent(key.table, db[key], i) in Removed(db, root)
  {
    ClearedKeepsShape(db, root, key);
    assert RowGood(db, key.table, db[key]);
    var p := Parent(key.table, db[key], i);
    assert RowGood(db, p.table, db[p]);
    var how := PolicyOf(key.table).refs[i].onDelete;
    assert Follows(db, key, i, how);
    assert how.Cascade? || how.SetNull? || how.Restrict?;
  }

  lemma RemovedKeepsRoots(db: Database, root: Key)
    requires Good(db) && !Held(db, root)
    ensures SameRoots(db, Removed(db, root))
  {
    hide Doomed, Held, Cleared;
    var t := Removed(db, root);
    forall key | key in t
      ensures SameRoot(db, t, key)
    {
      ClearedKeepsShape(db, root, key);
      PoliciesWellFounded(key.table);
      if !PolicyOf(key.table).owned {
        SurvivorKeepsParents(db, root, key, 0);
      }
    }
  }

  lemma RemovedKeepsGood(db: Database, root: Key)
    requires Good(db) && !Held(db, root)
    ensures Good(Removed(db, root))
    ensures forall k :: k in Removed(db, root) ==> OwnerOf(Removed(db, root), k) == OwnerOf(db, k)
  {
    hide Doomed, Held, Cleared;
    var t := Removed(db, root);
    RemovedKeepsRoots(db, root);
    forall k | k in t
      ensures OwnerOf(t, k) == OwnerOf(db, k)
    {
      OwnersKept(db, t, k);
    }
    forall k | k in t
      ensures RowGood(t, k.table, t[k])
    {
      ClearedKeepsShape(db, root, k);
      assert RowGood(db, k.table, db[k]);
      forall i: nat | i < |t[k].refs| && t[k].refs[i].Some?
        ensures Parent(k.table, t[k], i) in t && OwnerOf(t, Parent(k.table, t[k], i)) == RowOwner(t, k.table, t[k])
      {
        SurvivorKeepsParents(db, root, k, i);
      }
    }
  }

  // ---- Every permitted statement keeps owners in agreement --------------------------------------

  lemma ApplyKeepsGood(db: Database, user: UserId, w: Write)
    requires Good(db)
    ensures Good(Apply(db, user, w))
  {
    hide Held, Doomed, Removed;
    if Permitted(db, user, w) {
      match w
      case Insert(key, row) => StoreKeepsGood(db, user, key, row);
      case Update(key, row) =>
        VisibleMeansOwned(db, Some(user), key);
        StoreKeepsGood(db, user, key, row);
      case Delete(key) => RemovedKeepsGood(db, key);
    }
  }

  // ---- A view is a database of its own ----------------------------------------------------------

  lemma ViewIsOwned(db: Database, user: UserId, key: Key)
    requires Good(db)
    ensures key in View(db, Some(user)) <==> key in db && OwnerOf(db, key) == Some(user)
  {
    if key in db {
      PoliciesMeanOwnership(db, Some(user), key);
    }
  }

  lemma ViewKeepsParents(db: Database, user: UserId, key: Key, i: nat)
    requires Good(db) && key in View(db, Some(user)) && i < |db[key].refs| && db[key].refs[i].Some?
    ensures Shaped(key.table, db[key]) && Parent(key.table, db[key], i) in View(db, Some(user))
  {
    assert RowGood(db, key.table, db[key]);
    ViewIsOwned(db, user, key);
    ViewIsOwned(db, user, Parent(key.table, db[key], i));
  }

  lemma ViewIsGood(db: Database, user: UserId)
    requires Good(db)
    ensures Good(View(db, Some(user)))
    ensures forall key :: key in View(db, Some(user)) ==> OwnerOf(View(db, Some(user)), key) == Some(user)
  {
    var v := View(db, Some(user));
    forall key | key in v
      ensures OwnerOf(v, key) == Some(user)
    {
      ViewKeepsOwner(db, user, key);
    }
    forall key | key in v
      ensures RowGood(v, key.table, v[key])
    {
      assert RowGood(db, key.table, db[key]);
      forall i: nat | i < |v[key].refs| && v[key].refs[i].Some?
        ensures Parent(key.table, v[key], i) in v
      {
        ViewKeepsParents(db, user, key, i);
      }
    }
  }

  lemma {:induction false} ViewKeepsOwner(db: Database, user: UserId, key: Key)
    requires Good(db) && key in View(db, Some(user))
    ensures OwnerOf(View(db, Some(user)), key) == Some(user)
    decreases Rank(key.table)
  {
    ViewIsOwned(db, user, key);
    PoliciesWellFounded(key.table);
    assert RowGood(db, key.table, db[key]);
    if !PolicyOf(key.table).owned {
      ViewKeepsParents(db, user, key, 0);
      ViewKeepsOwner(db, user, Parent(key.table, db[key], 0));
    }
  }

  /** The policies say the same of a row whether they look at everything or at the tenant's view. */
  lemma PassesInView(db: Database, user: UserId, table: Table, row: Row)
    requires Good(db) && Shaped(table, row)
    ensures Passes(View(db, Some(user)), Some(user), table, row) <==> Passes(db, Some(user), table, row)
  {
    var v := View(db, Some(user));
    ViewIsGood(db, user);
    forall key
      ensures Visible(v, Some(user), key) <==> Visible(db, Some(user), key)
    {
      VisibleInView(db, user, key);
    }
  }

  lemma VisibleInView(db: Database, user: UserId, key: Key)
    requires Good(db)
    ensures Visible(View(db, Some(user)), Some(user), key) <==> Visible(db, Some(user), key)
  {
    ViewIsGood(db, user);
    if key in View(db, Some(user)) {
      PoliciesMeanOwnership(View(db, Some(user)), Some(user), key);
    }
  }

  /** Deleting a visible row takes the same rows, whether seen from everywhere or from the view. */
  lemma {:induction false} DoomedInView(db: Database, user: UserId, root: Key, key: Key)
    requires Good(db) && root in View(db, Some(user))
    ensures Doomed(View(db, Some(user)), root, key) <==> Doomed(db, root, key)
    decreases Rank(key.table)
  {
    var v := View(db, Some(user));
    PoliciesWellFounded(key.table);
    if Doomed(db, root, key) {
      DoomedAreOwned(db, root, key);
      ViewIsOwned(db, user, root);
      ViewIsOwned(db, user, key);
      if key != root {
        var i :| Follows(db, key, i, Cascade) && Doomed(db, root, Parent(key.table, db[key], i));
        DoomedInView(db, user, root, Parent(key.table, db[key], i));
        assert Follows(v, key, i, Cascade);
      }
    } else if Doomed(v, root, key) {
      var i :| Follows(v, key, i, Cascade) && Doomed(v, root, Parent(key.table, v[key], i));
      DoomedInView(db, user, root, Parent(key.table, v[key], i));
      assert Follows(db, key, i, Cascade);
    }
  }

  lemma HeldInView(db: Database, user: UserId, root: Key)
    requires Good(db) && root in View(db, Some(user))
    ensures Held(View(db, Some(user)), root) <==> Held(db, root)
  {
    hide Doomed;
    var v := View(db, Some(user));
    if Held(db, root) {
      var key, i :| key in db && Shaped(key.table, db[key]) && !Doomed(db, root, key)
                    && Follows(db, key, i, Restrict) && Doomed(db, root, Parent(key.table, db[key], i));
      var p := Parent(key.table, db[key], i);
      DoomedAreOwned(db, root, p);
      assert RowGood(db, key.table, db[key]);
      ViewIsOwned(db, user, root);
      ViewIsOwned(db, user, key);
      DoomedInView(db, user, root, key);
      DoomedInView(db, user, root, p);
      assert Follows(v, key, i, Restrict);
    }
    if Held(v, root) {
      var key, i :| key in v && Shaped(key.table, v[key]) && !Doomed(v, root, key)
                    && Follows(v, key, i, Restrict) && Doomed(v, root, Parent(key.table, v[key], i));
      DoomedInView(db, user, root, key);
      DoomedInView(db, user, root, Parent(key.table, v[key], i));
      assert Follows(db, key, i, Restrict);
    }
  }

  lemma ClearedInView(db: Database, user: UserId, root: Key, key: Key)
    requires Good(db) && root in View(db, Some(user)) && key in View(db, Some(user))
    ensures Shaped(key.table, db[key])
    ensures Cleared(View(db, Some(user)), root, key) == Cleared(db, root, key)
  {
    hide Doomed, View;
    var v := View(db, Some(user));
    ViewRow(db, user, key);
    forall i: nat | i < |db[key].refs| && db[key].refs[i].Some?
      ensures Doomed(v, root, Parent(key.table, v[key], i)) == Doomed(db, root, Parent(key.table, db[key], i))
    {
      DoomedInView(db, user, root, Parent(key.table, db[key], i));
    }
    ClearedKeepsShape(db, root, key);
    ClearedKeepsShape(v, root, key);
    assert Cleared(v, root, key).refs == Cleared(db, root, key).refs;
  }

  lemma ViewRow(db: Database, user: UserId, key: Key)
    requires key in View(db, Some(user))
    ensures key in db && Shaped(key.table, db[key]) && View(db, Some(user))[key] == db[key]
  {
  }

  // ---- The commuting square ---------------------------------------------------------------------

  lemma PermittedInView(db: Database, user: UserId, w: Write)
    requires Good(db) && (w.Insert? ==> w.key !in db)
    ensures Permitted(View(db, Some(user)), user, w) <==> Permitted(db, user, w)
  {
    hide Held, Doomed, Passes, Shaped;
    VisibleInView(db, user, w.key);
    match w
    case Insert(key, row) =>
      if Shaped(key.table, row) {
        PassesInView(db, user, key.table, row);
      }
    case Update(key, row) =>
      if Shaped(key.table, row) {
        PassesInView(db, user, key.table, row);
      }
    case Delete(key) =>
      if Visible(db, Some(user), key) {
        SeenIsInView(db, user, key);
        HeldInView(db, user, key);
      }
  }

  lemma SeenIsInView(db: Database, user: UserId, key: Key)
    requires Visible(db, Some(user), key)
    ensures key in View(db, Some(user))
  {
  }

  /** What a tenant's permitted statement does to its own view. */
  lemma EffectInView(db: Database, user: UserId, w: Write)
    requires Good(db) && Permitted(db, user, w)
    ensures View(Effect(db, w), Some(user)) == Effect(View(db, Some(user)), w)
  {
    var v, t := View(db, Some(user)), Effect(db, w);
    ApplyKeepsGood(db, user, w);
    match w
    case Insert(key, row) => StoreInView(db, user, key, row);
    case Update(key, row) =>
      VisibleMeansOwned(db, Some(user), key);
      StoreInView(db, user, key, row);
    case Delete(key) => RemovalInView(db, user, key);
  }

  lemma StoreInView(db: Database, user: UserId, key: Key, row: Row)
    requires Good(db) && Shaped(key.table, row) && Passes(db, Some(user), key.table, row)
    requires key !in db || OwnerOf(db, key) == Some(user)
    ensures View(db[key := row], Some(user)) == View(db, Some(user))[key := row]
  {
    hide Passes, Good, OwnerOf, Visible;
    var t := db[key := row];
    StoreKeepsGood(db, user, key, row);
    forall k
      ensures k in View(t, Some(user)) <==> k == key || k in View(db, Some(user))
    {
      ViewIsOwned(t, user, k);
      ViewIsOwned(db, user, k);
    }
    assert View(t, Some(user)) == View(db, Some(user))[key := row];
  }

  lemma RemovalInView(db: Database, user: UserId, root: Key)
    requires Good(db) && Visible(db, Some(user), root) && !Held(db, root)
    ensures View(Removed(db, root), Some(user)) == Removed(View(db, Some(user)), root)
  {
    hide Doomed, Held, Cleared;
    var v, t := View(db, Some(user)), Removed(db, root);
    RemovedKeepsGood(db, root);
    forall k
      ensures k in View(t, Some(user)) <==> k in Removed(v, root)
      ensures k in View(t, Some(user)) ==> View(t, Some(user))[k] == Removed(v, root)[k]
    {
      ViewIsOwned(t, user, k);
      ViewIsOwned(db, user, k);
      DoomedInView(db, user, root, k);
      if k in v {
        ClearedInView(db, user, root, k);
      }
    }
    assert View(t, Some(user)) == Removed(v, root);
  }

  /** A tenant's statement does to its view just what it would do to a database holding nothing else. */
  lemma OwnStatement(db: Database, user: UserId, w: Write)
    requires Good(db) && (w.Insert? ==> w.key !in db)
    ensures View(Apply(db, user, w), Some(user)) == Apply(View(db, Some(user)), user, w)
  {
    hide Permitted, Effect, View;
    PermittedInView(db, user, w);
    if Permitted(db, user, w) {
      EffectInView(db, user, w);
    }
  }

  /** Nothing another tenant's statement does, deletions with all they cascade to included, shows in a view. */
  lemma OthersStatement(db: Database, user: UserId, other: UserId, w: Write)
    requires Good(db) && other != user
    ensures View(Apply(db, other, w), Some(user)) == View(db, Some(user))
  {
    hide Held, Doomed, Removed, Cleared, Passes;
    var t := Apply(db, other, w);
    ApplyKeepsGood(db, other, w);
    forall k
      ensures k in View(t, Some(user)) <==> k in View(db, Some(user))
      ensures k in View(db, Some(user)) ==> k in t && t[k] == db[k]
    {
      ViewIsOwned(db, user, k);
      ViewIsOwned(t, user, k);
      OthersRow(db, user, other, w, k);
    }
    assert View(t, Some(user)) == View(db, Some(user));
  }

  /** Row by row: the other tenant's statement leaves this tenant's rows, and gives it none. */
  lemma OthersRow(db: Database, user: UserId, other: UserId, w: Write, k: Key)
    requires Good(db) && other != user
    ensures var t := Apply(db, other, w);
            && (k in db && OwnerOf(db, k) == Some(user) ==> k in t && t[k] == db[k] && OwnerOf(t, k) == Some(user))
            && (k in t && OwnerOf(t, k) == Some(user) ==> k in db && OwnerOf(db, k) == Some(user))
  {
    hide Held, Doomed, Removed, Passes, Visible;
    if Permitted(db, other, w) {
      match w
      case Insert(key, row) => StoreKeepsGood(db, other, key, row);
      case Update(key, row) =>
        VisibleMeansOwned(db, Some(other), key);
        StoreKeepsGood(db, other, key, row);
      case Delete(key) =>
        VisibleMeansOwned(db, Some(other), key);
        RemovedKeepsGood(db, key);
        RemovedComesFrom(db, key, k);
        if k in db && OwnerOf(db, k) == Some(user) {
          RemovalSpares(db, user, key, k);
        }
    }
  }

  lemma RemovedComesFrom(db: Database, root: Key, key: Key)
    ensures key in Removed(db, root) ==> key in db
  {
  }

  lemma RemovalSpares(db: Database, user: UserId, root: Key, key: Key)
    requires Good(db) && key in db && OwnerOf(db, key) == Some(user) && OwnerOf(db, root) != Some(user)
    ensures key in Removed(db, root) && Removed(db, root)[key] == db[key]
  {
    hide Doomed, Cleared;
    assert RowGood(db, key.table, db[key]);
    if Doomed(db, root, key) {
      DoomedAreOwned(db, root, key);
    }
    forall i: nat | i < |db[key].refs| && db[key].refs[i].Some?
      ensures !Doomed(db, root, Parent(key.table, db[key], i))
    {
      if Doomed(db, root, Parent(key.table, db[key], i)) {
        DoomedAreOwned(db, root, Parent(key.table, db[key], i));
      }
    }
    ClearedKeepsShape(db, root, key);
    assert Cleared(db, root, key).refs == db[key].refs;
  }

  // ---- Whole runs -------------------------------------------------------------------------------

  /** Tenant sessions issue statements; a privileged session may put the database in any good state. */
  datatype Step = Tenant(user: UserId, write: Write) | System(after: Database)

  ghost predicate IsRun(states: seq<Database>, steps: seq<Step>) {
    && |states| == |steps| + 1
    && Good(states[0])
    && forall i :: 0 <= i < |steps| ==>
         match steps[i]
         case Tenant(user, w) => states[i + 1] == Apply(states[i], user, w)
         case System(after) => Good(after) && states[i + 1] == after
  }

  /** In every reachable state the policies mean ownership. */
  lemma {:induction false} RunsKeepOwnership(states: seq<Database>, steps: seq<Step>, n: nat)
    requires IsRun(states, steps) && n < |states|
    ensures Good(states[n])
    ensures forall tenant, key :: key in states[n] ==>
              (Visible(states[n], tenant, key) <==> tenant.Some? && OwnerOf(states[n], key) == tenant)
  {
    if n > 0 {
      RunsKeepOwnership(states, steps, n - 1);
      if steps[n - 1].Tenant? {
        ApplyKeepsGood(states[n - 1], steps[n - 1].user, steps[n - 1].write);
      }
    }
    forall tenant: Option<UserId>, key | key in states[n]
      ensures Visible(states[n], tenant, key) <==> tenant.Some? && OwnerOf(states[n], key) == tenant
    {
      PoliciesMeanOwnership(states[n], tenant, key);
    }
  }

  datatype Statement = Statement(user: UserId, write: Write)

  ghost function RunAll(db: Database, todo: seq<Statement>): Database {
    if todo == [] then db
    else Apply(RunAll(db, todo[..|todo| - 1]), todo[|todo| - 1].user, todo[|todo| - 1].write)
  }

  /** Only this tenant's statements, in order. */
  function Purged(todo: seq<Statement>, user: UserId): seq<Statement> {
    if todo == [] then []
    else
      var rest := Purged(todo[..|todo| - 1], user);
      if todo[|todo| - 1].user == user then rest + [todo[|todo| - 1]] else rest
  }

  /** Inserts use ids not in the database yet. */
  ghost predicate FreshIds(db: Database, todo: seq<Statement>) {
    forall i :: 0 <= i < |todo| && todo[i].write.Insert? ==> todo[i].write.key !in RunAll(db, todo[..i])
  }

  /** Noninterference: a tenant's view after any interleaving is what its own statements make of its own rows. */
  lemma {:induction false} EachTenantAsIfAlone(db: Database, todo: seq<Statement>, user: UserId)
    requires Good(db) && FreshIds(db, todo)
    ensures Good(RunAll(db, todo))
    ensures View(RunAll(db, todo), Some(user)) == RunAll(View(db, Some(user)), Purged(todo, user))
  {
    hide View, Apply;
    if todo != [] {
      var front, last := todo[..|todo| - 1], todo[|todo| - 1];
      FreshFront(db, todo);
      EachTenantAsIfAlone(db, front, user);
      var before := RunAll(db, front);
      ApplyKeepsGood(before, last.user, last.write);
      if last.user == user {
        OwnStatement(before, user, last.write);
        var rest := Purged(front, user);
        assert (rest + [last])[..|rest|] == rest;
      } else {
        OthersStatement(before, user, last.user, last.write);
      }
    }
  }

  lemma FreshFront(db: Database, todo: seq<Statement>)
    requires todo != [] && FreshIds(db, todo)
    ensures FreshIds(db, todo[..|todo| - 1])
  {
    hide RunAll;
    var front := todo[..|todo| - 1];
    forall i | 0 <= i < |front| && front[i].write.Insert?
      ensures front[i].write.key !in RunAll(db, front[..i])
    {
      assert front[..i] == todo[..i];
    }
  }
}
