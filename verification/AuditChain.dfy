/**
 * The audit hash chain (`app/modules/auth/models.py`): the verifier, the hook that
 * chains new rows at flush time, and migration 0035, which rebuilds the chain of a
 * legacy table.
 *
 * The hash of a payload is a parameter. Where tamper evidence is at stake it is
 * assumed injective; stored metadata of NULL and of {} are the same payload.
 * Instants are counts of microseconds; row identifiers are compared as the database
 * compares UUIDs.
 */
module AuditChain {
  import opened Common

  type Hash = string
  type Id = nat

  datatype Content = Content(
    actor: Option<nat>, action: string, entityType: string, entityId: Option<string>,
    metadata: Option<map<string, string>>)

  /** A row of `audit_logs` without its primary key. */
  datatype Stored = Stored(content: Content, createdAt: nat, previousHash: Option<Hash>, hash: Hash)

  datatype Row = Row(id: Id, stored: Stored)

  /** What is hashed. */
  datatype Payload = Payload(previousHash: Option<Hash>, id: Id, content: Content, createdAt: nat)

  type HashFunction = Payload -> Hash

  ghost predicate Injective(h: HashFunction) {
    forall p, q :: h(p) == h(q) ==> p == q
  }

  /** `metadata_json or {}` */
  function Normalized(c: Content): Content {
    if c.metadata.None? then c.(metadata := Some(map[])) else c
  }

  function IntegrityHash(h: HashFunction, previous: Option<Hash>, id: Id, content: Content, createdAt: nat): Hash {
    h(Payload(previous, id, Normalized(content), createdAt))
  }

  /** Metadata of NULL and of {} count as the same; everything else must be equal. */
  predicate SamePayload(a: Content, b: Content) {
    && a.actor == b.actor && a.action == b.action && a.entityType == b.entityType && a.entityId == b.entityId
    && (a.metadata == b.metadata || (a.metadata in {None, Some(map[])} && b.metadata in {None, Some(map[])}))
  }

  /** The hash covers the link, the identifier, the content and the time, and nothing less. */
  lemma HashesAgreeIff(h: HashFunction, p: Option<Hash>, i: Id, c: Content, at: nat,
                       q: Option<Hash>, j: Id, d: Content, time: nat)
    requires Injective(h)
    ensures IntegrityHash(h, p, i, c, at) == IntegrityHash(h, q, j, d, time)
      <==> p == q && i == j && at == time && SamePayload(c, d)
  {
    var (a, b) := (Payload(p, i, Normalized(c), at), Payload(q, j, Normalized(d), time));
    assert h(a) == h(b) ==> a == b;
  }

  // ---- Verification of an ordered chain ---------------------------------------------------------

  predicate RowOk(h: HashFunction, row: Row, previous: Option<Hash>) {
    && row.stored.previousHash == previous
    && row.stored.hash == IntegrityHash(h, previous, row.id, row.stored.content, row.stored.createdAt)
  }

  /** The stored hash a row must link to. */
  function HashBefore(rows: seq<Row>, i: nat): Option<Hash>
    requires i <= |rows|
  {
    if i == 0 then None else Some(rows[i - 1].stored.hash)
  }

  ghost predicate Verified(h: HashFunction, rows: seq<Row>) {
    forall i {:trigger HashBefore(rows, i)} | 0 <= i < |rows| :: RowOk(h, rows[i], HashBefore(rows, i))
  }

  /** `k` is where recomputation and stored values first part. */
  ghost predicate FirstBad(h: HashFunction, rows: seq<Row>, k: nat) {
    && k < |rows| && !RowOk(h, rows[k], HashBefore(rows, k))
    && forall i {:trigger HashBefore(rows, i)} | 0 <= i < k :: RowOk(h, rows[i], HashBefore(rows, i))
  }

  /** `verify_audit_integrity_chain` over the rows the query returns, in its order. */
  method VerifyChain(h: HashFunction, rows: seq<Row>) returns (ok: bool, bad: Option<Id>)
    ensures ok <==> Verified(h, rows)
    ensures ok ==> bad == None
    ensures !ok ==> exists k: nat :: FirstBad(h, rows, k) && bad == Some(rows[k].id)
  {
    hide RowOk, IntegrityHash, HashBefore;
    var previousHash: Option<Hash> := None;
    ChainStart(rows);
    for i := 0 to |rows|
      invariant previousHash == HashBefore(rows, i)
      invariant forall j | 0 <= j < i :: RowOk(h, rows[j], HashBefore(rows, j))
    {
      var row := rows[i];
      var expected := IntegrityHash(h, previousHash, row.id, row.stored.content, row.stored.createdAt);
      RowCheck(h, row, previousHash);
      if row.stored.previousHash != previousHash || row.stored.hash != expected {
        assert FirstBad(h, rows, i);
        return false, Some(row.id);
      }
      previousHash := Some(row.stored.hash);
      ChainNext(rows, i);
    }
    return true, None;
  }

  lemma ChainStart(rows: seq<Row>)
    ensures HashBefore(rows, 0) == None
  {
  }

  lemma ChainNext(rows: seq<Row>, i: nat)
    requires i < |rows|
    ensures HashBefore(rows, i + 1) == Some(rows[i].stored.hash)
  {
  }

  lemma RowCheck(h: HashFunction, row: Row, previous: Option<Hash>)
    ensures RowOk(h, row, previous)
      <==> row.stored.previousHash == previous
           && row.stored.hash == IntegrityHash(h, previous, row.id, row.stored.content, row.stored.createdAt)
  {
  }

  /** Two rows the chain cannot tell apart: equal up to NULL versus {} metadata. */
  predicate Same(a: Row, b: Row) {
    && a.id == b.id && a.stored.createdAt == b.stored.createdAt
    && a.stored.previousHash == b.stored.previousHash && a.stored.hash == b.stored.hash
    && Normalized(a.stored.content) == Normalized(b.stored.content)
  }

  ghost predicate SameRows(a: seq<Row>, b: seq<Row>) {
    |a| == |b| && forall i | 0 <= i < |a| :: Same(a[i], b[i])
  }

  lemma OkRowsWithOneHashAreSame(h: HashFunction, a: Row, b: Row, pa: Option<Hash>, pb: Option<Hash>)
    requires Injective(h) && RowOk(h, a, pa) && RowOk(h, b, pb)
    requires a.stored.hash == b.stored.hash
    ensures Same(a, b) && pa == pb
  {
    var p := Payload(pa, a.id, Normalized(a.stored.content), a.stored.createdAt);
    var q := Payload(pb, b.id, Normalized(b.stored.content), b.stored.createdAt);
    assert h(p) == h(q);
  }

  /** Tamper evidence: two verified chains with one last hash are the same chain, row for row. */
  lemma {:induction false} LastHashFixesChain(h: HashFunction, a: seq<Row>, b: seq<Row>)
    requires Injective(h) && Verified(h, a) && Verified(h, b)
    requires HashBefore(a, |a|) == HashBefore(b, |b|)
    ensures SameRows(a, b)
    decreases |a|
  {
    hide RowOk, Same, Injective, Verified;
    if a != [] {
      var (m, n) := (|a| - 1, |b| - 1);
      VerifiedLast(h, a);
      VerifiedLast(h, b);
      OkRowsWithOneHashAreSame(h, a[m], b[n], HashBefore(a, m), HashBefore(b, n));
      VerifiedPrefix(h, a, m);
      VerifiedPrefix(h, b, n);
      LastHashFixesChain(h, a[..m], b[..n]);
      assert a == a[..m] + [a[m]] && b == b[..n] + [b[n]];
    }
  }

  lemma VerifiedLast(h: HashFunction, rows: seq<Row>)
    requires Verified(h, rows) && rows != []
    ensures RowOk(h, rows[|rows| - 1], HashBefore(rows, |rows| - 1))
  {
  }

  lemma VerifiedPrefix(h: HashFunction, rows: seq<Row>, n: nat)
    requires Verified(h, rows) && n <= |rows|
    ensures Verified(h, rows[..n])
  {
    forall i | 0 <= i < n
      ensures RowOk(h, rows[..n][i], HashBefore(rows[..n], i))
    {
      assert RowOk(h, rows[i], HashBefore(rows, i));
    }
  }

  // ---- Tables and the order of the query --------------------------------------------------------

  type Table = map<Id, Stored>

  /** ORDER BY created_at, id */
  predicate Precedes(t: Table, a: Id, b: Id)
    requires a in t && b in t
  {
    t[a].createdAt < t[b].createdAt || (t[a].createdAt == t[b].createdAt && a < b)
  }

  /** `order` is the order in which the query returns the rows of `t`. */
  ghost predicate IsOrder(t: Table, order: seq<Id>) {
    && (forall id :: id in order <==> id in t)
    && (forall i, j | 0 <= i < j < |order| :: order[i] in t && order[j] in t && Precedes(t, order[i], order[j]))
  }

  function RowsOf(t: Table, order: seq<Id>): (rows: seq<Row>)
    requires forall id :: id in order ==> id in t
    ensures |rows| == |order|
    ensures forall i | 0 <= i < |rows| :: rows[i] == Row(order[i], t[order[i]])
  {
    seq(|order|, i requires 0 <= i < |order| => Row(order[i], t[order[i]]))
  }

  /** A table has at most one order, so what the verifier sees is determined by the table. */
  lemma {:induction false} OrderUnique(t: Table, a: seq<Id>, b: seq<Id>)
    requires IsOrder(t, a) && IsOrder(t, b)
    ensures a == b
    decreases |a|
  {
    EmptyOrder(t, a);
    EmptyOrder(t, b);
    if a != [] {
      var first := a[0];
      OrderedHead(t, a, b);
      var t' := t - {first};
      OrderTail(t, a);
      OrderTail(t, b);
      OrderUnique(t', a[1..], b[1..]);
      assert a == [a[0]] + a[1..] && b == [b[0]] + b[1..];
    }
  }

  lemma EmptyOrder(t: Table, order: seq<Id>)
    requires IsOrder(t, order)
    ensures order == [] <==> t == map[]
  {
    if order != [] {
      assert order[0] in order;
    }
    if t != map[] {
      var id :| id in t;
    }
  }

  lemma OrderedHead(t: Table, a: seq<Id>, b: seq<Id>)
    requires IsOrder(t, a) && IsOrder(t, b) && a != [] && b != []
    ensures a[0] == b[0]
  {
    assert a[0] in a && b[0] in b;
    var i :| 0 <= i < |a| && a[i] == b[0];
    var j :| 0 <= j < |b| && b[j] == a[0];
    assert i > 0 ==> Precedes(t, a[0], a[i]);
    assert j > 0 ==> Precedes(t, b[0], b[j]);
  }

  lemma OrderTail(t: Table, order: seq<Id>)
    requires IsOrder(t, order) && order != []
    ensures IsOrder(t - {order[0]}, order[1..])
  {
    var (t', rest) := (t - {order[0]}, order[1..]);
    forall id
      ensures id in rest <==> id in t'
    {
      TailMember(t, order, id);
    }
    forall i, j | 0 <= i < j < |rest|
      ensures rest[i] in t' && rest[j] in t' && Precedes(t', rest[i], rest[j])
    {
      assert rest[i] in rest && rest[j] in rest;
      assert Precedes(t, order[i + 1], order[j + 1]);
    }
  }

  lemma TailMember(t: Table, order: seq<Id>, id: Id)
    requires IsOrder(t, order) && order != []
    ensures id in order[1..] <==> id in t && id != order[0]
  {
    assert order == [order[0]] + order[1..];
    if id in order[1..] {
      var i :| 0 < i < |order| && order[i] == id;
      assert Precedes(t, order[0], order[i]);
    }
  }

  /** The row the query returns first. */
  lemma {:induction false} Earliest(t: Table) returns (first: Id)
    requires t != map[]
    ensures first in t && forall id | id in t && id != first :: Precedes(t, first, id)
    decreases t.Keys
  {
    var some :| some in t;
    var rest := t - {some};
    assert forall id | id in t && id != some :: id in rest;
    if rest == map[] {
      first := some;
    } else {
      var next := Earliest(rest);
      first := if Precedes(t, some, next) then some else next;
      forall id | id in t && id != first
        ensures Precedes(t, first, id)
      {
        assert id in rest && id != next ==> Precedes(rest, next, id);
      }
    }
  }

  /** Every table has an order: the row that comes first, then the order of the others. */
  lemma {:induction false} OrderExists(t: Table) returns (order: seq<Id>)
    ensures IsOrder(t, order)
    decreases t.Keys
  {
    if t == map[] {
      order := [];
    } else {
      var first := Earliest(t);
      var rest := OrderExists(t - {first});
      order := [first] + rest;
      forall id
        ensures id in order <==> id in t
      {
        assert id in rest <==> id in t - {first};
      }
      forall i, j | 0 <= i < j < |order|
        ensures order[i] in t && order[j] in t && Precedes(t, order[i], order[j])
      {
        assert rest[j - 1] in rest;
        if i > 0 {
          assert Precedes(t - {first}, rest[i - 1], rest[j - 1]);
        }
      }
    }
  }

  ghost predicate TableVerifies(h: HashFunction, t: Table) {
    exists order {:trigger IsOrder(t, order)} :: IsOrder(t, order) && Verified(h, RowsOf(t, order))
  }

  /** The hash of the newest row. */
  ghost predicate HasLastHash(t: Table, last: Option<Hash>) {
    exists order {:trigger IsOrder(t, order)} :: IsOrder(t, order) && last == HashBefore(RowsOf(t, order), |order|)
  }

  /** Tables that differ at most in NULL versus {} metadata. */
  ghost predicate Equivalent(a: Table, b: Table) {
    a.Keys == b.Keys && forall id | id in a :: Same(Row(id, a[id]), Row(id, b[id]))
  }

  /**
   * Any edit, deletion, insertion or reordering that leaves the last hash alone is
   * noticed: the altered table no longer verifies.
   */
  lemma TamperEvident(h: HashFunction, original: Table, altered: Table, last: Option<Hash>)
    requires Injective(h) && TableVerifies(h, original)
    requires HasLastHash(original, last) && HasLastHash(altered, last)
    requires !Equivalent(original, altered)
    ensures !TableVerifies(h, altered)
  {
    if TableVerifies(h, altered) {
      var a := VerifiedOrder(h, original, last);
      var b := VerifiedOrder(h, altered, last);
      LastHashFixesChain(h, RowsOf(original, a), RowsOf(altered, b));
      SameRowsSameTable(original, a, altered, b);
    }
  }

  lemma VerifiedOrder(h: HashFunction, t: Table, last: Option<Hash>) returns (order: seq<Id>)
    requires TableVerifies(h, t) && HasLastHash(t, last)
    ensures IsOrder(t, order) && Verified(h, RowsOf(t, order)) && last == HashBefore(RowsOf(t, order), |order|)
  {
    order :| IsOrder(t, order) && Verified(h, RowsOf(t, order));
    var other :| IsOrder(t, other) && last == HashBefore(RowsOf(t, other), |other|);
    OrderUnique(t, order, other);
  }

  lemma SameRowsSameTable(t: Table, a: seq<Id>, u: Table, b: seq<Id>)
    requires IsOrder(t, a) && IsOrder(u, b) && SameRows(RowsOf(t, a), RowsOf(u, b))
    ensures Equivalent(t, u)
  {
    forall i | 0 <= i < |a|
      ensures a[i] == b[i] && a[i] in t && b[i] in u && Same(Row(a[i], t[a[i]]), Row(b[i], u[b[i]]))
    {
      assert a[i] in a && b[i] in b;
      assert Same(RowsOf(t, a)[i], RowsOf(u, b)[i]);
    }
    assert a == b;
    forall id | id in t
      ensures id in u && Same(Row(id, t[id]), Row(id, u[id]))
    {
      var i :| 0 <= i < |a| && a[i] == id;
    }
  }

  /** A verified chain made of rows of another one is an initial stretch of it. */
  lemma {:induction false} SurvivorsArePrefix(h: HashFunction, rows: seq<Row>, sub: seq<Row>, n: nat)
    requires Injective(h) && Verified(h, rows) && Verified(h, sub) && n <= |sub|
    requires forall i, j | 0 <= i < j < |rows| :: rows[i].id != rows[j].id
    requires forall i | 0 <= i < |sub| :: sub[i] in rows
    ensures n <= |rows| && sub[..n] == rows[..n]
  {
    hide RowOk, Injective, Verified;
    if n > 0 {
      SurvivorsArePrefix(h, rows, sub, n - 1);
      var k := n - 1;
      assert sub[k] in rows;
      var j :| 0 <= j < |rows| && rows[j] == sub[k];
      LinkedAt(h, rows, sub, k, j);
      assert sub[..n] == sub[..k] + [sub[k]] && rows[..n] == rows[..k] + [rows[k]];
    }
  }

  /** The row that survives at position `k` stood at position `k`. */
  lemma LinkedAt(h: HashFunction, rows: seq<Row>, sub: seq<Row>, k: nat, j: nat)
    requires Injective(h) && Verified(h, rows) && Verified(h, sub)
    requires forall i, j | 0 <= i < j < |rows| :: rows[i].id != rows[j].id
    requires k < |sub| && j < |rows| && rows[j] == sub[k] && k <= |rows| && sub[..k] == rows[..k]
    ensures j == k
  {
    hide Injective, Same;
    assert RowOk(h, rows[j], HashBefore(rows, j)) && RowOk(h, sub[k], HashBefore(sub, k));
    if k > 0 {
      assert sub[k - 1] == sub[..k][k - 1] == rows[k - 1];
      assert RowOk(h, rows[j - 1], HashBefore(rows, j - 1)) && RowOk(h, rows[k - 1], HashBefore(rows, k - 1));
      OkRowsWithOneHashHaveOneId(h, rows[j - 1], rows[k - 1], HashBefore(rows, j - 1), HashBefore(rows, k - 1));
    }
  }

  lemma OkRowsWithOneHashHaveOneId(h: HashFunction, a: Row, b: Row, pa: Option<Hash>, pb: Option<Hash>)
    requires Injective(h) && RowOk(h, a, pa) && RowOk(h, b, pb) && a.stored.hash == b.stored.hash
    ensures a.id == b.id
  {
    OkRowsWithOneHashAreSame(h, a, b, pa, pb);
  }

  ghost predicate SubTable(kept: Table, t: Table) {
    kept.Keys <= t.Keys && forall id | id in kept :: kept[id] == t[id]
  }

  /** The rows of a sub-table, where they stand in the full table. */
  lemma SubTableRows(t: Table, order: seq<Id>, kept: Table, left: seq<Id>)
    requires IsOrder(t, order) && IsOrder(kept, left) && SubTable(kept, t)
    ensures forall i | 0 <= i < |left| :: RowsOf(kept, left)[i] in RowsOf(t, order)
    ensures forall i | 0 <= i < |left| :: left[i] in kept && RowsOf(kept, left)[i] == Row(left[i], t[left[i]])
  {
    forall i | 0 <= i < |left|
      ensures left[i] in kept && RowsOf(kept, left)[i] in RowsOf(t, order)
    {
      assert left[i] in left;
      assert left[i] in order;
      var j :| 0 <= j < |order| && order[j] == left[i];
      assert RowsOf(t, order)[j] == RowsOf(kept, left)[i];
    }
  }

  lemma OrderDistinct(t: Table, order: seq<Id>)
    requires IsOrder(t, order)
    ensures var rows := RowsOf(t, order); forall i, j | 0 <= i < j < |rows| :: rows[i].id != rows[j].id
  {
    var rows := RowsOf(t, order);
    forall i, j | 0 <= i < j < |rows|
      ensures rows[i].id != rows[j].id
    {
      assert Precedes(t, order[i], order[j]);
    }
  }

  /**
   * Without the last hash, verification alone notices every deletion except that of
   * the newest rows: a table cut down to some of its rows verifies exactly when the
   * rows left are the oldest ones.
   */
  lemma DeletionUnnoticedIffNewest(h: HashFunction, t: Table, order: seq<Id>, kept: Table, left: seq<Id>)
    requires Injective(h) && IsOrder(t, order) && Verified(h, RowsOf(t, order))
    requires SubTable(kept, t) && IsOrder(kept, left)
    ensures TableVerifies(h, kept) <==> left <= order
  {
    hide Verified, Injective, SubTable;
    if TableVerifies(h, kept) {
      var other :| IsOrder(kept, other) && Verified(h, RowsOf(kept, other));
      OrderUnique(kept, left, other);
      SurvivorsKeepOrder(h, t, order, kept, left);
    }
    if left <= order {
      OldestVerify(h, t, order, kept, left);
    }
  }

  lemma OldestVerify(h: HashFunction, t: Table, order: seq<Id>, kept: Table, left: seq<Id>)
    requires IsOrder(t, order) && Verified(h, RowsOf(t, order))
    requires SubTable(kept, t) && IsOrder(kept, left) && left <= order
    ensures Verified(h, RowsOf(kept, left))
  {
    hide Verified, SubTable;
    SubTableRows(t, order, kept, left);
    assert RowsOf(kept, left) == RowsOf(t, order)[..|left|];
    VerifiedPrefix(h, RowsOf(t, order), |left|);
  }

  lemma SurvivorsKeepOrder(h: HashFunction, t: Table, order: seq<Id>, kept: Table, left: seq<Id>)
    requires Injective(h) && IsOrder(t, order) && Verified(h, RowsOf(t, order))
    requires SubTable(kept, t) && IsOrder(kept, left) && Verified(h, RowsOf(kept, left))
    ensures left <= order
  {
    hide Injective, Verified, SubTable;
    var (rows, sub) := (RowsOf(t, order), RowsOf(kept, left));
    OrderDistinct(t, order);
    SubTableRows(t, order, kept, left);
    SurvivorsArePrefix(h, rows, sub, |sub|);
    assert sub == sub[..|sub|];
    assert forall i | 0 <= i < |left| :: left[i] == sub[i].id == rows[i].id == order[i];
  }

  // ---- The flush hook ---------------------------------------------------------------------------

  /** A new `AuditLog` object of the current flush; its identifier is assigned beforehand. */
  datatype Draft = Draft(id: Id, content: Content)

  /** The rows the hook makes of `drafts`, one microsecond apart. */
  function Chained(h: HashFunction, drafts: seq<Draft>, previous: Option<Hash>, at: nat): seq<Row> {
    if drafts == [] then [] else
      var d := drafts[0];
      var hash := IntegrityHash(h, previous, d.id, d.content, at);
      [Row(d.id, Stored(d.content, at, previous, hash))] + Chained(h, drafts[1..], Some(hash), at + 1)
  }

  /** The newest row of a table as the hook's query finds it. */
  ghost predicate IsLatest(t: Table, latest: Option<Id>) {
    if latest.None? then t == map[]
    else latest.value in t && forall id | id in t && id != latest.value :: Precedes(t, id, latest.value)
  }

  /** The timestamp of the first new row: the wall clock, but never at or before the newest row. */
  function NextInstant(t: Table, latest: Option<Id>, clock: nat): nat
    requires latest.Some? ==> latest.value in t
  {
    if latest.Some? && clock <= t[latest.value].createdAt then t[latest.value].createdAt + 1 else clock
  }

  function LatestHash(t: Table, latest: Option<Id>): Option<Hash>
    requires latest.Some? ==> latest.value in t
  {
    if latest.Some? then Some(t[latest.value].hash) else None
  }

  function Insert(t: Table, rows: seq<Row>): Table
    decreases |rows|
  {
    if rows == [] then t else Insert(t[rows[0].id := rows[0].stored], rows[1..])
  }

  /** New identifiers do not clash with the table or each other (primary key). */
  predicate FreshIds(t: Table, drafts: seq<Draft>) {
    && (forall i | 0 <= i < |drafts| :: drafts[i].id !in t)
    && (forall i, j | 0 <= i < j < |drafts| :: drafts[i].id != drafts[j].id)
  }

  /** Row `i` of a chained flush. */
  ghost predicate ChainedAt(h: HashFunction, drafts: seq<Draft>, previous: Option<Hash>, at: nat, rows: seq<Row>,
                            i: nat)
    requires i < |rows| == |drafts|
  {
    && rows[i].id == drafts[i].id && rows[i].stored.content == drafts[i].content
    && rows[i].stored.createdAt == at + i
    && RowOk(h, rows[i], if i == 0 then previous else Some(rows[i - 1].stored.hash))
  }

  lemma {:induction false} ChainedShape(h: HashFunction, drafts: seq<Draft>, previous: Option<Hash>, at: nat)
    ensures var rows := Chained(h, drafts, previous, at);
            |rows| == |drafts| && forall i | 0 <= i < |rows| :: ChainedAt(h, drafts, previous, at, rows, i)
    decreases |drafts|
  {
    if drafts != [] {
      var d := drafts[0];
      var hash := IntegrityHash(h, previous, d.id, d.content, at);
      var rest := Chained(h, drafts[1..], Some(hash), at + 1);
      var rows := Chained(h, drafts, previous, at);
      ChainedShape(h, drafts[1..], Some(hash), at + 1);
      assert rows == [rows[0]] + rest;
      forall i | 0 < i < |rows|
        ensures ChainedAt(h, drafts, previous, at, rows, i)
      {
        assert ChainedAt(h, drafts[1..], Some(hash), at + 1, rest, i - 1);
      }
      assert ChainedAt(h, drafts, previous, at, rows, 0);
    }
  }

  lemma {:induction false} InsertRows(t: Table, rows: seq<Row>)
    requires forall i, j | 0 <= i < j < |rows| :: rows[i].id != rows[j].id
    ensures forall id :: id in Insert(t, rows) <==> id in t || exists i :: 0 <= i < |rows| && rows[i].id == id
    ensures forall i | 0 <= i < |rows| :: rows[i].id in Insert(t, rows) && Insert(t, rows)[rows[i].id] == rows[i].stored
    ensures forall id | id in t && (forall i | 0 <= i < |rows| :: rows[i].id != id) :: Insert(t, rows)[id] == t[id]
    decreases |rows|
  {
    if rows != [] {
      var rest := rows[1..];
      assert forall i | 0 <= i < |rest| :: rest[i] == rows[i + 1];
      InsertRows(t[rows[0].id := rows[0].stored], rest);
      assert forall i | 0 < i < |rows| :: rows[i] == rest[i - 1];
    }
  }

  /** After a flush the query returns the old rows in their old order, then the new ones in draft order. */
  lemma FlushExtendsOrder(h: HashFunction, t: Table, order: seq<Id>, latest: Option<Id>, drafts: seq<Draft>, clock: nat)
    requires IsOrder(t, order) && IsLatest(t, latest) && FreshIds(t, drafts)
    ensures var rows := Chained(h, drafts, LatestHash(t, latest), NextInstant(t, latest, clock));
            var t' := Insert(t, rows);
            var order' := order + RowIds(rows);
            && |rows| == |drafts| && (forall i | 0 <= i < |rows| :: rows[i].id == drafts[i].id)
            && IsOrder(t', order')
            && RowsOf(t', order') == RowsOf(t, order) + rows
  {
    var rows := Chained(h, drafts, LatestHash(t, latest), NextInstant(t, latest, clock));
    ChainedShape(h, drafts, LatestHash(t, latest), NextInstant(t, latest, clock));
    forall i | 0 <= i < |rows|
      ensures rows[i].id == drafts[i].id && rows[i].stored.createdAt == NextInstant(t, latest, clock) + i
    {
      assert ChainedAt(h, drafts, LatestHash(t, latest), NextInstant(t, latest, clock), rows, i);
    }
    NewerRows(t, order, rows, NextInstant(t, latest, clock));
  }

  function RowIds(rows: seq<Row>): (ids: seq<Id>)
    ensures |ids| == |rows| && forall i | 0 <= i < |ids| :: ids[i] == rows[i].id
  {
    seq(|rows|, i requires 0 <= i < |rows| => rows[i].id)
  }

  /** `rows` are new to `t`, distinct, and stamped one after another from `at` on, after all of `t`. */
  ghost predicate Newer(t: Table, rows: seq<Row>, at: nat) {
    && (forall id | id in t :: t[id].createdAt < at)
    && (forall i | 0 <= i < |rows| :: rows[i].id !in t && rows[i].stored.createdAt == at + i)
    && (forall i, j | 0 <= i < j < |rows| :: rows[i].id != rows[j].id)
  }

  /** What stands at position `k` of the extended order. */
  lemma NewerEntry(t: Table, order: seq<Id>, rows: seq<Row>, at: nat, k: nat)
    requires IsOrder(t, order) && Newer(t, rows, at) && k < |order| + |rows|
    ensures var (t', id) := (Insert(t, rows), (order + RowIds(rows))[k]);
            && id in t'
            && if k < |order| then id == order[k] && id in t && t'[id] == t[id] && t[id].createdAt < at
               else
                 && id == rows[k - |order|].id && t'[id] == rows[k - |order|].stored
                 && t'[id].createdAt == at + k - |order|
  {
    InsertRows(t, rows);
    if k < |order| {
      assert order[k] in order;
    }
  }

  /** Rows stamped at increasing instants after the newest row extend the order. */
  lemma NewerRows(t: Table, order: seq<Id>, rows: seq<Row>, at: nat)
    requires IsOrder(t, order) && Newer(t, rows, at)
    ensures IsOrder(Insert(t, rows), order + RowIds(rows))
    ensures RowsOf(Insert(t, rows), order + RowIds(rows)) == RowsOf(t, order) + rows
  {
    var (t', order') := (Insert(t, rows), order + RowIds(rows));
    forall i, j | 0 <= i < j < |order'|
      ensures order'[i] in t' && order'[j] in t' && Precedes(t', order'[i], order'[j])
    {
      NewerEntry(t, order, rows, at, i);
      NewerEntry(t, order, rows, at, j);
      if j < |order| {
        assert Precedes(t, order[i], order[j]);
      }
    }
    forall id
      ensures id in order' <==> id in t'
    {
      NewerMembers(t, order, rows, id);
    }
    forall k | 0 <= k < |order'|
      ensures RowsOf(t', order')[k] == (RowsOf(t, order) + rows)[k]
    {
      NewerEntry(t, order, rows, at, k);
    }
  }

  lemma NewerMembers(t: Table, order: seq<Id>, rows: seq<Row>, id: Id)
    requires forall k :: k in order <==> k in t
    requires forall i, j | 0 <= i < j < |rows| :: rows[i].id != rows[j].id
    ensures id in order + RowIds(rows) <==> id in Insert(t, rows)
  {
    InsertRows(t, rows);
    if id in RowIds(rows) {
      var i :| 0 <= i < |rows| && RowIds(rows)[i] == id;
      assert rows[i].id == id;
    }
    if i :| 0 <= i < |rows| && rows[i].id == id {
      assert RowIds(rows)[i] == id;
    }
  }

  /** The newest row of a table is the last of its order. */
  lemma LatestIsLast(t: Table, order: seq<Id>, latest: Option<Id>)
    requires IsOrder(t, order) && IsLatest(t, latest)
    ensures LatestHash(t, latest) == HashBefore(RowsOf(t, order), |order|)
  {
    EmptyOrder(t, order);
    if latest.Some? {
      var last := order[|order| - 1];
      assert last in order && latest.value in order;
      forall id | id in t
        ensures id == last || Precedes(t, id, last)
      {
        assert id in order;
        var i :| 0 <= i < |order| && order[i] == id;
        assert i == |order| - 1 || Precedes(t, order[i], order[|order| - 1]);
      }
    }
  }

  /** A chained flush continues a verified chain. */
  lemma ChainedContinues(h: HashFunction, base: seq<Row>, drafts: seq<Draft>, at: nat)
    requires Verified(h, base)
    ensures Verified(h, base + Chained(h, drafts, HashBefore(base, |base|), at))
  {
    var previous := HashBefore(base, |base|);
    var rows := Chained(h, drafts, previous, at);
    var all := base + rows;
    ChainedShape(h, drafts, previous, at);
    forall i | 0 <= i < |all|
      ensures RowOk(h, all[i], HashBefore(all, i))
    {
      if i < |base| {
        assert RowOk(h, base[i], HashBefore(base, i));
      } else {
        assert ChainedAt(h, drafts, previous, at, rows, i - |base|);
      }
    }
  }

  /** The table a flush leaves behind. */
  function Flushed(h: HashFunction, t: Table, latest: Option<Id>, drafts: seq<Draft>, clock: nat): Table
    requires latest.Some? ==> latest.value in t
  {
    Insert(t, Chained(h, drafts, LatestHash(t, latest), NextInstant(t, latest, clock)))
  }

  /**
   * Whatever the wall clock does and whatever identifiers are drawn, a flush takes a
   * verifying table to a verifying table and appends its rows in order.
   */
  lemma FlushVerifies(h: HashFunction, t: Table, latest: Option<Id>, drafts: seq<Draft>, clock: nat)
    requires TableVerifies(h, t) && IsLatest(t, latest) && FreshIds(t, drafts)
    ensures TableVerifies(h, Flushed(h, t, latest, drafts, clock))
  {
    var order :| IsOrder(t, order) && Verified(h, RowsOf(t, order));
    FlushExtendsOrder(h, t, order, latest, drafts, clock);
    LatestIsLast(t, order, latest);
    ChainedContinues(h, RowsOf(t, order), drafts, NextInstant(t, latest, clock));
  }

  /** One flush: what the query found, the new objects and the wall clock. */
  datatype Flush = Flush(latest: Option<Id>, drafts: seq<Draft>, clock: nat)

  /** The tables of a run: each flush starts from the table the previous one left. */
  ghost predicate IsRun(h: HashFunction, tables: seq<Table>, flushes: seq<Flush>) {
    && |tables| == |flushes| + 1
    && forall i | 0 <= i < |flushes| ::
         && IsLatest(tables[i], flushes[i].latest) && FreshIds(tables[i], flushes[i].drafts)
         && tables[i + 1] == Flushed(h, tables[i], flushes[i].latest, flushes[i].drafts, flushes[i].clock)
  }

  lemma EmptyTableVerifies(h: HashFunction)
    ensures TableVerifies(h, map[])
  {
    assert IsOrder(map[], []);
  }

  /** Every run of flushes, from an empty table or from any verifying one, verifies throughout. */
  lemma {:induction false} RunVerifies(h: HashFunction, tables: seq<Table>, flushes: seq<Flush>, n: nat)
    requires IsRun(h, tables, flushes) && n <= |flushes|
    requires tables[0] == map[] || TableVerifies(h, tables[0])
    ensures TableVerifies(h, tables[n])
  {
    if n == 0 {
      EmptyTableVerifies(h);
    } else {
      RunVerifies(h, tables, flushes, n - 1);
      var f := flushes[n - 1];
      FlushVerifies(h, tables[n - 1], f.latest, f.drafts, f.clock);
    }
  }

  /** Only the two hash columns differ. */
  predicate OnlyHashesDiffer(a: Stored, b: Stored) {
    a.content == b.content && a.createdAt == b.createdAt
  }

  /** Where the stamps of a flush begin: at the clock if it is past every row, else just after the newest row. */
  ghost predicate StartsAt(t: Table, clock: nat, at: nat) {
    if forall id | id in t :: t[id].createdAt < clock then at == clock
    else exists newest :: newest in t && at == t[newest].createdAt + 1
                          && forall id | id in t :: t[id].createdAt <= t[newest].createdAt
  }

  /** The new row `i`: its draft's content, a microsecond after the one before, and linked to it. */
  ghost predicate AppendedAt(h: HashFunction, t: Table, after: Table, drafts: seq<Draft>, latest: Option<Id>, at: nat,
                             i: nat)
    requires i < |drafts| && (latest.Some? ==> latest.value in t)
  {
    && drafts[i].id in after
    && var row := after[drafts[i].id];
       && row.content == drafts[i].content && row.createdAt == at + i
       && (if i == 0 then row.previousHash == (if latest.None? then None else Some(t[latest.value].hash))
           else drafts[i - 1].id in after && row.previousHash == Some(after[drafts[i - 1].id].hash))
       && row.hash == IntegrityHash(h, row.previousHash, drafts[i].id, row.content, row.createdAt)
  }

  /** What a flush adds: the drafts, in order, and no other change. */
  ghost predicate Appended(h: HashFunction, t: Table, after: Table, drafts: seq<Draft>, latest: Option<Id>, clock: nat)
    requires latest.Some? ==> latest.value in t
  {
    && (forall id :: id in after <==> id in t || exists i :: 0 <= i < |drafts| && drafts[i].id == id)
    && (forall id | id in t :: id in after && after[id] == t[id])
    && exists at: nat :: StartsAt(t, clock, at)
                         && forall i: nat | i < |drafts| :: AppendedAt(h, t, after, drafts, latest, at, i)
  }

  lemma InstantStarts(t: Table, latest: Option<Id>, clock: nat)
    requires IsLatest(t, latest)
    ensures StartsAt(t, clock, NextInstant(t, latest, clock))
  {
    if latest.Some? {
      assert forall id | id in t && id != latest.value :: Precedes(t, id, latest.value);
      assert forall id | id in t :: t[id].createdAt <= t[latest.value].createdAt;
    }
  }

  lemma FlushAppends(h: HashFunction, t: Table, latest: Option<Id>, drafts: seq<Draft>, clock: nat)
    requires IsLatest(t, latest) && FreshIds(t, drafts)
    ensures Appended(h, t, Flushed(h, t, latest, drafts, clock), drafts, latest, clock)
  {
    hide Insert, Chained, NextInstant, StartsAt;
    var at := NextInstant(t, latest, clock);
    var rows := Chained(h, drafts, LatestHash(t, latest), at);
    var after := Flushed(h, t, latest, drafts, clock);
    InstantStarts(t, latest, clock);
    ChainedShape(h, drafts, LatestHash(t, latest), at);
    forall i: nat | i < |drafts|
      ensures rows[i].id == drafts[i].id
    {
      assert ChainedAt(h, drafts, LatestHash(t, latest), at, rows, i);
    }
    InsertRows(t, rows);
    forall i: nat | i < |drafts|
      ensures AppendedAt(h, t, after, drafts, latest, at, i)
    {
      assert ChainedAt(h, drafts, LatestHash(t, latest), at, rows, i);
    }
    forall id
      ensures id in after <==> id in t || exists i :: 0 <= i < |drafts| && drafts[i].id == id
    {
      if i :| 0 <= i < |rows| && rows[i].id == id {
        assert drafts[i].id == id;
      }
      if i :| 0 <= i < |drafts| && drafts[i].id == id {
        assert rows[i].id == id;
      }
    }
  }

  /** The primary key is kept: every draft has an identifier of its own that the table has not. */
  ghost predicate NoClash(t: Table, drafts: seq<Draft>) {
    forall i | 0 <= i < |drafts| ::
      drafts[i].id !in t && forall j | 0 <= j < |drafts| && drafts[j].id == drafts[i].id :: j == i
  }

  lemma ClashesAreFound(t: Table, drafts: seq<Draft>)
    ensures FreshIds(t, drafts) <==> NoClash(t, drafts)
  {
    if NoClash(t, drafts) {
      forall i, j | 0 <= i < j < |drafts|
        ensures drafts[i].id != drafts[j].id
      {
        assert drafts[i].id !in t;
      }
    }
  }

  class AuditLogTable {
    const h: HashFunction
    var table: Table

    constructor (h: HashFunction)
      ensures this.h == h && table == map[]
    {
      this.h := h;
      table := map[];
    }

    /**
     * `set_audit_integrity_hashes` followed by the insert. `latest` is the answer of
     * the hook's query; a clash of primary keys rolls the flush back.
     */
    method FlushRows(drafts: seq<Draft>, latest: Option<Id>, clock: nat) returns (ok: bool)
      requires IsLatest(table, latest)
      modifies this
      ensures ok <==> NoClash(old(table), drafts)
      ensures table == if ok then Flushed(h, old(table), latest, drafts, clock) else old(table)
      ensures ok ==> Appended(h, old(table), table, drafts, latest, clock)
      ensures TableVerifies(h, old(table)) ==> TableVerifies(h, table)
    {
      hide TableVerifies, FreshIds, NoClash, Insert, Chained, IntegrityHash, Appended;
      ClashesAreFound(table, drafts);
      if !FreshIds(table, drafts) {
        return false;
      }
      if TableVerifies(h, table) {
        FlushVerifies(h, table, latest, drafts, clock);
      }
      var previousHash := LatestHash(table, latest);
      var nextCreatedAt: nat := clock;
      if latest.Some? && nextCreatedAt <= table[latest.value].createdAt {
        nextCreatedAt := table[latest.value].createdAt + 1;
      }
      FlushAppends(h, table, latest, drafts, clock);
      ghost var goal := Flushed(h, table, latest, drafts, clock);
      assert drafts[0..] == drafts;
      for i := 0 to |drafts|
        invariant goal == Insert(table, Chained(h, drafts[i..], previousHash, nextCreatedAt))
      {
        var target := drafts[i];
        var hash := IntegrityHash(h, previousHash, target.id, target.content, nextCreatedAt);
        InsertNext(h, table, drafts, i, previousHash, nextCreatedAt);
        table := table[target.id := Stored(target.content, nextCreatedAt, previousHash, hash)];
        previousHash := Some(hash);
        nextCreatedAt := nextCreatedAt + 1;
      }
      InsertNothing(h, table, drafts, previousHash, nextCreatedAt);
      return true;
    }

    /** `_rebuild_chain`: rewrite the hash columns of any legacy table along its order. */
    method RebuildChain(order: seq<Id>)
      requires IsOrder(table, order)
      modifies this
      ensures table.Keys == old(table).Keys && IsOrder(table, order)
      ensures forall id | id in table :: OnlyHashesDiffer(table[id], old(table)[id])
      ensures TableVerifies(h, table)
    {
      hide RowOk, IsOrder, IntegrityHash;
      var previousHash: Option<Hash> := None;
      NothingRebuilt(h, table, order);
      for i := 0 to |order|
        invariant RebuiltUpTo(h, old(table), table, order, i)
        invariant previousHash == HashBefore(RowsOf(table, order), i)
      {
        var row := table[order[i]];
        var hash := IntegrityHash(h, previousHash, order[i], row.content, row.createdAt);
        RebuildStep(h, old(table), table, order, i);
        table := table[order[i] := row.(previousHash := previousHash, hash := hash)];
        previousHash := Some(hash);
      }
      SameOrder(old(table), table, order);
      RebuiltVerifies(h, old(table), table, order);
    }
  }

  lemma InsertNext(h: HashFunction, t: Table, drafts: seq<Draft>, i: nat, previous: Option<Hash>, at: nat)
    requires i < |drafts|
    ensures var d := drafts[i];
            var hash := IntegrityHash(h, previous, d.id, d.content, at);
            Insert(t, Chained(h, drafts[i..], previous, at))
            == Insert(t[d.id := Stored(d.content, at, previous, hash)], Chained(h, drafts[i + 1..], Some(hash), at + 1))
  {
    assert drafts[i..][1..] == drafts[i + 1..];
    var rows := Chained(h, drafts[i..], previous, at);
    assert rows[1..] == Chained(h, drafts[i..][1..], Some(rows[0].stored.hash), at + 1);
  }

  lemma InsertNothing(h: HashFunction, t: Table, drafts: seq<Draft>, previous: Option<Hash>, at: nat)
    ensures Insert(t, Chained(h, drafts[|drafts|..], previous, at)) == t
  {
  }

  /** The first `i` rows of the order are rechained; nothing but hash columns has changed. */
  ghost predicate RebuiltUpTo(h: HashFunction, first: Table, t: Table, order: seq<Id>, i: nat) {
    && IsOrder(first, order) && i <= |order|
    && t.Keys == first.Keys && (forall id :: id in order ==> id in t)
    && (forall id | id in t :: OnlyHashesDiffer(t[id], first[id]))
    && Verified(h, RowsOf(t, order)[..i])
  }

  lemma NothingRebuilt(h: HashFunction, t: Table, order: seq<Id>)
    requires IsOrder(t, order)
    ensures RebuiltUpTo(h, t, t, order, 0)
  {
  }

  lemma RebuildStep(h: HashFunction, first: Table, t: Table, order: seq<Id>, i: nat)
    requires RebuiltUpTo(h, first, t, order, i) && i < |order|
    ensures order[i] in t
    ensures var (previous, row) := (HashBefore(RowsOf(t, order), i), t[order[i]]);
            var hash := IntegrityHash(h, previous, order[i], row.content, row.createdAt);
            var t' := t[order[i] := row.(previousHash := previous, hash := hash)];
            RebuiltUpTo(h, first, t', order, i + 1) && HashBefore(RowsOf(t', order), i + 1) == Some(hash)
  {
    assert order[i] in order;
    var (previous, row) := (HashBefore(RowsOf(t, order), i), t[order[i]]);
    var hash := IntegrityHash(h, previous, order[i], row.content, row.createdAt);
    var t' := t[order[i] := row.(previousHash := previous, hash := hash)];
    RewriteOne(first, t, t', order, i);
    var (before, after) := (RowsOf(t, order), RowsOf(t', order));
    var done := after[..i + 1];
    forall j | 0 <= j < |done|
      ensures RowOk(h, done[j], HashBefore(done, j))
    {
      if j < i {
        assert RowOk(h, before[..i][j], HashBefore(before[..i], j));
      }
    }
  }

  lemma RebuiltVerifies(h: HashFunction, first: Table, t: Table, order: seq<Id>)
    requires RebuiltUpTo(h, first, t, order, |order|) && IsOrder(t, order)
    ensures TableVerifies(h, t)
  {
    assert RowsOf(t, order)[..|order|] == RowsOf(t, order);
  }

  /** Rewriting the row at position `i` leaves the rows at other positions alone. */
  lemma RewriteOne(first: Table, before: Table, after: Table, order: seq<Id>, i: nat)
    requires IsOrder(first, order) && before.Keys == first.Keys && i < |order| && order[i] in before
    requires after.Keys == before.Keys && forall id | id in before && id != order[i] :: after[id] == before[id]
    ensures forall id :: id in order ==> id in before && id in after
    ensures forall j | 0 <= j < |order| && j != i :: RowsOf(after, order)[j] == RowsOf(before, order)[j]
  {
    forall j | 0 <= j < |order| && j != i
      ensures order[j] in before && order[j] != order[i]
    {
      assert order[j] in order;
      if j < i {
        assert Precedes(first, order[j], order[i]);
      } else {
        assert Precedes(first, order[i], order[j]);
      }
    }
  }

  lemma SameOrder(a: Table, b: Table, order: seq<Id>)
    requires IsOrder(a, order) && a.Keys == b.Keys && forall id | id in b :: OnlyHashesDiffer(b[id], a[id])
    ensures IsOrder(b, order)
  {
    forall i, j | 0 <= i < j < |order|
      ensures order[i] in b && order[j] in b && Precedes(b, order[i], order[j])
    {
      assert Precedes(a, order[i], order[j]);
    }
  }
}
