/** The acquisition planner: unresolved coverage cells, in a fixed order, as frontier needs. */
module AcquisitionPlanner {
  import opened Common

  datatype CoverageState =
    | Complete | NotApplicable
    | Conflicting | Quarantined | Failed | Blocked | Partial | NotYetAcquired | NotStated | Unknown

  predicate Terminal(state: CoverageState) {
    state in {Complete, NotApplicable}
  }

  /** _STATE_PRIORITY, and 99 for a state it does not list. */
  function Priority(state: CoverageState): nat {
    match state
    case Conflicting => 0
    case Quarantined => 1
    case Failed => 2
    case Blocked => 3
    case Partial => 4
    case NotYetAcquired => 5
    case NotStated => 6
    case Unknown => 7
    case _ => 99
  }

  datatype Cell = Cell(
    id: nat, candidate: nat, objective: string, nodeId: nat, state: CoverageState, required: bool,
    reason: string, missing: seq<string>, version: string
  )

  datatype Node = Node(id: nat, candidate: nat, nodeType: string, canonical: string, lifecycle: string,
                       displayLabel: string)

  /** One result of the join. */
  datatype Row = Row(cell: Cell, node: Node)

  datatype Need = Need(
    objective: string, scopeType: string, scopeKey: string, lifecycle: Option<string>, state: CoverageState,
    reasons: seq<string>, keywords: seq<string>
  )

  datatype Plan = Plan(candidate: nat, needs: seq<Need>, revision: Option<string>)

  /** Text operations of the platform: whitespace collapsing, case folding, underscores to spaces. */
  datatype Text = Text(clean: string -> string, fold: string -> string, spaced: string -> string)

  // ---- Keywords ---------------------------------------------------------------------------------

  function Distinct(values: seq<string>, t: Text): seq<string> {
    if values == [] then []
    else
      var before, item := Distinct(values[..|values| - 1], t), t.clean(values[|values| - 1]);
      if item == "" || t.fold(item) in Folds(before, t) then before else before + [item]
  }

  function Folds(items: seq<string>, t: Text): set<string> {
    set s | s in items :: t.fold(s)
  }

  function Cut(s: string): string {
    if |s| <= 160 then s else s[..160]
  }

  function Keywords(values: seq<string>, t: Text): seq<string> {
    var items := Distinct(values, t);
    seq(if |items| <= 32 then |items| else 32, i requires 0 <= i < |items| => Cut(items[i]))
  }

  /** Items are the non-empty cleaned values, one for each folded form, and none is missing. */
  lemma {:induction false} DistinctItems(values: seq<string>, t: Text)
    ensures forall i, j :: 0 <= i < j < |Distinct(values, t)| ==>
      t.fold(Distinct(values, t)[i]) != t.fold(Distinct(values, t)[j])
    ensures forall s :: s in Distinct(values, t) ==> s != "" && exists v :: v in values && t.clean(v) == s
    ensures forall v :: v in values && t.clean(v) != "" ==> t.fold(t.clean(v)) in Folds(Distinct(values, t), t)
  {
    if values != [] {
      var front, last := values[..|values| - 1], values[|values| - 1];
      DistinctItems(front, t);
      assert values == front + [last];
    }
  }

  method NormalizedKeywords(values: seq<string>, t: Text) returns (r: seq<string>)
    ensures r == Keywords(values, t)
    ensures |r| <= 32 && forall s :: s in r ==> |s| <= 160
  {
    var items: seq<string> := [];
    var seen: set<string> := {};
    for i := 0 to |values|
      invariant items == Distinct(values[..i], t)
      invariant seen == Folds(items, t)
    {
      assert values[..i + 1][..i] == values[..i];
      var item := t.clean(values[i]);
      if item == "" {
        continue;
      }
      var folded := t.fold(item);
      if folded in seen {
        continue;
      }
      seen := seen + {folded};
      items := items + [item];
    }
    assert values[..|values|] == values;
    r := seq(if |items| <= 32 then |items| else 32, i requires 0 <= i < |items| => Cut(items[i]));
  }

  // ---- Sort keys --------------------------------------------------------------------------------

  /** Lexicographic order on code points. */
  predicate StringLeq(a: string, b: string) {
    a == [] || (b != [] && (a[0] < b[0] || (a[0] == b[0] && StringLeq(a[1..], b[1..]))))
  }

  /** Tuples of strings compare by their first difference. */
  predicate TextsLeq(a: seq<string>, b: seq<string>) {
    a == [] || (b != [] && (if a[0] == b[0] then TextsLeq(a[1..], b[1..]) else StringLeq(a[0], b[0])))
  }

  datatype SortKey = SortKey(priority: nat, texts: seq<string>)

  predicate Leq(a: SortKey, b: SortKey) {
    a.priority < b.priority || (a.priority == b.priority && TextsLeq(a.texts, b.texts))
  }

  function KeyOf(r: Row): SortKey {
    SortKey(Priority(r.cell.state), [r.cell.objective, r.node.nodeType, r.node.lifecycle, r.node.canonical])
  }

  lemma {:induction false} StringOrder(a: string, b: string, c: string)
    ensures StringLeq(a, b) || StringLeq(b, a)
    ensures StringLeq(a, b) && StringLeq(b, a) ==> a == b
    ensures StringLeq(a, b) && StringLeq(b, c) ==> StringLeq(a, c)
    decreases |a|
  {
    if a != [] && b != [] {
      StringOrder(a[1..], b[1..], if c == [] then [] else c[1..]);
      if a[0] == b[0] && a[1..] == b[1..] {
        assert a == [a[0]] + a[1..] && b == [b[0]] + b[1..];
      }
    }
  }

  lemma {:induction false} TextsOrder(a: seq<string>, b: seq<string>, c: seq<string>)
    ensures TextsLeq(a, b) || TextsLeq(b, a)
    ensures TextsLeq(a, b) && TextsLeq(b, a) ==> a == b
    ensures TextsLeq(a, b) && TextsLeq(b, c) ==> TextsLeq(a, c)
    decreases |a|
  {
    if a != [] && b != [] {
      StringOrder(a[0], b[0], if c == [] then "" else c[0]);
      StringOrder(b[0], if c == [] then "" else c[0], a[0]);
      TextsOrder(a[1..], b[1..], if c == [] then [] else c[1..]);
      if a[0] == b[0] && a[1..] == b[1..] {
        assert a == [a[0]] + a[1..] && b == [b[0]] + b[1..];
      }
    }
  }

  /** Sort keys are totally ordered. */
  lemma LeqOrder(a: SortKey, b: SortKey, c: SortKey)
    ensures Leq(a, b) || Leq(b, a)
    ensures Leq(a, b) && Leq(b, a) ==> a == b
    ensures Leq(a, b) && Leq(b, c) ==> Leq(a, c)
  {
    TextsOrder(a.texts, b.texts, c.texts);
  }

  // ---- The stable sort --------------------------------------------------------------------------

  /** `r` placed after every row that does not sort after it. */
  function Placed(s: seq<Row>, r: Row): seq<Row> {
    if s == [] || Leq(KeyOf(s[|s| - 1]), KeyOf(r)) then s + [r]
    else Placed(s[..|s| - 1], r) + [s[|s| - 1]]
  }

  function Sorted(s: seq<Row>): seq<Row> {
    if s == [] then [] else Placed(Sorted(s[..|s| - 1]), s[|s| - 1])
  }

  ghost predicate Ordered(s: seq<Row>) {
    forall i, j :: 0 <= i < j < |s| ==> Leq(KeyOf(s[i]), KeyOf(s[j]))
  }

  lemma {:induction false} PlacedIsOrdered(s: seq<Row>, r: Row)
    requires Ordered(s)
    ensures Ordered(Placed(s, r)) && multiset(Placed(s, r)) == multiset(s) + multiset{r}
  {
    hide Leq, KeyOf;
    if s == [] {
    } else if Leq(KeyOf(s[|s| - 1]), KeyOf(r)) {
      forall i | 0 <= i < |s|
        ensures Leq(KeyOf(s[i]), KeyOf(r))
      {
        LeqOrder(KeyOf(s[i]), KeyOf(s[|s| - 1]), KeyOf(r));
      }
    } else {
      var front, last := s[..|s| - 1], s[|s| - 1];
      PlacedIsOrdered(front, r);
      LeqOrder(KeyOf(r), KeyOf(last), KeyOf(last));
      forall i | 0 <= i < |Placed(front, r)|
        ensures Leq(KeyOf(Placed(front, r)[i]), KeyOf(last))
      {
        assert Placed(front, r)[i] in multiset(Placed(front, r));
        assert Placed(front, r)[i] in front || Placed(front, r)[i] == r;
      }
      assert s == front + [last];
    }
  }

  lemma {:induction false} SortedIsOrdered(s: seq<Row>)
    ensures Ordered(Sorted(s)) && multiset(Sorted(s)) == multiset(s)
  {
    if s != [] {
      SortedIsOrdered(s[..|s| - 1]);
      PlacedIsOrdered(Sorted(s[..|s| - 1]), s[|s| - 1]);
      assert s == s[..|s| - 1] + [s[|s| - 1]];
    }
  }

  /** The first row with a key, if any. */
  function FirstWith(s: seq<Row>, k: SortKey): Option<Row> {
    if s == [] then None
    else
      var before := FirstWith(s[..|s| - 1], k);
      if before.Some? then before else if KeyOf(s[|s| - 1]) == k then Some(s[|s| - 1]) else None
  }

  lemma {:induction false} PlacedKeepsFirst(s: seq<Row>, r: Row, k: SortKey)
    ensures FirstWith(Placed(s, r), k) ==
            if FirstWith(s, k).Some? then FirstWith(s, k) else if KeyOf(r) == k then Some(r) else None
  {
    hide Leq, KeyOf;
    if s == [] || Leq(KeyOf(s[|s| - 1]), KeyOf(r)) {
      assert (s + [r])[..|s|] == s;
    } else {
      var front, last := s[..|s| - 1], s[|s| - 1];
      PlacedKeepsFirst(front, r, k);
      LeqOrder(KeyOf(last), KeyOf(r), KeyOf(r));
      LeqOrder(KeyOf(r), KeyOf(r), KeyOf(r));
      assert (Placed(front, r) + [last])[..|Placed(front, r)|] == Placed(front, r);
    }
  }

  /** Stability: among rows with one key, the one that came first stays first. */
  lemma {:induction false} SortedKeepsFirst(s: seq<Row>, k: SortKey)
    ensures FirstWith(Sorted(s), k) == FirstWith(s, k)
  {
    if s != [] {
      SortedKeepsFirst(s[..|s| - 1], k);
      PlacedKeepsFirst(Sorted(s[..|s| - 1]), s[|s| - 1], k);
    }
  }

  lemma PlacedHere(s: seq<Row>, j: nat, n: nat, r: Row)
    requires j <= n <= |s| && (j == 0 || Leq(KeyOf(s[j - 1]), KeyOf(r)))
    requires Placed(s[..n], r) == Placed(s[..j], r) + s[j..n]
    ensures Placed(s[..n], r) == s[..j] + [r] + s[j..n]
  {
    hide Leq, KeyOf;
    assert j > 0 ==> s[..j][j - 1] == s[j - 1];
  }

  lemma PlacedLower(s: seq<Row>, j: nat, n: nat, r: Row)
    requires 0 < j <= n <= |s| && !Leq(KeyOf(s[j - 1]), KeyOf(r))
    requires Placed(s[..n], r) == Placed(s[..j], r) + s[j..n]
    ensures Placed(s[..n], r) == Placed(s[..j - 1], r) + s[j - 1..n]
  {
    hide Leq, KeyOf;
    assert s[..j][..j - 1] == s[..j - 1] && s[..j][j - 1] == s[j - 1];
    assert [s[j - 1]] + s[j..n] == s[j - 1..n];
  }

  lemma PlacedNowhereYet(s: seq<Row>, n: nat, r: Row)
    requires n <= |s|
    ensures Placed(s[..n], r) == Placed(s[..n], r) + s[n..n]
  {
  }

  /** Moves the row at `n` down past every row that sorts after it. */
  method PlaceInPlace(a: array<Row>, n: nat)
    requires n < a.Length
    modifies a
    ensures a[..n + 1] == Placed(old(a[..n]), old(a[n]))
    ensures forall k :: n < k < a.Length ==> a[k] == old(a[k])
  {
    hide Leq, KeyOf, Placed;
    ghost var before := a[..];
    var r := a[n];
    var j := n;
    PlacedNowhereYet(before, n, r);
    while j > 0 && !Leq(KeyOf(a[j - 1]), KeyOf(r))
      invariant j <= n
      invariant forall k :: 0 <= k < j ==> a[k] == before[k]
      invariant forall k :: j < k <= n ==> a[k] == before[k - 1]
      invariant forall k :: n < k < a.Length ==> a[k] == before[k]
      invariant Placed(before[..n], r) == Placed(before[..j], r) + before[j..n]
    {
      PlacedLower(before, j, n, r);
      a[j] := a[j - 1];
      j := j - 1;
    }
    a[j] := r;
    PlacedHere(before, j, n, r);
    Shifted(before, a[..], j, n, r);
  }

  lemma Shifted(before: seq<Row>, after: seq<Row>, j: nat, n: nat, r: Row)
    requires j <= n < |before| == |after| && after[j] == r
    requires forall k :: 0 <= k < j ==> after[k] == before[k]
    requires forall k :: j < k <= n ==> after[k] == before[k - 1]
    ensures after[..n + 1] == before[..j] + [r] + before[j..n]
  {
  }

  /** The stable sort of the rows, in place. */
  method SortInPlace(a: array<Row>)
    modifies a
    ensures a[..] == Sorted(old(a[..]))
  {
    hide Placed;
    ghost var before := a[..];
    for n := 0 to a.Length
      invariant a[..n] == Sorted(before[..n]) && forall k :: n <= k < a.Length ==> a[k] == before[k]
    {
      assert before[..n + 1][..n] == before[..n];
      PlaceInPlace(a, n);
    }
    assert before[..a.Length] == before && a[..a.Length] == a[..];
  }

  // ---- Keys of a sorted list are determined by its contents -------------------------------------

  function Count(s: seq<Row>, k: SortKey): nat {
    if s == [] then 0 else Count(s[..|s| - 1], k) + (if KeyOf(s[|s| - 1]) == k then 1 else 0)
  }

  lemma {:induction false} CountSplits(a: seq<Row>, b: seq<Row>, k: SortKey)
    ensures Count(a + b, k) == Count(a, k) + Count(b, k)
  {
    if b == [] {
      assert a + b == a;
    } else {
      CountSplits(a, b[..|b| - 1], k);
      assert (a + b)[..|a + b| - 1] == a + b[..|b| - 1];
    }
  }

  lemma {:induction false} CountOfPermutation(a: seq<Row>, b: seq<Row>, k: SortKey)
    requires multiset(a) == multiset(b)
    ensures Count(a, k) == Count(b, k)
  {
    if a == [] {
      assert |b| == |multiset(b)| == 0;
    } else {
      var front, last := a[..|a| - 1], a[|a| - 1];
      assert a == front + [last];
      assert last in multiset(b);
      var j :| 0 <= j < |b| && b[j] == last;
      var rest := b[..j] + b[j + 1..];
      assert b == b[..j] + [last] + b[j + 1..];
      assert multiset(rest) == multiset(b) - multiset{last};
      CountOfPermutation(front, rest, k);
      CountWithout(b, j, k);
    }
  }

  lemma CountWithout(b: seq<Row>, j: nat, k: SortKey)
    requires j < |b|
    ensures Count(b, k) == Count(b[..j] + b[j + 1..], k) + (if KeyOf(b[j]) == k then 1 else 0)
  {
    assert b == b[..j] + [b[j]] + b[j + 1..];
    assert Count([b[j]], k) == (if KeyOf(b[j]) == k then 1 else 0);
    hide Count, KeyOf;
    CountSplits(b[..j], b[j + 1..], k);
    CountSplits(b[..j] + [b[j]], b[j + 1..], k);
    CountSplits(b[..j], [b[j]], k);
  }

  lemma {:induction false} CountedIsThere(s: seq<Row>, k: SortKey)
    ensures Count(s, k) > 0 <==> exists i :: 0 <= i < |s| && KeyOf(s[i]) == k
  {
    if s != [] {
      CountedIsThere(s[..|s| - 1], k);
      if Count(s[..|s| - 1], k) > 0 {
        var i :| 0 <= i < |s| - 1 && KeyOf(s[..|s| - 1][i]) == k;
        assert KeyOf(s[i]) == k;
      }
    }
  }

  lemma {:induction false} OrderedKeysAgree(a: seq<Row>, b: seq<Row>)
    requires Ordered(a) && Ordered(b) && |a| == |b|
    requires forall k :: Count(a, k) == Count(b, k)
    ensures forall i :: 0 <= i < |a| ==> KeyOf(a[i]) == KeyOf(b[i])
  {
    hide Leq, KeyOf;
    if a != [] {
      var x, y := a[|a| - 1], b[|b| - 1];
      LastIsGreatest(a, b);
      LastIsGreatest(b, a);
      LeqOrder(KeyOf(x), KeyOf(y), KeyOf(y));
      var front, back := a[..|a| - 1], b[..|b| - 1];
      forall k
        ensures Count(front, k) == Count(back, k)
      {
        assert Count(a, k) == Count(b, k);
      }
      OrderedKeysAgree(front, back);
    }
  }

  lemma LastIsGreatest(a: seq<Row>, b: seq<Row>)
    requires Ordered(b) && a != [] && |a| == |b|
    requires forall k :: Count(a, k) == Count(b, k)
    ensures Leq(KeyOf(a[|a| - 1]), KeyOf(b[|b| - 1]))
  {
    hide Leq, KeyOf;
    var k := KeyOf(a[|a| - 1]);
    CountedIsThere(a, k);
    CountedIsThere(b, k);
    var i :| 0 <= i < |b| && KeyOf(b[i]) == k;
    LeqOrder(k, k, k);
  }

  lemma SortedKeysAgree(p: seq<Row>, q: seq<Row>)
    requires multiset(p) == multiset(q)
    ensures |Sorted(p)| == |Sorted(q)|
    ensures forall i :: 0 <= i < |Sorted(p)| ==> KeyOf(Sorted(p)[i]) == KeyOf(Sorted(q)[i])
  {
    SortedIsOrdered(p);
    SortedIsOrdered(q);
    assert |Sorted(p)| == |multiset(Sorted(p))| == |multiset(Sorted(q))| == |Sorted(q)|;
    forall k
      ensures Count(Sorted(p), k) == Count(Sorted(q), k)
    {
      CountOfPermutation(Sorted(p), Sorted(q), k);
    }
    OrderedKeysAgree(Sorted(p), Sorted(q));
  }

  // ---- The plan ---------------------------------------------------------------------------------

  function Unresolved(rows: seq<Row>): seq<Row> {
    if rows == [] then []
    else
      var before, last := Unresolved(rows[..|rows| - 1]), rows[|rows| - 1];
      if Terminal(last.cell.state) then before else before + [last]
  }

  function NeedOf(r: Row, seeds: seq<string>, t: Text): Need {
    Need(r.cell.objective, r.node.nodeType, r.node.canonical,
         if r.node.lifecycle == "" then None else Some(r.node.lifecycle), r.cell.state,
         if r.cell.missing == [] then [r.cell.reason] else r.cell.missing,
         Keywords(seeds + [r.node.displayLabel, t.spaced(r.node.canonical)], t))
  }

  const DEFAULT_OBJECTIVES := [
    "identity", "programmes", "programme_details", "routes", "eligibility", "eligibility_context",
    "documents_core", "documents_requirements", "documents_counts", "documents_format", "funding",
    "application_timeline"
  ]

  function DefaultNeed(objective: string, seeds: seq<string>, t: Text): Need {
    Need(objective, "scholarship_family", "scholarship", None, Unknown, ["initial_acquisition_frontier"],
         Keywords(seeds, t))
  }

  function Versions(rows: seq<Row>): set<string> {
    set r | r in rows && r.cell.version != "" :: r.cell.version
  }

  /** The evaluator version, when all rows that name one name the same. */
  ghost function Revision(rows: seq<Row>): Option<string> {
    if exists v :: Versions(rows) == {v} then
      var v :| Versions(rows) == {v};
      Some(v)
    else None
  }

  function NeedsOf(order: seq<Row>, seeds: seq<string>, t: Text): seq<Need> {
    seq(|order|, i requires 0 <= i < |order| => NeedOf(order[i], seeds, t))
  }

  ghost function PlanOf(candidate: nat, rows: seq<Row>, seeds: seq<string>, t: Text): Plan {
    if rows == [] then
      Plan(candidate,
           seq(|DEFAULT_OBJECTIVES|, i requires 0 <= i < |DEFAULT_OBJECTIVES| =>
             DefaultNeed(DEFAULT_OBJECTIVES[i], seeds, t)),
           None)
    else
      var order := Sorted(Unresolved(rows));
      Plan(candidate, NeedsOf(order, seeds, t), Revision(rows))
  }

  /** The rows that still need something, and the evaluator versions of all rows. */
  method SplitRows(rows: seq<Row>) returns (unresolved: seq<Row>, revisions: set<string>)
    ensures unresolved == Unresolved(rows) && revisions == Versions(rows)
  {
    unresolved, revisions := [], {};
    for i := 0 to |rows|
      invariant unresolved == Unresolved(rows[..i]) && revisions == Versions(rows[..i])
    {
      var cell := rows[i].cell;
      assert rows[..i + 1][..i] == rows[..i];
      VersionsOneMore(rows[..i], rows[i]);
      assert rows[..i + 1] == rows[..i] + [rows[i]];
      if !Terminal(cell.state) {
        unresolved := unresolved + [rows[i]];
      }
      if cell.version != "" {
        revisions := revisions + {cell.version};
      }
    }
    assert rows[..|rows|] == rows;
  }

  lemma VersionsOneMore(rows: seq<Row>, r: Row)
    ensures Versions(rows + [r]) == Versions(rows) + (if r.cell.version != "" then {r.cell.version} else {})
  {
    var more := Versions(rows) + (if r.cell.version != "" then {r.cell.version} else {});
    forall v
      ensures v in Versions(rows + [r]) <==> v in more
    {
      assert r in rows + [r];
      assert forall x :: x in rows ==> x in rows + [r];
      assert forall x :: x in rows + [r] ==> x in rows || x == r;
    }
  }

  /** The needs to begin with when there is no row yet. */
  method DefaultNeeds(seeds: seq<string>, t: Text) returns (needs: seq<Need>)
    ensures |needs| == |DEFAULT_OBJECTIVES|
    ensures forall i :: 0 <= i < |needs| ==> needs[i] == DefaultNeed(DEFAULT_OBJECTIVES[i], seeds, t)
  {
    hide Keywords;
    var keywords := NormalizedKeywords(seeds, t);
    needs := [];
    for i := 0 to |DEFAULT_OBJECTIVES|
      invariant |needs| == i
      invariant forall j :: 0 <= j < i ==> needs[j] == DefaultNeed(DEFAULT_OBJECTIVES[j], seeds, t)
    {
      needs := needs + [Need(DEFAULT_OBJECTIVES[i], "scholarship_family", "scholarship", None, Unknown,
                             ["initial_acquisition_frontier"], keywords)];
    }
  }

  method ListNeeds(order: array<Row>, seeds: seq<string>, t: Text) returns (needs: seq<Need>)
    ensures needs == NeedsOf(order[..], seeds, t)
  {
    hide Keywords;
    needs := [];
    for i := 0 to order.Length
      invariant |needs| == i
      invariant forall j :: 0 <= j < i ==> needs[j] == NeedOf(order[j], seeds, t)
    {
      var (cell, node) := (order[i].cell, order[i].node);
      var keywords := NormalizedKeywords(seeds + [node.displayLabel, t.spaced(node.canonical)], t);
      needs := needs + [Need(cell.objective, node.nodeType, node.canonical,
                             if node.lifecycle == "" then None else Some(node.lifecycle), cell.state,
                             if cell.missing == [] then [cell.reason] else cell.missing, keywords)];
    }
  }

  method MakePlan(candidate: nat, rows: seq<Row>, seeds: seq<string>, t: Text) returns (plan: Plan)
    ensures plan == PlanOf(candidate, rows, seeds, t)
  {
    hide Unresolved, Sorted, Versions, NeedsOf, DefaultNeed;
    if rows == [] {
      var defaults := DefaultNeeds(seeds, t);
      return Plan(candidate, defaults, None);
    }
    var unresolved, revisions := SplitRows(rows);
    var revision := None;
    if |revisions| == 1 {
      var v :| v in revisions;
      OnlyOne(revisions, v);
      revision := Some(v);
    } else {
      NotOne(revisions);
    }
    var order := new Row[|unresolved|](i requires 0 <= i < |unresolved| => unresolved[i]);
    assert order[..] == unresolved;
    SortInPlace(order);
    var needs := ListNeeds(order, seeds, t);
    plan := Plan(candidate, needs, revision);
  }

  lemma OnlyOne(s: set<string>, v: string)
    requires |s| == 1 && v in s
    ensures s == {v}
  {
    assert |s - {v}| == 0;
  }

  lemma NotOne(s: set<string>)
    requires |s| != 1
    ensures !exists v :: s == {v}
  {
    forall v
      ensures s != {v}
    {
      assert |{v}| == 1;
    }
  }

  lemma {:induction false} UnresolvedSplits(a: seq<Row>, b: seq<Row>)
    ensures Unresolved(a + b) == Unresolved(a) + Unresolved(b)
  {
    if b == [] {
      assert a + b == a;
    } else {
      UnresolvedSplits(a, b[..|b| - 1]);
      assert (a + b)[..|a + b| - 1] == a + b[..|b| - 1];
    }
  }

  lemma {:induction false} UnresolvedCounts(rows: seq<Row>, r: Row)
    ensures multiset(Unresolved(rows))[r] == if Terminal(r.cell.state) then 0 else multiset(rows)[r]
  {
    if rows != [] {
      UnresolvedCounts(rows[..|rows| - 1], r);
      assert rows == rows[..|rows| - 1] + [rows[|rows| - 1]];
    }
  }

  lemma UnresolvedOfPermutation(p: seq<Row>, q: seq<Row>)
    requires multiset(p) == multiset(q)
    ensures multiset(Unresolved(p)) == multiset(Unresolved(q))
  {
    forall r
      ensures multiset(Unresolved(p))[r] == multiset(Unresolved(q))[r]
    {
      UnresolvedCounts(p, r);
      UnresolvedCounts(q, r);
    }
  }

  /** The plan is the same for every order in which the database may return these rows. */
  ghost predicate Canonical(candidate: nat, rows: seq<Row>, seeds: seq<string>, t: Text) {
    forall other :: multiset(other) == multiset(rows) ==>
      PlanOf(candidate, other, seeds, t) == PlanOf(candidate, rows, seeds, t)
  }

  /** Rows that sort alike ask for the same thing. */
  ghost predicate KeysDecide(rows: seq<Row>, seeds: seq<string>, t: Text) {
    forall x, y :: x in Unresolved(rows) && y in Unresolved(rows) && KeyOf(x) == KeyOf(y) ==>
      NeedOf(x, seeds, t) == NeedOf(y, seeds, t)
  }

  lemma SortedIsIn(s: seq<Row>, i: nat)
    requires i < |Sorted(s)|
    ensures Sorted(s)[i] in s
  {
    SortedIsOrdered(s);
    assert Sorted(s)[i] in multiset(Sorted(s));
  }

  lemma SameNeeds(u: seq<Row>, v: seq<Row>, seeds: seq<string>, t: Text)
    requires multiset(u) == multiset(v)
    requires forall x, y :: x in v && y in v && KeyOf(x) == KeyOf(y) ==> NeedOf(x, seeds, t) == NeedOf(y, seeds, t)
    ensures NeedsOf(Sorted(u), seeds, t) == NeedsOf(Sorted(v), seeds, t)
  {
    hide KeyOf, NeedOf, Sorted;
    SortedKeysAgree(u, v);
    forall i | 0 <= i < |Sorted(u)|
      ensures NeedOf(Sorted(u)[i], seeds, t) == NeedOf(Sorted(v)[i], seeds, t)
    {
      SortedIsIn(u, i);
      SortedIsIn(v, i);
      assert Sorted(u)[i] in multiset(v);
    }
  }

  lemma SameVersions(p: seq<Row>, q: seq<Row>)
    requires multiset(p) == multiset(q)
    ensures Versions(p) == Versions(q)
  {
    forall r
      ensures r in p <==> r in q
    {
      assert r in multiset(p) <==> r in multiset(q);
    }
  }

  lemma SamePlan(candidate: nat, p: seq<Row>, q: seq<Row>, seeds: seq<string>, t: Text)
    requires multiset(p) == multiset(q) && KeysDecide(q, seeds, t)
    ensures PlanOf(candidate, p, seeds, t) == PlanOf(candidate, q, seeds, t)
  {
    hide KeyOf, NeedOf, NeedsOf, Sorted, Unresolved, Versions, Keywords;
    assert |p| == |multiset(p)| == |multiset(q)| == |q|;
    UnresolvedOfPermutation(p, q);
    SameNeeds(Unresolved(p), Unresolved(q), seeds, t);
    SameVersions(p, q);
  }

  lemma {:induction false} FirstNeedsAgree(a: seq<Row>, b: seq<Row>, k: SortKey, seeds: seq<string>, t: Text)
    requires |a| == |b|
    requires forall i :: 0 <= i < |a| ==> KeyOf(a[i]) == KeyOf(b[i]) && NeedOf(a[i], seeds, t) == NeedOf(b[i], seeds, t)
    ensures FirstWith(a, k).Some? <==> FirstWith(b, k).Some?
    ensures FirstWith(a, k).Some? ==> NeedOf(FirstWith(a, k).value, seeds, t) == NeedOf(FirstWith(b, k).value, seeds, t)
  {
    hide KeyOf, NeedOf;
    if a != [] {
      FirstNeedsAgree(a[..|a| - 1], b[..|b| - 1], k, seeds, t);
    }
  }

  lemma {:induction false} FirstOfPair(x: Row, rest: seq<Row>)
    ensures FirstWith([x] + rest, KeyOf(x)) == Some(x)
  {
    hide KeyOf;
    if rest == [] {
      assert [x] + rest == [x];
      assert [x][..0] == [];
    } else {
      FirstOfPair(x, rest[..|rest| - 1]);
      assert ([x] + rest)[..|rest|] == [x] + rest[..|rest| - 1];
    }
  }

  /** With `x` in front, the needs at its key begin with the need of `x`. */
  lemma FrontNeed(x: Row, rest: seq<Row>)
    requires !Terminal(x.cell.state)
    ensures FirstWith(Sorted(Unresolved([x] + rest)), KeyOf(x)) == Some(x)
  {
    UnresolvedSplits([x], rest);
    assert Unresolved([x]) == [x] by { assert [x][..0] == []; }
    FirstOfPair(x, Unresolved(rest));
    SortedKeepsFirst(Unresolved([x] + rest), KeyOf(x));
  }

  lemma TakeOut(rows: seq<Row>, x: Row) returns (rest: seq<Row>)
    requires x in rows
    ensures multiset(rows) == multiset([x] + rest)
  {
    var i :| 0 <= i < |rows| && rows[i] == x;
    rest := rows[..i] + rows[i + 1..];
    assert rows == rows[..i] + [x] + rows[i + 1..];
  }

  lemma {:induction false} UnresolvedIsIn(rows: seq<Row>, x: Row)
    ensures x in Unresolved(rows) <==> x in rows && !Terminal(x.cell.state)
  {
    UnresolvedCounts(rows, x);
    assert x in Unresolved(rows) <==> x in multiset(Unresolved(rows));
    assert x in rows <==> x in multiset(rows);
  }

  lemma SwappedNeedsDiffer(candidate: nat, rows: seq<Row>, seeds: seq<string>, t: Text, x: Row, y: Row)
    requires Canonical(candidate, rows, seeds, t)
    requires x in Unresolved(rows) && y in Unresolved(rows) && KeyOf(x) == KeyOf(y)
    ensures NeedOf(x, seeds, t) == NeedOf(y, seeds, t)
  {
    hide KeyOf, NeedOf;
    UnresolvedIsIn(rows, x);
    UnresolvedIsIn(rows, y);
    var p := TakeOut(rows, x);
    var q := TakeOut(rows, y);
    var a, b := [x] + p, [y] + q;
    assert PlanOf(candidate, a, seeds, t) == PlanOf(candidate, b, seeds, t);
    var u, v := Sorted(Unresolved(a)), Sorted(Unresolved(b));
    UnresolvedOfPermutation(a, b);
    SortedKeysAgree(Unresolved(a), Unresolved(b));
    forall i | 0 <= i < |u|
      ensures NeedOf(u[i], seeds, t) == NeedOf(v[i], seeds, t)
    {
      assert PlanOf(candidate, a, seeds, t).needs[i] == PlanOf(candidate, b, seeds, t).needs[i];
    }
    FirstNeedsAgree(u, v, KeyOf(x), seeds, t);
    FrontNeed(x, p);
    FrontNeed(y, q);
  }

  /** The plan ignores the order of the rows exactly when unresolved rows that sort alike need the same. */
  lemma CanonicalIffKeysDecide(candidate: nat, rows: seq<Row>, seeds: seq<string>, t: Text)
    ensures Canonical(candidate, rows, seeds, t) <==> KeysDecide(rows, seeds, t)
  {
    hide PlanOf, KeyOf, NeedOf;
    if KeysDecide(rows, seeds, t) {
      forall other | multiset(other) == multiset(rows)
        ensures PlanOf(candidate, other, seeds, t) == PlanOf(candidate, rows, seeds, t)
      {
        SamePlan(candidate, other, rows, seeds, t);
      }
    }
    if Canonical(candidate, rows, seeds, t) {
      forall x, y | x in Unresolved(rows) && y in Unresolved(rows) && KeyOf(x) == KeyOf(y)
        ensures NeedOf(x, seeds, t) == NeedOf(y, seeds, t)
      {
        SwappedNeedsDiffer(candidate, rows, seeds, t, x, y);
      }
    }
  }

  // ---- What the schema guarantees ---------------------------------------------------------------

  predicate Joined(cells: set<Cell>, nodes: set<Node>, candidate: nat, r: Row) {
    && r.cell in cells && r.node in nodes
    && r.cell.candidate == candidate && r.cell.required && r.node.id == r.cell.nodeId
  }

  /** The rows are the join's results, each once, in some order. */
  ghost predicate IsJoin(cells: set<Cell>, nodes: set<Node>, candidate: nat, rows: seq<Row>) {
    && (forall r :: r in rows <==> Joined(cells, nodes, candidate, r))
    && (forall i, j :: 0 <= i < j < |rows| ==> rows[i] != rows[j])
  }

  /** The primary keys, the foreign key and the two unique constraints of the coverage tables. */
  ghost predicate SchemaOk(cells: set<Cell>, nodes: set<Node>) {
    && (forall c :: c in cells ==> exists n :: n in nodes && n.id == c.nodeId)
    && (forall a, b :: a in nodes && b in nodes && a.id == b.id ==> a == b)
    && (forall a, b :: a in cells && b in cells && SameCell(a, b) ==> a == b)
    && (forall a, b :: a in nodes && b in nodes && SameNode(a, b) ==> a == b)
  }

  predicate SameCell(a: Cell, b: Cell) {
    a.candidate == b.candidate && a.objective == b.objective && a.nodeId == b.nodeId
  }

  predicate SameNode(a: Node, b: Node) {
    a.candidate == b.candidate && a.nodeType == b.nodeType && a.canonical == b.canonical && a.lifecycle == b.lifecycle
  }

  /** No cell of the candidate hangs on another candidate's node; no constraint of the tables says so. */
  ghost predicate Aligned(rows: seq<Row>) {
    forall r :: r in rows ==> r.node.candidate == r.cell.candidate
  }

  lemma DistinctKeys(cells: set<Cell>, nodes: set<Node>, candidate: nat, rows: seq<Row>, x: Row, y: Row)
    requires SchemaOk(cells, nodes) && IsJoin(cells, nodes, candidate, rows) && Aligned(rows)
    requires x in rows && y in rows && KeyOf(x) == KeyOf(y)
    ensures x == y
  {
    var a, b := KeyOf(x).texts, KeyOf(y).texts;
    assert a[0] == b[0] && a[1] == b[1] && a[2] == b[2] && a[3] == b[3];
  }

  lemma SchemaMakesPlansCanonical(cells: set<Cell>, nodes: set<Node>, candidate: nat, rows: seq<Row>,
                                  seeds: seq<string>, t: Text)
    requires SchemaOk(cells, nodes) && IsJoin(cells, nodes, candidate, rows) && Aligned(rows)
    ensures Canonical(candidate, rows, seeds, t)
  {
    forall x, y | x in Unresolved(rows) && y in Unresolved(rows) && KeyOf(x) == KeyOf(y)
      ensures NeedOf(x, seeds, t) == NeedOf(y, seeds, t)
    {
      UnresolvedIsIn(rows, x);
      UnresolvedIsIn(rows, y);
      DistinctKeys(cells, nodes, candidate, rows, x, y);
    }
    CanonicalIffKeysDecide(candidate, rows, seeds, t);
  }

  const OURS := Row(Cell(1, 1, "funding", 1, Partial, true, "r", [], "v"), Node(1, 1, "cycle", "k", "", "A"))
  const THEIRS := Row(Cell(2, 1, "funding", 2, Partial, true, "s", [], "v"), Node(2, 2, "cycle", "k", "", "A"))

  lemma UnalignedTables()
    ensures SchemaOk({OURS.cell, THEIRS.cell}, {OURS.node, THEIRS.node})
    ensures IsJoin({OURS.cell, THEIRS.cell}, {OURS.node, THEIRS.node}, 1, [OURS, THEIRS])
  {
    assert OURS.node.id == OURS.cell.nodeId && THEIRS.node.id == THEIRS.cell.nodeId;
  }

  /** Without alignment the schema is not enough: two cells on two candidates' equal nodes. */
  lemma UnalignedPlanDepends(t: Text, seeds: seq<string>)
    ensures exists cells, nodes, rows ::
              SchemaOk(cells, nodes) && IsJoin(cells, nodes, 1, rows) && !Canonical(1, rows, seeds, t)
  {
    hide SchemaOk, IsJoin, Canonical, Unresolved, Keywords;
    UnalignedTables();
    var rows := [OURS, THEIRS];
    assert NeedOf(OURS, seeds, t).reasons[0] == "r" && NeedOf(THEIRS, seeds, t).reasons[0] == "s";
    assert "r"[0] != "s"[0];
    UnresolvedIsIn(rows, OURS);
    UnresolvedIsIn(rows, THEIRS);
    CanonicalIffKeysDecide(1, rows, seeds, t);
  }

  /** The rows that make needs are the unresolved ones, each once. */
  lemma OrderHolds(rows: seq<Row>, r: Row)
    requires forall i, j :: 0 <= i < j < |rows| ==> rows[i] != rows[j]
    ensures r in Sorted(Unresolved(rows)) <==> r in rows && !Terminal(r.cell.state)
    ensures multiset(Sorted(Unresolved(rows)))[r] <= 1
  {
    hide Sorted, Unresolved;
    SortedIsOrdered(Unresolved(rows));
    UnresolvedIsIn(rows, r);
    UnresolvedCounts(rows, r);
    OnceEach(rows, r);
    assert r in Sorted(Unresolved(rows)) <==> r in multiset(Sorted(Unresolved(rows)));
    assert r in Unresolved(rows) <==> r in multiset(Unresolved(rows));
  }

  lemma OrderByPriority(rows: seq<Row>, i: nat, j: nat)
    requires i < j < |Sorted(rows)|
    ensures Priority(Sorted(rows)[i].cell.state) <= Priority(Sorted(rows)[j].cell.state)
  {
    hide Sorted, TextsLeq;
    SortedIsOrdered(rows);
    assert Leq(KeyOf(Sorted(rows)[i]), KeyOf(Sorted(rows)[j]));
  }

  /** A plan from some rows lists every required unresolved cell once, nothing else, by priority. */
  lemma PlanListsUnresolvedCells(cells: set<Cell>, nodes: set<Node>, candidate: nat, rows: seq<Row>,
                                 seeds: seq<string>, t: Text)
    returns (order: seq<Row>)
    requires SchemaOk(cells, nodes) && IsJoin(cells, nodes, candidate, rows) && rows != []
    ensures var needs := PlanOf(candidate, rows, seeds, t).needs;
            |needs| == |order| && forall i :: 0 <= i < |needs| ==> needs[i] == NeedOf(order[i], seeds, t)
    ensures forall i :: 0 <= i < |order| ==> Joined(cells, nodes, candidate, order[i]) && !Terminal(order[i].cell.state)
    ensures forall c :: c in cells && c.candidate == candidate && c.required && !Terminal(c.state) ==>
              exists i :: 0 <= i < |order| && order[i].cell == c
    ensures forall i, j :: 0 <= i < j < |order| ==> order[i].cell != order[j].cell
    ensures forall i, j :: 0 <= i < j < |order| ==> Priority(order[i].cell.state) <= Priority(order[j].cell.state)
  {
    hide Sorted, Unresolved, NeedOf, Terminal;
    order := Sorted(Unresolved(rows));
    forall r
      ensures r in order <==> r in rows && !Terminal(r.cell.state)
      ensures multiset(order)[r] <= 1
    {
      OrderHolds(rows, r);
    }
    forall c | c in cells && c.candidate == candidate && c.required && !Terminal(c.state)
      ensures exists i :: 0 <= i < |order| && order[i].cell == c
    {
      var n :| n in nodes && n.id == c.nodeId;
      assert Joined(cells, nodes, candidate, Row(c, n));
      assert Row(c, n) in order;
    }
    forall i, j | 0 <= i < j < |order|
      ensures order[i].cell != order[j].cell
      ensures Priority(order[i].cell.state) <= Priority(order[j].cell.state)
    {
      if order[i].cell == order[j].cell {
        assert order[i] in order && order[j] in order;
        SameRow(cells, nodes, candidate, order[i], order[j]);
        RepeatCounts(order, i, j);
      }
      OrderByPriority(Unresolved(rows), i, j);
    }
  }

  lemma SameRow(cells: set<Cell>, nodes: set<Node>, candidate: nat, a: Row, b: Row)
    requires SchemaOk(cells, nodes) && Joined(cells, nodes, candidate, a) && Joined(cells, nodes, candidate, b)
    requires a.cell == b.cell
    ensures a == b
  {
  }

  lemma OnceEach(rows: seq<Row>, r: Row)
    requires forall i, j :: 0 <= i < j < |rows| ==> rows[i] != rows[j]
    ensures multiset(rows)[r] <= 1
  {
    if r in rows {
      var i :| 0 <= i < |rows| && rows[i] == r;
      assert rows == rows[..i] + [r] + rows[i + 1..];
      assert r !in rows[..i] && r !in rows[i + 1..];
    }
  }

  lemma RepeatCounts(s: seq<Row>, i: nat, j: nat)
    requires i < j < |s| && s[i] == s[j]
    ensures multiset(s)[s[i]] >= 2
  {
    assert s == s[..i] + [s[i]] + s[i + 1..j] + [s[j]] + s[j + 1..];
  }
}
