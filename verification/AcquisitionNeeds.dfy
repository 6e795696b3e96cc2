/** What an acquisition plan says, without the planner's own tables: order, needs, keywords and revision. */
module AcquisitionNeeds {
  import opened Common
  import opened AcquisitionPlanner

  // ---- Urgency ----------------------------------------------------------------------------------

  /** The unresolved states, most urgent first. */
  const URGENCY: seq<CoverageState> :=
    [Conflicting, Quarantined, Failed, Blocked, Partial, NotYetAcquired, NotStated, Unknown]

  /** Coverage is settled when complete or not applicable; every other state has its place in the list. */
  lemma StatesByUrgency(state: CoverageState)
    ensures Terminal(state) <==> state == Complete || state == NotApplicable
    ensures !Terminal(state) ==> Priority(state) < |URGENCY| && URGENCY[Priority(state)] == state
    ensures Terminal(state) ==> Priority(state) >= |URGENCY|
  {
  }

  // ---- The order of the needs -------------------------------------------------------------------

  /** `a` sorts before `b`: at the first difference it ends or has the smaller character. */
  ghost predicate TextBefore(a: string, b: string) {
    exists k: nat :: k <= |a| && k < |b| && a[..k] == b[..k] && (k == |a| || a[k] < b[k])
  }

  lemma {:induction false} StringLeqMeans(a: string, b: string)
    ensures StringLeq(a, b) <==> a == b || TextBefore(a, b)
    decreases |a|
  {
    if a == [] {
      assert b != [] ==> a[..0] == b[..0];
    } else if b != [] {
      StringLeqMeans(a[1..], b[1..]);
      assert a == [a[0]] + a[1..] && b == [b[0]] + b[1..];
      assert a[..0] == b[..0];
      forall k: nat | 0 < k <= |a| && k <= |b| && a[..k] == b[..k]
        ensures a[0] == b[0]
      {
        SameStart(a, b, k);
      }
      if a[0] == b[0] {
        TailBefore(a, b);
      }
    }
  }

  lemma SameStart(a: string, b: string, k: nat)
    requires 0 < k <= |a| && k <= |b| && a[..k] == b[..k]
    ensures a[0] == b[0]
  {
    assert a[..k][0] == b[..k][0];
  }

  lemma TailBefore(a: string, b: string)
    requires a != [] && b != [] && a[0] == b[0]
    ensures TextBefore(a[1..], b[1..]) <==> TextBefore(a, b)
  {
    if TextBefore(a[1..], b[1..]) {
      var k: nat :| k <= |a[1..]| && k < |b[1..]| && a[1..][..k] == b[1..][..k]
                    && (k == |a[1..]| || a[1..][k] < b[1..][k]);
      assert a[..k + 1] == [a[0]] + a[1..][..k] && b[..k + 1] == [b[0]] + b[1..][..k];
      assert k + 1 <= |a| && k + 1 < |b| && a[..k + 1] == b[..k + 1] && (k + 1 == |a| || a[k + 1] < b[k + 1]);
    }
    if TextBefore(a, b) {
      var k: nat :| k <= |a| && k < |b| && a[..k] == b[..k] && (k == |a| || a[k] < b[k]);
      assert k > 0;
      assert a[1..][..k - 1] == a[..k][1..] && b[1..][..k - 1] == b[..k][1..];
      assert a[1..][..k - 1] == b[1..][..k - 1] && (k - 1 == |a[1..]| || a[1..][k - 1] < b[1..][k - 1]);
    }
  }

  /** By urgency, then objective, then the kind of node, its lifecycle and its key. */
  ghost predicate RowBefore(x: Row, y: Row) {
    var (p, q) := (Priority(x.cell.state), Priority(y.cell.state));
    p < q || (p == q && (
      TextBefore(x.cell.objective, y.cell.objective) || (x.cell.objective == y.cell.objective && (
        TextBefore(x.node.nodeType, y.node.nodeType) || (x.node.nodeType == y.node.nodeType && (
          TextBefore(x.node.lifecycle, y.node.lifecycle) || (x.node.lifecycle == y.node.lifecycle &&
            TextBefore(x.node.canonical, y.node.canonical))))))))
  }

  predicate SortAlike(x: Row, y: Row) {
    && Priority(x.cell.state) == Priority(y.cell.state) && x.cell.objective == y.cell.objective
    && x.node.nodeType == y.node.nodeType && x.node.lifecycle == y.node.lifecycle
    && x.node.canonical == y.node.canonical
  }

  lemma OneText(a: string, b: string, rest: seq<string>, more: seq<string>)
    ensures TextsLeq([a] + rest, [b] + more) <==> if a == b then TextsLeq(rest, more) else TextBefore(a, b)
  {
    StringLeqMeans(a, b);
    assert ([a] + rest)[1..] == rest && ([b] + more)[1..] == more;
  }

  /** Rows are compared in exactly this order. */
  lemma KeysCompare(x: Row, y: Row)
    ensures Leq(KeyOf(x), KeyOf(y)) <==> RowBefore(x, y) || SortAlike(x, y)
    ensures KeyOf(x) == KeyOf(y) <==> SortAlike(x, y)
  {
    var a, b := KeyOf(x).texts, KeyOf(y).texts;
    assert a[0] == x.cell.objective && a[1] == x.node.nodeType && a[2] == x.node.lifecycle && a[3] == x.node.canonical;
    assert b[0] == y.cell.objective && b[1] == y.node.nodeType && b[2] == y.node.lifecycle && b[3] == y.node.canonical;
    assert a == b <==> a[0] == b[0] && a[1] == b[1] && a[2] == b[2] && a[3] == b[3];
    hide TextsLeq, TextBefore, Priority;
    assert a == [a[0]] + [a[1], a[2], a[3]] && b == [b[0]] + [b[1], b[2], b[3]];
    assert [a[1], a[2], a[3]] == [a[1]] + [a[2], a[3]] && [b[1], b[2], b[3]] == [b[1]] + [b[2], b[3]];
    assert [a[2], a[3]] == [a[2]] + [a[3]] && [b[2], b[3]] == [b[2]] + [b[3]];
    assert [a[3]] == [a[3]] + [] && [b[3]] == [b[3]] + [];
    OneText(a[0], b[0], [a[1], a[2], a[3]], [b[1], b[2], b[3]]);
    OneText(a[1], b[1], [a[2], a[3]], [b[2], b[3]]);
    OneText(a[2], b[2], [a[3]], [b[3]]);
    OneText(a[3], b[3], [], []);
    NoTexts();
  }

  lemma NoTexts()
    ensures TextsLeq([], [])
  {
  }

  // ---- Keywords ---------------------------------------------------------------------------------

  /** The item is what value `at` cleans to, and no earlier value has its folded form. */
  predicate FirstOccurrence(values: seq<string>, t: Text, item: string, at: nat) {
    && at < |values| && item != "" && item == t.clean(values[at])
    && forall j :: 0 <= j < at ==> t.clean(values[j]) == "" || t.fold(t.clean(values[j])) != t.fold(item)
  }

  lemma NewItem(values: seq<string>, t: Text)
    requires values != []
    requires var n := |values| - 1;
             t.clean(values[n]) != "" && t.fold(t.clean(values[n])) !in Folds(Distinct(values[..n], t), t)
    ensures FirstOccurrence(values, t, t.clean(values[|values| - 1]), |values| - 1)
  {
    var n := |values| - 1;
    DistinctItems(values[..n], t);
    forall j | 0 <= j < n
      ensures t.clean(values[j]) == "" || t.fold(t.clean(values[j])) != t.fold(t.clean(values[n]))
    {
      assert values[..n][j] in values[..n];
    }
  }

  /** A first occurrence stays one when another value is added at the end. */
  lemma StillFirst(values: seq<string>, t: Text, item: string, at: nat)
    requires values != [] && FirstOccurrence(values[..|values| - 1], t, item, at)
    ensures at < |values| - 1 && FirstOccurrence(values, t, item, at)
  {
  }

  /** The distinct items are the first occurrences, in order. */
  lemma {:induction false} ItemsInOrder(values: seq<string>, t: Text) returns (origin: seq<nat>)
    ensures |origin| == |Distinct(values, t)|
    ensures forall i :: 0 <= i < |origin| ==> FirstOccurrence(values, t, Distinct(values, t)[i], origin[i])
    ensures forall i, j :: 0 <= i < j < |origin| ==> origin[i] < origin[j]
  {
    hide FirstOccurrence;
    if values == [] {
      origin := [];
    } else {
      var n := |values| - 1;
      var front := values[..n];
      var before := ItemsInOrder(front, t);
      forall i | 0 <= i < |before|
        ensures FirstOccurrence(values, t, Distinct(front, t)[i], before[i]) && before[i] < n
      {
        StillFirst(values, t, Distinct(front, t)[i], before[i]);
      }
      if t.clean(values[n]) != "" && t.fold(t.clean(values[n])) !in Folds(Distinct(front, t), t) {
        NewItem(values, t);
        origin := before + [n];
      } else {
        origin := before;
      }
    }
  }

  /** At most 32 keywords, each the first 160 characters of its item. */
  lemma KeywordsAreItems(values: seq<string>, t: Text)
    ensures var (items, r) := (Distinct(values, t), Keywords(values, t));
            && |r| == (if |items| > 32 then 32 else |items|)
            && forall i :: 0 <= i < |r| ==> r[i] <= items[i] && |r[i]| == if |items[i]| > 160 then 160 else |items[i]|
  {
  }

  // ---- Needs ------------------------------------------------------------------------------------

  /** A need states its cell and node; without missing reasons the cell's own reason stands. */
  predicate States(need: Need, r: Row, seeds: seq<string>, t: Text) {
    && need.objective == r.cell.objective && need.state == r.cell.state
    && need.scopeType == r.node.nodeType && need.scopeKey == r.node.canonical
    && (need.lifecycle == None <==> r.node.lifecycle == "")
    && (need.lifecycle.Some? ==> need.lifecycle.value == r.node.lifecycle)
    && (r.cell.missing != [] ==> need.reasons == r.cell.missing)
    && (r.cell.missing == [] ==> need.reasons == [r.cell.reason])
    && need.keywords == Keywords(seeds + [r.node.displayLabel] + [t.spaced(r.node.canonical)], t)
  }

  lemma NeedStates(r: Row, seeds: seq<string>, t: Text)
    ensures States(NeedOf(r, seeds, t), r, seeds, t)
  {
    assert seeds + [r.node.displayLabel] + [t.spaced(r.node.canonical)]
        == seeds + [r.node.displayLabel, t.spaced(r.node.canonical)];
  }

  /** The rows with one sort key, in order. */
  function WithKey(s: seq<Row>, k: SortKey): seq<Row> {
    if s == [] then []
    else
      var n := |s| - 1;
      WithKey(s[..n], k) + if KeyOf(s[n]) == k then [s[n]] else []
  }

  /** Those of them whose coverage is not settled. */
  function OpenWithKey(rows: seq<Row>, k: SortKey): seq<Row> {
    if rows == [] then []
    else
      var (n, state) := (|rows| - 1, rows[|rows| - 1].cell.state);
      OpenWithKey(rows[..n], k)
      + if KeyOf(rows[n]) == k && state != Complete && state != NotApplicable then [rows[n]] else []
  }

  lemma WithKeyOneMore(s: seq<Row>, r: Row, k: SortKey)
    ensures WithKey(s + [r], k) == WithKey(s, k) + if KeyOf(r) == k then [r] else []
  {
    assert (s + [r])[..|s|] == s;
  }

  lemma {:induction false} PlacedKeepsOrder(s: seq<Row>, r: Row, k: SortKey)
    ensures WithKey(Placed(s, r), k) == WithKey(s, k) + if KeyOf(r) == k then [r] else []
  {
    hide Leq, KeyOf, WithKey;
    if s == [] || Leq(KeyOf(s[|s| - 1]), KeyOf(r)) {
      WithKeyOneMore(s, r, k);
    } else {
      var front, last := s[..|s| - 1], s[|s| - 1];
      PlacedKeepsOrder(front, r, k);
      LeqOrder(KeyOf(last), KeyOf(r), KeyOf(r));
      LeqOrder(KeyOf(r), KeyOf(r), KeyOf(r));
      assert s == front + [last];
      WithKeyOneMore(front, last, k);
      WithKeyOneMore(Placed(front, r), last, k);
    }
  }

  /** Stability in full: rows that sort alike keep their order. */
  lemma {:induction false} SortedKeepsOrder(s: seq<Row>, k: SortKey)
    ensures WithKey(Sorted(s), k) == WithKey(s, k)
  {
    hide KeyOf;
    if s != [] {
      SortedKeepsOrder(s[..|s| - 1], k);
      PlacedKeepsOrder(Sorted(s[..|s| - 1]), s[|s| - 1], k);
    }
  }

  lemma {:induction false} UnresolvedKeepsOrder(rows: seq<Row>, k: SortKey)
    ensures WithKey(Unresolved(rows), k) == OpenWithKey(rows, k)
  {
    hide KeyOf, WithKey;
    if rows == [] {
      NoneWithKey(k);
    } else {
      var n := |rows| - 1;
      UnresolvedKeepsOrder(rows[..n], k);
      WithKeyOneMore(Unresolved(rows[..n]), rows[n], k);
      StatesByUrgency(rows[n].cell.state);
    }
  }

  lemma NoneWithKey(k: SortKey)
    ensures WithKey([], k) == []
  {
  }

  /** With coverage rows: one need for each unresolved row, sorted, rows that sort alike in the order read. */
  lemma PlanSpelledOut(candidate: nat, rows: seq<Row>, seeds: seq<string>, t: Text) returns (order: seq<Row>)
    requires rows != []
    ensures var plan := PlanOf(candidate, rows, seeds, t);
            && plan.candidate == candidate && |plan.needs| == |order|
            && forall i :: 0 <= i < |order| ==> States(plan.needs[i], order[i], seeds, t)
    ensures forall r :: multiset(order)[r] ==
              if r.cell.state == Complete || r.cell.state == NotApplicable then 0 else multiset(rows)[r]
    ensures forall i, j :: 0 <= i < j < |order| ==> RowBefore(order[i], order[j]) || SortAlike(order[i], order[j])
    ensures forall k :: WithKey(order, k) == OpenWithKey(rows, k)
  {
    hide Sorted, Unresolved, NeedOf, Leq, KeyOf, States, RowBefore, SortAlike, Priority, WithKey, OpenWithKey,
         Keywords;
    order := Sorted(Unresolved(rows));
    SortedIsOrdered(Unresolved(rows));
    forall i | 0 <= i < |order|
      ensures States(PlanOf(candidate, rows, seeds, t).needs[i], order[i], seeds, t)
    {
      NeedStates(order[i], seeds, t);
    }
    forall r
      ensures multiset(order)[r] ==
              if r.cell.state == Complete || r.cell.state == NotApplicable then 0 else multiset(rows)[r]
    {
      UnresolvedCounts(rows, r);
      StatesByUrgency(r.cell.state);
    }
    forall i, j | 0 <= i < j < |order|
      ensures RowBefore(order[i], order[j]) || SortAlike(order[i], order[j])
    {
      KeysCompare(order[i], order[j]);
    }
    forall k
      ensures WithKey(order, k) == OpenWithKey(rows, k)
    {
      SortedKeepsOrder(Unresolved(rows), k);
      UnresolvedKeepsOrder(rows, k);
    }
  }

  /** The objectives every acquisition begins with. */
  const FRONTIER := [
    "identity", "programmes", "programme_details", "routes", "eligibility", "eligibility_context", "documents_core",
    "documents_requirements", "documents_counts", "documents_format", "funding", "application_timeline"
  ]

  /** Without any coverage row the plan asks for these, of the whole family, with the seeds as keywords. */
  lemma FirstPlanSpelledOut(candidate: nat, seeds: seq<string>, t: Text)
    ensures var plan := PlanOf(candidate, [], seeds, t);
            && plan.candidate == candidate && plan.revision == None && |plan.needs| == |FRONTIER| == 12
            && forall i :: 0 <= i < 12 ==>
                 plan.needs[i] == Need(FRONTIER[i], "scholarship_family", "scholarship", None, Unknown,
                                       ["initial_acquisition_frontier"], Keywords(seeds, t))
  {
    hide Keywords;
    assert DEFAULT_OBJECTIVES == FRONTIER;
  }

  /** The revision is the version that some row names and no row contradicts. */
  lemma RevisionMeans(candidate: nat, rows: seq<Row>, seeds: seq<string>, t: Text, v: string)
    requires rows != []
    ensures PlanOf(candidate, rows, seeds, t).revision == Some(v) <==>
            && v != ""
            && (exists r :: r in rows && r.cell.version == v)
            && forall r :: r in rows ==> r.cell.version == "" || r.cell.version == v
  {
    hide Sorted, Unresolved, NeedsOf;
    var vs := Versions(rows);
    if Revision(rows) == Some(v) {
      assert vs == {v};
      assert v in vs;
      forall r | r in rows && r.cell.version != ""
        ensures r.cell.version == v
      {
        assert r.cell.version in vs;
      }
    }
    if v != "" && (exists r :: r in rows && r.cell.version == v)
       && forall r :: r in rows ==> r.cell.version == "" || r.cell.version == v
    {
      assert v in vs;
      assert vs == {v};
    }
  }
}
