/**
 * The abstract sliding-window counter both rate-limit stores implement: the full
 * history of accepted times, never trimmed, and an admission test on the half-open
 * window (now - window, now].
 */
module SlidingWindow {

  predicate Sorted(s: seq<nat>) {
    forall i, j | 0 <= i < j < |s| :: s[i] <= s[j]
  }

  /** How many of `accepts` lie in (t - window, t]. */
  function InWindow(accepts: seq<nat>, t: int, window: nat): nat {
    if accepts == [] then 0
    else
      var last := accepts[|accepts| - 1];
      InWindow(accepts[..|accepts| - 1], t, window) + if t - window < last <= t then 1 else 0
  }

  predicate Admits(accepts: seq<nat>, now: nat, limit: nat, window: nat) {
    InWindow(accepts, now, window) < limit
  }

  function Record(accepts: seq<nat>, now: nat, limit: nat, window: nat): seq<nat> {
    if Admits(accepts, now, limit, window) then accepts + [now] else accepts
  }

  /** The promise of the limiter: no window, ending at any instant, holds more than `limit` accepts. */
  ghost predicate Bounded(accepts: seq<nat>, limit: nat, window: nat) {
    forall t: int :: InWindow(accepts, t, window) <= limit
  }

  lemma InWindowSnoc(accepts: seq<nat>, now: nat, t: int, window: nat)
    ensures InWindow(accepts + [now], t, window)
         == InWindow(accepts, t, window) + if t - window < now <= t then 1 else 0
  {
    assert (accepts + [now])[..|accepts|] == accepts;
  }

  /** Once every accept is past, moving the window forward only loses accepts. */
  lemma {:induction false} InWindowShrinks(accepts: seq<nat>, now: nat, t: int, window: nat)
    requires now <= t && forall i | 0 <= i < |accepts| :: accepts[i] <= now
    ensures InWindow(accepts, t, window) <= InWindow(accepts, now, window)
  {
    if accepts != [] {
      InWindowShrinks(accepts[..|accepts| - 1], now, t, window);
    }
  }

  /** One call at a time not before the last accept keeps the promise. */
  lemma RecordKeepsBound(accepts: seq<nat>, now: nat, limit: nat, window: nat)
    requires Bounded(accepts, limit, window)
    requires forall i | 0 <= i < |accepts| :: accepts[i] <= now
    ensures Bounded(Record(accepts, now, limit, window), limit, window)
  {
    if Admits(accepts, now, limit, window) {
      forall t: int
        ensures InWindow(accepts + [now], t, window) <= limit
      {
        InWindowSnoc(accepts, now, t, window);
        if now <= t {
          InWindowShrinks(accepts, now, t, window);
        }
      }
    }
  }

  /** A denied call finds exactly `limit` accepts in its window. */
  lemma RefusedExactlyWhenFull(accepts: seq<nat>, now: nat, limit: nat, window: nat)
    requires Bounded(accepts, limit, window)
    ensures !Admits(accepts, now, limit, window) <==> InWindow(accepts, now, window) == limit
  {
    assert InWindow(accepts, now, window) <= limit;
  }

  // ---- Trimmed histories ------------------------------------------------------------------------

  /** How many leading entries a store drops: those at or before the cutoff. */
  function Stale(s: seq<nat>, cutoff: int): (k: nat)
    ensures k <= |s|
    ensures forall i | 0 <= i < k :: s[i] <= cutoff
    ensures k < |s| ==> s[k] > cutoff
  {
    if s != [] && s[0] <= cutoff then 1 + Stale(s[1..], cutoff) else 0
  }

  function Trim(s: seq<nat>, cutoff: int): seq<nat> {
    s[Stale(s, cutoff)..]
  }

  /** In a sorted history the stale entries are exactly those at or before the cutoff. */
  lemma StaleUnique(s: seq<nat>, cutoff: int, k: nat)
    requires Sorted(s) && k <= |s|
    requires forall i | 0 <= i < k :: s[i] <= cutoff
    requires k < |s| ==> s[k] > cutoff
    ensures Stale(s, cutoff) == k
  {
  }

  lemma StaleSnoc(s: seq<nat>, x: nat, cutoff: int)
    requires Sorted(s + [x])
    ensures Stale(s + [x], cutoff) == if x <= cutoff then |s| + 1 else Stale(s, cutoff)
  {
    var t := s + [x];
    if x <= cutoff {
      assert forall i | 0 <= i < |t| :: t[i] <= t[|s|];
      StaleUnique(t, cutoff, |s| + 1);
    } else {
      var k := Stale(s, cutoff);
      assert forall i | 0 <= i < |s| :: t[i] == s[i];
      StaleUnique(t, cutoff, k);
    }
  }

  /** Counting a window of a sorted past history is counting what trimming leaves. */
  lemma {:induction false} InWindowIsTrimmedLength(accepts: seq<nat>, now: nat, window: nat)
    requires Sorted(accepts) && forall i | 0 <= i < |accepts| :: accepts[i] <= now
    ensures InWindow(accepts, now, window) == |Trim(accepts, now - window)|
  {
    hide Stale;
    if accepts != [] {
      var (n, cutoff) := (|accepts| - 1, now - window);
      InWindowIsTrimmedLength(accepts[..n], now, window);
      assert accepts == accepts[..n] + [accepts[n]];
      StaleSnoc(accepts[..n], accepts[n], cutoff);
    }
  }

  /** Trimming is not disturbed by entries already dropped. */
  lemma TrimSuffix(s: seq<nat>, k: nat, cutoff: int)
    requires Sorted(s) && k <= Stale(s, cutoff)
    ensures Trim(s[k..], cutoff) == Trim(s, cutoff)
  {
    var n := Stale(s, cutoff);
    var t := s[k..];
    assert forall i | 0 <= i < |t| :: t[i] == s[k + i];
    StaleUnique(t, cutoff, n - k);
  }

  /**
   * `kept` is what a store still holds of `accepts` after a call at `last`: a suffix
   * that has lost only entries outside every later window.
   */
  ghost predicate Retains(kept: seq<nat>, accepts: seq<nat>, last: nat, window: nat) {
    && Sorted(accepts)
    && (forall i | 0 <= i < |accepts| :: accepts[i] <= last)
    && exists k: nat :: k <= |accepts| && Drops(kept, accepts, k, last, window)
  }

  ghost predicate Drops(kept: seq<nat>, accepts: seq<nat>, k: nat, last: nat, window: nat)
    requires k <= |accepts|
  {
    kept == accepts[k..] && (k > 0 ==> accepts[k - 1] <= last - window)
  }

  lemma SortedSuffix(s: seq<nat>, k: nat)
    requires Sorted(s) && k <= |s|
    ensures Sorted(s[k..])
  {
  }

  lemma {:induction false} DroppedAreStale(s: seq<nat>, k: nat, cutoff: int)
    requires Sorted(s) && k <= |s| && (k > 0 ==> s[k - 1] <= cutoff)
    ensures k <= Stale(s, cutoff)
  {
    if k > 0 {
      assert s[0] <= cutoff;
      DroppedAreStale(s[1..], k - 1, cutoff);
    }
  }

  /** Trimming what a store kept gives what trimming the full history would. */
  lemma TrimKept(kept: seq<nat>, accepts: seq<nat>, last: nat, now: nat, window: nat)
    requires Retains(kept, accepts, last, window) && last <= now
    ensures Sorted(kept) && Trim(kept, now - window) == Trim(accepts, now - window)
    ensures |Trim(kept, now - window)| == InWindow(accepts, now, window)
    ensures Retains(Trim(kept, now - window), accepts, now, window)
  {
    hide Stale, Sorted, Trim, InWindow;
    var k: nat :| k <= |accepts| && Drops(kept, accepts, k, last, window);
    DroppedAreStale(accepts, k, now - window);
    SortedSuffix(accepts, k);
    TrimSuffix(accepts, k, now - window);
    InWindowIsTrimmedLength(accepts, now, window);
    TrimDrops(accepts, now, window);
  }

  lemma TrimDrops(accepts: seq<nat>, now: nat, window: nat)
    requires Sorted(accepts) && forall i | 0 <= i < |accepts| :: accepts[i] <= now
    ensures Retains(Trim(accepts, now - window), accepts, now, window)
    ensures Sorted(Trim(accepts, now - window))
  {
    hide Sorted;
    SortedSuffix(accepts, Stale(accepts, now - window));
    assert Drops(Trim(accepts, now - window), accepts, Stale(accepts, now - window), now, window);
  }

  /** After an accepted call at `now` the store keeps the new time as well. */
  lemma KeepAccepted(kept: seq<nat>, accepts: seq<nat>, now: nat, window: nat)
    requires Retains(kept, accepts, now, window)
    ensures Retains(kept + [now], accepts + [now], now, window)
  {
    hide Sorted, Drops;
    var k: nat :| k <= |accepts| && Drops(kept, accepts, k, now, window);
    SortedOneMore(accepts, now);
    DropsOneMore(kept, accepts, k, now, window);
  }

  lemma SortedOneMore(s: seq<nat>, last: nat)
    requires Sorted(s) && forall i | 0 <= i < |s| :: s[i] <= last
    ensures Sorted(s + [last])
  {
  }

  lemma DropsOneMore(kept: seq<nat>, accepts: seq<nat>, k: nat, now: nat, window: nat)
    requires k <= |accepts| && Drops(kept, accepts, k, now, window)
    ensures Drops(kept + [now], accepts + [now], k, now, window)
  {
    assert accepts[k..] + [now] == (accepts + [now])[k..];
  }
}
