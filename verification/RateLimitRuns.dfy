/**
 * Whole runs of one rate-limit key under a clock that never steps back: the two
 * stores answer alike, the answers bound every window, and Retry-After is sound.
 */
module RateLimitRuns {
  import opened Common
  import opened SlidingWindow
  import opened RateLimitStores

  /** The times the abstract counter accepts among the calls at `times`. */
  function Accepts(times: seq<nat>, limit: nat, window: nat): seq<nat> {
    if times == [] then [] else
      var n := |times| - 1;
      Record(Accepts(times[..n], limit, window), times[n], limit, window)
  }

  /** The abstract counter's answer to call `i`. */
  predicate Decision(times: seq<nat>, i: nat, limit: nat, window: nat)
    requires i < |times|
  {
    Admits(Accepts(times[..i], limit, window), times[i], limit, window)
  }

  function LastCall(times: seq<nat>): nat {
    if times == [] then 0 else times[|times| - 1]
  }

  lemma AcceptsSnoc(times: seq<nat>, i: nat, limit: nat, window: nat)
    requires i < |times|
    ensures Accepts(times[..i + 1], limit, window)
         == Record(Accepts(times[..i], limit, window), times[i], limit, window)
  {
    assert times[..i + 1][..i] == times[..i];
  }

  /** Over any run, every half-open window of any position holds at most `limit` accepts. */
  lemma {:induction false} RunBounded(times: seq<nat>, limit: nat, window: nat)
    requires Sorted(times)
    ensures Bounded(Accepts(times, limit, window), limit, window)
    ensures forall i | 0 <= i < |Accepts(times, limit, window)| :: Accepts(times, limit, window)[i] <= LastCall(times)
  {
    if times != [] {
      var n := |times| - 1;
      RunBounded(times[..n], limit, window);
      assert LastCall(times[..n]) <= times[n];
      RecordKeepsBound(Accepts(times[..n], limit, window), times[n], limit, window);
    }
  }

  /** A call is refused exactly when `limit` accepts already lie in (now - window, now]. */
  lemma RefusalExact(times: seq<nat>, i: nat, limit: nat, window: nat)
    requires Sorted(times) && i < |times|
    ensures !Decision(times, i, limit, window)
      <==> InWindow(Accepts(times[..i], limit, window), times[i], window) == limit
  {
    RunBounded(times[..i], limit, window);
    RefusedExactlyWhenFull(Accepts(times[..i], limit, window), times[i], limit, window);
  }

  // ---- Runs of the stores -----------------------------------------------------------------------

  /** Deque contents before each call, and the replies, of the in-memory store on one key. */
  ghost predicate MemoryRun(times: seq<nat>, limit: nat, window: nat, second: nat,
                            states: seq<seq<nat>>, replies: seq<RateLimitResult>)
    requires limit >= 1 && second > 0
  {
    && |states| == |times| + 1 && |replies| == |times| && states[0] == []
    && forall i | 0 <= i < |times| ::
         MemoryConsume(states[i], times[i], limit, window, second) == MemoryStep(states[i + 1], replies[i])
  }

  function Times(ticks: seq<Tick>): (times: seq<nat>)
    ensures |times| == |ticks| && forall i | 0 <= i < |ticks| :: times[i] == ticks[i].now
  {
    seq(|ticks|, i requires 0 <= i < |ticks| => ticks[i].now)
  }

  /** Entries before each call, and the replies, of the Redis store on one key while it is reachable. */
  ghost predicate RedisRun(ticks: seq<Tick>, limit: nat, window: nat,
                           states: seq<Option<Entry>>, replies: seq<RateLimitResult>)
  {
    && |states| == |ticks| + 1 && |replies| == |ticks| && states[0] == None
    && forall i | 0 <= i < |ticks| :: RedisStep(ticks[i], limit, window, states[i], states[i + 1], replies[i])
  }

  ghost predicate RedisStep(tick: Tick, limit: nat, window: nat,
                            before: Option<Entry>, after: Option<Entry>, r: RateLimitResult)
  {
    Legal(before, tick) && Script(Present(before, tick), tick.now, window, limit, tick.member, after, r)
  }

  lemma {:induction false} MemoryTracks(times: seq<nat>, limit: nat, window: nat, second: nat,
                     states: seq<seq<nat>>, replies: seq<RateLimitResult>, n: nat)
    requires limit >= 1 && second > 0 && Sorted(times) && n <= |times|
    requires MemoryRun(times, limit, window, second, states, replies)
    ensures Retains(states[n], Accepts(times[..n], limit, window), LastCall(times[..n]), window)
    ensures forall i | 0 <= i < n :: replies[i].allowed == Decision(times, i, limit, window)
  {
    hide Admits, MemoryConsume, Retains, Sorted;
    if n == 0 {
      NothingRetained(window);
    } else {
      MemoryTracks(times, limit, window, second, states, replies, n - 1);
      var accepts := Accepts(times[..n - 1], limit, window);
      LastCallBefore(times, n - 1);
      MemoryRefines(states[n - 1], accepts, LastCall(times[..n - 1]), times[n - 1], limit, window, second);
      AcceptsSnoc(times, n - 1, limit, window);
    }
  }

  lemma NothingRetained(window: nat)
    ensures Retains([], [], 0, window)
  {
    assert Drops([], [], 0, 0, window);
  }

  lemma LastCallBefore(times: seq<nat>, i: nat)
    requires Sorted(times) && i < |times|
    ensures LastCall(times[..i]) <= times[i] == LastCall(times[..i + 1])
  {
  }

  lemma {:induction false} RedisTracks(ticks: seq<Tick>, limit: nat, window: nat,
                    states: seq<Option<Entry>>, replies: seq<RateLimitResult>, n: nat)
    requires limit >= 1 && Sorted(Times(ticks)) && n <= |ticks|
    requires RedisRun(ticks, limit, window, states, replies)
    ensures Tracks(states[n], Accepts(Times(ticks)[..n], limit, window), LastCall(Times(ticks)[..n]), window)
    ensures forall i | 0 <= i < n :: replies[i].allowed == Decision(Times(ticks), i, limit, window)
  {
    hide Admits, Script, Legal, Tracks, Sorted;
    var times := Times(ticks);
    if n == 0 {
      NothingTracked(window);
    } else {
      RedisTracks(ticks, limit, window, states, replies, n - 1);
      var accepts := Accepts(times[..n - 1], limit, window);
      LastCallBefore(times, n - 1);
      assert RedisStep(ticks[n - 1], limit, window, states[n - 1], states[n], replies[n - 1]);
      ScriptRefines(states[n - 1], accepts, LastCall(times[..n - 1]), ticks[n - 1], limit, window,
                    states[n], replies[n - 1]);
      AcceptsSnoc(times, n - 1, limit, window);
    }
  }

  lemma NothingTracked(window: nat)
    ensures Tracks(None, [], 0, window)
  {
  }

  /** On the same trace the two stores give the same allow/deny sequence. */
  lemma StoresAgree(ticks: seq<Tick>, limit: nat, window: nat, second: nat,
                    deques: seq<seq<nat>>, entries: seq<Option<Entry>>,
                    fromMemory: seq<RateLimitResult>, fromRedis: seq<RateLimitResult>)
    requires limit >= 1 && second > 0 && Sorted(Times(ticks))
    requires MemoryRun(Times(ticks), limit, window, second, deques, fromMemory)
    requires RedisRun(ticks, limit, window, entries, fromRedis)
    ensures forall i | 0 <= i < |ticks| :: fromMemory[i].allowed == fromRedis[i].allowed
  {
    hide MemoryConsume, RedisStep, Decision;
    MemoryTracks(Times(ticks), limit, window, second, deques, fromMemory, |ticks|);
    RedisTracks(ticks, limit, window, entries, fromRedis, |ticks|);
  }

  // ---- Retry-After ------------------------------------------------------------------------------

  /** After a denial, room appears exactly when the oldest counted accept leaves the window. */
  lemma RoomWhenOldestLeaves(accepts: seq<nat>, now: nat, later: nat, limit: nat, window: nat)
    requires limit >= 1 && Sorted(accepts) && Bounded(accepts, limit, window) && now <= later
    requires forall i | 0 <= i < |accepts| :: accepts[i] <= now
    requires !Admits(accepts, now, limit, window)
    ensures var live := Trim(accepts, now - window);
            live != [] && (Admits(accepts, later, limit, window) <==> live[0] + window <= later)
  {
    var live := Trim(accepts, now - window);
    InWindowIsTrimmedLength(accepts, now, window);
    InWindowIsTrimmedLength(accepts, later, window);
    RefusedExactlyWhenFull(accepts, now, limit, window);
    LaterTrim(accepts, now - window, later - window);
  }

  lemma LaterTrim(accepts: seq<nat>, cutoff: int, later: int)
    requires Sorted(accepts) && cutoff <= later
    ensures Trim(accepts, later) == Trim(Trim(accepts, cutoff), later)
  {
    var k := Stale(accepts, cutoff);
    DroppedAreStale(accepts, k, later);
    TrimSuffix(accepts, k, later);
  }

  /** Calls `i` to `j - 1` were all refused, so nothing was accepted from call `i` up to call `j`. */
  lemma {:induction false} RefusedAddNothing(times: seq<nat>, limit: nat, window: nat, i: nat, j: nat)
    requires i <= j <= |times|
    requires forall k | i <= k < j :: !Decision(times, k, limit, window)
    ensures Accepts(times[..j], limit, window) == Accepts(times[..i], limit, window)
    decreases j
  {
    if i < j {
      RefusedAddNothing(times, limit, window, i, j - 1);
      assert !Decision(times, j - 1, limit, window);
      AcceptsSnoc(times, j - 1, limit, window);
    }
  }

  /** What a call finds after a refusal, however many refused calls came in between. */
  lemma RoomAfterRefusals(times: seq<nat>, limit: nat, window: nat, i: nat, j: nat)
    requires limit >= 1 && Sorted(times) && i < j < |times|
    requires forall k | i <= k < j :: !Decision(times, k, limit, window)
    ensures var live := Trim(Accepts(times[..i], limit, window), times[i] - window);
            live != [] && (Decision(times, j, limit, window) <==> live[0] + window <= times[j])
  {
    hide InWindow, Trim;
    RunBounded(times[..i], limit, window);
    LastCallBefore(times, i);
    RefusedAddNothing(times, limit, window, i, j);
    AcceptsSorted(times[..i], limit, window);
    assert !Decision(times, i, limit, window);
    RoomWhenOldestLeaves(Accepts(times[..i], limit, window), times[i], times[j], limit, window);
  }

  lemma {:induction false} AcceptsSorted(times: seq<nat>, limit: nat, window: nat)
    requires Sorted(times)
    ensures Sorted(Accepts(times, limit, window))
  {
    if times != [] {
      var n := |times| - 1;
      AcceptsSorted(times[..n], limit, window);
      RunBounded(times[..n], limit, window);
    }
  }

  /**
   * Redis: with no accept on the key in between, any call made when the advertised seconds are over is
   * admitted, whether it is the next one or others were refused before it; a whole second earlier none is.
   */
  lemma RedisRetryIsSound(ticks: seq<Tick>, limit: nat, window: nat, states: seq<Option<Entry>>,
                          replies: seq<RateLimitResult>, i: nat, j: nat)
    requires limit >= 1 && Sorted(Times(ticks)) && RedisRun(ticks, limit, window, states, replies)
    requires i < j < |ticks| && forall k | i <= k < j :: !replies[k].allowed
    ensures ticks[j].now >= ticks[i].now + replies[i].retryAfterSeconds * 1000 ==> replies[j].allowed
    ensures replies[i].retryAfterSeconds > 1 ==>
      (ticks[j].now <= ticks[i].now + (replies[i].retryAfterSeconds - 1) * 1000 ==> !replies[j].allowed)
  {
    hide Script, Legal, Tracks, Decision, Trim, Sorted;
    var times := Times(ticks);
    RedisTracks(ticks, limit, window, states, replies, i);
    RedisTracks(ticks, limit, window, states, replies, |ticks|);
    LastCallBefore(times, i);
    var accepts := Accepts(times[..i], limit, window);
    assert RedisStep(ticks[i], limit, window, states[i], states[i + 1], replies[i]);
    ScriptRefines(states[i], accepts, LastCall(times[..i]), ticks[i], limit, window, states[i + 1], replies[i]);
    RoomAfterRefusals(times, limit, window, i, j);
    CeilSecondsEnough(Trim(accepts, times[i] - window)[0] + window - times[i]);
  }

  lemma NotRecorded(accepts: seq<nat>, now: nat, limit: nat, window: nat)
    requires !Admits(accepts, now, limit, window)
    ensures Record(accepts, now, limit, window) == accepts
  {
  }

  lemma CeilSecondsEnough(milliseconds: nat)
    ensures CeilSeconds(milliseconds) * 1000 >= milliseconds
    ensures CeilSeconds(milliseconds) > 1 ==> (CeilSeconds(milliseconds) - 1) * 1000 < milliseconds
  {
  }

  /**
   * In-memory: seconds are cut off, so the advertised wait suffices exactly when the
   * remaining time was at most a second or a whole number of seconds; one second more
   * always suffices.
   */
  lemma MemoryRetryIsShort(kept: seq<nat>, accepts: seq<nat>, last: nat, now: nat, limit: nat, window: nat, second: nat,
                           live: seq<nat>, r: RateLimitResult)
    requires limit >= 1 && second > 0 && Bounded(accepts, limit, window)
    requires Retains(kept, accepts, last, window) && last <= now
    requires MemoryConsume(kept, now, limit, window, second) == MemoryStep(live, r) && !r.allowed
    ensures live != [] && live[0] + window > now
    ensures MemoryAllows(live, now + Ticks(r.retryAfterSeconds, second), limit, window, second)
      <==> WholeSeconds(live[0] + window - now, second)
    ensures MemoryAllows(live, now + Ticks(r.retryAfterSeconds + 1, second), limit, window, second)
  {
    hide Admits, InWindow, Stale, MemoryAllows, Ticks, WholeSeconds, FloorSeconds, MemoryConsume, Trim, Retains,
         Bounded;
    MemoryDenial(kept, now, limit, window, second, live, r);
    TrimKept(kept, accepts, last, now, window);
    MemoryRefines(kept, accepts, last, now, limit, window, second);
    NotRecorded(accepts, now, limit, window);
    FloorSecondsExact(live[0] + window - now, second);
    MemoryLater(live, accepts, now, now + Ticks(r.retryAfterSeconds, second), limit, window, second);
    MemoryLater(live, accepts, now, now + Ticks(r.retryAfterSeconds + 1, second), limit, window, second);
  }

  lemma MemoryDenial(kept: seq<nat>, now: nat, limit: nat, window: nat, second: nat, live: seq<nat>, r: RateLimitResult)
    requires limit >= 1 && second > 0
    requires MemoryConsume(kept, now, limit, window, second) == MemoryStep(live, r) && !r.allowed
    ensures live == Trim(kept, now - window) && live != [] && live[0] + window > now
    ensures r.retryAfterSeconds == FloorSeconds(live[0] + window - now, second)
  {
    hide FloorSeconds;
  }

  function Ticks(seconds: nat, second: nat): nat {
    seconds * second
  }

  /** At most one second, or a whole number of them. */
  predicate WholeSeconds(ticks: nat, second: nat)
    requires second > 0
  {
    ticks <= second || ticks % second == 0
  }

  predicate MemoryAllows(kept: seq<nat>, now: nat, limit: nat, window: nat, second: nat)
    requires limit >= 1 && second > 0
  {
    MemoryConsume(kept, now, limit, window, second).result.allowed
  }

  lemma MemoryLater(live: seq<nat>, accepts: seq<nat>, now: nat, later: nat, limit: nat, window: nat, second: nat)
    requires limit >= 1 && second > 0 && Bounded(accepts, limit, window) && now <= later
    requires Retains(live, accepts, now, window) && live == Trim(accepts, now - window)
    requires !Admits(accepts, now, limit, window)
    ensures live != [] && (MemoryAllows(live, later, limit, window, second) <==> live[0] + window <= later)
  {
    hide Admits, InWindow, Stale;
    RoomWhenOldestLeaves(accepts, now, later, limit, window);
    MemoryRefines(live, accepts, now, later, limit, window, second);
  }

  lemma FloorSecondsExact(remaining: nat, second: nat)
    requires remaining > 0 && second > 0
    ensures remaining <= Ticks(FloorSeconds(remaining, second), second) <==> WholeSeconds(remaining, second)
    ensures remaining <= Ticks(FloorSeconds(remaining, second) + 1, second)
  {
    var (q, m) := (remaining / second, remaining % second);
    assert remaining == q * second + m;
    assert (q + 1) * second == q * second + second;
  }

  /**
   * The same over a run: after a denial, with only refusals in between, a call at the advertised time is
   * admitted exactly for whole or sub-second remainders, and any call a second later is.
   */
  lemma MemoryRetryOverRun(times: seq<nat>, limit: nat, window: nat, second: nat, states: seq<seq<nat>>,
                           replies: seq<RateLimitResult>, i: nat, j: nat)
    requires limit >= 1 && second > 0 && Sorted(times) && MemoryRun(times, limit, window, second, states, replies)
    requires i < j < |times| && forall k | i <= k < j :: !replies[k].allowed
    ensures states[i + 1] != [] && states[i + 1][0] + window > times[i]
    ensures replies[j].allowed <==> states[i + 1][0] + window <= times[j]
    ensures times[j] == times[i] + Ticks(replies[i].retryAfterSeconds, second) ==>
      (replies[j].allowed <==> WholeSeconds(states[i + 1][0] + window - times[i], second))
    ensures times[j] >= times[i] + Ticks(replies[i].retryAfterSeconds + 1, second) ==> replies[j].allowed
  {
    hide Decision, Trim, Retains, MemoryConsume, Ticks, WholeSeconds, FloorSeconds, Sorted;
    MemoryTracks(times, limit, window, second, states, replies, i);
    MemoryTracks(times, limit, window, second, states, replies, |times|);
    LastCallBefore(times, i);
    var accepts := Accepts(times[..i], limit, window);
    assert MemoryConsume(states[i], times[i], limit, window, second) == MemoryStep(states[i + 1], replies[i]);
    MemoryDenial(states[i], times[i], limit, window, second, states[i + 1], replies[i]);
    TrimKept(states[i], accepts, LastCall(times[..i]), times[i], window);
    RoomAfterRefusals(times, limit, window, i, j);
    FloorSecondsExact(states[i + 1][0] + window - times[i], second);
  }

  /** The in-memory clock counts microseconds. */
  const SECOND: nat := 1_000_000

  /**
   * A denial whose advertised wait is too short: of a window of two seconds one and a half remain, one
   * second is advertised, and the call made after it is refused again.
   */
  lemma MemoryRetryFallsShort() returns (times: seq<nat>, states: seq<seq<nat>>, replies: seq<RateLimitResult>)
    ensures |times| == 3 && Sorted(times) && MemoryRun(times, 1, 2_000_000, SECOND, states, replies)
    ensures !replies[1].allowed && times[2] == times[1] + Ticks(replies[1].retryAfterSeconds, SECOND)
    ensures !replies[2].allowed
  {
    hide MemoryConsume, MemoryRun;
    var yes, no := RateLimitResult(true, 0), RateLimitResult(false, 1);
    times, states, replies := [0, 500_000, 1_500_000], [[], [0], [0], [0]], [yes, no, no];
    FirstAllowed();
    HeldBack(500_000);
    HeldBack(1_500_000);
    ThreeCalls(0, 500_000, 1_500_000, 2_000_000, MemoryStep([0], yes), MemoryStep([0], no), MemoryStep([0], no));
  }

  lemma ThreeCalls(t0: nat, t1: nat, t2: nat, window: nat, a: MemoryStep, b: MemoryStep, c: MemoryStep)
    requires MemoryConsume([], t0, 1, window, SECOND) == a
    requires MemoryConsume(a.kept, t1, 1, window, SECOND) == b
    requires MemoryConsume(b.kept, t2, 1, window, SECOND) == c
    ensures MemoryRun([t0, t1, t2], 1, window, SECOND, [[], a.kept, b.kept, c.kept], [a.result, b.result, c.result])
  {
    hide MemoryConsume;
  }

  lemma FirstAllowed()
    ensures MemoryConsume([], 0, 1, 2_000_000, SECOND) == MemoryStep([0], RateLimitResult(true, 0))
  {
    assert Trim([], -2_000_000) == [];
  }

  /** One accept at 0 refuses a call within the window with a wait of one second. */
  lemma HeldBack(now: nat)
    requires now in {500_000, 1_500_000}
    ensures MemoryConsume([0], now, 1, 2_000_000, SECOND) == MemoryStep([0], RateLimitResult(false, 1))
  {
    assert Stale([0], now - 2_000_000) == 0;
  }
}
