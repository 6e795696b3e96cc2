/**
 * The two rate-limit stores (`app/core/rate_limit.py`): the in-memory deque and the
 * Redis script over a sorted set. Both are proved to make the decisions of the
 * abstract counter of SlidingWindow, so they agree with each other.
 *
 * Time is a count of ticks, `second` of them a second: microseconds for the
 * in-memory store, milliseconds for Redis.
 */
module RateLimitStores {
  import opened Common
  import opened SlidingWindow

  datatype RateLimitResult = RateLimitResult(allowed: bool, retryAfterSeconds: nat)

  function AtLeastOne(n: nat): nat {
    if n < 1 then 1 else n
  }

  // ---- In-memory store --------------------------------------------------------------------------

  /** Whole seconds until the oldest entry leaves, rounded down as `int` does on a positive value. */
  function FloorSeconds(remaining: nat, second: nat): nat
    requires second > 0
  {
    AtLeastOne(remaining / second)
  }

  datatype MemoryStep = MemoryStep(kept: seq<nat>, result: RateLimitResult)

  /** One call on one key: what the deque becomes, and the answer. */
  function MemoryConsume(kept: seq<nat>, now: nat, limit: nat, window: nat, second: nat): MemoryStep
    requires limit >= 1 && second > 0
  {
    var live := Trim(kept, now - window);
    if |live| >= limit
    then MemoryStep(live, RateLimitResult(false, FloorSeconds(live[0] + window - now, second)))
    else MemoryStep(live + [now], RateLimitResult(true, 0))
  }

  class InMemoryRateLimitStore<K(==)> {
    var attempts: map<K, seq<nat>>
    const second: nat

    constructor (second: nat)
      ensures attempts == map[] && this.second == second
    {
      attempts := map[];
      this.second := second;
    }

    /** The deque of a key; a missing key has an empty one. */
    function Held(key: K): seq<nat>
      reads this
    {
      if key in attempts then attempts[key] else []
    }

    method Consume(key: K, limit: nat, windowSeconds: nat, now: nat) returns (r: RateLimitResult)
      requires limit >= 1 && second > 0
      modifies this
      ensures MemoryConsume(old(Held(key)), now, limit, windowSeconds * second, second) == MemoryStep(Held(key), r)
      ensures attempts == old(attempts)[key := Held(key)]
    {
      var window := windowSeconds * second;
      var deque: seq<nat> := Held(key);
      ghost var before := deque;
      while deque != [] && deque[0] <= now - window
        invariant Trim(deque, now - window) == Trim(before, now - window)
      {
        deque := deque[1..];
      }
      assert deque == Trim(before, now - window);
      if |deque| >= limit {
        attempts := attempts[key := deque];
        var seconds := (deque[0] + window - now) / second;
        return RateLimitResult(false, if seconds < 1 then 1 else seconds);
      }
      attempts := attempts[key := deque + [now]];
      return RateLimitResult(true, 0);
    }
  }

  /** The whole answer the deque should give, in terms of all accepts so far. */
  function MemoryAnswer(accepts: seq<nat>, now: nat, limit: nat, window: nat, second: nat): RateLimitResult
    requires second > 0
  {
    var live := Trim(accepts, now - window);
    if Admits(accepts, now, limit, window) then RateLimitResult(true, 0)
    else RateLimitResult(false, if live != [] && live[0] + window >= now
                                then FloorSeconds(live[0] + window - now, second) else 1)
  }

  /** The in-memory store decides and answers as the abstract counter does. */
  lemma MemoryRefines(kept: seq<nat>, accepts: seq<nat>, last: nat, now: nat, limit: nat, window: nat, second: nat)
    requires limit >= 1 && second > 0
    requires Retains(kept, accepts, last, window) && last <= now
    ensures var step := MemoryConsume(kept, now, limit, window, second);
            && step.result.allowed == Admits(accepts, now, limit, window)
            && step.result == MemoryAnswer(accepts, now, limit, window, second)
            && Retains(step.kept, Record(accepts, now, limit, window), now, window)
  {
    hide Stale, Sorted, InWindow, Trim;
    TrimKept(kept, accepts, last, now, window);
    if |Trim(kept, now - window)| < limit {
      KeepAccepted(Trim(kept, now - window), accepts, now, window);
    }
  }

  // ---- Redis store ------------------------------------------------------------------------------

  /** A sorted set (member to score) with the instant its key expires. */
  datatype Entry = Entry(scores: map<string, nat>, expiresAt: nat)

  function ScoresOf(entry: Option<Entry>): map<string, nat> {
    if entry.Some? then entry.value.scores else map[]
  }

  /** ZREMRANGEBYSCORE key 0 cutoff */
  function RemoveRange(scores: map<string, nat>, cutoff: int): (live: map<string, nat>)
    ensures live.Keys <= scores.Keys
  {
    map m | m in scores && !(0 <= scores[m] <= cutoff) :: scores[m]
  }

  /** The score ZRANGE key 0 0 WITHSCORES reports. */
  ghost predicate IsOldest(scores: map<string, nat>, score: nat) {
    (exists m | m in scores :: scores[m] == score) && forall m | m in scores :: score <= scores[m]
  }

  function CeilSeconds(milliseconds: nat): nat {
    AtLeastOne((milliseconds + 999) / 1000)
  }

  /** The effect and reply of the script on one key, as a relation: the reply mentions the oldest score. */
  ghost predicate Script(entry: Option<Entry>, now: nat, window: nat, limit: nat, member: string,
                         after: Option<Entry>, r: RateLimitResult)
  {
    var live := RemoveRange(ScoresOf(entry), now - window);
    if |live| >= limit then
      && entry.Some? && after == Some(entry.value.(scores := live))
      && !r.allowed
      && exists oldest: nat :: IsOldest(live, oldest) && oldest + window >= now
                               && r.retryAfterSeconds == CeilSeconds(oldest + window - now)
    else
      after == Some(Entry(live[member := now], now + window)) && r == RateLimitResult(true, 0)
  }

  /** How the connection fares: the call may be lost before or after the script ran. */
  datatype Outage = Up | LostRequest | LostReply

  /** What the environment supplies to one call: clock, unique member, key eviction, connection. */
  datatype Tick = Tick(now: nat, member: string, evicted: bool, outage: Outage)

  datatype Unavailable = Unavailable

  ghost predicate RedisConsume(entry: Option<Entry>, tick: Tick, limit: nat, window: nat,
                               after: Option<Entry>, reply: Result<RateLimitResult, Unavailable>)
  {
    match tick.outage
    case LostRequest => after == entry && reply == Err(Unavailable)
    case Up => reply.Ok? && Script(Present(entry, tick), tick.now, window, limit, tick.member, after, reply.value)
    case LostReply =>
      reply == Err(Unavailable)
      && exists r :: Script(Present(entry, tick), tick.now, window, limit, tick.member, after, r)
  }

  /** Redis may have dropped a key whose PEXPIRE deadline has come. */
  function Present(entry: Option<Entry>, tick: Tick): Option<Entry> {
    if tick.evicted then None else entry
  }

  function Find<K(==)>(entries: map<K, Entry>, key: K): Option<Entry> {
    if key in entries then Some(entries[key]) else None
  }

  class RedisRateLimitStore<K(==)> {
    var entries: map<K, Entry>

    constructor ()
      ensures entries == map[]
    {
      entries := map[];
    }

    method Consume(key: K, limit: nat, windowSeconds: nat, tick: Tick)
      returns (reply: Result<RateLimitResult, Unavailable>)
      requires limit >= 1
      modifies this
      ensures RedisConsume(Find(old(entries), key), tick, limit, windowSeconds * 1000, Find(entries, key), reply)
      ensures forall k | k != key :: Find(entries, k) == Find(old(entries), k)
    {
      if tick.outage.LostRequest? {
        return Err(Unavailable);
      }
      var entry := Present(Find(entries, key), tick);
      var after, r := RunScript(entry, tick.now, windowSeconds * 1000, limit, tick.member);
      entries := entries[key := after];
      reply := if tick.outage.Up? then Ok(r) else Err(Unavailable);
    }

    static method RunScript(entry: Option<Entry>, now: nat, window: nat, limit: nat, member: string)
      returns (after: Entry, r: RateLimitResult)
      requires limit >= 1
      ensures Script(entry, now, window, limit, member, Some(after), r)
    {
      var live := RemoveRange(ScoresOf(entry), now - window);
      if |live| >= limit {
        var oldest := Oldest(live);
        var m :| m in live && live[m] == oldest;
        after := entry.value.(scores := live);
        var seconds := (oldest + window - now + 999) / 1000;
        r := RateLimitResult(false, if seconds < 1 then 1 else seconds);
      } else {
        after := Entry(live[member := now], now + window);
        r := RateLimitResult(true, 0);
      }
    }

    static method Oldest(scores: map<string, nat>) returns (oldest: nat)
      requires |scores| > 0
      ensures IsOldest(scores, oldest)
    {
      var first :| first in scores;
      oldest := scores[first];
      ghost var found := first;
      var rest := scores.Keys - {first};
      while rest != {}
        invariant rest <= scores.Keys && found in scores && scores[found] == oldest
        invariant forall m | m in scores && m !in rest :: oldest <= scores[m]
        decreases rest
      {
        var m :| m in rest;
        if scores[m] < oldest {
          oldest := scores[m];
          found := m;
        }
        rest := rest - {m};
      }
    }
  }

  // ---- The script refines the counter -----------------------------------------------------------

  /** `order` lists the members of a sorted set oldest first; `kept` are their scores. */
  ghost predicate Ordered(scores: map<string, nat>, order: seq<string>, kept: seq<nat>) {
    && |order| == |kept|
    && (forall i, j | 0 <= i < j < |order| :: order[i] != order[j])
    && (forall m :: m in scores <==> m in order)
    && (forall i | 0 <= i < |order| :: scores[order[i]] == kept[i])
  }

  /** The entry is what the script has made of the accepted times so far; `last` is the latest call. */
  ghost predicate Tracks(entry: Option<Entry>, accepts: seq<nat>, last: nat, window: nat) {
    if entry.None? then accepts == []
    else
      && accepts != []
      && entry.value.expiresAt == accepts[|accepts| - 1] + window
      && exists order, kept :: Ordered(entry.value.scores, order, kept) && Retains(kept, accepts, last, window)
  }

  /** An environment the script is built for: eviction only after the deadline, a member not yet used. */
  predicate Legal(entry: Option<Entry>, tick: Tick) {
    && (tick.evicted ==> entry.Some? && tick.now >= entry.value.expiresAt)
    && tick.member !in ScoresOf(entry)
  }

  lemma {:induction false} DistinctCount(order: seq<string>, s: set<string>)
    requires forall i, j | 0 <= i < j < |order| :: order[i] != order[j]
    requires forall m :: m in s <==> m in order
    ensures |s| == |order|
  {
    if order == [] {
      assert s == {};
    } else {
      var n := |order| - 1;
      assert order[n] in s;
      forall m
        ensures m in s - {order[n]} <==> m in order[..n]
      {
        assert order == order[..n] + [order[n]];
      }
      DistinctCount(order[..n], s - {order[n]});
    }
  }

  lemma OrderedCount(scores: map<string, nat>, order: seq<string>, kept: seq<nat>)
    requires Ordered(scores, order, kept)
    ensures |scores| == |kept|
  {
    DistinctCount(order, scores.Keys);
    assert |scores| == |scores.Keys|;
  }

  /** A member survives the removal of a score range exactly when it is not at the stale front. */
  lemma SurvivesRange(scores: map<string, nat>, order: seq<string>, kept: seq<nat>, cutoff: int, i: nat)
    requires Ordered(scores, order, kept) && Sorted(kept) && i < |order|
    ensures order[i] in RemoveRange(scores, cutoff) <==> i >= Stale(kept, cutoff)
  {
    hide Stale;
    var k := Stale(kept, cutoff);
    assert order[i] in order;
    if i >= k {
      assert kept[k] <= kept[i];
    }
  }

  lemma RangeMembers(scores: map<string, nat>, order: seq<string>, kept: seq<nat>, cutoff: int, m: string)
    requires Ordered(scores, order, kept) && Sorted(kept)
    ensures m in RemoveRange(scores, cutoff) <==> m in order[Stale(kept, cutoff)..]
  {
    hide Stale, Sorted;
    var rest := order[Stale(kept, cutoff)..];
    if m in RemoveRange(scores, cutoff) {
      var i :| 0 <= i < |order| && order[i] == m;
      SurvivesRange(scores, order, kept, cutoff, i);
      assert rest[i - Stale(kept, cutoff)] == m;
    }
    if m in rest {
      var i :| 0 <= i < |rest| && rest[i] == m;
      SurvivesRange(scores, order, kept, cutoff, Stale(kept, cutoff) + i);
    }
  }

  /** Removing a score range removes the stale front of the ordering. */
  lemma RemoveRangeTrims(scores: map<string, nat>, order: seq<string>, kept: seq<nat>, cutoff: int)
    returns (rest: seq<string>)
    requires Ordered(scores, order, kept) && Sorted(kept)
    ensures Ordered(RemoveRange(scores, cutoff), rest, Trim(kept, cutoff))
  {
    hide Stale, Sorted;
    rest := order[Stale(kept, cutoff)..];
    forall m
      ensures m in RemoveRange(scores, cutoff) <==> m in rest
    {
      RangeMembers(scores, order, kept, cutoff, m);
    }
  }

  lemma OrderedSnoc(scores: map<string, nat>, order: seq<string>, kept: seq<nat>, member: string, now: nat)
    requires Ordered(scores, order, kept) && member !in scores
    ensures Ordered(scores[member := now], order + [member], kept + [now])
  {
    forall i | 0 <= i < |order|
      ensures order[i] in scores && order[i] != member
    {
      assert order[i] in order;
    }
  }

  /** The oldest score of an ordered set is its first. */
  lemma OldestIsFirst(scores: map<string, nat>, order: seq<string>, kept: seq<nat>, oldest: nat)
    requires Ordered(scores, order, kept) && Sorted(kept) && IsOldest(scores, oldest)
    ensures kept != [] && oldest == kept[0]
  {
    var m :| m in scores && scores[m] == oldest;
    var i :| 0 <= i < |order| && order[i] == m;
    assert order[0] in order;
    assert kept[0] <= kept[i];
  }

  /** An evicted key had nothing left to count. */
  lemma EvictedIsStale(accepts: seq<nat>, cutoff: int)
    requires Sorted(accepts) && accepts != [] && accepts[|accepts| - 1] <= cutoff
    ensures Trim(accepts, cutoff) == []
  {
    assert forall i | 0 <= i < |accepts| :: accepts[i] <= accepts[|accepts| - 1];
    StaleUnique(accepts, cutoff, |accepts|);
  }

  /** What a store that still has the key sees. */
  lemma TrackedScores(entry: Entry, accepts: seq<nat>, last: nat, now: nat, window: nat) returns (order: seq<string>)
    requires Tracks(Some(entry), accepts, last, window) && last <= now
    ensures Ordered(RemoveRange(entry.scores, now - window), order, Trim(accepts, now - window))
  {
    hide Stale, Sorted, InWindow, Trim, Ordered, Retains;
    var o, kept :| Ordered(entry.scores, o, kept) && Retains(kept, accepts, last, window);
    TrimKept(kept, accepts, last, now, window);
    order := RemoveRangeTrims(entry.scores, o, kept, now - window);
  }

  /** A tracked history is sorted and past. */
  lemma TrackedPast(entry: Option<Entry>, accepts: seq<nat>, last: nat, window: nat)
    requires Tracks(entry, accepts, last, window)
    ensures Sorted(accepts) && forall i | 0 <= i < |accepts| :: accepts[i] <= last
  {
  }

  lemma NothingLive(cutoff: int)
    ensures Ordered(RemoveRange(map[], cutoff), [], []) && Trim([], cutoff) == []
  {
    assert RemoveRange(map[], cutoff) == map[];
  }

  /** What the script sees: the trimmed history, whether or not Redis evicted the key first. */
  lemma LiveScores(entry: Option<Entry>, accepts: seq<nat>, last: nat, tick: Tick, window: nat)
    returns (order: seq<string>)
    requires Tracks(entry, accepts, last, window) && last <= tick.now && Legal(entry, tick)
    ensures var live := RemoveRange(ScoresOf(Present(entry, tick)), tick.now - window);
            Ordered(live, order, Trim(accepts, tick.now - window)) && tick.member !in live
    ensures Retains(Trim(accepts, tick.now - window), accepts, tick.now, window)
    ensures Sorted(Trim(accepts, tick.now - window))
    ensures |Trim(accepts, tick.now - window)| == InWindow(accepts, tick.now, window)
  {
    hide Stale, Sorted, InWindow, Trim, Ordered, RemoveRange;
    TrackedPast(entry, accepts, last, window);
    TrimDrops(accepts, tick.now, window);
    InWindowIsTrimmedLength(accepts, tick.now, window);
    if entry.Some? && !tick.evicted {
      order := TrackedScores(entry.value, accepts, last, tick.now, window);
    } else {
      order := [];
      NothingLive(tick.now - window);
      if entry.Some? {
        EvictedIsStale(accepts, tick.now - window);
      }
    }
  }

  /** The wait a refusal should advertise: until the oldest counted accept has left, in whole seconds. */
  function Wait(accepts: seq<nat>, now: nat, window: nat): nat {
    var live := Trim(accepts, now - window);
    if live != [] && live[0] + window >= now then CeilSeconds(live[0] + window - now) else 1
  }

  /** The whole answer the script should give, in terms of all accepts so far. */
  function Answer(accepts: seq<nat>, now: nat, limit: nat, window: nat): RateLimitResult {
    if Admits(accepts, now, limit, window) then RateLimitResult(true, 0)
    else RateLimitResult(false, Wait(accepts, now, window))
  }

  /** One script run: the decision of the abstract counter, and the entry still tracks the history. */
  lemma ScriptRefines(entry: Option<Entry>, accepts: seq<nat>, last: nat, tick: Tick, limit: nat, window: nat,
                      after: Option<Entry>, r: RateLimitResult)
    requires limit >= 1
    requires Tracks(entry, accepts, last, window) && last <= tick.now && Legal(entry, tick)
    requires Script(Present(entry, tick), tick.now, window, limit, tick.member, after, r)
    ensures r.allowed == Admits(accepts, tick.now, limit, window)
    ensures Tracks(after, Record(accepts, tick.now, limit, window), tick.now, window)
    ensures !r.allowed ==>
      var live := Trim(accepts, tick.now - window);
      live != [] && live[0] + window >= tick.now && r.retryAfterSeconds == CeilSeconds(live[0] + window - tick.now)
    ensures r == Answer(accepts, tick.now, limit, window)
  {
    hide Stale, Sorted, InWindow, Trim, Retains, Ordered, IsOldest;
    var order := LiveScores(entry, accepts, last, tick, window);
    var live := RemoveRange(ScoresOf(Present(entry, tick)), tick.now - window);
    var kept := Trim(accepts, tick.now - window);
    OrderedCount(live, order, kept);
    if |live| >= limit {
      var oldest: nat :| IsOldest(live, oldest) && oldest + window >= tick.now
                         && r.retryAfterSeconds == CeilSeconds(oldest + window - tick.now);
      OldestIsFirst(live, order, kept, oldest);
    } else {
      OrderedSnoc(live, order, kept, tick.member, tick.now);
      KeepAccepted(kept, accepts, tick.now, window);
    }
  }

  /** PEXPIRE never changes a decision: dropping the key at or after its deadline and keeping it agree. */
  lemma EvictionIsInvisible(entry: Option<Entry>, accepts: seq<nat>, last: nat, tick: Tick, limit: nat, window: nat,
                            a1: Option<Entry>, r1: RateLimitResult, a2: Option<Entry>, r2: RateLimitResult)
    requires limit >= 1 && tick.evicted
    requires Tracks(entry, accepts, last, window) && last <= tick.now && Legal(entry, tick)
    requires Script(None, tick.now, window, limit, tick.member, a1, r1)
    requires Script(entry, tick.now, window, limit, tick.member, a2, r2)
    ensures r1 == r2 && r1.allowed && a1 == a2
  {
    var kept := Trim(accepts, tick.now - window);
    var order1 := LiveScores(entry, accepts, last, tick, window);
    var order2 := LiveScores(entry, accepts, last, tick.(evicted := false), window);
    var live := RemoveRange(ScoresOf(entry), tick.now - window);
    OrderedCount(map[], order1, kept);
    OrderedCount(live, order2, kept);
    assert RemoveRange(map[], tick.now - window) == map[];
    assert live == map[];
  }
}
