/**
 * The store `create_rate_limit_store` hands the middleware: one of the two, under one contract. Whichever
 * it is, it stands for the accepts so far and gives the answer they call for.
 */
module RateLimitBackend {
  import opened Common
  import opened SlidingWindow
  import opened RateLimitStores
  import Runs = RateLimitRuns

  datatype Backend = Redis | InMemory

  /** Redis is asked in milliseconds; the in-memory clock counts microseconds. */
  function TicksPerSecond(b: Backend): (n: nat)
    ensures n > 0
  {
    if b.Redis? then 1000 else Runs.SECOND
  }

  /** What a store holds under one key. */
  datatype Slot = Entered(entry: Option<Entry>) | Queued(kept: seq<nat>)

  /** The in-memory store has no connection to lose. */
  predicate Served(b: Backend, tick: Tick) {
    b.InMemory? || tick.outage.Up?
  }

  predicate Lost(b: Backend, tick: Tick) {
    b.Redis? && tick.outage.LostRequest?
  }

  /** What the environment owes the store: Redis drops keys late only, and members are not reused. */
  predicate Behaves(slot: Slot, tick: Tick) {
    slot.Entered? ==> Legal(slot.entry, tick)
  }

  /** The slot is what the store has made of the accepted times so far. */
  ghost predicate Reflects(b: Backend, slot: Slot, accepts: seq<nat>, last: nat, window: nat) {
    match slot
    case Entered(entry) => b.Redis? && Tracks(entry, accepts, last, window)
    case Queued(kept) => b.InMemory? && Retains(kept, accepts, last, window)
  }

  /** One call, as either store makes it. */
  ghost predicate Consumes(b: Backend, slot: Slot, tick: Tick, limit: nat, window: nat,
                           after: Slot, reply: Result<RateLimitResult, Unavailable>)
    requires limit >= 1
  {
    match b
    case Redis =>
      slot.Entered? && after.Entered? && RedisConsume(slot.entry, tick, limit, window, after.entry, reply)
    case InMemory =>
      && slot.Queued? && after.Queued? && reply.Ok?
      && MemoryConsume(slot.kept, tick.now, limit, window, Runs.SECOND) == MemoryStep(after.kept, reply.value)
  }

  /** The whole answer a store owes to a call, in terms of all accepts so far. */
  function StoreAnswer(b: Backend, accepts: seq<nat>, now: nat, limit: nat, window: nat): RateLimitResult {
    if b.Redis? then Answer(accepts, now, limit, window) else MemoryAnswer(accepts, now, limit, window, Runs.SECOND)
  }

  // ---- Either store refines the counter ---------------------------------------------------------

  lemma ReflectsPast(b: Backend, slot: Slot, accepts: seq<nat>, last: nat, window: nat)
    requires Reflects(b, slot, accepts, last, window)
    ensures Sorted(accepts) && forall i | 0 <= i < |accepts| :: accepts[i] <= last
  {
    match slot
    case Entered(entry) => TrackedPast(entry, accepts, last, window);
    case Queued(_) =>
  }

  lemma ReflectsLater(b: Backend, slot: Slot, accepts: seq<nat>, last: nat, later: nat, window: nat)
    requires Reflects(b, slot, accepts, last, window) && last <= later
    ensures Reflects(b, slot, accepts, later, window)
  {
    hide Ordered, Retains, Tracks;
    match slot
    case Entered(entry) => TracksLater(entry, accepts, last, later, window);
    case Queued(kept) => RetainsLater(kept, accepts, last, later, window);
  }

  lemma TracksLater(entry: Option<Entry>, accepts: seq<nat>, last: nat, later: nat, window: nat)
    requires Tracks(entry, accepts, last, window) && last <= later
    ensures Tracks(entry, accepts, later, window)
  {
    hide Ordered, Retains;
    if entry.Some? {
      var order, kept :| Ordered(entry.value.scores, order, kept) && Retains(kept, accepts, last, window);
      RetainsLater(kept, accepts, last, later, window);
    }
  }

  lemma RetainsLater(kept: seq<nat>, accepts: seq<nat>, last: nat, later: nat, window: nat)
    requires Retains(kept, accepts, last, window) && last <= later
    ensures Retains(kept, accepts, later, window)
  {
    var k: nat :| k <= |accepts| && Drops(kept, accepts, k, last, window);
    assert Drops(kept, accepts, k, later, window);
  }

  /** One call to either store: it still stands for the accepts, and answers what they call for. */
  lemma ConsumeRefines(b: Backend, slot: Slot, accepts: seq<nat>, last: nat, tick: Tick, limit: nat, window: nat,
                       after: Slot, reply: Result<RateLimitResult, Unavailable>)
    requires limit >= 1 && Reflects(b, slot, accepts, last, window) && last <= tick.now && Behaves(slot, tick)
    requires Consumes(b, slot, tick, limit, window, after, reply)
    ensures var accepts' := if Lost(b, tick) then accepts else Record(accepts, tick.now, limit, window);
            Reflects(b, after, accepts', tick.now, window)
    ensures reply.Ok? <==> Served(b, tick)
    ensures reply.Ok? ==> reply.value == StoreAnswer(b, accepts, tick.now, limit, window)
  {
    hide Tracks, Retains, Script, Legal, Admits, Answer, MemoryAnswer, MemoryConsume;
    if b.InMemory? {
      MemoryRefines(slot.kept, accepts, last, tick.now, limit, window, Runs.SECOND);
    } else if tick.outage.LostRequest? {
      TracksLater(slot.entry, accepts, last, tick.now, window);
    } else {
      var r :| Script(Present(slot.entry, tick), tick.now, window, limit, tick.member, after.entry, r)
               && (tick.outage.Up? ==> reply == Ok(r));
      ScriptRefines(slot.entry, accepts, last, tick, limit, window, after.entry, r);
    }
  }

  /** Seconds past the advertised wait after which a retry cannot fail: the in-memory store rounds down. */
  function Grace(b: Backend): nat {
    if b.Redis? then 0 else 1
  }

  /** After a refusal there is room once the advertised wait and the store's grace are over. */
  lemma RoomAfterWait(b: Backend, accepts: seq<nat>, now: nat, later: nat, limit: nat, window: nat)
    requires limit >= 1 && Sorted(accepts) && Bounded(accepts, limit, window)
    requires forall i | 0 <= i < |accepts| :: accepts[i] <= now
    requires !Admits(accepts, now, limit, window)
    requires later >= now
      + Runs.Ticks(StoreAnswer(b, accepts, now, limit, window).retryAfterSeconds + Grace(b), TicksPerSecond(b))
    ensures Admits(accepts, later, limit, window)
    ensures StoreAnswer(b, accepts, now, limit, window).retryAfterSeconds >= 1
  {
    hide InWindow, Trim, Bounded, Admits;
    Runs.RoomWhenOldestLeaves(accepts, now, later, limit, window);
    var live := Trim(accepts, now - window);
    OldestStillCounts(accepts, now, window);
    Runs.CeilSecondsEnough(live[0] + window - now);
    Runs.FloorSecondsExact(live[0] + window - now, Runs.SECOND);
  }

  lemma OldestStillCounts(accepts: seq<nat>, now: nat, window: nat)
    requires Trim(accepts, now - window) != []
    ensures Trim(accepts, now - window)[0] + window > now
  {
  }

  // ---- The store object -------------------------------------------------------------------------

  /** What a store holds under all keys. */
  datatype Contents<K(==)> = Entries(entries: map<K, Entry>) | Deques(attempts: map<K, seq<nat>>) {
    function At(key: K): Slot {
      match this
      case Entries(entries) => Entered(Find(entries, key))
      case Deques(attempts) => Queued(if key in attempts then attempts[key] else [])
    }
  }

  /** The `RateLimitStore` protocol: both stores behind one `consume`. */
  datatype Store<!K(==)> =
    | Shared(redis: RedisRateLimitStore<K>)
    | Local(memory: InMemoryRateLimitStore<K>)
  {
    function Object(): object {
      match this
      case Shared(redis) => redis
      case Local(memory) => memory
    }

    function Kind(): Backend {
      if Shared? then Redis else InMemory
    }

    /** The store is of this backend and, if local, counts in the backend's clock. */
    predicate Serves(b: Backend) {
      Kind() == b && (Local? ==> memory.second == TicksPerSecond(b))
    }

    ghost function Held(): Contents<K>
      reads Object()
    {
      match this
      case Shared(redis) => Entries(redis.entries)
      case Local(memory) => Deques(memory.attempts)
    }

    method Consume(key: K, limit: nat, windowSeconds: nat, tick: Tick)
      returns (reply: Result<RateLimitResult, Unavailable>)
      requires limit >= 1 && Serves(Kind())
      modifies Object()
      ensures Consumes(Kind(), old(Held()).At(key), tick, limit, windowSeconds * TicksPerSecond(Kind()),
                       Held().At(key), reply)
      ensures forall k | k != key :: Held().At(k) == old(Held()).At(k)
    {
      hide RedisConsume, MemoryConsume;
      match this
      case Shared(redis) =>
        reply := redis.Consume(key, limit, windowSeconds, tick);
      case Local(memory) =>
        var r := memory.Consume(key, limit, windowSeconds, tick.now);
        reply := Ok(r);
    }
  }

  /** `create_rate_limit_store`: a new store of the configured backend, which has accepted nothing yet. */
  method CreateStore<K(==)>(b: Backend) returns (store: Store<K>)
    ensures store.Serves(b) && fresh(store.Object())
    ensures forall key, window :: Reflects(b, store.Held().At(key), [], 0, window)
  {
    match b
    case Redis =>
      var redis := new RedisRateLimitStore<K>();
      store := Shared(redis);
    case InMemory =>
      var memory := new InMemoryRateLimitStore<K>(Runs.SECOND);
      store := Local(memory);
      NothingKept();
  }

  lemma NothingKept()
    ensures forall window :: Retains([], [], 0, window)
  {
    forall window
      ensures Retains([], [], 0, window)
    {
      Runs.NothingRetained(window);
    }
  }
}
