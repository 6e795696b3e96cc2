/**
 * `AuthRateLimitMiddleware`: the stages a request passes, and the bound its
 * forwarded requests inherit from either store.
 *
 * Reading the client address, the bearer token and the body identifier out of the
 * HTTP request is a parameter; so are clock, unique members and outages (`Tick`).
 */
module RateLimitMiddleware {
  import opened Common
  import opened SlidingWindow
  import opened RateLimitStores
  import opened RateLimitBackend
  import opened RateLimitKeys
  import Runs = RateLimitRuns

  /** The window of a key on the clock of the store. */
  function WindowTicks(s: Settings, key: RateKey): nat {
    WindowOf(s, key) * TicksPerSecond(s.backend)
  }

  /** One accepted charge to a key. */
  datatype Event = Event(key: RateKey, time: nat)

  function TimesOf(h: seq<Event>, key: RateKey): seq<nat> {
    if h == [] then [] else
      var n := |h| - 1;
      TimesOf(h[..n], key) + if h[n].key == key then [h[n].time] else []
  }

  lemma TimesOfSnoc(h: seq<Event>, e: Event, key: RateKey)
    ensures TimesOf(h + [e], key) == if e.key == key then TimesOf(h, key) + [e.time] else TimesOf(h, key)
  {
    assert (h + [e])[..|h|] == h;
  }

  predicate Allows(s: Settings, h: seq<Event>, key: RateKey, tick: Tick) {
    Admits(TimesOf(h, key), tick.now, LimitOf(s, key), WindowTicks(s, key))
  }

  /** The answer a reachable store owes to one charge. */
  function AnswerOf(s: Settings, h: seq<Event>, key: RateKey, tick: Tick): RateLimitResult {
    StoreAnswer(s.backend, TimesOf(h, key), tick.now, LimitOf(s, key), WindowTicks(s, key))
  }

  /** What one charge adds to the history of accepted charges. */
  function Charge(s: Settings, h: seq<Event>, key: RateKey, tick: Tick): seq<Event> {
    if Lost(s.backend, tick) || !Allows(s, h, key, tick) then h else h + [Event(key, tick.now)]
  }

  /** Charging a list of keys: every key is charged, room or not, until the store is unavailable. */
  function ChargeAll(s: Settings, h: seq<Event>, keys: seq<RateKey>, ticks: nat -> Tick, i: nat): seq<Event>
    decreases |keys|
  {
    if keys == [] then h else
      var h' := Charge(s, h, keys[0], ticks(i));
      if Served(s.backend, ticks(i)) then ChargeAll(s, h', keys[1..], ticks, i + 1) else h'
  }

  /** The store answers all `n` charges from call `i` on. */
  predicate Reachable(s: Settings, n: nat, ticks: nat -> Tick, i: nat) {
    n == 0 || (Served(s.backend, ticks(i)) && Reachable(s, n - 1, ticks, i + 1))
  }

  /** Every key had room when its turn came. */
  predicate AllAllowed(s: Settings, h: seq<Event>, keys: seq<RateKey>, ticks: nat -> Tick, i: nat)
    decreases |keys|
  {
    keys == [] ||
    (Allows(s, h, keys[0], ticks(i)) && AllAllowed(s, Charge(s, h, keys[0], ticks(i)), keys[1..], ticks, i + 1))
  }

  /** The answers to all charges of a list, each key judged on the history at its turn. */
  function Answers(s: Settings, h: seq<Event>, keys: seq<RateKey>, ticks: nat -> Tick,
                   i: nat): (rs: seq<RateLimitResult>)
    ensures |rs| == |keys| && forall n | 0 <= n < |rs| && !rs[n].allowed :: rs[n].retryAfterSeconds >= 1
    decreases |keys|
  {
    if keys == [] then []
    else [AnswerOf(s, h, keys[0], ticks(i))] + Answers(s, Charge(s, h, keys[0], ticks(i)), keys[1..], ticks, i + 1)
  }

  /** One accepted charge for each key. */
  function EventsOf(keys: seq<RateKey>, ticks: nat -> Tick, i: nat): seq<Event>
    decreases |keys|
  {
    if keys == [] then [] else [Event(keys[0], ticks(i).now)] + EventsOf(keys[1..], ticks, i + 1)
  }

  /** When every key has room and the store answers, each key is charged exactly once. */
  lemma {:induction false} AllAllowedChargesEach(s: Settings, h: seq<Event>, keys: seq<RateKey>, ticks: nat -> Tick,
                                                 i: nat)
    requires Reachable(s, |keys|, ticks, i) && AllAllowed(s, h, keys, ticks, i)
    ensures ChargeAll(s, h, keys, ticks, i) == h + EventsOf(keys, ticks, i)
    decreases |keys|
  {
    hide Admits, Allows;
    if keys == [] {
      assert h + [] == h;
    } else {
      var e := Event(keys[0], ticks(i).now);
      AllAllowedChargesEach(s, h + [e], keys[1..], ticks, i + 1);
      ConcatAssociative(h, [e], EventsOf(keys[1..], ticks, i + 1));
    }
  }

  /** A stage that let the request pass charged each of its keys once. */
  lemma StageCharges(s: Settings, h: seq<Event>, keys: seq<RateKey>, ticks: nat -> Tick, i: nat)
    requires keys != [] ==> Reachable(s, |keys|, ticks, i) && AllAllowed(s, h, keys, ticks, i)
    ensures ChargeAll(s, h, keys, ticks, i) == h + EventsOf(keys, ticks, i)
  {
    AllAllowedChargesEach(s, h, keys, ticks, i);
  }

  /** After a passed stage, or an empty one, the history has grown by its events. */
  lemma StageDone(s: Settings, h: seq<Event>, h': seq<Event>, keys: seq<RateKey>, ticks: nat -> Tick, i: nat,
                  orderly: bool)
    requires orderly && keys == [] ==> h' == h
    requires orderly && keys != [] ==>
      h' == ChargeAll(s, h, keys, ticks, i) && Reachable(s, |keys|, ticks, i) && AllAllowed(s, h, keys, ticks, i)
    ensures orderly ==> StagePasses(s, h, keys, ticks, i) && h' == ChargeAll(s, h, keys, ticks, i)
    ensures orderly ==> h' == h + EventsOf(keys, ticks, i)
  {
    if orderly {
      StageCharges(s, h, keys, ticks, i);
    }
  }

  /** A stage passes when the store answers and every key had room. */
  predicate StagePasses(s: Settings, h: seq<Event>, keys: seq<RateKey>, ticks: nat -> Tick, i: nat) {
    Reachable(s, |keys|, ticks, i) && AllAllowed(s, h, keys, ticks, i)
  }

  /** All a request charges: its second stage only if the first passes. */
  function RequestCharges(s: Settings, h: seq<Event>, global: seq<RateKey>, keys: seq<RateKey>,
                          ticks: nat -> Tick): seq<Event>
  {
    var h' := ChargeAll(s, h, global, ticks, 0);
    if StagePasses(s, h, global, ticks, 0) then ChargeAll(s, h', keys, ticks, |global|) else h'
  }

  /** Passing two stages is passing the joined list. */
  lemma {:induction false} StagesJoin(s: Settings, h: seq<Event>, a: seq<RateKey>, b: seq<RateKey>, ticks: nat -> Tick,
                                      i: nat)
    ensures StagePasses(s, h, a + b, ticks, i)
      <==> StagePasses(s, h, a, ticks, i) && StagePasses(s, ChargeAll(s, h, a, ticks, i), b, ticks, i + |a|)
    decreases |a|
  {
    hide Allows, Charge;
    if a == [] {
      assert a + b == b;
    } else {
      assert (a + b)[1..] == a[1..] + b;
      StagesJoin(s, Charge(s, h, a[0], ticks(i)), a[1..], b, ticks, i + 1);
    }
  }

  lemma {:induction false} EventsOfConcat(a: seq<RateKey>, b: seq<RateKey>, ticks: nat -> Tick, i: nat)
    ensures EventsOf(a + b, ticks, i) == EventsOf(a, ticks, i) + EventsOf(b, ticks, i + |a|)
    decreases |a|
  {
    if a == [] {
      assert a + b == b;
    } else {
      assert (a + b)[1..] == a[1..] + b;
      EventsOfConcat(a[1..], b, ticks, i + 1);
    }
  }

  datatype Verdict = Forward | TooMany(retryAfterSeconds: nat) | ServiceUnavailable

  // ---- The invariant ----------------------------------------------------------------------------

  /** The store holds, key by key, what the accepted charges left behind, and no window is overfull. */
  ghost predicate Sound(s: Settings, held: Contents<RateKey>, h: seq<Event>, clock: nat) {
    forall key :: SoundAt(s, held, h, clock, key)
  }

  ghost predicate SoundAt(s: Settings, held: Contents<RateKey>, h: seq<Event>, clock: nat, key: RateKey) {
    && Reflects(s.backend, held.At(key), TimesOf(h, key), clock, WindowTicks(s, key))
    && Bounded(TimesOf(h, key), LimitOf(s, key), WindowTicks(s, key))
  }

  /** The clock has not stepped back and Redis, if it is the store, behaves. */
  predicate Orderly(held: Contents<RateKey>, clock: nat, key: RateKey, tick: Tick) {
    clock <= tick.now && Behaves(held.At(key), tick)
  }

  /** The charged key: its slot follows the history and its answer is the counter's. */
  lemma ChargedKeySound(s: Settings, before: Contents<RateKey>, after: Contents<RateKey>, h: seq<Event>,
                        clock: nat, key: RateKey, tick: Tick, reply: Result<RateLimitResult, Unavailable>)
    requires SoundAt(s, before, h, clock, key) && Orderly(before, clock, key, tick)
    requires Consumes(s.backend, before.At(key), tick, LimitOf(s, key), WindowTicks(s, key), after.At(key), reply)
    ensures SoundAt(s, after, Charge(s, h, key, tick), tick.now, key)
    ensures reply.Ok? ==> reply.value == AnswerOf(s, h, key, tick)
    ensures reply.Ok? <==> Served(s.backend, tick)
  {
    hide Reflects, Consumes, Behaves, InWindow, Bounded, Sorted, StoreAnswer, LimitOf, WindowTicks, TicksPerSecond,
         Admits;
    var (limit, window) := (LimitOf(s, key), WindowTicks(s, key));
    var accepts := TimesOf(h, key);
    ConsumeRefines(s.backend, before.At(key), accepts, clock, tick, limit, window, after.At(key), reply);
    ReflectsPast(s.backend, before.At(key), accepts, clock, window);
    RecordKeepsBound(accepts, tick.now, limit, window);
    TimesOfSnoc(h, Event(key, tick.now), key);
  }

  /** Every other key is untouched. */
  lemma OtherKeySound(s: Settings, before: Contents<RateKey>, after: Contents<RateKey>, h: seq<Event>,
                      clock: nat, charged: RateKey, tick: Tick, key: RateKey)
    requires SoundAt(s, before, h, clock, key) && clock <= tick.now && key != charged
    requires after.At(key) == before.At(key)
    ensures SoundAt(s, after, Charge(s, h, charged, tick), tick.now, key)
  {
    hide Reflects, InWindow, Bounded;
    ReflectsLater(s.backend, before.At(key), TimesOf(h, key), clock, tick.now, WindowTicks(s, key));
    TimesOfSnoc(h, Event(charged, tick.now), key);
  }

  lemma ChargeSound(s: Settings, before: Contents<RateKey>, after: Contents<RateKey>, h: seq<Event>,
                    clock: nat, key: RateKey, tick: Tick, reply: Result<RateLimitResult, Unavailable>)
    requires Sound(s, before, h, clock) && Orderly(before, clock, key, tick)
    requires Consumes(s.backend, before.At(key), tick, LimitOf(s, key), WindowTicks(s, key), after.At(key), reply)
    requires forall k | k != key :: after.At(k) == before.At(k)
    ensures Sound(s, after, Charge(s, h, key, tick), tick.now)
    ensures reply.Ok? ==> reply.value == AnswerOf(s, h, key, tick)
    ensures reply.Ok? <==> Served(s.backend, tick)
  {
    hide SoundAt, Consumes, Charge, Behaves;
    assert SoundAt(s, before, h, clock, key);
    ChargedKeySound(s, before, after, h, clock, key, tick, reply);
    forall k | k != key
      ensures SoundAt(s, after, Charge(s, h, key, tick), tick.now, k)
    {
      assert SoundAt(s, before, h, clock, k);
      OtherKeySound(s, before, after, h, clock, key, tick, k);
    }
  }

  // ---- Waits ------------------------------------------------------------------------------------

  /** The accepted charges to a key are in order, past, and within the limit. */
  ghost predicate PastAndBounded(s: Settings, h: seq<Event>, clock: nat, key: RateKey) {
    && Sorted(TimesOf(h, key)) && (forall i | 0 <= i < |TimesOf(h, key)| :: TimesOf(h, key)[i] <= clock)
    && Bounded(TimesOf(h, key), LimitOf(s, key), WindowTicks(s, key))
  }

  lemma SoundIsPast(s: Settings, held: Contents<RateKey>, h: seq<Event>, clock: nat, key: RateKey)
    requires SoundAt(s, held, h, clock, key)
    ensures PastAndBounded(s, h, clock, key)
  {
    hide Reflects, Bounded, Sorted;
    ReflectsPast(s.backend, held.At(key), TimesOf(h, key), clock, WindowTicks(s, key));
  }

  lemma ChargeKeepsPast(s: Settings, h: seq<Event>, clock: nat, charged: RateKey, tick: Tick, key: RateKey)
    requires PastAndBounded(s, h, clock, key) && clock <= tick.now
    ensures PastAndBounded(s, Charge(s, h, charged, tick), tick.now, key)
  {
    hide TimesOf, InWindow, Bounded;
    TimesOfSnoc(h, Event(charged, tick.now), key);
    RecordKeepsBound(TimesOf(h, key), tick.now, LimitOf(s, key), WindowTicks(s, key));
  }

  /** When a wait told at `now` is over for good, with the grace the store needs. */
  function WaitedOut(s: Settings, now: nat, wait: nat): nat {
    now + Runs.Ticks(wait + Grace(s.backend), TicksPerSecond(s.backend))
  }

  /** A refused key has room again once its wait is over, if nothing was accepted on it meanwhile. */
  lemma RefusedKeyHasRoomLater(s: Settings, h: seq<Event>, clock: nat, key: RateKey, tick: Tick, wait: nat,
                               h': seq<Event>, later: Tick)
    requires PastAndBounded(s, h, clock, key) && clock <= tick.now && !Allows(s, h, key, tick)
    requires TimesOf(h', key) == TimesOf(h, key)
    requires AnswerOf(s, h, key, tick).retryAfterSeconds <= wait && later.now >= WaitedOut(s, tick.now, wait)
    ensures Allows(s, h', key, later)
    ensures AnswerOf(s, h, key, tick).retryAfterSeconds >= 1
  {
    hide TimesOf, Bounded, Admits, StoreAnswer, TicksPerSecond, WindowTicks, Grace;
    var (accepts, limit, window) := (TimesOf(h, key), LimitOf(s, key), WindowTicks(s, key));
    var told := AnswerOf(s, h, key, tick).retryAfterSeconds;
    TicksGrow(told + Grace(s.backend), wait + Grace(s.backend), TicksPerSecond(s.backend));
    RoomAfterWait(s.backend, accepts, tick.now, later.now, limit, window);
  }

  lemma TicksGrow(fewer: nat, more: nat, second: nat)
    requires fewer <= more
    ensures Runs.Ticks(fewer, second) <= Runs.Ticks(more, second)
  {
    assert more * second == fewer * second + (more - fewer) * second;
  }

  /** The history on which the `n`-th key of a list is judged. */
  function HistoryAt(s: Settings, h: seq<Event>, keys: seq<RateKey>, ticks: nat -> Tick, i: nat, n: nat): seq<Event>
    requires n < |keys|
    decreases n
  {
    if n == 0 then h else HistoryAt(s, Charge(s, h, keys[0], ticks(i)), keys[1..], ticks, i + 1, n - 1)
  }

  /** The calls from `i` on come at `clock` or later and in order. */
  ghost predicate InOrder(ticks: nat -> Tick, i: nat, n: nat, clock: nat)
    decreases n
  {
    n > 0 ==> clock <= ticks(i).now && InOrder(ticks, i + 1, n - 1, ticks(i).now)
  }

  /** The longest wait is long enough for each refused key: no window of its own is still full after it. */
  lemma {:induction false} LongestWaitSuffices(s: Settings, h: seq<Event>, clock: nat, keys: seq<RateKey>,
                                               ticks: nat -> Tick, i: nat, wait: nat, n: nat,
                                               h': seq<Event>, later: Tick)
    requires (forall key :: PastAndBounded(s, h, clock, key)) && InOrder(ticks, i, |keys|, clock)
    requires n < |keys| && !Answers(s, h, keys, ticks, i)[n].allowed
    requires Answers(s, h, keys, ticks, i)[n].retryAfterSeconds <= wait
    requires TimesOf(h', keys[n]) == TimesOf(HistoryAt(s, h, keys, ticks, i, n), keys[n])
    requires later.now >= WaitedOut(s, ticks(i + n).now, wait)
    ensures Allows(s, h', keys[n], later) && wait >= 1
    decreases n
  {
    hide PastAndBounded, Charge, TimesOf, Admits, Wait;
    if n == 0 {
      assert AnswerOf(s, h, keys[0], ticks(i)) == Answers(s, h, keys, ticks, i)[0];
      RefusedKeyHasRoomLater(s, h, clock, keys[0], ticks(i), wait, h', later);
    } else {
      var next := Charge(s, h, keys[0], ticks(i));
      forall key
        ensures PastAndBounded(s, next, ticks(i).now, key)
      {
        ChargeKeepsPast(s, h, clock, keys[0], ticks(i), key);
      }
      LongestWaitSuffices(s, next, ticks(i).now, keys[1..], ticks, i + 1, wait, n - 1, h', later);
    }
  }

  // ---- Forwarded requests -----------------------------------------------------------------------

  /** `part` is `whole` with some events left out. */
  ghost predicate Sublist(part: seq<Event>, whole: seq<Event>)
    decreases |whole|
  {
    if whole == [] then part == []
    else
      || Sublist(part, whole[..|whole| - 1])
      || (part != [] && part[|part| - 1] == whole[|whole| - 1] && Sublist(part[..|part| - 1], whole[..|whole| - 1]))
  }

  lemma {:induction false} SublistBoth(part: seq<Event>, whole: seq<Event>, more: seq<Event>)
    requires Sublist(part, whole)
    ensures Sublist(part + more, whole + more) && Sublist(part, whole + more)
    decreases |more|
  {
    if more == [] {
      assert part + more == part && whole + more == whole;
    } else {
      var n := |more| - 1;
      SublistBoth(part, whole, more[..n]);
      assert (part + more)[..|part| + n] == part + more[..n] && (whole + more)[..|whole| + n] == whole + more[..n];
    }
  }

  lemma {:induction false} SublistCount(part: seq<Event>, whole: seq<Event>, key: RateKey, t: int, window: nat)
    requires Sublist(part, whole)
    ensures InWindow(TimesOf(part, key), t, window) <= InWindow(TimesOf(whole, key), t, window)
    decreases |whole|
  {
    hide TimesOf, InWindow;
    if whole != [] {
      var (shorter, e) := (whole[..|whole| - 1], whole[|whole| - 1]);
      assert whole == shorter + [e];
      TimesOfSnoc(shorter, e, key);
      InWindowSnoc(TimesOf(shorter, key), e.time, t, window);
      if Sublist(part, shorter) {
        SublistCount(part, shorter, key, t, window);
      } else {
        var front := part[..|part| - 1];
        assert part == front + [e];
        TimesOfSnoc(front, e, key);
        InWindowSnoc(TimesOf(front, key), e.time, t, window);
        SublistCount(front, shorter, key, t, window);
      }
    }
  }

  /** Forwarded charges inherit the bound on every one of their keys. */
  lemma ForwardedBounded(s: Settings, held: Contents<RateKey>, admitted: seq<Event>, clock: nat,
                         forwarded: seq<Event>, key: RateKey)
    requires Sound(s, held, admitted, clock) && Sublist(forwarded, admitted)
    ensures Bounded(TimesOf(forwarded, key), LimitOf(s, key), WindowTicks(s, key))
  {
    hide Reflects, InWindow, Sublist, TimesOf;
    assert SoundAt(s, held, admitted, clock, key);
    forall t: int
      ensures InWindow(TimesOf(forwarded, key), t, WindowTicks(s, key)) <= LimitOf(s, key)
    {
      SublistCount(forwarded, admitted, key, t, WindowTicks(s, key));
    }
  }

  // ---- Requests let through ---------------------------------------------------------------------

  /** A forwarded request and the time at which its last charge was accepted. */
  datatype Passed = Passed(request: Request, at: nat)

  /** When the requests let through were, as far as they count against a key. */
  function AttemptsOn(passed: seq<Passed>, key: RateKey): seq<nat> {
    if passed == [] then [] else
      var n := |passed| - 1;
      AttemptsOn(passed[..n], key) + if ChargedTo(passed[n].request, key) then [passed[n].at] else []
  }

  /** The logins let through for one account, from whatever address. */
  function LoginsOf(passed: seq<Passed>, identifier: string): seq<nat> {
    if passed == [] then [] else
      var n := |passed| - 1;
      var r := passed[n].request;
      LoginsOf(passed[..n], identifier)
      + if r.route == Some(AuthLogin) && r.identifier == Some(identifier) then [passed[n].at] else []
  }

  lemma {:induction false} LoginsAreAttempts(passed: seq<Passed>, identifier: string)
    ensures LoginsOf(passed, identifier) == AttemptsOn(passed, Account(AuthLogin, identifier))
  {
    if passed != [] {
      LoginsAreAttempts(passed[..|passed| - 1], identifier);
    }
  }

  /** The accepted charges to who requests are for are those requests, one for one. */
  ghost predicate Accounted(passed: seq<Passed>, forwarded: seq<Event>) {
    forall key | IsIdentity(key) :: AttemptsOn(passed, key) == TimesOf(forwarded, key)
  }

  lemma {:induction false} TimesOfConcat(a: seq<Event>, b: seq<Event>, key: RateKey)
    ensures TimesOf(a + b, key) == TimesOf(a, key) + TimesOf(b, key)
    decreases |b|
  {
    hide TimesOf;
    if b == [] {
      assert a + b == a;
      NoTimes(key);
    } else {
      var n := |b| - 1;
      TimesOfConcat(a, b[..n], key);
      assert b == b[..n] + [b[n]] && a + b == (a + b[..n]) + [b[n]];
      TimesOfSnoc(a + b[..n], b[n], key);
      TimesOfSnoc(b[..n], b[n], key);
    }
  }

  lemma NoTimes(key: RateKey)
    ensures TimesOf([], key) == []
  {
  }

  lemma TimesOfCons(e: Event, rest: seq<Event>, key: RateKey)
    ensures TimesOf([e] + rest, key) == (if e.key == key then [e.time] else []) + TimesOf(rest, key)
  {
    TimesOfConcat([e], rest, key);
    TimesOfSnoc([], e, key);
    assert [] + [e] == [e];
  }

  lemma {:induction false} NotAmongEvents(keys: seq<RateKey>, ticks: nat -> Tick, i: nat, key: RateKey)
    requires key !in keys
    ensures TimesOf(EventsOf(keys, ticks, i), key) == []
    decreases |keys|
  {
    hide TimesOf;
    if keys == [] {
      NoTimes(key);
    } else {
      NotAmongEvents(keys[1..], ticks, i + 1, key);
      TimesOfCons(Event(keys[0], ticks(i).now), EventsOf(keys[1..], ticks, i + 1), key);
    }
  }

  /** Charging distinct keys one after the other, each is charged at its own call. */
  lemma {:induction false} AmongEvents(keys: seq<RateKey>, ticks: nat -> Tick, i: nat, n: nat)
    requires n < |keys| && forall j, k | 0 <= j < k < |keys| :: keys[j] != keys[k]
    ensures TimesOf(EventsOf(keys, ticks, i), keys[n]) == [ticks(i + n).now]
    decreases n
  {
    hide TimesOf;
    var (e, rest) := (Event(keys[0], ticks(i).now), keys[1..]);
    TimesOfCons(e, EventsOf(rest, ticks, i + 1), keys[n]);
    if n == 0 {
      NotAmongEvents(rest, ticks, i + 1, keys[0]);
      assert [e.time] + [] == [e.time];
    } else {
      AmongEvents(rest, ticks, i + 1, n - 1);
      assert rest[n - 1] == keys[n] && i + 1 + (n - 1) == i + n;
    }
  }

  /** What a forwarded request adds to the accepted charges of a key: one if it counts against it. */
  lemma ForwardAdds(r: Request, ticks: nat -> Tick, key: RateKey)
    ensures var times := TimesOf(EventsOf(Charged(r), ticks, 0), key);
            && |times| == (if ChargedTo(r, key) then 1 else 0)
            && (ChargedTo(r, key) ==> Charged(r) != [])
            && (IsIdentity(key) && ChargedTo(r, key) ==> times == [ticks(|Charged(r)| - 1).now])
  {
    hide Charged, ChargedTo, TimesOf, EventsOf;
    ChargedExactly(r);
    var keys := Charged(r);
    if ChargedTo(r, key) {
      ChargeOrder(r, key);
      var n :| 0 <= n < |keys| && keys[n] == key;
      AmongEvents(keys, ticks, 0, n);
      if IsIdentity(key) {
        AmongEvents(keys, ticks, 0, |keys| - 1);
      }
    } else {
      NotAmongEvents(keys, ticks, 0, key);
    }
  }

  lemma ForwardAccounted(passed: seq<Passed>, forwarded: seq<Event>, r: Request, ticks: nat -> Tick, at: nat)
    requires Accounted(passed, forwarded) && (Charged(r) != [] ==> at == ticks(|Charged(r)| - 1).now)
    ensures Accounted(passed + [Passed(r, at)], forwarded + EventsOf(Charged(r), ticks, 0))
  {
    hide TimesOf, EventsOf, Charged, ChargedTo;
    var after := passed + [Passed(r, at)];
    assert after[..|passed|] == passed;
    forall key | IsIdentity(key)
      ensures AttemptsOn(after, key) == TimesOf(forwarded + EventsOf(Charged(r), ticks, 0), key)
    {
      TimesOfConcat(forwarded, EventsOf(Charged(r), ticks, 0), key);
      ForwardAdds(r, ticks, key);
    }
  }

  // ---- The middleware ---------------------------------------------------------------------------

  ghost predicate IsLongestWait(replies: seq<RateLimitResult>, wait: nat) {
    && (exists i | 0 <= i < |replies| :: !replies[i].allowed && replies[i].retryAfterSeconds == wait)
    && (forall i | 0 <= i < |replies| && !replies[i].allowed :: replies[i].retryAfterSeconds <= wait)
  }

  /** The wait a refused request is told: the longest of the stage that refused it. */
  ghost predicate IsRequestWait(s: Settings, h: seq<Event>, global: seq<RateKey>, keys: seq<RateKey>,
                                ticks: nat -> Tick, wait: nat)
  {
    if StagePasses(s, h, global, ticks, 0)
    then IsLongestWait(Answers(s, ChargeAll(s, h, global, ticks, 0), keys, ticks, |global|), wait)
    else IsLongestWait(Answers(s, h, global, ticks, 0), wait)
  }

  /** `denied` and `wait` summarize the replies heard so far. */
  ghost predicate Summarizes(replies: seq<RateLimitResult>, denied: bool, wait: nat) {
    if denied then IsLongestWait(replies, wait) else forall k | 0 <= k < |replies| :: replies[k].allowed
  }

  function Longer(r: RateLimitResult, denied: bool, wait: nat): nat {
    if r.allowed || (denied && r.retryAfterSeconds <= wait) then wait else r.retryAfterSeconds
  }

  lemma SummarizeReply(replies: seq<RateLimitResult>, r: RateLimitResult, denied: bool, wait: nat)
    requires Summarizes(replies, denied, wait)
    ensures Summarizes(replies + [r], denied || !r.allowed, Longer(r, denied, wait))
  {
    var longer := replies + [r];
    assert longer[|replies|] == r;
    assert forall i | 0 <= i < |replies| :: longer[i] == replies[i];
  }

  /** Where the loop over keys stands after `n` answered charges. */
  ghost predicate Progress(s: Settings, h0: seq<Event>, h: seq<Event>, keys: seq<RateKey>, ticks: nat -> Tick,
                           first: nat, n: nat, denied: bool, replies: seq<RateLimitResult>)
    requires n <= |keys|
  {
    && Answers(s, h0, keys, ticks, first) == replies + Answers(s, h, keys[n..], ticks, first + n)
    && ChargeAll(s, h0, keys, ticks, first) == ChargeAll(s, h, keys[n..], ticks, first + n)
    && (Reachable(s, |keys|, ticks, first) <==> Reachable(s, |keys| - n, ticks, first + n))
    && (AllAllowed(s, h0, keys, ticks, first) <==> !denied && AllAllowed(s, h, keys[n..], ticks, first + n))
  }

  lemma ProgressStep(s: Settings, h0: seq<Event>, h: seq<Event>, keys: seq<RateKey>, ticks: nat -> Tick,
                     first: nat, n: nat, denied: bool, replies: seq<RateLimitResult>)
    requires n < |keys| && Progress(s, h0, h, keys, ticks, first, n, denied, replies)
    ensures var (tick, h') := (ticks(first + n), Charge(s, h, keys[n], ticks(first + n)));
            if Served(s.backend, tick)
            then Progress(s, h0, h', keys, ticks, first, n + 1, denied || !Allows(s, h, keys[n], tick),
                          replies + [AnswerOf(s, h, keys[n], tick)])
            else h' == ChargeAll(s, h0, keys, ticks, first) && !Reachable(s, |keys|, ticks, first)
  {
    hide Charge, Allows, AnswerOf;
    assert keys[n..][0] == keys[n] && keys[n..][1..] == keys[n + 1..];
    ConcatAssociative(replies, [AnswerOf(s, h, keys[n], ticks(first + n))],
                      Answers(s, Charge(s, h, keys[n], ticks(first + n)), keys[n + 1..], ticks, first + n + 1));
  }

  lemma ProgressStart(s: Settings, h: seq<Event>, keys: seq<RateKey>, ticks: nat -> Tick, first: nat)
    ensures Progress(s, h, h, keys, ticks, first, 0, false, [])
    ensures Summarizes([], false, 0)
  {
    assert keys[0..] == keys;
    assert [] + Answers(s, h, keys, ticks, first) == Answers(s, h, keys, ticks, first);
  }

  lemma ProgressEnd(s: Settings, h0: seq<Event>, h: seq<Event>, keys: seq<RateKey>, ticks: nat -> Tick, first: nat,
                    denied: bool, replies: seq<RateLimitResult>)
    ensures Progress(s, h0, h, keys, ticks, first, |keys|, denied, replies) ==>
              && replies == Answers(s, h0, keys, ticks, first) && h == ChargeAll(s, h0, keys, ticks, first)
              && Reachable(s, |keys|, ticks, first) && (AllAllowed(s, h0, keys, ticks, first) <==> !denied)
  {
    assert replies + [] == replies;
  }

  lemma AnswersTellWaits(s: Settings, h: seq<Event>, keys: seq<RateKey>, ticks: nat -> Tick, i: nat)
    ensures forall wait :: IsLongestWait(Answers(s, h, keys, ticks, i), wait) ==> wait >= 1
  {
  }

  lemma SummaryOf(replies: seq<RateLimitResult>, denied: bool, wait: nat)
    requires Summarizes(replies, denied, wait)
    ensures denied ==> IsLongestWait(replies, wait)
  {
  }

  /** After both stages a request has charged all its keys, the last one last. */
  lemma BothStagesCharged(s: Settings, start: seq<Event>, afterGlobal: seq<Event>, r: Request, route: RouteClass,
                          ticks: nat -> Tick)
    requires r.route == Some(route) && afterGlobal == start + EventsOf(GlobalKeys(route), ticks, 0)
    requires StagePasses(s, afterGlobal, KeysFor(r, route), ticks, |GlobalKeys(route)|)
    ensures ChargeAll(s, afterGlobal, KeysFor(r, route), ticks, |GlobalKeys(route)|)
         == start + EventsOf(Charged(r), ticks, 0)
    ensures KeysFor(r, route) != [] && |Charged(r)| == |GlobalKeys(route)| + |KeysFor(r, route)|
  {
    var (global, keys) := (GlobalKeys(route), KeysFor(r, route));
    assert keys != [];
    hide KeysFor, GlobalKeys;
    StageCharges(s, afterGlobal, keys, ticks, |global|);
    EventsOfConcat(global, keys, ticks, 0);
    ConcatAssociative(start, EventsOf(global, ticks, 0), EventsOf(keys, ticks, |global|));
  }

  lemma NoCharges(s: Settings, r: Request, ticks: nat -> Tick, admitted: seq<Event>, forwarded: seq<Event>)
    requires r.route.None?
    ensures Charged(r) == []
    ensures admitted + EventsOf(Charged(r), ticks, 0) == admitted
    ensures forwarded + EventsOf(Charged(r), ticks, 0) == forwarded
    ensures StagePasses(s, admitted, Charged(r), ticks, 0)
  {
  }

  class AuthRateLimitMiddleware {
    const settings: Settings
    const store: Store<RateKey>

    /** Every charge the store accepted, and those of forwarded requests. */
    ghost var admitted: seq<Event>
    ghost var forwarded: seq<Event>
    /** Every request let through. */
    ghost var passed: seq<Passed>
    ghost var clock: nat
    /** Whether every call so far found an orderly environment. */
    ghost var orderly: bool

    ghost predicate Valid()
      reads this, store.Object()
    {
      && store.Serves(settings.backend)
      && (orderly ==>
            && Sound(settings, store.Held(), admitted, clock) && Sublist(forwarded, admitted)
            && Accounted(passed, forwarded))
    }

    /** In an orderly run no window of any key holds more forwarded charges than its limit. */
    lemma ForwardedStaysBounded(key: RateKey)
      requires Valid() && orderly
      ensures Bounded(TimesOf(forwarded, key), LimitOf(settings, key), WindowTicks(settings, key))
    {
      ForwardedBounded(settings, store.Held(), admitted, clock, forwarded, key);
    }

    /** No window holds more requests let through for one user, account or token than that key's limit. */
    lemma AttemptsStayBounded(key: RateKey)
      requires Valid() && orderly && IsIdentity(key)
      ensures Bounded(AttemptsOn(passed, key), LimitOf(settings, key), WindowTicks(settings, key))
    {
      ForwardedStaysBounded(key);
    }

    /** However many addresses they come from, logins of one account are let through up to the login limit. */
    lemma LoginsStayBounded(identifier: string)
      requires Valid() && orderly
      ensures Bounded(LoginsOf(passed, identifier), Overridden(settings, settings.login),
                      settings.windowSeconds * TicksPerSecond(settings.backend))
    {
      hide Sound, Sublist, AttemptsOn, LoginsOf, Bounded;
      LoginsAreAttempts(passed, identifier);
      AttemptsStayBounded(Account(AuthLogin, identifier));
      LimitsAsConfigured(settings, Account(AuthLogin, identifier));
    }

    /** The wait a refused request is told is long enough for every key that refused it. */
    lemma RetryAfterSuffices(keys: seq<RateKey>, ticks: nat -> Tick, i: nat, wait: nat, n: nat,
                             h': seq<Event>, later: Tick)
      requires Valid() && orderly && InOrder(ticks, i, |keys|, clock)
      requires IsLongestWait(Answers(settings, admitted, keys, ticks, i), wait)
      requires n < |keys| && !Answers(settings, admitted, keys, ticks, i)[n].allowed
      requires TimesOf(h', keys[n]) == TimesOf(HistoryAt(settings, admitted, keys, ticks, i, n), keys[n])
      requires later.now >= WaitedOut(settings, ticks(i + n).now, wait)
      ensures Allows(settings, h', keys[n], later) && wait >= 1
    {
      hide SoundAt, PastAndBounded, Answers, Sublist, HistoryAt, TimesOf, WaitedOut, InOrder, Allows;
      forall key
        ensures PastAndBounded(settings, admitted, clock, key)
      {
        assert SoundAt(settings, store.Held(), admitted, clock, key);
        SoundIsPast(settings, store.Held(), admitted, clock, key);
      }
      LongestWaitSuffices(settings, admitted, clock, keys, ticks, i, wait, n, h', later);
    }

    constructor (settings: Settings)
      ensures Valid() && orderly && admitted == [] && forwarded == [] && passed == [] && fresh(store.Object())
      ensures this.settings == settings
    {
      var created := CreateStore(settings.backend);
      this.settings, store := settings, created;
      admitted, forwarded, passed, clock, orderly := [], [], [], 0, true;
      new;
      forall key
        ensures SoundAt(settings, store.Held(), admitted, clock, key)
      {
        assert Bounded([], LimitOf(settings, key), WindowTicks(settings, key));
      }
    }

    /** One charge, with the bookkeeping the bound is stated over. */
    method Consume(key: RateKey, maximum: Limit, windowSeconds: nat, tick: Tick)
      returns (reply: Result<RateLimitResult, Unavailable>)
      requires Valid() && maximum == LimitOf(settings, key) && windowSeconds == WindowOf(settings, key)
      modifies this, store.Object()
      ensures Valid() && forwarded == old(forwarded) && passed == old(passed) && (orderly ==> clock == tick.now)
      ensures orderly == (old(orderly) && Orderly(old(store.Held()), old(clock), key, tick))
      ensures orderly ==> admitted == Charge(settings, old(admitted), key, tick)
      ensures orderly && reply.Ok? ==>
        reply.value == AnswerOf(settings, old(admitted), key, tick)
        && reply.value.allowed == Allows(settings, old(admitted), key, tick)
      ensures orderly ==> (reply.Ok? <==> Served(settings.backend, tick))
    {
      ghost var before := store.Held();
      orderly := orderly && Orderly(before, clock, key, tick);
      reply := store.Consume(key, maximum, windowSeconds, tick);
      if orderly {
        ChargeSound(settings, before, store.Held(), admitted, clock, key, tick, reply);
        SublistBoth(forwarded, admitted, [Event(key, tick.now)]);
        admitted, clock := Charge(settings, admitted, key, tick), tick.now;
      }
    }

    /**
     * `_consume_request`: all keys are charged before any answer is looked at; the
     * longest wait among the denied ones is reported.
     */
    method ConsumeRequest(keys: seq<RateKey>, maximum: Limit, windowSeconds: nat, ticks: nat -> Tick, first: nat)
      returns (v: Verdict, ghost replies: seq<RateLimitResult>)
      requires Valid() && FollowsPolicy(settings, keys, maximum, windowSeconds)
      modifies this, store.Object()
      ensures Valid() && forwarded == old(forwarded) && passed == old(passed) && (orderly ==> old(orderly))
      ensures orderly && v.Forward? && keys != [] ==> clock == ticks(first + |keys| - 1).now
      ensures orderly ==> admitted == ChargeAll(settings, old(admitted), keys, ticks, first)
      ensures orderly ==> (v.ServiceUnavailable? <==> !Reachable(settings, |keys|, ticks, first))
      ensures orderly ==> (v.Forward? <==> StagePasses(settings, old(admitted), keys, ticks, first))
      ensures !v.ServiceUnavailable? ==> |replies| == |keys|
      ensures v.TooMany? ==> IsLongestWait(replies, v.retryAfterSeconds)
      ensures orderly && !v.ServiceUnavailable? ==> replies == Answers(settings, old(admitted), keys, ticks, first)
      ensures orderly && v.TooMany? ==> v.retryAfterSeconds >= 1
    {
      hide Sound, Sublist, Allows, Charge, Orderly, AnswerOf, Summarizes, IsLongestWait, Answers, Accounted;
      var denied := false;
      var retryAfter: nat := 0;
      replies := [];
      ProgressStart(settings, admitted, keys, ticks, first);
      for n := 0 to |keys|
        invariant Valid() && forwarded == old(forwarded) && passed == old(passed) && (orderly ==> old(orderly))
        invariant orderly && n > 0 ==> clock == ticks(first + n - 1).now
        invariant orderly ==> Progress(settings, old(admitted), admitted, keys, ticks, first, n, denied, replies)
        invariant |replies| == n && Summarizes(replies, denied, retryAfter)
      {
        ghost var before := admitted;
        var reply := Consume(keys[n], maximum, windowSeconds, ticks(first + n));
        if orderly {
          ProgressStep(settings, old(admitted), before, keys, ticks, first, n, denied, replies);
        }
        if reply.Err? {
          return ServiceUnavailable, replies;
        }
        SummarizeReply(replies, reply.value, denied, retryAfter);
        replies := replies + [reply.value];
        retryAfter := Longer(reply.value, denied, retryAfter);
        denied := denied || !reply.value.allowed;
      }
      ProgressEnd(settings, old(admitted), admitted, keys, ticks, first, denied, replies);
      v := if denied then TooMany(retryAfter) else Forward;
      SummaryOf(replies, denied, retryAfter);
      AnswersTellWaits(settings, old(admitted), keys, ticks, first);
    }

    /** `dispatch`: a global stage for some routes, then the per-client keys; forwarded only past both. */
    method Dispatch(request: Request, ticks: nat -> Tick) returns (v: Verdict)
      requires Valid()
      modifies this, store.Object()
      ensures Valid() && (orderly ==> old(orderly))
      ensures request.route.None? ==> v.Forward?
      ensures orderly ==> (v.Forward? <==> StagePasses(settings, old(admitted), Charged(request), ticks, 0))
      ensures orderly && request.route.Some? ==>
        var route := request.route.value;
        admitted == RequestCharges(settings, old(admitted), GlobalKeys(route), KeysFor(request, route), ticks)
      ensures v.TooMany? || v.ServiceUnavailable? ==> request.route.Some?
      ensures orderly && v.TooMany? ==>
        var route := request.route.value;
        && IsRequestWait(settings, old(admitted), GlobalKeys(route), KeysFor(request, route), ticks,
                         v.retryAfterSeconds)
        && v.retryAfterSeconds >= 1
      ensures !v.Forward? || request.route.None? ==> forwarded == old(forwarded)
      ensures orderly ==> passed == old(passed) + if v.Forward? then [Passed(request, clock)] else []
      ensures orderly && v.Forward? ==>
        forwarded == old(forwarded) + EventsOf(Charged(request), ticks, 0)
        && admitted == old(admitted) + EventsOf(Charged(request), ticks, 0)
    {
      hide Sound, Sublist, AllAllowed, Reachable, EventsOf, KeysFor, LimitFor, LimitOf, ChargeAll, FollowsPolicy,
           Answers, IsLongestWait, Accounted;
      if request.route.None? {
        NoCharges(settings, request, ticks, admitted, forwarded);
        if orderly {
          ForwardAccounted(passed, forwarded, request, ticks, clock);
          passed := passed + [Passed(request, clock)];
        }
        return Forward;
      }
      var route := request.route.value;
      var global := GlobalKeys(route);
      ghost var start := admitted;
      ghost var replies;
      KeysFollowPolicy(settings, request, route);
      StagesJoin(settings, start, global, KeysFor(request, route), ticks, 0);
      if global != [] {
        var limit := if route.AuthLogin? then settings.loginGlobal
                     else if route.Assistant? then settings.assistantDaily else settings.documentDaily;
        var window := if route.AuthLogin? then settings.windowSeconds else DAY;
        v, replies := ConsumeRequest(global, limit, window, ticks, 0);
        if !v.Forward? {
          return;
        }
      }
      StageDone(settings, start, admitted, global, ticks, 0, orderly);
      ghost var afterGlobal := admitted;
      v, replies := ConsumeRequest(KeysFor(request, route), LimitFor(settings, route), settings.windowSeconds,
                                   ticks, |global|);
      if v.Forward? && orderly {
        BothStagesCharged(settings, start, afterGlobal, request, route, ticks);
        SublistBoth(forwarded, start, EventsOf(Charged(request), ticks, 0));
        ForwardAccounted(passed, forwarded, request, ticks, clock);
        passed := passed + [Passed(request, clock)];
        forwarded := forwarded + EventsOf(Charged(request), ticks, 0);
      }
    }
  }
}
