/**
 The sliding-window limiters (common/rate-limit.go, middleware/rate-limit.go), for one key, against
 a reference that counts over the full history of accepted requests and never forgets.
 */
module RateLimit {

  // ---------------------------------------------------------------- the reference

  /** How many entries of the history are less than `window` old. */
  function Recent(history: seq<int>, now: int, window: int): nat {
    if history == [] then 0
    else Recent(history[..|history| - 1], now, window) + if now - history[|history| - 1] < window then 1 else 0
  }

  /** What the reference lets through: with a maximum of 0 the in-memory limiter still admits a first request. */
  function Cap(max: int): nat {
    if max < 1 then 1 else max
  }

  /** Time passes, then a request arrives or the purge loop wakes up. */
  datatype Event = Call(elapsed: nat) | Tick(elapsed: nat)

  datatype Spec = Spec(history: seq<int>, clock: int, log: seq<bool>)
  const SPEC_START := Spec([], 0, [])

  function SpecStep(s: Spec, max: int, window: int, e: Event): Spec {
    var now := s.clock + e.elapsed;
    if e.Tick? then s.(clock := now)
    else if Recent(s.history, now, window) < Cap(max) then Spec(s.history + [now], now, s.log + [true])
    else s.(clock := now, log := s.log + [false])
  }

  function SpecRun(max: int, window: int, es: seq<Event>): Spec {
    if es == [] then SPEC_START else SpecStep(SpecRun(max, window, es[..|es| - 1]), max, window, es[|es| - 1])
  }

  // ---------------------------------------------------------------- the in-memory limiter

  datatype Entry = Absent | Present(queue: seq<int>)

  /**
   What Request does: the entry afterwards and the answer.  An entry in the store is never empty.  For a
   negative maximum making its queue panics before anything is stored: the request is refused.
   */
  function Decide(e: Entry, max: int, duration: int, now: int): (Entry, bool)
    requires e != Present([])
  {
    match e
    case Absent => if max < 0 then (Absent, false) else (Present([now]), true)
    case Present(q) =>
      if |q| < max then (Present(q + [now]), true)
      else if now - q[0] >= duration then (Present(q[1..] + [now]), true)
      else (e, false)
  }

  /** clearExpiredItems, for one entry. */
  function Purge(e: Entry, expiration: int, now: int): Entry {
    if e.Present? && (e.queue == [] || now - e.queue[|e.queue| - 1] > expiration) then Absent else e
  }

  datatype Memory = Memory(entry: Entry, accepted: seq<int>, clock: int, log: seq<bool>)
  const MEMORY_START := Memory(Absent, [], 0, [])

  /** The purge loop is started only for a positive expiration. */
  function MemoryStep(s: Memory, max: int, duration: int, expiration: int, e: Event): Memory
    requires s.entry != Present([])
  {
    var now := s.clock + e.elapsed;
    match e
    case Tick(_) => s.(clock := now, entry := if expiration > 0 then Purge(s.entry, expiration, now) else s.entry)
    case Call(_) =>
      var r := Decide(s.entry, max, duration, now);
      Memory(r.0, if r.1 then s.accepted + [now] else s.accepted, now, s.log + [r.1])
  }

  function MemoryRun(max: int, duration: int, expiration: int, es: seq<Event>): (s: Memory)
    ensures s.entry != Present([])
  {
    if es == [] then MEMORY_START
    else MemoryStep(MemoryRun(max, duration, expiration, es[..|es| - 1]), max, duration, expiration, es[|es| - 1])
  }

  // ---------------------------------------------------------------- the Redis limiter

  /** A list, newest first, and when it expires; times are in milliseconds. */
  datatype RedisKey = Missing | List(times: seq<int>, expireAt: int)
  datatype Answer = Accepted | TooMany | ServerError

  function Times(k: RedisKey, now: int): seq<int> {
    if k.List? && now < k.expireAt then k.times else []
  }

  /** LTRIM from the first element to `stop`, counted from the end when negative. */
  function LTrim(s: seq<int>, stop: int): seq<int> {
    var last := if stop < 0 then |s| + stop else stop;
    if last < 0 then [] else if last >= |s| then s else s[..last + 1]
  }

  /** `duration` is in seconds, `ttl` in milliseconds; an empty list has no oldest time to parse. */
  function RedisRequest(k: RedisKey, max: int, duration: int, ttl: int, now: int): (RedisKey, Answer) {
    var times := Times(k, now);
    if |times| < max then (List([now] + times, now + ttl), Accepted)
    else if times == [] then (Missing, ServerError)
    else if (now - times[|times| - 1]) / 1000 < duration then (List(times, now + ttl), TooMany)
    else (List(LTrim([now] + times, max - 1), now + ttl), Accepted)
  }

  datatype Redis = Redis(key: RedisKey, accepted: seq<int>, clock: int, log: seq<bool>)
  const REDIS_START := Redis(Missing, [], 0, [])

  function RedisStep(s: Redis, max: int, duration: int, ttl: int, e: Event): Redis {
    var now := s.clock + e.elapsed;
    match e
    case Tick(_) => s.(clock := now)
    case Call(_) =>
      var r := RedisRequest(s.key, max, duration, ttl, now);
      Redis(r.0, if r.1.Accepted? then s.accepted + [now] else s.accepted, now, s.log + [r.1.Accepted?])
  }

  function RedisRun(max: int, duration: int, ttl: int, es: seq<Event>): Redis {
    if es == [] then REDIS_START
    else RedisStep(RedisRun(max, duration, ttl, es[..|es| - 1]), max, duration, ttl, es[|es| - 1])
  }

  // ---------------------------------------------------------------- as the program keeps them

  class InMemoryRateLimiter {
    var store: map<string, seq<int>>
    const expiration: int

    constructor (expiration: int)
      ensures Valid() && this.expiration == expiration && store == map[]
    {
      store := map[];
      this.expiration := expiration;
    }

    ghost predicate Valid()
      reads this
    {
      forall k :: k in store ==> store[k] != []
    }

    function EntryOf(key: string): Entry
      reads this
    {
      if key in store then Present(store[key]) else Absent
    }

    method Request(key: string, max: int, duration: int, now: int) returns (ok: bool)
      requires Valid()
      modifies this`store
      ensures Valid()
      ensures EntryOf(key) == Decide(old(EntryOf(key)), max, duration, now).0
      ensures ok == Decide(old(EntryOf(key)), max, duration, now).1
      ensures forall k :: k != key ==> EntryOf(k) == old(EntryOf(k))
    {
      if key in store {
        var queue := store[key];
        if |queue| < max {
          store := store[key := queue + [now]];
          return true;
        } else if now - queue[0] >= duration {
          queue := queue[1..];
          store := store[key := queue + [now]];
          return true;
        } else {
          return false;
        }
      }
      if max < 0 { return false; }
      store := store[key := [now]];
      return true;
    }

    /** One wake-up of the purge loop. */
    method ClearExpiredItems(now: int)
      requires Valid()
      modifies this`store
      ensures Valid()
      ensures forall k :: EntryOf(k) == Purge(old(EntryOf(k)), expiration, now)
    {
      var todo := store.Keys;
      while exists key :: key in todo
        invariant Valid()
        invariant todo <= old(store).Keys
        invariant forall k :: k in todo ==> EntryOf(k) == old(EntryOf(k))
        invariant forall k :: k !in todo ==> EntryOf(k) == Purge(old(EntryOf(k)), expiration, now)
        decreases todo
      {
        var key :| key in todo;
        assert EntryOf(key) == old(EntryOf(key));
        var queue := store[key];
        var size := |queue|;
        if size == 0 || now - queue[size - 1] > expiration {
          store := store - {key};
        }
        todo := todo - {key};
      }
    }
  }

  /** The lists Redis keeps for the limiter: each command on a key is atomic. */
  class RedisRateLimiter {
    var keys: map<string, RedisKey>

    function KeyOf(key: string): RedisKey
      reads this
    {
      if key in keys then keys[key] else Missing
    }

    method Request(key: string, max: int, duration: int, ttl: int, now: int) returns (answer: Answer)
      modifies this`keys
      ensures answer == RedisRequest(old(KeyOf(key)), max, duration, ttl, now).1
      ensures answer != ServerError ==> KeyOf(key) == RedisRequest(old(KeyOf(key)), max, duration, ttl, now).0
      ensures answer == ServerError ==> keys == old(keys)
      ensures answer == ServerError <==> max <= 0 && Times(old(KeyOf(key)), now) == []
      ensures answer != ServerError ==> KeyOf(key).List? && KeyOf(key).expireAt == now + ttl
      ensures answer == TooMany ==> KeyOf(key).times == Times(old(KeyOf(key)), now)
      ensures answer == Accepted ==> KeyOf(key).times == [] || KeyOf(key).times[0] == now
      ensures forall k :: k != key ==> KeyOf(k) == old(KeyOf(k))
    {
      var times := Times(KeyOf(key), now);
      var listLength := |times|;
      if listLength < max {
        times := [now] + times;
        keys := keys[key := List(times, now + ttl)];
        return Accepted;
      }
      if listLength == 0 {
        return ServerError;
      }
      var oldTime := times[listLength - 1];
      if (now - oldTime) / 1000 < duration {
        keys := keys[key := List(times, now + ttl)];
        return TooMany;
      }
      times := [now] + times;
      times := LTrim(times, max - 1);
      keys := keys[key := List(times, now + ttl)];
      return Accepted;
    }
  }

  // ---------------------------------------------------------------- counting

  ghost predicate Sorted(h: seq<int>) {
    forall i, j :: 0 <= i <= j < |h| ==> h[i] <= h[j]
  }

  lemma {:induction false} RecentSplit(a: seq<int>, b: seq<int>, now: int, window: int)
    ensures Recent(a + b, now, window) == Recent(a, now, window) + Recent(b, now, window)
  {
    if b == [] {
      assert a + b == a;
    } else {
      assert (a + b)[..|a + b| - 1] == a + b[..|b| - 1];
      RecentSplit(a, b[..|b| - 1], now, window);
    }
  }

  lemma {:induction false} RecentNone(h: seq<int>, now: int, window: int)
    requires forall i :: 0 <= i < |h| ==> now - h[i] >= window
    ensures Recent(h, now, window) == 0
  {
    if h != [] { RecentNone(h[..|h| - 1], now, window); }
  }

  /** How many there are: the positions whose time is still in the window. */
  lemma {:induction false} RecentIsCount(h: seq<int>, now: int, window: int)
    ensures Recent(h, now, window) == |set i | 0 <= i < |h| && now - window < h[i]|
  {
    var all := set i | 0 <= i < |h| && now - window < h[i];
    if h != [] {
      var n, front := |h| - 1, h[..|h| - 1];
      RecentIsCount(front, now, window);
      var before := set i | 0 <= i < |front| && now - window < front[i];
      forall i ensures i in all <==> i in before || (i == n && now - window < h[n]) {
        assert 0 <= i < n ==> front[i] == h[i];
      }
      OneMoreCounted(before, all, n, now - window < h[n]);
    } else {
      assert all == {};
    }
  }

  lemma OneMoreCounted(before: set<int>, all: set<int>, n: int, counts: bool)
    requires n !in before && forall i :: i in all <==> i in before || (i == n && counts)
    ensures |all| == |before| + if counts then 1 else 0
  {
    assert forall i :: i in all <==> i in before || (i == n && counts);
    assert all == if counts then before + {n} else before;
  }

  lemma {:induction false} RecentBound(h: seq<int>, now: int, window: int)
    ensures Recent(h, now, window) <= |h|
    ensures (forall i :: 0 <= i < |h| ==> now - h[i] < window) ==> Recent(h, now, window) == |h|
  {
    if h != [] { RecentBound(h[..|h| - 1], now, window); }
  }

  /**
   What a limiter may forget.  It keeps the last n accepted times; it may keep fewer than the cap
   only when everything before them has left the window.
   */
  ghost predicate Enough(h: seq<int>, n: int, cap: int, window: int, clock: int) {
    && Sorted(h) && (forall i :: 0 <= i < |h| ==> h[i] <= clock)
    && 0 <= n <= |h| && n <= cap
    && (n < cap ==> forall i :: 0 <= i < |h| - n ==> clock - h[i] >= window)
  }

  lemma EnoughLater(h: seq<int>, n: int, cap: int, window: int, clock: int, later: int)
    requires Enough(h, n, cap, window, clock) && clock <= later
    ensures Enough(h, n, cap, window, later)
  {
  }

  lemma RecentAtMost(h: seq<int>, k: nat, now: int, window: int)
    requires k <= |h| && forall i :: 0 <= i < k ==> now - h[i] >= window
    ensures Recent(h, now, window) <= |h| - k
  {
    assert h == h[..k] + h[k..];
    RecentSplit(h[..k], h[k..], now, window);
    RecentNone(h[..k], now, window);
    RecentBound(h[k..], now, window);
  }

  lemma RecentAtLeast(h: seq<int>, k: nat, now: int, window: int)
    requires k <= |h| && forall i :: k <= i < |h| ==> now - h[i] < window
    ensures Recent(h, now, window) >= |h| - k
  {
    assert h == h[..k] + h[k..];
    RecentSplit(h[..k], h[k..], now, window);
    RecentBound(h[k..], now, window);
  }

  /** Looking at the oldest of the kept times is the same as counting over the whole history. */
  lemma OldestDecides(h: seq<int>, n: int, cap: int, window: int, now: int)
    requires Enough(h, n, cap, window, now) && cap >= 1
    ensures (n < cap || now - h[|h| - n] >= window) <==> Recent(h, now, window) < cap
  {
    var k := |h| - n;
    if n < cap {
      RecentAtMost(h, k, now, window);
    } else if now - h[k] >= window {
      forall i | 0 <= i < k + 1 ensures now - h[i] >= window { assert h[i] <= h[k]; }
      RecentAtMost(h, k + 1, now, window);
    } else {
      forall i | k <= i < |h| ensures now - h[i] < window { assert h[k] <= h[i]; }
      RecentAtLeast(h, k, now, window);
    }
  }

  /** Accepting: one more is kept, or, when the cap is reached, the oldest gives way. */
  lemma AcceptKeepsEnough(h: seq<int>, n: int, cap: int, window: int, now: int)
    requires Enough(h, n, cap, window, now) && cap >= 1
    requires n < cap || now - h[|h| - n] >= window
    ensures Enough(h + [now], if n < cap then n + 1 else n, cap, window, now)
  {
  }

  // ---------------------------------------------------------------- in memory equals counting

  function Kept(e: Entry): seq<int> {
    if e.Present? then e.queue else []
  }

  predicate IsTail(q: seq<int>, h: seq<int>) {
    |q| <= |h| && forall j :: 0 <= j < |q| ==> q[j] == h[|h| - |q| + j]
  }

  /** The queue is the tail of the accepted history, and enough of it. */
  ghost predicate MemoryInv(s: Memory, max: int, duration: int) {
    && s.entry != Present([])
    && Enough(s.accepted, |Kept(s.entry)|, Cap(max), duration, s.clock)
    && IsTail(Kept(s.entry), s.accepted)
  }

  lemma RequestKeepsTail(e: Entry, h: seq<int>, max: int, duration: int, now: int, r: (Entry, bool))
    requires max >= 0 && e != Present([]) && IsTail(Kept(e), h) && |Kept(e)| <= Cap(max)
    requires r == Decide(e, max, duration, now)
    ensures r.0 != Present([])
    ensures r.1 <==> |Kept(e)| < Cap(max) || now - h[|h| - |Kept(e)|] >= duration
    ensures IsTail(Kept(r.0), if r.1 then h + [now] else h)
    ensures |Kept(r.0)| == if |Kept(e)| < Cap(max) then |Kept(e)| + 1 else |Kept(e)|
  {
    match e
    case Absent =>
      TailGrows([], h, now);
      assert [] + [now] == [now];
    case Present(queue) =>
      assert queue[0] == h[|h| - |queue|];
      TailGrows(queue, h, now);
      TailMoves(queue, h, now);
  }

  lemma TailGrows(q: seq<int>, h: seq<int>, now: int)
    requires IsTail(q, h)
    ensures IsTail(q + [now], h + [now])
  {
  }

  lemma TailMoves(q: seq<int>, h: seq<int>, now: int)
    requires IsTail(q, h) && q != []
    ensures IsTail(q[1..] + [now], h + [now])
  {
  }

  lemma RequestKeepsInv(e: Entry, h: seq<int>, max: int, duration: int, now: int, r: (Entry, bool))
    requires max >= 0 && e != Present([]) && IsTail(Kept(e), h)
    requires Enough(h, |Kept(e)|, Cap(max), duration, now)
    requires r == Decide(e, max, duration, now)
    ensures r.0 != Present([])
    ensures r.1 == (Recent(h, now, duration) < Cap(max))
    ensures IsTail(Kept(r.0), if r.1 then h + [now] else h)
    ensures Enough(if r.1 then h + [now] else h, |Kept(r.0)|, Cap(max), duration, now)
  {
    RequestKeepsTail(e, h, max, duration, now, r);
    OldestDecides(h, |Kept(e)|, Cap(max), duration, now);
    if r.1 {
      AcceptKeepsEnough(h, |Kept(e)|, Cap(max), duration, now);
    }
  }

  lemma MemoryStepKeepsInv(s: Memory, max: int, duration: int, expiration: int, e: Event, after: Memory)
    requires max >= 0 && MemoryInv(s, max, duration)
    requires expiration > 0 ==> duration <= expiration + 1
    requires after == MemoryStep(s, max, duration, expiration, e)
    ensures MemoryInv(after, max, duration)
    ensures e.Call? ==> after.log == s.log + [Recent(s.accepted, after.clock, duration) < Cap(max)]
    ensures e.Call? ==>
      after.accepted == if Recent(s.accepted, after.clock, duration) < Cap(max) then s.accepted + [after.clock]
           else s.accepted
  {
    EnoughLater(s.accepted, |Kept(s.entry)|, Cap(max), duration, s.clock, after.clock);
    if e.Call? {
      MemoryCallKeepsInv(s, max, duration, Decide(s.entry, max, duration, after.clock), after);
    } else if expiration > 0 {
      PurgeKeepsInv(s.entry, s.accepted, Cap(max), duration, expiration, after.clock, after.entry);
    }
  }

  lemma MemoryCallKeepsInv(s: Memory, max: int, duration: int, r: (Entry, bool), after: Memory)
    requires max >= 0 && s.entry != Present([]) && IsTail(Kept(s.entry), s.accepted)
    requires Enough(s.accepted, |Kept(s.entry)|, Cap(max), duration, after.clock)
    requires r == Decide(s.entry, max, duration, after.clock)
    requires after.entry == r.0 && after.log == s.log + [r.1]
    requires after.accepted == if r.1 then s.accepted + [after.clock] else s.accepted
    ensures MemoryInv(after, max, duration)
    ensures after.log == s.log + [Recent(s.accepted, after.clock, duration) < Cap(max)]
    ensures after.accepted == if Recent(s.accepted, after.clock, duration) < Cap(max) then s.accepted + [after.clock]
           else s.accepted
  {
    RequestKeepsInv(s.entry, s.accepted, max, duration, after.clock, r);
  }

  lemma PurgeKeepsInv(e: Entry, h: seq<int>, cap: int, duration: int, expiration: int, now: int, after: Entry)
    requires e != Present([]) && IsTail(Kept(e), h) && cap >= 1
    requires Enough(h, |Kept(e)|, cap, duration, now) && duration <= expiration + 1
    requires after == Purge(e, expiration, now)
    ensures after != Present([]) && IsTail(Kept(after), h) && Enough(h, |Kept(after)|, cap, duration, now)
  {
    if after != e {
      assert e.queue[|e.queue| - 1] == h[|h| - 1];
      forall i | 0 <= i < |h| ensures now - h[i] >= duration {
        assert h[i] <= h[|h| - 1];
      }
    }
  }

  /**
   The in-memory limiter decides as the reference does, for every interleaving with the purge loop, when
   nothing is purged before it leaves the window.
   */
  lemma {:induction false} MemoryEqualsCounting(max: int, duration: int, expiration: int, es: seq<Event>)
    requires max >= 0 && (expiration > 0 ==> duration <= expiration + 1)
    ensures MemoryInv(MemoryRun(max, duration, expiration, es), max, duration)
    ensures MemoryRun(max, duration, expiration, es).accepted == SpecRun(max, duration, es).history
    ensures MemoryRun(max, duration, expiration, es).clock == SpecRun(max, duration, es).clock
    ensures MemoryRun(max, duration, expiration, es).log == SpecRun(max, duration, es).log
  {
    if es != [] {
      var before, e := es[..|es| - 1], es[|es| - 1];
      MemoryEqualsCounting(max, duration, expiration, before);
      MemoryFollows(MemoryRun(max, duration, expiration, before), SpecRun(max, duration, before), max, duration,
                    expiration, e, MemoryRun(max, duration, expiration, es), SpecRun(max, duration, es));
    }
  }

  lemma MemoryFollows(m: Memory, c: Spec, max: int, duration: int, expiration: int, e: Event, m': Memory, c': Spec)
    requires max >= 0 && (expiration > 0 ==> duration <= expiration + 1)
    requires MemoryInv(m, max, duration) && m.accepted == c.history && m.clock == c.clock && m.log == c.log
    requires m' == MemoryStep(m, max, duration, expiration, e) && c' == SpecStep(c, max, duration, e)
    ensures MemoryInv(m', max, duration) && m'.accepted == c'.history && m'.clock == c'.clock && m'.log == c'.log
  {
    MemoryStepKeepsInv(m, max, duration, expiration, e, m');
  }

  // ---------------------------------------------------------------- when purging breaks it

  /** Filling the cap at time 0: both limiters accept everything. */
  lemma {:induction false} FillMemory(max: int, duration: int, expiration: int, n: nat)
    requires 1 <= n <= Cap(max) && max >= 0
    ensures MemoryRun(max, duration, expiration, seq(n, _ => Call(0)))
         == Memory(Present(seq(n, _ => 0)), seq(n, _ => 0), 0, seq(n, _ => true))
  {
    assert seq(n, _ => Call(0))[..n - 1] == seq(n - 1, _ => Call(0));
    if n == 1 {
      assert MemoryRun(max, duration, expiration, seq(0, _ => Call(0))) == MEMORY_START;
      assert [] + [0] == seq(1, _ => 0) && [] + [true] == seq(1, _ => true) && [0] == seq(1, _ => 0);
    } else {
      FillMemory(max, duration, expiration, n - 1);
      assert seq(n - 1, _ => 0) + [0] == seq(n, _ => 0) && seq(n - 1, _ => true) + [true] == seq(n, _ => true);
    }
  }

  lemma {:induction false} FillSpec(max: int, window: int, n: nat)
    requires n <= Cap(max)
    ensures SpecRun(max, window, seq(n, _ => Call(0))) == Spec(seq(n, _ => 0), 0, seq(n, _ => true))
  {
    if n == 0 {
      assert seq(0, _ => Call(0)) == [];
    } else {
      FillSpec(max, window, n - 1);
      assert seq(n, _ => Call(0))[..n - 1] == seq(n - 1, _ => Call(0));
      FillSpecOnce(max, window, n - 1, seq(n - 1, _ => 0), seq(n - 1, _ => true));
      assert seq(n - 1, _ => 0) + [0] == seq(n, _ => 0) && seq(n - 1, _ => true) + [true] == seq(n, _ => true);
    }
  }

  lemma FillSpecOnce(max: int, window: int, n: nat, zeros: seq<int>, log: seq<bool>)
    requires n < Cap(max) && |zeros| == n
    ensures SpecStep(Spec(zeros, 0, log), max, window, Call(0)) == Spec(zeros + [0], 0, log + [true])
  {
    RecentBound(zeros, 0, window);
  }

  /** A full window purged one second after its expiration, then one more request. */
  function EarlyPurge(max: int, expiration: int): seq<Event>
    requires expiration > 0
  {
    seq(Cap(max), _ => Call(0)) + [Tick(expiration + 1)] + [Call(0)]
  }

  lemma RunsAppend(max: int, duration: int, expiration: int, es: seq<Event>, e: Event)
    ensures MemoryRun(max, duration, expiration, es + [e])
         == MemoryStep(MemoryRun(max, duration, expiration, es), max, duration, expiration, e)
    ensures SpecRun(max, duration, es + [e]) == SpecStep(SpecRun(max, duration, es), max, duration, e)
  {
    assert (es + [e])[..|es + [e]| - 1] == es;
  }

  lemma PurgedTooEarly(max: int, duration: int, expiration: int)
    requires max >= 0 && expiration > 0 && duration > expiration + 1
    ensures MemoryRun(max, duration, expiration, EarlyPurge(max, expiration)).log
         != SpecRun(max, duration, EarlyPurge(max, expiration)).log
    ensures MemoryRun(max, duration, expiration, EarlyPurge(max, expiration)).accepted
         == seq(Cap(max), _ => 0) + [expiration + 1]
  {
    var cap := Cap(max);
    var fill := seq(cap, _ => Call(0));
    RunsAppend(max, duration, expiration, fill, Tick(expiration + 1));
    RunsAppend(max, duration, expiration, fill + [Tick(expiration + 1)], Call(0));
    FillMemory(max, duration, expiration, cap);
    FillSpec(max, duration, cap);
    LastCallDiffers(max, duration, expiration, seq(cap, _ => 0), seq(cap, _ => true));
  }

  lemma LastCallDiffers(max: int, duration: int, expiration: int, zeros: seq<int>, log: seq<bool>)
    requires max >= 0 && expiration > 0 && duration > expiration + 1
    requires zeros == seq(Cap(max), _ => 0)
    ensures MemoryStep(
              MemoryStep(Memory(Present(zeros), zeros, 0, log), max, duration, expiration, Tick(expiration + 1)),
              max, duration, expiration, Call(0))
         == Memory(Present([expiration + 1]), zeros + [expiration + 1], expiration + 1, log + [true])
    ensures SpecStep(SpecStep(Spec(zeros, 0, log), max, duration, Tick(expiration + 1)), max, duration, Call(0)).log
         == log + [false]
    ensures log + [true] != log + [false]
  {
    RecentBound(zeros, expiration + 1, duration);
    assert (log + [true])[|log|] && !(log + [false])[|log|];
  }

  /** A negative maximum lets nothing through. */
  lemma {:induction false} MemoryAcceptsNothing(max: int, duration: int, expiration: int, es: seq<Event>)
    requires max < 0
    ensures MemoryRun(max, duration, expiration, es).accepted == []
    ensures MemoryRun(max, duration, expiration, es).entry == Absent
    ensures MemoryRun(max, duration, expiration, es).log == Refusals(es)
  {
    if es != [] { MemoryAcceptsNothing(max, duration, expiration, es[..|es| - 1]); }
  }

  /** The answers of a limiter that refuses every request. */
  function Refusals(es: seq<Event>): seq<bool> {
    if es == [] then [] else Refusals(es[..|es| - 1]) + if es[|es| - 1].Call? then [false] else []
  }

  lemma FirstCallIsCounted(max: int, window: int)
    ensures SpecRun(max, window, [Call(0)]).log == [true]
    ensures Refusals([Call(0)]) == [false]
  {
    assert [Call(0)][..0] == [] && SpecRun(max, window, []) == SPEC_START;
    assert [] + [true] == [true] && [] + [false] == [false];
  }

  /** Exactly when: the maximum is not negative, and the purge loop does not run or lets entries grow old enough. */
  lemma MemoryEqualsCountingIff(max: int, duration: int, expiration: int)
    ensures (forall es :: MemoryRun(max, duration, expiration, es).log == SpecRun(max, duration, es).log)
       <==> max >= 0 && (expiration > 0 ==> duration <= expiration + 1)
  {
    if max < 0 {
      MemoryAcceptsNothing(max, duration, expiration, [Call(0)]);
      FirstCallIsCounted(max, duration);
      assert [false] != [true] by { assert [false][0] != [true][0]; }
    } else if expiration > 0 && duration > expiration + 1 {
      PurgedTooEarly(max, duration, expiration);
    } else {
      forall es ensures MemoryRun(max, duration, expiration, es).log == SpecRun(max, duration, es).log {
        MemoryEqualsCounting(max, duration, expiration, es);
      }
    }
  }

  // ---------------------------------------------------------------- no burst

  ghost predicate Spread(h: seq<int>, clock: int, cap: int, window: int) {
    && Enough(h, if |h| < cap then |h| else cap, cap, window, clock)
    && forall i, j :: 0 <= i && j == i + cap < |h| ==> h[j] - h[i] >= window
  }

  lemma SpreadStep(s: Spec, max: int, window: int, e: Event, after: Spec)
    requires Spread(s.history, s.clock, Cap(max), window)
    requires after == SpecStep(s, max, window, e)
    ensures Spread(after.history, after.clock, Cap(max), window)
  {
    var n := if |s.history| < Cap(max) then |s.history| else Cap(max);
    EnoughLater(s.history, n, Cap(max), window, s.clock, after.clock);
    OldestDecides(s.history, n, Cap(max), window, after.clock);
    if e.Call? && Recent(s.history, after.clock, window) < Cap(max) {
      SpreadAppend(s.history, n, Cap(max), window, after.clock);
    }
  }

  lemma SpreadAppend(h: seq<int>, n: int, cap: int, window: int, now: int)
    requires Spread(h, now, cap, window) && cap >= 1 && n == if |h| < cap then |h| else cap
    requires n < cap || now - h[|h| - n] >= window
    ensures Spread(h + [now], now, cap, window)
  {
    AcceptKeepsEnough(h, n, cap, window, now);
    forall i, j | 0 <= i && j == i + cap < |h| + 1 ensures (h + [now])[j] - (h + [now])[i] >= window {
      if j < |h| { assert h[j] - h[i] >= window; }
    }
  }

  /** How many requests of a history fall in the window (t - window, t], wherever that is. */
  function Within(h: seq<int>, t: int, window: int): nat {
    if h == [] then 0
    else
      var n := |h| - 1;
      Within(h[..n], t, window) + if t - window < h[n] <= t then 1 else 0
  }

  lemma {:induction false} WithinIsCount(h: seq<int>, t: int, window: int)
    ensures Within(h, t, window) == |set i | 0 <= i < |h| && t - window < h[i] <= t|
  {
    var all := set i | 0 <= i < |h| && t - window < h[i] <= t;
    if h != [] {
      var n, front := |h| - 1, h[..|h| - 1];
      WithinIsCount(front, t, window);
      var before := set i | 0 <= i < |front| && t - window < front[i] <= t;
      forall i ensures i in all <==> i in before || (i == n && t - window < h[n] <= t) {
        assert 0 <= i < n ==> front[i] == h[i];
      }
      OneMoreCounted(before, all, n, t - window < h[n] <= t);
    } else {
      assert all == {};
    }
  }

  lemma {:induction false} WithinFrom(h: seq<int>, k: nat, t: int, window: int)
    requires k <= |h| && forall i :: 0 <= i < k ==> h[i] <= t - window
    ensures Within(h, t, window) <= |h| - k
  {
    if |h| > k {
      WithinFrom(h[..|h| - 1], k, t, window);
    } else if h != [] {
      assert h[|h| - 1] <= t - window;
      WithinFrom(h[..|h| - 1], k - 1, t, window);
    }
  }

  lemma {:induction false} SpreadBoundsWindow(h: seq<int>, cap: nat, t: int, window: int)
    requires Sorted(h) && cap >= 1
    requires forall i, j :: 0 <= i && j == i + cap < |h| ==> h[j] - h[i] >= window
    ensures Within(h, t, window) <= cap
  {
    if |h| <= cap {
      WithinFrom(h, 0, t, window);
    } else if h[|h| - 1] > t {
      SpreadBoundsWindow(h[..|h| - 1], cap, t, window);
    } else {
      var k := |h| - cap;
      assert h[k - 1 + cap] - h[k - 1] >= window;
      forall i | 0 <= i < k ensures h[i] <= t - window { assert h[i] <= h[k - 1]; }
      WithinFrom(h, k, t, window);
    }
  }

  /** No window of that length, wherever it lies, holds more accepted requests than the cap. */
  lemma NoBurst(max: int, window: int, es: seq<Event>, t: int)
    ensures Within(SpecRun(max, window, es).history, t, window) <= Cap(max)
  {
    RunIsSpread(max, window, es);
    SpreadBoundsWindow(SpecRun(max, window, es).history, Cap(max), t, window);
  }

  /** Accepted requests that many places apart are a window apart. */
  lemma {:induction false} RunIsSpread(max: int, window: int, es: seq<Event>)
    ensures Spread(SpecRun(max, window, es).history, SpecRun(max, window, es).clock, Cap(max), window)
  {
    if es != [] {
      RunIsSpread(max, window, es[..|es| - 1]);
      SpreadStep(SpecRun(max, window, es[..|es| - 1]), max, window, es[|es| - 1], SpecRun(max, window, es));
    }
  }

  // ---------------------------------------------------------------- Redis equals counting

  predicate IsReversedTail(times: seq<int>, h: seq<int>) {
    |times| <= |h| && forall j :: 0 <= j < |times| ==> times[j] == h[|h| - 1 - j]
  }

  /** Whether or not it has expired, the list mirrors the tail of the history, and outlives it by the ttl. */
  ghost predicate RedisInv(key: RedisKey, h: seq<int>, max: int, window: int, ttl: int, clock: int) {
    var times := if key.List? then key.times else [];
    && Enough(h, |times|, max, window, clock)
    && IsReversedTail(times, h)
    && (key.List? ==> forall i :: 0 <= i < |h| ==> h[i] + ttl <= key.expireAt)
  }

  lemma RedisRequestKeepsInv(key: RedisKey, h: seq<int>, max: int, duration: int, ttl: int, now: int,
                             r: (RedisKey, Answer))
    requires max >= 1 && 1000 * duration <= ttl
    requires RedisInv(key, h, max, 1000 * duration, ttl, now)
    requires r == RedisRequest(key, max, duration, ttl, now)
    ensures r.1 != ServerError
    ensures r.1.Accepted? == (Recent(h, now, 1000 * duration) < max)
    ensures RedisInv(r.0, if r.1.Accepted? then h + [now] else h, max, 1000 * duration, ttl, now)
  {
    var times, window := Times(key, now), 1000 * duration;
    var n := |times|;
    TimesAreKept(key, h, max, window, ttl, now);
    OldestDecides(h, n, max, window, now);
    if n == max { OldEnough(now - times[n - 1], duration); }
    assert r.1.Accepted? <==> n < max || now - h[|h| - n] >= window;
    if r.1.Accepted? {
      AcceptKeepsEnough(h, n, max, window, now);
      PushedTail(times, h, now, max);
    }
  }

  /** What is read of the list: all of it, or nothing once it has expired, by when no accepted time counts. */
  lemma TimesAreKept(key: RedisKey, h: seq<int>, max: int, window: int, ttl: int, now: int)
    requires max >= 1 && window <= ttl && RedisInv(key, h, max, window, ttl, now)
    ensures Enough(h, |Times(key, now)|, max, window, now) && IsReversedTail(Times(key, now), h)
  {
  }

  /** Whole seconds: the limiter's division makes no difference. */
  lemma OldEnough(age: int, duration: int)
    ensures age / 1000 < duration <==> age < 1000 * duration
  {
  }

  lemma PushedTail(times: seq<int>, h: seq<int>, now: int, max: int)
    requires max >= 1 && IsReversedTail(times, h) && |times| <= max
    ensures IsReversedTail([now] + times, h + [now])
    ensures IsReversedTail(LTrim([now] + times, max - 1), h + [now])
    ensures |LTrim([now] + times, max - 1)| == if |times| < max then |times| + 1 else max
  {
  }

  lemma RedisInvLater(key: RedisKey, h: seq<int>, max: int, window: int, ttl: int, clock: int, later: int)
    requires RedisInv(key, h, max, window, ttl, clock) && clock <= later
    ensures RedisInv(key, h, max, window, ttl, later)
  {
    var n := if key.List? then |key.times| else 0;
    EnoughLater(h, n, max, window, clock, later);
  }

  lemma RedisStepKeepsInv(s: Redis, max: int, duration: int, ttl: int, e: Event, after: Redis)
    requires max >= 1 && 1000 * duration <= ttl
    requires RedisInv(s.key, s.accepted, max, 1000 * duration, ttl, s.clock)
    requires after == RedisStep(s, max, duration, ttl, e)
    ensures RedisInv(after.key, after.accepted, max, 1000 * duration, ttl, after.clock)
    ensures e.Call? ==> after.log == s.log + [Recent(s.accepted, after.clock, 1000 * duration) < max]
    ensures e.Call? ==>
      after.accepted == if Recent(s.accepted, after.clock, 1000 * duration) < max then s.accepted + [after.clock]
           else s.accepted
  {
    RedisInvLater(s.key, s.accepted, max, 1000 * duration, ttl, s.clock, after.clock);
    if e.Call? {
      RedisCallKeepsInv(s, max, duration, ttl, RedisRequest(s.key, max, duration, ttl, after.clock), after);
    }
  }

  lemma RedisCallKeepsInv(s: Redis, max: int, duration: int, ttl: int, r: (RedisKey, Answer), after: Redis)
    requires max >= 1 && 1000 * duration <= ttl
    requires RedisInv(s.key, s.accepted, max, 1000 * duration, ttl, after.clock)
    requires r == RedisRequest(s.key, max, duration, ttl, after.clock)
    requires after.key == r.0 && after.log == s.log + [r.1.Accepted?]
    requires after.accepted == if r.1.Accepted? then s.accepted + [after.clock] else s.accepted
    ensures RedisInv(after.key, after.accepted, max, 1000 * duration, ttl, after.clock)
    ensures after.log == s.log + [Recent(s.accepted, after.clock, 1000 * duration) < max]
    ensures after.accepted == if Recent(s.accepted, after.clock, 1000 * duration) < max then s.accepted + [after.clock]
           else s.accepted
  {
    RedisRequestKeepsInv(s.key, s.accepted, max, duration, ttl, after.clock, r);
  }

  lemma {:induction false} RedisEqualsCounting(max: int, duration: int, ttl: int, es: seq<Event>)
    requires max >= 1 && 1000 * duration <= ttl
    ensures var r := RedisRun(max, duration, ttl, es);
      RedisInv(r.key, r.accepted, max, 1000 * duration, ttl, r.clock)
    ensures RedisRun(max, duration, ttl, es).accepted == SpecRun(max, 1000 * duration, es).history
    ensures RedisRun(max, duration, ttl, es).clock == SpecRun(max, 1000 * duration, es).clock
    ensures RedisRun(max, duration, ttl, es).log == SpecRun(max, 1000 * duration, es).log
  {
    if es != [] {
      var before, e := es[..|es| - 1], es[|es| - 1];
      RedisEqualsCounting(max, duration, ttl, before);
      RedisFollows(RedisRun(max, duration, ttl, before), SpecRun(max, 1000 * duration, before), max, duration, ttl,
                   e, RedisRun(max, duration, ttl, es), SpecRun(max, 1000 * duration, es));
    } else {
      RedisStarts(max, 1000 * duration, ttl);
    }
  }

  lemma RedisStarts(max: int, window: int, ttl: int)
    requires max >= 1
    ensures RedisInv(REDIS_START.key, REDIS_START.accepted, max, window, ttl, REDIS_START.clock)
  {
  }

  lemma RedisFollows(r: Redis, c: Spec, max: int, duration: int, ttl: int, e: Event, r': Redis, c': Spec)
    requires max >= 1 && 1000 * duration <= ttl
    requires RedisInv(r.key, r.accepted, max, 1000 * duration, ttl, r.clock)
    requires r.accepted == c.history && r.clock == c.clock && r.log == c.log
    requires r' == RedisStep(r, max, duration, ttl, e) && c' == SpecStep(c, max, 1000 * duration, e)
    ensures RedisInv(r'.key, r'.accepted, max, 1000 * duration, ttl, r'.clock)
    ensures r'.accepted == c'.history && r'.clock == c'.clock && r'.log == c'.log
  {
    RedisStepKeepsInv(r, max, duration, ttl, e, r');
    SpecMoves(c, max, 1000 * duration, e, c');
    TickMoves(r, max, duration, ttl, e, r');
  }

  lemma SpecMoves(c: Spec, max: int, window: int, e: Event, c': Spec)
    requires c' == SpecStep(c, max, window, e)
    ensures c'.clock == c.clock + e.elapsed
    ensures e.Tick? ==> c'.history == c.history && c'.log == c.log
    ensures e.Call? ==> c'.log == c.log + [Recent(c.history, c'.clock, window) < Cap(max)]
    ensures e.Call? ==>
      c'.history == if Recent(c.history, c'.clock, window) < Cap(max) then c.history + [c'.clock] else c.history
  {
  }

  lemma TickMoves(r: Redis, max: int, duration: int, ttl: int, e: Event, r': Redis)
    requires r' == RedisStep(r, max, duration, ttl, e)
    ensures r'.clock == r.clock + e.elapsed
    ensures e.Tick? ==> r'.accepted == r.accepted && r'.log == r.log
  {
  }

  lemma {:induction false} FillRedis(max: int, duration: int, ttl: int, n: nat)
    requires 1 <= n <= max && ttl > 0
    ensures RedisRun(max, duration, ttl, seq(n, _ => Call(0)))
         == Redis(List(seq(n, _ => 0), ttl), seq(n, _ => 0), 0, seq(n, _ => true))
  {
    var es := seq(n, _ => Call(0));
    assert es[..n - 1] == seq(n - 1, _ => Call(0));
    if n == 1 {
      assert RedisRun(max, duration, ttl, es[..n - 1]) == REDIS_START;
      assert [0] == seq(1, _ => 0) && [true] == seq(1, _ => true);
      assert [0] + [] == [0] && [] + [0] == [0] && [] + [true] == [true];
    } else {
      FillRedis(max, duration, ttl, n - 1);
      assert seq(n - 1, _ => 0) + [0] == seq(n, _ => 0) && [0] + seq(n - 1, _ => 0) == seq(n, _ => 0);
      assert seq(n - 1, _ => true) + [true] == seq(n, _ => true);
    }
  }

  lemma RedisRunAppend(max: int, duration: int, ttl: int, es: seq<Event>, e: Event)
    ensures RedisRun(max, duration, ttl, es + [e]) == RedisStep(RedisRun(max, duration, ttl, es), max, duration, ttl, e)
    ensures SpecRun(max, 1000 * duration, es + [e])
         == SpecStep(SpecRun(max, 1000 * duration, es), max, 1000 * duration, e)
  {
    assert (es + [e])[..|es + [e]| - 1] == es;
  }

  /** A full list left alone for its time to live, then one more request. */
  lemma ExpiredTooEarly(max: int, duration: int, ttl: int)
    requires max >= 1 && 0 < ttl < 1000 * duration
    ensures var es := seq(max, _ => Call(0)) + [Call(ttl)];
      RedisRun(max, duration, ttl, es).log != SpecRun(max, 1000 * duration, es).log
    ensures RedisRun(max, duration, ttl, seq(max, _ => Call(0)) + [Call(ttl)])
         == Redis(List([ttl], ttl + ttl), seq(max, _ => 0) + [ttl], ttl, seq(max, _ => true) + [true])
  {
    RedisRunAppend(max, duration, ttl, seq(max, _ => Call(0)), Call(ttl));
    FillRedis(max, duration, ttl, max);
    FillSpec(max, 1000 * duration, max);
    LateCallAccepted(max, duration, ttl, seq(max, _ => 0), seq(max, _ => true));
  }

  lemma LateCallAccepted(max: int, duration: int, ttl: int, zeros: seq<int>, log: seq<bool>)
    requires max >= 1 && 0 < ttl < 1000 * duration && zeros == seq(max, _ => 0)
    ensures RedisStep(Redis(List(zeros, ttl), zeros, 0, log), max, duration, ttl, Call(ttl))
         == Redis(List([ttl], ttl + ttl), zeros + [ttl], ttl, log + [true])
    ensures SpecStep(Spec(zeros, 0, log), max, 1000 * duration, Call(ttl)).log == log + [false]
    ensures log + [true] != log + [false]
  {
    RecentBound(zeros, ttl, 1000 * duration);
    ExpiredIsEmpty(zeros, max, duration, ttl);
    assert (log + [true])[|log|] && !(log + [false])[|log|];
  }

  lemma ExpiredIsEmpty(times: seq<int>, max: int, duration: int, ttl: int)
    requires max >= 1
    ensures RedisRequest(List(times, ttl), max, duration, ttl, ttl) == (List([ttl], ttl + ttl), Accepted)
  {
    assert [ttl] + [] == [ttl];
  }

  /** Exactly when: a positive maximum, and a time to live that covers the window. */
  lemma RedisEqualsCountingIff(max: int, duration: int, ttl: int)
    requires ttl > 0
    ensures (forall es :: RedisRun(max, duration, ttl, es).log == SpecRun(max, 1000 * duration, es).log)
       <==> max >= 1 && 1000 * duration <= ttl
  {
    if max < 1 {
      RedisAcceptsNothing(max, duration, ttl, [Call(0)]);
      FirstCallIsCounted(max, 1000 * duration);
      assert [false] != [true] by { assert [false][0] != [true][0]; }
    } else if ttl < 1000 * duration {
      ExpiredTooEarly(max, duration, ttl);
    } else {
      forall es ensures RedisRun(max, duration, ttl, es).log == SpecRun(max, 1000 * duration, es).log {
        RedisEqualsCounting(max, duration, ttl, es);
      }
    }
  }

  // ---------------------------------------------------------------- no burst, for either limiter

  lemma {:induction false} WithinRepeated(h: seq<int>, n: nat, t: int, window: int)
    requires |h| >= n && forall i :: |h| - n <= i < |h| ==> t - window < h[i] <= t
    ensures Within(h, t, window) >= n
  {
    if n > 0 {
      assert t - window < h[|h| - 1] <= t;
      WithinRepeated(h[..|h| - 1], n - 1, t, window);
    }
  }

  /** The in-memory limiter bounds every window of every run exactly when it equals counting or accepts nothing. */
  lemma MemoryNoBurstIff(max: int, duration: int, expiration: int)
    ensures (forall es, t :: Within(MemoryRun(max, duration, expiration, es).accepted, t, duration) <= Cap(max))
       <==> max < 0 || (expiration > 0 ==> duration <= expiration + 1)
  {
    if max >= 0 && expiration > 0 && duration > expiration + 1 {
      var cap, es := Cap(max), EarlyPurge(max, expiration);
      PurgedTooEarly(max, duration, expiration);
      var accepted := MemoryRun(max, duration, expiration, es).accepted;
      WithinRepeated(accepted, cap + 1, expiration + 1, duration);
      assert Within(accepted, expiration + 1, duration) > cap;
    } else {
      forall es, t ensures Within(MemoryRun(max, duration, expiration, es).accepted, t, duration) <= Cap(max) {
        if max < 0 {
          MemoryAcceptsNothing(max, duration, expiration, es);
        } else {
          MemoryEqualsCounting(max, duration, expiration, es);
          NoBurst(max, duration, es, t);
        }
      }
    }
  }

  lemma {:induction false} RedisAcceptsNothing(max: int, duration: int, ttl: int, es: seq<Event>)
    requires max < 1
    ensures RedisRun(max, duration, ttl, es).accepted == [] && RedisRun(max, duration, ttl, es).key == Missing
    ensures RedisRun(max, duration, ttl, es).log == Refusals(es)
  {
    if es != [] { RedisAcceptsNothing(max, duration, ttl, es[..|es| - 1]); }
  }

  /** The Redis limiter does exactly when its time to live covers the window, or it accepts nothing at all. */
  lemma RedisNoBurstIff(max: int, duration: int, ttl: int)
    requires ttl > 0
    ensures (forall es, t :: Within(RedisRun(max, duration, ttl, es).accepted, t, 1000 * duration) <= Cap(max))
       <==> max < 1 || 1000 * duration <= ttl
  {
    if max >= 1 && ttl < 1000 * duration {
      var es := seq(max, _ => Call(0)) + [Call(ttl)];
      ExpiredTooEarly(max, duration, ttl);
      var accepted := RedisRun(max, duration, ttl, es).accepted;
      assert accepted == seq(max, _ => 0) + [ttl];
      WithinRepeated(accepted, max + 1, ttl, 1000 * duration);
      assert Within(accepted, ttl, 1000 * duration) > Cap(max);
    } else {
      forall es, t ensures Within(RedisRun(max, duration, ttl, es).accepted, t, 1000 * duration) <= Cap(max) {
        if max < 1 {
          RedisAcceptsNothing(max, duration, ttl, es);
        } else {
          RedisEqualsCounting(max, duration, ttl, es);
          NoBurst(max, 1000 * duration, es, t);
        }
      }
    }
  }
}
