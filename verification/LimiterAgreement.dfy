/** The in-memory and the Redis limiter side by side (common/rate-limit.go, middleware/rate-limit.go). */
module LimiterAgreement {
  import opened RateLimit

  /** The same run on a millisecond clock. */
  function Millis(es: seq<Event>): seq<Event> {
    if es == [] then []
    else
      var e := es[|es| - 1];
      Millis(es[..|es| - 1]) + [if e.Call? then Call(1000 * e.elapsed) else Tick(1000 * e.elapsed)]
  }

  function Scale(h: seq<int>): seq<int> {
    seq(|h|, i requires 0 <= i < |h| => 1000 * h[i])
  }

  lemma {:induction false} RecentScale(h: seq<int>, now: int, window: int)
    ensures Recent(Scale(h), 1000 * now, 1000 * window) == Recent(h, now, window)
  {
    if h != [] {
      RecentScale(h[..|h| - 1], now, window);
      assert Scale(h)[..|h| - 1] == Scale(h[..|h| - 1]);
    }
  }

  lemma {:induction false} SpecScale(max: int, window: int, es: seq<Event>)
    ensures SpecRun(max, 1000 * window, Millis(es)).history == Scale(SpecRun(max, window, es).history)
    ensures SpecRun(max, 1000 * window, Millis(es)).clock == 1000 * SpecRun(max, window, es).clock
    ensures SpecRun(max, 1000 * window, Millis(es)).log == SpecRun(max, window, es).log
  {
    if es != [] {
      var before := es[..|es| - 1];
      SpecScale(max, window, before);
      var c := SpecRun(max, window, before);
      var now := c.clock + es[|es| - 1].elapsed;
      RecentScale(c.history, now, window);
      assert Millis(es)[..|Millis(es)| - 1] == Millis(before);
      assert Scale(c.history + [now]) == Scale(c.history) + [1000 * now];
    }
  }

  function Newest(h: seq<int>, n: nat): seq<int>
    requires n <= |h|
  {
    h[|h| - n..]
  }

  /** The newest accepted times that still count are held, newest last, by the queue. */
  lemma QueueHoldsRecent(s: Memory, max: int, duration: int, n: nat)
    requires MemoryInv(s, max, duration) && n == Recent(s.accepted, s.clock, duration)
    requires n <= Cap(max)
    ensures n <= |Kept(s.entry)| <= |s.accepted|
    ensures Newest(Kept(s.entry), n) == Newest(s.accepted, n)
  {
    RecentIsKept(s.accepted, |Kept(s.entry)|, Cap(max), duration, s.clock);
    NewestOfTail(Kept(s.entry), s.accepted, n);
  }

  lemma NewestOfTail(q: seq<int>, h: seq<int>, n: nat)
    requires IsTail(q, h) && n <= |q|
    ensures Newest(q, n) == Newest(h, n)
  {
  }

  /** And, newest first, by the list, unless it has expired: then no accepted time counts any more. */
  lemma ListHoldsRecent(s: Redis, max: int, window: int, ttl: int, n: nat)
    requires RedisInv(s.key, s.accepted, max, window, ttl, s.clock) && window <= ttl
    requires n == Recent(s.accepted, s.clock, window) && n <= max
    ensures n <= |Times(s.key, s.clock)| && n <= |s.accepted|
    ensures forall j :: 0 <= j < n ==> Times(s.key, s.clock)[j] == s.accepted[|s.accepted| - 1 - j]
  {
    var times := if s.key.List? then s.key.times else [];
    if Times(s.key, s.clock) != times {
      assert forall i :: 0 <= i < |s.accepted| ==> s.accepted[i] + ttl <= s.key.expireAt;
      RecentNone(s.accepted, s.clock, window);
    } else {
      RecentIsKept(s.accepted, |times|, max, window, s.clock);
    }
  }

  lemma RecentIsKept(h: seq<int>, n: int, cap: int, window: int, clock: int)
    requires Enough(h, n, cap, window, clock) && Recent(h, clock, window) <= cap
    ensures Recent(h, clock, window) <= n
  {
    if n < cap { RecentAtMost(h, |h| - n, clock, window); }
  }

  lemma {:induction false} RecentIsWithin(h: seq<int>, now: int, window: int)
    requires forall i :: 0 <= i < |h| ==> h[i] <= now
    ensures Recent(h, now, window) == Within(h, now, window)
  {
    if h != [] {
      assert h[|h| - 1] <= now;
      RecentIsWithin(h[..|h| - 1], now, window);
    }
  }

  lemma RecentAtMostCap(max: int, window: int, es: seq<Event>)
    ensures Recent(SpecRun(max, window, es).history, SpecRun(max, window, es).clock, window) <= Cap(max)
  {
    var s := SpecRun(max, window, es);
    NoBurst(max, window, es, s.clock);
    RunIsSpread(max, window, es);
    assert Enough(s.history, if |s.history| < Cap(max) then |s.history| else Cap(max), Cap(max), window, s.clock);
    RecentIsWithin(s.history, s.clock, window);
  }

  /**
   On a one-second clock the two limiters accept the same requests in every run.  Every accepted time that
   still counts is held by both, at mirrored positions; beyond those, what both hold still mirrors, but
   one may remember times that the other has dropped.
   */
  lemma LimitersAgree(max: int, duration: int, expiration: int, es: seq<Event>)
    requires max >= 1 && expiration > 0 && duration <= expiration
    ensures var m, r := MemoryRun(max, duration, expiration, es),
      RedisRun(max, duration, 1000 * expiration, Millis(es));
      && m.log == r.log && r.accepted == Scale(m.accepted) && r.clock == 1000 * m.clock
      && forall j :: 0 <= j < |Kept(m.entry)| && r.key.List? && j < |r.key.times| ==>
           r.key.times[j] == 1000 * Kept(m.entry)[|Kept(m.entry)| - 1 - j]
    ensures var m, r := MemoryRun(max, duration, expiration, es),
      RedisRun(max, duration, 1000 * expiration, Millis(es));
      Mirrored(m, r, Recent(m.accepted, m.clock, duration))
  {
    var m, r := MemoryRun(max, duration, expiration, es), RedisRun(max, duration, 1000 * expiration, Millis(es));
    MemoryEqualsCounting(max, duration, expiration, es);
    RedisEqualsCounting(max, duration, 1000 * expiration, Millis(es));
    SpecScale(max, duration, es);
    RecentAtMostCap(max, duration, es);
    StatesMirror(m, r, max, duration, expiration);
  }

  /** Both hold the n newest accepted times: the queue oldest first, the unexpired list newest first. */
  ghost predicate Mirrored(m: Memory, r: Redis, n: nat) {
    && n <= |m.accepted| && n <= |Kept(m.entry)| && n <= |Times(r.key, r.clock)|
    && Newest(Kept(m.entry), n) == Newest(m.accepted, n)
    && forall j :: 0 <= j < n ==> Times(r.key, r.clock)[j] == 1000 * Kept(m.entry)[|Kept(m.entry)| - 1 - j]
  }

  lemma NewestAt(h: seq<int>, n: nat, j: nat)
    requires j < n <= |h|
    ensures Newest(h, n)[n - 1 - j] == h[|h| - 1 - j]
  {
  }

  lemma StatesMirror(m: Memory, r: Redis, max: int, duration: int, expiration: int)
    requires max >= 1 && duration <= expiration
    requires MemoryInv(m, max, duration)
    requires RedisInv(r.key, r.accepted, max, 1000 * duration, 1000 * expiration, r.clock)
    requires r.accepted == Scale(m.accepted) && r.clock == 1000 * m.clock
    requires Recent(m.accepted, m.clock, duration) <= Cap(max)
    ensures Mirrored(m, r, Recent(m.accepted, m.clock, duration))
  {
    var n, queue, h := Recent(m.accepted, m.clock, duration), Kept(m.entry), m.accepted;
    RecentScale(h, m.clock, duration);
    QueueHoldsRecent(m, max, duration, n);
    ListHoldsRecent(r, max, 1000 * duration, 1000 * expiration, n);
    ScaledMirror(queue, h, r.accepted, Times(r.key, r.clock), n);
  }

  lemma ScaledMirror(queue: seq<int>, h: seq<int>, scaled: seq<int>, times: seq<int>, n: nat)
    requires n <= |queue| && n <= |h| && n <= |times| && scaled == Scale(h)
    requires Newest(queue, n) == Newest(h, n)
    requires forall j :: 0 <= j < n ==> times[j] == scaled[|scaled| - 1 - j]
    ensures forall j :: 0 <= j < n ==> times[j] == 1000 * queue[|queue| - 1 - j]
  {
    forall j | 0 <= j < n ensures times[j] == 1000 * queue[|queue| - 1 - j] {
      NewestAt(queue, n, j);
      NewestAt(h, n, j);
      assert times[j] == scaled[|scaled| - 1 - j];
    }
  }

  /** What the two limiters hold can differ: after ten idle seconds the list is gone and the queue is not. */
  lemma QueueOutlivesList()
    ensures var es := [Call(0), Call(10)];
      && MemoryRun(2, 5, 10, es).entry == Present([0, 10])
      && RedisRun(2, 5, 10000, Millis(es)).key == List([10000], 20000)
  {
    MemoryRunTwo(2, 5, 10, Call(0), Call(10));
    MillisTwo(0, 10);
    RedisRunTwo(2, 5, 10000, Call(0), Call(10000));
    TwoInQueue();
    ExpiredIsEmpty([0], 2, 5, 10000);
    assert [0] + [] == [0];
  }

  lemma TwoInQueue()
    ensures MemoryStep(MemoryStep(MEMORY_START, 2, 5, 10, Call(0)), 2, 5, 10, Call(10)).entry == Present([0, 10])
  {
    assert [0] + [10] == [0, 10];
  }

  lemma MemoryRunTwo(max: int, duration: int, expiration: int, a: Event, b: Event)
    ensures MemoryRun(max, duration, expiration, [a, b])
         == MemoryStep(MemoryStep(MEMORY_START, max, duration, expiration, a), max, duration, expiration, b)
  {
    assert [] + [a] == [a] && [a] + [b] == [a, b];
    RunsAppend(max, duration, expiration, [], a);
    RunsAppend(max, duration, expiration, [a], b);
  }

  lemma RedisRunTwo(max: int, duration: int, ttl: int, a: Event, b: Event)
    ensures RedisRun(max, duration, ttl, [a, b])
         == RedisStep(RedisStep(REDIS_START, max, duration, ttl, a), max, duration, ttl, b)
  {
    assert [] + [a] == [a] && [a] + [b] == [a, b];
    RedisRunAppend(max, duration, ttl, [], a);
    RedisRunAppend(max, duration, ttl, [a], b);
  }

  lemma MillisTwo(a: nat, b: nat)
    ensures Millis([Call(a), Call(b)]) == [Call(1000 * a), Call(1000 * b)]
  {
    assert [] + [Call(a)] == [Call(a)] && [Call(a)] + [Call(b)] == [Call(a), Call(b)];
    MillisAppend([], Call(a));
    MillisAppend([Call(a)], Call(b));
  }

  /** A full window, then one more request when the list has just expired. */
  lemma LateCallDiffers(max: int, duration: int, expiration: int)
    requires max >= 1 && expiration > 0 && duration > expiration
    ensures var es := seq(max, _ => Call(0)) + [Call(expiration)];
      MemoryRun(max, duration, expiration, es).log != RedisRun(max, duration, 1000 * expiration, Millis(es)).log
  {
    var fill := seq(max, _ => Call(0));
    var log := seq(max, _ => true);
    FillMemory(max, duration, expiration, max);
    RunsAppend(max, duration, expiration, fill, Call(expiration));
    ExpiredTooEarly(max, duration, 1000 * expiration);
    MillisOfFill(max);
    MillisAppend(fill, Call(expiration));
    QueueRefuses(max, duration, expiration, seq(max, _ => 0), log);
    assert (log + [false])[max] != (log + [true])[max];
  }

  lemma QueueRefuses(max: int, duration: int, expiration: int, zeros: seq<int>, log: seq<bool>)
    requires 1 <= max == |zeros| && 0 < expiration < duration && zeros[0] == 0
    ensures MemoryStep(Memory(Present(zeros), zeros, 0, log), max, duration, expiration, Call(expiration)).log
         == log + [false]
  {
  }

  lemma MillisAppend(es: seq<Event>, e: Event)
    ensures Millis(es + [e]) == Millis(es) + [if e.Call? then Call(1000 * e.elapsed) else Tick(1000 * e.elapsed)]
  {
    assert (es + [e])[..|es + [e]| - 1] == es;
  }

  lemma {:induction false} MillisOfFill(n: nat)
    ensures Millis(seq(n, _ => Call(0))) == seq(n, _ => Call(0))
  {
    var fill := seq(n, _ => Call(0));
    if n > 0 {
      MillisOfFill(n - 1);
      assert fill[..n - 1] == seq(n - 1, _ => Call(0));
      assert fill == seq(n - 1, _ => Call(0)) + [Call(0)];
    }
  }

  lemma {:induction false} MillisRefusals(es: seq<Event>)
    ensures Refusals(Millis(es)) == Refusals(es)
  {
    if es != [] {
      var before, e := es[..|es| - 1], es[|es| - 1];
      MillisRefusals(before);
      assert es == before + [e];
      MillisAppend(before, e);
      RefusalsAppend(Millis(before), if e.Call? then Call(1000 * e.elapsed) else Tick(1000 * e.elapsed));
    }
  }

  lemma RefusalsAppend(es: seq<Event>, e: Event)
    ensures Refusals(es + [e]) == Refusals(es) + if e.Call? then [false] else []
  {
    assert (es + [e])[..|es|] == es;
  }

  /** A maximum of 0: a first request passes the queue, and the list makes the answer an error. */
  lemma ZeroDiffers(duration: int, expiration: int)
    ensures MemoryRun(0, duration, expiration, [Call(0)]).log
         != RedisRun(0, duration, 1000 * expiration, Millis([Call(0)])).log
  {
    assert [] + [Call(0)] == [Call(0)];
    RunsAppend(0, duration, expiration, [], Call(0));
    RedisAcceptsNothing(0, duration, 1000 * expiration, Millis([Call(0)]));
    MillisRefusals([Call(0)]);
    FirstCallIsCounted(0, duration);
    assert [] + [true] == [true] && [true][0] != [false][0];
  }

  /** Exactly when the two limiters answer alike in every run. */
  lemma LimitersAgreeIff(max: int, duration: int, expiration: int)
    requires expiration > 0
    ensures (forall es ::
               MemoryRun(max, duration, expiration, es).log
                 == RedisRun(max, duration, 1000 * expiration, Millis(es)).log)
       <==> max < 0 || (max >= 1 && duration <= expiration)
  {
    if max == 0 {
      ZeroDiffers(duration, expiration);
    } else if max >= 1 && duration > expiration {
      LateCallDiffers(max, duration, expiration);
    } else {
      forall es
        ensures MemoryRun(max, duration, expiration, es).log
             == RedisRun(max, duration, 1000 * expiration, Millis(es)).log
      {
        if max < 0 {
          MemoryAcceptsNothing(max, duration, expiration, es);
          RedisAcceptsNothing(max, duration, 1000 * expiration, Millis(es));
          MillisRefusals(es);
        } else {
          LimitersAgree(max, duration, expiration, es);
        }
      }
    }
  }
}
