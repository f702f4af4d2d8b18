/**
 The retry driver (controller/relay.go): channel draws and upstream outcomes are arbitrary
 functions of what has happened so far; `asks` records the priority flag of every draw.
 */
module Retry {
  import opened Options

  datatype Attempt = Failed(status: int) | Succeeded

  /** The channels attempted, the draws made, the outcome of the last attempt. */
  datatype Trace = Trace(channels: seq<int>, asks: seq<bool>, last: Attempt)

  type Draw = (nat, bool) -> Option<int>
  type Upstream = (nat, int) -> Attempt

  /** Integer division as Go does it: towards zero. */
  function Quotient(a: int, b: int): int
    requires b > 0
  {
    if a >= 0 then a / b else -((-a) / b)
  }

  predicate ShouldRetry(specificChannel: bool, status: int) {
    if specificChannel then false
    else if status == 429 then true
    else if Quotient(status, 100) == 5 then true
    else if status == 400 then false
    else if Quotient(status, 100) == 2 then false
    else true
  }

  /** The loop: `i` draws left out of `retryTimes`; only the first draw respects the top priority. */
  function Loop(i: nat, retryTimes: int, tr: Trace, draw: Draw, upstream: Upstream): Trace
    requires tr.channels != []
    decreases i
  {
    if i == 0 then tr
    else
      var ignoreFirst := i != retryTimes;
      var asked := tr.(asks := tr.asks + [ignoreFirst]);
      match draw(|tr.asks|, ignoreFirst)
      case None => asked
      case Some(c) =>
        if c == tr.channels[|tr.channels| - 1] then Loop(i - 1, retryTimes, asked, draw, upstream)
        else
          var after := asked.(channels := tr.channels + [c], last := upstream(|tr.channels|, c));
          if after.last.Succeeded? then after else Loop(i - 1, retryTimes, after, draw, upstream)
  }

  function Relayed(first: int, specificChannel: bool, retryTimes: int, draw: Draw, upstream: Upstream): Trace {
    var tr := Trace([first], [], upstream(0, first));
    if tr.last.Succeeded? || !ShouldRetry(specificChannel, tr.last.status) || retryTimes <= 0 then tr
    else Loop(retryTimes, retryTimes, tr, draw, upstream)
  }

  // ---------------------------------------------------------------- what every run satisfies

  predicate NoRepeat(s: seq<int>) {
    forall n :: 0 <= n < |s| - 1 ==> s[n] != s[n + 1]
  }

  /** Every attempt but the last failed, and the trace reports the last one. */
  predicate Faithful(tr: Trace, upstream: Upstream) {
    && tr.channels != []
    && tr.last == upstream(|tr.channels| - 1, tr.channels[|tr.channels| - 1])
    && forall n :: 0 <= n < |tr.channels| - 1 ==> upstream(n, tr.channels[n]).Failed?
  }

  /** The channels drawn, in order; every draw but perhaps the last found one. */
  function Drawn(asks: seq<bool>, draw: Draw): seq<int> {
    if asks == [] then []
    else
      var n := |asks| - 1;
      Drawn(asks[..n], draw) + match draw(n, asks[n]) case None => [] case Some(c) => [c]
  }

  /** A list with immediate repetitions dropped. */
  function Squeeze(s: seq<int>): seq<int> {
    if |s| <= 1 then s
    else
      var n := |s| - 1;
      if s[n] == s[n - 1] then Squeeze(s[..n]) else Squeeze(s[..n]) + [s[n]]
  }

  lemma {:induction false} SqueezeLast(s: seq<int>)
    requires s != []
    ensures Squeeze(s) != [] && Squeeze(s)[|Squeeze(s)| - 1] == s[|s| - 1]
  {
    if |s| > 1 { SqueezeLast(s[..|s| - 1]); }
  }

  lemma SqueezeAppend(s: seq<int>, c: int)
    requires s != []
    ensures Squeeze(s + [c]) == if c == s[|s| - 1] then Squeeze(s) else Squeeze(s) + [c]
  {
    assert (s + [c])[..|s + [c]| - 1] == s;
  }

  /** The state of the loop, and of the whole run while it goes on. */
  ghost predicate Progress(tr: Trace, first: int, retryTimes: int, draw: Draw, upstream: Upstream) {
    && Faithful(tr, upstream)
    && NoRepeat(tr.channels)
    && |tr.channels| <= 1 + |tr.asks|
    && |tr.asks| <= retryTimes
    && (forall n :: 0 <= n < |tr.asks| ==> (tr.asks[n] <==> n != 0))
    && tr.channels == Squeeze([first] + Drawn(tr.asks, draw))
  }

  /** Why a failed run ended: all draws were made, or the last draw found no channel. */
  ghost predicate GaveUp(tr: Trace, retryTimes: int, draw: Draw) {
    || |tr.asks| == retryTimes
    || (tr.asks != [] && draw(|tr.asks| - 1, tr.asks[|tr.asks| - 1]).None?)
  }

  lemma DrawnAppend(asks: seq<bool>, flag: bool, draw: Draw)
    ensures Drawn(asks + [flag], draw)
         == Drawn(asks, draw) + match draw(|asks|, flag) case None => [] case Some(c) => [c]
  {
    assert (asks + [flag])[..|asks + [flag]| - 1] == asks;
  }

  /** A draw that finds nothing, or the channel that has just failed, attempts nothing. */
  lemma SkipKeepsProgress(tr: Trace, first: int, retryTimes: int, draw: Draw, upstream: Upstream, flag: bool,
                          asked: Trace)
    requires Progress(tr, first, retryTimes, draw, upstream) && |tr.asks| < retryTimes
    requires flag <==> tr.asks != []
    requires asked == tr.(asks := tr.asks + [flag])
    requires var d := draw(|tr.asks|, flag); d.None? || d.value == tr.channels[|tr.channels| - 1]
    ensures Progress(asked, first, retryTimes, draw, upstream)
  {
    SqueezeSkipped(tr.channels, tr.asks, first, draw, flag);
    assert forall n :: 0 <= n < |tr.asks| ==> (tr.asks[n] <==> n != 0);
  }

  lemma SqueezeSkipped(channels: seq<int>, asks: seq<bool>, first: int, draw: Draw, flag: bool)
    requires channels != [] && channels == Squeeze([first] + Drawn(asks, draw))
    requires var d := draw(|asks|, flag); d.None? || d.value == channels[|channels| - 1]
    ensures channels == Squeeze([first] + Drawn(asks + [flag], draw))
  {
    DrawnAppend(asks, flag, draw);
    match draw(|asks|, flag)
    case None => AppendNothing(Drawn(asks, draw));
    case Some(c) => SqueezeSame(channels, first, Drawn(asks, draw), c, Drawn(asks + [flag], draw));
  }

  lemma AppendNothing(drawn: seq<int>)
    ensures drawn + [] == drawn
  {
  }

  lemma SqueezeSame(channels: seq<int>, first: int, drawn: seq<int>, c: int, more: seq<int>)
    requires channels != [] && channels == Squeeze([first] + drawn) && more == drawn + [c]
    requires c == channels[|channels| - 1]
    ensures channels == Squeeze([first] + more)
  {
    FirstThenLast(first, drawn, c, more);
    SqueezeLast([first] + drawn);
    SqueezeAppend([first] + drawn, c);
  }

  lemma FirstThenLast(first: int, drawn: seq<int>, c: int, more: seq<int>)
    requires more == drawn + [c]
    ensures [first] + more == [first] + drawn + [c]
  {
  }

  lemma AttemptKeepsProgress(tr: Trace, first: int, retryTimes: int, draw: Draw, upstream: Upstream, flag: bool, c: int,
                             after: Trace)
    requires Progress(tr, first, retryTimes, draw, upstream) && |tr.asks| < retryTimes
    requires flag <==> tr.asks != []
    requires tr.last.Failed? && draw(|tr.asks|, flag) == Some(c) && c != tr.channels[|tr.channels| - 1]
    requires after == Trace(tr.channels + [c], tr.asks + [flag], upstream(|tr.channels|, c))
    ensures Progress(after, first, retryTimes, draw, upstream)
  {
    SqueezeDrawn(tr.channels, tr.asks, first, draw, flag, c);
    NoRepeatAppend(tr.channels, c);
    FaithfulAppend(tr, upstream, c, after);
    assert forall n :: 0 <= n < |tr.asks| ==> (tr.asks[n] <==> n != 0);
  }

  lemma SqueezeDrawn(channels: seq<int>, asks: seq<bool>, first: int, draw: Draw, flag: bool, c: int)
    requires channels != [] && channels == Squeeze([first] + Drawn(asks, draw))
    requires draw(|asks|, flag) == Some(c) && c != channels[|channels| - 1]
    ensures channels + [c] == Squeeze([first] + Drawn(asks + [flag], draw))
  {
    DrawnSome(asks, flag, draw, c);
    SqueezeCons(channels, first, Drawn(asks, draw), c, Drawn(asks + [flag], draw));
  }

  lemma SqueezeCons(channels: seq<int>, first: int, drawn: seq<int>, c: int, more: seq<int>)
    requires channels != [] && channels == Squeeze([first] + drawn) && more == drawn + [c]
    requires c != channels[|channels| - 1]
    ensures channels + [c] == Squeeze([first] + more)
  {
    FirstThenLast(first, drawn, c, more);
    SqueezeStep(channels, [first] + drawn, c, [first] + more);
  }

  lemma SqueezeStep(channels: seq<int>, drawn: seq<int>, c: int, more: seq<int>)
    requires drawn != [] && channels == Squeeze(drawn) && more == drawn + [c]
    requires channels != [] && c != channels[|channels| - 1]
    ensures Squeeze(more) == channels + [c]
  {
    SqueezeLast(drawn);
    SqueezeAppend(drawn, c);
  }

  lemma DrawnSome(asks: seq<bool>, flag: bool, draw: Draw, c: int)
    requires draw(|asks|, flag) == Some(c)
    ensures Drawn(asks + [flag], draw) == Drawn(asks, draw) + [c]
  {
    DrawnAppend(asks, flag, draw);
  }

  lemma NoRepeatAppend(s: seq<int>, c: int)
    requires NoRepeat(s) && s != [] && c != s[|s| - 1]
    ensures NoRepeat(s + [c])
  {
    forall n | 0 <= n < |s| ensures (s + [c])[n] != (s + [c])[n + 1] {
      if n < |s| - 1 { assert s[n] != s[n + 1]; }
    }
  }

  lemma FaithfulAppend(tr: Trace, upstream: Upstream, c: int, after: Trace)
    requires Faithful(tr, upstream) && tr.last.Failed?
    requires after.channels == tr.channels + [c] && after.last == upstream(|tr.channels|, c)
    ensures Faithful(after, upstream)
  {
    forall n | 0 <= n < |tr.channels| ensures upstream(n, after.channels[n]).Failed? {
      if n < |tr.channels| - 1 { assert upstream(n, tr.channels[n]).Failed?; }
    }
  }

  lemma {:induction false} LoopProgress(i: nat, retryTimes: int, tr: Trace, first: int, draw: Draw, upstream: Upstream,
                                         end: Trace)
    requires Progress(tr, first, retryTimes, draw, upstream)
    requires tr.last.Failed? && i == retryTimes - |tr.asks|
    requires end == Loop(i, retryTimes, tr, draw, upstream)
    ensures Progress(end, first, retryTimes, draw, upstream) && (end.last.Failed? ==> GaveUp(end, retryTimes, draw))
    decreases i
  {
    if i > 0 {
      var flag := i != retryTimes;
      var asked := tr.(asks := tr.asks + [flag]);
      var d := draw(|tr.asks|, flag);
      if d.None? {
        LoopStops(i, retryTimes, tr, draw, upstream, asked);
        SkipKeepsProgress(tr, first, retryTimes, draw, upstream, flag, asked);
        NoneGivesUp(asked, retryTimes, draw);
      } else if d.value == tr.channels[|tr.channels| - 1] {
        LoopSkips(i, retryTimes, tr, draw, upstream, asked);
        SkipKeepsProgress(tr, first, retryTimes, draw, upstream, flag, asked);
        LoopProgress(i - 1, retryTimes, asked, first, draw, upstream, end);
      } else {
        var after := Trace(tr.channels + [d.value], tr.asks + [flag], upstream(|tr.channels|, d.value));
        LoopAttempts(i, retryTimes, tr, draw, upstream, after);
        AttemptKeepsProgress(tr, first, retryTimes, draw, upstream, flag, d.value, after);
        if after.last.Failed? {
          LoopProgress(i - 1, retryTimes, after, first, draw, upstream, end);
        }
      }
    }
  }

  // One round of the loop, by what the draw finds.

  lemma LoopStops(i: nat, retryTimes: int, tr: Trace, draw: Draw, upstream: Upstream, asked: Trace)
    requires i > 0 && tr.channels != [] && draw(|tr.asks|, i != retryTimes).None?
    requires asked == tr.(asks := tr.asks + [i != retryTimes])
    ensures Loop(i, retryTimes, tr, draw, upstream) == asked
  {
  }

  lemma LoopSkips(i: nat, retryTimes: int, tr: Trace, draw: Draw, upstream: Upstream, asked: Trace)
    requires i > 0 && tr.channels != []
    requires draw(|tr.asks|, i != retryTimes) == Some(tr.channels[|tr.channels| - 1])
    requires asked == tr.(asks := tr.asks + [i != retryTimes])
    ensures Loop(i, retryTimes, tr, draw, upstream) == Loop(i - 1, retryTimes, asked, draw, upstream)
  {
  }

  lemma LoopAttempts(i: nat, retryTimes: int, tr: Trace, draw: Draw, upstream: Upstream, after: Trace)
    requires i > 0 && tr.channels != []
    requires var d := draw(|tr.asks|, i != retryTimes);
      && d.Some? && d.value != tr.channels[|tr.channels| - 1]
      && after == Trace(tr.channels + [d.value], tr.asks + [i != retryTimes], upstream(|tr.channels|, d.value))
    ensures Loop(i, retryTimes, tr, draw, upstream)
         == if after.last.Succeeded? then after else Loop(i - 1, retryTimes, after, draw, upstream)
  {
  }

  lemma NoneGivesUp(asked: Trace, retryTimes: int, draw: Draw)
    requires asked.asks != [] && draw(|asked.asks| - 1, asked.asks[|asked.asks| - 1]).None?
    ensures GaveUp(asked, retryTimes, draw)
  {
  }

  /**
   For every sequence of draws and outcomes: between 1 and 1 + RetryTimes attempts; no two in a row on
   the same channel, the attempts being exactly the draws with repetitions dropped; at most the last
   attempt succeeds; a failed run was either not worth retrying, or used up its draws or found no channel.
   */
  lemma RunProperties(first: int, specificChannel: bool, retryTimes: int, draw: Draw, upstream: Upstream)
    ensures var tr := Relayed(first, specificChannel, retryTimes, draw, upstream);
      && Progress(tr, first, if retryTimes > 0 then retryTimes else 0, draw, upstream)
      && 1 <= |tr.channels| <= 1 + (if retryTimes > 0 then retryTimes else 0)
      && (tr.last.Failed? ==>
            || GaveUp(tr, if retryTimes > 0 then retryTimes else 0, draw)
            || (|tr.channels| == 1
                && (specificChannel || tr.last.status == 400 || 200 <= tr.last.status < 300)))
  {
    var tr := Trace([first], [], upstream(0, first));
    assert [first] + Drawn([], draw) == [first];
    if tr.last.Failed? && ShouldRetry(specificChannel, tr.last.status) && retryTimes > 0 {
      LoopProgress(retryTimes, retryTimes, tr, first, draw, upstream,
                   Loop(retryTimes, retryTimes, tr, draw, upstream));
    }
  }

  lemma {:induction false} LoopAsks(i: nat, retryTimes: int, tr: Trace, draw: Draw, upstream: Upstream)
    requires tr.channels != []
    ensures |Loop(i, retryTimes, tr, draw, upstream).asks| >= |tr.asks| + if i > 0 then 1 else 0
    decreases i
  {
    if i > 0 {
      var asked := tr.(asks := tr.asks + [i != retryTimes]);
      match draw(|tr.asks|, i != retryTimes)
      case None =>
      case Some(c) =>
        LoopAsks(i - 1, retryTimes, asked, draw, upstream);
        LoopAsks(i - 1, retryTimes, asked.(channels := tr.channels + [c], last := upstream(|tr.channels|, c)),
                 draw, upstream);
    }
  }

  /**
   Which failures are retried: another channel is asked for exactly when retries are configured, the caller did
   not choose the channel, and the status is 429 or a server error or anything that is neither 400 nor a success.
   */
  lemma RetriedIff(first: int, specificChannel: bool, retryTimes: int, draw: Draw, upstream: Upstream)
    ensures var asks := Relayed(first, specificChannel, retryTimes, draw, upstream).asks;
      match upstream(0, first)
      case Succeeded => asks == []
      case Failed(s) =>
        asks != [] <==> retryTimes > 0 && !specificChannel
                        && (s == 429 || 500 <= s < 600 || !(s == 400 || 200 <= s < 300))
  {
    if retryTimes > 0 {
      LoopAsks(retryTimes, retryTimes, Trace([first], [], upstream(0, first)), draw, upstream);
    }
  }

  /** How many of the first n attempts of a list succeeded. */
  function Successes(channels: seq<int>, upstream: Upstream): nat {
    if channels == [] then 0
    else
      var n := |channels| - 1;
      Successes(channels[..n], upstream) + if upstream(n, channels[n]).Succeeded? then 1 else 0
  }

  lemma {:induction false} AllFailed(channels: seq<int>, upstream: Upstream)
    requires forall n :: 0 <= n < |channels| ==> upstream(n, channels[n]).Failed?
    ensures Successes(channels, upstream) == 0
  {
    if channels != [] {
      AllFailed(channels[..|channels| - 1], upstream);
    }
  }

  /** Success happens at most once in a run, and exactly when the run reports it. */
  lemma AtMostOneSuccess(first: int, specificChannel: bool, retryTimes: int, draw: Draw, upstream: Upstream)
    ensures var tr := Relayed(first, specificChannel, retryTimes, draw, upstream);
      Successes(tr.channels, upstream) == if tr.last.Succeeded? then 1 else 0
  {
    var tr := Relayed(first, specificChannel, retryTimes, draw, upstream);
    RunProperties(first, specificChannel, retryTimes, draw, upstream);
    AllFailed(tr.channels[..|tr.channels| - 1], upstream);
  }
}
