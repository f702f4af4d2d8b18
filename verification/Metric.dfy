/** The per-channel success window that disables failing channels (monitor/metric.go). */
module Metric {

  /** At most the last n elements. */
  function Suffix(h: seq<bool>, n: nat): (w: seq<bool>)
    ensures |w| == if |h| < n then |h| else n
  {
    if |h| <= n then h else h[|h| - n..]
  }

  function Successes(w: seq<bool>): (n: nat)
    ensures n <= |w|
  {
    if w == [] then 0 else Successes(w[..|w| - 1]) + if w[|w| - 1] then 1 else 0
  }

  /** The positions of the successes: what a share is a share of. */
  function SuccessesIn(w: seq<bool>): set<int> {
    set i | 0 <= i < |w| && w[i]
  }

  lemma {:induction false} SuccessesAreCounted(w: seq<bool>)
    ensures Successes(w) == |set i | 0 <= i < |w| && w[i]|
  {
    if w != [] {
      var before, n := w[..|w| - 1], |w| - 1;
      SuccessesAreCounted(before);
      assert SuccessesIn(before) == set i | 0 <= i < |before| && before[i];
      assert SuccessesIn(w) == if w[n] then SuccessesIn(before) + {n} else SuccessesIn(before);
    }
    assert SuccessesIn(w) == set i | 0 <= i < |w| && w[i];
  }

  /** A share is below a threshold exactly when the successes are below that part of the window. */
  lemma ShareIs(w: seq<bool>, threshold: real, n: int)
    requires w != [] && n == |set i | 0 <= i < |w| && w[i]|
    ensures Share(w) * |w| as real == n as real
    ensures Share(w) < threshold <==> n as real < threshold * |w| as real
  {
    SuccessesAreCounted(w);
    Divided(n as real, |w| as real, threshold);
  }

  lemma Divided(a: real, n: real, threshold: real)
    requires n > 0.0
    ensures a / n * n == a
    ensures a / n < threshold <==> a < threshold * n
  {
    var q := a / n;
    assert q * n == a;
    if q < threshold {
      assert (threshold - q) * n > 0.0;
    } else {
      assert (q - threshold) * n >= 0.0;
    }
  }

  function Share(w: seq<bool>): real
    requires w != []
  {
    Successes(w) as real / |w| as real
  }

  /** A full queue loses its oldest outcome. */
  function Push(w: seq<bool>, queueSize: nat, o: bool): seq<bool> {
    (if |w| > queueSize then w[1..] else w) + [o]
  }

  /** A failure disables a channel whose window is long enough and whose success share is too low. */
  predicate Disables(w: seq<bool>, queueSize: nat, threshold: real, o: bool)
    requires w != []
  {
    !o && |w| >= queueSize && Share(w) < threshold
  }

  // ---------------------------------------------------------------- over a whole run

  /** The outcomes of one channel: its window, and the positions in the run at which it was disabled. */
  datatype State = State(window: seq<bool>, alarms: seq<nat>)

  function Consume(s: State, queueSize: nat, threshold: real, at: nat, o: bool): State {
    var w := Push(s.window, queueSize, o);
    if Disables(w, queueSize, threshold, o) then State([], s.alarms + [at]) else State(w, s.alarms)
  }

  function Run(queueSize: nat, threshold: real, os: seq<bool>): State {
    if os == [] then State([], [])
    else Consume(Run(queueSize, threshold, os[..|os| - 1]), queueSize, threshold, |os| - 1, os[|os| - 1])
  }

  /** Where the outcomes since the last reset begin. */
  function Since(alarms: seq<nat>): nat {
    if alarms == [] then 0 else alarms[|alarms| - 1] + 1
  }

  lemma PushIsSuffix(h: seq<bool>, queueSize: nat, o: bool)
    ensures Push(Suffix(h, queueSize + 1), queueSize, o) == Suffix(h + [o], queueSize + 1)
  {
    var n := |h| - queueSize;
    if n == 1 {
      assert (h + [o])[1..] == h[1..] + [o];
    } else if n > 1 {
      assert (h + [o])[n..] == h[n..] + [o];
      assert h[n - 1..][1..] == h[n..];
    }
  }

  ghost predicate Explains(s: State, queueSize: nat, os: seq<bool>) {
    Since(s.alarms) <= |os| && s.window == Suffix(os[Since(s.alarms)..], queueSize + 1)
  }

  lemma ConsumeIsExplained(s: State, queueSize: nat, threshold: real, os: seq<bool>, o: bool)
    requires Explains(s, queueSize, os)
    ensures Explains(Consume(s, queueSize, threshold, |os|, o), queueSize, os + [o])
  {
    var since := Since(s.alarms);
    PushIsSuffix(os[since..], queueSize, o);
    assert (os + [o])[since..] == os[since..] + [o];
    assert (os + [o])[|os| + 1..] == [];
  }

  lemma RunOneMore(queueSize: nat, threshold: real, os: seq<bool>, o: bool)
    ensures Run(queueSize, threshold, os + [o])
         == Consume(Run(queueSize, threshold, os), queueSize, threshold, |os|, o)
  {
    assert (os + [o])[..|os|] == os;
  }

  /** The window is the suffix of the last min(k, queueSize + 1) outcomes since the last reset. */
  lemma {:induction false} WindowIsSuffix(queueSize: nat, threshold: real, os: seq<bool>)
    ensures Since(Run(queueSize, threshold, os).alarms) <= |os|
    ensures Run(queueSize, threshold, os).window
         == Suffix(os[Since(Run(queueSize, threshold, os).alarms)..], queueSize + 1)
  {
    if os != [] {
      var before, o := os[..|os| - 1], os[|os| - 1];
      assert os == before + [o];
      WindowIsSuffix(queueSize, threshold, before);
      RunOneMore(queueSize, threshold, before, o);
      ConsumeIsExplained(Run(queueSize, threshold, before), queueSize, threshold, before, o);
    }
  }

  /** The successes in a window are fewer than the threshold asks for. */
  predicate Low(w: seq<bool>, threshold: real) {
    |set i | 0 <= i < |w| && w[i]| as real < threshold * |w| as real
  }

  lemma ShareIsLow(w: seq<bool>, threshold: real)
    requires w != []
    ensures Share(w) < threshold <==> Low(w, threshold)
  {
    ShareIs(w, threshold, |set i | 0 <= i < |w| && w[i]|);
  }

  lemma DisablesOnLow(queueSize: nat, threshold: real, os: seq<bool>, o: bool, w: seq<bool>)
    requires Since(Run(queueSize, threshold, os).alarms) <= |os|
    requires w == Suffix(os[Since(Run(queueSize, threshold, os).alarms)..] + [o], queueSize + 1)
    ensures Run(queueSize, threshold, os + [o]).alarms != Run(queueSize, threshold, os).alarms
       <==> !o && |w| >= queueSize && Low(w, threshold)
  {
    RunOneMore(queueSize, threshold, os, o);
    WindowIsSuffix(queueSize, threshold, os);
    PushIsSuffix(os[Since(Run(queueSize, threshold, os).alarms)..], queueSize, o);
    ShareIsLow(w, threshold);
  }

  /**
   Exactly when the next outcome disables the channel, in terms of the outcomes alone: it is a failure, and of the
   at least queueSize last outcomes since the last reset too few are successes.
   */
  lemma DisablesIff(queueSize: nat, threshold: real, os: seq<bool>, o: bool, h: seq<bool>, w: seq<bool>)
    requires Since(Run(queueSize, threshold, os).alarms) <= |os|
    requires h == os[Since(Run(queueSize, threshold, os).alarms)..] + [o]
    requires w == if |h| <= queueSize + 1 then h else h[|h| - (queueSize + 1)..]
    ensures Run(queueSize, threshold, os + [o]).alarms != Run(queueSize, threshold, os).alarms
       <==> (!o && |w| >= queueSize && |set i | 0 <= i < |w| && w[i]| as real < threshold * |w| as real)
  {
    DisablesOnLow(queueSize, threshold, os, o, w);
    LowIs(w, threshold);
  }

  lemma LowIs(w: seq<bool>, threshold: real)
    ensures Low(w, threshold) <==> |set i | 0 <= i < |w| && w[i]| as real < threshold * |w| as real
  {
  }

  /** A channel is never disabled on fewer than queueSize outcomes, and never twice within as many. */
  ghost predicate Apart(alarms: seq<nat>, queueSize: nat, os: seq<bool>) {
    forall i :: 0 <= i < |alarms| ==>
      alarms[i] < |os| && !os[alarms[i]] && alarms[i] + 1 - Since(alarms[..i]) >= if queueSize > 0 then queueSize else 1
  }

  lemma OneMoreApart(alarms: seq<nat>, queueSize: nat, os: seq<bool>, o: bool)
    requires Apart(alarms, queueSize, os)
    ensures Apart(alarms, queueSize, os + [o])
    ensures !o && |os| + 1 - Since(alarms) >= queueSize && Since(alarms) <= |os| ==>
              Apart(alarms + [|os|], queueSize, os + [o])
  {
    var more := alarms + [|os|];
    forall i | 0 <= i < |alarms| ensures more[..i] == alarms[..i] && more[i] == alarms[i] {}
    assert more[..|alarms|] == alarms;
  }

  lemma {:induction false} AlarmsAreApart(queueSize: nat, threshold: real, os: seq<bool>)
    ensures Apart(Run(queueSize, threshold, os).alarms, queueSize, os)
  {
    if os != [] {
      var before, o := os[..|os| - 1], os[|os| - 1];
      assert os == before + [o];
      AlarmsAreApart(queueSize, threshold, before);
      RunOneMore(queueSize, threshold, before, o);
      WindowIsSuffix(queueSize, threshold, before);
      DisablesOnLow(queueSize, threshold, before, o,
                    Suffix(before[Since(Run(queueSize, threshold, before).alarms)..] + [o], queueSize + 1));
      OneMoreApart(Run(queueSize, threshold, before).alarms, queueSize, before, o);
    }
  }

  // ---------------------------------------------------------------- the store

  class ChannelMetrics {
    var store: map<int, seq<bool>>
    const queueSize: nat
    const threshold: real

    constructor (queueSize: nat, threshold: real)
      ensures this.queueSize == queueSize && this.threshold == threshold && store == map[]
    {
      this.queueSize, this.threshold, store := queueSize, threshold, map[];
    }

    function Window(channelId: int): seq<bool>
      reads this
    {
      if channelId in store then store[channelId] else []
    }

    method ConsumeSuccess(channelId: int)
      modifies this`store
      ensures Window(channelId) == Push(old(Window(channelId)), queueSize, true)
      ensures forall c :: c != channelId ==> Window(c) == old(Window(c))
    {
      var window := Window(channelId);
      if |window| > queueSize {
        window := window[1..];
      }
      store := store[channelId := window + [true]];
    }

    method ConsumeFail(channelId: int) returns (disable: bool, successRate: real)
      modifies this`store
      ensures var w := Push(old(Window(channelId)), queueSize, false);
        && successRate == Share(w)
        && (disable <==> Disables(w, queueSize, threshold, false))
        && Window(channelId) == if disable then [] else w
      ensures disable <==>
        (var w := Push(old(Window(channelId)), queueSize, false);
         (|w| >= queueSize && |set i | 0 <= i < |w| && w[i]| as real < threshold * |w| as real))
      ensures var w := Push(old(Window(channelId)), queueSize, false);
        successRate * |w| as real == |set i | 0 <= i < |w| && w[i]| as real
      ensures forall c :: c != channelId ==> Window(c) == old(Window(c))
    {
      FailIs(Push(Window(channelId), queueSize, false), queueSize, threshold);
      var window := Window(channelId);
      if |window| > queueSize {
        window := window[1..];
      }
      window := window + [false];
      store := store[channelId := window];
      successRate := Rate(window);
      if |window| < queueSize {
        return false, successRate;
      }
      if successRate < threshold {
        store := store[channelId := []];
        return true, successRate;
      }
      return false, successRate;
    }
  }

  /** What the share and the decision are, in successes. */
  lemma FailIs(w: seq<bool>, queueSize: nat, threshold: real)
    requires w != []
    ensures Share(w) * |w| as real == |set i | 0 <= i < |w| && w[i]| as real
    ensures Disables(w, queueSize, threshold, false) <==>
      (|w| >= queueSize && |set i | 0 <= i < |w| && w[i]| as real < threshold * |w| as real)
  {
    Counted(w, threshold);
  }

  method SuccessRate(window: seq<bool>) returns (rate: real)
    requires window != []
    ensures rate * |window| as real == |set i | 0 <= i < |window| && window[i]| as real
  {
    rate := Rate(window);
    Counted(window, 0.0);
  }

  /** The counting loop. */
  method Rate(window: seq<bool>) returns (rate: real)
    requires window != []
    ensures rate == Share(window)
  {
    var successCount := 0;
    for i := 0 to |window|
      invariant successCount == Successes(window[..i])
    {
      assert window[..i + 1][..i] == window[..i];
      if window[i] {
        successCount := successCount + 1;
      }
    }
    assert window[..|window|] == window;
    rate := successCount as real / |window| as real;
  }

  lemma Counted(w: seq<bool>, threshold: real)
    requires w != []
    ensures Share(w) * |w| as real == |set i | 0 <= i < |w| && w[i]| as real
    ensures Share(w) < threshold <==> |set i | 0 <= i < |w| && w[i]| as real < threshold * |w| as real
  {
    ShareIs(w, threshold, |set i | 0 <= i < |w| && w[i]|);
  }
}
