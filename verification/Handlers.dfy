/**
 The request handlers over the ledger (relay/controller/text.go, audio.go, image.go, helper.go and
 the Relay loop of controller/relay.go).  Cached quota, prices and upstream answers are inputs.
 */
module Handlers {
  import opened Ledger
  import opened Requests
  import opened Store
  import opened Options
  import opened Billing
  import opened Retry

  const FORBIDDEN := 403
  const BAD_REQUEST := 400
  const SERVER_ERROR := 500

  datatype Caller = Caller(userId: int, tokenId: int)
  datatype Tariff = Tariff(channel: Option<PricedChannel>, model: string)

  // ---------------------------------------------------------------- settling

  /** postConsumeQuota and billing.PostConsumeQuota: settle by delta, then count usage. */
  method PostConsumeQuota(store: LedgerStore, q: Request, quota: int)
    modifies store
    ensures store.State() == EmitAll(old(store.State()), store.batchEnabled, Settlement(old(store.tokens), q, quota))
  {
    ghost var post := PostConsume(store.tokens, q.tokenId, quota - q.hold);
    EmitUsage(store.State(), store.batchEnabled, post, q.userId, q.channelId, quota);
    assert post + [] == post;
    var _ := store.PostConsumeTokenQuota(q.tokenId, quota - q.hold);
    if q.text || quota != 0 {
      store.UpdateUserUsedQuotaAndRequestCount(q.userId, quota);
      store.UpdateChannelUsedQuota(q.channelId, quota);
    }
  }

  /** The usage counters issued one by one after other records. */
  lemma EmitUsage(s: Buffer, batch: bool, rs: seq<Record>, userId: int, channelId: int, quota: int)
    ensures EmitAll(s, batch, rs + Usage(userId, channelId, quota))
         == Emit(Emit(Emit(EmitAll(s, batch, rs), batch, Record(USED_QUOTA, userId, quota)), batch,
                      Record(REQUEST_COUNT, userId, 1)), batch, Record(CHANNEL_USED_QUOTA, channelId, quota))
  {
    EmitAllConcat(s, batch, rs, Usage(userId, channelId, quota));
    EmitThree(EmitAll(s, batch, rs), batch, Record(USED_QUOTA, userId, quota),
              Record(REQUEST_COUNT, userId, 1), Record(CHANNEL_USED_QUOTA, channelId, quota));
  }

  lemma EmitThree(s: Buffer, batch: bool, a: Record, b: Record, c: Record)
    ensures EmitAll(s, batch, [a, b, c]) == Emit(Emit(Emit(s, batch, a), batch, b), batch, c)
  {
    assert [a] + [b] == [a, b] && [a, b] + [c] == [a, b, c];
    EmitOne(s, batch, a);
    EmitAllAppend(s, batch, [a], b);
    EmitAllAppend(s, batch, [a, b], c);
  }

  // ---------------------------------------------------------------- text

  /** What the upstream makes of a text request: an error status, or an answer with or without usage. */
  datatype TextAnswer = Broken(status: int) | Answered(usage: Option<(nat, nat)>)

  function TextRequest(caller: Caller, channelId: int): Request {
    Request(caller.userId, caller.tokenId, channelId, true, true, 0, [])
  }

  /** The status a text attempt ends with. */
  function TextAttempt(cachedQuota: int, answer: TextAnswer): Attempt {
    if cachedQuota <= 0 then Failed(FORBIDDEN)
    else if answer.Broken? then Failed(answer.status)
    else Succeeded
  }

  /** What an answered text attempt issues: one settlement when the answer has usage, else nothing. */
  function TextRecords(tokens: map<int, Token>, caller: Caller, channelId: int, tariff: Tariff,
                       usage: Option<(nat, nat)>): seq<Record> {
    if usage.Some?
    then Settlement(tokens, TextRequest(caller, channelId),
                    TextQuota(tariff.channel, tariff.model, usage.value.0, usage.value.1))
    else []
  }

  method RelayTextHelper(store: LedgerStore, caller: Caller, channelId: int, cachedQuota: int,
                         tariff: Tariff, answer: TextAnswer)
    returns (result: Attempt)
    modifies store
    ensures result == TextAttempt(cachedQuota, answer)
    ensures result == if cachedQuota <= 0 then Failed(403)
                      else match answer case Broken(status) => Failed(status) case Answered(_) => Succeeded
    ensures result.Failed? ==> store.State() == old(store.State())
    ensures result.Succeeded? ==>
      store.State() == EmitAll(old(store.State()), store.batchEnabled,
                               TextRecords(old(store.tokens), caller, channelId, tariff, answer.usage))
  {
    // getPreConsumedQuota is fixed at 0, so there is nothing to take in advance or to give back
    if cachedQuota <= 0 { return Failed(FORBIDDEN); }
    match answer {
      case Broken(status) => return Failed(status);
      case Answered(None) =>
      case Answered(Some(usage)) =>
        var quota := TextQuota(tariff.channel, tariff.model, usage.0, usage.1);
        PostConsumeQuota(store, TextRequest(caller, channelId), quota);
    }
    return Succeeded;
  }

  lemma EmitNothing(s: Buffer, batch: bool)
    ensures EmitAll(s, batch, []) == s
  {
  }

  /** The inputs of a whole text run, indexed by attempt and channel. */
  datatype TextWorld = TextWorld(cachedQuota: nat -> int, tariff: int -> Tariff, answer: (nat, int) -> TextAnswer)

  function AsUpstream(t: TextWorld): Upstream {
    (n: nat, c: int) => TextAttempt(t.cachedQuota(n), t.answer(n, c))
  }

  /** The records of a whole run: those of its last attempt if that succeeded, else none. */
  function RunRecords(tokens: map<int, Token>, caller: Caller, tr: Trace, t: TextWorld): seq<Record> {
    if tr.last.Failed? || tr.channels == [] then []
    else
      var n := |tr.channels| - 1;
      var c := tr.channels[n];
      if t.answer(n, c).Answered? then TextRecords(tokens, caller, c, t.tariff(c), t.answer(n, c).usage) else []
  }

  /**
   The whole text run: the attempts are those of the retry driver, and the ledger is charged by the
   last attempt alone - by one settlement if it succeeded with usage, not at all otherwise.
   */
  method Relay(store: LedgerStore, caller: Caller, first: int, specificChannel: bool, retryTimes: int,
               draw: Draw, t: TextWorld)
    returns (tr: Trace)
    modifies store
    ensures tr == Relayed(first, specificChannel, retryTimes, draw, AsUpstream(t))
    ensures store.State()
         == EmitAll(old(store.State()), store.batchEnabled, RunRecords(old(store.tokens), caller, tr, t))
    ensures tr.last.Failed? ==> store.State() == old(store.State())
    ensures tr.last.Succeeded? ==>
      tr.channels != [] && t.answer(|tr.channels| - 1, tr.channels[|tr.channels| - 1]).Answered?
    ensures t.cachedQuota(0) > 0 && t.answer(0, first).Answered? ==> tr == Trace([first], [], Succeeded)
    ensures t.cachedQuota(0) <= 0 || t.answer(0, first).Broken? ==>
      var s := if t.cachedQuota(0) <= 0 then 403 else t.answer(0, first).status;
      tr.asks != [] <==> retryTimes > 0 && !specificChannel
                         && (s == 429 || 500 <= s < 600 || !(s == 400 || 200 <= s < 300))
  {
    RetriedIff(first, specificChannel, retryTimes, draw, AsUpstream(t));
    EmitNothing(store.State(), store.batchEnabled);
    var bizErr := RelayTextHelper(store, caller, first, t.cachedQuota(0), t.tariff(first), t.answer(0, first));
    tr := Trace([first], [], bizErr);
    if bizErr.Succeeded? { return; }
    var retries := retryTimes;
    if !ShouldRetry(specificChannel, bizErr.status) {
      retries := 0;
    }
    if retries > 0 {
      tr := RetryText(store, caller, retries, tr, draw, t);
    }
  }

  /** The loop of it, after a first attempt that failed. */
  method RetryText(store: LedgerStore, caller: Caller, retries: nat, start: Trace, draw: Draw, t: TextWorld)
    returns (tr: Trace)
    requires start.channels != [] && start.last.Failed?
    modifies store
    ensures tr == Loop(retries, retries, start, draw, AsUpstream(t))
    ensures store.State()
         == EmitAll(old(store.State()), store.batchEnabled, RunRecords(old(store.tokens), caller, tr, t))
    ensures tr.last.Failed? ==> store.State() == old(store.State())
    ensures tr.last.Succeeded? ==>
      tr.channels != [] && t.answer(|tr.channels| - 1, tr.channels[|tr.channels| - 1]).Answered?
  {
    ghost var s, upstream := store.State(), AsUpstream(t);
    ghost var whole := Loop(retries, retries, start, draw, upstream);
    EmitNothing(s, store.batchEnabled);
    tr := start;
    var i := retries;
    while i > 0
      invariant 0 <= i <= retries
      invariant tr.channels != [] && tr.last.Failed?
      invariant store.State() == s
      invariant Loop(i, retries, tr, draw, upstream) == whole
    {
      var ignoreFirst := i != retries;
      var channel := draw(|tr.asks|, ignoreFirst);
      ghost var before := tr;
      tr := tr.(asks := tr.asks + [ignoreFirst]);
      if channel.None? {
        LoopStops(i, retries, before, draw, upstream, tr);
        return;
      }
      var c, n := channel.value, |tr.channels|;
      var lastFailed := tr.channels[n - 1];
      if c != lastFailed {
        var bizErr := RelayTextHelper(store, caller, c, t.cachedQuota(n), t.tariff(c), t.answer(n, c));
        tr := tr.(channels := tr.channels + [c], last := bizErr);
        LoopAttempts(i, retries, before, draw, upstream, tr);
        if bizErr.Succeeded? { return; }
      } else {
        LoopSkips(i, retries, before, draw, upstream, tr);
      }
      i := i - 1;
    }
  }

  // ---------------------------------------------------------------- audio

  function MediaRequest(caller: Caller, channelId: int, hold: int): Request {
    Request(caller.userId, caller.tokenId, channelId, false, true, hold, [])
  }

  /** An upstream failure, or recognised tokens and whether copying the body out failed afterwards. */
  datatype AudioAnswer = AudioBroken(status: int) | AudioDone(tokens: nat, copyFailed: bool)

  /** Nothing is taken in advance from a user who has more than a hundred times the amount. */
  function HoldFor(cachedQuota: int, pre: int): int {
    if cachedQuota > 100 * pre then 0 else pre
  }

  /** Something is held exactly when there is something to pay and the user has not a hundred times as much. */
  lemma HoldIs(cachedQuota: int, pre: int)
    requires pre >= 0
    ensures HoldFor(cachedQuota, pre) == pre || HoldFor(cachedQuota, pre) == 0
    ensures HoldFor(cachedQuota, pre) > 0 <==> pre > 0 && cachedQuota <= 100 * pre
  {
  }

  function AudioPre(speech: bool, inputLength: nat, tariff: Tariff): int {
    if speech then AudioQuota(tariff.channel, tariff.model, inputLength) else 0
  }

  function AudioCharge(speech: bool, inputLength: nat, tariff: Tariff, tokens: nat): int {
    AudioQuota(tariff.channel, tariff.model, if speech then inputLength else tokens)
  }

  /** Speech is priced by its input before it is sent, everything else by what was recognised. */
  lemma AudioAmountsAre(speech: bool, inputLength: nat, tariff: Tariff, tokens: nat)
    ensures speech ==>
      && AudioPre(speech, inputLength, tariff) == AudioQuota(tariff.channel, tariff.model, inputLength)
      && AudioCharge(speech, inputLength, tariff, tokens) == AudioPre(speech, inputLength, tariff)
    ensures !speech ==>
      && AudioPre(speech, inputLength, tariff) == 0
      && AudioCharge(speech, inputLength, tariff, tokens) == AudioQuota(tariff.channel, tariff.model, tokens)
  {
  }

  function AudioEnd(tokens: map<int, Token>, q: Request, charge: int, answer: AudioAnswer): seq<Record> {
    if answer.AudioBroken? then Refund(tokens, q) else Settlement(tokens, q, charge)
  }

  /** The records of an audio request that gets past its quota checks. */
  function AudioRecords(tokens: map<int, Token>, q: Request, charge: int, answer: AudioAnswer): seq<Record>
    requires q.hold > 0 ==> q.tokenId in tokens
  {
    Taken(tokens, q) + AudioEnd(tokens, q, charge, answer)
  }

  method RelayAudioHelper(store: LedgerStore, caller: Caller, channelId: int, speech: bool, inputLength: nat,
                          cachedQuota: int, tariff: Tariff, answer: AudioAnswer)
    returns (err: Option<int>)
    modifies store
    ensures var pre := AudioPre(speech, inputLength, tariff);
      var hold := HoldFor(cachedQuota, pre);
      if speech && inputLength > 4096 then
        err == Some(400) && store.State() == old(store.State())
      else if cachedQuota < pre || (hold > 0 && !MayPreConsume(old(store.State()).db, caller.tokenId, hold)) then
        err == Some(403) && store.State() == old(store.State())
      else
        && err == (match answer case AudioBroken(status) => Some(status)
                                case AudioDone(_, failed) => if failed then Some(500) else None)
        && store.State() == EmitAll(old(store.State()), store.batchEnabled,
             AudioRecords(old(store.tokens), MediaRequest(caller, channelId, hold),
                          AudioCharge(speech, inputLength, tariff, if answer.AudioDone? then answer.tokens else 0),
                          answer))
  {
    if speech && inputLength > 4096 { return Some(BAD_REQUEST); }
    var preConsumedQuota := 0;
    var quota := 0;
    if speech {
      preConsumedQuota := AudioQuota(tariff.channel, tariff.model, inputLength);
      quota := preConsumedQuota;
    }
    if cachedQuota - preConsumedQuota < 0 { return Some(FORBIDDEN); }
    if cachedQuota > 100 * preConsumedQuota {
      preConsumedQuota := 0;
    }
    ghost var s := store.State();
    var q := MediaRequest(caller, channelId, preConsumedQuota);
    var ok := TakeInAdvance(store, q);
    if !ok { return Some(FORBIDDEN); }
    if answer.AudioDone? && !speech {
      quota := AudioQuota(tariff.channel, tariff.model, answer.tokens);
    }
    AudioInTwoParts(s, store.batchEnabled, q, quota, answer, store.State());
    FinishAudio(store, q, quota, answer);
    match answer {
      case AudioBroken(status) => return Some(status);
      case AudioDone(_, copyFailed) => return if copyFailed then Some(SERVER_ERROR) else None;
    }
  }

  function Taken(tokens: map<int, Token>, q: Request): seq<Record>
    requires q.hold > 0 ==> q.tokenId in tokens
  {
    if q.hold > 0 then PreConsume(tokens, q.tokenId, q.hold) else []
  }

  /** Taking the hold of a request: all of it, or nothing when its quotas do not suffice. */
  method TakeInAdvance(store: LedgerStore, q: Request) returns (ok: bool)
    modifies store
    ensures ok <==> q.hold <= 0 || MayPreConsume(old(store.State()).db, q.tokenId, q.hold)
    ensures !ok ==> store.State() == old(store.State())
    ensures ok ==> store.State() == EmitAll(old(store.State()), store.batchEnabled, Taken(old(store.tokens), q))
  {
    EmitAllAppend(store.State(), store.batchEnabled, [], Record(USER_QUOTA, 0, 0));
    ok := true;
    if q.hold > 0 {
      ok := store.PreConsumeTokenQuota(q.tokenId, q.hold);
    }
  }

  /** The end of an audio request, decided on the rows it leaves after taking its hold. */
  lemma AudioInTwoParts(s: Buffer, batch: bool, q: Request, quota: int, answer: AudioAnswer, middle: Buffer)
    requires q.hold > 0 ==> q.tokenId in s.db.tokens
    requires middle == EmitAll(s, batch, Taken(s.db.tokens, q))
    ensures EmitAll(middle, batch, AudioEnd(middle.db.tokens, q, quota, answer))
         == EmitAll(s, batch, AudioRecords(s.db.tokens, q, quota, answer))
  {
    var tokens, later := s.db.tokens, middle.db.tokens;
    EmitAllShape(s, batch, Taken(tokens, q));
    assert forall id :: id in tokens.Keys ==>
      tokens[id].userId == later[id].userId && tokens[id].unlimited == later[id].unlimited;
    PlanKept(tokens, later, q, quota);
    EmitAllConcat(s, batch, Taken(tokens, q), AudioEnd(tokens, q, quota, answer));
  }

  /** What happens once the upstream outcome is known: give back, or settle. */
  method FinishAudio(store: LedgerStore, q: Request, quota: int, answer: AudioAnswer)
    modifies store
    ensures store.State()
         == EmitAll(old(store.State()), store.batchEnabled, AudioEnd(old(store.tokens), q, quota, answer))
  {
    if answer.AudioDone? {
      PostConsumeQuota(store, q, quota);
    } else if q.hold > 0 {
      var _ := store.PostConsumeTokenQuota(q.tokenId, -q.hold);
    }
  }

  /** A request decides the same on token rows that differ in their quota columns only. */
  lemma PlanKept(tokens: map<int, Token>, later: map<int, Token>, q: Request, quota: int)
    requires tokens.Keys == later.Keys
    requires forall id :: id in tokens.Keys ==>
               tokens[id].userId == later[id].userId && tokens[id].unlimited == later[id].unlimited
    ensures Refund(tokens, q) == Refund(later, q)
    ensures Settlement(tokens, q, quota) == Settlement(later, q, quota)
  {
    if q.tokenId in tokens.Keys {
      assert tokens[q.tokenId].userId == later[q.tokenId].userId
        && tokens[q.tokenId].unlimited == later[q.tokenId].unlimited;
    }
  }

  // ---------------------------------------------------------------- image

  /** No answer at all, or a response that may be absent, with the error DoResponse reports, if any. */
  datatype ImageAnswer = Unsent | Response(status: Option<int>, error: Option<int>)

  /** Settled in a deferred call: whenever the response is absent or 200 or 201, even if reading it fails. */
  method RelayImageHelper(store: LedgerStore, caller: Caller, channelId: int, cachedQuota: int, tariff: Tariff,
                          costRatio: real, n: int, replicate: bool, answer: ImageAnswer)
    returns (err: Option<int>)
    modifies store
    ensures var quota := ImageQuota(tariff.channel, tariff.model, costRatio, n, replicate);
      && err == (if cachedQuota < quota then Some(403)
                 else if answer.Unsent? then Some(500)
                 else answer.error)
      && store.State() == if cachedQuota >= quota && answer.Response? && answer.status in {None, Some(200), Some(201)}
         then EmitAll(old(store.State()), store.batchEnabled,
                      Settlement(old(store.tokens), MediaRequest(caller, channelId, 0), quota))
         else old(store.State())
  {
    var quota := ImageQuota(tariff.channel, tariff.model, costRatio, n, replicate);
    if cachedQuota - quota < 0 { return Some(FORBIDDEN); }
    if answer.Unsent? { return Some(SERVER_ERROR); }
    if !(answer.status.Some? && answer.status.value != 201 && answer.status.value != 200) {
      PostConsumeQuota(store, MediaRequest(caller, channelId, 0), quota);
    }
    return answer.error;
  }
}
