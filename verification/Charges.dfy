/**
 What a whole request does to every counter of the ledger, whatever it took in advance
 (relay/controller/text.go, audio.go, helper.go, relay/billing/billing.go).
 */
module Charges {
  import opened Ledger
  import opened Requests
  import opened Handlers
  import opened Retry
  import opened Options
  import opened Billing

  /** The effect on one counter of consuming `quota` through a token. */
  function Consumed(tokens: map<int, Token>, tokenId: int, quota: int, k: Kind, id: int): int {
    if tokenId !in tokens then 0
    else if k == USER_QUOTA && id == tokens[tokenId].userId then -quota
    else if k == TOKEN_QUOTA && id == tokenId && !tokens[tokenId].unlimited then -quota
    else 0
  }

  /** The effect on one counter of counting one request of that quota. */
  function Counted(userId: int, channelId: int, quota: int, k: Kind, id: int): int {
    if k == USED_QUOTA && id == userId then quota
    else if k == REQUEST_COUNT && id == userId then 1
    else if k == CHANNEL_USED_QUOTA && id == channelId then quota
    else 0
  }

  lemma TotalPair(a: Record, b: Record, k: Kind, id: int)
    ensures Total([a], k, id) == At(a, k, id)
    ensures Total([a] + [b], k, id) == At(a, k, id) + At(b, k, id)
    ensures Total([], k, id) == 0
  {
    assert [a][..0] == [] && [b][..0] == [];
    assert Total([], k, id) == 0;
    assert Total([a], k, id) == At(a, k, id) && Total([b], k, id) == At(b, k, id);
    TotalConcat([a], [b], k, id);
  }

  lemma PostConsumeTotal(tokens: map<int, Token>, tokenId: int, quota: int, k: Kind, id: int)
    ensures Total(PostConsume(tokens, tokenId, quota), k, id) == Consumed(tokens, tokenId, quota, k, id)
  {
    if tokenId in tokens {
      var a, b := Record(USER_QUOTA, tokens[tokenId].userId, -quota), Record(TOKEN_QUOTA, tokenId, -quota);
      TotalPair(a, b, k, id);
      assert [a] + [] == [a];
    }
  }

  lemma PreConsumeTotal(tokens: map<int, Token>, tokenId: int, quota: int, k: Kind, id: int)
    requires tokenId in tokens
    ensures Total(PreConsume(tokens, tokenId, quota), k, id) == Consumed(tokens, tokenId, quota, k, id)
  {
    var a, b := Record(TOKEN_QUOTA, tokenId, -quota), Record(USER_QUOTA, tokens[tokenId].userId, -quota);
    TotalPair(a, b, k, id);
    TotalPair(b, a, k, id);
    assert [] + [b] == [b];
  }

  lemma UsageTotal(userId: int, channelId: int, quota: int, k: Kind, id: int)
    ensures Total(Usage(userId, channelId, quota), k, id) == Counted(userId, channelId, quota, k, id)
  {
    var a, b, c := Record(USED_QUOTA, userId, quota),
        Record(REQUEST_COUNT, userId, 1), Record(CHANNEL_USED_QUOTA, channelId, quota);
    assert Usage(userId, channelId, quota) == [a] + ([b] + [c]);
    TotalPair(b, c, k, id);
    TotalPair(a, b, k, id);
    TotalConcat([a], [b] + [c], k, id);
  }

  /** A settlement moves every counter by what is still due, and counts the whole quota once. */
  lemma SettlementTotal(tokens: map<int, Token>, q: Request, quota: int, k: Kind, id: int)
    ensures Total(Settlement(tokens, q, quota), k, id)
         == Consumed(tokens, q.tokenId, quota - q.hold, k, id)
          + if q.text || quota != 0 then Counted(q.userId, q.channelId, quota, k, id) else 0
  {
    var post := PostConsume(tokens, q.tokenId, quota - q.hold);
    PostConsumeTotal(tokens, q.tokenId, quota - q.hold, k, id);
    UsageTotal(q.userId, q.channelId, quota, k, id);
    TotalConcat(post, Usage(q.userId, q.channelId, quota), k, id);
    assert post + [] == post;
  }

  /** What the one settlement of a text run moves: its price once, and one request, free or not. */
  lemma TextTotal(tokens: map<int, Token>, caller: Caller, channelId: int, tariff: Tariff,
                   usage: (nat, nat), k: Kind, id: int)
    ensures var quota := TextQuota(tariff.channel, tariff.model, usage.0, usage.1);
      Total(TextRecords(tokens, caller, channelId, tariff, Some(usage)), k, id)
        == Consumed(tokens, caller.tokenId, quota, k, id) + Counted(caller.userId, channelId, quota, k, id)
  {
    SettlementTotal(tokens, TextRequest(caller, channelId),
                   TextQuota(tariff.channel, tariff.model, usage.0, usage.1), k, id);
  }

  /** In the rows themselves: what a settled text request with a limited token leaves. */
  lemma TextColumns(db: Db, caller: Caller, channelId: int, tariff: Tariff, usage: (nat, nat), quota: int, after: Db)
    requires Rows(db, caller.userId, caller.tokenId, channelId) && !db.tokens[caller.tokenId].unlimited
    requires quota == TextQuota(tariff.channel, tariff.model, usage.0, usage.1)
    requires after == DirectRun(db, TextRecords(db.tokens, caller, channelId, tariff, Some(usage)))
    ensures var u := db.users[caller.userId];
      after.users == db.users[caller.userId := User(u.quota - quota, u.usedQuota + quota, u.requestCount + 1)]
    ensures var t := db.tokens[caller.tokenId];
      after.tokens == db.tokens[caller.tokenId :=
        t.(remainQuota := t.remainQuota - quota, usedQuota := t.usedQuota + quota)]
    ensures var c := db.channels[channelId];
      after.channels == db.channels[channelId := ChannelUsage(c.usedQuota + quota)]
  {
    var rs := TextRecords(db.tokens, caller, channelId, tariff, Some(usage));
    var moved := (k: Kind, id: int) =>
      Consumed(db.tokens, caller.tokenId, quota, k, id) + Counted(caller.userId, channelId, quota, k, id);
    forall k: Kind, id: int ensures Total(rs, k, id) == moved(k, id) {
      TextTotal(db.tokens, caller, channelId, tariff, usage, k, id);
    }
    DirectRunIsShift(db, rs);
    ShiftCongruence(db, (k: Kind, id: int) => Total(rs, k, id), moved);
    forall k: Kind, id: int ensures
        && (k == USER_QUOTA ==> moved(k, id) == if id == caller.userId then -quota else 0)
        && (k == USED_QUOTA ==> moved(k, id) == if id == caller.userId then quota else 0)
        && (k == REQUEST_COUNT ==> moved(k, id) == if id == caller.userId then 1 else 0)
        && (k == TOKEN_QUOTA ==> moved(k, id) == if id == caller.tokenId then -quota else 0)
        && (k == CHANNEL_USED_QUOTA ==> moved(k, id) == if id == channelId then quota else 0)
    {
      MovedIs(db, caller, channelId, quota, moved, k, id);
    }
    ShiftedColumns(db, caller, channelId, quota, moved);
  }

  /** Every counter moves by the charge or by nothing. */
  lemma MovedIs(db: Db, caller: Caller, channelId: int, quota: int, moved: (Kind, int) -> int, k: Kind, id: int)
    requires caller.tokenId in db.tokens && !db.tokens[caller.tokenId].unlimited
    requires db.tokens[caller.tokenId].userId == caller.userId
    requires moved(k, id)
          == Consumed(db.tokens, caller.tokenId, quota, k, id) + Counted(caller.userId, channelId, quota, k, id)
    ensures k == USER_QUOTA ==> moved(k, id) == if id == caller.userId then -quota else 0
    ensures k == USED_QUOTA ==> moved(k, id) == if id == caller.userId then quota else 0
    ensures k == REQUEST_COUNT ==> moved(k, id) == if id == caller.userId then 1 else 0
    ensures k == TOKEN_QUOTA ==> moved(k, id) == if id == caller.tokenId then -quota else 0
    ensures k == CHANNEL_USED_QUOTA ==> moved(k, id) == if id == channelId then quota else 0
  {
  }

  lemma ShiftedColumns(db: Db, caller: Caller, channelId: int, quota: int, moved: (Kind, int) -> int)
    requires Rows(db, caller.userId, caller.tokenId, channelId)
    requires forall id: int :: moved(USER_QUOTA, id) == if id == caller.userId then -quota else 0
    requires forall id: int :: moved(USED_QUOTA, id) == if id == caller.userId then quota else 0
    requires forall id: int :: moved(REQUEST_COUNT, id) == if id == caller.userId then 1 else 0
    requires forall id: int :: moved(TOKEN_QUOTA, id) == if id == caller.tokenId then -quota else 0
    requires forall id: int :: moved(CHANNEL_USED_QUOTA, id) == if id == channelId then quota else 0
    ensures var u := db.users[caller.userId];
      ShiftUsers(db.users, moved)
        == db.users[caller.userId := User(u.quota - quota, u.usedQuota + quota, u.requestCount + 1)]
    ensures var t := db.tokens[caller.tokenId];
      ShiftTokens(db.tokens, moved) == db.tokens[caller.tokenId :=
        t.(remainQuota := t.remainQuota - quota, usedQuota := t.usedQuota + quota)]
    ensures var c := db.channels[channelId];
      ShiftChannels(db.channels, moved) == db.channels[channelId := ChannelUsage(c.usedQuota + quota)]
  {
    assert forall id: int :: moved(USER_QUOTA, id) == if id == caller.userId then -quota else 0;
    assert forall id: int :: moved(USED_QUOTA, id) == if id == caller.userId then quota else 0;
    assert forall id: int :: moved(REQUEST_COUNT, id) == if id == caller.userId then 1 else 0;
    assert forall id: int :: moved(TOKEN_QUOTA, id) == if id == caller.tokenId then -quota else 0;
    assert forall id: int :: moved(CHANNEL_USED_QUOTA, id) == if id == channelId then quota else 0;
  }

  /** Whether the last attempt of a run was answered with usage. */
  predicate UsageCame(tr: Trace, t: TextWorld) {
    && tr.last.Succeeded? && tr.channels != []
    && var n := |tr.channels| - 1;
      var answer := t.answer(n, tr.channels[n]);
      answer.Answered? && answer.usage.Some?
  }

  /** What a whole text run moves, counter by counter: one settlement if usage came, and otherwise nothing. */
  lemma RunTotal(tokens: map<int, Token>, caller: Caller, tr: Trace, t: TextWorld, k: Kind, id: int)
    ensures !UsageCame(tr, t) ==> Total(RunRecords(tokens, caller, tr, t), k, id) == 0
    ensures UsageCame(tr, t) ==>
      var n := |tr.channels| - 1;
      var c := tr.channels[n];
      var usage := t.answer(n, c).usage.value;
      var quota := TextQuota(t.tariff(c).channel, t.tariff(c).model, usage.0, usage.1);
      Total(RunRecords(tokens, caller, tr, t), k, id)
        == Consumed(tokens, caller.tokenId, quota, k, id) + Counted(caller.userId, c, quota, k, id)
  {
    if UsageCame(tr, t) {
      var n := |tr.channels| - 1;
      var c := tr.channels[n];
      TextTotal(tokens, caller, c, t.tariff(c), t.answer(n, c).usage.value, k, id);
    }
  }

  /**
   Over the whole run, for every sequence of draws and outcomes and every number of retries: the request is
   counted, and so settled, exactly once if an attempt succeeds and reports usage, and never otherwise.
   */
  lemma SettledOnce(tokens: map<int, Token>, caller: Caller, first: int, specificChannel: bool, retryTimes: int,
                    draw: Draw, t: TextWorld)
    ensures var tr := Relayed(first, specificChannel, retryTimes, draw, AsUpstream(t));
      && Total(RunRecords(tokens, caller, tr, t), REQUEST_COUNT, caller.userId)
           == (if Successes(tr.channels, AsUpstream(t)) == 1 && UsageCame(tr, t) then 1 else 0)
      && (Successes(tr.channels, AsUpstream(t)) == 1 <==> tr.last.Succeeded?)
      && Successes(tr.channels, AsUpstream(t)) <= 1
  {
    var tr := Relayed(first, specificChannel, retryTimes, draw, AsUpstream(t));
    AtMostOneSuccess(first, specificChannel, retryTimes, draw, AsUpstream(t));
    RunTotal(tokens, caller, tr, t, REQUEST_COUNT, caller.userId);
  }

  /** Exactly when a successful run is settled: when its answer came with usage. */
  lemma SuccessIsSettledIff(tokens: map<int, Token>, caller: Caller, first: int, specificChannel: bool, retryTimes: int,
                            draw: Draw, t: TextWorld)
    requires Relayed(first, specificChannel, retryTimes, draw, AsUpstream(t)).last.Succeeded?
    ensures var tr := Relayed(first, specificChannel, retryTimes, draw, AsUpstream(t));
      var n := |tr.channels| - 1;
      && n >= 0 && t.answer(n, tr.channels[n]).Answered?
      && (RunRecords(tokens, caller, tr, t) != [] <==> t.answer(n, tr.channels[n]).usage.Some?)
  {
    var tr := Relayed(first, specificChannel, retryTimes, draw, AsUpstream(t));
    RunProperties(first, specificChannel, retryTimes, draw, AsUpstream(t));
    RunTotal(tokens, caller, tr, t, REQUEST_COUNT, caller.userId);
  }

  const SILENT := TextWorld(_ => 100, _ => Tariff(None, "m"), (_, _) => Answered(None))

  /** A run whose only attempt is answered without usage succeeds, and nothing is settled. */
  lemma NoUsageIsNotSettled(tokens: map<int, Token>, caller: Caller, retryTimes: int, draw: Draw)
    ensures var tr := Relayed(1, false, retryTimes, draw, AsUpstream(SILENT));
      tr == Trace([1], [], Succeeded) && RunRecords(tokens, caller, tr, SILENT) == []
  {
    assert SILENT.answer(0, 1) == Answered(None) && SILENT.cachedQuota(0) == 100;
    assert AsUpstream(SILENT)(0, 1) == TextAttempt(100, Answered(None)) == Succeeded;
  }

  /**
   An audio request moves every counter by the same amount whether it took quota in advance or not:
   by the charge when it succeeds, by nothing at all when it fails.
   */
  lemma AudioTotal(tokens: map<int, Token>, q: Request, charge: int, answer: AudioAnswer, k: Kind, id: int)
    requires q.hold >= 0 && !q.text && (q.hold > 0 ==> q.tokenId in tokens)
    ensures Total(AudioRecords(tokens, q, charge, answer), k, id)
         == (if answer.AudioBroken? then 0 else Consumed(tokens, q.tokenId, charge, k, id))
          + (if answer.AudioBroken? || charge == 0 then 0 else Counted(q.userId, q.channelId, charge, k, id))
  {
    var taken := Taken(tokens, q);
    var end := AudioEnd(tokens, q, charge, answer);
    TotalConcat(taken, end, k, id);
    SettlementTotal(tokens, q, charge, k, id);
    if q.hold > 0 {
      PreConsumeTotal(tokens, q.tokenId, q.hold, k, id);
      PostConsumeTotal(tokens, q.tokenId, -q.hold, k, id);
    }
  }

  /** So two databases are the same in the end, whatever was taken in advance. */
  lemma HoldDoesNotMatter(db: Db, q: Request, charge: int, answer: AudioAnswer, hold: int)
    requires q.hold >= 0 && hold >= 0 && !q.text && q.tokenId in db.tokens
    ensures DirectRun(db, AudioRecords(db.tokens, q, charge, answer))
         == DirectRun(db, AudioRecords(db.tokens, q.(hold := hold), charge, answer))
    ensures answer.AudioBroken? ==> DirectRun(db, AudioRecords(db.tokens, q, charge, answer)) == db
  {
    var rs, ss := AudioRecords(db.tokens, q, charge, answer), AudioRecords(db.tokens, q.(hold := hold), charge, answer);
    forall k: Kind, id: int
      ensures Total(rs, k, id) == Total(ss, k, id)
      ensures answer.AudioBroken? ==> Total(rs, k, id) == Total([], k, id)
    {
      AudioTotal(db.tokens, q, charge, answer, k, id);
      AudioTotal(db.tokens, q.(hold := hold), charge, answer, k, id);
    }
    SameTotalsSameDb(db, rs, ss);
    if answer.AudioBroken? { SameTotalsSameDb(db, rs, []); }
  }

  lemma SameTotalsSameDb(db: Db, rs: seq<Record>, ss: seq<Record>)
    requires forall k: Kind, id: int :: Total(rs, k, id) == Total(ss, k, id)
    ensures DirectRun(db, rs) == DirectRun(db, ss)
  {
    assert forall k: Kind, id: int :: Total(rs, k, id) == Total(ss, k, id);
    DirectRunIsShift(db, rs);
    DirectRunIsShift(db, ss);
    ShiftCongruence(db, (k: Kind, id: int) => Total(rs, k, id), (k: Kind, id: int) => Total(ss, k, id));
  }
}
