/**
 Text, audio and image requests over the ledger (relay/controller/text.go, audio.go, image.go,
 helper.go, relay/billing/billing.go), as a machine whose atomic steps interleave freely with
 each other, with the batch worker, with top-ups and with the monthly token reset.

 A request first reads rows, then issues records one by one.  `hold` is what it has taken from
 the user in advance and not yet settled; `queue` holds the records it has decided on but not
 yet issued.
 */
module Requests {
  import opened Ledger

  datatype Request = Request(userId: int, tokenId: int, channelId: int, text: bool,
                             waiting: bool, hold: int, queue: seq<Record>)

  // ---------------------------------------------------------------- what a request decides

  /** PreConsumeTokenQuota's checks, on the rows it reads; a missing user reads as quota 0. */
  predicate MayPreConsume(db: Db, tokenId: int, quota: int) {
    && 0 <= quota
    && tokenId in db.tokens
    && var t := db.tokens[tokenId];
    && (t.unlimited || quota <= t.remainQuota)
    && quota <= (if t.userId in db.users then db.users[t.userId].quota else 0)
  }

  // What the checks protect is stated on what taking the quota would leave, by `MayPreConsumeIff`.

  /** The records PreConsumeTokenQuota issues once its checks pass. */
  function PreConsume(tokens: map<int, Token>, tokenId: int, quota: int): seq<Record>
    requires tokenId in tokens
  {
    (if tokens[tokenId].unlimited then [] else [Record(TOKEN_QUOTA, tokenId, -quota)])
    + [Record(USER_QUOTA, tokens[tokenId].userId, -quota)]
  }

  /**
   The checks pass exactly when taking the quota leaves neither a limited token nor its user below zero; nothing
   can be taken from a user who does not exist.
   */
  lemma MayPreConsumeIff(db: Db, tokenId: int, quota: int)
    ensures MayPreConsume(db, tokenId, quota) <==>
      && quota >= 0 && tokenId in db.tokens
      && Bearable(db, DirectRun(db, PreConsume(db.tokens, tokenId, quota)), tokenId, quota)
  {
    if tokenId in db.tokens {
      var after := DirectRun(db, PreConsume(db.tokens, tokenId, quota));
      PreConsumeRuns(db, tokenId, quota, after);
      TakenLeaves(db, tokenId, quota, after);
    }
  }

  lemma PreConsumeRuns(db: Db, tokenId: int, quota: int, after: Db)
    requires tokenId in db.tokens && after == DirectRun(db, PreConsume(db.tokens, tokenId, quota))
    ensures var t := db.tokens[tokenId];
      var debit := Record(USER_QUOTA, t.userId, -quota);
      after == if t.unlimited then Apply(db, debit) else Apply(Apply(db, Record(TOKEN_QUOTA, tokenId, -quota)), debit)
  {
    DirectTwo(db, Record(TOKEN_QUOTA, tokenId, -quota), Record(USER_QUOTA, db.tokens[tokenId].userId, -quota));
  }

  lemma DirectTwo(db: Db, a: Record, b: Record)
    ensures DirectRun(db, [a] + [b]) == Apply(Apply(db, a), b)
    ensures DirectRun(db, [] + [b]) == Apply(db, b)
  {
    DirectRunAppend(db, [], a);
    DirectRunAppend(db, [], b);
    DirectRunAppend(db, [a], b);
    assert [] + [a] == [a];
  }

  lemma TakenLeaves(db: Db, tokenId: int, quota: int, after: Db)
    requires tokenId in db.tokens
    requires var t := db.tokens[tokenId];
      var debit := Record(USER_QUOTA, t.userId, -quota);
      after == if t.unlimited then Apply(db, debit) else Apply(Apply(db, Record(TOKEN_QUOTA, tokenId, -quota)), debit)
    ensures var t := db.tokens[tokenId];
      && tokenId in after.tokens && after.users.Keys == db.users.Keys
      && (!t.unlimited ==> after.tokens[tokenId].remainQuota == t.remainQuota - quota)
      && (t.userId in db.users ==> after.users[t.userId].quota == db.users[t.userId].quota - quota)
  {
  }

  /** `after` leaves the token, if it is limited, and its user with nothing below zero. */
  predicate Bearable(db: Db, after: Db, tokenId: int, quota: int)
    requires tokenId in db.tokens
  {
    && tokenId in after.tokens
    && (!db.tokens[tokenId].unlimited ==> after.tokens[tokenId].remainQuota >= 0)
    && var u := db.tokens[tokenId].userId;
      if u in db.users then u in after.users && after.users[u].quota >= 0 else quota == 0
  }

  /** PostConsumeTokenQuota: a positive quota debits, a negative one credits; no token row, no records. */
  function PostConsume(tokens: map<int, Token>, tokenId: int, quota: int): seq<Record> {
    if tokenId !in tokens then []
    else
      [Record(USER_QUOTA, tokens[tokenId].userId, -quota)]
      + if tokens[tokenId].unlimited then [] else [Record(TOKEN_QUOTA, tokenId, -quota)]
  }

  /** The usage counters of one settled request. */
  function Usage(userId: int, channelId: int, quota: int): seq<Record> {
    [Record(USED_QUOTA, userId, quota), Record(REQUEST_COUNT, userId, 1), Record(CHANNEL_USED_QUOTA, channelId, quota)]
  }

  /** Settling by delta.  Text always counts the request; audio and image only when something was charged. */
  function Settlement(tokens: map<int, Token>, q: Request, quota: int): seq<Record> {
    PostConsume(tokens, q.tokenId, quota - q.hold)
    + if q.text || quota != 0 then Usage(q.userId, q.channelId, quota) else []
  }

  /** Failure: what was taken in advance, if anything, is given back. */
  function Refund(tokens: map<int, Token>, q: Request): seq<Record> {
    if q.hold > 0 then PostConsume(tokens, q.tokenId, -q.hold) else []
  }

  // ---------------------------------------------------------------- the machine

  datatype World = World(buffer: Buffer, batch: bool, requests: seq<Request>)

  datatype Event =
    | Worker(e: BufferEvent)
    | TopUp(userId: int, amount: int)
    | ResetMonthly
    | Start(userId: int, tokenId: int, channelId: int, text: bool, pre: int)
    | Fail(i: int)
    | Settle(i: int, quota: int)
    | Exec(i: int)

  /** One record, issued in the configured mode. */
  function Emit(s: Buffer, batch: bool, r: Record): Buffer {
    if batch then BufferStep(s, Add(r)) else s.(db := Apply(s.db, r))
  }

  function ResetTokens(tokens: map<int, Token>): map<int, Token> {
    map id | id in tokens ::
      if tokens[id].monthlyQuota > 0 then tokens[id].(remainQuota := tokens[id].monthlyQuota) else tokens[id]
  }

  /** Authentication and distribution hand over live rows and the token's own user. */
  predicate Rows(db: Db, userId: int, tokenId: int, channelId: int) {
    && userId in db.users && channelId in db.channels
    && tokenId in db.tokens && db.tokens[tokenId].userId == userId
  }

  predicate MayStart(db: Db, e: Event)
    requires e.Start?
  {
    && Rows(db, e.userId, e.tokenId, e.channelId)
    && (e.pre == 0 || (e.pre > 0 && !e.text && MayPreConsume(db, e.tokenId, e.pre)))
  }

  predicate Decides(w: World, i: int) {
    0 <= i < |w.requests| && w.requests[i].waiting && w.requests[i].queue == []
  }

  function Started(db: Db, e: Event): Request
    requires e.Start? && MayStart(db, e)
  {
    Request(e.userId, e.tokenId, e.channelId, e.text, true, e.pre,
            if e.pre == 0 then [] else PreConsume(db.tokens, e.tokenId, e.pre))
  }

  function Step(w: World, e: Event): World {
    match e
    case Worker(b) => if b.Add? then w else w.(buffer := BufferStep(w.buffer, b))
    case TopUp(u, amount) =>
      if amount < 0 then w else w.(buffer := Emit(w.buffer, w.batch, Record(USER_QUOTA, u, amount)))
    case ResetMonthly =>
      w.(buffer := w.buffer.(db := w.buffer.db.(tokens := ResetTokens(w.buffer.db.tokens))))
    case Start(_, _, _, _, _) =>
      if MayStart(w.buffer.db, e) then w.(requests := w.requests + [Started(w.buffer.db, e)]) else w
    case Fail(i) =>
      if !Decides(w, i) then w
      else
        var q := w.requests[i];
        w.(requests := w.requests[i := q.(waiting := false, hold := 0, queue := Refund(w.buffer.db.tokens, q))])
    case Settle(i, quota) =>
      if !Decides(w, i) then w
      else
        var q := w.requests[i];
        w.(requests := w.requests[i := q.(waiting := false, hold := 0,
                                         queue := Settlement(w.buffer.db.tokens, q, quota))])
    case Exec(i) =>
      if !(0 <= i < |w.requests|) || w.requests[i].queue == [] then w
      else
        var q := w.requests[i];
        w.(buffer := Emit(w.buffer, w.batch, q.queue[0]), requests := w.requests[i := q.(queue := q.queue[1..])])
  }

  function Run(w: World, es: seq<Event>): World {
    if es == [] then w else Step(Run(w, es[..|es| - 1]), es[|es| - 1])
  }

  /** Kept by every run: requests refer to live rows, and hold nothing once they have decided. */
  ghost predicate Inv(w: World) {
    forall q :: q in w.requests ==> Sound(w.buffer.db, q)
  }

  ghost predicate Sound(db: Db, q: Request) {
    && Rows(db, q.userId, q.tokenId, q.channelId)
    && 0 <= q.hold && (q.text ==> q.hold == 0)
    && forall r :: r in q.queue ==> Refers(db, r)
  }

  predicate Refers(db: Db, r: Record) {
    if r.kind == TOKEN_QUOTA then r.id in db.tokens
    else if r.kind == CHANNEL_USED_QUOTA then r.id in db.channels
    else r.id in db.users
  }

  /** The rows themselves and what requests rely on in them never change. */
  ghost predicate SameShape(a: Db, b: Db) {
    && a.users.Keys == b.users.Keys && a.channels.Keys == b.channels.Keys && a.tokens.Keys == b.tokens.Keys
    && forall id :: id in a.tokens.Keys ==>
         a.tokens[id].userId == b.tokens[id].userId && a.tokens[id].unlimited == b.tokens[id].unlimited
  }

  lemma StepKeepsShape(w: World, e: Event)
    ensures SameShape(w.buffer.db, Step(w, e).buffer.db)
  {
  }

  lemma SoundKept(a: Db, b: Db, q: Request)
    requires SameShape(a, b) && Sound(a, q)
    ensures Sound(b, q)
  {
    assert forall id :: id in a.tokens.Keys ==> a.tokens[id].userId == b.tokens[id].userId;
    forall r | r in q.queue ensures Refers(b, r) { assert Refers(a, r); }
  }

  lemma StepKeepsInv(w: World, e: Event)
    requires Inv(w)
    ensures Inv(Step(w, e))
  {
    var after := Step(w, e);
    StepKeepsShape(w, e);
    forall q | q in after.requests ensures Sound(after.buffer.db, q) {
      if q in w.requests {
        SoundKept(w.buffer.db, after.buffer.db, q);
      } else if e.Start? {
        StartIsSound(w.buffer.db, e, q);
      } else {
        assert w.requests[e.i] in w.requests;
        SoundKept(w.buffer.db, after.buffer.db, w.requests[e.i]);
        ChangedIsSound(w, e, q);
      }
    }
  }

  lemma StartIsSound(db: Db, e: Event, q: Request)
    requires e.Start? && MayStart(db, e) && q == Started(db, e)
    ensures Sound(db, q)
  {
  }

  lemma ChangedIsSound(w: World, e: Event, q: Request)
    requires (e.Fail? || e.Settle? || e.Exec?) && 0 <= e.i < |w.requests| && q == Step(w, e).requests[e.i]
    requires Sound(Step(w, e).buffer.db, w.requests[e.i])
    ensures Sound(Step(w, e).buffer.db, q)
  {
    if e.Exec? && w.requests[e.i].queue != [] {
      assert forall r :: r in q.queue ==> r in w.requests[e.i].queue;
    }
  }
}
