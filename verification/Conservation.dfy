/** What every run of the request machine conserves: money per user, the limit of a token, double entry. */
module Conservation {
  import opened Ledger
  import opened Requests

  // ---------------------------------------------------------------- sums over the live requests

  function SumOf(qs: seq<Request>, f: Request -> int): int {
    if qs == [] then 0 else SumOf(qs[..|qs| - 1], f) + f(qs[|qs| - 1])
  }

  lemma SumAppend(qs: seq<Request>, q: Request, f: Request -> int)
    ensures SumOf(qs + [q], f) == SumOf(qs, f) + f(q)
  {
    assert (qs + [q])[..|qs + [q]| - 1] == qs;
  }

  lemma {:induction false} SumReplace(qs: seq<Request>, i: nat, q: Request, f: Request -> int)
    requires i < |qs|
    ensures SumOf(qs[i := q], f) == SumOf(qs, f) - f(qs[i]) + f(q)
  {
    var last := |qs| - 1;
    if i == last {
      assert qs[i := q][..last] == qs[..last];
    } else {
      assert qs[i := q][..last] == qs[..last][i := q];
      SumReplace(qs[..last], i, q, f);
    }
  }

  // ---------------------------------------------------------------- money per user

  /** What a list of records adds to quota + used quota of a user. */
  function Net(rs: seq<Record>, u: int): int {
    Total(rs, USER_QUOTA, u) + Total(rs, USED_QUOTA, u)
  }

  /** What a request still has to give back or book for a user. */
  function Due(q: Request, u: int): int {
    (if q.userId == u then q.hold else 0) + Net(q.queue, u)
  }

  /** quota + used quota of the user in the view, plus what the live requests have outstanding. */
  function Balance(w: World, u: int): int
    requires u in w.buffer.db.users
  {
    var row := View(w.buffer).users[u];
    row.quota + row.usedQuota + SumOf(w.requests, q => Due(q, u))
  }

  lemma NetConcat(rs: seq<Record>, ss: seq<Record>, u: int)
    ensures Net(rs + ss, u) == Net(rs, u) + Net(ss, u)
  {
    TotalConcat(rs, ss, USER_QUOTA, u);
    TotalConcat(rs, ss, USED_QUOTA, u);
  }

  lemma NetOne(r: Record, u: int)
    ensures Net([r], u) == At(r, USER_QUOTA, u) + At(r, USED_QUOTA, u)
    ensures Net([], u) == 0
  {
    assert [r][..|[r]| - 1] == [];
    assert Total([], USER_QUOTA, u) == 0 && Total([], USED_QUOTA, u) == 0;
  }

  lemma NetUsage(userId: int, channelId: int, quota: int, u: int)
    ensures Net(Usage(userId, channelId, quota), u) == if u == userId then quota else 0
  {
    var a, b, c := Record(USED_QUOTA, userId, quota),
        Record(REQUEST_COUNT, userId, 1), Record(CHANNEL_USED_QUOTA, channelId, quota);
    var rest := [b] + [c];
    assert Usage(userId, channelId, quota) == [a] + rest;
    NetConcat([a], rest, u);
    NetConcat([b], [c], u);
    NetOne(a, u);
    NetOne(b, u);
    NetOne(c, u);
  }

  lemma NetPostConsume(tokens: map<int, Token>, tokenId: int, quota: int, u: int)
    ensures Net(PostConsume(tokens, tokenId, quota), u)
         == if tokenId in tokens && tokens[tokenId].userId == u then -quota else 0
  {
    if tokenId in tokens {
      var a, b := Record(USER_QUOTA, tokens[tokenId].userId, -quota), Record(TOKEN_QUOTA, tokenId, -quota);
      NetConcat([a], [b], u);
      NetOne(a, u);
      NetOne(b, u);
      assert [a] + [] == [a];
    }
  }

  lemma NetPreConsume(tokens: map<int, Token>, tokenId: int, quota: int, u: int)
    requires tokenId in tokens
    ensures Net(PreConsume(tokens, tokenId, quota), u) == if tokens[tokenId].userId == u then -quota else 0
  {
    var a, b := Record(TOKEN_QUOTA, tokenId, -quota), Record(USER_QUOTA, tokens[tokenId].userId, -quota);
    NetConcat([a], [b], u);
    NetOne(a, u);
    NetOne(b, u);
    assert [] + [b] == [b];
  }

  /**
   Settling gives a user back exactly what the request held, whatever was charged, iff the token
   row still exists and still belongs to the user, or there is nothing left to debit.
   When the token is gone PostConsumeTokenQuota fails, yet the used quota is booked all the same.
   */
  lemma SettlementBalanced(tokens: map<int, Token>, q: Request, quota: int)
    ensures Net(Settlement(tokens, q, quota), q.userId) == q.hold
       <==> (q.tokenId in tokens && tokens[q.tokenId].userId == q.userId) || quota == q.hold
  {
    NetSettlement(tokens, q, quota, q.userId);
  }

  /** For one, a token row deleted while the upstream was answering: five units used, none debited. */
  lemma MissingTokenIsNotDebited()
    ensures var q := Request(1, 7, 3, true, true, 0, []);
      Net(Settlement(map[], q, 5), 1) == 5 && Net(Settlement(map[], q, 5), 1) != q.hold
  {
    NetSettlement(map[], Request(1, 7, 3, true, true, 0, []), 5, 1);
  }

  lemma NetSettlement(tokens: map<int, Token>, q: Request, quota: int, u: int)
    ensures Net(Settlement(tokens, q, quota), u)
         == (if q.tokenId in tokens && tokens[q.tokenId].userId == u then q.hold - quota else 0)
          + (if q.userId == u then quota else 0)
  {
    var post := PostConsume(tokens, q.tokenId, quota - q.hold);
    NetPostConsume(tokens, q.tokenId, quota - q.hold, u);
    NetUsage(q.userId, q.channelId, quota, u);
    NetConcat(post, Usage(q.userId, q.channelId, quota), u);
    assert post + [] == post;
  }

  lemma EmitView(s: Buffer, batch: bool, r: Record)
    ensures View(Emit(s, batch, r)) == Apply(View(s), r)
  {
    if batch {
      ViewOfStep(s, Add(r));
    } else {
      var f := (k: Kind, id: int) => Owed(s, k, id);
      ShiftApply(s.db, f, (k: Kind, id: int) => Owed(s, k, id) + At(r, k, id), r);
      ShiftCongruence(Apply(s.db, r), f, (k: Kind, id: int) => Owed(Emit(s, batch, r), k, id));
    }
  }

  lemma NetApply(db: Db, r: Record, u: int)
    requires u in db.users
    ensures u in Apply(db, r).users
    ensures Apply(db, r).users[u].quota + Apply(db, r).users[u].usedQuota
         == db.users[u].quota + db.users[u].usedQuota + Net([r], u)
  {
    NetOne(r, u);
  }

  /** The monthly reset overwrites token rows only. */
  lemma ResetView(w: World)
    ensures View(Step(w, ResetMonthly).buffer).users == View(w.buffer).users
    ensures View(Step(w, ResetMonthly).buffer).channels == View(w.buffer).channels
  {
    var s, t := w.buffer, Step(w, ResetMonthly).buffer;
    ShiftCongruence(s.db, (k: Kind, id: int) => Owed(s, k, id), (k: Kind, id: int) => Owed(t, k, id));
  }

  /** The part of a top-up event that reaches a user; a negative amount is refused. */
  function ToppedUp(e: Event, u: int): int {
    if e.TopUp? && e.userId == u && e.amount >= 0 then e.amount else 0
  }

  /** A request that decides (starts, fails, settles) keeps what it has outstanding. */
  lemma DecisionKeepsDue(w: World, e: Event, u: int)
    requires Inv(w) && (e.Start? || e.Fail? || e.Settle?)
    ensures Step(w, e).buffer == w.buffer
    ensures SumOf(Step(w, e).requests, q => Due(q, u)) == SumOf(w.requests, q => Due(q, u))
  {
    var f := (q: Request) => Due(q, u);
    var tokens := w.buffer.db.tokens;
    if e.Start? {
      if MayStart(w.buffer.db, e) {
        SumAppend(w.requests, Started(w.buffer.db, e), f);
        NetPreConsume(tokens, e.tokenId, e.pre, u);
      }
    } else if Decides(w, e.i) {
      var q := w.requests[e.i];
      assert Sound(w.buffer.db, q);
      NetPostConsume(tokens, q.tokenId, -q.hold, u);
      if e.Settle? { NetSettlement(tokens, q, e.quota, u); }
      SumReplace(w.requests, e.i, Step(w, e).requests[e.i], f);
    }
  }

  /** Issuing a record moves its effect from the request's queue into the view. */
  lemma ExecKeepsBalance(w: World, i: int, u: int)
    requires u in w.buffer.db.users
    ensures u in Step(w, Exec(i)).buffer.db.users
    ensures Balance(Step(w, Exec(i)), u) == Balance(w, u)
  {
    if 0 <= i < |w.requests| && w.requests[i].queue != [] {
      var queue := w.requests[i].queue;
      EmitView(w.buffer, w.batch, queue[0]);
      NetApply(View(w.buffer), queue[0], u);
      NetConcat([queue[0]], queue[1..], u);
      assert [queue[0]] + queue[1..] == queue;
      SumReplace(w.requests, i, Step(w, Exec(i)).requests[i], q => Due(q, u));
    }
  }

  lemma TopUpAddsBalance(w: World, v: int, amount: int, u: int)
    requires u in w.buffer.db.users
    ensures u in Step(w, TopUp(v, amount)).buffer.db.users
    ensures Balance(Step(w, TopUp(v, amount)), u) == Balance(w, u) + ToppedUp(TopUp(v, amount), u)
  {
    var r := Record(USER_QUOTA, v, amount);
    EmitView(w.buffer, w.batch, r);
    NetApply(View(w.buffer), r, u);
    NetOne(r, u);
  }

  lemma ConservationStep(w: World, e: Event, u: int)
    requires Inv(w) && u in w.buffer.db.users
    ensures u in Step(w, e).buffer.db.users
    ensures Balance(Step(w, e), u) == Balance(w, u) + ToppedUp(e, u)
  {
    StepKeepsShape(w, e);
    match e
    case Worker(b) =>
      if !b.Add? { ViewOfStep(w.buffer, b); }
    case TopUp(v, amount) =>
      TopUpAddsBalance(w, v, amount, u);
    case ResetMonthly =>
      ResetView(w);
    case Exec(i) =>
      ExecKeepsBalance(w, i, u);
    case _ =>
      DecisionKeepsDue(w, e, u);
  }

  function TopUps(es: seq<Event>, u: int): int {
    if es == [] then 0 else TopUps(es[..|es| - 1], u) + ToppedUp(es[|es| - 1], u)
  }

  /**
   Over any interleaving of text, audio and image requests with the batch worker, a user's quota
   plus used quota plus what live requests hold is the initial amount plus the top-ups.
   */
  lemma {:induction false} Conservation(w: World, es: seq<Event>, u: int)
    requires Inv(w) && u in w.buffer.db.users
    ensures Inv(Run(w, es)) && u in Run(w, es).buffer.db.users
    ensures Balance(Run(w, es), u) == Balance(w, u) + TopUps(es, u)
  {
    if es != [] {
      var before, e := es[..|es| - 1], es[|es| - 1];
      Conservation(w, before, u);
      StepKeepsInv(Run(w, before), e);
      ConservationStep(Run(w, before), e, u);
    }
  }
}
