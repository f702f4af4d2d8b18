/** Double entry: what channels have used is what users have used; and the limit of a token. */
module DoubleEntry {
  import opened Ledger
  import opened Requests
  import opened Conservation

  // ---------------------------------------------------------------- sums over a column

  ghost function SumValues(m: map<int, int>): int {
    if forall k :: k !in m then 0 else var k :| k in m; m[k] + SumValues(m - {k})
  }

  /** The sum does not depend on the entry taken first. */
  lemma {:induction false} SumValuesTake(m: map<int, int>, k: int)
    requires k in m
    ensures SumValues(m) == m[k] + SumValues(m - {k})
    decreases |m|
  {
    var first :| first in m && SumValues(m) == m[first] + SumValues(m - {first});
    if first != k {
      SumValuesTake(m - {first}, k);
      SumValuesTake(m - {k}, first);
      assert m - {first} - {k} == m - {k} - {first};
    }
  }

  lemma SumValuesUpdate(m: map<int, int>, k: int, v: int)
    requires k in m
    ensures SumValues(m[k := v]) == SumValues(m) - m[k] + v
  {
    SumValuesTake(m, k);
    SumValuesTake(m[k := v], k);
    assert m[k := v] - {k} == m - {k};
  }

  function UsersUsed(users: map<int, User>): map<int, int> {
    map id | id in users :: users[id].usedQuota
  }

  function ChannelsUsed(channels: map<int, ChannelUsage>): map<int, int> {
    map id | id in channels :: channels[id].usedQuota
  }

  /** Sum of used quota over channels minus sum of used quota over users. */
  ghost function BookGap(db: Db): int {
    SumValues(ChannelsUsed(db.channels)) - SumValues(UsersUsed(db.users))
  }

  // ---------------------------------------------------------------- the records

  /** What a record adds to the gap. */
  function Skew(r: Record): int {
    if r.kind == CHANNEL_USED_QUOTA then r.value else if r.kind == USED_QUOTA then -r.value else 0
  }

  function TotalSkew(rs: seq<Record>): int {
    if rs == [] then 0 else TotalSkew(rs[..|rs| - 1]) + Skew(rs[|rs| - 1])
  }

  lemma {:induction false} TotalSkewConcat(rs: seq<Record>, ss: seq<Record>)
    ensures TotalSkew(rs + ss) == TotalSkew(rs) + TotalSkew(ss)
  {
    if ss == [] {
      assert rs + ss == rs;
    } else {
      assert (rs + ss)[..|rs + ss| - 1] == rs + ss[..|ss| - 1];
      TotalSkewConcat(rs, ss[..|ss| - 1]);
    }
  }

  lemma TotalSkewOne(r: Record)
    ensures TotalSkew([r]) == Skew(r)
  {
    assert [r][..|[r]| - 1] == [];
  }

  lemma UsageIsBalanced(userId: int, channelId: int, quota: int)
    ensures TotalSkew(Usage(userId, channelId, quota)) == 0
  {
    var a, b, c := Record(USED_QUOTA, userId, quota),
        Record(REQUEST_COUNT, userId, 1), Record(CHANNEL_USED_QUOTA, channelId, quota);
    var rest := [b] + [c];
    assert Usage(userId, channelId, quota) == [a] + rest;
    TotalSkewConcat([a], rest);
    TotalSkewConcat([b], [c]);
    TotalSkewOne(a);
    TotalSkewOne(b);
    TotalSkewOne(c);
  }

  /** Every list of records a request decides on books users and channels alike. */
  lemma DecisionsAreBalanced(tokens: map<int, Token>, q: Request, quota: int, pre: int)
    ensures TotalSkew(Settlement(tokens, q, quota)) == 0
    ensures TotalSkew(Refund(tokens, q)) == 0
    ensures q.tokenId in tokens ==> TotalSkew(PreConsume(tokens, q.tokenId, pre)) == 0
  {
    UsageIsBalanced(q.userId, q.channelId, quota);
    QuotaOnly(PostConsume(tokens, q.tokenId, quota - q.hold));
    QuotaOnly(PostConsume(tokens, q.tokenId, -q.hold));
    if q.tokenId in tokens { QuotaOnly(PreConsume(tokens, q.tokenId, pre)); }
    TotalSkewConcat(PostConsume(tokens, q.tokenId, quota - q.hold), Usage(q.userId, q.channelId, quota));
    assert PostConsume(tokens, q.tokenId, quota - q.hold) + [] == PostConsume(tokens, q.tokenId, quota - q.hold);
  }

  lemma {:induction false} QuotaOnly(rs: seq<Record>)
    requires forall r :: r in rs ==> r.kind == USER_QUOTA || r.kind == TOKEN_QUOTA
    ensures TotalSkew(rs) == 0
  {
    if rs != [] { QuotaOnly(rs[..|rs| - 1]); }
  }

  lemma SumChannels(channels: map<int, ChannelUsage>, r: Record)
    requires r.id in channels && r.kind == CHANNEL_USED_QUOTA
    ensures SumValues(ChannelsUsed(ApplyToChannels(channels, r))) == SumValues(ChannelsUsed(channels)) + r.value
  {
    var v := channels[r.id].usedQuota + r.value;
    assert ChannelsUsed(ApplyToChannels(channels, r)) == ChannelsUsed(channels)[r.id := v];
    SumValuesUpdate(ChannelsUsed(channels), r.id, v);
  }

  lemma SumUsers(users: map<int, User>, r: Record)
    requires r.id in users
    ensures SumValues(UsersUsed(ApplyToUsers(users, r)))
         == SumValues(UsersUsed(users)) + if r.kind == USED_QUOTA then r.value else 0
  {
    var v := users[r.id].usedQuota + if r.kind == USED_QUOTA then r.value else 0;
    assert UsersUsed(ApplyToUsers(users, r)) == UsersUsed(users)[r.id := v];
    SumValuesUpdate(UsersUsed(users), r.id, v);
  }

  lemma ApplySkew(db: Db, r: Record)
    requires Refers(db, r) || r.kind == USER_QUOTA
    ensures BookGap(Apply(db, r)) == BookGap(db) + Skew(r)
  {
    if r.kind == CHANNEL_USED_QUOTA {
      SumChannels(db.channels, r);
    } else if r.id in db.users {
      SumUsers(db.users, r);
    }
  }

  // ---------------------------------------------------------------- over a run

  /** The gap in the view, plus what live requests have still to book. */
  ghost function Gap(w: World): int {
    BookGap(View(w.buffer)) + SumOf(w.requests, (q: Request) => TotalSkew(q.queue))
  }

  lemma EmitGap(s: Buffer, batch: bool, r: Record, after: Buffer)
    requires Refers(s.db, r) || r.kind == USER_QUOTA
    requires after == Emit(s, batch, r)
    ensures BookGap(View(after)) == BookGap(View(s)) + Skew(r)
  {
    EmitView(s, batch, r);
    assert Refers(View(s), r) || r.kind == USER_QUOTA;
    ApplySkew(View(s), r);
  }

  lemma ExecSkew(qs: seq<Request>, i: nat)
    requires i < |qs| && qs[i].queue != []
    ensures SumOf(qs[i := qs[i].(queue := qs[i].queue[1..])], (q: Request) => TotalSkew(q.queue))
         == SumOf(qs, (q: Request) => TotalSkew(q.queue)) - Skew(qs[i].queue[0])
  {
    var queue := qs[i].queue;
    TotalSkewConcat([queue[0]], queue[1..]);
    TotalSkewOne(queue[0]);
    assert [queue[0]] + queue[1..] == queue;
    SumReplace(qs, i, qs[i].(queue := queue[1..]), (q: Request) => TotalSkew(q.queue));
  }

  lemma ExecKeepsGap(w: World, i: nat, after: World)
    requires Inv(w) && i < |w.requests| && w.requests[i].queue != []
    requires after == Step(w, Exec(i))
    ensures Gap(after) == Gap(w)
  {
    var r := w.requests[i].queue[0];
    IssuedRefers(w, i);
    EmitGap(w.buffer, w.batch, r, after.buffer);
    ExecSkew(w.requests, i);
  }

  lemma IssuedRefers(w: World, i: nat)
    requires Inv(w) && i < |w.requests| && w.requests[i].queue != []
    ensures Refers(w.buffer.db, w.requests[i].queue[0])
  {
    assert Sound(w.buffer.db, w.requests[i]) && w.requests[i].queue[0] in w.requests[i].queue;
  }

  lemma StartKeepsGap(w: World, e: Event, after: World)
    requires Inv(w) && e.Start? && MayStart(w.buffer.db, e)
    requires after == w.(requests := w.requests + [Started(w.buffer.db, e)])
    ensures Gap(after) == Gap(w)
  {
    DecisionsAreBalanced(w.buffer.db.tokens, Started(w.buffer.db, e), 0, e.pre);
    StartedSkew(w.requests, Started(w.buffer.db, e));
  }

  lemma DecisionKeepsGap(w: World, i: nat, after: World, queue: seq<Record>)
    requires Inv(w) && Decides(w, i) && TotalSkew(queue) == 0
    requires after == w.(requests := w.requests[i := w.requests[i].(waiting := false, hold := 0, queue := queue)])
    ensures Gap(after) == Gap(w)
  {
    assert TotalSkew(w.requests[i].queue) == 0;
    DecidedSkew(w.requests, i, after.requests[i]);
  }

  lemma StartedSkew(qs: seq<Request>, q: Request)
    requires TotalSkew(q.queue) == 0
    ensures SumOf(qs + [q], (p: Request) => TotalSkew(p.queue)) == SumOf(qs, (p: Request) => TotalSkew(p.queue))
  {
    SumAppend(qs, q, (p: Request) => TotalSkew(p.queue));
  }

  lemma DecidedSkew(qs: seq<Request>, i: nat, q: Request)
    requires i < |qs| && TotalSkew(qs[i].queue) == 0 && TotalSkew(q.queue) == 0
    ensures SumOf(qs[i := q], (p: Request) => TotalSkew(p.queue)) == SumOf(qs, (p: Request) => TotalSkew(p.queue))
  {
    SumReplace(qs, i, q, (p: Request) => TotalSkew(p.queue));
  }

  lemma ResetKeepsGap(w: World, after: World)
    requires after == Step(w, ResetMonthly)
    ensures Gap(after) == Gap(w)
  {
    ResetView(w);
    SameGap(w, after);
  }

  lemma WorkerKeepsGap(w: World, b: BufferEvent, after: World)
    requires after == Step(w, Worker(b))
    ensures Gap(after) == Gap(w)
  {
    if !b.Add? { ViewOfStep(w.buffer, b); }
    SameGap(w, after);
  }

  lemma TopUpKeepsGap(w: World, u: int, amount: int, after: World)
    requires amount >= 0
    requires after == Step(w, TopUp(u, amount))
    ensures Gap(after) == Gap(w)
  {
    EmitGap(w.buffer, w.batch, Record(USER_QUOTA, u, amount), after.buffer);
    SameGap(w, after);
  }

  lemma SameGap(w: World, after: World)
    requires after.requests == w.requests
    ensures Gap(after) - BookGap(View(after.buffer)) == Gap(w) - BookGap(View(w.buffer))
  {
  }

  lemma GapStep(w: World, e: Event, after: World)
    requires Inv(w) && after == Step(w, e)
    ensures Gap(after) == Gap(w)
  {
    if e.Worker? {
      WorkerKeepsGap(w, e.e, after);
    } else if e.TopUp? {
      if e.amount >= 0 { TopUpKeepsGap(w, e.userId, e.amount, after); }
    } else if e.ResetMonthly? {
      ResetKeepsGap(w, after);
    } else if e.Exec? {
      if 0 <= e.i < |w.requests| && w.requests[e.i].queue != [] { ExecKeepsGap(w, e.i, after); }
    } else if e.Start? {
      if MayStart(w.buffer.db, e) { StartKeepsGap(w, e, after); }
    } else if Decides(w, e.i) {
      EndKeepsGap(w, e, after);
    }
  }

  lemma EndKeepsGap(w: World, e: Event, after: World)
    requires Inv(w) && (e.Fail? || e.Settle?) && Decides(w, e.i) && after == Step(w, e)
    ensures Gap(after) == Gap(w)
  {
    var tokens, q := w.buffer.db.tokens, w.requests[e.i];
    DecisionsAreBalanced(tokens, q, if e.Settle? then e.quota else 0, 0);
    DecisionKeepsGap(w, e.i, after, if e.Settle? then Settlement(tokens, q, e.quota) else Refund(tokens, q));
  }

  lemma {:induction false} GapKept(w: World, es: seq<Event>)
    requires Inv(w)
    ensures Inv(Run(w, es)) && Gap(Run(w, es)) == Gap(w)
  {
    if es != [] {
      var before, e := es[..|es| - 1], es[|es| - 1];
      GapKept(w, before);
      StepKeepsInv(Run(w, before), e);
      GapStep(Run(w, before), e, Run(w, es));
    }
  }

  /** No request is half way through its records. */
  ghost predicate Quiet(w: World) {
    forall q :: q in w.requests ==> q.queue == []
  }

  lemma {:induction false} QuietSkew(qs: seq<Request>)
    requires forall q :: q in qs ==> q.queue == []
    ensures SumOf(qs, (q: Request) => TotalSkew(q.queue)) == 0
  {
    if qs != [] { QuietSkew(qs[..|qs| - 1]); }
  }

  /**
   Double entry in the database itself: between two moments at which the buffer is drained and no
   request is half way, the sum over channels moved exactly as much as the sum over users, in
   direct mode and in batch mode.
   */
  lemma DoubleEntryAtRest(w: World, es: seq<Event>)
    requires Inv(w) && Quiet(w) && Drained(w.buffer)
    requires Quiet(Run(w, es)) && Drained(Run(w, es).buffer)
    ensures SumValues(ChannelsUsed(Run(w, es).buffer.db.channels)) - SumValues(ChannelsUsed(w.buffer.db.channels))
         == SumValues(UsersUsed(Run(w, es).buffer.db.users)) - SumValues(UsersUsed(w.buffer.db.users))
  {
    GapKept(w, es);
    DrainedView(w.buffer);
    DrainedView(Run(w, es).buffer);
    QuietSkew(w.requests);
    QuietSkew(Run(w, es).requests);
  }

  /** What live requests hold for a user. */
  function Held(qs: seq<Request>, u: int): int {
    SumOf(qs, (q: Request) => if q.userId == u then q.hold else 0)
  }

  lemma {:induction false} QuietDue(qs: seq<Request>, u: int)
    requires forall q :: q in qs ==> q.queue == []
    ensures SumOf(qs, q => Due(q, u)) == Held(qs, u)
  {
    if qs != [] { QuietDue(qs[..|qs| - 1], u); }
  }

  /** Conservation in the database itself: quota + used quota + what waiting requests hold. */
  lemma ConservationAtRest(w: World, es: seq<Event>, u: int)
    requires Inv(w) && w.requests == [] && Drained(w.buffer) && u in w.buffer.db.users
    requires Quiet(Run(w, es)) && Drained(Run(w, es).buffer)
    ensures u in Run(w, es).buffer.db.users
    ensures var before, after := w.buffer.db.users[u], Run(w, es).buffer.db.users[u];
      after.quota + after.usedQuota + Held(Run(w, es).requests, u) == before.quota + before.usedQuota + TopUps(es, u)
  {
    Conservation.Conservation(w, es, u);
    DrainedView(w.buffer);
    DrainedView(Run(w, es).buffer);
    QuietDue(Run(w, es).requests, u);
  }

  // ---------------------------------------------------------------- the limit of a token

  function Limit(db: Db, id: int): int
    requires id in db.tokens
  {
    db.tokens[id].remainQuota + db.tokens[id].usedQuota
  }

  /**
   remain + used of a token never moves, in the database itself and at every moment of any run
   without a monthly reset: not by consuming, settling, refunding, nor by the batch worker.
   */
  lemma {:induction false} LimitKept(w: World, es: seq<Event>, id: int)
    requires id in w.buffer.db.tokens
    requires ResetMonthly !in es
    ensures id in Run(w, es).buffer.db.tokens
    ensures Limit(Run(w, es).buffer.db, id) == Limit(w.buffer.db, id)
    ensures Run(w, es).buffer.db.tokens[id].unlimited == w.buffer.db.tokens[id].unlimited
  {
    if es != [] {
      var before, e := es[..|es| - 1], es[|es| - 1];
      LimitKept(w, before, id);
      assert e in es;
      LimitStep(Run(w, before), e, id);
    }
  }

  lemma LimitStep(w: World, e: Event, id: int)
    requires id in w.buffer.db.tokens && e != ResetMonthly
    ensures id in Step(w, e).buffer.db.tokens
    ensures Limit(Step(w, e).buffer.db, id) == Limit(w.buffer.db, id)
    ensures Step(w, e).buffer.db.tokens[id].unlimited == w.buffer.db.tokens[id].unlimited
  {
    if e.Worker? && !e.e.Add? {
      TokenLimitKept(w.buffer, e.e, id);
    } else if e.Exec? && 0 <= e.i < |w.requests| && w.requests[e.i].queue != [] && w.batch {
      TokenLimitKept(w.buffer, Add(w.requests[e.i].queue[0]), id);
    }
  }
}
