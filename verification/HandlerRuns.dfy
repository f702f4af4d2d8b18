/**
 The request handlers are runs of the request machine: what they promise about the ledger is what the
 machine reaches when a request is left alone, so everything proved about runs holds for them.
 */
module HandlerRuns {
  import opened Ledger
  import opened Requests
  import opened Conservation
  import opened Store
  import opened Options
  import opened Billing
  import opened Handlers

  function Times(e: Event, n: nat): seq<Event> {
    seq(n, _ => e)
  }

  lemma {:induction false} RunConcat(w: World, a: seq<Event>, b: seq<Event>)
    ensures Run(w, a + b) == Run(Run(w, a), b)
  {
    if b == [] {
      assert a + b == a;
    } else {
      assert (a + b)[..|a + b| - 1] == a + b[..|b| - 1];
      RunConcat(w, a, b[..|b| - 1]);
    }
  }

  lemma RunOne(w: World, e: Event)
    ensures Run(w, [e]) == Step(w, e)
  {
    assert [e][..0] == [];
  }

  /** A request left alone issues the first n records of its queue. */
  lemma {:induction false} ExecAll(w: World, i: nat, n: nat)
    requires i < |w.requests| && n <= |w.requests[i].queue|
    ensures var after := Run(w, Times(Exec(i), n));
      && after.buffer == EmitAll(w.buffer, w.batch, w.requests[i].queue[..n])
      && after.batch == w.batch
      && after.requests == w.requests[i := w.requests[i].(queue := w.requests[i].queue[n..])]
  {
    var queue := w.requests[i].queue;
    if n == 0 {
      assert w.requests[i].(queue := queue[0..]) == w.requests[i];
    } else {
      ExecAll(w, i, n - 1);
      assert Times(Exec(i), n)[..n - 1] == Times(Exec(i), n - 1);
      assert queue[..n][..n - 1] == queue[..n - 1];
      ExecOne(Run(w, Times(Exec(i), n - 1)), i, queue[n - 1..], queue[n..]);
    }
  }

  lemma ExecOne(w: World, i: nat, queue: seq<Record>, rest: seq<Record>)
    requires i < |w.requests| && w.requests[i].queue == queue && queue != [] && rest == queue[1..]
    ensures Step(w, Exec(i))
         == w.(buffer := Emit(w.buffer, w.batch, queue[0]), requests := w.requests[i := w.requests[i].(queue := rest)])
  {
  }

  // ---------------------------------------------------------------- one request, from start to end

  /** How a request ends: failed, or settled at a quota. */
  datatype End = Failing | Settling(quota: int)

  function EndEvent(i: nat, end: End): Event {
    if end.Failing? then Fail(i) else Settle(i, end.quota)
  }

  /** The records it decides on at its end. */
  function EndRecords(tokens: map<int, Token>, q: Request, end: End): seq<Record> {
    if end.Failing? then Refund(tokens, q) else Settlement(tokens, q, end.quota)
  }

  /** Start, issue what is taken in advance, end, issue the rest; `i` is the place it is given. */
  function RequestEvents(db: Db, i: nat, start: Event, end: End): seq<Event>
    requires start.Start? && MayStart(db, start)
  {
    var q := Started(db, start);
    [start] + Times(Exec(i), |q.queue|) + ([EndEvent(i, end)] + Times(Exec(i), |EndRecords(db.tokens, q, end)|))
  }

  /** A request that runs to its end alone issues exactly these records, and leaves nothing outstanding. */
  lemma RequestRun(w: World, start: Event, end: End)
    requires start.Start? && MayStart(w.buffer.db, start)
    ensures var q := Started(w.buffer.db, start);
      Run(w, RequestEvents(w.buffer.db, |w.requests|, start, end))
        == World(EmitAll(w.buffer, w.batch, q.queue + EndRecords(w.buffer.db.tokens, q, end)), w.batch,
                 w.requests + [q.(waiting := false, hold := 0, queue := [])])
  {
    var i, q := |w.requests|, Started(w.buffer.db, start);
    var records := EndRecords(w.buffer.db.tokens, q, end);
    RunConcat(w, [start] + Times(Exec(i), |q.queue|), [EndEvent(i, end)] + Times(Exec(i), |records|));
    StartRun(w, start, q, i);
    var taken := World(EmitAll(w.buffer, w.batch, q.queue), w.batch, w.requests + [q.(queue := [])]);
    EndRun(taken, w.buffer.db, q, i, end, records);
    EmitAllConcat(w.buffer, w.batch, q.queue, records);
    LastReplaced(w.requests, q.(queue := []), q.(waiting := false, hold := 0, queue := []));
  }

  lemma LastReplaced(qs: seq<Request>, q: Request, r: Request)
    ensures (qs + [q])[|qs| := r] == qs + [r]
  {
  }

  /** The whole queue. */
  lemma ExecWhole(w: World, i: nat, queue: seq<Record>)
    requires i < |w.requests| && w.requests[i].queue == queue
    ensures Run(w, Times(Exec(i), |queue|))
         == World(EmitAll(w.buffer, w.batch, queue), w.batch, w.requests[i := w.requests[i].(queue := [])])
  {
    ExecAll(w, i, |queue|);
    assert queue[..|queue|] == queue && queue[|queue|..] == [];
  }

  lemma StartRun(w: World, start: Event, q: Request, i: nat)
    requires start.Start? && MayStart(w.buffer.db, start)
    requires q == Started(w.buffer.db, start) && i == |w.requests|
    ensures Run(w, [start] + Times(Exec(i), |q.queue|))
         == World(EmitAll(w.buffer, w.batch, q.queue), w.batch, w.requests + [q.(queue := [])])
    ensures SameShape(w.buffer.db, EmitAll(w.buffer, w.batch, q.queue).db)
  {
    RunConcat(w, [start], Times(Exec(i), |q.queue|));
    RunOne(w, start);
    ExecWhole(Step(w, start), i, q.queue);
    assert (w.requests + [q])[i := q.(queue := [])] == w.requests + [q.(queue := [])];
    EmitAllShape(w.buffer, w.batch, q.queue);
  }

  /** The decision is the one that would have been made at the start: token rows keep their shape. */
  lemma EndStep(w: World, db: Db, q: Request, i: nat, end: End)
    requires i < |w.requests| && w.requests[i] == q.(queue := []) && q.waiting
    requires SameShape(db, w.buffer.db)
    ensures Step(w, EndEvent(i, end))
         == w.(requests := w.requests[i := q.(waiting := false, hold := 0, queue := EndRecords(db.tokens, q, end))])
  {
    assert forall id :: id in db.tokens.Keys ==>
      db.tokens[id].userId == w.buffer.db.tokens[id].userId
      && db.tokens[id].unlimited == w.buffer.db.tokens[id].unlimited;
    PlanKept(db.tokens, w.buffer.db.tokens, q, if end.Failing? then 0 else end.quota);
  }

  lemma EndRun(w: World, db: Db, q: Request, i: nat, end: End, records: seq<Record>)
    requires i < |w.requests| && w.requests[i] == q.(queue := []) && q.waiting
    requires SameShape(db, w.buffer.db) && records == EndRecords(db.tokens, q, end)
    ensures Run(w, [EndEvent(i, end)] + Times(Exec(i), |records|))
         == World(EmitAll(w.buffer, w.batch, records), w.batch,
                  w.requests[i := q.(waiting := false, hold := 0, queue := [])])
  {
    RunConcat(w, [EndEvent(i, end)], Times(Exec(i), |records|));
    RunOne(w, EndEvent(i, end));
    EndStep(w, db, q, i, end);
    ExecWhole(Step(w, EndEvent(i, end)), i, records);
  }

  // ---------------------------------------------------------------- the three handlers

  function StartOf(caller: Caller, channelId: int, text: bool, hold: int): Event {
    Start(caller.userId, caller.tokenId, channelId, text, hold)
  }

  /** RelayAudioHelper, once past its quota checks: the machine reaches the ledger it promises. */
  lemma AudioIsRun(w: World, caller: Caller, channelId: int, hold: int, charge: int, answer: AudioAnswer)
    requires MayStart(w.buffer.db, StartOf(caller, channelId, false, hold))
    ensures var end := if answer.AudioBroken? then Failing else Settling(charge);
      Run(w, RequestEvents(w.buffer.db, |w.requests|, StartOf(caller, channelId, false, hold), end)).buffer
        == EmitAll(w.buffer, w.batch,
                   AudioRecords(w.buffer.db.tokens, MediaRequest(caller, channelId, hold), charge, answer))
  {
    var end := if answer.AudioBroken? then Failing else Settling(charge);
    RequestRun(w, StartOf(caller, channelId, false, hold), end);
    AudioRecordsOfRun(w.buffer.db, caller, channelId, hold, charge, answer, end);
  }

  lemma AudioRecordsOfRun(db: Db, caller: Caller, channelId: int, hold: int, charge: int, answer: AudioAnswer, end: End)
    requires MayStart(db, StartOf(caller, channelId, false, hold))
    requires end == if answer.AudioBroken? then Failing else Settling(charge)
    ensures var q := Started(db, StartOf(caller, channelId, false, hold));
      q.queue + EndRecords(db.tokens, q, end)
        == AudioRecords(db.tokens, MediaRequest(caller, channelId, hold), charge, answer)
  {
  }

  /** RelayImageHelper, when it settles. */
  lemma ImageIsRun(w: World, caller: Caller, channelId: int, quota: int)
    requires MayStart(w.buffer.db, StartOf(caller, channelId, false, 0))
    ensures Run(w, RequestEvents(w.buffer.db, |w.requests|,
             StartOf(caller, channelId, false, 0), Settling(quota))).buffer
         == EmitAll(w.buffer, w.batch, Settlement(w.buffer.db.tokens, MediaRequest(caller, channelId, 0), quota))
  {
    RequestRun(w, StartOf(caller, channelId, false, 0), Settling(quota));
    var records := Settlement(w.buffer.db.tokens, MediaRequest(caller, channelId, 0), quota);
    assert [] + records == records;
  }

  /** Relay over a text request whose last attempt answers with usage; any other run issues nothing. */
  lemma TextIsRun(w: World, caller: Caller, channelId: int, tariff: Tariff, usage: (nat, nat))
    requires MayStart(w.buffer.db, StartOf(caller, channelId, true, 0))
    ensures var quota := TextQuota(tariff.channel, tariff.model, usage.0, usage.1);
      Run(w, RequestEvents(w.buffer.db, |w.requests|, StartOf(caller, channelId, true, 0), Settling(quota))).buffer
        == EmitAll(w.buffer, w.batch, TextRecords(w.buffer.db.tokens, caller, channelId, tariff, Some(usage)))
  {
    RequestRun(w, StartOf(caller, channelId, true, 0),
               Settling(TextQuota(tariff.channel, tariff.model, usage.0, usage.1)));
    var records := TextRecords(w.buffer.db.tokens, caller, channelId, tariff, Some(usage));
    assert [] + records == records;
  }

  // ---------------------------------------------------------------- what runs keep, they keep

  lemma {:induction false} NoTopUps(es: seq<Event>, u: int)
    requires forall e :: e in es ==> !e.TopUp?
    ensures TopUps(es, u) == 0
  {
    if es != [] { NoTopUps(es[..|es| - 1], u); }
  }

  /** A whole request moves quota into used quota and loses nothing of either, for every user. */
  lemma RequestConserves(w: World, start: Event, end: End, u: int)
    requires Inv(w) && u in w.buffer.db.users
    requires start.Start? && MayStart(w.buffer.db, start)
    ensures var after := Run(w, RequestEvents(w.buffer.db, |w.requests|, start, end));
      u in after.buffer.db.users
      && var row, was := View(after.buffer).users[u], View(w.buffer).users[u];
      row.quota + row.usedQuota == was.quota + was.usedQuota
  {
    var es := RequestEvents(w.buffer.db, |w.requests|, start, end);
    BalanceKept(w, es, u, Run(w, es));
    RequestRun(w, start, end);
    SameBalance(w, Run(w, es), Started(w.buffer.db, start).(waiting := false, hold := 0, queue := []), u);
  }

  lemma BalanceKept(w: World, es: seq<Event>, u: int, after: World)
    requires Inv(w) && u in w.buffer.db.users && after == Run(w, es)
    requires forall e :: e in es ==> !e.TopUp?
    ensures u in after.buffer.db.users && Balance(after, u) == Balance(w, u)
  {
    Conservation.Conservation(w, es, u);
    NoTopUps(es, u);
  }

  lemma SameBalance(w: World, after: World, done: Request, u: int)
    requires u in w.buffer.db.users && u in after.buffer.db.users && Balance(after, u) == Balance(w, u)
    requires after.requests == w.requests + [done] && done.hold == 0 && done.queue == []
    ensures View(after.buffer).users[u].quota + View(after.buffer).users[u].usedQuota
         == View(w.buffer).users[u].quota + View(w.buffer).users[u].usedQuota
  {
    DoneIsNotDue(w.requests, done, u);
  }

  lemma DoneIsNotDue(qs: seq<Request>, done: Request, u: int)
    requires done.hold == 0 && done.queue == []
    ensures SumOf(qs + [done], q => Due(q, u)) == SumOf(qs, q => Due(q, u))
  {
    SumAppend(qs, done, q => Due(q, u));
  }
}
