/**
 The quota ledger and its write-behind buffer (model/utils.go and the quota columns of
 model/token.go, model/user.go, model/channel.go).

 Every counter update is a `Record`: add `value` to one counter of one row.  In direct mode a
 record is one UPDATE statement.  In batch mode it is added to a pending store; a worker swaps
 one store out and applies its entries one by one, in any order, while new records arrive.
 */
module Ledger {

  // The update types, numbered as in the source.
  const BATCH_UPDATE_TYPE_COUNT := 5
  type Kind = k: int | 0 <= k < 5
  const USER_QUOTA: Kind := 0
  const TOKEN_QUOTA: Kind := 1
  const USED_QUOTA: Kind := 2
  const CHANNEL_USED_QUOTA: Kind := 3
  const REQUEST_COUNT: Kind := 4

  datatype User = User(quota: int, usedQuota: int, requestCount: int)
  datatype Token = Token(userId: int, remainQuota: int, usedQuota: int, unlimited: bool, monthlyQuota: int)
  datatype ChannelUsage = ChannelUsage(usedQuota: int)
  datatype Db = Db(users: map<int, User>, tokens: map<int, Token>, channels: map<int, ChannelUsage>)

  datatype Record = Record(kind: Kind, id: int, value: int)

  // One UPDATE ... WHERE id = ?; it touches nothing when the row does not exist.

  function ApplyToUsers(users: map<int, User>, r: Record): map<int, User> {
    if r.id !in users then users
    else
      var u := users[r.id];
      if r.kind == USER_QUOTA then users[r.id := u.(quota := u.quota + r.value)]
      else if r.kind == USED_QUOTA then users[r.id := u.(usedQuota := u.usedQuota + r.value)]
      else if r.kind == REQUEST_COUNT then users[r.id := u.(requestCount := u.requestCount + r.value)]
      else users
  }

  function ApplyToTokens(tokens: map<int, Token>, r: Record): map<int, Token> {
    if r.id !in tokens || r.kind != TOKEN_QUOTA then tokens
    else
      var t := tokens[r.id];
      tokens[r.id := t.(remainQuota := t.remainQuota + r.value, usedQuota := t.usedQuota - r.value)]
  }

  function ApplyToChannels(channels: map<int, ChannelUsage>, r: Record): map<int, ChannelUsage> {
    if r.id !in channels || r.kind != CHANNEL_USED_QUOTA then channels
    else channels[r.id := ChannelUsage(channels[r.id].usedQuota + r.value)]
  }

  function Apply(db: Db, r: Record): Db {
    Db(ApplyToUsers(db.users, r), ApplyToTokens(db.tokens, r), ApplyToChannels(db.channels, r))
  }

  /** Direct mode: the records, applied in the order they are issued. */
  function DirectRun(db: Db, rs: seq<Record>): Db {
    if rs == [] then db else Apply(DirectRun(db, rs[..|rs| - 1]), rs[|rs| - 1])
  }

  // ---------------------------------------------------------------- the buffer

  type Pending = map<int, int>
  type Stores = s: seq<Pending> | |s| == 5 witness [map[], map[], map[], map[], map[]]
  const NO_STORES: Stores := [map[], map[], map[], map[], map[]]

  function Get(p: Pending, id: int): int {
    if id in p then p[id] else 0
  }

  function AddTo(p: Pending, id: int, value: int): Pending {
    p[id := Get(p, id) + value]
  }

  /** The database, the five pending stores, and the worker's snapshot of one of them. */
  datatype Buffer = Buffer(db: Db, stores: Stores, snapshotKind: Kind, snapshot: Pending)

  /**
   The atomic steps: a request adds a record under the store's lock, the worker swaps a store
   out, the worker applies one entry of its snapshot.  A step that is not enabled does nothing.
   */
  datatype BufferEvent = Add(r: Record) | Swap(kind: Kind) | ApplyEntry(key: int)

  function BufferStep(s: Buffer, e: BufferEvent): Buffer {
    match e
    case Add(r) => s.(stores := s.stores[r.kind := AddTo(s.stores[r.kind], r.id, r.value)])
    case Swap(k) =>
      if s.snapshot != map[] then s
      else s.(snapshotKind := k, snapshot := s.stores[k], stores := s.stores[k := map[]])
    case ApplyEntry(key) =>
      if key !in s.snapshot then s
      else s.(db := Apply(s.db, Record(s.snapshotKind, key, s.snapshot[key])), snapshot := s.snapshot - {key})
  }

  function BufferRun(s: Buffer, es: seq<BufferEvent>): Buffer {
    if es == [] then s else BufferStep(BufferRun(s, es[..|es| - 1]), es[|es| - 1])
  }

  /** The records of a run, in the order they were added. */
  function Records(es: seq<BufferEvent>): seq<Record> {
    if es == [] then []
    else if es[|es| - 1].Add? then Records(es[..|es| - 1]) + [es[|es| - 1].r]
    else Records(es[..|es| - 1])
  }

  predicate Drained(s: Buffer) {
    s.snapshot == map[] && forall k: Kind :: s.stores[k] == map[]
  }

  // ---------------------------------------------------------------- the view

  // The tables with `delta(kind, id)` added to every counter.

  function ShiftUsers(users: map<int, User>, delta: (Kind, int) -> int): map<int, User> {
    map id | id in users ::
      User(users[id].quota + delta(USER_QUOTA, id),
           users[id].usedQuota + delta(USED_QUOTA, id),
           users[id].requestCount + delta(REQUEST_COUNT, id))
  }

  function ShiftTokens(tokens: map<int, Token>, delta: (Kind, int) -> int): map<int, Token> {
    map id | id in tokens ::
      tokens[id].(remainQuota := tokens[id].remainQuota + delta(TOKEN_QUOTA, id),
                  usedQuota := tokens[id].usedQuota - delta(TOKEN_QUOTA, id))
  }

  function ShiftChannels(channels: map<int, ChannelUsage>, delta: (Kind, int) -> int): map<int, ChannelUsage> {
    map id | id in channels :: ChannelUsage(channels[id].usedQuota + delta(CHANNEL_USED_QUOTA, id))
  }

  function Shift(db: Db, delta: (Kind, int) -> int): Db {
    Db(ShiftUsers(db.users, delta), ShiftTokens(db.tokens, delta), ShiftChannels(db.channels, delta))
  }

  /** What the buffer still owes to a counter: the in-flight share plus the pending share. */
  function Owed(s: Buffer, k: Kind, id: int): int {
    Get(s.stores[k], id) + if s.snapshotKind == k then Get(s.snapshot, id) else 0
  }

  /** Database value + in-flight snapshot + pending store, for every counter of every row. */
  function View(s: Buffer): Db {
    Shift(s.db, (k: Kind, id: int) => Owed(s, k, id))
  }

  lemma ShiftCongruence(db: Db, f: (Kind, int) -> int, g: (Kind, int) -> int)
    requires forall k: Kind, id: int :: f(k, id) == g(k, id)
    ensures Shift(db, f) == Shift(db, g)
  {
    assert forall k: Kind, id: int :: f(k, id) == g(k, id);
    assert ShiftUsers(db.users, f) == ShiftUsers(db.users, g);
    assert ShiftTokens(db.tokens, f) == ShiftTokens(db.tokens, g);
    assert ShiftChannels(db.channels, f) == ShiftChannels(db.channels, g);
  }

  /** What one record adds to a counter. */
  function At(r: Record, k: Kind, id: int): int {
    if r.kind == k && r.id == id then r.value else 0
  }

  lemma ApplyIsShift(db: Db, r: Record)
    ensures Apply(db, r) == Shift(db, (k: Kind, id: int) => At(r, k, id))
  {
    var f := (k: Kind, id: int) => At(r, k, id);
    assert ApplyToUsers(db.users, r) == ShiftUsers(db.users, f);
    assert ApplyToTokens(db.tokens, r) == ShiftTokens(db.tokens, f);
    assert ApplyToChannels(db.channels, r) == ShiftChannels(db.channels, f);
  }

  lemma ShiftTwice(db: Db, f: (Kind, int) -> int, g: (Kind, int) -> int, h: (Kind, int) -> int)
    requires forall k: Kind, id: int :: h(k, id) == f(k, id) + g(k, id)
    ensures Shift(Shift(db, f), g) == Shift(db, h)
  {
    assert forall k: Kind, id: int :: h(k, id) == f(k, id) + g(k, id);
    assert ShiftUsers(ShiftUsers(db.users, f), g) == ShiftUsers(db.users, h);
    assert ShiftTokens(ShiftTokens(db.tokens, f), g) == ShiftTokens(db.tokens, h);
    assert ShiftChannels(ShiftChannels(db.channels, f), g) == ShiftChannels(db.channels, h);
  }

  /** Shifting by one record more is one more UPDATE, before or after the shift. */
  lemma ShiftApply(db: Db, f: (Kind, int) -> int, g: (Kind, int) -> int, r: Record)
    requires forall k: Kind, id: int :: g(k, id) == f(k, id) + At(r, k, id)
    ensures Shift(db, g) == Apply(Shift(db, f), r)
    ensures Shift(Apply(db, r), f) == Shift(db, g)
  {
    var one := (k: Kind, id: int) => At(r, k, id);
    ApplyIsShift(db, r);
    ApplyIsShift(Shift(db, f), r);
    ShiftTwice(db, f, one, g);
    ShiftTwice(db, one, f, g);
  }

  // ---------------------------------------------------------------- refinement

  /** Adding a record changes the view exactly as the direct UPDATE would; the worker never changes it. */
  lemma ViewOfStep(s: Buffer, e: BufferEvent)
    ensures View(BufferStep(s, e)) == if e.Add? then Apply(View(s), e.r) else View(s)
  {
    var t := BufferStep(s, e);
    var f := (k: Kind, id: int) => Owed(s, k, id);
    var g := (k: Kind, id: int) => Owed(t, k, id);
    match e
    case Add(r) =>
      ShiftApply(s.db, f, g, r);
    case Swap(k) =>
      ShiftCongruence(s.db, f, g);
    case ApplyEntry(key) =>
      if key in s.snapshot {
        ShiftApply(s.db, g, f, Record(s.snapshotKind, key, s.snapshot[key]));
      }
  }

  lemma DirectRunAppend(db: Db, rs: seq<Record>, r: Record)
    ensures DirectRun(db, rs + [r]) == Apply(DirectRun(db, rs), r)
  {
    assert (rs + [r])[..|rs + [r]| - 1] == rs;
  }

  /** Refinement: after any interleaving, the view is the database direct mode would hold. */
  lemma {:induction false} BatchRefinesDirect(s: Buffer, es: seq<BufferEvent>)
    ensures View(BufferRun(s, es)) == DirectRun(View(s), Records(es))
  {
    if es != [] {
      var before, e := es[..|es| - 1], es[|es| - 1];
      BatchRefinesDirect(s, before);
      assert BufferRun(s, es) == BufferStep(BufferRun(s, before), e);
      ViewOfStep(BufferRun(s, before), e);
      if e.Add? {
        DirectRunAppend(View(s), Records(before), e.r);
      }
    }
  }

  lemma DrainedView(s: Buffer)
    requires Drained(s)
    ensures View(s) == s.db
  {
    assert forall k: Kind, id: int :: Owed(s, k, id) == 0;
  }

  // ---------------------------------------------------------------- order does not matter

  function Total(rs: seq<Record>, k: Kind, id: int): int {
    if rs == [] then 0
    else Total(rs[..|rs| - 1], k, id) + At(rs[|rs| - 1], k, id)
  }

  lemma {:induction false} TotalConcat(rs: seq<Record>, ss: seq<Record>, k: Kind, id: int)
    ensures Total(rs + ss, k, id) == Total(rs, k, id) + Total(ss, k, id)
  {
    if ss == [] {
      assert rs + ss == rs;
    } else {
      assert (rs + ss)[..|rs + ss| - 1] == rs + ss[..|ss| - 1];
      TotalConcat(rs, ss[..|ss| - 1], k, id);
    }
  }

  lemma {:induction false} DirectRunIsShift(db: Db, rs: seq<Record>)
    ensures DirectRun(db, rs) == Shift(db, (k: Kind, id: int) => Total(rs, k, id))
  {
    var g := (k: Kind, id: int) => Total(rs, k, id);
    if rs == [] {
      assert Shift(db, g) == db;
    } else {
      var before := rs[..|rs| - 1];
      DirectRunIsShift(db, before);
      ShiftApply(db, (k: Kind, id: int) => Total(before, k, id), g, rs[|rs| - 1]);
    }
  }

  /** The same, column by column and row by row. */
  lemma DirectRunColumns(db: Db, rs: seq<Record>)
    ensures var after := DirectRun(db, rs);
      && after.users.Keys == db.users.Keys && after.tokens.Keys == db.tokens.Keys
      && after.channels.Keys == db.channels.Keys
      && (forall id :: id in db.users.Keys ==>
            && after.users[id].quota == db.users[id].quota + Total(rs, 0, id)
            && after.users[id].usedQuota == db.users[id].usedQuota + Total(rs, 2, id)
            && after.users[id].requestCount == db.users[id].requestCount + Total(rs, 4, id))
      && (forall id :: id in db.tokens.Keys ==>
            && after.tokens[id].remainQuota == db.tokens[id].remainQuota + Total(rs, 1, id)
            && after.tokens[id].usedQuota == db.tokens[id].usedQuota - Total(rs, 1, id))
      && (forall id :: id in db.channels.Keys ==>
            after.channels[id].usedQuota == db.channels[id].usedQuota + Total(rs, 3, id))
  {
    DirectRunIsShift(db, rs);
  }

  lemma {:induction false} TotalRemove(rs: seq<Record>, i: nat, k: Kind, id: int)
    requires i < |rs|
    ensures Total(rs, k, id) == Total(rs[..i] + rs[i + 1..], k, id) + At(rs[i], k, id)
  {
    var rest := rs[..i] + rs[i + 1..];
    if i == |rs| - 1 {
      assert rest == rs[..i];
    } else {
      TotalRemove(rs[..|rs| - 1], i, k, id);
      assert rest[..|rest| - 1] == rs[..|rs| - 1][..i] + rs[..|rs| - 1][i + 1..];
    }
  }

  ghost function IndexOf<T>(s: seq<T>, x: T): (i: nat)
    requires x in multiset(s)
    ensures i < |s| && s[i] == x
  {
    var i :| 0 <= i < |s| && s[i] == x; i
  }

  lemma RemoveFromSeq<T>(s: seq<T>, i: nat)
    requires i < |s|
    ensures multiset(s[..i] + s[i + 1..]) == multiset(s) - multiset{s[i]}
  {
    assert s == s[..i] + ([s[i]] + s[i + 1..]);
  }

  lemma RemoveBoth<T>(s: seq<T>, t: seq<T>, i: nat)
    requires s != [] && multiset(s) == multiset(t) && i < |t| && t[i] == s[|s| - 1]
    ensures multiset(s[..|s| - 1]) == multiset(t[..i] + t[i + 1..])
  {
    RemoveFromSeq(t, i);
    RemoveFromSeq(s, |s| - 1);
    assert s[..|s| - 1] + s[|s|..] == s[..|s| - 1];
  }

  lemma {:induction false} TotalPermutation(rs: seq<Record>, ss: seq<Record>, k: Kind, id: int)
    requires multiset(rs) == multiset(ss)
    ensures Total(rs, k, id) == Total(ss, k, id)
    decreases |rs|
  {
    if rs == [] {
      assert |ss| == |multiset(ss)|;
    } else {
      var last := rs[|rs| - 1];
      assert last in multiset(ss);
      var i := IndexOf(ss, last);
      TotalRemove(ss, i, k, id);
      RemoveBoth(rs, ss, i);
      TotalPermutation(rs[..|rs| - 1], ss[..i] + ss[i + 1..], k, id);
    }
  }

  /**
   Whatever the interleaving of requests and worker, and whatever order direct mode would have
   issued the same updates in, the two databases are equal once the buffer is drained.
   */
  lemma DrainedBatchEqualsDirect(s: Buffer, es: seq<BufferEvent>, direct: seq<Record>)
    requires Drained(s) && Drained(BufferRun(s, es))
    requires multiset(Records(es)) == multiset(direct)
    ensures BufferRun(s, es).db == DirectRun(s.db, direct)
  {
    BatchRefinesDirect(s, es);
    DrainedView(s);
    DrainedView(BufferRun(s, es));
    DirectRunIsShift(s.db, Records(es));
    DirectRunIsShift(s.db, direct);
    forall k: Kind, id: int ensures Total(Records(es), k, id) == Total(direct, k, id) {
      TotalPermutation(Records(es), direct, k, id);
    }
    ShiftCongruence(s.db, (k: Kind, id: int) => Total(Records(es), k, id),
                    (k: Kind, id: int) => Total(direct, k, id));
  }

  /** Every step keeps remain + used of every token, in the raw database and not only in the view. */
  lemma TokenLimitKept(s: Buffer, e: BufferEvent, id: int)
    requires id in s.db.tokens
    ensures id in BufferStep(s, e).db.tokens
    ensures BufferStep(s, e).db.tokens[id].remainQuota + BufferStep(s, e).db.tokens[id].usedQuota
         == s.db.tokens[id].remainQuota + s.db.tokens[id].usedQuota
  {
  }
}
