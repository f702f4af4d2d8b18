/**
 The ledger as the program keeps it: tables and pending stores updated in place
 (model/utils.go, model/user.go, model/token.go, model/channel.go, relay/billing/billing.go).
 Every method is tied to the records of module `Requests` that it issues.
 */
module Store {
  import opened Ledger
  import opened Requests

  /** Records issued one after the other with nothing in between. */
  function EmitAll(s: Buffer, batch: bool, rs: seq<Record>): Buffer {
    if rs == [] then s else Emit(EmitAll(s, batch, rs[..|rs| - 1]), batch, rs[|rs| - 1])
  }

  lemma EmitAllAppend(s: Buffer, batch: bool, rs: seq<Record>, r: Record)
    ensures EmitAll(s, batch, rs + [r]) == Emit(EmitAll(s, batch, rs), batch, r)
    ensures EmitAll(s, batch, []) == s
  {
    assert (rs + [r])[..|rs + [r]| - 1] == rs;
  }

  lemma EmitOne(s: Buffer, batch: bool, r: Record)
    ensures EmitAll(s, batch, [r]) == Emit(s, batch, r)
  {
    assert [r][..|[r]| - 1] == [];
    assert EmitAll(s, batch, []) == s;
  }

  lemma {:induction false} EmitAllConcat(s: Buffer, batch: bool, rs: seq<Record>, ss: seq<Record>)
    ensures EmitAll(s, batch, rs + ss) == EmitAll(EmitAll(s, batch, rs), batch, ss)
  {
    if ss == [] {
      assert rs + ss == rs;
    } else {
      assert (rs + ss)[..|rs + ss| - 1] == rs + ss[..|ss| - 1];
      EmitAllConcat(s, batch, rs, ss[..|ss| - 1]);
    }
  }

  /** What issuing comes to: in direct mode a run of updates, in batch mode the view that such a run would give. */
  lemma {:induction false} EmitAllIs(s: Buffer, rs: seq<Record>)
    ensures EmitAll(s, false, rs) == s.(db := DirectRun(s.db, rs))
    ensures EmitAll(s, true, rs).db == s.db && View(EmitAll(s, true, rs)) == DirectRun(View(s), rs)
  {
    if rs != [] {
      var before, r := rs[..|rs| - 1], rs[|rs| - 1];
      EmitAllIs(s, before);
      ViewOfStep(EmitAll(s, true, before), Add(r));
    }
  }

  /** Issuing records never changes what later decisions read of the token: its user and its kind. */
  lemma {:induction false} EmitAllShape(s: Buffer, batch: bool, rs: seq<Record>)
    ensures SameShape(s.db, EmitAll(s, batch, rs).db)
    ensures EmitAll(s, batch, rs).snapshot == s.snapshot && EmitAll(s, batch, rs).snapshotKind == s.snapshotKind
  {
    if rs != [] {
      var before := EmitAll(s, batch, rs[..|rs| - 1]);
      EmitAllShape(s, batch, rs[..|rs| - 1]);
      EmitShape(before, batch, rs[|rs| - 1]);
    }
  }

  lemma EmitShape(s: Buffer, batch: bool, r: Record)
    ensures SameShape(s.db, Emit(s, batch, r).db)
  {
  }

  class LedgerStore {
    var users: map<int, User>
    var tokens: map<int, Token>
    var channels: map<int, ChannelUsage>
    var stores: Stores
    const batchEnabled: bool

    constructor (users: map<int, User>, tokens: map<int, Token>, channels: map<int, ChannelUsage>, batchEnabled: bool)
      ensures State() == Buffer(Db(users, tokens, channels), NO_STORES, USER_QUOTA, map[])
      ensures this.batchEnabled == batchEnabled
    {
      this.users, this.tokens, this.channels := users, tokens, channels;
      this.stores := NO_STORES;
      this.batchEnabled := batchEnabled;
    }

    /** Between two passes of the worker there is no snapshot. */
    function State(): Buffer
      reads this
    {
      Buffer(Db(users, tokens, channels), stores, USER_QUOTA, map[])
    }

    // -------------------------------------------------------------- pending records

    method AddNewRecord(kind: Kind, id: int, value: int)
      modifies this`stores
      ensures State() == BufferStep(old(State()), Add(Record(kind, id, value)))
    {
      if id !in stores[kind] {
        stores := stores[kind := stores[kind][id := value]];
      } else {
        stores := stores[kind := stores[kind][id := stores[kind][id] + value]];
      }
    }

    // -------------------------------------------------------------- the UPDATE statements

    method UpdateUserRow(id: int, quota: int, usedQuota: int, requestCount: int)
      modifies this`users
      ensures id !in old(users) ==> users == old(users)
      ensures id in old(users) ==>
        var u := old(users)[id];
        users == old(users)[id := User(u.quota + quota, u.usedQuota + usedQuota, u.requestCount + requestCount)]
    {
      if id in users {
        var u := users[id];
        users := users[id := User(u.quota + quota, u.usedQuota + usedQuota, u.requestCount + requestCount)];
      }
    }

    method ApplyRecord(kind: Kind, id: int, value: int)
      modifies this`users, this`tokens, this`channels
      ensures State() == old(State()).(db := Apply(old(State()).db, Record(kind, id, value)))
    {
      if kind == USER_QUOTA {
        UpdateUserRow(id, value, 0, 0);
      } else if kind == TOKEN_QUOTA {
        if id in tokens {
          var t := tokens[id];
          tokens := tokens[id := t.(remainQuota := t.remainQuota + value, usedQuota := t.usedQuota - value)];
        }
      } else if kind == USED_QUOTA {
        UpdateUserRow(id, 0, value, 0);
      } else if kind == REQUEST_COUNT {
        UpdateUserRow(id, 0, 0, value);
      } else {
        if id in channels {
          channels := channels[id := ChannelUsage(channels[id].usedQuota + value)];
        }
      }
    }

    /** One pass of the worker with no request in between empties every store into the database. */
    method BatchUpdate()
      modifies this
      ensures Drained(State())
      ensures State().db == View(old(State()))
    {
      ghost var start := State();
      var i := 0;
      while i < BATCH_UPDATE_TYPE_COUNT
        invariant 0 <= i <= BATCH_UPDATE_TYPE_COUNT
        invariant View(State()) == View(start)
        invariant forall k: Kind :: k < i ==> stores[k] == map[]
      {
        ghost var before := State();
        var store := stores[i];
        stores := stores[i := map[]];
        ViewOfStep(before, Swap(i));
        ApplyStore(i, store);
        i := i + 1;
      }
      DrainedView(State());
    }

    // -------------------------------------------------------------- the exported updates

    /** Applies the entries of a swapped-out store one by one, in any order. */
    method ApplyStore(kind: Kind, swapped: Pending)
      modifies this`users, this`tokens, this`channels
      ensures View(State()) == View(old(State()).(snapshotKind := kind, snapshot := swapped))
    {
      var store := swapped;
      ghost var start := State().(snapshotKind := kind, snapshot := swapped);
      ghost var running := start;
      while exists key :: key in store
        invariant running == Buffer(Db(users, tokens, channels), stores, kind, store)
        invariant View(running) == View(start)
        decreases |store|
      {
        var key :| key in store;
        ViewOfStep(running, ApplyEntry(key));
        ApplyRecord(kind, key, store[key]);
        store := store - {key};
        running := Buffer(Db(users, tokens, channels), stores, kind, store);
      }
      assert store == map[];
      NoSnapshotView(running, State());
    }

    method Issue(kind: Kind, id: int, value: int)
      modifies this
      ensures State() == Emit(old(State()), batchEnabled, Record(kind, id, value))
    {
      if batchEnabled {
        AddNewRecord(kind, id, value);
      } else {
        ApplyRecord(kind, id, value);
      }
    }

    method IncreaseUserQuota(id: int, quota: int) returns (ok: bool)
      modifies this
      ensures ok == (quota >= 0)
      ensures State() == if quota >= 0 then Emit(old(State()), batchEnabled, Record(USER_QUOTA, id, quota))
         else old(State())
    {
      if quota < 0 { return false; }
      Issue(USER_QUOTA, id, quota);
      return true;
    }

    method DecreaseUserQuota(id: int, quota: int) returns (ok: bool)
      modifies this
      ensures ok == (quota >= 0)
      ensures State() == if quota >= 0 then Emit(old(State()), batchEnabled, Record(USER_QUOTA, id, -quota))
         else old(State())
    {
      if quota < 0 { return false; }
      Issue(USER_QUOTA, id, -quota);
      return true;
    }

    method IncreaseTokenQuota(id: int, quota: int) returns (ok: bool)
      modifies this
      ensures ok == (quota >= 0)
      ensures State() == if quota >= 0 then Emit(old(State()), batchEnabled, Record(TOKEN_QUOTA, id, quota))
         else old(State())
    {
      if quota < 0 { return false; }
      Issue(TOKEN_QUOTA, id, quota);
      return true;
    }

    method DecreaseTokenQuota(id: int, quota: int) returns (ok: bool)
      modifies this
      ensures ok == (quota >= 0)
      ensures State() == if quota >= 0 then Emit(old(State()), batchEnabled, Record(TOKEN_QUOTA, id, -quota))
         else old(State())
    {
      if quota < 0 { return false; }
      Issue(TOKEN_QUOTA, id, -quota);
      return true;
    }

    /** Direct mode writes both columns in one statement, batch mode records them one by one. */
    method UpdateUserUsedQuotaAndRequestCount(id: int, quota: int)
      modifies this
      ensures State() == Emit(Emit(old(State()), batchEnabled, Record(USED_QUOTA, id, quota)),
                              batchEnabled, Record(REQUEST_COUNT, id, 1))
    {
      if batchEnabled {
        AddNewRecord(USED_QUOTA, id, quota);
        AddNewRecord(REQUEST_COUNT, id, 1);
      } else {
        UpdateUserRow(id, 0, quota, 1);
      }
    }

    method UpdateChannelUsedQuota(id: int, quota: int)
      modifies this
      ensures State() == Emit(old(State()), batchEnabled, Record(CHANNEL_USED_QUOTA, id, quota))
    {
      Issue(CHANNEL_USED_QUOTA, id, quota);
    }

    /** All or nothing: the checks are made on the rows as read, before anything is issued. */
    method PreConsumeTokenQuota(tokenId: int, quota: int) returns (ok: bool)
      modifies this
      ensures ok == MayPreConsume(old(State()).db, tokenId, quota)
      ensures quota < 0 || tokenId !in old(tokens) ==> !ok
      ensures quota >= 0 && tokenId in old(tokens) ==>
        var db := old(State()).db;
        var after := DirectRun(db, PreConsume(db.tokens, tokenId, quota));
        var t := db.tokens[tokenId];
        ok <==>
          && tokenId in after.tokens && (t.unlimited || after.tokens[tokenId].remainQuota >= 0)
          && (if t.userId in db.users then t.userId in after.users && after.users[t.userId].quota >= 0 else quota == 0)
      ensures State() == if ok then EmitAll(old(State()), batchEnabled, PreConsume(old(tokens), tokenId, quota))
         else old(State())
    {
      MayPreConsumeIff(State().db, tokenId, quota);
      if quota < 0 || tokenId !in tokens { return false; }
      var token := tokens[tokenId];
      if !token.unlimited && token.remainQuota < quota { return false; }
      var userQuota := if token.userId in users then users[token.userId].quota else 0;
      if userQuota < quota { return false; }
      ghost var s := State();
      ghost var debit := Record(USER_QUOTA, token.userId, -quota);
      if !token.unlimited {
        ok := DecreaseTokenQuota(tokenId, quota);
        EmitOne(s, batchEnabled, Record(TOKEN_QUOTA, tokenId, -quota));
        EmitAllAppend(s, batchEnabled, [Record(TOKEN_QUOTA, tokenId, -quota)], debit);
      } else {
        EmitAllAppend(s, batchEnabled, [], debit);
      }
      ok := DecreaseUserQuota(token.userId, quota);
    }

    /** Debits or credits user and token alike; does nothing and fails when the token row is gone. */
    method PostConsumeTokenQuota(tokenId: int, quota: int) returns (ok: bool)
      modifies this
      ensures ok == (tokenId in old(tokens))
      ensures State() == EmitAll(old(State()), batchEnabled, PostConsume(old(tokens), tokenId, quota))
    {
      ghost var s := State();
      EmitAllAppend(s, batchEnabled, [], Record(USER_QUOTA, 0, 0));
      if tokenId !in tokens { return false; }
      var token := tokens[tokenId];
      ghost var debit := Record(USER_QUOTA, token.userId, -quota);
      EmitOne(s, batchEnabled, debit);
      EmitAllAppend(s, batchEnabled, [debit], Record(TOKEN_QUOTA, tokenId, -quota));
      assert [debit] + [] == [debit];
      if quota > 0 {
        ok := DecreaseUserQuota(token.userId, quota);
      } else {
        ok := IncreaseUserQuota(token.userId, -quota);
      }
      if !token.unlimited {
        if quota > 0 {
          ok := DecreaseTokenQuota(tokenId, quota);
        } else {
          ok := IncreaseTokenQuota(tokenId, -quota);
        }
      }
      return true;
    }

    /** Resets remain quota, in the database, of the tokens that have a monthly quota. */
    method ResetMonthlyQuotas()
      modifies this`tokens
      ensures tokens == ResetTokens(old(tokens))
      ensures tokens.Keys == old(tokens).Keys
      ensures forall id :: id in tokens.Keys ==>
                var t := old(tokens)[id];
                tokens[id] == if t.monthlyQuota > 0 then t.(remainQuota := t.monthlyQuota) else t
    {
      var todo := tokens.Keys;
      ghost var start := tokens;
      while exists id :: id in todo
        invariant tokens.Keys == start.Keys && todo <= start.Keys
        invariant forall id :: id in start.Keys ==>
          tokens[id] == if id in todo then start[id] else ResetTokens(start)[id]
        decreases todo
      {
        var id :| id in todo;
        if tokens[id].monthlyQuota > 0 {
          tokens := tokens[id := tokens[id].(remainQuota := tokens[id].monthlyQuota)];
        }
        todo := todo - {id};
      }
      assert forall id :: id in start.Keys ==> tokens[id] == ResetTokens(start)[id];
      assert tokens == ResetTokens(start);
    }
  }

  /** With nothing left in the snapshot its kind does not matter. */
  lemma NoSnapshotView(s: Buffer, t: Buffer)
    requires s.db == t.db && s.stores == t.stores && s.snapshot == t.snapshot == map[]
    ensures View(s) == View(t)
  {
    ShiftCongruence(s.db, (k: Kind, id: int) => Owed(s, k, id), (k: Kind, id: int) => Owed(t, k, id));
  }
}
