/** The channel and ability tables updated in place (model/channel.go, model/ability.go, common/utils/array.go). */
module ChannelStore {
  import opened Channels

  /** Each element once, in whatever order the set is walked. */
  method DeDuplication(s: seq<string>) returns (r: seq<string>)
    ensures Distinct(r)
    ensures forall x :: x in r <==> x in s
  {
    var m := set x | x in s;
    r := [];
    while exists x :: x in m
      invariant Distinct(r)
      invariant forall x :: x in s <==> x in r || x in m
      invariant forall x :: x in r ==> x !in m
      decreases m
    {
      var x :| x in m;
      r := r + [x];
      m := m - {x};
    }
  }

  /** One element more repeats nothing iff nothing was repeated before and it is new. */
  lemma DistinctAppend<T>(s: seq<T>, x: T)
    ensures Distinct(s + [x]) <==> Distinct(s) && x !in s
  {
    var more := s + [x];
    if Distinct(more) {
      forall i, j | 0 <= i < j < |s| ensures s[i] != s[j] { assert more[i] != more[j]; }
      forall i | 0 <= i < |s| ensures s[i] != x { assert more[i] != more[|s|]; }
    }
  }

  ghost predicate AllNew(keys: seq<AbilityKey>, abilities: Abilities) {
    forall k :: k in keys ==> k !in abilities
  }

  lemma DistinctTake<T>(s: seq<T>, n: nat)
    requires n <= |s| && Distinct(s)
    ensures Distinct(s[..n])
  {
    forall i, j | 0 <= i < j < n ensures s[..n][i] != s[..n][j] { assert s[i] != s[j]; }
  }

  /** The first of some fresh rows is added unless it names a group twice, and leaves the others fresh. */
  lemma FirstIsAdded(abilities: Abilities, rows: seq<Row>)
    requires rows != [] && Fresh(abilities, rows)
    ensures CanAdd(abilities, rows[0].id, WithDefaults(rows[0].c)) <==> Distinct(GroupsOf(rows[0]))
    ensures Fresh(Channels.AddAbilities(abilities, rows[0].id, WithDefaults(rows[0].c)), rows[1..])
  {
    assert forall r, k :: r in rows && k in abilities ==> k.channelId != r.id;
    HeadIsApart(rows);
    assert rows[0] in rows;
    RequiredRows(rows[0].id, WithDefaults(rows[0].c));
  }

  lemma AllGoodIff(rows: seq<Row>)
    ensures Good(rows) == |rows| <==> forall r :: r in rows ==> Distinct(GroupsOf(r))
  {
    GoodPrefix(rows);
    if Good(rows) < |rows| { assert rows[Good(rows)] in rows; }
  }

  class ChannelTables {
    var channels: map<int, Channel>
    var abilities: Abilities

    constructor ()
      ensures State() == Tables(map[], map[])
    {
      channels, abilities := map[], map[];
    }

    function State(): Tables
      reads this
    {
      Tables(channels, abilities)
    }

    /** One INSERT of many rows, all with the same columns: all of them, or none when a primary key repeats. */
    method CreateRows(keys: seq<AbilityKey>, row: Ability) returns (ok: bool)
      modifies this`abilities
      ensures ok <==> Distinct(keys) && AllNew(keys, old(abilities))
      ensures abilities == if ok then old(abilities) + (map k | k in keys :: row) else old(abilities)
    {
      var table := abilities;
      var i := 0;
      while i < |keys|
        invariant 0 <= i <= |keys| && abilities == old(abilities)
        invariant Distinct(keys[..i])
        invariant AllNew(keys[..i], abilities)
        invariant forall k :: k in table <==> k in abilities || k in keys[..i]
        invariant forall k :: k in table ==> table[k] == if k in abilities then abilities[k] else row
      {
        assert keys[..i + 1] == keys[..i] + [keys[i]];
        DistinctAppend(keys[..i], keys[i]);
        if keys[i] in table {
          if Distinct(keys) {
            DistinctTake(keys, i + 1);
            assert keys[i] in keys && keys[i] in abilities;
          }
          return false;
        }
        table := table[keys[i] := row];
        i := i + 1;
      }
      assert keys[..i] == keys;
      assert Distinct(keys) && AllNew(keys, abilities);
      assert table == abilities + map k | k in keys :: row;
      abilities := table;
      return true;
    }

    method AddAbilities(id: int, c: Channel) returns (ok: bool)
      modifies this`abilities
      ensures ok == CanAdd(old(abilities), id, c)
      ensures abilities == Channels.AddAbilities(old(abilities), id, c)
    {
      var models := DeDuplication(Split(c.models));
      var groups := Split(c.group);
      var keys: seq<AbilityKey> := [];
      var i := 0;
      while i < |models|
        invariant 0 <= i <= |models| && abilities == old(abilities)
        invariant forall k :: k in keys <==> k.channelId == id && k.model in models[..i] && k.group in groups
        invariant Distinct(keys) <==> i == 0 || Distinct(groups)
      {
        keys := AddGroups(keys, groups, models, i, id);
        assert models[..i + 1] == models[..i] + [models[i]];
        i := i + 1;
      }
      assert models[..i] == models && Split(c.models)[0] in models;
      RequiredRows(id, c);
      assert forall k :: k in keys <==> k in Required(id, c);
      ghost var before := abilities;
      assert Required(id, c) == map k | k in keys :: RequiredRow(c);
      assert Required(id, c).Keys !! before.Keys <==> AllNew(keys, before);
      ok := CreateRows(keys, RequiredRow(c));
    }

    /** The inner loop: the rows of one model. */
    method AddGroups(before: seq<AbilityKey>, groups: seq<string>, models: seq<string>, i: nat, id: int)
      returns (keys: seq<AbilityKey>)
      requires i < |models| && Distinct(models)
      requires forall k :: k in before <==> k.channelId == id && k.model in models[..i] && k.group in groups
      requires Distinct(before) <==> i == 0 || Distinct(groups)
      ensures forall k :: k in keys <==> k in before || (k.channelId == id && k.model == models[i] && k.group in groups)
      ensures Distinct(keys) <==> Distinct(groups)
    {
      keys := before;
      var j := 0;
      while j < |groups|
        invariant 0 <= j <= |groups|
        invariant forall k :: k in keys <==>
          k in before || (k.channelId == id && k.model == models[i] && k.group in groups[..j])
        invariant Distinct(keys) <==> if i == 0 then Distinct(groups[..j]) else Distinct(groups)
      {
        var key := AbilityKey(groups[j], models[i], id);
        assert models[i] !in models[..i];
        assert groups[..j + 1] == groups[..j] + [groups[j]];
        DistinctAppend(keys, key);
        DistinctAppend(groups[..j], groups[j]);
        if Distinct(groups) { assert groups[j] !in groups[..j]; }
        keys := keys + [key];
        j := j + 1;
      }
      assert groups[..j] == groups;
    }

    /** The channel can be given rows anew, and no other channel's rows are touched. */
    method DeleteAbilities(id: int)
      modifies this`abilities
      ensures abilities == Without(old(abilities), id)
      ensures forall c :: CanAdd(abilities, id, c) <==> Distinct(Split(c.group))
      ensures forall other, c :: other != id ==> (Matches(abilities, other, c) <==> Matches(old(abilities), other, c))
    {
      forall c ensures CanAdd(Without(abilities, id), id, c) <==> Distinct(Split(c.group)) {
        RequiredRows(id, c);
      }
      forall other, c | other != id
        ensures Matches(Without(abilities, id), other, c) <==> Matches(abilities, other, c)
      {
        if Matches(abilities, other, c) { OthersMatch(abilities, Without(abilities, id), id, other, c); }
        if Matches(Without(abilities, id), other, c) { OthersMatch(Without(abilities, id), abilities, id, other, c); }
      }
      abilities := map k | k in abilities && k.channelId != id :: abilities[k];
    }

    method UpdateAbilities(id: int, c: Channel) returns (ok: bool)
      modifies this`abilities
      ensures abilities == Channels.UpdateAbilities(old(abilities), id, c)
    {
      var saved := abilities;
      DeleteAbilities(id);
      ok := AddAbilities(id, c);
      if !ok {
        abilities := saved;
      }
    }

    method Insert(id: int, c: Channel) returns (ok: bool)
      requires Possible(State(), Event.Insert([Row(id, c)]))
      modifies this
      ensures State() == Step(old(State()), Event.Insert([Row(id, c)]))
      ensures ok <==> Distinct(Split(WithDefaults(c).group))
      ensures Consistent(old(State())) ==> (Consistent(State()) <==> ok)
    {
      ok := BatchInsertChannels([Row(id, c)]);
      assert Row(id, c) in [Row(id, c)] && ([Row(id, c)])[1..] == [];
    }

    /** Creates all channels, then their abilities, up to the first whose abilities fail; an empty batch fails. */
    method BatchInsertChannels(rows: seq<Row>) returns (ok: bool)
      requires Possible(State(), Event.Insert(rows))
      modifies this
      ensures State() == Step(old(State()), Event.Insert(rows))
      ensures ok <==> rows != [] && Good(rows) == |rows|
      ensures Consistent(old(State())) ==> (Consistent(State()) <==> Good(rows) == |rows|)
    {
      if rows == [] { return false; }
      ghost var before := State();
      if Consistent(before) { InsertIff(before, rows); }
      AllGoodIff(rows);
      CreateChannels(rows);
      ok := AddAllAbilities(rows);
    }

    /** One INSERT for all the channels of a batch. */
    method CreateChannels(rows: seq<Row>)
      modifies this`channels
      ensures channels == CreateAll(old(channels), rows)
    {
      ghost var before := channels;
      var i := 0;
      while i < |rows|
        invariant 0 <= i <= |rows|
        invariant CreateAll(channels, rows[i..]) == CreateAll(before, rows)
      {
        assert rows[i..][1..] == rows[i + 1..];
        channels := channels[rows[i].id := WithDefaults(rows[i].c)];
        i := i + 1;
      }
    }

    method AddAllAbilities(rows: seq<Row>) returns (ok: bool)
      requires Fresh(abilities, rows)
      modifies this`abilities
      ensures abilities == AddAll(old(abilities), rows)
      ensures ok <==> Good(rows) == |rows|
    {
      ghost var before := abilities;
      var i := 0;
      while i < |rows|
        invariant 0 <= i <= |rows|
        invariant AddAll(abilities, rows[i..]) == AddAll(before, rows)
        invariant Good(rows) == i + Good(rows[i..])
        invariant Fresh(abilities, rows[i..])
      {
        assert rows[i..][1..] == rows[i + 1..];
        FirstIsAdded(abilities, rows[i..]);
        ok := AddAbilities(rows[i].id, WithDefaults(rows[i].c));
        if !ok {
          return;
        }
        i := i + 1;
      }
      return true;
    }

    method Update(id: int, p: Patch) returns (ok: bool)
      modifies this
      ensures State() == Step(old(State()), Event.Update(id, p))
      ensures Consistent(old(State())) ==> (Consistent(State()) <==> Safe(old(State()), Event.Update(id, p)))
    {
      if Consistent(State()) { StepConsistentIff(State(), Event.Update(id, p)); }
      var c := Bare(p);
      if id in channels {
        c := Merge(channels[id], p);
        channels := channels[id := c];
      }
      ok := UpdateAbilities(id, c);
    }

    /** Consistency survives exactly when the change is safe; every row of the channel follows its status. */
    method UpdateChannelStatusById(id: int, status: int)
      modifies this
      ensures State() == Step(old(State()), SetStatus(id, status))
      ensures Consistent(old(State())) ==> (Consistent(State()) <==> Safe(old(State()), SetStatus(id, status)))
      ensures forall k :: k in abilities && k.channelId == id ==>
                (abilities[k].enabled <==> status == CHANNEL_STATUS_ENABLED)
    {
      if Consistent(State()) { SetStatusIff(State(), id, status); }
      abilities := WithStatus(abilities, id, status == CHANNEL_STATUS_ENABLED);
      if id in channels {
        channels := channels[id := channels[id].(status := status)];
      }
    }

    /** Nothing of the channel is left, and consistency survives. */
    method Delete(id: int)
      modifies this
      ensures State() == Step(old(State()), Event.Delete(id))
      ensures Consistent(old(State())) ==> Consistent(State())
      ensures forall c :: Possible(State(), Event.Insert([Row(id, c)]))
    {
      if Consistent(State()) { DeletionsKeepConsistency(State(), Event.Delete(id)); }
      channels := channels - {id};
      DeleteAbilities(id);
    }

    /** Removes channels only; their rows stay behind, and are all disabled if they were what they should be. */
    method DeleteDisabledChannel()
      modifies this`channels
      ensures State() == Step(old(State()), DeleteDisabled)
      ensures Consistent(old(State())) ==> Consistent(State())
      ensures Consistent(old(State())) ==>
        forall k :: k in abilities && abilities[k].enabled ==> k.channelId in channels && Enabled(channels[k.channelId])
    {
      if Consistent(State()) {
        DeletionsKeepConsistency(State(), DeleteDisabled);
        forall k | k in abilities && abilities[k].enabled
          ensures k.channelId in channels && Enabled(channels[k.channelId])
        {
          EnabledRowsAreLive(State(), k);
        }
      }
      channels := map id | id in channels && !Disabled(channels[id]) :: channels[id];
    }
  }
}
