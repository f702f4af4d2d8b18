/** Inputs on which the channel tables and the index do what one would not expect. */
module ChannelExamples {
  import opened Options
  import opened Channels
  import opened ChannelIndex
  import opened Distribution

  lemma {:induction false} SplitSingle(s: string)
    requires ',' !in s
    ensures Split(s) == [s]
  {
    if s != "" {
      assert s[0] in s;
      SplitSingle(s[1..]);
      assert [s[0]] + s[1..] == s && [[s[0]] + s[1..]] + [] == [s];
    }
  }

  /** The first channel of an empty installation, naming its group twice: the next build writes into a nil map. */
  lemma RepeatedGroupBreaksBuild()
    ensures var t := Tables(map[], map[]);
      var c := Channel(CHANNEL_STATUS_ENABLED, "m", "a,a", 0);
      Consistent(t) && Possible(t, Insert([Row(1, c)])) && !Covered(Step(t, Insert([Row(1, c)])))
  {
    var t := Tables(map[], map[]);
    var c := Channel(CHANNEL_STATUS_ENABLED, "m", "a,a", 0);
    SplitTwice();
    assert WithDefaults(c) == c && Split(c.group) == ["a", "a"];
    assert !Distinct(["a", "a"]) by { assert ["a", "a"][0] == ["a", "a"][1]; }
    var rows := [Row(1, c)];
    assert Good(rows) == 0 && Enabled(WithDefaults(rows[0].c)) && "a" in GroupsOf(rows[0]) && "a" !in Groups(t);
    assert Consistent(t) && Possible(t, Insert(rows)) && !Grouped(t, rows, "a");
    StepBreaksBuildIff(t, Insert(rows));
  }

  const GOOD := Channel(CHANNEL_STATUS_ENABLED, "m", "b", 0)
  const TWICE := Channel(CHANNEL_STATUS_ENABLED, "m", "a,a", 0)
  const BATCH := [Row(1, GOOD), Row(2, TWICE), Row(3, GOOD)]

  /** Creating three channels at once, the second naming its group twice: the third gets no rows either. */
  lemma RepeatedGroupStopsBatch()
    ensures var after := Step(Tables(map[], map[]), Insert(BATCH));
      && after.channels.Keys == {1, 2, 3}
      && AbilityKey("b", "m", 1) in after.abilities
      && forall k :: k in after.abilities ==> k.channelId == 1
  {
    OneOfBatchIsGood(BATCH);
    BatchIds(BATCH);
    AddAllMatches(map[], BATCH);
    var abilities := AddAll(map[], BATCH);
    assert Matches(abilities, BATCH[0].id, WithDefaults(BATCH[0].c));
    SplitSingle("b");
    SplitSingle("m");
    forall k | k in abilities ensures k.channelId == 1 {
      assert k.channelId != BATCH[1].id && k.channelId != BATCH[2].id;
      assert HasId(BATCH, k.channelId);
    }
  }

  lemma BatchIds(rows: seq<Row>)
    requires rows == BATCH
    ensures forall id :: HasId(rows, id) <==> id in {1, 2, 3}
    ensures CreateAll(map[], rows).Keys == {1, 2, 3}
  {
    CreateAllRows(map[], rows);
    var ids := CreateAll(map[], rows).Keys;
    forall id ensures HasId(rows, id) <==> id in {1, 2, 3} {
      assert rows[0] in rows && rows[1] in rows && rows[2] in rows;
    }
    forall id ensures id in ids <==> id in {1, 2, 3} {
      assert HasId(rows, id) <==> id in ids;
    }
  }

  lemma OneOfBatchIsGood(rows: seq<Row>)
    requires rows == BATCH
    ensures Good(rows) == 1
  {
    SplitTwice();
    SplitSingle("b");
    assert !Distinct(["a", "a"]) by { assert ["a", "a"][0] == ["a", "a"][1]; }
    assert Distinct(["b"]) && GroupsOf(rows[0]) == ["b"] && GroupsOf(rows[1]) == ["a", "a"];
    assert rows[1..][0] == rows[1] && Good(rows[1..]) == 0 && Good(rows) == 1 + Good(rows[1..]);
  }

  /** Updating an id that has no channel row leaves an enabled row for a channel that does not exist. */
  lemma UpdatingNothingLeavesOrphan()
    ensures var t := Tables(map[], map[]);
      var after := Step(t, Update(7, Patch(CHANNEL_STATUS_ENABLED, "m", "a", None)));
      && Consistent(t) && after.channels == map[]
      && AbilityKey("a", "m", 7) in after.abilities && after.abilities[AbilityKey("a", "m", 7)].enabled
  {
    var c := Bare(Patch(CHANNEL_STATUS_ENABLED, "m", "a", None));
    SplitSingle("a");
    SplitSingle("m");
    RequiredRows(7, c);
    assert Distinct(["a"]) && Serves(c, "a", "m");
    assert AbilityKey("a", "m", 7) in Required(7, c);
  }

  lemma SplitTwice()
    ensures Split("a,a") == ["a", "a"]
  {
    SplitSingle("a");
    assert ",a"[1..] == "a" && "a,a"[1..] == ",a";
    assert Split(",a") == ["", "a"] by { assert [""] + ["a"] == ["", "a"]; }
    assert ['a'] + "" == "a" && ["", "a"][1..] == ["a"];
  }

  /** Two enabled channels for one model in one group. */
  function TwoChannels(first: int, second: int): Tables {
    Tables(map[1 := Channel(CHANNEL_STATUS_ENABLED, "m", "a", first),
               2 := Channel(CHANNEL_STATUS_ENABLED, "m", "a", second)],
           map[AbilityKey("a", "m", 1) := Ability(true, first), AbilityKey("a", "m", 2) := Ability(true, second)])
  }

  const TWO_INDEXED: Index := map["a" := map["m" := [1, 2]]]

  lemma TwoChannelsAreIndexed(first: int, second: int)
    requires first >= second
    ensures Consistent(TwoChannels(first, second)) && IndexOf(TwoChannels(first, second), TWO_INDEXED)
  {
    var t := TwoChannels(first, second);
    TwoAreConsistent(t, first, second);
    ConsistentIsCovered(t);
    SplitSingle("a");
    SplitSingle("m");
    assert Groups(t) == {"a"} by {
      assert AbilityKey("a", "m", 1) in t.abilities;
    }
    TwoAreServing(t, first, second);
    assert GoodList(t, [1, 2]);
  }

  lemma TwoAreConsistent(t: Tables, first: int, second: int)
    requires t == TwoChannels(first, second)
    ensures Consistent(t)
  {
    SplitSingle("a");
    SplitSingle("m");
    OneRowMatches(t.abilities, 1, t.channels[1]);
    OneRowMatches(t.abilities, 2, t.channels[2]);
  }

  lemma TwoAreServing(t: Tables, first: int, second: int)
    requires t == TwoChannels(first, second)
    ensures forall g, m :: Serving(t, g, m) == if g == "a" && m == "m" then {1, 2} else {}
  {
    SplitSingle("a");
    SplitSingle("m");
    forall g, m ensures Serving(t, g, m) == if g == "a" && m == "m" then {1, 2} else {} {
      assert g in Split("a") <==> g == "a";
      assert m in Split("m") <==> m == "m";
    }
  }

  lemma OneRowMatches(abilities: Abilities, id: int, c: Channel)
    requires Split(c.group) == ["a"] && Split(c.models) == ["m"]
    requires forall k: AbilityKey :: k.channelId == id ==> (k in abilities <==> k == AbilityKey("a", "m", id))
    requires AbilityKey("a", "m", id) in abilities && abilities[AbilityKey("a", "m", id)] == RequiredRow(c)
    ensures Matches(abilities, id, c)
  {
    forall k: AbilityKey | k.channelId == id
      ensures (k in abilities <==> Serves(c, k.group, k.model)) && (k in abilities ==> abilities[k] == RequiredRow(c))
    {
      assert k in abilities <==> k == AbilityKey("a", "m", id);
      assert k == AbilityKey(k.group, k.model, k.channelId);
    }
  }

  /** With priorities 0 and -1 the cache offers both channels, the SQL choice only the first. */
  lemma ZeroPriorityIsNotPreferred()
    ensures var t := TwoChannels(0, -1);
      && Consistent(t) && IndexOf(t, TWO_INDEXED)
      && 2 in Candidates(t, [1, 2], false) && !SqlCandidate(t, "a", "m", false, 2)
  {
    var t := TwoChannels(0, -1);
    TwoChannelsAreIndexed(0, -1);
    assert EndIdx(t, [1, 2]) == 2 && [1, 2][..2] == [1, 2];
    assert AbilityKey("a", "m", 1) in t.abilities && t.abilities[AbilityKey("a", "m", 1)].priority == 0;
    assert t.abilities[AbilityKey("a", "m", 2)].priority == -1;
  }

  /** With priorities 2 and 1, and the first priority to be ignored, SQL offers both channels, the cache the second. */
  lemma IgnoredPriorityIsExcluded()
    ensures var t := TwoChannels(2, 1);
      && Consistent(t) && IndexOf(t, TWO_INDEXED)
      && 1 !in Candidates(t, [1, 2], true) && SqlCandidate(t, "a", "m", true, 1)
  {
    var t := TwoChannels(2, 1);
    TwoChannelsAreIndexed(2, 1);
    assert TopRun(t, [1, 2], 1) == 1 && TopRun(t, [1, 2], 0) == 1;
    assert [1, 2][1..] == [2];
  }

  /** A channel disabled since the last build is chosen all the same. */
  lemma DisabledChannelIsChosen()
    ensures var built := TwoChannels(2, 1);
      var now := Step(built, SetStatus(1, CHANNEL_STATUS_MANUALLY_DISABLED));
      && Consistent(built) && IndexOf(built, TWO_INDEXED) && Consistent(now)
      && Choice(built, TWO_INDEXED, "a", "m", false, 0, 0) == Some(1)
      && 1 in now.channels && !Enabled(now.channels[1])
      && !AlwaysServed(built, now, TWO_INDEXED, "a", "m", false)
  {
    var built := TwoChannels(2, 1);
    var e := SetStatus(1, CHANNEL_STATUS_MANUALLY_DISABLED);
    TwoChannelsAreIndexed(2, 1);
    SetStatusIff(built, 1, CHANNEL_STATUS_MANUALLY_DISABLED);
    assert TopRun(built, [1, 2], 1) == 1 && TopRun(built, [1, 2], 0) == 1;
    assert [1, 2][..1] == [1] && Intn(0, 1) == 0;
    assert 1 in Candidates(built, [1, 2], false) && !KeepsServing(e, 1, "a", "m");
    ServedAfterOperationIff(built, e, TWO_INDEXED, "a", "m", false);
  }

  const OFF := SetStatus(1, CHANNEL_STATUS_MANUALLY_DISABLED)
  const SWEPT := Tables(map[2 := Channel(CHANNEL_STATUS_ENABLED, "m", "a", 1)],
                        map[AbilityKey("a", "m", 1) := Ability(false, 2), AbilityKey("a", "m", 2) := Ability(true, 1)])

  lemma SweptAfterOff()
    ensures Step(Step(TwoChannels(2, 1), OFF), DeleteDisabled) == SWEPT
  {
    var off := Step(TwoChannels(2, 1), OFF);
    assert off.channels == map[1 := Channel(CHANNEL_STATUS_MANUALLY_DISABLED, "m", "a", 2),
                               2 := Channel(CHANNEL_STATUS_ENABLED, "m", "a", 1)];
    assert off.abilities == SWEPT.abilities;
    assert Step(off, DeleteDisabled).channels == SWEPT.channels;
  }

  /** Deleting disabled channels keeps their rows; enabling such an id afterwards enables them. */
  lemma EnablingNothingLeavesOrphan()
    ensures var swept := Step(Step(TwoChannels(2, 1), OFF), DeleteDisabled);
      var after := Step(swept, SetStatus(1, CHANNEL_STATUS_ENABLED));
      && Consistent(swept) && 1 !in after.channels
      && AbilityKey("a", "m", 1) in after.abilities && after.abilities[AbilityKey("a", "m", 1)].enabled
  {
    TwoChannelsAreIndexed(2, 1);
    SetStatusIff(TwoChannels(2, 1), 1, CHANNEL_STATUS_MANUALLY_DISABLED);
    DeletionsKeepConsistency(Step(TwoChannels(2, 1), OFF), DeleteDisabled);
    SweptAfterOff();
    assert AbilityKey("a", "m", 1) in SWEPT.abilities;
  }
}
