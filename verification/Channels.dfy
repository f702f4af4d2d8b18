/**
 Channels and their denormalised abilities (model/channel.go, model/ability.go): which operations
 keep the two tables consistent, and exactly when they do not.
 */
module Channels {
  import opened Options

  const CHANNEL_STATUS_ENABLED := 1
  const CHANNEL_STATUS_MANUALLY_DISABLED := 2
  const CHANNEL_STATUS_AUTO_DISABLED := 3

  /** A nil priority is stored as the column's default 0, so it is 0 here. */
  datatype Channel = Channel(status: int, models: string, group: string, priority: int)
  datatype AbilityKey = AbilityKey(group: string, model: string, channelId: int)
  datatype Ability = Ability(enabled: bool, priority: int)
  type Abilities = map<AbilityKey, Ability>
  datatype Tables = Tables(channels: map<int, Channel>, abilities: Abilities)

  // ---------------------------------------------------------------- comma-separated lists

  /** strings.Split(s, ","): never empty, and "" gives one empty part. */
  function Split(s: string): (parts: seq<string>)
    ensures parts != []
  {
    if s == "" then [""]
    else
      var rest := Split(s[1..]);
      if s[0] == ',' then [""] + rest else [[s[0]] + rest[0]] + rest[1..]
  }

  function Join(parts: seq<string>): string {
    if parts == [] then "" else if |parts| == 1 then parts[0] else parts[0] + "," + Join(parts[1..])
  }

  lemma {:induction false} SplitJoin(s: string)
    ensures Join(Split(s)) == s
    ensures forall part :: part in Split(s) ==> ',' !in part
  {
    if s != "" {
      SplitJoin(s[1..]);
      var rest := Split(s[1..]);
      assert s == [s[0]] + s[1..];
      if s[0] == ',' {
        JoinCons("", rest);
      } else {
        JoinLonger(s[0], rest);
        assert forall part :: part in rest[1..] ==> part in rest;
      }
    }
  }

  lemma JoinCons(part: string, rest: seq<string>)
    requires rest != []
    ensures Join([part] + rest) == part + "," + Join(rest)
  {
    assert ([part] + rest)[1..] == rest;
  }

  lemma JoinLonger(c: char, parts: seq<string>)
    requires parts != []
    ensures Join([[c] + parts[0]] + parts[1..]) == [c] + Join(parts)
  {
    var longer := [[c] + parts[0]] + parts[1..];
    assert longer[1..] == parts[1..];
    if |parts| > 1 {
      assert [c] + parts[0] + "," + Join(parts[1..]) == [c] + (parts[0] + "," + Join(parts[1..]));
    }
  }

  predicate Distinct<T(==)>(s: seq<T>) {
    forall i, j :: 0 <= i < j < |s| ==> s[i] != s[j]
  }

  // ---------------------------------------------------------------- consistency

  function Enabled(c: Channel): bool { c.status == CHANNEL_STATUS_ENABLED }

  /** Every group of the channel, with every model of it. */
  predicate Serves(c: Channel, group: string, model: string) {
    group in Split(c.group) && model in Split(c.models)
  }

  function RequiredRow(c: Channel): Ability { Ability(Enabled(c), c.priority) }

  /** The rows of one channel are what its own columns call for. */
  ghost predicate Matches(abilities: Abilities, id: int, c: Channel) {
    forall k: AbilityKey :: k.channelId == id ==>
      && (k in abilities <==> Serves(c, k.group, k.model))
      && (k in abilities ==> abilities[k] == RequiredRow(c))
  }

  /** Live channels have exactly their rows; rows left behind by dead ones are disabled. */
  ghost predicate Consistent(t: Tables) {
    && (forall id :: id in t.channels ==> Matches(t.abilities, id, t.channels[id]))
    && (forall k :: k in t.abilities && k.channelId !in t.channels ==> !t.abilities[k].enabled)
  }

  // ---------------------------------------------------------------- the operations

  /** The rows of one channel as one INSERT; a repeated primary key makes all of it fail. */
  function Required(id: int, c: Channel): Abilities {
    map g, m | g in Split(c.group) && m in Split(c.models) :: AbilityKey(g, m, id) := RequiredRow(c)
  }

  function Without(abilities: Abilities, id: int): Abilities {
    map k | k in abilities && k.channelId != id :: abilities[k]
  }

  /** Models are deduplicated first, groups are not: a group named twice repeats a key. */
  predicate CanAdd(abilities: Abilities, id: int, c: Channel) {
    Distinct(Split(c.group)) && Required(id, c).Keys !! abilities.Keys
  }

  function AddAbilities(abilities: Abilities, id: int, c: Channel): Abilities {
    if CanAdd(abilities, id, c) then abilities + Required(id, c) else abilities
  }

  /** Delete and add in one transaction, rolled back when adding fails. */
  function UpdateAbilities(abilities: Abilities, id: int, c: Channel): Abilities {
    if CanAdd(Without(abilities, id), id, c) then Without(abilities, id) + Required(id, c) else abilities
  }

  /** Zero-valued columns take their defaults on insertion. */
  function WithDefaults(c: Channel): Channel {
    c.(status := if c.status == 0 then CHANNEL_STATUS_ENABLED else c.status,
       group := if c.group == "" then "default" else c.group)
  }

  /** An update writes the non-zero columns of what it is given. */
  datatype Patch = Patch(status: int, models: string, group: string, priority: Option<int>)

  function Merge(c: Channel, p: Patch): Channel {
    Channel(if p.status != 0 then p.status else c.status,
            if p.models != "" then p.models else c.models,
            if p.group != "" then p.group else c.group,
            if p.priority.Some? then p.priority.value else c.priority)
  }

  /** Without a row to merge with, abilities are built from the patch alone. */
  function Bare(p: Patch): Channel {
    Merge(Channel(0, "", "", 0), p)
  }

  /** A channel to be created, and the id the database hands out for it. */
  datatype Row = Row(id: int, c: Channel)

  /** All rows are created by one INSERT. */
  function CreateAll(channels: map<int, Channel>, rows: seq<Row>): map<int, Channel>
    decreases |rows|
  {
    if rows == [] then channels else CreateAll(channels[rows[0].id := WithDefaults(rows[0].c)], rows[1..])
  }

  /** Then each gets its abilities, until one fails; those after it get none. */
  function AddAll(abilities: Abilities, rows: seq<Row>): Abilities
    decreases |rows|
  {
    if rows == [] || !CanAdd(abilities, rows[0].id, WithDefaults(rows[0].c)) then abilities
    else AddAll(AddAbilities(abilities, rows[0].id, WithDefaults(rows[0].c)), rows[1..])
  }

  datatype Event =
    | Insert(rows: seq<Row>)
    | Update(id: int, p: Patch)
    | SetStatus(id: int, status: int)
    | Delete(id: int)
    | DeleteDisabled

  function WithStatus(abilities: Abilities, id: int, enabled: bool): Abilities {
    map k | k in abilities :: if k.channelId == id then abilities[k].(enabled := enabled) else abilities[k]
  }

  predicate Disabled(c: Channel) {
    c.status == CHANNEL_STATUS_AUTO_DISABLED || c.status == CHANNEL_STATUS_MANUALLY_DISABLED
  }

  function Step(t: Tables, e: Event): Tables {
    match e
    case Insert(rows) => Tables(CreateAll(t.channels, rows), AddAll(t.abilities, rows))
    case Update(id, p) =>
      if id in t.channels then
        var c := Merge(t.channels[id], p);
        Tables(t.channels[id := c], UpdateAbilities(t.abilities, id, c))
      else t.(abilities := UpdateAbilities(t.abilities, id, Bare(p)))
    case SetStatus(id, status) =>
      Tables(if id in t.channels then t.channels[id := t.channels[id].(status := status)] else t.channels,
             WithStatus(t.abilities, id, status == CHANNEL_STATUS_ENABLED))
    case Delete(id) => Tables(t.channels - {id}, Without(t.abilities, id))
    case DeleteDisabled =>
      t.(channels := map id | id in t.channels && !Disabled(t.channels[id]) :: t.channels[id])
  }

  /** Ids are handed out by the database and never reused, not even by rows left behind. */
  ghost predicate Possible(t: Tables, e: Event) {
    e.Insert? ==> Fresh(t.abilities, e.rows) && forall r :: r in e.rows ==> r.id !in t.channels
  }

  ghost predicate Fresh(abilities: Abilities, rows: seq<Row>) {
    && (forall r, k :: r in rows && k in abilities ==> k.channelId != r.id)
    && (forall i, j :: 0 <= i < j < |rows| ==> rows[i].id != rows[j].id)
  }

  function GroupsOf(r: Row): seq<string> { Split(WithDefaults(r.c).group) }

  /** What an insertion fills in, what an update overwrites, and what the statuses mean. */
  lemma ColumnsAre(c: Channel, p: Patch)
    ensures WithDefaults(c).models == c.models && WithDefaults(c).priority == c.priority
    ensures WithDefaults(c).status == (if c.status == 0 then 1 else c.status)
    ensures WithDefaults(c).group == (if c.group == "" then "default" else c.group)
    ensures Merge(c, p).status == (if p.status == 0 then c.status else p.status)
    ensures Merge(c, p).models == (if p.models == "" then c.models else p.models)
    ensures Merge(c, p).group == (if p.group == "" then c.group else p.group)
    ensures Merge(c, p).priority == (match p.priority case None => c.priority case Some(v) => v)
    ensures Enabled(c) <==> c.status == 1
    ensures Disabled(c) <==> c.status == 2 || c.status == 3
  {
  }

  // ---------------------------------------------------------------- exactly when consistency is kept

  /** What a caller can check before the call. */
  ghost predicate Safe(t: Tables, e: Event) {
    match e
    case Insert(rows) => forall r :: r in rows ==> Distinct(GroupsOf(r))
    case Update(id, p) =>
      if id in t.channels then
        var was, c := t.channels[id], Merge(t.channels[id], p);
        // a group named twice rolls the rows back: harmless only if they would not have changed
        Distinct(Split(c.group)) || Required(id, c) == Required(id, was)
      else
        // nothing to update, but rows are created all the same
        p.status != CHANNEL_STATUS_ENABLED || !Distinct(Split(Bare(p).group))
    case SetStatus(id, status) =>
      id in t.channels || status != CHANNEL_STATUS_ENABLED || forall k :: k in t.abilities ==> k.channelId != id
    case Delete(_) => true
    case DeleteDisabled => true
  }

  lemma RequiredRows(id: int, c: Channel)
    ensures forall k :: k in Required(id, c) <==> k.channelId == id && Serves(c, k.group, k.model)
    ensures forall k :: k in Required(id, c) ==> Required(id, c)[k] == RequiredRow(c)
  {
    forall k: AbilityKey ensures k in Required(id, c) <==> k.channelId == id && Serves(c, k.group, k.model) {
      assert k == AbilityKey(k.group, k.model, k.channelId);
    }
  }

  /** A channel always calls for at least one row. */
  lemma SomeRow(c: Channel)
    ensures Serves(c, Split(c.group)[0], Split(c.models)[0])
  {
  }

  lemma RequiredMatches(abilities: Abilities, id: int, c: Channel)
    requires forall k :: k in abilities ==> k.channelId != id
    ensures Matches(abilities + Required(id, c), id, c)
    ensures !Matches(abilities, id, c)
  {
    RequiredRows(id, c);
    SomeRow(c);
    assert AbilityKey(Split(c.group)[0], Split(c.models)[0], id) !in abilities;
  }

  /** Changing the rows of one channel leaves every other channel matched. */
  lemma OthersMatch(before: Abilities, after: Abilities, id: int, other: int, c: Channel)
    requires other != id && Matches(before, other, c)
    requires forall k: AbilityKey :: k.channelId != id ==> (k in before <==> k in after)
    requires forall k: AbilityKey :: k.channelId != id && k in before && k in after ==> before[k] == after[k]
    ensures Matches(after, other, c)
  {
    forall k: AbilityKey | k.channelId == other
      ensures (k in after <==> Serves(c, k.group, k.model)) && (k in after ==> after[k] == RequiredRow(c))
    {
      assert k in before <==> Serves(c, k.group, k.model);
    }
  }

  /** How many channels of a batch get their abilities: those before the first that names a group twice. */
  function Good(rows: seq<Row>): (n: nat)
    ensures n <= |rows|
  {
    if rows == [] || !Distinct(GroupsOf(rows[0])) then 0 else 1 + Good(rows[1..])
  }

  lemma {:induction false} GoodPrefix(rows: seq<Row>)
    ensures forall i :: 0 <= i < Good(rows) ==> Distinct(GroupsOf(rows[i]))
    ensures Good(rows) < |rows| ==> !Distinct(GroupsOf(rows[Good(rows)]))
  {
    if rows != [] && Distinct(GroupsOf(rows[0])) {
      GoodPrefix(rows[1..]);
      forall i | 0 <= i < Good(rows) ensures Distinct(GroupsOf(rows[i])) {
        if i > 0 { assert rows[1..][i - 1] == rows[i]; }
      }
    }
  }

  ghost predicate HasId(rows: seq<Row>, id: int) {
    exists r :: r in rows && r.id == id
  }

  lemma {:induction false} CreateAllRows(channels: map<int, Channel>, rows: seq<Row>)
    requires forall i, j :: 0 <= i < j < |rows| ==> rows[i].id != rows[j].id
    ensures forall r :: r in rows ==>
              r.id in CreateAll(channels, rows) && CreateAll(channels, rows)[r.id] == WithDefaults(r.c)
    ensures forall id :: !HasId(rows, id) ==> (id in CreateAll(channels, rows) <==> id in channels)
    ensures forall id :: !HasId(rows, id) && id in channels ==> CreateAll(channels, rows)[id] == channels[id]
    decreases |rows|
  {
    if rows != [] {
      var head, rest := rows[0], rows[1..];
      var after := CreateAll(channels[head.id := WithDefaults(head.c)], rest);
      CreateAllRows(channels[head.id := WithDefaults(head.c)], rest);
      HeadIsApart(rows);
      forall r | r in rows ensures r.id in after && after[r.id] == WithDefaults(r.c) {
        assert r == head || r in rest;
      }
      forall id | !HasId(rows, id) ensures !HasId(rest, id) && id != head.id {
        assert head in rows && forall r :: r in rest ==> r in rows;
      }
    }
  }

  lemma HeadIsApart(rows: seq<Row>)
    requires rows != [] && forall i, j :: 0 <= i < j < |rows| ==> rows[i].id != rows[j].id
    ensures !HasId(rows[1..], rows[0].id)
    ensures forall r :: r in rows <==> r == rows[0] || r in rows[1..]
  {
    forall r | r in rows[1..] ensures r.id != rows[0].id {
      var j :| 0 <= j < |rows| - 1 && rows[1..][j] == r;
      assert rows[0].id != rows[j + 1].id;
    }
    assert rows == [rows[0]] + rows[1..];
  }

  /** The rows of the good ones are there, those of the others are not, and nobody else's are touched. */
  lemma {:induction false} AddAllMatches(abilities: Abilities, rows: seq<Row>)
    requires Fresh(abilities, rows)
    ensures forall k: AbilityKey :: !HasId(rows, k.channelId) ==> (k in AddAll(abilities, rows) <==> k in abilities)
    ensures forall k: AbilityKey :: !HasId(rows, k.channelId) && k in abilities ==>
              AddAll(abilities, rows)[k] == abilities[k]
    ensures forall i :: 0 <= i < Good(rows) ==> Matches(AddAll(abilities, rows), rows[i].id, WithDefaults(rows[i].c))
    ensures forall i, k :: Good(rows) <= i < |rows| && k in AddAll(abilities, rows) ==> k.channelId != rows[i].id
    decreases |rows|
  {
    if rows != [] {
      assert forall r, k :: r in rows && k in abilities ==> k.channelId != r.id;
      var head, rest, full := rows[0], rows[1..], WithDefaults(rows[0].c);
      RequiredRows(head.id, full);
      assert head in rows;
      assert CanAdd(abilities, head.id, full) <==> Distinct(GroupsOf(head));
      if Distinct(GroupsOf(head)) {
        HeadIsApart(rows);
        AddHead(abilities, rows, AddAbilities(abilities, head.id, full));
        AddAllMatches(AddAbilities(abilities, head.id, full), rest);
        AddRest(abilities, rows, AddAbilities(abilities, head.id, full), AddAll(abilities, rows));
      } else {
        forall i, k | 0 <= i < |rows| && k in abilities ensures k.channelId != rows[i].id { assert rows[i] in rows; }
      }
    }
  }

  lemma AddHead(abilities: Abilities, rows: seq<Row>, more: Abilities)
    requires rows != [] && Fresh(abilities, rows) && !HasId(rows[1..], rows[0].id)
    requires more == abilities + Required(rows[0].id, WithDefaults(rows[0].c))
    ensures Fresh(more, rows[1..]) && Matches(more, rows[0].id, WithDefaults(rows[0].c))
    ensures forall k: AbilityKey :: k.channelId != rows[0].id ==> (k in more <==> k in abilities)
    ensures forall k: AbilityKey :: k.channelId != rows[0].id && k in abilities ==> more[k] == abilities[k]
  {
    var head := rows[0];
    assert forall r, k :: r in rows && k in abilities ==> k.channelId != r.id;
    assert head in rows && forall r :: r in rows[1..] ==> r in rows;
    RequiredRows(head.id, WithDefaults(head.c));
    RequiredMatches(abilities, head.id, WithDefaults(head.c));
  }

  lemma AddRest(abilities: Abilities, rows: seq<Row>, more: Abilities, all: Abilities)
    requires rows != [] && Distinct(GroupsOf(rows[0])) && !HasId(rows[1..], rows[0].id)
    requires Matches(more, rows[0].id, WithDefaults(rows[0].c))
    requires forall k: AbilityKey :: k.channelId != rows[0].id ==> (k in more <==> k in abilities)
    requires forall k: AbilityKey :: k.channelId != rows[0].id && k in abilities ==> more[k] == abilities[k]
    requires forall k: AbilityKey :: !HasId(rows[1..], k.channelId) ==> (k in all <==> k in more)
    requires forall k: AbilityKey :: !HasId(rows[1..], k.channelId) && k in more ==> all[k] == more[k]
    requires forall i :: 0 <= i < Good(rows[1..]) ==> Matches(all, rows[1..][i].id, WithDefaults(rows[1..][i].c))
    requires forall i, k :: Good(rows[1..]) <= i < |rows| - 1 && k in all ==> k.channelId != rows[1..][i].id
    ensures forall k: AbilityKey :: !HasId(rows, k.channelId) ==> (k in all <==> k in abilities)
    ensures forall k: AbilityKey :: !HasId(rows, k.channelId) && k in abilities ==> all[k] == abilities[k]
    ensures forall i :: 0 <= i < Good(rows) ==> Matches(all, rows[i].id, WithDefaults(rows[i].c))
    ensures forall i, k :: Good(rows) <= i < |rows| && k in all ==> k.channelId != rows[i].id
  {
    var head, rest := rows[0], rows[1..];
    assert head in rows && forall r :: r in rest ==> r in rows;
    forall id | !HasId(rows, id) ensures !HasId(rest, id) && id != head.id {}
    forall i | 0 <= i < Good(rows) ensures Matches(all, rows[i].id, WithDefaults(rows[i].c)) {
      if i == 0 {
        SameRowsMatch(more, all, head.id, WithDefaults(head.c));
      } else {
        assert rest[i - 1] == rows[i] && Matches(all, rest[i - 1].id, WithDefaults(rest[i - 1].c));
      }
    }
    forall i, k | Good(rows) <= i < |rows| && k in all ensures k.channelId != rows[i].id {
      assert rest[i - 1] == rows[i];
    }
  }

  lemma SameRowsMatch(before: Abilities, after: Abilities, id: int, c: Channel)
    requires Matches(before, id, c)
    requires forall k: AbilityKey :: k.channelId == id ==> (k in before <==> k in after)
    requires forall k: AbilityKey :: k.channelId == id && k in before ==> before[k] == after[k]
    ensures Matches(after, id, c)
  {
    forall k: AbilityKey | k.channelId == id
      ensures (k in after <==> Serves(c, k.group, k.model)) && (k in after ==> after[k] == RequiredRow(c))
    {
      assert k in before <==> Serves(c, k.group, k.model);
    }
  }

  /** A channel that was there before a batch keeps its row and its abilities. */
  lemma InsertKeepsOthers(t: Tables, rows: seq<Row>, id: int)
    requires Possible(t, Insert(rows)) && id in t.channels
    ensures var after := Step(t, Insert(rows));
      !HasId(rows, id) && id in after.channels && after.channels[id] == t.channels[id]
    ensures Matches(t.abilities, id, t.channels[id]) ==> Matches(Step(t, Insert(rows)).abilities, id, t.channels[id])
  {
    assert forall r :: r in rows ==> r.id !in t.channels;
    CreateAllRows(t.channels, rows);
    AddAllMatches(t.abilities, rows);
    if Matches(t.abilities, id, t.channels[id]) {
      SameRowsMatch(t.abilities, AddAll(t.abilities, rows), id, t.channels[id]);
    }
  }

  lemma InsertIff(t: Tables, rows: seq<Row>)
    requires Consistent(t) && Possible(t, Insert(rows))
    ensures Consistent(Step(t, Insert(rows))) <==> Safe(t, Insert(rows))
  {
    var after := Step(t, Insert(rows));
    CreateAllRows(t.channels, rows);
    AddAllMatches(t.abilities, rows);
    GoodPrefix(rows);
    if Good(rows) < |rows| {
      var r := rows[Good(rows)];
      assert r in rows && !Distinct(GroupsOf(r));
      SomeRow(WithDefaults(r.c));
      NoRowsNoMatch(after.abilities, r.id, WithDefaults(r.c));
      assert after.channels[r.id] == WithDefaults(r.c);
    } else {
      forall id | id in after.channels ensures Matches(after.abilities, id, after.channels[id]) {
        if HasId(rows, id) {
          var i :| 0 <= i < |rows| && rows[i].id == id;
          assert rows[i] in rows;
        } else {
          InsertKeepsOthers(t, rows, id);
          assert Matches(t.abilities, id, t.channels[id]);
        }
      }
      forall k | k in after.abilities && k.channelId !in after.channels ensures !after.abilities[k].enabled {
        assert forall r :: r in rows ==> r.id in after.channels;
        assert !HasId(rows, k.channelId);
        assert k in t.abilities && k.channelId !in t.channels;
      }
    }
  }

  lemma NoRowsNoMatch(abilities: Abilities, id: int, c: Channel)
    requires forall k :: k in abilities ==> k.channelId != id
    ensures !Matches(abilities, id, c)
  {
    SomeRow(c);
    assert AbilityKey(Split(c.group)[0], Split(c.models)[0], id) !in abilities;
  }

  /** Rolling back keeps the old rows, which match the new columns only if those call for the same rows. */
  lemma UnchangedRowsMatch(abilities: Abilities, id: int, was: Channel, c: Channel)
    requires Matches(abilities, id, was)
    ensures Matches(abilities, id, c) <==> Required(id, c) == Required(id, was)
  {
    RequiredRows(id, c);
    RequiredRows(id, was);
    if Matches(abilities, id, c) {
      forall k ensures k in Required(id, c) <==> k in Required(id, was) {
        if k.channelId == id { assert k in abilities <==> Serves(c, k.group, k.model); }
      }
      forall k | k in Required(id, c) ensures Required(id, c)[k] == Required(id, was)[k] {
        assert k in abilities && k in Required(id, was);
      }
      assert Required(id, c) == Required(id, was);
    } else if Required(id, c) == Required(id, was) {
      forall k: AbilityKey | k.channelId == id
        ensures (k in abilities <==> Serves(c, k.group, k.model)) && (k in abilities ==> abilities[k] == RequiredRow(c))
      {
        assert k in Required(id, c) <==> k in Required(id, was);
        if k in abilities {
          assert Required(id, c)[k] == Required(id, was)[k];
        }
      }
    }
  }

  lemma UpdateLiveIff(t: Tables, id: int, p: Patch)
    requires Consistent(t) && id in t.channels
    ensures Consistent(Step(t, Update(id, p))) <==> Safe(t, Update(id, p))
  {
    var c, after := Merge(t.channels[id], p), Step(t, Update(id, p));
    var rest := Without(t.abilities, id);
    RequiredRows(id, c);
    RequiredMatches(rest, id, c);
    UnchangedRowsMatch(t.abilities, id, t.channels[id], c);
    assert CanAdd(rest, id, c) <==> Distinct(Split(c.group));
    assert Matches(after.abilities, id, c) <==> Safe(t, Update(id, p));
    if Safe(t, Update(id, p)) {
      forall other | other in after.channels ensures Matches(after.abilities, other, after.channels[other]) {
        if other != id {
          OthersMatch(t.abilities, after.abilities, id, other, t.channels[other]);
        }
      }
    } else {
      assert after.channels[id] == c;
    }
  }

  lemma UpdateDeadIff(t: Tables, id: int, p: Patch)
    requires Consistent(t) && id !in t.channels
    ensures Consistent(Step(t, Update(id, p))) <==> Safe(t, Update(id, p))
  {
    var c, after := Bare(p), Step(t, Update(id, p));
    var rest := Without(t.abilities, id);
    RequiredRows(id, c);
    SomeRow(c);
    assert CanAdd(rest, id, c) <==> Distinct(Split(c.group));
    forall other | other in after.channels ensures Matches(after.abilities, other, after.channels[other]) {
      OthersMatch(t.abilities, after.abilities, id, other, t.channels[other]);
    }
    if CanAdd(rest, id, c) {
      var k := AbilityKey(Split(c.group)[0], Split(c.models)[0], id);
      assert k in Required(id, c) && after.abilities[k] == RequiredRow(c);
    }
  }

  lemma SetStatusIff(t: Tables, id: int, status: int)
    requires Consistent(t)
    ensures Consistent(Step(t, SetStatus(id, status))) <==> Safe(t, SetStatus(id, status))
  {
    var after := Step(t, SetStatus(id, status));
    forall other | other in after.channels ensures Matches(after.abilities, other, after.channels[other]) {
      if other != id {
        OthersMatch(t.abilities, after.abilities, id, other, t.channels[other]);
      } else {
        assert Matches(t.abilities, id, t.channels[id]);
      }
    }
    if id !in t.channels && status == CHANNEL_STATUS_ENABLED && exists k :: k in t.abilities && k.channelId == id {
      var k :| k in t.abilities && k.channelId == id;
      assert after.abilities[k].enabled;
    }
  }

  lemma DeletionsKeepConsistency(t: Tables, e: Event)
    requires Consistent(t) && (e.Delete? || e.DeleteDisabled?)
    ensures Consistent(Step(t, e))
  {
    var after := Step(t, e);
    if e.Delete? {
      forall other | other in after.channels ensures Matches(after.abilities, other, after.channels[other]) {
        OthersMatch(t.abilities, after.abilities, e.id, other, t.channels[other]);
      }
    } else {
      forall k | k in after.abilities && k.channelId !in after.channels ensures !after.abilities[k].enabled {
        if k.channelId in t.channels {
          assert Matches(t.abilities, k.channelId, t.channels[k.channelId]);
        }
      }
    }
  }

  /** Every operation keeps the tables consistent exactly when it is safe. */
  lemma StepConsistentIff(t: Tables, e: Event)
    requires Consistent(t) && Possible(t, e)
    ensures Consistent(Step(t, e)) <==> Safe(t, e)
  {
    match e
    case Insert(rows) => InsertIff(t, rows);
    case Update(id, p) => if id in t.channels { UpdateLiveIff(t, id, p); } else { UpdateDeadIff(t, id, p); }
    case SetStatus(id, status) => SetStatusIff(t, id, status);
    case _ => DeletionsKeepConsistency(t, e);
  }

  function Run(t: Tables, es: seq<Event>): Tables {
    if es == [] then t else Step(Run(t, es[..|es| - 1]), es[|es| - 1])
  }

  ghost predicate AllSafe(t: Tables, es: seq<Event>) {
    forall n :: 0 <= n < |es| ==> Possible(Run(t, es[..n]), es[n]) && Safe(Run(t, es[..n]), es[n])
  }

  /** Over every run of safe operations. */
  lemma {:induction false} RunKeepsConsistency(t: Tables, es: seq<Event>)
    requires Consistent(t) && AllSafe(t, es)
    ensures Consistent(Run(t, es))
  {
    if es != [] {
      var before := es[..|es| - 1];
      forall n | 0 <= n < |before|
        ensures Possible(Run(t, before[..n]), before[n]) && Safe(Run(t, before[..n]), before[n])
      {
        assert before[..n] == es[..n] && before[n] == es[n];
        assert Safe(Run(t, es[..n]), es[n]);
      }
      RunKeepsConsistency(t, before);
      assert Safe(Run(t, es[..|es| - 1]), es[|es| - 1]);
      StepConsistentIff(Run(t, before), es[|es| - 1]);
    }
  }

  /** Every enabled row points to a live, enabled channel that serves its group and model. */
  lemma EnabledRowsAreLive(t: Tables, k: AbilityKey)
    requires Consistent(t) && k in t.abilities && t.abilities[k].enabled
    ensures k.channelId in t.channels
    ensures Enabled(t.channels[k.channelId]) && Serves(t.channels[k.channelId], k.group, k.model)
    ensures t.abilities[k].priority == t.channels[k.channelId].priority
  {
    assert k.channelId in t.channels;
    assert Matches(t.abilities, k.channelId, t.channels[k.channelId]);
  }
}
