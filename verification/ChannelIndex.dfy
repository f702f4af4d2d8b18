/**
 The in-memory channel index and the choice made from it (model/cache.go), against the SQL choice it
 speeds up (model/ability.go), and when a channel operation makes the next build fail.
 */
module ChannelIndex {
  import opened Options
  import opened Channels

  type Index = map<string, map<string, seq<int>>>

  // ---------------------------------------------------------------- building it

  function Groups(t: Tables): set<string> {
    set k | k in t.abilities :: k.group
  }

  /** The enabled channels that serve a model in a group. */
  function Serving(t: Tables, group: string, model: string): set<int> {
    set id | id in t.channels && Enabled(t.channels[id]) && Serves(t.channels[id], group, model)
  }

  /** No enabled channel is in a group without any ability row; else the build writes into a nil map. */
  ghost predicate Covered(t: Tables) {
    forall id, g :: id in t.channels && Enabled(t.channels[id]) && g in Split(t.channels[id].group) ==> g in Groups(t)
  }

  function Priority(t: Tables, id: int): int {
    if id in t.channels then t.channels[id].priority else 0
  }

  predicate SortedByPriority(t: Tables, ids: seq<int>) {
    forall i, j :: 0 <= i <= j < |ids| ==> Priority(t, ids[i]) >= Priority(t, ids[j])
  }

  predicate Lists(index: Index, group: string, model: string, id: int) {
    group in index && model in index[group] && id in index[group][model]
  }

  /** One list of the index: not empty, and sorted. */
  ghost predicate GoodList(t: Tables, ids: seq<int>) {
    ids != [] && SortedByPriority(t, ids)
  }

  ghost predicate NoEmptyList(index: Index) {
    forall g, m :: g in index && m in index[g] ==> index[g][m] != []
  }

  /** Appends one channel to every list of one of its groups; writing into a missing group fails. */
  method AddModels(index: Index, group: string, models: seq<string>, id: int) returns (after: Index)
    requires group in index && NoEmptyList(index)
    ensures after.Keys == index.Keys && NoEmptyList(after)
    ensures forall g, m, x :: Lists(after, g, m, x) <==> Lists(index, g, m, x) || (g == group && m in models && x == id)
  {
    after := index;
    var j := 0;
    while j < |models|
      invariant 0 <= j <= |models|
      invariant after.Keys == index.Keys && NoEmptyList(after)
      invariant forall g, m, x :: Lists(after, g, m, x) <==>
        Lists(index, g, m, x) || (g == group && m in models[..j] && x == id)
    {
      var model := models[j];
      ghost var before := after;
      assert models[..j + 1] == models[..j] + [model];
      var lists := after[group];
      if model !in lists {
        lists := lists[model := []];
      }
      lists := lists[model := lists[model] + [id]];
      after := after[group := lists];
      forall g, m, x ensures Lists(after, g, m, x) <==>
        Lists(before, g, m, x) || (g == group && m == model && x == id)
      {
        if g == group && m == model {
          assert after[g][m] == (if model in before[group] then before[group][model] else []) + [id];
        }
      }
      j := j + 1;
    }
    assert models[..j] == models;
  }

  /** One channel, in every group it names; fails at the first group that has no map. */
  method AddChannel(index: Index, c: Channel, id: int) returns (ok: bool, after: Index)
    requires NoEmptyList(index)
    ensures ok <==> forall g :: g in Split(c.group) ==> g in index
    ensures ok ==> after.Keys == index.Keys && NoEmptyList(after)
    ensures ok ==> forall g, m, x :: Lists(after, g, m, x) <==> Lists(index, g, m, x) || (Serves(c, g, m) && x == id)
  {
    var groups := Split(c.group);
    after := index;
    var i := 0;
    while i < |groups|
      invariant 0 <= i <= |groups|
      invariant forall g :: g in groups[..i] ==> g in index
      invariant after.Keys == index.Keys && NoEmptyList(after)
      invariant forall g, m, x :: Lists(after, g, m, x) <==>
        (Lists(index, g, m, x) || (g in groups[..i] && m in Split(c.models) && x == id))
    {
      assert groups[i] in groups;
      if groups[i] !in after {
        return false, after;
      }
      after := AddModels(after, groups[i], Split(c.models), id);
      assert groups[..i + 1] == groups[..i] + [groups[i]];
      i := i + 1;
    }
    assert groups[..i] == groups;
    assert forall g :: g in groups ==> g in groups[..i];
    return true, after;
  }

  lemma SortedInsert(t: Tables, s: seq<int>, n: nat, id: int, r: seq<int>)
    requires n <= |s| && SortedByPriority(t, s) && r == s[..n] + [id] + s[n..]
    requires forall i :: 0 <= i < n ==> Priority(t, s[i]) >= Priority(t, id)
    requires n < |s| ==> Priority(t, s[n]) < Priority(t, id)
    ensures SortedByPriority(t, r)
  {
    forall i, j | 0 <= i <= j < |r| ensures Priority(t, r[i]) >= Priority(t, r[j]) {
      var a, b := if i < n then i else i - 1, if j < n then j else j - 1;
      assert i != n ==> r[i] == s[a];
      assert j != n ==> r[j] == s[b];
      if j > n { assert Priority(t, s[n]) >= Priority(t, s[b]); }
    }
  }

  lemma InsertedOnce(s: seq<int>, n: nat, id: int, r: seq<int>)
    requires n <= |s| && r == s[..n] + [id] + s[n..]
    ensures multiset(r) == multiset(s) + multiset{id}
  {
    assert s == s[..n] + s[n..];
  }

  /** Where a channel goes in a list sorted by descending priority. */
  method InsertByPriority(t: Tables, sorted: seq<int>, id: int) returns (r: seq<int>)
    requires SortedByPriority(t, sorted)
    ensures SortedByPriority(t, r)
    ensures multiset(r) == multiset(sorted) + multiset{id}
  {
    var n := 0;
    while n < |sorted| && Priority(t, sorted[n]) >= Priority(t, id)
      invariant 0 <= n <= |sorted|
      invariant forall i :: 0 <= i < n ==> Priority(t, sorted[i]) >= Priority(t, id)
    {
      n := n + 1;
    }
    r := sorted[..n] + [id] + sorted[n..];
    SortedInsert(t, sorted, n, id, r);
    InsertedOnce(sorted, n, id, r);
  }

  /** sort.Slice by descending priority; the order among equals is whatever comes out. */
  method SortByPriority(t: Tables, ids: seq<int>) returns (sorted: seq<int>)
    ensures SortedByPriority(t, sorted) && multiset(sorted) == multiset(ids)
  {
    sorted := [];
    var i := 0;
    while i < |ids|
      invariant 0 <= i <= |ids|
      invariant SortedByPriority(t, sorted) && multiset(sorted) == multiset(ids[..i])
    {
      assert ids[..i + 1] == ids[..i] + [ids[i]];
      sorted := InsertByPriority(t, sorted, ids[i]);
      i := i + 1;
    }
    assert ids[..i] == ids;
  }

  lemma SameElements(a: seq<int>, b: seq<int>)
    requires multiset(a) == multiset(b)
    ensures forall x :: x in a <==> x in b
    ensures |a| == |b|
  {
    forall x ensures x in a <==> x in b {
      assert x in a <==> x in multiset(a);
      assert x in b <==> x in multiset(b);
    }
    assert |multiset(a)| == |a| && |multiset(b)| == |b|;
  }

  /** Sorts every list of one group. */
  method SortGroup(t: Tables, lists: map<string, seq<int>>) returns (sorted: map<string, seq<int>>)
    requires forall m :: m in lists ==> lists[m] != []
    ensures sorted.Keys == lists.Keys
    ensures forall m :: m in lists ==> GoodList(t, sorted[m])
    ensures forall m, x :: m in lists ==> (x in sorted[m] <==> x in lists[m])
  {
    sorted := lists;
    var todo := lists.Keys;
    while exists m :: m in todo
      invariant sorted.Keys == lists.Keys && todo <= lists.Keys
      invariant forall m :: m in todo ==> sorted[m] == lists[m]
      invariant forall m :: m in lists && m !in todo ==> GoodList(t, sorted[m])
      invariant forall m, x :: m in lists ==> (x in sorted[m] <==> x in lists[m])
      decreases todo
    {
      var m :| m in todo;
      var ids := SortByPriority(t, lists[m]);
      SameElements(ids, lists[m]);
      sorted := sorted[m := ids];
      todo := todo - {m};
    }
  }

  /** What a built index holds. */
  ghost predicate IndexOf(t: Tables, index: Index) {
    && Covered(t)
    && index.Keys == Groups(t)
    && (forall g, m :: g in index && m in index[g] ==> GoodList(t, index[g][m]))
    && (forall g, m, x :: g in index ==> (Lists(index, g, m, x) <==> x in Serving(t, g, m)))
  }

  /** InitChannelCache: succeeds exactly when every group of an enabled channel has an ability row. */
  method InitChannelCache(t: Tables) returns (ok: bool, index: Index)
    ensures ok <==> Covered(t)
    ensures ok ==> IndexOf(t, index)
  {
    index := map g | g in Groups(t) :: map[];
    var todo := set id | id in t.channels && Enabled(t.channels[id]);
    ghost var done: set<int> := {};
    while exists id :: id in todo
      invariant forall id :: id in todo || id in done <==> id in t.channels && Enabled(t.channels[id])
      invariant forall id, g :: id in done && g in Split(t.channels[id].group) ==> g in Groups(t)
      invariant index.Keys == Groups(t) && NoEmptyList(index)
      invariant forall g, m, x :: Lists(index, g, m, x) <==> x in done && Serves(t.channels[x], g, m)
      decreases todo
    {
      var id :| id in todo;
      ghost var before := index;
      ok, index := AddChannel(index, t.channels[id], id);
      if !ok {
        return;
      }
      todo, done := todo - {id}, done + {id};
    }
    assert forall g, m, x :: g in index ==> (Lists(index, g, m, x) <==> x in Serving(t, g, m));
    index := SortIndex(t, index);
    ok := true;
  }

  /** The second half of it: every list of every group is sorted. */
  method SortIndex(t: Tables, unsorted: Index) returns (index: Index)
    requires NoEmptyList(unsorted)
    ensures index.Keys == unsorted.Keys
    ensures forall g, m :: g in index && m in index[g] ==> GoodList(t, index[g][m])
    ensures forall g, m, x :: Lists(index, g, m, x) <==> Lists(unsorted, g, m, x)
  {
    index := unsorted;
    var groups := index.Keys;
    while exists g :: g in groups
      invariant index.Keys == unsorted.Keys && groups <= index.Keys
      invariant NoEmptyList(index)
      invariant forall g, m :: g in index && g !in groups && m in index[g] ==> GoodList(t, index[g][m])
      invariant forall g, m, x :: Lists(index, g, m, x) <==> Lists(unsorted, g, m, x)
      decreases groups
    {
      var g :| g in groups;
      ghost var before := index;
      var lists := SortGroup(t, index[g]);
      index := index[g := lists];
      forall h, m, x ensures Lists(index, h, m, x) <==> Lists(before, h, m, x) {
        if h == g && m in before[g] { assert x in lists[m] <==> x in before[g][m]; }
      }
      groups := groups - {g};
    }
  }

  // ---------------------------------------------------------------- choosing from it

  /** Where the top priority ends; a top priority of zero or less is not separated. */
  function EndIdx(t: Tables, ids: seq<int>): nat
    requires ids != []
  {
    if Priority(t, ids[0]) <= 0 then |ids| else TopRun(t, ids, 0)
  }

  function TopRun(t: Tables, ids: seq<int>, i: nat): nat
    requires ids != [] && i <= |ids|
    decreases |ids| - i
  {
    if i == |ids| || Priority(t, ids[i]) != Priority(t, ids[0]) then i else TopRun(t, ids, i + 1)
  }

  /** The part of a list a channel is drawn from. */
  function Candidates(t: Tables, ids: seq<int>, ignoreFirstPriority: bool): seq<int>
    requires ids != []
  {
    var end := EndIdx(t, ids);
    if ignoreFirstPriority && end < |ids| then ids[end..]
    else if end <= |ids| then ids[..end]
    else ids
  }

  lemma {:induction false} TopRunSplits(t: Tables, ids: seq<int>, i: nat)
    requires ids != [] && i <= |ids|
    requires forall j :: 0 <= j < i ==> Priority(t, ids[j]) == Priority(t, ids[0])
    ensures i <= TopRun(t, ids, i) <= |ids|
    ensures forall j :: 0 <= j < TopRun(t, ids, i) ==> Priority(t, ids[j]) == Priority(t, ids[0])
    ensures var end := TopRun(t, ids, i); end < |ids| ==> Priority(t, ids[end]) != Priority(t, ids[0])
    decreases |ids| - i
  {
    if i < |ids| && Priority(t, ids[i]) == Priority(t, ids[0]) {
      TopRunSplits(t, ids, i + 1);
    }
  }

  /** rand.Intn draws below a positive bound; `roll` stands for the random source. */
  function Intn(roll: nat, n: nat): (r: nat)
    requires n > 0
    ensures r < n
  {
    roll % n
  }

  /** The channel drawn: `reroll` is the second draw made when lower levels are to be used. */
  function Choice(t: Tables, index: Index, group: string, model: string, ignoreFirstPriority: bool,
                  roll: nat, reroll: nat): Option<int>
  {
    if group !in index || model !in index[group] || index[group][model] == [] then None
    else
      var ids := index[group][model];
      var from := Candidates(t, ids, ignoreFirstPriority);
      if from == [] then None
      else Some(from[Intn(if ignoreFirstPriority && EndIdx(t, ids) < |ids| then reroll else roll, |from|)])
  }

  lemma SomeCandidate(t: Tables, ids: seq<int>, ignoreFirstPriority: bool)
    requires ids != []
    ensures 0 < EndIdx(t, ids) <= |ids| && Candidates(t, ids, ignoreFirstPriority) != []
  {
    TopRunSplits(t, ids, 0);
  }

  /** A draw fails exactly when no enabled channel serves the pair, and else gives one that does. */
  lemma ChoiceServes(t: Tables, index: Index, group: string, model: string, ignoreFirstPriority: bool,
                     roll: nat, reroll: nat, c: Option<int>)
    requires IndexOf(t, index)
    requires c == Choice(t, index, group, model, ignoreFirstPriority, roll, reroll)
    ensures c.None? <==> Serving(t, group, model) == {}
    ensures c.Some? ==> c.value in Serving(t, group, model)
  {
    ListedIffServing(t, index, group, model);
    if group in index && model in index[group] {
      var ids := index[group][model];
      assert GoodList(t, ids);
      SomeCandidate(t, ids, ignoreFirstPriority);
      assert ids[0] in Serving(t, group, model);
      assert c.value in ids;
    } else {
      assert forall id :: id !in Serving(t, group, model);
    }
  }

  lemma ListedIffServing(t: Tables, index: Index, group: string, model: string)
    requires IndexOf(t, index)
    ensures forall id :: Lists(index, group, model, id) <==> id in Serving(t, group, model)
  {
    forall id ensures Lists(index, group, model, id) <==> id in Serving(t, group, model) {
      assert id in Serving(t, group, model) ==> group in Groups(t);
      if group in index {
        assert Lists(index, group, model, id) <==> id in Serving(t, group, model);
      }
    }
  }

  method CacheGetRandomSatisfiedChannel(t: Tables, index: Index, group: string, model: string,
                                        ignoreFirstPriority: bool, roll: nat, reroll: nat)
    returns (channel: Option<int>)
    ensures channel == Choice(t, index, group, model, ignoreFirstPriority, roll, reroll)
    ensures channel.None? <==> !(group in index && model in index[group] && index[group][model] != [])
  {
    if group !in index || model !in index[group] || index[group][model] == [] {
      return None;
    }
    var channels := index[group][model];
    SomeCandidate(t, channels, ignoreFirstPriority);
    var endIdx := |channels|;
    var first := channels[0];
    if Priority(t, first) > 0 {
      TopRunSplits(t, channels, 0);
      var i := 0;
      while i < |channels|
        invariant 0 <= i <= |channels| && endIdx == |channels|
        invariant TopRun(t, channels, 0) == TopRun(t, channels, i)
      {
        if Priority(t, channels[i]) != Priority(t, first) {
          endIdx := i;
          break;
        }
        i := i + 1;
      }
      assert endIdx == EndIdx(t, channels) && endIdx > 0;
    }
    var idx := Intn(roll, endIdx);
    if ignoreFirstPriority && endIdx < |channels| {
      idx := endIdx + Intn(reroll, |channels| - endIdx);
    }
    ChoiceAt(t, channels, ignoreFirstPriority, roll, reroll, idx);
    return Some(channels[idx]);
  }

  /** The position drawn, in the list and among the candidates. */
  lemma ChoiceAt(t: Tables, ids: seq<int>, ignoreFirstPriority: bool, roll: nat, reroll: nat, idx: int)
    requires ids != [] && 0 < EndIdx(t, ids) <= |ids|
    requires idx == if ignoreFirstPriority && EndIdx(t, ids) < |ids|
                    then EndIdx(t, ids) + Intn(reroll, |ids| - EndIdx(t, ids)) else Intn(roll, EndIdx(t, ids))
    ensures var from := Candidates(t, ids, ignoreFirstPriority);
      && from != [] && 0 <= idx < |ids|
      && ids[idx] == from[Intn(if ignoreFirstPriority && EndIdx(t, ids) < |ids| then reroll else roll, |from|)]
  {
  }

  // ---------------------------------------------------------------- against SQL

  /** The enabled ability rows of a group and model. */
  function EnabledRows(t: Tables, group: string, model: string): set<int> {
    set k | k in t.abilities && k.group == group && k.model == model && t.abilities[k].enabled :: k.channelId
  }

  /** What the SQL statement draws from: all enabled rows, or those of the maximal priority. */
  ghost predicate SqlCandidate(t: Tables, group: string, model: string, ignoreFirstPriority: bool, id: int) {
    var k := AbilityKey(group, model, id);
    && k in t.abilities && t.abilities[k].enabled
    && (ignoreFirstPriority || forall j ::
          j in t.abilities && j.group == group && j.model == model && t.abilities[j].enabled ==>
            t.abilities[j].priority <= t.abilities[k].priority)
  }

  lemma ServingIsEnabledRows(t: Tables, group: string, model: string)
    requires Consistent(t)
    ensures Serving(t, group, model) == EnabledRows(t, group, model)
    ensures forall id :: id in Serving(t, group, model) <==>
              (AbilityKey(group, model, id) in t.abilities && t.abilities[AbilityKey(group, model, id)].enabled)
    ensures forall id :: id in Serving(t, group, model) ==>
              t.abilities[AbilityKey(group, model, id)].priority == Priority(t, id)
  {
    forall id
      ensures id in Serving(t, group, model) <==>
        (AbilityKey(group, model, id) in t.abilities && t.abilities[AbilityKey(group, model, id)].enabled)
      ensures id in Serving(t, group, model) ==> t.abilities[AbilityKey(group, model, id)].priority == Priority(t, id)
    {
      var k := AbilityKey(group, model, id);
      if k in t.abilities && t.abilities[k].enabled { EnabledRowsAreLive(t, k); }
      if id in t.channels { assert Matches(t.abilities, id, t.channels[id]); }
    }
    forall id ensures id in Serving(t, group, model) <==> id in EnabledRows(t, group, model) {
      var key := AbilityKey(group, model, id);
      if id in EnabledRows(t, group, model) {
        var k :| k in t.abilities && k.group == group && k.model == model
          && t.abilities[k].enabled && k.channelId == id;
        assert k == key;
      }
      assert key in t.abilities && t.abilities[key].enabled ==> id in EnabledRows(t, group, model);
    }
  }

  /** Tables whose live channels have their rows never make the build fail. */
  lemma LiveRowsCover(t: Tables)
    requires forall id :: id in t.channels ==> Matches(t.abilities, id, t.channels[id])
    ensures Covered(t)
  {
    forall id, g | id in t.channels && Enabled(t.channels[id]) && g in Split(t.channels[id].group)
      ensures g in Groups(t)
    {
      var k := AbilityKey(g, Split(t.channels[id].models)[0], id);
      assert Matches(t.abilities, id, t.channels[id]);
      assert k in t.abilities && k.group == g;
    }
  }

  lemma ConsistentIsCovered(t: Tables)
    requires Consistent(t)
    ensures Covered(t)
  {
    LiveRowsCover(t);
  }

  /** What the list of an index offers, in terms of priorities. */
  lemma CandidatesByPriority(t: Tables, ids: seq<int>, ignoreFirstPriority: bool)
    requires GoodList(t, ids)
    ensures forall id :: id in Candidates(t, ids, ignoreFirstPriority) <==>
      (id in ids &&
       (Priority(t, ids[0]) <= 0
        || (!ignoreFirstPriority && Priority(t, id) == Priority(t, ids[0]))
        || (ignoreFirstPriority && (Priority(t, id) < Priority(t, ids[0]) || EndIdx(t, ids) == |ids|))))
    ensures forall id :: id in ids ==> Priority(t, id) <= Priority(t, ids[0])
    ensures Priority(t, ids[0]) > 0 ==>
      (EndIdx(t, ids) == |ids| <==> forall id :: id in ids ==> Priority(t, id) == Priority(t, ids[0]))
  {
    TopRunSplits(t, ids, 0);
    var end := EndIdx(t, ids);
    assert forall j :: end <= j < |ids| ==> Priority(t, ids[end]) >= Priority(t, ids[j]);
    if Priority(t, ids[0]) > 0 {
      assert forall j :: end <= j < |ids| ==> Priority(t, ids[j]) < Priority(t, ids[0]);
    }
    if end < |ids| { assert ids[end] in ids; }
    assert ids == ids[..end] + ids[end..];
  }

  predicate OneLevel(t: Tables, ids: seq<int>)
    requires ids != []
  {
    forall id :: id in ids ==> Priority(t, id) == Priority(t, ids[0])
  }

  /** A list of the index holds exactly the enabled rows; a missing list means there are none. */
  lemma IndexListsEnabledRows(t: Tables, index: Index, group: string, model: string)
    requires Consistent(t) && IndexOf(t, index)
    ensures forall id :: Lists(index, group, model, id) <==> id in EnabledRows(t, group, model)
    ensures (group in index && model in index[group]) <==> EnabledRows(t, group, model) != {}
  {
    ServingIsEnabledRows(t, group, model);
    forall id ensures Lists(index, group, model, id) <==> id in EnabledRows(t, group, model) {
      if group in index {
        assert Lists(index, group, model, id) <==> id in Serving(t, group, model);
      }
    }
    if group in index && model in index[group] {
      assert GoodList(t, index[group][model]);
      assert Lists(index, group, model, index[group][model][0]);
    } else {
      assert forall id :: !Lists(index, group, model, id);
    }
  }

  /** The SQL choice, in terms of priorities. */
  lemma SqlByPriority(t: Tables, ids: seq<int>, group: string, model: string, ignoreFirstPriority: bool)
    requires Consistent(t) && ids != []
    requires forall id :: id in ids <==> id in EnabledRows(t, group, model)
    requires forall id :: id in ids ==> Priority(t, id) <= Priority(t, ids[0])
    ensures forall id :: SqlCandidate(t, group, model, ignoreFirstPriority, id) <==>
      (id in ids && (ignoreFirstPriority || Priority(t, id) == Priority(t, ids[0])))
  {
    ServingIsEnabledRows(t, group, model);
    var top := AbilityKey(group, model, ids[0]);
    assert ids[0] in ids && top in t.abilities && t.abilities[top].priority == Priority(t, ids[0]);
    forall id
      ensures SqlCandidate(t, group, model, ignoreFirstPriority, id) <==>
        (id in ids && (ignoreFirstPriority || Priority(t, id) == Priority(t, ids[0])))
    {
      var k := AbilityKey(group, model, id);
      if id in ids && Priority(t, id) == Priority(t, ids[0]) {
        forall j | j in t.abilities && j.group == group && j.model == model && t.abilities[j].enabled
          ensures t.abilities[j].priority <= t.abilities[k].priority
        {
          assert j == AbilityKey(group, model, j.channelId);
          assert j.channelId in ids;
        }
      }
    }
  }

  /**
   The cached choice against the SQL choice.  It always picks among the enabled rows.  Respecting the top
   priority, both agree iff that priority is positive or is the only one; ignoring it, they agree iff it
   is not positive or is the only one - otherwise the cache offers exactly the lower levels.
   */
  lemma CacheAgainstSql(t: Tables, index: Index, group: string, model: string, ignoreFirstPriority: bool)
    requires Consistent(t) && IndexOf(t, index)
    requires group in index && model in index[group]
    ensures index[group][model] != []
    ensures var ids := index[group][model];
      var top := Priority(t, ids[0]);
      && (forall id :: id in Candidates(t, ids, ignoreFirstPriority) ==> id in EnabledRows(t, group, model))
      && ((forall id :: id in Candidates(t, ids, ignoreFirstPriority)
              <==> SqlCandidate(t, group, model, ignoreFirstPriority, id))
          <==> OneLevel(t, ids) || (if ignoreFirstPriority then top <= 0 else top > 0))
      && (ignoreFirstPriority && top > 0 && !OneLevel(t, ids) ==>
            forall id :: id in Candidates(t, ids, true) <==>
              id in EnabledRows(t, group, model) && Priority(t, id) < top)
  {
    var ids := index[group][model];
    IndexListsEnabledRows(t, index, group, model);
    assert GoodList(t, ids);
    assert forall id :: id in ids <==> Lists(index, group, model, id);
    CandidatesByPriority(t, ids, ignoreFirstPriority);
    SqlByPriority(t, ids, group, model, ignoreFirstPriority);
    if !OneLevel(t, ids) {
      var low :| low in ids && Priority(t, low) != Priority(t, ids[0]);
      assert ids[0] in ids;
      assert SqlCandidate(t, group, model, ignoreFirstPriority, low) <==> ignoreFirstPriority;
      assert SqlCandidate(t, group, model, ignoreFirstPriority, ids[0]);
    }
  }

  // ---------------------------------------------------------------- when an operation breaks the build

  /** A live channel whose columns can be rewritten without its own rows being there afterwards. */
  ghost predicate Harmless(t: Tables, c: Channel) {
    !Enabled(c) || Distinct(Split(c.group)) || forall g :: g in Split(c.group) ==> g in Groups(t)
  }

  /** The groups that have rows once a batch has got as far as it does. */
  ghost predicate Grouped(t: Tables, rows: seq<Row>, g: string) {
    g in Groups(t) || exists j :: 0 <= j < Good(rows) && g in GroupsOf(rows[j])
  }

  /** What a caller can check before the call. */
  ghost predicate BuildSafe(t: Tables, e: Event) {
    match e
    case Insert(rows) =>
      forall i, g :: Good(rows) <= i < |rows| && Enabled(WithDefaults(rows[i].c)) && g in GroupsOf(rows[i]) ==>
        Grouped(t, rows, g)
    case Update(id, p) => id in t.channels ==> Harmless(t, Merge(t.channels[id], p))
    case _ => true
  }

  /** Rows that stay as they were cover every other channel; the changed one must be covered by them too. */
  lemma OldRowsCoverIff(t: Tables, after: Tables, id: int)
    requires Consistent(t) && after.abilities == t.abilities && id in after.channels
    requires forall other :: other in after.channels && other != id ==>
               other in t.channels && t.channels[other] == after.channels[other]
    ensures Covered(after) <==>
      (!Enabled(after.channels[id]) || forall g :: g in Split(after.channels[id].group) ==> g in Groups(t))
  {
    ConsistentIsCovered(t);
    assert Groups(after) == Groups(t);
    assert forall other :: other in after.channels && other != id ==>
      other in t.channels && t.channels[other] == after.channels[other];
    forall other, g | other in after.channels && other != id
                     && Enabled(after.channels[other]) && g in Split(after.channels[other].group)
      ensures g in Groups(after)
    {
      assert other in t.channels && Enabled(t.channels[other]) && g in Split(t.channels[other].group);
    }
  }

  /**
   From consistent tables, the next build is able to finish after an operation iff it leaves no enabled
   channel without rows in a group that has none: in a batch, such a channel is the first that names a group
   twice or any after it; in an update, one that comes to name a group twice.
   */
  lemma StepBreaksBuildIff(t: Tables, e: Event)
    requires Consistent(t) && Possible(t, e)
    ensures Covered(Step(t, e)) <==> BuildSafe(t, e)
  {
    var after := Step(t, e);
    StepConsistentIff(t, e);
    if Consistent(after) {
      ConsistentIsCovered(after);
    }
    match e
    case Insert(rows) =>
      BatchCoversIff(t, rows, after);
    case Update(id, p) =>
      if id !in t.channels {
        DeadUpdateKeepsRows(t, id, p);
        LiveRowsCover(after);
      } else if !Distinct(Split(Merge(t.channels[id], p).group)) {
        OldRowsCoverIff(t, after, id);
      }
    case SetStatus(id, status) =>
      StatusKeepsRows(t, id, status);
      LiveRowsCover(after);
    case _ =>
  }

  lemma GroupsAfterBatch(t: Tables, rows: seq<Row>, after: Tables, g: string)
    requires Possible(t, Insert(rows)) && after == Step(t, Insert(rows))
    ensures g in Groups(after) <==> Grouped(t, rows, g)
  {
    AddAllMatches(t.abilities, rows);
    if g in Groups(t) {
      OldGroupStays(t, rows, after, g);
    }
    if j :| 0 <= j < Good(rows) && g in GroupsOf(rows[j]) {
      NewGroupIsThere(after.abilities, rows[j], g);
      assert g in Groups(after);
    }
    if g in Groups(after) {
      var k :| k in after.abilities && k.group == g;
      GroupHasSource(t, rows, after.abilities, k);
    }
  }

  lemma OldGroupStays(t: Tables, rows: seq<Row>, after: Tables, g: string)
    requires Possible(t, Insert(rows)) && g in Groups(t)
    requires forall k: AbilityKey :: !HasId(rows, k.channelId) ==> (k in after.abilities <==> k in t.abilities)
    ensures g in Groups(after)
  {
    assert forall r, k :: r in rows && k in t.abilities ==> k.channelId != r.id;
    var k :| k in t.abilities && k.group == g;
    assert !HasId(rows, k.channelId) && k in after.abilities;
  }

  lemma NewGroupIsThere(abilities: Abilities, r: Row, g: string)
    requires Matches(abilities, r.id, WithDefaults(r.c)) && g in GroupsOf(r)
    ensures exists k :: k in abilities && k.group == g
  {
    var k := AbilityKey(g, Split(WithDefaults(r.c).models)[0], r.id);
    assert k in abilities && k.group == g;
  }

  lemma GroupHasSource(t: Tables, rows: seq<Row>, abilities: Abilities, k: AbilityKey)
    requires k in abilities
    requires forall k: AbilityKey :: !HasId(rows, k.channelId) ==> (k in abilities <==> k in t.abilities)
    requires forall i :: 0 <= i < Good(rows) ==> Matches(abilities, rows[i].id, WithDefaults(rows[i].c))
    requires forall i, k :: Good(rows) <= i < |rows| && k in abilities ==> k.channelId != rows[i].id
    ensures Grouped(t, rows, k.group)
  {
    if HasId(rows, k.channelId) {
      var i :| 0 <= i < |rows| && rows[i].id == k.channelId;
      assert i < Good(rows) && Matches(abilities, rows[i].id, WithDefaults(rows[i].c));
      assert k.group in GroupsOf(rows[i]);
    } else {
      assert k in t.abilities;
    }
  }

  lemma BatchCoversIff(t: Tables, rows: seq<Row>, after: Tables)
    requires Consistent(t) && Possible(t, Insert(rows)) && after == Step(t, Insert(rows))
    ensures Covered(after) <==> BuildSafe(t, Insert(rows))
  {
    ConsistentIsCovered(t);
    CreateAllRows(t.channels, rows);
    forall g ensures g in Groups(after) <==> Grouped(t, rows, g) { GroupsAfterBatch(t, rows, after, g); }
    if Covered(after) {
      forall i, g | Good(rows) <= i < |rows| && Enabled(WithDefaults(rows[i].c)) && g in GroupsOf(rows[i])
        ensures Grouped(t, rows, g)
      {
        assert rows[i] in rows && after.channels[rows[i].id] == WithDefaults(rows[i].c);
        assert g in Groups(after);
      }
    }
    if BuildSafe(t, Insert(rows)) {
      forall id, g | id in after.channels && Enabled(after.channels[id]) && g in Split(after.channels[id].group)
        ensures g in Groups(after)
      {
        if HasId(rows, id) {
          var i :| 0 <= i < |rows| && rows[i].id == id;
          assert rows[i] in rows && after.channels[id] == WithDefaults(rows[i].c) && g in GroupsOf(rows[i]);
          assert Grouped(t, rows, g);
        } else {
          assert id in t.channels && after.channels[id] == t.channels[id] && g in Groups(t);
        }
      }
    }
  }

  lemma DeadUpdateKeepsRows(t: Tables, id: int, p: Patch)
    requires Consistent(t) && id !in t.channels
    ensures var after := Step(t, Update(id, p));
      forall other :: other in after.channels ==> Matches(after.abilities, other, after.channels[other])
  {
    var after := Step(t, Update(id, p));
    RequiredRows(id, Bare(p));
    forall other | other in after.channels ensures Matches(after.abilities, other, after.channels[other]) {
      OthersMatch(t.abilities, after.abilities, id, other, t.channels[other]);
    }
  }

  lemma StatusKeepsRows(t: Tables, id: int, status: int)
    requires Consistent(t)
    ensures var after := Step(t, SetStatus(id, status));
      forall other :: other in after.channels ==> Matches(after.abilities, other, after.channels[other])
  {
    var after := Step(t, SetStatus(id, status));
    forall other | other in after.channels ensures Matches(after.abilities, other, after.channels[other]) {
      assert Matches(t.abilities, other, t.channels[other]);
      if other != id { OthersMatch(t.abilities, after.abilities, id, other, t.channels[other]); }
    }
  }
}
