/**
 Choosing a channel for a request (middleware/distributor.go).  The index is rebuilt from time to time;
 between two builds requests are served from the tables as they were at the last one.
 */
module Distribution {
  import opened Options
  import opened Channels
  import opened ChannelIndex

  predicate AllBlocked(draws: nat -> Option<int>, blocked: set<int>, n: nat) {
    forall i :: 0 <= i < n ==> draws(i).Some? && draws(i).value in blocked
  }

  /** trySkipBlockedChannel: at most ten draws; the first channel drawn that is not blocked, if any. */
  method TrySkipBlockedChannel(draws: nat -> Option<int>, blocked: set<int>) returns (channel: Option<int>)
    ensures channel.Some? ==>
      channel.value !in blocked && exists n :: 0 <= n < 10 && AllBlocked(draws, blocked, n) && draws(n) == channel
    ensures channel.None? ==>
      AllBlocked(draws, blocked, 10) || exists n :: 0 <= n < 10 && AllBlocked(draws, blocked, n) && draws(n).None?
  {
    var attempt := 0;
    while attempt < 10
      invariant 0 <= attempt <= 10
      invariant AllBlocked(draws, blocked, attempt)
    {
      channel := draws(attempt);
      if channel.None? {
        return;
      }
      if channel.value !in blocked {
        return;
      }
      attempt := attempt + 1;
    }
    return None;
  }

  datatype Selection = Chosen(id: int) | Aborted(status: int)

  /** The source of randomness of one request. */
  type Rolls = nat -> (nat, nat)

  function Draws(t: Tables, index: Index, group: string, model: string, rolls: Rolls): nat -> Option<int> {
    (n: nat) => Choice(t, index, group, model, true, rolls(n).0, rolls(n).1)
  }

  /**
   The selecting part of Distribute.  `specific` is the channel id asked for, if any, None inside when it
   is not a number; it is looked up in the tables as they are `now`.  Any other choice is made from the
   tables as they were `built` into the index.
   */
  method Distribute(built: Tables, now: Tables, index: Index, specific: Option<Option<int>>,
                    group: string, model: string,
                    roll: nat, reroll: nat, rolls: Rolls, blocked: set<int>)
    returns (r: Selection)
    requires IndexOf(built, index)
    ensures r.Chosen? && specific.None? ==> r.id in Serving(built, group, model) && r.id !in blocked
    ensures r.Chosen? && specific.Some? ==>
      specific.value == Some(r.id) && r.id in now.channels && Enabled(now.channels[r.id])
    ensures r == Aborted(400) <==> specific.Some? && (specific.value.None? || specific.value.value !in now.channels)
    ensures r == Aborted(403) <==>
      (specific.Some? && specific.value.Some? && specific.value.value in now.channels
       && !Enabled(now.channels[specific.value.value]))
    ensures r.Aborted? && specific.None? ==> r.status == 503
    ensures specific.None? ==>
      var first := Choice(built, index, group, model, false, roll, reroll);
      && (first.Some? && first.value !in blocked ==> r == Chosen(first.value))
      && (r.Aborted? <==>
            (first.None?
             || (first.value in blocked && AllBlocked(Draws(built, index, group, model, rolls), blocked, 10))))
  {
    match specific {
      case Some(asked) =>
        if asked.None? || asked.value !in now.channels { return Aborted(400); }
        if !Enabled(now.channels[asked.value]) { return Aborted(403); }
        return Chosen(asked.value);
      case None =>
    }
    var channel := CacheGetRandomSatisfiedChannel(built, index, group, model, false, roll, reroll);
    ChoiceServes(built, index, group, model, false, roll, reroll, channel);
    if channel.None? { return Aborted(503); }
    if channel.value in blocked {
      DrawsServe(built, index, group, model, rolls);
      channel := TrySkipBlockedChannel(Draws(built, index, group, model, rolls), blocked);
      if channel.None? { return Aborted(503); }
    }
    return Chosen(channel.value);
  }

  /** As long as any enabled channel serves the pair, every further draw finds one that does. */
  lemma DrawsServe(t: Tables, index: Index, group: string, model: string, rolls: Rolls)
    requires IndexOf(t, index) && Serving(t, group, model) != {}
    ensures forall n: nat :: Draws(t, index, group, model, rolls)(n).Some?
    ensures forall n: nat :: Draws(t, index, group, model, rolls)(n).value in Serving(t, group, model)
  {
    forall n: nat
      ensures Draws(t, index, group, model, rolls)(n).Some?
      ensures Draws(t, index, group, model, rolls)(n).value in Serving(t, group, model)
    {
      ChoiceServes(t, index, group, model, true, rolls(n).0, rolls(n).1, Draws(t, index, group, model, rolls)(n));
    }
  }

  // ---------------------------------------------------------------- an index that has fallen behind

  /** An operation after which a channel that served a pair serves it still. */
  predicate KeepsServing(e: Event, id: int, group: string, model: string) {
    match e
    case Insert(_) => true
    case Update(i, p) =>
      i == id ==>
        && (p.status == 0 || p.status == CHANNEL_STATUS_ENABLED)
        && (p.group == "" || group in Split(p.group))
        && (p.models == "" || model in Split(p.models))
    case SetStatus(i, status) => i == id ==> status == CHANNEL_STATUS_ENABLED
    case Delete(i) => i != id
    case DeleteDisabled => true
  }

  lemma StillServesIff(t: Tables, e: Event, group: string, model: string, id: int)
    requires id in Serving(t, group, model) && Possible(t, e)
    ensures id in Serving(Step(t, e), group, model) <==> KeepsServing(e, id, group, model)
  {
    if e.Insert? { InsertKeepsOthers(t, e.rows, id); }
  }

  /** The pair can be drawn, and every draw, whatever the random numbers, gives a channel that serves it in `now`. */
  ghost predicate AlwaysServed(built: Tables, now: Tables, index: Index, group: string, model: string,
                               ignoreFirstPriority: bool) {
    forall roll: nat, reroll: nat ::
      var c := Choice(built, index, group, model, ignoreFirstPriority, roll, reroll);
      c.Some? && c.value in Serving(now, group, model)
  }

  /** Every candidate can be drawn, so the draws are always served iff all the candidates still serve. */
  lemma AlwaysServedIff(built: Tables, now: Tables, index: Index, group: string, model: string,
                        ignoreFirstPriority: bool)
    requires IndexOf(built, index) && group in index && model in index[group]
    ensures index[group][model] != []
    ensures AlwaysServed(built, now, index, group, model, ignoreFirstPriority) <==>
      forall id :: id in Candidates(built, index[group][model], ignoreFirstPriority) ==>
        id in Serving(now, group, model)
  {
    var ids := index[group][model];
    assert GoodList(built, ids);
    var from := Candidates(built, ids, ignoreFirstPriority);
    var serving := Serving(now, group, model);
    if AlwaysServed(built, now, index, group, model, ignoreFirstPriority) {
      forall id | id in from ensures id in serving {
        var i :| 0 <= i < |from| && from[i] == id;
        DrawsCandidate(built, index, group, model, ignoreFirstPriority, i, from,
                       Choice(built, index, group, model, ignoreFirstPriority, i, i));
      }
    }
    if forall id :: id in from ==> id in serving {
      forall roll: nat, reroll: nat
        ensures Choice(built, index, group, model, ignoreFirstPriority, roll, reroll).Some?
        ensures Choice(built, index, group, model, ignoreFirstPriority, roll, reroll).value in serving
      {
        DrawIsCandidate(built, index, group, model, ignoreFirstPriority, roll, reroll, from,
                        Choice(built, index, group, model, ignoreFirstPriority, roll, reroll));
      }
    }
  }

  lemma DrawIsCandidate(t: Tables, index: Index, group: string, model: string, ignoreFirstPriority: bool,
                        roll: nat, reroll: nat, from: seq<int>, c: Option<int>)
    requires group in index && model in index[group] && index[group][model] != []
    requires from == Candidates(t, index[group][model], ignoreFirstPriority)
    requires c == Choice(t, index, group, model, ignoreFirstPriority, roll, reroll)
    ensures c.Some? && c.value in from
  {
    SomeCandidate(t, index[group][model], ignoreFirstPriority);
  }

  lemma DrawsCandidate(t: Tables, index: Index, group: string, model: string, ignoreFirstPriority: bool,
                       i: nat, from: seq<int>, c: Option<int>)
    requires group in index && model in index[group] && index[group][model] != []
    requires from == Candidates(t, index[group][model], ignoreFirstPriority) && i < |from|
    requires c == Choice(t, index, group, model, ignoreFirstPriority, i, i)
    ensures c == Some(from[i])
  {
    RollHits(i, |from|);
  }

  lemma RollHits(i: nat, n: nat)
    requires i < n
    ensures Intn(i, n) == i
  {
  }

  /** With the index current, they always are; one operation later, exactly when it keeps every candidate serving. */
  lemma ServedAfterOperationIff(built: Tables, e: Event, index: Index, group: string, model: string,
                                ignoreFirstPriority: bool)
    requires IndexOf(built, index) && group in index && model in index[group] && Possible(built, e)
    ensures index[group][model] != []
    ensures AlwaysServed(built, built, index, group, model, ignoreFirstPriority)
    ensures AlwaysServed(built, Step(built, e), index, group, model, ignoreFirstPriority) <==>
      forall id :: id in Candidates(built, index[group][model], ignoreFirstPriority) ==>
        KeepsServing(e, id, group, model)
  {
    var ids := index[group][model];
    assert GoodList(built, ids);
    AlwaysServedIff(built, built, index, group, model, ignoreFirstPriority);
    AlwaysServedIff(built, Step(built, e), index, group, model, ignoreFirstPriority);
    forall id | id in Candidates(built, ids, ignoreFirstPriority)
      ensures id in Serving(built, group, model)
      ensures id in Serving(Step(built, e), group, model) <==> KeepsServing(e, id, group, model)
    {
      assert id in ids && Lists(index, group, model, id);
      StillServesIff(built, e, group, model, id);
    }
  }

  ghost predicate AllPossible(t: Tables, es: seq<Event>) {
    forall n :: 0 <= n < |es| ==> Possible(Run(t, es[..n]), es[n])
  }

  /** What a chosen channel is now, whatever was done since the build: it serves until an operation stops it. */
  lemma {:induction false} ServedSinceBuild(built: Tables, es: seq<Event>, group: string, model: string, id: int)
    requires id in Serving(built, group, model) && AllPossible(built, es)
    requires forall e :: e in es ==> KeepsServing(e, id, group, model)
    ensures id in Serving(Run(built, es), group, model)
  {
    if es != [] {
      var before, e := es[..|es| - 1], es[|es| - 1];
      forall n | 0 <= n < |before| ensures Possible(Run(built, before[..n]), before[n]) {
        assert before[..n] == es[..n] && Possible(Run(built, es[..n]), es[n]);
      }
      ServedSinceBuild(built, before, group, model, id);
      assert e in es && Possible(Run(built, es[..|es| - 1]), e);
      StillServesIff(Run(built, before), e, group, model, id);
    }
  }

  // What was last written to one channel, in terms of the operations that name it.

  predicate Inserts(e: Event, id: int) {
    e.Insert? && id in CreateAll(map[], e.rows)
  }

  function StatusSince(es: seq<Event>, id: int, was: int): int {
    if es == [] then was
    else
      var e, before := es[|es| - 1], StatusSince(es[..|es| - 1], id, was);
      if Inserts(e, id) then CreateAll(map[], e.rows)[id].status
      else if e.Update? && e.id == id && e.p.status != 0 then e.p.status
      else if e.SetStatus? && e.id == id then e.status
      else before
  }

  function GroupSince(es: seq<Event>, id: int, was: string): string {
    if es == [] then was
    else
      var e, before := es[|es| - 1], GroupSince(es[..|es| - 1], id, was);
      if Inserts(e, id) then CreateAll(map[], e.rows)[id].group
      else if e.Update? && e.id == id && e.p.group != "" then e.p.group
      else before
  }

  function ModelsSince(es: seq<Event>, id: int, was: string): string {
    if es == [] then was
    else
      var e, before := es[|es| - 1], ModelsSince(es[..|es| - 1], id, was);
      if Inserts(e, id) then CreateAll(map[], e.rows)[id].models
      else if e.Update? && e.id == id && e.p.models != "" then e.p.models
      else before
  }

  function PrioritySince(es: seq<Event>, id: int, was: int): int {
    if es == [] then was
    else
      var e, before := es[|es| - 1], PrioritySince(es[..|es| - 1], id, was);
      if Inserts(e, id) then CreateAll(map[], e.rows)[id].priority
      else if e.Update? && e.id == id && e.p.priority.Some? then e.p.priority.value
      else before
  }

  /** The n-th operation deletes the channel by name, or sweeps it away because it is disabled by then. */
  predicate Removes(es: seq<Event>, n: nat, id: int, was: int)
    requires n < |es|
  {
    || es[n] == Delete(id)
    || (es[n].DeleteDisabled?
        && StatusSince(es[..n], id, was) in {CHANNEL_STATUS_AUTO_DISABLED, CHANNEL_STATUS_MANUALLY_DISABLED})
  }

  ghost predicate Survives(es: seq<Event>, id: int, was: int) {
    forall n :: 0 <= n < |es| && Removes(es, n, id, was) ==> exists m :: n < m < |es| && Inserts(es[m], id)
  }

  lemma SurvivesAppend(es: seq<Event>, e: Event, id: int, was: int)
    ensures Survives(es + [e], id, was) <==>
      (Inserts(e, id) || (Survives(es, id, was) && !Removes(es + [e], |es|, id, was)))
  {
    var all := es + [e];
    forall n | 0 <= n < |es| ensures Removes(all, n, id, was) <==> Removes(es, n, id, was) {
      assert all[..n] == es[..n] && all[n] == es[n];
    }
    if Inserts(e, id) {
      assert Inserts(all[|es|], id);
    } else if Survives(all, id, was) {
      forall n | 0 <= n < |es| && Removes(es, n, id, was) ensures exists m :: n < m < |es| && Inserts(es[m], id) {
        var m :| n < m < |all| && Inserts(all[m], id);
        assert Inserts(es[m], id);
      }
    } else if Survives(es, id, was) && !Removes(all, |es|, id, was) {
      forall n | 0 <= n < |all| && Removes(all, n, id, was) ensures exists m :: n < m < |all| && Inserts(all[m], id) {
        var m :| n < m < |es| && Inserts(es[m], id);
        assert Inserts(all[m], id);
      }
    }
  }

  lemma {:induction false} CreateAllApart(channels: map<int, Channel>, rows: seq<Row>, id: int)
    ensures id in CreateAll(map[], rows) ==>
      id in CreateAll(channels, rows) && CreateAll(channels, rows)[id] == CreateAll(map[], rows)[id]
    ensures id !in CreateAll(map[], rows) ==>
      (id in CreateAll(channels, rows) <==> id in channels)
      && (id in channels ==> CreateAll(channels, rows)[id] == channels[id])
    decreases |rows|
  {
    if rows != [] {
      CreateAllApart(channels[rows[0].id := WithDefaults(rows[0].c)], rows[1..], id);
      CreateAllApart(map[rows[0].id := WithDefaults(rows[0].c)], rows[1..], id);
    }
  }

  ghost predicate IsRowSince(t: Tables, es: seq<Event>, id: int, was: Channel) {
    && (id in t.channels <==> Survives(es, id, was.status))
    && (id in t.channels ==>
          && t.channels[id].status == StatusSince(es, id, was.status)
          && t.channels[id].group == GroupSince(es, id, was.group)
          && t.channels[id].models == ModelsSince(es, id, was.models)
          && t.channels[id].priority == PrioritySince(es, id, was.priority))
  }

  lemma RowStep(t: Tables, es: seq<Event>, e: Event, id: int, was: Channel)
    requires IsRowSince(t, es, id, was)
    ensures IsRowSince(Step(t, e), es + [e], id, was)
  {
    assert (es + [e])[..|es|] == es;
    SurvivesAppend(es, e, id, was.status);
    if e.Insert? { CreateAllApart(t.channels, e.rows, id); }
  }

  lemma {:induction false} RowSince(built: Tables, es: seq<Event>, id: int)
    requires id in built.channels
    ensures IsRowSince(Run(built, es), es, id, built.channels[id])
  {
    if es != [] {
      RowSince(built, es[..|es| - 1], id);
      assert es == es[..|es| - 1] + [es[|es| - 1]];
      RowStep(Run(built, es[..|es| - 1]), es[..|es| - 1], es[|es| - 1], id, built.channels[id]);
    }
  }

  /**
   Exactly when a channel chosen from the last build serves now, after any run of operations since: it was not
   deleted, nor swept away while disabled, unless inserted again; the status last written is enabled; and the
   groups and models last written still name the pair.
   */
  lemma ServedSinceBuildIff(built: Tables, es: seq<Event>, group: string, model: string, id: int)
    requires id in Serving(built, group, model)
    ensures var was := built.channels[id];
      id in Serving(Run(built, es), group, model) <==>
      && Survives(es, id, was.status)
      && StatusSince(es, id, was.status) == CHANNEL_STATUS_ENABLED
      && group in Split(GroupSince(es, id, was.group)) && model in Split(ModelsSince(es, id, was.models))
  {
    RowSince(built, es, id);
  }
}
