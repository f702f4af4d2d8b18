/**
 Usage alerts and the circuit breaker of a user (common/alert.go, common/quota.go, trackUsageForQuota in
 relay/controller/helper.go), and how they interleave with the ledger within one month.
 */
module Alerts {
  import opened Ledger
  import opened Options
  import opened Billing
  import Requests
  import DoubleEntry

  type Level = n: int | 0 <= n <= 3
  const WARNING: Level := 1
  const CRITICAL: Level := 2
  const BLOCK: Level := 3

  /** What the store knows of one user; `levels` are the alerts recorded for that user so far. */
  datatype Account = Account(usage: real, blocked: bool, warned: bool, alarmed: bool, levels: seq<Level>)
  const FRESH := Account(0.0, false, false, false, [])

  /** The threshold a usage has reached; without a positive limit there is none. */
  function Band(usage: real, limit: real): Level {
    if limit <= 0.0 then 0
    else if usage / limit >= 1.0 then BLOCK
    else if usage / limit >= 0.9 then CRITICAL
    else if usage / limit >= 0.8 then WARNING
    else 0
  }

  /** The levels begin at eighty, ninety and a hundred percent of a positive limit, each included. */
  lemma BandIs(usage: real, limit: real)
    ensures Band(usage, limit) >= 1 <==> limit > 0.0 && usage * 10.0 >= limit * 8.0
    ensures Band(usage, limit) >= 2 <==> limit > 0.0 && usage * 10.0 >= limit * 9.0
    ensures Band(usage, limit) >= 3 <==> limit > 0.0 && usage >= limit
  {
    if limit > 0.0 {
      ShareOf(usage, limit, 8.0);
      ShareOf(usage, limit, 9.0);
      ShareOf(usage, limit, 10.0);
    }
  }

  lemma ShareOf(usage: real, limit: real, tenths: real)
    requires limit > 0.0
    ensures usage / limit >= tenths / 10.0 <==> usage * 10.0 >= limit * tenths
  {
    var q := usage / limit;
    assert q * limit == usage;
    PartOf(q, limit, tenths / 10.0);
    assert (tenths / 10.0) * limit * 10.0 == limit * tenths;
  }

  lemma PartOf(q: real, limit: real, part: real)
    requires limit > 0.0
    ensures q >= part <==> q * limit >= part * limit
  {
    if q >= part {
      assert (q - part) * limit >= 0.0;
    } else {
      assert (part - q) * limit > 0.0;
    }
  }

  function Checked(a: Account, band: Level): Account {
    if band == BLOCK && !a.blocked then a.(blocked := true, levels := a.levels + [BLOCK])
    else if band == CRITICAL && !a.alarmed then a.(alarmed := true, levels := a.levels + [CRITICAL])
    else if band == WARNING && !a.warned then a.(warned := true, levels := a.levels + [WARNING])
    else a
  }

  lemma BandClimbs(a: real, b: real, limit: real)
    requires a <= b
    ensures 0 <= Band(a, limit) <= Band(b, limit) <= BLOCK
    ensures Band(b, limit) == BLOCK <==> 0.0 < limit <= b
  {
    if limit > 0.0 {
      assert a / limit <= b / limit;
      assert b / limit >= 1.0 <==> b >= limit;
    }
  }

  // ---------------------------------------------------------------- the levels recorded by a list of checks

  /** Every level that is reached, once, in the order in which it is reached first. */
  function Recorded(bands: seq<Level>): seq<Level> {
    if bands == [] then []
    else
      var before, b := bands[..|bands| - 1], bands[|bands| - 1];
      if b > 0 && b !in before then Recorded(before) + [b] else Recorded(before)
  }

  function CheckAll(a: Account, bands: seq<Level>): Account {
    if bands == [] then a else Checked(CheckAll(a, bands[..|bands| - 1]), bands[|bands| - 1])
  }

  /** What a list of checks leaves behind, whatever the order of the checks. */
  lemma {:induction false} ChecksRecord(a: Account, bands: seq<Level>)
    requires a == FRESH.(usage := a.usage)
    ensures CheckAll(a, bands)
         == Account(a.usage, BLOCK in bands, WARNING in bands, CRITICAL in bands, Recorded(bands))
  {
    if bands != [] {
      var before, b := bands[..|bands| - 1], bands[|bands| - 1];
      assert bands == before + [b];
      ChecksRecord(a, before);
    }
  }

  lemma {:induction false} RecordedOnce(bands: seq<Level>)
    ensures forall b :: b in Recorded(bands) <==> b in bands && b > 0
    ensures forall i, j :: 0 <= i < j < |Recorded(bands)| ==> Recorded(bands)[i] != Recorded(bands)[j]
  {
    if bands != [] {
      var before, b := bands[..|bands| - 1], bands[|bands| - 1];
      assert bands == before + [b];
      RecordedOnce(before);
    }
  }

  ghost predicate Climbing(levels: seq<Level>) {
    forall i, j :: 0 <= i < j < |levels| ==> levels[i] < levels[j]
  }

  /** No level is reached for the first time after a higher one. */
  ghost predicate OnTime(bands: seq<Level>) {
    forall i, j :: 0 <= i < j < |bands| && 0 < bands[j] < bands[i] ==> bands[j] in bands[..i]
  }

  /** The recorded levels climb exactly when no level is reached late. */
  lemma {:induction false} ClimbingIff(bands: seq<Level>)
    ensures Climbing(Recorded(bands)) <==> OnTime(bands)
  {
    if bands != [] {
      var before, b := bands[..|bands| - 1], bands[|bands| - 1];
      assert bands == before + [b];
      ClimbingIff(before);
      PrefixOnTime(before, b);
      if b > 0 && b !in before {
        ClimbOneMore(Recorded(before), b);
        NewLevel(before, b);
      } else if OnTime(before) {
        KnownLevel(before, b);
      }
    }
  }

  lemma NewLevel(before: seq<Level>, b: Level)
    requires b > 0 && b !in before
    ensures (forall l :: l in Recorded(before) ==> l < b)
       <==> (forall i :: 0 <= i < |before| && 0 < b < before[i] ==> b in before[..i])
  {
    RecordedOnce(before);
    forall i | 0 <= i < |before| ensures b !in before[..i] && before[i] != b {
      assert before[i] in before && forall x :: x in before[..i] ==> x in before;
    }
    if forall l :: l in Recorded(before) ==> l < b {
      forall i | 0 <= i < |before| ensures before[i] <= b {
        assert before[i] in before;
        if before[i] > 0 { assert before[i] in Recorded(before); }
      }
    } else {
      var l :| l in Recorded(before) && l >= b;
      var i :| 0 <= i < |before| && before[i] == l;
      assert 0 < b < before[i] && b !in before[..i];
    }
  }

  lemma KnownLevel(before: seq<Level>, b: Level)
    requires OnTime(before) && (b == 0 || b in before)
    ensures forall i :: 0 <= i < |before| && 0 < b < before[i] ==> b in before[..i]
  {
    forall i | 0 <= i < |before| && 0 < b < before[i] ensures b in before[..i] {
      var k :| 0 <= k < |before| && before[k] == b;
      if k < i { assert before[..i][k] == b; } else { assert before[k] in before[..i]; }
    }
  }

  lemma ClimbOneMore(levels: seq<Level>, b: Level)
    ensures Climbing(levels + [b]) <==> Climbing(levels) && forall l :: l in levels ==> l < b
  {
    var more := levels + [b];
    assert forall i :: 0 <= i < |levels| ==> more[i] == levels[i];
    if Climbing(more) {
      forall i, j | 0 <= i < j < |levels| ensures levels[i] < levels[j] { assert more[i] < more[j]; }
      forall i | 0 <= i < |levels| ensures levels[i] < b { assert more[i] < more[|levels|]; }
    } else {
      var i, j :| 0 <= i < j < |more| && more[i] >= more[j];
      if j == |levels| { assert levels[i] in levels; }
    }
  }

  lemma PrefixOnTime(before: seq<Level>, b: Level)
    ensures OnTime(before + [b]) <==>
      (OnTime(before) && forall i :: 0 <= i < |before| && 0 < b < before[i] ==> b in before[..i])
  {
    var bands := before + [b];
    assert forall i :: 0 <= i <= |before| ==> bands[..i] == before[..i];
    if OnTime(bands) {
      forall i, j | 0 <= i < j < |before| && 0 < before[j] < before[i] ensures before[j] in before[..i] {
        assert bands[j] in bands[..i];
      }
      forall i | 0 <= i < |before| && 0 < b < before[i] ensures b in before[..i] {
        assert bands[|before|] in bands[..i];
      }
    }
  }

  // ---------------------------------------------------------------- a month of requests

  /**
   Accounting for a finished request is two atomic steps: the counter is incremented and its new value
   returned, and later that value is checked against the limit of the token as it then stands.
   `pending` holds the values not checked yet, `seen` those that were, in the order of the checks.
   */
  datatype Month = Month(world: Requests.World, account: Account, pending: seq<real>, seen: seq<real>)

  datatype Event = InLedger(e: Requests.Event) | Increment(cost: real) | Check(i: int) | Unblock

  predicate Limited(db: Db, tokenId: int) {
    tokenId in db.tokens && !db.tokens[tokenId].unlimited
  }

  function Step(m: Month, tokenId: int, e: Event): Month {
    match e
    case InLedger(l) => m.(world := Requests.Step(m.world, l))
    case Increment(cost) =>
      if cost < 0.0 then m
      else
        var now := m.account.usage + cost;
        m.(account := m.account.(usage := now), pending := m.pending + [now])
    case Unblock => m.(account := m.account.(blocked := false))
    case Check(i) =>
      if !(0 <= i < |m.pending|) then m
      else
        var left := m.(pending := m.pending[..i] + m.pending[i + 1..]);
        if !Limited(m.world.buffer.db, tokenId) then left
        else
          var limit := DoubleEntry.Limit(m.world.buffer.db, tokenId) as real;
          left.(account := Checked(m.account, Band(m.pending[i], limit)), seen := m.seen + [m.pending[i]])
  }

  function Run(m: Month, tokenId: int, es: seq<Event>): Month {
    if es == [] then m else Step(Run(m, tokenId, es[..|es| - 1]), tokenId, es[|es| - 1])
  }

  /** No monthly reset, and no administrator lifts the block. */
  predicate Undisturbed(es: seq<Event>) {
    InLedger(Requests.ResetMonthly) !in es && Unblock !in es
  }

  function Bands(usages: seq<real>, limit: real): seq<Level> {
    seq(|usages|, i requires 0 <= i < |usages| => Band(usages[i], limit))
  }

  /** The start of a month for a user with one limited token. */
  ghost predicate Begins(m: Month, tokenId: int) {
    m.account == FRESH && m.pending == [] && m.seen == [] && Limited(m.world.buffer.db, tokenId)
  }

  /** The ledger's part: the limit of the token does not move. */
  ghost predicate SameLimit(m: Month, tokenId: int, limit: int) {
    Limited(m.world.buffer.db, tokenId) && DoubleEntry.Limit(m.world.buffer.db, tokenId) == limit
  }

  /** The counter's part: the last value returned is the largest, and it is waiting or was seen. */
  ghost predicate Counted(m: Month) {
    IsLatest(m.account.usage, m.pending + m.seen)
  }

  ghost predicate IsLatest(usage: real, values: seq<real>) {
    usage >= 0.0 && (usage == 0.0 || usage in values) && forall x :: x in values ==> x <= usage
  }

  ghost predicate Inv(m: Month, tokenId: int, limit: int) {
    && SameLimit(m, tokenId, limit)
    && Counted(m)
    && m.account == CheckAll(FRESH.(usage := m.account.usage), Bands(m.seen, limit as real))
  }

  lemma StepKeepsLimit(m: Month, tokenId: int, e: Event, limit: int)
    requires SameLimit(m, tokenId, limit) && e != InLedger(Requests.ResetMonthly)
    ensures SameLimit(Step(m, tokenId, e), tokenId, limit)
  {
    if e.InLedger? { DoubleEntry.LimitStep(m.world, e.e, tokenId); }
  }

  lemma CountOneMore(usage: real, cost: real, pending: seq<real>, seen: seq<real>)
    requires IsLatest(usage, pending + seen) && cost >= 0.0
    ensures IsLatest(usage + cost, pending + [usage + cost] + seen)
  {
    var now := pending + [usage + cost] + seen;
    assert now[|pending|] == usage + cost;
    forall x | x in now ensures x <= usage + cost {
      if x != usage + cost { assert x in pending + seen; }
    }
  }

  lemma MoveToSeen(usage: real, pending: seq<real>, seen: seq<real>, i: nat)
    requires IsLatest(usage, pending + seen) && i < |pending|
    ensures IsLatest(usage, pending[..i] + pending[i + 1..] + (seen + [pending[i]]))
  {
    var now := pending[..i] + pending[i + 1..] + (seen + [pending[i]]);
    assert pending == pending[..i] + [pending[i]] + pending[i + 1..];
    forall x ensures x in now <==> x in pending + seen {}
  }

  lemma StepKeepsCounted(m: Month, tokenId: int, e: Event, limit: int)
    requires Counted(m) && SameLimit(m, tokenId, limit)
    ensures Counted(Step(m, tokenId, e))
  {
    if e.Increment? && e.cost >= 0.0 {
      CountOneMore(m.account.usage, e.cost, m.pending, m.seen);
    } else if e.Check? && 0 <= e.i < |m.pending| {
      MoveToSeen(m.account.usage, m.pending, m.seen, e.i);
    }
  }

  lemma {:induction false} CheckAllUsage(a: Account, usage: real, bands: seq<Level>)
    ensures CheckAll(a.(usage := usage), bands) == CheckAll(a, bands).(usage := usage)
  {
    if bands != [] { CheckAllUsage(a, usage, bands[..|bands| - 1]); }
  }

  lemma StepKeepsInv(m: Month, tokenId: int, e: Event, limit: int)
    requires Inv(m, tokenId, limit) && e != InLedger(Requests.ResetMonthly) && e != Unblock
    ensures Inv(Step(m, tokenId, e), tokenId, limit)
  {
    var t := Step(m, tokenId, e);
    StepKeepsLimit(m, tokenId, e, limit);
    StepKeepsCounted(m, tokenId, e, limit);
    CheckAllUsage(FRESH, m.account.usage, Bands(m.seen, limit as real));
    CheckAllUsage(FRESH, t.account.usage, Bands(m.seen, limit as real));
    if e.Check? && 0 <= e.i < |m.pending| {
      var bands := Bands(t.seen, limit as real);
      assert bands[..|bands| - 1] == Bands(m.seen, limit as real);
    }
  }

  lemma {:induction false} RunKeepsInv(m: Month, tokenId: int, es: seq<Event>)
    requires Begins(m, tokenId)
    requires Undisturbed(es)
    ensures Inv(Run(m, tokenId, es), tokenId, DoubleEntry.Limit(m.world.buffer.db, tokenId))
  {
    if es == [] {
      assert Bands(m.seen, DoubleEntry.Limit(m.world.buffer.db, tokenId) as real) == [];
    } else {
      var before, e := es[..|es| - 1], es[|es| - 1];
      assert es == before + [e];
      RunKeepsInv(m, tokenId, before);
      StepKeepsInv(Run(m, tokenId, before), tokenId, e, DoubleEntry.Limit(m.world.buffer.db, tokenId));
    }
  }

  /**
   In every interleaving of requests, of the batch worker and of checks in any order: each level is
   recorded at most once, and no level above what the usage has reached.
   */
  lemma AlertsOverAMonth(m: Month, tokenId: int, es: seq<Event>)
    requires Begins(m, tokenId) && Undisturbed(es)
    ensures var a, limit := Run(m, tokenId, es).account, DoubleEntry.Limit(m.world.buffer.db, tokenId) as real;
      && (forall i, j :: 0 <= i < j < |a.levels| ==> a.levels[i] != a.levels[j])
      && (forall l :: l in a.levels ==> 0 < l <= Band(a.usage, limit))
      && (a.blocked <==> BLOCK in a.levels)
  {
    RunKeepsInv(m, tokenId, es);
    var t, limit := Run(m, tokenId, es), DoubleEntry.Limit(m.world.buffer.db, tokenId) as real;
    var bands := Bands(t.seen, limit);
    ChecksRecord(FRESH.(usage := t.account.usage), bands);
    RecordedOnce(bands);
    forall l | l in t.account.levels ensures 0 < l <= Band(t.account.usage, limit) {
      var i :| 0 <= i < |bands| && bands[i] == l;
      assert t.seen[i] in t.pending + t.seen;
      BandClimbs(t.seen[i], t.account.usage, limit);
    }
  }

  /** Once every check has run: the top level is on record, and the user is blocked iff the limit is reached. */
  lemma AlertsAtRest(m: Month, tokenId: int, es: seq<Event>)
    requires Begins(m, tokenId) && Undisturbed(es)
    requires Run(m, tokenId, es).pending == []
    ensures var a, limit := Run(m, tokenId, es).account, DoubleEntry.Limit(m.world.buffer.db, tokenId) as real;
      && (a.blocked <==> 0.0 < limit <= a.usage)
      && (Band(a.usage, limit) > 0 ==> Band(a.usage, limit) in a.levels)
  {
    var t := Run(m, tokenId, es);
    RunKeepsInv(m, tokenId, es);
    assert [] + t.seen == t.seen;
    RestingAccount(t.account, t.seen, DoubleEntry.Limit(m.world.buffer.db, tokenId) as real);
  }

  lemma RestingAccount(a: Account, seen: seq<real>, limit: real)
    requires IsLatest(a.usage, seen) && a == CheckAll(FRESH.(usage := a.usage), Bands(seen, limit))
    ensures a.blocked <==> 0.0 < limit <= a.usage
    ensures Band(a.usage, limit) > 0 ==> Band(a.usage, limit) in a.levels
  {
    var bands := Bands(seen, limit);
    ChecksRecord(FRESH.(usage := a.usage), bands);
    RecordedOnce(bands);
    BandClimbs(a.usage, a.usage, limit);
    TopBand(a.usage, seen, limit, bands);
  }

  lemma TopBand(usage: real, seen: seq<real>, limit: real, bands: seq<Level>)
    requires IsLatest(usage, seen) && bands == Bands(seen, limit)
    ensures Band(usage, limit) > 0 ==> Band(usage, limit) in bands
    ensures BLOCK in bands ==> Band(usage, limit) == BLOCK
  {
    if usage != 0.0 {
      var i :| 0 <= i < |seen| && seen[i] == usage;
      assert bands[i] == Band(usage, limit);
    }
    if BLOCK in bands {
      var i :| 0 <= i < |bands| && bands[i] == BLOCK;
      assert seen[i] in seen;
      BandClimbs(seen[i], usage, limit);
    }
  }

  // ---------------------------------------------------------------- the order of the levels

  ghost predicate Ascending(xs: seq<real>) {
    forall i, j :: 0 <= i < j < |xs| ==> xs[i] <= xs[j]
  }

  lemma AscendingIsOnTime(usages: seq<real>, limit: real)
    requires Ascending(usages)
    ensures OnTime(Bands(usages, limit))
  {
    forall i, j | 0 <= i < j < |usages| ensures Band(usages[i], limit) <= Band(usages[j], limit) {
      BandClimbs(usages[i], usages[j], limit);
    }
  }

  lemma {:induction false} FirstComeFirstChecked(m: Month, tokenId: int, es: seq<Event>)
    requires Begins(m, tokenId) && Undisturbed(es)
    requires forall e :: e in es && e.Check? ==> e.i == 0
    ensures Ascending(Run(m, tokenId, es).seen + Run(m, tokenId, es).pending)
  {
    if es != [] {
      var before, e := es[..|es| - 1], es[|es| - 1];
      assert es == before + [e] && e in es;
      FirstComeFirstChecked(m, tokenId, before);
      RunKeepsInv(m, tokenId, before);
      KeepsAscending(Run(m, tokenId, before), tokenId, e, DoubleEntry.Limit(m.world.buffer.db, tokenId));
    }
  }

  lemma KeepsAscending(m: Month, tokenId: int, e: Event, limit: int)
    requires Inv(m, tokenId, limit) && Ascending(m.seen + m.pending) && (e.Check? ==> e.i == 0)
    ensures Ascending(Step(m, tokenId, e).seen + Step(m, tokenId, e).pending)
  {
    var t := Step(m, tokenId, e);
    var all := m.seen + m.pending;
    if e.Increment? && e.cost >= 0.0 {
      assert t.seen + t.pending == all + [t.account.usage];
      forall i | 0 <= i < |all| ensures all[i] <= m.account.usage {
        assert all[i] in m.seen || all[i] in m.pending;
        assert all[i] in m.pending + m.seen;
      }
    } else if e.Check? && m.pending != [] {
      assert t.seen + t.pending == all;
    }
  }

  /**
   The recorded levels climb exactly when no level is first checked after a higher one; in particular
   when usages are checked in the order in which they were counted.
   */
  lemma LevelsClimb(m: Month, tokenId: int, es: seq<Event>)
    requires Begins(m, tokenId) && Undisturbed(es)
    ensures Climbing(Run(m, tokenId, es).account.levels)
       <==> OnTime(Bands(Run(m, tokenId, es).seen, DoubleEntry.Limit(m.world.buffer.db, tokenId) as real))
    ensures (forall e :: e in es && e.Check? ==> e.i == 0) ==> Climbing(Run(m, tokenId, es).account.levels)
  {
    RunKeepsInv(m, tokenId, es);
    var t, limit := Run(m, tokenId, es), DoubleEntry.Limit(m.world.buffer.db, tokenId) as real;
    ChecksRecord(FRESH.(usage := t.account.usage), Bands(t.seen, limit));
    ClimbingIff(Bands(t.seen, limit));
    if forall e :: e in es && e.Check? ==> e.i == 0 {
      FirstComeFirstChecked(m, tokenId, es);
      var all := t.seen + t.pending;
      forall i, j | 0 <= i < j < |t.seen| ensures t.seen[i] <= t.seen[j] {
        assert all[i] <= all[j];
      }
      AscendingIsOnTime(t.seen, limit);
    }
  }

  /** Two requests whose checks overtake each other: the levels go down. */
  lemma OvertakingGoesDown(m: Month, tokenId: int)
    requires Begins(m, tokenId) && DoubleEntry.Limit(m.world.buffer.db, tokenId) == 100
    ensures Run(m, tokenId, [Increment(85.0), Increment(10.0), Check(1), Check(0)]).account.levels
         == [CRITICAL, WARNING]
  {
    RunFour(m, tokenId, Increment(85.0), Increment(10.0), Check(1), Check(0));
    assert Band(95.0, 100.0) == CRITICAL && Band(85.0, 100.0) == WARNING;
    var two := Step(Step(m, tokenId, Increment(85.0)), tokenId, Increment(10.0));
    assert two.pending == [85.0, 95.0] && two.account == FRESH.(usage := 95.0);
    var three := Step(two, tokenId, Check(1));
    assert three.pending == [85.0] && three.account.levels == [CRITICAL];
  }

  lemma RunFour(m: Month, tokenId: int, a: Event, b: Event, c: Event, d: Event)
    ensures Run(m, tokenId, [a, b, c, d]) == Step(Step(Step(Step(m, tokenId, a), tokenId, b), tokenId, c), tokenId, d)
  {
    assert [a, b, c, d][..3] == [a, b, c] && [a, b, c][..2] == [a, b] && [a, b][..1] == [a] && [a][..0] == [];
    assert Run(m, tokenId, [a]) == Step(m, tokenId, a);
    assert Run(m, tokenId, [a, b]) == Step(Run(m, tokenId, [a]), tokenId, b);
    assert Run(m, tokenId, [a, b, c]) == Step(Run(m, tokenId, [a, b]), tokenId, c);
  }

  /** Only an administrator unblocks a user. */
  lemma {:induction false} StaysBlocked(m: Month, tokenId: int, es: seq<Event>)
    requires m.account.blocked && Unblock !in es
    ensures Run(m, tokenId, es).account.blocked
  {
    if es != [] {
      assert es[|es| - 1] in es;
      StaysBlocked(m, tokenId, es[..|es| - 1]);
    }
  }

  function Unblocks(es: seq<Event>): nat {
    if es == [] then 0 else Unblocks(es[..|es| - 1]) + if es[|es| - 1].Unblock? then 1 else 0
  }

  function Blocks(levels: seq<Level>): nat {
    if levels == [] then 0 else Blocks(levels[..|levels| - 1]) + if levels[|levels| - 1] == BLOCK then 1 else 0
  }

  lemma BlocksAppend(levels: seq<Level>, l: Level)
    ensures Blocks(levels + [l]) == Blocks(levels) + if l == BLOCK then 1 else 0
  {
    assert (levels + [l])[..|levels|] == levels;
  }

  lemma CheckedBlocks(a: Account, band: Level)
    ensures Blocks(Checked(a, band).levels) - Blocks(a.levels)
         == (if Checked(a, band).blocked then 1 else 0) - (if a.blocked then 1 else 0)
  {
    BlocksAppend(a.levels, band);
  }

  lemma StepBlocks(m: Month, tokenId: int, e: Event, after: Month)
    requires after == Step(m, tokenId, e)
    ensures Blocks(after.account.levels) - (if after.account.blocked then 1 else 0)
         <= Blocks(m.account.levels) - (if m.account.blocked then 1 else 0) + (if e.Unblock? then 1 else 0)
  {
    if e.Check? && 0 <= e.i < |m.pending| && Limited(m.world.buffer.db, tokenId) {
      CheckedBlocks(m.account, Band(m.pending[e.i], DoubleEntry.Limit(m.world.buffer.db, tokenId) as real));
    }
  }

  /** After an unblock the block can be recorded again: once for every unblock, and once more while it lasts. */
  lemma {:induction false} BlocksFollowUnblocks(m: Month, tokenId: int, es: seq<Event>)
    requires m.account == FRESH
    ensures var a := Run(m, tokenId, es).account;
      Blocks(a.levels) <= Unblocks(es) + if a.blocked then 1 else 0
  {
    if es != [] {
      BlocksFollowUnblocks(m, tokenId, es[..|es| - 1]);
      StepBlocks(Run(m, tokenId, es[..|es| - 1]), tokenId, es[|es| - 1], Run(m, tokenId, es));
    }
  }

  // ---------------------------------------------------------------- the store itself

  datatype AlertRecord = AlertRecord(userId: int, level: Level, pct: int)

  function LevelsOf(records: seq<AlertRecord>, userId: int): seq<Level> {
    if records == [] then []
    else
      var r := records[|records| - 1];
      var before := LevelsOf(records[..|records| - 1], userId);
      if r.userId == userId then before + [r.level] else before
  }

  /** The keys of the current month; without Redis every read is empty and every write is skipped. */
  class UserQuotas {
    const redisEnabled: bool
    var usage: map<int, real>
    var blocked: set<int>
    var sent: set<(int, Level)>
    var records: seq<AlertRecord>

    constructor (redisEnabled: bool)
      ensures this.redisEnabled == redisEnabled && records == []
      ensures forall u :: AccountOf(u) == FRESH
    {
      this.redisEnabled := redisEnabled;
      usage, blocked, sent, records := map[], {}, {}, [];
    }

    ghost function AccountOf(u: int): Account
      reads this
    {
      Account(if u in usage then usage[u] else 0.0, u in blocked, (u, WARNING) in sent, (u, CRITICAL) in sent,
              LevelsOf(records, u))
    }

    method IncrUserQuota(userId: int, cost: real) returns (now: real)
      modifies this`usage
      ensures now == if redisEnabled then AccountOf(userId).usage else 0.0
      ensures AccountOf(userId) == if redisEnabled
                                   then old(AccountOf(userId)).(usage := old(AccountOf(userId)).usage + cost)
                                   else old(AccountOf(userId))
      ensures forall v :: v != userId ==> AccountOf(v) == old(AccountOf(v))
    {
      if !redisEnabled { return 0.0; }
      now := (if userId in usage then usage[userId] else 0.0) + cost;
      usage := usage[userId := now];
    }

    method UnblockUser(userId: int)
      modifies this`blocked
      ensures redisEnabled ==> AccountOf(userId) == old(AccountOf(userId)).(blocked := false)
      ensures !redisEnabled ==> blocked == old(blocked)
      ensures forall v :: v != userId ==> AccountOf(v) == old(AccountOf(v))
    {
      if redisEnabled {
        blocked := blocked - {userId};
      }
    }

    method RecordAlert(userId: int, level: Level, pct: int)
      modifies this`records
      ensures records == old(records) + [AlertRecord(userId, level, pct)]
      ensures forall v :: LevelsOf(records, v)
                       == if v == userId then LevelsOf(old(records), v) + [level] else LevelsOf(old(records), v)
    {
      records := records + [AlertRecord(userId, level, pct)];
    }

    /** True means that the breaker has tripped; each mark keeps its level from being recorded again. */
    method CheckAndAlert(userId: int, currentUsage: real, quotaLimit: real) returns (tripped: bool)
      modifies this`blocked, this`sent, this`records
      ensures tripped <==> 0.0 < quotaLimit <= currentUsage
      ensures redisEnabled ==> AccountOf(userId) == Checked(old(AccountOf(userId)), Band(currentUsage, quotaLimit))
      ensures !redisEnabled ==> blocked == old(blocked) && sent == old(sent)
      ensures !redisEnabled ==> (records != old(records) <==> Band(currentUsage, quotaLimit) > 0)
      ensures records != old(records) ==> quotaLimit > 0.0
      ensures var pct := if quotaLimit > 0.0 then (currentUsage / quotaLimit * 100.0).Floor else 0;
        records == old(records) || records == old(records) + [AlertRecord(userId, Band(currentUsage, quotaLimit), pct)]
      ensures forall v :: v != userId ==> AccountOf(v) == old(AccountOf(v))
    {
      BandClimbs(currentUsage, currentUsage, quotaLimit);
      if quotaLimit <= 0.0 { return false; }
      var pct := currentUsage / quotaLimit;
      if pct >= 1.0 {
        if !(redisEnabled && userId in blocked) {
          if redisEnabled { blocked := blocked + {userId}; }
          RecordAlert(userId, BLOCK, (pct * 100.0).Floor);
        }
        return true;
      }
      if pct >= 0.9 {
        if !(redisEnabled && (userId, CRITICAL) in sent) {
          RecordAlert(userId, CRITICAL, (pct * 100.0).Floor);
          if redisEnabled { sent := sent + {(userId, CRITICAL)}; }
        }
        return false;
      }
      if pct >= 0.8 {
        if !(redisEnabled && (userId, WARNING) in sent) {
          RecordAlert(userId, WARNING, (pct * 100.0).Floor);
          if redisEnabled { sent := sent + {(userId, WARNING)}; }
        }
      }
      return false;
    }

    /** What trackUsageForQuota does for a request with usage; a missing channel or token row ends it early. */
    method TrackUsage(db: Db, userId: int, tokenId: int, channel: Option<PricedChannel>, model: string,
                      promptTokens: int, completionTokens: int)
      modifies this`usage, this`blocked, this`sent, this`records
      ensures redisEnabled ==>
        AccountOf(userId) == TrackedAccount(old(AccountOf(userId)),
                          db, tokenId, channel, model, promptTokens, completionTokens)
      ensures !redisEnabled ==> AccountOf(userId) == old(AccountOf(userId))
      ensures forall v :: v != userId ==> AccountOf(v) == old(AccountOf(v))
    {
      if channel.None? { return; }
      var currentUsage := IncrUserQuota(userId, TrackedCost(channel, model, promptTokens, completionTokens));
      if tokenId !in db.tokens { return; }
      var token := db.tokens[tokenId];
      var quotaLimit := token.remainQuota as real + token.usedQuota as real;
      if token.unlimited { return; }
      var _ := CheckAndAlert(userId, currentUsage, quotaLimit);
    }
  }

  function TrackedAccount(a: Account, db: Db, tokenId: int, channel: Option<PricedChannel>, model: string,
                          promptTokens: int, completionTokens: int): Account
  {
    if channel.None? then a
    else
      var now := a.(usage := a.usage + TrackedCost(channel, model, promptTokens, completionTokens));
      if Limited(db, tokenId) then Checked(now, Band(now.usage, DoubleEntry.Limit(db, tokenId) as real)) else now
  }

  /** Tracking one request is an increment and the check of its own value, back to back. */
  lemma TrackingIsTwoSteps(m: Month, tokenId: int, channel: Option<PricedChannel>, model: string,
                           promptTokens: nat, completionTokens: nat)
    requires channel.Some? && NonNegative(channel.value)
    ensures Step(Step(m, tokenId, Increment(TrackedCost(channel, model, promptTokens, completionTokens))),
                 tokenId, Check(|m.pending|)).account
         == TrackedAccount(m.account, m.world.buffer.db, tokenId, channel, model, promptTokens, completionTokens)
  {
    CostNotNegative(Settled(channel, model, promptTokens, completionTokens));
  }

  lemma CostNotNegative(s: Settled)
    requires s.channel.Some? ==> NonNegative(s.channel.value)
    ensures Tracked(s) >= 0.0
  {
    if s.channel.Some? && s.channel.value.billingMode == BILLING_MODE_PER_TOKEN {
      var p := GetModelPrice(s.channel.value, s.model);
      var a, b := s.promptTokens as real / 1000000.0, s.completionTokens as real / 1000000.0;
      assert a >= 0.0 && b >= 0.0 && a * p.input >= 0.0 && b * p.output >= 0.0;
    }
  }
}
