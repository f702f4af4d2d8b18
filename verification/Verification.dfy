/** Verification codes in a lazily purged map (common/verification.go). Times are nanoseconds. */
module Verification {
  import opened Options

  const SECOND := 1_000_000_000
  const VALID_MINUTES := 10
  const MAX_SIZE := 10

  datatype Purpose = EmailVerification | PasswordReset

  function Tag(p: Purpose): string {
    match p
    case EmailVerification => "v"
    case PasswordReset => "r"
  }

  function FullKey(p: Purpose, key: string): string { Tag(p) + key }

  /** Tags have the same length, so no key of one purpose can be taken for a key of another. */
  lemma FullKeyIsInjective(p: Purpose, key: string, q: Purpose, other: string)
    ensures FullKey(p, key) == FullKey(q, other) <==> p == q && key == other
  {
    assert FullKey(p, key)[1..] == key && FullKey(q, other)[1..] == other;
    assert FullKey(p, key)[0] == Tag(p)[0] && FullKey(q, other)[0] == Tag(q)[0];
  }

  datatype Value = Value(code: string, time: int)
  type Codes = map<string, Value>

  /** int(d.Seconds()) truncates toward zero. */
  function Seconds(d: int): int {
    if d >= 0 then d / SECOND else -(-d / SECOND)
  }

  predicate Expired(now: int, time: int) {
    Seconds(now - time) >= VALID_MINUTES * 60
  }

  lemma ExpiredIsFinal(now: int, later: int, time: int)
    requires now <= later
    ensures Expired(now, time) ==> Expired(later, time)
    ensures Expired(now, time) <==> now - time >= 600 * SECOND
  {
  }

  // ---------------------------------------------------------------- calls

  /** `at` is the clock when a call stores or checks, `until` when it purges. */
  datatype Event =
    | Register(purpose: Purpose, key: string, code: string, at: int, until: int)
    | Verify(purpose: Purpose, key: string, code: string, at: int)
    | Delete(purpose: Purpose, key: string)

  function Purge(m: Codes, now: int): Codes {
    map k | k in m && !Expired(now, m[k].time) :: m[k]
  }

  function Stored(m: Codes, e: Event): Codes
    requires e.Register?
  {
    m[FullKey(e.purpose, e.key) := Value(e.code, e.at)]
  }

  function Step(m: Codes, purging: bool, e: Event): Codes {
    match e
    case Register(_, _, _, _, until) =>
      if purging && |Stored(m, e)| > MAX_SIZE then Purge(Stored(m, e), until) else Stored(m, e)
    case Verify(_, _, _, _) => m
    case Delete(purpose, key) => m - {FullKey(purpose, key)}
  }

  predicate Accepts(m: Codes, e: Event)
    requires e.Verify?
  {
    var k := FullKey(e.purpose, e.key);
    k in m && !Expired(e.at, m[k].time) && m[k].code == e.code
  }

  function Run(purging: bool, es: seq<Event>): Codes {
    if es == [] then map[] else Step(Run(purging, es[..|es| - 1]), purging, es[|es| - 1])
  }

  /** The answers of the Verify calls of a run. */
  function Answers(purging: bool, es: seq<Event>): seq<bool> {
    if es == [] then []
    else
      var before, e := es[..|es| - 1], es[|es| - 1];
      if e.Verify? then Answers(purging, before) + [Accepts(Run(purging, before), e)] else Answers(purging, before)
  }

  /** The last clock reading of a run, if there was one. */
  function Clock(es: seq<Event>): Option<int> {
    if es == [] then None
    else
      match es[|es| - 1]
      case Register(_, _, _, _, until) => Some(until)
      case Verify(_, _, _, at) => Some(at)
      case Delete(_, _) => Clock(es[..|es| - 1])
  }

  /** The clock never runs backwards. */
  predicate Ordered(es: seq<Event>) {
    es == [] ||
    (var before, e := es[..|es| - 1], es[|es| - 1];
     && Ordered(before)
     && (!e.Delete? && Clock(before).Some? ==> Clock(before).value <= e.at)
     && (e.Register? ==> e.at <= e.until))
  }

  // ---------------------------------------------------------------- purging cannot be observed

  /** What purging may have removed has expired by now. */
  ghost predicate Agree(purged: Codes, full: Codes, clock: Option<int>) {
    && (forall k :: k in purged ==> k in full && full[k] == purged[k])
    && forall k :: k in full && k !in purged ==> clock.Some? && Expired(clock.value, full[k].time)
  }

  lemma StepsAgree(purged: Codes, full: Codes, before: seq<Event>, e: Event)
    requires Agree(purged, full, Clock(before)) && Ordered(before + [e])
    ensures Agree(Step(purged, true, e), Step(full, false, e), Clock(before + [e]))
  {
    assert (before + [e])[..|before|] == before;
    var clock, now := Clock(before), Clock(before + [e]);
    var p, f := Step(purged, true, e), Step(full, false, e);
    assert forall k :: k in purged ==> k in full && full[k] == purged[k];
    forall k | k in full && k !in purged ensures now.Some? && Expired(now.value, full[k].time) {
      assert clock.Some? && Expired(clock.value, full[k].time);
      ExpiredIsFinal(clock.value, now.value, full[k].time);
    }
    forall k | k in p ensures k in f && f[k] == p[k] {}
    forall k | k in f && k !in p ensures now.Some? && Expired(now.value, f[k].time) {
      if k in full && k !in purged {
      } else {
        assert e.Register? && k in Stored(purged, e);
      }
    }
  }

  lemma {:induction false} RunsAgree(es: seq<Event>)
    requires Ordered(es)
    ensures Agree(Run(true, es), Run(false, es), Clock(es))
  {
    if es != [] {
      var before, e := es[..|es| - 1], es[|es| - 1];
      assert es == before + [e];
      RunsAgree(before);
      StepsAgree(Run(true, before), Run(false, before), before, e);
    }
  }

  /** In every run the purged map gives the answers of one that is never purged. */
  lemma {:induction false} PurgingIsNotObserved(es: seq<Event>)
    requires Ordered(es)
    ensures Answers(true, es) == Answers(false, es)
  {
    if es != [] {
      var before, e := es[..|es| - 1], es[|es| - 1];
      PurgingIsNotObserved(before);
      RunsAgree(before);
      if e.Verify? {
        var k, full := FullKey(e.purpose, e.key), Run(false, before);
        if k in full && Clock(before).Some? {
          ExpiredIsFinal(Clock(before).value, e.at, full[k].time);
        }
      }
    }
  }

  // ---------------------------------------------------------------- what a code answers

  /** The registration that a run leaves in force for a key, expired or not. */
  function Latest(es: seq<Event>, purpose: Purpose, key: string): Option<Value> {
    if es == [] then None
    else
      var e := es[|es| - 1];
      if e.Verify? || e.purpose != purpose || e.key != key then Latest(es[..|es| - 1], purpose, key)
      else if e.Register? then Some(Value(e.code, e.at))
      else None
  }

  lemma {:induction false} FullMapIsLatest(es: seq<Event>, purpose: Purpose, key: string)
    ensures var k := FullKey(purpose, key);
      Latest(es, purpose, key) == if k in Run(false, es) then Some(Run(false, es)[k]) else None
  {
    if es != [] {
      var e := es[|es| - 1];
      FullMapIsLatest(es[..|es| - 1], purpose, key);
      FullKeyIsInjective(purpose, key, e.purpose, e.key);
    }
  }

  /** A code verifies iff it is the latest for that purpose and key, not deleted, and under ten minutes old. */
  lemma VerifiesIff(es: seq<Event>, e: Event)
    requires e.Verify? && Ordered(es + [e])
    ensures Accepts(Run(true, es), e)
       <==> (var latest := Latest(es, e.purpose, e.key);
             latest.Some? && latest.value.code == e.code && e.at - latest.value.time < 600_000_000_000)
  {
    assert (es + [e])[..|es|] == es;
    PurgingIsNotObserved(es + [e]);
    RunsAgree(es);
    FullMapIsLatest(es, e.purpose, e.key);
    var k, full := FullKey(e.purpose, e.key), Run(false, es);
    if k in full {
      ExpiredIsFinal(e.at, e.at, full[k].time);
      if Clock(es).Some? { ExpiredIsFinal(Clock(es).value, e.at, full[k].time); }
    }
  }

  // ---------------------------------------------------------------- the map in place

  class VerificationMap {
    var codes: Codes

    constructor ()
      ensures codes == map[]
    {
      codes := map[];
    }

    method RegisterVerificationCodeWithKey(key: string, code: string, purpose: Purpose, at: int, until: int)
      modifies this
      ensures codes == Step(old(codes), true, Register(purpose, key, code, at, until))
      ensures |codes| > 10 ==> forall k :: k in codes ==> until - codes[k].time < 600_000_000_000
      ensures |old(codes)| < 10 ==> codes == old(codes)[FullKey(purpose, key) := Value(code, at)]
    {
      forall time ensures Expired(until, time) <==> until - time >= 600_000_000_000 {
        ExpiredIsFinal(until, until, time);
      }
      codes := codes[FullKey(purpose, key) := Value(code, at)];
      if |codes| > MAX_SIZE {
        RemoveExpiredPairs(until);
      }
    }

    method VerifyCodeWithKey(key: string, code: string, purpose: Purpose, at: int) returns (ok: bool)
      ensures ok == Accepts(codes, Verify(purpose, key, code, at))
    {
      var k := FullKey(purpose, key);
      if k !in codes { return false; }
      if Seconds(at - codes[k].time) >= VALID_MINUTES * 60 { return false; }
      return code == codes[k].code;
    }

    /** Afterwards no code verifies for that key, and every other key answers as before. */
    method DeleteKey(key: string, purpose: Purpose)
      modifies this
      ensures codes == Step(old(codes), true, Delete(purpose, key))
      ensures forall e: Event :: e.Verify? ==>
        (Accepts(codes, e) <==> Accepts(old(codes), e) && !(e.purpose == purpose && e.key == key))
    {
      forall e: Event | e.Verify?
        ensures FullKey(e.purpose, e.key) == FullKey(purpose, key) <==> e.purpose == purpose && e.key == key
      {
        FullKeyIsInjective(e.purpose, e.key, purpose, key);
      }
      codes := codes - {FullKey(purpose, key)};
    }

    /** Keys are visited in any order. */
    method RemoveExpiredPairs(now: int)
      modifies this
      ensures codes == Purge(old(codes), now)
    {
      var keys := codes.Keys;
      while exists k :: k in keys
        invariant keys <= codes.Keys <= old(codes).Keys
        invariant forall k :: k in codes ==> codes[k] == old(codes)[k]
        invariant forall k :: k in old(codes) && k !in keys ==> (k in codes <==> !Expired(now, old(codes)[k].time))
        decreases |keys|
      {
        var k :| k in keys;
        if Seconds(now - codes[k].time) >= VALID_MINUTES * 60 {
          codes := codes - {k};
        }
        keys := keys - {k};
      }
    }
  }
}
