/**
 The hand-off between the goroutine that reads a Xunfei websocket and the handler that collects its
 frames over two unbuffered channels (relay/adaptor/xunfei/main.go), as a machine of atomic steps.
 */
module Xunfei {
  import opened Options

  datatype Usage = Usage(prompt: int, completion: int, total: int)
  const NO_USAGE := Usage(0, 0, 0)

  function Plus(a: Usage, b: Usage): Usage {
    Usage(a.prompt + b.prompt, a.completion + b.completion, a.total + b.total)
  }

  /** A decoded response; status 2 marks the last one. */
  datatype Response = Response(texts: seq<string>, usage: Usage, status: int)
  const ZERO_RESPONSE := Response([], NO_USAGE, 0)

  /** What reading the socket yields; past the end of the list every read fails. */
  datatype Message = Decoded(r: Response) | Undecodable

  datatype Producer =
    | Reading(rest: seq<Message>)
    | Sending(r: Response, later: seq<Message>)  // blocked on the data channel
    | Stopping                                   // blocked on the stop channel
    | Finished

  /** The handler selects on both channels until it is told to stop; a streaming client may go away. */
  datatype Consumer = Selecting | Returned | Gone

  /** `last`, `content` and `usage` are the handler's variables; `received` is the history of the data channel. */
  datatype System = System(producer: Producer, consumer: Consumer, received: seq<Response>,
                           last: Response, content: string, usage: Usage)

  function Start(messages: seq<Message>): System {
    System(Reading(messages), Selecting, [], ZERO_RESPONSE, "", NO_USAGE)
  }

  datatype Event = Read | Data | Stop | Leave

  predicate Enabled(s: System, e: Event) {
    match e
    case Read => s.producer.Reading?
    case Data => s.producer.Sending? && s.consumer.Selecting?
    case Stop => s.producer.Stopping? && s.consumer.Selecting?
    case Leave => s.consumer.Selecting?
  }

  function Step(s: System, e: Event): System
    requires Enabled(s, e)
  {
    match e
    case Read =>
      var rest := s.producer.rest;
      s.(producer := if rest == [] || rest[0].Undecodable? then Stopping else Sending(rest[0].r, rest[1..]))
    case Data =>
      var r := s.producer.r;
      var took := s.(producer := if r.status == 2 then Stopping else Reading(s.producer.later),
                     received := s.received + [r], last := r);
      if r.texts == [] then took
      else took.(content := s.content + r.texts[0], usage := Plus(s.usage, r.usage))
    case Stop => s.(producer := Finished, consumer := Returned)
    case Leave => s.(consumer := Gone)
  }

  /** Every event of a run was enabled when it happened. */
  predicate Runs(s: System, es: seq<Event>)
    decreases |es|
  {
    es == [] || (Enabled(s, es[0]) && Runs(Step(s, es[0]), es[1..]))
  }

  function End(s: System, es: seq<Event>): System
    requires Runs(s, es)
    decreases |es|
  {
    if es == [] then s else End(Step(s, es[0]), es[1..])
  }

  // ---------------------------------------------------------------- what should arrive

  /** The frames up to and including the first with status 2, or up to the first failure. */
  function Expected(messages: seq<Message>): seq<Response> {
    if messages == [] || messages[0].Undecodable? then []
    else if messages[0].r.status == 2 then [messages[0].r]
    else [messages[0].r] + Expected(messages[1..])
  }

  function Content(rs: seq<Response>): string {
    if rs == [] then ""
    else
      var r := rs[|rs| - 1];
      Content(rs[..|rs| - 1]) + if r.texts == [] then "" else r.texts[0]
  }

  function TotalUsage(rs: seq<Response>): Usage {
    if rs == [] then NO_USAGE
    else
      var r := rs[|rs| - 1];
      if r.texts == [] then TotalUsage(rs[..|rs| - 1]) else Plus(TotalUsage(rs[..|rs| - 1]), r.usage)
  }

  function LastOf(rs: seq<Response>): Response {
    if rs == [] then ZERO_RESPONSE else rs[|rs| - 1]
  }

  /** What is still to come. */
  function ToCome(p: Producer): seq<Response> {
    match p
    case Reading(rest) => Expected(rest)
    case Sending(r, later) => if r.status == 2 then [r] else [r] + Expected(later)
    case Stopping => []
    case Finished => []
  }

  /** Nothing lost, nothing reordered, and the handler's variables sum up what it has received. */
  ghost predicate Inv(s: System, messages: seq<Message>) {
    && s.received + ToCome(s.producer) == Expected(messages)
    && s.content == Content(s.received)
    && s.usage == TotalUsage(s.received)
    && s.last == LastOf(s.received)
    && (s.consumer.Returned? <==> s.producer.Finished?)
  }

  lemma StepKeepsInv(s: System, messages: seq<Message>, e: Event)
    requires Inv(s, messages) && Enabled(s, e)
    ensures Inv(Step(s, e), messages)
  {
    if e.Data? {
      DataKeepsInv(s, messages, Step(s, e));
    } else {
      OthersKeepInv(s, messages, e, Step(s, e));
    }
  }

  lemma OthersKeepInv(s: System, messages: seq<Message>, e: Event, after: System)
    requires Inv(s, messages) && Enabled(s, e) && !e.Data? && after == Step(s, e)
    ensures Inv(after, messages)
  {
    assert after.received == s.received && ToCome(after.producer) == ToCome(s.producer);
  }

  /** Taking a frame: it moves from what is to come to what was received, and the variables take it up. */
  lemma DataKeepsInv(s: System, messages: seq<Message>, after: System)
    requires Inv(s, messages) && Enabled(s, Data) && after == Step(s, Data)
    ensures Inv(after, messages)
  {
    var r := s.producer.r;
    assert after.received == s.received + [r] && after.last == r;
    MovesOver(s.received, r, ToCome(after.producer));
    assert ToCome(s.producer) == [r] + ToCome(after.producer) by {
      if r.status == 2 { AppendNone(r); }
    }
    SumsUp(s.received, r);
    AppendEmpty(s.content);
  }

  lemma MovesOver(received: seq<Response>, r: Response, rest: seq<Response>)
    ensures received + ([r] + rest) == received + [r] + rest
  {
  }

  lemma AppendNone(r: Response)
    ensures [r] + [] == [r]
  {
  }

  lemma AppendEmpty(content: string)
    ensures content + "" == content
  {
  }

  lemma SumsUp(received: seq<Response>, r: Response)
    ensures Content(received + [r]) == Content(received) + if r.texts == [] then "" else r.texts[0]
    ensures TotalUsage(received + [r])
         == if r.texts == [] then TotalUsage(received) else Plus(TotalUsage(received), r.usage)
    ensures LastOf(received + [r]) == r
  {
    assert (received + [r])[..|received + [r]| - 1] == received;
  }

  /** Bounds the steps left, whoever moves. */
  function Measure(s: System): nat {
    (match s.producer
     case Reading(rest) => 2 * |rest| + 2
     case Sending(_, later) => 2 * |later| + 3
     case Stopping => 1
     case Finished => 0)
    + if s.consumer.Selecting? then 1 else 0
  }

  lemma StepDecreases(s: System, e: Event)
    requires Enabled(s, e)
    ensures Measure(Step(s, e)) < Measure(s)
  {
  }

  /** No deadlock: while the handler is there, somebody can move until both are done. */
  lemma Progress(s: System, messages: seq<Message>)
    requires Inv(s, messages) && s.consumer != Gone
    ensures (exists e :: e != Leave && Enabled(s, e)) <==> !(s.producer.Finished? && s.consumer.Returned?)
  {
    if s.producer.Reading? { assert Enabled(s, Read); }
    if s.producer.Sending? { assert Enabled(s, Data); }
    if s.producer.Stopping? { assert Enabled(s, Stop); }
  }

  lemma {:induction false} RunKeepsInv(s: System, messages: seq<Message>, es: seq<Event>)
    requires Inv(s, messages) && Runs(s, es)
    ensures Inv(End(s, es), messages)
    ensures Measure(End(s, es)) + |es| <= Measure(s)
    ensures End(s, es).consumer.Gone? <==> s.consumer.Gone? || Leave in es
    decreases |es|
  {
    if es != [] {
      StepKeepsInv(s, messages, es[0]);
      StepDecreases(s, es[0]);
      RunKeepsInv(Step(s, es[0]), messages, es[1..]);
    }
  }

  /** What Handler answers: an error when the last frame it received holds no text. */
  function Answer(s: System): Option<(string, Usage)> {
    if s.last.texts == [] then None else Some((s.content, s.usage))
  }

  /**
   For every finite frame sequence and every run in which the handler stays: the run is bounded, and when
   nothing can move any more both sides are done, every expected frame arrived in order, and the answer
   is the concatenation and the sum over the non-empty frames - unless the last frame was empty.
   */
  lemma HandOff(messages: seq<Message>, es: seq<Event>)
    requires Runs(Start(messages), es) && Leave !in es
    ensures |es| <= 2 * |messages| + 3
    ensures var s := End(Start(messages), es);
      (forall e :: Enabled(s, e) ==> e == Leave) ==>
        && s.producer.Finished? && s.consumer.Returned?
        && s.received == Expected(messages)
        && Answer(s) == if LastOf(Expected(messages)).texts == [] then None
                        else Some((Content(Expected(messages)), TotalUsage(Expected(messages))))
  {
    var start := Start(messages);
    assert [] + Expected(messages) == Expected(messages);
    RunKeepsInv(start, messages, es);
    var s := End(start, es);
    Progress(s, messages);
    if s.producer.Finished? {
      assert s.received + [] == s.received;
    }
  }

  // ---------------------------------------------------------------- what the sums are

  lemma OneFrame(r: Response)
    ensures Content([r]) == if r.texts == [] then "" else r.texts[0]
    ensures TotalUsage([r]) == if r.texts == [] then Usage(0, 0, 0) else r.usage
  {
    assert [r][..0] == [];
    assert "" + Content([r]) == Content([r]);
  }

  /** Contents are joined, and the three counts of a usage are added up, each with its own. */
  lemma {:induction false} FramesConcat(a: seq<Response>, b: seq<Response>)
    ensures Content(a + b) == Content(a) + Content(b)
    ensures TotalUsage(a + b).prompt == TotalUsage(a).prompt + TotalUsage(b).prompt
    ensures TotalUsage(a + b).completion == TotalUsage(a).completion + TotalUsage(b).completion
    ensures TotalUsage(a + b).total == TotalUsage(a).total + TotalUsage(b).total
  {
    if b == [] {
      assert a + b == a;
      AppendEmpty(Content(a));
    } else {
      var n, r := |b| - 1, b[|b| - 1];
      FramesConcat(a, b[..n]);
      LastOver(a, b, r);
      SumsUp(a + b[..n], r);
      SumsUp(b[..n], r);
      TextsOver(Content(a), Content(b[..n]), if r.texts == [] then "" else r.texts[0]);
    }
  }

  lemma LastOver(a: seq<Response>, b: seq<Response>, r: Response)
    requires b != [] && r == b[|b| - 1]
    ensures a + b == a + b[..|b| - 1] + [r] && b == b[..|b| - 1] + [r]
  {
  }

  lemma TextsOver(a: string, b: string, c: string)
    ensures a + b + c == a + (b + c)
  {
  }

  function Frames(rs: seq<Response>): seq<Message> {
    seq(|rs|, i requires 0 <= i < |rs| => Decoded(rs[i]))
  }

  /**
   What arrives of a stream: all frames up to the first of status 2, that one included, whatever follows; or all
   frames before the first that cannot be read or decoded.
   */
  lemma {:induction false} ExpectedIs(rs: seq<Response>, rest: seq<Message>)
    requires forall i :: 0 <= i < |rs| - 1 ==> rs[i].status != 2
    requires (rs != [] && rs[|rs| - 1].status == 2) || rest == [] || rest[0].Undecodable?
    ensures Expected(Frames(rs) + rest) == rs
  {
    if rs == [] {
      assert Frames(rs) + rest == rest;
    } else {
      var all := Frames(rs) + rest;
      assert all[0] == Decoded(rs[0]) && all[1..] == Frames(rs[1..]) + rest;
      assert forall i :: 0 <= i < |rs| - 1 ==> rs[i].status != 2;
      assert rs == [rs[0]] + rs[1..];
      if rs[0].status == 2 {
        assert |rs| == 1;
      } else {
        forall i | 0 <= i < |rs[1..]| - 1 ensures rs[1..][i].status != 2 { assert rs[i + 1].status != 2; }
        ExpectedIs(rs[1..], rest);
      }
    }
  }

  /**
   When nothing can move any more, the goroutine has finished exactly when the client never left: a
   client that leaves takes the only receiver of both channels with it.
   */
  lemma FinishedIffNobodyLeft(messages: seq<Message>, es: seq<Event>)
    requires Runs(Start(messages), es)
    requires forall e :: !Enabled(End(Start(messages), es), e)
    ensures End(Start(messages), es).producer.Finished? <==> Leave !in es
    ensures Leave in es ==> End(Start(messages), es).producer.Sending? || End(Start(messages), es).producer.Stopping?
  {
    var s := End(Start(messages), es);
    assert [] + Expected(messages) == Expected(messages);
    RunKeepsInv(Start(messages), messages, es);
    assert !Enabled(s, Leave) && !Enabled(s, Read);
  }
}
