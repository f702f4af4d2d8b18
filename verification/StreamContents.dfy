/**
 What a stream of decoded chunks comes to: its text in order, its usage, and the bytes that are relayed
 (relay/adaptor/openai/main.go, common/render/render.go, common/custom-event.go).
 */
module StreamContents {
  import opened Options
  import opened Tokenizer
  import opened Sse

  // ---------------------------------------------------------------- one line

  lemma JoinedOne(t: string)
    ensures Joined([t]) == t && Joined([]) == ""
  {
    assert [t][1..] == [] && t + "" == t;
  }

  lemma {:induction false} JoinedConcat(a: seq<string>, b: seq<string>)
    ensures Joined(a + b) == Joined(a) + Joined(b)
  {
    if a == [] {
      assert a + b == b && "" + Joined(b) == Joined(b);
    } else {
      assert (a + b)[1..] == a[1..] + b;
      JoinedConcat(a[1..], b);
      Assoc(a[0], Joined(a[1..]), Joined(b));
    }
  }

  /** What a data line does, by what its payload decodes to. */
  lemma DataLineIs(p: string, mode: Mode, decode: Decode)
    ensures Forwards("data: " + p, mode, decode) <==>
      || HasPrefix(p, "[DONE]") || mode.Completions?
      || (mode.ChatCompletions?
          && match decode(p) case None => true case Some(chunk) => chunk.choices != [] || chunk.usage.Some?)
    ensures IsDone("data: " + p) <==> HasPrefix(p, "[DONE]")
    ensures TextOf("data: " + p, mode, decode)
         == if HasPrefix(p, "[DONE]") || mode.OtherMode? then ""
            else match decode(p) case None => "" case Some(chunk) => Joined(chunk.choices)
    ensures UsageOf("data: " + p, mode, decode)
         == if HasPrefix(p, "[DONE]") || !mode.ChatCompletions? then None
            else match decode(p) case None => None case Some(chunk) => chunk.usage
  {
    var line := "data: " + p;
    assert line[..6] == "data: " && line[6..] == p;
  }

  /** A line that starts neither with "data: " nor with "[DONE]" does nothing. */
  lemma OtherLineIs(line: string, mode: Mode, decode: Decode)
    requires !HasPrefix(line, "data: ") && !HasPrefix(line, "[DONE]")
    ensures !Forwards(line, mode, decode) && !IsDone(line)
    ensures TextOf(line, mode, decode) == "" && UsageOf(line, mode, decode) == None
  {
  }

  // ---------------------------------------------------------------- a stream of chunks

  /** Payloads that decode to chunks of one choice each, with this text and this usage, and are not the done frame. */
  ghost predicate Chunks(ps: seq<string>, ts: seq<string>, us: seq<Option<int>>, decode: Decode) {
    && |ps| == |ts| == |us|
    && forall i :: 0 <= i < |ps| ==> decode(ps[i]) == Some(Chunk([ts[i]], us[i])) && !HasPrefix(ps[i], "[DONE]")
  }

  function DataLines(ps: seq<string>): seq<string> {
    seq(|ps|, i requires 0 <= i < |ps| => "data: " + ps[i])
  }

  lemma {:induction false} TextAppend(lines: seq<string>, line: string, mode: Mode, decode: Decode)
    ensures Text(lines + [line], mode, decode) == Text(lines, mode, decode) + TextOf(line, mode, decode)
    ensures Usage(lines + [line], mode, decode)
         == if UsageOf(line, mode, decode).Some? then UsageOf(line, mode, decode) else Usage(lines, mode, decode)
  {
    if lines == [] {
      assert lines + [line] == [line];
      OneLineText(line, mode, decode);
      assert "" + TextOf(line, mode, decode) == TextOf(line, mode, decode);
    } else {
      assert (lines + [line])[1..] == lines[1..] + [line];
      TextAppend(lines[1..], line, mode, decode);
      Assoc(TextOf(lines[0], mode, decode), Text(lines[1..], mode, decode), TextOf(line, mode, decode));
    }
  }

  /** The response text is the texts of the chunks, in order; completions report no usage. */
  lemma {:induction false} ChunksText(ps: seq<string>, ts: seq<string>, us: seq<Option<int>>, mode: Mode,
                                       decode: Decode)
    requires Chunks(ps, ts, us, decode) && !mode.OtherMode?
    ensures Text(DataLines(ps), mode, decode) == Concat(ts)
    ensures mode.Completions? ==> Usage(DataLines(ps), mode, decode) == None
  {
    if ps != [] {
      var n := |ps| - 1;
      ChunksText(ps[..n], ts[..n], us[..n], mode, decode);
      assert DataLines(ps) == DataLines(ps[..n]) + ["data: " + ps[n]];
      TextAppend(DataLines(ps[..n]), "data: " + ps[n], mode, decode);
      DataLineIs(ps[n], mode, decode);
      JoinedOne(ts[n]);
    }
  }

  ghost predicate NoneFrom(us: seq<Option<int>>, i: nat) {
    forall j :: i <= j < |us| ==> us[j] == None
  }

  /** The last usage of a list that is there, or none if none is. */
  ghost predicate IsLast(us: seq<Option<int>>, u: Option<int>) {
    if u == None then NoneFrom(us, 0)
    else exists i :: 0 <= i < |us| && us[i] == u && NoneFrom(us, i + 1)
  }

  lemma LastAppend(us: seq<Option<int>>, u: Option<int>, one: Option<int>)
    requires IsLast(us, u)
    ensures IsLast(us + [one], if one.Some? then one else u)
  {
    var more := us + [one];
    assert forall i :: 0 <= i < |us| ==> more[i] == us[i];
    if one.Some? {
      assert more[|us|] == one && NoneFrom(more, |us| + 1);
    } else if u.Some? {
      var i :| 0 <= i < |us| && us[i] == u && NoneFrom(us, i + 1);
      assert more[i] == u && NoneFrom(more, i + 1);
    }
  }

  /** In chat completions the usage is the last one reported, if any is. */
  lemma {:induction false} ChunksUsage(ps: seq<string>, ts: seq<string>, us: seq<Option<int>>, decode: Decode)
    requires Chunks(ps, ts, us, decode)
    ensures IsLast(us, Usage(DataLines(ps), ChatCompletions, decode))
  {
    if ps == [] {
      assert DataLines(ps) == [];
    } else {
      var n := |ps| - 1;
      ChunksPrefix(ps, ts, us, decode);
      ChunksUsage(ps[..n], ts[..n], us[..n], decode);
      var before := Usage(DataLines(ps[..n]), ChatCompletions, decode);
      UsageAfter(ps, ps[n], ts[n], us[n], decode, before);
      LastOfAll(us, before, us[n]);
    }
  }

  lemma ChunksPrefix(ps: seq<string>, ts: seq<string>, us: seq<Option<int>>, decode: Decode)
    requires Chunks(ps, ts, us, decode) && ps != []
    ensures Chunks(ps[..|ps| - 1], ts[..|ps| - 1], us[..|ps| - 1], decode)
    ensures var n := |ps| - 1;
      decode(ps[n]) == Some(Chunk([ts[n]], us[n])) && !HasPrefix(ps[n], "[DONE]")
  {
    assert forall i :: 0 <= i < |ps| ==> decode(ps[i]) == Some(Chunk([ts[i]], us[i])) && !HasPrefix(ps[i], "[DONE]");
  }

  lemma LastOfAll(us: seq<Option<int>>, before: Option<int>, one: Option<int>)
    requires us != [] && one == us[|us| - 1] && IsLast(us[..|us| - 1], before)
    ensures IsLast(us, if one.Some? then one else before)
  {
    LastAppend(us[..|us| - 1], before, one);
    assert us[..|us| - 1] + [one] == us;
  }

  lemma UsageAfter(ps: seq<string>, p: string, t: string, u: Option<int>, decode: Decode, before: Option<int>)
    requires ps != [] && p == ps[|ps| - 1] && decode(p) == Some(Chunk([t], u)) && !HasPrefix(p, "[DONE]")
    requires before == Usage(DataLines(ps[..|ps| - 1]), ChatCompletions, decode)
    ensures Usage(DataLines(ps), ChatCompletions, decode) == if u.Some? then u else before
  {
    var lines := DataLines(ps[..|ps| - 1]);
    assert DataLines(ps) == lines + ["data: " + p];
    TextAppend(lines, "data: " + p, ChatCompletions, decode);
    DataLineIs(p, ChatCompletions, decode);
  }

  // ---------------------------------------------------------------- as it arrives, and as it leaves

  /** The bytes of a clean frame. */
  lemma FrameBytes(p: string)
    requires Clean(p)
    ensures Written([p]) == "data: " + p + "\n\n"
  {
    WriteFrame(p);
    EscapeClean(p);
    WrittenCons(p, []);
    assert [p] + [] == [p] && Written([p]) == WriteData(DATA_PREFIX + p) + "";
  }

  /** What is written for each character, and after text that is not a data field. */
  lemma EscapeIs(c: char, data: string)
    ensures Escape([c]) == if c == '\n' then "\ndata:" else if c == '\r' then "\\r" else [c]
    ensures !HasPrefix(data, "data") ==> WriteData(data) == Escape(data)
  {
    assert [c][1..] == "" && EscapeChar(c) + "" == EscapeChar(c);
    assert Escape(data) + "" == Escape(data);
  }

  lemma {:induction false} FramesOfChunks(ps: seq<string>, mode: Mode, decode: Decode)
    ensures FramesText(ps, mode, decode) == Text(DataLines(ps), mode, decode)
    ensures FramesUsage(ps, mode, decode) == Usage(DataLines(ps), mode, decode)
  {
    if ps != [] {
      FramesOfChunks(ps[1..], mode, decode);
      assert DataLines(ps)[1..] == DataLines(ps[1..]) && DataLines(ps)[0] == DATA_PREFIX + ps[0];
    } else {
      assert DataLines(ps) == [];
    }
  }

  /**
   A stream of such chunks as it arrives, each in a frame of its own and cut into reads at will: the response text
   is their texts in order, and what is relayed is the stream itself with a done frame at its end.
   */
  lemma StreamOfChunks(chunks: seq<string>, ps: seq<string>, ts: seq<string>, us: seq<Option<int>>, mode: Mode,
                       decode: Decode)
    requires Chunks(ps, ts, us, decode) && !mode.OtherMode? && Concat(chunks) == Written(ps)
    requires forall p :: p in ps ==> Clean(p)
    ensures Text(ScanAll(ScanLines, chunks), mode, decode) == Concat(ts)
    ensures Usage(ScanAll(ScanLines, chunks), mode, decode) == Usage(DataLines(ps), mode, decode)
    ensures Relay(Concat(chunks), mode, decode) == Written(ps) + "data: [DONE]\n\n"
  {
    ChunkingDoesNotMatter(ScanLines, chunks);
    TextOfStream(ps, ts, us, mode, decode, Tokens(ScanLines, Written(ps)));
    BytesOfStream(ps, ts, us, mode, decode, Tokens(ScanLines, Written(ps)));
  }

  lemma TextOfStream(ps: seq<string>, ts: seq<string>, us: seq<Option<int>>, mode: Mode, decode: Decode,
                     lines: seq<string>)
    requires Chunks(ps, ts, us, decode) && !mode.OtherMode? && lines == Tokens(ScanLines, Written(ps))
    requires forall p :: p in ps ==> Clean(p)
    ensures Text(lines, mode, decode) == Concat(ts)
    ensures Usage(lines, mode, decode) == Usage(DataLines(ps), mode, decode)
  {
    WrittenText(ps, mode, decode);
    FramesOfChunks(ps, mode, decode);
    ChunksText(ps, ts, us, mode, decode);
  }

  lemma BytesOfStream(ps: seq<string>, ts: seq<string>, us: seq<Option<int>>, mode: Mode, decode: Decode,
                      lines: seq<string>)
    requires Chunks(ps, ts, us, decode) && !mode.OtherMode? && lines == Tokens(ScanLines, Written(ps))
    requires forall p :: p in ps ==> Clean(p)
    ensures Written(Frames(lines, mode, decode)) == Written(ps) + "data: [DONE]\n\n"
  {
    AllForwarded(ps, ts, us, mode, decode);
    FramesOfStream(ps, mode, decode, lines);
    WrittenConcat(ps, [DONE]);
    DoneBytes(DONE);
  }

  lemma DoneBytes(done: string)
    requires done == "[DONE]"
    ensures Written([done]) == "data: [DONE]\n\n"
  {
    FrameBytes(done);
  }

  lemma FramesOfStream(ps: seq<string>, mode: Mode, decode: Decode, lines: seq<string>)
    requires lines == Tokens(ScanLines, Written(ps))
    requires forall p :: p in ps ==> Clean(p)
    requires forall p :: p in ps ==> Returns(p, mode, decode) && !HasPrefix(p, DONE)
    ensures Frames(lines, mode, decode) == ps + [DONE]
  {
    ReadBack(ps, mode, decode);
    ReturningIsShorter(ps, mode, decode);
  }

  lemma AllForwarded(ps: seq<string>, ts: seq<string>, us: seq<Option<int>>, mode: Mode, decode: Decode)
    requires Chunks(ps, ts, us, decode) && !mode.OtherMode?
    ensures forall p :: p in ps ==> Returns(p, mode, decode) && !HasPrefix(p, DONE)
  {
    forall p | p in ps ensures Returns(p, mode, decode) && !HasPrefix(p, DONE) {
      var i :| 0 <= i < |ps| && ps[i] == p;
      DataLineIs(p, mode, decode);
    }
  }
}
