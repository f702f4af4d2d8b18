/**
 The SSE relay (relay/adaptor/openai/main.go, common/render/render.go, common/custom-event.go).
 JSON decoding is an arbitrary partial function of the payload text.
 */
module Sse {
  import opened Options
  import opened Tokenizer

  const DATA_PREFIX := "data: "
  const DONE := "[DONE]"

  /** A decoded chunk: its choices' texts and its usage, if it has one. */
  datatype Chunk = Chunk(choices: seq<string>, usage: Option<int>)
  type Decode = string -> Option<Chunk>

  datatype Mode = ChatCompletions | Completions | OtherMode

  predicate HasPrefix(s: string, prefix: string) {
    |prefix| <= |s| && s[..|prefix|] == prefix
  }

  function TrimPrefix(s: string, prefix: string): string {
    if HasPrefix(s, prefix) then s[|prefix|..] else s
  }

  predicate NoCR(s: string) { '\r' !in s }
  predicate NoNewline(s: string) { '\n' !in s }

  // ---------------------------------------------------------------- writing frames

  /** dataReplacer */
  function EscapeChar(c: char): string {
    if c == '\n' then "\ndata:" else if c == '\r' then "\\r" else [c]
  }

  function Escape(s: string): string {
    if s == "" then "" else EscapeChar(s[0]) + Escape(s[1..])
  }

  /** writeData: the blank line is added for text that starts with "data". */
  function WriteData(data: string): string {
    Escape(data) + if HasPrefix(data, "data") then "\n\n" else ""
  }

  /** What is left of a line between render.StringData and the writer. */
  function Payload(line: string): string {
    DropCR(TrimPrefix(line, DATA_PREFIX))
  }

  function StringData(line: string): string {
    WriteData(DATA_PREFIX + Payload(line))
  }

  // ---------------------------------------------------------------- the stream handler

  predicate IsDone(line: string) {
    |line| >= 6 && (line[..6] == DATA_PREFIX || line[..6] == DONE) && HasPrefix(line[6..], DONE)
  }

  /** Whether a line is forwarded. */
  predicate Forwards(line: string, mode: Mode, decode: Decode) {
    && |line| >= 6
    && (line[..6] == DATA_PREFIX || line[..6] == DONE)
    && (HasPrefix(line[6..], DONE)
        || mode.Completions?
        || (mode.ChatCompletions?
            && (decode(line[6..]).None? || decode(line[6..]).value.choices != []
                || decode(line[6..]).value.usage.Some?)))
  }

  function Joined(texts: seq<string>): string {
    if texts == [] then "" else texts[0] + Joined(texts[1..])
  }

  /** What a line adds to the response text, and the usage it reports. */
  function TextOf(line: string, mode: Mode, decode: Decode): string {
    if Forwards(line, mode, decode) && !IsDone(line) && !mode.OtherMode? && decode(line[6..]).Some?
    then Joined(decode(line[6..]).value.choices) else ""
  }

  function UsageOf(line: string, mode: Mode, decode: Decode): Option<int> {
    if Forwards(line, mode, decode) && !IsDone(line) && mode.ChatCompletions? && decode(line[6..]).Some?
    then decode(line[6..]).value.usage else None
  }

  /** The payloads forwarded for a list of lines, and whether a done line was among them. */
  function Forwarded(lines: seq<string>, mode: Mode, decode: Decode): seq<string> {
    if lines == [] then []
    else if Forwards(lines[0], mode, decode) then [Payload(lines[0])] + Forwarded(lines[1..], mode, decode)
    else Forwarded(lines[1..], mode, decode)
  }

  predicate AnyDone(lines: seq<string>) {
    lines != [] && (IsDone(lines[0]) || AnyDone(lines[1..]))
  }

  /** Every frame of a relayed stream: a done frame is added if none was forwarded. */
  function Frames(lines: seq<string>, mode: Mode, decode: Decode): seq<string> {
    Forwarded(lines, mode, decode) + if AnyDone(lines) then [] else [DONE]
  }

  function Written(frames: seq<string>): string {
    if frames == [] then "" else WriteData(DATA_PREFIX + frames[0]) + Written(frames[1..])
  }

  /** The bytes a client receives for the bytes an upstream sends. */
  function Relay(input: string, mode: Mode, decode: Decode): string {
    Written(Frames(Tokens(ScanLines, input), mode, decode))
  }

  function Text(lines: seq<string>, mode: Mode, decode: Decode): string {
    if lines == [] then "" else TextOf(lines[0], mode, decode) + Text(lines[1..], mode, decode)
  }

  /** The last usage reported. */
  function Usage(lines: seq<string>, mode: Mode, decode: Decode): Option<int> {
    if lines == [] then None
    else
      var later := Usage(lines[1..], mode, decode);
      if later.Some? then later else UsageOf(lines[0], mode, decode)
  }

  // ---------------------------------------------------------------- escaping

  lemma {:induction false} EscapeClean(s: string)
    requires NoCR(s) && NoNewline(s)
    ensures Escape(s) == s
  {
    if s != "" {
      EscapeClean(s[1..]);
      assert s[0] in s;
    }
  }

  lemma {:induction false} EscapeHasNoCR(s: string)
    ensures NoCR(Escape(s))
  {
    if s != "" { EscapeHasNoCR(s[1..]); }
  }

  /** No output ever holds a carriage return, so a client cannot take one for a line end. */
  lemma {:induction false} WrittenHasNoCR(frames: seq<string>)
    ensures NoCR(Written(frames))
  {
    if frames != [] {
      EscapeHasNoCR(DATA_PREFIX + frames[0]);
      WrittenHasNoCR(frames[1..]);
    }
  }

  // ---------------------------------------------------------------- reading frames back

  lemma {:induction false} CharAt(before: string, c: char, rest: string)
    requires c !in before
    ensures Index(before + [c] + rest, [c]) == |before|
  {
    var all := before + [c] + rest;
    if before == "" {
      assert all[..1] == [c];
    } else {
      assert all[..1] == [before[0]] && before[0] in before;
      assert all[1..] == before[1..] + [c] + rest;
      CharAt(before[1..], c, rest);
    }
  }

  lemma LineThenRest(line: string, rest: string)
    requires NoNewline(line)
    ensures Tokens(ScanLines, line + "\n" + rest) == [DropCR(line)] + Tokens(ScanLines, rest)
  {
    CharAt(line, '\n', rest);
    assert (line + "\n" + rest)[..|line|] == line;
    assert (line + "\n" + rest)[|line| + 1..] == rest;
  }

  /** A payload that can be written and read back: on one line, without carriage returns. */
  predicate Clean(p: string) {
    NoCR(p) && NoNewline(p)
  }

  lemma TwoNewlines(line: string, rest: string)
    ensures line + "\n\n" + rest == line + "\n" + ("" + "\n" + rest)
  {
  }

  lemma DropNothing(line: string)
    requires NoCR(line)
    ensures DropCR(line) == line
  {
    if line != "" { assert line[|line| - 1] in line; }
  }

  lemma LinesOfFrame(p: string, rest: string)
    requires Clean(p)
    ensures Tokens(ScanLines, WriteData(DATA_PREFIX + p) + rest) == [DATA_PREFIX + p, ""] + Tokens(ScanLines, rest)
  {
    var line := DATA_PREFIX + p;
    EscapeClean(line);
    FrameIsData(p);
    DropNothing(line);
    LineAndBlank(line, rest);
  }

  lemma LineAndBlank(line: string, rest: string)
    requires NoNewline(line)
    ensures Tokens(ScanLines, line + "\n\n" + rest) == [DropCR(line), ""] + Tokens(ScanLines, rest)
  {
    TwoNewlines(line, rest);
    LineThenRest(line, "" + "\n" + rest);
    LineThenRest("", rest);
    assert DropCR("") == "";
    TwoThenRest(DropCR(line), "", Tokens(ScanLines, rest));
  }

  lemma TwoThenRest(a: string, b: string, rest: seq<string>)
    ensures [a] + ([b] + rest) == [a, b] + rest
  {
  }

  lemma NoNewlineBefore(input: string, newline: string, i: nat)
    requires newline == "\n" && i <= |input| && (Index(input, newline) < 0 || i <= Index(input, newline))
    ensures NoNewline(input[..i]) && NoNewline(DropCR(input[..i]))
  {
    forall j | 0 <= j < i ensures input[j] != '\n' {
      if input[j] == '\n' { NewlineAt(input, newline, j); }
    }
    assert forall c :: c in DropCR(input[..i]) ==> c in input[..i];
  }

  lemma NewlineAt(input: string, newline: string, j: nat)
    requires newline == "\n" && j < |input| && input[j] == '\n'
    ensures 0 <= Index(input, newline) <= j
  {
    assert input[j..j + |newline|] == newline;
    IndexFirst(input, newline, j);
  }

  lemma TokensHaveNoNewline(input: string)
    ensures forall line :: line in Tokens(ScanLines, input) ==> NoNewline(line)
  {
    LinesHaveNoNewline(ScanLines, input, Tokens(ScanLines, input));
  }

  lemma {:induction false} LinesHaveNoNewline(f: Format, input: string, lines: seq<string>)
    requires f.ScanLines? && lines == Tokens(f, input)
    ensures forall line :: line in lines ==> NoNewline(line)
    decreases |input|
  {
    var i := Index(input, Separator(f));
    if i >= 0 {
      var first, rest := DropCR(input[..i]), input[i + |Separator(f)|..];
      NoNewlineBefore(input, Separator(f), i);
      FirstToken(f, input, i, first);
      LinesHaveNoNewline(f, rest, Tokens(f, rest));
    } else {
      NoNewlineBefore(input, Separator(f), |input|);
      assert input[..|input|] == input;
      LastToken(f, input);
    }
  }

  // ---------------------------------------------------------------- writing what has been escaped

  lemma {:induction false} EscapeIsClean(p: string)
    requires NoNewline(p)
    ensures Clean(Escape(p))
  {
    if p != "" {
      assert p[0] in p;
      EscapeIsClean(p[1..]);
    }
  }

  lemma {:induction false} EscapeConcat(a: string, b: string)
    ensures Escape(a + b) == Escape(a) + Escape(b)
  {
    if a == "" {
      assert a + b == b;
    } else {
      assert (a + b)[1..] == a[1..] + b;
      EscapeConcat(a[1..], b);
      Assoc(EscapeChar(a[0]), Escape(a[1..]), Escape(b));
    }
  }

  function EscapeAll(frames: seq<string>): seq<string> {
    if frames == [] then [] else [Escape(frames[0])] + EscapeAll(frames[1..])
  }

  lemma WriteFrame(p: string)
    ensures WriteData(DATA_PREFIX + p) == DATA_PREFIX + Escape(p) + "\n\n"
  {
    EscapeClean(DATA_PREFIX);
    EscapeConcat(DATA_PREFIX, p);
    FrameIsData(p);
  }

  /** A frame starts with "data", so the blank line that ends it is written. */
  lemma FrameIsData(p: string)
    ensures WriteData(DATA_PREFIX + p) == Escape(DATA_PREFIX + p) + "\n\n"
  {
    assert (DATA_PREFIX + p)[..4] == "data";
  }

  lemma WriteEscaped(p: string)
    requires NoNewline(p)
    ensures WriteData(DATA_PREFIX + p) == WriteData(DATA_PREFIX + Escape(p))
  {
    EscapeIsClean(p);
    EscapeClean(Escape(p));
    WriteFrame(p);
    WriteFrame(Escape(p));
  }

  lemma {:induction false} WrittenEscaped(frames: seq<string>)
    requires forall p :: p in frames ==> NoNewline(p)
    ensures Written(frames) == Written(EscapeAll(frames))
    ensures forall p :: p in EscapeAll(frames) ==> Clean(p)
  {
    if frames != [] {
      assert frames[0] in frames;
      WriteEscaped(frames[0]);
      EscapeIsClean(frames[0]);
      WrittenEscaped(frames[1..]);
      assert EscapeAll(frames)[1..] == EscapeAll(frames[1..]);
    }
  }

  // ---------------------------------------------------------------- the fixed point

  /** A payload whose frame is forwarded when it is read back. */
  predicate Returns(p: string, mode: Mode, decode: Decode) {
    Forwards(DATA_PREFIX + p, mode, decode)
  }

  function Returning(frames: seq<string>, mode: Mode, decode: Decode): seq<string> {
    if frames == [] then []
    else if Returns(frames[0], mode, decode) then [frames[0]] + Returning(frames[1..], mode, decode)
    else Returning(frames[1..], mode, decode)
  }

  lemma DataLine(p: string)
    ensures (DATA_PREFIX + p)[..6] == DATA_PREFIX && (DATA_PREFIX + p)[6..] == p
    ensures NoCR(p) ==> Payload(DATA_PREFIX + p) == p
    ensures IsDone(DATA_PREFIX + p) <==> HasPrefix(p, DONE)
  {
    if NoCR(p) { DropNothing(p); }
  }

  lemma FrameReadBack(p: string, lines: seq<string>, mode: Mode, decode: Decode)
    requires Clean(p)
    ensures Forwarded([DATA_PREFIX + p, ""] + lines, mode, decode)
         == if Returns(p, mode, decode) then [p] + Forwarded(lines, mode, decode) else Forwarded(lines, mode, decode)
    ensures AnyDone([DATA_PREFIX + p, ""] + lines) <==> HasPrefix(p, DONE) || AnyDone(lines)
  {
    var all := [DATA_PREFIX + p, ""] + lines;
    DataLine(p);
    assert all[1..] == [""] + lines && ([""] + lines)[1..] == lines;
  }

  /** Reading a relayed stream back gives its frames, less those the filter would drop. */
  lemma {:induction false} ReadBack(frames: seq<string>, mode: Mode, decode: Decode)
    requires forall p :: p in frames ==> Clean(p)
    ensures Forwarded(Tokens(ScanLines, Written(frames)), mode, decode) == Returning(frames, mode, decode)
    ensures AnyDone(Tokens(ScanLines, Written(frames))) <==> exists p :: p in frames && HasPrefix(p, DONE)
  {
    if frames != [] {
      var p, rest := frames[0], frames[1..];
      assert p in frames && forall q :: q in rest ==> q in frames;
      ReadBack(rest, mode, decode);
      LinesOfFrame(p, Written(rest));
      FrameReadBack(p, Tokens(ScanLines, Written(rest)), mode, decode);
      FirstOrLater(frames);
    }
  }

  lemma FirstOrLater(frames: seq<string>)
    requires frames != []
    ensures (exists p :: p in frames && HasPrefix(p, DONE)) <==>
      HasPrefix(frames[0], DONE) || exists p :: p in frames[1..] && HasPrefix(p, DONE)
  {
    assert frames == [frames[0]] + frames[1..] && frames[0] in frames;
  }

  lemma WrittenCons(p: string, frames: seq<string>)
    ensures Written([p] + frames) == WriteData(DATA_PREFIX + p) + Written(frames)
    ensures |WriteData(DATA_PREFIX + p)| > 0
  {
    assert ([p] + frames)[1..] == frames;
    assert (DATA_PREFIX + p)[..4] == "data";
  }

  /** Dropping a frame shortens the output. */
  lemma {:induction false} ReturningIsShorter(frames: seq<string>, mode: Mode, decode: Decode)
    ensures |Written(Returning(frames, mode, decode))| <= |Written(frames)|
    ensures (forall p :: p in frames ==> Returns(p, mode, decode)) ==> Returning(frames, mode, decode) == frames
    ensures (exists p :: p in frames && !Returns(p, mode, decode)) ==>
              |Written(Returning(frames, mode, decode))| < |Written(frames)|
  {
    if frames != [] {
      var p, rest := frames[0], frames[1..];
      ReturningIsShorter(rest, mode, decode);
      assert frames == [p] + rest;
      WrittenCons(p, rest);
      WrittenCons(p, Returning(rest, mode, decode));
    }
  }

  // What the forwarded lines of a stream look like.

  lemma LinePayload(line: string)
    requires NoNewline(line)
    ensures NoNewline(Payload(line))
    ensures IsDone(line) ==> HasPrefix(Payload(line), DONE)
  {
    var p := TrimPrefix(line, DATA_PREFIX);
    assert forall c :: c in p ==> c in line;
    assert forall c :: c in DropCR(p) ==> c in p;
    if IsDone(line) {
      assert HasPrefix(p, DONE) by {
        if line[..6] == DATA_PREFIX { assert p == line[6..]; } else { assert p == line; }
      }
      assert p[..6] == DONE && DONE[5] == ']';
      assert DropCR(p)[..6] == p[..6];
    }
  }

  /** A done line is always forwarded, so some payload says so. */
  lemma {:induction false} ForwardedPayloads(lines: seq<string>, mode: Mode, decode: Decode)
    requires forall line :: line in lines ==> NoNewline(line)
    ensures forall p :: p in Forwarded(lines, mode, decode) ==> NoNewline(p)
    ensures forall p :: p in Forwarded(lines, mode, decode) <==>
              exists line :: line in lines && Forwards(line, mode, decode) && p == Payload(line)
    ensures AnyDone(lines) ==> exists p :: p in Forwarded(lines, mode, decode) && HasPrefix(p, DONE)
  {
    if lines != [] {
      ForwardedPayloads(lines[1..], mode, decode);
      assert lines[0] in lines && lines == [lines[0]] + lines[1..];
      LinePayload(lines[0]);
      if IsDone(lines[0]) {
        assert Payload(lines[0]) in Forwarded(lines, mode, decode);
      }
    }
  }

  /** Every relayed stream tells the client that it is over. */
  lemma DoneIsAlwaysSent(input: string, mode: Mode, decode: Decode)
    ensures exists p :: p in Frames(Tokens(ScanLines, input), mode, decode) && HasPrefix(p, DONE)
  {
    var lines := Tokens(ScanLines, input);
    TokensHaveNoNewline(input);
    ForwardedPayloads(lines, mode, decode);
    if !AnyDone(lines) {
      assert DONE in Frames(lines, mode, decode) && HasPrefix(DONE, DONE);
    }
  }

  lemma {:induction false} EscapedMember(frames: seq<string>, p: string)
    requires p in frames
    ensures Escape(p) in EscapeAll(frames)
  {
    if p != frames[0] {
      assert p in frames[1..];
      EscapedMember(frames[1..], p);
    }
  }

  lemma EscapeDone(p: string)
    requires HasPrefix(p, DONE)
    ensures HasPrefix(Escape(p), DONE)
  {
    assert p == DONE + p[6..];
    EscapeConcat(DONE, p[6..]);
    EscapeClean(DONE);
  }

  /** A payload as it comes back from a client's side of the relay. */
  predicate Survives(line: string, mode: Mode, decode: Decode) {
    Forwards(line, mode, decode) ==> Returns(Escape(Payload(line)), mode, decode)
  }

  /**
   Relaying what has been relayed changes nothing exactly when every line that is forwarded would be
   forwarded again once its carriage returns are escaped.
   */
  lemma RelayIsFixedPointIff(input: string, mode: Mode, decode: Decode)
    ensures Relay(Relay(input, mode, decode), mode, decode) == Relay(input, mode, decode)
       <==> forall line :: line in Tokens(ScanLines, input) ==> Survives(line, mode, decode)
  {
    var lines := Tokens(ScanLines, input);
    var frames := Frames(lines, mode, decode);
    var escaped := EscapeAll(frames);
    TokensHaveNoNewline(input);
    ForwardedPayloads(lines, mode, decode);
    WrittenEscaped(frames);
    ReadBack(escaped, mode, decode);
    DoneIsAlwaysSent(input, mode, decode);
    var over :| over in frames && HasPrefix(over, DONE);
    EscapeDone(over);
    EscapedMember(frames, over);
    var again := Returning(escaped, mode, decode);
    assert Frames(Tokens(ScanLines, Relay(input, mode, decode)), mode, decode) == again + [] == again;
    ReturningIsShorter(escaped, mode, decode);
    DataLine(Escape(DONE));
    EscapeClean(DONE);
    AllReturnIff(lines, if AnyDone(lines) then [] else [DONE], mode, decode);
    AllReturnForall(escaped, mode, decode);
    AllSurviveForall(lines, mode, decode);
  }

  predicate AllSurvive(lines: seq<string>, mode: Mode, decode: Decode) {
    lines == [] || (Survives(lines[0], mode, decode) && AllSurvive(lines[1..], mode, decode))
  }

  predicate AllReturn(frames: seq<string>, mode: Mode, decode: Decode) {
    frames == [] || (Returns(frames[0], mode, decode) && AllReturn(frames[1..], mode, decode))
  }

  lemma {:induction false} AllReturnForall(frames: seq<string>, mode: Mode, decode: Decode)
    ensures AllReturn(frames, mode, decode) <==> forall p :: p in frames ==> Returns(p, mode, decode)
  {
    if frames != [] {
      AllReturnForall(frames[1..], mode, decode);
      assert frames == [frames[0]] + frames[1..];
    }
  }

  lemma {:induction false} AllSurviveForall(lines: seq<string>, mode: Mode, decode: Decode)
    ensures AllSurvive(lines, mode, decode) <==> forall line :: line in lines ==> Survives(line, mode, decode)
  {
    if lines != [] {
      AllSurviveForall(lines[1..], mode, decode);
      assert lines == [lines[0]] + lines[1..];
    }
  }

  /** The frames all come back iff the lines all survive; an added done frame always comes back. */
  lemma {:induction false} AllReturnIff(lines: seq<string>, tail: seq<string>, mode: Mode, decode: Decode)
    requires tail == [] || tail == [DONE]
    ensures AllReturn(EscapeAll(Forwarded(lines, mode, decode) + tail), mode, decode)
         <==> AllSurvive(lines, mode, decode)
  {
    var all := Forwarded(lines, mode, decode) + tail;
    if lines == [] {
      assert all == tail;
      TailReturns(tail, mode, decode);
    } else {
      var rest := Forwarded(lines[1..], mode, decode) + tail;
      AllReturnIff(lines[1..], tail, mode, decode);
      ForwardedStep(lines, tail, mode, decode);
      AllReturnStep(all, lines[0], rest, mode, decode);
    }
  }

  lemma TailReturns(tail: seq<string>, mode: Mode, decode: Decode)
    requires tail == [] || tail == [DONE]
    ensures AllReturn(EscapeAll(tail), mode, decode)
  {
    if tail == [DONE] { DoneReturns(tail, DONE, mode, decode); }
  }

  lemma DoneReturns(tail: seq<string>, p: string, mode: Mode, decode: Decode)
    requires tail == [p] && Clean(p) && HasPrefix(p, DONE)
    ensures AllReturn(EscapeAll(tail), mode, decode)
  {
    assert tail == [p] + [] && tail[1..] == [];
    EscapeAllCons(p, []);
    EscapeClean(p);
    DataLine(p);
    assert Forwards(DATA_PREFIX + p, mode, decode);
  }

  lemma AllReturnStep(all: seq<string>, line: string, frames: seq<string>, mode: Mode, decode: Decode)
    requires all == if Forwards(line, mode, decode) then [Payload(line)] + frames else frames
    ensures AllReturn(EscapeAll(all), mode, decode)
       <==> Survives(line, mode, decode) && AllReturn(EscapeAll(frames), mode, decode)
  {
    EscapeAllCons(Payload(line), frames);
  }

  lemma ForwardedStep(lines: seq<string>, tail: seq<string>, mode: Mode, decode: Decode)
    requires lines != []
    ensures var rest := Forwarded(lines[1..], mode, decode) + tail;
      Forwarded(lines, mode, decode) + tail
        == if Forwards(lines[0], mode, decode) then [Payload(lines[0])] + rest else rest
  {
    Assoc([Payload(lines[0])], Forwarded(lines[1..], mode, decode), tail);
  }

  lemma EscapeAllCons(p: string, frames: seq<string>)
    ensures EscapeAll([p] + frames) == [Escape(p)] + EscapeAll(frames)
    ensures EscapeAll([p] + frames)[1..] == EscapeAll(frames)
  {
    assert ([p] + frames)[1..] == frames;
  }

  /** A carriage return elsewhere than before its newline is what can break it. */
  lemma CleanLineSurvives(line: string, mode: Mode, decode: Decode)
    requires Clean(line)
    ensures Survives(line, mode, decode)
    ensures Forwards(line, mode, decode) && !HasPrefix(line, DONE) ==> line == DATA_PREFIX + Payload(line)
  {
    if Forwards(line, mode, decode) {
      var p := TrimPrefix(line, DATA_PREFIX);
      assert forall c :: c in p ==> c in line;
      DropNothing(p);
      EscapeClean(p);
      DataLine(p);
      if line[..6] == DATA_PREFIX {
        assert line == DATA_PREFIX + p;
      } else {
        assert p == line && HasPrefix(p, DONE);
      }
    }
  }

  /** Lines hold no carriage return other than one right before their newline. */
  predicate CleanInput(input: string) {
    forall line :: line in Tokens(ScanLines, input) ==> NoCR(line)
  }

  /** So for every decoder and every mode, a stream without stray carriage returns is a fixed point. */
  lemma CleanRelayIsFixedPoint(input: string, mode: Mode, decode: Decode)
    requires CleanInput(input)
    ensures Relay(Relay(input, mode, decode), mode, decode) == Relay(input, mode, decode)
  {
    TokensHaveNoNewline(input);
    forall line | line in Tokens(ScanLines, input) ensures Survives(line, mode, decode) {
      CleanLineSurvives(line, mode, decode);
    }
    RelayIsFixedPointIff(input, mode, decode);
  }

  // ---------------------------------------------------------------- the meaning is kept

  lemma {:induction false} WrittenText(frames: seq<string>, mode: Mode, decode: Decode)
    requires forall p :: p in frames ==> Clean(p)
    ensures Text(Tokens(ScanLines, Written(frames)), mode, decode) == FramesText(frames, mode, decode)
    ensures Usage(Tokens(ScanLines, Written(frames)), mode, decode) == FramesUsage(frames, mode, decode)
  {
    if frames != [] {
      var p, rest := frames[0], frames[1..];
      assert p in frames;
      WrittenText(rest, mode, decode);
      LinesOfFrame(p, Written(rest));
      FrameMeaning(p, Tokens(ScanLines, Written(rest)), mode, decode);
    }
  }

  lemma FrameMeaning(p: string, lines: seq<string>, mode: Mode, decode: Decode)
    ensures Text([DATA_PREFIX + p, ""] + lines, mode, decode)
         == TextOf(DATA_PREFIX + p, mode, decode) + Text(lines, mode, decode)
    ensures Usage([DATA_PREFIX + p, ""] + lines, mode, decode)
         == if Usage(lines, mode, decode).Some? then Usage(lines, mode, decode)
         else UsageOf(DATA_PREFIX + p, mode, decode)
  {
    var all := [DATA_PREFIX + p, ""] + lines;
    assert all[1..] == [""] + lines && ([""] + lines)[1..] == lines;
    assert "" + Text(lines, mode, decode) == Text(lines, mode, decode);
  }

  function FramesText(frames: seq<string>, mode: Mode, decode: Decode): string {
    if frames == [] then "" else TextOf(DATA_PREFIX + frames[0], mode, decode) + FramesText(frames[1..], mode, decode)
  }

  function FramesUsage(frames: seq<string>, mode: Mode, decode: Decode): Option<int> {
    if frames == [] then None
    else
      var later := FramesUsage(frames[1..], mode, decode);
      if later.Some? then later else UsageOf(DATA_PREFIX + frames[0], mode, decode)
  }

  /** A line that, once relayed, still carries its text and its usage. */
  predicate SameMeaning(line: string, mode: Mode, decode: Decode) {
    var back := DATA_PREFIX + Escape(Payload(line));
    Forwards(line, mode, decode) ==>
      TextOf(back, mode, decode) == TextOf(line, mode, decode)
        && UsageOf(back, mode, decode) == UsageOf(line, mode, decode)
  }

  /** The frames of a list of lines, escaped, mean what the lines mean; an added done frame means nothing. */
  lemma {:induction false} LinesText(lines: seq<string>, mode: Mode, decode: Decode, tail: seq<string>)
    requires forall line :: line in lines ==> SameMeaning(line, mode, decode)
    requires tail == [] || tail == [DONE]
    ensures FramesText(EscapeAll(Forwarded(lines, mode, decode) + tail), mode, decode) == Text(lines, mode, decode)
    ensures FramesUsage(EscapeAll(Forwarded(lines, mode, decode) + tail), mode, decode) == Usage(lines, mode, decode)
  {
    var all := Forwarded(lines, mode, decode) + tail;
    if lines == [] {
      assert all == tail;
      TailMeansNothing(tail, mode, decode);
    } else {
      assert lines[0] in lines;
      LinesText(lines[1..], mode, decode, tail);
      ForwardedStep(lines, tail, mode, decode);
      FramesTextStep(all, lines[0], Forwarded(lines[1..], mode, decode) + tail, mode, decode);
    }
  }

  lemma TailMeansNothing(tail: seq<string>, mode: Mode, decode: Decode)
    requires tail == [] || tail == [DONE]
    ensures FramesText(EscapeAll(tail), mode, decode) == "" && FramesUsage(EscapeAll(tail), mode, decode) == None
  {
    if tail == [DONE] { DoneMeansNothing(tail, DONE, mode, decode); }
  }

  lemma DoneMeansNothing(tail: seq<string>, p: string, mode: Mode, decode: Decode)
    requires tail == [p] && Clean(p) && HasPrefix(p, DONE)
    ensures FramesText(EscapeAll(tail), mode, decode) == "" && FramesUsage(EscapeAll(tail), mode, decode) == None
  {
    assert tail == [p] + [] && tail[1..] == [];
    EscapeAllCons(p, []);
    EscapeClean(p);
    DataLine(p);
    assert TextOf(DATA_PREFIX + p, mode, decode) == "" && "" + "" == "";
  }

  lemma FramesTextStep(all: seq<string>, line: string, frames: seq<string>, mode: Mode, decode: Decode)
    requires all == if Forwards(line, mode, decode) then [Payload(line)] + frames else frames
    ensures Forwards(line, mode, decode) ==>
      FramesText(EscapeAll(all), mode, decode)
        == TextOf(DATA_PREFIX + Escape(Payload(line)), mode, decode) + FramesText(EscapeAll(frames), mode, decode)
    ensures Forwards(line, mode, decode) && FramesUsage(EscapeAll(frames), mode, decode).None? ==>
      FramesUsage(EscapeAll(all), mode, decode) == UsageOf(DATA_PREFIX + Escape(Payload(line)), mode, decode)
    ensures FramesUsage(EscapeAll(frames), mode, decode).Some? ==>
      FramesUsage(EscapeAll(all), mode, decode) == FramesUsage(EscapeAll(frames), mode, decode)
    ensures !Forwards(line, mode, decode) ==>
      TextOf(line, mode, decode) == "" && UsageOf(line, mode, decode) == None && all == frames
  {
    EscapeAllCons(Payload(line), frames);
  }

  /** What a client that reads a relayed stream as the relay does makes of it. */
  lemma RelayedText(input: string, mode: Mode, decode: Decode)
    ensures var frames := EscapeAll(Frames(Tokens(ScanLines, input), mode, decode));
      && Text(Tokens(ScanLines, Relay(input, mode, decode)), mode, decode) == FramesText(frames, mode, decode)
      && Usage(Tokens(ScanLines, Relay(input, mode, decode)), mode, decode) == FramesUsage(frames, mode, decode)
  {
    var lines := Tokens(ScanLines, input);
    TokensHaveNoNewline(input);
    ForwardedPayloads(lines, mode, decode);
    WrittenEscaped(Frames(lines, mode, decode));
    WrittenText(EscapeAll(Frames(lines, mode, decode)), mode, decode);
  }

  /** Reading the relayed stream gives the same response text and usage, if every line keeps its own. */
  lemma RelayKeepsMeaning(input: string, mode: Mode, decode: Decode)
    requires forall line :: line in Tokens(ScanLines, input) ==> SameMeaning(line, mode, decode)
    ensures Text(Tokens(ScanLines, Relay(input, mode, decode)), mode, decode)
         == Text(Tokens(ScanLines, input), mode, decode)
    ensures Usage(Tokens(ScanLines, Relay(input, mode, decode)), mode, decode)
         == Usage(Tokens(ScanLines, input), mode, decode)
  {
    var lines := Tokens(ScanLines, input);
    RelayedText(input, mode, decode);
    assert forall line :: line in lines ==> SameMeaning(line, mode, decode);
    LinesText(lines, mode, decode, if AnyDone(lines) then [] else [DONE]);
  }

  /** For a stream of one line, it does exactly when that line keeps its own. */
  lemma OneLineKeepsMeaningIff(line: string, mode: Mode, decode: Decode)
    requires NoNewline(line) && DropCR(line) == line
    ensures Tokens(ScanLines, line + "\n" + "") == [line]
    ensures (var out := Tokens(ScanLines, Relay(line + "\n" + "", mode, decode));
             Text(out, mode, decode) == Text([line], mode, decode)
             && Usage(out, mode, decode) == Usage([line], mode, decode))
       <==> SameMeaning(line, mode, decode)
  {
    LineThenRest(line, "");
    assert Tokens(ScanLines, "") == [] && [line] + [] == [line];
    RelayedText(line + "\n" + "", mode, decode);
    var tail := if AnyDone([line]) then [] else [DONE];
    var all := Forwarded([line], mode, decode) + tail;
    assert [line][1..] == [] && Forwarded([], mode, decode) + tail == tail;
    ForwardedStep([line], tail, mode, decode);
    FramesTextStep(all, line, tail, mode, decode);
    TailMeansNothing(tail, mode, decode);
    OneLineText(line, mode, decode);
    var back := TextOf(DATA_PREFIX + Escape(Payload(line)), mode, decode);
    assert back + "" == back;
  }

  lemma OneLineText(line: string, mode: Mode, decode: Decode)
    ensures Text([line], mode, decode) == TextOf(line, mode, decode)
    ensures Usage([line], mode, decode) == UsageOf(line, mode, decode)
  {
    assert [line][1..] == [] && TextOf(line, mode, decode) + "" == TextOf(line, mode, decode);
  }

  /** Lines without a stray carriage return keep their meaning, unless they start with [DONE]. */
  lemma CleanLineKeepsMeaning(line: string, mode: Mode, decode: Decode)
    requires Clean(line) && !HasPrefix(line, DONE)
    ensures SameMeaning(line, mode, decode)
  {
    if Forwards(line, mode, decode) {
      CleanLineSurvives(line, mode, decode);
      assert forall c :: c in Payload(line) ==> c in line;
      EscapeClean(Payload(line));
    }
  }

  lemma CleanRelayKeepsMeaning(input: string, mode: Mode, decode: Decode)
    requires CleanInput(input)
    requires forall line :: line in Tokens(ScanLines, input) ==> !HasPrefix(line, DONE)
    ensures Text(Tokens(ScanLines, Relay(input, mode, decode)), mode, decode)
         == Text(Tokens(ScanLines, input), mode, decode)
    ensures Usage(Tokens(ScanLines, Relay(input, mode, decode)), mode, decode)
         == Usage(Tokens(ScanLines, input), mode, decode)
  {
    TokensHaveNoNewline(input);
    forall line | line in Tokens(ScanLines, input) ensures SameMeaning(line, mode, decode) {
      CleanLineKeepsMeaning(line, mode, decode);
    }
    RelayKeepsMeaning(input, mode, decode);
  }

  /** What such a line comes back as: a done frame, without text or usage. */
  lemma DoneLineMeansNothing(line: string, mode: Mode, decode: Decode)
    requires Clean(line) && HasPrefix(line, DONE)
    ensures var back := DATA_PREFIX + Escape(Payload(line));
      TextOf(back, mode, decode) == "" && UsageOf(back, mode, decode) == None
  {
    assert TrimPrefix(line, DATA_PREFIX) == line by { assert line[0] == '['; }
    DropNothing(line);
    EscapeClean(line);
    DataLine(line);
  }

  /** Exactly which clean lines keep their meaning: all but those that start with [DONE] and carry something. */
  lemma CleanLineKeepsMeaningIff(line: string, mode: Mode, decode: Decode)
    requires Clean(line)
    ensures SameMeaning(line, mode, decode) <==>
      !HasPrefix(line, DONE) || (TextOf(line, mode, decode) == "" && UsageOf(line, mode, decode) == None)
  {
    if HasPrefix(line, DONE) {
      DoneLineMeansNothing(line, mode, decode);
    } else {
      CleanLineKeepsMeaning(line, mode, decode);
    }
  }

  /** The lines that do not start with [DONE]. */
  function Plain(lines: seq<string>): seq<string> {
    if lines == [] then []
    else if HasPrefix(lines[0], DONE) then Plain(lines[1..])
    else [lines[0]] + Plain(lines[1..])
  }

  lemma {:induction false} CleanLinesText(lines: seq<string>, mode: Mode, decode: Decode, tail: seq<string>)
    requires forall line :: line in lines ==> Clean(line)
    requires tail == [] || tail == [DONE]
    ensures FramesText(EscapeAll(Forwarded(lines, mode, decode) + tail), mode, decode)
         == Text(Plain(lines), mode, decode)
    ensures FramesUsage(EscapeAll(Forwarded(lines, mode, decode) + tail), mode, decode)
         == Usage(Plain(lines), mode, decode)
  {
    var all := Forwarded(lines, mode, decode) + tail;
    if lines == [] {
      assert all == tail;
      TailMeansNothing(tail, mode, decode);
    } else {
      var line, rest := lines[0], Forwarded(lines[1..], mode, decode) + tail;
      assert line in lines;
      CleanLinesText(lines[1..], mode, decode, tail);
      ForwardedStep(lines, tail, mode, decode);
      FramesTextStep(all, line, rest, mode, decode);
      if HasPrefix(line, DONE) {
        DoneLineMeansNothing(line, mode, decode);
        NothingAdded(FramesText(EscapeAll(rest), mode, decode));
      } else {
        CleanLineKeepsMeaning(line, mode, decode);
        PlainCons(line, Plain(lines[1..]), mode, decode);
      }
    }
  }

  lemma NothingAdded(s: string)
    ensures "" + s == s
  {
  }

  lemma PlainCons(line: string, rest: seq<string>, mode: Mode, decode: Decode)
    ensures Text([line] + rest, mode, decode) == TextOf(line, mode, decode) + Text(rest, mode, decode)
    ensures Usage([line] + rest, mode, decode)
         == if Usage(rest, mode, decode).Some? then Usage(rest, mode, decode) else UsageOf(line, mode, decode)
  {
    assert ([line] + rest)[1..] == rest;
  }

  /** What a relayed stream without stray carriage returns carries: the meaning of its lines but the [DONE] ones. */
  lemma CleanRelayMeansPlain(input: string, mode: Mode, decode: Decode)
    requires CleanInput(input)
    ensures var out, lines := Tokens(ScanLines, Relay(input, mode, decode)), Tokens(ScanLines, input);
      && Text(out, mode, decode) == Text(Plain(lines), mode, decode)
      && Usage(out, mode, decode) == Usage(Plain(lines), mode, decode)
  {
    var lines := Tokens(ScanLines, input);
    TokensHaveNoNewline(input);
    RelayedText(input, mode, decode);
    assert forall line :: line in lines ==> NoCR(line) && Clean(line);
    CleanLinesText(lines, mode, decode, if AnyDone(lines) then [] else [DONE]);
  }

  /** Dropping lines never lengthens the text, and keeps its length only if what is dropped adds none. */
  lemma {:induction false} PlainText(lines: seq<string>, mode: Mode, decode: Decode)
    ensures |Text(Plain(lines), mode, decode)| <= |Text(lines, mode, decode)|
    ensures |Text(Plain(lines), mode, decode)| == |Text(lines, mode, decode)| <==>
      forall line :: line in lines && HasPrefix(line, DONE) ==> TextOf(line, mode, decode) == ""
    ensures |Text(Plain(lines), mode, decode)| == |Text(lines, mode, decode)| ==>
      Text(Plain(lines), mode, decode) == Text(lines, mode, decode)
  {
    if lines != [] {
      PlainText(lines[1..], mode, decode);
      PlainCons(lines[0], Plain(lines[1..]), mode, decode);
      assert lines == [lines[0]] + lines[1..] && lines[0] in lines;
      NothingAdded(Text(lines[1..], mode, decode));
    }
  }

  /** So such a stream keeps its text exactly when no line that starts with [DONE] adds any. */
  lemma CleanRelayKeepsTextIff(input: string, mode: Mode, decode: Decode)
    requires CleanInput(input)
    ensures Text(Tokens(ScanLines, Relay(input, mode, decode)), mode, decode)
         == Text(Tokens(ScanLines, input), mode, decode)
       <==> forall line :: line in Tokens(ScanLines, input) && HasPrefix(line, DONE)
                ==> TextOf(line, mode, decode) == ""
  {
    CleanRelayMeansPlain(input, mode, decode);
    PlainText(Tokens(ScanLines, input), mode, decode);
  }

  /** A line [DONE]{...} is taken for its JSON when it comes in and for a done frame when it comes back. */
  lemma DoneLineLosesMeaning(json: string, decode: Decode)
    requires decode(json).Some? && !HasPrefix(json, DONE)
    requires Joined(decode(json).value.choices) != "" || decode(json).value.usage.Some?
    ensures !SameMeaning(DONE + json, ChatCompletions, decode)
  {
    var line := DONE + json;
    assert line[..6] == DONE && line[6..] == json;
    assert Forwards(line, ChatCompletions, decode);
    var p := DropCR(line);
    assert TrimPrefix(line, DATA_PREFIX) == line && line[5] == ']';
    assert p[..6] == line[..6] == DONE;
    EscapeDone(p);
    DataLine(Escape(p));
  }

  // ---------------------------------------------------------------- a stray carriage return

  lemma EscapedReturn(a: string, b: string)
    requires Clean(a) && Clean(b)
    ensures Escape(a + "\r" + b) == a + "\\r" + b
  {
    EscapeConcat(a + "\r", b);
    EscapeConcat(a, "\r");
    EscapeClean(a);
    EscapeClean(b);
    assert Escape("\r") == "\\r" by { assert "\r"[1..] == "" && "\\r" + "" == "\\r"; }
  }

  lemma StrayLineIsLost(a: string, b: string, payload: string, decode: Decode)
    requires Clean(a) && Clean(b) && b != "" && payload == a + "\r" + b
    requires decode(payload).None? && decode(a + "\\r" + b) == Some(Chunk([], None))
    requires !HasPrefix(a + "\\r" + b, DONE)
    ensures !Survives(DATA_PREFIX + payload, ChatCompletions, decode)
  {
    EscapedReturn(a, b);
    DataLine(payload);
    DataLine(a + "\\r" + b);
    EndsIn(a + "\r", b);
    DropLetter(payload);
    assert Payload(DATA_PREFIX + payload) == payload;
  }

  lemma EndsIn(a: string, b: string)
    requires Clean(b) && b != ""
    ensures (a + b)[|a + b| - 1] != '\r'
  {
    assert (a + b)[|a + b| - 1] == b[|b| - 1] && b[|b| - 1] in b;
  }

  /**
   A payload that does not decode because of a raw carriage return is forwarded; when its escaped form
   decodes to an empty chunk, the frame is dropped the second time.
   */
  lemma StrayCarriageReturnBreaksIt(a: string, b: string, decode: Decode)
    requires Clean(a) && Clean(b) && b != "" && !HasPrefix(a + "\\r" + b, DONE)
    requires decode(a + "\r" + b).None? && decode(a + "\\r" + b) == Some(Chunk([], None))
    ensures var input := DATA_PREFIX + (a + "\r" + b) + "\n" + "";
      Relay(Relay(input, ChatCompletions, decode), ChatCompletions, decode) != Relay(input, ChatCompletions, decode)
  {
    var line := DATA_PREFIX + (a + "\r" + b);
    EndsIn(DATA_PREFIX + (a + "\r"), b);
    assert line == DATA_PREFIX + (a + "\r") + b;
    DropLetter(line);
    assert NoNewline(line);
    LineThenRest(line, "");
    assert line in Tokens(ScanLines, line + "\n" + "");
    StrayLineIsLost(a, b, a + "\r" + b, decode);
    RelayIsFixedPointIff(line + "\n" + "", ChatCompletions, decode);
  }

  /** For one, a JSON object whose string holds the raw character: not JSON, but escaped it is, without choices. */
  lemma CarriageReturnInStringBreaksIt(decode: Decode)
    requires decode("{\"id\":\"" + "\r" + "\"}").None?
    requires decode("{\"id\":\"" + "\\r" + "\"}") == Some(Chunk([], None))
    ensures var input := DATA_PREFIX + ("{\"id\":\"" + "\r" + "\"}") + "\n" + "";
      Relay(Relay(input, ChatCompletions, decode), ChatCompletions, decode) != Relay(input, ChatCompletions, decode)
  {
    var a, b := "{\"id\":\"", "\"}";
    assert (a + "\\r" + b)[0] == '{' && DONE[0] == '[';
    StrayCarriageReturnBreaksIt(a, b, decode);
  }

  lemma DropLetter(line: string)
    requires line != "" && line[|line| - 1] != '\r'
    ensures DropCR(line) == line
  {
  }

  // ---------------------------------------------------------------- what a client reads

  /**
   Interpreting an event stream, section 9.2.6 of the HTML Living Standard, for the data field: a line
   without a colon is a field name, one leading space of a value is dropped, a blank line dispatches.
   */
  function Interpret(lines: seq<string>, buffer: string): seq<string> {
    if lines == [] then []
    else
      var line, rest := lines[0], lines[1..];
      var colon := Index(line, ":");
      if line == "" then
        if buffer == "" then Interpret(rest, "")
        else [buffer[..|buffer| - 1]] + Interpret(rest, "")
      else if colon == 0 then Interpret(rest, buffer)
      else
        var name := if colon < 0 then line else line[..colon];
        var value := if colon < 0 then "" else TrimPrefix(line[colon + 1..], " ");
        if name == "data" then Interpret(rest, buffer + value + "\n") else Interpret(rest, buffer)
  }

  lemma InterpretFrame(p: string, lines: seq<string>)
    ensures Interpret([DATA_PREFIX + p, ""] + lines, "") == [p] + Interpret(lines, "")
  {
    var line := DATA_PREFIX + p;
    var all := [line, ""] + lines;
    assert all[1..] == [""] + lines && ([""] + lines)[1..] == lines;
    CharAt("data", ':', " " + p);
    assert line == "data" + [':'] + (" " + p);
    assert line[..4] == "data" && line[5..] == " " + p;
    assert TrimPrefix(line[5..], " ") == p by { assert line[5..][..1] == " " && line[5..][1..] == p; }
    assert "" + p + "\n" == p + "\n" && (p + "\n")[..|p + "\n"| - 1] == p;
  }

  lemma {:induction false} InterpretWritten(frames: seq<string>)
    requires forall p :: p in frames ==> Clean(p)
    ensures Interpret(Tokens(ScanLines, Written(frames)), "") == frames
  {
    if frames != [] {
      assert frames[0] in frames;
      InterpretWritten(frames[1..]);
      LinesOfFrame(frames[0], Written(frames[1..]));
      InterpretFrame(frames[0], Tokens(ScanLines, Written(frames[1..])));
      assert frames == [frames[0]] + frames[1..];
    }
  }

  /** A standard client reads exactly the forwarded frames, carriage returns escaped, and no raw one. */
  lemma ClientReadsFrames(input: string, mode: Mode, decode: Decode)
    ensures NoCR(Relay(input, mode, decode))
    ensures Interpret(Tokens(ScanLines, Relay(input, mode, decode)), "")
         == EscapeAll(Frames(Tokens(ScanLines, input), mode, decode))
  {
    var lines := Tokens(ScanLines, input);
    TokensHaveNoNewline(input);
    ForwardedPayloads(lines, mode, decode);
    WrittenHasNoCR(Frames(lines, mode, decode));
    WrittenEscaped(Frames(lines, mode, decode));
    InterpretWritten(EscapeAll(Frames(lines, mode, decode)));
  }

  // ---------------------------------------------------------------- the loop

  lemma {:induction false} WrittenConcat(a: seq<string>, b: seq<string>)
    ensures Written(a + b) == Written(a) + Written(b)
  {
    if a == [] {
      assert a + b == b;
    } else {
      assert (a + b)[1..] == a[1..] + b;
      WrittenConcat(a[1..], b);
      Assoc(WriteData(DATA_PREFIX + a[0]), Written(a[1..]), Written(b));
    }
  }

  /** One line of the stream: whether it is forwarded, whether it ends the stream, its text and its usage. */
  method HandleLine(data: string, mode: Mode, decode: Decode)
    returns (forward: bool, isDone: bool, text: string, usage: Option<int>)
    ensures forward == Forwards(data, mode, decode) && isDone == IsDone(data)
    ensures text == TextOf(data, mode, decode) && usage == UsageOf(data, mode, decode)
  {
    forward, isDone, text, usage := false, false, "", None;
    if |data| < 6 { return; }
    if data[..6] != DATA_PREFIX && data[..6] != DONE { return; }
    if HasPrefix(data[6..], DONE) {
      return true, true, "", None;
    }
    var response := decode(data[6..]);
    match mode {
      case ChatCompletions =>
        if response.None? {
          forward := true;
          return;
        }
        if response.value.choices == [] && response.value.usage.None? { return; }
        return true, false, Joined(response.value.choices), response.value.usage;
      case Completions =>
        forward := true;
        if response.None? { return; }
        text := Joined(response.value.choices);
      case OtherMode =>
    }
  }

  /** StreamHandler: reads lines as they come, forwards, accumulates text, keeps the last usage. */
  method StreamHandler(chunks: seq<string>, mode: Mode, decode: Decode)
    returns (out: string, responseText: string, usage: Option<int>)
    ensures out == Relay(Concat(chunks), mode, decode)
    ensures responseText == Text(Tokens(ScanLines, Concat(chunks)), mode, decode)
    ensures usage == Usage(Tokens(ScanLines, Concat(chunks)), mode, decode)
  {
    var lines := Scan(ScanLines, chunks);
    out, responseText, usage := HandleLines(lines, mode, decode);
  }

  /** Its loop, over the lines as the scanner hands them out. */
  method HandleLines(lines: seq<string>, mode: Mode, decode: Decode)
    returns (out: string, responseText: string, usage: Option<int>)
    ensures out == Written(Frames(lines, mode, decode))
    ensures responseText == Text(lines, mode, decode) && usage == Usage(lines, mode, decode)
  {
    out, responseText, usage := "", "", None;
    var doneRendered := false;
    var n := 0;
    assert lines[0..] == lines;
    while n < |lines|
      invariant 0 <= n <= |lines|
      invariant Written(Forwarded(lines, mode, decode)) == out + Written(Forwarded(lines[n..], mode, decode))
      invariant AnyDone(lines) <==> doneRendered || AnyDone(lines[n..])
      invariant Text(lines, mode, decode) == responseText + Text(lines[n..], mode, decode)
      invariant Usage(lines, mode, decode)
             == if Usage(lines[n..], mode, decode).Some? then Usage(lines[n..], mode, decode) else usage
    {
      FirstLine(lines[n..], lines[n], lines[n + 1..], mode, decode, out, responseText);
      var forward, isDone, text, reported := HandleLine(lines[n], mode, decode);
      responseText := responseText + text;
      if forward {
        out := out + StringData(lines[n]);
      }
      if isDone {
        doneRendered := true;
      }
      if reported.Some? {
        usage := reported;
      }
      n := n + 1;
    }
    assert lines[n..] == [];
    EndOfRelay(lines, mode, decode, out);
    assert responseText + "" == responseText;
    if !doneRendered {
      out := out + StringData(DONE);
    }
  }

  /** What the first of the lines ahead adds to what has been written and collected so far. */
  lemma FirstLine(lines: seq<string>, line: string, rest: seq<string>, mode: Mode, decode: Decode,
                  out: string, text: string)
    requires lines == [line] + rest
    ensures out + Written(Forwarded(lines, mode, decode))
         == (if Forwards(line, mode, decode) then out + StringData(line) else out)
          + Written(Forwarded(rest, mode, decode))
    ensures AnyDone(lines) <==> IsDone(line) || AnyDone(rest)
    ensures text + Text(lines, mode, decode) == text + TextOf(line, mode, decode) + Text(rest, mode, decode)
    ensures Usage(lines, mode, decode)
         == if Usage(rest, mode, decode).Some? then Usage(rest, mode, decode) else UsageOf(line, mode, decode)
  {
    assert lines[0] == line && lines[1..] == rest;
    Assoc(text, TextOf(line, mode, decode), Text(rest, mode, decode));
    if Forwards(line, mode, decode) {
      WrittenCons(Payload(line), Forwarded(rest, mode, decode));
      Assoc(out, StringData(line), Written(Forwarded(rest, mode, decode)));
    }
  }

  lemma EndOfRelay(lines: seq<string>, mode: Mode, decode: Decode, out: string)
    requires Written(Forwarded(lines, mode, decode)) == out + ""
    ensures Written(Frames(lines, mode, decode)) == if AnyDone(lines) then out else out + StringData(DONE)
  {
    WrittenConcat(Forwarded(lines, mode, decode), if AnyDone(lines) then [] else [DONE]);
    WrittenCons(DONE, []);
    assert [DONE] + [] == [DONE] && StringData(DONE) + "" == StringData(DONE) && out + "" == out;
  }
}
