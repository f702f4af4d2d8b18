/**
 The stream tokenizers: split functions handed to bufio.Scanner (relay/adaptor/zhipu/main.go,
 anthropic/main.go, ollama/main.go, openai/main.go) and a small driver loop.  Bytes are chars.
 */
module Tokenizer {
  import opened Options

  /** strings.Index */
  function Index(data: string, pattern: string): (i: int)
    ensures -1 <= i
    ensures i >= 0 ==> i + |pattern| <= |data| && data[i..i + |pattern|] == pattern
  {
    if |data| < |pattern| then -1
    else if data[..|pattern|] == pattern then 0
    else if data == "" then -1
    else
      var i := Index(data[1..], pattern);
      if i < 0 then -1
      else
        SliceOfTail(data, i, |pattern|);
        i + 1
  }

  lemma SliceOfTail(data: string, i: nat, n: nat)
    requires data != "" && i + n <= |data| - 1
    ensures data[i + 1..i + 1 + n] == data[1..][i..i + n]
  {
    var tail, a, b := data[1..], data[i + 1..i + 1 + n], data[1..][i..i + n];
    forall k | 0 <= k < n ensures a[k] == b[k] {
      assert a[k] == data[i + 1 + k] && b[k] == tail[i + k] && tail[i + k] == data[i + k + 1];
    }
    assert a == b;
  }

  /** The first place is found, and found again when the data is extended. */
  lemma {:induction false} IndexStable(data: string, more: string, pattern: string)
    requires Index(data, pattern) >= 0
    ensures Index(data + more, pattern) == Index(data, pattern)
  {
    assert (data + more)[..|pattern|] == data[..|pattern|];
    if data[..|pattern|] != pattern {
      assert (data + more)[1..] == data[1..] + more;
      IndexStable(data[1..], more, pattern);
    }
  }

  lemma {:induction false} IndexFirst(data: string, pattern: string, i: nat)
    requires i + |pattern| <= |data| && data[i..i + |pattern|] == pattern
    ensures 0 <= Index(data, pattern) <= i
  {
    if data[..|pattern|] != pattern {
      SliceOfTail(data, i - 1, |pattern|);
      IndexFirst(data[1..], pattern, i - 1);
    }
  }

  // ---------------------------------------------------------------- split functions

  /** A token found, and how far the scanner advances past it. */
  datatype Cut = Cut(advance: nat, token: string)

  /** bufio.ScanLines, and the split functions of the Anthropic, Ollama and Zhipu streams. */
  datatype Format = ScanLines | Anthropic | Ollama | Zhipu

  function Separator(f: Format): string {
    match f
    case ScanLines => "\n"
    case Anthropic => "\n"
    case Ollama => "}\n"
    case Zhipu => "\n\n"
  }

  function DropCR(line: string): string {
    if line != "" && line[|line| - 1] == '\r' then line[..|line| - 1] else line
  }

  /** What stays of a token: lines lose a carriage return, and a JSON object keeps its closing brace. */
  function Trim(f: Format, raw: string): string {
    match f
    case ScanLines => DropCR(raw)
    case Ollama => raw + "}"
    case _ => raw
  }

  /** The split function away from the end of the stream; Zhipu events also need a colon anywhere in the buffer. */
  function Split(f: Format, data: string): (cut: Option<Cut>)
    ensures cut.Some? ==> 0 < cut.value.advance <= |data|
  {
    var i := Index(data, Separator(f));
    if i >= 0 && (f.Zhipu? ==> Index(data, ":") >= 0)
    then Some(Cut(i + |Separator(f)|, Trim(f, data[..i])))
    else None
  }

  /** At the end of the stream a non-empty rest is a token. */
  function Last(f: Format, rest: string): string {
    if f.ScanLines? then DropCR(rest) else rest
  }

  /** A token found on a prefix is found on every extension. */
  lemma SplitStable(f: Format, data: string, more: string)
    requires Split(f, data).Some?
    ensures Split(f, data + more) == Split(f, data)
  {
    var i := Index(data, Separator(f));
    IndexStable(data, more, Separator(f));
    PrefixStable(data, more, i);
    if f.Zhipu? { IndexStable(data, more, ":"); }
  }

  lemma SuffixStable(data: string, more: string, i: nat)
    requires i <= |data|
    ensures (data + more)[i..] == data[i..] + more
  {
  }

  lemma PrefixStable(data: string, more: string, i: nat)
    requires i <= |data|
    ensures (data + more)[..i] == data[..i]
  {
  }

  lemma CharBefore(data: string, s: string, c: char, i: int)
    requires s == [c] && i == Index(data, s)
    ensures forall j :: 0 <= j < |data| && (i < 0 || j < i) ==> data[j] != c
    ensures i >= 0 ==> data[i] == c
  {
    forall j | 0 <= j < |data| && (i < 0 || j < i) ensures data[j] != c {
      if data[j] == c {
        assert data[j..j + |s|] == s;
        IndexFirst(data, s, j);
      }
    }
    if i >= 0 { assert data[i..i + |s|][0] == data[i]; }
  }

  lemma PairBefore(data: string, s: string, a: char, b: char, i: int)
    requires s == [a, b] && i == Index(data, s)
    ensures forall j :: 0 <= j < |data| - 1 && (i < 0 || j < i) ==> !(data[j] == a && data[j + 1] == b)
    ensures i >= 0 ==> i + 1 < |data| && data[i] == a && data[i + 1] == b
  {
    forall j | 0 <= j < |data| - 1 && (i < 0 || j < i) ensures !(data[j] == a && data[j + 1] == b) {
      if data[j] == a && data[j + 1] == b {
        assert data[j..j + |s|] == s;
        IndexFirst(data, s, j);
      }
    }
    if i >= 0 { assert data[i..i + |s|][0] == data[i] && data[i..i + |s|][1] == data[i + 1]; }
  }

  /** What the two line formats cut: the text before the first newline; the one loses a carriage return at its end. */
  lemma LineCutIs(f: Format, data: string)
    requires f.ScanLines? || f.Anthropic?
    ensures Split(f, data).None? <==> '\n' !in data
    ensures Split(f, data).Some? ==>
      var cut := Split(f, data).value;
      var line := data[..cut.advance - 1];
      && data[cut.advance - 1] == '\n' && '\n' !in line
      && cut.token == if f.ScanLines? && line != "" && line[|line| - 1] == '\r' then line[..|line| - 1] else line
  {
    CharBefore(data, Separator(f), '\n', Index(data, Separator(f)));
  }

  /** What the JSON format cuts: the text up to and with the first brace that is followed by a newline. */
  lemma BraceCutIs(f: Format, data: string)
    requires f.Ollama?
    ensures Split(f, data).None? <==> forall j :: 0 <= j < |data| - 1 ==> !(data[j] == '}' && data[j + 1] == '\n')
    ensures Split(f, data).Some? ==>
      var cut := Split(f, data).value;
      var i := cut.advance - 2;
      && 0 <= i && data[i] == '}' && data[i + 1] == '\n' && cut.token == data[..i + 1]
      && forall j :: 0 <= j < i ==> !(data[j] == '}' && data[j + 1] == '\n')
  {
    PairBefore(data, Separator(f), '}', '\n', Index(data, Separator(f)));
  }

  /** What the event format cuts: the text before the first blank line, once there is a colon anywhere. */
  lemma EventCutIs(f: Format, data: string)
    requires f.Zhipu?
    ensures Split(f, data).None? <==>
      (forall j :: 0 <= j < |data| - 1 ==> !(data[j] == '\n' && data[j + 1] == '\n')) || ':' !in data
    ensures Split(f, data).Some? ==>
      var cut := Split(f, data).value;
      var i := cut.advance - 2;
      && 0 <= i && data[i] == '\n' && data[i + 1] == '\n' && cut.token == data[..i]
      && forall j :: 0 <= j < i ==> !(data[j] == '\n' && data[j + 1] == '\n')
  {
    PairBefore(data, Separator(f), '\n', '\n', Index(data, Separator(f)));
    CharBefore(data, ":", ':', Index(data, ":"));
  }

  /** What is left at the end of the stream is a token as it is, but for a line's carriage return. */
  lemma LastIs(f: Format, rest: string)
    ensures Last(f, rest)
         == if f.ScanLines? && rest != "" && rest[|rest| - 1] == '\r' then rest[..|rest| - 1] else rest
  {
  }

  // ---------------------------------------------------------------- one whole read

  /** The tokens of a stream that arrives in one piece. */
  function Tokens(f: Format, data: string): seq<string>
    decreases |data|
  {
    var cut := Split(f, data);
    if cut.Some? then [cut.value.token] + Tokens(f, data[cut.value.advance..])
    else if data == "" then []
    else [Last(f, data)]
  }

  /** The first token of a stream that holds a separator, for formats that cut at the first one. */
  lemma FirstToken(f: Format, data: string, i: nat, token: string)
    requires i == Index(data, Separator(f)) && !f.Zhipu? && i < |data|
    requires token == Trim(f, data[..i])
    ensures Split(f, data) == Some(Cut(i + |Separator(f)|, token))
    ensures Tokens(f, data) == [token] + Tokens(f, data[i + |Separator(f)|..])
  {
    FirstSplit(f, data, i);
    FirstCut(f, data, Cut(i + |Separator(f)|, token));
  }

  lemma FirstSplit(f: Format, data: string, i: nat)
    requires i == Index(data, Separator(f)) && !f.Zhipu?
    ensures i <= |data| && Split(f, data) == Some(Cut(i + |Separator(f)|, Trim(f, data[..i])))
  {
    SplitAt(f, data, Separator(f), i);
  }

  lemma SplitAt(f: Format, data: string, separator: string, i: int)
    requires separator == Separator(f) && i == Index(data, separator)
    ensures i <= |data|
    ensures i >= 0 && !f.Zhipu? ==> Split(f, data) == Some(Cut(i + |separator|, Trim(f, data[..i])))
  {
  }

  lemma FirstCut(f: Format, data: string, cut: Cut)
    requires Split(f, data) == Some(cut)
    ensures Tokens(f, data) == [cut.token] + Tokens(f, data[cut.advance..])
  {
  }

  lemma LastToken(f: Format, data: string)
    requires Index(data, Separator(f)) < 0
    ensures Split(f, data).None?
    ensures Tokens(f, data) == if data == "" then [] else [Last(f, data)]
  {
  }

  function Concat(chunks: seq<string>): string {
    if chunks == [] then "" else Concat(chunks[..|chunks| - 1]) + chunks[|chunks| - 1]
  }

  /** The tokens a buffer hands out away from the end of the stream. */
  function Handed(f: Format, buffer: string): seq<string>
    decreases |buffer|
  {
    var cut := Split(f, buffer);
    if cut.Some? then [cut.value.token] + Handed(f, buffer[cut.value.advance..]) else []
  }

  /** What is left over once no more token is cut. */
  function Remainder(f: Format, data: string): string
    decreases |data|
  {
    var cut := Split(f, data);
    if cut.Some? then Remainder(f, data[cut.value.advance..]) else data
  }

  lemma {:induction false} RemainderIsUncut(f: Format, data: string)
    ensures Split(f, Remainder(f, data)).None?
    decreases |data|
  {
    var cut := Split(f, data);
    if cut.Some? { RemainderIsUncut(f, data[cut.value.advance..]); }
  }

  lemma Assoc<T>(a: seq<T>, b: seq<T>, c: seq<T>)
    ensures a + (b + c) == a + b + c
  {
  }

  /** Handing out what a buffer holds before the rest arrives does not change the tokens. */
  lemma {:induction false} HandOutThenRest(f: Format, buffer: string, rest: string)
    ensures Tokens(f, buffer + rest) == Handed(f, buffer) + Tokens(f, Remainder(f, buffer) + rest)
    decreases |buffer|
  {
    var cut := Split(f, buffer);
    if cut.Some? {
      var left := buffer[cut.value.advance..];
      SplitStable(f, buffer, rest);
      SuffixStable(buffer, rest, cut.value.advance);
      HandOutThenRest(f, left, rest);
      Assoc([cut.value.token], Handed(f, left), Tokens(f, Remainder(f, left) + rest));
    }
  }

  // What the scanner has handed out, and what it still buffers, after some reads.

  function ReadTokens(f: Format, chunks: seq<string>): seq<string> {
    if chunks == [] then []
    else
      var n := |chunks| - 1;
      ReadTokens(f, chunks[..n]) + Handed(f, ReadBuffer(f, chunks[..n]) + chunks[n])
  }

  function ReadBuffer(f: Format, chunks: seq<string>): string {
    if chunks == [] then ""
    else
      var n := |chunks| - 1;
      Remainder(f, ReadBuffer(f, chunks[..n]) + chunks[n])
  }

  function ScanAll(f: Format, chunks: seq<string>): seq<string> {
    var rest := ReadBuffer(f, chunks);
    ReadTokens(f, chunks) + if rest == "" then [] else [Last(f, rest)]
  }

  lemma OneRead(f: Format, before: string, chunk: string, rest: string, tokens: seq<string>, buffer: string)
    requires Tokens(f, before + (chunk + rest)) == tokens + Tokens(f, buffer + (chunk + rest))
    ensures Tokens(f, before + chunk + rest)
         == tokens + Handed(f, buffer + chunk) + Tokens(f, Remainder(f, buffer + chunk) + rest)
  {
    Assoc(before, chunk, rest);
    Assoc(buffer, chunk, rest);
    HandOutThenRest(f, buffer + chunk, rest);
    Assoc(tokens, Handed(f, buffer + chunk), Tokens(f, Remainder(f, buffer + chunk) + rest));
  }

  lemma {:induction false} ReadsThenRest(f: Format, chunks: seq<string>, rest: string)
    ensures Tokens(f, Concat(chunks) + rest) == ReadTokens(f, chunks) + Tokens(f, ReadBuffer(f, chunks) + rest)
  {
    if chunks != [] {
      var n := |chunks| - 1;
      ReadsThenRest(f, chunks[..n], chunks[n] + rest);
      OneRead(f, Concat(chunks[..n]), chunks[n], rest, ReadTokens(f, chunks[..n]), ReadBuffer(f, chunks[..n]));
    }
  }

  lemma BufferIsUncut(f: Format, chunks: seq<string>)
    ensures Split(f, ReadBuffer(f, chunks)).None?
  {
    if chunks != [] {
      RemainderIsUncut(f, ReadBuffer(f, chunks[..|chunks| - 1]) + chunks[|chunks| - 1]);
    }
  }

  /**
   Tokenizing is independent of chunking: for every format and any division of a byte stream into
   reads, the scanner's tokens are those of one whole read.
   */
  lemma ChunkingDoesNotMatter(f: Format, chunks: seq<string>)
    ensures ScanAll(f, chunks) == Tokens(f, Concat(chunks))
  {
    ReadsThenRest(f, chunks, "");
    BufferIsUncut(f, chunks);
    assert Concat(chunks) + "" == Concat(chunks);
    assert ReadBuffer(f, chunks) + "" == ReadBuffer(f, chunks);
  }

  /** Hands out every token the buffer holds. */
  method HandOut(f: Format, data: string) returns (tokens: seq<string>, buffer: string)
    ensures tokens == Handed(f, data) && buffer == Remainder(f, data)
  {
    tokens, buffer := [], data;
    while Split(f, buffer).Some?
      invariant Handed(f, data) == tokens + Handed(f, buffer)
      invariant Remainder(f, data) == Remainder(f, buffer)
      decreases |buffer|
    {
      var cut := Split(f, buffer).value;
      ghost var later := Handed(f, buffer[cut.advance..]);
      Assoc(tokens, [cut.token], later);
      tokens := tokens + [cut.token];
      buffer := buffer[cut.advance..];
    }
  }

  /** The scanner loop over a stream of reads. */
  method Scan(f: Format, chunks: seq<string>) returns (tokens: seq<string>)
    ensures tokens == Tokens(f, Concat(chunks))
  {
    tokens := [];
    var buffer := "";
    var n := 0;
    while n < |chunks|
      invariant 0 <= n <= |chunks|
      invariant tokens == ReadTokens(f, chunks[..n]) && buffer == ReadBuffer(f, chunks[..n])
    {
      assert chunks[..n + 1][..n] == chunks[..n];
      var handed;
      handed, buffer := HandOut(f, buffer + chunks[n]);
      tokens := tokens + handed;
      n := n + 1;
    }
    assert chunks[..n] == chunks;
    ChunkingDoesNotMatter(f, chunks);
    assert tokens + [] == tokens;
    if buffer != "" {
      tokens := tokens + [Last(f, buffer)];
    }
  }

  // ---------------------------------------------------------------- nothing is lost

  /** What was dropped after a token. */
  function Dropped(f: Format): string {
    if f.Zhipu? then "\n\n" else "\n"
  }

  /** Every token followed by what was dropped. */
  function Rejoin(f: Format, tokens: seq<string>): string {
    if tokens == [] then "" else tokens[0] + Dropped(f) + Rejoin(f, tokens[1..])
  }

  /** The tokens rejoin to the stream, completed by one separator if it ended inside a token. */
  lemma {:induction false} TokensRejoin(f: Format, data: string)
    requires !f.ScanLines?
    ensures Rejoin(f, Tokens(f, data)) == data + if Remainder(f, data) == "" then "" else Dropped(f)
    decreases |data|
  {
    var cut := Split(f, data);
    if cut.Some? {
      var rest := data[cut.value.advance..];
      TokensRejoin(f, rest);
      CutIsTokenAndDropped(f, data);
      RejoinStep(f, cut.value.token, Tokens(f, rest), data, cut.value.advance,
                 if Remainder(f, rest) == "" then "" else Dropped(f));
    } else if data != "" {
      RejoinCons(f, data, []);
    }
  }

  lemma RejoinCons(f: Format, token: string, tokens: seq<string>)
    ensures Rejoin(f, [token] + tokens) == token + Dropped(f) + Rejoin(f, tokens)
    ensures Rejoin(f, [token]) == token + Dropped(f)
  {
    assert ([token] + tokens)[1..] == tokens;
    assert [token][1..] == [] && token + Dropped(f) + "" == token + Dropped(f);
  }

  lemma RejoinStep(f: Format, token: string, tokens: seq<string>, data: string, advance: nat, tail: string)
    requires advance <= |data|
    requires Rejoin(f, tokens) == data[advance..] + tail && token + Dropped(f) == data[..advance]
    ensures Rejoin(f, [token] + tokens) == data + tail
  {
    RejoinCons(f, token, tokens);
    Assoc(data[..advance], data[advance..], tail);
    assert data == data[..advance] + data[advance..];
  }

  lemma CutIsTokenAndDropped(f: Format, data: string)
    requires !f.ScanLines? && Split(f, data).Some?
    ensures data[..Split(f, data).value.advance] == Split(f, data).value.token + Dropped(f)
  {
    var i := Index(data, Separator(f));
    PrefixThenSeparator(data, i, Separator(f));
    if f.Ollama? { BraceThenNewline(data[..i]); }
  }

  lemma PrefixThenSeparator(data: string, i: nat, separator: string)
    requires i + |separator| <= |data| && data[i..i + |separator|] == separator
    ensures data[..i + |separator|] == data[..i] + separator
  {
  }

  lemma BraceThenNewline(s: string)
    ensures s + "}\n" == s + "}" + "\n"
  {
  }

  /** For lines: the rest is empty exactly when the stream is empty or ends in a newline. */
  lemma LineRemainder(data: string)
    ensures Remainder(Anthropic, data) == "" <==> data == "" || data[|data| - 1] == '\n'
  {
    LineRemainderOf(Anthropic, data);
  }

  lemma {:induction false} LineRemainderOf(f: Format, data: string)
    requires f.Anthropic?
    ensures Remainder(f, data) == "" <==> data == "" || data[|data| - 1] == '\n'
    decreases |data|
  {
    var i := Index(data, Separator(f));
    if i >= 0 {
      var rest := data[i + |Separator(f)|..];
      FirstToken(f, data, i, data[..i]);
      LineRemainderOf(f, rest);
      AfterNewline(data, i, Separator(f), rest);
    } else if data != "" && data[|data| - 1] == '\n' {
      EndsInNewline(data, Separator(f));
    }
  }

  lemma AfterNewline(data: string, i: nat, newline: string, rest: string)
    requires newline == "\n" && i < |data| && data[i..i + |newline|] == newline && rest == data[i + |newline|..]
    ensures if rest == "" then data[|data| - 1] == '\n' else rest[|rest| - 1] == data[|data| - 1]
  {
    assert data[i..i + |newline|][0] == data[i];
  }

  lemma EndsInNewline(data: string, newline: string)
    requires newline == "\n" && data != "" && data[|data| - 1] == '\n'
    ensures Index(data, newline) >= 0
  {
    assert data[|data| - 1..|data|] == newline;
    IndexFirst(data, newline, |data| - 1);
  }
}
