/**
  The flat streaming client (relay/client.go): line framing of the provider's
  event stream, extraction of one chunk per `data: ` line, and the goroutine that
  feeds the result channel. JSON decoding is a parameter, `decode`.
*/
module ChatStream {
  import opened Options
  import opened Channels
  import opened TextLines
  import Q = Seqs
  import S = Strings

  type Error = string

  datatype Usage = Usage(input: int, output: int)

  datatype ToolCall = ToolCall(index: Option<int>, id: string, name: string, arguments: string)

  datatype Choice = Choice(content: Option<string>, reasoningContent: Option<string>, reasoning: Option<string>,
                           toolCalls: seq<ToolCall>, finishReason: Option<string>)

  datatype FlatChunk = FlatChunk(delta: string, reasoning: string, toolCalls: seq<ToolCall>, finishReason: string,
                                 err: Option<Error>, done: bool, usage: Option<Usage>)

  /** A decoder's answer: None when the line is not valid JSON. */
  type Decoder = string -> Option<seq<Choice>>

  // ---- Lines ----

  predicate IsLineSpace(c: char) {
    c == ' ' || c == '\t' || c == '\r'
  }

  lemma {:induction false} LinesUpTo(s: string, start: nat, i: nat)
    requires start <= i < |s| && s[i] == '\n' && NoNewline(s[start..i])
    ensures Lines(s[start..]) == [s[start..i]] + Lines(s[i + 1..])
  {
    LineBreak(s[start..i], s[i + 1..]);
    assert s[start..] == s[start..i] + "\n" + s[i + 1..];
  }

  lemma {:induction false} NoNewlineStep(s: string, start: nat, i: nat)
    requires start <= i < |s| && s[i] != '\n' && NoNewline(s[start..i])
    ensures NoNewline(s[start..i + 1])
  {
    assert s[start..i + 1] == s[start..i] + [s[i]];
  }

  /** These are the lines of the text before a line start. */
  predicate SplitTo(s: string, result: seq<string>, start: nat) {
    start <= |s| && Lines(s) == result + Lines(s[start..])
  }

  lemma {:induction false} SplitFurther(s: string, result: seq<string>, start: nat, i: nat)
    requires SplitTo(s, result, start) && start <= i < |s| && s[i] == '\n' && NoNewline(s[start..i])
    ensures SplitTo(s, result + [s[start..i]], i + 1)
  {
    LinesUpTo(s, start, i);
    Q.Associates(result, [s[start..i]], Lines(s[i + 1..]));
  }

  lemma {:induction false} SplitAll(s: string, result: seq<string>, start: nat)
    requires SplitTo(s, result, start) && NoNewline(s[start..])
    ensures Lines(s) == if start < |s| then result + [s[start..]] else result
  {
    if start < |s| {
      LastLine(s[start..]);
    } else {
      assert s[start..] == "" && result + [] == result;
    }
  }

  method SplitLines(s: string) returns (result: seq<string>)
    ensures result == Lines(s)
  {
    result := [];
    var start := 0;
    assert s[0..] == s && [] + Lines(s) == Lines(s);
    for i := 0 to |s|
      invariant start <= i && SplitTo(s, result, start) && NoNewline(s[start..i])
    {
      if s[i] == '\n' {
        SplitFurther(s, result, start, i);
        result := result + [s[start..i]];
        start := i + 1;
      } else {
        NoNewlineStep(s, start, i);
      }
    }
    assert s[start..|s|] == s[start..];
    SplitAll(s, result, start);
    if start < |s| {
      result := result + [s[start..]];
    }
  }

  method TrimLine(s: string) returns (t: string)
    ensures t == S.Trim(IsLineSpace, s)
  {
    var start, end := 0, |s|;
    while start < end && IsLineSpace(s[start])
      invariant 0 <= start <= end == |s|
      invariant S.Blank(IsLineSpace, s[..start])
    {
      start := start + 1;
    }
    while end > start && IsLineSpace(s[end - 1])
      invariant start <= end <= |s|
      invariant start < end ==> !IsLineSpace(s[start])
      invariant S.Blank(IsLineSpace, s[end..])
    {
      end := end - 1;
    }
    t := s[start..end];
    assert s == s[..start] + t + s[end..];
    S.TrimUnique(IsLineSpace, s[..start], t, s[end..]);
  }

  // ---- Frames: the payloads of the data lines ----

  const DATA := "data: "

  /** The payload of a trimmed line, if it is a data line. */
  function FrameOf(t: string): seq<string> {
    if S.HasPrefix(t, DATA) then [t[|DATA|..]] else []
  }

  function FramesOfLine(line: string): seq<string> {
    FrameOf(S.Trim(IsLineSpace, line))
  }

  function FramesOfLines(ls: seq<string>): seq<string> {
    if ls == [] then [] else FramesOfLine(ls[0]) + FramesOfLines(ls[1..])
  }

  function Frames(text: string): seq<string> {
    FramesOfLines(Lines(text))
  }

  lemma {:induction false} FramesOfLinesAppend(a: seq<string>, b: seq<string>)
    ensures FramesOfLines(a + b) == FramesOfLines(a) + FramesOfLines(b)
  {
    if a == [] {
      assert a + b == b;
    } else {
      assert (a + b)[1..] == a[1..] + b;
      FramesOfLinesAppend(a[1..], b);
    }
  }

  lemma {:induction false} FramesStep(lines: seq<string>, i: nat)
    requires i < |lines|
    ensures FramesOfLines(lines[..i + 1]) == FramesOfLines(lines[..i]) + FrameOf(S.Trim(IsLineSpace, lines[i]))
  {
    FramesOfLinesAppend(lines[..i], [lines[i]]);
    assert lines[..i + 1] == lines[..i] + [lines[i]];
    assert [lines[i]][1..] == [];
    assert FramesOfLine(lines[i]) + [] == FramesOfLine(lines[i]);
  }

  method SplitSseLines(text: string) returns (frames: seq<string>)
    ensures frames == Frames(text)
  {
    frames := [];
    var lines := SplitLines(text);
    for i := 0 to |lines|
      invariant frames == FramesOfLines(lines[..i])
    {
      var line := TrimLine(lines[i]);
      FramesStep(lines, i);
      assert frames + [] == frames;
      if S.HasPrefix(line, DATA) {
        frames := frames + [line[|DATA|..]];
      }
    }
    assert lines[..|lines|] == lines;
  }

  /** What follows the last newline: the line a write may have left open. */
  function Partial(s: string): (w: string)
    ensures |w| <= |s|
  {
    if s == "" || s[|s| - 1] == '\n' then "" else Partial(s[..|s| - 1]) + [s[|s| - 1]]
  }

  /** What stands before the open line. */
  function Closed(s: string): string {
    s[..|s| - |Partial(s)|]
  }

  lemma {:induction false} PartialIsOneLine(s: string)
    ensures NoNewline(Partial(s))
  {
    if s != "" && s[|s| - 1] != '\n' {
      PartialIsOneLine(s[..|s| - 1]);
    }
  }

  lemma {:induction false} ClosedIsTerminated(s: string)
    ensures Terminated(Closed(s))
  {
    if s != "" && s[|s| - 1] != '\n' {
      ClosedIsTerminated(s[..|s| - 1]);
      assert Closed(s) == Closed(s[..|s| - 1]);
    }
  }

  lemma {:induction false} PartialIsSuffix(s: string)
    ensures s == Closed(s) + Partial(s)
  {
    if s != "" && s[|s| - 1] != '\n' {
      var front, c := s[..|s| - 1], s[|s| - 1];
      PartialIsSuffix(front);
      Q.Associates(Closed(front), Partial(front), [c]);
      assert s == front + [c] && Closed(s) == Closed(front);
    }
  }

  lemma {:induction false} FramesAfterPartial(a: string, b: string)
    ensures Frames(a) == Frames(Closed(a)) + Frames(Partial(a))
    ensures Frames(a + b) == Frames(Closed(a)) + Frames(Partial(a) + b)
  {
    var front, w := Closed(a), Partial(a);
    PartialIsSuffix(a);
    PartialIsOneLine(a);
    ClosedIsTerminated(a);
    Q.Associates(front, w, b);
    LinesAppend(front, w);
    LinesAppend(front, w + b);
    FramesOfLinesAppend(Lines(front), Lines(w));
    FramesOfLinesAppend(Lines(front), Lines(w + b));
  }

  lemma {:induction false} BlankPartialIsNeutral(w: string, b: string)
    requires NoNewline(w) && S.Blank(IsLineSpace, w)
    ensures Frames(w) == [] && Frames(w + b) == Frames(b)
  {
    S.TrimEmptyIffBlank(IsLineSpace, w);
    if w != "" {
      LastLine(w);
      assert FramesOfLines([w]) == FramesOfLine(w) + FramesOfLines([]);
    }
    if b == "" {
      assert w + b == w;
    } else {
      GlueLine(w, b);
      var first := Lines(b)[0];
      assert w + first == w + first + "";
      S.TrimAround(IsLineSpace, w, first, "");
      assert Lines(b) == [first] + Lines(b)[1..];
    }
  }

  /** The frame of a text that is one line: blank padding around a tight middle. */
  lemma {:induction false} FramesOfPaddedLine(l: string, t: string, r: string)
    requires S.Blank(IsLineSpace, l) && S.Blank(IsLineSpace, r) && S.Tight(IsLineSpace, t)
    requires NoNewline(l + t + r) && l + t + r != ""
    ensures Frames(l + t + r) == FrameOf(t)
  {
    var w := l + t + r;
    S.TrimUnique(IsLineSpace, l, t, r);
    LastLine(w);
    assert FramesOfLines([w][1..]) == [];
  }

  /** A tight text appended to an open line extends that line's middle. */
  lemma {:induction false} FramesOfExtendedLine(l: string, t: string, r: string, b: string)
    requires S.Blank(IsLineSpace, l) && S.Tight(IsLineSpace, t) && S.Tight(IsLineSpace, b)
    requires NoNewline(l + t + r) && NoNewline(b) && t != "" && b != ""
    ensures Frames(l + t + r + b) == FrameOf(t + r + b)
  {
    var joined := t + r + b;
    assert joined[0] == t[0] && joined[|joined| - 1] == b[|b| - 1];
    assert l + t + r + b == l + joined + "";
    FramesOfPaddedLine(l, joined, "");
  }

  /** An open data line swallows a character of what follows; any other open line hides a data line. */
  lemma {:induction false} FrameOfGrows(t: string, r: string, b: string)
    requires b == if S.HasPrefix(t, DATA) then "z" else "data: x"
    requires t != ""
    ensures FrameOf(t + r + b) != FrameOf(t) + FrameOf(b)
  {
    var joined := t + r + b;
    if S.HasPrefix(t, DATA) {
      assert FrameOf(t) + FrameOf(b) == [t[6..]];
      assert joined[..6] == t[..6] && FrameOf(joined) == [joined[6..]];
      assert |joined[6..]| > |t[6..]|;
    } else {
      assert b[..6] == DATA && |b[6..]| == 1;
      assert FrameOf(t) + FrameOf(b) == [b[6..]];
      assert |joined[6..]| > 1;
    }
  }

  lemma {:induction false} FramesOfBareLine(t: string)
    requires S.Tight(IsLineSpace, t) && NoNewline(t) && t != ""
    ensures Frames(t) == FrameOf(t)
  {
    assert t == "" + t + "";
    FramesOfPaddedLine("", t, "");
  }

  lemma {:induction false} ProbeIsBare(b: string)
    requires b == "z" || b == "data: x"
    ensures Frames(b) == FrameOf(b) && S.Tight(IsLineSpace, b) && NoNewline(b) && b != ""
  {
    FramesOfBareLine(b);
  }

  lemma {:induction false} OpenLineBreaksFraming(l: string, t: string, r: string, b: string)
    requires S.Blank(IsLineSpace, l) && S.Blank(IsLineSpace, r) && S.Tight(IsLineSpace, t)
    requires NoNewline(l + t + r) && t != ""
    requires b == if S.HasPrefix(t, DATA) then "z" else "data: x"
    ensures Frames(l + t + r + b) != Frames(l + t + r) + Frames(b)
  {
    FramesOfPaddedLine(l, t, r);
    ProbeIsBare(b);
    FramesOfExtendedLine(l, t, r, b);
    FrameOfGrows(t, r, b);
  }

  lemma {:induction false} BlankOpenLineIsSafe(a: string, b: string)
    requires S.Blank(IsLineSpace, Partial(a))
    ensures Frames(a + b) == Frames(a) + Frames(b)
  {
    FramesAfterPartial(a, b);
    PartialIsOneLine(a);
    BlankPartialIsNeutral(Partial(a), b);
    var head := Frames(Closed(a));
    assert head + [] == head;
  }

  lemma {:induction false} OpenTextIsUnsafe(a: string) returns (b: string)
    requires !S.Blank(IsLineSpace, Partial(a))
    ensures Frames(a + b) != Frames(a) + Frames(b)
  {
    var w := Partial(a);
    var l, r := S.TrimPads(IsLineSpace, w);
    var t := S.Trim(IsLineSpace, w);
    b := if S.HasPrefix(t, DATA) then "z" else "data: x";
    S.TrimEmptyIffBlank(IsLineSpace, w);
    PartialIsOneLine(a);
    OpenLineBreaksFraming(l, t, r, b);
    FramesAfterPartial(a, b);
    SamePrefix(Frames(Closed(a)), Frames(w), Frames(b), Frames(w + b));
  }

  /**
    A text may be cut after `a`, whatever follows, exactly when the line left open
    there is blank: empty, ended by a newline, or only spaces, tabs and returns.
  */
  lemma {:induction false} CutIsSafeIffOpenLineBlank(a: string)
    ensures (forall b :: Frames(a + b) == Frames(a) + Frames(b)) <==> S.Blank(IsLineSpace, Partial(a))
  {
    if S.Blank(IsLineSpace, Partial(a)) {
      forall b ensures Frames(a + b) == Frames(a) + Frames(b) {
        BlankOpenLineIsSafe(a, b);
      }
    } else {
      var b := OpenTextIsUnsafe(a);
    }
  }

  lemma {:induction false} SamePrefix<T>(head: seq<T>, x: seq<T>, y: seq<T>, z: seq<T>)
    requires z != x + y
    ensures head + z != head + x + y
  {
    assert (head + z)[|head|..] == z;
    assert (head + x + y)[|head|..] == x + y;
  }

  // ---- Chunks ----

  function NonEmpty(o: Option<string>): bool {
    o.Some? && o.value != ""
  }

  function TextOr(o: Option<string>, other: string): string {
    if NonEmpty(o) then o.value else other
  }

  /** The choice has content, reasoning, tool calls or a finish reason. */
  predicate HasPayload(c: Choice) {
    NonEmpty(c.content) || NonEmpty(c.reasoningContent) || NonEmpty(c.reasoning) || c.toolCalls != []
    || NonEmpty(c.finishReason)
  }

  /**
    The payload of the first choice, if the line decodes and has one. Each field is that of
    the choice, an absent text being empty, and `reasoning` standing in for `reasoning_content`.
  */
  function Extract(decoded: Option<seq<Choice>>): (r: Option<FlatChunk>)
    ensures r.Some? <==> decoded.Some? && decoded.value != [] && HasPayload(decoded.value[0])
    ensures r.Some? ==>
              var c := decoded.value[0];
              && (NonEmpty(c.content) ==> Some(r.value.delta) == c.content)
              && (!NonEmpty(c.content) ==> r.value.delta == "")
              && (NonEmpty(c.reasoningContent) ==> Some(r.value.reasoning) == c.reasoningContent)
              && (!NonEmpty(c.reasoningContent) && NonEmpty(c.reasoning) ==> Some(r.value.reasoning) == c.reasoning)
              && (!NonEmpty(c.reasoningContent) && !NonEmpty(c.reasoning) ==> r.value.reasoning == "")
              && (NonEmpty(c.finishReason) ==> Some(r.value.finishReason) == c.finishReason)
              && (!NonEmpty(c.finishReason) ==> r.value.finishReason == "")
              && r.value.toolCalls == c.toolCalls && r.value.err.None? && !r.value.done && r.value.usage.None?
  {
    if decoded.None? || decoded.value == [] then None
    else
      var c := decoded.value[0];
      var delta, reasoning := TextOr(c.content, ""), TextOr(c.reasoningContent, TextOr(c.reasoning, ""));
      var finish := TextOr(c.finishReason, "");
      if delta == "" && reasoning == "" && c.toolCalls == [] && finish == "" then None
      else Some(FlatChunk(delta, reasoning, c.toolCalls, finish, None, false, None))
  }

  /** A text that is absent or empty is no payload; any other text is. */
  lemma {:induction false} HasPayloadIff(c: Choice)
    ensures HasPayload(c) <==>
            || c.content !in {None, Some("")} || c.reasoningContent !in {None, Some("")}
            || c.reasoning !in {None, Some("")} || c.toolCalls != [] || c.finishReason !in {None, Some("")}
    ensures NonEmpty(c.content) <==> c.content !in {None, Some("")}
  {
  }

  predicate Terminal(c: FlatChunk) {
    c.err.Some? || c.done
  }

  function ChunksOfFrame(decode: Decoder, frame: string): (cs: seq<FlatChunk>)
    ensures forall i :: 0 <= i < |cs| ==> !Terminal(cs[i])
  {
    if frame == "[DONE]" then []
    else
      var c := Extract(decode(frame));
      if c.None? then [] else [c.value]
  }

  function ChunksOfFrames(decode: Decoder, frames: seq<string>): (cs: seq<FlatChunk>)
    ensures forall i :: 0 <= i < |cs| ==> !Terminal(cs[i])
  {
    if frames == [] then [] else ChunksOfFrame(decode, frames[0]) + ChunksOfFrames(decode, frames[1..])
  }

  lemma {:induction false} ChunksOfFramesAppend(decode: Decoder, a: seq<string>, b: seq<string>)
    ensures ChunksOfFrames(decode, a + b) == ChunksOfFrames(decode, a) + ChunksOfFrames(decode, b)
  {
    if a == [] {
      assert a + b == b;
    } else {
      ChunksOfFramesAppend(decode, a[1..], b);
      assert (a + b)[1..] == a[1..] + b;
      Q.Associates(ChunksOfFrame(decode, a[0]), ChunksOfFrames(decode, a[1..]), ChunksOfFrames(decode, b));
    }
  }

  lemma {:induction false} ChunksStep(decode: Decoder, frames: seq<string>, i: nat)
    requires i < |frames|
    ensures ChunksOfFrames(decode, frames[..i + 1]) ==
            ChunksOfFrames(decode, frames[..i]) + ChunksOfFrame(decode, frames[i])
  {
    ChunksOfFramesAppend(decode, frames[..i], [frames[i]]);
    assert frames[..i + 1] == frames[..i] + [frames[i]];
    assert ChunksOfFrame(decode, frames[i]) + [] == ChunksOfFrame(decode, frames[i]);
  }

  function Forwarded(decode: Decoder, text: string): seq<FlatChunk> {
    ChunksOfFrames(decode, Frames(text))
  }

  /** What a run of writes forwards, one write at a time. */
  function ForwardedAll(decode: Decoder, writes: seq<string>): (cs: seq<FlatChunk>)
    ensures forall i :: 0 <= i < |cs| ==> !Terminal(cs[i])
  {
    if writes == [] then [] else Forwarded(decode, writes[0]) + ForwardedAll(decode, writes[1..])
  }

  /** However a stream is cut into writes at blank open lines, the same chunks are forwarded. */
  lemma {:induction false} WritesForwardTheWholeText(decode: Decoder, writes: seq<string>)
    requires forall i :: 0 <= i < |writes| - 1 ==> S.Blank(IsLineSpace, Partial(writes[i]))
    ensures ForwardedAll(decode, writes) == Forwarded(decode, S.Concat(writes))
  {
    if writes != [] {
      var tail := writes[1..];
      if tail == [] {
        assert S.Concat(writes) == writes[0];
      } else {
        WritesForwardTheWholeText(decode, tail);
        BlankOpenLineIsSafe(writes[0], S.Concat(tail));
        ChunksOfFramesAppend(decode, Frames(writes[0]), Frames(S.Concat(tail)));
      }
    }
  }

  // ---- A stream line by line, and what it forwards ----

  /** A line of an event stream: blanks around a payload marked as data, or around something else. */
  datatype SseLine =
    | DataLine(left: string, payload: string, right: string)
    | OtherLine(left: string, text: string, right: string)

  /** Only the blanks that the framing trims: no newline. */
  predicate IsPad(pad: string) {
    forall i :: 0 <= i < |pad| ==> pad[i] == ' ' || pad[i] == '\t' || pad[i] == '\r'
  }

  predicate EndsInPad(s: string) {
    s != "" && IsPad(s[|s| - 1..])
  }

  /** Each line of a stream is of exactly one of these forms; data lines have a payload. */
  predicate WellFormed(x: SseLine) {
    match x
    case DataLine(left, payload, right) =>
      IsPad(left) && IsPad(right) && NoNewline(payload) && payload != "" && !EndsInPad(payload)
    case OtherLine(left, text, right) =>
      && IsPad(left) && IsPad(right) && NoNewline(text) && !S.HasPrefix(text, "data: ")
      && (text != "" ==> !IsPad(text[..1]) && !EndsInPad(text))
  }

  predicate AllWellFormed(xs: seq<SseLine>) {
    forall i :: 0 <= i < |xs| ==> WellFormed(xs[i])
  }

  function LineText(x: SseLine): string {
    match x
    case DataLine(left, payload, right) => left + "data: " + payload + right
    case OtherLine(left, text, right) => left + text + right
  }

  function StreamText(xs: seq<SseLine>): string {
    if xs == [] then "" else LineText(xs[0]) + "\n" + StreamText(xs[1..])
  }

  /** The chunks that the payloads of the data lines give, in order; `[DONE]` gives none. */
  function ChunksFor(decode: Decoder, xs: seq<SseLine>): (cs: seq<FlatChunk>) {
    if xs == [] then []
    else
      var rest := ChunksFor(decode, xs[1..]);
      match xs[0]
      case OtherLine(_, _, _) => rest
      case DataLine(_, payload, _) =>
        if payload == "[DONE]" then rest
        else match Extract(decode(payload)) case None => rest case Some(c) => [c] + rest
  }

  lemma {:induction false} PadIsBlank(pad: string)
    ensures IsPad(pad) <==> S.Blank(IsLineSpace, pad)
    ensures IsPad(pad) ==> NoNewline(pad)
  {
  }

  lemma {:induction false} TightUnlessPadded(t: string)
    requires t != "" && !IsPad(t[..1]) && !EndsInPad(t)
    ensures S.Tight(IsLineSpace, t)
  {
    assert t[..1][0] == t[0] && t[|t| - 1..][0] == t[|t| - 1];
  }

  lemma {:induction false} LineFrames(x: SseLine)
    requires WellFormed(x)
    ensures FramesOfLine(LineText(x)) == if x.DataLine? then [x.payload] else []
    ensures NoNewline(LineText(x))
  {
    PadIsBlank(x.left);
    PadIsBlank(x.right);
    match x
    case DataLine(left, payload, right) =>
      var t := "data: " + payload;
      assert LineText(x) == left + t + right && t[..6] == "data: " && t[6..] == payload;
      assert t[|t| - 1..] == payload[|payload| - 1..];
      assert t[..1][0] == 'd';
      TightUnlessPadded(t);
      S.TrimUnique(IsLineSpace, left, t, right);
    case OtherLine(left, text, right) =>
      if text != "" {
        TightUnlessPadded(text);
      }
      S.TrimUnique(IsLineSpace, left, text, right);
  }

  /**
    What a stream forwards, however its lines are padded: for each data line but `[DONE]`, in order,
    the chunk of its payload when it has one; nothing for any other line.
  */
  lemma {:induction false} StreamForwards(decode: Decoder, xs: seq<SseLine>)
    requires AllWellFormed(xs)
    ensures Forwarded(decode, StreamText(xs)) == ChunksFor(decode, xs)
  {
    if xs != [] {
      var line, rest := LineText(xs[0]), StreamText(xs[1..]);
      LineFrames(xs[0]);
      LineBreak(line, rest);
      assert FramesOfLines([line] + Lines(rest)) == FramesOfLine(line) + Frames(rest) by {
        assert ([line] + Lines(rest))[1..] == Lines(rest);
      }
      ChunksOfFramesAppend(decode, FramesOfLine(line), Frames(rest));
      StreamForwards(decode, xs[1..]);
      FramesOfOne(decode, FramesOfLine(line));
      assert [] + ChunksFor(decode, xs[1..]) == ChunksFor(decode, xs[1..]);
    }
  }

  lemma {:induction false} FramesOfOne(decode: Decoder, frames: seq<string>)
    requires |frames| <= 1
    ensures ChunksOfFrames(decode, frames) == if frames == [] then [] else ChunksOfFrame(decode, frames[0])
  {
    if frames != [] {
      assert frames[1..] == [] && ChunksOfFrame(decode, frames[0]) + [] == ChunksOfFrame(decode, frames[0]);
    }
  }

  /** Every line without a newline is one of these. */
  lemma {:induction false} EveryLineIsOne(line: string) returns (x: SseLine)
    requires NoNewline(line)
    ensures WellFormed(x) && LineText(x) == line
  {
    var l, r := S.TrimPads(IsLineSpace, line);
    var t := S.Trim(IsLineSpace, line);
    PadIsBlank(l);
    PadIsBlank(r);
    assert NoNewline(t) by {
      assert forall i :: 0 <= i < |t| ==> t[i] == line[|l| + i];
    }
    if S.HasPrefix(t, "data: ") {
      var payload := t[6..];
      assert t == "data: " + payload;
      assert t[5] == ' ' && t[|t| - 1] != ' ';
      assert payload[|payload| - 1..][0] == t[|t| - 1];
      x := DataLine(l, payload, r);
      assert LineText(x) == l + t + r;
    } else {
      x := OtherLine(l, t, r);
      if t != "" {
        assert t[..1][0] == t[0] && t[|t| - 1..][0] == t[|t| - 1];
      }
    }
  }

  /** The http.ResponseWriter handed to the adaptor; `ch` is all it has sent so far. */
  class StreamResponseWriter {
    const decode: Decoder
    var ch: seq<FlatChunk>

    constructor (decode: Decoder)
      ensures this.decode == decode && ch == []
    {
      this.decode := decode;
      ch := [];
    }

    method Write(data: string) returns (n: nat)
      modifies this
      ensures n == |data|
      ensures ch == old(ch) + Forwarded(decode, data)
    {
      var frames := SplitSseLines(data);
      for i := 0 to |frames|
        invariant ch == old(ch) + ChunksOfFrames(decode, frames[..i])
      {
        ChunksStep(decode, frames, i);
        ghost var sent := ch;
        assert sent + [] == sent;
        Q.Associates(old(ch), ChunksOfFrames(decode, frames[..i]), ChunksOfFrame(decode, frames[i]));
        if frames[i] == "[DONE]" {
          continue;
        }
        var chunk := Extract(decode(frames[i]));
        if chunk.None? {
          continue;
        }
        ch := ch + [chunk.value];
      }
      assert frames[..|frames|] == frames;
      n := |data|;
    }
  }

  // ---- The goroutine behind one result channel ----

  function ErrorChunk(e: Error): FlatChunk {
    FlatChunk("", "", [], "", Some(e), false, None)
  }

  function DoneChunk(u: Usage): FlatChunk {
    FlatChunk("", "", [], "", None, true, Some(u))
  }

  /** How the provider's response goes: the writes it makes, then an error or a usage. */
  datatype Response = Response(writes: seq<string>, err: Option<Error>, usage: Usage)

  /** The adaptor's writes, one after the other, through one writer. */
  method WriteAll(decode: Decoder, writes: seq<string>) returns (sent: seq<FlatChunk>)
    ensures sent == ForwardedAll(decode, writes)
  {
    var pw := new StreamResponseWriter(decode);
    for i := 0 to |writes|
      invariant pw.ch + ForwardedAll(decode, writes[i..]) == ForwardedAll(decode, writes)
      invariant pw.decode == decode
    {
      assert writes[i..][1..] == writes[i + 1..];
      Q.Associates(pw.ch, Forwarded(decode, writes[i]), ForwardedAll(decode, writes[i + 1..]));
      var _ := pw.Write(writes[i]);
    }
    sent := pw.ch;
    assert sent + [] == sent;
  }

  /** What the goroutine does: every chunk forwarded, then the error, or the usage and `Done`; then it closes. */
  function FlatLog(decode: Decoder, cancelled: Option<Error>, resp: Response): seq<Act<FlatChunk, Usage>> {
    if cancelled.Some? then FailedLog([ErrorChunk(cancelled.value)])
    else if resp.err.Some? then FailedLog(ForwardedAll(decode, resp.writes) + [ErrorChunk(resp.err.value)])
    else EarlyLog(ForwardedAll(decode, resp.writes), resp.usage, DoneChunk(resp.usage))
  }

  method StreamOnce(decode: Decoder, cancelled: Option<Error>, resp: Response) returns (log: seq<Act<FlatChunk, Usage>>)
    ensures log == FlatLog(decode, cancelled, resp)
  {
    if cancelled.Some? {
      log := [Send(ErrorChunk(cancelled.value))];
      return log + [Close];
    }
    var sent := WriteAll(decode, resp.writes);
    log := Sends(sent);
    if resp.err.Some? {
      log := log + [Send(ErrorChunk(resp.err.value))];
      return log + [Close];
    }
    log := log + [Set(resp.usage)];
    log := log + [Send(DoneChunk(resp.usage))];
    return log + [Close];
  }

  /** Whether a stream fails: it was cancelled before it began, or the provider gave an error. */
  predicate Fails(cancelled: Option<Error>, resp: Response) {
    cancelled.Some? || resp.err.Some?
  }

  /**
    Every flat stream sends non-terminal chunks, then one terminal chunk, an error exactly
    when it fails, then closes. On success the usage is set before `Done` is sent, so whoever
    receives `Done` reads it.
  */
  lemma {:induction false} FlatStreamEndsOnce(decode: Decoder, cancelled: Option<Error>, resp: Response)
    ensures var log := FlatLog(decode, cancelled, resp);
            && EndsOnce(Chunks(log), Terminal) && ClosesLast(log)
            && Chunks(log)[|Chunks(log)| - 1] ==
               FlatChunk("", "", [], "", if cancelled.Some? then cancelled else resp.err, !Fails(cancelled, resp),
                         if Fails(cancelled, resp) then None else Some(resp.usage))
            && Chunks(log)[..|Chunks(log)| - 1] == (if cancelled.Some? then [] else ForwardedAll(decode, resp.writes))
            && (Fails(cancelled, resp) ==> Stored(log) == None)
            && (!Fails(cancelled, resp) ==>
                  && Stored(log) == Some(resp.usage) && |log| >= 2
                  && log[|log| - 2] == Send(DoneChunk(resp.usage)) && ReadAfter(log, |log| - 2) == Some(resp.usage))
  {
    var cs := ForwardedAll(decode, resp.writes);
    if cancelled.Some? {
      FailedLogMeans<FlatChunk, Usage>([ErrorChunk(cancelled.value)]);
    } else if resp.err.Some? {
      FailedLogMeans<FlatChunk, Usage>(cs + [ErrorChunk(resp.err.value)]);
    } else {
      EarlyLogMeans(cs, resp.usage, DoneChunk(resp.usage));
    }
  }
}
