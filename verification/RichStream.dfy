/**
  The translated rich stream (relay/rich.go): the goroutine that reads flat chunks,
  emits rich chunks and assembles the final response. The emitted chunks and the
  final response are two views of one stream; this module proves how they agree.
*/
module RichStream {
  import opened Options
  import opened Channels
  import opened Messages
  import Q = Seqs
  import Flat = ChatStream

  /** A tool call put together from its fragments. */
  datatype ToolAccum = ToolAccum(id: string, name: string, args: string)

  /** The goroutine's variables, and what it has sent. */
  datatype State = State(text: string, tools: map<int, ToolAccum>, finish: string, out: seq<RichChunk>)

  const INITIAL := State("", map[], "", [])

  function MapFinishReason(finish: string, hasTools: bool): string {
    if finish == "tool_calls" then "tool_use"
    else if finish == "length" then "max_tokens"
    else if finish == "stop" then "end_turn"
    else if hasTools then "tool_use" else "end_turn"
  }

  /** A finish reason whose translation does not depend on the tools seen so far. */
  predicate KnownFinish(finish: string) {
    finish == "tool_calls" || finish == "length" || finish == "stop"
  }

  function Fragment(a: ToolAccum, id: string, name: string, args: string): ToolAccum {
    ToolAccum(if id != "" then id else a.id, if name != "" then name else a.name, a.args + args)
  }

  /** The accumulator of an index, or an empty one. */
  function At(tools: map<int, ToolAccum>, index: int): ToolAccum {
    if index in tools then tools[index] else ToolAccum("", "", "")
  }

  function AddFragment(tools: map<int, ToolAccum>, index: int, id: string, name: string, args: string)
    : map<int, ToolAccum>
  {
    tools[index := Fragment(At(tools, index), id, name, args)]
  }

  function IndexOf(tc: Flat.ToolCall): int {
    if tc.index.Some? then tc.index.value else 0
  }

  // ---- One chunk, and a run of chunks ----

  function StepTool(s: State, tc: Flat.ToolCall): State {
    s.(tools := AddFragment(s.tools, IndexOf(tc), tc.id, tc.name, tc.arguments),
       out := s.out + [ToolUseDelta(IndexOf(tc), tc.id, tc.name, tc.arguments)])
  }

  function StepTools(s: State, tcs: seq<Flat.ToolCall>): State {
    if tcs == [] then s else StepTool(StepTools(s, tcs[..|tcs| - 1]), tcs[|tcs| - 1])
  }

  function StepText(s: State, c: Flat.FlatChunk): State {
    var s1 := if c.delta != "" then s.(text := s.text + c.delta, out := s.out + [TextDelta(c.delta)]) else s;
    if c.reasoning != "" then s1.(out := s1.out + [ThinkingDelta(c.reasoning)]) else s1
  }

  function StepFinish(s: State, c: Flat.FlatChunk): State {
    if c.finishReason == "" then s
    else s.(finish := c.finishReason,
            out := s.out + [Finish(MapFinishReason(c.finishReason, |s.tools| > 0), 0, 0)])
  }

  function StepDone(s: State, c: Flat.FlatChunk): State {
    if c.usage.Some? then s.(out := s.out + [UsageChunk(c.usage.value.input, c.usage.value.output, true)]) else s
  }

  /** One flat chunk that carries no error. */
  function Step(s: State, c: Flat.FlatChunk): State {
    if c.done then StepDone(s, c) else StepFinish(StepTools(StepText(s, c), c.toolCalls), c)
  }

  predicate ErrorFree(cs: seq<Flat.FlatChunk>) {
    forall i :: 0 <= i < |cs| ==> cs[i].err.None?
  }

  function Run(cs: seq<Flat.FlatChunk>): State {
    if cs == [] then INITIAL else Step(Run(cs[..|cs| - 1]), cs[|cs| - 1])
  }

  // ---- The final response ----

  function ToolBlock(a: ToolAccum): ContentBlock {
    ToolUseBlock(a.id, a.name, NormalizedInput(a.args))
  }

  /** The blocks of the indices below n, in index order; absent indices are skipped. */
  function ToolBlocksBelow(tools: map<int, ToolAccum>, n: nat): seq<ContentBlock> {
    if n == 0 then []
    else if n - 1 in tools then ToolBlocksBelow(tools, n - 1) + [ToolBlock(tools[n - 1])]
    else ToolBlocksBelow(tools, n - 1)
  }

  function TextBlocks(text: string): seq<ContentBlock> {
    if text == "" then [] else [TextBlock(text)]
  }

  function FinalContent(s: State): seq<ContentBlock> {
    OrPlaceholder(TextBlocks(s.text) + ToolBlocksBelow(s.tools, |s.tools|))
  }

  function FinalStopReason(s: State): string {
    MapFinishReason(s.finish, |s.tools| > 0)
  }

  function FinalResponse(s: State, usage: Flat.Usage): RichResponse {
    RichResponse("", "", FinalContent(s), FinalStopReason(s), usage.input, usage.output, 0, 0)
  }

  /** The first error of a flat stream ends it; only the chunks before it are translated. */
  function BeforeError(cs: seq<Flat.FlatChunk>): nat {
    if cs == [] || cs[0].err.Some? then 0 else 1 + BeforeError(cs[1..])
  }

  lemma {:induction false} BeforeErrorIs(cs: seq<Flat.FlatChunk>, n: nat)
    requires n <= |cs| && ErrorFree(cs[..n]) && (n < |cs| ==> cs[n].err.Some?)
    ensures BeforeError(cs) == n
  {
    if n > 0 {
      assert cs[0] == cs[..n][0];
      assert cs[1..][..n - 1] == cs[..n][1..];
      BeforeErrorIs(cs[1..], n - 1);
    }
  }

  /** What is sent for a flat stream: the chunks before its first error, translated, and that error. */
  function Sent(cs: seq<Flat.FlatChunk>): seq<RichChunk> {
    var n := BeforeError(cs);
    if n < |cs| && cs[n].err.Some? then Run(cs[..n]).out + [ErrorChunk(cs[n].err.value)] else Run(cs).out
  }

  /** What the goroutine does: what it sends, Final unless there was an error, and the close. */
  function TranslatedLog(cs: seq<Flat.FlatChunk>, usage: Flat.Usage): RichLog {
    if ErrorFree(cs) then LateLog(Sent(cs), FinalResponse(Run(cs), usage)) else FailedLog(Sent(cs))
  }

  method Translate(cs: seq<Flat.FlatChunk>, usage: Flat.Usage) returns (log: RichLog)
    ensures log == TranslatedLog(cs, usage)
  {
    var text, finishReason := "", "";
    var toolAccum: map<int, ToolAccum> := map[];
    var ch: seq<RichChunk> := [];
    for i := 0 to |cs|
      invariant ErrorFree(cs[..i])
      invariant State(text, toolAccum, finishReason, ch) == Run(cs[..i])
    {
      var chunk := cs[i];
      if chunk.err.Some? {
        BeforeErrorIs(cs, i);
        return Sends(ch + [ErrorChunk(chunk.err.value)]) + [Close];
      }
      RunSnoc(cs, i);
      text, toolAccum, finishReason, ch := Consume(chunk, text, toolAccum, finishReason, ch);
    }
    assert cs[..|cs|] == cs;
    BeforeErrorIs(cs, |cs|);
    var content := BuildContent(text, toolAccum);
    var stop := MapFinishReason(finishReason, |toolAccum| > 0);
    var final := RichResponse("", "", content, stop, usage.input, usage.output, 0, 0);
    return Sends(ch) + [Set(final)] + [Close];
  }

  lemma {:induction false} RunSnoc(cs: seq<Flat.FlatChunk>, i: nat)
    requires i < |cs|
    ensures Run(cs[..i + 1]) == Step(Run(cs[..i]), cs[i])
    ensures ErrorFree(cs[..i]) && cs[i].err.None? ==> ErrorFree(cs[..i + 1])
  {
    assert cs[..i + 1][..i] == cs[..i];
  }

  /** One turn of the loop for a chunk without an error. */
  method Consume(chunk: Flat.FlatChunk, text0: string, tools0: map<int, ToolAccum>, finish0: string,
              ch0: seq<RichChunk>)
    returns (text: string, toolAccum: map<int, ToolAccum>, finishReason: string, ch: seq<RichChunk>)
    ensures State(text, toolAccum, finishReason, ch) == Step(State(text0, tools0, finish0, ch0), chunk)
  {
    text, toolAccum, finishReason, ch := text0, tools0, finish0, ch0;
    if chunk.done {
      if chunk.usage.Some? {
        ch := ch + [UsageChunk(chunk.usage.value.input, chunk.usage.value.output, true)];
      }
      return;
    }
    if chunk.delta != "" {
      text := text + chunk.delta;
      ch := ch + [TextDelta(chunk.delta)];
    }
    if chunk.reasoning != "" {
      ch := ch + [ThinkingDelta(chunk.reasoning)];
    }
    toolAccum, ch := AccumulateTools(chunk.toolCalls, State(text, toolAccum, finishReason, ch));
    if chunk.finishReason != "" {
      finishReason := chunk.finishReason;
      ch := ch + [Finish(MapFinishReason(finishReason, |toolAccum| > 0), 0, 0)];
    }
  }

  /** The loop over one chunk's tool calls. */
  method AccumulateTools(tcs: seq<Flat.ToolCall>, s: State) returns (toolAccum: map<int, ToolAccum>, ch: seq<RichChunk>)
    ensures s.(tools := toolAccum, out := ch) == StepTools(s, tcs)
  {
    toolAccum, ch := s.tools, s.out;
    for k := 0 to |tcs|
      invariant s.(tools := toolAccum, out := ch) == StepTools(s, tcs[..k])
    {
      var tc := tcs[k];
      assert tcs[..k + 1][..k] == tcs[..k];
      var idx := if tc.index.Some? then tc.index.value else 0;
      var acc := if idx in toolAccum then toolAccum[idx] else ToolAccum("", "", "");
      if tc.id != "" {
        acc := acc.(id := tc.id);
      }
      if tc.name != "" {
        acc := acc.(name := tc.name);
      }
      acc := acc.(args := acc.args + tc.arguments);
      toolAccum := toolAccum[idx := acc];
      ch := ch + [ToolUseDelta(idx, tc.id, tc.name, tc.arguments)];
    }
    assert tcs[..|tcs|] == tcs;
  }

  /** The text, then the tools at 0..len-1, then the placeholder if there is neither. */
  method BuildContent(text: string, toolAccum: map<int, ToolAccum>) returns (content: seq<ContentBlock>)
    ensures content == OrPlaceholder(TextBlocks(text) + ToolBlocksBelow(toolAccum, |toolAccum|))
  {
    content := TextBlocks(text);
    for i := 0 to |toolAccum|
      invariant content == TextBlocks(text) + ToolBlocksBelow(toolAccum, i)
    {
      if i !in toolAccum {
        continue;
      }
      content := content + [ToolBlock(toolAccum[i])];
    }
    if content == [] {
      content := [PLACEHOLDER];
    }
  }

  // ---- The consumer's view: folding the emitted chunks only ----

  datatype View = View(text: string, tools: map<int, ToolAccum>)

  function Absorb(v: View, c: RichChunk): View {
    match c
    case TextDelta(t) => v.(text := v.text + t)
    case ToolUseDelta(index, id, name, fragment) => v.(tools := AddFragment(v.tools, index, id, name, fragment))
    case _ => v
  }

  function FoldChunks(out: seq<RichChunk>): View {
    if out == [] then View("", map[]) else Absorb(FoldChunks(out[..|out| - 1]), out[|out| - 1])
  }

  ghost predicate Agrees(s: State) {
    FoldChunks(s.out) == View(s.text, s.tools)
  }

  lemma {:induction false} FoldSnoc(out: seq<RichChunk>, c: RichChunk)
    ensures FoldChunks(out + [c]) == Absorb(FoldChunks(out), c)
  {
    assert (out + [c])[..|out|] == out;
  }

  lemma {:induction false} StepToolsAgrees(s: State, tcs: seq<Flat.ToolCall>)
    requires Agrees(s)
    ensures Agrees(StepTools(s, tcs))
  {
    if tcs != [] {
      var s1, tc := StepTools(s, tcs[..|tcs| - 1]), tcs[|tcs| - 1];
      StepToolsAgrees(s, tcs[..|tcs| - 1]);
      FoldSnoc(s1.out, ToolUseDelta(IndexOf(tc), tc.id, tc.name, tc.arguments));
    }
  }

  lemma {:induction false} SendAgrees(s: State, c: RichChunk)
    requires Agrees(s)
    ensures c.TextDelta? ==> Agrees(s.(text := s.text + c.text, out := s.out + [c]))
    ensures !c.TextDelta? && !c.ToolUseDelta? ==> Agrees(s.(out := s.out + [c]))
  {
    FoldSnoc(s.out, c);
  }

  lemma {:induction false} StepTextAgrees(s: State, c: Flat.FlatChunk)
    requires Agrees(s)
    ensures Agrees(StepText(s, c))
  {
    var s1 := if c.delta != "" then s.(text := s.text + c.delta, out := s.out + [TextDelta(c.delta)]) else s;
    SendAgrees(s, TextDelta(c.delta));
    SendAgrees(s1, ThinkingDelta(c.reasoning));
  }

  lemma {:induction false} StepFinishAgrees(s: State, c: Flat.FlatChunk)
    requires Agrees(s)
    ensures Agrees(StepFinish(s, c)) && Agrees(StepDone(s, c))
  {
    SendAgrees(s, Finish(MapFinishReason(c.finishReason, |s.tools| > 0), 0, 0));
    if c.usage.Some? {
      SendAgrees(s, UsageChunk(c.usage.value.input, c.usage.value.output, true));
    }
  }

  lemma {:induction false} StepAgrees(s: State, c: Flat.FlatChunk)
    requires Agrees(s)
    ensures Agrees(Step(s, c))
  {
    if c.done {
      StepFinishAgrees(s, c);
    } else {
      StepTextAgrees(s, c);
      StepToolsAgrees(StepText(s, c), c.toolCalls);
      StepFinishAgrees(StepTools(StepText(s, c), c.toolCalls), c);
    }
  }

  lemma {:induction false} RunAgrees(cs: seq<Flat.FlatChunk>)
    ensures Agrees(Run(cs))
  {
    if cs != [] {
      RunAgrees(cs[..|cs| - 1]);
      StepAgrees(Run(cs[..|cs| - 1]), cs[|cs| - 1]);
    }
  }

  // ---- Which tool calls survive in the final response ----

  predicate Ascending(ks: seq<int>) {
    forall i, j :: 0 <= i < j < |ks| ==> ks[i] < ks[j]
  }

  lemma {:induction false} HasLargest(s: set<int>) returns (m: int)
    requires s != {}
    ensures m in s && forall k :: k in s ==> k <= m
    decreases |s|
  {
    Q.NonEmptyHas(s);
    var x :| x in s;
    assert forall k :: k in s ==> k == x || k in s - {x};
    m := x;
    if s - {x} != {} {
      var rest := HasLargest(s - {x});
      m := if rest > x then rest else x;
    }
  }

  /** The members of a set in increasing order. */
  ghost function InOrder(s: set<int>): (ks: seq<int>)
    ensures Ascending(ks) && forall k :: k in ks <==> k in s
    decreases |s|
  {
    if s == {} then []
    else
      assert exists m :: m in s && forall k :: k in s ==> k <= m by { var m := HasLargest(s); }
      var m :| m in s && forall k :: k in s ==> k <= m;
      var front := InOrder(s - {m});
      assert forall i :: 0 <= i < |front| ==> front[i] in s - {m};
      front + [m]
  }

  /** The indices of the tool calls in a flat stream; calls on a `Done` chunk are not looked at. */
  function SeenIndices(cs: seq<Flat.FlatChunk>): set<int> {
    set c, tc | c in cs && !c.done && tc in c.toolCalls :: IndexOf(tc)
  }

  /** The blocks of the listed indices, in the order listed. */
  function BlocksAt(tools: map<int, ToolAccum>, ks: seq<int>): (r: seq<ContentBlock>)
    ensures |r| == |ks|
  {
    seq(|ks|, i requires 0 <= i < |ks| => ToolBlock(At(tools, ks[i])))
  }

  /** The listed indices that lie in [0, n). */
  function Within(ks: seq<int>, n: nat): (r: seq<int>)
    ensures forall k :: k in r <==> k in ks && 0 <= k < n
    ensures |r| <= |ks|
  {
    if ks == [] then []
    else
      Q.InSnoc(ks);
      Within(ks[..|ks| - 1], n) + if 0 <= ks[|ks| - 1] < n then [ks[|ks| - 1]] else []
  }

  lemma {:induction false} WithinKeepsAll(ks: seq<int>, n: nat)
    ensures if forall k :: k in ks ==> 0 <= k < n then Within(ks, n) == ks else |Within(ks, n)| < |ks|
  {
    if ks != [] {
      var front, last := ks[..|ks| - 1], ks[|ks| - 1];
      Q.InSnoc(ks);
      WithinKeepsAll(front, n);
      assert last in ks;
      if k :| k in ks && !(0 <= k < n) {
        assert k == last || k in front;
      } else {
        assert forall k :: k in front ==> k in ks;
        assert Within(front, n) == front && 0 <= last < n;
      }
    }
  }

  lemma {:induction false} WithinAscending(ks: seq<int>, n: nat)
    requires Ascending(ks)
    ensures Ascending(Within(ks, n))
  {
    if ks != [] {
      var front, last := ks[..|ks| - 1], ks[|ks| - 1];
      WithinAscending(front, n);
      forall i | 0 <= i < |Within(front, n)| ensures Within(front, n)[i] < last {
        assert Within(front, n)[i] in front;
      }
    }
  }

  /** In an increasing sequence the front holds everything but the last member. */
  lemma {:induction false} FrontLosesLast(ks: seq<int>)
    requires Ascending(ks) && ks != []
    ensures Ascending(ks[..|ks| - 1])
    ensures forall k :: k in ks[..|ks| - 1] <==> k in ks && k != ks[|ks| - 1]
    ensures forall k :: k in ks ==> k <= ks[|ks| - 1]
  {
    var front, last := ks[..|ks| - 1], ks[|ks| - 1];
    Q.InSnoc(ks);
    forall k | k in front ensures k < last {
      var i :| 0 <= i < |front| && front[i] == k;
      assert ks[i] < ks[|ks| - 1];
    }
  }

  /** A set has only one increasing sequence of its members. */
  lemma {:induction false} AscendingIsUnique(a: seq<int>, b: seq<int>)
    requires Ascending(a) && Ascending(b) && forall k :: k in a <==> k in b
    ensures a == b
  {
    Q.FirstIsIn(a);
    Q.FirstIsIn(b);
    if a != [] && b != [] {
      var k, m := a[|a| - 1], b[|b| - 1];
      FrontLosesLast(a);
      FrontLosesLast(b);
      Q.InSnoc(a);
      Q.InSnoc(b);
      assert k <= m && m <= k;
      var fa, fb := a[..|a| - 1], b[..|b| - 1];
      forall x ensures x in fa <==> x in fb {
        assert x in a <==> x in b;
      }
      AscendingIsUnique(fa, fb);
    }
  }

  /** The members of a set below n, found by walking 0..n-1. */
  ghost function Below(s: set<int>, n: nat): (r: seq<int>)
    ensures Ascending(r)
    ensures forall k :: k in r <==> k in s && 0 <= k < n
  {
    if n == 0 then []
    else
      var rest := Below(s, n - 1);
      assert forall k :: k in rest + [n - 1] <==> k in rest || k == n - 1;
      assert forall i :: 0 <= i < |rest| ==> rest[i] in rest;
      if n - 1 in s then rest + [n - 1] else rest
  }

  lemma {:induction false} BelowIsWithin(s: set<int>, n: nat)
    ensures Below(s, n) == Within(InOrder(s), n)
  {
    WithinAscending(InOrder(s), n);
    AscendingIsUnique(Below(s, n), Within(InOrder(s), n));
  }

  lemma {:induction false} BlocksOfWalk(tools: map<int, ToolAccum>, n: nat)
    ensures ToolBlocksBelow(tools, n) == BlocksAt(tools, Below(tools.Keys, n))
  {
    if n > 0 {
      var rest := Below(tools.Keys, n - 1);
      BlocksOfWalk(tools, n - 1);
      if n - 1 in tools {
        assert BlocksAt(tools, rest + [n - 1]) == BlocksAt(tools, rest) + [ToolBlock(tools[n - 1])];
      }
    }
  }

  lemma {:induction false} StepToolsSees(s: State, tcs: seq<Flat.ToolCall>)
    ensures forall k :: k in StepTools(s, tcs).tools <==> k in s.tools || exists tc :: tc in tcs && IndexOf(tc) == k
  {
    if tcs != [] {
      Q.InSnoc(tcs);
      StepToolsSees(s, tcs[..|tcs| - 1]);
    }
  }

  /** The tools accumulated are those whose index some tool call of the stream carries. */
  lemma {:induction false} ToolsAreSeen(cs: seq<Flat.FlatChunk>)
    ensures Run(cs).tools.Keys == SeenIndices(cs)
  {
    if cs != [] {
      var front, c := cs[..|cs| - 1], cs[|cs| - 1];
      Q.InSnoc(cs);
      ToolsAreSeen(front);
      StepToolsSees(StepText(Run(front), c), c.toolCalls);
      forall k ensures k in Run(cs).tools <==> k in SeenIndices(cs) {
        SeenSnoc(cs, k);
      }
    }
  }

  lemma {:induction false} SeenSnoc(cs: seq<Flat.FlatChunk>, k: int)
    requires cs != []
    ensures var c := cs[|cs| - 1];
            k in SeenIndices(cs) <==>
            k in SeenIndices(cs[..|cs| - 1]) || (!c.done && exists tc :: tc in c.toolCalls && IndexOf(tc) == k)
  {
    Q.InSnoc(cs);
  }

  /**
    The content is the consumer's view of the chunks, restricted to the tool indices below the
    number of those seen.
  */
  ghost predicate IsFoldOf(content: seq<ContentBlock>, out: seq<RichChunk>, seen: set<int>) {
    var v := FoldChunks(out);
    && v.tools.Keys == seen
    && content == OrPlaceholder(TextBlocks(v.text) + BlocksAt(v.tools, Within(InOrder(seen), |seen|)))
  }

  /** The final content of an error-free stream is the fold of the chunks that were sent. */
  lemma {:induction false} FinalIsFoldOfChunks(cs: seq<Flat.FlatChunk>)
    ensures IsFoldOf(FinalContent(Run(cs)), Run(cs).out, SeenIndices(cs))
  {
    var v := FoldChunks(Run(cs).out);
    RunAgrees(cs);
    ToolsAreSeen(cs);
    assert |v.tools| == |v.tools.Keys|;
    BlocksOfWalk(v.tools, |v.tools|);
    BelowIsWithin(v.tools.Keys, |v.tools|);
  }

  /** The indices seen are 0..n-1 for some n. */
  predicate Dense(seen: set<int>) {
    forall k :: k in seen ==> 0 <= k < |seen|
  }

  lemma {:induction false} WithinShowsAllIffDense(text: string, tools: map<int, ToolAccum>, ks: seq<int>, n: nat)
    ensures OrPlaceholder(TextBlocks(text) + BlocksAt(tools, Within(ks, n))) ==
            OrPlaceholder(TextBlocks(text) + BlocksAt(tools, ks))
            <==> forall k :: k in ks ==> 0 <= k < n
  {
    WithinKeepsAll(ks, n);
    if !(forall k :: k in ks ==> 0 <= k < n) {
      FewerBlocksShow(TextBlocks(text), BlocksAt(tools, Within(ks, n)), BlocksAt(tools, ks));
    }
  }

  /**
    The final content shows every tool call of the consumer's view exactly when the n distinct
    indices that the stream's tool calls carry are 0..n-1.
  */
  lemma {:induction false} AllToolsSurviveIffDense(cs: seq<Flat.FlatChunk>)
    ensures var v, seen := FoldChunks(Run(cs).out), SeenIndices(cs);
            && v.tools.Keys == seen
            && (FinalContent(Run(cs)) == OrPlaceholder(TextBlocks(v.text) + BlocksAt(v.tools, InOrder(seen)))
                <==> Dense(seen))
  {
    var v, seen := FoldChunks(Run(cs).out), SeenIndices(cs);
    FinalIsFoldOfChunks(cs);
    WithinShowsAllIffDense(v.text, v.tools, InOrder(seen), |seen|);
  }

  /** One call with index 1 and nothing else: the response has the placeholder and no tool. */
  lemma {:induction false} SparseToolIsLost(tc: Flat.ToolCall, c: Flat.FlatChunk)
    requires tc.index == Some(1) && c.toolCalls == [tc] && c.delta == "" && !c.done
    ensures FinalContent(Run([c])) == [TextBlock("[Provider returned no content]")]
  {
    assert [c][..0] == [] && [tc][..0] == [];
    assert Run([c]) == Step(INITIAL, c);
    assert StepTools(StepText(INITIAL, c), [tc]) == StepTool(StepText(INITIAL, c), tc);
    var tools := Run([c]).tools;
    assert tools.Keys == {1};
    assert |tools| == |tools.Keys| == 1;
    assert ToolBlocksBelow(tools, 1) == [];
  }

  /** Losing tool calls shows even behind the placeholder, which is a text block. */
  lemma {:induction false} FewerBlocksShow(t: seq<ContentBlock>, a: seq<ContentBlock>, b: seq<ContentBlock>)
    requires |a| < |b| && b[0].ToolUseBlock?
    ensures OrPlaceholder(t + a) != OrPlaceholder(t + b)
  {
    if t + a == [] {
      assert (t + b)[0] == b[0];
    }
  }

  // ---- One terminal chunk ----

  predicate Quiet(out: seq<RichChunk>) {
    forall i :: 0 <= i < |out| ==> !Terminal(out[i])
  }

  lemma {:induction false} StepToolsQuiet(s: State, tcs: seq<Flat.ToolCall>)
    requires Quiet(s.out)
    ensures Quiet(StepTools(s, tcs).out)
  {
    if tcs != [] {
      StepToolsQuiet(s, tcs[..|tcs| - 1]);
    }
  }

  lemma {:induction false} RunQuiet(cs: seq<Flat.FlatChunk>)
    requires forall i :: 0 <= i < |cs| ==> !Flat.Terminal(cs[i])
    ensures Quiet(Run(cs).out)
  {
    if cs != [] {
      var c := cs[|cs| - 1];
      RunQuiet(cs[..|cs| - 1]);
      StepToolsQuiet(StepText(Run(cs[..|cs| - 1]), c), c.toolCalls);
    }
  }

  /**
    A flat stream with one terminal chunk, its last, becomes a rich stream with one
    terminal chunk, its last, exactly when that flat chunk is an error or has a usage.
  */
  lemma {:induction false} OneTerminalIffErrorOrUsage(cs: seq<Flat.FlatChunk>)
    requires EndsOnce(cs, Flat.Terminal)
    ensures var last := cs[|cs| - 1];
            EndsOnce(Sent(cs), Terminal) <==> last.err.Some? || last.usage.Some?
  {
    var n := |cs| - 1;
    var last := cs[n];
    RunQuiet(cs[..n]);
    if last.err.Some? {
      BeforeErrorIs(cs, n);
    } else {
      BeforeErrorIs(cs, n + 1);
      assert Run(cs) == Step(Run(cs[..n]), last);
      if last.usage.None? && Run(cs).out != [] {
        assert !Terminal(Run(cs).out[|Run(cs).out| - 1]);
      }
    }
  }

  /** How the translation of a stream that ends once ends. */
  lemma {:induction false} EndDecides(cs: seq<Flat.FlatChunk>)
    requires EndsOnce(cs, Flat.Terminal)
    ensures BeforeError(cs) == if EndsInError(cs) then |cs| - 1 else |cs|
    ensures ErrorFree(cs) <==> !EndsInError(cs)
  {
    BeforeErrorIs(cs, if cs[|cs| - 1].err.Some? then |cs| - 1 else |cs|);
  }

  predicate EndsInError(cs: seq<Flat.FlatChunk>) {
    cs != [] && cs[|cs| - 1].err.Some?
  }

  predicate EndsInUsage(cs: seq<Flat.FlatChunk>) {
    cs != [] && cs[|cs| - 1].usage.Some?
  }

  lemma {:induction false} LastSent(cs: seq<Flat.FlatChunk>)
    requires EndsOnce(cs, Flat.Terminal) && (EndsInError(cs) || EndsInUsage(cs))
    ensures EndsOnce(Sent(cs), Terminal)
    ensures Sent(cs)[|Sent(cs)| - 1].ErrorChunk? <==> EndsInError(cs)
  {
    var n := |cs| - 1;
    EndDecides(cs);
    OneTerminalIffErrorOrUsage(cs);
    if cs[n].err.None? {
      assert Run(cs) == Step(Run(cs[..n]), cs[n]);
    }
  }

  /** The translation of a flat stream that ends once, in an error or a usage, is a rich result. */
  lemma {:induction false} TranslatedIsRichResult(cs: seq<Flat.FlatChunk>, usage: Flat.Usage)
    requires EndsOnce(cs, Flat.Terminal) && (EndsInError(cs) || EndsInUsage(cs))
    ensures IsRichResult(TranslatedLog(cs, usage), EndsInError(cs))
    ensures !EndsInError(cs) ==> Stored(TranslatedLog(cs, usage)) == Some(FinalResponse(Run(cs), usage))
  {
    LastSent(cs);
    EndDecides(cs);
    if EndsInError(cs) {
      FailedIsRichResult(Sent(cs));
    } else {
      LateIsRichResult(Sent(cs), FinalResponse(Run(cs), usage));
    }
  }

  /**
    A last flat chunk that is `Done` with a usage adds the terminal chunk and changes nothing in the
    final response.
  */
  lemma {:induction false} DoneTranslates(front: seq<Flat.FlatChunk>, u: Flat.Usage)
    requires forall i :: 0 <= i < |front| ==> !Flat.Terminal(front[i])
    ensures var cs := front + [Flat.DoneChunk(u)];
            && ErrorFree(cs) && Sent(cs) == Run(front).out + [UsageChunk(u.input, u.output, true)]
            && FinalResponse(Run(cs), u) == FinalResponse(Run(front), u)
  {
    var cs := front + [Flat.DoneChunk(u)];
    assert cs[..|front|] == front;
    BeforeErrorIs(cs, |cs|);
  }

  /** A last flat chunk that is an error is passed on. */
  lemma {:induction false} ErrorTranslates(front: seq<Flat.FlatChunk>, err: Error)
    requires forall i :: 0 <= i < |front| ==> !Flat.Terminal(front[i])
    ensures var cs := front + [Flat.ErrorChunk(err)];
            !ErrorFree(cs) && Sent(cs) == Run(front).out + [ErrorChunk(err)]
  {
    var cs := front + [Flat.ErrorChunk(err)];
    assert cs[..|front|] == front && cs[|front|].err.Some?;
    BeforeErrorIs(cs, |front|);
  }

  /** The consumer of the whole channel folds the same: the terminal chunk carries neither text nor tools. */
  lemma {:induction false} WholeChannelFolds(cs: seq<Flat.FlatChunk>, last: RichChunk)
    requires last.UsageChunk?
    ensures IsFoldOf(FinalContent(Run(cs)), Run(cs).out + [last], SeenIndices(cs))
  {
    FinalIsFoldOfChunks(cs);
    FoldSnoc(Run(cs).out, last);
  }

  /** The chunks of the provider that reach the flat channel. */
  function Reached(decode: Flat.Decoder, cancelled: Option<Error>, resp: Flat.Response): (cs: seq<Flat.FlatChunk>)
    ensures forall i :: 0 <= i < |cs| ==> !Flat.Terminal(cs[i])
  {
    if cancelled.Some? then [] else Flat.ForwardedAll(decode, resp.writes)
  }

  /**
    From the provider's response to the rich result: the flat stream is drained, its usage read
    after its close. The chunks that reached it are translated; then comes the error that ended
    it, or the usage and a final response that is the fold of everything sent.
  */
  method StreamTranslated(decode: Flat.Decoder, cancelled: Option<Error>, resp: Flat.Response) returns (log: RichLog)
    ensures IsRichResult(log, Flat.Fails(cancelled, resp))
    ensures Flat.Fails(cancelled, resp) ==>
              Chunks(log) == Run(Reached(decode, cancelled, resp)).out
                             + [ErrorChunk(if cancelled.Some? then cancelled.value else resp.err.value)]
    ensures !Flat.Fails(cancelled, resp) ==>
              var cs := Reached(decode, cancelled, resp);
              && Chunks(log) == Run(cs).out + [UsageChunk(resp.usage.input, resp.usage.output, true)]
              && Stored(log) == Some(FinalResponse(Run(cs), resp.usage))
              && IsFoldOf(Stored(log).value.content, Chunks(log), SeenIndices(cs))
  {
    var flatLog := Flat.StreamOnce(decode, cancelled, resp);
    var flat, usage := Chunks(flatLog), Stored(flatLog);
    ghost var cs := Reached(decode, cancelled, resp);
    FlatStreamIs(decode, cancelled, resp);
    log := Translate(flat, if usage.Some? then usage.value else Flat.Usage(0, 0));
    if Flat.Fails(cancelled, resp) {
      var err := if cancelled.Some? then cancelled.value else resp.err.value;
      ErrorTranslates(cs, err);
      FailedLogMeans<RichChunk, RichResponse>(Run(cs).out + [ErrorChunk(err)]);
    } else {
      DoneTranslates(cs, resp.usage);
      LateLogMeans(Run(cs).out + [UsageChunk(resp.usage.input, resp.usage.output, true)],
        FinalResponse(Run(cs), resp.usage));
      WholeChannelFolds(cs, UsageChunk(resp.usage.input, resp.usage.output, true));
    }
  }

  /** The flat stream that is drained: what reached it, and how it ended. */
  lemma {:induction false} FlatStreamIs(decode: Flat.Decoder, cancelled: Option<Error>, resp: Flat.Response)
    ensures var log, cs := Flat.FlatLog(decode, cancelled, resp), Reached(decode, cancelled, resp);
            && (Flat.Fails(cancelled, resp) ==>
                  Chunks(log) == cs + [Flat.ErrorChunk(if cancelled.Some? then cancelled.value else resp.err.value)])
            && (!Flat.Fails(cancelled, resp) ==>
                  Chunks(log) == cs + [Flat.DoneChunk(resp.usage)] && Stored(log) == Some(resp.usage))
            && TranslatedEnds(Chunks(log), if Stored(log).Some? then Stored(log).value else Flat.Usage(0, 0),
                              Flat.Fails(cancelled, resp))
  {
    var cs := Reached(decode, cancelled, resp);
    Flat.FlatStreamEndsOnce(decode, cancelled, resp);
    if Flat.Fails(cancelled, resp) {
      var err := if cancelled.Some? then cancelled.value else resp.err.value;
      FailedLogMeans<Flat.FlatChunk, Flat.Usage>(cs + [Flat.ErrorChunk(err)]);
    } else {
      EarlyLogMeans(cs, resp.usage, Flat.DoneChunk(resp.usage));
    }
    var log := Flat.FlatLog(decode, cancelled, resp);
    TranslatedIsRichResult(Chunks(log), if Stored(log).Some? then Stored(log).value else Flat.Usage(0, 0));
  }

  /** The translation is a rich result, failed or not as given. */
  predicate TranslatedEnds(cs: seq<Flat.FlatChunk>, usage: Flat.Usage, failed: bool) {
    IsRichResult(TranslatedLog(cs, usage), failed)
  }

  // ---- The stop reason ----

  function LastFinish(out: seq<RichChunk>): Option<string> {
    if out == [] then None
    else if out[|out| - 1].Finish? then Some(out[|out| - 1].reason)
    else LastFinish(out[..|out| - 1])
  }

  predicate HasTools(cs: seq<Flat.FlatChunk>) {
    exists i :: 0 <= i < |cs| && !cs[i].done && cs[i].toolCalls != []
  }

  lemma {:induction false} LastFinishSnoc(out: seq<RichChunk>, c: RichChunk)
    ensures LastFinish(out + [c]) == if c.Finish? then Some(c.reason) else LastFinish(out)
  {
    assert (out + [c])[..|out|] == out;
  }

  lemma {:induction false} StepToolsKeepsFinish(s: State, tcs: seq<Flat.ToolCall>)
    ensures StepTools(s, tcs).finish == s.finish
    ensures LastFinish(StepTools(s, tcs).out) == LastFinish(s.out)
    ensures |StepTools(s, tcs).tools| > 0 <==> |s.tools| > 0 || tcs != []
  {
    if tcs != [] {
      var s1, tc := StepTools(s, tcs[..|tcs| - 1]), tcs[|tcs| - 1];
      StepToolsKeepsFinish(s, tcs[..|tcs| - 1]);
      LastFinishSnoc(s1.out, ToolUseDelta(IndexOf(tc), tc.id, tc.name, tc.arguments));
      assert IndexOf(tc) in StepTools(s, tcs).tools;
    }
  }

  lemma {:induction false} StepTextKeepsFinish(s: State, c: Flat.FlatChunk)
    ensures var r := StepText(s, c);
            r.finish == s.finish && r.tools == s.tools && LastFinish(r.out) == LastFinish(s.out)
  {
    LastFinishSnoc(s.out, TextDelta(c.delta));
    LastFinishSnoc(s.out, ThinkingDelta(c.reasoning));
    LastFinishSnoc(s.out + [TextDelta(c.delta)], ThinkingDelta(c.reasoning));
  }

  lemma {:induction false} StepDoneKeepsFinish(s: State, c: Flat.FlatChunk)
    ensures var r := StepDone(s, c);
            r.finish == s.finish && r.tools == s.tools && LastFinish(r.out) == LastFinish(s.out)
  {
    if c.usage.Some? {
      LastFinishSnoc(s.out, UsageChunk(c.usage.value.input, c.usage.value.output, true));
    }
  }

  lemma {:induction false} StepFinishSets(s: State, c: Flat.FlatChunk)
    ensures StepFinish(s, c).tools == s.tools
    ensures StepFinish(s, c).finish == if c.finishReason == "" then s.finish else c.finishReason
    ensures LastFinish(StepFinish(s, c).out) ==
            if c.finishReason == "" then LastFinish(s.out) else Some(MapFinishReason(c.finishReason, |s.tools| > 0))
  {
    LastFinishSnoc(s.out, Finish(MapFinishReason(c.finishReason, |s.tools| > 0), 0, 0));
  }

  lemma {:induction false} StepFinishFacts(s: State, c: Flat.FlatChunk)
    ensures |Step(s, c).tools| > 0 <==> |s.tools| > 0 || (!c.done && c.toolCalls != [])
    ensures Step(s, c).finish == if c.done || c.finishReason == "" then s.finish else c.finishReason
    ensures LastFinish(Step(s, c).out) ==
            if c.done || c.finishReason == "" then LastFinish(s.out)
            else Some(MapFinishReason(c.finishReason, |Step(s, c).tools| > 0))
  {
    if c.done {
      StepDoneKeepsFinish(s, c);
    } else {
      StepTextKeepsFinish(s, c);
      StepToolsKeepsFinish(StepText(s, c), c.toolCalls);
      StepFinishSets(StepTools(StepText(s, c), c.toolCalls), c);
    }
  }

  lemma {:induction false} HasToolsIff(cs: seq<Flat.FlatChunk>)
    ensures |Run(cs).tools| > 0 <==> HasTools(cs)
  {
    if cs != [] {
      var front, c := cs[..|cs| - 1], cs[|cs| - 1];
      HasToolsIff(front);
      StepFinishFacts(Run(front), c);
      if i :| 0 <= i < |front| && !front[i].done && front[i].toolCalls != [] {
        assert cs[i] == front[i];
      }
    }
  }

  lemma {:induction false} HasToolsSplit(cs: seq<Flat.FlatChunk>, k: nat)
    requires k <= |cs|
    ensures HasTools(cs) <==> HasTools(cs[..k]) || HasTools(cs[k..])
  {
    if i :| 0 <= i < |cs| && !cs[i].done && cs[i].toolCalls != [] {
      if i < k { assert cs[..k][i] == cs[i]; } else { assert cs[k..][i - k] == cs[i]; }
    }
  }

  /** Chunks without a finish reason leave the last one as it was. */
  lemma {:induction false} LaterChunksKeepFinish(cs: seq<Flat.FlatChunk>, k: nat)
    requires k <= |cs| && forall i :: k <= i < |cs| ==> cs[i].done || cs[i].finishReason == ""
    ensures Run(cs).finish == Run(cs[..k]).finish
    ensures LastFinish(Run(cs).out) == LastFinish(Run(cs[..k]).out)
  {
    if k == |cs| {
      assert cs[..k] == cs;
    } else {
      var front := cs[..|cs| - 1];
      LaterChunksKeepFinish(front, k);
      assert front[..k] == cs[..k];
      StepFinishFacts(Run(front), cs[|cs| - 1]);
    }
  }

  lemma {:induction false} OnlyUnknownReasonsGuess(finish: string)
    ensures MapFinishReason(finish, true) == MapFinishReason(finish, false) <==> KnownFinish(finish)
  {
    assert |"tool_use"| == |"end_turn"| && "tool_use"[0] != "end_turn"[0];
  }

  /**
    The final stop reason is the reason of the last Finish chunk, unless that reason
    was a guess made before the first tool call arrived: the provider's reason is
    not one of the three known ones, no tool call came with or before it, and one came later.
  */
  lemma {:induction false} StopReasonIffNoLateTool(cs: seq<Flat.FlatChunk>, k: nat)
    requires k < |cs| && !cs[k].done && cs[k].finishReason != ""
    requires forall i :: k < i < |cs| ==> cs[i].done || cs[i].finishReason == ""
    ensures Some(FinalStopReason(Run(cs))) == LastFinish(Run(cs).out)
            <==> KnownFinish(cs[k].finishReason) || HasTools(cs[..k + 1]) || !HasTools(cs[k + 1..])
  {
    var finish := cs[k].finishReason;
    LastReasonSent(cs, k);
    HasToolsIff(cs);
    HasToolsSplit(cs, k + 1);
    OnlyUnknownReasonsGuess(finish);
    assert FinalStopReason(Run(cs)) == MapFinishReason(finish, HasTools(cs));
  }

  lemma {:induction false} LastReasonSent(cs: seq<Flat.FlatChunk>, k: nat)
    requires k < |cs| && !cs[k].done && cs[k].finishReason != ""
    requires forall i :: k < i < |cs| ==> cs[i].done || cs[i].finishReason == ""
    ensures LastFinish(Run(cs).out) == Some(MapFinishReason(cs[k].finishReason, HasTools(cs[..k + 1])))
    ensures Run(cs).finish == cs[k].finishReason
  {
    RunSnoc(cs, k);
    StepFinishFacts(Run(cs[..k]), cs[k]);
    LaterChunksKeepFinish(cs, k + 1);
    HasToolsIff(cs[..k + 1]);
  }

  /** A reason sent before the first tool call, and not one of the known ones, is not the final one. */
  lemma {:induction false} LateToolExample(finish: Flat.FlatChunk, tool: Flat.FlatChunk)
    requires !finish.done && finish.finishReason == "content_filter" && finish.toolCalls == []
    requires !tool.done && tool.finishReason == "" && tool.toolCalls != []
    ensures FinalStopReason(Run([finish, tool])) == "tool_use"
            && LastFinish(Run([finish, tool]).out) == Some("end_turn")
  {
    var cs := [finish, tool];
    assert cs[..1] == [finish] && cs[1..] == [tool];
    assert cs[1] == tool && [tool][0] == tool;
    LastReasonSent(cs, 0);
    HasToolsIff(cs);
    assert HasTools(cs);
    assert !HasTools([finish]);
  }
}
