/**
  What the translated rich stream (relay/rich.go) makes of a flat stream, said of the flat chunks
  alone: the chunks it sends for each, the text, the tool calls put together and the final response.
*/
module Translation {
  import opened Options
  import opened Messages
  import opened RichStream
  import Q = Seqs
  import Flat = ChatStream

  // ---- The chunks sent ----

  function ToolDeltas(tcs: seq<Flat.ToolCall>): (out: seq<RichChunk>)
    ensures |out| == |tcs|
    ensures forall i :: 0 <= i < |tcs| ==>
              out[i] == ToolUseDelta(match tcs[i].index case Some(k) => k case None => 0,
                                     tcs[i].id, tcs[i].name, tcs[i].arguments)
  {
    seq(|tcs|, i requires 0 <= i < |tcs| =>
      ToolUseDelta(match tcs[i].index case Some(k) => k case None => 0, tcs[i].id, tcs[i].name, tcs[i].arguments))
  }

  /** The provider's text first, then its reasoning, its tool calls and its finish reason; nothing that is empty. */
  function SentFor(c: Flat.FlatChunk, hasTools: bool): seq<RichChunk> {
    if c.done then
      match c.usage case Some(u) => [UsageChunk(u.input, u.output, true)] case None => []
    else
      (if c.delta == "" then [] else [TextDelta(c.delta)])
      + (if c.reasoning == "" then [] else [ThinkingDelta(c.reasoning)])
      + ToolDeltas(c.toolCalls)
      + (if c.finishReason == "" then [] else [Finish(MapFinishReason(c.finishReason, hasTools), 0, 0)])
  }

  /** All of them in order; a finish reason is translated by the tools seen up to its chunk. */
  function AllSent(cs: seq<Flat.FlatChunk>): seq<RichChunk> {
    if cs == [] then [] else AllSent(cs[..|cs| - 1]) + SentFor(cs[|cs| - 1], HasTools(cs))
  }

  lemma {:induction false} StepToolsSends(s: State, tcs: seq<Flat.ToolCall>)
    ensures StepTools(s, tcs).out == s.out + ToolDeltas(tcs)
  {
    if tcs == [] {
      assert s.out + [] == s.out;
    } else {
      var front, tc := tcs[..|tcs| - 1], tcs[|tcs| - 1];
      StepToolsSends(s, front);
      assert ToolDeltas(tcs) == ToolDeltas(front) + [ToolUseDelta(IndexOf(tc), tc.id, tc.name, tc.arguments)];
    }
  }

  lemma {:induction false} StepTextSends(s: State, c: Flat.FlatChunk)
    ensures StepText(s, c).out == s.out + (if c.delta == "" then [] else [TextDelta(c.delta)])
                                  + (if c.reasoning == "" then [] else [ThinkingDelta(c.reasoning)])
  {
  }

  lemma {:induction false} StepSends(s: State, c: Flat.FlatChunk)
    ensures Step(s, c).out == s.out + SentFor(c, |Step(s, c).tools| > 0)
  {
    if !c.done {
      var s1 := StepText(s, c);
      var s2 := StepTools(s1, c.toolCalls);
      var text := if c.delta == "" then [] else [TextDelta(c.delta)];
      var thought := if c.reasoning == "" then [] else [ThinkingDelta(c.reasoning)];
      var finish := if c.finishReason == "" then []
                    else [Finish(MapFinishReason(c.finishReason, |s2.tools| > 0), 0, 0)];
      StepTextSends(s, c);
      StepToolsSends(s1, c.toolCalls);
      assert StepFinish(s2, c).out == s2.out + finish;
      FourParts(s.out, text, thought, ToolDeltas(c.toolCalls), finish);
    }
  }

  lemma {:induction false} FourParts<T>(x: seq<T>, a: seq<T>, b: seq<T>, c: seq<T>, d: seq<T>)
    ensures x + (a + b + c + d) == x + a + b + c + d
  {
  }

  /** Everything sent for a flat stream without errors. */
  lemma {:induction false} SendsAll(cs: seq<Flat.FlatChunk>)
    ensures Run(cs).out == AllSent(cs)
  {
    if cs != [] {
      SendsAll(cs[..|cs| - 1]);
      StepSends(Run(cs[..|cs| - 1]), cs[|cs| - 1]);
      HasToolsIff(cs);
    }
  }

  // ---- The text ----

  /** What the provider said: all its deltas. */
  function Said(cs: seq<Flat.FlatChunk>): string {
    if cs == [] then "" else Said(cs[..|cs| - 1]) + if cs[|cs| - 1].done then "" else cs[|cs| - 1].delta
  }

  lemma {:induction false} StepToolsKeepsRest(s: State, tcs: seq<Flat.ToolCall>)
    ensures StepTools(s, tcs).text == s.text && StepTools(s, tcs).finish == s.finish
  {
    if tcs != [] {
      StepToolsKeepsRest(s, tcs[..|tcs| - 1]);
    }
  }

  lemma {:induction false} TextIsSaid(cs: seq<Flat.FlatChunk>)
    ensures Run(cs).text == Said(cs)
  {
    if cs != [] {
      var front, c := cs[..|cs| - 1], cs[|cs| - 1];
      TextIsSaid(front);
      StepToolsKeepsRest(StepText(Run(front), c), c.toolCalls);
      assert Said(front) + "" == Said(front);
    }
  }

  // ---- The tool calls ----

  /** All tool calls of a flat stream, in order; those on a `Done` chunk are not looked at. */
  function CallsIn(cs: seq<Flat.FlatChunk>): seq<Flat.ToolCall> {
    if cs == [] then [] else CallsIn(cs[..|cs| - 1]) + if cs[|cs| - 1].done then [] else cs[|cs| - 1].toolCalls
  }

  /** A call is for its index, or for 0 when it has none. */
  predicate IsFor(tc: Flat.ToolCall, k: int) {
    tc.index == Some(k) || (tc.index == None && k == 0)
  }

  function ArgumentsFor(calls: seq<Flat.ToolCall>, k: int): string {
    if calls == [] then ""
    else
      var tc := calls[|calls| - 1];
      ArgumentsFor(calls[..|calls| - 1], k) + if IsFor(tc, k) then tc.arguments else ""
  }

  /** The last id given for the index. */
  function LastId(calls: seq<Flat.ToolCall>, k: int): string {
    if calls == [] then ""
    else
      var tc := calls[|calls| - 1];
      if IsFor(tc, k) && tc.id != "" then tc.id else LastId(calls[..|calls| - 1], k)
  }

  function LastName(calls: seq<Flat.ToolCall>, k: int): string {
    if calls == [] then ""
    else
      var tc := calls[|calls| - 1];
      if IsFor(tc, k) && tc.name != "" then tc.name else LastName(calls[..|calls| - 1], k)
  }

  /** What the calls for an index come to. */
  function PutTogether(calls: seq<Flat.ToolCall>, k: int): ToolAccum {
    ToolAccum(LastId(calls, k), LastName(calls, k), ArgumentsFor(calls, k))
  }

  lemma {:induction false} PutTogetherSnoc(calls: seq<Flat.ToolCall>, tc: Flat.ToolCall, k: int)
    ensures PutTogether(calls + [tc], k) ==
            if IsFor(tc, k) then Fragment(PutTogether(calls, k), tc.id, tc.name, tc.arguments)
            else PutTogether(calls, k)
  {
    assert (calls + [tc])[..|calls|] == calls;
    assert ArgumentsFor(calls, k) + "" == ArgumentsFor(calls, k);
  }

  lemma {:induction false} StepToolAt(s: State, tc: Flat.ToolCall, k: int)
    ensures At(StepTool(s, tc).tools, k) ==
            if IsFor(tc, k) then Fragment(At(s.tools, k), tc.id, tc.name, tc.arguments) else At(s.tools, k)
  {
  }

  lemma {:induction false} StepToolsPuts(s: State, calls: seq<Flat.ToolCall>, tcs: seq<Flat.ToolCall>, k: int)
    requires At(s.tools, k) == PutTogether(calls, k)
    ensures At(StepTools(s, tcs).tools, k) == PutTogether(calls + tcs, k)
  {
    if tcs == [] {
      assert calls + tcs == calls;
    } else {
      var front, tc := tcs[..|tcs| - 1], tcs[|tcs| - 1];
      StepToolsPuts(s, calls, front, k);
      assert tcs == front + [tc];
      Q.Associates(calls, front, [tc]);
      PutTogetherSnoc(calls + front, tc, k);
      StepToolAt(StepTools(s, front), tc, k);
    }
  }

  /** The tool of an index has the last id and name given for it, and all its arguments in order. */
  lemma {:induction false} ToolsArePutTogether(cs: seq<Flat.FlatChunk>, k: int)
    ensures At(Run(cs).tools, k) == PutTogether(CallsIn(cs), k)
  {
    if cs != [] {
      var front, c := cs[..|cs| - 1], cs[|cs| - 1];
      ToolsArePutTogether(front, k);
      assert CallsIn(front) + [] == CallsIn(front);
      if !c.done {
        StepToolsPuts(StepText(Run(front), c), CallsIn(front), c.toolCalls, k);
      }
    }
  }

  lemma {:induction false} SeenIffCalled(cs: seq<Flat.FlatChunk>, k: int)
    ensures k in SeenIndices(cs) <==> exists tc :: tc in CallsIn(cs) && IsFor(tc, k)
  {
    if cs != [] {
      var front, c := cs[..|cs| - 1], cs[|cs| - 1];
      SeenIffCalled(front, k);
      SeenSnoc(cs, k);
      assert forall tc :: IndexOf(tc) == k <==> IsFor(tc, k);
      if c.done {
        assert CallsIn(cs) == CallsIn(front);
      } else {
        assert forall tc :: tc in CallsIn(cs) <==> tc in CallsIn(front) || tc in c.toolCalls;
      }
    }
  }

  // ---- The consumer's view and the final response ----

  /** Folding the chunks that were sent gives what the provider said and called. */
  lemma {:induction false} FoldIsWhatWasSaid(cs: seq<Flat.FlatChunk>, k: int)
    ensures var v := FoldChunks(AllSent(cs));
            && v.text == Said(cs) && At(v.tools, k) == PutTogether(CallsIn(cs), k)
            && (k in v.tools <==> exists tc :: tc in CallsIn(cs) && IsFor(tc, k))
  {
    SendsAll(cs);
    RunAgrees(cs);
    TextIsSaid(cs);
    ToolsArePutTogether(cs, k);
    ToolsAreSeen(cs);
    SeenIffCalled(cs, k);
  }

  /** The tool uses that the calls for these indices come to. */
  function CalledBlocks(calls: seq<Flat.ToolCall>, ks: seq<int>): (r: seq<ContentBlock>)
    ensures |r| == |ks|
    ensures forall i :: 0 <= i < |ks| ==>
              r[i] == ToolUseBlock(LastId(calls, ks[i]), LastName(calls, ks[i]),
                                   NormalizedInput(ArgumentsFor(calls, ks[i])))
  {
    seq(|ks|, i requires 0 <= i < |ks| =>
      ToolUseBlock(LastId(calls, ks[i]), LastName(calls, ks[i]), NormalizedInput(ArgumentsFor(calls, ks[i]))))
  }

  /** The provider's reason to stop: the last one it gave. */
  function LastReason(cs: seq<Flat.FlatChunk>): string {
    if cs == [] then ""
    else
      var c := cs[|cs| - 1];
      if !c.done && c.finishReason != "" then c.finishReason else LastReason(cs[..|cs| - 1])
  }

  lemma {:induction false} FinishIsLastReason(cs: seq<Flat.FlatChunk>)
    ensures Run(cs).finish == LastReason(cs)
  {
    if cs != [] {
      FinishIsLastReason(cs[..|cs| - 1]);
      StepFinishFacts(Run(cs[..|cs| - 1]), cs[|cs| - 1]);
    }
  }

  /** How the reasons of the flat vocabulary are translated; any other reason is a guess from the tools seen. */
  lemma {:induction false} ReasonTable(reason: string, hasTools: bool)
    ensures MapFinishReason("tool_calls", hasTools) == "tool_use"
    ensures MapFinishReason("length", hasTools) == "max_tokens"
    ensures MapFinishReason("stop", hasTools) == "end_turn"
    ensures reason !in ["tool_calls", "length", "stop"] ==>
              MapFinishReason(reason, hasTools) == if hasTools then "tool_use" else "end_turn"
  {
    assert "length"[0] != "tool_calls"[0] && "stop"[0] != "tool_calls"[0] && "stop"[0] != "length"[0];
    assert reason in ["tool_calls", "length", "stop"] <==>
           reason == "tool_calls" || reason == "length" || reason == "stop" by {
      var known := ["tool_calls", "length", "stop"];
      assert known[0] == "tool_calls" && known[1] == "length" && known[2] == "stop";
    }
  }

  /**
    The final response, field by field: what the provider said as one text block, its tool calls
    at the indices below the number of those it used, its last reason, and its token counts.
  */
  lemma {:induction false} FinalIsWhatWasSaid(cs: seq<Flat.FlatChunk>, u: Flat.Usage)
    ensures var r, seen := FinalResponse(Run(cs), u), SeenIndices(cs);
            && r.content == OrPlaceholder((if Said(cs) == "" then [] else [TextBlock(Said(cs))])
                                          + CalledBlocks(CallsIn(cs), Within(InOrder(seen), |seen|)))
            && r.stopReason == MapFinishReason(LastReason(cs), HasTools(cs))
            && r.inputTokens == u.input && r.outputTokens == u.output
            && r.id == "" && r.model == "" && r.cacheRead == 0 && r.cacheCreation == 0
  {
    var v, seen := FoldChunks(Run(cs).out), SeenIndices(cs);
    var ks := Within(InOrder(seen), |seen|);
    FinalIsFoldOfChunks(cs);
    RunAgrees(cs);
    TextIsSaid(cs);
    FinishIsLastReason(cs);
    HasToolsIff(cs);
    forall i | 0 <= i < |ks| ensures BlocksAt(v.tools, ks)[i] == CalledBlocks(CallsIn(cs), ks)[i] {
      ToolsArePutTogether(cs, ks[i]);
    }
    assert BlocksAt(v.tools, ks) == CalledBlocks(CallsIn(cs), ks);
  }
}
