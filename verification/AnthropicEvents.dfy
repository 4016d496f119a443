/**
  What the native rich stream (relay/anthropic_stream.go) makes of its events, said of the events
  alone: the scalars of the response, the chunk sent for each event, and the final blocks.
*/
module AnthropicEvents {
  import opened Options
  import opened Messages
  import opened AnthropicStream

  // ---- The scalars: each is given by the last event that carries it ----

  function StopReasonOf(evs: seq<Event>): string {
    if evs == [] then ""
    else
      match evs[|evs| - 1]
      case MessageDelta(Some(reason), _) => reason
      case _ => StopReasonOf(evs[..|evs| - 1])
  }

  function IdOf(evs: seq<Event>): string {
    if evs == [] then ""
    else
      match evs[|evs| - 1]
      case MessageStart(Some(MessageInfo(id, _, _))) => id
      case _ => IdOf(evs[..|evs| - 1])
  }

  function ModelOf(evs: seq<Event>): string {
    if evs == [] then ""
    else
      match evs[|evs| - 1]
      case MessageStart(Some(MessageInfo(_, model, _))) => model
      case _ => ModelOf(evs[..|evs| - 1])
  }

  /** Input tokens come with a message only. */
  function InputTokensOf(evs: seq<Event>): int {
    if evs == [] then 0
    else
      match evs[|evs| - 1]
      case MessageStart(Some(MessageInfo(_, _, Some(u)))) => u.input
      case _ => InputTokensOf(evs[..|evs| - 1])
  }

  function OutputTokensOf(evs: seq<Event>): int {
    if evs == [] then 0
    else
      match evs[|evs| - 1]
      case MessageStart(Some(MessageInfo(_, _, Some(u)))) => u.output
      case MessageDelta(_, Some(u)) => u.output
      case _ => OutputTokensOf(evs[..|evs| - 1])
  }

  /** A message sets the cache counts; a later usage replaces them only by positive ones. */
  function CacheReadOf(evs: seq<Event>): int {
    if evs == [] then 0
    else
      match evs[|evs| - 1]
      case MessageStart(Some(MessageInfo(_, _, Some(u)))) => u.cacheRead
      case MessageDelta(_, Some(u)) => if u.cacheRead > 0 then u.cacheRead else CacheReadOf(evs[..|evs| - 1])
      case _ => CacheReadOf(evs[..|evs| - 1])
  }

  function CacheCreationOf(evs: seq<Event>): int {
    if evs == [] then 0
    else
      match evs[|evs| - 1]
      case MessageStart(Some(MessageInfo(_, _, Some(u)))) => u.cacheCreation
      case MessageDelta(_, Some(u)) =>
        if u.cacheCreation > 0 then u.cacheCreation else CacheCreationOf(evs[..|evs| - 1])
      case _ => CacheCreationOf(evs[..|evs| - 1])
  }

  /** The response so far, without its content. */
  function ScalarsOf(evs: seq<Event>): RichResponse {
    RichResponse(IdOf(evs), ModelOf(evs), [], StopReasonOf(evs), InputTokensOf(evs), OutputTokensOf(evs),
                 CacheReadOf(evs), CacheCreationOf(evs))
  }

  lemma {:induction false} ScalarsAreLast(evs: seq<Event>)
    ensures Run(evs).final == ScalarsOf(evs)
  {
    if evs != [] {
      ScalarsAreLast(evs[..|evs| - 1]);
    }
  }

  // ---- The chunks ----

  predicate IsKind(start: Option<Start>, kind: string) {
    start.Some? && start.value.kind == kind
  }

  /** What is sent for the last of these events. */
  function SentForLast(evs: seq<Event>): seq<RichChunk>
    requires evs != []
  {
    match evs[|evs| - 1]
    case MessageStart(_) => [UsageChunk(InputTokensOf(evs), OutputTokensOf(evs), false)]
    case MessageDelta(_, _) => [Finish(StopReasonOf(evs), InputTokensOf(evs), OutputTokensOf(evs))]
    case BlockDelta(Some(_), Some(TextPart(text))) => [TextDelta(text)]
    case BlockDelta(Some(_), Some(ThinkingPart(thinking))) => [ThinkingDelta(thinking)]
    case BlockDelta(Some(i), Some(InputPart(json))) =>
      var start := Since(evs[..|evs| - 1], i).0;
      if IsKind(start, "tool_use") then [ToolUseDelta(i, start.value.id, start.value.name, json)]
      else [ToolUseDelta(i, "", "", json)]
    case _ => []
  }

  function AllSent(evs: seq<Event>): seq<RichChunk> {
    if evs == [] then [] else AllSent(evs[..|evs| - 1]) + SentForLast(evs)
  }

  // ---- The blocks ----

  /** A block of the final response: what its start event gave, followed by the deltas since. */
  function FinalBlock(start: Option<Start>, ds: seq<Delta>): seq<ContentBlock> {
    if start.None? then []
    else
      var s := start.value;
      if s.kind == "text" then
        if s.text + TextOfDeltas(ds) == "" then [] else [TextBlock(s.text + TextOfDeltas(ds))]
      else if s.kind == "tool_use" then
        [ToolUseBlock(s.id, s.name, NormalizedInput(s.input + InputOfDeltas(ds)))]
      else if s.kind == "thinking" then
        [ThinkingBlock(s.thinking + ThinkingOfDeltas(ds), SignatureOfDeltas(ds, s.signature))]
      else []
  }

  /** The id and name of a block are those of a tool use, and empty otherwise. */
  lemma {:induction false} BlockIsNamed(evs: seq<Event>, i: int)
    ensures var b, start := BlockAt(Run(evs).blocks, i), Since(evs, i).0;
            && b.id == (if IsKind(start, "tool_use") then start.value.id else "")
            && b.name == (if IsKind(start, "tool_use") then start.value.name else "")
  {
    BuffersAreLastStartThenDeltas(evs, i);
    KindsDiffer();
  }

  lemma {:induction false} KindsDiffer()
    ensures "tool_use" != "thinking" && "tool_use" != "text" && "thinking" != "text"
  {
    assert "text"[1] == 'e' && "tool_use"[1] == 'o' && "thinking"[1] == 'h';
  }

  lemma {:induction false} RenderedIs(evs: seq<Event>, i: int)
    ensures i in Run(evs).blocks ==> Render(Run(evs).blocks[i]) == FinalBlock(Since(evs, i).0, Since(evs, i).1)
    ensures i !in Run(evs).blocks ==> FinalBlock(Since(evs, i).0, Since(evs, i).1) == []
  {
    BuffersAreLastStartThenDeltas(evs, i);
    KindsDiffer();
  }

  function Flatten<T>(parts: seq<seq<T>>): seq<T> {
    if parts == [] then [] else Flatten(parts[..|parts| - 1]) + parts[|parts| - 1]
  }

  /** What the indices 0, 1 and so on give. */
  function Parts(evs: seq<Event>, n: nat): (parts: seq<seq<ContentBlock>>)
    ensures |parts| == n
    ensures forall i :: 0 <= i < n ==> parts[i] == FinalBlock(Since(evs, i).0, Since(evs, i).1)
  {
    seq(n, i requires 0 <= i < n => FinalBlock(Since(evs, i).0, Since(evs, i).1))
  }

  /** The blocks of the indices in [0, n), in index order. */
  function FinalBlocks(evs: seq<Event>, n: nat): seq<ContentBlock> {
    Flatten(Parts(evs, n))
  }

  /** The parts are the rendered blocks, and empty where there is no block. */
  predicate Renders(blocks: map<int, Block>, parts: seq<seq<ContentBlock>>) {
    forall i :: 0 <= i < |parts| ==> parts[i] == if i in blocks then Render(blocks[i]) else []
  }

  lemma {:induction false} RenderedParts(blocks: map<int, Block>, parts: seq<seq<ContentBlock>>)
    requires Renders(blocks, parts)
    ensures BlocksBelow(blocks, |parts|) == Flatten(parts)
  {
    if parts != [] {
      RenderedParts(blocks, parts[..|parts| - 1]);
    }
  }

  lemma {:induction false} BlocksAre(evs: seq<Event>, n: nat)
    ensures BlocksBelow(Run(evs).blocks, n) == FinalBlocks(evs, n)
  {
    var blocks, parts := Run(evs).blocks, Parts(evs, n);
    forall i | 0 <= i < n ensures parts[i] == if i in blocks then Render(blocks[i]) else [] {
      RenderedIs(evs, i);
    }
    RenderedParts(blocks, parts);
  }

  function IndexIn(e: Event): Option<int> {
    match e
    case BlockStart(index, _) => index
    case BlockDelta(index, _) => index
    case _ => None
  }

  /** No event of the stream carries an index from n on. */
  predicate IndicesBelow(evs: seq<Event>, n: nat) {
    forall k :: 0 <= k < |evs| && IndexIn(evs[k]).Some? ==> IndexIn(evs[k]).value < n
  }

  lemma {:induction false} IndicesCover(evs: seq<Event>, n: nat)
    requires IndicesBelow(evs, n)
    ensures Covers(Run(evs).blocks, n)
  {
    if evs != [] {
      var front, e := evs[..|evs| - 1], evs[|evs| - 1];
      assert IndicesBelow(front, n);
      IndicesCover(front, n);
    }
  }

  // ---- Both views ----

  lemma {:induction false} SendsAll(evs: seq<Event>)
    ensures Run(evs).out == AllSent(evs)
  {
    if evs != [] {
      var front := evs[..|evs| - 1];
      SendsAll(front);
      ScalarsAreLast(evs);
      assert Run(front).out + [] == Run(front).out;
      match evs[|evs| - 1]
      case BlockDelta(Some(i), Some(InputPart(_))) => BlockIsNamed(front, i);
      case _ =>
    }
  }

  /** The final response is what the events give, in index order, or the placeholder. */
  lemma {:induction false} FinalIsWhatEventsGive(evs: seq<Event>, n: nat, r: RichResponse)
    requires IndicesBelow(evs, n) && IsFinalOf(r, evs)
    ensures r == ScalarsOf(evs).(content := OrPlaceholder(FinalBlocks(evs, n)))
  {
    IndicesCover(evs, n);
    ScalarsAreLast(evs);
    BlocksAre(evs, n);
  }

  /** The chunk that ends the stream: the scanner's error, or the token counts of the events. */
  lemma {:induction false} TerminatorIs(evs: seq<Event>, err: Error)
    ensures Terminator(evs, Some(err)) == ErrorChunk(err)
    ensures Terminator(evs, None) == UsageChunk(InputTokensOf(evs), OutputTokensOf(evs), true)
  {
    ScalarsAreLast(evs);
  }
}
