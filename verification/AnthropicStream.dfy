/**
  The native rich stream (relay/anthropic_stream.go): assembly of content blocks
  from decoded events, next to the chunks emitted for the same events.
*/
module AnthropicStream {
  import opened Options
  import opened Channels
  import opened Messages
  import Q = Seqs
  import S = Strings

  datatype Usage = Usage(input: int, output: int, cacheRead: int, cacheCreation: int)

  datatype MessageInfo = MessageInfo(id: string, model: string, usage: Option<Usage>)

  /** The payload of a content_block_start event. */
  datatype Start = Start(kind: string, text: string, id: string, name: string, input: string,
                         thinking: string, signature: string)

  datatype Delta =
    | TextPart(text: string)
    | InputPart(json: string)
    | ThinkingPart(thinking: string)
    | SignaturePart(signature: string)
    | OtherPart

  /** One decoded event; `Ignored` is any other event type or a line that does not decode. */
  datatype Event =
    | MessageStart(message: Option<MessageInfo>)
    | BlockStart(index: Option<int>, block: Option<Start>)
    | BlockDelta(index: Option<int>, delta: Option<Delta>)
    | MessageDelta(stopReason: Option<string>, usage: Option<Usage>)
    | Ignored

  /** A content block being assembled. */
  datatype Block = Block(kind: string, id: string, name: string, text: string, input: string,
                         thinking: string, signature: string)

  const FRESH := Block("", "", "", "", "", "", "")

  datatype State = State(blocks: map<int, Block>, final: RichResponse, out: seq<RichChunk>)

  const INITIAL := State(map[], RichResponse("", "", [], "", 0, 0, 0, 0), [])

  // ---- One event, and a run of events ----

  function Started(b: Start): (r: Block)
    ensures r.kind == b.kind
  {
    if b.kind == "tool_use" then FRESH.(kind := b.kind, id := b.id, name := b.name, input := b.input)
    else if b.kind == "thinking" then FRESH.(kind := b.kind, thinking := b.thinking, signature := b.signature)
    else if b.kind == "text" then FRESH.(kind := b.kind, text := b.text)
    else FRESH.(kind := b.kind)
  }

  function Extended(b: Block, d: Delta): Block {
    match d
    case TextPart(t) => b.(text := b.text + t)
    case InputPart(j) => b.(input := b.input + j)
    case ThinkingPart(t) => b.(thinking := b.thinking + t)
    case SignaturePart(sig) => b.(signature := sig)
    case OtherPart => b
  }

  function DeltaChunks(b: Block, index: int, d: Delta): seq<RichChunk> {
    match d
    case TextPart(t) => [TextDelta(t)]
    case InputPart(j) => [ToolUseDelta(index, b.id, b.name, j)]
    case ThinkingPart(t) => [ThinkingDelta(t)]
    case _ => []
  }

  function BlockAt(blocks: map<int, Block>, index: int): Block {
    if index in blocks then blocks[index] else FRESH
  }

  function WithMessage(r: RichResponse, m: Option<MessageInfo>): RichResponse {
    if m.None? then r
    else
      var named := r.(id := m.value.id, model := m.value.model);
      if m.value.usage.None? then named
      else
        var u := m.value.usage.value;
        named.(inputTokens := u.input, outputTokens := u.output,
               cacheRead := u.cacheRead, cacheCreation := u.cacheCreation)
  }

  function WithDelta(r: RichResponse, stop: Option<string>, usage: Option<Usage>): RichResponse {
    var r1 := if stop.Some? then r.(stopReason := stop.value) else r;
    if usage.None? then r1
    else
      var u := usage.value;
      r1.(outputTokens := u.output,
          cacheRead := if u.cacheRead > 0 then u.cacheRead else r1.cacheRead,
          cacheCreation := if u.cacheCreation > 0 then u.cacheCreation else r1.cacheCreation)
  }

  function Step(s: State, e: Event): State {
    match e
    case MessageStart(m) =>
      var r := WithMessage(s.final, m);
      s.(final := r, out := s.out + [UsageChunk(r.inputTokens, r.outputTokens, false)])
    case BlockStart(Some(i), Some(b)) =>
      s.(blocks := s.blocks[i := Started(b)])
    case BlockDelta(Some(i), Some(d)) =>
      var b := BlockAt(s.blocks, i);
      s.(blocks := s.blocks[i := Extended(b, d)], out := s.out + DeltaChunks(b, i, d))
    case MessageDelta(stop, usage) =>
      var r := WithDelta(s.final, stop, usage);
      s.(final := r, out := s.out + [Finish(r.stopReason, r.inputTokens, r.outputTokens)])
    case _ => s
  }

  function Run(evs: seq<Event>): State {
    if evs == [] then INITIAL else Step(Run(evs[..|evs| - 1]), evs[|evs| - 1])
  }

  // ---- Assembly ----

  function Render(b: Block): seq<ContentBlock> {
    if b.kind == "text" then (if b.text == "" then [] else [TextBlock(b.text)])
    else if b.kind == "tool_use" then [ToolUseBlock(b.id, b.name, NormalizedInput(b.input))]
    else if b.kind == "thinking" then [ThinkingBlock(b.thinking, b.signature)]
    else []
  }

  /** The rendered blocks of the indices in [0, n), in index order. */
  function BlocksBelow(blocks: map<int, Block>, n: nat): seq<ContentBlock> {
    if n == 0 then []
    else BlocksBelow(blocks, n - 1) + if n - 1 in blocks then Render(blocks[n - 1]) else []
  }

  predicate Covers(blocks: map<int, Block>, n: nat) {
    forall i :: i in blocks ==> i < n
  }

  lemma {:induction false} BlocksBelowStable(blocks: map<int, Block>, m: nat, n: nat)
    requires m <= n && Covers(blocks, m)
    ensures BlocksBelow(blocks, m) == BlocksBelow(blocks, n)
    decreases n
  {
    if m < n {
      BlocksBelowStable(blocks, m, n - 1);
    }
  }

  method Assemble(blocks: map<int, Block>) returns (content: seq<ContentBlock>)
    ensures forall n: nat :: Covers(blocks, n) ==> content == OrPlaceholder(BlocksBelow(blocks, n))
  {
    var maxIdx := -1;
    var keys := blocks.Keys;
    while keys != {}
      invariant -1 <= maxIdx && forall i :: i in keys ==> i in blocks
      invariant maxIdx == -1 || maxIdx in blocks
      invariant forall i :: i in blocks && i !in keys ==> i <= maxIdx
    {
      Q.NonEmptyHas(keys);
      var idx :| idx in keys;
      if idx > maxIdx {
        maxIdx := idx;
      }
      keys := keys - {idx};
    }
    content := [];
    var i := 0;
    while i <= maxIdx
      invariant 0 <= i <= maxIdx + 1
      invariant content == BlocksBelow(blocks, i)
    {
      if i in blocks {
        content := content + Render(blocks[i]);
      }
      i := i + 1;
    }
    forall n: nat | Covers(blocks, n) ensures content == BlocksBelow(blocks, n) {
      BlocksBelowStable(blocks, i, n);
    }
    if content == [] {
      content := [PLACEHOLDER];
    }
  }

  /** The parser: on a scanner error the chunks already sent stay sent and `Done` is not. */
  method Parse(evs: seq<Event>, scanErr: Option<Error>) returns (ch: seq<RichChunk>, final: RichResponse)
    ensures scanErr.Some? ==> ch == Run(evs).out
    ensures scanErr.None? ==>
              && ch == Run(evs).out + [UsageChunk(final.inputTokens, final.outputTokens, true)]
              && IsFinalOf(final, evs)
  {
    final := INITIAL.final;
    ch := [];
    var blocks: map<int, Block> := map[];
    for k := 0 to |evs|
      invariant State(blocks, final, ch) == Run(evs[..k])
    {
      RunSnoc(evs, k);
      match evs[k]
      case MessageStart(m) =>
        final := WithMessage(final, m);
        ch := ch + [UsageChunk(final.inputTokens, final.outputTokens, false)];
      case BlockStart(Some(idx), Some(b)) =>
        blocks := blocks[idx := Started(b)];
      case BlockDelta(Some(idx), Some(d)) =>
        var bs := if idx in blocks then blocks[idx] else FRESH;
        ch := ch + DeltaChunks(bs, idx, d);
        blocks := blocks[idx := Extended(bs, d)];
      case MessageDelta(stop, usage) =>
        final := WithDelta(final, stop, usage);
        ch := ch + [Finish(final.stopReason, final.inputTokens, final.outputTokens)];
      case _ =>
    }
    assert evs[..|evs|] == evs;
    if scanErr.Some? {
      return;
    }
    var content := Assemble(blocks);
    final := final.(content := content);
    ch := ch + [UsageChunk(final.inputTokens, final.outputTokens, true)];
  }

  lemma {:induction false} RunSnoc(evs: seq<Event>, k: nat)
    requires k < |evs|
    ensures Run(evs[..k + 1]) == Step(Run(evs[..k]), evs[k])
  {
    assert evs[..k + 1][..k] == evs[..k];
  }

  lemma {:induction false} RunQuiet(evs: seq<Event>)
    ensures forall i :: 0 <= i < |Run(evs).out| ==> !Terminal(Run(evs).out[i])
  {
    if evs != [] {
      RunQuiet(evs[..|evs| - 1]);
    }
  }

  /**
    The goroutine around the parser. The terminal `Done` chunk is sent inside the parser, so
    Final is set only after it.
  */
  method StreamAnthropic(cancelled: Option<Error>, evs: seq<Event>, scanErr: Option<Error>) returns (log: RichLog)
    ensures IsRichResult(log, cancelled.Some? || scanErr.Some?)
    ensures cancelled.Some? ==> Chunks(log) == [ErrorChunk(cancelled.value)]
    ensures cancelled.None? ==> Chunks(log) == Run(evs).out + [Terminator(evs, scanErr)]
    ensures cancelled.None? && scanErr.None? ==> IsFinalOf(Stored(log).value, evs)
  {
    if cancelled.Some? {
      FailedIsRichResult([ErrorChunk(cancelled.value)]);
      FailedLogMeans<RichChunk, RichResponse>([ErrorChunk(cancelled.value)]);
      return Sends([ErrorChunk(cancelled.value)]) + [Close];
    }
    var ch, final := Parse(evs, scanErr);
    if scanErr.Some? {
      FailedParse(evs, scanErr.value);
      ch := ch + [ErrorChunk(scanErr.value)];
      return Sends(ch) + [Close];
    }
    FinishedParse(evs, final);
    return Sends(ch) + [Set(final)] + [Close];
  }

  /** The last chunk: the scanner's error, or `Done` with the tokens of the run. */
  function Terminator(evs: seq<Event>, scanErr: Option<Error>): RichChunk {
    if scanErr.Some? then ErrorChunk(scanErr.value)
    else UsageChunk(Run(evs).final.inputTokens, Run(evs).final.outputTokens, true)
  }

  lemma {:induction false} FailedParse(evs: seq<Event>, err: Error)
    ensures var ch := Run(evs).out + [ErrorChunk(err)];
            IsRichResult(FailedLog(ch), true) && Chunks(FailedLog<RichChunk, RichResponse>(ch)) == ch
  {
    var ch := Run(evs).out + [ErrorChunk(err)];
    RunQuiet(evs);
    FailedIsRichResult(ch);
    FailedLogMeans<RichChunk, RichResponse>(ch);
  }

  lemma {:induction false} FinishedParse(evs: seq<Event>, final: RichResponse)
    requires IsFinalOf(final, evs)
    ensures var ch := Run(evs).out + [UsageChunk(final.inputTokens, final.outputTokens, true)];
            && IsRichResult(LateLog(ch, final), false) && Chunks(LateLog(ch, final)) == ch
            && Stored(LateLog(ch, final)) == Some(final)
  {
    var ch := Run(evs).out + [UsageChunk(final.inputTokens, final.outputTokens, true)];
    RunQuiet(evs);
    var n := CoveringBound(Run(evs).blocks);
    LateIsRichResult(ch, final);
    LateLogMeans(ch, final);
  }

  /** The final response: the scalars of the run, and its blocks or the placeholder. */
  ghost predicate IsFinalOf(r: RichResponse, evs: seq<Event>) {
    && r == Run(evs).final.(content := r.content)
    && forall n: nat :: Covers(Run(evs).blocks, n) ==> r.content == OrPlaceholder(BlocksBelow(Run(evs).blocks, n))
  }

  lemma {:induction false} CoveringBound(blocks: map<int, Block>) returns (n: nat)
    ensures Covers(blocks, n)
  {
    n := 0;
    var keys := blocks.Keys;
    while keys != {}
      invariant forall i :: i in blocks && i !in keys ==> i < n
    {
      Q.NonEmptyHas(keys);
      var k :| k in keys;
      n := if k >= n then k + 1 else n;
      keys := keys - {k};
    }
  }

  // ---- Each buffer: the last start's payload, then the deltas since ----

  function StartOf(e: Event, idx: int): Option<Start> {
    if e.BlockStart? && e.index == Some(idx) then e.block else None
  }

  function DeltaOf(e: Event, idx: int): Option<Delta> {
    if e.BlockDelta? && e.index == Some(idx) then e.delta else None
  }

  /** Position of the last start for an index, or -1. */
  function LastStart(evs: seq<Event>, idx: int): (k: int)
    ensures -1 <= k < |evs| && (k >= 0 ==> StartOf(evs[k], idx).Some?)
  {
    if evs == [] then -1
    else if StartOf(evs[|evs| - 1], idx).Some? then |evs| - 1
    else LastStart(evs[..|evs| - 1], idx)
  }

  lemma {:induction false} NoStartAfterLast(evs: seq<Event>, idx: int, j: nat)
    requires LastStart(evs, idx) < j < |evs|
    ensures StartOf(evs[j], idx).None?
  {
    if j < |evs| - 1 {
      NoStartAfterLast(evs[..|evs| - 1], idx, j);
    }
  }

  /** The deltas for an index from a position on, in arrival order. */
  function DeltasFrom(evs: seq<Event>, idx: int, from: nat): seq<Delta> {
    if |evs| <= from then []
    else
      var d := DeltaOf(evs[|evs| - 1], idx);
      DeltasFrom(evs[..|evs| - 1], idx, from) + if d.Some? then [d.value] else []
  }

  function TextOfDeltas(ds: seq<Delta>): string {
    if ds == [] then ""
    else TextOfDeltas(ds[..|ds| - 1]) + if ds[|ds| - 1].TextPart? then ds[|ds| - 1].text else ""
  }

  function InputOfDeltas(ds: seq<Delta>): string {
    if ds == [] then ""
    else InputOfDeltas(ds[..|ds| - 1]) + if ds[|ds| - 1].InputPart? then ds[|ds| - 1].json else ""
  }

  function ThinkingOfDeltas(ds: seq<Delta>): string {
    if ds == [] then ""
    else ThinkingOfDeltas(ds[..|ds| - 1]) + if ds[|ds| - 1].ThinkingPart? then ds[|ds| - 1].thinking else ""
  }

  function SignatureOfDeltas(ds: seq<Delta>, initial: string): string {
    if ds == [] then initial
    else if ds[|ds| - 1].SignaturePart? then ds[|ds| - 1].signature
    else SignatureOfDeltas(ds[..|ds| - 1], initial)
  }

  /** The block given by a start payload and the deltas after it. */
  function Rebuilt(start: Option<Start>, ds: seq<Delta>): (r: Block)
    ensures r.kind == if start.Some? then start.value.kind else ""
  {
    var b := if start.Some? then Started(start.value) else FRESH;
    b.(text := b.text + TextOfDeltas(ds),
       input := b.input + InputOfDeltas(ds),
       thinking := b.thinking + ThinkingOfDeltas(ds),
       signature := SignatureOfDeltas(ds, b.signature))
  }

  lemma {:induction false} RebuiltFromStart(start: Option<Start>)
    ensures Rebuilt(start, []) == if start.Some? then Started(start.value) else FRESH
  {
    var b := if start.Some? then Started(start.value) else FRESH;
    assert b.text + "" == b.text && b.input + "" == b.input && b.thinking + "" == b.thinking;
  }

  lemma {:induction false} InputOfDeltasSnoc(ds: seq<Delta>, d: Delta)
    ensures InputOfDeltas(ds + [d]) == InputOfDeltas(ds) + if d.InputPart? then d.json else ""
  {
    assert (ds + [d])[..|ds|] == ds;
  }

  lemma {:induction false} OtherDeltasSnoc(ds: seq<Delta>, d: Delta, sig: string)
    ensures TextOfDeltas(ds + [d]) == TextOfDeltas(ds) + if d.TextPart? then d.text else ""
    ensures ThinkingOfDeltas(ds + [d]) == ThinkingOfDeltas(ds) + if d.ThinkingPart? then d.thinking else ""
    ensures SignatureOfDeltas(ds + [d], sig) == if d.SignaturePart? then d.signature else SignatureOfDeltas(ds, sig)
  {
    assert (ds + [d])[..|ds|] == ds;
  }

  /** Text put after initial text and collected text. */
  lemma {:induction false} Collects(initial: string, collected: string, added: string)
    ensures initial + (collected + added) == (initial + collected) + added
    ensures collected + "" == collected
  {
  }

  lemma {:induction false} RebuiltSnoc(start: Option<Start>, ds: seq<Delta>, d: Delta)
    ensures Rebuilt(start, ds + [d]) == Extended(Rebuilt(start, ds), d)
  {
    var b := if start.Some? then Started(start.value) else FRESH;
    InputOfDeltasSnoc(ds, d);
    OtherDeltasSnoc(ds, d, b.signature);
    Collects(b.text, TextOfDeltas(ds), if d.TextPart? then d.text else "");
    Collects(b.input, InputOfDeltas(ds), if d.InputPart? then d.json else "");
    Collects(b.thinking, ThinkingOfDeltas(ds), if d.ThinkingPart? then d.thinking else "");
  }

  /** The last start for an index, and the deltas for it after that start. */
  function Since(evs: seq<Event>, idx: int): (Option<Start>, seq<Delta>) {
    var k := LastStart(evs, idx);
    (if k >= 0 then StartOf(evs[k], idx) else None, DeltasFrom(evs, idx, k + 1))
  }

  function SinceStep(since: (Option<Start>, seq<Delta>), e: Event, idx: int): (Option<Start>, seq<Delta>) {
    if StartOf(e, idx).Some? then (StartOf(e, idx), [])
    else if DeltaOf(e, idx).Some? then (since.0, since.1 + [DeltaOf(e, idx).value])
    else since
  }

  lemma {:induction false} LastStartGrows(all: seq<Event>, idx: int, evs: seq<Event>)
    requires all != [] && evs == all[..|all| - 1]
    ensures LastStart(all, idx) == if StartOf(all[|all| - 1], idx).Some? then |evs| else LastStart(evs, idx)
  {
  }

  lemma {:induction false} StartKept(all: seq<Event>, idx: int, evs: seq<Event>)
    requires all != [] && evs == all[..|all| - 1] && StartOf(all[|all| - 1], idx).None?
    ensures Since(all, idx).0 == Since(evs, idx).0
  {
    LastStartGrows(all, idx, evs);
    var k := LastStart(evs, idx);
    if k >= 0 {
      assert all[k] == evs[k];
    }
  }

  lemma {:induction false} DeltaAdded(all: seq<Event>, idx: int, evs: seq<Event>)
    requires all != [] && evs == all[..|all| - 1] && StartOf(all[|all| - 1], idx).None?
    ensures var d := DeltaOf(all[|all| - 1], idx);
            Since(all, idx).1 == if d.Some? then Since(evs, idx).1 + [d.value] else Since(evs, idx).1
  {
    LastStartGrows(all, idx, evs);
    assert Since(evs, idx).1 + [] == Since(evs, idx).1;
  }

  lemma {:induction false} StartSupersedes(all: seq<Event>, idx: int)
    requires all != [] && StartOf(all[|all| - 1], idx).Some?
    ensures Since(all, idx) == (StartOf(all[|all| - 1], idx), [])
  {
    LastStartGrows(all, idx, all[..|all| - 1]);
  }

  lemma {:induction false} SinceGrows(all: seq<Event>, idx: int, evs: seq<Event>)
    requires all != [] && evs == all[..|all| - 1]
    ensures Since(all, idx) == SinceStep(Since(evs, idx), all[|all| - 1], idx)
  {
    if StartOf(all[|all| - 1], idx).Some? {
      StartSupersedes(all, idx);
    } else {
      StartKept(all, idx, evs);
      DeltaAdded(all, idx, evs);
    }
  }

  /** The block at an index is what its last start and the deltas since make it; without either there is none. */
  predicate BlockIs(blocks: map<int, Block>, idx: int, since: (Option<Start>, seq<Delta>)) {
    if since.0.None? && since.1 == [] then idx !in blocks
    else idx in blocks && blocks[idx] == Rebuilt(since.0, since.1)
  }

  lemma {:induction false} StepBlock(s: State, e: Event, idx: int, since: (Option<Start>, seq<Delta>))
    requires BlockIs(s.blocks, idx, since)
    ensures BlockIs(Step(s, e).blocks, idx, SinceStep(since, e, idx))
  {
    RebuiltFromStart(since.0);
    if StartOf(e, idx).Some? {
      RebuiltFromStart(StartOf(e, idx));
    } else if DeltaOf(e, idx).Some? {
      RebuiltSnoc(since.0, since.1, DeltaOf(e, idx).value);
    }
  }

  /** The same pair, taken one event at a time. */
  function SinceSoFar(evs: seq<Event>, idx: int): (Option<Start>, seq<Delta>) {
    if evs == [] then (None, []) else SinceStep(SinceSoFar(evs[..|evs| - 1], idx), evs[|evs| - 1], idx)
  }

  lemma {:induction false} SinceIsSoFar(evs: seq<Event>, idx: int)
    ensures Since(evs, idx) == SinceSoFar(evs, idx)
  {
    if evs != [] {
      SinceIsSoFar(evs[..|evs| - 1], idx);
      SinceGrows(evs, idx, evs[..|evs| - 1]);
    }
  }

  lemma {:induction false} BuffersSoFar(evs: seq<Event>, idx: int)
    ensures BlockIs(Run(evs).blocks, idx, SinceSoFar(evs, idx))
  {
    if evs != [] {
      var front, e := evs[..|evs| - 1], evs[|evs| - 1];
      BuffersSoFar(front, idx);
      StepBlock(Run(front), e, idx, SinceSoFar(front, idx));
    }
  }

  /**
    After any events, an index has a block exactly when it had a start or a delta, and
    every buffer is the payload of its last start followed by the matching deltas since.
  */
  lemma {:induction false} BuffersAreLastStartThenDeltas(evs: seq<Event>, idx: int)
    ensures BlockIs(Run(evs).blocks, idx, Since(evs, idx))
  {
    SinceIsSoFar(evs, idx);
    BuffersSoFar(evs, idx);
  }

  // ---- Text: the emitted deltas and the final text ----

  function StartIndex(e: Event): Option<int> {
    if e.BlockStart? && e.block.Some? then e.index else None
  }

  function TextIndex(e: Event): Option<int> {
    if e.BlockDelta? && e.delta.Some? && e.delta.value.TextPart? then e.index else None
  }

  function TextOfEvent(e: Event): string {
    if TextIndex(e).Some? then e.delta.value.text else ""
  }

  predicate StartsOnce(evs: seq<Event>) {
    forall q, r :: 0 <= q < r < |evs| && StartIndex(evs[q]).Some? ==> StartIndex(evs[q]) != StartIndex(evs[r])
  }

  predicate EmptyTextStarts(evs: seq<Event>) {
    forall q :: 0 <= q < |evs| && StartIndex(evs[q]).Some? && evs[q].block.value.kind == "text" ==>
             evs[q].block.value.text == ""
  }

  predicate TextInIndexOrder(evs: seq<Event>) {
    forall p, r :: 0 <= p < r < |evs| && TextIndex(evs[p]).Some? && TextIndex(evs[r]).Some? ==>
      TextIndex(evs[p]).value <= TextIndex(evs[r]).value
  }

  ghost predicate TextFollowsTextStart(evs: seq<Event>) {
    forall p :: 0 <= p < |evs| && TextIndex(evs[p]).Some? ==>
      TextIndex(evs[p]).value >= 0 && HasTextStart(evs, p, TextIndex(evs[p]).value)
  }

  /** A text block of the index was opened before position p. */
  ghost predicate HasTextStart(evs: seq<Event>, p: nat, idx: int)
    requires p <= |evs|
  {
    exists q :: 0 <= q < p && StartIndex(evs[q]) == Some(idx) && evs[q].block.value.kind == "text"
  }

  /** A stream as the Messages API sends it: one block after the other, text blocks opened empty. */
  ghost predicate OrderedText(evs: seq<Event>) {
    StartsOnce(evs) && EmptyTextStarts(evs) && TextInIndexOrder(evs) && TextFollowsTextStart(evs)
  }

  lemma {:induction false} OrderedTextPrefix(evs: seq<Event>, n: nat)
    requires n <= |evs| && OrderedText(evs)
    ensures OrderedText(evs[..n])
  {
    forall p | 0 <= p < n && TextIndex(evs[..n][p]).Some?
      ensures TextIndex(evs[..n][p]).value >= 0 && HasTextStart(evs[..n], p, TextIndex(evs[..n][p]).value)
    {
      var q :| 0 <= q < p && StartIndex(evs[q]) == TextIndex(evs[p]) && evs[q].block.value.kind == "text";
      assert evs[..n][q] == evs[q];
    }
  }

  function TextIn(c: RichChunk): string {
    if c.TextDelta? then c.text else ""
  }

  /** Concatenation of all text deltas sent. */
  function ChunkText(out: seq<RichChunk>): string {
    if out == [] then "" else ChunkText(out[..|out| - 1]) + TextIn(out[|out| - 1])
  }

  /** What one event sends: at most one chunk, with the event's text or input. */
  lemma {:induction false} StepSends(s: State, e: Event, idx: int) returns (sent: seq<RichChunk>)
    ensures Step(s, e).out == s.out + sent && |sent| <= 1
    ensures TextOfEvent(e) == if sent == [] then "" else TextIn(sent[0])
    ensures InputOfEvent(e, idx) == if sent == [] then "" else FragmentIn(sent[0], idx)
  {
    match e
    case MessageStart(m) =>
      var r := WithMessage(s.final, m);
      sent := [UsageChunk(r.inputTokens, r.outputTokens, false)];
    case MessageDelta(stop, usage) =>
      var r := WithDelta(s.final, stop, usage);
      sent := [Finish(r.stopReason, r.inputTokens, r.outputTokens)];
    case BlockDelta(Some(i), Some(d)) => sent := DeltaChunks(BlockAt(s.blocks, i), i, d);
    case _ =>
      sent := [];
      assert s.out + sent == s.out;
  }

  lemma {:induction false} StepChunkText(s: State, e: Event)
    ensures ChunkText(Step(s, e).out) == ChunkText(s.out) + TextOfEvent(e)
  {
    var sent := StepSends(s, e, 0);
    if sent == [] {
      assert s.out + sent == s.out && ChunkText(s.out) + "" == ChunkText(s.out);
    } else {
      assert (s.out + sent)[..|s.out + sent| - 1] == s.out;
    }
  }

  function TextAt(blocks: map<int, Block>, i: int): string {
    if i in blocks && blocks[i].kind == "text" then blocks[i].text else ""
  }

  function SumText(blocks: map<int, Block>, n: nat): string {
    if n == 0 then "" else SumText(blocks, n - 1) + TextAt(blocks, n - 1)
  }

  lemma {:induction false} TextOfBlocksBelow(blocks: map<int, Block>, n: nat)
    ensures TextOf(BlocksBelow(blocks, n)) == SumText(blocks, n)
  {
    if n > 0 {
      TextOfBlocksBelow(blocks, n - 1);
      var last := if n - 1 in blocks then Render(blocks[n - 1]) else [];
      TextOfAppend(BlocksBelow(blocks, n - 1), last);
      assert last != [] ==> last == [last[0]] && TextOf(last[1..]) == "";
    }
  }

  lemma {:induction false} SumTextSame(a: map<int, Block>, b: map<int, Block>, n: nat)
    requires forall i :: TextAt(a, i) == TextAt(b, i)
    ensures SumText(a, n) == SumText(b, n)
  {
    if n > 0 {
      SumTextSame(a, b, n - 1);
    }
  }

  /** Text added to the last block that has any is added at the end. */
  lemma {:induction false} SumTextGrows(a: map<int, Block>, b: map<int, Block>, i: nat, t: string, n: nat)
    requires i < n && TextAt(b, i) == TextAt(a, i) + t
    requires forall j :: j != i ==> TextAt(b, j) == TextAt(a, j)
    requires forall j :: j > i ==> TextAt(a, j) == ""
    ensures SumText(b, n) == SumText(a, n) + t
  {
    if i == n - 1 {
      SumTextBelow(a, b, i);
      Q.Associates(SumText(a, i), TextAt(a, i), t);
    } else {
      SumTextGrows(a, b, i, t, n - 1);
      assert TextAt(a, n - 1) == "" && TextAt(b, n - 1) == "";
      assert SumText(a, n - 1) + "" == SumText(a, n - 1) && SumText(b, n - 1) + "" == SumText(b, n - 1);
    }
  }

  lemma {:induction false} SumTextBelow(a: map<int, Block>, b: map<int, Block>, n: nat)
    requires forall j :: j < n ==> TextAt(b, j) == TextAt(a, j)
    ensures SumText(b, n) == SumText(a, n)
  {
    if n > 0 {
      SumTextBelow(a, b, n - 1);
    }
  }

  ghost predicate HadText(evs: seq<Event>, idx: int) {
    exists p :: 0 <= p < |evs| && TextIndex(evs[p]) == Some(idx)
  }

  function KindSince(since: (Option<Start>, seq<Delta>)): string {
    if since.0.Some? then since.0.value.kind else ""
  }

  lemma {:induction false} KindOfBlock(blocks: map<int, Block>, idx: int, since: (Option<Start>, seq<Delta>))
    requires BlockIs(blocks, idx, since)
    ensures since.0.Some? ==> idx in blocks
    ensures idx in blocks ==> blocks[idx].kind == KindSince(since)
  {
    if idx in blocks {
      assert blocks[idx].kind == Rebuilt(since.0, since.1).kind;
    }
  }

  lemma {:induction false} KindOfLastStart(evs: seq<Event>, idx: int)
    ensures LastStart(evs, idx) >= 0 ==> idx in Run(evs).blocks
    ensures idx in Run(evs).blocks ==> Run(evs).blocks[idx].kind == KindSince(Since(evs, idx))
  {
    var blocks, since := Run(evs).blocks, Since(evs, idx);
    assert BlockIs(blocks, idx, since) by {
      BuffersAreLastStartThenDeltas(evs, idx);
    }
    KindOfBlock(blocks, idx, since);
  }

  lemma {:induction false} OnlyStartIsLast(evs: seq<Event>, q: nat, idx: int)
    requires StartsOnce(evs) && q < |evs| && StartIndex(evs[q]) == Some(idx)
    ensures LastStart(evs, idx) == q
  {
    var k := LastStart(evs, idx);
    if k < q {
      NoStartAfterLast(evs, idx, q);
    }
    assert StartIndex(evs[k]) == Some(idx);
  }

  /** A block's kind is that of the only start of its index. */
  lemma {:induction false} TextStartGivesKind(evs: seq<Event>, idx: int)
    requires StartsOnce(evs) && HasTextStart(evs, |evs|, idx)
    ensures idx in Run(evs).blocks && Run(evs).blocks[idx].kind == "text"
  {
    var q :| 0 <= q < |evs| && StartIndex(evs[q]) == Some(idx) && evs[q].block.value.kind == "text";
    OnlyStartIsLast(evs, q, idx);
    KindOfLastStart(evs, idx);
    assert KindSince(Since(evs, idx)) == "text";
  }

  lemma {:induction false} UnstartedHasNoText(evs: seq<Event>, idx: int)
    requires forall q :: 0 <= q < |evs| ==> StartOf(evs[q], idx).None?
    ensures TextAt(Run(evs).blocks, idx) == ""
  {
    KindOfLastStart(evs, idx);
  }

  /** The two views of the text so far, and no text in an index that had no text delta. */
  ghost predicate TextViewsAgree(evs: seq<Event>, n: nat) {
    && SumText(Run(evs).blocks, n) == ChunkText(Run(evs).out)
    && forall j :: TextAt(Run(evs).blocks, j) != "" ==> HadText(evs, j)
  }

  lemma {:induction false} HadTextPrefix(evs: seq<Event>, k: nat, j: int)
    requires k <= |evs| && HadText(evs[..k], j)
    ensures exists p :: 0 <= p < k && TextIndex(evs[p]) == Some(j)
    ensures HadText(evs, j)
  {
    var p :| 0 <= p < k && TextIndex(evs[..k][p]) == Some(j);
    assert evs[p] == evs[..k][p];
  }

  lemma {:induction false} HadTextSnoc(front: seq<Event>, e: Event, j: int)
    ensures HadText(front + [e], j) <==> HadText(front, j) || TextIndex(e) == Some(j)
  {
    var evs := front + [e];
    assert evs[..|front|] == front && evs[|front|] == e;
    if HadText(front, j) {
      HadTextPrefix(evs, |front|, j);
    }
    if p :| 0 <= p < |evs| && TextIndex(evs[p]) == Some(j) {
      assert p < |front| ==> front[p] == evs[p];
    }
  }

  /** A text delta for a text block changes the text of that index only. */
  lemma {:induction false} StepTextAt(s: State, e: Event, i: int)
    requires TextIndex(e) == Some(i) && i in s.blocks && s.blocks[i].kind == "text"
    ensures TextAt(Step(s, e).blocks, i) == TextAt(s.blocks, i) + TextOfEvent(e)
    ensures forall j :: j != i ==> TextAt(Step(s, e).blocks, j) == TextAt(s.blocks, j)
  {
    assert Step(s, e).blocks == s.blocks[i := Extended(s.blocks[i], e.delta.value)];
  }

  lemma {:induction false} EarlierTextIsLower(front: seq<Event>, e: Event, j: int)
    requires TextInIndexOrder(front + [e]) && TextIndex(e).Some? && HadText(front, j)
    ensures j <= TextIndex(e).value
  {
    var evs := front + [e];
    var p :| 0 <= p < |front| && TextIndex(front[p]) == Some(j);
    assert evs[|front|] == e && evs[p] == front[p];
  }

  lemma {:induction false} TextIsOpen(front: seq<Event>, e: Event)
    requires OrderedText(front + [e]) && TextIndex(e).Some?
    ensures var i := TextIndex(e).value; i >= 0 && i in Run(front).blocks && Run(front).blocks[i].kind == "text"
  {
    var evs, i := front + [e], TextIndex(e).value;
    assert evs[..|front|] == front && evs[|front|] == e;
    OrderedTextPrefix(evs, |front|);
    var q :| 0 <= q < |front| && StartIndex(evs[q]) == Some(i) && evs[q].block.value.kind == "text";
    assert front[q] == evs[q];
    TextStartGivesKind(front, i);
  }

  lemma {:induction false} TextStepAgrees(front: seq<Event>, e: Event, n: nat)
    requires OrderedText(front + [e]) && TextIndex(e).Some? && TextIndex(e).value < n
    requires TextViewsAgree(front, n)
    ensures SumText(Step(Run(front), e).blocks, n) == ChunkText(Step(Run(front), e).out)
    ensures forall j :: TextAt(Step(Run(front), e).blocks, j) != "" ==> j == TextIndex(e).value || HadText(front, j)
  {
    var s, i := Run(front), TextIndex(e).value;
    TextIsOpen(front, e);
    StepTextAt(s, e, i);
    StepChunkText(s, e);
    forall j ensures TextAt(s.blocks, j) != "" ==> j <= i {
      if HadText(front, j) {
        EarlierTextIsLower(front, e, j);
      }
    }
    SumTextGrows(s.blocks, Step(s, e).blocks, i, TextOfEvent(e), n);
  }

  lemma {:induction false} OtherStepAgrees(front: seq<Event>, e: Event, n: nat)
    requires OrderedText(front + [e]) && TextIndex(e).None?
    requires TextViewsAgree(front, n)
    ensures SumText(Step(Run(front), e).blocks, n) == ChunkText(Step(Run(front), e).out)
    ensures forall j :: TextAt(Step(Run(front), e).blocks, j) != "" ==> HadText(front, j)
  {
    var s := Run(front);
    forall i ensures TextAt(s.blocks, i) == TextAt(Step(s, e).blocks, i) {
      OtherStepKeepsText(front, e, i);
    }
    SumTextSame(s.blocks, Step(s, e).blocks, n);
    StepChunkText(s, e);
    assert ChunkText(s.out) + "" == ChunkText(s.out);
  }

  lemma {:induction false} OtherStepKeepsText(front: seq<Event>, e: Event, i: int)
    requires StartsOnce(front + [e]) && EmptyTextStarts(front + [e]) && TextIndex(e).None?
    ensures TextAt(Run(front).blocks, i) == TextAt(Step(Run(front), e).blocks, i)
  {
    var evs := front + [e];
    assert evs[|front|] == e;
    if StartIndex(e) == Some(i) {
      forall q | 0 <= q < |front| ensures StartOf(front[q], i).None? {
        assert evs[q] == front[q];
      }
      UnstartedHasNoText(front, i);
    }
  }

  /** One event keeps the two views of the text in agreement. */
  lemma {:induction false} AgreementStep(front: seq<Event>, e: Event, n: nat)
    requires OrderedText(front + [e]) && Covers(Step(Run(front), e).blocks, n)
    requires TextViewsAgree(front, n)
    ensures SumText(Step(Run(front), e).blocks, n) == ChunkText(Step(Run(front), e).out)
    ensures forall j :: TextAt(Step(Run(front), e).blocks, j) != "" ==> HadText(front + [e], j)
  {
    var s' := Step(Run(front), e);
    if TextIndex(e).Some? {
      assert TextIndex(e).value in s'.blocks;
      TextStepAgrees(front, e, n);
    } else {
      OtherStepAgrees(front, e, n);
    }
    forall j | TextAt(s'.blocks, j) != "" ensures HadText(front + [e], j) {
      HadTextSnoc(front, e, j);
    }
  }

  lemma {:induction false} CoversBefore(s: State, e: Event, n: nat)
    requires Covers(Step(s, e).blocks, n)
    ensures Covers(s.blocks, n)
  {
    assert forall i :: i in s.blocks ==> i in Step(s, e).blocks;
  }

  lemma {:induction false} SumTextIsChunkText(evs: seq<Event>, n: nat)
    requires OrderedText(evs) && Covers(Run(evs).blocks, n)
    ensures TextViewsAgree(evs, n)
  {
    if evs == [] {
      SumTextOfNone(n);
    } else {
      var front, e := evs[..|evs| - 1], evs[|evs| - 1];
      assert evs == front + [e] && Run(evs) == Step(Run(front), e);
      OrderedTextPrefix(evs, |front|);
      CoversBefore(Run(front), e, n);
      SumTextIsChunkText(front, n);
      AgreementStep(front, e, n);
    }
  }

  lemma {:induction false} SumTextOfNone(n: nat)
    ensures SumText(map[], n) == ""
  {
    if n > 0 {
      SumTextOfNone(n - 1);
    }
  }

  /** An event that gives the final response a block: some text, or the start of a tool use or of thinking. */
  predicate Shows(e: Event) {
    || TextOfEvent(e) != ""
    || (StartIndex(e).Some? && StartIndex(e).value >= 0 && e.block.value.kind in ["tool_use", "thinking"])
  }

  ghost predicate SomeEvent(evs: seq<Event>, p: Event -> bool) {
    exists i :: 0 <= i < |evs| && p(evs[i])
  }

  lemma {:induction false} SomeText(evs: seq<Event>)
    ensures ChunkText(Run(evs).out) != "" <==> SomeEvent(evs, e => TextOfEvent(e) != "")
  {
    if evs != [] {
      var front, e := evs[..|evs| - 1], evs[|evs| - 1];
      SomeText(front);
      StepChunkText(Run(front), e);
      assert forall i :: 0 <= i < |front| ==> front[i] == evs[i];
    }
  }

  lemma {:induction false} SomeSumText(blocks: map<int, Block>, i: nat, n: nat)
    requires i < n && TextAt(blocks, i) != ""
    ensures SumText(blocks, n) != ""
  {
    if i < n - 1 {
      SomeSumText(blocks, i, n - 1);
    }
  }

  lemma {:induction false} SomeRendered(blocks: map<int, Block>, n: nat) returns (i: int)
    requires BlocksBelow(blocks, n) != []
    ensures 0 <= i < n && i in blocks && Render(blocks[i]) != []
  {
    if n - 1 in blocks && Render(blocks[n - 1]) != [] {
      i := n - 1;
    } else {
      i := SomeRendered(blocks, n - 1);
    }
  }

  lemma {:induction false} RenderedIsBelow(blocks: map<int, Block>, i: nat, n: nat)
    requires i < n && i in blocks && Render(blocks[i]) != []
    ensures BlocksBelow(blocks, n) != []
  {
    if i < n - 1 {
      RenderedIsBelow(blocks, i, n - 1);
    }
  }

  /** A block that is rendered comes from text, or from the start of a tool use or of thinking. */
  lemma {:induction false} RenderedWasShown(evs: seq<Event>, i: nat, n: nat)
    requires OrderedText(evs) && Covers(Run(evs).blocks, n)
    requires i < n && i in Run(evs).blocks && Render(Run(evs).blocks[i]) != []
    ensures SomeEvent(evs, Shows)
  {
    var b, k := Run(evs).blocks[i], LastStart(evs, i);
    if b.kind == "text" {
      assert TextAt(Run(evs).blocks, i) != "";
      SomeSumText(Run(evs).blocks, i, n);
      SumTextIsChunkText(evs, n);
      SomeText(evs);
      var j :| 0 <= j < |evs| && TextOfEvent(evs[j]) != "";
      assert Shows(evs[j]);
    } else {
      KindOfLastStart(evs, i);
      assert k >= 0 && Shows(evs[k]);
    }
  }

  lemma {:induction false} ShownIsRendered(evs: seq<Event>, n: nat)
    requires OrderedText(evs) && Covers(Run(evs).blocks, n) && SomeEvent(evs, Shows)
    ensures BlocksBelow(Run(evs).blocks, n) != []
  {
    var j :| 0 <= j < |evs| && Shows(evs[j]);
    if TextOfEvent(evs[j]) != "" {
      SomeText(evs);
      SumTextIsChunkText(evs, n);
      TextOfBlocksBelow(Run(evs).blocks, n);
    } else {
      var i := StartIndex(evs[j]).value;
      OnlyStartIsLast(evs, j, i);
      KindOfLastStart(evs, i);
      RenderedIsBelow(Run(evs).blocks, i, n);
    }
  }

  /**
    On an ordered stream the concatenated text deltas are the text of the final response
    exactly when some event shows: a text delta with text, or the start of a tool use or of
    thinking. Otherwise the response holds the placeholder, whose text was never sent.
  */
  lemma {:induction false} FinalTextIsChunkText(evs: seq<Event>, n: nat)
    requires OrderedText(evs) && Covers(Run(evs).blocks, n)
    ensures TextOf(OrPlaceholder(BlocksBelow(Run(evs).blocks, n))) == ChunkText(Run(evs).out) <==> SomeEvent(evs, Shows)
  {
    SumTextIsChunkText(evs, n);
    TextOfBlocksBelow(Run(evs).blocks, n);
    if BlocksBelow(Run(evs).blocks, n) == [] {
      assert TextOf([PLACEHOLDER]) == PLACEHOLDER.text + TextOf([]);
      if SomeEvent(evs, Shows) { ShownIsRendered(evs, n); }
    } else {
      var i := SomeRendered(Run(evs).blocks, n);
      RenderedWasShown(evs, i, n);
    }
  }

  // ---- Tool inputs: the emitted fragments and the final input ----

  function FragmentIn(c: RichChunk, idx: int): string {
    if c.ToolUseDelta? && c.index == idx then c.fragment else ""
  }

  /** Concatenation of all input fragments sent for an index. */
  function ChunkFragments(out: seq<RichChunk>, idx: int): string {
    if out == [] then "" else ChunkFragments(out[..|out| - 1], idx) + FragmentIn(out[|out| - 1], idx)
  }

  function InputOfEvent(e: Event, idx: int): string {
    var d := DeltaOf(e, idx);
    if d.Some? && d.value.InputPart? then d.value.json else ""
  }

  lemma {:induction false} StepFragments(s: State, e: Event, idx: int)
    ensures ChunkFragments(Step(s, e).out, idx) == ChunkFragments(s.out, idx) + InputOfEvent(e, idx)
  {
    var sent := StepSends(s, e, idx);
    if sent == [] {
      assert s.out + sent == s.out && ChunkFragments(s.out, idx) + "" == ChunkFragments(s.out, idx);
    } else {
      assert (s.out + sent)[..|s.out + sent| - 1] == s.out;
    }
  }

  lemma {:induction false} FragmentsAreInputDeltas(evs: seq<Event>, idx: int)
    ensures ChunkFragments(Run(evs).out, idx) == InputOfDeltas(DeltasFrom(evs, idx, 0))
  {
    if evs != [] {
      var front, e := evs[..|evs| - 1], evs[|evs| - 1];
      FragmentsAreInputDeltas(front, idx);
      StepFragments(Run(front), e, idx);
      var ds, d := DeltasFrom(front, idx, 0), DeltaOf(e, idx);
      if d.Some? {
        InputOfDeltasSnoc(ds, d.value);
      } else {
        assert ds + [] == ds && InputOfDeltas(ds) + "" == InputOfDeltas(ds);
      }
    }
  }

  lemma {:induction false} DeltasSplit(evs: seq<Event>, idx: int, k: nat)
    requires k <= |evs|
    ensures DeltasFrom(evs, idx, 0) == DeltasFrom(evs[..k], idx, 0) + DeltasFrom(evs, idx, k)
  {
    if |evs| == k {
      assert evs[..k] == evs;
    } else {
      var front := evs[..|evs| - 1];
      DeltasSplit(front, idx, k);
      assert front[..k] == evs[..k];
    }
  }

  lemma {:induction false} InputAppend(a: seq<Delta>, b: seq<Delta>)
    ensures InputOfDeltas(a + b) == InputOfDeltas(a) + InputOfDeltas(b)
  {
    if b == [] {
      assert a + b == a;
    } else {
      var front, d := b[..|b| - 1], b[|b| - 1];
      InputAppend(a, front);
      assert a + b == (a + front) + [d];
      InputOfDeltasSnoc(a + front, d);
    }
  }

  /**
    Two texts in front of the same fragments give the same normalized input exactly when they
    differ in leading blanks only or, before blank fragments, are the same input themselves.
  */
  lemma {:induction false} SameInputIff(a: string, b: string, since: string)
    ensures NormalizedInput(a + since) == NormalizedInput(b + since)
            <==> if S.Blank(S.IsSpace, since) then NormalizedInput(a) == NormalizedInput(b)
                 else S.TrimLeft(S.IsSpace, a) == S.TrimLeft(S.IsSpace, b)
  {
    if S.Blank(S.IsSpace, since) {
      assert "" + a + since == a + since && "" + b + since == b + since;
      S.TrimAround(S.IsSpace, "", a, since);
      S.TrimAround(S.IsSpace, "", b, since);
    } else {
      var u, v, tail := S.TrimLeft(S.IsSpace, a), S.TrimLeft(S.IsSpace, b), S.TrimRight(S.IsSpace, since);
      S.TrimOfFront(S.IsSpace, a, since);
      S.TrimOfFront(S.IsSpace, b, since);
      S.TrimEmptyIffBlank(S.IsSpace, since);
      SameFrontIff(u, v, tail);
      assert |u + tail| == |u| + |tail| && |v + tail| == |v| + |tail|;
      assert u != v ==> NormalizedInput(a + since) != NormalizedInput(b + since);
    }
  }

  lemma {:induction false} SameFrontIff(u: string, v: string, tail: string)
    ensures u + tail == v + tail <==> u == v
  {
    if u + tail == v + tail {
      assert |u| == |v| && u == (u + tail)[..|u|] && v == (v + tail)[..|v|];
    }
  }

  /** Text put in front of fragments leaves the normalized input alone in two cases only. */
  lemma {:induction false} SeededInputIff(seed: string, fragments: string)
    ensures NormalizedInput(seed + fragments) == NormalizedInput(fragments)
            <==> S.Blank(S.IsSpace, seed) || (S.Blank(S.IsSpace, fragments) && S.TrimSpace(seed) == "{}")
  {
    SameInputIff(seed, "", fragments);
    S.TrimLeftEmptyIffBlank(S.IsSpace, seed);
    S.TrimEmptyIffBlank(S.IsSpace, seed);
    S.TrimEmptyIffBlank(S.IsSpace, "");
    assert "" + fragments == fragments;
  }

  /**
    The consumer has all the fragments of an index, those sent before its last start too. The
    final block has the start's input text and the fragments since. The two inputs are the same
    exactly when that text and the earlier fragments are alike; without earlier fragments,
    when the text is blank, or is `{}` and the fragments are blank.
  */
  lemma {:induction false} ToolInputIsFragmentsIffAlike(evs: seq<Event>, k: nat, idx: int)
    requires k < |evs| && k == LastStart(evs, idx) && evs[k].block.value.kind == "tool_use"
    ensures idx in Run(evs).blocks
    ensures var start, earlier, since :=
              evs[k].block.value, InputOfDeltas(DeltasFrom(evs[..k], idx, 0)),
              InputOfDeltas(DeltasFrom(evs, idx, k + 1));
            && Render(Run(evs).blocks[idx]) ==
               [ToolUseBlock(start.id, start.name, NormalizedInput(start.input + since))]
            && ChunkFragments(Run(evs).out, idx) == earlier + since
            && (NormalizedInput(start.input + since) == NormalizedInput(earlier + since)
                <==> if S.Blank(S.IsSpace, since) then NormalizedInput(start.input) == NormalizedInput(earlier)
                     else S.TrimLeft(S.IsSpace, start.input) == S.TrimLeft(S.IsSpace, earlier))
  {
    var earlier, since := InputOfDeltas(DeltasFrom(evs[..k], idx, 0)), InputOfDeltas(DeltasFrom(evs, idx, k + 1));
    SameInputIff(evs[k].block.value.input, earlier, since);
    FragmentsAround(evs, k, idx);
    ToolBlockAt(evs, k, idx);
  }

  lemma {:induction false} FragmentsAround(evs: seq<Event>, k: nat, idx: int)
    requires k < |evs| && StartOf(evs[k], idx).Some?
    ensures ChunkFragments(Run(evs).out, idx) ==
            InputOfDeltas(DeltasFrom(evs[..k], idx, 0)) + InputOfDeltas(DeltasFrom(evs, idx, k + 1))
  {
    FragmentsAreInputDeltas(evs, idx);
    DeltasSplit(evs, idx, k + 1);
    assert evs[..k + 1][..k] == evs[..k];
    InputAppend(DeltasFrom(evs[..k + 1], idx, 0), DeltasFrom(evs, idx, k + 1));
    assert DeltasFrom(evs[..k], idx, 0) + [] == DeltasFrom(evs[..k], idx, 0);
  }

  lemma {:induction false} ToolBlockAt(evs: seq<Event>, k: nat, idx: int)
    requires k < |evs| && k == LastStart(evs, idx) && evs[k].block.value.kind == "tool_use"
    ensures idx in Run(evs).blocks
    ensures var start, b := evs[k].block.value, Run(evs).blocks[idx];
            b.kind == "tool_use" && b.id == start.id && b.name == start.name
            && b.input == start.input + InputOfDeltas(DeltasFrom(evs, idx, k + 1))
  {
    BuffersAreLastStartThenDeltas(evs, idx);
    KindOfLastStart(evs, idx);
  }

  /**
    The API opens every tool block with the input `{}`. Then a tool call with arguments always
    ends up with `{}` in front of them, which is not what the fragments sent add up to.
  */
  lemma {:induction false} SeededToolInputExample(fragment: string)
    requires S.Tight(S.IsSpace, fragment) && fragment != ""
    ensures var evs := [BlockStart(Some(0), Some(Start("tool_use", "", "id", "f", "{}", "", ""))),
                        BlockDelta(Some(0), Some(InputPart(fragment)))];
            && 0 in Run(evs).blocks && Render(Run(evs).blocks[0]) == [ToolUseBlock("id", "f", "{}" + fragment)]
            && NormalizedInput(ChunkFragments(Run(evs).out, 0)) == fragment != "{}" + fragment
  {
    var start := Start("tool_use", "", "id", "f", "{}", "", "");
    var first := BlockStart(Some(0), Some(start));
    var second := BlockDelta(Some(0), Some(InputPart(fragment)));
    var evs := [first, second];
    assert evs[..1] == [first] && [first][..0] == [];
    assert Run([first]) == Step(INITIAL, first);
    assert Run(evs) == Step(Run([first]), second);
    var b := FRESH.(kind := "tool_use", id := "id", name := "f", input := "{}" + fragment);
    assert Run([first]) == INITIAL.(blocks := map[0 := Started(start)]);
    assert Run(evs).blocks == map[0 := b];
    StepFragments(Run([first]), second, 0);
    assert ChunkFragments(Run(evs).out, 0) == "" + fragment == fragment;
    SeededExampleTrims(fragment);
    assert Render(b) == [ToolUseBlock("id", "f", "{}" + fragment)];
  }

  lemma {:induction false} SeededExampleTrims(fragment: string)
    requires S.Tight(S.IsSpace, fragment) && fragment != ""
    ensures S.TrimSpace(fragment) == fragment && S.TrimSpace("{}" + fragment) == "{}" + fragment
  {
    var whole := "{}" + fragment;
    assert whole[0] == '{' && whole[|whole| - 1] == fragment[|fragment| - 1];
    assert "" + whole + "" == whole && "" + fragment + "" == fragment;
    S.TrimUnique(S.IsSpace, "", whole, "");
    S.TrimUnique(S.IsSpace, "", fragment, "");
  }
}
