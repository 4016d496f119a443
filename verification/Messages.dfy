/**
  The provider-neutral vocabulary of relay/messages.go: content blocks, messages,
  responses and stream chunks. Raw JSON is kept as its text.
*/
module Messages {
  import opened Options
  import opened Channels
  import S = Strings

  type Error = string

  datatype ContentBlock =
    | TextBlock(text: string)
    | ToolUseBlock(id: string, name: string, input: string)
    | ToolResultBlock(toolUseId: string, content: ResultContent, isError: bool)
    | ThinkingBlock(thinking: string, signature: string)
    | ImageBlock(mediaType: string, data: string)

  /** A tool result's raw content once decoded: a JSON string, an array of blocks, or neither. */
  datatype ResultContent = Quoted(s: string) | Blocks(blocks: seq<ContentBlock>) | Undecodable

  datatype RichMessage = RichMessage(role: string, content: seq<ContentBlock>)

  datatype RichResponse = RichResponse(id: string, model: string, content: seq<ContentBlock>, stopReason: string,
                                       inputTokens: int, outputTokens: int, cacheRead: int, cacheCreation: int)

  datatype RichChunk =
    | TextDelta(text: string)
    | ThinkingDelta(thinking: string)
    | ToolUseDelta(index: int, id: string, name: string, fragment: string)
    | Finish(reason: string, inputTokens: int, outputTokens: int)
    | UsageChunk(inputTokens: int, outputTokens: int, done: bool)
    | ErrorChunk(err: Error)

  predicate Terminal(c: RichChunk) {
    c.ErrorChunk? || (c.UsageChunk? && c.done)
  }

  /** A goroutine behind a rich result: what it sends, Final, and the close. */
  type RichLog = seq<Act<RichChunk, RichResponse>>

  /**
    A rich result as either path promises it: non-terminal chunks, one terminal chunk, then
    the close, and nothing after it. A failed stream ends in an error chunk and leaves Final
    unset. Otherwise Final is set before the close and has content; but it is set after the
    terminal chunk was sent, so a consumer that has only received that chunk may read nothing.
  */
  predicate IsRichResult(log: RichLog, failed: bool) {
    && EndsOnce(Chunks(log), Terminal) && ClosesLast(log)
    && (Chunks(log)[|Chunks(log)| - 1].ErrorChunk? <==> failed)
    && (failed ==> Stored(log) == None)
    && (!failed ==>
          && Stored(log).Some? && Stored(log).value.content != []
          && |log| >= 3 && log[|log| - 2].Set?
          && log[|log| - 3] == Send(Chunks(log)[|Chunks(log)| - 1]) && ReadAfter(log, |log| - 3) == None)
  }

  lemma {:induction false} FailedIsRichResult(cs: seq<RichChunk>)
    requires EndsOnce(cs, Terminal) && cs[|cs| - 1].ErrorChunk?
    ensures IsRichResult(FailedLog(cs), true)
  {
    FailedLogMeans<RichChunk, RichResponse>(cs);
  }

  lemma {:induction false} LateIsRichResult(cs: seq<RichChunk>, final: RichResponse)
    requires EndsOnce(cs, Terminal) && !cs[|cs| - 1].ErrorChunk? && final.content != []
    ensures IsRichResult(LateLog(cs, final), false) && Stored(LateLog(cs, final)) == Some(final)
  {
    LateLogMeans(cs, final);
  }

  const PLACEHOLDER := TextBlock("[Provider returned no content]")

  /** Final content is never empty. */
  function OrPlaceholder(blocks: seq<ContentBlock>): (content: seq<ContentBlock>)
    ensures blocks != [] ==> content == blocks
    ensures blocks == [] ==> content == [TextBlock("[Provider returned no content]")]
  {
    if blocks == [] then [PLACEHOLDER] else blocks
  }

  /** The text of all text blocks, in order (RichResponse.Text). */
  function TextOf(blocks: seq<ContentBlock>): string {
    if blocks == [] then "" else (if blocks[0].TextBlock? then blocks[0].text else "") + TextOf(blocks[1..])
  }

  lemma {:induction false} TextOfAppend(a: seq<ContentBlock>, b: seq<ContentBlock>)
    ensures TextOf(a + b) == TextOf(a) + TextOf(b)
  {
    if a == [] {
      assert a + b == b;
    } else {
      assert (a + b)[1..] == a[1..] + b;
      TextOfAppend(a[1..], b);
    }
  }

  /** The text of each block, other blocks having none, one after the other. */
  lemma {:induction false} TextOfSnoc(blocks: seq<ContentBlock>, b: ContentBlock)
    ensures TextOf([]) == ""
    ensures TextOf(blocks + [b]) == TextOf(blocks) + match b case TextBlock(t) => t case _ => ""
  {
    TextOfAppend(blocks, [b]);
    assert [b][1..] == [];
    assert TextOf([b]) == (match b case TextBlock(t) => t case _ => "") + TextOf([b][1..]);
  }

  /** The text of a tool result: the string itself, or the text blocks of the array. */
  function ToolResultText(c: ResultContent): string {
    match c
    case Quoted(s) => s
    case Blocks(bs) => TextOf(bs)
    case Undecodable => ""
  }

  /** Accumulated tool input as JSON: trimmed, and `{}` when nothing is left. */
  function NormalizedInput(accumulated: string): string {
    var s := S.TrimSpace(accumulated);
    if s == "" then "{}" else s
  }

  /** The input between the blanks around it, or `{}` if there is nothing but blanks. */
  lemma {:induction false} NormalizedInputIs(before: string, input: string, after: string)
    requires S.Blank(S.IsSpace, before) && S.Blank(S.IsSpace, after) && S.Tight(S.IsSpace, input)
    ensures NormalizedInput(before + input + after) == if input == "" then "{}" else input
  {
    S.TrimUnique(S.IsSpace, before, input, after);
  }
}
