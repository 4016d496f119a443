/**
  Rich-to-flat translation of a conversation (relay/rich.go): what it keeps, what it
  drops, and when every flat tool message can still be matched with its tool call.
*/
module RichToFlat {
  import opened Messages
  import Q = Seqs

  datatype Call = Call(id: string, name: string, arguments: string)

  datatype FlatMessage = FlatMessage(role: string, content: string, toolCallId: string, toolCalls: seq<Call>)

  const ASSISTANT := "assistant"
  const TOOL := "tool"

  function CallsOf(blocks: seq<ContentBlock>): seq<Call> {
    if blocks == [] then []
    else
      var b := blocks[|blocks| - 1];
      CallsOf(blocks[..|blocks| - 1])
      + if b.ToolUseBlock? then [Call(b.id, b.name, if b.input == "" then "{}" else b.input)] else []
  }

  function ToolMessage(id: string, content: string): FlatMessage {
    FlatMessage(TOOL, content, id, [])
  }

  function ResultsOf(blocks: seq<ContentBlock>): (rs: seq<FlatMessage>)
    ensures forall i :: 0 <= i < |rs| ==> rs[i].role == TOOL && rs[i].toolCalls == []
  {
    if blocks == [] then []
    else
      var b := blocks[|blocks| - 1];
      ResultsOf(blocks[..|blocks| - 1])
      + if b.ToolResultBlock? then [ToolMessage(b.toolUseId, ToolResultText(b.content))] else []
  }

  function FlatOf(m: RichMessage): seq<FlatMessage> {
    var text := TextOf(m.content);
    if m.role == ASSISTANT then [FlatMessage(ASSISTANT, text, "", CallsOf(m.content))]
    else (if text != "" then [FlatMessage("user", text, "", [])] else []) + ResultsOf(m.content)
  }

  function FlatAll(ms: seq<RichMessage>): seq<FlatMessage> {
    if ms == [] then [] else FlatAll(ms[..|ms| - 1]) + FlatOf(ms[|ms| - 1])
  }

  function SystemPart(system: string): seq<FlatMessage> {
    if system == "" then [] else [FlatMessage("system", system, "", [])]
  }

  lemma {:induction false} TextOfPrefix(blocks: seq<ContentBlock>, i: nat)
    requires i < |blocks|
    ensures TextOf(blocks[..i + 1]) == TextOf(blocks[..i]) + if blocks[i].TextBlock? then blocks[i].text else ""
    ensures blocks[..i + 1][..i] == blocks[..i]
  {
    assert blocks[..i + 1] == blocks[..i] + [blocks[i]];
    TextOfAppend(blocks[..i], [blocks[i]]);
    assert TextOf([blocks[i]]) == (if blocks[i].TextBlock? then blocks[i].text else "") + TextOf([]);
  }

  method RichMessageToFlat(m: RichMessage) returns (msgs: seq<FlatMessage>)
    ensures msgs == FlatOf(m)
  {
    var text := "";
    var tcList := [];
    var toolResults := [];
    for i := 0 to |m.content|
      invariant text == TextOf(m.content[..i])
      invariant tcList == CallsOf(m.content[..i])
      invariant toolResults == ResultsOf(m.content[..i])
    {
      TextOfPrefix(m.content, i);
      match m.content[i]
      case TextBlock(t) =>
        text := text + t;
      case ToolUseBlock(id, name, input) =>
        var args := if input == "" then "{}" else input;
        tcList := tcList + [Call(id, name, args)];
      case ToolResultBlock(id, content, _) =>
        toolResults := toolResults + [ToolMessage(id, ToolResultText(content))];
      case _ =>
    }
    assert m.content[..|m.content|] == m.content;
    msgs := [];
    if m.role == ASSISTANT {
      msgs := msgs + [FlatMessage(ASSISTANT, text, "", tcList)];
    } else {
      if |text| > 0 {
        msgs := msgs + [FlatMessage("user", text, "", [])];
      }
      msgs := msgs + toolResults;
    }
  }

  /** The messages of the flat request: the system prompt, then each message in turn. */
  method RichToFlatMessages(system: string, ms: seq<RichMessage>) returns (flat: seq<FlatMessage>)
    ensures flat == SystemPart(system) + FlatAll(ms)
  {
    flat := SystemPart(system);
    for i := 0 to |ms|
      invariant flat == SystemPart(system) + FlatAll(ms[..i])
    {
      var flatMsgs := RichMessageToFlat(ms[i]);
      assert ms[..i + 1][..i] == ms[..i];
      Q.Associates(SystemPart(system), FlatAll(ms[..i]), flatMsgs);
      flat := flat + flatMsgs;
    }
    assert ms[..|ms|] == ms;
  }

  // ---- Each flat message, block by block ----

  function ToolUses(blocks: seq<ContentBlock>): (us: seq<ContentBlock>)
    ensures forall i :: 0 <= i < |us| ==> us[i].ToolUseBlock?
  {
    if blocks == [] then []
    else
      var last := blocks[|blocks| - 1];
      ToolUses(blocks[..|blocks| - 1]) + if last.ToolUseBlock? then [last] else []
  }

  function ToolResults(blocks: seq<ContentBlock>): (rs: seq<ContentBlock>)
    ensures forall i :: 0 <= i < |rs| ==> rs[i].ToolResultBlock?
  {
    if blocks == [] then []
    else
      var last := blocks[|blocks| - 1];
      ToolResults(blocks[..|blocks| - 1]) + if last.ToolResultBlock? then [last] else []
  }

  /** The texts of the text blocks, one after the other. */
  function Texts(blocks: seq<ContentBlock>): string {
    if blocks == [] then ""
    else Texts(blocks[..|blocks| - 1]) + match blocks[|blocks| - 1] case TextBlock(t) => t case _ => ""
  }

  lemma {:induction false} TextIsTexts(blocks: seq<ContentBlock>)
    ensures TextOf(blocks) == Texts(blocks)
  {
    if blocks != [] {
      TextIsTexts(blocks[..|blocks| - 1]);
      TextOfSnoc(blocks[..|blocks| - 1], blocks[|blocks| - 1]);
      Q.InSnoc(blocks);
    }
  }

  /** A call has the block's id and name, and its input or `{}`. */
  lemma {:induction false} CallsAreUses(blocks: seq<ContentBlock>, i: nat)
    requires i < |ToolUses(blocks)|
    ensures |CallsOf(blocks)| == |ToolUses(blocks)|
    ensures var ToolUseBlock(id, name, input) := ToolUses(blocks)[i];
            CallsOf(blocks)[i] == Call(id, name, if input == "" then "{}" else input)
  {
    CallsAreAsMany(blocks);
    var front := blocks[..|blocks| - 1];
    CallsAreAsMany(front);
    if i < |ToolUses(front)| {
      CallsAreUses(front, i);
    }
  }

  lemma {:induction false} CallsAreAsMany(blocks: seq<ContentBlock>)
    ensures |CallsOf(blocks)| == |ToolUses(blocks)|
  {
    if blocks != [] {
      CallsAreAsMany(blocks[..|blocks| - 1]);
    }
  }

  /** A tool message has the id of the result and its text: the string, or the texts of its text blocks. */
  lemma {:induction false} MessagesAreResults(blocks: seq<ContentBlock>, i: nat)
    requires i < |ToolResults(blocks)|
    ensures |ResultsOf(blocks)| == |ToolResults(blocks)|
    ensures var ToolResultBlock(id, content, _) := ToolResults(blocks)[i];
            ResultsOf(blocks)[i] ==
            FlatMessage("tool",
                        match content case Quoted(s) => s case Blocks(bs) => Texts(bs) case Undecodable => "", id, [])
  {
    ResultsAreAsMany(blocks);
    var front := blocks[..|blocks| - 1];
    ResultsAreAsMany(front);
    if i < |ToolResults(front)| {
      MessagesAreResults(front, i);
    } else {
      match blocks[|blocks| - 1].content
      case Blocks(bs) => TextIsTexts(bs);
      case _ =>
    }
  }

  lemma {:induction false} ResultsAreAsMany(blocks: seq<ContentBlock>)
    ensures |ResultsOf(blocks)| == |ToolResults(blocks)|
  {
    if blocks != [] {
      ResultsAreAsMany(blocks[..|blocks| - 1]);
    }
  }

  /**
    An assistant's message becomes one with its text and calls; any other becomes a user's message
    with its text, if there is any, and then the tool messages.
  */
  lemma {:induction false} FlatOfIs(m: RichMessage)
    ensures m.role == "assistant" ==> FlatOf(m) == [FlatMessage("assistant", Texts(m.content), "", CallsOf(m.content))]
    ensures m.role != "assistant" && Texts(m.content) == "" ==> FlatOf(m) == ResultsOf(m.content)
    ensures m.role != "assistant" && Texts(m.content) != "" ==>
              FlatOf(m) == [FlatMessage("user", Texts(m.content), "", [])] + ResultsOf(m.content)
  {
    TextIsTexts(m.content);
    assert [] + ResultsOf(m.content) == ResultsOf(m.content);
  }

  /** The i-th result in a message that is not an assistant's is its i-th tool message, after its text. */
  lemma {:induction false} ResultArrives(m: RichMessage, i: nat)
    requires m.role != "assistant" && i < |ToolResults(m.content)|
    ensures var first := if Texts(m.content) == "" then 0 else 1;
            var ToolResultBlock(id, content, _) := ToolResults(m.content)[i];
            && |FlatOf(m)| == first + |ToolResults(m.content)|
            && FlatOf(m)[first + i] ==
               FlatMessage("tool",
                           match content case Quoted(s) => s case Blocks(bs) => Texts(bs) case Undecodable => "",
                           id, [])
  {
    var results, first := ResultsOf(m.content), if Texts(m.content) == "" then 0 else 1;
    FlatOfIs(m);
    MessagesAreResults(m.content, i);
    assert |FlatOf(m)| == first + |results| && FlatOf(m)[first + i] == results[i];
  }

  /** The i-th tool use in an assistant's message is the i-th call of its one flat message. */
  lemma {:induction false} CallArrives(m: RichMessage, i: nat)
    requires m.role == "assistant" && i < |ToolUses(m.content)|
    ensures var ToolUseBlock(id, name, input) := ToolUses(m.content)[i];
            && |FlatOf(m)| == 1 && |FlatOf(m)[0].toolCalls| == |ToolUses(m.content)|
            && FlatOf(m)[0].toolCalls[i] == Call(id, name, if input == "" then "{}" else input)
  {
    FlatOfIs(m);
    CallsAreUses(m.content, i);
  }

  /** The system prompt leads, in a message of its own. */
  lemma {:induction false} SystemLeads(system: string)
    ensures SystemPart(system) == if system == "" then [] else [FlatMessage("system", system, "", [])]
  {
  }

  /** One result that is a string arrives as that string. */
  lemma {:induction false} StringResultArrives(id: string, s: string, isError: bool)
    ensures FlatAll([RichMessage("user", [ToolResultBlock(id, Quoted(s), isError)])]) ==
            [FlatMessage("tool", s, id, [])]
  {
    var block := ToolResultBlock(id, Quoted(s), isError);
    var m := RichMessage("user", [block]);
    OneResult(block);
    FlatOfIs(m);
    assert [m][..0] == [] && FlatAll([m]) == [] + FlatOf(m);
  }

  /** One result that is an array of blocks arrives as the texts of its text blocks. */
  lemma {:induction false} ArrayResultArrives(id: string, bs: seq<ContentBlock>, isError: bool)
    ensures FlatAll([RichMessage("user", [ToolResultBlock(id, Blocks(bs), isError)])]) ==
            [FlatMessage("tool", Texts(bs), id, [])]
  {
    var block := ToolResultBlock(id, Blocks(bs), isError);
    var m := RichMessage("user", [block]);
    OneResult(block);
    FlatOfIs(m);
    assert [m][..0] == [] && FlatAll([m]) == [] + FlatOf(m);
  }

  lemma {:induction false} OneResult(block: ContentBlock)
    requires block.ToolResultBlock?
    ensures Texts([block]) == "" && |ResultsOf([block])| == 1
    ensures ResultsOf([block]) ==
            [FlatMessage("tool",
                         match block.content case Quoted(s) => s case Blocks(bs) => Texts(bs) case Undecodable => "",
                         block.toolUseId, [])]
  {
    assert [block][..0] == [];
    assert ToolResults([block]) == [block];
    MessagesAreResults([block], 0);
  }

  // ---- What is kept ----

  /** A conversation may be translated in two parts. */
  lemma {:induction false} FlatAllAppend(a: seq<RichMessage>, b: seq<RichMessage>)
    ensures FlatAll(a + b) == FlatAll(a) + FlatAll(b)
  {
    if b == [] {
      assert a + b == a;
    } else {
      assert (a + b)[..|a + b| - 1] == a + b[..|b| - 1];
      FlatAllAppend(a, b[..|b| - 1]);
      Q.Associates(FlatAll(a), FlatAll(b[..|b| - 1]), FlatOf(b[|b| - 1]));
    }
  }

  /** All text, tool calls and tool results of a flat conversation, in order. */
  datatype Cargo = Cargo(text: string, calls: seq<Call>, results: seq<FlatMessage>)

  function Plus(a: Cargo, b: Cargo): Cargo {
    Cargo(a.text + b.text, a.calls + b.calls, a.results + b.results)
  }

  const NOTHING := Cargo("", [], [])

  function FlatCargo(flat: seq<FlatMessage>): Cargo {
    if flat == [] then NOTHING
    else
      var m := flat[|flat| - 1];
      Plus(FlatCargo(flat[..|flat| - 1]), if m.role == TOOL then Cargo("", [], [m])
        else Cargo(m.content, m.toolCalls, []))
  }

  /** What a rich message carries if nothing in it is dropped. */
  function BlockCargo(blocks: seq<ContentBlock>): Cargo {
    Cargo(TextOf(blocks), CallsOf(blocks), ResultsOf(blocks))
  }

  /** What the translation lets through: an assistant's results and anyone else's calls are dropped. */
  function KeptCargo(m: RichMessage): Cargo {
    if m.role == ASSISTANT then BlockCargo(m.content).(results := []) else BlockCargo(m.content).(calls := [])
  }

  function SumCargo(ms: seq<RichMessage>, f: RichMessage -> Cargo): Cargo {
    if ms == [] then NOTHING else Plus(SumCargo(ms[..|ms| - 1], f), f(ms[|ms| - 1]))
  }

  lemma {:induction false} FlatCargoAppend(a: seq<FlatMessage>, b: seq<FlatMessage>)
    ensures FlatCargo(a + b) == Plus(FlatCargo(a), FlatCargo(b))
  {
    if b == [] {
      assert a + b == a;
      assert Plus(FlatCargo(a), NOTHING) == FlatCargo(a);
    } else {
      assert (a + b)[..|a + b| - 1] == a + b[..|b| - 1];
      FlatCargoAppend(a, b[..|b| - 1]);
      var m := b[|b| - 1];
      PlusAssociates(FlatCargo(a), FlatCargo(b[..|b| - 1]),
                     if m.role == TOOL then Cargo("", [], [m]) else Cargo(m.content, m.toolCalls, []));
    }
  }

  lemma {:induction false} PlusAssociates(a: Cargo, b: Cargo, c: Cargo)
    ensures Plus(Plus(a, b), c) == Plus(a, Plus(b, c))
  {
    assert (a.text + b.text) + c.text == a.text + (b.text + c.text);
    assert (a.calls + b.calls) + c.calls == a.calls + (b.calls + c.calls);
    assert (a.results + b.results) + c.results == a.results + (b.results + c.results);
  }

  lemma {:induction false} CargoOfResults(rs: seq<FlatMessage>)
    requires forall i :: 0 <= i < |rs| ==> rs[i].role == TOOL
    ensures FlatCargo(rs) == Cargo("", [], rs)
  {
    if rs != [] {
      CargoOfResults(rs[..|rs| - 1]);
      assert rs == rs[..|rs| - 1] + [rs[|rs| - 1]];
    }
  }

  lemma {:induction false} CargoOfOne(m: FlatMessage)
    ensures FlatCargo([m]) == if m.role == TOOL then Cargo("", [], [m]) else Cargo(m.content, m.toolCalls, [])
  {
    assert [m][..0] == [];
    assert "" + m.content == m.content;
  }

  lemma {:induction false} TextPlusResults(text: string, results: seq<FlatMessage>)
    ensures Plus(Cargo(text, [], []), Cargo("", [], results)) == Cargo(text, [], results)
  {
    assert text + "" == text && [] + results == results;
  }

  lemma {:induction false} FlatOfKeeps(m: RichMessage)
    ensures FlatCargo(FlatOf(m)) == KeptCargo(m)
  {
    var text, results := TextOf(m.content), ResultsOf(m.content);
    if m.role == ASSISTANT {
      CargoOfOne(FlatMessage(ASSISTANT, text, "", CallsOf(m.content)));
    } else {
      CargoOfResults(results);
      if text == "" {
        assert FlatOf(m) == results;
      } else {
        var user := FlatMessage("user", text, "", []);
        assert FlatOf(m) == [user] + results;
        CargoOfOne(user);
        FlatCargoAppend([user], results);
        TextPlusResults(text, results);
      }
    }
  }

  /** All text of every message, all calls of assistants and all results of others arrive, in order. */
  lemma {:induction false} TranslationKeeps(ms: seq<RichMessage>)
    ensures FlatCargo(FlatAll(ms)) == SumCargo(ms, KeptCargo)
  {
    if ms != [] {
      TranslationKeeps(ms[..|ms| - 1]);
      FlatOfKeeps(ms[|ms| - 1]);
      FlatCargoAppend(FlatAll(ms[..|ms| - 1]), FlatOf(ms[|ms| - 1]));
    }
  }

  function MessageCargo(m: RichMessage): Cargo {
    BlockCargo(m.content)
  }

  predicate InRole(m: RichMessage) {
    if m.role == ASSISTANT then forall b :: b in m.content ==> !b.ToolResultBlock?
    else forall b :: b in m.content ==> !b.ToolUseBlock?
  }

  lemma {:induction false} NoCallsIff(blocks: seq<ContentBlock>)
    ensures CallsOf(blocks) == [] <==> forall b :: b in blocks ==> !b.ToolUseBlock?
    ensures ResultsOf(blocks) == [] <==> forall b :: b in blocks ==> !b.ToolResultBlock?
  {
    if blocks != [] {
      Q.InSnoc(blocks);
      NoCallsIff(blocks[..|blocks| - 1]);
    }
  }

  lemma {:induction false} KeptIsNoMore(ms: seq<RichMessage>)
    ensures var kept, all := SumCargo(ms, KeptCargo), SumCargo(ms, MessageCargo);
            && |kept.calls| <= |all.calls| && |kept.results| <= |all.results|
            && (|kept.calls| == |all.calls| && |kept.results| == |all.results| <==> forall m :: m in ms ==> InRole(m))
            && ((forall m :: m in ms ==> InRole(m)) ==> kept == all)
  {
    if ms != [] {
      var m := ms[|ms| - 1];
      Q.InSnoc(ms);
      KeptIsNoMore(ms[..|ms| - 1]);
      NoCallsIff(m.content);
      assert InRole(m) <==> KeptCargo(m) == MessageCargo(m);
    }
  }

  /** Nothing is lost exactly when only assistants use tools and only others answer them. */
  lemma {:induction false} LosslessIffInRole(ms: seq<RichMessage>)
    ensures FlatCargo(FlatAll(ms)) == SumCargo(ms, MessageCargo) <==> forall m :: m in ms ==> InRole(m)
  {
    TranslationKeeps(ms);
    KeptIsNoMore(ms);
  }

  /** A tool call in a user's message leaves no trace. */
  lemma {:induction false} UsersCallIsLost(id: string, name: string, input: string)
    ensures FlatAll([RichMessage("user", [ToolUseBlock(id, name, input)])]) == []
  {
    var block := ToolUseBlock(id, name, input);
    var m := RichMessage("user", [block]);
    assert [m][..0] == [] && [block][..0] == [] && [block][1..] == [];
    assert TextOf([]) == "" && "" + "" == "";
    assert TextOf([block]) == "" + TextOf([block][1..]);
    assert ResultsOf([block]) == ResultsOf([]) + [];
    assert FlatOf(m) == [];
  }

  /** Every flat message of a rich one has its role, but for the tool results. */
  predicate RoleKept(m: RichMessage) {
    forall i :: 0 <= i < |FlatOf(m)| && FlatOf(m)[i].role != TOOL ==> FlatOf(m)[i].role == m.role
  }

  /**
    A role is lost exactly when a message that is neither an assistant's nor a user's has text,
    which then counts as a user's.
  */
  lemma {:induction false} RoleKeptIff(m: RichMessage)
    ensures RoleKept(m) <==> m.role == ASSISTANT || m.role == "user" || TextOf(m.content) == ""
  {
    var flat, text := FlatOf(m), TextOf(m.content);
    if m.role != ASSISTANT && text != "" {
      var user := FlatMessage("user", text, "", []);
      assert flat[0] == user && "user"[0] != TOOL[0];
    }
  }

  ghost predicate KeepsRole(role: string) {
    forall content :: RoleKept(RichMessage(role, content))
  }

  /** The roles that every message keeps are `assistant` and `user`; a `system` message becomes a user's. */
  lemma {:induction false} KeepsRoleIff(role: string)
    ensures KeepsRole(role) <==> role == ASSISTANT || role == "user"
  {
    var said := RichMessage(role, [TextBlock("x")]);
    assert TextOf(said.content) == "x" + TextOf([TextBlock("x")][1..]);
    RoleKeptIff(said);
    forall content ensures role == ASSISTANT || role == "user" ==> RoleKept(RichMessage(role, content)) {
      RoleKeptIff(RichMessage(role, content));
    }
  }

  // ---- Pairing of tool messages with tool calls ----

  function IdsOf(calls: seq<Call>): set<string> {
    set c | c in calls :: c.id
  }

  /**
    Position j of a flat conversation answers a call of the nearest assistant message, with only
    tool messages between.
  */
  ghost predicate AnsweredAt(flat: seq<FlatMessage>, j: nat, id: string)
    requires j <= |flat|
  {
    exists i :: 0 <= i < j && flat[i].role == ASSISTANT && id in IdsOf(flat[i].toolCalls)
                && forall k :: i < k < j ==> flat[k].role == TOOL
  }

  /** What a provider demands: every tool message answers a call still open. */
  ghost predicate FlatPaired(flat: seq<FlatMessage>) {
    forall j :: 0 <= j < |flat| && flat[j].role == TOOL ==> AnsweredAt(flat, j, flat[j].toolCallId)
  }

  /** The calls open after a rich conversation: those of the last assistant, until someone says something. */
  function OpenCalls(ms: seq<RichMessage>): set<string> {
    if ms == [] then {}
    else
      var m := ms[|ms| - 1];
      if m.role == ASSISTANT then IdsOf(CallsOf(m.content))
      else if TextOf(m.content) != "" then {}
      else OpenCalls(ms[..|ms| - 1])
  }

  predicate ResultsAnswer(m: RichMessage, open: set<string>) {
    m.role == ASSISTANT || ResultsOf(m.content) == []
    || (TextOf(m.content) == "" && forall i :: 0 <= i < |ResultsOf(m.content)| ==>
           ResultsOf(m.content)[i].toolCallId in open)
  }

  /** Every message with tool results is text-free and answers calls open at that point. */
  predicate RichPaired(ms: seq<RichMessage>) {
    ms == [] || (RichPaired(ms[..|ms| - 1]) && ResultsAnswer(ms[|ms| - 1], OpenCalls(ms[..|ms| - 1])))
  }

  /** The same notion of open calls, on flat messages. */
  function FlatOpen(flat: seq<FlatMessage>): set<string> {
    if flat == [] then {}
    else
      var m := flat[|flat| - 1];
      if m.role == ASSISTANT then IdsOf(m.toolCalls)
      else if m.role == TOOL then FlatOpen(flat[..|flat| - 1])
      else {}
  }

  /** A tool message leaves the answers as they were. */
  lemma {:induction false} AnsweredPastTool(flat: seq<FlatMessage>, j: nat, id: string)
    requires 0 < j <= |flat| && flat[j - 1].role == TOOL
    ensures AnsweredAt(flat, j, id) <==> AnsweredAt(flat, j - 1, id)
  {
    if i :| 0 <= i < j - 1 && flat[i].role == ASSISTANT && id in IdsOf(flat[i].toolCalls)
            && forall k :: i < k < j - 1 ==> flat[k].role == TOOL {
      assert forall k :: i < k < j ==> flat[k].role == TOOL;
    }
  }

  /** Any other message decides alone. */
  lemma {:induction false} AnsweredByLast(flat: seq<FlatMessage>, j: nat, id: string)
    requires 0 < j <= |flat| && flat[j - 1].role != TOOL
    ensures AnsweredAt(flat, j, id) <==> flat[j - 1].role == ASSISTANT && id in IdsOf(flat[j - 1].toolCalls)
  {
    if i :| 0 <= i < j && flat[i].role == ASSISTANT && id in IdsOf(flat[i].toolCalls)
            && forall k :: i < k < j ==> flat[k].role == TOOL {
      assert i == j - 1;
    }
  }

  lemma {:induction false} AnsweredIffOpen(flat: seq<FlatMessage>, j: nat, id: string)
    requires j <= |flat|
    ensures AnsweredAt(flat, j, id) <==> id in FlatOpen(flat[..j])
  {
    if j > 0 {
      assert flat[..j][..j - 1] == flat[..j - 1] && flat[..j][j - 1] == flat[j - 1];
      if flat[j - 1].role == TOOL {
        AnsweredPastTool(flat, j, id);
        AnsweredIffOpen(flat, j - 1, id);
      } else {
        AnsweredByLast(flat, j, id);
      }
    }
  }

  /** Appending messages: the old ones keep their answers, the new ones are judged in place. */
  lemma {:induction false} FlatPairedAppend(a: seq<FlatMessage>, b: seq<FlatMessage>)
    ensures FlatPaired(a + b) <==>
            FlatPaired(a) && forall j :: 0 <= j < |b| && b[j].role == TOOL ==> b[j].toolCallId in FlatOpen(a + b[..j])
  {
    var c := a + b;
    forall j | 0 <= j < |a| ensures AnsweredAt(c, j, c[j].toolCallId) <==> AnsweredAt(a, j, a[j].toolCallId) {
      AnsweredIffOpen(c, j, c[j].toolCallId);
      AnsweredIffOpen(a, j, a[j].toolCallId);
      assert c[..j] == a[..j];
    }
    forall j | 0 <= j < |b|
      ensures AnsweredAt(c, |a| + j, b[j].toolCallId) <==> b[j].toolCallId in FlatOpen(a + b[..j]) {
      AnsweredIffOpen(c, |a| + j, b[j].toolCallId);
      assert c[..|a| + j] == a + b[..j];
    }
    assert forall j :: 0 <= j < |b| ==> c[|a| + j] == b[j];
    if FlatPaired(c) {
      forall j | 0 <= j < |a| && a[j].role == TOOL ensures AnsweredAt(a, j, a[j].toolCallId) {
        assert c[j] == a[j];
      }
    }
  }

  lemma {:induction false} OpenAfterResults(a: seq<FlatMessage>, rs: seq<FlatMessage>)
    requires forall i :: 0 <= i < |rs| ==> rs[i].role == TOOL
    ensures FlatOpen(a + rs) == FlatOpen(a)
  {
    if rs == [] {
      assert a + rs == a;
    } else {
      assert (a + rs)[..|a + rs| - 1] == a + rs[..|rs| - 1];
      OpenAfterResults(a, rs[..|rs| - 1]);
    }
  }

  predicate AllIn(rs: seq<FlatMessage>, open: set<string>) {
    forall j :: 0 <= j < |rs| ==> rs[j].toolCallId in open
  }

  lemma {:induction false} ResultsPairing(a: seq<FlatMessage>, rs: seq<FlatMessage>)
    requires forall i :: 0 <= i < |rs| ==> rs[i].role == TOOL
    ensures FlatPaired(a + rs) <==> FlatPaired(a) && AllIn(rs, FlatOpen(a))
  {
    FlatPairedAppend(a, rs);
    forall j | 0 <= j < |rs| ensures FlatOpen(a + rs[..j]) == FlatOpen(a) {
      OpenAfterResults(a, rs[..j]);
    }
  }

  lemma {:induction false} OnePairing(a: seq<FlatMessage>, m: FlatMessage)
    requires m.role != TOOL
    ensures FlatPaired(a + [m]) <==> FlatPaired(a)
    ensures FlatOpen(a + [m]) == if m.role == ASSISTANT then IdsOf(m.toolCalls) else {}
  {
    FlatPairedAppend(a, [m]);
  }

  lemma {:induction false} MessagePairing(a: seq<FlatMessage>, m: RichMessage)
    ensures FlatOpen(a + FlatOf(m)) ==
            if m.role == ASSISTANT then IdsOf(CallsOf(m.content))
            else if TextOf(m.content) != "" then {} else FlatOpen(a)
    ensures FlatPaired(a + FlatOf(m)) <==> FlatPaired(a) && ResultsAnswer(m, FlatOpen(a))
  {
    var text, rs := TextOf(m.content), ResultsOf(m.content);
    var user := FlatMessage("user", text, "", []);
    if m.role == ASSISTANT {
      OnePairing(a, FlatMessage(ASSISTANT, text, "", CallsOf(m.content)));
    } else if text != "" {
      OnePairing(a, user);
      ResultsPairing(a + [user], rs);
      OpenAfterResults(a + [user], rs);
      Q.Associates(a, [user], rs);
    } else {
      ResultsPairing(a, rs);
      OpenAfterResults(a, rs);
      assert [] + rs == rs;
    }
  }

  /**
    Every flat tool message answers the nearest assistant message, with only tool messages
    between, exactly when every rich message with results is text-free and its results answer
    calls of the last assistant message, with only text-free messages between.
  */
  lemma {:induction false} PairingIsPreserved(system: string, ms: seq<RichMessage>)
    ensures FlatPaired(SystemPart(system) + FlatAll(ms)) <==> RichPaired(ms)
    ensures FlatOpen(SystemPart(system) + FlatAll(ms)) == OpenCalls(ms)
  {
    var sys := SystemPart(system);
    if ms == [] {
      assert sys + [] == sys;
    } else {
      var front, m := ms[..|ms| - 1], ms[|ms| - 1];
      PairingIsPreserved(system, front);
      MessagePairing(sys + FlatAll(front), m);
      Q.Associates(sys, FlatAll(front), FlatOf(m));
    }
  }

  /** The usual shape of a tool conversation: results in a text-free message right after their calls. */
  predicate ResultsRightAfterCalls(ms: seq<RichMessage>) {
    forall k :: 0 <= k < |ms| && ms[k].role != ASSISTANT && ResultsOf(ms[k].content) != [] ==>
      && k > 0 && ms[k - 1].role == ASSISTANT && TextOf(ms[k].content) == ""
      && forall i :: 0 <= i < |ResultsOf(ms[k].content)| ==>
           ResultsOf(ms[k].content)[i].toolCallId in IdsOf(CallsOf(ms[k - 1].content))
  }

  lemma {:induction false} UsualShapeIsPaired(ms: seq<RichMessage>)
    requires ResultsRightAfterCalls(ms)
    ensures RichPaired(ms)
  {
    if ms != [] {
      var front := ms[..|ms| - 1];
      assert forall k :: 0 <= k < |front| ==> front[k] == ms[k];
      UsualShapeIsPaired(front);
    }
  }
}
