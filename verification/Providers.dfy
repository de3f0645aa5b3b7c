/** Translating the history for the model providers (cli/src/terminal.rs, engine/src/llm/openai_compat.rs,
    engine/src/llm/claude.rs). */
module Providers {
  import opened Basics
  import opened Strings
  import opened Json
  import opened Conversation

  datatype Media = Media(mimeType: string, data: string)

  /** The engine's `Message`. */
  datatype EngineMessage = EngineMessage(
    role: string,
    content: Option<string>,
    toolCalls: Option<seq<ToolCall>>,
    toolCallId: Option<string>,
    media: Option<seq<Media>>)

  const EMPTY_OBJECT := Obj(map[])

  // ---------------------------------------------------------------------------
  // From the session's JSON to engine messages
  // ---------------------------------------------------------------------------

  function CallJson(c: ToolCall): Json {
    Obj(map["id" := Str(c.id), "type" := Str("function"),
            "function" := Obj(map["name" := Str(c.name), "arguments" := Str(c.arguments)])])
  }

  function CallsJson(calls: seq<ToolCall>): seq<Json> {
    if calls == [] then [] else [CallJson(calls[0])] + CallsJson(calls[1..])
  }

  /** The JSON object the session pushes for a message. */
  function ToJson(m: Message): Json {
    match m
    case System(text) => Obj(map["role" := Str("system"), "content" := Str(text)])
    case User(text) => Obj(map["role" := Str("user"), "content" := Str(text)])
    case Assistant(text) => Obj(map["role" := Str("assistant"), "content" := Str(text)])
    case AssistantCalls(text, calls) =>
      if text == "" then Obj(map["role" := Str("assistant"), "tool_calls" := Arr(CallsJson(calls))])
      else Obj(map["role" := Str("assistant"), "content" := Str(text), "tool_calls" := Arr(CallsJson(calls))])
    case ToolResult(id, content) =>
      Obj(map["role" := Str("tool"), "tool_call_id" := Str(id), "content" := Str(content)])
  }

  /** One entry of a `tool_calls` array, if it has an id and a function with a name. */
  function ReadCall(codec: Codec, v: Json): Option<ToolCall> {
    match (v.GetStr("id"), v.Get("function"))
    case (Some(id), Some(f)) =>
      (match f.GetStr("name")
       case None => None
       case Some(name) =>
         var arguments := match f.Get("arguments") case None => "{}" case Some(Str(s)) => s case Some(a) => codec.render(a);
         Some(ToolCall(id, name, arguments)))
    case _ => None
  }

  function ReadCalls(codec: Codec, vs: seq<Json>): seq<ToolCall> {
    if vs == [] then []
    else
      match ReadCall(codec, vs[0])
      case None => ReadCalls(codec, vs[1..])
      case Some(c) => [c] + ReadCalls(codec, vs[1..])
  }

  /** `value_to_message`. */
  function ValueToMessage(codec: Codec, v: Json): EngineMessage {
    var calls :=
      match v.Get("tool_calls")
      case Some(Arr(items)) => Some(ReadCalls(codec, items))
      case _ => None;
    EngineMessage(OrElse(v.GetStr("role"), "user"), v.GetStr("content"), calls, v.GetStr("tool_call_id"), None)
  }

  function ValuesToMessages(codec: Codec, vs: seq<Json>): seq<EngineMessage> {
    if vs == [] then [] else [ValueToMessage(codec, vs[0])] + ValuesToMessages(codec, vs[1..])
  }

  function AllJson(messages: seq<Message>): seq<Json> {
    if messages == [] then [] else [ToJson(messages[0])] + AllJson(messages[1..])
  }

  lemma {:induction false} CallsAreReadBack(codec: Codec, calls: seq<ToolCall>)
    ensures ReadCalls(codec, CallsJson(calls)) == calls
  {
    if calls != [] {
      CallsAreReadBack(codec, calls[1..]);
      assert ReadCall(codec, CallJson(calls[0])) == Some(calls[0]);
      assert CallsJson(calls)[1..] == CallsJson(calls[1..]);
    }
  }

  /** The engine message that a session message becomes. */
  function Engine(m: Message): EngineMessage {
    match m
    case System(text) => EngineMessage("system", Some(text), None, None, None)
    case User(text) => EngineMessage("user", Some(text), None, None, None)
    case Assistant(text) => EngineMessage("assistant", Some(text), None, None, None)
    case AssistantCalls(text, calls) =>
      EngineMessage("assistant", if text == "" then None else Some(text), Some(calls), None, None)
    case ToolResult(id, content) => EngineMessage("tool", Some(content), None, Some(id), None)
  }

  lemma ReadingGivesEngine(codec: Codec, m: Message)
    ensures ValueToMessage(codec, ToJson(m)) == Engine(m)
  {
    if m.AssistantCalls? {
      CallsAreReadBack(codec, m.calls);
    }
  }

  // ---------------------------------------------------------------------------
  // OpenAI
  // ---------------------------------------------------------------------------

  function ImageParts(media: seq<Media>): seq<Json> {
    if media == [] then []
    else
      [Obj(map["type" := Str("image_url"),
               "image_url" := Obj(map["url" := Str("data:" + media[0].mimeType + ";base64," + media[0].data)])])]
      + ImageParts(media[1..])
  }

  /** One message of `convert_messages`, filled in field by field. */
  function OpenAiMessage(m: EngineMessage): Json {
    var obj := map["role" := Str(m.role)];
    var obj1 :=
      if m.media.Some? && m.media.value != [] then
        var text := if m.content.Some? && m.content.value != "" then
                      [Obj(map["type" := Str("text"), "text" := Str(m.content.value)])] else [];
        obj["content" := Arr(ImageParts(m.media.value) + text)]
      else if m.content.Some? then obj["content" := Str(m.content.value)]
      else obj;
    var obj2 := if m.toolCalls.Some? then obj1["tool_calls" := Arr(CallsJson(m.toolCalls.value))] else obj1;
    var obj3 := if m.toolCallId.Some? then obj2["tool_call_id" := Str(m.toolCallId.value)] else obj2;
    Obj(obj3)
  }

  lemma {:induction false} ImagePartsAt(media: seq<Media>, i: nat)
    requires i < |media|
    ensures |ImageParts(media)| == |media|
    ensures ImageParts(media)[i]
         == Obj(map["type" := Str("image_url"),
                    "image_url" := Obj(map["url" := Str("data:" + media[i].mimeType + ";base64," + media[i].data)])])
  {
    if |media| > 1 {
      ImagePartsAt(media[1..], if i > 0 then i - 1 else 0);
    }
  }

  /** A message with images is sent as a list of parts: the images as data URLs, then its text unless that is empty. */
  lemma OpenAiImages(m: EngineMessage)
    requires m.media.Some? && m.media.value != []
    ensures OpenAiMessage(m).Get("content")
         == Some(Arr(ImageParts(m.media.value)
                     + if OrElse(m.content, "") == "" then []
                       else [Obj(map["type" := Str("text"), "text" := Str(m.content.value)])]))
  {}

  function OpenAiMessages(ms: seq<EngineMessage>): seq<Json> {
    if ms == [] then [] else [OpenAiMessage(ms[0])] + OpenAiMessages(ms[1..])
  }

  lemma OpenAiIdentity(codec: Codec, m: Message)
    ensures OpenAiMessage(ValueToMessage(codec, ToJson(m))) == ToJson(m)
  {
    ReadingGivesEngine(codec, m);
    match m
    case AssistantCalls(text, calls) =>
      if text == "" {
        assert OpenAiMessage(Engine(m)).fields == ToJson(m).fields;
      } else {
        assert OpenAiMessage(Engine(m)).fields == ToJson(m).fields;
      }
    case _ =>
      assert OpenAiMessage(Engine(m)).fields == ToJson(m).fields;
  }

  /** For every history the session can build, reading it into engine messages and writing those for an
      OpenAI-style provider gives the history back, object for object. */
  lemma {:induction false} OpenAiSeesTheHistory(codec: Codec, messages: seq<Message>)
    ensures OpenAiMessages(ValuesToMessages(codec, AllJson(messages))) == AllJson(messages)
  {
    if messages != [] {
      OpenAiIdentity(codec, messages[0]);
      OpenAiSeesTheHistory(codec, messages[1..]);
      assert AllJson(messages)[1..] == AllJson(messages[1..]);
      assert ValuesToMessages(codec, AllJson(messages))[1..] == ValuesToMessages(codec, AllJson(messages[1..]));
    }
  }

  // ---------------------------------------------------------------------------
  // Claude
  // ---------------------------------------------------------------------------

  function TextBlock(text: string): Json {
    Obj(map["type" := Str("text"), "text" := Str(text)])
  }

  function ArgumentsValue(codec: Codec, arguments: string): Json {
    OrElse(codec.parse(arguments), EMPTY_OBJECT)
  }

  function UseBlock(codec: Codec, c: ToolCall): Json {
    Obj(map["type" := Str("tool_use"), "id" := Str(c.id), "name" := Str(c.name), "input" := ArgumentsValue(codec, c.arguments)])
  }

  function UseBlocks(codec: Codec, calls: seq<ToolCall>): seq<Json> {
    if calls == [] then [] else UseBlocks(codec, calls[..|calls| - 1]) + [UseBlock(codec, calls[|calls| - 1])]
  }

  function AssistantBlocks(codec: Codec, content: Option<string>, calls: seq<ToolCall>): seq<Json> {
    (if content.Some? && content.value != "" then [TextBlock(content.value)] else []) + UseBlocks(codec, calls)
  }

  function ResultBlock(id: string, content: string): Json {
    Obj(map["type" := Str("tool_result"), "tool_use_id" := Str(id), "content" := Str(content)])
  }

  function ImageBlock(m: Media): Json {
    Obj(map["type" := Str("image"),
            "source" := Obj(map["type" := Str("base64"), "media_type" := Str(m.mimeType), "data" := Str(m.data)])])
  }

  function ImageBlocks(media: seq<Media>): seq<Json> {
    if media == [] then [] else ImageBlocks(media[..|media| - 1]) + [ImageBlock(media[|media| - 1])]
  }

  function RoleContent(role: string, content: Json): Json {
    Obj(map["role" := Str(role), "content" := content])
  }

  /** What a message that is not a system message becomes. */
  function ClaudeMessage(codec: Codec, m: EngineMessage): Json {
    if m.role == "assistant" then
      if m.toolCalls.Some? then RoleContent("assistant", Arr(AssistantBlocks(codec, m.content, m.toolCalls.value)))
      else RoleContent("assistant", Str(OrElse(m.content, "")))
    else if m.role == "tool" then
      RoleContent("user", Arr([ResultBlock(OrElse(m.toolCallId, ""), OrElse(m.content, ""))]))
    else if m.media.Some? && m.media.value != [] then
      var text := if m.content.Some? && m.content.value != "" then [TextBlock(m.content.value)] else [];
      RoleContent(m.role, Arr(ImageBlocks(m.media.value) + text))
    else RoleContent(m.role, Str(OrElse(m.content, "")))
  }

  /** The contents of the system messages, in order. */
  function SystemTexts(ms: seq<EngineMessage>): seq<string> {
    if ms == [] then []
    else
      var init, last := SystemTexts(ms[..|ms| - 1]), ms[|ms| - 1];
      if last.role == "system" && last.content.Some? then init + [last.content.value] else init
  }

  function NonSystem(ms: seq<EngineMessage>): seq<EngineMessage> {
    if ms == [] then []
    else
      var init, last := NonSystem(ms[..|ms| - 1]), ms[|ms| - 1];
      if last.role == "system" then init else init + [last]
  }

  function ClaudeMessages(codec: Codec, ms: seq<EngineMessage>): (r: seq<Json>)
    ensures |r| == |ms|
  {
    if ms == [] then [] else ClaudeMessages(codec, ms[..|ms| - 1]) + [ClaudeMessage(codec, ms[|ms| - 1])]
  }

  /** `convert_messages` of the Claude adapter: system texts joined by newlines, everything else converted in order. */
  method ConvertForClaude(codec: Codec, messages: seq<EngineMessage>) returns (system: Option<string>, converted: seq<Json>)
    ensures system == if SystemTexts(messages) == [] then None else Some(Join(SystemTexts(messages), "\n"))
    ensures converted == ClaudeMessages(codec, NonSystem(messages))
  {
    system, converted := None, [];
    for i := 0 to |messages|
      invariant system == if SystemTexts(messages[..i]) == [] then None else Some(Join(SystemTexts(messages[..i]), "\n"))
      invariant converted == ClaudeMessages(codec, NonSystem(messages[..i]))
    {
      var msg := messages[i];
      assert messages[..i + 1][..i] == messages[..i];
      if msg.role == "system" {
        if msg.content.Some? {
          JoinSnoc(SystemTexts(messages[..i]), msg.content.value, "\n");
          system := match system case Some(existing) => Some(existing + "\n" + msg.content.value) case None => msg.content;
        }
      } else {
        var json := ConvertOne(codec, msg);
        assert (NonSystem(messages[..i]) + [msg])[..|NonSystem(messages[..i])|] == NonSystem(messages[..i]);
        converted := converted + [json];
      }
    }
    assert messages[..|messages|] == messages;
  }

  /** The branches of the loop body that push a converted message. */
  method ConvertOne(codec: Codec, msg: EngineMessage) returns (json: Json)
    ensures json == ClaudeMessage(codec, msg)
  {
    if msg.role == "assistant" {
      if msg.toolCalls == None {
        return RoleContent("assistant", Str(OrElse(msg.content, "")));
      }
      var calls := msg.toolCalls.value;
      var blocks: seq<Json> := [];
      if msg.content.Some? && msg.content.value != "" {
        blocks := [TextBlock(msg.content.value)];
      }
      ghost var text := blocks;
      for i := 0 to |calls|
        invariant blocks == text + UseBlocks(codec, calls[..i])
      {
        assert calls[..i + 1][..i] == calls[..i];
        blocks := blocks + [UseBlock(codec, calls[i])];
      }
      assert calls[..|calls|] == calls;
      return RoleContent("assistant", Arr(blocks));
    } else if msg.role == "tool" {
      return RoleContent("user", Arr([ResultBlock(OrElse(msg.toolCallId, ""), OrElse(msg.content, ""))]));
    } else if msg.media.Some? && msg.media.value != [] {
      var media, blocks: seq<Json> := msg.media.value, [];
      for i := 0 to |media|
        invariant blocks == ImageBlocks(media[..i])
      {
        assert media[..i + 1][..i] == media[..i];
        blocks := blocks + [ImageBlock(media[i])];
      }
      assert media[..|media|] == media;
      assert ImageBlocks(media) + [] == ImageBlocks(media);
      if msg.content.Some? && msg.content.value != "" {
        blocks := blocks + [TextBlock(msg.content.value)];
      }
      return RoleContent(msg.role, Arr(blocks));
    } else {
      return RoleContent(msg.role, Str(OrElse(msg.content, "")));
    }
  }

  // ---------------------------------------------------------------------------
  // Reading Claude's blocks back
  // ---------------------------------------------------------------------------

  /** `extract_text`. */
  function ExtractText(blocks: seq<Json>): string {
    if blocks == [] then ""
    else
      (if blocks[0].GetStr("type") == Some("text") then OrElse(blocks[0].GetStr("text"), "") else "")
      + ExtractText(blocks[1..])
  }

  /** `parse_tool_calls`. */
  function ParseToolCalls(codec: Codec, blocks: seq<Json>): seq<ToolCall> {
    if blocks == [] then []
    else if blocks[0].GetStr("type") == Some("tool_use") then
      var b := blocks[0];
      [ToolCall(OrElse(b.GetStr("id"), ""), OrElse(b.GetStr("name"), ""), codec.render(OrElse(b.Get("input"), EMPTY_OBJECT)))]
      + ParseToolCalls(codec, blocks[1..])
    else ParseToolCalls(codec, blocks[1..])
  }

  /** The call with its arguments rewritten as the text of the value they stand for. */
  function NormalisedCall(codec: Codec, c: ToolCall): ToolCall {
    c.(arguments := codec.render(ArgumentsValue(codec, c.arguments)))
  }

  function NormalisedCalls(codec: Codec, calls: seq<ToolCall>): (r: seq<ToolCall>)
    ensures |r| == |calls|
  {
    if calls == [] then [] else NormalisedCalls(codec, calls[..|calls| - 1]) + [NormalisedCall(codec, calls[|calls| - 1])]
  }

  lemma {:induction false} ExtractTextConcat(a: seq<Json>, b: seq<Json>)
    ensures ExtractText(a + b) == ExtractText(a) + ExtractText(b)
  {
    if a == [] {
      assert a + b == b;
    } else {
      assert (a + b)[1..] == a[1..] + b;
      ExtractTextConcat(a[1..], b);
    }
  }

  lemma {:induction false} ParseToolCallsConcat(codec: Codec, a: seq<Json>, b: seq<Json>)
    ensures ParseToolCalls(codec, a + b) == ParseToolCalls(codec, a) + ParseToolCalls(codec, b)
  {
    if a == [] {
      assert a + b == b;
    } else {
      assert (a + b)[1..] == a[1..] + b;
      ParseToolCallsConcat(codec, a[1..], b);
    }
  }

  lemma {:induction false} UseBlocksAreReadBack(codec: Codec, calls: seq<ToolCall>)
    ensures ParseToolCalls(codec, UseBlocks(codec, calls)) == NormalisedCalls(codec, calls)
    ensures ExtractText(UseBlocks(codec, calls)) == ""
  {
    if calls != [] {
      var init, last := calls[..|calls| - 1], calls[|calls| - 1];
      UseBlocksAreReadBack(codec, init);
      ParseToolCallsConcat(codec, UseBlocks(codec, init), [UseBlock(codec, last)]);
      ExtractTextConcat(UseBlocks(codec, init), [UseBlock(codec, last)]);
      assert [UseBlock(codec, last)][1..] == [];
    }
  }

  /** The blocks of any assistant message with calls give back its text and its calls, ids, names and order exact
      and arguments as the text of the same JSON value. */
  lemma AssistantBlocksAreReadBack(codec: Codec, content: Option<string>, calls: seq<ToolCall>)
    ensures ExtractText(AssistantBlocks(codec, content, calls)) == OrElse(content, "")
    ensures ParseToolCalls(codec, AssistantBlocks(codec, content, calls)) == NormalisedCalls(codec, calls)
  {
    UseBlocksAreReadBack(codec, calls);
    if content.Some? && content.value != "" {
      var head := [TextBlock(content.value)];
      assert head[1..] == [];
      ExtractTextConcat(head, UseBlocks(codec, calls));
      ParseToolCallsConcat(codec, head, UseBlocks(codec, calls));
    } else {
      assert AssistantBlocks(codec, content, calls) == UseBlocks(codec, calls);
    }
  }

  /** Normalising keeps ids, names and order. It keeps the value of the arguments exactly if that value survives the
      codec, and then normalising a second time changes nothing. */
  lemma {:induction false} NormalisedCallsMean(codec: Codec, calls: seq<ToolCall>, i: nat)
    requires i < |calls|
    ensures var n, value := NormalisedCalls(codec, calls)[i], ArgumentsValue(codec, calls[i].arguments);
      && n.id == calls[i].id && n.name == calls[i].name
      && (codec.parse(n.arguments) == Some(value) <==> Survives(codec, value))
      && (Survives(codec, value) ==> NormalisedCall(codec, n) == n)
  {
    var init, last := calls[..|calls| - 1], calls[|calls| - 1];
    if i < |init| {
      NormalisedCallsMean(codec, init, i);
    }
  }

  // ---------------------------------------------------------------------------
  // Pairing survives the translation
  // ---------------------------------------------------------------------------

  /** The `key` strings of the blocks of one type in a message's content. */
  function BlockIds(blocks: seq<Json>, kind: string, key: string): seq<string> {
    if blocks == [] then []
    else if blocks[0].GetStr("type") == Some(kind) then [OrElse(blocks[0].GetStr(key), "")] + BlockIds(blocks[1..], kind, key)
    else BlockIds(blocks[1..], kind, key)
  }

  function ContentBlocks(m: Json): seq<Json> {
    match m.Get("content") case Some(Arr(blocks)) => blocks case _ => []
  }

  function UseIds(m: Json): seq<string> {
    BlockIds(ContentBlocks(m), "tool_use", "id")
  }

  function ResultIds(m: Json): seq<string> {
    BlockIds(ContentBlocks(m), "tool_result", "tool_use_id")
  }

  /** `Expect` for converted messages: pending uses are answered one result at a time, in order, and nothing else
      comes in between. */
  function ExpectClaude(pending: seq<string>, m: Json): Option<seq<string>> {
    if pending != [] then
      if ResultIds(m) == [pending[0]] && UseIds(m) == [] then Some(pending[1..]) else None
    else if ResultIds(m) != [] then None
    else Some(UseIds(m))
  }

  function ExpectAllClaude(pending: seq<string>, ms: seq<Json>): Option<seq<string>>
    decreases |ms|
  {
    if ms == [] then Some(pending)
    else
      match ExpectClaude(pending, ms[0])
      case None => None
      case Some(next) => ExpectAllClaude(next, ms[1..])
  }

  function EngineAll(messages: seq<Message>): seq<EngineMessage> {
    if messages == [] then [] else EngineAll(messages[..|messages| - 1]) + [Engine(messages[|messages| - 1])]
  }

  lemma {:induction false} BlockIdsConcat(a: seq<Json>, b: seq<Json>, kind: string, key: string)
    ensures BlockIds(a + b, kind, key) == BlockIds(a, kind, key) + BlockIds(b, kind, key)
  {
    if a == [] {
      assert a + b == b;
    } else {
      assert (a + b)[1..] == a[1..] + b;
      BlockIdsConcat(a[1..], b, kind, key);
    }
  }

  lemma OneBlockIds(block: Json, kind: string, key: string)
    ensures BlockIds([block], kind, key) == if block.GetStr("type") == Some(kind) then [OrElse(block.GetStr(key), "")] else []
  {
    assert [block][1..] == [];
  }

  lemma {:induction false} UseBlockIds(codec: Codec, calls: seq<ToolCall>)
    ensures BlockIds(UseBlocks(codec, calls), "tool_use", "id") == CallIds(calls)
    ensures BlockIds(UseBlocks(codec, calls), "tool_result", "tool_use_id") == []
  {
    if calls != [] {
      var init, last := calls[..|calls| - 1], calls[|calls| - 1];
      UseBlockIds(codec, init);
      BlockIdsSnoc(UseBlocks(codec, init), UseBlock(codec, last), "tool_use", "id");
      BlockIdsSnoc(UseBlocks(codec, init), UseBlock(codec, last), "tool_result", "tool_use_id");
      CallIdsSnoc(init, last);
      assert calls == init + [last];
    }
  }

  lemma BlockIdsSnoc(blocks: seq<Json>, last: Json, kind: string, key: string)
    ensures BlockIds(blocks + [last], kind, key)
         == BlockIds(blocks, kind, key) + if last.GetStr("type") == Some(kind) then [OrElse(last.GetStr(key), "")] else []
  {
    BlockIdsConcat(blocks, [last], kind, key);
    OneBlockIds(last, kind, key);
  }

  lemma CallIdsSnoc(calls: seq<ToolCall>, last: ToolCall)
    ensures CallIds(calls + [last]) == CallIds(calls) + [last.id]
  {}

  lemma AssistantBlockIds(codec: Codec, content: Option<string>, calls: seq<ToolCall>)
    ensures BlockIds(AssistantBlocks(codec, content, calls), "tool_use", "id") == CallIds(calls)
    ensures BlockIds(AssistantBlocks(codec, content, calls), "tool_result", "tool_use_id") == []
  {
    var uses := UseBlocks(codec, calls);
    UseBlockIds(codec, calls);
    if content.Some? && content.value != "" {
      var head := TextBlock(content.value);
      BlockIdsConcat([head], uses, "tool_use", "id");
      BlockIdsConcat([head], uses, "tool_result", "tool_use_id");
      OneBlockIds(head, "tool_use", "id");
      OneBlockIds(head, "tool_result", "tool_use_id");
    } else {
      assert AssistantBlocks(codec, content, calls) == uses;
    }
  }

  lemma MessageIds(codec: Codec, m: Message)
    requires !m.System?
    ensures UseIds(ClaudeMessage(codec, Engine(m))) == if m.AssistantCalls? then CallIds(m.calls) else []
    ensures ResultIds(ClaudeMessage(codec, Engine(m))) == if m.ToolResult? then [m.callId] else []
  {
    match m
    case AssistantCalls(text, calls) =>
      var blocks := AssistantBlocks(codec, Engine(m).content, calls);
      AssistantBlockIds(codec, Engine(m).content, calls);
      assert ContentBlocks(ClaudeMessage(codec, Engine(m))) == blocks;
    case ToolResult(id, content) =>
      OneBlockIds(ResultBlock(id, content), "tool_use", "id");
      OneBlockIds(ResultBlock(id, content), "tool_result", "tool_use_id");
    case _ =>
  }

  lemma ExpectAgrees(codec: Codec, pending: seq<string>, m: Message)
    requires !m.System?
    ensures ExpectClaude(pending, ClaudeMessage(codec, Engine(m))) == Expect(pending, m)
  {
    MessageIds(codec, m);
  }

  lemma {:induction false} ClaudeSplit(pending: seq<string>, a: seq<Json>, m: Json)
    ensures ExpectAllClaude(pending, a + [m])
         == if ExpectAllClaude(pending, a) == None then None else ExpectClaude(ExpectAllClaude(pending, a).value, m)
    decreases |a|
  {
    if a == [] {
      assert a + [m] == [m] && [m][1..] == [];
    } else {
      assert (a + [m])[1..] == a[1..] + [m];
      if ExpectClaude(pending, a[0]).Some? {
        ClaudeSplit(ExpectClaude(pending, a[0]).value, a[1..], m);
      }
    }
  }

  lemma SessionSplit(pending: seq<string>, a: seq<Message>, m: Message)
    ensures ExpectAll(pending, a + [m])
         == if ExpectAll(pending, a) == None then None else Expect(ExpectAll(pending, a).value, m)
  {
    ExpectAllSplit(pending, a, [m]);
    assert [m][1..] == [];
  }

  ghost predicate NoSystem(messages: seq<Message>) {
    forall i :: 0 <= i < |messages| ==> !messages[i].System?
  }

  lemma EngineAllStep(messages: seq<Message>)
    requires messages != []
    ensures var es := EngineAll(messages);
      |es| > 0 && es[..|es| - 1] == EngineAll(messages[..|messages| - 1]) && es[|es| - 1] == Engine(messages[|messages| - 1])
  {}

  lemma {:induction false} NothingToFilter(messages: seq<Message>)
    requires NoSystem(messages)
    ensures NonSystem(EngineAll(messages)) == EngineAll(messages)
  {
    if messages != [] {
      NothingToFilter(messages[..|messages| - 1]);
      EngineAllStep(messages);
    }
  }

  lemma ConvertedSnoc(codec: Codec, messages: seq<Message>, last: Message)
    ensures ClaudeMessages(codec, EngineAll(messages + [last]))
         == ClaudeMessages(codec, EngineAll(messages)) + [ClaudeMessage(codec, Engine(last))]
  {
    EngineAllStep(messages + [last]);
    assert (messages + [last])[..|messages|] == messages;
  }

  lemma {:induction false} ClaudeExpectsTheSame(codec: Codec, messages: seq<Message>)
    requires NoSystem(messages)
    ensures ExpectAllClaude([], ClaudeMessages(codec, EngineAll(messages))) == ExpectAll([], messages)
  {
    if messages != [] {
      var init, last := messages[..|messages| - 1], messages[|messages| - 1];
      ClaudeExpectsTheSame(codec, init);
      ClaudeExpectsOneMore(codec, init, last);
      assert messages == init + [last];
    }
  }

  lemma ClaudeExpectsOneMore(codec: Codec, init: seq<Message>, last: Message)
    requires !last.System?
    requires ExpectAllClaude([], ClaudeMessages(codec, EngineAll(init))) == ExpectAll([], init)
    ensures ExpectAllClaude([], ClaudeMessages(codec, EngineAll(init + [last]))) == ExpectAll([], init + [last])
  {
    ConvertedSnoc(codec, init, last);
    ClaudeSplit([], ClaudeMessages(codec, EngineAll(init)), ClaudeMessage(codec, Engine(last)));
    SessionSplit([], init, last);
    if ExpectAll([], init).Some? {
      ExpectAgrees(codec, ExpectAll([], init).value, last);
    }
  }

  lemma {:induction false} EngineAllAfterSystem(text: string, rest: seq<Message>)
    requires NoSystem(rest)
    ensures SystemTexts(EngineAll([System(text)] + rest)) == [text]
    ensures NonSystem(EngineAll([System(text)] + rest)) == EngineAll(rest)
  {
    var all := [System(text)] + rest;
    var es := EngineAll(all);
    if rest == [] {
      assert all == [System(text)] && all[..0] == [];
      assert es == [Engine(System(text))] && es[..0] == [];
    } else {
      var init, last := rest[..|rest| - 1], rest[|rest| - 1];
      EngineAllAfterSystem(text, init);
      assert all[..|all| - 1] == [System(text)] + init;
      assert es[..|es| - 1] == EngineAll([System(text)] + init) && es[|es| - 1] == Engine(last);
    }
  }

  /** For every session Claude is sent the system prompt apart, and its tool results answer its tool uses exactly
      when the session's history is paired. */
  lemma ClaudeSeesThePairing(codec: Codec, systemPrompt: string, inputs: seq<Input>, maxRounds: nat)
    ensures var history := History(systemPrompt, inputs, maxRounds);
      && history != []
      && SystemTexts(EngineAll(history)) == [systemPrompt]
      && (ExpectAllClaude([], ClaudeMessages(codec, NonSystem(EngineAll(history)))) == Some([]) <==> Paired(history[1..]))
  {
    var history := History(systemPrompt, inputs, maxRounds);
    OneSystemMessage(systemPrompt, inputs, maxRounds);
    var rest := history[1..];
    assert history == [System(systemPrompt)] + rest;
    assert NoSystem(rest);
    EngineAllAfterSystem(systemPrompt, rest);
    ClaudeExpectsTheSame(codec, rest);
  }
}
