/** What a reader of the messages sent to Claude finds in them (engine/src/llm/claude.rs). */
module ClaudeReader {
  import opened Basics
  import opened Json
  import opened Conversation
  import opened Providers

  // ---------------------------------------------------------------------------
  // Reading a message
  // ---------------------------------------------------------------------------

  /** The text in a content block: that of a text block, or the content of a tool result. */
  function BlockText(block: Json): string {
    match block.GetStr("type")
    case Some(kind) =>
      if kind == "text" then OrElse(block.GetStr("text"), "")
      else if kind == "tool_result" then OrElse(block.GetStr("content"), "")
      else ""
    case None => ""
  }

  function BlocksText(blocks: seq<Json>): string {
    if blocks == [] then "" else BlockText(blocks[0]) + BlocksText(blocks[1..])
  }

  /** The image in a content block, if it is one. */
  function BlockImages(block: Json): seq<Media> {
    if block.GetStr("type") == Some("image") then
      match block.Get("source")
      case Some(source) => [Media(OrElse(source.GetStr("media_type"), ""), OrElse(source.GetStr("data"), ""))]
      case None => []
    else []
  }

  function BlocksImages(blocks: seq<Json>): seq<Media> {
    if blocks == [] then [] else BlockImages(blocks[0]) + BlocksImages(blocks[1..])
  }

  /** Who speaks, what is said and what is shown. */
  datatype Reading = Reading(role: string, text: string, images: seq<Media>)

  function Read(message: Json): Reading {
    var role := OrElse(message.GetStr("role"), "");
    match message.Get("content")
    case Some(Str(text)) => Reading(role, text, [])
    case Some(Arr(blocks)) => Reading(role, BlocksText(blocks), BlocksImages(blocks))
    case _ => Reading(role, "", [])
  }

  function ReadAll(messages: seq<Json>): (r: seq<Reading>)
    ensures |r| == |messages| && forall i :: 0 <= i < |messages| ==> r[i] == Read(messages[i])
  {
    seq(|messages|, i requires 0 <= i < |messages| => Read(messages[i]))
  }

  // ---------------------------------------------------------------------------
  // What is read is what was sent
  // ---------------------------------------------------------------------------

  lemma {:induction false} TextConcat(a: seq<Json>, b: seq<Json>)
    ensures BlocksText(a + b) == BlocksText(a) + BlocksText(b)
  {
    if a == [] {
      assert a + b == b;
    } else {
      assert (a + b)[1..] == a[1..] + b;
      TextConcat(a[1..], b);
    }
  }

  lemma {:induction false} ImagesConcat(a: seq<Json>, b: seq<Json>)
    ensures BlocksImages(a + b) == BlocksImages(a) + BlocksImages(b)
  {
    if a == [] {
      assert a + b == b;
    } else {
      assert (a + b)[1..] == a[1..] + b;
      ImagesConcat(a[1..], b);
    }
  }

  lemma BlocksConcat(a: seq<Json>, b: seq<Json>)
    ensures BlocksText(a + b) == BlocksText(a) + BlocksText(b) && BlocksImages(a + b) == BlocksImages(a) + BlocksImages(b)
  {
    TextConcat(a, b);
    ImagesConcat(a, b);
  }

  lemma OneBlock(block: Json)
    ensures BlocksText([block]) == BlockText(block) && BlocksImages([block]) == BlockImages(block)
  {
    assert [block][1..] == [];
  }

  lemma {:induction false} UsesSayNothing(codec: Codec, calls: seq<ToolCall>)
    ensures BlocksText(UseBlocks(codec, calls)) == "" && BlocksImages(UseBlocks(codec, calls)) == []
  {
    if calls != [] {
      var init, last := calls[..|calls| - 1], UseBlock(codec, calls[|calls| - 1]);
      UsesSayNothing(codec, init);
      BlocksConcat(UseBlocks(codec, init), [last]);
      OneBlock(last);
    }
  }

  lemma ImagesAreRead(media: seq<Media>)
    ensures BlocksText(ImageBlocks(media)) == "" && BlocksImages(ImageBlocks(media)) == media
  {
    ImagesSayNothing(media);
    ImagesAreShown(media);
  }

  lemma {:induction false} ImagesSayNothing(media: seq<Media>)
    ensures BlocksText(ImageBlocks(media)) == ""
  {
    if media != [] {
      var init, last := media[..|media| - 1], ImageBlock(media[|media| - 1]);
      ImagesSayNothing(init);
      TextConcat(ImageBlocks(init), [last]);
      OneBlock(last);
    }
  }

  lemma {:induction false} ImagesAreShown(media: seq<Media>)
    ensures BlocksImages(ImageBlocks(media)) == media
  {
    if media != [] {
      var init, last := media[..|media| - 1], media[|media| - 1];
      ImagesAreShown(init);
      OneMoreShown(ImageBlocks(init), last);
      assert media == init + [last];
    }
  }

  lemma OneMoreShown(blocks: seq<Json>, last: Media)
    ensures BlocksImages(blocks + [ImageBlock(last)]) == BlocksImages(blocks) + [last]
  {
    ImagesConcat(blocks, [ImageBlock(last)]);
    OneBlock(ImageBlock(last));
  }

  /** The blocks for an optional text. */
  lemma TextIsRead(content: Option<string>)
    ensures var blocks := if content.Some? && content.value != "" then [TextBlock(content.value)] else [];
      BlocksText(blocks) == OrElse(content, "") && BlocksImages(blocks) == []
  {
    if content.Some? {
      OneBlock(TextBlock(content.value));
    }
  }

  /** What should be read of a message: results of tools are the user's, and only users show images. */
  function Meant(m: EngineMessage): Reading {
    Reading(if m.role == "tool" then "user" else m.role, OrElse(m.content, ""),
            if m.role == "assistant" || m.role == "tool" then [] else OrElse(m.media, []))
  }

  lemma AssistantIsRead(codec: Codec, m: EngineMessage)
    requires m.role == "assistant" && m.toolCalls.Some?
    ensures Read(ClaudeMessage(codec, m)) == Meant(m)
  {
    var text := if m.content.Some? && m.content.value != "" then [TextBlock(m.content.value)] else [];
    TextIsRead(m.content);
    UsesSayNothing(codec, m.toolCalls.value);
    BlocksConcat(text, UseBlocks(codec, m.toolCalls.value));
    assert AssistantBlocks(codec, m.content, m.toolCalls.value) == text + UseBlocks(codec, m.toolCalls.value);
  }

  lemma ImagesWithTextAreRead(codec: Codec, m: EngineMessage)
    requires m.role != "assistant" && m.role != "tool" && m.media.Some? && m.media.value != []
    ensures Read(ClaudeMessage(codec, m)) == Meant(m)
  {
    var text := if m.content.Some? && m.content.value != "" then [TextBlock(m.content.value)] else [];
    var images := ImageBlocks(m.media.value);
    assert ClaudeMessage(codec, m) == RoleContent(m.role, Arr(images + text));
    assert BlocksText(images + text) == OrElse(m.content, "") && BlocksImages(images + text) == m.media.value by {
      TextIsRead(m.content);
      ImagesAreRead(m.media.value);
      BlocksConcat(images, text);
    }
  }

  /** Of every converted message the reader gets its text, its speaker and its images. */
  lemma MessageIsRead(codec: Codec, m: EngineMessage)
    ensures Read(ClaudeMessage(codec, m)) == Meant(m)
  {
    if m.role == "assistant" {
      if m.toolCalls.Some? {
        AssistantIsRead(codec, m);
      }
    } else if m.role == "tool" {
      OneBlock(ResultBlock(OrElse(m.toolCallId, ""), OrElse(m.content, "")));
    } else if m.media.Some? && m.media.value != [] {
      ImagesWithTextAreRead(codec, m);
    }
  }

  // ---------------------------------------------------------------------------
  // Whole conversations
  // ---------------------------------------------------------------------------

  lemma {:induction false} ConvertedAt(codec: Codec, ms: seq<EngineMessage>, i: nat)
    requires i < |ms|
    ensures ClaudeMessages(codec, ms)[i] == ClaudeMessage(codec, ms[i])
  {
    if i < |ms| - 1 {
      ConvertedAt(codec, ms[..|ms| - 1], i);
    }
  }

  /** The reader gets one message for each that is sent, in order. */
  lemma ConversationIsRead(codec: Codec, ms: seq<EngineMessage>)
    ensures |ReadAll(ClaudeMessages(codec, ms))| == |ms|
    ensures forall i :: 0 <= i < |ms| ==> ReadAll(ClaudeMessages(codec, ms))[i] == Meant(ms[i])
  {
    forall i | 0 <= i < |ms|
      ensures Read(ClaudeMessages(codec, ms)[i]) == Meant(ms[i])
    {
      ConvertedAt(codec, ms, i);
      MessageIsRead(codec, ms[i]);
    }
  }

  /** Messages are told apart one by one: a system message gives its text, any other is sent. */
  lemma {:induction false} ToldApart(a: seq<EngineMessage>, b: seq<EngineMessage>)
    ensures SystemTexts(a + b) == SystemTexts(a) + SystemTexts(b) && NonSystem(a + b) == NonSystem(a) + NonSystem(b)
  {
    if b == [] {
      assert a + b == a;
    } else {
      assert (a + b)[..|a + b| - 1] == a + b[..|b| - 1];
      ToldApart(a, b[..|b| - 1]);
    }
  }

  lemma OneToldApart(m: EngineMessage)
    ensures SystemTexts([m]) == if m.role == "system" && m.content.Some? then [m.content.value] else []
    ensures NonSystem([m]) == if m.role == "system" then [] else [m]
  {
    assert [m][..0] == [];
  }

  /** Who says what in a session: answers of tools are sent as the user's. */
  function Said(m: Message): Reading {
    match m
    case System(text) => Reading("system", text, [])
    case User(text) => Reading("user", text, [])
    case Assistant(text) => Reading("assistant", text, [])
    case AssistantCalls(text, _) => Reading("assistant", text, [])
    case ToolResult(_, content) => Reading("user", content, [])
  }

  lemma {:induction false} EngineAt(messages: seq<Message>, i: nat)
    requires i < |messages|
    ensures |EngineAll(messages)| == |messages| && EngineAll(messages)[i] == Engine(messages[i])
  {
    EngineAllLength(messages);
    EngineAllLength(messages[..|messages| - 1]);
    if i < |messages| - 1 {
      EngineAt(messages[..|messages| - 1], i);
    }
  }

  lemma {:induction false} EngineAllLength(messages: seq<Message>)
    ensures |EngineAll(messages)| == |messages|
  {
    if messages != [] {
      EngineAllLength(messages[..|messages| - 1]);
    }
  }

  lemma SaidIsMeant(m: Message)
    ensures Meant(Engine(m)) == Said(m)
  {}

  lemma HeardBehindSystem(codec: Codec, text: string, rest: seq<Message>)
    requires NoSystem(rest)
    ensures var heard := ReadAll(ClaudeMessages(codec, NonSystem(EngineAll([System(text)] + rest))));
      |heard| == |rest| && forall i :: 0 <= i < |rest| ==> heard[i] == Said(rest[i])
  {
    EngineAllAfterSystem(text, rest);
    EngineAllLength(rest);
    ConversationIsRead(codec, EngineAll(rest));
    forall i | 0 <= i < |rest|
      ensures Meant(EngineAll(rest)[i]) == Said(rest[i])
    {
      EngineAt(rest, i);
      SaidIsMeant(rest[i]);
    }
  }

  /** In every session Claude is told, message by message, who said what, and nothing else. */
  lemma ClaudeHearsTheSession(codec: Codec, systemPrompt: string, inputs: seq<Input>, maxRounds: nat)
    ensures var history := History(systemPrompt, inputs, maxRounds);
      var heard := ReadAll(ClaudeMessages(codec, NonSystem(EngineAll(history))));
      && |heard| == |history| - 1
      && forall i :: 0 <= i < |heard| ==> heard[i] == Said(history[i + 1])
  {
    var history := History(systemPrompt, inputs, maxRounds);
    OneSystemMessage(systemPrompt, inputs, maxRounds);
    HeardInHistory(codec, history, systemPrompt);
  }

  lemma HeardInHistory(codec: Codec, history: seq<Message>, systemPrompt: string)
    requires SystemFirst(history, systemPrompt)
    ensures var heard := ReadAll(ClaudeMessages(codec, NonSystem(EngineAll(history))));
      && |heard| == |history| - 1
      && forall i :: 0 <= i < |heard| ==> heard[i] == Said(history[i + 1])
  {
    var rest := history[1..];
    assert history == [System(systemPrompt)] + rest;
    HeardBehindSystem(codec, systemPrompt, rest);
  }
}
