/** The interactive session (cli/src/terminal.rs): the bounded agentic loop, its message history and the compaction
    of that history. The model, the tools and the user are oracles. Texts are ASCII: a character is a byte. */
module Conversation {
  import opened Basics

  datatype ToolCall = ToolCall(id: string, name: string, arguments: string)

  /** The messages the session builds, by their fields. */
  datatype Message =
    | System(text: string)
    | User(text: string)
    | Assistant(text: string)
    | AssistantCalls(text: string, calls: seq<ToolCall>)
    | ToolResult(callId: string, content: string)

  const KEEP_TAIL := 12
  const SUMMARY := User("(Earlier conversation was compacted to save context. Continue from here.)")
  const DECLINED := "{\"error\": \"User declined this action\"}"
  const OUT_OF_ROUNDS := "(Max tool-call rounds reached. Please continue or rephrase.)"
  const RESULT_MAX := 30_000

  // ---------------------------------------------------------------------------
  // Token estimates
  // ---------------------------------------------------------------------------

  function Content(m: Message): string {
    if m.ToolResult? then m.content else m.text
  }

  /** The estimate of the first `n` calls. */
  function CallTokens(calls: seq<ToolCall>, n: nat): nat
    requires n <= |calls|
  {
    if n == 0 then 0 else CallTokens(calls, n - 1) + |calls[n - 1].arguments| / 4
  }

  function Tokens(m: Message): nat {
    |Content(m)| / 4 + if m.AssistantCalls? then CallTokens(m.calls, |m.calls|) else 0
  }

  /** The estimate of the first `n` messages. */
  function EstimateUpTo(messages: seq<Message>, n: nat): nat
    requires n <= |messages|
  {
    if n == 0 then 0 else EstimateUpTo(messages, n - 1) + Tokens(messages[n - 1])
  }

  function Estimate(messages: seq<Message>): nat {
    EstimateUpTo(messages, |messages|)
  }

  /** `estimate_tokens`. */
  method EstimateTokens(messages: seq<Message>) returns (total: nat)
    ensures total == Estimate(messages)
  {
    total := 0;
    for i := 0 to |messages|
      invariant total == EstimateUpTo(messages, i)
    {
      var m := messages[i];
      total := total + |Content(m)| / 4;
      if m.AssistantCalls? {
        ghost var base := total;
        for k := 0 to |m.calls|
          invariant total == base + CallTokens(m.calls, k)
        {
          total := total + |m.calls[k].arguments| / 4;
        }
      }
    }
  }

  lemma {:induction false} EstimateOfFirstPart(a: seq<Message>, b: seq<Message>, n: nat)
    requires n <= |a|
    ensures EstimateUpTo(a + b, n) == EstimateUpTo(a, n)
  {
    if n > 0 {
      EstimateOfFirstPart(a, b, n - 1);
    }
  }

  lemma {:induction false} EstimateOfBothParts(a: seq<Message>, b: seq<Message>, n: nat)
    requires n <= |b|
    ensures EstimateUpTo(a + b, |a| + n) == Estimate(a) + EstimateUpTo(b, n)
  {
    if n > 0 {
      EstimateOfBothParts(a, b, n - 1);
    } else {
      EstimateOfFirstPart(a, b, |a|);
    }
  }

  lemma EstimateConcat(a: seq<Message>, b: seq<Message>)
    ensures Estimate(a + b) == Estimate(a) + Estimate(b)
  {
    EstimateOfBothParts(a, b, |b|);
  }

  /** The texts that are counted: the content of every message and the arguments of every call. */
  function Texts(m: Message): seq<string> {
    [Content(m)] + if m.AssistantCalls? then ArgumentTexts(m.calls, |m.calls|) else []
  }

  function ArgumentTexts(calls: seq<ToolCall>, n: nat): (r: seq<string>)
    requires n <= |calls|
    ensures |r| == n && forall i :: 0 <= i < n ==> r[i] == calls[i].arguments
  {
    if n == 0 then [] else ArgumentTexts(calls, n - 1) + [calls[n - 1].arguments]
  }

  function AllTexts(messages: seq<Message>, n: nat): seq<string>
    requires n <= |messages|
  {
    if n == 0 then [] else AllTexts(messages, n - 1) + Texts(messages[n - 1])
  }

  function Bytes(texts: seq<string>): nat {
    if texts == [] then 0 else |texts[0]| + Bytes(texts[1..])
  }

  lemma {:induction false} BytesConcat(a: seq<string>, b: seq<string>)
    ensures Bytes(a + b) == Bytes(a) + Bytes(b)
  {
    if a == [] {
      assert a + b == b;
    } else {
      assert (a + b)[1..] == a[1..] + b;
      BytesConcat(a[1..], b);
    }
  }

  lemma BytesOfOne(text: string)
    ensures Bytes([text]) == |text|
  {
    assert [text][1..] == [];
  }

  lemma {:induction false} CallTokensAreQuarters(calls: seq<ToolCall>, n: nat)
    requires n <= |calls|
    ensures 4 * CallTokens(calls, n) <= Bytes(ArgumentTexts(calls, n)) <= 4 * CallTokens(calls, n) + 3 * n
  {
    if n > 0 {
      CallTokensAreQuarters(calls, n - 1);
      BytesConcat(ArgumentTexts(calls, n - 1), [calls[n - 1].arguments]);
      BytesOfOne(calls[n - 1].arguments);
    }
  }

  lemma TokensAreQuarters(m: Message)
    ensures 4 * Tokens(m) <= Bytes(Texts(m)) <= 4 * Tokens(m) + 3 * |Texts(m)|
  {
    BytesOfOne(Content(m));
    if m.AssistantCalls? {
      CallTokensAreQuarters(m.calls, |m.calls|);
      BytesConcat([Content(m)], ArgumentTexts(m.calls, |m.calls|));
    }
  }

  /** The estimate is a quarter of all bytes of contents and arguments, rounded down text by text. */
  lemma {:induction false} EstimateIsQuarter(messages: seq<Message>, n: nat)
    requires n <= |messages|
    ensures var texts := AllTexts(messages, n);
      4 * EstimateUpTo(messages, n) <= Bytes(texts) <= 4 * EstimateUpTo(messages, n) + 3 * |texts|
  {
    if n > 0 {
      EstimateIsQuarter(messages, n - 1);
      TokensAreQuarters(messages[n - 1]);
      BytesConcat(AllTexts(messages, n - 1), Texts(messages[n - 1]));
    }
  }

  // ---------------------------------------------------------------------------
  // Compaction
  // ---------------------------------------------------------------------------

  /** A long tool result is cut to its first 200 bytes. */
  function Shortened(m: Message): Message {
    if m.ToolResult? && |m.content| > 500 then ToolResult(m.callId, m.content[..200] + "... (compacted)") else m
  }

  /** Where the tail that is never shortened begins. */
  function TailStart(n: nat): nat {
    if n <= KEEP_TAIL + 1 then 1 else n - KEEP_TAIL
  }

  /** The messages between the first and the tail, with long tool results shortened. */
  function ShortenedOld(messages: seq<Message>): (r: seq<Message>)
    ensures |r| == |messages|
  {
    seq(|messages|, i requires 0 <= i < |messages| =>
      if 1 <= i < TailStart(|messages|) then Shortened(messages[i]) else messages[i])
  }

  /** Shortening is not enough and there is something to drop. */
  predicate Drops(messages: seq<Message>, maxTokens: nat) {
    && Estimate(messages) > maxTokens
    && Estimate(ShortenedOld(messages)) > maxTokens
    && |messages| > KEEP_TAIL + 1
  }

  function Tail(messages: seq<Message>): seq<Message>
    requires |messages| > KEEP_TAIL
  {
    messages[|messages| - KEEP_TAIL..]
  }

  /** The first message, a summary, and the messages from `k` on. */
  function Summarised(messages: seq<Message>, k: nat, summary: Message): seq<Message>
    requires 1 <= k <= |messages|
  {
    [messages[0], summary] + messages[k..]
  }

  function Compacted(messages: seq<Message>, maxTokens: nat): seq<Message> {
    if Estimate(messages) <= maxTokens then messages
    else if Drops(messages, maxTokens) then Summarised(messages, |messages| - KEEP_TAIL, SUMMARY)
    else ShortenedOld(messages)
  }

  lemma ShortenedTwice(messages: seq<Message>)
    ensures ShortenedOld(ShortenedOld(messages)) == ShortenedOld(messages)
    ensures messages != [] ==> ShortenedOld(messages)[0] == messages[0]
    ensures |messages| > KEEP_TAIL ==> Tail(ShortenedOld(messages)) == Tail(messages)
    ensures |messages| <= KEEP_TAIL + 1 ==> ShortenedOld(messages) == messages
  {}

  /** Of a message that is not among the last twelve nor the first, a tool result over 500 bytes keeps its id and its first
      200 bytes; every other message is left alone. */
  lemma OnlyOldResultsAreCut(messages: seq<Message>, i: nat)
    requires i < |messages|
    ensures var m, r := messages[i], ShortenedOld(messages)[i];
      if 1 <= i && i + 12 < |messages| && m.ToolResult? && |m.content| > 500 then
        && r.ToolResult? && r.callId == m.callId && |r.content| == 215
        && r.content[..200] == m.content[..200] && r.content[200..] == "... (compacted)"
      else r == m
  {
    assert |"... (compacted)"| == 15;
  }

  /** Messages are dropped only if cutting results is not enough and there are more than thirteen; then the first stays,
      the summary takes the second place, and the last twelve follow. */
  lemma CompactedMeans(messages: seq<Message>, maxTokens: nat)
    ensures Estimate(messages) <= maxTokens ==> Compacted(messages, maxTokens) == messages
    ensures Estimate(messages) > maxTokens && (Estimate(ShortenedOld(messages)) <= maxTokens || |messages| <= 13) ==>
      Compacted(messages, maxTokens) == ShortenedOld(messages)
    ensures Estimate(messages) > maxTokens && Estimate(ShortenedOld(messages)) > maxTokens && |messages| > 13 ==>
      var c := Compacted(messages, maxTokens);
      && |c| == 14 && c[0] == messages[0]
      && c[1] == User("(Earlier conversation was compacted to save context. Continue from here.)")
      && forall i :: 2 <= i < 14 ==> c[i] == messages[|messages| - 14 + i]
  {}

  /** Compacting what has been compacted for the same budget changes nothing. */
  lemma CompactionIsIdempotent(messages: seq<Message>, maxTokens: nat)
    ensures Compacted(Compacted(messages, maxTokens), maxTokens) == Compacted(messages, maxTokens)
  {
    ShortenedTwice(messages);
    if Drops(messages, maxTokens) {
      var c := [messages[0], SUMMARY] + Tail(messages);
      assert ShortenedOld(c) == c;
      assert Tail(c) == Tail(messages);
      assert c == [c[0], SUMMARY] + Tail(c);
    }
  }

  /** The result is within the budget or has at most 14 messages; the first message and the last twelve, or all if
      there are at most thirteen, are kept word for word. */
  lemma CompactionBounds(messages: seq<Message>, maxTokens: nat)
    ensures var c := Compacted(messages, maxTokens);
      && (Estimate(c) <= maxTokens || |c| <= KEEP_TAIL + 2)
      && |c| <= |messages|
      && (messages != [] ==> c != [] && c[0] == messages[0])
      && (|messages| > KEEP_TAIL ==> |c| > KEEP_TAIL && Tail(c) == Tail(messages))
      && (|messages| <= KEEP_TAIL + 1 ==> c == messages)
  {
    ShortenedTwice(messages);
  }

  /** Putting a summary in the place of the messages up to the tail trades their estimate for the summary's. The
      estimate therefore grows if those messages were shorter than the summary. */
  lemma EstimateOfDropping(messages: seq<Message>, k: nat, summary: Message)
    requires 1 <= k <= |messages|
    ensures Estimate([messages[0], summary] + messages[k..]) + Estimate(messages[1..k]) == Estimate(messages) + Tokens(summary)
  {
    ThreeParts(messages, k);
    TwoHeads(messages[0], summary, messages[k..]);
    EstimateOfReplacing(messages[0], messages[1..k], summary, messages[k..]);
  }

  lemma SummarisingGrowsIff(messages: seq<Message>, k: nat, summary: Message)
    requires 1 <= k <= |messages|
    ensures Estimate(Summarised(messages, k, summary)) > Estimate(messages) <==> Estimate(messages[1..k]) < Tokens(summary)
  {
    EstimateOfDropping(messages, k, summary);
  }

  /** Compaction that drops the messages from 1 up to `k` makes the estimate grow exactly if these were estimated below
      the summary. */
  lemma DroppingGrowsIff(messages: seq<Message>, maxTokens: nat, k: nat)
    requires Drops(messages, maxTokens) && k == |messages| - KEEP_TAIL
    ensures Estimate(Compacted(messages, maxTokens)) > Estimate(messages) <==> Estimate(messages[1..k]) < Tokens(SUMMARY)
  {
    SummarisingGrowsIff(messages, k, SUMMARY);
  }

  /** Shortening tool results never raises the estimate. */
  lemma {:induction false} ShorteningNeverGrows(messages: seq<Message>, n: nat)
    requires n <= |messages|
    ensures EstimateUpTo(ShortenedOld(messages), n) <= EstimateUpTo(messages, n)
  {
    if n > 0 {
      ShorteningNeverGrows(messages, n - 1);
      ShorterMessage(messages[n - 1]);
    }
  }

  lemma ShorterMessage(m: Message)
    ensures Tokens(Shortened(m)) <= Tokens(m)
  {
    if m.ToolResult? && |m.content| > 500 {
      assert |Shortened(m).content| == 200 + |"... (compacted)"|;
    }
  }

  /** Compaction makes the estimate grow exactly if it drops messages that were estimated below the summary. */
  lemma CompactionGrowsIff(messages: seq<Message>, maxTokens: nat)
    ensures Estimate(Compacted(messages, maxTokens)) > Estimate(messages)
       <==> Drops(messages, maxTokens) && Estimate(messages[1..|messages| - KEEP_TAIL]) < Tokens(SUMMARY)
  {
    if Drops(messages, maxTokens) {
      DroppingGrowsIff(messages, maxTokens, |messages| - KEEP_TAIL);
    } else {
      ShorteningNeverGrows(messages, |messages|);
    }
  }

  lemma ThreeParts<T>(s: seq<T>, k: nat)
    requires 1 <= k <= |s|
    ensures s == [s[0]] + (s[1..k] + s[k..])
  {}

  lemma TwoHeads<T>(a: T, b: T, rest: seq<T>)
    ensures [a, b] + rest == [a] + ([b] + rest)
  {}

  lemma EstimateOfReplacing(first: Message, dropped: seq<Message>, summary: Message, tail: seq<Message>)
    ensures Estimate([first] + ([summary] + tail)) + Estimate(dropped) == Estimate([first] + (dropped + tail)) + Tokens(summary)
  {
    EstimateConcat([first], [summary] + tail);
    EstimateConcat([summary], tail);
    EstimateConcat([first], dropped + tail);
    EstimateConcat(dropped, tail);
    EstimateOfOne(summary);
  }

  lemma EstimateOfOne(m: Message)
    ensures Estimate([m]) == Tokens(m)
  {
    assert EstimateUpTo([m], 0) == 0 && EstimateUpTo([m], 1) == Tokens(m);
  }

  // ---------------------------------------------------------------------------
  // Calls and answers
  // ---------------------------------------------------------------------------

  function CallIds(calls: seq<ToolCall>): (r: seq<string>)
    ensures |r| == |calls|
  {
    seq(|calls|, i requires 0 <= i < |calls| => calls[i].id)
  }

  /** The call ids still to be answered after one more message; none if the message is out of place. */
  function Expect(pending: seq<string>, m: Message): Option<seq<string>> {
    if pending != [] then
      if m.ToolResult? && m.callId == pending[0] then Some(pending[1..]) else None
    else
      match m
      case ToolResult(_, _) => None
      case AssistantCalls(_, calls) => Some(CallIds(calls))
      case _ => Some([])
  }

  function ExpectAll(pending: seq<string>, messages: seq<Message>): Option<seq<string>>
    decreases |messages|
  {
    if messages == [] then Some(pending)
    else
      match Expect(pending, messages[0])
      case None => None
      case Some(next) => ExpectAll(next, messages[1..])
  }

  /** Every message with calls is followed at once by one answer per call, with the same ids in the same order, and
      there are no other answers. */
  predicate Paired(messages: seq<Message>) {
    ExpectAll([], messages) == Some([])
  }

  lemma {:induction false} ExpectAllSplit(pending: seq<string>, a: seq<Message>, b: seq<Message>)
    ensures ExpectAll(pending, a + b)
         == if ExpectAll(pending, a) == None then None else ExpectAll(ExpectAll(pending, a).value, b)
    decreases |a|
  {
    if a == [] {
      assert a + b == b;
    } else {
      assert (a + b)[1..] == a[1..] + b;
      if Expect(pending, a[0]).Some? {
        ExpectAllSplit(Expect(pending, a[0]).value, a[1..], b);
      }
    }
  }

  /** What `Paired` means position by position: the answers to a message with calls. */
  lemma {:induction false} PairedAnswers(messages: seq<Message>, i: nat, k: nat)
    requires Paired(messages) && i < |messages| && messages[i].AssistantCalls? && k < |messages[i].calls|
    ensures i + 1 + k < |messages|
    ensures messages[i + 1 + k].ToolResult? && messages[i + 1 + k].callId == messages[i].calls[k].id
  {
    var a, b := messages[..i], messages[i..];
    assert messages == a + b;
    ExpectAllSplit([], a, b);
    var pending := ExpectAll([], a).value;
    assert pending == [];
    PendingAnswers(CallIds(messages[i].calls), b[1..], k);
    assert b[1..][k] == messages[i + 1 + k];
  }

  lemma {:induction false} PendingAnswers(pending: seq<string>, messages: seq<Message>, k: nat)
    requires ExpectAll(pending, messages) == Some([]) && k < |pending|
    ensures k < |messages| && messages[k].ToolResult? && messages[k].callId == pending[k]
    decreases |messages|
  {
    if k > 0 {
      PendingAnswers(pending[1..], messages[1..], k - 1);
    }
  }

  /** The list without its leading answers. */
  function DropResults(messages: seq<Message>): seq<Message> {
    if messages != [] && messages[0].ToolResult? then DropResults(messages[1..]) else messages
  }

  /** What every history looks like: the system message, then a paired list. After old messages were dropped the
      summary comes in between, with answers behind it whose calls were dropped. */
  predicate Answered(messages: seq<Message>) {
    && messages != []
    && messages[0].System?
    && (Paired(messages[1..]) || (|messages| > 1 && messages[1] == SUMMARY && Paired(DropResults(messages[2..]))))
  }

  lemma {:induction false} PendingSuffix(pending: seq<string>, messages: seq<Message>, k: nat)
    requires ExpectAll(pending, messages) == Some([]) && k <= |messages|
    ensures Paired(DropResults(messages[k..]))
    decreases |messages|
  {
    if messages == [] {
    } else if k > 0 {
      PendingSuffix(Expect(pending, messages[0]).value, messages[1..], k - 1);
      assert messages[1..][k - 1..] == messages[k..];
    } else {
      assert messages[0..] == messages;
      if pending != [] {
        PendingSuffix(pending[1..], messages[1..], 0);
        assert messages[1..][0..] == messages[1..];
      }
    }
  }

  /** What is left of any suffix of a history's later part after its leading answers is paired. */
  lemma {:induction false} SuffixIsPaired(messages: seq<Message>, k: nat)
    requires Answered(messages) && 2 <= k <= |messages|
    ensures Paired(DropResults(messages[k..]))
  {
    if Paired(messages[1..]) {
      PendingSuffix([], messages[1..], k - 1);
      assert messages[1..][k - 1..] == messages[k..];
    } else {
      OrphanedSuffix(messages[2..], k - 2);
      assert messages[2..][k - 2..] == messages[k..];
    }
  }

  lemma {:induction false} OrphanedSuffix(messages: seq<Message>, k: nat)
    requires Paired(DropResults(messages)) && k <= |messages|
    ensures Paired(DropResults(messages[k..]))
    decreases |messages|
  {
    if k == 0 {
      assert messages[0..] == messages;
    } else if messages[0].ToolResult? {
      OrphanedSuffix(messages[1..], k - 1);
      assert messages[1..][k - 1..] == messages[k..];
    } else {
      PendingSuffix([], messages, k);
    }
  }

  /** Shortening old results changes neither calls nor answers. */
  lemma {:induction false} SameShape(pending: seq<string>, a: seq<Message>, b: seq<Message>)
    requires |a| == |b| && forall i :: 0 <= i < |a| ==> b[i] == a[i] || b[i] == Shortened(a[i])
    ensures ExpectAll(pending, a) == ExpectAll(pending, b)
    decreases |a|
  {
    if a != [] && Expect(pending, a[0]).Some? {
      SameShape(Expect(pending, a[0]).value, a[1..], b[1..]);
    }
  }

  lemma {:induction false} DropResultsSameShape(a: seq<Message>, b: seq<Message>)
    requires |a| == |b| && forall i :: 0 <= i < |a| ==> b[i] == a[i] || b[i] == Shortened(a[i])
    ensures Paired(DropResults(a)) <==> Paired(DropResults(b))
    decreases |a|
  {
    if a != [] && a[0].ToolResult? {
      DropResultsSameShape(a[1..], b[1..]);
    } else {
      SameShape([], a, b);
    }
  }

  lemma ShortenedKeepsAnswers(messages: seq<Message>)
    requires Answered(messages)
    ensures Answered(ShortenedOld(messages))
    ensures Paired(ShortenedOld(messages)[1..]) <==> Paired(messages[1..])
  {
    var s := ShortenedOld(messages);
    SameShape([], messages[1..], s[1..]);
    if |messages| > 1 {
      DropResultsSameShape(messages[2..], s[2..]);
    }
  }

  /** Compaction keeps every call answered. It keeps the history paired unless it drops messages, and then the
      history is paired exactly if the first message kept is not an answer. */
  lemma CompactionKeepsAnswers(messages: seq<Message>, maxTokens: nat)
    requires Answered(messages)
    ensures Answered(Compacted(messages, maxTokens))
    ensures Paired(Compacted(messages, maxTokens)[1..])
       <==> if Drops(messages, maxTokens) then !Tail(messages)[0].ToolResult? else Paired(messages[1..])
  {
    if Drops(messages, maxTokens) {
      var c, tail := Compacted(messages, maxTokens), Tail(messages);
      SuffixIsPaired(messages, |messages| - KEEP_TAIL);
      assert c[1..] == [SUMMARY] + tail && c[2..] == tail;
      assert ([SUMMARY] + tail)[1..] == tail;
      assert Paired([SUMMARY] + tail) <==> Paired(tail);
      assert if tail[0].ToolResult? then !Paired(tail) else DropResults(tail) == tail;
    } else {
      ShortenedKeepsAnswers(messages);
    }
  }

  /** Appending a paired list keeps the shape. */
  lemma {:induction false} AppendingKeepsAnswers(messages: seq<Message>, more: seq<Message>)
    requires Answered(messages) && Paired(more)
    ensures Answered(messages + more)
    ensures Paired((messages + more)[1..]) <==> Paired(messages[1..])
  {
    assert (messages + more)[1..] == messages[1..] + more;
    ExpectAllSplit([], messages[1..], more);
    if |messages| > 1 && messages[1] == SUMMARY && Paired(DropResults(messages[2..])) {
      assert (messages + more)[2..] == messages[2..] + more;
      DropResultsConcat(messages[2..], more);
      ExpectAllSplit([], DropResults(messages[2..]), more);
    }
    UnpairedStays([], messages[1..], more);
  }

  lemma {:induction false} DropResultsConcat(a: seq<Message>, b: seq<Message>)
    requires Paired(b)
    ensures DropResults(a + b) == DropResults(a) + b
    decreases |a|
  {
    if a == [] {
      assert a + b == b;
      assert DropResults(b) == b;
    } else if a[0].ToolResult? {
      assert (a + b)[1..] == a[1..] + b;
      DropResultsConcat(a[1..], b);
    }
  }

  lemma {:induction false} UnpairedStays(pending: seq<string>, a: seq<Message>, more: seq<Message>)
    requires Paired(more)
    ensures ExpectAll(pending, a + more) == Some([]) ==> ExpectAll(pending, a) == Some([])
  {
    ExpectAllSplit(pending, a, more);
    if ExpectAll(pending, a).Some? && ExpectAll(pending, a).value != [] && more != [] {
      assert !more[0].ToolResult?;
    }
  }

  // ---------------------------------------------------------------------------
  // The agentic loop
  // ---------------------------------------------------------------------------

  datatype Reply = LlmError(error: string) | Reply(text: string, calls: seq<ToolCall>)

  datatype Answer = Declined | Ran(result: string)

  /** The oracles of one user turn: the model's reply in each round, and what comes of each call in a round. */
  datatype Turn = Turn(reply: nat -> Reply, answer: (nat, nat) -> Answer)

  datatype LoopResult = Answers(text: string) | Fails(error: string)

  function ResultContent(a: Answer): string {
    match a
    case Declined => DECLINED
    case Ran(result) => if |result| > RESULT_MAX then result[..RESULT_MAX] + "\n... (truncated)" else result
  }

  /** The answers to the calls of a round from the `i`-th on. */
  function AnswersFrom(t: Turn, round: nat, calls: seq<ToolCall>, i: nat): seq<Message>
    requires i <= |calls|
    decreases |calls| - i
  {
    if i == |calls| then []
    else [ToolResult(calls[i].id, ResultContent(t.answer(round, i)))] + AnswersFrom(t, round, calls, i + 1)
  }

  /** The messages added from round `round` on, and how the loop ends. */
  function Rounds(t: Turn, round: nat, maxRounds: nat): (seq<Message>, LoopResult)
    decreases maxRounds - round
  {
    if round >= maxRounds then ([], Answers(OUT_OF_ROUNDS))
    else
      match t.reply(round)
      case LlmError(e) => ([], Fails("LLM error: " + e))
      case Reply(text, calls) =>
        if calls == [] then ([], Answers(text))
        else
          var (rest, result) := Rounds(t, round + 1, maxRounds);
          ([AssistantCalls(text, calls)] + AnswersFrom(t, round, calls, 0) + rest, result)
  }

  lemma {:induction false} AnswersMeetCalls(t: Turn, round: nat, calls: seq<ToolCall>, i: nat)
    requires i <= |calls|
    ensures ExpectAll(CallIds(calls)[i..], AnswersFrom(t, round, calls, i)) == Some([])
    decreases |calls| - i
  {
    if i == |calls| {
      assert CallIds(calls)[i..] == [];
    } else {
      AnswersMeetCalls(t, round, calls, i + 1);
      assert CallIds(calls)[i..][1..] == CallIds(calls)[i + 1..];
      assert AnswersFrom(t, round, calls, i)[1..] == AnswersFrom(t, round, calls, i + 1);
    }
  }

  // ---------------------------------------------------------------------------
  // What a turn adds, message by message
  // ---------------------------------------------------------------------------

  const TRUNCATED := "\n... (truncated)"

  /** `m` answers the call: it has the call's id, and its content is the tool's result, or the beginning of one that is
      too long, or a fixed text if the user declined. */
  ghost predicate AnswersCall(m: Message, call: ToolCall, a: Answer) {
    && m.ToolResult? && m.callId == call.id
    && match a
       case Declined => m.content == "{\"error\": \"User declined this action\"}"
       case Ran(result) =>
         if |result| <= 30_000 then m.content == result
         else |m.content| == 30_000 + |TRUNCATED| && m.content[..30_000] == result[..30_000] && m.content[30_000..] == TRUNCATED
  }

  /** Only declined calls get the text for declined calls, or those whose tool returned that text. */
  lemma DeclinedTextIff(m: Message, call: ToolCall, a: Answer)
    requires AnswersCall(m, call, a)
    ensures m.content == DECLINED <==> a.Declined? || a.result == DECLINED
  {
    assert |DECLINED| == 38;
  }

  lemma {:induction false} AnswersAt(t: Turn, round: nat, calls: seq<ToolCall>, i: nat, k: nat)
    requires i + k < |calls|
    ensures |AnswersFrom(t, round, calls, i)| == |calls| - i
    ensures AnswersCall(AnswersFrom(t, round, calls, i)[k], calls[i + k], t.answer(round, i + k))
    decreases |calls| - i
  {
    AnswersAreResults(t, round, calls, i);
    if k > 0 {
      AnswersAt(t, round, calls, i + 1, k - 1);
      assert AnswersFrom(t, round, calls, i)[1..] == AnswersFrom(t, round, calls, i + 1);
    }
  }

  /** The answers to the calls of one round, one each and in order. */
  ghost predicate AnswerRound(messages: seq<Message>, t: Turn, round: nat, calls: seq<ToolCall>) {
    |messages| == |calls| && forall i :: 0 <= i < |calls| ==> AnswersCall(messages[i], calls[i], t.answer(round, i))
  }

  lemma AnswersAreGiven(t: Turn, round: nat, calls: seq<ToolCall>)
    ensures AnswerRound(AnswersFrom(t, round, calls, 0), t, round, calls)
  {
    AnswersAreResults(t, round, calls, 0);
    forall i | 0 <= i < |calls|
      ensures AnswersCall(AnswersFrom(t, round, calls, 0)[i], calls[i], t.answer(round, i))
    {
      AnswersAt(t, round, calls, 0, i);
    }
  }

  /** In this round the model asks for tools. */
  predicate AsksForTools(t: Turn, round: nat) {
    t.reply(round).Reply? && t.reply(round).calls != []
  }

  /** The messages of round `round` stand at position `at`: what the model said with its calls, then the answers. */
  ghost predicate RoundAt(messages: seq<Message>, at: nat, t: Turn, round: nat) {
    && AsksForTools(t, round)
    && at + 1 + |t.reply(round).calls| <= |messages|
    && messages[at] == AssistantCalls(t.reply(round).text, t.reply(round).calls)
    && forall i :: 0 <= i < |t.reply(round).calls| ==>
         AnswersCall(messages[at + 1 + i], t.reply(round).calls[i], t.answer(round, i))
  }

  /** How the loop ends in round `last`, the first in which the model asks for nothing, or the limit. */
  ghost predicate EndsWith(t: Turn, last: nat, maxRounds: nat, result: LoopResult) {
    if last >= maxRounds then result == Answers("(Max tool-call rounds reached. Please continue or rephrase.)")
    else
      match t.reply(last)
      case LlmError(e) => result == Fails("LLM error: " + e)
      case Reply(text, calls) => calls == [] && result == Answers(text)
  }

  /** How many messages the first `r` rounds from `round` on add. */
  function RoundStart(t: Turn, round: nat, r: nat): nat
    decreases r
  {
    if r == 0 then 0
    else 1 + (if t.reply(round).Reply? then |t.reply(round).calls| else 0) + RoundStart(t, round + 1, r - 1)
  }

  /** The loop, begun in round `round`, gets to the `r`-th round after it, and tools are asked for there too. */
  ghost predicate GetsTo(t: Turn, round: nat, maxRounds: nat, r: nat) {
    round + r < maxRounds && forall q :: round <= q <= round + r ==> AsksForTools(t, q)
  }

  /** The loop, begun in round `round`, ends after `n` rounds with tools. */
  ghost predicate EndsAfter(t: Turn, round: nat, maxRounds: nat, n: nat) {
    && (forall q :: round <= q < round + n ==> AsksForTools(t, q))
    && (n > 0 ==> round + n <= maxRounds)
    && (round + n >= maxRounds || !AsksForTools(t, round + n))
  }

  /** What a turn adds and how it ends, seen from outside: its rounds one after the other, and nothing else. */
  ghost predicate IsTurn(added: seq<Message>, result: LoopResult, t: Turn, round: nat, maxRounds: nat) {
    && (forall r: nat :: GetsTo(t, round, maxRounds, r) ==> RoundAt(added, RoundStart(t, round, r), t, round + r))
    && (forall n: nat :: EndsAfter(t, round, maxRounds, n) ==>
          |added| == RoundStart(t, round, n) && EndsWith(t, round + n, maxRounds, result))
  }

  lemma FirstRoundAt(t: Turn, round: nat, rest: seq<Message>)
    requires AsksForTools(t, round)
    ensures var calls := t.reply(round).calls;
      RoundAt([AssistantCalls(t.reply(round).text, calls)] + AnswersFrom(t, round, calls, 0) + rest, 0, t, round)
  {
    var calls := t.reply(round).calls;
    var answers := AnswersFrom(t, round, calls, 0);
    var all := [AssistantCalls(t.reply(round).text, calls)] + answers + rest;
    AnswersAreGiven(t, round, calls);
    assert forall i :: 0 <= i < |calls| ==> all[0 + 1 + i] == answers[i];
  }

  lemma LaterRoundAt(whole: seq<Message>, front: seq<Message>, rest: seq<Message>, at: nat, at': nat, t: Turn, round: nat)
    requires whole == front + rest && at' == |front| + at && RoundAt(rest, at, t, round)
    ensures RoundAt(whole, at', t, round)
  {
    forall i | 0 <= i < |t.reply(round).calls|
      ensures AnswersCall(whole[at' + 1 + i], t.reply(round).calls[i], t.answer(round, i))
    {
      assert whole[at' + 1 + i] == rest[at + 1 + i];
    }
  }

  /** A round with tools: its messages and then those of the rounds after it. */
  lemma RoundsUnfold(t: Turn, round: nat, maxRounds: nat) returns (front: seq<Message>)
    requires round < maxRounds && AsksForTools(t, round)
    ensures |front| == 1 + |t.reply(round).calls|
    ensures Rounds(t, round, maxRounds).0 == front + Rounds(t, round + 1, maxRounds).0
    ensures Rounds(t, round, maxRounds).1 == Rounds(t, round + 1, maxRounds).1
    ensures RoundAt(Rounds(t, round, maxRounds).0, 0, t, round)
  {
    var calls := t.reply(round).calls;
    front := [AssistantCalls(t.reply(round).text, calls)] + AnswersFrom(t, round, calls, 0);
    AnswersAreResults(t, round, calls, 0);
    FirstRoundAt(t, round, Rounds(t, round + 1, maxRounds).0);
  }

  lemma {:induction false} RoundIsAt(t: Turn, round: nat, maxRounds: nat, r: nat, q: nat)
    requires GetsTo(t, round, maxRounds, r) && q == round + r
    ensures RoundAt(Rounds(t, round, maxRounds).0, RoundStart(t, round, r), t, q)
    decreases r
  {
    assert AsksForTools(t, round);
    var front := RoundsUnfold(t, round, maxRounds);
    var rest := Rounds(t, round + 1, maxRounds).0;
    if r > 0 {
      RoundIsAt(t, round + 1, maxRounds, r - 1, q);
      LaterRoundAt(Rounds(t, round, maxRounds).0, front, rest, RoundStart(t, round + 1, r - 1), RoundStart(t, round, r), t, q);
    }
  }

  lemma {:induction false} RoundsEnd(t: Turn, round: nat, maxRounds: nat, n: nat)
    requires EndsAfter(t, round, maxRounds, n)
    ensures |Rounds(t, round, maxRounds).0| == RoundStart(t, round, n)
    ensures EndsWith(t, round + n, maxRounds, Rounds(t, round, maxRounds).1)
    decreases n
  {
    if n > 0 {
      assert AsksForTools(t, round);
      var front := RoundsUnfold(t, round, maxRounds);
      RoundsEnd(t, round + 1, maxRounds, n - 1);
    }
  }

  /** Every turn is one: what it adds is, round by round, what the model said with its calls and the answers to them. */
  lemma RoundsAreTurns(t: Turn, maxRounds: nat)
    ensures IsTurn(Rounds(t, 0, maxRounds).0, Rounds(t, 0, maxRounds).1, t, 0, maxRounds)
  {
    forall r: nat | GetsTo(t, 0, maxRounds, r)
      ensures RoundAt(Rounds(t, 0, maxRounds).0, RoundStart(t, 0, r), t, 0 + r)
    {
      RoundIsAt(t, 0, maxRounds, r, r);
    }
    forall n: nat | EndsAfter(t, 0, maxRounds, n)
      ensures |Rounds(t, 0, maxRounds).0| == RoundStart(t, 0, n) && EndsWith(t, 0 + n, maxRounds, Rounds(t, 0, maxRounds).1)
    {
      RoundsEnd(t, 0, maxRounds, n);
    }
  }

  function CountCalls(messages: seq<Message>): nat {
    if messages == [] then 0 else CountCalls(messages[..|messages| - 1]) + if messages[|messages| - 1].AssistantCalls? then 1 else 0
  }

  lemma {:induction false} CountCallsConcat(a: seq<Message>, b: seq<Message>)
    ensures CountCalls(a + b) == CountCalls(a) + CountCalls(b)
  {
    if b == [] {
      assert a + b == a;
    } else {
      assert (a + b)[..|a + b| - 1] == a + b[..|b| - 1];
      CountCallsConcat(a, b[..|b| - 1]);
    }
  }

  lemma {:induction false} AnswersHaveNoCalls(t: Turn, round: nat, calls: seq<ToolCall>, i: nat)
    requires i <= |calls|
    ensures CountCalls(AnswersFrom(t, round, calls, i)) == 0
    decreases |calls| - i
  {
    if i < |calls| {
      AnswersHaveNoCalls(t, round, calls, i + 1);
      var first := [ToolResult(calls[i].id, ResultContent(t.answer(round, i)))];
      CountCallsConcat(first, AnswersFrom(t, round, calls, i + 1));
      assert first[..0] == [];
    }
  }

  /** Whatever the model and the tools do, a turn adds a paired list with at most one message with calls per round. */
  lemma {:induction false} RoundsArePaired(t: Turn, round: nat, maxRounds: nat)
    ensures Paired(Rounds(t, round, maxRounds).0)
    ensures CountCalls(Rounds(t, round, maxRounds).0) <= if round < maxRounds then maxRounds - round else 0
    decreases maxRounds - round
  {
    if round < maxRounds && t.reply(round).Reply? && t.reply(round).calls != [] {
      var text, calls := t.reply(round).text, t.reply(round).calls;
      var head, answers, rest := [AssistantCalls(text, calls)], AnswersFrom(t, round, calls, 0), Rounds(t, round + 1, maxRounds).0;
      RoundsArePaired(t, round + 1, maxRounds);
      AnswersMeetCalls(t, round, calls, 0);
      assert CallIds(calls)[0..] == CallIds(calls);
      assert (head + answers)[1..] == answers;
      assert ExpectAll([], head + answers) == Some([]);
      ExpectAllSplit([], head + answers, rest);
      AnswersHaveNoCalls(t, round, calls, 0);
      CountCallsConcat(head + answers, rest);
      CountCallsConcat(head, answers);
      assert head[..0] == [];
    }
  }

  // ---------------------------------------------------------------------------
  // The session
  // ---------------------------------------------------------------------------

  /** One line of input: commands, or a prompt with the oracles of the turn it starts. */
  datatype Input = Blank | Clear | Compact | OtherCommand | Prompt(text: string, turn: Turn)

  const COMMAND_BUDGET := 40_000
  const TURN_BUDGET := 80_000

  /** What the session says at the end of a turn, if anything. */
  function Closing(r: LoopResult): seq<Message> {
    match r
    case Answers(text) => if text == "" then [] else [Assistant(text)]
    case Fails(e) => [Assistant("(error: " + e + ")")]
  }

  function Handled(messages: seq<Message>, input: Input, maxRounds: nat): seq<Message> {
    match input
    case Blank => messages
    case Clear => if messages == [] then [] else messages[..1]
    case Compact => Compacted(messages, COMMAND_BUDGET)
    case OtherCommand => messages
    case Prompt(text, turn) =>
      var (added, result) := Rounds(turn, 0, maxRounds);
      Compacted(messages + [User(text)], TURN_BUDGET) + added + Closing(result)
  }

  function History(systemPrompt: string, inputs: seq<Input>, maxRounds: nat): seq<Message> {
    if inputs == [] then [System(systemPrompt)]
    else Handled(History(systemPrompt, inputs[..|inputs| - 1], maxRounds), inputs[|inputs| - 1], maxRounds)
  }

  /** How pairing fares over one input: it is lost only by dropping in the middle of answers, and regained by
      clearing or by a later drop. */
  predicate StaysPaired(messages: seq<Message>, input: Input) {
    match input
    case Clear => true
    case Compact =>
      if Drops(messages, COMMAND_BUDGET) then !Tail(messages)[0].ToolResult? else messages != [] && Paired(messages[1..])
    case Prompt(text, _) =>
      var next := messages + [User(text)];
      if Drops(next, TURN_BUDGET) then !Tail(next)[0].ToolResult? else messages != [] && Paired(messages[1..])
    case _ => messages != [] && Paired(messages[1..])
  }

  /** What is said at the end: a final text, an error, or nothing if the text is empty. */
  ghost predicate Closes(closing: seq<Message>, result: LoopResult) {
    match result
    case Answers(text) => if text == "" then closing == [] else closing == [Assistant(text)]
    case Fails(e) => closing == [Assistant("(error: " + e + ")")]
  }

  /** `after` is a compacted history followed by a turn and its closing. */
  ghost predicate GoesOnWith(compacted: seq<Message>, after: seq<Message>, turn: Turn, maxRounds: nat) {
    exists added, result, closing :: IsTurn(added, result, turn, 0, maxRounds) && Closes(closing, result)
      && after == compacted + added + closing
  }

  /** What each input does: blank lines and other commands nothing, clearing leaves the first message, the command
      compacts to 40_000 tokens, and a prompt is appended, compacted to 80_000 and followed by its turn. */
  lemma HandledMeans(messages: seq<Message>, input: Input, maxRounds: nat)
    ensures match input
      case Clear => Handled(messages, input, maxRounds) == if messages == [] then [] else [messages[0]]
      case Compact => Handled(messages, input, maxRounds) == Compacted(messages, 40_000)
      case Prompt(text, turn) =>
        GoesOnWith(Compacted(messages + [User(text)], 80_000), Handled(messages, input, maxRounds), turn, maxRounds)
      case _ => Handled(messages, input, maxRounds) == messages
  {
    match input
    case Prompt(text, turn) =>
      var (added, result) := Rounds(turn, 0, maxRounds);
      RoundsAreTurns(turn, maxRounds);
      assert Closes(Closing(result), result);
      assert Handled(messages, input, maxRounds) == Compacted(messages + [User(text)], 80_000) + added + Closing(result);
    case _ =>
  }

  lemma OneMessageIsPaired(m: Message)
    requires m.User? || m.Assistant?
    ensures Paired([m])
  {
    assert [m][1..] == [];
  }

  /** Whenever control is back in the main loop all calls are answered; the history is paired exactly as foretold. */
  lemma HandlingKeepsAnswers(messages: seq<Message>, input: Input, maxRounds: nat)
    requires Answered(messages)
    ensures Answered(Handled(messages, input, maxRounds))
    ensures Paired(Handled(messages, input, maxRounds)[1..]) <==> StaysPaired(messages, input)
  {
    match input
    case Compact => CompactionKeepsAnswers(messages, COMMAND_BUDGET);
    case Clear => assert messages[..1][1..] == [];
    case Prompt(text, turn) =>
      var (added, result) := Rounds(turn, 0, maxRounds);
      OneMessageIsPaired(User(text));
      AppendingKeepsAnswers(messages, [User(text)]);
      var next := messages + [User(text)];
      CompactionKeepsAnswers(next, TURN_BUDGET);
      TurnKeepsAnswers(Compacted(next, TURN_BUDGET), turn, maxRounds);
    case _ =>
  }

  lemma TurnKeepsAnswers(messages: seq<Message>, turn: Turn, maxRounds: nat)
    requires Answered(messages)
    ensures var after := messages + Rounds(turn, 0, maxRounds).0 + Closing(Rounds(turn, 0, maxRounds).1);
      Answered(after) && (Paired(after[1..]) <==> Paired(messages[1..]))
  {
    var (added, result) := Rounds(turn, 0, maxRounds);
    RoundsArePaired(turn, 0, maxRounds);
    AppendingKeepsAnswers(messages, added);
    if Closing(result) == [] {
      assert messages + added + [] == messages + added;
    } else {
      OneMessageIsPaired(Closing(result)[0]);
      AppendingKeepsAnswers(messages + added, Closing(result));
    }
  }

  /** Over whole sessions every message with calls is followed at once by exactly its answers. */
  lemma {:induction false} EveryHistoryIsAnswered(systemPrompt: string, inputs: seq<Input>, maxRounds: nat)
    ensures Answered(History(systemPrompt, inputs, maxRounds))
  {
    if inputs == [] {
      assert [System(systemPrompt)][1..] == [];
    } else {
      EveryHistoryIsAnswered(systemPrompt, inputs[..|inputs| - 1], maxRounds);
      HandlingKeepsAnswers(History(systemPrompt, inputs[..|inputs| - 1], maxRounds), inputs[|inputs| - 1], maxRounds);
    }
  }

  /** A prompt longer than the budget, sent when the eleventh message from the end is an answer, cuts that answer off
      from its call, whatever the turn brings. */
  lemma LongPromptOrphansAnswers(messages: seq<Message>, text: string, turn: Turn, maxRounds: nat)
    requires Answered(messages) && |messages| > KEEP_TAIL && messages[|messages| - KEEP_TAIL + 1].ToolResult?
    requires |text| / 4 > TURN_BUDGET
    ensures Answered(Handled(messages, Prompt(text, turn), maxRounds))
    ensures !Paired(Handled(messages, Prompt(text, turn), maxRounds)[1..])
  {
    var next := messages + [User(text)];
    LongLastMessage(next, text);
    assert Tail(next)[0] == messages[|messages| - KEEP_TAIL + 1];
    HandlingKeepsAnswers(messages, Prompt(text, turn), maxRounds);
  }

  lemma {:induction false} AnswersAreResults(t: Turn, round: nat, calls: seq<ToolCall>, i: nat)
    requires i <= |calls|
    ensures |AnswersFrom(t, round, calls, i)| == |calls| - i
    ensures forall m :: m in AnswersFrom(t, round, calls, i) ==> m.ToolResult?
    decreases |calls| - i
  {
    if i < |calls| {
      AnswersAreResults(t, round, calls, i + 1);
    }
  }

  /** What a turn adds in which the model makes some calls at once and then has nothing to say. */
  lemma OneRoundOfCalls(t: Turn, calls: seq<ToolCall>, maxRounds: nat)
    requires maxRounds >= 1 && calls != []
    requires t.reply(0) == Reply("", calls) && t.reply(1) == Reply("", [])
    ensures var (added, result) := Rounds(t, 0, maxRounds);
      && added == [AssistantCalls("", calls)] + AnswersFrom(t, 0, calls, 0)
      && |Closing(result)| <= 1
  {
    assert Rounds(t, 1, maxRounds).0 == [];
  }

  /** A call of the model with this many tool calls is enough to reach such a history. */
  lemma HistoryAfterCalls(systemPrompt: string, text: string, t: Turn, calls: seq<ToolCall>, maxRounds: nat)
    requires maxRounds >= 1 && |calls| == KEEP_TAIL
    requires t.reply(0) == Reply("", calls) && t.reply(1) == Reply("", [])
    ensures var h := Handled([System(systemPrompt)], Prompt(text, t), maxRounds);
      |h| > KEEP_TAIL && h[|h| - KEEP_TAIL + 1].ToolResult?
  {
    var start := [System(systemPrompt)] + [User(text)];
    var answers := AnswersFrom(t, 0, calls, 0);
    assert Compacted(start, TURN_BUDGET) == start by { CompactionBounds(start, TURN_BUDGET); }
    OneRoundOfCalls(t, calls, maxRounds);
    AnswersAreResults(t, 0, calls, 0);
    var h := Handled([System(systemPrompt)], Prompt(text, t), maxRounds);
    var k := |h| - KEEP_TAIL + 1;
    assert 3 <= k < 3 + |answers| && h[k] == answers[k - 3];
    assert answers[k - 3] in answers;
  }

  /** A turn in which the model makes as many calls as messages are kept, and then a long prompt. */
  lemma LosingPairing(systemPrompt: string, text: string, t: Turn, calls: seq<ToolCall>, maxRounds: nat)
    requires maxRounds >= 1 && |text| / 4 > TURN_BUDGET && |calls| == KEEP_TAIL
    requires t.reply(0) == Reply("", calls) && t.reply(1) == Reply("", [])
    ensures var h := History(systemPrompt, [Prompt("x", t), Prompt(text, t)], maxRounds); h != [] && !Paired(h[1..])
  {
    var first, second := Prompt("x", t), Prompt(text, t);
    HistoryOfTwo(systemPrompt, first, second, maxRounds);
    EveryHistoryIsAnswered(systemPrompt, [first], maxRounds);
    HistoryAfterCalls(systemPrompt, "x", t, calls, maxRounds);
    LongPromptOrphansAnswers(History(systemPrompt, [first], maxRounds), text, t, maxRounds);
  }

  /** Under every round limit there is a session in which compaction cuts answers off from their calls. */
  lemma SessionsCanLosePairing(systemPrompt: string, maxRounds: nat)
    requires maxRounds >= 1
    ensures exists inputs :: var h := History(systemPrompt, inputs, maxRounds); h != [] && !Paired(h[1..])
  {
    var text := seq(4 * (TURN_BUDGET + 1), _ => 'x');
    var calls := seq(KEEP_TAIL, _ => ToolCall("id", "tool", "{}"));
    var t := Turn(r => Reply("", if r == 0 then calls else []), (r, i) => Declined);
    LosingPairing(systemPrompt, text, t, calls, maxRounds);
  }

  /** A session of short prompts to a model that says nothing. */
  function Quiet(): Input {
    Prompt("x", Turn(r => Reply("", []), (r, i) => Declined))
  }

  function QuietInputs(k: nat): (r: seq<Input>)
    ensures |r| == k
  {
    if k == 0 then [] else QuietInputs(k - 1) + [Quiet()]
  }

  /** The prompt "x", over and over. */
  function Prompts(k: nat): (r: seq<Message>)
    ensures |r| == k
  {
    if k == 0 then [] else Prompts(k - 1) + [User("x")]
  }

  lemma HistorySnoc(systemPrompt: string, inputs: seq<Input>, last: Input, maxRounds: nat)
    ensures History(systemPrompt, inputs + [last], maxRounds) == Handled(History(systemPrompt, inputs, maxRounds), last, maxRounds)
  {
    assert (inputs + [last])[..|inputs|] == inputs;
  }

  lemma QuietTurn(messages: seq<Message>, maxRounds: nat)
    requires |messages| <= KEEP_TAIL && maxRounds >= 1
    ensures Handled(messages, Quiet(), maxRounds) == messages + [User("x")]
  {
    var next := messages + [User("x")];
    CompactionBounds(next, TURN_BUDGET);
    assert Rounds(Quiet().turn, 0, maxRounds) == ([], Answers(""));
    assert next + [] + [] == next;
  }

  lemma {:induction false} QuietHistory(systemPrompt: string, k: nat, maxRounds: nat)
    requires k <= KEEP_TAIL && maxRounds >= 1
    ensures History(systemPrompt, QuietInputs(k), maxRounds) == [System(systemPrompt)] + Prompts(k)
  {
    if k > 0 {
      QuietHistory(systemPrompt, k - 1, maxRounds);
      HistorySnoc(systemPrompt, QuietInputs(k - 1), Quiet(), maxRounds);
      QuietTurn([System(systemPrompt)] + Prompts(k - 1), maxRounds);
      assert [System(systemPrompt)] + Prompts(k - 1) + [User("x")] == [System(systemPrompt)] + Prompts(k);
    }
  }

  lemma {:induction false} FirstPrompt(k: nat)
    requires k > 0
    ensures Prompts(k)[0] == User("x")
  {
    if k > 1 {
      FirstPrompt(k - 1);
    }
  }

  /** In every such session the compaction before a long prompt raises the estimate. */
  lemma CompactionCanRaiseEstimate(systemPrompt: string, text: string, maxRounds: nat)
    requires maxRounds >= 1 && |text| / 4 > TURN_BUDGET
    ensures var next := History(systemPrompt, QuietInputs(KEEP_TAIL), maxRounds) + [User(text)];
      Estimate(Compacted(next, TURN_BUDGET)) > Estimate(next)
  {
    QuietHistory(systemPrompt, KEEP_TAIL, maxRounds);
    FirstPrompt(KEEP_TAIL);
    var next := [System(systemPrompt)] + Prompts(KEEP_TAIL) + [User(text)];
    LongLastMessage(next, text);
    DroppingGrowsIff(next, TURN_BUDGET, 2);
    assert next[1..2] == [User("x")];
    EstimateOfOne(User("x"));
    assert |SUMMARY.text| / 4 > 0;
  }

  lemma LongLastMessage(messages: seq<Message>, text: string)
    requires |messages| > KEEP_TAIL + 1 && messages[|messages| - 1] == User(text) && |text| / 4 > TURN_BUDGET
    ensures Drops(messages, TURN_BUDGET)
  {
    var n := |messages|;
    assert ShortenedOld(messages)[n - 1] == User(text);
    assert Estimate(messages) >= Tokens(User(text)) && Estimate(ShortenedOld(messages)) >= Tokens(User(text));
  }

  lemma HistoryOfTwo(systemPrompt: string, first: Input, second: Input, maxRounds: nat)
    ensures History(systemPrompt, [first], maxRounds) == Handled([System(systemPrompt)], first, maxRounds)
    ensures History(systemPrompt, [first, second], maxRounds) == Handled(History(systemPrompt, [first], maxRounds), second, maxRounds)
  {
    assert [first][..0] == [];
    assert [first, second] == [first] + [second];
    HistorySnoc(systemPrompt, [first], second, maxRounds);
  }

  /** The system prompt is the first message and the only system message. */
  ghost predicate SystemFirst(messages: seq<Message>, systemPrompt: string) {
    && messages != []
    && messages[0] == System(systemPrompt)
    && forall i :: 1 <= i < |messages| ==> !messages[i].System?
  }

  lemma CompactionKeepsSystemFirst(messages: seq<Message>, maxTokens: nat, systemPrompt: string)
    requires SystemFirst(messages, systemPrompt)
    ensures SystemFirst(Compacted(messages, maxTokens), systemPrompt)
  {
    if Drops(messages, maxTokens) {
      SummaryKeepsSystemFirst(messages, |messages| - KEEP_TAIL, SUMMARY, systemPrompt);
    }
  }

  lemma SummaryKeepsSystemFirst(messages: seq<Message>, k: nat, summary: Message, systemPrompt: string)
    requires SystemFirst(messages, systemPrompt) && 1 <= k <= |messages| && !summary.System?
    ensures SystemFirst([messages[0], summary] + messages[k..], systemPrompt)
  {
    assert forall i :: k <= i < |messages| ==> messages[k..][i - k] == messages[i];
  }

  lemma {:induction false} RoundsHaveNoSystem(t: Turn, round: nat, maxRounds: nat)
    ensures forall m :: m in Rounds(t, round, maxRounds).0 ==> !m.System?
    decreases maxRounds - round
  {
    if round < maxRounds && t.reply(round).Reply? && t.reply(round).calls != [] {
      RoundsHaveNoSystem(t, round + 1, maxRounds);
      AnswersHaveNoSystem(t, round, t.reply(round).calls, 0);
    }
  }

  lemma {:induction false} AnswersHaveNoSystem(t: Turn, round: nat, calls: seq<ToolCall>, i: nat)
    requires i <= |calls|
    ensures forall m :: m in AnswersFrom(t, round, calls, i) ==> !m.System?
    decreases |calls| - i
  {
    if i < |calls| {
      AnswersHaveNoSystem(t, round, calls, i + 1);
    }
  }

  lemma AppendKeepsSystemFirst(messages: seq<Message>, more: seq<Message>, systemPrompt: string)
    requires SystemFirst(messages, systemPrompt) && forall m :: m in more ==> !m.System?
    ensures SystemFirst(messages + more, systemPrompt)
  {}

  lemma {:induction false} OneSystemMessage(systemPrompt: string, inputs: seq<Input>, maxRounds: nat)
    ensures SystemFirst(History(systemPrompt, inputs, maxRounds), systemPrompt)
  {
    if inputs != [] {
      var before, input := History(systemPrompt, inputs[..|inputs| - 1], maxRounds), inputs[|inputs| - 1];
      OneSystemMessage(systemPrompt, inputs[..|inputs| - 1], maxRounds);
      match input
      case Compact => CompactionKeepsSystemFirst(before, COMMAND_BUDGET, systemPrompt);
      case Prompt(text, turn) =>
        var (added, result) := Rounds(turn, 0, maxRounds);
        AppendKeepsSystemFirst(before, [User(text)], systemPrompt);
        CompactionKeepsSystemFirst(before + [User(text)], TURN_BUDGET, systemPrompt);
        RoundsHaveNoSystem(turn, 0, maxRounds);
        var compacted := Compacted(before + [User(text)], TURN_BUDGET);
        AppendKeepsSystemFirst(compacted, added, systemPrompt);
        AppendKeepsSystemFirst(compacted + added, Closing(result), systemPrompt);
      case _ =>
    }
  }

  lemma AppendedPart<T>(a: seq<T>, b: seq<T>)
    ensures a <= a + b && (a + b)[|a|..] == b
  {}

  /** From these messages and this round on the loop ends with the goal. */
  ghost predicate LeadsTo(messages: seq<Message>, t: Turn, round: nat, maxRounds: nat, goal: (seq<Message>, LoopResult)) {
    goal == (messages + Rounds(t, round, maxRounds).0, Rounds(t, round, maxRounds).1)
  }

  /** One round of the loop: it ends there, or goes on with the calls and their answers appended. */
  lemma LoopStep(messages: seq<Message>, t: Turn, round: nat, maxRounds: nat, goal: (seq<Message>, LoopResult))
    requires round < maxRounds && LeadsTo(messages, t, round, maxRounds, goal)
    ensures var reply := t.reply(round);
      && (reply.LlmError? ==> goal == (messages, Fails("LLM error: " + reply.error)))
      && (reply.Reply? && reply.calls == [] ==> goal == (messages, Answers(reply.text)))
      && (reply.Reply? && reply.calls != [] ==>
            LeadsTo(messages + [AssistantCalls(reply.text, reply.calls)] + AnswersFrom(t, round, reply.calls, 0),
                    t, round + 1, maxRounds, goal))
  {
    match t.reply(round)
    case LlmError(_) => assert messages + [] == messages;
    case Reply(text, calls) =>
      if calls == [] {
        assert messages + [] == messages;
      } else {
        var head, answers, rest := [AssistantCalls(text, calls)], AnswersFrom(t, round, calls, 0), Rounds(t, round + 1, maxRounds).0;
        assert messages + (head + answers + rest) == (messages + head + answers) + rest;
      }
  }

  lemma LoopEnd(messages: seq<Message>, t: Turn, maxRounds: nat, goal: (seq<Message>, LoopResult))
    requires LeadsTo(messages, t, maxRounds, maxRounds, goal)
    ensures goal == (messages, Answers(OUT_OF_ROUNDS))
  {
    assert messages + [] == messages;
  }

  class Session {
    var messages: seq<Message>
    const maxToolRounds: nat

    constructor (systemPrompt: string, maxToolRounds: nat)
      ensures messages == [System(systemPrompt)] && this.maxToolRounds == maxToolRounds
    {
      messages := [System(systemPrompt)];
      this.maxToolRounds := maxToolRounds;
    }

    /** `compact_messages`. */
    method CompactMessages(maxTokens: nat)
      modifies this`messages
      ensures messages == Compacted(old(messages), maxTokens)
    {
      var est := EstimateTokens(messages);
      if est <= maxTokens {
        return;
      }
      ghost var before := messages;
      ShortenOld();
      est := EstimateTokens(messages);
      ShortenedTwice(before);
      if est <= maxTokens {
        return;
      }
      if |messages| > KEEP_TAIL + 1 {
        var tail := messages[|messages| - KEEP_TAIL..];
        messages := [messages[0], SUMMARY] + tail;
      }
    }

    /** The loop of `compact_messages` over the messages before the tail. */
    method ShortenOld()
      requires messages != []
      modifies this`messages
      ensures messages == ShortenedOld(old(messages))
    {
      ghost var before := messages;
      var end := Max(if |messages| < KEEP_TAIL then 0 else |messages| - KEEP_TAIL, 1);
      for i := 1 to end
        invariant |messages| == |before|
        invariant forall j :: 0 <= j < |before| ==> messages[j] == if 1 <= j < i then Shortened(before[j]) else before[j]
      {
        var m := messages[i];
        if m.ToolResult? && |m.content| > 500 {
          messages := messages[i := ToolResult(m.callId, m.content[..200] + "... (compacted)")];
        }
      }
    }

    /** `agentic_loop`. */
    method AgenticLoop(t: Turn) returns (result: LoopResult)
      modifies this`messages
      ensures (messages, result) == (old(messages) + Rounds(t, 0, maxToolRounds).0, Rounds(t, 0, maxToolRounds).1)
      ensures old(messages) <= messages && IsTurn(messages[|old(messages)|..], result, t, 0, maxToolRounds)
    {
      RoundsAreTurns(t, maxToolRounds);
      AppendedPart(messages, Rounds(t, 0, maxToolRounds).0);
      ghost var goal := (messages + Rounds(t, 0, maxToolRounds).0, Rounds(t, 0, maxToolRounds).1);
      for round := 0 to maxToolRounds
        invariant LeadsTo(messages, t, round, maxToolRounds, goal)
      {
        LoopStep(messages, t, round, maxToolRounds, goal);
        var reply := t.reply(round);
        if reply.LlmError? {
          return Fails("LLM error: " + reply.error);
        }
        if reply.calls == [] {
          return Answers(reply.text);
        }
        messages := messages + [AssistantCalls(reply.text, reply.calls)];
        AnswerCalls(t, round, reply.calls);
      }
      LoopEnd(messages, t, maxToolRounds, goal);
      return Answers(OUT_OF_ROUNDS);
    }

    /** The loop over the calls of one round; a declined call is answered too. */
    method AnswerCalls(t: Turn, round: nat, calls: seq<ToolCall>)
      modifies this`messages
      ensures messages == old(messages) + AnswersFrom(t, round, calls, 0)
      ensures old(messages) <= messages && AnswerRound(messages[|old(messages)|..], t, round, calls)
    {
      AnswersAreGiven(t, round, calls);
      AppendedPart(messages, AnswersFrom(t, round, calls, 0));
      ghost var whole := messages + AnswersFrom(t, round, calls, 0);
      for i := 0 to |calls|
        invariant messages + AnswersFrom(t, round, calls, i) == whole
      {
        var content := ResultContent(t.answer(round, i));
        assert messages + ([ToolResult(calls[i].id, content)] + AnswersFrom(t, round, calls, i + 1))
            == (messages + [ToolResult(calls[i].id, content)]) + AnswersFrom(t, round, calls, i + 1);
        messages := messages + [ToolResult(calls[i].id, content)];
      }
    }

    /** One pass of the main loop in `run_interactive_session`. */
    method Handle(input: Input)
      modifies this`messages
      ensures messages == Handled(old(messages), input, maxToolRounds)
    {
      match input {
        case Blank =>
        case OtherCommand =>
        case Clear =>
          messages := if messages == [] then [] else [messages[0]];
        case Compact =>
          CompactMessages(COMMAND_BUDGET);
        case Prompt(text, turn) =>
          messages := messages + [User(text)];
          CompactMessages(TURN_BUDGET);
          ghost var compacted := messages;
          var result := AgenticLoop(turn);
          match result {
            case Answers(text') =>
              if text' != "" {
                messages := messages + [Assistant(text')];
              }
            case Fails(e) =>
              messages := messages + [Assistant("(error: " + e + ")")];
          }
      }
    }

    /** The main loop over all input, from a fresh session. */
    method Run(systemPrompt: string, inputs: seq<Input>)
      requires messages == [System(systemPrompt)]
      modifies this`messages
      ensures messages == History(systemPrompt, inputs, maxToolRounds)
      ensures Answered(messages)
    {
      for i := 0 to |inputs|
        invariant messages == History(systemPrompt, inputs[..i], maxToolRounds)
      {
        assert inputs[..i + 1][..i] == inputs[..i];
        Handle(inputs[i]);
      }
      assert inputs[..|inputs|] == inputs;
      EveryHistoryIsAnswered(systemPrompt, inputs, maxToolRounds);
    }
  }
}
