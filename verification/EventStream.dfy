/** The text event stream: its printer (engine/src/core/events.rs, engine/src/streaming.rs) and its incremental
    parser (cli/src/sessions_watch.rs). The format is a restricted form of Server-Sent Events, sections 9.2.5
    and 9.2.6 of the WHATWG HTML Living Standard. */
module EventStream {
  import opened Basics
  import opened Strings

  datatype Frame = Frame(event: string, data: string)

  const EVENT_PREFIX := "event: "
  const DATA_PREFIX := "data: "
  const NEWLINE := '\n'

  // ---------------------------------------------------------------------------
  // Printing
  // ---------------------------------------------------------------------------

  /** `to_sse`. */
  function ToSse(f: Frame): string {
    EVENT_PREFIX + f.event + [NEWLINE] + (DATA_PREFIX + f.data) + [NEWLINE, NEWLINE]
  }

  /** A frame is two lines and a blank one. */
  lemma FrameFormat(name: string, data: string)
    ensures ToSse(Frame(name, data)) == "event: " + name + "\ndata: " + data + "\n\n"
  {
    assert [NEWLINE] + "data: " == "\ndata: " && [NEWLINE, NEWLINE] == "\n\n";
    var head := "event: " + name;
    assert head + [NEWLINE] + ("data: " + data) + [NEWLINE, NEWLINE] == head + ([NEWLINE] + "data: ") + data + [NEWLINE, NEWLINE];
  }

  function PrintAll(frames: seq<Frame>): string {
    if frames == [] then "" else ToSse(frames[0]) + PrintAll(frames[1..])
  }

  // ---------------------------------------------------------------------------
  // Parsing
  // ---------------------------------------------------------------------------

  function StripCr(line: string): string {
    if line != "" && line[|line| - 1] == '\r' then line[..|line| - 1] else line
  }

  /** Event name and data collected so far, and the rest of the lines of a frame. */
  function ScanLines(lines: seq<string>, event: string, data: string): Frame {
    if lines == [] then Frame(event, data)
    else
      var line := StripCr(lines[0]);
      if EVENT_PREFIX <= line then ScanLines(lines[1..], Trim(line[|EVENT_PREFIX|..]), data)
      else if DATA_PREFIX <= line then ScanLines(lines[1..], event, Trim(line[|DATA_PREFIX|..]))
      else ScanLines(lines[1..], event, data)
  }

  /** `str::lines` of a text that ends in a newline, before carriage returns are stripped. */
  function TerminatedLines(text: string): seq<string> {
    var pieces := SplitChar(text, NEWLINE);
    pieces[..|pieces| - 1]
  }

  /** The frame a block of lines stands for, if it has both an event name and data. */
  function FrameOf(block: string): seq<Frame> {
    var f := ScanLines(TerminatedLines(block), "", "");
    if f.event != "" && f.data != "" then [f] else []
  }

  datatype Parsed = Parsed(frames: seq<Frame>, rest: string)

  /** All complete frames of a buffer and what is left in it. */
  function Parse(buffer: string): Parsed
    decreases |buffer|
  {
    match FindDouble(buffer, NEWLINE)
    case None => Parsed([], buffer)
    case Some(i) =>
      var p := Parse(buffer[i + 2..]);
      Parsed(FrameOf(buffer[..i + 2]) + p.frames, p.rest)
  }

  /** Reading one block: the frame it stands for and then the rest. */
  function Prepend(first: seq<Frame>, p: Parsed): Parsed {
    Parsed(first + p.frames, p.rest)
  }

  lemma {:induction false} ParseStep(buffer: string, i: nat)
    requires FindDouble(buffer, NEWLINE) == Some(i)
    ensures i + 2 <= |buffer| && Parse(buffer) == Prepend(FrameOf(buffer[..i + 2]), Parse(buffer[i + 2..]))
  {}

  lemma PrependTwice(a: seq<Frame>, b: seq<Frame>, p: Parsed)
    ensures Prepend(a, Prepend(b, p)) == Prepend(a + b, p)
  {
    assert a + (b + p.frames) == (a + b) + p.frames;
  }

  /** The loop over the lines of one block. */
  method ReadBlock(block: string) returns (frames: seq<Frame>)
    ensures frames == FrameOf(block)
  {
    var lines := TerminatedLines(block);
    var event, data := "", "";
    for i := 0 to |lines|
      invariant ScanLines(lines[i..], event, data) == ScanLines(lines, "", "")
    {
      assert lines[i..][1..] == lines[i + 1..];
      var line := StripCr(lines[i]);
      if EVENT_PREFIX <= line {
        event := Trim(line[|EVENT_PREFIX|..]);
      } else if DATA_PREFIX <= line {
        data := Trim(line[|DATA_PREFIX|..]);
      }
    }
    assert lines[|lines|..] == [];
    frames := if event != "" && data != "" then [Frame(event, data)] else [];
  }

  class TextBuffer {
    var text: string

    constructor ()
      ensures text == ""
    {
      text := "";
    }

    /** `parse_sse_frames`: drains complete frames from the front. */
    method ParseFrames() returns (frames: seq<Frame>)
      modifies this
      ensures Parsed(frames, text) == Parse(old(text))
    {
      frames := [];
      ghost var whole := Parse(text);
      var pos := FindDouble(text, NEWLINE);
      while pos.Some?
        invariant pos == FindDouble(text, NEWLINE)
        invariant whole == Prepend(frames, Parse(text))
        decreases |text|
      {
        ParseStep(text, pos.value);
        var block := text[..pos.value + 2];
        var read := ReadBlock(block);
        text := text[pos.value + 2..];
        PrependTwice(frames, read, Parse(text));
        frames := frames + read;
        pos := FindDouble(text, NEWLINE);
      }
    }

    /** What the data loop does with one chunk from the network. */
    method Feed(chunk: string) returns (frames: seq<Frame>)
      modifies this
      ensures Parsed(frames, text) == Parse(old(text) + chunk)
    {
      text := text + chunk;
      frames := ParseFrames();
    }
  }

  // ---------------------------------------------------------------------------
  // Split invariance
  // ---------------------------------------------------------------------------

  lemma FirstDoubleStays(b: string, c: string, ch: char)
    requires FindDouble(b, ch).Some?
    ensures FindDouble(b + c, ch) == FindDouble(b, ch)
  {
    var i := FindDouble(b, ch).value;
    assert DoubleAt(b + c, ch, i);
    assert forall j :: 0 <= j <= i ==> (DoubleAt(b + c, ch, j) <==> DoubleAt(b, ch, j));
  }

  /** Feeding `b` and then `c` gives the same frames and the same leftover as feeding both at once. */
  lemma {:induction false} SplitInvariance(b: string, c: string)
    ensures Parse(b + c) == Prepend(Parse(b).frames, Parse(Parse(b).rest + c))
    decreases |b|
  {
    if FindDouble(b, NEWLINE).Some? {
      var i := FindDouble(b, NEWLINE).value;
      FirstDoubleStays(b, c, NEWLINE);
      ParseStep(b, i);
      ParseStep(b + c, i);
      SplitLater(b, c, i + 2);
      SplitInvariance(b[i + 2..], c);
      var p := Parse(b[i + 2..]);
      PrependTwice(FrameOf(b[..i + 2]), p.frames, Parse(p.rest + c));
    } else {
      NothingToRead(b);
      PrependNothing(Parse(b + c));
    }
  }

  lemma SplitLater(b: string, c: string, k: nat)
    requires k <= |b|
    ensures (b + c)[..k] == b[..k] && (b + c)[k..] == b[k..] + c
  {}

  lemma PrependNothing(p: Parsed)
    ensures Prepend([], p) == p
  {}

  /** No complete frame is ever left behind. */
  lemma {:induction false} LeftoverIsIncomplete(b: string)
    ensures !HasDouble(Parse(b).rest, NEWLINE)
    decreases |b|
  {
    if FindDouble(b, NEWLINE).Some? {
      LeftoverIsIncomplete(b[FindDouble(b, NEWLINE).value + 2..]);
    }
  }

  /** Feeding chunks one by one, keeping the leftover in between. */
  function FeedAll(rest: string, chunks: seq<string>): Parsed
    decreases |chunks|
  {
    if chunks == [] then Parsed([], rest)
    else
      var p := Parse(rest + chunks[0]);
      Prepend(p.frames, FeedAll(p.rest, chunks[1..]))
  }

  lemma {:induction false} NothingToRead(rest: string)
    requires !HasDouble(rest, NEWLINE)
    ensures Parse(rest) == Parsed([], rest)
  {}

  lemma {:induction false} FeedStep(rest: string, chunks: seq<string>)
    requires chunks != []
    ensures var p := Parse(rest + chunks[0]);
      FeedAll(rest, chunks) == Prepend(p.frames, FeedAll(p.rest, chunks[1..]))
    ensures rest + Concat(chunks) == rest + chunks[0] + Concat(chunks[1..])
  {
    assert rest + (chunks[0] + Concat(chunks[1..])) == rest + chunks[0] + Concat(chunks[1..]);
  }

  /** However the text is cut into chunks, the frames and the leftover are those of the whole text. */
  lemma {:induction false} ChunkingIsInvisible(rest: string, chunks: seq<string>)
    requires !HasDouble(rest, NEWLINE)
    ensures FeedAll(rest, chunks) == Parse(rest + Concat(chunks))
    decreases |chunks|
  {
    if chunks == [] {
      assert rest + "" == rest;
      NothingToRead(rest);
    } else {
      FeedStep(rest, chunks);
      var b, left := rest + chunks[0], Parse(rest + chunks[0]).rest;
      LeftoverIsIncomplete(b);
      ChunkingIsInvisible(left, chunks[1..]);
      SplitInvariance(b, Concat(chunks[1..]));
    }
  }

  // ---------------------------------------------------------------------------
  // Round trip
  // ---------------------------------------------------------------------------

  /** On one line, not empty, with nothing to trim. */
  predicate Clean(s: string) {
    s != "" && Trimmed(s) && NEWLINE !in s
  }

  ghost predicate AllClean(frames: seq<Frame>) {
    forall i :: 0 <= i < |frames| ==> Clean(frames[i].event) && Clean(frames[i].data)
  }

  lemma TwoLinesHaveNoBlankLine(a: string, b: string)
    requires NEWLINE !in a && NEWLINE !in b
    ensures !HasDouble(a + [NEWLINE] + b, NEWLINE)
  {
    var s := a + [NEWLINE] + b;
    assert forall i :: 0 <= i < |s| && i != |a| ==> s[i] in a || s[i] in b;
  }

  lemma BlockLines(a: string, b: string)
    requires NEWLINE !in a && NEWLINE !in b
    ensures TerminatedLines(a + [NEWLINE] + b + [NEWLINE, NEWLINE]) == [a, b, ""]
  {
    var tail := b + [NEWLINE, NEWLINE];
    assert a + [NEWLINE] + b + [NEWLINE, NEWLINE] == a + [NEWLINE] + tail;
    assert tail == b + [NEWLINE] + ("" + [NEWLINE] + "");
    SplitCharConcat(a, NEWLINE, tail);
    SplitCharConcat(b, NEWLINE, "" + [NEWLINE] + "");
    SplitCharConcat("", NEWLINE, "");
    SplitCharWhole(a, NEWLINE);
    SplitCharWhole(b, NEWLINE);
    assert SplitChar(a + [NEWLINE] + tail, NEWLINE) == [a, b, "", ""];
  }

  /** A line with a prefix and a clean value is read back as that value. */
  lemma ScanPrefixedLine(prefix: string, v: string)
    requires prefix != "" && Clean(v)
    ensures StripCr(prefix + v) == prefix + v && (prefix + v)[|prefix|..] == v && Trim(v) == v
  {}

  lemma ScanBlock(f: Frame)
    requires Clean(f.event) && Clean(f.data)
    ensures ScanLines([EVENT_PREFIX + f.event, DATA_PREFIX + f.data, ""], "", "") == f
  {
    var lines := [EVENT_PREFIX + f.event, DATA_PREFIX + f.data, ""];
    ScanPrefixedLine(EVENT_PREFIX, f.event);
    ScanPrefixedLine(DATA_PREFIX, f.data);
    assert lines[1..] == [DATA_PREFIX + f.data, ""] && lines[1..][1..] == [""] && [""][1..] == [];
    assert (DATA_PREFIX + f.data)[0] == 'd';
    assert ScanLines([""], f.event, f.data) == f;
    assert ScanLines(lines[1..], f.event, "") == f;
  }

  lemma PrintedFrameIsRead(f: Frame, rest: string)
    requires Clean(f.event) && Clean(f.data)
    ensures Parse(ToSse(f) + rest) == Parsed([f] + Parse(rest).frames, Parse(rest).rest)
  {
    var a, b := EVENT_PREFIX + f.event, DATA_PREFIX + f.data;
    var s := a + [NEWLINE] + b;
    assert NEWLINE !in a && NEWLINE !in b;
    TwoLinesHaveNoBlankLine(a, b);
    assert s[|s| - 1] == b[|b| - 1] && b[|b| - 1] in b;
    FindDoubleAfter(s, NEWLINE, rest);
    var t := s + [NEWLINE, NEWLINE] + rest;
    assert ToSse(f) + rest == t;
    assert t[..|s| + 2] == s + [NEWLINE, NEWLINE] && t[|s| + 2..] == rest;
    BlockLines(a, b);
    ScanBlock(f);
  }

  lemma {:induction false} CleanFramesAreRead(frames: seq<Frame>)
    requires AllClean(frames)
    ensures Parse(PrintAll(frames)) == Parsed(frames, "")
  {
    if frames != [] {
      CleanFramesAreRead(frames[1..]);
      PrintedFrameIsRead(frames[0], PrintAll(frames[1..]));
      assert [frames[0]] + frames[1..] == frames;
    }
  }

  lemma TrimmedPartIsOneLine(line: string, from: nat)
    requires NEWLINE !in line && from <= |line|
    ensures Trimmed(Trim(line[from..])) && NEWLINE !in Trim(line[from..])
  {
    var v := line[from..];
    assert forall c :: c in v ==> c in line;
    var lo, hi := TrimIsInfix(v);
    assert forall c :: c in v[lo..hi] ==> c in v;
  }

  ghost predicate OneLine(s: string) {
    Trimmed(s) && NEWLINE !in s
  }

  lemma {:induction false} ScannedPartsAreOneLine(lines: seq<string>, event: string, data: string)
    requires forall i :: 0 <= i < |lines| ==> NEWLINE !in lines[i]
    requires OneLine(event) && OneLine(data)
    ensures OneLine(ScanLines(lines, event, data).event) && OneLine(ScanLines(lines, event, data).data)
  {
    if lines != [] {
      var line := StripCr(lines[0]);
      assert forall c :: c in line ==> c in lines[0];
      if EVENT_PREFIX <= line {
        TrimmedPartIsOneLine(line, |EVENT_PREFIX|);
        ScannedPartsAreOneLine(lines[1..], Trim(line[|EVENT_PREFIX|..]), data);
      } else if DATA_PREFIX <= line {
        TrimmedPartIsOneLine(line, |DATA_PREFIX|);
        ScannedPartsAreOneLine(lines[1..], event, Trim(line[|DATA_PREFIX|..]));
      } else {
        ScannedPartsAreOneLine(lines[1..], event, data);
      }
    }
  }

  lemma {:induction false} SplitPiecesAreLines(s: string)
    ensures forall i :: 0 <= i < |SplitChar(s, NEWLINE)| ==> NEWLINE !in SplitChar(s, NEWLINE)[i]
  {
    if s != "" {
      SplitPiecesAreLines(s[1..]);
    }
  }

  /** Whatever the text, every frame that is read is clean. */
  lemma {:induction false} ReadFramesAreClean(buffer: string)
    ensures AllClean(Parse(buffer).frames)
    decreases |buffer|
  {
    if FindDouble(buffer, NEWLINE).Some? {
      var i := FindDouble(buffer, NEWLINE).value;
      ReadFramesAreClean(buffer[i + 2..]);
      SplitPiecesAreLines(buffer[..i + 2]);
      ScannedPartsAreOneLine(TerminatedLines(buffer[..i + 2]), "", "");
    }
  }

  /** Printed frames are read back, in order and with nothing left over, exactly when all of them are clean. */
  lemma RoundTripIffClean(frames: seq<Frame>)
    ensures Parse(PrintAll(frames)) == Parsed(frames, "") <==> AllClean(frames)
  {
    if AllClean(frames) {
      CleanFramesAreRead(frames);
    }
    ReadFramesAreClean(PrintAll(frames));
  }

  /** End to end: clean frames printed, cut into any chunks and fed one by one arrive unchanged. */
  lemma StreamingRoundTrip(frames: seq<Frame>, chunks: seq<string>)
    requires AllClean(frames) && Concat(chunks) == PrintAll(frames)
    ensures FeedAll("", chunks) == Parsed(frames, "")
  {
    ChunkingIsInvisible("", chunks);
    assert "" + Concat(chunks) == Concat(chunks);
    CleanFramesAreRead(frames);
  }
}
