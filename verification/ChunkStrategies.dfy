/** The chunking strategies together, and what they keep of a text (engine/src/rag.rs). */
module ChunkStrategies {
  import opened Basics
  import opened Strings
  import opened Chunking
  import opened Windows

  datatype Strategy = FixedSize | Sentence | Paragraph | Semantic

  datatype Config = Config(strategy: Strategy, chunkSize: nat, chunkOverlap: nat)

  // ---------------------------------------------------------------------------
  // Conservation
  // ---------------------------------------------------------------------------

  lemma {:induction false} SplitKeepsNonBlank(s: string, c: char)
    requires IsWhitespace(c)
    ensures NonBlankChars(Concat(SplitDouble(s, c))) == NonBlankChars(s)
  {
    if FindDouble(s, c) == None {
      assert [s][1..] == [] && s + "" == s;
    } else {
      var i := FindDouble(s, c).value;
      var first, rest := s[..i], s[i + 2..];
      SplitKeepsNonBlank(rest, c);
      AroundDouble(s, c, i);
      DroppedSeparator(first, [c, c], rest);
      NonBlankCharsConcat(first, Concat(SplitDouble(rest, c)));
      assert Concat(SplitDouble(s, c)) == first + Concat(SplitDouble(rest, c)) by {
        assert SplitDouble(s, c)[1..] == SplitDouble(rest, c);
      }
    }
  }

  lemma AroundDouble(s: string, c: char, i: nat)
    requires i + 2 <= |s| && s[i] == c && s[i + 1] == c
    ensures s == s[..i] + [c, c] + s[i + 2..]
  {}

  lemma {:induction false} DroppedSeparator(first: string, sep: string, rest: string)
    requires Blank(sep)
    ensures NonBlankChars(first + sep + rest) == NonBlankChars(first) + NonBlankChars(rest)
  {
    NonBlankCharsConcat(first + sep, rest);
    NonBlankCharsConcat(first, sep);
    NonBlankCharsOfBlank(sep);
  }

  lemma {:induction false} TrimmingKeepsNonBlank(pieces: seq<string>)
    ensures NonBlankChars(Concat(TrimmedNonEmpty(pieces))) == NonBlankChars(Concat(pieces))
  {
    if pieces != [] {
      var p := Trim(pieces[0]);
      TrimmingKeepsNonBlank(pieces[1..]);
      TrimKeepsNonBlankChars(pieces[0]);
      NonBlankCharsConcat(pieces[0], Concat(pieces[1..]));
      NonBlankCharsConcat(p, Concat(TrimmedNonEmpty(pieces[1..])));
    }
  }

  lemma {:induction false} JoinKeepsNonBlank(parts: seq<string>, sep: string)
    requires Blank(sep)
    ensures NonBlankChars(Join(parts, sep)) == NonBlankChars(Concat(parts))
  {
    if |parts| == 1 {
      assert Concat(parts[1..]) == "" && parts[0] + "" == parts[0];
    } else if |parts| > 1 {
      var init, last := parts[..|parts| - 1], parts[|parts| - 1];
      JoinKeepsNonBlank(init, sep);
      NonBlankCharsConcat(Join(init, sep) + sep, last);
      NonBlankCharsConcat(Join(init, sep), sep);
      NonBlankCharsOfBlank(sep);
      assert parts == init + [last];
      ConcatAppend(init, [last]);
      assert Concat([last][1..]) == "" && last + "" == last;
      NonBlankCharsConcat(Concat(init), last);
    }
  }

  lemma {:induction false} JoinEachKeepsNonBlank(groups: seq<seq<string>>, sep: string)
    requires Blank(sep)
    ensures NonBlankChars(Concat(JoinEach(groups, sep))) == NonBlankChars(Concat(Flatten(groups)))
  {
    if groups != [] {
      var g, rest := groups[0], groups[1..];
      JoinEachKeepsNonBlank(rest, sep);
      JoinKeepsNonBlank(g, sep);
      ConcatAppend(g, Flatten(rest));
      NonBlankCharsConcat(Join(g, sep), Concat(JoinEach(rest, sep)));
      NonBlankCharsConcat(Concat(g), Concat(Flatten(rest)));
    }
  }

  lemma {:induction false} NonBlankOnlyKeepsNonBlank(windows: seq<string>)
    ensures NonBlankChars(Concat(NonBlankOnly(windows))) == NonBlankChars(Concat(windows))
  {
    if windows != [] {
      NonBlankOnlyKeepsNonBlank(windows[1..]);
      NonBlankCharsConcat(windows[0], Concat(windows[1..]));
      TrimEmptyIffBlank(windows[0]);
      if Blank(windows[0]) {
        NonBlankCharsOfBlank(windows[0]);
      } else {
        NonBlankCharsConcat(windows[0], Concat(NonBlankOnly(windows[1..])));
      }
    }
  }

  lemma {:induction false} HeadsOfShortWindows(text: string, size: nat, start: nat)
    requires size > 0
    ensures Heads(AllWindows(text, size, size, start), size) == AllWindows(text, size, size, start)
    decreases |text| - start
  {
    if start < |text| {
      var w := text[start..Min(start + size, |text|)];
      assert w[..Min(size, |w|)] == w;
      HeadsOfShortWindows(text, size, start + size);
    }
  }

  /** `chunk_text`'s dispatch, as a function of the text and the configuration. */
  function Chunks(text: string, config: Config): seq<string> {
    match config.strategy
    case FixedSize => FixedChunks(text, config.chunkSize, config.chunkOverlap)
    case Sentence => SentenceChunks(text, config.chunkSize)
    case Paragraph => ParagraphChunks(text, config.chunkSize)
    case Semantic => ParagraphChunks(text, config.chunkSize)
  }

  /** The chunks are the joined groups of a smallest acceptable grouping of the pieces. */
  ghost predicate JoinsGroups(chunks: seq<string>, pieces: seq<string>, sep: string, max: nat) {
    exists groups :: IsOptimalGrouping(groups, pieces, sep, max) && chunks == JoinEach(groups, sep)
  }

  /** The chunks are the same, trimmed and without blank ones. */
  ghost predicate TrimsGroups(chunks: seq<string>, pieces: seq<string>, sep: string, max: nat) {
    exists joined :: JoinsGroups(joined, pieces, sep, max) && chunks == TrimmedNonEmpty(joined)
  }

  /** What each strategy gives: non-blank windows, trimmed groups of sentences, or groups of paragraphs; semantic chunking
      is chunking by paragraphs. */
  ghost predicate FollowsStrategy(text: string, config: Config, chunks: seq<string>) {
    match config.strategy
    case FixedSize =>
      if config.chunkSize == 0 then chunks == [] else KeepsWindows(text, config.chunkSize, config.chunkOverlap, chunks)
    case Sentence => TrimsGroups(chunks, Sentences(text), "", config.chunkSize)
    case Paragraph => JoinsGroups(chunks, Paragraphs(text), BLANK_LINE, config.chunkSize)
    case Semantic => JoinsGroups(chunks, Paragraphs(text), BLANK_LINE, config.chunkSize)
  }

  lemma ChunksFollowStrategy(text: string, config: Config)
    ensures FollowsStrategy(text, config, Chunks(text, config))
  {
    var max := config.chunkSize;
    match config.strategy
    case FixedSize => FixedChunksAreWindows(text, max, config.chunkOverlap);
    case Sentence =>
      SentenceGroupsAreOptimal(text, max);
      assert JoinsGroups(JoinEach(SentenceGroups(text, max), ""), Sentences(text), "", max);
    case _ => ParagraphChunksAreOptimal(text, max);
  }

  /** `chunk_text`. */
  method ChunkText(text: string, config: Config) returns (chunks: seq<string>)
    ensures chunks == Chunks(text, config)
    ensures FollowsStrategy(text, config, chunks)
  {
    ChunksFollowStrategy(text, config);
    match config.strategy
    case FixedSize => chunks := ChunkFixedSize(text, config.chunkSize, config.chunkOverlap);
    case Sentence => chunks := ChunkBySentence(text, config.chunkSize);
    case Paragraph => chunks := ChunkByParagraph(text, config.chunkSize);
    case Semantic => chunks := ChunkByParagraph(text, config.chunkSize);
  }

  /** Every strategy without overlap keeps every non-blank character exactly once and in order. */
  lemma ChunkingConservesText(text: string, config: Config)
    requires config.strategy.FixedSize? ==> config.chunkSize > 0 && config.chunkOverlap == 0
    ensures NonBlankChars(Concat(Chunks(text, config))) == NonBlankChars(text)
  {
    var max := config.chunkSize;
    match config.strategy
    case FixedSize =>
      WindowHeadsTileTheText(text, max, max, 0);
      assert text[0..] == text;
      HeadsOfShortWindows(text, max, 0);
      NonBlankOnlyKeepsNonBlank(AllWindows(text, max, max, 0));
    case Sentence =>
      SentenceGroupsAreOptimal(text, max);
      JoinEachKeepsNonBlank(SentenceGroups(text, max), "");
      TrimmingKeepsNonBlank(JoinEach(SentenceGroups(text, max), ""));
    case _ =>
      ParagraphChunksAreOptimal(text, max);
      JoinEachKeepsNonBlank(ParagraphGroups(text, max), BLANK_LINE);
      TrimmingKeepsNonBlank(SplitDouble(text, '\n'));
      SplitKeepsNonBlank(text, '\n');
  }
}
