/** Chunking by paragraphs and by sentences (engine/src/rag.rs).

    Both text-aware strategies are one greedy algorithm over a list of pieces: keep adding
    pieces to the current chunk while the joined text stays within the limit. Groupings give an
    independent reference: any way of cutting the list into runs that respect the limit. */
module Chunking {
  import opened Basics
  import opened Strings

  const BLANK_LINE := ['\n', '\n']

  // ---------------------------------------------------------------------------
  // Groupings
  // ---------------------------------------------------------------------------

  /** A group is acceptable if its joined text is within `max` bytes or it is a single piece. */
  predicate Fits(group: seq<string>, sep: string, max: nat) {
    group != [] && (|group| == 1 || ByteLen(Join(group, sep)) <= max)
  }

  /** `groups` cuts `pieces` into consecutive acceptable groups. */
  predicate IsGrouping(groups: seq<seq<string>>, pieces: seq<string>, sep: string, max: nat) {
    Flatten(groups) == pieces && forall i :: 0 <= i < |groups| ==> Fits(groups[i], sep, max)
  }

  function JoinEach(groups: seq<seq<string>>, sep: string): (r: seq<string>)
    ensures |r| == |groups|
  {
    if groups == [] then [] else [Join(groups[0], sep)] + JoinEach(groups[1..], sep)
  }

  /** The greedy grouping, with `current` the group under construction. */
  function Greedy(current: seq<string>, pieces: seq<string>, sep: string, max: nat): seq<seq<string>>
    decreases |pieces|
  {
    if pieces == [] then
      if current == [] then [] else [current]
    else if current != [] && ByteLen(Join(current, sep)) + ByteLen(pieces[0]) + ByteLen(sep) > max then
      [current] + Greedy([pieces[0]], pieces[1..], sep, max)
    else
      Greedy(current + [pieces[0]], pieces[1..], sep, max)
  }

  lemma ByteLenOfExtended(group: seq<string>, piece: string, sep: string)
    requires group != []
    ensures ByteLen(Join(group + [piece], sep)) == ByteLen(Join(group, sep)) + ByteLen(sep) + ByteLen(piece)
  {
    JoinSnoc(group, piece, sep);
    ByteLenConcat(Join(group, sep) + sep, piece);
    ByteLenConcat(Join(group, sep), sep);
  }

  /** Joined length is monotone: a joined list is at least as long as any part of it. */
  lemma ByteLenOfParts(a: seq<string>, b: seq<string>, sep: string)
    ensures ByteLen(Join(a, sep)) <= ByteLen(Join(a + b, sep))
    ensures ByteLen(Join(b, sep)) <= ByteLen(Join(a + b, sep))
  {
    if a == [] {
      assert a + b == b;
    } else if b == [] {
      assert a + b == a;
    } else {
      JoinConcat(a, b, sep);
      ByteLenConcat(Join(a, sep) + sep, Join(b, sep));
      ByteLenConcat(Join(a, sep), sep);
    }
  }

  /** The greedy groups cut the pieces into acceptable groups. */
  lemma {:induction false} GreedyIsGrouping(current: seq<string>, pieces: seq<string>, sep: string, max: nat)
    requires current == [] || Fits(current, sep, max)
    ensures IsGrouping(Greedy(current, pieces, sep, max), current + pieces, sep, max)
    decreases |pieces|
  {
    if pieces == [] {
      assert current + pieces == current;
    } else {
      var p, rest := pieces[0], pieces[1..];
      if current != [] && ByteLen(Join(current, sep)) + ByteLen(p) + ByteLen(sep) > max {
        GreedyIsGrouping([p], rest, sep, max);
        assert current + pieces == current + ([p] + rest);
      } else {
        if current != [] {
          ByteLenOfExtended(current, p, sep);
        }
        GreedyIsGrouping(current + [p], rest, sep, max);
        assert current + pieces == (current + [p]) + rest;
      }
    }
  }

  /** Dropping leading pieces never needs more groups, and needs fewer once the first group is gone. */
  lemma {:induction false} DropFromGrouping(groups: seq<seq<string>>, pieces: seq<string>, k: nat, sep: string, max: nat)
    returns (fewer: seq<seq<string>>)
    requires IsGrouping(groups, pieces, sep, max) && k <= |pieces|
    ensures IsGrouping(fewer, pieces[k..], sep, max)
    ensures |fewer| <= |groups|
    ensures groups != [] && |groups[0]| <= k ==> |fewer| < |groups|
  {
    if groups == [] {
      fewer := [];
    } else {
      var g, rest := groups[0], groups[1..];
      assert pieces == g + Flatten(rest);
      assert IsGrouping(rest, Flatten(rest), sep, max);
      if |g| <= k {
        fewer := DropFromGrouping(rest, Flatten(rest), k - |g|, sep, max);
        assert pieces[k..] == Flatten(rest)[k - |g|..];
      } else {
        fewer := [g[k..]] + rest;
        assert g == g[..k] + g[k..];
        ByteLenOfParts(g[..k], g[k..], sep);
        assert pieces[k..] == g[k..] + Flatten(rest);
      }
    }
  }

  /** No grouping under the same rule uses fewer groups than the greedy one. */
  lemma {:induction false} GreedyIsOptimal(current: seq<string>, pieces: seq<string>, sep: string, max: nat,
                                           other: seq<seq<string>>)
    requires current == [] || Fits(current, sep, max)
    requires IsGrouping(other, current + pieces, sep, max)
    ensures |Greedy(current, pieces, sep, max)| <= |other|
    decreases |pieces|
  {
    if pieces == [] {
    } else {
      var p, rest := pieces[0], pieces[1..];
      if current != [] && ByteLen(Join(current, sep)) + ByteLen(p) + ByteLen(sep) > max {
        FirstGroupIsShort(current, p, rest, sep, max, other);
        var fewer := DropFromGrouping(other, current + pieces, |current|, sep, max);
        assert (current + pieces)[|current|..] == [p] + rest;
        GreedyIsOptimal([p], rest, sep, max, fewer);
      } else {
        if current != [] {
          ByteLenOfExtended(current, p, sep);
        }
        assert current + pieces == (current + [p]) + rest;
        GreedyIsOptimal(current + [p], rest, sep, max, other);
      }
    }
  }

  /** A first group reaching past `current` would contain the piece that did not fit. */
  lemma FirstGroupIsShort(current: seq<string>, p: string, rest: seq<string>, sep: string, max: nat,
                          other: seq<seq<string>>)
    requires current != [] && ByteLen(Join(current, sep)) + ByteLen(p) + ByteLen(sep) > max
    requires IsGrouping(other, current + ([p] + rest), sep, max)
    ensures other != [] && |other[0]| <= |current|
  {
    var g := other[0];
    ByteLenOfExtended(current, p, sep);
    if |g| > |current| {
      LongPrefix(current, p, rest, g, Flatten(other[1..]));
      ByteLenOfParts(current + [p], g[|current| + 1..], sep);
    }
  }

  lemma LongPrefix<T>(current: seq<T>, p: T, rest: seq<T>, g: seq<T>, tail: seq<T>)
    requires g + tail == current + ([p] + rest) && |g| > |current|
    ensures g == (current + [p]) + g[|current| + 1..]
  {
    assert forall i :: 0 <= i < |g| ==> g[i] == (g + tail)[i];
  }

  /** Joining the joined groups is joining all the pieces. */
  lemma {:induction false} JoinOfJoined(groups: seq<seq<string>>, sep: string)
    requires forall i :: 0 <= i < |groups| ==> groups[i] != []
    ensures Join(JoinEach(groups, sep), sep) == Join(Flatten(groups), sep)
  {
    if |groups| == 0 {
    } else if |groups| == 1 {
      assert Flatten(groups) == groups[0];
    } else {
      var rest := groups[1..];
      assert rest[0] == groups[1];
      JoinOfJoined(rest, sep);
      JoinConcat([Join(groups[0], sep)], JoinEach(rest, sep), sep);
      JoinConcat(groups[0], Flatten(rest), sep);
    }
  }

  /** `groups` respects the limit and no grouping that does has fewer groups. */
  ghost predicate IsOptimalGrouping(groups: seq<seq<string>>, pieces: seq<string>, sep: string, max: nat) {
    && IsGrouping(groups, pieces, sep, max)
    && forall other :: IsGrouping(other, pieces, sep, max) ==> |groups| <= |other|
  }

  lemma GreedyFromScratchIsOptimal(pieces: seq<string>, sep: string, max: nat)
    ensures IsOptimalGrouping(Greedy([], pieces, sep, max), pieces, sep, max)
  {
    assert [] + pieces == pieces;
    GreedyIsGrouping([], pieces, sep, max);
    forall other | IsGrouping(other, pieces, sep, max)
      ensures |Greedy([], pieces, sep, max)| <= |other|
    {
      GreedyIsOptimal([], pieces, sep, max, other);
    }
  }

  lemma {:induction false} JoinEachSnoc(groups: seq<seq<string>>, last: seq<string>, sep: string)
    ensures JoinEach(groups + [last], sep) == JoinEach(groups, sep) + [Join(last, sep)]
  {
    if groups == [] {
    } else {
      assert (groups + [last])[1..] == groups[1..] + [last];
      JoinEachSnoc(groups[1..], last, sep);
    }
  }

  lemma {:induction false} JoinEachAt(groups: seq<seq<string>>, sep: string, i: nat)
    requires i < |groups|
    ensures JoinEach(groups, sep)[i] == Join(groups[i], sep)
    ensures forall x :: x in groups[i] ==> x in Flatten(groups)
  {
    if i > 0 {
      JoinEachAt(groups[1..], sep, i - 1);
    }
  }

  /** `current` is the text of the group under construction. */
  ghost predicate Building(current: string, group: seq<string>, sep: string) {
    current == Join(group, sep) && (current == "" <==> group == [])
  }

  /** Closing the current group when the next piece does not fit leaves the final grouping unchanged. */
  lemma {:induction false} Flush(done: seq<seq<string>>, group: seq<string>, piece: string, rest: seq<string>,
                                 sep: string, max: nat)
    requires group != [] && ByteLen(Join(group, sep)) + ByteLen(piece) + ByteLen(sep) > max
    ensures done + Greedy(group, [piece] + rest, sep, max) == (done + [group]) + Greedy([], [piece] + rest, sep, max)
    ensures JoinEach(done + [group], sep) == JoinEach(done, sep) + [Join(group, sep)]
  {
    var pieces := [piece] + rest;
    assert pieces[1..] == rest && [] + [piece] == [piece];
    JoinEachSnoc(done, group, sep);
  }

  /** Adding a piece that fits leaves the final grouping unchanged. */
  lemma {:induction false} Keep(group: seq<string>, piece: string, rest: seq<string>, sep: string, max: nat)
    requires group == [] || ByteLen(Join(group, sep)) + ByteLen(piece) + ByteLen(sep) <= max
    ensures Greedy(group, [piece] + rest, sep, max) == Greedy(group + [piece], rest, sep, max)
    ensures Join(group + [piece], sep) == if group == [] then piece else Join(group, sep) + sep + piece
  {
    assert ([piece] + rest)[1..] == rest;
    JoinSnoc(group, piece, sep);
  }

  // ---------------------------------------------------------------------------
  // Paragraphs
  // ---------------------------------------------------------------------------

  function TrimmedNonEmpty(pieces: seq<string>): seq<string> {
    if pieces == [] then []
    else
      var p := Trim(pieces[0]);
      if p == "" then TrimmedNonEmpty(pieces[1..]) else [p] + TrimmedNonEmpty(pieces[1..])
  }

  lemma TrimmedNonEmptyStep(pieces: seq<string>, i: nat)
    requires i < |pieces|
    ensures TrimmedNonEmpty(pieces[i..])
         == if Trim(pieces[i]) == "" then TrimmedNonEmpty(pieces[i + 1..])
            else [Trim(pieces[i])] + TrimmedNonEmpty(pieces[i + 1..])
    ensures Trimmed(Trim(pieces[i]))
  {
    assert pieces[i..][1..] == pieces[i + 1..];
    var _, _ := TrimIsInfix(pieces[i]);
  }

  predicate AllClean(ps: seq<string>) {
    forall i :: 0 <= i < |ps| ==> ps[i] != "" && Trimmed(ps[i])
  }

  lemma {:induction false} TrimmedNonEmptyIsClean(pieces: seq<string>)
    ensures AllClean(TrimmedNonEmpty(pieces))
  {
    if pieces != [] {
      var _, _ := TrimIsInfix(pieces[0]);
      TrimmedNonEmptyIsClean(pieces[1..]);
    }
  }

  /** The trimmed non-empty paragraphs of a text. */
  function Paragraphs(text: string): seq<string> {
    TrimmedNonEmpty(SplitDouble(text, '\n'))
  }

  function ParagraphGroups(text: string, max: nat): seq<seq<string>> {
    Greedy([], Paragraphs(text), BLANK_LINE, max)
  }

  function ParagraphChunks(text: string, max: nat): seq<string> {
    JoinEach(ParagraphGroups(text, max), BLANK_LINE)
  }

  /** The joined text of trimmed non-empty paragraphs has nothing to trim. */
  lemma {:induction false} JoinedParagraphsAreTrimmed(ps: seq<string>)
    requires ps != [] && AllClean(ps)
    ensures Join(ps, BLANK_LINE) != "" && Trimmed(Join(ps, BLANK_LINE))
    ensures Trim(Join(ps, BLANK_LINE)) == Join(ps, BLANK_LINE)
  {
    if |ps| > 1 {
      JoinedParagraphsAreTrimmed(ps[..|ps| - 1]);
    }
  }

  /** `chunk_by_paragraph`. */
  method ChunkByParagraph(text: string, max: nat) returns (chunks: seq<string>)
    ensures chunks == ParagraphChunks(text, max)
  {
    var pieces := SplitDouble(text, '\n');
    chunks := [];
    var current := "";
    ghost var done: seq<seq<string>>, group: seq<string> := [], [];
    assert pieces[0..] == pieces && [] + ParagraphGroups(text, max) == ParagraphGroups(text, max);
    for i := 0 to |pieces|
      invariant chunks == JoinEach(done, BLANK_LINE)
      invariant Building(current, group, BLANK_LINE)
      invariant AllClean(group)
      invariant done + Greedy(group, TrimmedNonEmpty(pieces[i..]), BLANK_LINE, max) == ParagraphGroups(text, max)
    {
      var para := Trim(pieces[i]);
      TrimmedNonEmptyStep(pieces, i);
      if para == "" {
        continue;
      }
      done, group := ParagraphStep(done, group, current, para, TrimmedNonEmpty(pieces[i + 1..]), max);
      if ByteLen(current) + ByteLen(para) + 2 > max && current != "" {
        chunks := chunks + [Trim(current)];
        current := "";
      }
      if current != "" {
        current := current + BLANK_LINE;
      }
      current := current + para;
    }
    ParagraphEnd(done, group, current, pieces, max);
    if Trim(current) != "" {
      chunks := chunks + [Trim(current)];
    }
  }

  /** What one turn of the loop does to the groups. */
  lemma ParagraphStep(done: seq<seq<string>>, group: seq<string>, current: string, para: string, rest: seq<string>, max: nat)
    returns (done': seq<seq<string>>, group': seq<string>)
    requires Building(current, group, BLANK_LINE) && AllClean(group) && AllClean([para])
    ensures AllClean(group')
    ensures var flush := ByteLen(current) + ByteLen(para) + 2 > max && current != "";
      && Building(if flush || current == "" then para else current + BLANK_LINE + para, group', BLANK_LINE)
      && JoinEach(done', BLANK_LINE) == JoinEach(done, BLANK_LINE) + if flush then [Trim(current)] else []
    ensures done' + Greedy(group', rest, BLANK_LINE, max) == done + Greedy(group, [para] + rest, BLANK_LINE, max)
  {
    done', group' := done, group;
    if ByteLen(current) + ByteLen(para) + 2 > max && current != "" {
      JoinedParagraphsAreTrimmed(group);
      Flush(done, group, para, rest, BLANK_LINE, max);
      done', group' := done + [group], [];
    }
    Keep(group', para, rest, BLANK_LINE, max);
    group' := group' + [para];
  }

  lemma ParagraphEnd(done: seq<seq<string>>, group: seq<string>, current: string, pieces: seq<string>, max: nat)
    requires Building(current, group, BLANK_LINE) && AllClean(group)
    ensures JoinEach(done + Greedy(group, TrimmedNonEmpty(pieces[|pieces|..]), BLANK_LINE, max), BLANK_LINE)
         == JoinEach(done, BLANK_LINE) + if Trim(current) == "" then [] else [Trim(current)]
  {
    if group != [] {
      JoinedParagraphsAreTrimmed(group);
      JoinEachSnoc(done, group, BLANK_LINE);
    }
    assert done + [] == done && pieces[|pieces|..] == [];
  }

  /** The paragraph chunks are the joined groups of a grouping with the fewest possible groups. */
  lemma ParagraphChunksAreOptimal(text: string, max: nat)
    ensures IsOptimalGrouping(ParagraphGroups(text, max), Paragraphs(text), BLANK_LINE, max)
    ensures |ParagraphChunks(text, max)| == |ParagraphGroups(text, max)|
    ensures forall i :: 0 <= i < |ParagraphChunks(text, max)| ==>
      ByteLen(ParagraphChunks(text, max)[i]) <= max || ParagraphChunks(text, max)[i] in Paragraphs(text)
  {
    var groups := ParagraphGroups(text, max);
    GreedyFromScratchIsOptimal(Paragraphs(text), BLANK_LINE, max);
    forall i | 0 <= i < |groups|
      ensures JoinEach(groups, BLANK_LINE)[i] == Join(groups[i], BLANK_LINE)
      ensures forall x :: x in groups[i] ==> x in Flatten(groups)
    {
      JoinEachAt(groups, BLANK_LINE, i);
    }
    assert forall i :: 0 <= i < |groups| && |groups[i]| == 1 ==> groups[i][0] in groups[i];
  }

  lemma TrimKeepsDoubleFree(s: string, c: char)
    requires !HasDouble(s, c)
    ensures !HasDouble(Trim(s), c)
  {
    var lo, hi := TrimIsInfix(s);
    assert forall j :: DoubleAt(s[lo..hi], c, j) ==> DoubleAt(s, c, lo + j);
  }

  ghost predicate NoBlankLineInside(ps: seq<string>) {
    forall i :: 0 <= i < |ps| ==> !HasDouble(ps[i], '\n')
  }

  lemma {:induction false} ParagraphsHaveNoBlankLine(pieces: seq<string>)
    requires forall i :: 0 <= i < |pieces| ==> !HasDouble(pieces[i], '\n')
    ensures NoBlankLineInside(TrimmedNonEmpty(pieces))
  {
    if pieces != [] {
      TrimKeepsDoubleFree(pieces[0], '\n');
      ParagraphsHaveNoBlankLine(pieces[1..]);
    }
  }

  lemma {:induction false} TrimmedNonEmptyOfClean(ps: seq<string>)
    requires AllClean(ps)
    ensures TrimmedNonEmpty(ps) == ps
  {
    if ps != [] {
      TrimmedNonEmptyOfClean(ps[1..]);
    }
  }

  /** Joining the paragraph chunks with blank lines gives the paragraphs joined, whatever the limit. */
  lemma ParagraphChunksJoin(text: string, max: nat)
    ensures Join(ParagraphChunks(text, max), BLANK_LINE) == Join(Paragraphs(text), BLANK_LINE)
  {
    GreedyFromScratchIsOptimal(Paragraphs(text), BLANK_LINE, max);
    JoinOfJoined(ParagraphGroups(text, max), BLANK_LINE);
  }

  /** The paragraphs of the joined paragraphs are the paragraphs. */
  lemma ParagraphsOfJoined(text: string)
    ensures Paragraphs(Join(Paragraphs(text), BLANK_LINE)) == Paragraphs(text)
  {
    var ps := Paragraphs(text);
    if ps == [] {
      assert SplitDouble("", '\n') == [""];
      assert Trim("") == "";
    } else {
      TrimmedNonEmptyIsClean(SplitDouble(text, '\n'));
      ParagraphsHaveNoBlankLine(SplitDouble(text, '\n'));
      SplitDoubleJoin(ps, '\n');
      TrimmedNonEmptyOfClean(ps);
    }
  }

  /** Chunking the joined chunks again, with the same limit, gives the same chunks. */
  lemma RechunkingIsIdentity(text: string, max: nat)
    ensures ParagraphChunks(Join(ParagraphChunks(text, max), BLANK_LINE), max) == ParagraphChunks(text, max)
  {
    ParagraphChunksJoin(text, max);
    ParagraphsOfJoined(text);
  }

  // ---------------------------------------------------------------------------
  // Sentences
  // ---------------------------------------------------------------------------

  predicate EndsSentence(c: char) { c == '.' || c == '!' || c == '?' }

  /** Where the first sentence ends, or the length of the text if none does. */
  function FirstEnd(text: string): (end: nat)
    ensures end <= |text|
    ensures end < |text| ==> EndsSentence(text[end])
  {
    if text == "" || EndsSentence(text[0]) then 0 else 1 + FirstEnd(text[1..])
  }

  predicate CompleteSentence(s: string) {
    s != "" && EndsSentence(s[|s| - 1])
  }

  /** A sentence ends only where the piece ends. */
  predicate OneSentence(s: string) {
    s != "" && forall j :: 0 <= j < |s| - 1 ==> !EndsSentence(s[j])
  }

  /** `str::split_inclusive` at sentence ends. */
  function Sentences(text: string): (r: seq<string>)
    ensures Concat(r) == text
    ensures forall i :: 0 <= i < |r| ==> r[i] != ""
    ensures forall i :: 0 <= i < |r| - 1 ==> CompleteSentence(r[i])
  {
    if text == "" then []
    else
      var end := FirstEnd(text);
      if end == |text| then [text]
      else
        var first, rest := text[..end + 1], text[end + 1..];
        assert text == first + rest;
        [first] + Sentences(rest)
  }

  lemma {:induction false} FirstEndIsFirst(text: string, j: nat)
    requires j < FirstEnd(text)
    ensures !EndsSentence(text[j])
  {
    if j > 0 {
      FirstEndIsFirst(text[1..], j - 1);
    }
  }

  lemma FirstSentence(text: string)
    requires text != ""
    ensures OneSentence(if FirstEnd(text) == |text| then text else text[..FirstEnd(text) + 1])
  {
    forall j | 0 <= j < FirstEnd(text)
      ensures !EndsSentence(text[j])
    {
      FirstEndIsFirst(text, j);
    }
  }

  /** No piece goes on after a sentence end. */
  lemma {:induction false} SentencesAreSingle(text: string)
    ensures forall i :: 0 <= i < |Sentences(text)| ==> OneSentence(Sentences(text)[i])
  {
    if text != "" {
      var i := FirstEnd(text);
      FirstSentence(text);
      if i < |text| {
        SentencesAreSingle(text[i + 1..]);
      }
    }
  }

  lemma {:induction false} FirstEndAt(text: string, k: nat)
    requires k <= |text| && (k < |text| ==> EndsSentence(text[k]))
    requires forall j :: 0 <= j < k ==> !EndsSentence(text[j])
    ensures FirstEnd(text) == k
  {
    if k > 0 {
      FirstEndAt(text[1..], k - 1);
    }
  }

  /** There is no other way to cut the text into sentences. */
  lemma {:induction false} SentencesAreUnique(text: string, other: seq<string>)
    requires Concat(other) == text && forall i :: 0 <= i < |other| ==> OneSentence(other[i])
    requires forall i :: 0 <= i < |other| - 1 ==> CompleteSentence(other[i])
    ensures other == Sentences(text)
    decreases |other|
  {
    if other != [] {
      var first, rest := other[0], other[1..];
      assert text == first + Concat(rest) && other == [first] + rest;
      if EndsSentence(first[|first| - 1]) {
        FirstEndAt(text, |first| - 1);
        SentencesAfterFirst(first, Concat(rest));
        SentencesAreUnique(Concat(rest), rest);
      } else {
        assert rest == [] && first + "" == first;
        FirstEndAt(first, |first|);
      }
    }
  }

  lemma SentencesAfterFirst(first: string, rest: string)
    requires first != "" && FirstEnd(first + rest) == |first| - 1
    ensures Sentences(first + rest) == [first] + Sentences(rest)
  {
    var text := first + rest;
    assert text[..|first|] == first && text[|first|..] == rest;
  }

  function SentenceGroups(text: string, max: nat): seq<seq<string>> {
    Greedy([], Sentences(text), "", max)
  }

  function SentenceChunks(text: string, max: nat): seq<string> {
    TrimmedNonEmpty(JoinEach(SentenceGroups(text, max), ""))
  }

  lemma {:induction false} TrimmedNonEmptySnoc(pieces: seq<string>, last: string)
    ensures TrimmedNonEmpty(pieces + [last])
         == if Trim(last) == "" then TrimmedNonEmpty(pieces) else TrimmedNonEmpty(pieces) + [Trim(last)]
  {
    if pieces == [] {
      assert TrimmedNonEmpty([last][1..]) == [];
    } else {
      assert (pieces + [last])[1..] == pieces[1..] + [last];
      TrimmedNonEmptySnoc(pieces[1..], last);
    }
  }

  lemma CompleteSentenceIsNotBlank(s: string)
    requires CompleteSentence(s)
    ensures Trim(s) != ""
  {
    TrimEmptyIffBlank(s);
    assert !IsWhitespace(s[|s| - 1]);
  }

  lemma CloseSentences(closed: seq<string>, current: string)
    requires CompleteSentence(current)
    ensures TrimmedNonEmpty(closed + [current]) == TrimmedNonEmpty(closed) + [Trim(current)]
  {
    CompleteSentenceIsNotBlank(current);
    TrimmedNonEmptySnoc(closed, current);
  }

  /** `chunk_by_sentence`. */
  method ChunkBySentence(text: string, max: nat) returns (chunks: seq<string>)
    ensures chunks == SentenceChunks(text, max)
  {
    var pieces := Sentences(text);
    chunks := [];
    var current := "";
    ghost var done: seq<seq<string>>, group: seq<string> := [], [];
    assert pieces[0..] == pieces && [] + SentenceGroups(text, max) == SentenceGroups(text, max);
    for i := 0 to |pieces|
      invariant chunks == TrimmedNonEmpty(JoinEach(done, ""))
      invariant Building(current, group, "")
      invariant i < |pieces| && current != "" ==> CompleteSentence(current)
      invariant done + Greedy(group, pieces[i..], "", max) == SentenceGroups(text, max)
    {
      var sentence := pieces[i];
      done, group := SentenceStep(done, group, current, pieces, i, max);
      if ByteLen(current) + ByteLen(sentence) > max && current != "" {
        chunks := chunks + [Trim(current)];
        current := "";
      }
      current := current + sentence;
    }
    SentenceEnd(done, group, current, pieces, max);
    if Trim(current) != "" {
      chunks := chunks + [Trim(current)];
    }
  }

  /** What one turn of the loop does to the groups. */
  lemma SentenceStep(done: seq<seq<string>>, group: seq<string>, current: string, pieces: seq<string>, i: nat, max: nat)
    returns (done': seq<seq<string>>, group': seq<string>)
    requires i < |pieces| && Building(current, group, "") && pieces[i] != ""
    requires current != "" ==> CompleteSentence(current)
    ensures var flush := ByteLen(current) + ByteLen(pieces[i]) > max && current != "";
      && Building((if flush then "" else current) + pieces[i], group', "")
      && TrimmedNonEmpty(JoinEach(done', "")) == TrimmedNonEmpty(JoinEach(done, "")) + if flush then [Trim(current)] else []
    ensures done' + Greedy(group', pieces[i + 1..], "", max) == done + Greedy(group, pieces[i..], "", max)
  {
    var rest := pieces[i + 1..];
    assert pieces[i..] == [pieces[i]] + rest;
    done', group' := done, group;
    if ByteLen(current) + ByteLen(pieces[i]) > max && current != "" {
      Flush(done, group, pieces[i], rest, "", max);
      CloseSentences(JoinEach(done, ""), current);
      done', group' := done + [group], [];
    }
    Keep(group', pieces[i], rest, "", max);
    group' := group' + [pieces[i]];
  }

  lemma SentenceEnd(done: seq<seq<string>>, group: seq<string>, current: string, pieces: seq<string>, max: nat)
    requires Building(current, group, "")
    ensures TrimmedNonEmpty(JoinEach(done + Greedy(group, pieces[|pieces|..], "", max), ""))
         == TrimmedNonEmpty(JoinEach(done, "")) + if Trim(current) == "" then [] else [Trim(current)]
  {
    JoinEachSnoc(done, group, "");
    TrimmedNonEmptySnoc(JoinEach(done, ""), current);
    assert done + [] == done && pieces[|pieces|..] == [];
  }

  lemma SentenceGroupsAreOptimal(text: string, max: nat)
    ensures IsOptimalGrouping(SentenceGroups(text, max), Sentences(text), "", max)
  {
    GreedyFromScratchIsOptimal(Sentences(text), "", max);
  }

  predicate AllButLastComplete(pieces: seq<string>) {
    forall i :: 0 <= i < |pieces| - 1 ==> CompleteSentence(pieces[i])
  }

  lemma FirstGroupIsComplete(g: seq<string>, rest: seq<string>)
    requires AllButLastComplete(g + rest) && g != [] && rest != []
    ensures AllButLastComplete(rest) && CompleteSentence(Join(g, ""))
  {
    var all := g + rest;
    assert all[|g| - 1] == g[|g| - 1];
    assert forall i :: 0 <= i < |rest| ==> rest[i] == all[|g| + i];
  }

  /** Trimming drops no group except possibly the last one. */
  lemma {:induction false} OnlyTheLastGroupCanBeBlank(groups: seq<seq<string>>)
    requires AllButLastComplete(Flatten(groups))
    requires forall i :: 0 <= i < |groups| ==> groups[i] != []
    ensures |TrimmedNonEmpty(JoinEach(groups, ""))|
         == if groups != [] && Blank(Join(groups[|groups| - 1], "")) then |groups| - 1 else |groups|
  {
    if groups != [] {
      var g, rest := groups[0], groups[1..];
      assert JoinEach(groups, "")[1..] == JoinEach(rest, "");
      if rest == [] {
        TrimEmptyIffBlank(Join(g, ""));
      } else {
        assert rest[0] != [];
        FirstGroupIsComplete(g, Flatten(rest));
        CompleteSentenceIsNotBlank(Join(g, ""));
        OnlyTheLastGroupCanBeBlank(rest);
      }
    }
  }

  /** The number of sentence chunks is the least possible number of groups, less one for a blank last group. */
  lemma SentenceChunkCount(text: string, max: nat)
    ensures var groups := SentenceGroups(text, max);
      |SentenceChunks(text, max)|
        == if groups != [] && Blank(Join(groups[|groups| - 1], "")) then |groups| - 1 else |groups|
  {
    SentenceGroupsAreOptimal(text, max);
    OnlyTheLastGroupCanBeBlank(SentenceGroups(text, max));
  }
}
