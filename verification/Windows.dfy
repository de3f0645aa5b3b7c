/** Chunking into windows of a fixed size (engine/src/rag.rs). */
module Windows {
  import opened Basics
  import opened Strings

  /** How far consecutive windows are apart: never zero, even when the overlap swallows the size. */
  function Step(size: nat, overlap: nat): (step: nat)
    requires size > 0
    ensures 1 <= step <= size
  {
    if size <= overlap + 1 then 1 else size - overlap
  }

  function WindowAt(text: string, size: nat, start: nat): string
    requires start <= |text|
  {
    text[start..Min(start + size, |text|)]
  }

  /** All windows from position `start` on, blank ones included. */
  function AllWindows(text: string, size: nat, step: nat, start: nat): seq<string>
    requires step > 0
    decreases |text| - start
  {
    if start >= |text| then []
    else [WindowAt(text, size, start)] + AllWindows(text, size, step, start + step)
  }

  function NonBlankOnly(windows: seq<string>): seq<string> {
    if windows == [] then []
    else if Trim(windows[0]) == "" then NonBlankOnly(windows[1..])
    else [windows[0]] + NonBlankOnly(windows[1..])
  }

  function FixedChunks(text: string, size: nat, overlap: nat): seq<string> {
    if text == "" || size == 0 then [] else NonBlankOnly(AllWindows(text, size, Step(size, overlap), 0))
  }

  function KeepWindow(window: string): seq<string> {
    if Trim(window) == "" then [] else [window]
  }

  /** The windows kept from position `start` on. */
  function KeptFrom(text: string, size: nat, step: nat, start: nat): seq<string>
    requires step > 0
    decreases |text| - start
  {
    if start >= |text| then []
    else KeepWindow(WindowAt(text, size, start)) + KeptFrom(text, size, step, start + step)
  }

  /** What is kept so far and from `start` on makes up the whole. */
  ghost predicate KeptUpTo(chunks: seq<string>, text: string, size: nat, step: nat, start: nat, whole: seq<string>)
    requires step > 0
  {
    chunks + KeptFrom(text, size, step, start) == whole
  }

  lemma KeptStep(chunks: seq<string>, text: string, size: nat, step: nat, start: nat, whole: seq<string>)
    requires step > 0 && start < |text| && KeptUpTo(chunks, text, size, step, start, whole)
    ensures Trim(WindowAt(text, size, start)) == "" ==> KeptUpTo(chunks, text, size, step, start + step, whole)
    ensures Trim(WindowAt(text, size, start)) != "" ==>
      KeptUpTo(chunks + [WindowAt(text, size, start)], text, size, step, start + step, whole)
  {
    var kept, rest := KeepWindow(WindowAt(text, size, start)), KeptFrom(text, size, step, start + step);
    assert chunks + (kept + rest) == (chunks + kept) + rest;
    assert chunks + [] == chunks;
  }

  lemma KeptBegin(text: string, size: nat, step: nat)
    requires step > 0
    ensures KeptUpTo([], text, size, step, 0, KeptFrom(text, size, step, 0))
  {}

  lemma KeptEnd(chunks: seq<string>, text: string, size: nat, step: nat, start: nat, whole: seq<string>)
    requires step > 0 && start >= |text| && KeptUpTo(chunks, text, size, step, start, whole)
    ensures chunks == whole
  {
    assert chunks + [] == chunks;
  }

  lemma {:induction false} KeptAreNonBlank(text: string, size: nat, step: nat, start: nat)
    requires step > 0
    ensures KeptFrom(text, size, step, start) == NonBlankOnly(AllWindows(text, size, step, start))
    decreases |text| - start
  {
    if start < |text| {
      KeptAreNonBlank(text, size, step, start + step);
      assert AllWindows(text, size, step, start)[1..] == AllWindows(text, size, step, start + step);
    }
  }

  /** `chunk_fixed_size`. */
  method ChunkFixedSize(text: string, size: nat, overlap: nat) returns (chunks: seq<string>)
    ensures chunks == FixedChunks(text, size, overlap)
    ensures size == 0 || text == "" ==> chunks == []
    ensures size > 0 ==> KeepsWindows(text, size, overlap, chunks)
  {
    FixedChunksAreWindows(text, size, overlap);
    chunks := [];
    if text == "" || size == 0 {
      return;
    }
    chunks := KeepWindows(text, size, Step(size, overlap));
    KeptAreNonBlank(text, size, Step(size, overlap), 0);
  }

  /** The loop over the windows. */
  method KeepWindows(text: string, size: nat, step: nat) returns (chunks: seq<string>)
    requires step > 0
    ensures chunks == KeptFrom(text, size, step, 0)
  {
    chunks := [];
    var start := 0;
    ghost var whole := KeptFrom(text, size, step, 0);
    KeptBegin(text, size, step);
    while start < |text|
      invariant KeptUpTo(chunks, text, size, step, start, whole)
      decreases |text| - start
    {
      var chunk := WindowAt(text, size, start);
      KeptStep(chunks, text, size, step, start, whole);
      if Trim(chunk) != "" {
        chunks := chunks + [chunk];
      }
      start := start + step;
    }
    KeptEnd(chunks, text, size, step, start, whole);
  }

  function Heads(windows: seq<string>, n: nat): seq<string> {
    if windows == [] then [] else [windows[0][..Min(n, |windows[0]|)]] + Heads(windows[1..], n)
  }

  /** The first `step` characters of all the windows, one after the other, are the text. */
  lemma {:induction false} WindowHeadsTileTheText(text: string, size: nat, step: nat, start: nat)
    requires 1 <= step <= size && start <= |text|
    ensures Concat(Heads(AllWindows(text, size, step, start), step)) == text[start..]
    decreases |text| - start
  {
    if start < |text| {
      var end := Min(start + step, |text|);
      assert text[start..Min(start + size, |text|)][..end - start] == text[start..end];
      assert text[start..] == text[start..end] + text[end..];
      if start + step <= |text| {
        WindowHeadsTileTheText(text, size, step, start + step);
      }
    }
  }

  /** Every non-blank character lies in a window that is kept. */
  lemma {:induction false} NonBlankCharIsKept(text: string, size: nat, step: nat, start: nat, i: nat)
    returns (lo: nat, hi: nat)
    requires 1 <= step <= size && start <= i < |text| && !IsWhitespace(text[i])
    ensures lo <= i < hi <= |text| && hi <= lo + size
    ensures text[lo..hi] in NonBlankOnly(AllWindows(text, size, step, start))
    decreases |text| - start
  {
    var windows := AllWindows(text, size, step, start);
    assert windows[1..] == AllWindows(text, size, step, start + step);
    if i < start + size {
      lo, hi := start, Min(start + size, |text|);
      TrimEmptyIffBlank(text[lo..hi]);
      assert text[lo..hi][i - lo] == text[i];
    } else {
      lo, hi := NonBlankCharIsKept(text, size, step, start + step, i);
    }
  }

  // ---------------------------------------------------------------------------
  // Which windows there are
  // ---------------------------------------------------------------------------

  /** Where window `k` begins: windows are size less overlap apart, and one character if the overlap leaves nothing. */
  function WindowStart(size: nat, overlap: nat, k: nat): nat {
    if overlap < size then Times(k, size - overlap) else k
  }

  /** `k` steps of length `n`. */
  function Times(k: nat, n: nat): nat {
    if k == 0 then 0 else Times(k - 1, n) + n
  }

  lemma {:induction false} TimesIsProduct(k: nat, n: nat)
    ensures Times(k, n) == k * n
  {
    if k > 0 {
      TimesIsProduct(k - 1, n);
      assert (k - 1) * n + n == k * n;
    }
  }

  /** Windows begin at multiples of the size less the overlap, or at every character. */
  lemma WindowStartIs(size: nat, overlap: nat, k: nat)
    ensures overlap < size ==> WindowStart(size, overlap, k) == k * (size - overlap)
    ensures overlap >= size ==> WindowStart(size, overlap, k) == k
  {
    if overlap < size {
      TimesIsProduct(k, size - overlap);
    }
  }

  /** `chunks` are the windows at the positions `at`, each window as long as the text allows. */
  ghost predicate AreWindows(text: string, size: nat, overlap: nat, chunks: seq<string>, at: seq<nat>) {
    |at| == |chunks| && forall i :: 0 <= i < |at| ==> IsWindow(text, size, overlap, at[i], chunks[i])
  }

  predicate IsWindow(text: string, size: nat, overlap: nat, k: nat, w: string) {
    var start := WindowStart(size, overlap, k);
    start < |text| && w == text[start..if start + size < |text| then start + size else |text|]
  }

  ghost predicate Ascending(at: seq<nat>) {
    forall i, j :: 0 <= i < j < |at| ==> at[i] < at[j]
  }

  /** The windows from the `from`-th on that are not blank are those at the positions `at`. */
  ghost predicate NonBlankAt(text: string, size: nat, overlap: nat, from: nat, at: seq<nat>) {
    && (forall i :: 0 <= i < |at| ==> from <= at[i])
    && forall k, w :: from <= k && IsWindow(text, size, overlap, k, w) ==> (k in at <==> !Blank(w))
  }

  /** The chunks are exactly the windows that are not blank, in their order. */
  ghost predicate KeepsWindows(text: string, size: nat, overlap: nat, chunks: seq<string>) {
    exists at :: AreWindows(text, size, overlap, chunks, at) && Ascending(at) && NonBlankAt(text, size, overlap, 0, at)
  }

  lemma NextWindowStart(size: nat, overlap: nat, k: nat)
    requires size > 0
    ensures WindowStart(size, overlap, k + 1) == WindowStart(size, overlap, k) + Step(size, overlap)
  {
    if overlap < size {
      assert Times(k + 1, size - overlap) == Times(k, size - overlap) + (size - overlap);
    }
  }

  lemma CurrentWindow(text: string, size: nat, overlap: nat, k: nat, start: nat)
    requires start == WindowStart(size, overlap, k) && start < |text|
    ensures IsWindow(text, size, overlap, k, WindowAt(text, size, start))
  {}

  lemma KeptUnfolds(text: string, size: nat, step: nat, start: nat)
    requires step > 0 && start < |text|
    ensures KeptFrom(text, size, step, start)
         == (if Blank(WindowAt(text, size, start)) then [] else [WindowAt(text, size, start)])
            + KeptFrom(text, size, step, start + step)
  {
    TrimEmptyIffBlank(WindowAt(text, size, start));
  }

  lemma {:induction false} KeptFromAre(text: string, size: nat, overlap: nat, k: nat, start: nat) returns (at: seq<nat>)
    requires size > 0 && start == WindowStart(size, overlap, k)
    ensures var chunks := KeptFrom(text, size, Step(size, overlap), start);
      AreWindows(text, size, overlap, chunks, at) && Ascending(at) && NonBlankAt(text, size, overlap, k, at)
    decreases |text| - start
  {
    if start < |text| {
      var step := Step(size, overlap);
      NextWindowStart(size, overlap, k);
      var rest := KeptFromAre(text, size, overlap, k + 1, start + step);
      var w := WindowAt(text, size, start);
      CurrentWindow(text, size, overlap, k, start);
      at := if Blank(w) then rest else [k] + rest;
      KeptUnfolds(text, size, step, start);
      AreOneMore(text, size, overlap, k, w, KeptFrom(text, size, step, start + step), rest);
      OneMoreWindow(text, size, overlap, k, w, rest);
    } else {
      at := [];
      NoMoreWindows(text, size, overlap, k);
    }
  }

  lemma AreOneMore(text: string, size: nat, overlap: nat, k: nat, w: string, chunks: seq<string>, rest: seq<nat>)
    requires IsWindow(text, size, overlap, k, w) && AreWindows(text, size, overlap, chunks, rest) && Ascending(rest)
    requires forall i :: 0 <= i < |rest| ==> k < rest[i]
    ensures AreWindows(text, size, overlap, [w] + chunks, [k] + rest) && Ascending([k] + rest)
    ensures [] + chunks == chunks
  {
    AscendingOneMore(k, rest);
    PairsOneMore((l: nat, v: string) => IsWindow(text, size, overlap, l, v), k, w, rest, chunks);
  }

  lemma AscendingOneMore(k: nat, rest: seq<nat>)
    requires Ascending(rest) && forall i :: 0 <= i < |rest| ==> k < rest[i]
    ensures Ascending([k] + rest)
  {}

  lemma PairsOneMore(p: (nat, string) -> bool, k: nat, w: string, at: seq<nat>, chunks: seq<string>)
    requires |at| == |chunks| && p(k, w) && forall i :: 0 <= i < |at| ==> p(at[i], chunks[i])
    ensures forall i :: 0 <= i < |[k] + at| ==> p(([k] + at)[i], ([w] + chunks)[i])
  {}

  lemma OneMoreWindow(text: string, size: nat, overlap: nat, k: nat, w: string, rest: seq<nat>)
    requires IsWindow(text, size, overlap, k, w) && NonBlankAt(text, size, overlap, k + 1, rest)
    ensures NonBlankAt(text, size, overlap, k, if Blank(w) then rest else [k] + rest)
  {
    var at := if Blank(w) then rest else [k] + rest;
    forall l, v | k <= l && IsWindow(text, size, overlap, l, v)
      ensures l in at <==> !Blank(v)
    {
      if l > k {
        assert l in at <==> l in rest;
      }
    }
  }

  lemma {:induction false} LaterStarts(size: nat, overlap: nat, k: nat, l: nat)
    requires size > 0 && k <= l
    ensures WindowStart(size, overlap, k) <= WindowStart(size, overlap, l)
    decreases l - k
  {
    if k < l {
      LaterStarts(size, overlap, k, l - 1);
      NextWindowStart(size, overlap, l - 1);
    }
  }

  lemma NoMoreWindows(text: string, size: nat, overlap: nat, k: nat)
    requires size > 0 && WindowStart(size, overlap, k) >= |text|
    ensures NonBlankAt(text, size, overlap, k, [])
  {
    forall l | k <= l
      ensures WindowStart(size, overlap, l) >= |text|
    {
      LaterStarts(size, overlap, k, l);
    }
  }

  /** Fixed-size chunking keeps exactly the windows that are not blank. */
  lemma FixedChunksAreWindows(text: string, size: nat, overlap: nat)
    ensures size == 0 || text == "" ==> FixedChunks(text, size, overlap) == []
    ensures size > 0 ==> KeepsWindows(text, size, overlap, FixedChunks(text, size, overlap))
  {
    if size > 0 {
      assert WindowStart(size, overlap, 0) == 0;
      var at := KeptFromAre(text, size, overlap, 0, 0);
      KeptAreNonBlank(text, size, Step(size, overlap), 0);
    }
  }

  /** A window that is full and the next one share exactly the overlap: the last characters of the one are the first
      of the other. */
  lemma WindowsOverlap(text: string, size: nat, overlap: nat, k: nat, w: string, next: string)
    requires overlap < size && WindowStart(size, overlap, k) + size <= |text|
    requires IsWindow(text, size, overlap, k, w) && IsWindow(text, size, overlap, k + 1, next)
    ensures |w| == size && |next| >= overlap && w[size - overlap..] == next[..overlap]
    ensures WindowStart(size, overlap, k + 1) + overlap == WindowStart(size, overlap, k) + size
  {
    NextWindowStart(size, overlap, k);
    var a := WindowStart(size, overlap, k);
    assert w[size - overlap..] == text[a + size - overlap..a + size];
    assert next[..overlap] == text[a + size - overlap..a + size];
  }

  /** With an overlap as large as the windows, one begins at every character. */
  lemma WindowAtEveryCharacter(text: string, size: nat, overlap: nat, k: nat)
    requires size > 0 && overlap >= size && k < |text|
    ensures IsWindow(text, size, overlap, k, text[k..Min(k + size, |text|)])
  {}
}
