/** Text primitives shared by the other modules: whitespace and trimming as in Rust's `str`,
    splitting at a character or at a doubled character, UTF-8 length, joining and decimals. */
module Strings {
  import opened Basics

  // ---------------------------------------------------------------------------
  // Whitespace and trimming
  // ---------------------------------------------------------------------------

  /** The Unicode property White_Space. */
  predicate IsWhitespace(c: char) {
    '\t' <= c <= '\r' || c == ' ' || c == '\U{85}' || c == '\U{A0}' || c == '\U{1680}'
    || '\U{2000}' <= c <= '\U{200A}' || c == '\U{2028}' || c == '\U{2029}' || c == '\U{202F}'
    || c == '\U{205F}' || c == '\U{3000}'
  }

  predicate Blank(s: string) {
    forall i :: 0 <= i < |s| ==> IsWhitespace(s[i])
  }

  /** No whitespace at either end. */
  predicate Trimmed(s: string) {
    s == "" || (!IsWhitespace(s[0]) && !IsWhitespace(s[|s| - 1]))
  }

  /** `str::trim`. */
  function Trim(s: string): string {
    if s == "" then s
    else if IsWhitespace(s[0]) then Trim(s[1..])
    else if IsWhitespace(s[|s| - 1]) then Trim(s[..|s| - 1])
    else s
  }

  /** What trimming removes: whitespace before `lo` and from `hi` on, and no less. */
  lemma {:induction false} TrimIsInfix(s: string) returns (lo: nat, hi: nat)
    ensures lo <= hi <= |s| && Trim(s) == s[lo..hi]
    ensures Blank(s[..lo]) && Blank(s[hi..])
    ensures Trimmed(Trim(s))
  {
    if s == "" {
      lo, hi := 0, 0;
    } else if IsWhitespace(s[0]) {
      var l, h := TrimIsInfix(s[1..]);
      BlankPrefixGrows(s, l);
      TailSlices(s, l, h);
      lo, hi := l + 1, h + 1;
    } else if IsWhitespace(s[|s| - 1]) {
      lo, hi := TrimIsInfix(s[..|s| - 1]);
      BlankSuffixGrows(s, hi);
      InitSlices(s, lo, hi);
    } else {
      lo, hi := 0, |s|;
    }
  }

  lemma InitSlices(s: string, l: nat, h: nat)
    requires l <= h < |s|
    ensures s[..l] == s[..|s| - 1][..l] && s[l..h] == s[..|s| - 1][l..h]
  {}

  lemma TailSlices(s: string, l: nat, h: nat)
    requires l <= h < |s|
    ensures s[h + 1..] == s[1..][h..]
    ensures s[l + 1..h + 1] == s[1..][l..h]
  {
    assert forall i :: 0 <= i < |s| - 1 ==> s[1..][i] == s[i + 1];
  }

  lemma BlankPrefixGrows(s: string, l: nat)
    requires s != "" && IsWhitespace(s[0]) && l < |s| && Blank(s[1..][..l])
    ensures Blank(s[..l + 1])
  {
    assert s[..l + 1] == [s[0]] + s[1..][..l];
  }

  lemma BlankSuffixGrows(s: string, h: nat)
    requires s != "" && IsWhitespace(s[|s| - 1]) && h < |s| && Blank(s[..|s| - 1][h..])
    ensures Blank(s[h..])
  {
    assert s[h..] == s[..|s| - 1][h..] + [s[|s| - 1]];
  }

  lemma {:induction false} TrimEmptyIffBlank(s: string)
    ensures Trim(s) == "" <==> Blank(s)
  {
    var lo, hi := TrimIsInfix(s);
    if lo == hi {
      assert s == s[..lo] + s[hi..];
    } else {
      assert Trim(s)[0] == s[lo];
    }
  }

  /** The characters of `s` that are not whitespace, in order. */
  function NonBlankChars(s: string): string {
    if s == "" then "" else (if IsWhitespace(s[0]) then "" else [s[0]]) + NonBlankChars(s[1..])
  }

  lemma {:induction false} NonBlankCharsConcat(a: string, b: string)
    ensures NonBlankChars(a + b) == NonBlankChars(a) + NonBlankChars(b)
  {
    if a == "" {
      assert a + b == b;
    } else {
      assert (a + b)[1..] == a[1..] + b;
      NonBlankCharsConcat(a[1..], b);
    }
  }

  lemma {:induction false} NonBlankCharsOfBlank(s: string)
    requires Blank(s)
    ensures NonBlankChars(s) == ""
  {
    if s != "" {
      NonBlankCharsOfBlank(s[1..]);
    }
  }

  lemma {:induction false} BlankEndsDropOut(pre: string, r: string, post: string)
    requires Blank(pre) && Blank(post)
    ensures NonBlankChars(pre + r + post) == NonBlankChars(r)
  {
    NonBlankCharsConcat(pre + r, post);
    NonBlankCharsConcat(pre, r);
    NonBlankCharsOfBlank(pre);
    NonBlankCharsOfBlank(post);
  }

  lemma {:induction false} TrimKeepsNonBlankChars(s: string)
    ensures NonBlankChars(Trim(s)) == NonBlankChars(s)
  {
    var lo, hi := TrimIsInfix(s);
    assert s == s[..lo] + s[lo..hi] + s[hi..];
    BlankEndsDropOut(s[..lo], s[lo..hi], s[hi..]);
  }

  // ---------------------------------------------------------------------------
  // UTF-8 length
  // ---------------------------------------------------------------------------

  function Utf8Width(c: char): (w: nat)
    ensures 1 <= w <= 4
  {
    if c < '\U{80}' then 1 else if c < '\U{800}' then 2 else if c < '\U{10000}' then 3 else 4
  }

  /** The length of `s` in UTF-8 bytes, which is what `str::len` measures. */
  function ByteLen(s: string): (n: nat)
    ensures n == 0 <==> s == ""
  {
    if s == "" then 0 else ByteLen(s[..|s| - 1]) + Utf8Width(s[|s| - 1])
  }

  lemma {:induction false} ByteLenConcat(a: string, b: string)
    ensures ByteLen(a + b) == ByteLen(a) + ByteLen(b)
  {
    if b == "" {
      assert a + b == a;
    } else {
      assert (a + b)[..|a + b| - 1] == a + b[..|b| - 1];
      ByteLenConcat(a, b[..|b| - 1]);
    }
  }

  // ---------------------------------------------------------------------------
  // Joining
  // ---------------------------------------------------------------------------

  function Join(parts: seq<string>, sep: string): string {
    if |parts| == 0 then ""
    else if |parts| == 1 then parts[0]
    else Join(parts[..|parts| - 1], sep) + sep + parts[|parts| - 1]
  }

  lemma JoinSnoc(parts: seq<string>, last: string, sep: string)
    ensures Join(parts + [last], sep) == if parts == [] then last else Join(parts, sep) + sep + last
  {
    assert (parts + [last])[..|parts|] == parts;
  }

  lemma {:induction false} JoinConcat(a: seq<string>, b: seq<string>, sep: string)
    requires a != [] && b != []
    ensures Join(a + b, sep) == Join(a, sep) + sep + Join(b, sep)
  {
    var init, last := b[..|b| - 1], b[|b| - 1];
    assert b == init + [last];
    if init == [] {
      assert a + b == a + [last];
      JoinSnoc(a, last, sep);
    } else {
      JoinConcat(a, init, sep);
      assert a + b == (a + init) + [last];
      JoinSnoc(a + init, last, sep);
      JoinSnoc(init, last, sep);
      var x, y := Join(a, sep), Join(init, sep);
      assert x + sep + y + sep + last == x + sep + (y + sep + last);
    }
  }

  function Concat(parts: seq<string>): string {
    if parts == [] then "" else parts[0] + Concat(parts[1..])
  }

  lemma {:induction false} ConcatAppend(a: seq<string>, b: seq<string>)
    ensures Concat(a + b) == Concat(a) + Concat(b)
  {
    if a == [] {
      assert a + b == b;
    } else {
      assert (a + b)[1..] == a[1..] + b;
      ConcatAppend(a[1..], b);
    }
  }

  // ---------------------------------------------------------------------------
  // Splitting
  // ---------------------------------------------------------------------------

  /** `c` occurs twice in a row at position `i`. */
  predicate DoubleAt(s: string, c: char, i: int) {
    0 <= i && i + 1 < |s| && s[i] == c && s[i + 1] == c
  }

  ghost predicate HasDouble(s: string, c: char) {
    exists i :: DoubleAt(s, c, i)
  }

  /** The first position of `cc` in `s`. */
  function FindDouble(s: string, c: char): (r: Option<nat>)
    ensures r.Some? ==> DoubleAt(s, c, r.value) && forall j :: 0 <= j < r.value ==> !DoubleAt(s, c, j)
    ensures r.None? ==> !HasDouble(s, c)
  {
    if |s| < 2 then None
    else if s[0] == c && s[1] == c then Some(0)
    else
      assert forall j :: 0 < j ==> (DoubleAt(s, c, j) <==> DoubleAt(s[1..], c, j - 1));
      match FindDouble(s[1..], c)
      case None => None
      case Some(i) => Some(i + 1)
  }

  /** `str::split` with the separator `cc`. */
  function SplitDouble(s: string, c: char): (r: seq<string>)
    ensures r != []
    ensures forall k :: 0 <= k < |r| ==> !HasDouble(r[k], c)
  {
    match FindDouble(s, c)
    case None => [s]
    case Some(i) =>
      assert forall j :: DoubleAt(s[..i], c, j) ==> DoubleAt(s, c, j);
      [s[..i]] + SplitDouble(s[i + 2..], c)
  }

  /** A separator `cc` that is the first one, after text that neither contains `cc` nor ends in `c`, is found there. */
  lemma FindDoubleAfter(s: string, c: char, rest: string)
    requires !HasDouble(s, c) && (s == "" || s[|s| - 1] != c)
    ensures FindDouble(s + [c, c] + rest, c) == Some(|s|)
  {
    var t := s + [c, c] + rest;
    assert DoubleAt(t, c, |s|);
    forall j | 0 <= j < |s|
      ensures !DoubleAt(t, c, j)
    {
      assert t[j] == s[j];
      assert j + 1 < |s| ==> t[j + 1] == s[j + 1] && !DoubleAt(s, c, j);
    }
  }

  /** Splitting undoes joining for parts that contain no separator and do not end in half of one. */
  lemma {:induction false} SplitDoubleJoin(parts: seq<string>, c: char)
    requires parts != []
    requires forall k :: 0 <= k < |parts| ==> !HasDouble(parts[k], c) && (parts[k] == "" || parts[k][|parts[k]| - 1] != c)
    ensures SplitDouble(Join(parts, [c, c]), c) == parts
  {
    if |parts| == 1 {
    } else {
      var first, rest := parts[0], parts[1..];
      assert parts == [first] + rest;
      JoinConcat([first], rest, [c, c]);
      FindDoubleAfter(first, c, Join(rest, [c, c]));
      var t := Join(parts, [c, c]);
      assert t[..|first|] == first && t[|first| + 2..] == Join(rest, [c, c]);
      SplitDoubleJoin(rest, c);
    }
  }

  /** `str::split` with the one-character separator `c`. */
  function SplitChar(s: string, c: char): (r: seq<string>)
    ensures r != []
  {
    if s == "" then [""]
    else
      var rest := SplitChar(s[1..], c);
      if s[0] == c then [""] + rest else [[s[0]] + rest[0]] + rest[1..]
  }

  /** Splitting `a`, the separator and `b` splits `a` and `b` apart. */
  lemma {:induction false} SplitCharConcat(a: string, c: char, b: string)
    ensures SplitChar(a + [c] + b, c) == SplitChar(a, c) + SplitChar(b, c)
  {
    if a == "" {
      assert a + [c] + b == [c] + b;
      assert ([c] + b)[1..] == b;
    } else {
      assert (a + [c] + b)[1..] == a[1..] + [c] + b;
      SplitCharConcat(a[1..], c, b);
    }
  }

  /** A text without the separator is a single piece. */
  lemma {:induction false} SplitCharWhole(s: string, c: char)
    requires c !in s
    ensures SplitChar(s, c) == [s]
  {
    if s != "" {
      assert s == [s[0]] + s[1..];
      SplitCharWhole(s[1..], c);
    }
  }

  // ---------------------------------------------------------------------------
  // Decimal numbers
  // ---------------------------------------------------------------------------

  const DIGITS := "0123456789"

  predicate IsDigit(c: char) { '0' <= c <= '9' }

  /** The decimal representation that `format!` prints for an unsigned integer. */
  function Decimal(n: nat): (s: string)
    ensures s != "" && forall i :: 0 <= i < |s| ==> IsDigit(s[i])
  {
    if n < 10 then [DIGITS[n]] else Decimal(n / 10) + [DIGITS[n % 10]]
  }

  /** The number that digits stand for. */
  function ReadDecimal(s: string): int
    requires forall i :: 0 <= i < |s| ==> IsDigit(s[i])
  {
    if s == "" then 0 else 10 * ReadDecimal(s[..|s| - 1]) + (s[|s| - 1] as int - '0' as int)
  }

  lemma DigitIsRead(d: nat)
    requires d < 10
    ensures DIGITS[d] as int - '0' as int == d
  {}

  /** The digits printed stand for the number, and no number but zero begins with a zero. */
  lemma {:induction false} DecimalIsRead(n: nat)
    ensures ReadDecimal(Decimal(n)) == n && (n > 0 ==> Decimal(n)[0] != '0')
  {
    DigitIsRead(n % 10);
    if n < 10 {
      assert Decimal(n)[..0] == "";
    } else {
      DecimalIsRead(n / 10);
      assert Decimal(n)[..|Decimal(n)| - 1] == Decimal(n / 10);
    }
  }

  lemma {:induction false} DecimalInjective(m: nat, n: nat)
    requires Decimal(m) == Decimal(n)
    ensures m == n
  {
    var a, b := Decimal(m), Decimal(n);
    assert a[|a| - 1] == DIGITS[m % 10] && b[|b| - 1] == DIGITS[n % 10];
    if m >= 10 && n >= 10 {
      assert a[..|a| - 1] == Decimal(m / 10) && b[..|b| - 1] == Decimal(n / 10);
      DecimalInjective(m / 10, n / 10);
    }
  }
}
