/** Budgeted context assembly (engine/src/intelligence/context_compiler.rs). Contents are ASCII: a character is a byte. */
module ContextCompiler {
  import opened Basics
  import opened Strings

  datatype Section = Section(name: string, content: string, priority: nat)

  datatype MemoryEntry = MemoryEntry(entryType: string, content: string)

  datatype CompiledContext = CompiledContext(systemPrompt: string, sections: seq<Section>, totalChars: nat)

  const REPLACEMENT := "[compressed]"
  const MARKER := "\n\n[... context compressed ...]\n\n"

  // ---------------------------------------------------------------------------
  // The order of compression: lowest priority first, ties by position
  // ---------------------------------------------------------------------------

  predicate InRange(sections: seq<Section>, order: seq<nat>) {
    forall k :: 0 <= k < |order| ==> order[k] < |sections|
  }

  /** Where the stable sort puts `i` among earlier indices that are already sorted. */
  function Insert(sections: seq<Section>, order: seq<nat>, i: nat): (r: seq<nat>)
    requires i < |sections| && InRange(sections, order)
    ensures InRange(sections, r) && |r| == |order| + 1
  {
    if order == [] || sections[order[0]].priority < sections[i].priority then [i] + order
    else [order[0]] + Insert(sections, order[1..], i)
  }

  predicate Distinct(order: seq<nat>) {
    forall k, l :: 0 <= k < l < |order| ==> order[k] != order[l]
  }

  predicate LowestFirst(sections: seq<Section>, order: seq<nat>)
    requires InRange(sections, order)
  {
    forall k, l :: 0 <= k < l < |order| ==> sections[order[k]].priority >= sections[order[l]].priority
  }

  lemma {:induction false} InsertMembers(sections: seq<Section>, order: seq<nat>, i: nat, x: nat)
    requires i < |sections| && InRange(sections, order)
    ensures x in Insert(sections, order, i) <==> x == i || x in order
  {
    if order != [] && sections[order[0]].priority >= sections[i].priority {
      InsertMembers(sections, order[1..], i, x);
      assert order == [order[0]] + order[1..];
    }
  }

  lemma ConsKeepsOrder(sections: seq<Section>, a: nat, rest: seq<nat>)
    requires a < |sections| && InRange(sections, rest) && Distinct(rest) && LowestFirst(sections, rest)
    requires forall x :: x in rest ==> x != a && sections[a].priority >= sections[x].priority
    ensures Distinct([a] + rest) && LowestFirst(sections, [a] + rest)
  {
    var r := [a] + rest;
    assert forall k :: 1 <= k < |r| ==> r[k] == rest[k - 1] && r[k] in rest;
  }

  lemma {:induction false} InsertKeepsOrder(sections: seq<Section>, order: seq<nat>, i: nat)
    requires i < |sections| && InRange(sections, order) && i !in order && Distinct(order) && LowestFirst(sections, order)
    ensures Distinct(Insert(sections, order, i)) && LowestFirst(sections, Insert(sections, order, i))
  {
    if order == [] {
    } else {
      var a, rest := order[0], order[1..];
      assert forall x :: x in rest ==> x in order;
      TailInOrder(sections, order);
      if sections[a].priority < sections[i].priority {
        assert order == [a] + rest;
        ConsKeepsOrder(sections, i, order);
      } else {
        InsertKeepsOrder(sections, rest, i);
        forall x | x in Insert(sections, rest, i)
          ensures x != a && sections[a].priority >= sections[x].priority
        {
          InsertMembers(sections, rest, i, x);
        }
        ConsKeepsOrder(sections, a, Insert(sections, rest, i));
      }
    }
  }

  lemma TailInOrder(sections: seq<Section>, order: seq<nat>)
    requires order != [] && InRange(sections, order) && Distinct(order) && LowestFirst(sections, order)
    ensures Distinct(order[1..]) && LowestFirst(sections, order[1..])
    ensures forall x :: x in order[1..] ==> x != order[0] && sections[order[0]].priority >= sections[x].priority
  {
    assert forall k :: 0 <= k < |order[1..]| ==> order[1..][k] == order[k + 1];
  }

  ghost predicate Covers(order: seq<nat>, n: nat) {
    forall x: nat :: x in order <==> x < n
  }

  lemma InsertCovers(sections: seq<Section>, order: seq<nat>, n: nat)
    requires n < |sections| && InRange(sections, order) && Covers(order, n)
    ensures Covers(Insert(sections, order, n), n + 1)
  {
    forall x: nat
      ensures x in Insert(sections, order, n) <==> x < n + 1
    {
      InsertMembers(sections, order, n, x);
    }
  }

  /** The first `n` indices, sorted. */
  function Order(sections: seq<Section>, n: nat): (order: seq<nat>)
    requires n <= |sections|
    ensures |order| == n && Covers(order, n)
    ensures InRange(sections, order) && Distinct(order) && LowestFirst(sections, order)
  {
    if n == 0 then []
    else
      var earlier := Order(sections, n - 1);
      InsertKeepsOrder(sections, earlier, n - 1);
      InsertCovers(sections, earlier, n - 1);
      Insert(sections, earlier, n - 1)
  }

  // ---------------------------------------------------------------------------
  // Compression
  // ---------------------------------------------------------------------------

  /** What happens to a section: nothing, replacement, or a cut of the given size from its middle. */
  datatype Treatment = Untouched | Replaced | Cut(size: nat)
  {
    /** The treatment of a section of the given length while `excess` bytes are to be removed. */
    static function For(length: nat, excess: nat): Treatment {
      if excess == 0 || length == 0 then Untouched else if excess >= length then Replaced else Cut(excess)
    }

    /** How many bytes are then still to be removed. */
    function Left(length: nat, excess: nat): nat {
      match this
      case Untouched => excess
      case Replaced => if excess >= length then excess - length else 0
      case Cut(_) => 0
    }
  }

  /** The treatments of sections of the given lengths, in order, to remove `excess` bytes. */
  function Treat(lens: seq<nat>, excess: nat): seq<Treatment> {
    if lens == [] then []
    else
      var t := Treatment.For(lens[0], excess);
      [t] + Treat(lens[1..], t.Left(lens[0], excess))
  }

  /** The start and the end of a text that is cut by `size`: three quarters and one quarter of what is kept. */
  function CutMiddle(text: string, size: nat): string
    requires size < |text|
  {
    var keep := |text| - size;
    var keepStart := 3 * keep / 4;
    text[..keepStart] + MARKER + text[|text| - (keep - keepStart)..]
  }

  function Treated(text: string, t: Treatment): string {
    match t
    case Untouched => text
    case Replaced => REPLACEMENT
    case Cut(size) => if size < |text| then CutMiddle(text, size) else text
  }

  function Lens(sections: seq<Section>, order: seq<nat>): (r: seq<nat>)
    requires InRange(sections, order)
    ensures |r| == |order| && forall k :: 0 <= k < |r| ==> r[k] == |sections[order[k]].content|
  {
    seq(|order|, k requires 0 <= k < |order| => |sections[order[k]].content|)
  }

  /** The sections with the treatments applied in order. */
  function ApplyTreatments(sections: seq<Section>, order: seq<nat>, treatments: seq<Treatment>): (r: seq<Section>)
    requires InRange(sections, order) && |treatments| == |order|
    ensures |r| == |sections|
    decreases |order|
  {
    if order == [] then sections
    else
      var s := sections[order[0]];
      ApplyTreatments(sections[order[0] := s.(content := Treated(s.content, treatments[0]))], order[1..], treatments[1..])
  }

  lemma {:induction false} TreatLength(lens: seq<nat>, excess: nat)
    ensures |Treat(lens, excess)| == |lens|
  {
    if lens != [] {
      if excess == 0 || lens[0] == 0 {
        TreatLength(lens[1..], excess);
      } else if excess >= lens[0] {
        TreatLength(lens[1..], excess - lens[0]);
      } else {
        TreatLength(lens[1..], 0);
      }
    }
  }

  function Compressed(sections: seq<Section>, excess: nat): (r: seq<Section>)
    ensures |r| == |sections|
  {
    var order := Order(sections, |sections|);
    TreatLength(Lens(sections, order), excess);
    ApplyTreatments(sections, order, Treat(Lens(sections, order), excess))
  }

  function Sum(lens: seq<nat>): nat {
    if lens == [] then 0 else lens[0] + Sum(lens[1..])
  }

  function TotalLen(sections: seq<Section>): nat {
    if sections == [] then 0 else TotalLen(sections[..|sections| - 1]) + |sections[|sections| - 1].content|
  }

  function CountReplaced(ts: seq<Treatment>): nat {
    if ts == [] then 0 else (if ts[0].Replaced? then 1 else 0) + CountReplaced(ts[1..])
  }

  function CountCut(ts: seq<Treatment>): nat {
    if ts == [] then 0 else (if ts[0].Cut? then 1 else 0) + CountCut(ts[1..])
  }

  lemma {:induction false} TotalLenUpdate(sections: seq<Section>, i: nat, s: Section)
    requires i < |sections|
    ensures TotalLen(sections[i := s]) + |sections[i].content| == TotalLen(sections) + |s.content|
  {
    var last := |sections| - 1;
    if i < last {
      assert sections[i := s][..last] == sections[..last][i := s];
      TotalLenUpdate(sections[..last], i, s);
    } else {
      assert sections[i := s][..last] == sections[..last];
    }
  }

  /** How many bytes treatments take away and add. */
  function Removed(lens: seq<nat>, ts: seq<Treatment>): nat
    requires |lens| == |ts|
  {
    if lens == [] then 0
    else
      (match ts[0] case Untouched => 0 case Replaced => lens[0] case Cut(size) => if size < lens[0] then size else 0)
      + Removed(lens[1..], ts[1..])
  }

  lemma {:induction false} TreatRemoves(lens: seq<nat>, excess: nat)
    ensures |Treat(lens, excess)| == |lens|
    ensures Removed(lens, Treat(lens, excess)) == Min(excess, Sum(lens))
    ensures CountCut(Treat(lens, excess)) <= 1
    ensures excess == 0 ==> CountCut(Treat(lens, excess)) == 0
    ensures CountReplaced(Treat(lens, excess)) + CountCut(Treat(lens, excess)) <= |lens|
    ensures forall k :: 0 <= k < |lens| && Treat(lens, excess)[k].Cut? ==> Treat(lens, excess)[k].size < lens[k]
  {
    if lens != [] {
      if excess == 0 || lens[0] == 0 {
        TreatRemoves(lens[1..], excess);
      } else if excess >= lens[0] {
        TreatRemoves(lens[1..], excess - lens[0]);
      } else {
        TreatRemoves(lens[1..], 0);
      }
    }
  }

  /** A text cut in the middle keeps three quarters of what is left at its beginning and the rest at its end, with the
      marker in between; a replaced one is the replacement alone. */
  lemma TreatedMeans(text: string, t: Treatment) returns (front: nat, back: nat)
    requires t.Cut? ==> t.size < |text|
    ensures t.Untouched? ==> Treated(text, t) == text
    ensures t.Replaced? ==> Treated(text, t) == "[compressed]"
    ensures t.Cut? ==>
      && front + back == |text| - t.size && 4 * front <= 3 * (front + back) < 4 * front + 4
      && Treated(text, t) == text[..front] + MARKER + text[|text| - back..]
  {
    front, back := 0, 0;
    if t.Cut? {
      front, back := CutMeans(text, t.size);
    }
  }

  lemma CutMeans(text: string, size: nat) returns (front: nat, back: nat)
    requires size < |text|
    ensures front + back == |text| - size && 4 * front <= 3 * (front + back) < 4 * front + 4
    ensures CutMiddle(text, size) == text[..front] + MARKER + text[|text| - back..]
  {
    var keep := |text| - size;
    front := 3 * keep / 4;
    back := keep - front;
  }

  lemma TreatedLength(text: string, t: Treatment)
    requires t.Cut? ==> t.size < |text|
    ensures match t
      case Untouched => |Treated(text, t)| == |text|
      case Replaced => |Treated(text, t)| == 12
      case Cut(size) => |Treated(text, t)| + size == |text| + 32
  {}

  /** Changing the first section in the order leaves the others' lengths alone. */
  lemma LensOfRest(sections: seq<Section>, order: seq<nat>, s: Section)
    requires InRange(sections, order) && Distinct(order) && order != []
    ensures InRange(sections, order[1..]) && Lens(sections[order[0] := s], order[1..]) == Lens(sections, order)[1..]
  {
    assert forall k :: 0 <= k < |order| - 1 ==> order[1..][k] == order[k + 1] && order[k + 1] != order[0];
  }

  lemma {:induction false} TreatmentsChangeLength(sections: seq<Section>, order: seq<nat>, ts: seq<Treatment>)
    requires InRange(sections, order) && Distinct(order) && |ts| == |order|
    requires forall k :: 0 <= k < |ts| && ts[k].Cut? ==> ts[k].size < |sections[order[k]].content|
    ensures TotalLen(ApplyTreatments(sections, order, ts)) + Removed(Lens(sections, order), ts)
         == TotalLen(sections) + 12 * CountReplaced(ts) + 32 * CountCut(ts)
    decreases |order|
  {
    if order != [] {
      var i, s := order[0], sections[order[0]];
      var s' := s.(content := Treated(s.content, ts[0]));
      var next := sections[i := s'];
      TreatedLength(s.content, ts[0]);
      TotalLenUpdate(sections, i, s');
      LensOfRest(sections, order, s');
      TreatmentsChangeLength(next, order[1..], ts[1..]);
    }
  }

  lemma {:induction false} SumInsert(sections: seq<Section>, order: seq<nat>, i: nat)
    requires i < |sections| && InRange(sections, order)
    ensures Sum(Lens(sections, Insert(sections, order, i))) == Sum(Lens(sections, order)) + |sections[i].content|
  {
    var r := Insert(sections, order, i);
    if order == [] || sections[order[0]].priority < sections[i].priority {
      assert Lens(sections, r)[1..] == Lens(sections, order);
    } else {
      assert r[1..] == Insert(sections, order[1..], i);
      assert Lens(sections, r)[1..] == Lens(sections, r[1..]);
      assert Lens(sections, order)[1..] == Lens(sections, order[1..]);
      SumInsert(sections, order[1..], i);
    }
  }

  /** The sorted lengths add up to the total length. */
  lemma {:induction false} SumOfOrder(sections: seq<Section>, n: nat)
    requires n <= |sections|
    ensures Sum(Lens(sections, Order(sections, n))) == TotalLen(sections[..n])
  {
    if n > 0 {
      SumOfOrder(sections, n - 1);
      OrderNext(sections, n);
      SumInsert(sections, Order(sections, n - 1), n - 1);
      TotalLenNext(sections, n);
    }
  }

  lemma OrderNext(sections: seq<Section>, n: nat)
    requires 0 < n <= |sections|
    ensures Order(sections, n) == Insert(sections, Order(sections, n - 1), n - 1)
  {}

  lemma TotalLenNext(sections: seq<Section>, n: nat)
    requires 0 < n <= |sections|
    ensures TotalLen(sections[..n]) == TotalLen(sections[..n - 1]) + |sections[n - 1].content|
  {
    assert sections[..n][..n - 1] == sections[..n - 1];
  }

  function Treatments(sections: seq<Section>, excess: nat): seq<Treatment> {
    Treat(Lens(sections, Order(sections, |sections|)), excess)
  }

  /** Every byte is accounted for: what is removed is the excess or all there is, and every replacement adds 12
      bytes, every cut 32, of which there is at most one. */
  lemma CompressionAccounting(sections: seq<Section>, excess: nat)
    ensures TotalLen(Compressed(sections, excess)) + Min(excess, TotalLen(sections))
         == TotalLen(sections) + 12 * CountReplaced(Treatments(sections, excess)) + 32 * CountCut(Treatments(sections, excess))
    ensures CountCut(Treatments(sections, excess)) <= 1
    ensures CountReplaced(Treatments(sections, excess)) + CountCut(Treatments(sections, excess)) <= |sections|
  {
    SumOfOrder(sections, |sections|);
    assert sections[..|sections|] == sections;
    AccountingInOrder(sections, Order(sections, |sections|), excess);
  }

  lemma AccountingInOrder(sections: seq<Section>, order: seq<nat>, excess: nat)
    requires InRange(sections, order) && Distinct(order) && Sum(Lens(sections, order)) == TotalLen(sections)
    ensures var ts := Treat(Lens(sections, order), excess);
      && |ts| == |order|
      && TotalLen(ApplyTreatments(sections, order, ts)) + Min(excess, TotalLen(sections))
           == TotalLen(sections) + 12 * CountReplaced(ts) + 32 * CountCut(ts)
      && CountCut(ts) <= 1 && CountReplaced(ts) + CountCut(ts) <= |order|
  {
    var lens := Lens(sections, order);
    TreatRemoves(lens, excess);
    TreatmentsChangeLength(sections, order, Treat(lens, excess));
  }

  /** Nothing is touched before everything that comes earlier is empty or fully replaced. */
  lemma {:induction false} EarlierGoFirst(lens: seq<nat>, excess: nat, j: nat, k: nat)
    requires j < k < |lens|
    ensures |Treat(lens, excess)| == |lens|
    ensures Treat(lens, excess)[k] != Untouched ==> lens[j] == 0 || Treat(lens, excess)[j] == Replaced
    decreases |lens|
  {
    TreatLength(lens, excess);
    var rest := if excess == 0 || lens[0] == 0 then excess else if excess >= lens[0] then excess - lens[0] else 0;
    assert Treat(lens, excess)[1..] == Treat(lens[1..], rest);
    assert Treat(lens, excess)[k] == Treat(lens[1..], rest)[k - 1];
    if j > 0 {
      EarlierGoFirst(lens[1..], rest, j - 1, k - 1);
    } else {
      NothingToRemove(lens[1..], k - 1);
    }
  }

  lemma {:induction false} NothingToRemove(lens: seq<nat>, k: nat)
    requires k < |lens|
    ensures |Treat(lens, 0)| == |lens| && Treat(lens, 0)[k] == Untouched
  {
    TreatLength(lens, 0);
    if k > 0 {
      NothingToRemove(lens[1..], k - 1);
    }
  }

  lemma {:induction false} TreatmentAt(sections: seq<Section>, order: seq<nat>, ts: seq<Treatment>, k: nat)
    requires InRange(sections, order) && Distinct(order) && |ts| == |order| && k < |order|
    ensures ApplyTreatments(sections, order, ts)[order[k]]
         == sections[order[k]].(content := Treated(sections[order[k]].content, ts[k]))
    decreases |order|
  {
    var s := sections[order[0]];
    var next := sections[order[0] := s.(content := Treated(s.content, ts[0]))];
    if k == 0 {
      TreatmentElsewhere(next, order[1..], ts[1..], order[0]);
    } else {
      TreatmentAt(next, order[1..], ts[1..], k - 1);
    }
  }

  lemma {:induction false} TreatmentElsewhere(sections: seq<Section>, order: seq<nat>, ts: seq<Treatment>, i: nat)
    requires InRange(sections, order) && |ts| == |order| && i < |sections| && i !in order
    ensures ApplyTreatments(sections, order, ts)[i] == sections[i]
    decreases |order|
  {
    if order != [] {
      var s := sections[order[0]];
      TreatmentElsewhere(sections[order[0] := s.(content := Treated(s.content, ts[0]))], order[1..], ts[1..], i);
    }
  }

  /** A section changes only if every non-empty section of lower priority has been replaced altogether. */
  lemma LowerPrioritiesGoFirst(sections: seq<Section>, excess: nat, high: nat, low: nat)
    requires high < |sections| && low < |sections| && sections[low].priority > sections[high].priority
    requires Compressed(sections, excess)[high] != sections[high]
    ensures sections[low].content == "" || Compressed(sections, excess)[low] == sections[low].(content := REPLACEMENT)
  {
    var k := TreatedSection(sections, excess, high);
    var j := TreatedSection(sections, excess, low);
    LowerComesEarlier(sections, Order(sections, |sections|), j, k);
    EarlierGoFirst(Lens(sections, Order(sections, |sections|)), excess, j, k);
  }

  lemma LowerComesEarlier(sections: seq<Section>, order: seq<nat>, j: nat, k: nat)
    requires InRange(sections, order) && LowestFirst(sections, order) && j < |order| && k < |order|
    requires sections[order[j]].priority > sections[order[k]].priority
    ensures j < k
  {}

  /** Where a section stands in the order, and what becomes of it. */
  lemma TreatedSection(sections: seq<Section>, excess: nat, i: nat) returns (k: nat)
    requires i < |sections|
    ensures var order, ts := Order(sections, |sections|), Treatments(sections, excess);
      && |ts| == |order| && k < |order| && order[k] == i
      && Compressed(sections, excess)[i] == sections[i].(content := Treated(sections[i].content, ts[k]))
  {
    var order := Order(sections, |sections|);
    TreatLength(Lens(sections, order), excess);
    assert Covers(order, |sections|) && i in order;
    k :| 0 <= k < |order| && order[k] == i;
    TreatmentAt(sections, order, Treatments(sections, excess), k);
  }

  /** Compression ends before the prompt is over by more than the markers it adds: at most 68 bytes. */
  lemma FinalSize(systemPrompt: string, sections: seq<Section>, limit: nat)
    requires |systemPrompt| + TotalLen(sections) > limit
    ensures var excess := |systemPrompt| + TotalLen(sections) - limit;
      var ts := Treatments(sections, excess);
      && |systemPrompt| + TotalLen(Compressed(sections, excess))
           == Max(limit, |systemPrompt|) + 12 * CountReplaced(ts) + 32 * CountCut(ts)
      && CountCut(ts) <= 1
      && (|sections| <= 4 ==>
            |systemPrompt| + TotalLen(Compressed(sections, excess)) <= Max(limit, |systemPrompt|) + 68)
  {
    CompressionAccounting(sections, |systemPrompt| + TotalLen(sections) - limit);
  }

  /** The sections that go into the prompt: as they are within the limit, compressed beyond it. */
  function Fitted(promptLength: nat, sections: seq<Section>, limit: nat): seq<Section> {
    var total := promptLength + TotalLen(sections);
    if total > limit then Compressed(sections, total - limit) else sections
  }

  lemma FittedSize(systemPrompt: string, sections: seq<Section>, limit: nat)
    requires |sections| <= 4
    ensures |systemPrompt| + TotalLen(Fitted(|systemPrompt|, sections, limit)) <= Max(limit, |systemPrompt|) + 68
  {
    if |systemPrompt| + TotalLen(sections) > limit {
      FinalSize(systemPrompt, sections, limit);
    }
  }

  // ---------------------------------------------------------------------------
  // Compiling
  // ---------------------------------------------------------------------------

  function Identity(name: string, description: string): string {
    "Agent: " + name + if description == "" then "" else "\n" + description
  }

  function RuleLines(rules: seq<string>, n: nat): seq<string>
    requires n <= |rules|
  {
    if n == 0 then [] else RuleLines(rules, n - 1) + [Decimal(n) + ". " + rules[n - 1]]
  }

  function MemoryLines(entries: seq<MemoryEntry>): seq<string> {
    if entries == [] then []
    else ["- [" + entries[0].entryType + "] " + entries[0].content] + MemoryLines(entries[1..])
  }

  /** The sections before compression. */
  function Assembled(name: string, description: string, session: string, memory: seq<MemoryEntry>, rules: seq<string>)
    : (r: seq<Section>)
    ensures 2 <= |r| <= 4
  {
    [Section("Agent Identity", Identity(name, description), 1)]
    + (if rules == [] then [] else [Section("Playbook Rules", Join(RuleLines(rules, |rules|), "\n"), 2)])
    + [Section("Session Context", session, 3)]
    + (if memory == [] then [] else [Section("Memory", Join(MemoryLines(memory), "\n"), 4)])
  }

  /** Rule `i` is line `i`, with its number, counted from one. */
  lemma {:induction false} RulesAreNumbered(rules: seq<string>, n: nat)
    requires n <= |rules|
    ensures |RuleLines(rules, n)| == n
    ensures forall i :: 0 <= i < n ==> RuleLines(rules, n)[i] == Decimal(i + 1) + ". " + rules[i]
  {
    if n > 0 {
      RulesAreNumbered(rules, n - 1);
    }
  }

  /** Memory entries are listed with their type. */
  lemma {:induction false} MemoryIsListed(entries: seq<MemoryEntry>)
    ensures |MemoryLines(entries)| == |entries|
    ensures forall i :: 0 <= i < |entries| ==> MemoryLines(entries)[i] == "- [" + entries[i].entryType + "] " + entries[i].content
  {
    if entries != [] {
      MemoryIsListed(entries[1..]);
    }
  }

  /** The section of priority `p`, if there is one. */
  ghost predicate HasSection(sections: seq<Section>, p: nat, name: string, content: string) {
    exists i :: 0 <= i < |sections| && sections[i] == Section(name, content, p)
  }

  /** Which sections are assembled: identity and session always, rules and memory if there are any, in the order of their
      priorities. */
  lemma AssembledMeans(name: string, description: string, session: string, memory: seq<MemoryEntry>, rules: seq<string>)
    ensures var all := Assembled(name, description, session, memory, rules);
      && |all| == 2 + (if rules == [] then 0 else 1) + (if memory == [] then 0 else 1)
      && (forall i, j :: 0 <= i < j < |all| ==> all[i].priority < all[j].priority)
      && HasSection(all, 1, "Agent Identity", if description == "" then "Agent: " + name else "Agent: " + name + "\n" + description)
      && (rules != [] ==> HasSection(all, 2, "Playbook Rules", Join(RuleLines(rules, |rules|), "\n")))
      && HasSection(all, 3, "Session Context", session)
      && (memory != [] ==> HasSection(all, 4, "Memory", Join(MemoryLines(memory), "\n")))
  {
    var all := Assembled(name, description, session, memory, rules);
    var k := if rules == [] then 1 else 2;
    assert all[0] == Section("Agent Identity", Identity(name, description), 1);
    assert all[k] == Section("Session Context", session, 3);
    assert rules != [] ==> all[1] == Section("Playbook Rules", Join(RuleLines(rules, |rules|), "\n"), 2);
    assert memory != [] ==> all[k + 1] == Section("Memory", Join(MemoryLines(memory), "\n"), 4);
  }

  class Compiler {
    const maxContextLength: nat

    constructor (maxContextLength: nat)
      ensures this.maxContextLength == maxContextLength
    {
      this.maxContextLength := maxContextLength;
    }

    /** `compress`, in place. */
    method Compress(sections: array<Section>, totalChars: nat)
      modifies sections
      ensures sections[..] ==
        if totalChars > maxContextLength then Compressed(old(sections[..]), totalChars - maxContextLength)
        else old(sections[..])
    {
      if totalChars <= maxContextLength {
        return;
      }
      ghost var before := sections[..];
      var order := Order(sections[..], sections.Length);
      var remaining: nat := totalChars - maxContextLength;
      ghost var goal := Compressed(before, remaining);
      ghost var ts := CompressBegin(before, remaining);
      for k: nat := 0 to |order|
        invariant sections.Length == |before| && Halfway(sections[..], before, order, ts, k, remaining, goal)
      {
        CompressStep(sections[..], before, order, ts, k, remaining, goal);
        remaining := CompressOne(sections, order[k], remaining, ts[k]);
      }
      CompressEnd(sections[..], before, order, ts, remaining, goal);
    }

    /** The body of the loop: one section is left alone, replaced, or cut in the middle. */
    static method CompressOne(sections: array<Section>, idx: nat, remaining: nat, ghost t: Treatment) returns (left: nat)
      requires idx < sections.Length
      requires t == Treatment.For(|sections[idx].content|, remaining)
      modifies sections
      ensures left == t.Left(|old(sections[idx]).content|, remaining)
      ensures sections[..] == old(sections[..])[idx := old(sections[idx]).(content := Treated(old(sections[idx]).content, t))]
    {
      var content := sections[idx].content;
      if remaining == 0 || content == "" {
        return remaining;
      }
      var toCut := Min(remaining, |content|);
      if toCut >= |content| {
        sections[idx] := sections[idx].(content := REPLACEMENT);
        return remaining - |content|;
      }
      sections[idx] := sections[idx].(content := CutMiddle(content, toCut));
      return 0;
    }

    /** `compile`. */
    method Compile(name: string, description: string, systemPrompt: Option<string>, session: string,
                   memory: seq<MemoryEntry>, rules: seq<string>)
      returns (ctx: CompiledContext)
      ensures ctx.systemPrompt == if systemPrompt.Some? then systemPrompt.value else ""
      ensures ctx.totalChars == |ctx.systemPrompt| + TotalLen(ctx.sections)
      ensures ctx.sections
        == Fitted(|ctx.systemPrompt|, Assembled(name, description, session, memory, rules), maxContextLength)
      ensures ctx.totalChars <= Max(maxContextLength, |ctx.systemPrompt|) + 68
    {
      var all := Assemble(name, description, session, memory, rules);
      var prompt := if systemPrompt.Some? then systemPrompt.value else "";
      FittedSize(prompt, all, maxContextLength);
      var fitted := Fit(prompt, all);
      ctx := CompiledContext(prompt, fitted, |prompt| + TotalLen(fitted));
    }

    /** The fifth phase of `compile`. */
    method Fit(prompt: string, all: seq<Section>) returns (fitted: seq<Section>)
      ensures fitted == Fitted(|prompt|, all, maxContextLength)
    {
      var sections := new Section[|all|](i requires 0 <= i < |all| => all[i]);
      assert sections[..] == all;
      var total := |prompt| + TotalLen(all);
      if total > maxContextLength {
        Compress(sections, total);
      }
      return sections[..];
    }

    /** The first four phases of `compile`. */
    static method Assemble(name: string, description: string, session: string, memory: seq<MemoryEntry>, rules: seq<string>)
      returns (all: seq<Section>)
      ensures all == Assembled(name, description, session, memory, rules)
    {
      all := [Section("Agent Identity", Identity(name, description), 1)];
      if rules != [] {
        all := all + [Section("Playbook Rules", Join(RuleLines(rules, |rules|), "\n"), 2)];
      }
      all := all + [Section("Session Context", session, 3)];
      if memory != [] {
        all := all + [Section("Memory", Join(MemoryLines(memory), "\n"), 4)];
      }
    }
  }

  /** The loop has treated the first `k` sections in order: what is still to come leads to the goal. */
  ghost predicate Halfway(sections: seq<Section>, before: seq<Section>, order: seq<nat>, ts: seq<Treatment>, k: nat,
                          remaining: nat, goal: seq<Section>) {
    && |sections| == |before| && InRange(before, order) && Distinct(order) && |ts| == |order| && k <= |order|
    && Treat(Lens(before, order)[k..], remaining) == ts[k..]
    && ApplyTreatments(sections, order[k..], ts[k..]) == goal
    && forall l :: k <= l < |order| ==> sections[order[l]] == before[order[l]]
  }

  lemma CompressBegin(sections: seq<Section>, excess: nat) returns (ts: seq<Treatment>)
    ensures Halfway(sections, sections, Order(sections, |sections|), ts, 0, excess, Compressed(sections, excess))
  {
    var order := Order(sections, |sections|);
    ts := Treatments(sections, excess);
    TreatLength(Lens(sections, order), excess);
    assert order[0..] == order && ts[0..] == ts && Lens(sections, order)[0..] == Lens(sections, order);
  }

  /** One turn of the loop. */
  lemma CompressStep(sections: seq<Section>, before: seq<Section>, order: seq<nat>, ts: seq<Treatment>, k: nat,
                     remaining: nat, goal: seq<Section>)
    requires Halfway(sections, before, order, ts, k, remaining, goal) && k < |order|
    ensures var idx, n := order[k], |sections[order[k]].content|;
      && ts[k] == Treatment.For(n, remaining)
      && Halfway(sections[idx := sections[idx].(content := Treated(sections[idx].content, ts[k]))],
                 before, order, ts, k + 1, ts[k].Left(n, remaining), goal)
  {
    var lens := Lens(before, order);
    assert lens[k..][0] == lens[k] && lens[k..][1..] == lens[k + 1..];
    assert ts[k..][0] == ts[k] && ts[k..][1..] == ts[k + 1..];
    assert order[k..][0] == order[k] && order[k..][1..] == order[k + 1..];
  }

  lemma CompressEnd(sections: seq<Section>, before: seq<Section>, order: seq<nat>, ts: seq<Treatment>, remaining: nat,
                    goal: seq<Section>)
    requires Halfway(sections, before, order, ts, |order|, remaining, goal)
    ensures sections == goal
  {
    assert order[|order|..] == [];
  }

  // ---------------------------------------------------------------------------
  // When compression makes a context longer
  // ---------------------------------------------------------------------------

  /** The bytes that the markers of these treatments add. */
  function MarkerBytes(ts: seq<Treatment>): nat {
    12 * CountReplaced(ts) + 32 * CountCut(ts)
  }

  /** Fitting a context to the limit makes it longer exactly if it is over the limit and the markers take more room
      than the excess, or than all sections where the excess is larger. */
  lemma FittingGrowsIff(promptLength: nat, sections: seq<Section>, limit: nat)
    ensures var total := promptLength + TotalLen(sections);
      promptLength + TotalLen(Fitted(promptLength, sections, limit)) > total
      <==> total > limit && MarkerBytes(Treatments(sections, total - limit)) > Min(total - limit, TotalLen(sections))
  {
    var total := promptLength + TotalLen(sections);
    if total > limit {
      CompressionAccounting(sections, total - limit);
    }
  }

  lemma {:induction false} SomethingIsTreated(lens: seq<nat>, excess: nat)
    requires 0 < excess && 0 < Sum(lens)
    ensures CountReplaced(Treat(lens, excess)) + CountCut(Treat(lens, excess)) >= 1
  {
    if lens[0] == 0 {
      SomethingIsTreated(lens[1..], excess);
    }
  }

  /** A context that is over the limit by fewer than 12 bytes always gets longer, unless the system prompt alone is over
      it. */
  lemma SlightExcessGrows(promptLength: nat, sections: seq<Section>, limit: nat)
    requires promptLength <= limit < promptLength + TotalLen(sections) < limit + 12
    ensures TotalLen(Fitted(promptLength, sections, limit)) > TotalLen(sections)
  {
    var excess := promptLength + TotalLen(sections) - limit;
    SumOfOrder(sections, |sections|);
    assert sections[..|sections|] == sections;
    SomethingIsTreated(Lens(sections, Order(sections, |sections|)), excess);
    FittingGrowsIff(promptLength, sections, limit);
  }

  /** Once 68 bytes are to be removed and there to be removed, a context never gets longer. */
  lemma LargeExcessNeverGrows(promptLength: nat, sections: seq<Section>, limit: nat)
    requires |sections| <= 4 && TotalLen(sections) >= 68 && promptLength + TotalLen(sections) >= limit + 68
    ensures TotalLen(Fitted(promptLength, sections, limit)) <= TotalLen(sections)
  {
    CompressionAccounting(sections, promptLength + TotalLen(sections) - limit);
  }

  lemma AssembledIsNotEmpty(name: string, description: string, session: string, memory: seq<MemoryEntry>, rules: seq<string>)
    ensures TotalLen(Assembled(name, description, session, memory, rules)) >= 7
  {
    var all := Assembled(name, description, session, memory, rules);
    assert |Identity(name, description)| >= 7;
    TotalLenOfFirst(all);
  }

  lemma {:induction false} TotalLenOfFirst(sections: seq<Section>)
    requires sections != []
    ensures TotalLen(sections) >= |sections[0].content|
  {
    if |sections| > 1 {
      TotalLenOfFirst(sections[..|sections| - 1]);
    }
  }

  /** Every context an agent can have gets longer when compiled for a limit one byte below its length. */
  lemma CompressionCanGrow(prompt: string, name: string, description: string, session: string, memory: seq<MemoryEntry>,
                           rules: seq<string>)
    ensures var all := Assembled(name, description, session, memory, rules);
      var limit := |prompt| + TotalLen(all) - 1;
      limit >= 0 && |prompt| + TotalLen(Fitted(|prompt|, all, limit)) > limit + 1
  {
    AssembledIsNotEmpty(name, description, session, memory, rules);
    var all := Assembled(name, description, session, memory, rules);
    SlightExcessGrows(|prompt|, all, |prompt| + TotalLen(all) - 1);
  }

  /** The same seen by a caller of `compile`. */
  method CompileOneOver(name: string, description: string, systemPrompt: Option<string>, session: string,
                        memory: seq<MemoryEntry>, rules: seq<string>)
    returns (ctx: CompiledContext)
    ensures ctx.totalChars > |ctx.systemPrompt| + TotalLen(Assembled(name, description, session, memory, rules))
  {
    var prompt := if systemPrompt.Some? then systemPrompt.value else "";
    CompressionCanGrow(prompt, name, description, session, memory, rules);
    var compiler := new Compiler(|prompt| + TotalLen(Assembled(name, description, session, memory, rules)) - 1);
    ctx := compiler.Compile(name, description, systemPrompt, session, memory, rules);
  }
}
