/** What a pass of the graph runner does, in terms of the edges, the map and the trace alone
    (engine/src/core/runner/graph_runner.rs). */
module RunnerEffects {
  import opened Basics
  import opened Json
  import opened Graph
  import opened State
  import opened Runner
  import opened RunnerAcyclic

  // ---------------------------------------------------------------------------
  // Conditions
  // ---------------------------------------------------------------------------

  ghost predicate OccursAt(s: string, sub: string, i: int) {
    0 <= i <= |s| - |sub| && s[i..i + |sub|] == sub
  }

  /** `sub` stands somewhere in `s`. */
  ghost predicate Occurs(s: string, sub: string) {
    exists i :: OccursAt(s, sub, i)
  }

  lemma {:induction false} ContainsTextIff(s: string, sub: string)
    ensures ContainsText(s, sub) <==> Occurs(s, sub)
  {
    OccursFirst(s, sub);
    if s == "" {
      assert Occurs(s, sub) ==> sub == "";
    } else {
      ContainsTextIff(s[1..], sub);
      OccursLater(s, sub);
    }
  }

  lemma OccursFirst(s: string, sub: string)
    ensures OccursAt(s, sub, 0) <==> sub <= s
  {}

  lemma OccursLater(s: string, sub: string)
    requires s != ""
    ensures Occurs(s, sub) <==> OccursAt(s, sub, 0) || Occurs(s[1..], sub)
  {
    if Occurs(s[1..], sub) {
      var i :| OccursAt(s[1..], sub, i);
      assert s[1..][i..i + |sub|] == s[i + 1..i + 1 + |sub|];
      assert OccursAt(s, sub, i + 1);
    }
    if Occurs(s, sub) && !OccursAt(s, sub, 0) {
      var i :| OccursAt(s, sub, i);
      assert s[1..][i - 1..i - 1 + |sub|] == s[i..i + |sub|];
      assert OccursAt(s[1..], sub, i - 1);
    }
  }

  /** How two numbers compare: the first less than, equal to or greater than the second. */
  function Order(a: Number, b: Number): int {
    var d := b.Value() - a.Value();
    if d > 0.0 then -1 else if d < 0.0 then 1 else 0
  }

  /** What the operators ask of the value in the output: equality of JSON values, comparison of numbers, membership in
      the expected array, and containment in a text or an array. Nothing else holds. */
  lemma OperatorsMean(output: Output, field: string, actual: Json, expected: Json)
    requires Lookup(output, field) == Some(actual)
    ensures Evaluate(output, EdgeCondition(field, Eq, expected)) <==> actual == expected
    ensures Evaluate(output, EdgeCondition(field, Neq, expected)) <==> !Evaluate(output, EdgeCondition(field, Eq, expected))
    ensures Evaluate(output, EdgeCondition(field, Gt, expected)) <==> actual.Num? && expected.Num? && Order(actual.n, expected.n) == 1
    ensures Evaluate(output, EdgeCondition(field, Lt, expected)) <==> actual.Num? && expected.Num? && Order(actual.n, expected.n) == -1
    ensures Evaluate(output, EdgeCondition(field, Gte, expected)) <==> actual.Num? && expected.Num? && Order(actual.n, expected.n) != -1
    ensures Evaluate(output, EdgeCondition(field, Lte, expected)) <==> actual.Num? && expected.Num? && Order(actual.n, expected.n) != 1
    ensures Evaluate(output, EdgeCondition(field, In, expected))
       <==> expected.Arr? && exists i :: 0 <= i < |expected.items| && expected.items[i] == actual
    ensures Evaluate(output, EdgeCondition(field, Contains, expected))
       <==> (actual.Str? && expected.Str? && Occurs(actual.s, expected.s))
            || (actual.Arr? && exists i :: 0 <= i < |actual.items| && actual.items[i] == expected)
  {
    if actual.Str? && expected.Str? {
      ContainsTextIff(actual.s, expected.s);
    }
  }

  /** No condition holds on a field that the output does not have. */
  lemma MissingFieldsFail(output: Output, condition: EdgeCondition)
    requires condition.field !in output
    ensures !Evaluate(output, condition)
  {}

  // ---------------------------------------------------------------------------
  // Routing
  // ---------------------------------------------------------------------------

  ghost predicate Holds(e: EdgeDef, output: Output) {
    e.condition.Some? && Evaluate(output, e.condition.value)
  }

  /** Edge `k` is the first whose condition holds. */
  ghost predicate FirstToHold(outgoing: seq<EdgeDef>, output: Output, k: int) {
    0 <= k < |outgoing| && Holds(outgoing[k], output) && forall j :: 0 <= j < k ==> !Holds(outgoing[j], output)
  }

  ghost predicate NoneHolds(outgoing: seq<EdgeDef>, output: Output) {
    forall j :: 0 <= j < |outgoing| ==> !Holds(outgoing[j], output)
  }

  /** `ids` are the targets of the edges without a condition, in their order. */
  ghost predicate AreTargets(outgoing: seq<EdgeDef>, ids: seq<string>, at: seq<nat>) {
    && |at| == |ids| && Increasing(at)
    && (forall k :: 0 <= k < |at| ==> at[k] < |outgoing| && outgoing[at[k]].target == ids[k])
    && KeptAt(outgoing, (e: EdgeDef) => e.condition == None, at)
  }

  lemma {:induction false} FirstMatchIs(outgoing: seq<EdgeDef>, output: Output, k: int)
    requires FirstToHold(outgoing, output, k)
    ensures FirstMatch(outgoing, output) == Some(outgoing[k].target)
    decreases |outgoing|
  {
    if k > 0 {
      assert !Holds(outgoing[0], output);
      assert forall j :: 0 <= j < k - 1 ==> outgoing[1..][j] == outgoing[j + 1];
      FirstMatchIs(outgoing[1..], output, k - 1);
    }
  }

  lemma {:induction false} NoMatchIs(outgoing: seq<EdgeDef>, output: Output)
    requires NoneHolds(outgoing, output)
    ensures FirstMatch(outgoing, output) == None
  {
    if outgoing != [] {
      assert !Holds(outgoing[0], output);
      assert forall j :: 0 <= j < |outgoing| - 1 ==> outgoing[1..][j] == outgoing[j + 1];
      NoMatchIs(outgoing[1..], output);
    }
  }

  lemma {:induction false} TargetsInOrder(outgoing: seq<EdgeDef>) returns (at: seq<nat>)
    ensures AreTargets(outgoing, UnconditionalTargets(outgoing), at)
  {
    at := [];
    if outgoing != [] {
      var keep := (e: EdgeDef) => e.condition == None;
      var rest := TargetsInOrder(outgoing[1..]);
      KeptOneMore(outgoing, keep, rest);
      PositionsOneMore(outgoing, UnconditionalTargets(outgoing[1..]), rest);
      at := if outgoing[0].condition == None then [0] + Shifted(rest) else Shifted(rest);
    }
  }

  lemma PositionsOneMore(outgoing: seq<EdgeDef>, ids: seq<string>, at: seq<nat>)
    requires outgoing != [] && |at| == |ids| && Increasing(at)
    requires forall k :: 0 <= k < |at| ==> at[k] < |outgoing[1..]| && outgoing[1..][at[k]].target == ids[k]
    ensures Increasing(Shifted(at)) && Increasing([0] + Shifted(at))
    ensures forall k :: 0 <= k < |at| ==> Shifted(at)[k] < |outgoing| && outgoing[Shifted(at)[k]].target == ids[k]
    ensures var now, all := [0] + Shifted(at), [outgoing[0].target] + ids;
      forall k :: 0 <= k < |now| ==> now[k] < |outgoing| && outgoing[now[k]].target == all[k]
  {
    assert forall k :: 0 <= k < |at| ==> outgoing[Shifted(at)[k]] == outgoing[1..][at[k]];
  }

  /** The first conditional edge whose condition holds is followed, and no other. */
  lemma FirstConditionWins(edges: seq<EdgeDef>, id: string, output: Output, k: int)
    requires FirstToHold(OutgoingEdges(edges, id), output, k)
    ensures NextNodes(edges, id, output) == [OutgoingEdges(edges, id)[k].target]
  {
    FirstMatchIs(OutgoingEdges(edges, id), output, k);
  }

  /** If none holds, all unconditional edges are followed, in their order. */
  lemma OtherwiseUnconditional(edges: seq<EdgeDef>, id: string, output: Output) returns (at: seq<nat>)
    requires NoneHolds(OutgoingEdges(edges, id), output)
    ensures AreTargets(OutgoingEdges(edges, id), NextNodes(edges, id, output), at)
  {
    NoMatchIs(OutgoingEdges(edges, id), output);
    at := TargetsInOrder(OutgoingEdges(edges, id));
  }

  /** One of the two is the case. */
  lemma {:induction false} SomeOrNoneHolds(outgoing: seq<EdgeDef>, output: Output) returns (k: nat)
    ensures FirstToHold(outgoing, output, k) || NoneHolds(outgoing, output)
  {
    k := 0;
    if outgoing != [] && !Holds(outgoing[0], output) {
      var i := SomeOrNoneHolds(outgoing[1..], output);
      assert forall j :: 1 <= j < |outgoing| ==> outgoing[j] == outgoing[1..][j - 1];
      k := i + 1;
    }
  }

  /** The unconditional edge `k` comes before all others. */
  ghost predicate FirstUnconditional(outgoing: seq<EdgeDef>, k: int) {
    0 <= k < |outgoing| && outgoing[k].condition == None && forall j :: 0 <= j < k ==> outgoing[j].condition.Some?
  }

  /** `next` is where a single cursor moves on an output: along the first conditional edge that holds, else along the
      first unconditional one, else nowhere. */
  ghost predicate MovesTo(edges: seq<EdgeDef>, id: string, output: Output, next: Option<string>) {
    var outgoing := OutgoingEdges(edges, id);
    && (forall k :: FirstToHold(outgoing, output, k) ==> next == Some(outgoing[k].target))
    && (forall k :: NoneHolds(outgoing, output) && FirstUnconditional(outgoing, k) ==> next == Some(outgoing[k].target))
    && (NoneHolds(outgoing, output) && (forall k :: 0 <= k < |outgoing| ==> outgoing[k].condition.Some?) ==> next == None)
  }

  lemma {:induction false} FirstTargetIs(outgoing: seq<EdgeDef>, k: int)
    requires FirstUnconditional(outgoing, k)
    ensures UnconditionalTargets(outgoing) != [] && UnconditionalTargets(outgoing)[0] == outgoing[k].target
    decreases |outgoing|
  {
    if k > 0 {
      assert outgoing[0].condition.Some?;
      assert forall j :: 0 <= j < k - 1 ==> outgoing[1..][j] == outgoing[j + 1];
      FirstTargetIs(outgoing[1..], k - 1);
    }
  }

  lemma {:induction false} NoTargets(outgoing: seq<EdgeDef>)
    requires forall k :: 0 <= k < |outgoing| ==> outgoing[k].condition.Some?
    ensures UnconditionalTargets(outgoing) == []
  {
    if outgoing != [] {
      assert forall j :: 0 <= j < |outgoing| - 1 ==> outgoing[1..][j] == outgoing[j + 1];
      NoTargets(outgoing[1..]);
    }
  }

  lemma FirstOfNext(edges: seq<EdgeDef>, id: string, output: Output)
    ensures MovesTo(edges, id, output, First(NextNodes(edges, id, output)))
  {
    var outgoing := OutgoingEdges(edges, id);
    forall k | FirstToHold(outgoing, output, k)
      ensures NextNodes(edges, id, output) == [outgoing[k].target]
    {
      FirstMatchIs(outgoing, output, k);
    }
    if NoneHolds(outgoing, output) {
      NoMatchIs(outgoing, output);
      forall k | FirstUnconditional(outgoing, k)
        ensures First(NextNodes(edges, id, output)) == Some(outgoing[k].target)
      {
        FirstTargetIs(outgoing, k);
      }
      if forall k :: 0 <= k < |outgoing| ==> outgoing[k].condition.Some? {
        NoTargets(outgoing);
      }
    }
  }

  // ---------------------------------------------------------------------------
  // Fan-out
  // ---------------------------------------------------------------------------

  function BranchEntry(id: string, result: Execution): TraceEntry {
    match result
    case Done(_, _) => TraceEntry(id, Succeeded, 0, None)
    case Broken(error, _) => TraceEntry(id, Errored, 0, Some(error))
  }

  /** From the `from`-th branch on, branch `i` is the last of its name that succeeds. */
  ghost predicate LastDone(branches: seq<string>, results: nat -> Execution, from: nat, i: int) {
    from <= i < |branches| && results(i).Done? && forall j :: i < j < |branches| && branches[j] == branches[i] ==> !results(j).Done?
  }

  ghost predicate NoneDone(branches: seq<string>, results: nat -> Execution, from: nat, n: string) {
    forall j :: from <= j < |branches| && branches[j] == n ==> !results(j).Done?
  }

  /** The branches from `from` on have been executed: each is traced, in order; the output of one that succeeded is
      stored, a later one of the same name replacing it; and nothing else is stored. */
  ghost predicate BranchesLeave(branches: seq<string>, results: nat -> Execution, from: nat, m: StateMap, trace: seq<TraceEntry>,
                                m': StateMap, trace': seq<TraceEntry>) {
    && |trace'| == |trace| + |branches| - from && trace <= trace'
    && (forall i :: from <= i < |branches| ==> trace'[|trace| + i - from] == BranchEntry(branches[i], results(i)))
    && (forall i :: LastDone(branches, results, from, i) ==> Lookup(m', branches[i]) == Some(results(i).output))
    && (forall n :: NoneDone(branches, results, from, n) ==> Lookup(m', n) == Lookup(m, n))
  }

  lemma BranchesOneMore(branches: seq<string>, results: nat -> Execution, from: nat, m: StateMap, trace: seq<TraceEntry>,
                        m1: StateMap, m': StateMap, trace': seq<TraceEntry>)
    requires from < |branches|
    requires m1 == if results(from).Done? then m[branches[from] := results(from).output] else m
    requires BranchesLeave(branches, results, from + 1, m1, trace + [BranchEntry(branches[from], results(from))], m', trace')
    ensures BranchesLeave(branches, results, from, m, trace, m', trace')
  {
    TraceOneMore(branches, results, from, trace, trace');
    forall i | LastDone(branches, results, from, i)
      ensures Lookup(m', branches[i]) == Some(results(i).output)
    {
      if i == from {
        assert NoneDone(branches, results, from + 1, branches[from]);
      } else {
        assert LastDone(branches, results, from + 1, i);
      }
    }
    forall n | NoneDone(branches, results, from, n)
      ensures Lookup(m', n) == Lookup(m, n)
    {
      assert NoneDone(branches, results, from + 1, n);
    }
  }

  lemma TraceOneMore(branches: seq<string>, results: nat -> Execution, from: nat, trace: seq<TraceEntry>, trace': seq<TraceEntry>)
    requires from < |branches| && trace + [BranchEntry(branches[from], results(from))] <= trace'
    requires |trace'| == |trace| + |branches| - from
    requires forall i :: from < i < |branches| ==> trace'[|trace| + 1 + i - (from + 1)] == BranchEntry(branches[i], results(i))
    ensures trace <= trace'
    ensures forall i :: from <= i < |branches| ==> trace'[|trace| + i - from] == BranchEntry(branches[i], results(i))
  {
    var e := BranchEntry(branches[from], results(from));
    assert (trace + [e])[|trace|] == e;
    forall i | from <= i < |branches|
      ensures trace'[|trace| + i - from] == BranchEntry(branches[i], results(i))
    {
      if i > from {
        assert |trace| + 1 + i - (from + 1) == |trace| + i - from;
      }
    }
  }

  lemma {:induction false} FanOutLeaves(nodes: seq<NodeDef>, branches: seq<string>, results: nat -> Execution, from: nat,
                                        m: StateMap, trace: seq<TraceEntry>)
    requires from <= |branches| && forall j :: 0 <= j < |branches| ==> branches[j] in NodeIds(nodes)
    ensures var (m', trace') := FanOut(nodes, branches, results, from, m, trace);
      BranchesLeave(branches, results, from, m, trace, m', trace')
    decreases |branches| - from
  {
    if from < |branches| {
      var e := BranchEntry(branches[from], results(from));
      var m1 := if results(from).Done? then m[branches[from] := results(from).output] else m;
      var (m', trace') := FanOut(nodes, branches, results, from + 1, m1, trace + [e]);
      FanOutLeaves(nodes, branches, results, from + 1, m1, trace + [e]);
      BranchesOneMore(branches, results, from, m, trace, m1, m', trace');
    }
  }

  /** `x` is a target of an unconditional edge of every branch. */
  ghost predicate CommonTarget(edges: seq<EdgeDef>, branches: seq<string>, x: string) {
    branches != [] && forall i :: 0 <= i < |branches| ==> HasPlainEdge(edges, branches[i], x)
  }

  ghost predicate HasPlainEdge(edges: seq<EdgeDef>, a: string, b: string) {
    exists i :: 0 <= i < |edges| && edges[i].source == a && edges[i].condition == None && edges[i].target == b
  }

  /** Where branches join: at a common target if there is one, and at the one picked if that is one. */
  ghost predicate JoinsAt(edges: seq<EdgeDef>, branches: seq<string>, pick: string, next: Option<string>) {
    && (next.Some? ==> CommonTarget(edges, branches, next.value))
    && (next == None ==> forall x :: !CommonTarget(edges, branches, x))
    && (CommonTarget(edges, branches, pick) ==> next == Some(pick))
  }

  lemma CandidatesAreCommon(edges: seq<EdgeDef>, branches: seq<string>, x: string)
    ensures x in JoinCandidates(edges, branches) <==> CommonTarget(edges, branches, x)
  {
    forall i | 0 <= i < |branches|
      ensures x in UnconditionalTargets(OutgoingEdges(edges, branches[i])) <==> HasPlainEdge(edges, branches[i], x)
    {
      TargetHasEdge(edges, branches[i], x);
    }
  }

  lemma JoinNodeJoins(edges: seq<EdgeDef>, branches: seq<string>, pick: string)
    ensures JoinsAt(edges, branches, pick, JoinNode(edges, branches, pick))
  {
    forall x
      ensures x in JoinCandidates(edges, branches) <==> CommonTarget(edges, branches, x)
    {
      CandidatesAreCommon(edges, branches, x);
    }
  }

  // ---------------------------------------------------------------------------
  // Success
  // ---------------------------------------------------------------------------

  /** The output that decides the way: as the hook after the node left it. */
  function Routed(output: Output, t: Turn): Output {
    if t.hookedOutput.Some? then t.hookedOutput.value else output
  }

  /** The output is stored, one success is traced, and nothing else happens. */
  ghost predicate OnlyTheNode(id: string, output: Output, retries: nat, m: StateMap, trace: seq<TraceEntry>,
                              m': StateMap, trace': seq<TraceEntry>) {
    m' == m[id := output] && trace' == trace + [TraceEntry(id, Succeeded, retries, None)]
  }

  /** What follows if no condition holds and the unconditional edges lead to `targets`. */
  ghost predicate PlainLeaves(w: Workflow, targets: seq<string>, id: string, output: Output, retries: nat, t: Turn, m: StateMap,
                              trace: seq<TraceEntry>, m': StateMap, trace': seq<TraceEntry>, next: Option<string>) {
    if |targets| > 1 then
      && BranchesLeave(targets, t.fanOut, 0, m[id := output], trace + [TraceEntry(id, Succeeded, retries, None)], m', trace')
      && JoinsAt(w.edges, targets, t.join, next)
    else OnlyTheNode(id, output, retries, m, trace, m', trace') && next == First(targets)
  }

  /** What a success leaves: the output as the tool gave it is stored; the output as the hook left it decides the way; and
      the checkpoint holds the state and the way taken. */
  ghost predicate SuccessLeaves(w: Workflow, id: string, output: Output, retries: nat, t: Turn, step: nat, m: StateMap,
                                trace: seq<TraceEntry>, m': StateMap, trace': seq<TraceEntry>, saved: Checkpoint,
                                cursor: Option<string>) {
    var outgoing := OutgoingEdges(w.edges, id);
    var routed := Routed(output, t);
    && saved == Checkpoint(step + 1, id, m', saved.cursor) && cursor == saved.cursor
    && (forall k :: FirstToHold(outgoing, routed, k) ==>
          OnlyTheNode(id, output, retries, m, trace, m', trace') && cursor == Some(outgoing[k].target))
    && (NoneHolds(outgoing, routed) ==>
          exists targets, at :: AreTargets(outgoing, targets, at)
            && PlainLeaves(w, targets, id, output, retries, t, m, trace, m', trace', cursor))
  }

  lemma NextNodesAreNodes(w: Workflow, id: string, output: Output)
    requires WellFormed(w.nodes, w.edges)
    ensures forall j :: 0 <= j < |NextNodes(w.edges, id, output)| ==> NextNodes(w.edges, id, output)[j] in NodeIds(w.nodes)
  {
    var outgoing := OutgoingEdges(w.edges, id);
    var k := SomeOrNoneHolds(outgoing, output);
    if FirstToHold(outgoing, output, k) {
      FirstMatchIs(outgoing, output, k);
      assert outgoing[k] in outgoing;
      var i :| 0 <= i < |w.edges| && w.edges[i] == outgoing[k];
      assert SoundEdge(w.nodes, w.edges[i]);
      assert NextNodes(w.edges, id, output) == [outgoing[k].target];
    } else {
      NoMatchIs(outgoing, output);
      TargetsAreNodes(w, id);
      assert NextNodes(w.edges, id, output) == Targets(w.edges, id);
    }
  }

  lemma JoinIsNode(w: Workflow, branches: seq<string>, pick: string)
    requires WellFormed(w.nodes, w.edges) && JoinNode(w.edges, branches, pick).Some?
    ensures JoinNode(w.edges, branches, pick).value in NodeIds(w.nodes)
  {
    JoinNodeJoins(w.edges, branches, pick);
    assert HasPlainEdge(w.edges, branches[0], JoinNode(w.edges, branches, pick).value);
    var i :| 0 <= i < |w.edges| && w.edges[i].target == JoinNode(w.edges, branches, pick).value;
    assert SoundEdge(w.nodes, w.edges[i]);
  }

  lemma AfterForkedSuccess(w: Workflow, c: Config, id: string, output: Output, retries: nat, t: Turn)
    requires WellFormed(w.nodes, w.edges) && |NextNodes(w.edges, id, Routed(output, t))| > 1
    ensures var n, next := AfterSuccess(w, c, id, output, retries, t), NextNodes(w.edges, id, Routed(output, t));
      && BranchesLeave(next, t.fanOut, 0, c.state[id := output], c.trace + [TraceEntry(id, Succeeded, retries, None)], n.state, n.trace)
      && JoinsAt(w.edges, next, t.join, n.cursor)
      && n.saved == Some(Checkpoint(c.step + 1, id, n.state, n.cursor))
  {
    var next := NextNodes(w.edges, id, Routed(output, t));
    ForkedConfig(w, c, id, output, retries, t);
    NextNodesAreNodes(w, id, Routed(output, t));
    FanOutLeaves(w.nodes, next, t.fanOut, 0, c.state[id := output], c.trace + [TraceEntry(id, Succeeded, retries, None)]);
    JoinNodeJoins(w.edges, next, t.join);
    ResolvedJoin(w, next, t.join);
  }

  lemma ForkedConfig(w: Workflow, c: Config, id: string, output: Output, retries: nat, t: Turn)
    requires |NextNodes(w.edges, id, Routed(output, t))| > 1
    ensures var n, next := AfterSuccess(w, c, id, output, retries, t), NextNodes(w.edges, id, Routed(output, t));
      && (n.state, n.trace)
           == FanOut(w.nodes, next, t.fanOut, 0, c.state[id := output], c.trace + [TraceEntry(id, Succeeded, retries, None)])
      && n.cursor == Resolve(w.nodes, JoinNode(w.edges, next, t.join))
      && n.saved == Some(Checkpoint(c.step + 1, id, n.state, JoinNode(w.edges, next, t.join)))
  {}

  lemma ResolvedJoin(w: Workflow, branches: seq<string>, pick: string)
    requires WellFormed(w.nodes, w.edges)
    ensures Resolve(w.nodes, JoinNode(w.edges, branches, pick)) == JoinNode(w.edges, branches, pick)
  {
    if JoinNode(w.edges, branches, pick).Some? {
      JoinIsNode(w, branches, pick);
    }
  }

  lemma AfterSingleSuccess(w: Workflow, c: Config, id: string, output: Output, retries: nat, t: Turn)
    requires WellFormed(w.nodes, w.edges) && |NextNodes(w.edges, id, Routed(output, t))| <= 1
    ensures var n, next := AfterSuccess(w, c, id, output, retries, t), NextNodes(w.edges, id, Routed(output, t));
      && OnlyTheNode(id, output, retries, c.state, c.trace, n.state, n.trace) && n.cursor == First(next)
      && n.saved == Some(Checkpoint(c.step + 1, id, n.state, n.cursor))
  {
    NextNodesAreNodes(w, id, Routed(output, t));
  }

  /** On a valid workflow `AfterSuccess` leaves that. */
  lemma AfterSuccessLeaves(w: Workflow, c: Config, id: string, output: Output, retries: nat, t: Turn)
    requires WellFormed(w.nodes, w.edges)
    ensures var n := AfterSuccess(w, c, id, output, retries, t);
      n.saved.Some? && n.step == c.step + 1
      && SuccessLeaves(w, id, output, retries, t, c.step, c.state, c.trace, n.state, n.trace, n.saved.value, n.cursor)
  {
    var outgoing, next := OutgoingEdges(w.edges, id), NextNodes(w.edges, id, Routed(output, t));
    if |next| > 1 {
      AfterForkedSuccess(w, c, id, output, retries, t);
    } else {
      AfterSingleSuccess(w, c, id, output, retries, t);
    }
    var n := AfterSuccess(w, c, id, output, retries, t);
    RoutedSuccessLeaves(w, id, output, retries, t, c.step, c.state, c.trace, n.state, n.trace, n.saved.value, n.cursor);
  }

  lemma RoutedSuccessLeaves(w: Workflow, id: string, output: Output, retries: nat, t: Turn, step: nat, m: StateMap,
                            trace: seq<TraceEntry>, m': StateMap, trace': seq<TraceEntry>, saved: Checkpoint,
                            cursor: Option<string>)
    requires PlainLeaves(w, NextNodes(w.edges, id, Routed(output, t)), id, output, retries, t, m, trace, m', trace', cursor)
    requires saved == Checkpoint(step + 1, id, m', cursor)
    ensures SuccessLeaves(w, id, output, retries, t, step, m, trace, m', trace', saved, cursor)
  {
    var outgoing := OutgoingEdges(w.edges, id);
    forall k | FirstToHold(outgoing, Routed(output, t), k)
      ensures NextNodes(w.edges, id, Routed(output, t)) == [outgoing[k].target]
    {
      FirstConditionWins(w.edges, id, Routed(output, t), k);
    }
    if NoneHolds(outgoing, Routed(output, t)) {
      var at := OtherwiseUnconditional(w.edges, id, Routed(output, t));
    }
  }

  // ---------------------------------------------------------------------------
  // Failure
  // ---------------------------------------------------------------------------

  /** What a failure leaves in each mode. */
  ghost predicate FailureLeaves(w: Workflow, mode: FailureMode, id: string, error: string, retries: nat, m: StateMap,
                                trace: seq<TraceEntry>, m': StateMap, trace': seq<TraceEntry>, stopped: bool,
                                cursor: Option<string>) {
    match mode
    case Stop => stopped && m' == m && trace' == trace + [TraceEntry(id, Errored, retries, Some(error))]
    case Skip =>
      && !stopped && m' == m[id := map[]] && trace' == trace + [TraceEntry(id, Skipped, retries, Some(error))]
      && MovesTo(w.edges, id, map[], cursor)
    case RouteToError =>
      && !stopped && m' == m[id := map["__error__" := Str(error)]]
      && trace' == trace + [TraceEntry(id, Errored, retries, Some(error))]
      && MovesTo(w.edges, id, map["__error__" := Str(error)], cursor)
  }

  lemma ResolvedFirst(w: Workflow, id: string, output: Output)
    requires WellFormed(w.nodes, w.edges)
    ensures MovesTo(w.edges, id, output, Resolve(w.nodes, First(NextNodes(w.edges, id, output))))
  {
    NextNodesAreNodes(w, id, output);
    FirstOfNext(w.edges, id, output);
  }

  lemma AfterFailureLeaves(w: Workflow, p: Policy, c: Config, id: string, error: string, retries: nat)
    requires WellFormed(w.nodes, w.edges) && id in NodeIds(w.nodes)
    ensures match AfterFailure(w, p, c, id, error, retries)
      case Next(n) =>
        FailureLeaves(w, p.onFailure(NodeById(w.nodes, id)), id, error, retries, c.state, c.trace, n.state, n.trace, false, n.cursor)
      case Halt(Finished(status, m', trace')) =>
        && status == Failed(error)
        && FailureLeaves(w, p.onFailure(NodeById(w.nodes, id)), id, error, retries, c.state, c.trace, m', trace', true, None)
      case _ => false
  {
    ResolvedFirst(w, id, map[]);
    ResolvedFirst(w, id, map["__error__" := Str(error)]);
  }

  // ---------------------------------------------------------------------------
  // Passes
  // ---------------------------------------------------------------------------

  /** Nothing stops the pass before the node is executed. */
  ghost predicate GetsThrough(w: Workflow, p: Policy, c: Config, t: Turn) {
    && OnNode(w, c) && c.cursor.Some? && !t.pause && t.pre.Proceed?
    && VisitsOf(c.visits, c.cursor.value) < p.maxIterations && !AsksHuman(w, c.cursor.value)
  }

  /** A node that succeeds moves the run along its first conditional edge that holds, whatever other edges it has. */
  lemma SuccessTakesFirst(w: Workflow, p: Policy, c: Config, t: Turn, k: int)
    requires WellFormed(w.nodes, w.edges) && GetsThrough(w, p, c, t) && t.execution.Done?
    requires FirstToHold(OutgoingEdges(w.edges, c.cursor.value), Routed(t.execution.output, t), k)
    ensures Pass(w, p, c, t).Next?
    ensures var n, id := Pass(w, p, c, t).c, c.cursor.value;
      && n.cursor == Some(OutgoingEdges(w.edges, id)[k].target)
      && n.state == c.state[id := t.execution.output]
      && n.trace == c.trace + [TraceEntry(id, Succeeded, t.execution.retries, None)]
  {
    AfterSuccessLeaves(w, Visited(c, c.cursor.value), c.cursor.value, t.execution.output, t.execution.retries, t);
  }

  /** A node that fails is led by the error text to its first conditional edge, if that asks for just this text. */
  lemma ErrorIsRouted(w: Workflow, p: Policy, c: Config, t: Turn, k: int)
    requires WellFormed(w.nodes, w.edges) && GetsThrough(w, p, c, t) && t.execution.Broken? && !t.retryOnError
    requires p.onFailure(NodeById(w.nodes, c.cursor.value)) == RouteToError
    requires var outgoing := OutgoingEdges(w.edges, c.cursor.value);
      && 0 <= k < |outgoing| && outgoing[k].condition == Some(EdgeCondition("__error__", Eq, Str(t.execution.error)))
      && forall j :: 0 <= j < k ==> outgoing[j].condition == None
    ensures Pass(w, p, c, t).Next?
    ensures var n, id := Pass(w, p, c, t).c, c.cursor.value;
      && n.cursor == Some(OutgoingEdges(w.edges, id)[k].target)
      && n.state == c.state[id := map["__error__" := Str(t.execution.error)]]
      && n.trace == c.trace + [TraceEntry(id, Errored, t.execution.retries, Some(t.execution.error))]
  {
    var id := c.cursor.value;
    AfterFailureLeaves(w, p, Visited(c, id), id, t.execution.error, t.execution.retries);
    assert FirstToHold(OutgoingEdges(w.edges, id), map["__error__" := Str(t.execution.error)], k);
  }
}
