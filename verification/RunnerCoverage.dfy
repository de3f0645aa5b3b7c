/** Which nodes a run executes: all that are reachable, exactly if the fan-outs of the workflow allow it
    (engine/src/core/runner/graph_runner.rs). */
module RunnerCoverage {
  import opened Basics
  import opened Graph
  import opened State
  import opened Runner
  import opened RunnerSafety
  import opened RunnerPrefix
  import opened RunnerAcyclic

  /** A pass on which nothing gets in the way: no pause, hook or failure. What the hook after a node makes of the
      output, what comes of the branches of a fan-out and which join is picked are left open. */
  predicate Smooth(t: Turn) {
    !t.pause && t.pre.Proceed? && t.execution.Done?
  }

  ghost predicate AllSmooth(turns: nat -> Turn) {
    forall i :: Smooth(turns(i))
  }

  predicate NoHumanNodes(nodes: seq<NodeDef>) {
    forall i :: 0 <= i < |nodes| ==> nodes[i].toolType != HUMAN_INPUT_TOOL
  }

  predicate Unconditional(edges: seq<EdgeDef>) {
    forall i :: 0 <= i < |edges| ==> edges[i].condition == None
  }

  // ---------------------------------------------------------------------------
  // Reachability along targets
  // ---------------------------------------------------------------------------

  lemma {:induction false} PathConcat(edges: seq<EdgeDef>, a: string, b: string, c: string, first: seq<EdgeDef>, second: seq<EdgeDef>)
    requires IsPath(edges, a, b, first) && IsPath(edges, b, c, second)
    ensures IsPath(edges, a, c, first + second)
    decreases |first|
  {
    if first == [] {
      assert first + second == second;
    } else {
      assert (first + second)[1..] == first[1..] + second;
      PathConcat(edges, first[0].target, b, c, first[1..], second);
    }
  }

  lemma ReachableThrough(edges: seq<EdgeDef>, a: string, b: string, c: string)
    requires Reachable(edges, a, b) && Reachable(edges, b, c)
    ensures Reachable(edges, a, c)
  {
    var first: seq<EdgeDef> :| IsPath(edges, a, b, first);
    var second: seq<EdgeDef> :| IsPath(edges, b, c, second);
    PathConcat(edges, a, b, c, first, second);
  }

  lemma TargetIsReachable(edges: seq<EdgeDef>, a: string, q: string)
    requires q in Targets(edges, a)
    ensures Reachable(edges, a, q)
  {
    UnconditionalTargetsComeFromEdges(OutgoingEdges(edges, a), q);
    var e :| e in OutgoingEdges(edges, a) && e.target == q;
    assert [e][1..] == [];
    assert IsPath(edges, q, q, []) && IsPath(edges, a, q, [e]);
  }

  /** The first edge of a path leads to a target, if edges have no conditions. */
  lemma FirstStepIsTarget(edges: seq<EdgeDef>, a: string, b: string, path: seq<EdgeDef>)
    requires Unconditional(edges) && IsPath(edges, a, b, path) && path != []
    ensures path[0].target in Targets(edges, a) && IsPath(edges, path[0].target, b, path[1..])
  {
    assert path[0] in edges && path[0].source == a;
    var i :| 0 <= i < |edges| && edges[i] == path[0];
    TargetHasEdge(edges, a, path[0].target);
  }

  /** Where unconditional edges lead is the node itself and where they lead from its targets. */
  lemma ReachableViaTargets(edges: seq<EdgeDef>, a: string, b: string)
    requires Unconditional(edges)
    ensures Reachable(edges, a, b) <==> a == b || exists q :: q in Targets(edges, a) && Reachable(edges, q, b)
  {
    if Reachable(edges, a, b) && a != b {
      var path: seq<EdgeDef> :| IsPath(edges, a, b, path);
      FirstStepIsTarget(edges, a, b, path);
    }
    if a == b {
      assert IsPath(edges, a, b, []);
    }
    forall q | q in Targets(edges, a) && Reachable(edges, q, b)
      ensures Reachable(edges, a, b)
    {
      TargetIsReachable(edges, a, q);
      ReachableThrough(edges, a, q, b);
    }
  }

  // ---------------------------------------------------------------------------
  // Covered fan-outs
  // ---------------------------------------------------------------------------

  /** Every join candidate of the branches, of which there is one, leads to `s`. */
  ghost predicate AllJoinsReach(edges: seq<EdgeDef>, next: seq<string>, s: string) {
    JoinCandidates(edges, next) != {} && forall j :: j in JoinCandidates(edges, next) ==> Reachable(edges, j, s)
  }

  /** Whatever the branches lead to is a branch itself or lies behind every join. */
  ghost predicate Covered(edges: seq<EdgeDef>, next: seq<string>) {
    forall q, s :: q in next && s in Targets(edges, q) ==> s in next || AllJoinsReach(edges, next, s)
  }

  /** All fan-outs of the workflow are covered. */
  ghost predicate FanOutsCovered(w: Workflow) {
    forall u :: u in NodeIds(w.nodes) && |Targets(w.edges, u)| > 1 ==> Covered(w.edges, Targets(w.edges, u))
  }

  /** Behind a covered fan-out everything is a branch or lies behind the join, whichever it is. */
  lemma {:induction false} BehindBranches(edges: seq<EdgeDef>, next: seq<string>, q: string, y: string, path: seq<EdgeDef>)
    requires Unconditional(edges) && Covered(edges, next)
    requires q in next && IsPath(edges, q, y, path)
    ensures y in next || AllJoinsReach(edges, next, y)
    decreases |path|
  {
    if path != [] {
      FirstStepIsTarget(edges, q, y, path);
      var s := path[0].target;
      if s in next {
        BehindBranches(edges, next, s, y, path[1..]);
      } else {
        forall j | j in JoinCandidates(edges, next)
          ensures Reachable(edges, j, y)
        {
          ReachableThrough(edges, j, s, y);
        }
      }
    }
  }

  /** The node that a run goes on with, if the environment picks the join. */
  function GoesOnWith(edges: seq<EdgeDef>, id: string, pick: string): Option<string> {
    var next := Targets(edges, id);
    if |next| > 1 then JoinNode(edges, next, pick) else First(next)
  }

  /** A smooth pass over node `id` traces `x`: it is the node, or a branch it fans out to. */
  predicate TracedOnPass(edges: seq<EdgeDef>, id: string, x: string) {
    x == id || (|Targets(edges, id)| > 1 && x in Targets(edges, id))
  }

  lemma NextIsReachable(edges: seq<EdgeDef>, id: string, pick: string, x: string)
    requires Unconditional(edges)
    requires TracedOnPass(edges, id, x) || GoesOnWith(edges, id, pick) == Some(x)
    ensures Reachable(edges, id, x)
  {
    var next := Targets(edges, id);
    if x == id {
      assert IsPath(edges, id, id, []);
    } else if x in next {
      TargetIsReachable(edges, id, x);
    } else {
      TargetIsReachable(edges, id, next[0]);
      TargetIsReachable(edges, next[0], x);
      ReachableThrough(edges, id, next[0], x);
    }
  }

  /** Where covered fan-outs lead is what the pass traces and what lies behind the node it goes on with. */
  lemma PassesCover(edges: seq<EdgeDef>, id: string, pick: string, x: string)
    requires Unconditional(edges)
    requires |Targets(edges, id)| > 1 ==> Covered(edges, Targets(edges, id))
    ensures Reachable(edges, id, x)
       <==> TracedOnPass(edges, id, x)
            || (GoesOnWith(edges, id, pick).Some? && Reachable(edges, GoesOnWith(edges, id, pick).value, x))
  {
    var next, later := Targets(edges, id), GoesOnWith(edges, id, pick);
    if later.Some? && Reachable(edges, later.value, x) {
      NextIsReachable(edges, id, pick, later.value);
      ReachableThrough(edges, id, later.value, x);
    }
    if TracedOnPass(edges, id, x) {
      NextIsReachable(edges, id, pick, x);
    }
    if Reachable(edges, id, x) && x != id {
      ReachableViaTargets(edges, id, x);
      var q :| q in next && Reachable(edges, q, x);
      var path: seq<EdgeDef> :| IsPath(edges, q, x, path);
      if |next| > 1 {
        BehindBranches(edges, next, q, x, path);
      }
    }
  }

  // ---------------------------------------------------------------------------
  // What a pass traces
  // ---------------------------------------------------------------------------

  /** The trace from position `from` on has an entry for the node. */
  ghost predicate TracedFrom(trace: seq<TraceEntry>, from: nat, id: string) {
    exists i :: from <= i < |trace| && trace[i].nodeId == id
  }

  lemma NothingMatches(outgoing: seq<EdgeDef>, output: Output)
    requires Unconditional(outgoing)
    ensures FirstMatch(outgoing, output) == None
  {}

  lemma NextAreTargets(edges: seq<EdgeDef>, id: string, output: Output)
    requires Unconditional(edges)
    ensures NextNodes(edges, id, output) == Targets(edges, id)
  {
    var outgoing := OutgoingEdges(edges, id);
    forall i | 0 <= i < |outgoing|
      ensures outgoing[i].condition == None
    {
      assert outgoing[i] in outgoing;
      var k :| 0 <= k < |edges| && edges[k] == outgoing[i];
    }
    NothingMatches(outgoing, output);
  }

  lemma GoesOnWithNode(w: Workflow, id: string, pick: string)
    requires WellFormed(w.nodes, w.edges)
    ensures Resolve(w.nodes, GoesOnWith(w.edges, id, pick)) == GoesOnWith(w.edges, id, pick)
  {
    var next, later := Targets(w.edges, id), GoesOnWith(w.edges, id, pick);
    TargetsAreNodes(w, id);
    if |next| > 1 && later.Some? {
      assert InAllTargets(w.edges, next, later.value);
      assert later.value in Targets(w.edges, next[0]);
      TargetsAreNodes(w, next[0]);
    }
  }

  lemma IdsTraced(early: seq<TraceEntry>, late: seq<TraceEntry>, ids: seq<string>, x: string)
    requires early <= late && Ids(late) == Ids(early) + ids
    ensures TracedFrom(late, |early|, x) <==> x in ids
  {
    assert forall i :: 0 <= i < |ids| ==> late[|early| + i].nodeId == Ids(late)[|early| + i] == ids[i];
    assert forall i :: |early| <= i < |late| ==> late[i].nodeId == ids[i - |early|];
  }

  lemma {:induction false} FanOutExtends(nodes: seq<NodeDef>, parallel: seq<string>, results: nat -> Execution, i: nat,
                                         state: StateMap, trace: seq<TraceEntry>)
    ensures trace <= FanOut(nodes, parallel, results, i, state, trace).1
    decreases |parallel| - i
  {
    if i < |parallel| {
      if parallel[i] !in NodeIds(nodes) {
        FanOutExtends(nodes, parallel, results, i + 1, state, trace);
      } else {
        match results(i)
        case Done(output, _) =>
          FanOutExtends(nodes, parallel, results, i + 1, state[parallel[i] := output], trace + [TraceEntry(parallel[i], Succeeded, 0, None)]);
        case Broken(error, _) =>
          FanOutExtends(nodes, parallel, results, i + 1, state, trace + [TraceEntry(parallel[i], Errored, 0, Some(error))]);
      }
    }
  }

  /** The ids that a smooth pass over a node traces. */
  function PassIds(edges: seq<EdgeDef>, id: string): seq<string> {
    [id] + if |Targets(edges, id)| > 1 then Targets(edges, id) else []
  }

  /** What a success adds to the trace, and where the run goes on. */
  lemma SuccessTraces(w: Workflow, c: Config, id: string, output: Output, retries: nat, t: Turn)
    requires WellFormed(w.nodes, w.edges) && Unconditional(w.edges)
    ensures var n := AfterSuccess(w, c, id, output, retries, t);
      && n.cursor == GoesOnWith(w.edges, id, t.join)
      && c.trace <= n.trace && Ids(n.trace) == Ids(c.trace) + PassIds(w.edges, id)
  {
    var next := Targets(w.edges, id);
    NextAreTargets(w.edges, id, if t.hookedOutput.Some? then t.hookedOutput.value else output);
    GoesOnWithNode(w, id, t.join);
    var e := TraceEntry(id, Succeeded, retries, None);
    if |next| > 1 {
      TargetsAreNodes(w, id);
      FanOutTraces(w.nodes, next, t.fanOut, c.state[id := output], c.trace, e);
    } else {
      assert Ids(c.trace + [e]) == Ids(c.trace) + [id];
    }
  }

  lemma FanOutTraces(nodes: seq<NodeDef>, parallel: seq<string>, results: nat -> Execution, state: StateMap,
                     trace: seq<TraceEntry>, e: TraceEntry)
    requires forall j :: 0 <= j < |parallel| ==> parallel[j] in NodeIds(nodes)
    ensures var after := FanOut(nodes, parallel, results, 0, state, trace + [e]).1;
      trace <= after && Ids(after) == Ids(trace) + ([e.nodeId] + parallel)
  {
    FanOutIds(nodes, parallel, results, 0, state, trace + [e]);
    FanOutExtends(nodes, parallel, results, 0, state, trace + [e]);
    IdsSnoc(trace, e);
    assert parallel[0..] == parallel;
    assert Ids(trace) + [e.nodeId] + parallel == Ids(trace) + ([e.nodeId] + parallel);
  }

  lemma IdsSnoc(trace: seq<TraceEntry>, e: TraceEntry)
    ensures Ids(trace + [e]) == Ids(trace) + [e.nodeId]
  {}

  /** A smooth pass is a success of the node under the cursor. */
  lemma SmoothPassSucceeds(w: Workflow, p: Policy, c: Config, t: Turn)
    requires OnNode(w, c) && c.cursor.Some? && Smooth(t) && VisitsOf(c.visits, c.cursor.value) < p.maxIterations
    requires !AsksHuman(w, c.cursor.value)
    ensures var id := c.cursor.value;
      Pass(w, p, c, t) == Next(AfterSuccess(w, Visited(c, id), id, t.execution.output, t.execution.retries, t))
  {}

  /** A smooth pass over unconditional edges: what it adds to the trace, and where it goes on. */
  lemma SmoothPass(w: Workflow, p: Policy, c: Config, t: Turn) returns (n: Config)
    requires WellFormed(w.nodes, w.edges) && Unconditional(w.edges) && NoHumanNodes(w.nodes)
    requires OnNode(w, c) && c.cursor.Some? && Smooth(t) && VisitsOf(c.visits, c.cursor.value) < p.maxIterations
    ensures Pass(w, p, c, t) == Next(n) && n.cursor == GoesOnWith(w.edges, c.cursor.value, t.join)
    ensures c.trace <= n.trace && Ids(n.trace) == Ids(c.trace) + PassIds(w.edges, c.cursor.value)
  {
    var id := c.cursor.value;
    assert !AsksHuman(w, id);
    SmoothPassSucceeds(w, p, c, t);
    SuccessTraces(w, Visited(c, id), id, t.execution.output, t.execution.retries, t);
    n := AfterSuccess(w, Visited(c, id), id, t.execution.output, t.execution.retries, t);
  }

  // ---------------------------------------------------------------------------
  // Covered workflows are executed completely
  // ---------------------------------------------------------------------------

  /** What a run from `c` that completes has added to the trace: the nodes reachable from the cursor. */
  ghost predicate RunsThrough(w: Workflow, c: Config, r: RunResult) {
    && r.Finished? && r.status == Completed
    && c.trace <= r.trace
    && (forall id :: TracedFrom(r.trace, |c.trace|, id) <==> c.cursor.Some? && Reachable(w.edges, c.cursor.value, id))
  }

  lemma TracedInParts(late: seq<TraceEntry>, from: nat, middle: seq<TraceEntry>, x: string)
    requires from <= |middle| && middle <= late
    ensures TracedFrom(late, from, x) <==> TracedFrom(middle, from, x) || TracedFrom(late, |middle|, x)
  {
    if TracedFrom(middle, from, x) {
      var i :| from <= i < |middle| && middle[i].nodeId == x;
      assert late[i] == middle[i];
    }
    if TracedFrom(late, from, x) {
      var i :| from <= i < |late| && late[i].nodeId == x;
      assert i < |middle| ==> middle[i] == late[i];
    }
  }

  lemma RunsThroughStep(w: Workflow, c: Config, pick: string, n: Config, r: RunResult)
    requires Unconditional(w.edges) && FanOutsCovered(w) && OnNode(w, c) && c.cursor.Some?
    requires c.trace <= n.trace && Ids(n.trace) == Ids(c.trace) + PassIds(w.edges, c.cursor.value)
    requires n.cursor == GoesOnWith(w.edges, c.cursor.value, pick) && RunsThrough(w, n, r)
    ensures RunsThrough(w, c, r)
  {
    forall x
      ensures TracedFrom(r.trace, |c.trace|, x) <==> Reachable(w.edges, c.cursor.value, x)
    {
      IdsTraced(c.trace, n.trace, PassIds(w.edges, c.cursor.value), x);
      TracedInParts(r.trace, |c.trace|, n.trace, x);
      PassesCover(w.edges, c.cursor.value, pick, x);
      assert TracedFrom(r.trace, |n.trace|, x) <==> n.cursor.Some? && Reachable(w.edges, n.cursor.value, x);
    }
  }

  lemma {:induction false} CoveredRunsThrough(w: Workflow, p: Policy, rank: string -> nat, c: Config, turns: nat -> Turn, k: nat)
    requires WellFormed(w.nodes, w.edges) && Unconditional(w.edges) && NoHumanNodes(w.nodes) && Ranked(w.edges, rank)
    requires FanOutsCovered(w) && AllSmooth(turns)
    requires OnNode(w, c) && VisitsBelow(rank, c) && p.maxIterations >= 1
    ensures RunsThrough(w, c, Run(w, p, c, turns, k))
    decreases Budget(w.nodes, c.visits, p.maxIterations)
  {
    if c.cursor.Some? {
      var t := turns(k);
      assert Smooth(t) && c.cursor.value !in c.visits;
      var n := SmoothPass(w, p, c, t);
      var n' := RunStep(w, p, c, turns, k);
      VisitsStayBelow(w, rank, c, n, t.join);
      CoveredRunsThrough(w, p, rank, n, turns, k + 1);
      RunsThroughStep(w, c, t.join, n, Run(w, p, n, turns, k + 1));
    }
  }

  lemma VisitsStayBelow(w: Workflow, rank: string -> nat, c: Config, n: Config, pick: string)
    requires Ranked(w.edges, rank) && VisitsBelow(rank, c) && c.cursor.Some?
    requires n.visits == c.visits[c.cursor.value := VisitsOf(c.visits, c.cursor.value) + 1]
    requires n.cursor == GoesOnWith(w.edges, c.cursor.value, pick)
    ensures VisitsBelow(rank, n)
  {
    if n.cursor.Some? {
      GoesOnHigher(w.edges, rank, c.cursor.value, pick);
    }
  }

  lemma TargetRanksHigher(edges: seq<EdgeDef>, rank: string -> nat, id: string, x: string)
    requires Ranked(edges, rank) && x in Targets(edges, id)
    ensures rank(id) < rank(x)
  {
    TargetHasEdge(edges, id, x);
  }

  lemma GoesOnHigher(edges: seq<EdgeDef>, rank: string -> nat, id: string, pick: string)
    requires Ranked(edges, rank) && GoesOnWith(edges, id, pick).Some?
    ensures rank(id) < rank(GoesOnWith(edges, id, pick).value)
  {
    var next := Targets(edges, id);
    TargetRanksHigher(edges, rank, id, next[0]);
    if |next| > 1 {
      JoinRanksHigher(edges, rank, next, pick);
    }
  }

  // ---------------------------------------------------------------------------
  // Workflows that are executed completely are covered
  // ---------------------------------------------------------------------------

  /** What a run adds to the trace is reachable from its cursor. */
  lemma NewTracesAreReachable(w: Workflow, p: Policy, c: Config, turns: nat -> Turn, k: nat, x: string)
    requires OnNode(w, c) && Run(w, p, c, turns, k).Finished?
    requires TracedFrom(Run(w, p, c, turns, k).trace, |c.trace|, x)
    ensures c.cursor.Some? && Reachable(w.edges, c.cursor.value, x)
  {
    var anew := c.(trace := [], visits := map[]);
    RunFromSamePoint(w, p, c, anew, c.trace, turns, k);
    var r, late := Run(w, p, c, turns, k), Run(w, p, anew, turns, k);
    var i :| |c.trace| <= i < |r.trace| && r.trace[i].nodeId == x;
    assert r.trace[i] == late.trace[i - |c.trace|];
    TracesAreReachable(w, p, anew, turns, k, i - |c.trace|);
  }

  lemma TracesAreReachable(w: Workflow, p: Policy, c: Config, turns: nat -> Turn, k: nat, i: nat)
    requires OnNode(w, c) && c.trace == [] && Run(w, p, c, turns, k).Finished? && i < |Run(w, p, c, turns, k).trace|
    ensures c.cursor.Some? && Reachable(w.edges, c.cursor.value, Run(w, p, c, turns, k).trace[i].nodeId)
  {
    if c.cursor.Some? {
      assert IsPath(w.edges, c.cursor.value, c.cursor.value, []);
      RunIsConfined(w, p, c.cursor.value, c.state, c, turns, k);
    }
  }

  /** Nothing gets in the way, nothing is put out, and the join is picked if it can be. */
  function Picking(pick: string): nat -> Turn {
    k => QuietTurn().(join := pick)
  }

  /** Every smooth run, wherever it is entered, completes and traces exactly the nodes reachable from there. */
  ghost predicate AlwaysRunsThrough(w: Workflow, p: Policy) {
    forall entry: string, initial: StateMap, turns: nat -> Turn :: entry in NodeIds(w.nodes) && AllSmooth(turns) ==>
      RunsThrough(w, Begin(w, entry, initial), Run(w, p, Begin(w, entry, initial), turns, 0))
  }

  /** What lies behind a branch and is none itself is only executed if it lies behind the join that is picked. */
  lemma StrandedUnlessJoined(w: Workflow, p: Policy, rank: string -> nat, u: string, q: string, s: string, pick: string)
    requires WellFormed(w.nodes, w.edges) && Unconditional(w.edges) && NoHumanNodes(w.nodes) && Ranked(w.edges, rank)
    requires p.maxIterations >= 1 && AlwaysRunsThrough(w, p)
    requires u in NodeIds(w.nodes) && |Targets(w.edges, u)| > 1
    requires q in Targets(w.edges, u) && s in Targets(w.edges, q) && s !in Targets(w.edges, u)
    ensures var later := GoesOnWith(w.edges, u, pick); later.Some? && Reachable(w.edges, later.value, s)
  {
    var c, turns := Begin(w, u, map[]), Picking(pick);
    TargetRanksHigher(w.edges, rank, u, q);
    TargetRanksHigher(w.edges, rank, q, s);
    TargetIsReachable(w.edges, u, q);
    TargetIsReachable(w.edges, q, s);
    ReachableThrough(w.edges, u, q, s);
    assert AllSmooth(turns);
    assert RunsThrough(w, c, Run(w, p, c, turns, 0));
    TracedLater(w, p, c, turns, s);
  }

  /** What a smooth run traces is traced on its first pass, or lies behind where it goes on. */
  lemma TracedLater(w: Workflow, p: Policy, c: Config, turns: nat -> Turn, s: string)
    requires WellFormed(w.nodes, w.edges) && Unconditional(w.edges) && NoHumanNodes(w.nodes)
    requires OnNode(w, c) && c.cursor.Some? && c.visits == map[] && p.maxIterations >= 1 && Smooth(turns(0))
    requires Run(w, p, c, turns, 0).Finished? && TracedFrom(Run(w, p, c, turns, 0).trace, |c.trace|, s)
    requires !TracedOnPass(w.edges, c.cursor.value, s)
    ensures var later := GoesOnWith(w.edges, c.cursor.value, turns(0).join); later.Some? && Reachable(w.edges, later.value, s)
  {
    var n := SmoothPass(w, p, c, turns(0));
    var n' := RunStep(w, p, c, turns, 0);
    RunExtendsTrace(w, p, n, turns, 1);
    IdsTraced(c.trace, n.trace, PassIds(w.edges, c.cursor.value), s);
    TracedInParts(Run(w, p, c, turns, 0).trace, |c.trace|, n.trace, s);
    NewTracesAreReachable(w, p, n, turns, 1, s);
  }

  lemma RunningThroughCovers(w: Workflow, p: Policy, rank: string -> nat, u: string)
    requires WellFormed(w.nodes, w.edges) && Unconditional(w.edges) && NoHumanNodes(w.nodes) && Ranked(w.edges, rank)
    requires p.maxIterations >= 1 && AlwaysRunsThrough(w, p)
    requires u in NodeIds(w.nodes) && |Targets(w.edges, u)| > 1
    ensures Covered(w.edges, Targets(w.edges, u))
  {
    var next := Targets(w.edges, u);
    forall q, s | q in next && s in Targets(w.edges, q) && s !in next
      ensures AllJoinsReach(w.edges, next, s)
    {
      StrandedUnlessJoined(w, p, rank, u, q, s, "");
      forall j | j in JoinCandidates(w.edges, next)
        ensures Reachable(w.edges, j, s)
      {
        StrandedUnlessJoined(w, p, rank, u, q, s, j);
      }
    }
  }

  /** An acyclic workflow without conditions and questions to humans is executed completely by every smooth run, wherever
      it is entered, exactly if all its fan-outs are covered. */
  lemma RunsThroughIffCovered(w: Workflow, p: Policy, rank: string -> nat)
    requires WellFormed(w.nodes, w.edges) && Unconditional(w.edges) && NoHumanNodes(w.nodes) && Ranked(w.edges, rank)
    requires p.maxIterations >= 1
    ensures AlwaysRunsThrough(w, p) <==> FanOutsCovered(w)
  {
    if FanOutsCovered(w) {
      forall entry: string, initial: StateMap, turns: nat -> Turn | entry in NodeIds(w.nodes) && AllSmooth(turns)
        ensures RunsThrough(w, Begin(w, entry, initial), Run(w, p, Begin(w, entry, initial), turns, 0))
      {
        CoveredRunsThrough(w, p, rank, Begin(w, entry, initial), turns, 0);
      }
    }
    if AlwaysRunsThrough(w, p) {
      forall u | u in NodeIds(w.nodes) && |Targets(w.edges, u)| > 1
        ensures Covered(w.edges, Targets(w.edges, u))
      {
        RunningThroughCovers(w, p, rank, u);
      }
    }
  }
}
