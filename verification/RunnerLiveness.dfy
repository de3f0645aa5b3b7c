/** Workflows that are executed completely, and some that are not (engine/src/core/runner/graph_runner.rs). */
module RunnerLiveness {
  import opened Basics
  import opened Graph
  import opened State
  import opened Runner
  import opened RunnerAcyclic
  import opened RunnerCoverage

  // ---------------------------------------------------------------------------
  // Smooth runs succeed
  // ---------------------------------------------------------------------------

  predicate AllSucceeded(trace: seq<TraceEntry>) {
    forall i :: 0 <= i < |trace| ==> trace[i].status == Succeeded
  }

  ghost predicate NoFanOuts(edges: seq<EdgeDef>) {
    forall u :: |Targets(edges, u)| <= 1
  }

  ghost predicate BranchesSucceed(turns: nat -> Turn) {
    forall i, j :: turns(i).fanOut(j).Done?
  }

  lemma {:induction false} FanOutSucceeds(nodes: seq<NodeDef>, parallel: seq<string>, results: nat -> Execution, i: nat,
                                          state: StateMap, trace: seq<TraceEntry>)
    requires AllSucceeded(trace) && forall j :: results(j).Done?
    ensures AllSucceeded(FanOut(nodes, parallel, results, i, state, trace).1)
    decreases |parallel| - i
  {
    if i < |parallel| {
      if parallel[i] !in NodeIds(nodes) {
        FanOutSucceeds(nodes, parallel, results, i + 1, state, trace);
      } else {
        FanOutSucceeds(nodes, parallel, results, i + 1, state[parallel[i] := results(i).output],
                       trace + [TraceEntry(parallel[i], Succeeded, 0, None)]);
      }
    }
  }

  /** What a smooth run traces has succeeded, unless a branch of a fan-out fails. */
  lemma {:induction false} SmoothRunsSucceed(w: Workflow, p: Policy, c: Config, turns: nat -> Turn, k: nat)
    requires OnNode(w, c) && AllSucceeded(c.trace) && AllSmooth(turns) && NoHumanNodes(w.nodes) && Unconditional(w.edges)
    requires NoFanOuts(w.edges) || BranchesSucceed(turns)
    ensures Run(w, p, c, turns, k).Finished? ==> AllSucceeded(Run(w, p, c, turns, k).trace)
    decreases Budget(w.nodes, c.visits, p.maxIterations)
  {
    if c.cursor.Some? && VisitsOf(c.visits, c.cursor.value) < p.maxIterations {
      var t, id := turns(k), c.cursor.value;
      assert Smooth(t) && !AsksHuman(w, id);
      SmoothPassSucceeds(w, p, c, t);
      NextAreTargets(w.edges, id, if t.hookedOutput.Some? then t.hookedOutput.value else t.execution.output);
      if |Targets(w.edges, id)| > 1 {
        FanOutSucceeds(w.nodes, Targets(w.edges, id), t.fanOut, 0, c.state[id := t.execution.output],
                       c.trace + [TraceEntry(id, Succeeded, t.execution.retries, None)]);
      }
      var n := RunStep(w, p, c, turns, k);
      SmoothRunsSucceed(w, p, n, turns, k + 1);
    } else if c.cursor.Some? {
      assert Smooth(turns(k));
    }
  }

  // ---------------------------------------------------------------------------
  // Chains are executed completely
  // ---------------------------------------------------------------------------

  /** Every node has at most one outgoing edge, and all edges are unconditional. */
  predicate Chained(edges: seq<EdgeDef>) {
    Unconditional(edges) && forall i, j :: 0 <= i < j < |edges| ==> edges[i].source != edges[j].source
  }

  lemma {:induction false} ChainsHaveNoFanOuts(edges: seq<EdgeDef>, id: string)
    requires Chained(edges)
    ensures |Targets(edges, id)| <= 1
  {
    if edges != [] {
      assert forall i :: 0 <= i < |edges[1..]| ==> edges[1..][i] == edges[i + 1];
      ChainsHaveNoFanOuts(edges[1..], id);
      TargetsAfterFirst(edges, id);
      if edges[0].source == id {
        NoTargetsWithoutEdges(edges[1..], id);
      }
    }
  }

  lemma NoTargetsWithoutEdges(edges: seq<EdgeDef>, id: string)
    requires forall i :: 0 <= i < |edges| ==> edges[i].source != id
    ensures Targets(edges, id) == []
  {
    if edges != [] {
      TargetsAfterFirst(edges, id);
      assert forall i :: 0 <= i < |edges[1..]| ==> edges[1..][i] == edges[i + 1];
      NoTargetsWithoutEdges(edges[1..], id);
    }
  }

  /** An acyclic chain is executed completely: without pauses, vetoes and failures the nodes traced are exactly those
      reachable from the entry, each once and successfully. */
  lemma ChainsAreExecutedCompletely(w: Workflow, p: Policy, rank: string -> nat, entry: string, initial: StateMap,
                                    turns: nat -> Turn)
    requires WellFormed(w.nodes, w.edges) && Chained(w.edges) && NoHumanNodes(w.nodes) && Ranked(w.edges, rank)
    requires entry in NodeIds(w.nodes) && p.maxIterations >= 1
    requires forall i :: Smooth(turns(i))
    ensures var r := Run(w, p, Begin(w, entry, initial), turns, 0);
      && r.Finished? && r.status == Completed && DistinctTrace(r.trace)
      && (forall i :: 0 <= i < |r.trace| ==> r.trace[i].status == Succeeded)
      && (forall id :: TracedFrom(r.trace, 0, id) <==> Reachable(w.edges, entry, id))
  {
    ChainsAreCovered(w);
    var c := Begin(w, entry, initial);
    CoveredRunsThrough(w, p, rank, c, turns, 0);
    SmoothRunsSucceed(w, p, c, turns, 0);
    ChainsHaveNoParallelEdges(w);
    AcyclicWorkflowsTraceOnce(w, p, rank, entry, initial, turns);
  }

  lemma ChainsAreCovered(w: Workflow)
    requires Chained(w.edges)
    ensures NoFanOuts(w.edges) && FanOutsCovered(w)
  {
    forall u
      ensures |Targets(w.edges, u)| <= 1
    {
      ChainsHaveNoFanOuts(w.edges, u);
    }
  }

  lemma ChainsHaveNoParallelEdges(w: Workflow)
    requires Chained(w.edges)
    ensures NoParallelEdges(w)
  {}

  // ---------------------------------------------------------------------------
  // Fan-outs may leave nodes out, or execute them twice
  // ---------------------------------------------------------------------------

  /** A run whose first node fans out to nodes without a common successor ends after these. */
  lemma FanOutEndsRun(w: Workflow, p: Policy, entry: string, initial: StateMap, turns: nat -> Turn, parallel: seq<string>)
    requires entry in NodeIds(w.nodes) && !AsksHuman(w, entry) && p.maxIterations >= 1 && Smooth(turns(0))
    requires forall output :: NextNodes(w.edges, entry, output) == parallel
    requires |parallel| > 1 && JoinCandidates(w.edges, parallel) == {}
    ensures var t := turns(0);
      var (state, trace) := FanOut(w.nodes, parallel, t.fanOut, 0, initial[entry := t.execution.output],
                                   [TraceEntry(entry, Succeeded, t.execution.retries, None)]);
      Run(w, p, Begin(w, entry, initial), turns, 0) == Finished(Completed, state, trace)
  {
    var t, c := turns(0), Begin(w, entry, initial);
    var routed := if t.hookedOutput.Some? then t.hookedOutput.value else t.execution.output;
    assert NextNodes(w.edges, entry, routed) == parallel;
    assert [] + [TraceEntry(entry, Succeeded, t.execution.retries, None)] == [TraceEntry(entry, Succeeded, t.execution.retries, None)];
    assert Pass(w, p, c, t).Next? && Pass(w, p, c, t).c.cursor == None;
  }

  function Node(id: string): NodeDef {
    NodeDef(id, "tool", "1.0.0", map[], None)
  }

  function Edge(id: string, source: string, target: string): EdgeDef {
    EdgeDef(id, source, target, None, None)
  }

  // ---------------------------------------------------------------------------
  // Two workflows
  // ---------------------------------------------------------------------------

  /** The edge itself, if it leaves the node. */
  function IfLeaves(e: EdgeDef, id: string): seq<EdgeDef> {
    if e.source == id then [e] else []
  }

  /** What leaves a node, edge by edge. */
  lemma OutgoingOfList(e: EdgeDef, rest: seq<EdgeDef>, id: string)
    ensures OutgoingEdges([e] + rest, id) == IfLeaves(e, id) + OutgoingEdges(rest, id)
  {
    assert ([e] + rest)[1..] == rest;
  }

  lemma OutgoingOfTwo(e: EdgeDef, f: EdgeDef, id: string)
    ensures OutgoingEdges([e, f], id) == IfLeaves(e, id) + IfLeaves(f, id)
  {
    OutgoingOfList(e, [f], id);
    assert [e, f] == [e] + [f];
    assert [f][1..] == [];
  }

  lemma OutgoingOfThree(e: EdgeDef, f: EdgeDef, g: EdgeDef, id: string)
    ensures OutgoingEdges([e, f, g], id) == IfLeaves(e, id) + (IfLeaves(f, id) + IfLeaves(g, id))
  {
    OutgoingOfTwo(f, g, id);
    OutgoingOfList(e, [f, g], id);
    assert [e, f, g] == [e] + [f, g];
  }

  /** A node with two unconditional edges and no others leads to both their targets. */
  lemma NextOfTwo(edges: seq<EdgeDef>, id: string, e: EdgeDef, f: EdgeDef, output: Output)
    requires OutgoingEdges(edges, id) == [e, f] && e.condition == None && f.condition == None
    ensures NextNodes(edges, id, output) == [e.target, f.target]
  {
    assert [e, f][1..] == [f] && [f][1..] == [];
    assert FirstMatch([f], output) == None && UnconditionalTargets([f]) == [f.target];
  }

  lemma NoJoin(edges: seq<EdgeDef>, x: string, y: string)
    requires OutgoingEdges(edges, y) == []
    ensures JoinCandidates(edges, [x, y]) == {}
  {
    forall z
      ensures !InAllTargets(edges, [x, y], z)
    {
      assert [x, y][1] == y && z !in UnconditionalTargets(OutgoingEdges(edges, y));
    }
  }

  /** What the trace of every run is that begins with node "a" and finds all as it should be there. */
  ghost predicate AlwaysTraces(w: Workflow, ids: seq<string>) {
    forall p: Policy, initial: StateMap, turns: nat -> Turn :: p.maxIterations >= 1 && Smooth(turns(0)) ==>
      Ids(FinishedTrace(w, p, "a", initial, turns)) == ids
  }

  /** The trace of a whole run, if it finishes. */
  function FinishedTrace(w: Workflow, p: Policy, entry: string, initial: StateMap, turns: nat -> Turn): seq<TraceEntry> {
    var r := Run(w, p, Begin(w, entry, initial), turns, 0);
    if r.Finished? then r.trace else []
  }

  lemma ForkTraces(w: Workflow, e: EdgeDef, f: EdgeDef)
    requires "a" in NodeIds(w.nodes) && e.target in NodeIds(w.nodes) && f.target in NodeIds(w.nodes) && !AsksHuman(w, "a")
    requires OutgoingEdges(w.edges, "a") == [e, f] && e.condition == None && f.condition == None
    requires OutgoingEdges(w.edges, f.target) == []
    ensures AlwaysTraces(w, ["a", e.target, f.target])
  {
    forall p: Policy, initial: StateMap, turns: nat -> Turn | p.maxIterations >= 1 && Smooth(turns(0))
      ensures Ids(FinishedTrace(w, p, "a", initial, turns)) == ["a", e.target, f.target]
    {
      forall output
        ensures NextNodes(w.edges, "a", output) == [e.target, f.target]
      {
        NextOfTwo(w.edges, "a", e, f, output);
      }
      NoJoin(w.edges, e.target, f.target);
      var t := turns(0);
      FanOutEndsRun(w, p, "a", initial, turns, [e.target, f.target]);
      FanOutTraces(w.nodes, [e.target, f.target], t.fanOut, initial["a" := t.execution.output], [],
                   TraceEntry("a", Succeeded, t.execution.retries, None));
    }
  }

  /** Two unconditional edges to the same node execute and trace it twice, in whatever environment the first node
      succeeds. */
  lemma ParallelEdgesTraceTwice() returns (w: Workflow, rank: string -> nat)
    ensures WellFormed(w.nodes, w.edges) && Ranked(w.edges, rank)
    ensures AlwaysTraces(w, ["a", "b", "b"])
  {
    var e, f := Edge("e", "a", "b"), Edge("f", "a", "b");
    w := Workflow([Node("a"), Node("b")], [e, f]);
    rank := id => if id == "a" then 0 else 1;
    assert w.nodes[0].id in NodeIds(w.nodes) && w.nodes[1].id in NodeIds(w.nodes);
    OutgoingOfTwo(e, f, "a");
    OutgoingOfTwo(e, f, "b");
    ForkTraces(w, e, f);
  }

  /** "a" forks to "b" and "c", and "b" goes on to "d". */
  function Stranding(): Workflow {
    Workflow([Node("a"), Node("b"), Node("c"), Node("d")], [Edge("e", "a", "b"), Edge("f", "a", "c"), Edge("g", "b", "d")])
  }

  lemma StrandedIsReachable()
    ensures Reachable(Stranding().edges, "a", "d")
  {
    var e, f, g := Edge("e", "a", "b"), Edge("f", "a", "c"), Edge("g", "b", "d");
    OutgoingOfThree(e, f, g, "a");
    OutgoingOfThree(e, f, g, "b");
    assert [g][1..] == [] && [e, g][1..] == [g];
    assert IsPath(Stranding().edges, "d", "d", []);
    assert IsPath(Stranding().edges, "b", "d", [g]);
    assert IsPath(Stranding().edges, "a", "d", [e, g]);
  }

  lemma StrandingTraces()
    ensures AlwaysTraces(Stranding(), ["a", "b", "c"])
  {
    var e, f, g := Edge("e", "a", "b"), Edge("f", "a", "c"), Edge("g", "b", "d");
    var nodes := Stranding().nodes;
    assert nodes[0].id in NodeIds(nodes) && nodes[1].id in NodeIds(nodes) && nodes[2].id in NodeIds(nodes);
    OutgoingOfThree(e, f, g, "a");
    OutgoingOfThree(e, f, g, "c");
    ForkTraces(Stranding(), e, f);
  }

  /** A valid acyclic workflow in which a node that unconditional edges lead to is never executed, although every node
      before it succeeds: the branches have no join. */
  lemma FanOutCanStrand() returns (rank: string -> nat)
    ensures WellFormed(Stranding().nodes, Stranding().edges) && Ranked(Stranding().edges, rank)
    ensures Reachable(Stranding().edges, "a", "d") && AlwaysTraces(Stranding(), ["a", "b", "c"])
  {
    rank := StrandingIsSound();
    StrandedIsReachable();
    StrandingTraces();
  }

  lemma StrandingIsSound() returns (rank: string -> nat)
    ensures WellFormed(Stranding().nodes, Stranding().edges) && Ranked(Stranding().edges, rank)
  {
    StrandingIdsAreDistinct();
    StrandingEdgesAreSound();
    rank := id => if id == "a" then 0 else if id == "d" then 2 else 1;
  }

  lemma StrandingIdsAreDistinct()
    ensures DistinctNodeIds(Stranding().nodes) && DistinctEdgeIds(Stranding().edges)
  {}

  lemma StrandingEdgesAreSound()
    ensures forall i :: 0 <= i < |Stranding().edges| ==> SoundEdge(Stranding().nodes, Stranding().edges[i])
  {
    var nodes := Stranding().nodes;
    assert nodes[0].id in NodeIds(nodes) && nodes[1].id in NodeIds(nodes) && nodes[2].id in NodeIds(nodes)
        && nodes[3].id in NodeIds(nodes);
  }

  /** "a" forks to "b" and "c", which join at "d", and "b" also leads to "e". */
  function Rejoining(): Workflow {
    Workflow([Node("a"), Node("b"), Node("c"), Node("d"), Node("e")],
             [Edge("1", "a", "b"), Edge("2", "a", "c"), Edge("3", "b", "d"), Edge("4", "b", "e"), Edge("5", "c", "d")])
  }

  /** Where an edge leads if it leaves the node. */
  function TargetIfLeaves(e: EdgeDef, id: string): seq<string> {
    if e.source == id then [e.target] else []
  }

  lemma TargetsOfList(e: EdgeDef, rest: seq<EdgeDef>, id: string)
    requires e.condition == None
    ensures Targets([e] + rest, id) == TargetIfLeaves(e, id) + Targets(rest, id)
  {
    TargetsAfterFirst([e] + rest, id);
    assert ([e] + rest)[1..] == rest;
  }

  lemma TargetsOfFive(a: EdgeDef, b: EdgeDef, c: EdgeDef, d: EdgeDef, e: EdgeDef, id: string)
    requires Unconditional([a, b, c, d, e])
    ensures Targets([a, b, c, d, e], id)
         == TargetIfLeaves(a, id) + (TargetIfLeaves(b, id) + (TargetIfLeaves(c, id) + (TargetIfLeaves(d, id) + TargetIfLeaves(e, id))))
  {
    var all := [a, b, c, d, e];
    assert all[0] == a && all[1] == b && all[2] == c && all[3] == d && all[4] == e;
    assert all == [a] + [b, c, d, e];
    TargetsOfList(a, [b, c, d, e], id);
    assert [b, c, d, e] == [b] + [c, d, e];
    TargetsOfList(b, [c, d, e], id);
    assert [c, d, e] == [c] + [d, e];
    TargetsOfList(c, [d, e], id);
    TargetsOfTwo(d, e, id);
  }

  lemma TargetsOfTwo(d: EdgeDef, e: EdgeDef, id: string)
    requires d.condition == None && e.condition == None
    ensures Targets([d, e], id) == TargetIfLeaves(d, id) + TargetIfLeaves(e, id)
  {
    assert [d, e] == [d] + [e] && [e] == [e] + [];
    TargetsOfList(d, [e], id);
    TargetsOfList(e, [], id);
  }

  lemma RejoiningTargets(id: string)
    ensures Targets(Rejoining().edges, id)
         == if id == "a" then ["b", "c"] else if id == "b" then ["d", "e"] else if id == "c" then ["d"] else []
  {
    TargetsOfFive(Edge("1", "a", "b"), Edge("2", "a", "c"), Edge("3", "b", "d"), Edge("4", "b", "e"), Edge("5", "c", "d"), id);
  }

  lemma RejoiningIdsAreDistinct()
    ensures DistinctNodeIds(Rejoining().nodes) && DistinctEdgeIds(Rejoining().edges)
  {}

  lemma RejoiningEdgesAreSound()
    ensures "a" in NodeIds(Rejoining().nodes)
    ensures forall i :: 0 <= i < |Rejoining().edges| ==> SoundEdge(Rejoining().nodes, Rejoining().edges[i])
  {
    var nodes := Rejoining().nodes;
    assert nodes[0].id in NodeIds(nodes) && nodes[1].id in NodeIds(nodes) && nodes[2].id in NodeIds(nodes)
        && nodes[3].id in NodeIds(nodes) && nodes[4].id in NodeIds(nodes);
  }

  lemma RejoiningIsPlain()
    ensures Unconditional(Rejoining().edges) && NoHumanNodes(Rejoining().nodes)
  {}

  lemma RejoiningIsRanked() returns (rank: string -> nat)
    ensures Ranked(Rejoining().edges, rank)
  {
    rank := id => if id == "a" then 0 else if id == "b" || id == "c" then 1 else 2;
  }

  /** What one branch leads to and the join does not is not covered. */
  lemma BranchIsNotCovered(w: Workflow, u: string, b: string, c: string, join: string, s: string)
    requires Unconditional(w.edges) && u in NodeIds(w.nodes) && Targets(w.edges, u) == [b, c]
    requires Targets(w.edges, b) == [join, s] && Targets(w.edges, c) == [join] && Targets(w.edges, join) == []
    requires s != join && s != b && s != c
    ensures join in JoinCandidates(w.edges, Targets(w.edges, u)) && !FanOutsCovered(w)
  {
    var next := Targets(w.edges, u);
    assert Targets(w.edges, b)[0] == join && Targets(w.edges, c)[0] == join && Targets(w.edges, b)[1] == s && next[0] == b;
    assert InAllTargets(w.edges, next, join);
    ReachableViaTargets(w.edges, join, s);
    assert !AllJoinsReach(w.edges, next, s);
    assert !Covered(w.edges, next);
  }

  /** A join does not help: in this valid acyclic workflow the run goes on at the join, and still what only one branch
      leads to is left out. */
  lemma JoinCanStrand(p: Policy) returns (rank: string -> nat)
    requires p.maxIterations >= 1
    ensures WellFormed(Rejoining().nodes, Rejoining().edges) && Ranked(Rejoining().edges, rank)
    ensures "d" in JoinCandidates(Rejoining().edges, Targets(Rejoining().edges, "a"))
    ensures !AlwaysRunsThrough(Rejoining(), p)
  {
    RejoiningTargets("a");
    RejoiningTargets("b");
    RejoiningTargets("c");
    RejoiningTargets("d");
    RejoiningIdsAreDistinct();
    RejoiningEdgesAreSound();
    RejoiningIsPlain();
    rank := RejoiningIsRanked();
    BranchIsNotCovered(Rejoining(), "a", "b", "c", "d", "e");
    RunsThroughIffCovered(Rejoining(), p, rank);
  }

  // ---------------------------------------------------------------------------
  // Questions to humans
  // ---------------------------------------------------------------------------

  /** Every question to a human in the trace is a branch of a fan-out from a node traced before. */
  ghost predicate AskedOnlyAsBranches(w: Workflow, trace: seq<TraceEntry>) {
    forall i :: 0 <= i < |trace| && AsksHuman(w, trace[i].nodeId) ==> BranchOfEarlier(w.edges, trace, i)
  }

  ghost predicate BranchOfEarlier(edges: seq<EdgeDef>, trace: seq<TraceEntry>, i: nat)
    requires i < |trace|
  {
    exists j :: 0 <= j < i && |Targets(edges, trace[j].nodeId)| > 1 && trace[i].nodeId in Targets(edges, trace[j].nodeId)
  }

  lemma AskedOnlySnoc(w: Workflow, trace: seq<TraceEntry>, e: TraceEntry)
    requires AskedOnlyAsBranches(w, trace)
    requires AsksHuman(w, e.nodeId) ==>
      exists j :: 0 <= j < |trace| && |Targets(w.edges, trace[j].nodeId)| > 1 && e.nodeId in Targets(w.edges, trace[j].nodeId)
    ensures AskedOnlyAsBranches(w, trace + [e])
  {
    var t := trace + [e];
    forall i | 0 <= i < |t| && AsksHuman(w, t[i].nodeId)
      ensures BranchOfEarlier(w.edges, t, i)
    {
      if i < |trace| {
        assert BranchOfEarlier(w.edges, trace, i);
        var j :| 0 <= j < i && |Targets(w.edges, trace[j].nodeId)| > 1 && trace[i].nodeId in Targets(w.edges, trace[j].nodeId);
        assert t[j] == trace[j];
      } else {
        var j :| 0 <= j < |trace| && |Targets(w.edges, trace[j].nodeId)| > 1 && e.nodeId in Targets(w.edges, trace[j].nodeId);
        assert t[j] == trace[j];
      }
    }
  }

  /** The `at`-th entry of the trace is for the node whose targets are the branches. */
  lemma {:induction false} FanOutAsksBranches(w: Workflow, results: nat -> Execution, i: nat, state: StateMap,
                                              trace: seq<TraceEntry>, at: nat)
    requires AskedOnlyAsBranches(w, trace) && at < |trace| && |Targets(w.edges, trace[at].nodeId)| > 1
    ensures AskedOnlyAsBranches(w, FanOut(w.nodes, Targets(w.edges, trace[at].nodeId), results, i, state, trace).1)
    decreases |Targets(w.edges, trace[at].nodeId)| - i
  {
    var parallel := Targets(w.edges, trace[at].nodeId);
    if i < |parallel| {
      if parallel[i] !in NodeIds(w.nodes) {
        FanOutAsksBranches(w, results, i + 1, state, trace, at);
      } else {
        match results(i)
        case Done(output, _) =>
          var e := TraceEntry(parallel[i], Succeeded, 0, None);
          AskedOnlySnoc(w, trace, e);
          FanOutAsksBranches(w, results, i + 1, state[parallel[i] := output], trace + [e], at);
        case Broken(error, _) =>
          var e := TraceEntry(parallel[i], Errored, 0, Some(error));
          AskedOnlySnoc(w, trace, e);
          FanOutAsksBranches(w, results, i + 1, state, trace + [e], at);
      }
    }
  }

  lemma SuccessAsksBranches(w: Workflow, c: Config, id: string, output: Output, retries: nat, t: Turn)
    requires AskedOnlyAsBranches(w, c.trace) && !AsksHuman(w, id)
    ensures AskedOnlyAsBranches(w, AfterSuccess(w, c, id, output, retries, t).trace)
  {
    var e := TraceEntry(id, Succeeded, retries, None);
    AskedOnlySnoc(w, c.trace, e);
    var next := NextNodes(w.edges, id, if t.hookedOutput.Some? then t.hookedOutput.value else output);
    if |next| > 1 {
      assert next == Targets(w.edges, id) && (c.trace + [e])[|c.trace|] == e;
      FanOutAsksBranches(w, t.fanOut, 0, c.state[id := output], c.trace + [e], |c.trace|);
    }
  }

  /** The trace so far, or at the end, asks humans only as branches. */
  ghost predicate StepAsksBranches(w: Workflow, s: Step) {
    match s
    case Next(n) => AskedOnlyAsBranches(w, n.trace)
    case Halt(r) => r.Finished? ==> AskedOnlyAsBranches(w, r.trace)
  }

  lemma EnterAsksBranches(w: Workflow, p: Policy, c: Config, id: string, t: Turn)
    requires AskedOnlyAsBranches(w, c.trace) && id in NodeIds(w.nodes)
    ensures StepAsksBranches(w, Enter(w, p, c, id, t))
  {
    if !AsksHuman(w, id) && t.pre.Proceed? {
      match t.execution
      case Done(output, retries) => SuccessAsksBranches(w, c, id, output, retries, t);
      case Broken(error, retries) =>
        AskedOnlySnoc(w, c.trace, TraceEntry(id, Errored, retries, Some(error)));
        AskedOnlySnoc(w, c.trace, TraceEntry(id, Skipped, retries, Some(error)));
    }
  }

  /** A question to a human is executed and traced only as a branch of a fan-out; everywhere else the run stops there. */
  lemma {:induction false} HumansAreTracedOnlyAsBranches(w: Workflow, p: Policy, c: Config, turns: nat -> Turn, k: nat)
    requires OnNode(w, c) && AskedOnlyAsBranches(w, c.trace)
    ensures Run(w, p, c, turns, k).Finished? ==> AskedOnlyAsBranches(w, Run(w, p, c, turns, k).trace)
    decreases Budget(w.nodes, c.visits, p.maxIterations)
  {
    if c.cursor.Some? {
      EnterAsksBranches(w, p, Visited(c, c.cursor.value), c.cursor.value, turns(k));
      if Pass(w, p, c, turns(k)).Next? {
        var n := RunStep(w, p, c, turns, k);
        HumansAreTracedOnlyAsBranches(w, p, n, turns, k + 1);
      }
    }
  }

  /** "a" forks to the question "h" and to "b". */
  function Asking(): Workflow {
    Workflow([Node("a"), Node("h").(toolType := HUMAN_INPUT_TOOL), Node("b")], [Edge("e", "a", "h"), Edge("f", "a", "b")])
  }

  lemma AskingIsSound() returns (rank: string -> nat)
    ensures WellFormed(Asking().nodes, Asking().edges) && Ranked(Asking().edges, rank)
    ensures "a" in NodeIds(Asking().nodes) && "h" in NodeIds(Asking().nodes) && "b" in NodeIds(Asking().nodes)
  {
    var nodes := Asking().nodes;
    rank := id => if id == "a" then 0 else 1;
    assert nodes[0].id in NodeIds(nodes) && nodes[1].id in NodeIds(nodes) && nodes[2].id in NodeIds(nodes);
  }

  /** As a branch it is: in this valid acyclic workflow nobody is asked, and the question is traced like any other node. */
  lemma HumanBranchIsNotAsked() returns (rank: string -> nat)
    ensures WellFormed(Asking().nodes, Asking().edges) && Ranked(Asking().edges, rank) && AsksHuman(Asking(), "h")
    ensures AlwaysTraces(Asking(), ["a", "h", "b"])
  {
    var e, f := Edge("e", "a", "h"), Edge("f", "a", "b");
    rank := AskingIsSound();
    OutgoingOfTwo(e, f, "a");
    OutgoingOfTwo(e, f, "b");
    assert NodeById(Asking().nodes, "a") == Asking().nodes[0];
    ForkTraces(Asking(), e, f);
  }
}
