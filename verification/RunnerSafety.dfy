/** Safety of whole runs: what a run of the graph runner can touch, and how often
    (engine/src/core/runner/graph_runner.rs). */
module RunnerSafety {
  import opened Basics
  import opened Json
  import opened Graph
  import opened State
  import opened Runner

  // ---------------------------------------------------------------------------
  // A run stays within what is reachable from its entry
  // ---------------------------------------------------------------------------

  ghost predicate Successor(edges: seq<EdgeDef>, a: string, b: string) {
    exists e :: e in edges && e.source == a && e.target == b
  }

  lemma SuccessorIsReachable(edges: seq<EdgeDef>, entry: string, a: string, b: string)
    requires Reachable(edges, entry, a) && Successor(edges, a, b)
    ensures Reachable(edges, entry, b)
  {
    var path :| IsPath(edges, entry, a, path);
    var e :| e in edges && e.source == a && e.target == b;
    PathExtends(edges, entry, e, path);
  }

  lemma {:induction false} UnconditionalTargetsComeFromEdges(outgoing: seq<EdgeDef>, x: string)
    requires x in UnconditionalTargets(outgoing)
    ensures exists e :: e in outgoing && e.target == x
  {
    if outgoing[0].condition == None && outgoing[0].target == x {
      assert outgoing[0] in outgoing;
    } else {
      UnconditionalTargetsComeFromEdges(outgoing[1..], x);
      var e :| e in outgoing[1..] && e.target == x;
      assert e in outgoing;
    }
  }

  lemma {:induction false} FirstMatchComesFromEdge(outgoing: seq<EdgeDef>, output: Output)
    requires FirstMatch(outgoing, output).Some?
    ensures exists e :: e in outgoing && e.target == FirstMatch(outgoing, output).value
  {
    if outgoing[0].condition.Some? && Evaluate(output, outgoing[0].condition.value) {
      assert outgoing[0] in outgoing;
    } else {
      FirstMatchComesFromEdge(outgoing[1..], output);
      var e :| e in outgoing[1..] && e.target == FirstMatch(outgoing[1..], output).value;
      assert e in outgoing;
    }
  }

  lemma NextNodesAreSuccessors(edges: seq<EdgeDef>, id: string, output: Output, x: string)
    requires x in NextNodes(edges, id, output)
    ensures Successor(edges, id, x)
  {
    var outgoing := OutgoingEdges(edges, id);
    if FirstMatch(outgoing, output).Some? {
      FirstMatchComesFromEdge(outgoing, output);
    } else {
      UnconditionalTargetsComeFromEdges(outgoing, x);
    }
  }

  lemma JoinIsSuccessor(edges: seq<EdgeDef>, parallel: seq<string>, x: string, i: nat)
    requires x in JoinCandidates(edges, parallel) && i < |parallel|
    ensures Successor(edges, parallel[i], x)
  {
    UnconditionalTargetsComeFromEdges(OutgoingEdges(edges, parallel[i]), x);
  }

  /** Only nodes reachable from the entry are traced, written or about to run. */
  ghost predicate Confined(edges: seq<EdgeDef>, entry: string, initial: StateMap,
                           cursor: Option<string>, state: StateMap, trace: seq<TraceEntry>) {
    && (cursor.Some? ==> Reachable(edges, entry, cursor.value))
    && (forall i :: 0 <= i < |trace| ==> Reachable(edges, entry, trace[i].nodeId))
    && (forall n :: !Reachable(edges, entry, n) ==> Lookup(state, n) == Lookup(initial, n))
  }

  lemma {:induction false} FanOutIsConfined(w: Workflow, entry: string, initial: StateMap, parallel: seq<string>,
                                            results: nat -> Execution, i: nat, state: StateMap, trace: seq<TraceEntry>)
    requires Confined(w.edges, entry, initial, None, state, trace)
    requires forall j :: 0 <= j < |parallel| ==> Reachable(w.edges, entry, parallel[j])
    ensures var (s, t) := FanOut(w.nodes, parallel, results, i, state, trace);
      Confined(w.edges, entry, initial, None, s, t)
    decreases |parallel| - i
  {
    if i < |parallel| {
      if parallel[i] !in NodeIds(w.nodes) {
        FanOutIsConfined(w, entry, initial, parallel, results, i + 1, state, trace);
      } else {
        match results(i)
        case Done(output, _) =>
          FanOutIsConfined(w, entry, initial, parallel, results, i + 1, state[parallel[i] := output],
                           trace + [TraceEntry(parallel[i], Succeeded, 0, None)]);
        case Broken(error, _) =>
          FanOutIsConfined(w, entry, initial, parallel, results, i + 1, state,
                           trace + [TraceEntry(parallel[i], Errored, 0, Some(error))]);
      }
    }
  }

  lemma NextNodesAreReachable(edges: seq<EdgeDef>, entry: string, id: string, output: Output)
    requires Reachable(edges, entry, id)
    ensures forall j :: 0 <= j < |NextNodes(edges, id, output)| ==> Reachable(edges, entry, NextNodes(edges, id, output)[j])
  {
    forall j | 0 <= j < |NextNodes(edges, id, output)|
      ensures Reachable(edges, entry, NextNodes(edges, id, output)[j])
    {
      NextNodesAreSuccessors(edges, id, output, NextNodes(edges, id, output)[j]);
      SuccessorIsReachable(edges, entry, id, NextNodes(edges, id, output)[j]);
    }
  }

  lemma SuccessIsConfined(w: Workflow, entry: string, initial: StateMap, c: Config, id: string, output: Output,
                          retries: nat, t: Turn)
    requires Confined(w.edges, entry, initial, c.cursor, c.state, c.trace) && c.cursor == Some(id)
    ensures var n := AfterSuccess(w, c, id, output, retries, t);
      Confined(w.edges, entry, initial, n.cursor, n.state, n.trace)
  {
    var state := c.state[id := output];
    var trace := c.trace + [TraceEntry(id, Succeeded, retries, None)];
    var routed := if t.hookedOutput.Some? then t.hookedOutput.value else output;
    var next := NextNodes(w.edges, id, routed);
    NextNodesAreReachable(w.edges, entry, id, routed);
    assert Confined(w.edges, entry, initial, None, state, trace);
    if |next| > 1 {
      FanOutIsConfined(w, entry, initial, next, t.fanOut, 0, state, trace);
      var join := JoinNode(w.edges, next, t.join);
      if join.Some? {
        JoinIsSuccessor(w.edges, next, join.value, 0);
        SuccessorIsReachable(w.edges, entry, next[0], join.value);
      }
    }
  }

  lemma StepIsConfined(w: Workflow, entry: string, initial: StateMap, c: Config, id: string, output: Output, n: Config)
    requires Confined(w.edges, entry, initial, c.cursor, c.state, c.trace) && c.cursor == Some(id)
    requires n.state == c.state[id := output]
    requires n.trace == c.trace || (|n.trace| == |c.trace| + 1 && n.trace[..|c.trace|] == c.trace && n.trace[|c.trace|].nodeId == id)
    requires n.cursor == Resolve(w.nodes, First(NextNodes(w.edges, id, output)))
    ensures Confined(w.edges, entry, initial, n.cursor, n.state, n.trace)
  {
    NextNodesAreReachable(w.edges, entry, id, output);
    assert forall i :: 0 <= i < |c.trace| ==> n.trace[i] == c.trace[i] by {
      assert forall i :: 0 <= i < |c.trace| ==> n.trace[..|c.trace|][i] == n.trace[i];
    }
  }

  lemma FailureIsConfined(w: Workflow, p: Policy, entry: string, initial: StateMap, c: Config, id: string, error: string,
                          retries: nat)
    requires id in NodeIds(w.nodes)
    requires Confined(w.edges, entry, initial, c.cursor, c.state, c.trace) && c.cursor == Some(id)
    ensures match AfterFailure(w, p, c, id, error, retries)
      case Next(n) => Confined(w.edges, entry, initial, n.cursor, n.state, n.trace)
      case Halt(r) => r.Finished? && Confined(w.edges, entry, initial, None, r.state, r.trace)
  {
    var step := AfterFailure(w, p, c, id, error, retries);
    if step.Next? {
      var output := if p.onFailure(NodeById(w.nodes, id)).Skip? then map[] else map[ERROR_FIELD := Str(error)];
      StepIsConfined(w, entry, initial, c, id, output, step.c);
    }
  }

  /** How a step keeps to what the entry reaches. */
  ghost predicate StepConfined(edges: seq<EdgeDef>, entry: string, initial: StateMap, s: Step) {
    match s
    case Next(n) => Confined(edges, entry, initial, n.cursor, n.state, n.trace)
    case Halt(Finished(_, state, trace)) => Confined(edges, entry, initial, None, state, trace)
    case Halt(MaxIterationsExceeded(id, _)) => Reachable(edges, entry, id)
  }

  lemma ExecuteIsConfined(w: Workflow, p: Policy, entry: string, initial: StateMap, c: Config, id: string, t: Turn)
    requires id in NodeIds(w.nodes) && c.cursor == Some(id)
    requires Confined(w.edges, entry, initial, c.cursor, c.state, c.trace)
    ensures StepConfined(w.edges, entry, initial, Execute(w, p, c, id, t))
  {
    match t.execution
    case Done(output, retries) => SuccessIsConfined(w, entry, initial, c, id, output, retries, t);
    case Broken(error, retries) => FailureIsConfined(w, p, entry, initial, c, id, error, retries);
  }

  lemma PassIsConfined(w: Workflow, p: Policy, entry: string, initial: StateMap, c: Config, t: Turn)
    requires OnNode(w, c) && c.cursor.Some?
    requires Confined(w.edges, entry, initial, c.cursor, c.state, c.trace)
    ensures StepConfined(w.edges, entry, initial, Pass(w, p, c, t))
  {
    var id := c.cursor.value;
    var c1 := Visited(c, id);
    match t.pre
    case Abort(_) =>
    case SkipNode =>
      StepIsConfined(w, entry, initial, c1, id, map[],
                     c1.(state := c1.state[id := map[]], step := c1.step + 1,
                         cursor := Resolve(w.nodes, First(NextNodes(w.edges, id, map[])))));
    case Proceed => ExecuteIsConfined(w, p, entry, initial, c1, id, t);
  }

  /** No run executes, traces or writes a node that its entry does not reach; outputs elsewhere stay as they were. */
  lemma {:induction false} RunIsConfined(w: Workflow, p: Policy, entry: string, initial: StateMap, c: Config,
                                         turns: nat -> Turn, k: nat)
    requires OnNode(w, c) && Confined(w.edges, entry, initial, c.cursor, c.state, c.trace)
    ensures match Run(w, p, c, turns, k)
      case Finished(_, s, tr) => Confined(w.edges, entry, initial, None, s, tr)
      case MaxIterationsExceeded(id, _) => Reachable(w.edges, entry, id)
    decreases Budget(w.nodes, c.visits, p.maxIterations)
  {
    if c.cursor.Some? {
      PassIsConfined(w, p, entry, initial, c, turns(k));
      if Pass(w, p, c, turns(k)).Next? {
        BudgetDrops(w.nodes, c.visits, p.maxIterations, c.cursor.value);
        RunIsConfined(w, p, entry, initial, Pass(w, p, c, turns(k)).c, turns, k + 1);
      }
    }
  }

  lemma FreshRunIsConfined(w: Workflow, p: Policy, entry: string, initial: StateMap, turns: nat -> Turn)
    ensures match Run(w, p, Begin(w, entry, initial), turns, 0)
      case Finished(_, s, tr) => Confined(w.edges, entry, initial, None, s, tr)
      case MaxIterationsExceeded(id, _) => Reachable(w.edges, entry, id)
  {
    assert IsPath(w.edges, entry, entry, []);
    RunIsConfined(w, p, entry, initial, Begin(w, entry, initial), turns, 0);
  }

  // ---------------------------------------------------------------------------
  // Where a fan-out leads
  // ---------------------------------------------------------------------------

  /** After a fan-out the run goes on exactly if the parallel nodes have a common unconditional successor; otherwise
      it completes there, whatever else the parallel nodes lead to. */
  lemma FanOutGoesOnIff(w: Workflow, c: Config, id: string, output: Output, retries: nat, t: Turn)
    requires WellFormed(w.nodes, w.edges)
    ensures var next := NextNodes(w.edges, id, if t.hookedOutput.Some? then t.hookedOutput.value else output);
      |next| > 1 ==> (AfterSuccess(w, c, id, output, retries, t).cursor.Some? <==> JoinCandidates(w.edges, next) != {})
  {
    var next := NextNodes(w.edges, id, if t.hookedOutput.Some? then t.hookedOutput.value else output);
    if |next| > 1 && JoinCandidates(w.edges, next) != {} {
      var join := JoinNode(w.edges, next, t.join).value;
      JoinIsSuccessor(w.edges, next, join, 0);
      var e :| e in w.edges && e.source == next[0] && e.target == join;
      var i :| 0 <= i < |w.edges| && w.edges[i] == e;
      assert SoundEdge(w.nodes, w.edges[i]);
    }
  }
}
