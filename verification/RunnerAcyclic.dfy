/** Runs of acyclic workflows: how often nodes are executed, whether runs finish, and which nodes are executed at all
    (engine/src/core/runner/graph_runner.rs). */
module RunnerAcyclic {
  import opened Basics
  import opened Json
  import opened Graph
  import opened State
  import opened Runner
  import opened RunnerSafety
  import opened RunnerPrefix

  // ---------------------------------------------------------------------------
  // The cursor climbs
  // ---------------------------------------------------------------------------

  lemma SuccessorRanksHigher(edges: seq<EdgeDef>, rank: string -> nat, a: string, b: string)
    requires Ranked(edges, rank) && Successor(edges, a, b)
    ensures rank(a) < rank(b)
  {
    var e :| e in edges && e.source == a && e.target == b;
    var i :| 0 <= i < |edges| && edges[i] == e;
  }

  lemma NextRanksHigher(edges: seq<EdgeDef>, rank: string -> nat, id: string, output: Output)
    requires Ranked(edges, rank)
    ensures var next := NextNodes(edges, id, output); forall j :: 0 <= j < |next| ==> rank(id) < rank(next[j])
  {
    var next := NextNodes(edges, id, output);
    forall j | 0 <= j < |next|
      ensures rank(id) < rank(next[j])
    {
      NextNodesAreSuccessors(edges, id, output, next[j]);
      SuccessorRanksHigher(edges, rank, id, next[j]);
    }
  }

  lemma JoinRanksHigher(edges: seq<EdgeDef>, rank: string -> nat, parallel: seq<string>, pick: string)
    requires Ranked(edges, rank) && JoinNode(edges, parallel, pick).Some?
    ensures forall j :: 0 <= j < |parallel| ==> rank(parallel[j]) < rank(JoinNode(edges, parallel, pick).value)
  {
    var join := JoinNode(edges, parallel, pick).value;
    forall j | 0 <= j < |parallel|
      ensures rank(parallel[j]) < rank(join)
    {
      JoinIsSuccessor(edges, parallel, join, j);
      SuccessorRanksHigher(edges, rank, parallel[j], join);
    }
  }

  lemma SuccessClimbs(w: Workflow, rank: string -> nat, c: Config, id: string, output: Output, retries: nat, t: Turn)
    requires Ranked(w.edges, rank)
    ensures var n := AfterSuccess(w, c, id, output, retries, t); n.cursor.Some? ==> rank(id) < rank(n.cursor.value)
  {
    var routed := if t.hookedOutput.Some? then t.hookedOutput.value else output;
    var next := NextNodes(w.edges, id, routed);
    NextRanksHigher(w.edges, rank, id, routed);
    if |next| > 1 && JoinNode(w.edges, next, t.join).Some? {
      JoinRanksHigher(w.edges, rank, next, t.join);
    }
  }

  /** Without a retry a pass moves the cursor upwards or empties it. */
  lemma PassClimbs(w: Workflow, p: Policy, rank: string -> nat, c: Config, t: Turn)
    requires OnNode(w, c) && c.cursor.Some? && Ranked(w.edges, rank) && !t.retryOnError
    requires Pass(w, p, c, t).Next?
    ensures var n := Pass(w, p, c, t).c; n.cursor.Some? ==> rank(c.cursor.value) < rank(n.cursor.value)
  {
    var id := c.cursor.value;
    var c1 := c.(visits := c.visits[id := VisitsOf(c.visits, id) + 1]);
    NextRanksHigher(w.edges, rank, id, map[]);
    match t.pre
    case Proceed =>
      match t.execution {
        case Done(output, retries) => SuccessClimbs(w, rank, c1, id, output, retries, t);
        case Broken(error, _) => NextRanksHigher(w.edges, rank, id, map[ERROR_FIELD := Str(error)]);
      }
    case _ =>
  }

  // ---------------------------------------------------------------------------
  // Runs finish
  // ---------------------------------------------------------------------------

  ghost predicate NoRetries(turns: nat -> Turn) {
    forall i :: !turns(i).retryOnError
  }

  ghost predicate VisitsBelow(rank: string -> nat, c: Config) {
    c.cursor.Some? ==> forall n :: n in c.visits ==> rank(n) < rank(c.cursor.value)
  }

  lemma FirstVisitIsAllowed(w: Workflow, p: Policy, c: Config, t: Turn)
    requires OnNode(w, c) && c.cursor.Some? && c.cursor.value !in c.visits && p.maxIterations >= 1
    ensures Pass(w, p, c, t).Halt? ==> Pass(w, p, c, t).r.Finished?
  {}

  /** On an acyclic workflow no run hits the visit limit unless its error hook asks for retries. */
  lemma {:induction false} AcyclicRunsFinish(w: Workflow, p: Policy, rank: string -> nat, c: Config, turns: nat -> Turn, k: nat)
    requires OnNode(w, c) && VisitsBelow(rank, c)
    requires Ranked(w.edges, rank) && p.maxIterations >= 1 && NoRetries(turns)
    ensures Run(w, p, c, turns, k).Finished?
    decreases Budget(w.nodes, c.visits, p.maxIterations)
  {
    if c.cursor.Some? {
      var t := turns(k);
      assert !t.retryOnError && c.cursor.value !in c.visits;
      if Pass(w, p, c, t).Next? {
        PassClimbs(w, p, rank, c, t);
        var n := RunStep(w, p, c, turns, k);
        AcyclicRunsFinish(w, p, rank, n, turns, k + 1);
      } else {
        FirstVisitIsAllowed(w, p, c, t);
      }
    }
  }

  // ---------------------------------------------------------------------------
  // Runs trace no node twice
  // ---------------------------------------------------------------------------

  /** Unconditional edges that join the same two nodes. */
  predicate Parallel(e: EdgeDef, f: EdgeDef) {
    e.condition == None && f.condition == None && e.source == f.source && e.target == f.target
  }

  ghost predicate NoneParallelFrom(edges: seq<EdgeDef>, id: string) {
    forall i, j :: 0 <= i < j < |edges| && Parallel(edges[i], edges[j]) ==> edges[i].source != id
  }

  /** No two parallel edges leave a node that is not a question to a human. */
  ghost predicate NoParallelEdges(w: Workflow) {
    forall i, j :: 0 <= i < j < |w.edges| && Parallel(w.edges[i], w.edges[j]) ==> AsksHuman(w, w.edges[i].source)
  }

  lemma TargetsAfterFirst(edges: seq<EdgeDef>, id: string)
    requires edges != []
    ensures Targets(edges, id)
         == (if edges[0].source == id && edges[0].condition == None then [edges[0].target] else []) + Targets(edges[1..], id)
  {
    var rest := OutgoingEdges(edges[1..], id);
    assert ([edges[0]] + rest)[1..] == rest;
  }

  lemma {:induction false} TargetHasEdge(edges: seq<EdgeDef>, id: string, x: string)
    ensures x in Targets(edges, id)
       <==> exists i :: 0 <= i < |edges| && edges[i].source == id && edges[i].condition == None && edges[i].target == x
  {
    if edges != [] {
      TargetsAfterFirst(edges, id);
      TargetHasEdge(edges[1..], id, x);
      assert forall i :: 0 <= i < |edges[1..]| ==> edges[1..][i] == edges[i + 1];
      assert forall i :: 1 <= i < |edges| ==> edges[i] == edges[1..][i - 1];
    }
  }

  lemma NoneParallelFromRest(edges: seq<EdgeDef>, id: string)
    requires edges != []
    ensures NoneParallelFrom(edges, id)
       <==> NoneParallelFrom(edges[1..], id)
            && !(edges[0].source == id && edges[0].condition == None && edges[0].target in Targets(edges[1..], id))
  {
    var rest := edges[1..];
    TargetHasEdge(rest, id, edges[0].target);
    if NoneParallelFrom(edges, id) {
      assert forall i, j :: 0 <= i < j < |rest| && Parallel(rest[i], rest[j]) ==> Parallel(edges[i + 1], edges[j + 1]);
      assert forall j :: 0 <= j < |rest| && Parallel(edges[0], rest[j]) ==> Parallel(edges[0], edges[j + 1]);
    }
    forall i, j | 0 <= i < j < |edges| && Parallel(edges[i], edges[j]) && edges[i].source == id
      ensures !NoneParallelFrom(rest, id) || (i == 0 && edges[0].target in Targets(rest, id))
    {
      assert edges[j] == rest[j - 1];
      if i > 0 {
        assert edges[i] == rest[i - 1];
      }
    }
  }

  lemma DistinctAfterFirst(first: string, rest: seq<string>)
    ensures DistinctIds([first] + rest) <==> DistinctIds(rest) && first !in rest
  {
    var ids := [first] + rest;
    if DistinctIds(ids) {
      forall i, j | 0 <= i < j < |rest|
        ensures rest[i] != rest[j]
      {
        assert ids[i + 1] == rest[i] && ids[j + 1] == rest[j];
      }
      forall k | 0 <= k < |rest|
        ensures rest[k] != first
      {
        assert ids[0] == first && ids[k + 1] == rest[k];
      }
    } else {
      var i, j :| 0 <= i < j < |ids| && ids[i] == ids[j];
      assert ids[j] == rest[j - 1] && (i > 0 ==> ids[i] == rest[i - 1]);
    }
  }

  /** The targets of a node are distinct exactly if no parallel edges leave it. */
  lemma {:induction false} TargetsAreDistinctIff(edges: seq<EdgeDef>, id: string)
    ensures DistinctIds(Targets(edges, id)) <==> NoneParallelFrom(edges, id)
  {
    if edges != [] {
      TargetsAreDistinctIff(edges[1..], id);
      TargetsAfterFirst(edges, id);
      NoneParallelFromRest(edges, id);
      if edges[0].source == id && edges[0].condition == None {
        DistinctAfterFirst(edges[0].target, Targets(edges[1..], id));
      } else {
        assert [] + Targets(edges[1..], id) == Targets(edges[1..], id);
      }
    }
  }

  lemma NoneParallelFromNode(w: Workflow, id: string)
    requires NoParallelEdges(w) && !AsksHuman(w, id)
    ensures NoneParallelFrom(w.edges, id)
  {}

  predicate DistinctIds(ids: seq<string>) {
    forall i, j :: 0 <= i < j < |ids| ==> ids[i] != ids[j]
  }

  predicate DistinctTrace(trace: seq<TraceEntry>) {
    forall i, j :: 0 <= i < j < |trace| ==> trace[i].nodeId != trace[j].nodeId
  }

  ghost predicate TracesBelow(rank: string -> nat, trace: seq<TraceEntry>, bound: nat) {
    forall i :: 0 <= i < |trace| ==> rank(trace[i].nodeId) < bound
  }

  /** Traced ids are distinct and, while the run goes on, rank below the cursor. */
  ghost predicate RunsUpwards(rank: string -> nat, c: Config) {
    DistinctTrace(c.trace) && (c.cursor.Some? ==> TracesBelow(rank, c.trace, rank(c.cursor.value)))
  }

  lemma AddEntry(rank: string -> nat, trace: seq<TraceEntry>, e: TraceEntry)
    requires DistinctTrace(trace) && TracesBelow(rank, trace, rank(e.nodeId))
    ensures DistinctTrace(trace + [e]) && TracesBelow(rank, trace + [e], rank(e.nodeId) + 1)
  {
    var t := trace + [e];
    assert forall i :: 0 <= i < |trace| ==> t[i] == trace[i];
  }

  lemma {:induction false} FanOutTracesBelow(nodes: seq<NodeDef>, parallel: seq<string>, results: nat -> Execution, i: nat,
                                             state: StateMap, trace: seq<TraceEntry>, rank: string -> nat, bound: nat)
    requires TracesBelow(rank, trace, bound)
    requires forall j :: i <= j < |parallel| ==> rank(parallel[j]) < bound
    ensures TracesBelow(rank, FanOut(nodes, parallel, results, i, state, trace).1, bound)
    decreases |parallel| - i
  {
    if i < |parallel| {
      if parallel[i] !in NodeIds(nodes) {
        FanOutTracesBelow(nodes, parallel, results, i + 1, state, trace, rank, bound);
      } else {
        match results(i)
        case Done(output, _) =>
          FanOutTracesBelow(nodes, parallel, results, i + 1, state[parallel[i] := output],
                            trace + [TraceEntry(parallel[i], Succeeded, 0, None)], rank, bound);
        case Broken(error, _) =>
          FanOutTracesBelow(nodes, parallel, results, i + 1, state,
                            trace + [TraceEntry(parallel[i], Errored, 0, Some(error))], rank, bound);
      }
    }
  }

  /** The parallel nodes from the `i`-th on have not been traced. */
  ghost predicate Ahead(parallel: seq<string>, i: nat, trace: seq<TraceEntry>) {
    forall j, k :: i <= j < |parallel| && 0 <= k < |trace| ==> trace[k].nodeId != parallel[j]
  }

  lemma AheadNext(parallel: seq<string>, i: nat, trace: seq<TraceEntry>, e: TraceEntry)
    requires DistinctIds(parallel) && DistinctTrace(trace) && Ahead(parallel, i, trace)
    requires i < |parallel| && e.nodeId == parallel[i]
    ensures DistinctTrace(trace + [e]) && Ahead(parallel, i + 1, trace + [e])
  {
    var t := trace + [e];
    assert forall k :: 0 <= k < |trace| ==> t[k] == trace[k];
  }

  lemma {:induction false} FanOutTracesOnce(nodes: seq<NodeDef>, parallel: seq<string>, results: nat -> Execution, i: nat,
                                            state: StateMap, trace: seq<TraceEntry>)
    requires DistinctIds(parallel) && DistinctTrace(trace) && Ahead(parallel, i, trace)
    ensures DistinctTrace(FanOut(nodes, parallel, results, i, state, trace).1)
    decreases |parallel| - i
  {
    if i < |parallel| {
      if parallel[i] !in NodeIds(nodes) {
        FanOutTracesOnce(nodes, parallel, results, i + 1, state, trace);
      } else {
        match results(i)
        case Done(output, _) =>
          var e := TraceEntry(parallel[i], Succeeded, 0, None);
          AheadNext(parallel, i, trace, e);
          FanOutTracesOnce(nodes, parallel, results, i + 1, state[parallel[i] := output], trace + [e]);
        case Broken(error, _) =>
          var e := TraceEntry(parallel[i], Errored, 0, Some(error));
          AheadNext(parallel, i, trace, e);
          FanOutTracesOnce(nodes, parallel, results, i + 1, state, trace + [e]);
      }
    }
  }

  /** After a fan-out from node `id` the trace is still distinct and ranks below the join. */
  lemma FanOutRunsUpwards(w: Workflow, rank: string -> nat, id: string, output: Output, t: Turn, state: StateMap,
                          trace: seq<TraceEntry>)
    requires Ranked(w.edges, rank) && NoneParallelFrom(w.edges, id)
    requires DistinctTrace(trace) && TracesBelow(rank, trace, rank(id) + 1)
    requires |NextNodes(w.edges, id, output)| > 1
    ensures var next := NextNodes(w.edges, id, output);
      var after := FanOut(w.nodes, next, t.fanOut, 0, state, trace).1;
      var join := JoinNode(w.edges, next, t.join);
      DistinctTrace(after) && (join.Some? ==> TracesBelow(rank, after, rank(join.value)))
  {
    var next := NextNodes(w.edges, id, output);
    NextRanksHigher(w.edges, rank, id, output);
    TargetsAreDistinctIff(w.edges, id);
    FanOutTracesOnce(w.nodes, next, t.fanOut, 0, state, trace);
    var join := JoinNode(w.edges, next, t.join);
    if join.Some? {
      JoinRanksHigher(w.edges, rank, next, t.join);
      assert rank(id) < rank(next[0]) < rank(join.value);
      FanOutTracesBelow(w.nodes, next, t.fanOut, 0, state, trace, rank, rank(join.value));
    }
  }

  lemma SuccessRunsUpwards(w: Workflow, rank: string -> nat, c: Config, id: string, output: Output, retries: nat, t: Turn)
    requires Ranked(w.edges, rank) && NoneParallelFrom(w.edges, id)
    requires DistinctTrace(c.trace) && TracesBelow(rank, c.trace, rank(id))
    ensures RunsUpwards(rank, AfterSuccess(w, c, id, output, retries, t))
  {
    var e := TraceEntry(id, Succeeded, retries, None);
    AddEntry(rank, c.trace, e);
    var routed := if t.hookedOutput.Some? then t.hookedOutput.value else output;
    if |NextNodes(w.edges, id, routed)| > 1 {
      FanOutRunsUpwards(w, rank, id, routed, t, c.state[id := output], c.trace + [e]);
    } else {
      NextRanksHigher(w.edges, rank, id, routed);
    }
  }

  /** The other ways to go on trace at most the node itself and move to its first next node. */
  lemma MoveRunsUpwards(w: Workflow, rank: string -> nat, c: Config, id: string, e: TraceEntry, output: Output, n: Config)
    requires Ranked(w.edges, rank) && e.nodeId == id
    requires DistinctTrace(c.trace) && TracesBelow(rank, c.trace, rank(id))
    requires n.trace == c.trace || n.trace == c.trace + [e]
    requires n.cursor == Resolve(w.nodes, First(NextNodes(w.edges, id, output)))
    ensures RunsUpwards(rank, n)
  {
    AddEntry(rank, c.trace, e);
    NextRanksHigher(w.edges, rank, id, output);
  }

  /** A run that ended regularly traced no node twice. */
  ghost predicate TracesOnce(r: RunResult) {
    r.Finished? ==> DistinctTrace(r.trace)
  }

  lemma FailureRunsUpwards(w: Workflow, p: Policy, rank: string -> nat, c: Config, id: string, error: string, retries: nat)
    requires Ranked(w.edges, rank) && id in NodeIds(w.nodes)
    requires DistinctTrace(c.trace) && TracesBelow(rank, c.trace, rank(id))
    ensures match AfterFailure(w, p, c, id, error, retries)
      case Next(n) => RunsUpwards(rank, n)
      case Halt(r) => TracesOnce(r)
  {
    var step := AfterFailure(w, p, c, id, error, retries);
    match p.onFailure(NodeById(w.nodes, id))
    case Stop => AddEntry(rank, c.trace, TraceEntry(id, Errored, retries, Some(error)));
    case Skip => MoveRunsUpwards(w, rank, c, id, TraceEntry(id, Skipped, retries, Some(error)), map[], step.c);
    case RouteToError =>
      MoveRunsUpwards(w, rank, c, id, TraceEntry(id, Errored, retries, Some(error)), map[ERROR_FIELD := Str(error)], step.c);
  }

  lemma PassRunsUpwards(w: Workflow, p: Policy, rank: string -> nat, c: Config, t: Turn)
    requires OnNode(w, c) && c.cursor.Some? && RunsUpwards(rank, c)
    requires Ranked(w.edges, rank) && NoParallelEdges(w)
    ensures match Pass(w, p, c, t)
      case Next(n) => RunsUpwards(rank, n)
      case Halt(r) => TracesOnce(r)
  {
    var id := c.cursor.value;
    var c1 := c.(visits := c.visits[id := VisitsOf(c.visits, id) + 1]);
    var step := Pass(w, p, c, t);
    match t.pre
    case Abort(_) =>
    case SkipNode =>
      if step.Next? {
        MoveRunsUpwards(w, rank, c, id, TraceEntry(id, Skipped, 0, None), map[], step.c);
      }
    case Proceed =>
      if !AsksHuman(w, id) {
        NoneParallelFromNode(w, id);
        match t.execution
        case Done(output, retries) => SuccessRunsUpwards(w, rank, c1, id, output, retries, t);
        case Broken(error, retries) => FailureRunsUpwards(w, p, rank, c1, id, error, retries);
      }
  }

  /** On an acyclic workflow without parallel edges a run that finishes has traced every node at most once, whatever
      tools and hooks do. */
  lemma {:induction false} AcyclicRunsTraceOnce(w: Workflow, p: Policy, rank: string -> nat, c: Config,
                                                turns: nat -> Turn, k: nat)
    requires OnNode(w, c) && RunsUpwards(rank, c)
    requires Ranked(w.edges, rank) && NoParallelEdges(w)
    ensures TracesOnce(Run(w, p, c, turns, k))
    decreases Budget(w.nodes, c.visits, p.maxIterations)
  {
    if c.cursor.Some? {
      var t := turns(k);
      PassRunsUpwards(w, p, rank, c, t);
      if Pass(w, p, c, t).Next? {
        var n := RunStep(w, p, c, turns, k);
        AcyclicRunsTraceOnce(w, p, rank, n, turns, k + 1);
      }
    }
  }

  /** Whole runs of an acyclic workflow: without parallel edges a finished run has traced every node at most once, and
      without retries every run finishes. */
  lemma AcyclicWorkflowsTraceOnce(w: Workflow, p: Policy, rank: string -> nat, entry: string, initial: StateMap,
                                  turns: nat -> Turn)
    requires Ranked(w.edges, rank)
    ensures NoParallelEdges(w) ==> TracesOnce(Run(w, p, Begin(w, entry, initial), turns, 0))
    ensures p.maxIterations >= 1 && NoRetries(turns) ==> Run(w, p, Begin(w, entry, initial), turns, 0).Finished?
  {
    if NoParallelEdges(w) {
      AcyclicRunsTraceOnce(w, p, rank, Begin(w, entry, initial), turns, 0);
    }
    if p.maxIterations >= 1 && NoRetries(turns) {
      AcyclicRunsFinish(w, p, rank, Begin(w, entry, initial), turns, 0);
    }
  }

  // ---------------------------------------------------------------------------
  // Exactly when no node is traced twice
  // ---------------------------------------------------------------------------

  function Ids(trace: seq<TraceEntry>): (r: seq<string>)
    ensures |r| == |trace|
  {
    seq(|trace|, i requires 0 <= i < |trace| => trace[i].nodeId)
  }

  /** A fan-out traces its branches in order, whether they succeed or not. */
  lemma {:induction false} FanOutIds(nodes: seq<NodeDef>, parallel: seq<string>, results: nat -> Execution, i: nat,
                                     state: StateMap, trace: seq<TraceEntry>)
    requires i <= |parallel| && forall j :: 0 <= j < |parallel| ==> parallel[j] in NodeIds(nodes)
    ensures Ids(FanOut(nodes, parallel, results, i, state, trace).1) == Ids(trace) + parallel[i..]
    decreases |parallel| - i
  {
    if i < |parallel| {
      assert parallel[i..] == [parallel[i]] + parallel[i + 1..];
      match results(i)
      case Done(output, _) =>
        FanOutIds(nodes, parallel, results, i + 1, state[parallel[i] := output], trace + [TraceEntry(parallel[i], Succeeded, 0, None)]);
      case Broken(error, _) =>
        FanOutIds(nodes, parallel, results, i + 1, state, trace + [TraceEntry(parallel[i], Errored, 0, Some(error))]);
    }
  }

  lemma {:induction false} NothingMatchesEmpty(outgoing: seq<EdgeDef>)
    ensures FirstMatch(outgoing, map[]) == None
  {
    if outgoing != [] {
      NothingMatchesEmpty(outgoing[1..]);
    }
  }

  lemma TargetsAreNodes(w: Workflow, id: string)
    requires WellFormed(w.nodes, w.edges)
    ensures forall j :: 0 <= j < |Targets(w.edges, id)| ==> Targets(w.edges, id)[j] in NodeIds(w.nodes)
  {
    forall x | x in Targets(w.edges, id)
      ensures x in NodeIds(w.nodes)
    {
      TargetHasEdge(w.edges, id, x);
      var i :| 0 <= i < |w.edges| && w.edges[i].source == id && w.edges[i].condition == None && w.edges[i].target == x;
      assert SoundEdge(w.nodes, w.edges[i]);
    }
  }

  /** Nothing gets in the way and nothing is put out. */
  function QuietTurn(): Turn {
    Turn(false, Proceed, Done(map[], 0), false, None, i => Done(map[], 0), "")
  }

  /** The first pass of a quiet run at a node with several targets traces the node and the targets. */
  lemma QuietFanOut(w: Workflow, p: Policy, id: string, initial: StateMap)
    requires WellFormed(w.nodes, w.edges) && id in NodeIds(w.nodes) && !AsksHuman(w, id) && p.maxIterations >= 1
    requires |Targets(w.edges, id)| > 1
    ensures var s := Pass(w, p, Begin(w, id, initial), QuietTurn());
      s.Next? && Ids(s.c.trace) == [id] + Targets(w.edges, id)
  {
    NothingMatchesEmpty(OutgoingEdges(w.edges, id));
    TargetsAreNodes(w, id);
    var e := TraceEntry(id, Succeeded, 0, None);
    var next := Targets(w.edges, id);
    assert NextNodes(w.edges, id, map[]) == next;
    FanOutIds(w.nodes, next, QuietTurn().fanOut, 0, initial[id := map[]], [e]);
    assert next[0..] == next && [] + [e] == [e];
  }

  lemma RepeatsAreKept(early: seq<TraceEntry>, late: seq<TraceEntry>, ids: seq<string>)
    requires early <= late && Ids(early) == ids && !DistinctIds(ids)
    ensures !DistinctTrace(late)
  {
    var i, j :| 0 <= i < j < |ids| && ids[i] == ids[j];
    assert Ids(early)[i] == late[i].nodeId && Ids(early)[j] == late[j].nodeId;
  }

  /** Parallel edges are followed, and their target traced twice, by the quiet run that is entered at their source. */
  lemma ParallelEdgesRepeat(w: Workflow, p: Policy, rank: string -> nat, i: nat, j: nat)
    requires WellFormed(w.nodes, w.edges) && Ranked(w.edges, rank) && p.maxIterations >= 1
    requires i < j < |w.edges| && Parallel(w.edges[i], w.edges[j]) && !AsksHuman(w, w.edges[i].source)
    ensures !TracesOnce(Run(w, p, Begin(w, w.edges[i].source, map[]), k => QuietTurn(), 0))
  {
    var id, turns := w.edges[i].source, k => QuietTurn();
    var start := Begin(w, id, map[]);
    assert SoundEdge(w.nodes, w.edges[i]);
    TargetsAreDistinctIff(w.edges, id);
    assert !NoneParallelFrom(w.edges, id);
    QuietFanOut(w, p, id, map[]);
    AcyclicRunsFinish(w, p, rank, start, turns, 0);
    var n := RunStep(w, p, start, turns, 0);
    RunExtendsTrace(w, p, n, turns, 1);
    DistinctAfterFirst(id, Targets(w.edges, id));
    RepeatsAreKept(n.trace, Run(w, p, n, turns, 1).trace, [id] + Targets(w.edges, id));
  }

  /** No run, wherever it is entered and whatever the environment does, traces a node twice. */
  ghost predicate AlwaysTracesOnce(w: Workflow, p: Policy) {
    forall entry: string, initial: StateMap, turns: nat -> Turn :: TracesOnce(Run(w, p, Begin(w, entry, initial), turns, 0))
  }

  /** On a valid acyclic workflow no run traces a node twice exactly if no parallel edges leave a node that is not a
      question to a human. */
  lemma TracesOnceIff(w: Workflow, p: Policy, rank: string -> nat)
    requires WellFormed(w.nodes, w.edges) && Ranked(w.edges, rank) && p.maxIterations >= 1
    ensures AlwaysTracesOnce(w, p) <==> NoParallelEdges(w)
  {
    if NoParallelEdges(w) {
      forall entry: string, initial: StateMap, turns: nat -> Turn
        ensures TracesOnce(Run(w, p, Begin(w, entry, initial), turns, 0))
      {
        AcyclicWorkflowsTraceOnce(w, p, rank, entry, initial, turns);
      }
    }
    forall i, j | 0 <= i < j < |w.edges| && Parallel(w.edges[i], w.edges[j]) && !AsksHuman(w, w.edges[i].source)
      ensures !AlwaysTracesOnce(w, p)
    {
      ParallelEdgesRepeat(w, p, rank, i, j);
    }
  }
}
