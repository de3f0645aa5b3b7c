/** The graph runner's loop on a shared state (engine/src/core/runner/graph_runner.rs). */
module RunnerLoop {
  import opened Basics
  import opened Json
  import opened Graph
  import opened State
  import opened Runner
  import opened RunnerEffects

  datatype RunnerError = InvalidGraph(error: GraphError) | NoEntryNode

  lemma BranchesAreLeft(nodes: seq<NodeDef>, parallel: seq<string>, results: nat -> Execution, m: StateMap, trace: seq<TraceEntry>)
    ensures (forall j :: 0 <= j < |parallel| ==> parallel[j] in NodeIds(nodes)) ==>
      var (m', trace') := FanOut(nodes, parallel, results, 0, m, trace);
      BranchesLeave(parallel, results, 0, m, trace, m', trace')
  {
    if forall j :: 0 <= j < |parallel| ==> parallel[j] in NodeIds(nodes) {
      FanOutLeaves(nodes, parallel, results, 0, m, trace);
    }
  }

  lemma SuccessIsLeft(w: Workflow, c: Config, id: string, output: Output, retries: nat, t: Turn)
    ensures WellFormed(w.nodes, w.edges) ==>
      var n := AfterSuccess(w, c, id, output, retries, t);
      n.saved.Some?
      && SuccessLeaves(w, id, output, retries, t, c.step, c.state, c.trace, n.state, n.trace, n.saved.value, n.cursor)
  {
    if WellFormed(w.nodes, w.edges) {
      AfterSuccessLeaves(w, c, id, output, retries, t);
    }
  }

  /** What `FailureLeaves` says of the step after a failure. */
  ghost predicate StepLeaves(w: Workflow, p: Policy, c: Config, id: string, error: string, retries: nat, s: Step)
    requires id in NodeIds(w.nodes)
  {
    match s
    case Next(n) =>
      FailureLeaves(w, p.onFailure(NodeById(w.nodes, id)), id, error, retries, c.state, c.trace, n.state, n.trace, false, n.cursor)
    case Halt(Finished(_, m', trace')) =>
      FailureLeaves(w, p.onFailure(NodeById(w.nodes, id)), id, error, retries, c.state, c.trace, m', trace', true, None)
    case _ => false
  }

  lemma FailureIsLeft(w: Workflow, p: Policy, c: Config, id: string, error: string, retries: nat)
    requires id in NodeIds(w.nodes)
    ensures WellFormed(w.nodes, w.edges) ==> StepLeaves(w, p, c, id, error, retries, AfterFailure(w, p, c, id, error, retries))
  {
    if WellFormed(w.nodes, w.edges) {
      AfterFailureLeaves(w, p, c, id, error, retries);
    }
  }

  lemma SkipMoves(w: Workflow, id: string)
    ensures WellFormed(w.nodes, w.edges) ==>
      MovesTo(w.edges, id, map[], Resolve(w.nodes, First(NextNodes(w.edges, id, map[]))))
  {
    if WellFormed(w.nodes, w.edges) {
      ResolvedFirst(w, id, map[]);
    }
  }

  /** What a pass leaves where the node is not executed, or executed without an effect: the shared map, and the result it
      ends with or where it goes on. */
  ghost predicate PassLeaves(w: Workflow, p: Policy, id: string, t: Turn, m: StateMap, trace: seq<TraceEntry>,
                             visits: map<string, nat>, step: nat, ended: Option<RunResult>, m': StateMap, next: Config) {
    var seen := if id in visits then visits[id] else 0;
    if t.pause then ended == Some(Finished(Paused(id), m, trace)) && m' == m
    else if seen >= p.maxIterations then ended == Some(MaxIterationsExceeded(id, seen + 1)) && m' == m
    else if AsksHuman(w, id) then ended == Some(Finished(AwaitsHuman(id), m, trace)) && m' == m
    else
      match t.pre
      case Abort(reason) => ended == Some(Finished(Failed(reason), m, trace)) && m' == m
      case SkipNode =>
        && ended == None && m' == m[id := map[]] && next.trace == trace && next.step == step + 1
        && next.visits == visits[id := seen + 1]
        && (WellFormed(w.nodes, w.edges) ==> MovesTo(w.edges, id, map[], next.cursor))
      case Proceed =>
        t.execution.Broken? && t.retryOnError ==>
          && ended == None && m' == m && next.trace == trace && next.step == step
          && next.visits == visits[id := seen + 1] && next.cursor == Some(id)
  }

  /** `execute_fanout`. */
  method ExecuteFanOut(nodes: seq<NodeDef>, parallel: seq<string>, results: nat -> Execution, state: ExecutionState,
                       trace: seq<TraceEntry>)
    returns (trace': seq<TraceEntry>)
    modifies state.inner
    ensures (state.inner.m, trace') == FanOut(nodes, parallel, results, 0, old(state.inner.m), trace)
    ensures (forall j :: 0 <= j < |parallel| ==> parallel[j] in NodeIds(nodes)) ==>
      BranchesLeave(parallel, results, 0, old(state.inner.m), trace, state.inner.m, trace')
  {
    BranchesAreLeft(nodes, parallel, results, state.inner.m, trace);
    trace' := trace;
    for i := 0 to |parallel|
      invariant FanOut(nodes, parallel, results, i, state.inner.m, trace') == FanOut(nodes, parallel, results, 0, old(state.inner.m), trace)
    {
      if parallel[i] in NodeIds(nodes) {
        match results(i) {
          case Done(output, _) =>
            var _ := state.Set(parallel[i], output, true);
            trace' := trace' + [TraceEntry(parallel[i], Succeeded, 0, None)];
          case Broken(error, _) =>
            trace' := trace' + [TraceEntry(parallel[i], Errored, 0, Some(error))];
        }
      }
    }
  }

  /** `handle_node_success`. */
  method HandleNodeSuccess(w: Workflow, id: string, output: Output, retries: nat, turn: Turn, state: ExecutionState,
                           trace: seq<TraceEntry>, ghost visits: map<string, nat>, step: nat)
    returns (cursor: Option<string>, trace': seq<TraceEntry>, saved: Checkpoint)
    modifies state.inner
    ensures forall before ::
      AfterSuccess(w, Config(Some(id), old(state.inner.m), trace, visits, step, before), id, output, retries, turn)
        == Config(cursor, state.inner.m, trace', visits, step + 1, Some(saved))
    ensures WellFormed(w.nodes, w.edges) ==>
      SuccessLeaves(w, id, output, retries, turn, step, old(state.inner.m), trace, state.inner.m, trace', saved, cursor)
  {
    SuccessIsLeft(w, Config(Some(id), state.inner.m, trace, visits, step, None), id, output, retries, turn);
    var _ := state.Set(id, output, true);
    trace' := trace + [TraceEntry(id, Succeeded, retries, None)];
    var routed := if turn.hookedOutput.Some? then turn.hookedOutput.value else output;
    var next := NextNodes(w.edges, id, routed);
    var target := First(next);
    if |next| > 1 {
      trace' := ExecuteFanOut(w.nodes, next, turn.fanOut, state, trace');
      target := JoinNode(w.edges, next, turn.join);
    }
    saved := Checkpoint(step + 1, id, state.inner.m, target);
    cursor := Resolve(w.nodes, target);
  }

  /** `handle_node_failure` once the error hook has declined a retry; `stopped` ends the run. */
  method HandleNodeFailure(w: Workflow, p: Policy, id: string, error: string, retries: nat, state: ExecutionState,
                           trace: seq<TraceEntry>, ghost c: Config)
    returns (stopped: bool, cursor: Option<string>, trace': seq<TraceEntry>)
    requires id in NodeIds(w.nodes) && c.state == state.inner.m && c.trace == trace
    modifies state.inner
    ensures AfterFailure(w, p, c, id, error, retries)
      == if stopped then Halt(Finished(Failed(error), state.inner.m, trace'))
         else Next(c.(state := state.inner.m, trace := trace', cursor := cursor))
    ensures WellFormed(w.nodes, w.edges) ==>
      FailureLeaves(w, p.onFailure(NodeById(w.nodes, id)), id, error, retries, old(state.inner.m), trace, state.inner.m, trace',
                    stopped, cursor)
  {
    FailureIsLeft(w, p, c, id, error, retries);
    stopped, cursor := false, None;
    match p.onFailure(NodeById(w.nodes, id)) {
      case Stop =>
        trace' := trace + [TraceEntry(id, Errored, retries, Some(error))];
        stopped := true;
      case Skip =>
        var _ := state.Set(id, map[], true);
        trace' := trace + [TraceEntry(id, Skipped, retries, Some(error))];
        cursor := Resolve(w.nodes, First(NextNodes(w.edges, id, map[])));
      case RouteToError =>
        var output := map[ERROR_FIELD := Str(error)];
        var _ := state.Set(id, output, true);
        trace' := trace + [TraceEntry(id, Errored, retries, Some(error))];
        cursor := Resolve(w.nodes, First(NextNodes(w.edges, id, output)));
    }
  }

  /** The body of the loop in `run_from`: either the result the run ends with, or where it goes on. */
  method RunNode(w: Workflow, p: Policy, id: string, turn: Turn, state: ExecutionState, trace: seq<TraceEntry>,
                 visits: map<string, nat>, step: nat, saved: Option<Checkpoint>)
    returns (ended: Option<RunResult>, next: Config)
    requires id in NodeIds(w.nodes)
    modifies state.inner
    ensures Pass(w, p, Config(Some(id), old(state.inner.m), trace, visits, step, saved), turn)
      == if ended.Some? then Halt(ended.value) else Next(next)
    ensures ended == None ==> next.state == state.inner.m
    ensures ended.Some? && ended.value.Finished? ==> ended.value.state == state.inner.m
    ensures PassLeaves(w, p, id, turn, old(state.inner.m), trace, visits, step, ended, state.inner.m, next)
  {
    ghost var c := Config(Some(id), state.inner.m, trace, visits, step, saved);
    ended, next := None, Config(Some(id), state.inner.m, trace, visits, step, saved);
    if turn.pause {
      return Some(Finished(Paused(id), state.inner.m, trace)), next;
    }
    var count := VisitsOf(visits, id) + 1;
    if count > p.maxIterations {
      return Some(MaxIterationsExceeded(id, count)), next;
    }
    next := next.(visits := visits[id := count]);
    if NodeById(w.nodes, id).toolType == HUMAN_INPUT_TOOL {
      return Some(Finished(AwaitsHuman(id), state.inner.m, trace)), next;
    }
    if turn.pre.Abort? {
      return Some(Finished(Failed(turn.pre.reason), state.inner.m, trace)), next;
    }
    if turn.pre.SkipNode? {
      SkipMoves(w, id);
      var _ := state.Set(id, map[], true);
      next := next.(state := state.inner.m, step := step + 1,
                    cursor := Resolve(w.nodes, First(NextNodes(w.edges, id, map[]))));
      return None, next;
    }
    match turn.execution {
      case Done(output, retries) =>
        var cursor, trace', checkpoint := HandleNodeSuccess(w, id, output, retries, turn, state, trace, next.visits, step);
        next := Config(cursor, state.inner.m, trace', next.visits, step + 1, Some(checkpoint));
      case Broken(error, retries) =>
        if !turn.retryOnError {
          var stopped, cursor, trace' := HandleNodeFailure(w, p, id, error, retries, state, trace, next);
          if stopped {
            return Some(Finished(Failed(error), state.inner.m, trace')), next;
          }
          next := next.(state := state.inner.m, trace := trace', cursor := cursor);
        }
    }
  }

  /** `run_from`: the hook at the start, then the loop over a cursor, a shared state and a growing trace. */
  method RunFrom(w: Workflow, p: Policy, veto: Option<string>, entry: string, state: ExecutionState, turns: nat -> Turn)
    returns (r: RunResult)
    modifies state.inner
    ensures r == Launched(w, p, veto, entry, old(state.inner.m), turns)
    ensures r.Finished? ==> r.state == state.inner.m
    ensures veto.Some? ==> r == Finished(Failed(veto.value), old(state.inner.m), []) && state.inner.m == old(state.inner.m)
  {
    if veto.Some? {
      return Finished(Failed(veto.value), state.inner.m, []);
    }
    var c := Begin(w, entry, state.inner.m);
    var k := 0;
    ghost var result := Run(w, p, c, turns, 0);
    while c.cursor.Some?
      invariant OnNode(w, c) && c.state == state.inner.m
      invariant Run(w, p, c, turns, k) == result
      decreases Budget(w.nodes, c.visits, p.maxIterations)
    {
      BudgetDropsOnPass(w, p, c, turns(k));
      var ended, next := RunNode(w, p, c.cursor.value, turns(k), state, c.trace, c.visits, c.step, c.saved);
      if ended.Some? {
        return ended.value;
      }
      c, k := next, k + 1;
    }
    return Finished(Completed, state.inner.m, c.trace);
  }

  lemma BudgetDropsOnPass(w: Workflow, p: Policy, c: Config, t: Turn)
    requires OnNode(w, c) && c.cursor.Some?
    ensures Pass(w, p, c, t).Next? ==>
      Budget(w.nodes, Pass(w, p, c, t).c.visits, p.maxIterations) < Budget(w.nodes, c.visits, p.maxIterations)
  {
    if Pass(w, p, c, t).Next? {
      BudgetDrops(w.nodes, c.visits, p.maxIterations, c.cursor.value);
    }
  }

  /** `run_with_state`: validate, start at the first entry node, run. */
  method RunWithState(graph: GraphDef, p: Policy, veto: Option<string>, state: ExecutionState, turns: nat -> Turn)
    returns (r: Result<RunResult, RunnerError>)
    modifies state.inner
    ensures r.Err? ==> state.inner.m == old(state.inner.m)
    ensures r.Ok? <==> WellFormed(graph.nodes, graph.edges) && EntryNodes(graph.nodes, graph.edges) != []
    ensures r.Ok? ==>
      var w := Workflow(graph.nodes, graph.edges);
      r.value == Launched(w, p, veto, EntryNodes(graph.nodes, graph.edges)[0].id, old(state.inner.m), turns)
    ensures r.Err? && r.error.InvalidGraph? ==> Reports(graph.nodes, graph.edges, r.error.error)
  {
    var valid := graph.Validate();
    if valid.Err? {
      return Err(InvalidGraph(valid.error));
    }
    var entries := EntryNodes(graph.nodes, graph.edges);
    if entries == [] {
      return Err(NoEntryNode);
    }
    var result := RunFrom(Workflow(graph.nodes, graph.edges), p, veto, entries[0].id, state, turns);
    return Ok(result);
  }
}
