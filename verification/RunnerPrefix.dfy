/** A run depends on where it is and what the state holds, not on how it got there
    (engine/src/core/runner/graph_runner.rs). */
module RunnerPrefix {
  import opened Basics
  import opened Graph
  import opened State
  import opened Runner

  /** `later` is at the same point as `c`, with a shorter trace and no more visits counted. */
  ghost predicate SamePoint(c: Config, later: Config, before: seq<TraceEntry>) {
    && c.cursor == later.cursor && c.state == later.state
    && c.trace == before + later.trace
    && forall n :: VisitsOf(later.visits, n) <= VisitsOf(c.visits, n)
  }

  /** The result with the trace that came before put in front. */
  function Prefixed(before: seq<TraceEntry>, r: RunResult): RunResult {
    if r.Finished? then r.(trace := before + r.trace) else r
  }

  lemma {:induction false} FanOutPrefixed(nodes: seq<NodeDef>, parallel: seq<string>, results: nat -> Execution, i: nat,
                                          state: StateMap, before: seq<TraceEntry>, trace: seq<TraceEntry>)
    ensures var (s, t) := FanOut(nodes, parallel, results, i, state, trace);
      FanOut(nodes, parallel, results, i, state, before + trace) == (s, before + t)
    decreases |parallel| - i
  {
    if i < |parallel| {
      if parallel[i] !in NodeIds(nodes) {
        FanOutPrefixed(nodes, parallel, results, i + 1, state, before, trace);
      } else {
        match results(i)
        case Done(output, _) =>
          var e := TraceEntry(parallel[i], Succeeded, 0, None);
          assert before + trace + [e] == before + (trace + [e]);
          FanOutPrefixed(nodes, parallel, results, i + 1, state[parallel[i] := output], before, trace + [e]);
        case Broken(error, _) =>
          var e := TraceEntry(parallel[i], Errored, 0, Some(error));
          assert before + trace + [e] == before + (trace + [e]);
          FanOutPrefixed(nodes, parallel, results, i + 1, state, before, trace + [e]);
      }
    }
  }

  lemma SuccessAtSamePoint(w: Workflow, c: Config, later: Config, before: seq<TraceEntry>, id: string, output: Output,
                           retries: nat, t: Turn)
    requires SamePoint(c, later, before)
    ensures SamePoint(AfterSuccess(w, c, id, output, retries, t), AfterSuccess(w, later, id, output, retries, t), before)
  {
    var e := TraceEntry(id, Succeeded, retries, None);
    assert before + later.trace + [e] == before + (later.trace + [e]);
    var routed := if t.hookedOutput.Some? then t.hookedOutput.value else output;
    var next := NextNodes(w.edges, id, routed);
    if |next| > 1 {
      FanOutPrefixed(w.nodes, next, t.fanOut, 0, c.state[id := output], before, later.trace + [e]);
    }
  }

  lemma FailureAtSamePoint(w: Workflow, p: Policy, c: Config, later: Config, before: seq<TraceEntry>, id: string,
                           error: string, retries: nat)
    requires SamePoint(c, later, before) && id in NodeIds(w.nodes)
    ensures SameStep(AfterFailure(w, p, c, id, error, retries), AfterFailure(w, p, later, id, error, retries), before)
  {
    forall e: TraceEntry
      ensures before + later.trace + [e] == before + (later.trace + [e])
    {}
  }

  lemma VisitedAtSamePoint(c: Config, later: Config, before: seq<TraceEntry>, id: string)
    requires SamePoint(c, later, before)
    ensures SamePoint(Visited(c, id), Visited(later, id), before)
  {
    forall n
      ensures VisitsOf(Visited(later, id).visits, n) <= VisitsOf(Visited(c, id).visits, n)
    {
      assert VisitsOf(later.visits, n) <= VisitsOf(c.visits, n);
    }
  }

  /** Two outcomes of a pass that differ only by the trace before. */
  ghost predicate SameStep(s: Step, later: Step, before: seq<TraceEntry>) {
    match (s, later)
    case (Next(n), Next(m)) => SamePoint(n, m, before)
    case (Halt(r), Halt(q)) => r == Prefixed(before, q)
    case _ => false
  }

  lemma ExecuteAtSamePoint(w: Workflow, p: Policy, c: Config, later: Config, before: seq<TraceEntry>, id: string, t: Turn)
    requires SamePoint(c, later, before) && id in NodeIds(w.nodes)
    ensures SameStep(Execute(w, p, c, id, t), Execute(w, p, later, id, t), before)
  {
    match t.execution
    case Done(output, retries) => SuccessAtSamePoint(w, c, later, before, id, output, retries, t);
    case Broken(error, retries) => FailureAtSamePoint(w, p, c, later, before, id, error, retries);
  }

  lemma EnterAtSamePoint(w: Workflow, p: Policy, c: Config, later: Config, before: seq<TraceEntry>, id: string, t: Turn)
    requires SamePoint(c, later, before) && id in NodeIds(w.nodes)
    ensures SameStep(Enter(w, p, c, id, t), Enter(w, p, later, id, t), before)
  {
    if t.pre.Proceed? {
      ExecuteAtSamePoint(w, p, c, later, before, id, t);
    }
  }

  lemma PassAtSamePoint(w: Workflow, p: Policy, c: Config, later: Config, before: seq<TraceEntry>, t: Turn)
    requires SamePoint(c, later, before) && OnNode(w, c) && c.cursor.Some?
    requires VisitsOf(c.visits, c.cursor.value) < p.maxIterations || t.pause
    ensures SameStep(Pass(w, p, c, t), Pass(w, p, later, t), before)
  {
    var id := c.cursor.value;
    assert VisitsOf(later.visits, id) <= VisitsOf(c.visits, id);
    VisitedAtSamePoint(c, later, before, id);
    EnterAtSamePoint(w, p, Visited(c, id), Visited(later, id), before, id, t);
  }

  /** A run that does not fail by the visit limit depends only on where it is and what the state holds: the same
      point with a fresh trace and fresh counts gives the same result, less the trace so far. */
  lemma {:induction false} RunFromSamePoint(w: Workflow, p: Policy, c: Config, later: Config, before: seq<TraceEntry>,
                                            turns: nat -> Turn, k: nat)
    requires SamePoint(c, later, before) && OnNode(w, c) && Run(w, p, c, turns, k).Finished?
    ensures Run(w, p, c, turns, k) == Prefixed(before, Run(w, p, later, turns, k))
    decreases Budget(w.nodes, c.visits, p.maxIterations)
  {
    if c.cursor.Some? {
      PassAtSamePoint(w, p, c, later, before, turns(k));
      if Pass(w, p, c, turns(k)).Next? {
        var n := RunStep(w, p, c, turns, k);
        var m := RunStep(w, p, later, turns, k);
        RunFromSamePoint(w, p, n, m, before, turns, k + 1);
      }
    }
  }

  /** What a run has traced by now stays at the front of its trace. */
  lemma RunExtendsTrace(w: Workflow, p: Policy, c: Config, turns: nat -> Turn, k: nat)
    requires OnNode(w, c) && Run(w, p, c, turns, k).Finished?
    ensures c.trace <= Run(w, p, c, turns, k).trace
  {
    RunFromSamePoint(w, p, c, c.(trace := [], visits := map[]), c.trace, turns, k);
  }
}
