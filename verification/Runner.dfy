/** The graph runner's main loop (engine/src/core/runner/graph_runner.rs).

    The environment of a run (tools, hooks, pause requests, and the pick among several join nodes) is an
    arbitrary sequence of turns, one per pass of the loop. Every result below holds for all of them. */
module Runner {
  import opened Basics
  import opened Json
  import opened Graph
  import opened State

  const HUMAN_INPUT_TOOL := "logic/human_input"
  const ERROR_FIELD := "__error__"

  datatype FailureMode = Stop | Skip | RouteToError

  datatype TraceStatus = Succeeded | Errored | Skipped

  datatype TraceEntry = TraceEntry(nodeId: string, status: TraceStatus, retries: nat, error: Option<string>)

  datatype Workflow = Workflow(nodes: seq<NodeDef>, edges: seq<EdgeDef>)

  /** The runner's settings: visits allowed per node, and each node's failure mode. */
  datatype Policy = Policy(maxIterations: nat, onFailure: NodeDef -> FailureMode)

  /** What executing a node with its retries came to. */
  datatype Execution = Done(output: Output, retries: nat) | Broken(error: string, retries: nat)

  /** What the hook before a node asks for. */
  datatype PreHook = Proceed | SkipNode | Abort(reason: string)

  /** Everything the environment contributes to one pass of the loop. */
  datatype Turn = Turn(
    pause: bool,
    pre: PreHook,
    execution: Execution,
    retryOnError: bool,
    hookedOutput: Option<Output>,
    fanOut: nat -> Execution,
    join: string)

  /** What is saved for a later resume. */
  datatype Checkpoint = Checkpoint(step: nat, nodeId: string, snapshot: StateMap, cursor: Option<string>)

  datatype Config = Config(
    cursor: Option<string>,
    state: StateMap,
    trace: seq<TraceEntry>,
    visits: map<string, nat>,
    step: nat,
    saved: Option<Checkpoint>)

  datatype Status = Completed | Failed(error: string) | Paused(nodeId: string) | AwaitsHuman(nodeId: string)

  datatype RunResult =
    | Finished(status: Status, state: StateMap, trace: seq<TraceEntry>)
    | MaxIterationsExceeded(nodeId: string, visits: nat)

  datatype Step = Next(c: Config) | Halt(r: RunResult)

  // ---------------------------------------------------------------------------
  // Routing
  // ---------------------------------------------------------------------------

  /** `str::contains`. */
  predicate ContainsText(s: string, sub: string) {
    sub <= s || (s != "" && ContainsText(s[1..], sub))
  }

  /** `evaluate_condition`. */
  predicate Evaluate(output: Output, condition: EdgeCondition) {
    condition.field in output &&
    var actual, expected := output[condition.field], condition.value;
    match condition.op
    case Eq => actual == expected
    case Neq => actual != expected
    case Gt => actual.Num? && expected.Num? && actual.n.Value() > expected.n.Value()
    case Lt => actual.Num? && expected.Num? && actual.n.Value() < expected.n.Value()
    case Gte => actual.Num? && expected.Num? && actual.n.Value() >= expected.n.Value()
    case Lte => actual.Num? && expected.Num? && actual.n.Value() <= expected.n.Value()
    case In => expected.Arr? && actual in expected.items
    case Contains =>
      if actual.Str? then expected.Str? && ContainsText(actual.s, expected.s)
      else actual.Arr? && expected in actual.items
  }

  /** The target of the first conditional edge whose condition holds. */
  function FirstMatch(outgoing: seq<EdgeDef>, output: Output): Option<string> {
    if outgoing == [] then None
    else if outgoing[0].condition.Some? && Evaluate(output, outgoing[0].condition.value) then Some(outgoing[0].target)
    else FirstMatch(outgoing[1..], output)
  }

  function UnconditionalTargets(outgoing: seq<EdgeDef>): seq<string> {
    if outgoing == [] then []
    else if outgoing[0].condition == None then [outgoing[0].target] + UnconditionalTargets(outgoing[1..])
    else UnconditionalTargets(outgoing[1..])
  }

  /** `resolve_all_next_nodes`: the first matching conditional edge, else all unconditional ones. */
  function NextNodes(edges: seq<EdgeDef>, id: string, output: Output): seq<string> {
    var outgoing := OutgoingEdges(edges, id);
    match FirstMatch(outgoing, output)
    case Some(target) => [target]
    case None => UnconditionalTargets(outgoing)
  }

  /** Where the unconditional edges of a node lead. */
  function Targets(edges: seq<EdgeDef>, id: string): seq<string> {
    UnconditionalTargets(OutgoingEdges(edges, id))
  }

  function First(ids: seq<string>): Option<string> {
    if ids == [] then None else Some(ids[0])
  }

  predicate InAllTargets(edges: seq<EdgeDef>, parallel: seq<string>, x: string) {
    forall i :: 0 <= i < |parallel| ==> x in UnconditionalTargets(OutgoingEdges(edges, parallel[i]))
  }

  /** The common unconditional successors of parallel nodes. */
  function JoinCandidates(edges: seq<EdgeDef>, parallel: seq<string>): set<string> {
    if parallel == [] then {}
    else
      set x | x in UnconditionalTargets(OutgoingEdges(edges, parallel[0])) && InAllTargets(edges, parallel, x)
  }

  /** `find_fanout_join`: some common successor if there is one. A set has no order to pick by, so the pick
      is the environment's; the edge order settles it when the environment names no candidate. */
  function JoinNode(edges: seq<EdgeDef>, parallel: seq<string>, pick: string): (r: Option<string>)
    ensures r == None <==> JoinCandidates(edges, parallel) == {}
    ensures r.Some? ==> r.value in JoinCandidates(edges, parallel)
    ensures pick in JoinCandidates(edges, parallel) ==> r == Some(pick)
  {
    var candidates := JoinCandidates(edges, parallel);
    if candidates == {} then None
    else if pick in candidates then Some(pick)
    else Some(FirstIn(UnconditionalTargets(OutgoingEdges(edges, parallel[0])), candidates))
  }

  function FirstIn(ids: seq<string>, candidates: set<string>): (r: string)
    requires exists x :: x in ids && x in candidates
    ensures r in candidates
  {
    if ids[0] in candidates then ids[0] else FirstIn(ids[1..], candidates)
  }

  // ---------------------------------------------------------------------------
  // One pass of the loop
  // ---------------------------------------------------------------------------

  function NodeById(nodes: seq<NodeDef>, id: string): (n: NodeDef)
    requires id in NodeIds(nodes)
    ensures n in nodes && n.id == id
  {
    if nodes[0].id == id then nodes[0] else
      assert id in NodeIds(nodes[1..]) by {
        var i :| 0 <= i < |nodes| && nodes[i].id == id;
        assert nodes[1..][i - 1] == nodes[i];
      }
      NodeById(nodes[1..], id)
  }

  /** The node stands for a question to a human. */
  predicate AsksHuman(w: Workflow, id: string) {
    id in NodeIds(w.nodes) && NodeById(w.nodes, id).toolType == HUMAN_INPUT_TOOL
  }

  /** `node_idx.get`: an id that names no node leaves the cursor empty. */
  function Resolve(nodes: seq<NodeDef>, id: Option<string>): (r: Option<string>)
    ensures r.Some? ==> r.value in NodeIds(nodes)
  {
    if id.Some? && id.value in NodeIds(nodes) then id else None
  }

  function VisitsOf(visits: map<string, nat>, id: string): nat {
    if id in visits then visits[id] else 0
  }

  /** `execute_fanout` from the `i`-th parallel node on: outputs are stored and failures only traced. */
  function FanOut(nodes: seq<NodeDef>, parallel: seq<string>, results: nat -> Execution, i: nat,
                  state: StateMap, trace: seq<TraceEntry>): (StateMap, seq<TraceEntry>)
    decreases |parallel| - i
  {
    if i >= |parallel| then (state, trace)
    else if parallel[i] !in NodeIds(nodes) then FanOut(nodes, parallel, results, i + 1, state, trace)
    else
      match results(i)
      case Done(output, _) =>
        FanOut(nodes, parallel, results, i + 1, state[parallel[i] := output],
               trace + [TraceEntry(parallel[i], Succeeded, 0, None)])
      case Broken(error, _) =>
        FanOut(nodes, parallel, results, i + 1, state, trace + [TraceEntry(parallel[i], Errored, 0, Some(error))])
  }

  /** `handle_node_success`. Routing uses the output as the hook after the node left it. */
  function AfterSuccess(w: Workflow, c: Config, id: string, output: Output, retries: nat, t: Turn): Config {
    var state := c.state[id := output];
    var trace := c.trace + [TraceEntry(id, Succeeded, retries, None)];
    var step := c.step + 1;
    var routed := if t.hookedOutput.Some? then t.hookedOutput.value else output;
    var next := NextNodes(w.edges, id, routed);
    if |next| > 1 then
      var (state', trace') := FanOut(w.nodes, next, t.fanOut, 0, state, trace);
      var join := JoinNode(w.edges, next, t.join);
      Config(Resolve(w.nodes, join), state', trace', c.visits, step, Some(Checkpoint(step, id, state', join)))
    else
      Config(Resolve(w.nodes, First(next)), state, trace, c.visits, step, Some(Checkpoint(step, id, state, First(next))))
  }

  /** `handle_node_failure` after the hook declined a retry. */
  function AfterFailure(w: Workflow, p: Policy, c: Config, id: string, error: string, retries: nat): Step
    requires id in NodeIds(w.nodes)
  {
    match p.onFailure(NodeById(w.nodes, id))
    case Stop =>
      Halt(Finished(Failed(error), c.state, c.trace + [TraceEntry(id, Errored, retries, Some(error))]))
    case Skip =>
      Next(c.(state := c.state[id := map[]],
              trace := c.trace + [TraceEntry(id, Skipped, retries, Some(error))],
              cursor := Resolve(w.nodes, First(NextNodes(w.edges, id, map[])))))
    case RouteToError =>
      var output := map[ERROR_FIELD := Str(error)];
      Next(c.(state := c.state[id := output],
              trace := c.trace + [TraceEntry(id, Errored, retries, Some(error))],
              cursor := Resolve(w.nodes, First(NextNodes(w.edges, id, output)))))
  }

  /** What executing the node leads to; the error hook may ask for it to be tried again. */
  function Execute(w: Workflow, p: Policy, c: Config, id: string, t: Turn): (s: Step)
    requires id in NodeIds(w.nodes)
    ensures s.Next? ==> s.c.visits == c.visits && (s.c.cursor == c.cursor || OnNode(w, s.c))
  {
    match t.execution
    case Done(output, retries) => Next(AfterSuccess(w, c, id, output, retries, t))
    case Broken(error, retries) => if t.retryOnError then Next(c) else AfterFailure(w, p, c, id, error, retries)
  }

  ghost predicate OnNode(w: Workflow, c: Config) {
    c.cursor.Some? ==> c.cursor.value in NodeIds(w.nodes)
  }

  function Visited(c: Config, id: string): Config {
    c.(visits := c.visits[id := VisitsOf(c.visits, id) + 1])
  }

  /** What the hook before a node makes of it, once the visit is counted. */
  function Enter(w: Workflow, p: Policy, c: Config, id: string, t: Turn): (s: Step)
    requires id in NodeIds(w.nodes)
    ensures s.Next? ==> s.c.visits == c.visits && (s.c.cursor == c.cursor || OnNode(w, s.c))
  {
    if AsksHuman(w, id) then Halt(Finished(AwaitsHuman(id), c.state, c.trace))
    else
      match t.pre
      case Abort(reason) => Halt(Finished(Failed(reason), c.state, c.trace))
      case SkipNode =>
        Next(c.(state := c.state[id := map[]], step := c.step + 1,
                cursor := Resolve(w.nodes, First(NextNodes(w.edges, id, map[])))))
      case Proceed => Execute(w, p, c, id, t)
  }

  /** One pass of the loop over the node under the cursor. */
  function Pass(w: Workflow, p: Policy, c: Config, t: Turn): (s: Step)
    requires OnNode(w, c) && c.cursor.Some?
    ensures s.Next? ==>
      && OnNode(w, s.c)
      && VisitsOf(c.visits, c.cursor.value) < p.maxIterations
      && s.c.visits == c.visits[c.cursor.value := VisitsOf(c.visits, c.cursor.value) + 1]
  {
    var id := c.cursor.value;
    var visits := VisitsOf(c.visits, id) + 1;
    if t.pause then Halt(Finished(Paused(id), c.state, c.trace))
    else if visits > p.maxIterations then Halt(MaxIterationsExceeded(id, visits))
    else Enter(w, p, Visited(c, id), id, t)
  }

  // ---------------------------------------------------------------------------
  // Whole runs
  // ---------------------------------------------------------------------------

  /** How many passes the visit limit still allows. */
  function Budget(nodes: seq<NodeDef>, visits: map<string, nat>, max: nat): nat {
    if nodes == [] then 0
    else
      var v := VisitsOf(visits, nodes[0].id);
      (if v < max then max - v else 0) + Budget(nodes[1..], visits, max)
  }

  lemma {:induction false} BudgetDrops(nodes: seq<NodeDef>, visits: map<string, nat>, max: nat, id: string)
    requires VisitsOf(visits, id) < max
    ensures var after := Budget(nodes, visits[id := VisitsOf(visits, id) + 1], max);
      after <= Budget(nodes, visits, max) && (id in NodeIds(nodes) ==> after < Budget(nodes, visits, max))
  {
    if nodes != [] {
      BudgetDrops(nodes[1..], visits, max, id);
      if id in NodeIds(nodes) && nodes[0].id != id {
        var i :| 0 <= i < |nodes| && nodes[i].id == id;
        assert nodes[1..][i - 1].id == id;
      }
    }
  }

  lemma {:induction false} InitialBudget(nodes: seq<NodeDef>, max: nat)
    ensures Budget(nodes, map[], max) == |nodes| * max
  {
    if nodes != [] {
      InitialBudget(nodes[1..], max);
    }
  }

  /** A run from configuration `c`, with the environment's turns from the `k`-th on. */
  function Run(w: Workflow, p: Policy, c: Config, turns: nat -> Turn, k: nat): RunResult
    requires OnNode(w, c)
    decreases Budget(w.nodes, c.visits, p.maxIterations)
  {
    if c.cursor == None then Finished(Completed, c.state, c.trace)
    else
      match Pass(w, p, c, turns(k))
      case Halt(r) => r
      case Next(next) =>
        BudgetDrops(w.nodes, c.visits, p.maxIterations, c.cursor.value);
        Run(w, p, next, turns, k + 1)
  }

  /** How many passes a run makes. */
  function Passes(w: Workflow, p: Policy, c: Config, turns: nat -> Turn, k: nat): nat
    requires OnNode(w, c)
    decreases Budget(w.nodes, c.visits, p.maxIterations)
  {
    if c.cursor == None then 0
    else
      match Pass(w, p, c, turns(k))
      case Halt(_) => 1
      case Next(next) =>
        BudgetDrops(w.nodes, c.visits, p.maxIterations, c.cursor.value);
        1 + Passes(w, p, next, turns, k + 1)
  }

  /** A run goes on from where its first pass leaves it, with less of the budget left. */
  lemma RunStep(w: Workflow, p: Policy, c: Config, turns: nat -> Turn, k: nat) returns (n: Config)
    requires OnNode(w, c) && c.cursor.Some? && Pass(w, p, c, turns(k)).Next?
    ensures n == Pass(w, p, c, turns(k)).c && OnNode(w, n)
    ensures n.visits == c.visits[c.cursor.value := VisitsOf(c.visits, c.cursor.value) + 1]
    ensures Run(w, p, c, turns, k) == Run(w, p, n, turns, k + 1)
    ensures Budget(w.nodes, n.visits, p.maxIterations) < Budget(w.nodes, c.visits, p.maxIterations)
  {
    n := Pass(w, p, c, turns(k)).c;
    BudgetDrops(w.nodes, c.visits, p.maxIterations, c.cursor.value);
  }

  /** Where a run begins: `run_from` with fresh counters. */
  function Begin(w: Workflow, entry: string, state: StateMap): (c: Config)
    ensures OnNode(w, c)
  {
    Config(Resolve(w.nodes, Some(entry)), state, [], map[], 0, None)
  }

  /** A whole execution: the hook at the start may veto it, otherwise it runs from the entry. */
  function Launched(w: Workflow, p: Policy, veto: Option<string>, entry: string, state: StateMap, turns: nat -> Turn): RunResult {
    if veto.Some? then Finished(Failed(veto.value), state, []) else Run(w, p, Begin(w, entry, state), turns, 0)
  }

  /** Every run ends, whatever tools and hooks do, after at most one pass more than the visit limits add up to. */
  lemma RunsAreBounded(w: Workflow, p: Policy, entry: string, state: StateMap, turns: nat -> Turn)
    ensures Passes(w, p, Begin(w, entry, state), turns, 0) <= |w.nodes| * p.maxIterations + 1
  {
    InitialBudget(w.nodes, p.maxIterations);
    PassesWithinBudget(w, p, Begin(w, entry, state), turns, 0);
  }

  lemma {:induction false} PassesWithinBudget(w: Workflow, p: Policy, c: Config, turns: nat -> Turn, k: nat)
    requires OnNode(w, c)
    ensures Passes(w, p, c, turns, k) <= Budget(w.nodes, c.visits, p.maxIterations) + 1
    decreases Budget(w.nodes, c.visits, p.maxIterations)
  {
    if c.cursor.Some? && Pass(w, p, c, turns(k)).Next? {
      BudgetDrops(w.nodes, c.visits, p.maxIterations, c.cursor.value);
      PassesWithinBudget(w, p, Pass(w, p, c, turns(k)).c, turns, k + 1);
    }
  }
}
