/** Replaying an execution trace as stream events (engine/src/streaming.rs). */
module Streaming {
  import opened Basics
  import opened Json
  import opened State
  import opened Runner
  import EventStream
  import SessionStore

  /** The keys of an output are listed in no particular order. */
  datatype StreamEvent =
    | RunStarted(sessionId: string, agentId: string, agentName: string)
    | GraphStarted(graphName: string, nodeCount: nat)
    | NodeStarted(nodeId: string, toolType: string)
    | NodeToken(nodeId: string, token: string)
    | NodeCompleted(nodeId: string, toolType: string, durationMs: nat, outputKeys: set<string>, output: Json)
    | NodeError(nodeId: string, toolType: string, error: string)
    | FanoutStarted(sourceNode: string, parallelNodes: seq<string>)
    | FanoutCompleted(succeeded: nat, failed: nat)
    | GraphCompleted(status: string, totalDurationMs: nat, nodesExecuted: nat, output: Json)
    | GraphFailed(error: string)

  /** A trace entry with what the runner's model leaves open. */
  datatype TimedEntry = TimedEntry(entry: TraceEntry, toolType: string, durationMs: nat)

  /** The event names of `to_sse`. */
  function EventName(e: StreamEvent): string {
    match e
    case RunStarted(_, _, _) => "run.started"
    case GraphStarted(_, _) => "graph.started"
    case NodeStarted(_, _) => "node.started"
    case NodeToken(_, _) => "node.token"
    case NodeCompleted(_, _, _, _, _) => "node.completed"
    case NodeError(_, _, _) => "node.error"
    case FanoutStarted(_, _) => "fanout.started"
    case FanoutCompleted(_, _) => "fanout.completed"
    case GraphCompleted(_, _, _, _) => "graph.completed"
    case GraphFailed(_) => "graph.error"
  }

  // ---------------------------------------------------------------------------
  // Replay
  // ---------------------------------------------------------------------------

  /** The event for a node that succeeded, with the output the final state holds for it. */
  function CompletedEvent(t: TimedEntry, state: StateMap): StreamEvent {
    var output := Lookup(state, t.entry.nodeId);
    NodeCompleted(t.entry.nodeId, t.toolType, t.durationMs,
                  if output.Some? then output.value.Keys else {}, if output.Some? then Obj(output.value) else Null)
  }

  function ErrorEvent(t: TimedEntry): StreamEvent {
    NodeError(t.entry.nodeId, t.toolType, OrElse(t.entry.error, ""))
  }

  /** What one trace entry is replayed as. */
  function EntryEvents(t: TimedEntry, state: StateMap): seq<StreamEvent> {
    [NodeStarted(t.entry.nodeId, t.toolType)] +
    match t.entry.status
    case Succeeded => [CompletedEvent(t, state)]
    case Errored => [ErrorEvent(t)]
    case Skipped => []
  }

  function TraceEvents(trace: seq<TimedEntry>, state: StateMap): seq<StreamEvent> {
    if trace == [] then [] else EntryEvents(trace[0], state) + TraceEvents(trace[1..], state)
  }

  function TotalDuration(trace: seq<TimedEntry>): nat {
    if trace == [] then 0 else trace[0].durationMs + TotalDuration(trace[1..])
  }

  /** The name of the execution status. */
  function StatusText(s: SessionStore.ExecutionStatus): string {
    match s
    case ExecCompleted => "Completed"
    case ExecFailed => "Failed"
    case ExecTimeout => "Timeout"
    case ExecInterrupted => "Interrupted"
  }

  function StateJson(state: StateMap): Json {
    Obj(map n | n in state :: Obj(state[n]))
  }

  function Ending(status: SessionStore.ExecutionStatus, trace: seq<TimedEntry>, state: StateMap): StreamEvent {
    GraphCompleted(StatusText(status), TotalDuration(trace), |trace|, StateJson(state))
  }

  /** `trace_to_events`. */
  method TraceToEvents(status: SessionStore.ExecutionStatus, trace: seq<TimedEntry>, state: StateMap, graphName: string,
                       nodeCount: nat)
    returns (events: seq<StreamEvent>)
    ensures events == [GraphStarted(graphName, nodeCount)] + (TraceEvents(trace, state) + [Ending(status, trace, state)])
  {
    events := [GraphStarted(graphName, nodeCount)];
    ghost var whole := events + TraceEvents(trace, state);
    for i := 0 to |trace|
      invariant events + TraceEvents(trace[i..], state) == whole
    {
      var added := ReplayEntry(trace[i], state);
      assert trace[i..][1..] == trace[i + 1..];
      SeqsAssociate(events, added, TraceEvents(trace[i + 1..], state));
      events := events + added;
    }
    assert trace[|trace|..] == [];
    SeqsAssociate([GraphStarted(graphName, nodeCount)], TraceEvents(trace, state), [Ending(status, trace, state)]);
    events := events + [Ending(status, trace, state)];
  }

  /** The body of the loop over the trace. */
  method ReplayEntry(t: TimedEntry, state: StateMap) returns (added: seq<StreamEvent>)
    ensures added == EntryEvents(t, state)
  {
    added := [NodeStarted(t.entry.nodeId, t.toolType)];
    match t.entry.status {
      case Succeeded => added := added + [CompletedEvent(t, state)];
      case Errored => added := added + [ErrorEvent(t)];
      case Skipped =>
    }
  }

  lemma SeqsAssociate<T>(a: seq<T>, b: seq<T>, c: seq<T>)
    ensures a + (b + c) == (a + b) + c
  {}

  // ---------------------------------------------------------------------------
  // What a replay keeps
  // ---------------------------------------------------------------------------

  datatype Outcome = Outcome(nodeId: string, toolType: string, status: TraceStatus, durationMs: Option<nat>, error: string,
                             output: Option<Output>)

  /** What can be told of a trace entry from its replay: the duration and the output only of nodes that succeeded. */
  function OutcomeOf(t: TimedEntry, state: StateMap): Outcome {
    match t.entry.status
    case Succeeded => Outcome(t.entry.nodeId, t.toolType, Succeeded, Some(t.durationMs), "", Lookup(state, t.entry.nodeId))
    case Errored => Outcome(t.entry.nodeId, t.toolType, Errored, None, OrElse(t.entry.error, ""), None)
    case Skipped => Outcome(t.entry.nodeId, t.toolType, Skipped, None, "", None)
  }

  function TraceOutcomes(trace: seq<TimedEntry>, state: StateMap): seq<Outcome> {
    if trace == [] then [] else [OutcomeOf(trace[0], state)] + TraceOutcomes(trace[1..], state)
  }

  /** The output shown as an object; null stands for none. */
  function ShownOutput(output: Json): Option<Output> {
    match output
    case Obj(fields) => Some(fields)
    case _ => None
  }

  /** Outcomes read back from replayed events: a start without an end stands for a skipped node. */
  function Outcomes(events: seq<StreamEvent>): seq<Outcome>
    decreases |events|
  {
    if events == [] then []
    else if !events[0].NodeStarted? then Outcomes(events[1..])
    else
      var id, toolType := events[0].nodeId, events[0].toolType;
      if |events| > 1 && events[1].NodeCompleted? then
        [Outcome(id, toolType, Succeeded, Some(events[1].durationMs), "", ShownOutput(events[1].output))] + Outcomes(events[2..])
      else if |events| > 1 && events[1].NodeError? then
        [Outcome(id, toolType, Errored, None, events[1].error, None)] + Outcomes(events[2..])
      else [Outcome(id, toolType, Skipped, None, "", None)] + Outcomes(events[1..])
  }

  /** The events of one entry are read as its outcome, whatever follows that is not the end of a node. */
  lemma OutcomeOfEntry(t: TimedEntry, state: StateMap, rest: seq<StreamEvent>)
    requires rest != [] && !rest[0].NodeCompleted? && !rest[0].NodeError?
    ensures Outcomes(EntryEvents(t, state) + rest) == [OutcomeOf(t, state)] + Outcomes(rest)
  {
    var events := EntryEvents(t, state) + rest;
    if t.entry.status.Skipped? {
      assert events[1] == rest[0] && events[1..] == rest;
    } else {
      assert events[2..] == rest;
    }
  }

  lemma {:induction false} OutcomesOfEntries(trace: seq<TimedEntry>, state: StateMap, last: StreamEvent)
    requires last.GraphCompleted?
    ensures Outcomes(TraceEvents(trace, state) + [last]) == TraceOutcomes(trace, state)
  {
    if trace == [] {
      assert [last][1..] == [];
      assert TraceEvents(trace, state) + [last] == [last];
    } else {
      var rest := TraceEvents(trace[1..], state) + [last];
      SeqsAssociate(EntryEvents(trace[0], state), TraceEvents(trace[1..], state), [last]);
      assert !rest[0].NodeCompleted? && !rest[0].NodeError?;
      OutcomeOfEntry(trace[0], state, rest);
      OutcomesOfEntries(trace[1..], state, last);
    }
  }

  /** Nothing about the nodes is lost in a replay but the durations of those that failed or were skipped. */
  lemma ReplayKeepsOutcomes(status: SessionStore.ExecutionStatus, trace: seq<TimedEntry>, state: StateMap, graphName: string,
                            nodeCount: nat)
    ensures Outcomes([GraphStarted(graphName, nodeCount)] + (TraceEvents(trace, state) + [Ending(status, trace, state)]))
         == TraceOutcomes(trace, state)
  {
    var first, rest := GraphStarted(graphName, nodeCount), TraceEvents(trace, state) + [Ending(status, trace, state)];
    assert ([first] + rest)[1..] == rest;
    OutcomesOfEntries(trace, state, Ending(status, trace, state));
  }

  /** The keys shown with an output are its fields, and an output is shown exactly if the state holds one. */
  lemma CompletedShowsOutput(t: TimedEntry, state: StateMap)
    ensures var e := CompletedEvent(t, state);
      && (e.output.Obj? <==> t.entry.nodeId in state)
      && (t.entry.nodeId in state ==> e.output == Obj(state[t.entry.nodeId]) && e.outputKeys == state[t.entry.nodeId].Keys)
      && (t.entry.nodeId !in state ==> e.output == Null && e.outputKeys == {})
  {}

  /** The last event names the status and shows every node's output in the final state. */
  lemma EndingShowsState(status: SessionStore.ExecutionStatus, trace: seq<TimedEntry>, state: StateMap, node: string)
    ensures var e := Ending(status, trace, state);
      && e.nodesExecuted == |trace|
      && e.status == (if status.ExecCompleted? then "Completed" else if status.ExecFailed? then "Failed"
                      else if status.ExecTimeout? then "Timeout" else "Interrupted")
      && e.output.Get(node) == (if node in state then Some(Obj(state[node])) else None)
  {}

  /** The total duration is that of all entries, the order of which does not matter. */
  lemma {:induction false} DurationsAddUp(a: seq<TimedEntry>, b: seq<TimedEntry>)
    ensures TotalDuration(a + b) == TotalDuration(a) + TotalDuration(b)
    ensures |a| == 1 ==> TotalDuration(a) == a[0].durationMs
  {
    if a == [] {
      assert a + b == b;
    } else {
      assert (a + b)[1..] == a[1..] + b;
      DurationsAddUp(a[1..], b);
    }
  }

  // ---------------------------------------------------------------------------
  // Names
  // ---------------------------------------------------------------------------

  lemma NodeEventNamesAreClean(e: StreamEvent)
    requires e.NodeStarted? || e.NodeToken? || e.NodeCompleted? || e.NodeError?
    ensures EventStream.Clean(EventName(e))
  {
    assert forall i :: 0 <= i < |EventName(e)| ==> EventName(e)[i] != '\n';
  }

  lemma GraphEventNamesAreClean(e: StreamEvent)
    requires e.RunStarted? || e.GraphStarted? || e.GraphCompleted? || e.GraphFailed?
    ensures EventStream.Clean(EventName(e))
  {
    assert forall i :: 0 <= i < |EventName(e)| ==> EventName(e)[i] != '\n';
  }

  /** Every event name survives the text format. */
  lemma EventNamesAreClean(e: StreamEvent)
    ensures EventStream.Clean(EventName(e))
  {
    if e.NodeStarted? || e.NodeToken? || e.NodeCompleted? || e.NodeError? {
      NodeEventNamesAreClean(e);
    } else if e.FanoutStarted? || e.FanoutCompleted? {
      assert forall i :: 0 <= i < |EventName(e)| ==> EventName(e)[i] != '\n';
    } else {
      GraphEventNamesAreClean(e);
    }
  }
}
