# OpenMirai: a verified model of the engine's deterministic core

A Dafny model of the parts of OpenMirai whose behaviour does not depend on a remote service, with proofs of what
they promise. `dafny verify dfyconfig.toml` checks all of it.

The modules, one file each:

- `Chunking`, `Windows`, `ChunkStrategies`: splitting documents for retrieval. The greedy strategies are compared with
  every other way of grouping the same pieces.
- `Graph`, `AgentSpecs`: workflow graphs, generated edge ids, validation, reachability, input schemas.
- `State`: the execution state, its aliasing clones, isolated forks and merges.
- `Runner`, `RunnerEffects`, `RunnerLoop`, `RunnerSafety`, `RunnerPrefix`, `RunnerAcyclic`, `RunnerCoverage`,
  `RunnerLiveness`, `RunnerResume`: the graph runner's main loop with routing, failure modes, fan-out and join, hooks,
  pauses and checkpoints. The environment (tools, hooks, pause requests) is an arbitrary sequence of turns, so every
  theorem holds for all of them.
- `Conversation`, `Providers`, `ClaudeReader`: the interactive session's agentic loop, its history and compaction, and
  what the model providers are sent. Model, tools and user are oracles.
- `EventStream`, `Watch`, `Streaming`, `Emitter`: the text event stream, its incremental parser, the dashboard that
  consumes it, the replay of a trace as events, and the ticket counter shared by concurrent emitters.
- `ContextCompiler`: assembling a prompt within a budget.
- `SessionStore`: the SQLite session tables as a refinement of the in-memory store.
- `Universe`: round-robin routing.
- `Basics`, `Strings`, `Json`: shared definitions, text and JSON primitives. `JsonText` only shows that the condition on
  codecs used elsewhere can be met: it gives some codec that every JSON value survives.

Loops of the program are methods with invariants, each proved against a function or a closed form about which the
theorems are then stated; objects that are changed in place are classes.

## Where code and comments disagree, or a promise has a limit

- Chunk sizes are measured in UTF-8 bytes in the text-aware strategies and in characters in the fixed-size one; the
  model does the same. A single piece longer than the limit stays whole.
- The comments of `validate` promise "no self-loops" and a check for cycles. The code allows a self-loop that carries
  a condition and does not look for cycles: `Graph.CyclicGraphWithoutEntry` is a graph that passes validation and has
  no entry node, which the runner answers with an internal error. `Graph.AllReachableIffNoRootlessSet` says exactly
  which validated graphs are fully reachable.
- Generated edge ids can collide with each other or with explicit ids (`Graph.NumberedIdCanCollide`).
  `Graph.IdsDistinctIffNoClash` gives the exact condition, in terms of the graph before generation.
- A default in an input schema is not checked against the declared type (`AgentSpecs.MistypedDefaultIsNotCaught`).
- `merge` holds the receiver's write lock while it reads the other side, so merging a handle with a clone of itself
  cannot be answered; the model requires two different maps.
- A node that unconditional edges lead to need not be executed. A fan-out whose branches have no common unconditional
  successor ends the run as completed (`RunnerSafety.FanOutGoesOnIff`, `RunnerLiveness.FanOutCanStrand`); and where the
  branches have one, what else a branch leads to is left out unless it lies behind the join
  (`RunnerLiveness.JoinCanStrand`). `RunnerCoverage.RunsThroughIffCovered` says exactly which workflows without
  conditions are executed completely, by a condition on the graph alone.
- Two unconditional edges to one node execute it twice (`RunnerLiveness.ParallelEdgesTraceTwice`);
  `RunnerAcyclic.TracesOnceIff` says exactly when no node of an acyclic workflow is executed twice.
- A human-input node that is a branch of a fan-out is executed like any other node and nobody is asked
  (`RunnerLiveness.HumanBranchIsNotAsked`). Everywhere else the run stops there
  (`RunnerLiveness.HumansAreTracedOnlyAsBranches`).
- Pausing resets the visit counts, so a resumed run may go on where the whole run would have hit the visit limit:
  `RunnerResume.PausingCanSaveARun` is such a run. Pausing is transparent for runs that do not hit the limit
  (`RunnerResume.PausingIsTransparent`); it is transparent for all runs exactly where none does
  (`RunnerResume.TransparentIff`), as on acyclic workflows without hook retries
  (`RunnerResume.AcyclicPausingIsTransparent`).
- A run interrupted at a human-input node cannot be resumed at that node, which the result names: it is interrupted
  there again (`RunnerResume.HumanInputStopsEveryResume`). It has to be resumed at a later node.
- Dropping old messages can cut answers off from their calls. `Conversation.CompactionKeepsAnswers` and
  `Conversation.HandlingKeepsAnswers` say exactly when, and `Conversation.SessionsCanLosePairing` is a session where it
  happens. Putting the summary in can make the estimate grow: `Conversation.CompactionGrowsIff` says when, and
  `Conversation.CompactionCanRaiseEstimate` shows sessions where it does.
- Compressing a prompt can make it longer: every context does when it is a few bytes over the limit
  (`ContextCompiler.SlightExcessGrows`, `ContextCompiler.CompressionCanGrow`). `ContextCompiler.FittingGrowsIff` says
  exactly when.
- The dashboard panics on an update of a session that was created with data that is neither an object nor null, such as
  a number (`Watch.StoppingANumberPanics`); `Watch.PanicsIff` says exactly which streams do it.
- Reading JSON text back need not give the value written: serde_json without its `float_roundtrip` feature may be off in
  the last place of a float. What depends on it is therefore stated for the values that survive
  (`SessionStore.RowRoundTrip`, `Providers.NormalisedCallsMean`) and proved for every codec otherwise.
- Fairness of the rotation ends at the wrap of the index unless the number of agents divides 2^64
  (`Universe.RotationSurvivesWrapIff`); event ids repeat after 2^64 events (`Emitter.EventIdsDistinctIff`).

## Model

| member | source | states |
|---|---|---|
| `Chunking.GreedyIsOptimal` | engine/src/rag.rs:118-158 | From any state of the greedy loop, no grouping that respects the limit uses fewer groups than the greedy one |
| `Chunking.GreedyIsGrouping` | engine/src/rag.rs:118-158 | The greedy groups cut the pieces, in order and completely, into groups that are within the limit or a single piece |
| `Chunking.GreedyFromScratchIsOptimal` | engine/src/rag.rs:118-158 | The whole greedy grouping respects the limit and has the fewest groups possible, for paragraphs and for sentences |
| `Chunking.DropFromGrouping` | engine/src/rag.rs:118-158 | Dropping leading pieces never needs more groups, and needs fewer once the first group is gone: the exchange step of the optimality proof |
| `Chunking.ChunkByParagraph` | engine/src/rag.rs:136-158 | The loop over a growing text returns the joined greedy groups of the trimmed non-empty paragraphs |
| `Chunking.ParagraphChunksAreOptimal` | engine/src/rag.rs:136-158 | Paragraph chunks come from an optimal grouping, one chunk per group, and each is within the limit or a single paragraph |
| `Chunking.ParagraphChunksJoin` | engine/src/rag.rs:136-158 | Joining the chunks by blank lines gives the paragraphs joined, whatever the limit |
| `Chunking.ParagraphsOfJoined` | engine/src/rag.rs:140-144 | The paragraphs of the joined paragraphs are the same paragraphs |
| `Chunking.RechunkingIsIdentity` | engine/src/rag.rs:136-158 | Chunking the joined chunks again gives the same chunks |
| `Chunking.Sentences` | engine/src/rag.rs:122 | The pieces concatenate to the text, none is empty, and all but the last end with a sentence end |
| `Chunking.SentencesAreSingle` | engine/src/rag.rs:122 | No piece goes on after a sentence end |
| `Chunking.SentencesAreUnique` | engine/src/rag.rs:122 | There is no other way to cut the text like that |
| `Chunking.ChunkBySentence` | engine/src/rag.rs:118-133 | The loop returns the trimmed non-blank greedy groups of the sentences |
| `Chunking.SentenceGroupsAreOptimal` | engine/src/rag.rs:118-133 | Before trimming, the sentence groups respect the limit and are as few as possible |
| `Chunking.SentenceChunkCount` | engine/src/rag.rs:129-131 | Trimming drops no group except a blank last one, so the number of chunks is the optimum or one less |
| `Windows.ChunkFixedSize` | engine/src/rag.rs:98-115 | Nothing for an empty text or size; otherwise exactly the windows that are not blank, in order, window k beginning at k times the size less the overlap, or at every character if the overlap leaves nothing |
| `Windows.WindowStartIs` | engine/src/rag.rs:103-113 | Window k begins at k times the size less the overlap, or at character k if the overlap leaves nothing |
| `Windows.WindowsOverlap` | engine/src/rag.rs:103-113 | A full window and the next share exactly the overlap: the last characters of the one are the first of the other |
| `Windows.WindowAtEveryCharacter` | engine/src/rag.rs:103 | With an overlap as large as the windows one begins at every character |
| `Windows.WindowHeadsTileTheText` | engine/src/rag.rs:103-113 | The first step characters of all windows, one after the other, are the text |
| `Windows.NonBlankCharIsKept` | engine/src/rag.rs:105-113 | Every non-blank character lies in a window that is kept |
| `ChunkStrategies.ChunkText` | engine/src/rag.rs:83-95 | Non-blank windows, trimmed groups of an optimal grouping of the sentences, or joined groups of one of the paragraphs, semantic chunking being the last |
| `ChunkStrategies.ChunkingConservesText` | engine/src/rag.rs:83-158 | Every strategy without overlap keeps every non-blank character exactly once and in order |
| `Graph.Numbered` | engine/src/core/graph.rs:171-185 | The loop with its running counts gives each edge its own id, or its key numbered among the edges that share it |
| `Graph.GraphDef.AutoGenerateEdgeIds` | engine/src/core/graph.rs:171-185 | The edges become the numbered ones; nothing else of the graph changes |
| `Graph.FinalIdsMean` | engine/src/core/graph.rs:171-185 | An explicit id stays; otherwise the id is source and target, numbered from two on by the edges before it with the same ones |
| `Strings.DecimalIsRead` | engine/src/core/graph.rs:178-181 | The digits of a printed number stand for it |
| `Graph.IdsDistinctIffNoClash` | engine/src/core/graph.rs:171-185 | After generation all edge ids are distinct if and only if no explicit id and no pair of endpoints spells a generated id |
| `Graph.PlainNamesNeverClash` | engine/src/core/graph.rs:169-185 | Names without a double underscore, non-empty targets and plain distinct explicit ids never clash |
| `Graph.NumberedIdInjective` | engine/src/core/graph.rs:176-181 | A numbered id determines its key and its number |
| `Graph.GeneratingIsIdempotent` | engine/src/core/graph.rs:174-183 | A second generation changes nothing and explicit ids are never changed |
| `Graph.NumberedIdCanCollide` | engine/src/core/graph.rs:171-185 | A list of edges without ids whose generated ids collide |
| `Graph.Check` | engine/src/core/graph.rs:187-224 | The fail-fast checks succeed exactly on well-formed graphs and otherwise report the first defect |
| `Graph.GraphDef.Validate` | engine/src/core/graph.rs:187-224 | Validation succeeds exactly on well-formed graphs and otherwise reports the first defect |
| `Graph.ReportIsUnique` | engine/src/core/graph.rs:187-224 | A graph with a reported defect is not well-formed and no other defect can be reported |
| `Graph.GraphDef.Prepare` | engine/src/core/graph.rs:226-230 | Generating and validating; with plain names no duplicate edge id is ever reported |
| `Graph.PrepareFindsNoDuplicateEdge` | engine/src/core/graph.rs:200-205 | With plain names no defect of the generated graph is a duplicate edge id |
| `Graph.EntryNodesInOrder` | engine/src/core/graph.rs:233-239 | Exactly the nodes without an incoming edge, in their order and each as often as it occurs |
| `Graph.FirstEntryNode` | engine/src/core/runner/graph_runner.rs:160-169 | The first entry node, where runs begin, is the first node without an incoming edge |
| `Graph.OutgoingEdgesInOrder` | engine/src/core/graph.rs:242-244 | Exactly the edges that leave the node, in their order and each as often as it occurs |
| `Graph.AllReachableIffNoRootlessSet` | engine/src/core/graph.rs:187-245 | In a validated graph every node is reachable from an entry node if and only if no set of nodes feeds only on itself |
| `Graph.AcyclicGraphsAreReachable` | engine/src/core/graph.rs:187-245 | A validated graph with a rank growing along edges has an entry node and every node is reachable from one |
| `Graph.CyclicGraphWithoutEntry` | engine/src/core/graph.rs:217-219 | A graph that passes validation and has no entry node |
| `AgentSpecs.NumberedSpecs` | engine/src/core/agent_spec.rs:528-542 | The agent's own generation loop, converted, is generation on the converted edges: the two commute |
| `AgentSpecs.CollectRepeats` | engine/src/core/agent_spec.rs:549-571 | The loops collect exactly the repeated ids, in order |
| `AgentSpecs.RepeatsInOrder` | engine/src/core/agent_spec.rs:549-571 | These are the ids at the positions that repeat an earlier one |
| `AgentSpecs.CheckSchedule` | engine/src/core/agent_spec.rs:590-622 | The branches accept exactly live agents with a positive interval and no cron, and managed agents without a schedule |
| `AgentSpecs.DelegatedErrors` | engine/src/core/agent_spec.rs:626-629 | After the agent's own checks the delegated one can only find an empty graph or the first self-loop |
| `AgentSpecs.FindDangling` | engine/src/core/agent_spec.rs:574-587 | The first edge with an unknown endpoint, the source complained about before the target |
| `AgentSpecs.AgentSpec.Validate` | engine/src/core/agent_spec.rs:545-632 | Succeeds exactly on a well-formed converted graph with a valid schedule, and otherwise gives the first error of the checks with what it carries |
| `AgentSpecs.SpecReportIsUnique` | engine/src/core/agent_spec.rs:545-632 | No agent can be given two different errors |
| `AgentSpecs.AgentSpec.ToGraph` | engine/src/core/agent_spec.rs:672-718 | A fresh graph with the name, version and metadata of the agent and its nodes and edges one by one, with all that they carry |
| `AgentSpecs.ValidateAgentInputs` | engine/src/core/agent_spec.rs:429-472 | Accepts exactly well-typed complete payloads, fills in defaults, and reports every failing field once |
| `AgentSpecs.MatchesIffAccepted` | engine/src/core/agent_spec.rs:361-369 | Which declared types accept a value |
| `AgentSpecs.InputsMean` | engine/src/core/agent_spec.rs:436-465 | A payload is accepted exactly if every field present has an accepted kind and every required one is present; which error each failing field gets and what is filled in |
| `AgentSpecs.EnrichedIsAcceptedIff` | engine/src/core/agent_spec.rs:436-465 | Accepted inputs are accepted again after enrichment if and only if every default used has its declared type |
| `AgentSpecs.MistypedDefaultIsNotCaught` | engine/src/core/agent_spec.rs:461-463 | An accepted payload whose enrichment is rejected |
| `State.MergeIsAssociative` | engine/src/core/state.rs:125-146 | Merging is associative as an operation on maps |
| `State.MergeCommutesIff` | engine/src/core/state.rs:123-146 | The order of a merge matters exactly where both sides hold different values for the same field |
| `State.FanInIsConfluent` | engine/src/core/state.rs:114-146 | Independent forks merged back in any order give the state that all their writes done on the parent give |
| `State.SequentialAt` | engine/src/core/state.rs:46-63 | Doing independent tasks one after the other on the parent succeeds and changes exactly what they write |
| `State.MergeForksAt` | engine/src/core/state.rs:125-146 | What merging forks in a given order leaves at one node |
| `State.SetAllAt` | engine/src/core/state.rs:46-63 | Non-overwriting sets that succeed change exactly nodes that were not there |
| `State.PathsCompose` | engine/src/core/state.rs:87-102 | A dotted path is its second part looked up in what the first part finds |
| `State.PlainFieldIsDirect` | engine/src/core/state.rs:84 | A field name without a dot is a direct lookup |
| `State.ExecutionState.Set` | engine/src/core/state.rs:46-63 | Inserts, or refuses a node that is already set, and leaves everything else alone |
| `State.ExecutionState.Get` | engine/src/core/state.rs:66-69 | The output of a node, if it has one |
| `State.ExecutionState.GetField` | engine/src/core/state.rs:87-102 | The loop over path parts finds what following the path finds |
| `State.ExecutionState.Snapshot` | engine/src/core/state.rs:105-107 | The whole map |
| `State.ExecutionState.Clone` | engine/src/core/state.rs:31-34 | A new handle on the same map |
| `State.ExecutionState.Fork` | engine/src/core/state.rs:116-121 | A handle on a fresh map with the same contents |
| `State.ExecutionState.Merge` | engine/src/core/state.rs:125-146 | The nested loops, in any visiting order, give the merge of the two maps |
| `State.InsertAll` | engine/src/core/state.rs:136-140 | The loop over fields gives both outputs' fields, the other side's winning |
| `State.LaterWritesAreSeenByCloneOnly` | engine/src/core/state.rs:114-121 | After any writes through any of the three handles, original and clone show those through either, the fork those through it |
| `State.ForksAreIsolated` | engine/src/core/state.rs:114-121 | Whatever is written through the original and its clone, the fork shows the map it was made from |
| `Runner.JoinNode` | engine/src/core/runner/graph_runner.rs:1240-1270 | Some common unconditional successor of all parallel nodes, none only if there is none, and any of them if the environment picks it |
| `Runner.Pass` | engine/src/core/runner/graph_runner.rs:228-363 | A pass that goes on stays on a node of the graph and uses up exactly one visit of the node it left |
| `Runner.RunsAreBounded` | engine/src/core/runner/graph_runner.rs:228-255 | Every run ends after at most nodes times visit limit plus one passes, whatever tools and hooks do |
| `RunnerEffects.OperatorsMean` | engine/src/core/runner/graph_runner.rs:1273-1316 | What each comparison operator asks of the value in the output and the expected one |
| `RunnerEffects.MissingFieldsFail` | engine/src/core/runner/graph_runner.rs:1277-1280 | No condition holds on a field the output does not have |
| `RunnerEffects.FirstConditionWins` | engine/src/core/runner/graph_runner.rs:1064-1071 | The first conditional edge whose condition holds is followed alone |
| `RunnerEffects.OtherwiseUnconditional` | engine/src/core/runner/graph_runner.rs:1073-1081 | If none holds, all unconditional edges are followed, in their order |
| `RunnerEffects.SuccessTakesFirst` | engine/src/core/runner/graph_runner.rs:560-658 | A pass over a node that succeeds stores its output, traces it once and moves along the first conditional edge that holds |
| `RunnerEffects.ErrorIsRouted` | engine/src/core/runner/graph_runner.rs:806-858 | A pass over a node that fails in the routing mode stores and traces the error and moves along a first conditional edge that asks for just its text |
| `RunnerEffects.FanOutLeaves` | engine/src/core/runner/graph_runner.rs:1087-1238 | Every branch is traced in order, outputs of branches that succeed are stored, and nothing else is |
| `RunnerEffects.JoinNodeJoins` | engine/src/core/runner/graph_runner.rs:1240-1270 | Branches join at a target of an unconditional edge of each of them, if there is one |
| `RunnerLoop.ExecuteFanOut` | engine/src/core/runner/graph_runner.rs:1087-1238 | The loop over the branches leaves that in the shared state and the trace |
| `RunnerLoop.HandleNodeSuccess` | engine/src/core/runner/graph_runner.rs:560-658 | The output as the tool gave it is stored and traced; the output as the hook left it decides the way, by the first condition that holds, else by the unconditional edges, several of them being a fan-out; the checkpoint holds the state and the way |
| `RunnerLoop.HandleNodeFailure` | engine/src/core/runner/graph_runner.rs:702-859 | Stop leaves the state and ends the run, skip stores an empty output, route-to-error stores the error text under its field and routes on that; each with its trace entry |
| `RunnerLoop.RunNode` | engine/src/core/runner/graph_runner.rs:228-363 | The loop body on the shared state is one pass; what pauses, the visit limit, human nodes, aborts, skips and retries leave |
| `RunnerLoop.RunFrom` | engine/src/core/runner/graph_runner.rs:201-369 | A veto at the start fails at once and leaves the state alone; otherwise the loop ends with the result of the run, and the shared state is the one the result carries |
| `RunnerLoop.RunWithState` | engine/src/core/runner/graph_runner.rs:150-172 | Refuses exactly invalid graphs and graphs without an entry, leaving the state alone; otherwise runs from the first entry |
| `RunnerSafety.NextNodesAreSuccessors` | engine/src/core/runner/graph_runner.rs:1052-1081 | Routing only ever follows edges that leave the node |
| `RunnerSafety.RunIsConfined` | engine/src/core/runner/graph_runner.rs:201-369 | An invariant of every run: only nodes reachable from the entry are executed, traced or written |
| `RunnerSafety.FreshRunIsConfined` | engine/src/core/runner/graph_runner.rs:150-172 | A whole run leaves the outputs of all nodes that its entry does not reach as they were |
| `RunnerSafety.PassIsConfined` | engine/src/core/runner/graph_runner.rs:228-363 | One pass, in all its outcomes, keeps to what the entry reaches |
| `RunnerAcyclic.PassClimbs` | engine/src/core/runner/graph_runner.rs:228-363 | On an acyclic workflow a pass without retry moves the cursor upwards |
| `RunnerAcyclic.AcyclicRunsFinish` | engine/src/core/runner/graph_runner.rs:201-369 | On an acyclic workflow no run without hook retries hits the visit limit |
| `RunnerAcyclic.PassRunsUpwards` | engine/src/core/runner/graph_runner.rs:228-363 | On an acyclic workflow whose parallel edges only leave questions to humans one pass keeps the cursor above everything traced so far |
| `RunnerAcyclic.AcyclicRunsTraceOnce` | engine/src/core/runner/graph_runner.rs:201-369 | On such a workflow no run that finishes has traced a node twice, whatever hooks and tools do |
| `RunnerAcyclic.TargetsAreDistinctIff` | engine/src/core/runner/graph_runner.rs:1052-1081 | The unconditional targets of a node are distinct exactly if no two parallel edges leave it |
| `RunnerAcyclic.TracesOnceIff` | engine/src/core/runner/graph_runner.rs:177-188 | On a valid acyclic workflow no run, wherever it is entered, traces a node twice if and only if parallel edges only leave questions to humans |
| `RunnerAcyclic.AcyclicWorkflowsTraceOnce` | engine/src/core/runner/graph_runner.rs:150-172 | Finishing without hook retries, and tracing nodes once, for whole runs from their entry |
| `RunnerCoverage.RunsThroughIffCovered` | engine/src/core/runner/graph_runner.rs:201-369 | On a valid acyclic workflow without conditions and questions every smooth run, wherever it is entered, completes and traces exactly the reachable nodes, if and only if in every fan-out what the branches lead to is a branch or lies behind every join |
| `RunnerCoverage.CoveredRunsThrough` | engine/src/core/runner/graph_runner.rs:201-369 | The sufficient half as an invariant of the run from any point |
| `RunnerCoverage.StrandedUnlessJoined` | engine/src/core/runner/graph_runner.rs:633-650 | The necessary half: what lies behind a branch and is none itself is executed only if it lies behind the join picked |
| `RunnerCoverage.NewTracesAreReachable` | engine/src/core/runner/graph_runner.rs:201-369 | What a run adds to the trace is reachable from its cursor |
| `RunnerLiveness.SmoothRunsSucceed` | engine/src/core/runner/graph_runner.rs:560-658 | Everything a smooth run traces has succeeded, unless a branch of a fan-out fails |
| `RunnerLiveness.ChainsAreExecutedCompletely` | engine/src/core/runner/graph_runner.rs:150-172 | In particular acyclic chains are executed completely, each node once and successfully |
| `RunnerLiveness.FanOutEndsRun` | engine/src/core/runner/graph_runner.rs:633-650 | A run whose first node fans out to nodes without a common successor ends after these |
| `RunnerLiveness.FanOutCanStrand` | engine/src/core/runner/graph_runner.rs:633-650 | A valid acyclic workflow where a node that unconditional edges lead to is never executed although all before it succeed |
| `RunnerLiveness.JoinCanStrand` | engine/src/core/runner/graph_runner.rs:1240-1270 | A valid acyclic workflow where the branches do join and smooth runs still leave reachable nodes out |
| `RunnerLiveness.HumansAreTracedOnlyAsBranches` | engine/src/core/runner/graph_runner.rs:1087-1238 | A question to a human is traced only as a branch of a fan-out from a node traced before |
| `RunnerLiveness.HumanBranchIsNotAsked` | engine/src/core/runner/graph_runner.rs:1087-1238 | A valid acyclic workflow where a question that is a branch is executed like any other node |
| `RunnerLiveness.ParallelEdgesTraceTwice` | engine/src/core/runner/graph_runner.rs:1052-1081 | A workflow whose runs trace a node twice because two unconditional edges lead to it |
| `RunnerSafety.FanOutGoesOnIff` | engine/src/core/runner/graph_runner.rs:633-650 | After a fan-out the run goes on if and only if the parallel nodes have a common unconditional successor |
| `RunnerPrefix.RunFromSamePoint` | engine/src/core/runner/graph_runner.rs:177-188 | A run that does not hit the visit limit depends only on its cursor and state, not on trace or counts so far |
| `RunnerResume.PausingIsTransparent` | engine/src/core/runner/graph_runner.rs:429-458 | A run paused before any pass and resumed ends as the uninterrupted run does, if that does not hit the visit limit, the two traces together being its trace |
| `RunnerResume.TransparentIff` | engine/src/core/runner/graph_runner.rs:429-458 | Pausing is transparent in every environment without hook retries if and only if in none of them the run hits the visit limit |
| `RunnerResume.AcyclicPausingIsTransparent` | engine/src/core/runner/graph_runner.rs:429-458 | On an acyclic workflow that holds for every run without hook retries |
| `RunnerResume.PausingCanSaveARun` | engine/src/core/runner/graph_runner.rs:177-188 | A valid workflow and a run that hits the visit limit and, paused and resumed in the same environment, completes |
| `RunnerResume.CheckpointsResume` | engine/src/core/runner/graph_runner.rs:924-961 | From the checkpoint saved after a node that succeeded, the rest of the run is reproduced |
| `RunnerResume.HumanInputStopsEveryResume` | engine/src/core/runner/graph_runner.rs:460-513 | A run that stopped for a human, resumed at that node, stops there again at once in every environment |
| `Conversation.EstimateTokens` | cli/src/terminal.rs:445-464 | The nested loops add up the estimates of all messages |
| `Conversation.EstimateIsQuarter` | cli/src/terminal.rs:445-464 | The estimate is a quarter of all bytes of contents and call arguments, rounded down text by text |
| `Conversation.OnlyOldResultsAreCut` | cli/src/terminal.rs:472-489 | Of messages that are neither the first nor among the last twelve, tool results over 500 bytes keep their first 200; nothing else changes |
| `Conversation.CompactedMeans` | cli/src/terminal.rs:466-506 | When results are cut, when messages are dropped, and what is left then |
| `Conversation.CompactionIsIdempotent` | cli/src/terminal.rs:466-506 | Compacting twice for one budget is compacting once |
| `Conversation.CompactionBounds` | cli/src/terminal.rs:466-506 | Within the budget or at most 14 messages; first message and last twelve kept word for word |
| `Conversation.EstimateOfDropping` | cli/src/terminal.rs:493-505 | The summary's estimate replaces that of the dropped messages, so the estimate may grow |
| `Conversation.CompactionGrowsIff` | cli/src/terminal.rs:466-506 | Compaction raises the estimate exactly if it drops messages that were estimated below the summary |
| `Conversation.CompactionCanRaiseEstimate` | cli/src/terminal.rs:1041-1050 | Sessions in which the compaction before a prompt raises the estimate |
| `Conversation.Session.CompactMessages` | cli/src/terminal.rs:466-506 | The in-place compaction gives the compacted history |
| `Conversation.PairedAnswers` | cli/src/terminal.rs:643-727 | In a paired history the k-th message after a message with calls answers its k-th call |
| `Conversation.RoundsArePaired` | cli/src/terminal.rs:561-735 | A turn adds a paired list with at most one message with calls per allowed round, declined calls answered too |
| `Conversation.RoundIsAt` | cli/src/terminal.rs:563-727 | Round by round a turn adds what the model said with its calls and one answer per call, with the content of the result, its first 30,000 bytes, or the text for declined calls |
| `Conversation.RoundsEnd` | cli/src/terminal.rs:631-635 | A turn adds nothing else and ends with the first reply without calls, an error, or the notice that the rounds are used up |
| `Conversation.DeclinedTextIff` | cli/src/terminal.rs:684-691 | An answer has the text for declined calls exactly if the call was declined or the tool returned that text |
| `Conversation.CompactionKeepsAnswers` | cli/src/terminal.rs:493-505 | Compaction keeps all calls answered; after a drop the history is paired if and only if the first message kept is no answer |
| `Conversation.HandlingKeepsAnswers` | cli/src/terminal.rs:996-1103 | Over one input all calls stay answered, and the history is paired exactly under the stated condition |
| `Conversation.EveryHistoryIsAnswered` | cli/src/terminal.rs:939-1103 | Whenever control is back in the main loop, in every session, every call is followed at once by its answer |
| `Conversation.LongPromptOrphansAnswers` | cli/src/terminal.rs:491-505 | A prompt over the budget, sent when an answer stands eleventh from the end, leaves that answer without its call |
| `Conversation.SessionsCanLosePairing` | cli/src/terminal.rs:996-1103 | For every round limit there is a whole session whose history ends up unpaired |
| `Conversation.OneSystemMessage` | cli/src/terminal.rs:990-993 | The system prompt stays the first and only system message |
| `Conversation.Session.AgenticLoop` | cli/src/terminal.rs:537-735 | The loop appends the rounds, message by message, and returns how they end |
| `Conversation.Session.AnswerCalls` | cli/src/terminal.rs:667-728 | One answer per call, in order, with the id of the call and the content that its result calls for |
| `Conversation.Session.Handle` | cli/src/terminal.rs:1013-1103 | Commands and prompts change the history as specified |
| `Conversation.HandledMeans` | cli/src/terminal.rs:1013-1103 | What each input does to the history, with the budgets of the command and of a prompt, and what is said at the end of a turn |
| `Conversation.Session.Run` | cli/src/terminal.rs:996-1103 | After any input the history is the session's history and all calls are answered |
| `Providers.CallsAreReadBack` | cli/src/terminal.rs:643-665 | The calls of an assistant message survive their JSON form |
| `Providers.OpenAiIdentity` | engine/src/llm/openai_compat.rs:99-150 | Reading one session message and writing it for the provider gives the same JSON object |
| `Providers.OpenAiImages` | engine/src/llm/openai_compat.rs:104-125 | Images are sent as data URLs, followed by the text unless it is empty |
| `Providers.OpenAiSeesTheHistory` | cli/src/terminal.rs:741-786 | The same for every history the session can build |
| `Providers.ConvertForClaude` | engine/src/llm/claude.rs:94-190 | System texts joined by newlines, all other messages converted in their order |
| `ClaudeReader.MessageIsRead` | engine/src/llm/claude.rs:94-190 | From every converted message a reader gets its text, its speaker and its images, results of tools being the user's |
| `ClaudeReader.ConversationIsRead` | engine/src/llm/claude.rs:94-190 | One message for each that is sent, in order |
| `ClaudeReader.ToldApart` | engine/src/llm/claude.rs:98-112 | System messages and others are told apart one by one |
| `ClaudeReader.ClaudeHearsTheSession` | engine/src/llm/claude.rs:94-190 | In every session Claude is told, message by message, who said what, and nothing else |
| `Providers.AssistantBlocksAreReadBack` | engine/src/llm/claude.rs:113-139 | The blocks of an assistant message with calls give back its text and its calls with normalised arguments |
| `Providers.NormalisedCallsMean` | engine/src/llm/claude.rs:216-241 | Normalising keeps ids, names and order; it keeps the JSON value of arguments exactly if that value survives the codec, and then does nothing the second time |
| `Providers.MessageIds` | engine/src/llm/claude.rs:113-158 | The use and result ids a converted message carries |
| `Providers.ClaudeExpectsTheSame` | engine/src/llm/claude.rs:94-190 | Converted messages demand and give answers exactly as the session's do |
| `Providers.ClaudeSeesThePairing` | engine/src/llm/claude.rs:94-190 | For every session the tool results sent answer the tool uses if and only if the history is paired |
| `EventStream.TextBuffer.ParseFrames` | cli/src/sessions_watch.rs:261-280 | The draining loop returns the complete frames and leaves the rest |
| `EventStream.ReadBlock` | cli/src/sessions_watch.rs:265-277 | The loop over the lines of one block |
| `EventStream.TextBuffer.Feed` | cli/src/sessions_watch.rs:234-236 | Appending a chunk and draining is parsing the old rest with the chunk |
| `EventStream.FrameFormat` | engine/src/core/events.rs:117-120 | A frame is printed as its two lines and a blank one |
| `EventStream.SplitInvariance` | cli/src/sessions_watch.rs:232-242 | Feeding two texts in turn gives the frames and the rest of feeding them at once |
| `EventStream.LeftoverIsIncomplete` | cli/src/sessions_watch.rs:259-264 | No complete frame is left behind |
| `EventStream.ChunkingIsInvisible` | cli/src/sessions_watch.rs:232-242 | The same for any number of chunks |
| `EventStream.CleanFramesAreRead` | engine/src/core/events.rs:117-120 | Printed clean frames are read back in order with nothing left over |
| `EventStream.ReadFramesAreClean` | cli/src/sessions_watch.rs:268-276 | Whatever the text, what is read is on one line, trimmed and not empty |
| `EventStream.RoundTripIffClean` | engine/src/streaming.rs:90-107 | Any list of printed frames is read back exactly if and only if all of them are clean |
| `EventStream.StreamingRoundTrip` | cli/src/sessions_watch.rs:232-242 | Clean frames printed, cut anywhere and fed one chunk at a time arrive unchanged |
| `Watch.WatchState.PushActivity` | cli/src/sessions_watch.rs:62-69 | Newest first, at most ten |
| `Watch.WatchState.ApplyEvent` | cli/src/sessions_watch.rs:72-127 | The state after one event, unless it updates a record that is neither object nor null, which panics |
| `Watch.UpdatesSetOnlyThat` | cli/src/sessions_watch.rs:85-100 | An update sets the status, and the last activity if the event has one, and keeps everything else |
| `Watch.EntriesShow` | cli/src/sessions_watch.rs:80-125 | What the feed shows of each kind of event |
| `Watch.LastTwoAreShown` | cli/src/sessions_watch.rs:129-140 | A path is shown by its last two components, whatever comes before them |
| `Watch.ShortPathsAreShown` | cli/src/sessions_watch.rs:129-140 | A single component is shown as it is, and trailing slashes do not matter |
| `Watch.WatchState.ReadStream` | cli/src/sessions_watch.rs:232-242 | The state after any chunks is that of applying the parsed frames |
| `Watch.DashboardSeesWhatWasSent` | cli/src/sessions_watch.rs:232-242 | For a stream of printed clean frames it is that of applying the frames sent |
| `Watch.ActivityIsRecent` | cli/src/sessions_watch.rs:62-69 | The feed is the ten most recent entries of the whole stream, newest first |
| `Watch.DirectoryIsCurrent` | cli/src/sessions_watch.rs:72-101 | After any stream exactly the sessions known before or created are listed, each with the status of the most recent event about it |
| `Watch.PanicsIff` | cli/src/sessions_watch.rs:85-101 | A stream panics exactly if one of its events updates a session whose most recent creation, else first record, was neither object nor null |
| `Watch.StoppingANumberPanics` | cli/src/sessions_watch.rs:96-101 | Creating a session with a number or text and stopping it panics |
| `Watch.ObjectsNeverPanic` | cli/src/sessions_watch.rs:85-97 | No panic unless a session was created with data that is neither object nor null |
| `Streaming.TraceToEvents` | engine/src/streaming.rs:111-166 | Graph start, the events of every trace entry in order, graph end with status, total duration and final state |
| `Streaming.ReplayKeepsOutcomes` | engine/src/streaming.rs:125-153 | Node ids, tool types, outcomes, errors, and the durations and outputs of successes can be read back from the replay |
| `Streaming.CompletedShowsOutput` | engine/src/streaming.rs:131-144 | A completed node is shown with the output the final state holds, and its keys |
| `Streaming.EndingShowsState` | engine/src/streaming.rs:156-164 | The last event names the status and shows the output of every node |
| `Streaming.EventNamesAreClean` | engine/src/streaming.rs:93-104 | Every event name survives the text format |
| `Emitter.EveryRunIsConsistent` | engine/src/core/events.rs:151-187 | Under every interleaving the tickets taken are the disjoint union of sent and in-flight ones, none twice, each emitter's in order |
| `Emitter.AllSentAtQuiescence` | engine/src/core/events.rs:151-187 | With nothing in flight exactly the tickets taken have been sent |
| `Emitter.EventIdsDistinctIff` | engine/src/core/events.rs:158 | With everything sent the event ids are distinct if and only if at most 2^64 were handed out |
| `Emitter.EventEmitter.Emit` | engine/src/core/events.rs:151-178 | One emission sends the next ticket's id once and keeps the channel consistent |
| `ContextCompiler.CompressionAccounting` | engine/src/intelligence/context_compiler.rs:162-201 | Exact byte count after compression: excess removed, 12 per replaced section, 32 for a cut, at most one cut |
| `ContextCompiler.TreatedMeans` | engine/src/intelligence/context_compiler.rs:181-199 | What a cut section keeps: three quarters of what is left at its beginning, the rest at its end, the marker in between |
| `ContextCompiler.FinalSize` | engine/src/intelligence/context_compiler.rs:143-149 | The final size is the larger of limit and system prompt plus those markers, at most 68 over with four sections |
| `ContextCompiler.LowerPrioritiesGoFirst` | engine/src/intelligence/context_compiler.rs:168-201 | A section changes only if every non-empty section of lower priority is replaced altogether |
| `ContextCompiler.FittingGrowsIff` | engine/src/intelligence/context_compiler.rs:143-201 | A context gets longer exactly if it is over the limit and the markers take more room than is removed |
| `ContextCompiler.SlightExcessGrows` | engine/src/intelligence/context_compiler.rs:143-201 | Every context over the limit by fewer than 12 bytes gets longer, if the system prompt is within it |
| `ContextCompiler.LargeExcessNeverGrows` | engine/src/intelligence/context_compiler.rs:143-201 | No context gets longer once 68 bytes are to be removed and there to be removed |
| `ContextCompiler.CompressionCanGrow` | engine/src/intelligence/context_compiler.rs:80-159 | Every context that can be assembled gets longer for the limit one byte below its length |
| `ContextCompiler.CompileOneOver` | engine/src/intelligence/context_compiler.rs:80-159 | The same seen by a caller of the compiler |
| `ContextCompiler.Order` | engine/src/intelligence/context_compiler.rs:168-170 | All indices once, lowest priority first |
| `ContextCompiler.AssembledMeans` | engine/src/intelligence/context_compiler.rs:80-138 | Which sections are assembled, with their names, contents and priorities |
| `ContextCompiler.RulesAreNumbered` | engine/src/intelligence/context_compiler.rs:106-117 | Rules are numbered from one, line by line |
| `ContextCompiler.MemoryIsListed` | engine/src/intelligence/context_compiler.rs:127-137 | Memory entries are listed with their types |
| `ContextCompiler.Compiler.Compress` | engine/src/intelligence/context_compiler.rs:162-201 | The in-place loop gives the compressed sections |
| `ContextCompiler.Compiler.Compile` | engine/src/intelligence/context_compiler.rs:80-159 | The assembled sections, compressed if over budget, and their exact total, never more than 68 over |
| `SessionStore.StatusRoundTrips` | engine/src/db/repositories.rs:117-151 | Statuses survive the text column, and all but running survive becoming an execution status |
| `SessionStore.StatusNames` | engine/src/db/repositories.rs:117-151 | The names in the status column, any other text being read as running |
| `SessionStore.RowRoundTrip` | engine/src/db/sqlite.rs:146-185 | A row reads back as the normalised record exactly if the record's serialised parts survive the codec |
| `SessionStore.NormalisedIsExactIff` | engine/src/db/sqlite.rs:146-245 | Reading back is exact for precisely the records with a graph id, a matching result status and no interrupt; normalising twice is normalising once |
| `SessionStore.SaveRefines` | engine/src/db/sqlite.rs:190-245 | No statement of a save can violate a foreign key, and the tables go on representing the map |
| `SessionStore.SaveKeepsReferences` | engine/src/db/migrations.rs:53-80 | After a save every agent's graph and every session's agent and graph exist |
| `SessionStore.TablesRefineMap` | engine/src/db/repositories.rs:347-373 | After any history of saves and deletes, with any codec, no foreign key was violated and the tables represent the in-memory map |
| `SessionStore.ReadsAgree` | engine/src/db/sqlite.rs:247-258 | A read gives the last live record saved as it reads back, normalised exactly if it survives the codec |
| `SessionStore.SqliteSessionRepo.Save` | engine/src/db/sqlite.rs:190-245 | The three statements succeed and leave the session's row, column by column, rows for graph and agent if there were none, and all others as they were |
| `SessionStore.SqliteSessionRepo.Get` | engine/src/db/sqlite.rs:247-258 | The record of the in-memory map as it reads back: normalised if it survives the codec |
| `SessionStore.SqliteSessionRepo.Delete` | engine/src/db/sqlite.rs:280-289 | Removes the session row only and says whether the map had it |
| `SessionStore.InMemorySessionRepo.Save` | engine/src/db/repositories.rs:348-352 | Inserts under the record's id |
| `SessionStore.InMemorySessionRepo.Delete` | engine/src/db/repositories.rs:370-373 | Removes, and says whether there was something |
| `Universe.AgentUniverse.AddAgent` | engine/src/universe.rs:79-84 | Appends the agent and leaves the rotation where it is |
| `Universe.AgentUniverse.RouteRoundRobin` | engine/src/universe.rs:159-175 | Chooses the agent at the index modulo the number of agents and advances the index with wrap-around |
| `Universe.RoundRobinIsFair` | engine/src/universe.rs:159-175 | In any window of m routes before the wrap each of n agents is chosen floor(m/n) times or once more |
| `Universe.CycleBeforeWrap` | engine/src/universe.rs:159-175 | Any n consecutive routes before the wrap choose every agent exactly once |
| `Universe.RotationSurvivesWrapIff` | engine/src/universe.rs:163-166 | Every n consecutive routes from any index choose every agent once if and only if n divides 2^64 |

## Left out

- Reading files, embeddings and the vector store behind retrieval; HTTP, subprocess and terminal handling; help texts.
- Machine integers other than the 64-bit counters: token estimates and lengths are unbounded, so the overflow of a 32-bit token estimate, of `start + size` and of a sum of durations is not modelled.
- `Conversation` and `ContextCompiler` take texts as ASCII, one byte per character: slicing in the middle of a multi-byte character, which panics, is not modelled.
- JSON integers are unbounded and floats are exact, so the rounding of large integers in comparisons is not modelled; JSON text is an abstract codec.
- Lock poisoning, wall-clock times, random ids and log texts (transcripts, runner events, display strings); durations are only carried along in replays.
- Runner: resolving a node's inputs from `data_map` templates, since tools are arbitrary anyway; the retry loop with backoff inside one execution, whose outcome is an oracle; hooks whose result is ignored. Checkpoints are what is saved, not the saving; the one saved on an interrupt holds the node and state that the result carries.
- Runner: node outputs written by the memory injection that callers do beforehand are part of the initial state.
- Emitter: the capacity of the broadcast channel and lagging receivers.
- EventStream: decoding of bytes; the parser works on decoded characters.
- Watch: the polling fallback that replaces the whole directory, and all rendering.
- SessionStore: listing, whose order among equal start times is open; connection and disk errors; what SQLite does beyond the three statements used.
- AgentSpecs: YAML, triggers, resources and the texts of errors; which of several schedule messages is given.
- Universe: keyword and explicit routing, agent-to-agent messages and group chats.
- Providers: tool definitions, the Gemini and Ollama adapters, request payloads and response parsing other than Claude's content blocks.
- Catalogues, permissions, budgets, energy figures, playbooks and the other modules that are tables or linear scans.
- State.ExecutionState.Merge: merging a handle with one that shares its map is excluded, since the program cannot finish it.
- Conversation.EstimateTokens: does not model 32-bit wrap-around of the total.
