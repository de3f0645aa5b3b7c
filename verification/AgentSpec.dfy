/** Agent specifications (engine/src/core/agent_spec.rs): validation, conversion to a graph and input schemas. */
module AgentSpecs {
  import opened Basics
  import opened Strings
  import opened Json
  import opened Graph

  datatype AgentType = Managed | Live

  datatype AgentNodeSpec = AgentNodeSpec(
    id: string,
    toolType: string,
    version: string,
    config: map<string, Json>,
    position: map<string, real>)

  datatype AgentEdgeSpec = AgentEdgeSpec(
    id: string,
    source: string,
    target: string,
    condition: Option<EdgeCondition>,
    dataMap: Option<map<string, string>>)

  datatype AgentScheduleSpec = AgentScheduleSpec(intervalSeconds: Option<nat>, cron: Option<string>)

  datatype AgentSpecError =
    | DuplicateNodeIds(ids: seq<string>)
    | DuplicateEdgeIds(ids: seq<string>)
    | UnknownSource(edgeId: string, nodeId: string)
    | UnknownTarget(edgeId: string, nodeId: string)
    | InvalidSchedule
    | GraphDefect(error: GraphError)

  // ---------------------------------------------------------------------------
  // Conversion
  // ---------------------------------------------------------------------------

  function ToNode(n: AgentNodeSpec): NodeDef {
    var position := if "x" in n.position && "y" in n.position then Some((n.position["x"], n.position["y"])) else None;
    NodeDef(n.id, n.toolType, n.version, n.config, position)
  }

  function ToEdge(e: AgentEdgeSpec): EdgeDef {
    EdgeDef(e.id, e.source, e.target, e.condition, e.dataMap)
  }

  function ToNodes(nodes: seq<AgentNodeSpec>): (r: seq<NodeDef>)
    ensures |r| == |nodes|
  {
    seq(|nodes|, i requires 0 <= i < |nodes| => ToNode(nodes[i]))
  }

  function ToEdges(edges: seq<AgentEdgeSpec>): (r: seq<EdgeDef>)
    ensures |r| == |edges|
  {
    seq(|edges|, i requires 0 <= i < |edges| => ToEdge(edges[i]))
  }

  /** The graph's nodes and edges are the agent's, one by one, with all that they carry; a node has a position only if
      both coordinates are given. */
  ghost predicate Carries(nodes: seq<AgentNodeSpec>, edges: seq<AgentEdgeSpec>, gn: seq<NodeDef>, ge: seq<EdgeDef>) {
    && |gn| == |nodes| && |ge| == |edges|
    && (forall i :: 0 <= i < |nodes| ==>
          && gn[i].id == nodes[i].id && gn[i].toolType == nodes[i].toolType && gn[i].version == nodes[i].version
          && gn[i].config == nodes[i].config
          && (gn[i].position.Some? <==> "x" in nodes[i].position && "y" in nodes[i].position)
          && (gn[i].position.Some? ==> gn[i].position.value == (nodes[i].position["x"], nodes[i].position["y"])))
    && (forall i :: 0 <= i < |edges| ==>
          && ge[i].id == edges[i].id && ge[i].source == edges[i].source && ge[i].target == edges[i].target
          && ge[i].condition == edges[i].condition && ge[i].dataMap == edges[i].dataMap)
  }

  /** The generation loop of `AgentSpec`, a copy of the graph's. Converting its result is generating on
      the converted edges: id generation commutes with conversion. */
  method NumberedSpecs(edges: seq<AgentEdgeSpec>) returns (r: seq<AgentEdgeSpec>)
    ensures ToEdges(r) == WithIds(ToEdges(edges))
  {
    r := edges;
    ghost var converted := ToEdges(edges);
    var pairCounts: map<string, nat> := map[];
    for i := 0 to |edges|
      invariant |r| == |edges|
      invariant forall j :: 0 <= j < i ==> ToEdge(r[j]) == converted[j].(id := FinalId(converted, j))
      invariant forall j :: i <= j < |edges| ==> r[j] == edges[j]
      invariant forall key :: key in pairCounts ==> pairCounts[key] == CountKey(converted[..i], key)
      invariant forall key :: key !in pairCounts ==> CountKey(converted[..i], key) == 0
    {
      forall key
        ensures CountKey(converted[..i + 1], key)
             == CountKey(converted[..i], key) + if Generates(converted[i], key) then 1 else 0
      {
        CountKeyNext(converted, i, key);
      }
      var edge := edges[i];
      assert converted[i] == ToEdge(edge);
      if edge.id == "" {
        var pairKey := edge.source + SEPARATOR + edge.target;
        assert PairKey(converted[i]) == pairKey;
        var count := (if pairKey in pairCounts then pairCounts[pairKey] else 0) + 1;
        pairCounts := pairCounts[pairKey := count];
        r := r[i := edge.(id := if count == 1 then pairKey else pairKey + SEPARATOR + Decimal(count))];
      }
    }
  }

  // ---------------------------------------------------------------------------
  // Validation
  // ---------------------------------------------------------------------------

  /** Position `i` repeats an id that stands before it. */
  predicate RepeatsAt(ids: seq<string>, i: int) {
    0 <= i < |ids| && ids[i] in ids[..i]
  }

  /** The ids that occurred before, in order, one entry per repeated occurrence. */
  function Repeats(ids: seq<string>): seq<string> {
    if ids == [] then []
    else
      var init, last := ids[..|ids| - 1], ids[|ids| - 1];
      if last in init then Repeats(init) + [last] else Repeats(init)
  }

  /** `r` are the ids at the positions `at`, in order, which are those that repeat one before. */
  ghost predicate AreRepeats(ids: seq<string>, r: seq<string>, at: seq<nat>) {
    TakenAt(ids, r, at) && Increasing(at) && forall i: nat :: i in at <==> RepeatsAt(ids, i)
  }

  /** The repeated ids are just these. */
  lemma {:induction false} RepeatsInOrder(ids: seq<string>) returns (at: seq<nat>)
    ensures AreRepeats(ids, Repeats(ids), at)
  {
    at := [];
    if ids != [] {
      var init, last := ids[..|ids| - 1], ids[|ids| - 1];
      var earlier := RepeatsInOrder(init);
      at := RepeatsSnoc(init, last, earlier);
      assert ids == init + [last];
    }
  }

  lemma RepeatsSnoc(init: seq<string>, last: string, earlier: seq<nat>) returns (at: seq<nat>)
    requires AreRepeats(init, Repeats(init), earlier)
    ensures AreRepeats(init + [last], Repeats(init + [last]), at)
  {
    var ids := init + [last];
    assert ids[..|init|] == init;
    at := if last in init then earlier + [|init|] else earlier;
    TakenSnoc(init, last, Repeats(init), earlier);
    forall i: nat
      ensures i in at <==> RepeatsAt(ids, i)
    {
      RepeatsAtFront(init, last, i);
    }
  }

  lemma RepeatsAtFront(init: seq<string>, last: string, i: nat)
    ensures RepeatsAt(init + [last], i) <==> RepeatsAt(init, i) || (i == |init| && last in init)
  {
    var ids := init + [last];
    if i < |init| {
      assert ids[..i] == init[..i];
    } else if i == |init| {
      assert ids[..i] == init;
    }
  }

  lemma TakenSnoc(s: seq<string>, last: string, r: seq<string>, at: seq<nat>)
    requires TakenAt(s, r, at) && Increasing(at)
    ensures TakenAt(s + [last], r, at) && TakenAt(s + [last], r + [last], at + [|s|])
    ensures Increasing(at + [|s|])
  {}

  lemma {:induction false} NoRepeatsIffDistinct(ids: seq<string>)
    ensures Repeats(ids) == [] <==> forall i, j :: 0 <= i < j < |ids| ==> ids[i] != ids[j]
  {
    if ids != [] {
      var init, last := ids[..|ids| - 1], ids[|ids| - 1];
      NoRepeatsIffDistinct(init);
      assert forall i :: 0 <= i < |init| ==> init[i] == ids[i];
      if last in init {
        var i :| 0 <= i < |init| && init[i] == last;
        assert ids[i] == ids[|ids| - 1];
      }
    }
  }

  /** The loops that collect repeated ids. */
  method CollectRepeats(ids: seq<string>) returns (seen: set<string>, dupes: seq<string>)
    ensures dupes == Repeats(ids)
    ensures forall x :: x in seen <==> x in ids
  {
    seen, dupes := {}, [];
    for i := 0 to |ids|
      invariant dupes == Repeats(ids[..i])
      invariant forall x :: x in seen <==> x in ids[..i]
    {
      assert ids[..i + 1][..i] == ids[..i];
      if ids[i] in seen {
        dupes := dupes + [ids[i]];
      }
      seen := seen + {ids[i]};
    }
    assert ids[..|ids|] == ids;
  }

  function NodeSpecIds(nodes: seq<AgentNodeSpec>): (r: seq<string>)
    ensures |r| == |nodes|
  {
    seq(|nodes|, i requires 0 <= i < |nodes| => nodes[i].id)
  }

  function EdgeSpecIds(edges: seq<AgentEdgeSpec>): (r: seq<string>)
    ensures |r| == |edges|
  {
    seq(|edges|, i requires 0 <= i < |edges| => edges[i].id)
  }

  /** Live agents run on a positive interval and on nothing else; managed agents have no schedule. */
  predicate ValidSchedule(agentType: AgentType, schedule: Option<AgentScheduleSpec>) {
    match agentType
    case Managed => schedule == None
    case Live =>
      schedule.Some? && schedule.value.cron == None && schedule.value.intervalSeconds.Some?
      && schedule.value.intervalSeconds.value >= 1
  }

  /** The edge names a node that does not exist. */
  predicate Dangling(nodes: seq<AgentNodeSpec>, e: AgentEdgeSpec) {
    e.source !in NodeSpecIds(nodes) || e.target !in NodeSpecIds(nodes)
  }

  predicate ReferencesKnown(nodes: seq<AgentNodeSpec>, edges: seq<AgentEdgeSpec>) {
    forall i :: 0 <= i < |edges| ==> !Dangling(nodes, edges[i])
  }

  ghost predicate FirstDangling(nodes: seq<AgentNodeSpec>, edges: seq<AgentEdgeSpec>, i: int) {
    0 <= i < |edges| && Dangling(nodes, edges[i]) && forall j :: 0 <= j < i ==> !Dangling(nodes, edges[j])
  }

  /** The complaint about a dangling edge: an unknown source comes first. */
  function DanglingError(nodes: seq<AgentNodeSpec>, e: AgentEdgeSpec): AgentSpecError {
    if e.source !in NodeSpecIds(nodes) then UnknownSource(e.id, e.source) else UnknownTarget(e.id, e.target)
  }

  /** `error` is what is wrong with the agent, in the order of the checks. */
  ghost predicate SpecReports(nodes: seq<AgentNodeSpec>, edges: seq<AgentEdgeSpec>, agentType: AgentType,
                              schedule: Option<AgentScheduleSpec>, error: AgentSpecError) {
    if Repeats(NodeSpecIds(nodes)) != [] then error == DuplicateNodeIds(Repeats(NodeSpecIds(nodes)))
    else if Repeats(EdgeSpecIds(edges)) != [] then error == DuplicateEdgeIds(Repeats(EdgeSpecIds(edges)))
    else if !ReferencesKnown(nodes, edges) then
      exists i :: FirstDangling(nodes, edges, i) && error == DanglingError(nodes, edges[i])
    else if !ValidSchedule(agentType, schedule) then error == InvalidSchedule
    else if nodes == [] then error == GraphDefect(EmptyGraph)
    else exists i :: FirstSelfLoop(edges, i) && error == GraphDefect(GraphError.SelfLoop(edges[i].source))
  }

  /** An edge without condition from a node to itself. */
  predicate LoopsForever(e: AgentEdgeSpec) {
    e.source == e.target && e.condition == None
  }

  ghost predicate FirstSelfLoop(edges: seq<AgentEdgeSpec>, i: int) {
    0 <= i < |edges| && LoopsForever(edges[i]) && forall j :: 0 <= j < i ==> !LoopsForever(edges[j])
  }

  class AgentSpec {
    var name: string
    var version: string
    var agentType: AgentType
    var schedule: Option<AgentScheduleSpec>
    var nodes: seq<AgentNodeSpec>
    var edges: seq<AgentEdgeSpec>
    var metadata: map<string, Json>

    /** `auto_generate_edge_ids`. */
    method AutoGenerateEdgeIds()
      modifies this`edges
      ensures ToEdges(edges) == WithIds(ToEdges(old(edges)))
    {
      edges := NumberedSpecs(edges);
    }

    /** `to_graph`, with the id it is given or draws. */
    method ToGraph(graphId: string) returns (g: GraphDef)
      ensures fresh(g) && g.id == graphId && g.name == name && g.version == version && g.metadata == metadata
      ensures g.nodes == ToNodes(nodes) && g.edges == ToEdges(edges)
      ensures Carries(nodes, edges, g.nodes, g.edges)
    {
      g := new GraphDef(graphId, name, version, ToNodes(nodes), ToEdges(edges), metadata);
    }

    /** `validate`. */
    method Validate(drawnId: string) returns (r: Result<(), AgentSpecError>)
      modifies this`edges
      ensures ToEdges(edges) == WithIds(ToEdges(old(edges)))
      ensures r.Ok? <==> WellFormed(ToNodes(nodes), ToEdges(edges)) && ValidSchedule(agentType, schedule)
      ensures r.Err? ==> SpecReports(nodes, edges, agentType, schedule, r.error)
      ensures PlainNames(ToEdges(old(edges))) ==> !(r.Err? && r.error.DuplicateEdgeIds?)
    {
      AutoGenerateEdgeIds();
      PlainSpecsHaveNoRepeats(old(edges), edges);
      SpecIdsMatch(nodes, edges);
      var seenNodes, dupeNodes := CollectRepeats(NodeSpecIds(nodes));
      if dupeNodes != [] {
        return Err(DuplicateNodeIds(dupeNodes));
      }
      var _, dupeEdges := CollectRepeats(EdgeSpecIds(edges));
      if dupeEdges != [] {
        return Err(DuplicateEdgeIds(dupeEdges));
      }
      KnownWhenWellFormed(nodes, edges);
      var dangling := FindDangling(nodes, edges, seenNodes);
      if dangling.Some? {
        return Err(dangling.value);
      }
      var ok := CheckSchedule(agentType, schedule);
      if !ok {
        return Err(InvalidSchedule);
      }
      var graph := ToGraph(drawnId);
      var checked := graph.Validate();
      if checked.Err? {
        DelegatedErrors(nodes, edges, checked.error);
        return Err(GraphDefect(checked.error));
      }
      return Ok(());
    }
  }

  /** The loop over the edge references. */
  method FindDangling(nodes: seq<AgentNodeSpec>, edges: seq<AgentEdgeSpec>, seenNodes: set<string>)
    returns (r: Option<AgentSpecError>)
    requires forall x :: x in seenNodes <==> x in NodeSpecIds(nodes)
    ensures r == None <==> ReferencesKnown(nodes, edges)
    ensures r.Some? ==> exists i :: FirstDangling(nodes, edges, i) && r.value == DanglingError(nodes, edges[i])
  {
    for i := 0 to |edges|
      invariant forall j :: 0 <= j < i ==> !Dangling(nodes, edges[j])
    {
      var edge := edges[i];
      if edge.source !in seenNodes {
        assert FirstDangling(nodes, edges, i);
        return Some(UnknownSource(edge.id, edge.source));
      }
      if edge.target !in seenNodes {
        assert FirstDangling(nodes, edges, i);
        return Some(UnknownTarget(edge.id, edge.target));
      }
    }
    return None;
  }

  /** With plain names the generated ids of an agent's edges do not repeat. */
  lemma PlainSpecsHaveNoRepeats(before: seq<AgentEdgeSpec>, after: seq<AgentEdgeSpec>)
    requires ToEdges(after) == WithIds(ToEdges(before))
    ensures PlainNames(ToEdges(before)) ==> Repeats(EdgeSpecIds(after)) == []
  {
    if PlainNames(ToEdges(before)) {
      PlainNamesNeverClash(ToEdges(before));
      IdsDistinctIffNoClash(ToEdges(before));
      SpecIdsMatch([], after);
    }
  }

  lemma KnownWhenWellFormed(nodes: seq<AgentNodeSpec>, edges: seq<AgentEdgeSpec>)
    ensures WellFormed(ToNodes(nodes), ToEdges(edges)) ==> ReferencesKnown(nodes, edges)
  {
    SpecIdsMatch(nodes, edges);
    if WellFormed(ToNodes(nodes), ToEdges(edges)) {
      forall i | 0 <= i < |edges|
        ensures !Dangling(nodes, edges[i])
      {
        assert SoundEdge(ToNodes(nodes), ToEdges(edges)[i]);
      }
    }
  }

  /** Ids before and after conversion agree, so the collected repeats decide distinctness of the graph. */
  lemma SpecIdsMatch(nodes: seq<AgentNodeSpec>, edges: seq<AgentEdgeSpec>)
    ensures Repeats(NodeSpecIds(nodes)) == [] <==> DistinctNodeIds(ToNodes(nodes))
    ensures Repeats(EdgeSpecIds(edges)) == [] <==> DistinctEdgeIds(ToEdges(edges))
    ensures forall x :: x in NodeSpecIds(nodes) <==> x in NodeIds(ToNodes(nodes))
  {
    var ns, es := NodeSpecIds(nodes), EdgeSpecIds(edges);
    NoRepeatsIffDistinct(ns);
    NoRepeatsIffDistinct(es);
    assert forall i :: 0 <= i < |nodes| ==> ToNodes(nodes)[i].id == ns[i];
    assert forall i :: 0 <= i < |edges| ==> ToEdges(edges)[i].id == es[i];
  }

  /** Once ids are distinct and references known, the only defect an edge can have is looping without a condition. */
  lemma DefectIsLoop(nodes: seq<AgentNodeSpec>, edges: seq<AgentEdgeSpec>, i: nat)
    requires Repeats(EdgeSpecIds(edges)) == [] && ReferencesKnown(nodes, edges) && i < |edges|
    ensures EdgeDefect(ToNodes(nodes), ToEdges(edges), i)
         == if LoopsForever(edges[i]) then Some(GraphError.SelfLoop(edges[i].source)) else None
  {
    var ge := ToEdges(edges);
    SpecIdsMatch(nodes, edges);
    DistinctEdgesUpTo(ge, |ge|);
    assert ge[..|ge|] == ge && ge[i] == ToEdge(edges[i]) && !Dangling(nodes, edges[i]);
  }

  /** After the agent's own checks, the delegated graph check finds an empty graph or the first self-loop. */
  lemma DelegatedErrors(nodes: seq<AgentNodeSpec>, edges: seq<AgentEdgeSpec>, error: GraphError)
    requires Reports(ToNodes(nodes), ToEdges(edges), error)
    requires Repeats(NodeSpecIds(nodes)) == [] && Repeats(EdgeSpecIds(edges)) == [] && ReferencesKnown(nodes, edges)
    ensures if nodes == [] then error == EmptyGraph
            else exists i :: FirstSelfLoop(edges, i) && error == GraphError.SelfLoop(edges[i].source)
  {
    var gn, ge := ToNodes(nodes), ToEdges(edges);
    SpecIdsMatch(nodes, edges);
    if nodes != [] {
      var i :| FirstBadEdge(gn, ge, i) && Some(error) == EdgeDefect(gn, ge, i);
      DefectIsLoop(nodes, edges, i);
      forall j | 0 <= j < i
        ensures !LoopsForever(edges[j])
      {
        DefectIsLoop(nodes, edges, j);
      }
      assert FirstSelfLoop(edges, i);
    }
  }

  /** An agent has at most one report, whatever is wrong with it. */
  lemma SpecReportIsUnique(nodes: seq<AgentNodeSpec>, edges: seq<AgentEdgeSpec>, agentType: AgentType,
                           schedule: Option<AgentScheduleSpec>, e1: AgentSpecError, e2: AgentSpecError)
    requires SpecReports(nodes, edges, agentType, schedule, e1) && SpecReports(nodes, edges, agentType, schedule, e2)
    ensures e1 == e2
  {
    forall i, j | FirstDangling(nodes, edges, i) && FirstDangling(nodes, edges, j)
      ensures i == j
    {}
    forall i, j | FirstSelfLoop(edges, i) && FirstSelfLoop(edges, j)
      ensures i == j
    {}
  }

  /** The schedule check, branch by branch. */
  method CheckSchedule(agentType: AgentType, schedule: Option<AgentScheduleSpec>) returns (ok: bool)
    ensures ok <==> ValidSchedule(agentType, schedule)
  {
    match (agentType, schedule)
    case (Live, None) => ok := false;
    case (Managed, Some(_)) => ok := false;
    case (Live, Some(sched)) =>
      match (sched.intervalSeconds, sched.cron) {
        case (None, None) => ok := false;
        case (Some(_), Some(_)) => ok := false;
        case (Some(n), None) => ok := n != 0;
        case (None, Some(_)) => ok := false;
      }
    case (Managed, None) => ok := true;
  }

  // ---------------------------------------------------------------------------
  // Input schemas
  // ---------------------------------------------------------------------------

  datatype InputType = Text | Number | Boolean | JsonValue | File

  datatype InputFieldSpec = InputFieldSpec(fieldType: InputType, required: bool, default: Option<Json>)

  datatype InputError = TypeMismatch(field: string) | MissingRequired(field: string)

  /** `InputType::matches`. */
  predicate Matches(t: InputType, v: Json) {
    match t
    case Text => v.Str?
    case Number => v.Num?
    case Boolean => v.Bool?
    case JsonValue => v.Obj? || v.Arr?
    case File => v.Str?
  }

  /** The declared types that accept a value: texts and file names are strings, structured values are JSON, and null is
      accepted by none. */
  function AcceptedBy(v: Json): set<InputType> {
    match v
    case Null => {}
    case Bool(_) => {Boolean}
    case Num(_) => {InputType.Number}
    case Str(_) => {Text, File}
    case Arr(_) => {JsonValue}
    case Obj(_) => {JsonValue}
  }

  lemma MatchesIffAccepted(t: InputType, v: Json)
    ensures Matches(t, v) <==> t in AcceptedBy(v)
  {}

  type Payload = map<string, Json>
  type Schema = map<string, InputFieldSpec>

  /** What is wrong with one declared field of the payload. */
  function FieldError(payload: Payload, name: string, spec: InputFieldSpec): Option<InputError> {
    if name in payload then
      if Matches(spec.fieldType, payload[name]) then None else Some(TypeMismatch(name))
    else if spec.required then Some(MissingRequired(name))
    else None
  }

  predicate TakesDefault(payload: Payload, schema: Schema, name: string) {
    name in schema && name !in payload && !schema[name].required && schema[name].default.Some?
  }

  /** The payload with the defaults of absent optional fields filled in. */
  function Enriched(payload: Payload, schema: Schema): Payload {
    WithDefaults(payload, schema, schema.Keys)
  }

  /** The payload with the defaults of those fields of `names` that take one. */
  function WithDefaults(payload: Payload, schema: Schema, names: set<string>): Payload {
    payload + map name | name in names && TakesDefault(payload, schema, name) :: schema[name].default.value
  }

  lemma WithDefaultsNext(payload: Payload, schema: Schema, names: set<string>, name: string)
    ensures WithDefaults(payload, schema, names + {name})
         == if TakesDefault(payload, schema, name) then WithDefaults(payload, schema, names)[name := schema[name].default.value]
            else WithDefaults(payload, schema, names)
  {}

  ghost predicate Accepted(payload: Payload, schema: Schema) {
    forall name :: name in schema ==> FieldError(payload, name, schema[name]) == None
  }

  /** `validate_agent_inputs`: all failures are reported, whatever order the schema is visited in. */
  method ValidateAgentInputs(payload: Payload, schema: Schema) returns (r: Result<Payload, seq<InputError>>)
    ensures r.Ok? <==> Accepted(payload, schema)
    ensures r.Ok? ==> r.value == Enriched(payload, schema)
    ensures r.Err? ==> forall e :: e in r.error <==>
      e.field in schema && FieldError(payload, e.field, schema[e.field]) == Some(e)
    ensures r.Err? ==> forall i, j :: 0 <= i < j < |r.error| ==> r.error[i].field != r.error[j].field
  {
    var enriched, rest := payload, schema.Keys;
    var errors: seq<InputError> := [];
    ghost var done: set<string> := {};
    while rest != {}
      invariant done + rest == schema.Keys && done !! rest
      invariant enriched == WithDefaults(payload, schema, done)
      invariant forall e :: e in errors <==> e.field in done && FieldError(payload, e.field, schema[e.field]) == Some(e)
      invariant forall i, j :: 0 <= i < j < |errors| ==> errors[i].field != errors[j].field
      decreases rest
    {
      var name :| name in rest;
      var spec := schema[name];
      WithDefaultsNext(payload, schema, done, name);
      if name in payload {
        if !Matches(spec.fieldType, payload[name]) {
          errors := errors + [TypeMismatch(name)];
        }
      } else if spec.required {
        errors := errors + [MissingRequired(name)];
      } else if spec.default.Some? {
        enriched := enriched[name := spec.default.value];
      }
      rest, done := rest - {name}, done + {name};
    }
    assert forall name :: name in schema && FieldError(payload, name, schema[name]).Some? ==>
      FieldError(payload, name, schema[name]).value in errors;
    if errors == [] {
      return Ok(enriched);
    } else {
      assert errors[0] in errors;
      return Err(errors);
    }
  }

  /** The payload has a value of an accepted kind for the field, or leaves out one that it may. */
  ghost predicate FieldIsFine(payload: Payload, name: string, spec: InputFieldSpec) {
    if name in payload then spec.fieldType in AcceptedBy(payload[name]) else !spec.required
  }

  /** What is accepted, what is complained about, and what is filled in. */
  lemma InputsMean(payload: Payload, schema: Schema, name: string)
    ensures Accepted(payload, schema) <==> forall n :: n in schema ==> FieldIsFine(payload, n, schema[n])
    ensures name in schema && !FieldIsFine(payload, name, schema[name]) ==>
      FieldError(payload, name, schema[name]) == Some(if name in payload then TypeMismatch(name) else MissingRequired(name))
    ensures name in payload ==> name in Enriched(payload, schema) && Enriched(payload, schema)[name] == payload[name]
    ensures name !in payload ==>
      (name in Enriched(payload, schema) <==> name in schema && !schema[name].required && schema[name].default.Some?)
    ensures name !in payload && name in Enriched(payload, schema) ==>
      Some(Enriched(payload, schema)[name]) == schema[name].default
  {
    forall n | n in schema
      ensures FieldIsFine(payload, n, schema[n]) <==> FieldError(payload, n, schema[n]) == None
    {
      if n in payload {
        MatchesIffAccepted(schema[n].fieldType, payload[n]);
      }
    }
  }

  /** Accepted inputs are accepted again after enrichment exactly when every default used has its declared type. */
  lemma EnrichedIsAcceptedIff(payload: Payload, schema: Schema)
    requires Accepted(payload, schema)
    ensures Accepted(Enriched(payload, schema), schema)
       <==> forall name :: TakesDefault(payload, schema, name) ==> Matches(schema[name].fieldType, schema[name].default.value)
    ensures Enriched(Enriched(payload, schema), schema) == Enriched(payload, schema)
  {
    var e := Enriched(payload, schema);
    forall name | name in schema
      ensures TakesDefault(payload, schema, name) ==> name in e && e[name] == schema[name].default.value
      ensures !TakesDefault(payload, schema, name) ==> FieldError(e, name, schema[name]) == None
    {
      assert FieldError(payload, name, schema[name]) == None;
    }
    assert forall name :: !TakesDefault(e, schema, name);
  }

  /** Defaults are not type-checked: an accepted payload whose enrichment is rejected. */
  lemma MistypedDefaultIsNotCaught() returns (schema: Schema)
    ensures Accepted(map[], schema) && !Accepted(Enriched(map[], schema), schema)
  {
    var name := "n";
    schema := map[name := InputFieldSpec(Number, false, Some(Str("x")))];
    var payload: Payload := map[];
    assert TakesDefault(payload, schema, name);
    EnrichedIsAcceptedIff(payload, schema);
  }
}
