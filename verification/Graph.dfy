/** Workflow graphs (engine/src/core/graph.rs): generated edge ids, validation, entry nodes and
    reachability. */
module Graph {
  import opened Basics
  import opened Strings
  import opened Json

  datatype ComparisonOp = Eq | Neq | Gt | Lt | Gte | Lte | In | Contains

  datatype EdgeCondition = EdgeCondition(field: string, op: ComparisonOp, value: Json)

  datatype EdgeDef = EdgeDef(
    id: string,
    source: string,
    target: string,
    condition: Option<EdgeCondition>,
    dataMap: Option<map<string, string>>)

  datatype NodeDef = NodeDef(
    id: string,
    toolType: string,
    version: string,
    config: map<string, Json>,
    position: Option<(real, real)>)

  datatype GraphError =
    | DuplicateNodeId(id: string)
    | DuplicateEdgeId(id: string)
    | UnknownSourceNode(edgeId: string, nodeId: string)
    | UnknownTargetNode(edgeId: string, nodeId: string)
    | EmptyGraph
    | SelfLoop(id: string)

  // ---------------------------------------------------------------------------
  // Generated edge ids
  // ---------------------------------------------------------------------------

  const SEPARATOR := ['_', '_']

  function PairKey(e: EdgeDef): string {
    e.source + SEPARATOR + e.target
  }

  /** `e` gets a generated id, for the endpoints `key`. */
  predicate Generates(e: EdgeDef, key: string) {
    e.id == "" && PairKey(e) == key
  }

  /** How many of the edges get an id generated from `key`. */
  function CountKey(edges: seq<EdgeDef>, key: string): nat {
    if edges == [] then 0
    else CountKey(edges[..|edges| - 1], key) + if Generates(edges[|edges| - 1], key) then 1 else 0
  }

  /** The id of the `n`-th edge generated from `key`. */
  function NumberedId(key: string, n: nat): string {
    if n == 1 then key else key + SEPARATOR + Decimal(n)
  }

  /** The final id of edge `i`: its own, or its key numbered by the edges up to it with the same key. */
  function FinalId(edges: seq<EdgeDef>, i: nat): string
    requires i < |edges|
  {
    if edges[i].id != "" then edges[i].id
    else NumberedId(PairKey(edges[i]), CountKey(edges[..i + 1], PairKey(edges[i])))
  }

  function WithIds(edges: seq<EdgeDef>): (r: seq<EdgeDef>)
    ensures |r| == |edges|
  {
    seq(|edges|, i requires 0 <= i < |edges| => edges[i].(id := FinalId(edges, i)))
  }

  ghost predicate DistinctEdgeIds(edges: seq<EdgeDef>) {
    forall i, j :: 0 <= i < j < |edges| ==> edges[i].id != edges[j].id
  }

  /** `s` is `key` with a number that some edge of `edges` gets. */
  ghost predicate IsNumbered(edges: seq<EdgeDef>, key: string, s: string) {
    exists n :: 2 <= n <= CountKey(edges, key) && s == NumberedId(key, n)
  }

  /** What a caller can check beforehand: the explicit ids differ from each other and from all generated
      ones, and no pair of endpoints spells another pair's numbered id. */
  ghost predicate NoClash(edges: seq<EdgeDef>) {
    && (forall i, j :: 0 <= i < j < |edges| && edges[i].id != "" ==> edges[i].id != edges[j].id)
    && (forall i, j :: 0 <= i < |edges| && 0 <= j < |edges| && edges[i].id != "" && edges[j].id == "" ==>
          edges[i].id != PairKey(edges[j]) && !IsNumbered(edges, PairKey(edges[j]), edges[i].id))
    && (forall i, j :: 0 <= i < |edges| && 0 <= j < |edges| && edges[i].id == "" && edges[j].id == "" ==>
          !IsNumbered(edges, PairKey(edges[j]), PairKey(edges[i])))
  }

  /** The edges before `i` that get an id from the same endpoints. */
  function EarlierTwins(edges: seq<EdgeDef>, i: nat, key: string): set<nat>
    requires i <= |edges|
  {
    set j: nat | 0 <= j < i && edges[j].id == "" && edges[j].source + "__" + edges[j].target == key
  }

  lemma {:induction false} CountIsTwins(edges: seq<EdgeDef>, i: nat, key: string)
    requires i <= |edges|
    ensures CountKey(edges[..i], key) == |EarlierTwins(edges, i, key)|
  {
    if i > 0 {
      CountIsTwins(edges, i - 1, key);
      assert edges[..i][..i - 1] == edges[..i - 1];
      var now, before := EarlierTwins(edges, i, key), EarlierTwins(edges, i - 1, key);
      assert SEPARATOR == "__";
      if Generates(edges[i - 1], key) {
        assert now == before + {i - 1};
      } else {
        assert now == before;
      }
    }
  }

  /** An edge keeps its own id. One without gets its endpoints' names, and a number if there are such edges before it. */
  lemma FinalIdsMean(edges: seq<EdgeDef>, i: nat)
    requires i < |edges|
    ensures edges[i].id != "" ==> WithIds(edges)[i] == edges[i]
    ensures edges[i].id == "" ==>
      var key := edges[i].source + "__" + edges[i].target;
      var twins := |EarlierTwins(edges, i, key)|;
      WithIds(edges)[i] == edges[i].(id := if twins == 0 then key else key + "__" + Decimal(twins + 1))
  {
    var key := PairKey(edges[i]);
    assert SEPARATOR == "__";
    assert edges[..i + 1][..i] == edges[..i];
    CountIsTwins(edges, i, key);
  }

  /** A numbered id determines its key and its number. */
  lemma NumberedIdInjective(k1: string, n1: nat, k2: string, n2: nat)
    requires n1 != 1 && n2 != 1 && NumberedId(k1, n1) == NumberedId(k2, n2)
    ensures k1 == k2 && n1 == n2
  {
    var d1, d2 := Decimal(n1), Decimal(n2);
    var s := NumberedId(k1, n1);
    NoUnderscoreInTail(k1, d1, k2, d2);
    NoUnderscoreInTail(k2, d2, k1, d1);
    assert d1 == s[|s| - |d1|..] == d2;
    DecimalInjective(n1, n2);
    assert k1 == s[..|s| - |d1| - 2] == k2;
  }

  lemma NoUnderscoreInTail(k1: string, d1: string, k2: string, d2: string)
    requires k1 + SEPARATOR + d1 == k2 + SEPARATOR + d2
    requires forall i :: 0 <= i < |d2| ==> IsDigit(d2[i])
    ensures |d1| >= |d2|
  {
    var s := k1 + SEPARATOR + d1;
    assert s[|s| - |d1| - 1] == '_';
    assert forall i :: 0 <= i < |d2| ==> s[|s| - |d2| + i] == d2[i];
  }

  lemma {:induction false} CountKeyMonotone(edges: seq<EdgeDef>, i: nat, j: nat, key: string)
    requires i <= j <= |edges|
    ensures CountKey(edges[..i], key) <= CountKey(edges[..j], key)
    decreases j
  {
    if i < j {
      assert edges[..j][..j - 1] == edges[..j - 1];
      CountKeyMonotone(edges, i, j - 1, key);
    }
  }

  /** The numbering of a key grows strictly along the edges that use it. */
  lemma CountKeyStrict(edges: seq<EdgeDef>, i: nat, j: nat, key: string)
    requires i < j < |edges| && Generates(edges[j], key)
    ensures CountKey(edges[..i + 1], key) < CountKey(edges[..j + 1], key)
  {
    assert edges[..j + 1][..j] == edges[..j];
    CountKeyMonotone(edges, i + 1, j, key);
  }

  lemma CountKeyPositive(edges: seq<EdgeDef>, i: nat, key: string)
    requires i < |edges| && Generates(edges[i], key)
    ensures 1 <= CountKey(edges[..i + 1], key) <= CountKey(edges, key)
  {
    assert edges[..i + 1][..i] == edges[..i];
    CountKeyMonotone(edges, i + 1, |edges|, key);
    assert edges[..|edges|] == edges;
  }

  /** Every number up to the count is given to some edge. */
  lemma {:induction false} NumberIsGiven(edges: seq<EdgeDef>, key: string, n: nat) returns (i: nat)
    requires 1 <= n <= CountKey(edges, key)
    ensures i < |edges| && Generates(edges[i], key) && CountKey(edges[..i + 1], key) == n
  {
    var last := |edges| - 1;
    var init := edges[..last];
    if n <= CountKey(init, key) {
      i := NumberIsGiven(init, key, n);
      assert init[..i + 1] == edges[..i + 1];
    } else {
      i := last;
      assert edges[..last + 1] == edges;
    }
  }

  lemma NoClashImpliesDistinct(edges: seq<EdgeDef>, i: nat, j: nat)
    requires NoClash(edges) && i < j < |edges|
    ensures FinalId(edges, i) != FinalId(edges, j)
  {
    var a, b := edges[i], edges[j];
    var ka, kb := PairKey(a), PairKey(b);
    var na, nb := CountKey(edges[..i + 1], ka), CountKey(edges[..j + 1], kb);
    if a.id == "" {
      CountKeyPositive(edges, i, ka);
    }
    if b.id == "" {
      CountKeyPositive(edges, j, kb);
    }
    if a.id == "" && b.id == "" && FinalId(edges, i) == FinalId(edges, j) {
      assert na != 1 ==> IsNumbered(edges, ka, NumberedId(ka, na));
      assert nb != 1 ==> IsNumbered(edges, kb, NumberedId(kb, nb));
      if na != 1 && nb != 1 {
        NumberedIdInjective(ka, na, kb, nb);
      }
      CountKeyStrict(edges, i, j, kb);
    }
  }

  ghost predicate DistinctFinalIds(edges: seq<EdgeDef>) {
    forall i, j :: 0 <= i < |edges| && 0 <= j < |edges| && i != j ==> FinalId(edges, i) != FinalId(edges, j)
  }

  lemma DistinctExplicitId(edges: seq<EdgeDef>, i: nat, j: nat)
    requires DistinctFinalIds(edges) && i < |edges| && j < |edges| && edges[i].id != "" && edges[j].id == ""
    ensures edges[i].id != PairKey(edges[j]) && !IsNumbered(edges, PairKey(edges[j]), edges[i].id)
  {
    var key := PairKey(edges[j]);
    CountKeyPositive(edges, j, key);
    forall n | 1 <= n <= CountKey(edges, key)
      ensures edges[i].id != NumberedId(key, n)
    {
      var p := NumberIsGiven(edges, key, n);
      assert FinalId(edges, p) != FinalId(edges, i);
    }
    assert NumberedId(key, 1) == key;
  }

  lemma DistinctKey(edges: seq<EdgeDef>, i: nat, j: nat)
    requires DistinctFinalIds(edges) && i < |edges| && j < |edges| && edges[i].id == "" && edges[j].id == ""
    ensures !IsNumbered(edges, PairKey(edges[j]), PairKey(edges[i]))
  {
    var ki, kj := PairKey(edges[i]), PairKey(edges[j]);
    CountKeyPositive(edges, i, ki);
    var p := NumberIsGiven(edges, ki, 1);
    forall n | 2 <= n <= CountKey(edges, kj)
      ensures ki != NumberedId(kj, n)
    {
      var q := NumberIsGiven(edges, kj, n);
      assert |ki| == |kj| ==> ki != NumberedId(kj, n);
      assert p != q ==> FinalId(edges, p) != FinalId(edges, q);
    }
  }

  lemma DistinctImpliesNoClash(edges: seq<EdgeDef>)
    requires DistinctFinalIds(edges)
    ensures NoClash(edges)
  {
    forall i, j | 0 <= i < |edges| && 0 <= j < |edges| && edges[i].id != "" && edges[j].id == ""
      ensures edges[i].id != PairKey(edges[j]) && !IsNumbered(edges, PairKey(edges[j]), edges[i].id)
    {
      DistinctExplicitId(edges, i, j);
    }
    forall i, j | 0 <= i < |edges| && 0 <= j < |edges| && edges[i].id == "" && edges[j].id == ""
      ensures !IsNumbered(edges, PairKey(edges[j]), PairKey(edges[i]))
    {
      DistinctKey(edges, i, j);
    }
    forall i, j | 0 <= i < j < |edges| && edges[i].id != ""
      ensures edges[i].id != edges[j].id
    {
      assert FinalId(edges, i) != FinalId(edges, j);
    }
  }

  /** Generated and explicit ids together are pairwise distinct exactly when nothing clashes beforehand. */
  lemma IdsDistinctIffNoClash(edges: seq<EdgeDef>)
    ensures DistinctEdgeIds(WithIds(edges)) <==> NoClash(edges)
  {
    if NoClash(edges) {
      forall i, j | 0 <= i < j < |edges|
        ensures WithIds(edges)[i].id != WithIds(edges)[j].id
      {
        NoClashImpliesDistinct(edges, i, j);
      }
    }
    if DistinctEdgeIds(WithIds(edges)) {
      forall i, j | 0 <= i < |edges| && 0 <= j < |edges| && i != j
        ensures FinalId(edges, i) != FinalId(edges, j)
      {
        assert WithIds(edges)[i].id != WithIds(edges)[j].id;
      }
      DistinctImpliesNoClash(edges);
    }
  }

  /** Node ids free of the separator, non-empty targets, and distinct explicit ids free of the separator. */
  ghost predicate PlainNames(edges: seq<EdgeDef>) {
    && (forall i :: 0 <= i < |edges| ==>
          if edges[i].id == "" then
            !HasDouble(edges[i].source, '_') && !HasDouble(edges[i].target, '_') && edges[i].target != ""
          else !HasDouble(edges[i].id, '_'))
    && (forall i, j :: 0 <= i < j < |edges| && edges[i].id != "" ==> edges[i].id != edges[j].id)
  }

  /** In a key made of plain names, every doubled underscore touches the separator. */
  lemma SeparatorPosition(e: EdgeDef, p: nat)
    requires !HasDouble(e.source, '_') && !HasDouble(e.target, '_')
    requires DoubleAt(PairKey(e), '_', p)
    ensures |e.source| <= p + 1 && p <= |e.source| + 1
  {
    var key, n := PairKey(e), |e.source|;
    assert forall k :: 0 <= k < n ==> key[k] == e.source[k];
    assert forall k :: 0 <= k < |e.target| ==> key[n + 2 + k] == e.target[k];
    assert !DoubleAt(e.source, '_', p) && !DoubleAt(e.target, '_', p - n - 2);
  }

  lemma PlainKeyIsNotNumbered(a: EdgeDef, b: EdgeDef, n: nat)
    requires !HasDouble(a.source, '_') && !HasDouble(a.target, '_') && b.target != "" && n != 1
    ensures PairKey(a) != NumberedId(PairKey(b), n)
  {
    var s := NumberedId(PairKey(b), n);
    var p, q := |b.source|, |b.source| + 2 + |b.target|;
    assert DoubleAt(s, '_', p) && DoubleAt(s, '_', q);
    if PairKey(a) == s {
      SeparatorPosition(a, p);
      SeparatorPosition(a, q);
    }
  }

  lemma PlainNamesNeverClash(edges: seq<EdgeDef>)
    requires PlainNames(edges)
    ensures NoClash(edges)
  {
    forall i, j | 0 <= i < |edges| && 0 <= j < |edges| && edges[i].id != "" && edges[j].id == ""
      ensures edges[i].id != PairKey(edges[j]) && !IsNumbered(edges, PairKey(edges[j]), edges[i].id)
    {
      var key := PairKey(edges[j]);
      assert DoubleAt(key, '_', |edges[j].source|);
      assert forall n :: 2 <= n ==> DoubleAt(NumberedId(key, n), '_', |edges[j].source|);
    }
    forall i, j | 0 <= i < |edges| && 0 <= j < |edges| && edges[i].id == "" && edges[j].id == ""
      ensures !IsNumbered(edges, PairKey(edges[j]), PairKey(edges[i]))
    {
      forall n | 2 <= n
        ensures PairKey(edges[i]) != NumberedId(PairKey(edges[j]), n)
      {
        PlainKeyIsNotNumbered(edges[i], edges[j], n);
      }
    }
  }

  /** A second generation changes nothing, and explicit ids are never changed. */
  lemma GeneratingIsIdempotent(edges: seq<EdgeDef>)
    ensures WithIds(WithIds(edges)) == WithIds(edges)
    ensures forall i :: 0 <= i < |edges| && edges[i].id != "" ==> WithIds(edges)[i] == edges[i]
  {
    var once := WithIds(edges);
    forall i | 0 <= i < |edges|
      ensures once[i].id != ""
    {
      assert |PairKey(edges[i])| >= 2;
    }
  }

  /** Without plain names ids can collide: two edges a -> b and one edge a -> b__2. */
  lemma NumberedIdCanCollide() returns (edges: seq<EdgeDef>)
    ensures forall i :: 0 <= i < |edges| ==> edges[i].id == ""
    ensures !DistinctEdgeIds(WithIds(edges))
  {
    var e := EdgeDef("", "a", "b", None, None);
    var key := PairKey(e);
    edges := [e, e, e.(target := "b__2")];
    CountKeyMonotone(edges, 2, 3, key);
    assert edges[..3] == edges && edges[..2] == [e] + [e] && ([e] + [e])[..1] == [e];
    assert CountKey([e] + [e], key) == CountKey([e], key) + 1;
    assert CountKey([e], key) == 1;
    assert Decimal(2) == "2";
    assert PairKey(edges[2]) == NumberedId(key, 2);
    assert IsNumbered(edges, PairKey(edges[0]), PairKey(edges[2]));
    IdsDistinctIffNoClash(edges);
  }

  // ---------------------------------------------------------------------------
  // Well-formed graphs
  // ---------------------------------------------------------------------------

  function NodeIds(nodes: seq<NodeDef>): set<string> {
    set i | 0 <= i < |nodes| :: nodes[i].id
  }

  function EdgeIds(edges: seq<EdgeDef>): set<string> {
    set i | 0 <= i < |edges| :: edges[i].id
  }

  ghost predicate DistinctNodeIds(nodes: seq<NodeDef>) {
    forall i, j :: 0 <= i < j < |nodes| ==> nodes[i].id != nodes[j].id
  }

  /** Endpoints are nodes of the graph and a self-loop carries a condition. */
  predicate SoundEdge(nodes: seq<NodeDef>, e: EdgeDef) {
    && e.source in NodeIds(nodes)
    && e.target in NodeIds(nodes)
    && (e.source == e.target ==> e.condition.Some?)
  }

  ghost predicate WellFormed(nodes: seq<NodeDef>, edges: seq<EdgeDef>) {
    && nodes != []
    && DistinctNodeIds(nodes)
    && DistinctEdgeIds(edges)
    && forall i :: 0 <= i < |edges| ==> SoundEdge(nodes, edges[i])
  }

  /** What is wrong with edge `i` once all earlier edges are in order, in the order of the checks. */
  function EdgeDefect(nodes: seq<NodeDef>, edges: seq<EdgeDef>, i: int): Option<GraphError>
    requires 0 <= i < |edges|
  {
    var e := edges[i];
    if e.id in EdgeIds(edges[..i]) then Some(DuplicateEdgeId(e.id))
    else if e.source !in NodeIds(nodes) then Some(UnknownSourceNode(e.id, e.source))
    else if e.target !in NodeIds(nodes) then Some(UnknownTargetNode(e.id, e.target))
    else if e.source == e.target && e.condition == None then Some(SelfLoop(e.source))
    else None
  }

  ghost predicate FirstRepeatedNode(nodes: seq<NodeDef>, i: int) {
    0 <= i < |nodes| && nodes[i].id in NodeIds(nodes[..i]) && DistinctNodeIds(nodes[..i])
  }

  ghost predicate FirstBadEdge(nodes: seq<NodeDef>, edges: seq<EdgeDef>, i: int) {
    0 <= i < |edges| && EdgeDefect(nodes, edges, i).Some? && forall j :: 0 <= j < i ==> EdgeDefect(nodes, edges, j) == None
  }

  /** `error` is the first defect of the graph: nodes before edges, earlier before later. */
  ghost predicate Reports(nodes: seq<NodeDef>, edges: seq<EdgeDef>, error: GraphError) {
    if nodes == [] then error == EmptyGraph
    else if !DistinctNodeIds(nodes) then
      exists i :: FirstRepeatedNode(nodes, i) && error == DuplicateNodeId(nodes[i].id)
    else
      exists i :: FirstBadEdge(nodes, edges, i) && Some(error) == EdgeDefect(nodes, edges, i)
  }

  lemma DistinctEdgesUpTo(edges: seq<EdgeDef>, n: nat)
    requires n <= |edges|
    ensures DistinctEdgeIds(edges[..n]) <==> forall i :: 0 <= i < n ==> edges[i].id !in EdgeIds(edges[..i])
  {
    if DistinctEdgeIds(edges[..n]) {
      forall i | 0 <= i < n
        ensures edges[i].id !in EdgeIds(edges[..i])
      {
        assert forall j :: 0 <= j < i ==> edges[..n][j].id != edges[..n][i].id;
      }
    }
    if forall i :: 0 <= i < n ==> edges[i].id !in EdgeIds(edges[..i]) {
      forall i, j | 0 <= i < j < n
        ensures edges[..n][i].id != edges[..n][j].id
      {
        assert edges[..j][i].id in EdgeIds(edges[..j]);
      }
    }
  }

  lemma DefectFreeIsSound(nodes: seq<NodeDef>, edges: seq<EdgeDef>)
    ensures (forall i :: 0 <= i < |edges| ==> EdgeDefect(nodes, edges, i) == None)
       <==> DistinctEdgeIds(edges) && forall i :: 0 <= i < |edges| ==> SoundEdge(nodes, edges[i])
  {
    DistinctEdgesUpTo(edges, |edges|);
    assert edges[..|edges|] == edges;
    if forall i :: 0 <= i < |edges| ==> EdgeDefect(nodes, edges, i) == None {
      assert forall i :: 0 <= i < |edges| ==> EdgeDefect(nodes, edges, i) == None && SoundEdge(nodes, edges[i]);
    }
  }

  /** Validation has exactly one answer: a graph is well-formed or reports one defect, never both or two. */
  lemma ReportIsUnique(nodes: seq<NodeDef>, edges: seq<EdgeDef>, e1: GraphError, e2: GraphError)
    requires Reports(nodes, edges, e1)
    ensures !WellFormed(nodes, edges)
    ensures Reports(nodes, edges, e2) ==> e1 == e2
  {
    if nodes != [] && !DistinctNodeIds(nodes) {
      var i :| FirstRepeatedNode(nodes, i) && e1 == DuplicateNodeId(nodes[i].id);
      forall j | FirstRepeatedNode(nodes, j)
        ensures i == j
      {
        RepeatedNodeIsFirst(nodes, i, j);
        RepeatedNodeIsFirst(nodes, j, i);
      }
    } else if nodes != [] {
      DefectFreeIsSound(nodes, edges);
      var i :| FirstBadEdge(nodes, edges, i) && Some(e1) == EdgeDefect(nodes, edges, i);
      assert forall j :: FirstBadEdge(nodes, edges, j) ==> i == j;
    }
  }

  lemma RepeatedNodeIsFirst(nodes: seq<NodeDef>, i: int, j: int)
    requires FirstRepeatedNode(nodes, i) && FirstRepeatedNode(nodes, j)
    ensures j <= i
  {
    var k :| 0 <= k < |nodes[..i]| && nodes[..i][k].id == nodes[i].id;
    assert forall a :: 0 <= a < j ==> nodes[..j][a] == nodes[a];
  }

  // ---------------------------------------------------------------------------
  // The graph object
  // ---------------------------------------------------------------------------

  class GraphDef {
    var id: string
    var name: string
    var version: string
    var nodes: seq<NodeDef>
    var edges: seq<EdgeDef>
    var metadata: map<string, Json>

    constructor (id: string, name: string, version: string, nodes: seq<NodeDef>, edges: seq<EdgeDef>,
                 metadata: map<string, Json>)
      ensures this.id == id && this.name == name && this.version == version
      ensures this.nodes == nodes && this.edges == edges && this.metadata == metadata
    {
      this.id, this.name, this.version := id, name, version;
      this.nodes, this.edges, this.metadata := nodes, edges, metadata;
    }

    /** `auto_generate_edge_ids`. */
    method AutoGenerateEdgeIds()
      modifies this`edges
      ensures edges == WithIds(old(edges))
    {
      edges := Numbered(edges);
    }

    /** `validate`. */
    method Validate() returns (r: Result<(), GraphError>)
      ensures r.Ok? <==> WellFormed(nodes, edges)
      ensures r.Err? ==> Reports(nodes, edges, r.error)
    {
      r := Check(nodes, edges);
    }

    /** `prepare`. */
    method Prepare() returns (r: Result<(), GraphError>)
      modifies this`edges
      ensures edges == WithIds(old(edges))
      ensures r.Ok? <==> WellFormed(nodes, edges)
      ensures r.Err? ==> Reports(nodes, edges, r.error)
      ensures PlainNames(old(edges)) ==> !(r.Err? && r.error.DuplicateEdgeId?)
    {
      AutoGenerateEdgeIds();
      r := Validate();
      PrepareFindsNoDuplicateEdge(nodes, old(edges));
    }
  }

  /** On plain names the generated ids leave no duplicate edge id to report. */
  lemma PrepareFindsNoDuplicateEdge(nodes: seq<NodeDef>, edges: seq<EdgeDef>)
    ensures PlainNames(edges) ==> forall e :: Reports(nodes, WithIds(edges), e) ==> !e.DuplicateEdgeId?
  {
    if PlainNames(edges) {
      PlainNamesNeverClash(edges);
      IdsDistinctIffNoClash(edges);
      DistinctEdgesUpTo(WithIds(edges), |edges|);
      assert WithIds(edges)[..|edges|] == WithIds(edges);
    }
  }

  lemma CountKeyNext(edges: seq<EdgeDef>, i: nat, key: string)
    requires i < |edges|
    ensures CountKey(edges[..i + 1], key) == CountKey(edges[..i], key) + if Generates(edges[i], key) then 1 else 0
  {
    assert edges[..i + 1][..i] == edges[..i];
  }

  /** The loop of `auto_generate_edge_ids`, with its running count of each pair. */
  method Numbered(edges: seq<EdgeDef>) returns (r: seq<EdgeDef>)
    ensures r == WithIds(edges)
  {
    r := edges;
    var pairCounts: map<string, nat> := map[];
    for i := 0 to |edges|
      invariant |r| == |edges|
      invariant forall j :: 0 <= j < i ==> r[j] == edges[j].(id := FinalId(edges, j))
      invariant forall j :: i <= j < |edges| ==> r[j] == edges[j]
      invariant forall key :: key in pairCounts ==> pairCounts[key] == CountKey(edges[..i], key)
      invariant forall key :: key !in pairCounts ==> CountKey(edges[..i], key) == 0
    {
      forall key
        ensures CountKey(edges[..i + 1], key) == CountKey(edges[..i], key) + if Generates(edges[i], key) then 1 else 0
      {
        CountKeyNext(edges, i, key);
      }
      var edge := edges[i];
      if edge.id == "" {
        var pairKey := PairKey(edge);
        var count := (if pairKey in pairCounts then pairCounts[pairKey] else 0) + 1;
        pairCounts := pairCounts[pairKey := count];
        r := r[i := edge.(id := if count == 1 then pairKey else pairKey + SEPARATOR + Decimal(count))];
      }
    }
  }

  /** The checks of `validate`, in order, stopping at the first failure. */
  method Check(nodes: seq<NodeDef>, edges: seq<EdgeDef>) returns (r: Result<(), GraphError>)
    ensures r.Ok? <==> WellFormed(nodes, edges)
    ensures r.Err? ==> Reports(nodes, edges, r.error)
  {
    if nodes == [] {
      return Err(EmptyGraph);
    }
    var nodeIds: set<string> := {};
    for i := 0 to |nodes|
      invariant nodeIds == NodeIds(nodes[..i])
      invariant DistinctNodeIds(nodes[..i])
    {
      if nodes[i].id in nodeIds {
        assert FirstRepeatedNode(nodes, i);
        return Err(DuplicateNodeId(nodes[i].id));
      }
      nodeIds := nodeIds + {nodes[i].id};
      NodeIdsNext(nodes, i);
    }
    assert nodes[..|nodes|] == nodes;
    var edgeIds: set<string> := {};
    DefectFreeIsSound(nodes, edges);
    for i := 0 to |edges|
      invariant edgeIds == EdgeIds(edges[..i])
      invariant forall j :: 0 <= j < i ==> EdgeDefect(nodes, edges, j) == None
    {
      var e := edges[i];
      if e.id in edgeIds {
        assert FirstBadEdge(nodes, edges, i);
        return Err(DuplicateEdgeId(e.id));
      }
      edgeIds := edgeIds + {e.id};
      EdgeIdsNext(edges, i);
      if e.source !in nodeIds {
        assert FirstBadEdge(nodes, edges, i);
        return Err(UnknownSourceNode(e.id, e.source));
      }
      if e.target !in nodeIds {
        assert FirstBadEdge(nodes, edges, i);
        return Err(UnknownTargetNode(e.id, e.target));
      }
      if e.source == e.target && e.condition == None {
        assert FirstBadEdge(nodes, edges, i);
        return Err(SelfLoop(e.source));
      }
    }
    return Ok(());
  }

  lemma NodeIdsNext(nodes: seq<NodeDef>, i: nat)
    requires i < |nodes|
    ensures NodeIds(nodes[..i + 1]) == NodeIds(nodes[..i]) + {nodes[i].id}
    ensures DistinctNodeIds(nodes[..i]) && nodes[i].id !in NodeIds(nodes[..i]) ==> DistinctNodeIds(nodes[..i + 1])
  {
    var next := nodes[..i + 1];
    assert forall j :: 0 <= j < i ==> next[j] == nodes[..i][j] && next[j].id in NodeIds(nodes[..i]);
    assert next[i] == nodes[i];
  }

  lemma EdgeIdsNext(edges: seq<EdgeDef>, i: nat)
    requires i < |edges|
    ensures EdgeIds(edges[..i + 1]) == EdgeIds(edges[..i]) + {edges[i].id}
  {
    var next := edges[..i + 1];
    assert forall j :: 0 <= j < i ==> next[j] == edges[..i][j];
    assert next[i] == edges[i];
  }

  // ---------------------------------------------------------------------------
  // Entry nodes and reachability
  // ---------------------------------------------------------------------------

  predicate HasIncoming(edges: seq<EdgeDef>, id: string) {
    exists i :: 0 <= i < |edges| && edges[i].target == id
  }

  /** `entry_nodes`. */
  function EntryNodes(nodes: seq<NodeDef>, edges: seq<EdgeDef>): (r: seq<NodeDef>)
    ensures forall n :: n in r <==> n in nodes && !HasIncoming(edges, n.id)
  {
    if nodes == [] then []
    else
      var rest := EntryNodes(nodes[1..], edges);
      assert forall n :: n in nodes <==> n == nodes[0] || n in nodes[1..];
      if HasIncoming(edges, nodes[0].id) then rest else [nodes[0]] + rest
  }

  /** `outgoing_edges`. */
  function OutgoingEdges(edges: seq<EdgeDef>, id: string): (r: seq<EdgeDef>)
    ensures forall e :: e in r <==> e in edges && e.source == id
  {
    if edges == [] then []
    else
      var rest := OutgoingEdges(edges[1..], id);
      assert forall e :: e in edges <==> e == edges[0] || e in edges[1..];
      if edges[0].source == id then [edges[0]] + rest else rest
  }

  /** `r` holds the elements of `s` at the positions `at`. */
  ghost predicate TakenAt<T>(s: seq<T>, r: seq<T>, at: seq<nat>) {
    |at| == |r| && forall k :: 0 <= k < |at| ==> at[k] < |s| && s[at[k]] == r[k]
  }

  ghost predicate Increasing(at: seq<nat>) {
    forall j, k :: 0 <= j < k < |at| ==> at[j] < at[k]
  }

  ghost predicate KeptAt<T>(s: seq<T>, keep: T -> bool, at: seq<nat>) {
    forall i :: 0 <= i < |s| ==> (keep(s[i]) <==> i in at)
  }

  /** `r` is what `keep` keeps of `s`: the elements at the positions `at`, in order, and no others. */
  ghost predicate Keeps<T>(s: seq<T>, keep: T -> bool, r: seq<T>, at: seq<nat>) {
    TakenAt(s, r, at) && Increasing(at) && KeptAt(s, keep, at)
  }

  /** The positions one further on. */
  function Shifted(at: seq<nat>): (r: seq<nat>)
    ensures |r| == |at|
  {
    seq(|at|, k requires 0 <= k < |at| => at[k] + 1)
  }

  lemma ShiftedMembers(at: seq<nat>, i: nat)
    ensures i in Shifted(at) <==> i > 0 && i - 1 in at
  {
    if i > 0 && i - 1 in at {
      var k :| 0 <= k < |at| && at[k] == i - 1;
      assert Shifted(at)[k] == i;
    }
  }

  lemma TakenOneMore<T>(s: seq<T>, r: seq<T>, at: seq<nat>)
    requires s != [] && TakenAt(s[1..], r, at) && Increasing(at)
    ensures TakenAt(s, r, Shifted(at)) && Increasing(Shifted(at))
    ensures TakenAt(s, [s[0]] + r, [0] + Shifted(at)) && Increasing([0] + Shifted(at))
  {
    assert forall k :: 0 <= k < |at| ==> s[Shifted(at)[k]] == s[1..][at[k]];
  }

  lemma KeptOneMore<T>(s: seq<T>, keep: T -> bool, at: seq<nat>)
    requires s != [] && KeptAt(s[1..], keep, at)
    ensures KeptAt(s, keep, if keep(s[0]) then [0] + Shifted(at) else Shifted(at))
  {
    var now := if keep(s[0]) then [0] + Shifted(at) else Shifted(at);
    forall i | 0 <= i < |s|
      ensures keep(s[i]) <==> i in now
    {
      ShiftedMembers(at, i);
      if i > 0 {
        assert s[1..][i - 1] == s[i];
      }
    }
  }

  /** Entry nodes come in the order of the nodes, each as often as it occurs. */
  lemma {:induction false} EntryNodesInOrder(nodes: seq<NodeDef>, edges: seq<EdgeDef>) returns (at: seq<nat>)
    ensures Keeps(nodes, (n: NodeDef) => !HasIncoming(edges, n.id), EntryNodes(nodes, edges), at)
  {
    at := [];
    if nodes != [] {
      var keep := (n: NodeDef) => !HasIncoming(edges, n.id);
      var rest := EntryNodesInOrder(nodes[1..], edges);
      TakenOneMore(nodes, EntryNodes(nodes[1..], edges), rest);
      KeptOneMore(nodes, keep, rest);
      at := if HasIncoming(edges, nodes[0].id) then Shifted(rest) else [0] + Shifted(rest);
    }
  }

  /** The edges that leave a node come in the order of the edges, each as often as it occurs. */
  lemma {:induction false} OutgoingEdgesInOrder(edges: seq<EdgeDef>, id: string) returns (at: seq<nat>)
    ensures Keeps(edges, (e: EdgeDef) => e.source == id, OutgoingEdges(edges, id), at)
  {
    at := [];
    if edges != [] {
      var keep := (e: EdgeDef) => e.source == id;
      var rest := OutgoingEdgesInOrder(edges[1..], id);
      TakenOneMore(edges, OutgoingEdges(edges[1..], id), rest);
      KeptOneMore(edges, keep, rest);
      at := if edges[0].source == id then [0] + Shifted(rest) else Shifted(rest);
    }
  }

  /** The first entry node, where every run starts, is the first node without an incoming edge. */
  lemma FirstEntryNode(nodes: seq<NodeDef>, edges: seq<EdgeDef>) returns (k: nat)
    requires EntryNodes(nodes, edges) != []
    ensures k < |nodes| && EntryNodes(nodes, edges)[0] == nodes[k] && !HasIncoming(edges, nodes[k].id)
    ensures forall i :: 0 <= i < k ==> HasIncoming(edges, nodes[i].id)
  {
    var at := EntryNodesInOrder(nodes, edges);
    k := at[0];
    assert k in at;
  }

  /** `path` leads from `a` to `b`, each step taken from the outgoing edges of the node reached. */
  ghost predicate IsPath(edges: seq<EdgeDef>, a: string, b: string, path: seq<EdgeDef>)
    decreases |path|
  {
    if path == [] then a == b
    else path[0] in OutgoingEdges(edges, a) && IsPath(edges, path[0].target, b, path[1..])
  }

  ghost predicate Reachable(edges: seq<EdgeDef>, a: string, b: string) {
    exists path :: IsPath(edges, a, b, path)
  }

  ghost predicate ReachableFromEntry(nodes: seq<NodeDef>, edges: seq<EdgeDef>, id: string) {
    exists n :: n in EntryNodes(nodes, edges) && Reachable(edges, n.id, id)
  }

  lemma {:induction false} PathExtends(edges: seq<EdgeDef>, a: string, e: EdgeDef, path: seq<EdgeDef>)
    requires IsPath(edges, a, e.source, path) && e in edges
    ensures IsPath(edges, a, e.target, path + [e])
    decreases |path|
  {
    if path == [] {
      assert [e][1..] == [];
    } else {
      assert (path + [e])[1..] == path[1..] + [e];
      PathExtends(edges, path[0].target, e, path[1..]);
    }
  }

  lemma ReachableExtends(nodes: seq<NodeDef>, edges: seq<EdgeDef>, e: EdgeDef)
    requires ReachableFromEntry(nodes, edges, e.source) && e in edges
    ensures ReachableFromEntry(nodes, edges, e.target)
  {
    var n :| n in EntryNodes(nodes, edges) && Reachable(edges, n.id, e.source);
    var path :| IsPath(edges, n.id, e.source, path);
    PathExtends(edges, n.id, e, path);
  }

  /** A non-empty set of nodes that all have incoming edges, every one of them from inside the set. */
  ghost predicate Rootless(nodes: seq<NodeDef>, edges: seq<EdgeDef>, s: set<string>) {
    && s != {} && s <= NodeIds(nodes)
    && (forall v :: v in s ==> HasIncoming(edges, v))
    && (forall i :: 0 <= i < |edges| && edges[i].target in s ==> edges[i].source in s)
  }

  /** Walking back from inside a rootless set never leaves it. */
  lemma {:induction false} PathStaysRootless(nodes: seq<NodeDef>, edges: seq<EdgeDef>, s: set<string>, a: string, b: string,
                                             path: seq<EdgeDef>)
    requires Rootless(nodes, edges, s) && IsPath(edges, a, b, path) && b in s
    ensures a in s
    decreases |path|
  {
    if path != [] {
      var e := path[0];
      PathStaysRootless(nodes, edges, s, e.target, b, path[1..]);
      assert e in OutgoingEdges(edges, a);
      assert e in edges && e.source == a;
    }
  }

  /** In a well-formed graph every node is reachable from an entry node exactly when no set of nodes is rootless. */
  lemma AllReachableIffNoRootlessSet(nodes: seq<NodeDef>, edges: seq<EdgeDef>)
    requires WellFormed(nodes, edges)
    ensures AllReachable(nodes, edges) <==> !HasRootlessSet(nodes, edges)
  {
    if AllReachable(nodes, edges) && HasRootlessSet(nodes, edges) {
      var s :| Rootless(nodes, edges, s);
      var v :| v in s;
      RootlessNodeIsLost(nodes, edges, s, v);
    }
    if !AllReachable(nodes, edges) {
      var v :| v in NodeIds(nodes) && !ReachableFromEntry(nodes, edges, v);
      var lost := set w | w in NodeIds(nodes) && !ReachableFromEntry(nodes, edges, w);
      assert v in lost;
      LostNodesAreRootless(nodes, edges, lost);
    }
  }

  ghost predicate AllReachable(nodes: seq<NodeDef>, edges: seq<EdgeDef>) {
    forall v :: v in NodeIds(nodes) ==> ReachableFromEntry(nodes, edges, v)
  }

  ghost predicate HasRootlessSet(nodes: seq<NodeDef>, edges: seq<EdgeDef>) {
    exists s :: Rootless(nodes, edges, s)
  }

  lemma RootlessNodeIsLost(nodes: seq<NodeDef>, edges: seq<EdgeDef>, s: set<string>, v: string)
    requires Rootless(nodes, edges, s) && v in s
    ensures !ReachableFromEntry(nodes, edges, v)
  {
    forall n, path | n in EntryNodes(nodes, edges) && IsPath(edges, n.id, v, path)
      ensures false
    {
      PathStaysRootless(nodes, edges, s, n.id, v, path);
    }
  }

  lemma LostNodesAreRootless(nodes: seq<NodeDef>, edges: seq<EdgeDef>, lost: set<string>)
    requires WellFormed(nodes, edges) && lost != {}
    requires forall v :: v in lost <==> v in NodeIds(nodes) && !ReachableFromEntry(nodes, edges, v)
    ensures Rootless(nodes, edges, lost)
  {
    forall v | v in lost
      ensures HasIncoming(edges, v)
    {
      var i :| 0 <= i < |nodes| && nodes[i].id == v;
      assert IsPath(edges, v, v, []);
      assert nodes[i] in nodes;
      assert nodes[i] !in EntryNodes(nodes, edges);
    }
    forall i | 0 <= i < |edges| && edges[i].target in lost
      ensures edges[i].source in lost
    {
      assert SoundEdge(nodes, edges[i]);
      if ReachableFromEntry(nodes, edges, edges[i].source) {
        ReachableExtends(nodes, edges, edges[i]);
      }
    }
  }

  /** `rank` grows along every edge, as it can only do in an acyclic graph. */
  ghost predicate Ranked(edges: seq<EdgeDef>, rank: string -> nat) {
    forall i :: 0 <= i < |edges| ==> rank(edges[i].source) < rank(edges[i].target)
  }

  lemma {:induction false} NoRootlessSetWhenRanked(nodes: seq<NodeDef>, edges: seq<EdgeDef>, rank: string -> nat,
                                                   s: set<string>, v: string)
    requires Ranked(edges, rank) && Rootless(nodes, edges, s) && v in s
    ensures false
    decreases rank(v)
  {
    assert HasIncoming(edges, v);
    var i :| 0 <= i < |edges| && edges[i].target == v;
    NoRootlessSetWhenRanked(nodes, edges, rank, s, edges[i].source);
  }

  /** In an acyclic well-formed graph there is an entry node and every node is reachable from one. */
  lemma AcyclicGraphsAreReachable(nodes: seq<NodeDef>, edges: seq<EdgeDef>, rank: string -> nat)
    requires WellFormed(nodes, edges) && Ranked(edges, rank)
    ensures EntryNodes(nodes, edges) != []
    ensures AllReachable(nodes, edges)
  {
    forall s | Rootless(nodes, edges, s)
      ensures false
    {
      var v :| v in s;
      NoRootlessSetWhenRanked(nodes, edges, rank, s, v);
    }
    AllReachableIffNoRootlessSet(nodes, edges);
    assert nodes[0].id in NodeIds(nodes);
    assert ReachableFromEntry(nodes, edges, nodes[0].id);
  }

  /** A well-formed graph with cycles may have no entry node at all: one node with a conditional self-loop. */
  lemma CyclicGraphWithoutEntry() returns (nodes: seq<NodeDef>, edges: seq<EdgeDef>)
    ensures WellFormed(nodes, edges) && EntryNodes(nodes, edges) == []
  {
    var n := NodeDef("a", "x", "1.0.0", map[], None);
    nodes := [n];
    edges := [EdgeDef("e1", "a", "a", Some(EdgeCondition("done", Eq, Bool(false))), None)];
    assert edges[0].target == "a" && nodes[0].id in NodeIds(nodes);
    assert HasIncoming(edges, n.id) && nodes[1..] == [];
  }
}
