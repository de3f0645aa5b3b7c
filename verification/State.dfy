/** Execution state (engine/src/core/state.rs): a shared map behind handles that alias, fork and merge. */
module State {
  import opened Basics
  import opened Strings
  import opened Json

  type Output = map<string, Json>
  type StateMap = map<string, Output>

  datatype StateError = AlreadySet(nodeId: string)

  // ---------------------------------------------------------------------------
  // Setting and merging, on values
  // ---------------------------------------------------------------------------

  /** One `set`: refused for a node that already has an output, unless overwriting. */
  function SetOne(m: StateMap, node: string, output: Output, overwrite: bool): Result<StateMap, StateError> {
    if !overwrite && node in m then Err(AlreadySet(node)) else Ok(m[node := output])
  }

  function Lookup<V>(m: map<string, V>, key: string): Option<V> {
    if key in m then Some(m[key]) else None
  }

  lemma SameLookups<V>(a: map<string, V>, b: map<string, V>)
    requires forall key :: Lookup(a, key) == Lookup(b, key)
    ensures a == b
  {
    forall key
      ensures key in a <==> key in b
      ensures key in a ==> a[key] == b[key]
    {
      assert Lookup(a, key) == Lookup(b, key);
    }
  }

  /** What a merge does to one node: fields of both sides, the right-hand side's winning. */
  function Overlay(a: Option<Output>, b: Option<Output>): Option<Output> {
    if b == None then a else if a == None then b else Some(a.value + b.value)
  }

  /** The union of the nodes of both sides. */
  function MergeMaps(a: StateMap, b: StateMap): StateMap {
    map n | n in a.Keys + b.Keys :: Overlay(Lookup(a, n), Lookup(b, n)).value
  }

  lemma MergeAt(a: StateMap, b: StateMap, n: string)
    ensures Lookup(MergeMaps(a, b), n) == Overlay(Lookup(a, n), Lookup(b, n))
  {}

  lemma MergeIsAssociative(a: StateMap, b: StateMap, c: StateMap)
    ensures MergeMaps(MergeMaps(a, b), c) == MergeMaps(a, MergeMaps(b, c))
  {
    forall n
      ensures Lookup(MergeMaps(MergeMaps(a, b), c), n) == Lookup(MergeMaps(a, MergeMaps(b, c)), n)
    {
      MergeAt(MergeMaps(a, b), c, n);
      MergeAt(a, b, n);
      MergeAt(a, MergeMaps(b, c), n);
      MergeAt(b, c, n);
      OverlayIsAssociative(Lookup(a, n), Lookup(b, n), Lookup(c, n));
    }
    SameLookups(MergeMaps(MergeMaps(a, b), c), MergeMaps(a, MergeMaps(b, c)));
  }

  lemma OverlayIsAssociative(a: Option<Output>, b: Option<Output>, c: Option<Output>)
    ensures Overlay(Overlay(a, b), c) == Overlay(a, Overlay(b, c))
  {
    if a.Some? && b.Some? && c.Some? {
      assert (a.value + b.value) + c.value == a.value + (b.value + c.value);
    }
  }

  ghost predicate FieldsAgree(a: Output, b: Output) {
    forall f :: f in a && f in b ==> a[f] == b[f]
  }

  lemma OverlayCommutesIff(a: Output, b: Output)
    ensures a + b == b + a <==> FieldsAgree(a, b)
  {
    assert forall f :: f in a && f in b ==> (a + b)[f] == b[f] && (b + a)[f] == a[f];
  }

  /** The order of a merge matters exactly where both sides hold different values for the same field. */
  lemma MergeCommutesIff(a: StateMap, b: StateMap)
    ensures MergeMaps(a, b) == MergeMaps(b, a) <==> forall n :: n in a && n in b ==> FieldsAgree(a[n], b[n])
  {
    forall n
      ensures n in a && n in b ==>
        (FieldsAgree(a[n], b[n]) <==> Lookup(MergeMaps(a, b), n) == Lookup(MergeMaps(b, a), n))
      ensures !(n in a && n in b) ==> Lookup(MergeMaps(a, b), n) == Lookup(MergeMaps(b, a), n)
    {
      MergeAt(a, b, n);
      MergeAt(b, a, n);
      if n in a && n in b {
        OverlayCommutesIff(a[n], b[n]);
      }
    }
    if forall n :: n in a && n in b ==> FieldsAgree(a[n], b[n]) {
      SameLookups(MergeMaps(a, b), MergeMaps(b, a));
    }
  }

  // ---------------------------------------------------------------------------
  // Fan-out and fan-in
  // ---------------------------------------------------------------------------

  datatype Write = Write(node: string, output: Output)

  /** Non-overwriting `set`s, one after the other, stopping at the first refusal. */
  function SetAll(m: StateMap, writes: seq<Write>): Result<StateMap, StateError>
    decreases |writes|
  {
    if writes == [] then Ok(m)
    else
      match SetOne(m, writes[0].node, writes[0].output, false)
      case Err(e) => Err(e)
      case Ok(next) => SetAll(next, writes[1..])
  }

  /** What a list of writes to different nodes writes to one node. */
  function WrittenAt(writes: seq<Write>, n: string): Option<Output> {
    if writes == [] then None
    else if writes[0].node == n then Some(writes[0].output)
    else WrittenAt(writes[1..], n)
  }

  /** Sets that all succeed change exactly the nodes they write, which were not there. */
  lemma {:induction false} SetAllAt(m: StateMap, writes: seq<Write>, n: string)
    requires SetAll(m, writes).Ok?
    ensures n in m ==> WrittenAt(writes, n) == None
    ensures Lookup(SetAll(m, writes).value, n) == if n in m then Some(m[n]) else WrittenAt(writes, n)
    decreases |writes|
  {
    if writes != [] {
      SetAllAt(m[writes[0].node := writes[0].output], writes[1..], n);
    }
  }

  /** Whether sets succeed depends only on which of the nodes they write are already there. */
  lemma {:induction false} SetAllTransfers(m: StateMap, other: StateMap, writes: seq<Write>)
    requires SetAll(m, writes).Ok?
    requires forall n :: WrittenAt(writes, n).Some? ==> n !in other
    ensures SetAll(other, writes).Ok?
    decreases |writes|
  {
    if writes != [] {
      var w, rest := writes[0], writes[1..];
      var next := m[w.node := w.output];
      assert WrittenAt(writes, w.node).Some?;
      forall n | WrittenAt(rest, n).Some?
        ensures n !in other[w.node := w.output]
      {
        SetAllAt(next, rest, n);
        assert n != w.node && WrittenAt(writes, n).Some?;
      }
      SetAllTransfers(next, other[w.node := w.output], rest);
    }
  }

  lemma {:induction false} SetAllSplit(m: StateMap, a: seq<Write>, b: seq<Write>)
    requires SetAll(m, a).Ok?
    ensures SetAll(m, a + b) == SetAll(SetAll(m, a).value, b)
    decreases |a|
  {
    if a == [] {
      assert a + b == b;
    } else {
      assert (a + b)[1..] == a[1..] + b;
      SetAllSplit(m[a[0].node := a[0].output], a[1..], b);
    }
  }

  type Task = seq<Write>

  /** No two tasks write the same node. */
  ghost predicate WriteApart(a: Task, b: Task) {
    forall n :: WrittenAt(a, n) == None || WrittenAt(b, n) == None
  }

  /** Each task succeeds on its own fork of `parent`, and no two tasks write the same node. */
  ghost predicate Independent(parent: StateMap, tasks: seq<Task>) {
    && (forall i :: 0 <= i < |tasks| ==> SetAll(parent, tasks[i]).Ok?)
    && (forall i, j :: 0 <= i < j < |tasks| ==> WriteApart(tasks[i], tasks[j]))
  }

  /** Every index below `n` exactly once, in some order. */
  ghost predicate IsOrder(order: seq<nat>, n: nat) {
    && (forall k :: 0 <= k < |order| ==> order[k] < n)
    && (forall k, l :: 0 <= k < l < |order| ==> order[k] != order[l])
    && (forall i :: 0 <= i < n ==> i in order)
  }

  /** Merging the forks, each with its task done, back into the parent in the given order. */
  function MergeForks(m: StateMap, parent: StateMap, tasks: seq<Task>, order: seq<nat>): StateMap
    requires forall i :: 0 <= i < |tasks| ==> SetAll(parent, tasks[i]).Ok?
    requires forall k :: 0 <= k < |order| ==> order[k] < |tasks|
    decreases |order|
  {
    if order == [] then m
    else MergeForks(MergeMaps(m, SetAll(parent, tasks[order[0]]).value), parent, tasks, order[1..])
  }

  /** The one output node `n` can end up with: the parent's, or what its only writer writes. */
  ghost predicate IsOwned(parent: StateMap, tasks: seq<Task>, n: string, v: Output) {
    && (n in parent ==> v == parent[n])
    && (n !in parent ==> forall i :: 0 <= i < |tasks| ==> WrittenAt(tasks[i], n) in {None, Some(v)})
  }

  lemma OwnedExists(parent: StateMap, tasks: seq<Task>, n: string) returns (v: Output)
    requires Independent(parent, tasks)
    ensures IsOwned(parent, tasks, n, v)
  {
    if n in parent {
      v := parent[n];
    } else if i :| 0 <= i < |tasks| && WrittenAt(tasks[i], n).Some? {
      v := WrittenAt(tasks[i], n).value;
      forall j | 0 <= j < |tasks|
        ensures WrittenAt(tasks[j], n) in {None, Some(v)}
      {
        assert i < j ==> WriteApart(tasks[i], tasks[j]);
        assert j < i ==> WriteApart(tasks[j], tasks[i]);
      }
    } else {
      v := map[];
    }
  }

  ghost predicate IsWritten(tasks: seq<Task>, order: seq<nat>, n: string) {
    exists k :: 0 <= k < |order| && order[k] < |tasks| && WrittenAt(tasks[order[k]], n).Some?
  }

  lemma {:induction false} MergeForksAt(m: StateMap, parent: StateMap, tasks: seq<Task>, order: seq<nat>,
                                        n: string, v: Output)
    requires forall i :: 0 <= i < |tasks| ==> SetAll(parent, tasks[i]).Ok?
    requires forall k :: 0 <= k < |order| ==> order[k] < |tasks|
    requires IsOwned(parent, tasks, n, v)
    requires Lookup(m, n) in {None, Some(v)} && (n in parent ==> n in m)
    ensures Lookup(MergeForks(m, parent, tasks, order), n)
         == if n in m || IsWritten(tasks, order, n) then Some(v) else None
    decreases |order|
  {
    if order != [] {
      var i, rest := order[0], order[1..];
      var next := MergeMaps(m, SetAll(parent, tasks[i]).value);
      SetAllAt(parent, tasks[i], n);
      MergeAt(m, SetAll(parent, tasks[i]).value, n);
      assert v + v == v;
      MergeForksAt(next, parent, tasks, rest, n, v);
      IsWrittenStep(tasks, order, n);
    }
  }

  lemma IsWrittenStep(tasks: seq<Task>, order: seq<nat>, n: string)
    requires order != [] && order[0] < |tasks|
    ensures IsWritten(tasks, order, n) <==> WrittenAt(tasks[order[0]], n).Some? || IsWritten(tasks, order[1..], n)
  {
    assert forall k :: 1 <= k < |order| ==> order[k] == order[1..][k - 1];
    if IsWritten(tasks, order[1..], n) {
      var k :| 0 <= k < |order[1..]| && order[1..][k] < |tasks| && WrittenAt(tasks[order[1..][k]], n).Some?;
      assert order[k + 1] == order[1..][k];
    }
  }

  ghost predicate IsWrittenBefore(tasks: seq<Task>, k: nat, n: string) {
    exists i :: 0 <= i < k && i < |tasks| && WrittenAt(tasks[i], n).Some?
  }

  /** Doing the first `k` tasks one after the other on the parent succeeds and adds exactly those tasks. */
  lemma {:induction false} SequentialAt(parent: StateMap, tasks: seq<Task>, k: nat)
    requires Independent(parent, tasks) && k <= |tasks|
    ensures SetAll(parent, Flatten(tasks[..k])).Ok?
    ensures forall n, v :: IsOwned(parent, tasks, n, v) ==>
      Lookup(SetAll(parent, Flatten(tasks[..k])).value, n)
        == if n in parent || IsWrittenBefore(tasks, k, n) then Some(v) else None
    decreases k
  {
    if k > 0 {
      SequentialAt(parent, tasks, k - 1);
      var before, last := Flatten(tasks[..k - 1]), tasks[k - 1];
      assert tasks[..k] == tasks[..k - 1] + [last];
      FlattenSnoc(tasks[..k - 1], last);
      var m := SetAll(parent, before).value;
      SetAllSplit(parent, before, last);
      forall n | WrittenAt(last, n).Some?
        ensures n !in m
      {
        var v := OwnedExists(parent, tasks, n);
        SetAllAt(parent, last, n);
        assert forall i :: 0 <= i < k - 1 ==> WriteApart(tasks[i], tasks[k - 1]);
        assert !IsWrittenBefore(tasks, k - 1, n);
      }
      SetAllTransfers(parent, m, last);
      forall n, v | IsOwned(parent, tasks, n, v)
        ensures Lookup(SetAll(parent, before + last).value, n)
             == if n in parent || IsWrittenBefore(tasks, k, n) then Some(v) else None
      {
        SetAllAt(m, last, n);
        IsWrittenBeforeStep(tasks, k, n);
      }
    }
  }

  lemma IsWrittenBeforeStep(tasks: seq<Task>, k: nat, n: string)
    requires 0 < k <= |tasks|
    ensures IsWrittenBefore(tasks, k, n) <==> IsWrittenBefore(tasks, k - 1, n) || WrittenAt(tasks[k - 1], n).Some?
  {}

  /** Fan-in is confluent: independent forks merged back in any order give the one state that doing all
      their writes on the parent, one after the other, gives. */
  lemma FanInIsConfluent(parent: StateMap, tasks: seq<Task>, order: seq<nat>)
    requires Independent(parent, tasks) && IsOrder(order, |tasks|)
    ensures SetAll(parent, Flatten(tasks)) == Ok(MergeForks(parent, parent, tasks, order))
  {
    SequentialAt(parent, tasks, |tasks|);
    assert tasks[..|tasks|] == tasks;
    var merged, sequential := MergeForks(parent, parent, tasks, order), SetAll(parent, Flatten(tasks)).value;
    forall n
      ensures Lookup(merged, n) == Lookup(sequential, n)
    {
      var v := OwnedExists(parent, tasks, n);
      MergeForksAt(parent, parent, tasks, order, n, v);
      OrderCoversTasks(tasks, order, n);
    }
    SameLookups(merged, sequential);
  }

  lemma OrderCoversTasks(tasks: seq<Task>, order: seq<nat>, n: string)
    requires IsOrder(order, |tasks|)
    ensures IsWritten(tasks, order, n) <==> IsWrittenBefore(tasks, |tasks|, n)
  {
    if IsWritten(tasks, order, n) {
      var k :| 0 <= k < |order| && order[k] < |tasks| && WrittenAt(tasks[order[k]], n).Some?;
    }
    if IsWrittenBefore(tasks, |tasks|, n) {
      var i :| 0 <= i < |tasks| && WrittenAt(tasks[i], n).Some?;
      assert i in order;
      var k :| 0 <= k < |order| && order[k] == i;
    }
  }

  // ---------------------------------------------------------------------------
  // Field paths
  // ---------------------------------------------------------------------------

  /** Following keys into nested objects. */
  function Descend(v: Json, keys: seq<string>): Option<Json> {
    if keys == [] then Some(v)
    else
      match v.Get(keys[0])
      case None => None
      case Some(next) => Descend(next, keys[1..])
  }

  /** The value at a dot-separated path of a node's output. */
  function FieldAt(output: Output, path: string): Option<Json> {
    Descend(Obj(output), SplitChar(path, '.'))
  }

  lemma {:induction false} DescendConcat(v: Json, a: seq<string>, b: seq<string>)
    ensures Descend(v, a + b) == if Descend(v, a) == None then None else Descend(Descend(v, a).value, b)
  {
    if a == [] {
      assert a + b == b;
    } else {
      assert (a + b)[1..] == a[1..] + b;
      if v.Get(a[0]).Some? {
        DescendConcat(v.Get(a[0]).value, a[1..], b);
      }
    }
  }

  /** A path of two parts is the second part looked up in what the first one finds. */
  lemma PathsCompose(output: Output, a: string, b: string)
    ensures FieldAt(output, a + "." + b)
         == if FieldAt(output, a) == None then None else Descend(FieldAt(output, a).value, SplitChar(b, '.'))
  {
    SplitCharConcat(a, '.', b);
    assert "." == ['.'];
    assert SplitChar(a + "." + b, '.') == SplitChar(a, '.') + SplitChar(b, '.');
    DescendConcat(Obj(output), SplitChar(a, '.'), SplitChar(b, '.'));
  }

  /** A field name without a dot is looked up directly. */
  lemma PlainFieldIsDirect(output: Output, field: string)
    requires '.' !in field
    ensures FieldAt(output, field) == if field in output then Some(output[field]) else None
  {
    SplitCharWhole(field, '.');
    var keys := [field];
    assert keys[1..] == [];
    assert Obj(output).Get(keys[0]) == if field in output then Some(output[field]) else None;
    assert Descend(Obj(output), keys) == if field in output then Descend(output[field], keys[1..]) else None;
  }

  // ---------------------------------------------------------------------------
  // Shared state
  // ---------------------------------------------------------------------------

  /** The map behind `Arc<RwLock<..>>`, shared by all handles cloned from one another. */
  class SharedMap {
    var m: StateMap

    constructor (m: StateMap)
      ensures this.m == m
    {
      this.m := m;
    }
  }

  /** A handle. Cloning copies the handle, forking copies the map. */
  class ExecutionState {
    const inner: SharedMap

    constructor ()
      ensures fresh(inner) && inner.m == map[]
    {
      inner := new SharedMap(map[]);
    }

    constructor Sharing(inner: SharedMap)
      ensures this.inner == inner
    {
      this.inner := inner;
    }

    /** `set`. */
    method Set(nodeId: string, output: Output, overwrite: bool) returns (r: Result<(), StateError>)
      modifies inner
      ensures match SetOne(old(inner.m), nodeId, output, overwrite)
              case Ok(next) => r == Ok(()) && inner.m == next
              case Err(e) => r == Err(e) && inner.m == old(inner.m)
    {
      if !overwrite && nodeId in inner.m {
        return Err(AlreadySet(nodeId));
      }
      inner.m := inner.m[nodeId := output];
      return Ok(());
    }

    /** `get`. */
    method Get(nodeId: string) returns (r: Option<Output>)
      ensures r == if nodeId in inner.m then Some(inner.m[nodeId]) else None
    {
      r := if nodeId in inner.m then Some(inner.m[nodeId]) else None;
    }

    /** `get_field`. */
    method GetField(nodeId: string, field: string) returns (r: Option<Json>)
      ensures r == if nodeId in inner.m then FieldAt(inner.m[nodeId], field) else None
    {
      if nodeId !in inner.m {
        return None;
      }
      var output := inner.m[nodeId];
      var parts := SplitChar(field, '.');
      if parts[0] !in output {
        return None;
      }
      var current := output[parts[0]];
      for i := 1 to |parts|
        invariant Descend(Obj(output), parts) == Descend(current, parts[i..])
      {
        assert parts[i..][1..] == parts[i + 1..];
        var next := current.Get(parts[i]);
        if next == None {
          return None;
        }
        current := next.value;
      }
      return Some(current);
    }

    /** `snapshot`. */
    method Snapshot() returns (m: StateMap)
      ensures m == inner.m
    {
      m := inner.m;
    }

    /** `clone`: another handle on the same map. */
    method Clone() returns (s: ExecutionState)
      ensures fresh(s) && s.inner == inner
    {
      s := new ExecutionState.Sharing(inner);
    }

    /** `fork`: a handle on a map of its own. */
    method Fork() returns (s: ExecutionState)
      ensures fresh(s) && fresh(s.inner) && s.inner.m == inner.m
    {
      var map' := Snapshot();
      var own := new SharedMap(map');
      s := new ExecutionState.Sharing(own);
    }

    /** `merge`. The write lock of the receiver is held while the other side is read, so the two handles
        must not share one map. The order in which entries are visited is left open. */
    method Merge(other: ExecutionState)
      requires other.inner != inner
      modifies inner
      ensures inner.m == MergeMaps(old(inner.m), other.inner.m)
    {
      var otherMap := other.inner.m;
      ghost var before := inner.m;
      var rest := otherMap.Keys;
      while rest != {}
        invariant rest <= otherMap.Keys
        invariant inner.m == MergeMaps(before, otherMap - rest)
        decreases rest
      {
        var nodeId :| nodeId in rest;
        MergeNextNode(before, otherMap, rest, nodeId);
        if nodeId in inner.m {
          var merged := InsertAll(inner.m[nodeId], otherMap[nodeId]);
          inner.m := inner.m[nodeId := merged];
        } else {
          inner.m := inner.m[nodeId := otherMap[nodeId]];
        }
        rest := rest - {nodeId};
      }
      assert otherMap - {} == otherMap;
    }
  }

  /** The inner loop of `merge`: every field of `other` is inserted. */
  method InsertAll(output: Output, other: Output) returns (r: Output)
    ensures r == output + other
  {
    r := output;
    var keys := other.Keys;
    while keys != {}
      invariant keys <= other.Keys
      invariant r == output + (other - keys)
      decreases keys
    {
      var k :| k in keys;
      assert other - (keys - {k}) == (other - keys)[k := other[k]];
      r := r[k := other[k]];
      keys := keys - {k};
    }
    assert other - {} == other;
  }

  lemma MergeNextNode(before: StateMap, other: StateMap, rest: set<string>, node: string)
    requires node in other && node in rest
    ensures var merged := MergeMaps(before, other - rest);
      MergeMaps(before, other - (rest - {node}))
        == merged[node := if node in merged then merged[node] + other[node] else other[node]]
  {
    var merged, next := MergeMaps(before, other - rest), MergeMaps(before, other - (rest - {node}));
    forall n
      ensures Lookup(next, n) == if n == node then Overlay(Lookup(merged, n), Some(other[node])) else Lookup(merged, n)
    {
      MergeAt(before, other - rest, n);
      MergeAt(before, other - (rest - {node}), n);
    }
    SameLookups(next, merged[node := if node in merged then merged[node] + other[node] else other[node]]);
  }

  // ---------------------------------------------------------------------------
  // Who sees later writes
  // ---------------------------------------------------------------------------

  /** One of the three handles: the original, its clone and its fork. */
  datatype Handle = Original | Cloned | Forked

  datatype HandleWrite = HandleWrite(through: Handle, nodeId: string, output: Output, overwrite: bool)

  /** A write that is refused changes nothing. */
  function Attempt(m: StateMap, w: HandleWrite): StateMap {
    match SetOne(m, w.nodeId, w.output, w.overwrite)
    case Ok(next) => next
    case Err(_) => m
  }

  /** The writes through the fork, or those through the other two. */
  function WritesTo(writes: seq<HandleWrite>, fork: bool): seq<HandleWrite> {
    if writes == [] then []
    else
      var earlier := WritesTo(writes[..|writes| - 1], fork);
      if writes[|writes| - 1].through.Forked? == fork then earlier + [writes[|writes| - 1]] else earlier
  }

  function AttemptAll(m: StateMap, writes: seq<HandleWrite>): StateMap {
    if writes == [] then m else Attempt(AttemptAll(m, writes[..|writes| - 1]), writes[|writes| - 1])
  }

  /** What the three handles show after any writes through any of them. */
  method LaterWritesAreSeenByCloneOnly(s: ExecutionState, writes: seq<HandleWrite>) returns (clone: ExecutionState, fork: ExecutionState)
    modifies s.inner
    ensures fresh(clone) && fresh(fork) && clone.inner == s.inner && fresh(fork.inner)
    ensures s.inner.m == AttemptAll(old(s.inner.m), WritesTo(writes, false))
    ensures fork.inner.m == AttemptAll(old(s.inner.m), WritesTo(writes, true))
  {
    clone := s.Clone();
    fork := s.Fork();
    for i := 0 to |writes|
      invariant s.inner.m == AttemptAll(old(s.inner.m), WritesTo(writes[..i], false))
      invariant fork.inner.m == AttemptAll(old(s.inner.m), WritesTo(writes[..i], true))
    {
      var w := writes[i];
      WritesToNext(old(s.inner.m), writes, i, true);
      WritesToNext(old(s.inner.m), writes, i, false);
      var handle := match w.through case Original => s case Cloned => clone case Forked => fork;
      var _ := handle.Set(w.nodeId, w.output, w.overwrite);
    }
    assert writes[..|writes|] == writes;
  }

  lemma WritesToNext(m: StateMap, writes: seq<HandleWrite>, i: nat, fork: bool)
    requires i < |writes|
    ensures AttemptAll(m, WritesTo(writes[..i + 1], fork))
         == if writes[i].through.Forked? == fork then Attempt(AttemptAll(m, WritesTo(writes[..i], fork)), writes[i])
            else AttemptAll(m, WritesTo(writes[..i], fork))
  {
    assert writes[..i + 1][..i] == writes[..i];
    var earlier := WritesTo(writes[..i], fork);
    assert (earlier + [writes[i]])[..|earlier|] == earlier;
  }

  /** A fork never sees what is written through the original or a clone: leaving those writes out changes nothing for
      it, and as long as nothing is written through it, it shows the map it was made from. */
  lemma {:induction false} ForksAreIsolated(m: StateMap, writes: seq<HandleWrite>)
    requires forall i :: 0 <= i < |writes| ==> !writes[i].through.Forked?
    ensures WritesTo(writes, true) == [] && AttemptAll(m, WritesTo(writes, true)) == m
    ensures WritesTo(writes, false) == writes
  {
    if writes != [] {
      ForksAreIsolated(m, writes[..|writes| - 1]);
    }
  }
}
