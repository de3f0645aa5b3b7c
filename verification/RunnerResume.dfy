/** Pausing and resuming runs (engine/src/core/runner/graph_runner.rs). */
module RunnerResume {
  import opened Basics
  import opened Json
  import opened Graph
  import opened State
  import opened Runner
  import opened RunnerPrefix
  import opened RunnerAcyclic
  import opened RunnerCoverage
  import opened RunnerLiveness

  // ---------------------------------------------------------------------------
  // Pausing and resuming
  // ---------------------------------------------------------------------------

  /** The same environment, except that a pause is requested before pass `at`. */
  function PauseBefore(turns: nat -> Turn, at: nat): nat -> Turn {
    (k: nat) => if k == at then turns(k).(pause := true) else turns(k)
  }

  /** What a run and its paused and resumed counterpart have to do with each other. */
  ghost predicate ResumeCompletes(w: Workflow, p: Policy, turns: nat -> Turn, at: nat, whole: RunResult, paused: RunResult) {
    paused == whole
    || (paused.Finished? && paused.status.Paused?
        && whole == Prefixed(paused.trace, Run(w, p, Begin(w, paused.status.nodeId, paused.state), turns, at)))
  }

  /** Pausing is transparent: a run paused before any pass, then resumed from the node and state it was
      interrupted at, ends exactly as the uninterrupted run does, and the two traces together are its trace. */
  lemma {:induction false} PausingIsTransparent(w: Workflow, p: Policy, c: Config, turns: nat -> Turn, k: nat, at: nat)
    requires OnNode(w, c) && Run(w, p, c, turns, k).Finished?
    ensures ResumeCompletes(w, p, turns, at, Run(w, p, c, turns, k), Run(w, p, c, PauseBefore(turns, at), k))
    decreases Budget(w.nodes, c.visits, p.maxIterations)
  {
    if c.cursor.Some? {
      if k == at {
        var resumed := Begin(w, c.cursor.value, c.state);
        assert c.trace == c.trace + [];
        RunFromSamePoint(w, p, c, resumed, c.trace, turns, k);
      } else if Pass(w, p, c, turns(k)).Next? {
        var n := RunStep(w, p, c, turns, k);
        var _ := RunStep(w, p, c, PauseBefore(turns, at), k);
        PausingIsTransparent(w, p, n, turns, k + 1, at);
      }
    }
  }

  /** The same environment, except that the hook before a node aborts pass `at`. */
  function AbortAt(turns: nat -> Turn, at: nat): nat -> Turn {
    (k: nat) => if k == at then turns(k).(pre := Abort("")) else turns(k)
  }

  /** A run that hits the visit limit hits it whatever the hook would have done then; paused just before, and resumed
      with the hook aborting, it finishes. */
  lemma {:induction false} LimitShows(w: Workflow, p: Policy, c: Config, turns: nat -> Turn, k: nat) returns (at: nat)
    requires OnNode(w, c) && p.maxIterations >= 1 && Run(w, p, c, turns, k).MaxIterationsExceeded?
    ensures k <= at && Run(w, p, c, AbortAt(turns, at), k).MaxIterationsExceeded?
    ensures var paused := Run(w, p, c, PauseBefore(AbortAt(turns, at), at), k);
      && paused.Finished? && paused.status.Paused?
      && Run(w, p, Begin(w, paused.status.nodeId, paused.state), AbortAt(turns, at), at).Finished?
    decreases Budget(w.nodes, c.visits, p.maxIterations)
  {
    if Pass(w, p, c, turns(k)).Next? {
      var n := RunStep(w, p, c, turns, k);
      at := LimitShows(w, p, n, turns, k + 1);
      assert AbortAt(turns, at)(k) == turns(k) && PauseBefore(AbortAt(turns, at), at)(k) == turns(k);
      var _ := RunStep(w, p, c, AbortAt(turns, at), k);
      var _ := RunStep(w, p, c, PauseBefore(AbortAt(turns, at), at), k);
    } else {
      at := k;
      LimitShowsHere(w, p, c, turns, k);
    }
  }

  lemma LimitShowsHere(w: Workflow, p: Policy, c: Config, turns: nat -> Turn, k: nat)
    requires OnNode(w, c) && p.maxIterations >= 1 && c.cursor.Some?
    requires Pass(w, p, c, turns(k)).Halt? && Pass(w, p, c, turns(k)).r.MaxIterationsExceeded?
    ensures Run(w, p, c, AbortAt(turns, k), k).MaxIterationsExceeded?
    ensures Run(w, p, c, PauseBefore(AbortAt(turns, k), k), k) == Finished(Paused(c.cursor.value), c.state, c.trace)
    ensures Run(w, p, Begin(w, c.cursor.value, c.state), AbortAt(turns, k), k).Finished?
  {
    var id := c.cursor.value;
    assert AbortAt(turns, k)(k) == turns(k).(pre := Abort(""));
    AbortFinishes(w, p, Begin(w, id, c.state), AbortAt(turns, k)(k));
  }

  lemma AbortFinishes(w: Workflow, p: Policy, c: Config, t: Turn)
    requires OnNode(w, c) && c.cursor.Some? && c.visits == map[] && p.maxIterations >= 1 && t.pre.Abort?
    ensures Pass(w, p, c, t).Halt? && Pass(w, p, c, t).r.Finished?
  {}

  /** In no environment without retries does pausing, at whatever pass, change how the run ends. */
  ghost predicate AlwaysTransparent(w: Workflow, p: Policy, c: Config)
    requires OnNode(w, c)
  {
    forall turns: nat -> Turn, at: nat :: NoRetries(turns) ==>
      ResumeCompletes(w, p, turns, at, Run(w, p, c, turns, 0), Run(w, p, c, PauseBefore(turns, at), 0))
  }

  ghost predicate NeverHitsLimit(w: Workflow, p: Policy, c: Config)
    requires OnNode(w, c)
  {
    forall turns: nat -> Turn :: NoRetries(turns) ==> Run(w, p, c, turns, 0).Finished?
  }

  /** Pausing is transparent in every environment without retries exactly if no such environment makes the run hit the
      visit limit. */
  lemma TransparentIff(w: Workflow, p: Policy, c: Config)
    requires OnNode(w, c) && p.maxIterations >= 1
    ensures AlwaysTransparent(w, p, c) <==> NeverHitsLimit(w, p, c)
  {
    if NeverHitsLimit(w, p, c) {
      forall turns: nat -> Turn, at: nat | NoRetries(turns)
        ensures ResumeCompletes(w, p, turns, at, Run(w, p, c, turns, 0), Run(w, p, c, PauseBefore(turns, at), 0))
      {
        PausingIsTransparent(w, p, c, turns, 0, at);
      }
    }
    forall turns: nat -> Turn | NoRetries(turns) && Run(w, p, c, turns, 0).MaxIterationsExceeded?
      ensures !AlwaysTransparent(w, p, c)
    {
      var at := LimitShows(w, p, c, turns, 0);
      AbortingIsNoRetry(turns, at);
      var turns' := AbortAt(turns, at);
      assert !ResumeCompletes(w, p, turns', at, Run(w, p, c, turns', 0), Run(w, p, c, PauseBefore(turns', at), 0));
    }
  }

  lemma AbortingIsNoRetry(turns: nat -> Turn, at: nat)
    requires NoRetries(turns)
    ensures NoRetries(AbortAt(turns, at))
  {
    forall i
      ensures !AbortAt(turns, at)(i).retryOnError
    {
      assert !turns(i).retryOnError;
    }
  }

  lemma HumanIsAskedHere(w: Workflow, p: Policy, c: Config, t: Turn)
    requires OnNode(w, c) && c.cursor.Some?
    ensures match Pass(w, p, c, t)
      case Halt(Finished(AwaitsHuman(id), _, _)) =>
        id in NodeIds(w.nodes) && NodeById(w.nodes, id).toolType == HUMAN_INPUT_TOOL && p.maxIterations >= 1
      case _ => true
  {}

  /** On an acyclic workflow pausing is transparent for every run whose error hook asks for no retries. */
  lemma AcyclicPausingIsTransparent(w: Workflow, p: Policy, rank: string -> nat, entry: string, initial: StateMap,
                                    turns: nat -> Turn, at: nat)
    requires Ranked(w.edges, rank) && p.maxIterations >= 1 && NoRetries(turns)
    ensures var whole := Run(w, p, Begin(w, entry, initial), turns, 0);
      && whole.Finished?
      && ResumeCompletes(w, p, turns, at, whole, Run(w, p, Begin(w, entry, initial), PauseBefore(turns, at), 0))
  {
    AcyclicWorkflowsTraceOnce(w, p, rank, entry, initial, turns);
    PausingIsTransparent(w, p, Begin(w, entry, initial), turns, 0, at);
  }

  /** A run that stops for a human stops at a node of the human-input kind. */
  lemma {:induction false} HumansAreAskedAtTheirNodes(w: Workflow, p: Policy, c: Config, turns: nat -> Turn, k: nat, id: string)
    requires OnNode(w, c)
    requires Run(w, p, c, turns, k).Finished? && Run(w, p, c, turns, k).status == AwaitsHuman(id)
    ensures id in NodeIds(w.nodes) && NodeById(w.nodes, id).toolType == HUMAN_INPUT_TOOL && p.maxIterations >= 1
    decreases Budget(w.nodes, c.visits, p.maxIterations)
  {
    if Pass(w, p, c, turns(k)).Next? {
      var n := RunStep(w, p, c, turns, k);
      HumansAreAskedAtTheirNodes(w, p, n, turns, k + 1, id);
    } else {
      HumanIsAskedHere(w, p, c, turns(k));
    }
  }

  /** Resuming such a run at the node it stopped at never gets past it: in every environment the resumed run stops
      there again at once, with the state and an empty trace. */
  lemma HumanInputStopsEveryResume(w: Workflow, p: Policy, c: Config, turns: nat -> Turn, k: nat, id: string,
                                   later: nat -> Turn, j: nat)
    requires OnNode(w, c)
    requires Run(w, p, c, turns, k).Finished? && Run(w, p, c, turns, k).status == AwaitsHuman(id)
    ensures var stopped := Run(w, p, c, turns, k);
      Run(w, p, Begin(w, id, stopped.state), later, j)
        == Finished(if later(j).pause then Paused(id) else AwaitsHuman(id), stopped.state, [])
  {
    HumansAreAskedAtTheirNodes(w, p, c, turns, k, id);
  }

  /** After every node that succeeds a checkpoint is saved from which the rest of the run can be replayed. */
  lemma CheckpointsResume(w: Workflow, p: Policy, c: Config, turns: nat -> Turn, k: nat)
    requires OnNode(w, c) && c.cursor.Some? && Run(w, p, c, turns, k).Finished?
    requires Pass(w, p, c, turns(k)).Next? && Pass(w, p, c, turns(k)).c.saved != c.saved
    ensures var n := Pass(w, p, c, turns(k)).c;
      && n.saved.Some?
      && (n.saved.value.cursor.Some? ==>
            Run(w, p, c, turns, k)
              == Prefixed(n.trace, Run(w, p, Begin(w, n.saved.value.cursor.value, n.saved.value.snapshot), turns, k + 1)))
  {
    var n := Pass(w, p, c, turns(k)).c;
    BudgetDrops(w.nodes, c.visits, p.maxIterations, c.cursor.value);
    if n.saved.value.cursor.Some? {
      assert n.trace == n.trace + [];
      RunFromSamePoint(w, p, n, Begin(w, n.saved.value.cursor.value, n.saved.value.snapshot), n.trace, turns, k + 1);
    }
  }

  // ---------------------------------------------------------------------------
  // A run that only the pause saves
  // ---------------------------------------------------------------------------

  /** "s" leads to "a", which is repeated as long as its output says so. */
  function Repeating(): Workflow {
    Workflow([Node("s"), Node("a")],
             [Edge("e", "s", "a"), EdgeDef("f", "a", "a", Some(EdgeCondition("again", Eq, Bool(true))), None)])
  }

  const AGAIN: Output := map["again" := Bool(true)]

  /** Nothing gets in the way, and the node executed in pass 1 asks to be repeated. */
  function RepeatOnce(): nat -> Turn {
    k => Turn(false, Proceed, Done(if k == 1 then AGAIN else map[], 0), false, None, i => Done(map[], 0), "")
  }

  function OneVisit(): Policy {
    Policy(1, n => Stop)
  }

  lemma RepeatingIsSound()
    ensures WellFormed(Repeating().nodes, Repeating().edges)
    ensures EntryNodes(Repeating().nodes, Repeating().edges) == [Node("s")]
  {
    var nodes, edges := Repeating().nodes, Repeating().edges;
    assert nodes[0].id in NodeIds(nodes) && nodes[1].id in NodeIds(nodes);
    assert edges[0].target == "a" && HasIncoming(edges, "a") && !HasIncoming(edges, "s");
    assert nodes[1..] == [Node("a")] && nodes[1..][1..] == [];
  }

  lemma RepeatingNext()
    ensures NextNodes(Repeating().edges, "s", map[]) == ["a"]
    ensures NextNodes(Repeating().edges, "a", AGAIN) == ["a"]
    ensures NextNodes(Repeating().edges, "a", map[]) == []
  {
    var e, f := Repeating().edges[0], Repeating().edges[1];
    OutgoingOfTwo(e, f, "s");
    OutgoingOfTwo(e, f, "a");
    assert [e][1..] == [] && [f][1..] == [];
  }

  /** One undisturbed pass that does not fan out. */
  lemma SinglePass(w: Workflow, p: Policy, c: Config, t: Turn)
    requires OnNode(w, c) && c.cursor.Some? && Smooth(t) && t.hookedOutput == None
    requires NodeById(w.nodes, c.cursor.value).toolType != HUMAN_INPUT_TOOL
    requires VisitsOf(c.visits, c.cursor.value) < p.maxIterations
    requires |NextNodes(w.edges, c.cursor.value, t.execution.output)| <= 1
    ensures Pass(w, p, c, t).Next?
    ensures Pass(w, p, c, t).c.cursor == Resolve(w.nodes, First(NextNodes(w.edges, c.cursor.value, t.execution.output)))
  {}

  /** The run up to the second visit of "a". */
  lemma RepeatingRun(turns: nat -> Turn, initial: StateMap) returns (c: Config)
    requires turns(0) == RepeatOnce()(0) && turns(1) == RepeatOnce()(1)
    ensures OnNode(Repeating(), c) && c.cursor == Some("a") && VisitsOf(c.visits, "a") == 1
    ensures Run(Repeating(), OneVisit(), Begin(Repeating(), "s", initial), turns, 0) == Run(Repeating(), OneVisit(), c, turns, 2)
  {
    var w, p := Repeating(), OneVisit();
    RepeatingNext();
    assert w.nodes[0].id in NodeIds(w.nodes) && w.nodes[1].id in NodeIds(w.nodes);
    var start := Begin(w, "s", initial);
    SinglePass(w, p, start, turns(0));
    var middle := RunStep(w, p, start, turns, 0);
    SinglePass(w, p, middle, turns(1));
    c := RunStep(w, p, middle, turns, 1);
  }

  lemma RepeatingRest(state: StateMap)
    ensures var r := Run(Repeating(), OneVisit(), Begin(Repeating(), "a", state), RepeatOnce(), 2);
      r.Finished? && r.status == Completed
  {
    var w, p := Repeating(), OneVisit();
    RepeatingNext();
    assert w.nodes[1].id in NodeIds(w.nodes);
    SinglePass(w, p, Begin(w, "a", state), RepeatOnce()(2));
    var done := RunStep(w, p, Begin(w, "a", state), RepeatOnce(), 2);
  }

  /** A valid workflow whose run hits the visit limit, while the same run, paused before that and resumed in the same
      environment, completes: the pause resets the visit counts. */
  lemma PausingCanSaveARun(initial: StateMap)
    ensures WellFormed(Repeating().nodes, Repeating().edges)
    ensures EntryNodes(Repeating().nodes, Repeating().edges) == [Node("s")]
    ensures var (w, p, turns) := (Repeating(), OneVisit(), RepeatOnce());
      && NoRetries(turns)
      && Run(w, p, Begin(w, "s", initial), turns, 0) == MaxIterationsExceeded("a", 2)
      && var paused := Run(w, p, Begin(w, "s", initial), PauseBefore(turns, 2), 0);
      && paused.Finished? && paused.status == Paused("a")
      && var resumed := Run(w, p, Begin(w, "a", paused.state), turns, 2);
      && resumed.Finished? && resumed.status == Completed
  {
    RepeatingIsSound();
    var w, p, turns := Repeating(), OneVisit(), RepeatOnce();
    var c := RepeatingRun(turns, initial);
    assert Run(w, p, c, turns, 2) == MaxIterationsExceeded("a", 2);
    var c' := RepeatingRun(PauseBefore(turns, 2), initial);
    assert Run(w, p, c', PauseBefore(turns, 2), 2) == Finished(Paused("a"), c'.state, c'.trace);
    RepeatingRest(c'.state);
  }
}
