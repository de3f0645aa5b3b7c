/** Round-robin routing (engine/src/universe.rs). */
module Universe {
  import opened Basics

  datatype Agent = Agent(name: string, id: string)

  datatype Decision = Decision(agentName: string, agentId: string, strategy: string)

  class AgentUniverse {
    var agents: seq<Agent>
    var roundRobinIdx: nat

    ghost predicate Valid()
      reads this
    {
      roundRobinIdx < WRAP
    }

    constructor ()
      ensures Valid() && agents == [] && roundRobinIdx == 0
    {
      agents, roundRobinIdx := [], 0;
    }

    method AddAgent(agent: Agent)
      requires Valid()
      modifies this`agents
      ensures Valid() && agents == old(agents) + [agent]
    {
      agents := agents + [agent];
    }

    /** `default_routing`. */
    function DefaultRouting(): Decision
      reads this
    {
      if agents != [] then Decision(agents[0].name, agents[0].id, "default") else Decision("none", "none", "none")
    }

    /** `route_round_robin`: fetch, then add with wrap-around. */
    method RouteRoundRobin() returns (d: Decision)
      requires Valid()
      modifies this`roundRobinIdx
      ensures Valid()
      ensures agents == [] ==> d == DefaultRouting() && roundRobinIdx == old(roundRobinIdx)
      ensures agents != [] ==>
        var agent := agents[Residue(old(roundRobinIdx), |agents|)];
        d == Decision(agent.name, agent.id, "round_robin") && roundRobinIdx == After(old(roundRobinIdx))
    {
      if agents == [] {
        return DefaultRouting();
      }
      var fetched := roundRobinIdx;
      roundRobinIdx := (roundRobinIdx + 1) % WRAP;
      DividesAsUsual(fetched, |agents|);
      var agent := agents[fetched % |agents|];
      return Decision(agent.name, agent.id, "round_robin");
    }
  }

  function After(idx: nat): (next: nat)
    ensures next < WRAP
  {
    (idx + 1) % WRAP
  }

  // ---------------------------------------------------------------------------
  // Quotient and residue by repeated subtraction
  // ---------------------------------------------------------------------------

  function Residue(x: nat, n: nat): (r: nat)
    requires n > 0
    ensures r < n
  {
    if x < n then x else Residue(x - n, n)
  }

  function Quotient(x: nat, n: nat): nat
    requires n > 0
  {
    if x < n then 0 else 1 + Quotient(x - n, n)
  }

  lemma {:induction false} DividesAsUsual(x: nat, n: nat)
    requires n > 0
    ensures Quotient(x, n) == x / n && Residue(x, n) == x % n
  {
    DivisionIdentity(x, n);
    UniqueDivision(n, Quotient(x, n), Residue(x, n), x / n, x % n);
  }

  lemma {:induction false} DivisionIdentity(x: nat, n: nat)
    requires n > 0
    ensures x == n * Quotient(x, n) + Residue(x, n)
  {
    if x >= n {
      DivisionIdentity(x - n, n);
      assert n * (Quotient(x - n, n) + 1) == n * Quotient(x - n, n) + n;
    }
  }

  lemma {:induction false} UniqueDivision(n: nat, q1: nat, r1: nat, q2: nat, r2: nat)
    requires n * q1 + r1 == n * q2 + r2 && r1 < n && r2 < n
    ensures q1 == q2 && r1 == r2
  {
    if q1 > 0 && q2 > 0 {
      assert n * (q1 - 1) == n * q1 - n && n * (q2 - 1) == n * q2 - n;
      UniqueDivision(n, q1 - 1, r1, q2 - 1, r2);
    }
  }

  lemma {:induction false} ResidueOfNext(n: nat, x: nat)
    requires n > 0
    ensures Residue(x + 1, n) == if Residue(x, n) + 1 == n then 0 else Residue(x, n) + 1
    ensures Quotient(x + 1, n) == Quotient(x, n) + if Residue(x, n) + 1 == n then 1 else 0
  {
    if x >= n {
      ResidueOfNext(n, x - n);
    }
  }

  lemma {:induction false} QuotientOfSum(y: nat, m: nat, n: nat)
    requires n > 0
    ensures Quotient(y + m, n) in {Quotient(y, n) + Quotient(m, n), Quotient(y, n) + Quotient(m, n) + 1}
    decreases y + m
  {
    if y >= n {
      QuotientOfSum(y - n, m, n);
    } else if m >= n {
      QuotientOfSum(y, m - n, n);
    }
  }

  // ---------------------------------------------------------------------------
  // Fairness
  // ---------------------------------------------------------------------------

  /** The agents chosen by `m` consecutive routes among `n` agents, from index `start` on. */
  function Picks(n: nat, start: nat, m: nat): seq<nat>
    requires n > 0
    decreases m
  {
    if m == 0 then [] else [Residue(start, n)] + Picks(n, After(start), m - 1)
  }

  /** How often agent `a` is among `picks`. */
  function Count(picks: seq<nat>, a: nat): nat {
    if picks == [] then 0 else (if picks[0] == a then 1 else 0) + Count(picks[1..], a)
  }

  /** How many indices below `x` choose agent `a`. */
  function Below(n: nat, a: nat, x: nat): nat
    requires a < n
  {
    Quotient(x + n - 1 - a, n)
  }

  lemma {:induction false} ShiftedResidue(n: nat, a: nat, x: nat)
    requires a < n
    ensures Residue(x + n - 1 - a, n) + 1 == n <==> Residue(x, n) == a
  {
    if x >= n {
      ShiftedResidue(n, a, x - n);
    }
  }

  lemma BelowNext(n: nat, a: nat, x: nat)
    requires a < n
    ensures Below(n, a, x + 1) == Below(n, a, x) + if Residue(x, n) == a then 1 else 0
  {
    ShiftedResidue(n, a, x);
    ResidueOfNext(n, x + n - 1 - a);
  }

  lemma CountStep(n: nat, start: nat, m: nat, a: nat)
    requires n > 0 && m > 0
    ensures Count(Picks(n, start, m), a)
         == (if Residue(start, n) == a then 1 else 0) + Count(Picks(n, After(start), m - 1), a)
  {
    assert Picks(n, start, m)[1..] == Picks(n, After(start), m - 1);
  }

  lemma {:induction false} CountIsDifference(n: nat, start: nat, m: nat, a: nat)
    requires a < n && start + m <= WRAP
    ensures Count(Picks(n, start, m), a) + Below(n, a, start) == Below(n, a, start + m)
    decreases m
  {
    if m > 0 {
      BelowNext(n, a, start);
      CountStep(n, start, m, a);
      if m > 1 {
        assert After(start) == start + 1;
        CountIsDifference(n, start + 1, m - 1, a);
      } else {
        assert Picks(n, After(start), 0) == [];
      }
    }
  }

  /** Fairness: in any window of `m` routes before the index wraps, each agent is chosen floor(m/n) times or once more. */
  lemma RoundRobinIsFair(n: nat, start: nat, m: nat, a: nat)
    requires a < n && start + m <= WRAP
    ensures Count(Picks(n, start, m), a) in {m / n, m / n + 1}
  {
    CountIsDifference(n, start, m, a);
    QuotientOfSum(start + n - 1 - a, m, n);
    DividesAsUsual(m, n);
  }

  /** Every `n` consecutive routes choose every agent exactly once, from this index on. */
  ghost predicate CycleIsComplete(n: nat, start: nat)
    requires n > 0
  {
    forall a :: 0 <= a < n ==> Count(Picks(n, start, n), a) == 1
  }

  lemma CycleBeforeWrap(n: nat, start: nat)
    requires 0 < n && start + n <= WRAP
    ensures CycleIsComplete(n, start)
  {
    forall a | 0 <= a < n
      ensures Count(Picks(n, start, n), a) == 1
    {
      CountIsDifference(n, start, n, a);
    }
  }

  lemma SameNextResidue(n: nat, start: nat, other: nat)
    requires n > 0 && Residue(WRAP, n) == 0 && start < WRAP && other < WRAP
    requires Residue(start, n) == Residue(other, n)
    ensures Residue(After(start), n) == Residue(After(other), n)
  {
    ResidueOfAfter(n, start);
    ResidueOfAfter(n, other);
    ResidueOfNext(n, start);
    ResidueOfNext(n, other);
  }

  lemma ResidueOfAfter(n: nat, x: nat)
    requires n > 0 && Residue(WRAP, n) == 0 && x < WRAP
    ensures Residue(After(x), n) == Residue(x + 1, n)
  {
    if x + 1 < WRAP {
      assert After(x) == x + 1;
    } else {
      assert After(x) == 0;
    }
  }

  /** When `n` divides the number of index values, wrapping does not disturb the rotation. */
  lemma {:induction false} PicksIgnoreWrap(n: nat, start: nat, other: nat, m: nat)
    requires n > 0 && Residue(WRAP, n) == 0 && start < WRAP
    requires Residue(start, n) == Residue(other, n) && other + m <= WRAP
    ensures Picks(n, start, m) == Picks(n, other, m)
    decreases m
  {
    if m > 0 {
      SameNextResidue(n, start, other);
      if m > 1 {
        PicksIgnoreWrap(n, After(start), After(other), m - 1);
      }
    }
  }

  lemma {:induction false} LowPicksMissLast(n: nat, start: nat, m: nat)
    requires n > 0 && start + m <= n - 1 && n <= WRAP
    ensures Count(Picks(n, start, m), n - 1) == 0
    decreases m
  {
    if m > 0 {
      CountStep(n, start, m, n - 1);
      assert After(start) == start + 1;
      LowPicksMissLast(n, start + 1, m - 1);
    }
  }

  /** The rotation survives the wrap of the index exactly when the number of agents, which is always less
      than the number of index values, divides 2^64. */
  lemma RotationSurvivesWrapIff(n: nat)
    requires 0 < n < WRAP
    ensures (forall start :: 0 <= start < WRAP ==> CycleIsComplete(n, start)) <==> WRAP % n == 0
  {
    DividesAsUsual(WRAP, n);
    if Residue(WRAP, n) == 0 {
      forall start | 0 <= start < WRAP
        ensures CycleIsComplete(n, start)
      {
        assert WRAP >= 2 * n;
        var other := Residue(start, n);
        PicksIgnoreWrap(n, start, other, n);
        CycleBeforeWrap(n, other);
      }
    } else {
      var last := WRAP - 1;
      ResidueOfNext(n, last);
      CountStep(n, last, n, n - 1);
      LowPicksMissLast(n, 0, n - 1);
      assert !CycleIsComplete(n, last);
    }
  }
}
