/**
 * The work pipeline of WRR.java's `main`: three agents are registered with
 * weights 50, 100 and 200, 950 tasks are dispatched to them by the smooth
 * weighted round-robin selector while a ledger counts the tasks per agent,
 * the workers' results are collected in submission order, sorted by task id
 * and formatted as report lines.
 *
 * The thread pool is sequential here: every worker's result is collected in
 * the order the workers were submitted. The workers' random sleeps and the
 * writing of the report file and the console are not modelled.
 */
module Pipeline {
  import opened Wrappers
  import opened JavaText
  import opened RoundRobin

  // ------------------------------------------------ the three agents

  const Agent1 := "Agent#1(cap=50)"
  const Agent2 := "Agent#2(cap=100)"
  const Agent3 := "Agent#3(cap=200)"

  /** The agents in registration order, and their weights. */
  const Agents: seq<string> := [Agent1, Agent2, Agent3]
  const AgentWeights: seq<int> := [50, 100, 200]

  /** The sum of the agents' weights. */
  const TotalAgentWeight := 350

  /** The number of tasks `main` dispatches. */
  const TotalWorks := 950

  lemma AgentsDistinct()
    ensures Agent1 != Agent2 && Agent1 != Agent3 && Agent2 != Agent3
  {
    assert |Agent1| == 15 && |Agent2| == 16;
    assert Agent2[6] == '2' && Agent3[6] == '3';
  }

  // ------------------------------------------------ the period of seven calls

  /**
   * With weights 50, 100 and 200 the selector runs through seven states of
   * current weights and comes back to all zeros.
   */
  const CycleStates: seq<seq<int>> :=
    [ [0, 0, 0], [50, 100, -150], [100, -150, 50], [150, -50, -100],
      [-150, 50, 100], [-100, 150, -50], [-50, -100, 150] ]

  /** The position returned by each call of the period: Agent#3, #2, #3, #1, #3, #2, #3. */
  const CycleChoices: seq<nat> := [2, 1, 2, 0, 2, 1, 2]

  lemma CycleStep0()
    ensures NextStep(AgentWeights, CycleStates[0], TotalAgentWeight) == Step(CycleStates[1], Some(CycleChoices[0]))
  {
    assert Raised(AgentWeights, CycleStates[0]) == [50, 100, 200];
  }

  lemma CycleStep1()
    ensures NextStep(AgentWeights, CycleStates[1], TotalAgentWeight) == Step(CycleStates[2], Some(CycleChoices[1]))
  {
    assert Raised(AgentWeights, CycleStates[1]) == [100, 200, 50];
  }

  lemma CycleStep2()
    ensures NextStep(AgentWeights, CycleStates[2], TotalAgentWeight) == Step(CycleStates[3], Some(CycleChoices[2]))
  {
    assert Raised(AgentWeights, CycleStates[2]) == [150, -50, 250];
  }

  lemma CycleStep3()
    ensures NextStep(AgentWeights, CycleStates[3], TotalAgentWeight) == Step(CycleStates[4], Some(CycleChoices[3]))
  {
    assert Raised(AgentWeights, CycleStates[3]) == [200, 50, 100];
  }

  lemma CycleStep4()
    ensures NextStep(AgentWeights, CycleStates[4], TotalAgentWeight) == Step(CycleStates[5], Some(CycleChoices[4]))
  {
    assert Raised(AgentWeights, CycleStates[4]) == [-100, 150, 300];
  }

  lemma CycleStep5()
    ensures NextStep(AgentWeights, CycleStates[5], TotalAgentWeight) == Step(CycleStates[6], Some(CycleChoices[5]))
  {
    assert Raised(AgentWeights, CycleStates[5]) == [-50, 250, 150];
  }

  lemma CycleStep6()
    ensures NextStep(AgentWeights, CycleStates[6], TotalAgentWeight) == Step(CycleStates[0], Some(CycleChoices[6]))
  {
    assert Raised(AgentWeights, CycleStates[6]) == [0, 0, 350];
  }

  /** Phase counts calls modulo the period. */
  lemma {:induction false} PhaseIsMod(calls: nat)
    ensures Phase(calls, 7) == calls % 7
  {
    if calls > 0 {
      PhaseIsMod(calls - 1);
    }
  }

  /** The seven states and choices form one closed cycle of the balancer. */
  lemma CycleCloses()
    ensures forall k :: 0 <= k < 7 ==>
              NextStep(AgentWeights, CycleStates[k], TotalAgentWeight) ==
              Step(CycleStates[if k + 1 == 7 then 0 else k + 1], Some(CycleChoices[k]))
  {
    CycleStep0(); CycleStep1(); CycleStep2(); CycleStep3(); CycleStep4(); CycleStep5(); CycleStep6();
    forall k | 0 <= k < 7
      ensures NextStep(AgentWeights, CycleStates[k], TotalAgentWeight) ==
              Step(CycleStates[if k + 1 == 7 then 0 else k + 1], Some(CycleChoices[k]))
    {
    }
  }

  /** Every call index up to `calls` stands at its remainder modulo 7 in the cycle. */
  lemma PhasesAreMod(calls: nat)
    ensures Phase(calls, 7) == calls % 7
    ensures forall j :: 0 <= j < calls ==> Phase(j, 7) == j % 7
  {
    PhaseIsMod(calls);
    forall j | 0 <= j < calls
      ensures Phase(j, 7) == j % 7
    {
      PhaseIsMod(j);
    }
  }

  /**
   * From a fresh selector holding the three agents, call j returns the
   * agent at position j mod 7 of the period, and after `calls` calls the
   * current weights are the state at position calls mod 7.
   */
  lemma AgentSchedule(calls: nat)
    ensures Schedule(Agents, AgentWeights, [0, 0, 0], TotalAgentWeight, calls).0 == CycleStates[calls % 7]
    ensures forall j :: 0 <= j < calls ==>
              Schedule(Agents, AgentWeights, [0, 0, 0], TotalAgentWeight, calls).1[j] == Agents[CycleChoices[j % 7]]
  {
    CycleCloses();
    PeriodicSchedule(Agents, AgentWeights, TotalAgentWeight, CycleStates, CycleChoices, calls);
    PhasesAreMod(calls);
  }

  // ------------------------------------------------ the ledger of assigned counts

  /** How often a occurs in xs. */
  function Count(xs: seq<string>, a: string): (n: nat)
    ensures n <= |xs|
  {
    if xs == [] then 0 else Count(xs[..|xs| - 1], a) + (if xs[|xs| - 1] == a then 1 else 0)
  }

  /** `assignedCounts`, a LinkedHashMap: its keys in insertion order, and the count of each key. */
  datatype Ledger = Ledger(order: seq<string>, counts: map<string, int>)

  /** Every key is listed once in `order`, exactly the keys of `counts` are listed, and each count is positive. */
  ghost predicate LedgerWellFormed(ledger: Ledger)
  {
    && (forall i, j :: 0 <= i < j < |ledger.order| ==> ledger.order[i] != ledger.order[j])
    && (forall a :: a in ledger.counts <==> a in ledger.order)
    && (forall a :: a in ledger.counts ==> ledger.counts[a] >= 1)
  }

  /** `merge` with a count of 1 on the insertion-ordered map: a new key is appended with 1, a present one is raised by 1. */
  function Merge(ledger: Ledger, agent: string): Ledger
  {
    if agent in ledger.counts then Ledger(ledger.order, ledger.counts[agent := ledger.counts[agent] + 1])
    else Ledger(ledger.order + [agent], ledger.counts[agent := 1])
  }

  /**
   * Merging an agent not yet in the map inserts it at the end with count 1;
   * merging one already there raises its count by 1 and keeps its place; no
   * other entry changes, and a well-formed ledger stays well formed.
   */
  lemma MergeEffect(ledger: Ledger, agent: string)
    ensures var r := Merge(ledger, agent);
            && agent in r.counts && r.counts[agent] == (if agent in ledger.counts then ledger.counts[agent] else 0) + 1
            && (forall a :: a != agent ==> (a in r.counts <==> a in ledger.counts))
            && (forall a :: a != agent && a in ledger.counts ==> r.counts[a] == ledger.counts[a])
            && r.order == (if agent in ledger.counts then ledger.order else ledger.order + [agent])
            && (LedgerWellFormed(ledger) ==> LedgerWellFormed(r))
  {
  }

  /** The ledger after merging every agent of xs, in order, into an empty map. */
  function LedgerOf(xs: seq<string>): Ledger
  {
    if xs == [] then Ledger([], map[]) else Merge(LedgerOf(xs[..|xs| - 1]), xs[|xs| - 1])
  }

  /** The ledger built by `main` lists every key once, exactly its keys, each with a positive count. */
  lemma {:induction false} LedgerWellFormedAll(xs: seq<string>)
    ensures LedgerWellFormed(LedgerOf(xs))
  {
    if xs != [] {
      LedgerWellFormedAll(xs[..|xs| - 1]);
      MergeEffect(LedgerOf(xs[..|xs| - 1]), xs[|xs| - 1]);
    }
  }

  /** An agent is counted in xs exactly when xs holds it. */
  lemma {:induction false} CountMembers(xs: seq<string>, a: string)
    ensures Count(xs, a) > 0 <==> a in xs
  {
    if xs != [] {
      CountMembers(xs[..|xs| - 1], a);
      assert xs == xs[..|xs| - 1] + [xs[|xs| - 1]];
    }
  }

  /** The ledger's keys are exactly the agents of xs. */
  lemma {:induction false} LedgerKeys(xs: seq<string>)
    ensures forall a :: a in LedgerOf(xs).counts <==> a in xs
  {
    if xs != [] {
      LedgerKeys(xs[..|xs| - 1]);
      assert xs == xs[..|xs| - 1] + [xs[|xs| - 1]];
    }
  }

  /** The ledger's count for an agent is the number of times xs holds it. */
  lemma {:induction false} LedgerCounts(xs: seq<string>)
    ensures forall a :: a in LedgerOf(xs).counts ==> LedgerOf(xs).counts[a] == Count(xs, a)
  {
    if xs != [] {
      var init := xs[..|xs| - 1];
      var agent := xs[|xs| - 1];
      var before := LedgerOf(init);
      var after := LedgerOf(xs);
      LedgerCounts(init);
      forall a | a in after.counts
        ensures after.counts[a] == Count(xs, a)
      {
        if a == agent && agent !in before.counts {
          LedgerKeys(init);
          CountMembers(init, a);
        }
      }
    }
  }

  /** The counts of the keys in `order`, added up. */
  function SumCounts(order: seq<string>, counts: map<string, int>): int
    requires forall a :: a in order ==> a in counts
  {
    if order == [] then 0 else SumCounts(order[..|order| - 1], counts) + counts[order[|order| - 1]]
  }

  /** Counts of keys not listed do not enter the sum. */
  lemma {:induction false} SumCountsFrame(order: seq<string>, counts: map<string, int>, other: map<string, int>)
    requires forall a :: a in order ==> a in counts && a in other && counts[a] == other[a]
    ensures SumCounts(order, counts) == SumCounts(order, other)
  {
    if order != [] {
      SumCountsFrame(order[..|order| - 1], counts, other);
    }
  }

  /** Raising the count of a key listed once raises the sum by one. */
  lemma {:induction false} SumCountsBump(order: seq<string>, counts: map<string, int>, agent: string)
    requires forall a :: a in order ==> a in counts
    requires forall i, j :: 0 <= i < j < |order| ==> order[i] != order[j]
    requires agent in order
    ensures SumCounts(order, counts[agent := counts[agent] + 1]) == SumCounts(order, counts) + 1
  {
    var n := |order| - 1;
    var bumped := counts[agent := counts[agent] + 1];
    var init := order[..n];
    if order[n] == agent {
      assert forall a :: a in init ==> a != agent;
      SumCountsFrame(init, counts, bumped);
    } else {
      var i :| 0 <= i < |order| && order[i] == agent;
      assert init[i] == agent;
      SumCountsBump(init, counts, agent);
    }
  }

  /** The counts of the ledger add up to the number of agents merged: one increment per dispatched task. */
  lemma {:induction false} LedgerTotal(xs: seq<string>)
    ensures LedgerWellFormed(LedgerOf(xs))
    ensures SumCounts(LedgerOf(xs).order, LedgerOf(xs).counts) == |xs|
  {
    LedgerWellFormedAll(xs);
    if xs != [] {
      var init := xs[..|xs| - 1];
      var agent := xs[|xs| - 1];
      var before := LedgerOf(init);
      var after := LedgerOf(xs);
      LedgerTotal(init);
      LedgerWellFormedAll(init);
      if agent in before.counts {
        assert after == Ledger(before.order, before.counts[agent := before.counts[agent] + 1]);
        SumCountsBump(before.order, before.counts, agent);
      } else {
        assert after == Ledger(before.order + [agent], before.counts[agent := 1]);
        assert after.order[..|before.order|] == before.order;
        assert SumCounts(after.order, after.counts) == SumCounts(before.order, after.counts) + 1;
        SumCountsFrame(before.order, before.counts, after.counts);
      }
    }
  }

  /** Merging more agents never reorders the ledger: the keys of an earlier ledger stay a prefix of its keys. */
  lemma {:induction false} LedgerOrderGrows(xs: seq<string>, n: nat)
    requires n <= |xs|
    ensures LedgerOf(xs[..n]).order <= LedgerOf(xs).order
  {
    if n < |xs| {
      var init := xs[..|xs| - 1];
      LedgerOrderGrows(init, n);
      assert init[..n] == xs[..n];
    } else {
      assert xs[..n] == xs;
    }
  }

  // ------------------------------------------------ the ledger `main` prints

  /** The agents the selector returns for the first `calls` tasks of `main`. */
  function Dispatched(calls: nat): (r: seq<string>)
    ensures |r| == calls
    ensures forall j :: 0 <= j < calls ==> r[j] == Agents[CycleChoices[j % 7]]
  {
    seq(calls, j requires 0 <= j < calls => Agents[CycleChoices[j % 7]])
  }

  /** How a call count moves through the period when one more call is made. */
  lemma PeriodNext(calls: nat)
    requires calls > 0
    ensures (calls - 1) % 7 == 6 ==> calls / 7 == (calls - 1) / 7 + 1 && calls % 7 == 0
    ensures (calls - 1) % 7 < 6 ==> calls / 7 == (calls - 1) / 7 && calls % 7 == (calls - 1) % 7 + 1
  {
  }

  /** One more call adds to the count of the agent it returns. */
  lemma DispatchedNext(calls: nat, a: string)
    requires calls > 0
    ensures Count(Dispatched(calls), a) ==
            Count(Dispatched(calls - 1), a) + (if Agents[CycleChoices[(calls - 1) % 7]] == a then 1 else 0)
  {
    var xs := Dispatched(calls);
    assert xs[..calls - 1] == Dispatched(calls - 1);
  }

  /** Which agent each of the seven phases names. */
  lemma PhaseAgent(p: nat)
    requires p < 7
    ensures Agents[CycleChoices[p]] == Agent1 <==> p == 3
    ensures Agents[CycleChoices[p]] == Agent2 <==> p == 1 || p == 5
    ensures Agents[CycleChoices[p]] == Agent3 <==> p == 0 || p == 2 || p == 4 || p == 6
  {
    AgentsDistinct();
  }

  /** In every seven calls Agent#1 gets one task, at the fourth call of the period. */
  lemma {:induction false} Agent1Share(calls: nat)
    ensures Count(Dispatched(calls), Agent1) == calls / 7 + (if calls % 7 > 3 then 1 else 0)
  {
    if calls > 0 {
      Agent1Share(calls - 1);
      PhaseAgent((calls - 1) % 7);
      DispatchedNext(calls, Agent1);
      PeriodNext(calls);
    }
  }

  /** In every seven calls Agent#2 gets two tasks, at the second and the sixth call of the period. */
  lemma {:induction false} Agent2Share(calls: nat)
    ensures Count(Dispatched(calls), Agent2) == 2 * (calls / 7) + (if calls % 7 > 1 then 1 else 0) + (if calls % 7 > 5 then 1 else 0)
  {
    if calls > 0 {
      Agent2Share(calls - 1);
      PhaseAgent((calls - 1) % 7);
      DispatchedNext(calls, Agent2);
      PeriodNext(calls);
    }
  }

  /** In every seven calls Agent#3 gets four tasks, at the first, third, fifth and seventh call of the period. */
  lemma {:induction false} Agent3Share(calls: nat)
    ensures Count(Dispatched(calls), Agent3) ==
            4 * (calls / 7) + (if calls % 7 > 0 then 1 else 0) + (if calls % 7 > 2 then 1 else 0) + (if calls % 7 > 4 then 1 else 0)
  {
    if calls > 0 {
      Agent3Share(calls - 1);
      PhaseAgent((calls - 1) % 7);
      DispatchedNext(calls, Agent3);
      PeriodNext(calls);
      var q, p := (calls - 1) / 7, (calls - 1) % 7;
      if p == 6 {
        assert calls / 7 == q + 1 && calls % 7 == 0;
      } else {
        assert calls / 7 == q && calls % 7 == p + 1;
      }
    }
  }

  /** Every task goes to one of the three agents, and from the fourth call on each has had one. */
  lemma DispatchedAgents(calls: nat)
    ensures forall a :: a in Dispatched(calls) ==> a == Agent1 || a == Agent2 || a == Agent3
    ensures calls >= 4 ==> Dispatched(calls)[..4] == [Agent3, Agent2, Agent3, Agent1]
  {
    var xs := Dispatched(calls);
    forall a | a in xs
      ensures a == Agent1 || a == Agent2 || a == Agent3
    {
      var j :| 0 <= j < |xs| && xs[j] == a;
      var c := CycleChoices[j % 7];
      assert c == 0 || c == 1 || c == 2;
    }
    if calls >= 4 {
      assert xs[0] == Agents[CycleChoices[0]];
      assert xs[1] == Agents[CycleChoices[1]];
      assert xs[2] == Agents[CycleChoices[2]];
      assert xs[3] == Agents[CycleChoices[3]];
    }
  }

  /** The first four calls return Agent#3, Agent#2, Agent#3, Agent#1, so the ledger lists them in that order. */
  lemma FirstAssignments()
    ensures LedgerOf([Agent3, Agent2, Agent3, Agent1]).order == [Agent3, Agent2, Agent1]
  {
    AgentsDistinct();
    var xs := [Agent3, Agent2, Agent3, Agent1];
    assert xs[..3][..2][..1] == [Agent3];
    assert LedgerOf([Agent3]) == Ledger([Agent3], map[Agent3 := 1]);
    assert xs[..3][..2] == [Agent3, Agent2];
    assert LedgerOf([Agent3, Agent2]).order == [Agent3, Agent2];
    assert xs[..3] == [Agent3, Agent2, Agent3];
    assert LedgerOf([Agent3, Agent2, Agent3]).order == [Agent3, Agent2];
  }

  /** From the fourth call on, the ledger lists the agents in the order of their first task: #3, #2, #1. */
  lemma {:induction false} ReportedOrder(calls: nat)
    requires calls >= 4
    ensures LedgerOf(Dispatched(calls)).order == [Agent3, Agent2, Agent1]
  {
    var xs := Dispatched(calls);
    if calls == 4 {
      DispatchedAgents(calls);
      assert xs == xs[..4];
      FirstAssignments();
    } else {
      ReportedOrder(calls - 1);
      var before := LedgerOf(Dispatched(calls - 1));
      assert xs[..calls - 1] == Dispatched(calls - 1);
      DispatchedAgents(calls);
      assert xs[calls - 1] in xs;
      LedgerWellFormedAll(Dispatched(calls - 1));
      assert xs[calls - 1] in before.order;
      MergeEffect(before, xs[calls - 1]);
    }
  }

  /** After the 950 tasks of `main`: Agent#1 has 136, Agent#2 271 and Agent#3 543. */
  lemma ReportedCounts()
    ensures LedgerOf(Dispatched(TotalWorks)).counts == map[Agent1 := 136, Agent2 := 271, Agent3 := 543]
  {
    var xs := Dispatched(TotalWorks);
    var counts := LedgerOf(xs).counts;
    Agent1Share(TotalWorks);
    Agent2Share(TotalWorks);
    Agent3Share(TotalWorks);
    DispatchedAgents(TotalWorks);
    LedgerKeys(xs);
    LedgerCounts(xs);
    assert xs[..4][0] == Agent3 && xs[..4][1] == Agent2 && xs[..4][3] == Agent1;
    assert Agent1 in counts && Agent2 in counts && Agent3 in counts;
    assert counts.Keys == {Agent1, Agent2, Agent3};
    assert counts[Agent1] == 136 && counts[Agent2] == 271 && counts[Agent3] == 543;
  }

  /**
   * The ledger `main` prints after its 950 tasks: Agent#3 with 543 tasks,
   * Agent#2 with 271 and Agent#1 with 136, listed in the order each agent
   * was first assigned a task (not the order of registration).
   */
  lemma ReportedLedger()
    ensures LedgerOf(Dispatched(TotalWorks)) == Ledger([Agent3, Agent2, Agent1], map[Agent1 := 136, Agent2 := 271, Agent3 := 543])
  {
    ReportedOrder(TotalWorks);
    ReportedCounts();
  }

  // ------------------------------------------------ results and report lines

  /** `Result`: a task id and the name of the agent that processed it. */
  datatype WorkResult = WorkResult(taskId: int, agentName: string)

  /** `Result.toLine`: the task id formatted with `%04d`, a tab, then the agent name. */
  function ToLine(r: WorkResult): string
  {
    FormatInt(r.taskId, 4) + "\t" + r.agentName
  }

  /** Reads a report line back: the number before the first tab and the text after it. */
  function ParseLine(line: string): Option<WorkResult>
  {
    match FirstIndex(line, (c: char) => c == '\t')
    case None => None
    case Some(k) =>
      match ParseInt(line[..k])
      case None => None
      case Some(n) => Some(WorkResult(n, line[k + 1..]))
  }

  /** A formatted number holds digits and at most a minus sign, never a tab. */
  lemma FormatIntHasNoTab(n: int)
    ensures forall i :: 0 <= i < |FormatInt(n, 4)| ==> FormatInt(n, 4)[i] != '\t'
  {
    var m := if n < 0 then -n else n;
    PaddedDecimalValue(m, if n < 0 then 3 else 4);
  }

  /** A report line reads back as the result it was made from, whatever the task id and the agent name. */
  lemma ToLineRoundTrip(r: WorkResult)
    ensures ParseLine(ToLine(r)) == Some(r)
  {
    var f := FormatInt(r.taskId, 4);
    var line := ToLine(r);
    FormatIntHasNoTab(r.taskId);
    assert line[|f|] == '\t';
    assert forall j :: 0 <= j < |f| ==> line[j] == f[j];
    assert line[..|f|] == f;
    assert line[|f| + 1..] == r.agentName;
    FormatIntRoundTrip(r.taskId, 4);
  }

  /** The ids 0 to 9999 take exactly four digits, so the agent name always starts at the sixth character. */
  lemma ToLineShape(r: WorkResult)
    requires 0 <= r.taskId < 10000
    ensures |ToLine(r)| == 5 + |r.agentName|
    ensures IsDigits(ToLine(r)[..4]) && ToLine(r)[4] == '\t' && ToLine(r)[5..] == r.agentName
  {
    FourDigits(r.taskId);
    assert ToLine(r)[..4] == FormatInt(r.taskId, 4);
  }

  /** The report lines: one per result, in order. */
  function Lines(results: seq<WorkResult>): (r: seq<string>)
    ensures |r| == |results|
    ensures forall i :: 0 <= i < |results| ==> r[i] == ToLine(results[i])
  {
    seq(|results|, i requires 0 <= i < |results| => ToLine(results[i]))
  }

  /** The loop that formats the sorted results. */
  method FormatLines(results: seq<WorkResult>) returns (lines: seq<string>)
    ensures lines == Lines(results)
  {
    lines := [];
    for i := 0 to |results|
      invariant lines == Lines(results[..i])
    {
      assert results[..i + 1] == results[..i] + [results[i]];
      LinesAppend(results[..i], results[i]);
      lines := lines + [ToLine(results[i])];
    }
    assert results[..|results|] == results;
  }

  /** Formatting one more result appends its line. */
  lemma LinesAppend(results: seq<WorkResult>, r: WorkResult)
    ensures Lines(results + [r]) == Lines(results) + [ToLine(r)]
  {
  }

  // ------------------------------------------------ workers and the pool

  /** The number of pool threads: the processor count, raised to at least 3 and capped at 12. */
  function PoolSize(processors: int): (r: int)
    ensures 3 <= r <= 12
    ensures 3 <= processors <= 12 ==> r == processors
    ensures processors < 3 ==> r == 3
    ensures processors > 12 ==> r == 12
  {
    var atLeast := if processors > 3 then processors else 3;
    if atLeast < 12 then atLeast else 12
  }

  /** The exclusive upper bound of a worker's sleep, in milliseconds: 220 less the agent's weight, but never below 5. */
  function DelayBound(agentWeight: int): (r: int)
    ensures r >= 5 && r >= 220 - agentWeight
    ensures r == 5 || r == 220 - agentWeight
  {
    if 220 - agentWeight > 5 then 220 - agentWeight else 5
  }

  /** A heavier agent never waits longer: the bound does not grow with the weight. */
  lemma DelayBoundShrinks(lighter: int, heavier: int)
    requires lighter <= heavier
    ensures DelayBound(heavier) <= DelayBound(lighter)
  {
  }

  /** `AgentWorker`: the task, the agent it was given to and that agent's weight. */
  datatype AgentWorker = AgentWorker(taskId: int, agentName: string, agentWeight: int)

  /**
   * `AgentWorker.call`: sleeps for a random time drawn from [3, DelayBound)
   * and returns the worker's task id and agent name. The random draw
   * refuses a bound of 3 or less; the bound is at least 5, so the call
   * never fails.
   */
  function Call(worker: AgentWorker): (r: Result<WorkResult, string>)
    ensures r == Ok(WorkResult(worker.taskId, worker.agentName))
  {
    if DelayBound(worker.agentWeight) <= 3 then Err("bound must be greater than origin")
    else Ok(WorkResult(worker.taskId, worker.agentName))
  }

  /** The workers submitted for the agents returned by the selector: task ids from 1, with each agent's weight. */
  function WorkersFor(picks: seq<string>, weights: map<string, int>): (r: seq<AgentWorker>)
    requires forall i :: 0 <= i < |picks| ==> picks[i] in weights
    ensures |r| == |picks|
    ensures forall i :: 0 <= i < |picks| ==> r[i] == AgentWorker(i + 1, picks[i], weights[picks[i]])
  {
    seq(|picks|, i requires 0 <= i < |picks| => AgentWorker(i + 1, picks[i], weights[picks[i]]))
  }

  /** Submitting one more task appends its worker, with the next task id. */
  lemma WorkersForAppend(picks: seq<string>, agent: string, weights: map<string, int>)
    requires forall i :: 0 <= i < |picks| ==> picks[i] in weights
    requires agent in weights
    ensures forall i :: 0 <= i < |picks + [agent]| ==> (picks + [agent])[i] in weights
    ensures WorkersFor(picks + [agent], weights) ==
            WorkersFor(picks, weights) + [AgentWorker(|picks| + 1, agent, weights[agent])]
  {
  }

  /** The results of the futures, read in submission order. */
  function Collected(workers: seq<AgentWorker>): (r: seq<WorkResult>)
    ensures |r| == |workers|
    ensures forall i :: 0 <= i < |workers| ==> r[i] == WorkResult(workers[i].taskId, workers[i].agentName)
  {
    seq(|workers|, i requires 0 <= i < |workers| => Call(workers[i]).value)
  }

  /** The loop that waits for every future in submission order. */
  method Collect(workers: seq<AgentWorker>) returns (results: seq<WorkResult>)
    ensures results == Collected(workers)
  {
    results := [];
    for i := 0 to |workers|
      invariant results == Collected(workers[..i])
    {
      var r := Call(workers[i]);
      results := results + [r.value];
    }
    assert workers[..|workers|] == workers;
  }

  // ------------------------------------------------ sorting by task id

  ghost predicate SortedById(s: seq<WorkResult>)
  {
    forall i, j :: 0 <= i < j < |s| ==> s[i].taskId <= s[j].taskId
  }

  /**
   * During a pass of the insertion sort that moves the element now at j:
   * s[..i + 1] is in order apart from position j, whose task id is below
   * every id to its right.
   */
  ghost predicate Sinking(s: seq<WorkResult>, i: int, j: int)
    requires 0 <= j <= i < |s|
  {
    && (forall k, l :: 0 <= k < l <= i && k != j && l != j ==> s[k].taskId <= s[l].taskId)
    && (forall l :: j < l <= i ==> s[j].taskId < s[l].taskId)
  }

  /** A pass starts with the prefix before i in order. */
  lemma SinkingStart(s: seq<WorkResult>, i: int)
    requires 0 <= i < |s| && SortedById(s[..i])
    ensures Sinking(s, i, i)
  {
    assert forall k :: 0 <= k < i ==> s[..i][k] == s[k];
  }

  /** Swapping the moving element with a larger left neighbour moves the gap one place left. */
  lemma SinkingSwap(s: seq<WorkResult>, i: int, j: int)
    requires 0 < j <= i < |s| && Sinking(s, i, j) && s[j - 1].taskId > s[j].taskId
    ensures Sinking(s[j - 1 := s[j]][j := s[j - 1]], i, j - 1)
    ensures multiset(s[j - 1 := s[j]][j := s[j - 1]]) == multiset(s)
  {
    var t := s[j - 1 := s[j]][j := s[j - 1]];
    assert t[j - 1] == s[j] && t[j] == s[j - 1];
    assert forall k :: 0 <= k < |s| && k != j - 1 && k != j ==> t[k] == s[k];
    SwapPermutes(s, j);
  }

  /** Swapping two neighbours keeps the same elements. */
  lemma SwapPermutes(s: seq<WorkResult>, j: int)
    requires 0 < j < |s|
    ensures multiset(s[j - 1 := s[j]][j := s[j - 1]]) == multiset(s)
  {
  }

  /** When the moving element is not below its left neighbour, or has reached the front, the prefix is in order. */
  lemma SinkingDone(s: seq<WorkResult>, i: int, j: int)
    requires 0 <= j <= i < |s| && Sinking(s, i, j)
    requires j == 0 || s[j - 1].taskId <= s[j].taskId
    ensures SortedById(s[..i + 1])
  {
  }

  /**
   * One pass of the insertion sort: moves a[i] left past every larger task id
   * until a[..i + 1] is in order; an a[i] not below its left neighbour stays
   * where it is.
   */
  method SinkLast(a: array<WorkResult>, i: int)
    requires 0 <= i < a.Length && SortedById(a[..i])
    modifies a
    ensures SortedById(a[..i + 1])
    ensures multiset(a[..]) == multiset(old(a[..]))
    ensures (i == 0 || old(a[i - 1].taskId) <= old(a[i].taskId)) ==> a[..] == old(a[..])
  {
    var j := i;
    SinkingStart(a[..], i);
    while j > 0 && a[j - 1].taskId > a[j].taskId
      invariant 0 <= j <= i
      invariant Sinking(a[..], i, j)
      invariant multiset(a[..]) == multiset(old(a[..]))
      invariant j == i ==> a[..] == old(a[..])
      invariant (i == 0 || old(a[i - 1].taskId) <= old(a[i].taskId)) ==> j == i
    {
      ghost var s := a[..];
      SinkingSwap(s, i, j);
      a[j - 1], a[j] := a[j], a[j - 1];
      assert a[..] == s[j - 1 := s[j]][j := s[j - 1]];
      j := j - 1;
    }
    SinkingDone(a[..], i, j);
    assert a[..][..i + 1] == a[..i + 1];
  }

  /**
   * The sort of the collected results by ascending task id, as an insertion
   * sort: the results end up in ascending task-id order, as a permutation of
   * what they were, and results already in order are left as they are.
   */
  method SortByTaskId(a: array<WorkResult>)
    modifies a
    ensures SortedById(a[..])
    ensures multiset(a[..]) == multiset(old(a[..]))
    ensures SortedById(old(a[..])) ==> a[..] == old(a[..])
  {
    var i := 0;
    while i < a.Length
      invariant 0 <= i <= a.Length
      invariant SortedById(a[..i])
      invariant multiset(a[..]) == multiset(old(a[..]))
      invariant SortedById(old(a[..])) ==> a[..] == old(a[..])
    {
      SinkLast(a, i);
      i := i + 1;
    }
    assert a[..a.Length] == a[..];
  }

  // ------------------------------------------------ main

  /** The agents and their weights, in the insertion order of the `weights` map. */
  const Registrations: seq<(string, int)> := [(Agent1, 50), (Agent2, 100), (Agent3, 200)]

  /** The names of a registration list, in order. */
  function Names(regs: seq<(string, int)>): (r: seq<string>)
    ensures |r| == |regs| && forall k :: 0 <= k < |regs| ==> r[k] == regs[k].0
  {
    seq(|regs|, k requires 0 <= k < |regs| => regs[k].0)
  }

  /** The weights of a registration list, in order. */
  function Capacities(regs: seq<(string, int)>): (r: seq<int>)
    ensures |r| == |regs| && forall k :: 0 <= k < |regs| ==> r[k] == regs[k].1
  {
    seq(|regs|, k requires 0 <= k < |regs| => regs[k].1)
  }

  /** A registration list one entry longer has its name and weight appended. */
  lemma RegistrationsNext(regs: seq<(string, int)>, i: nat)
    requires i < |regs|
    ensures Names(regs[..i + 1]) == Names(regs[..i]) + [regs[i].0]
    ensures Capacities(regs[..i + 1]) == Capacities(regs[..i]) + [regs[i].1]
  {
  }

  /** n zeros: the current weights of n freshly added nodes. */
  function Zeros(n: nat): (r: seq<int>)
    ensures |r| == n && forall k :: 0 <= k < n ==> r[k] == 0
  {
    seq(n, k => 0)
  }

  /** Step 2 of `main`: `wrr.add` for every entry of the weights map, in its order. */
  method RegisterAll(wrr: WeightedRoundRobin<string>, regs: seq<(string, int)>)
    requires wrr.Valid() && wrr.nodes == []
    requires forall k :: 0 <= k < |regs| ==> regs[k].1 > 0
    modifies wrr
    ensures wrr.Valid()
    ensures forall k :: 0 <= k < |wrr.nodes| ==> fresh(wrr.nodes[k])
    ensures ItemsOf(wrr.nodes) == Names(regs) && WeightsOf(wrr.nodes) == Capacities(regs)
    ensures wrr.currents == Zeros(|regs|)
  {
    for i := 0 to |regs|
      invariant wrr.Valid()
      invariant forall k :: 0 <= k < |wrr.nodes| ==> fresh(wrr.nodes[k])
      invariant ItemsOf(wrr.nodes) == Names(regs[..i]) && WeightsOf(wrr.nodes) == Capacities(regs[..i])
      invariant wrr.currents == Zeros(i)
    {
      var o := wrr.Add(regs[i].0, regs[i].1);
      RegistrationsNext(regs, i);
      assert Zeros(i) + [0] == Zeros(i + 1);
    }
    assert regs[..|regs|] == regs;
  }

  /**
   * Steps 1 and 2 of `main`: fill the weights map and register every entry,
   * in its insertion order, with a new selector.
   */
  method RegisterAgents() returns (wrr: WeightedRoundRobin<string>, weights: map<string, int>)
    ensures fresh(wrr) && wrr.Valid()
    ensures forall i :: 0 <= i < |wrr.nodes| ==> fresh(wrr.nodes[i])
    ensures ItemsOf(wrr.nodes) == Agents && WeightsOf(wrr.nodes) == AgentWeights
    ensures wrr.totalWeight == TotalAgentWeight && wrr.currents == [0, 0, 0]
    ensures weights == map[Agent1 := 50, Agent2 := 100, Agent3 := 200]
  {
    weights := map[];
    weights := weights[Agent1 := 50];
    weights := weights[Agent2 := 100];
    weights := weights[Agent3 := 200];
    wrr := new WeightedRoundRobin();
    RegisterAll(wrr, Registrations);
    assert Names(Registrations) == Agents && Capacities(Registrations) == AgentWeights;
    assert Zeros(3) == [0, 0, 0];
    assert Sum(AgentWeights) == 350;
  }

  /**
   * One call of `next` in the dispatch loop: after `calls` earlier calls, the selector moves one
   * step further along its schedule and names the agent that step appends.
   */
  method PickAgent(wrr: WeightedRoundRobin<string>, ghost items: seq<string>, ghost ws: seq<int>,
                   ghost start: seq<int>, ghost calls: nat)
    returns (agent: string)
    requires wrr.Valid() && |wrr.nodes| >= 1
    requires ItemsOf(wrr.nodes) == items && WeightsOf(wrr.nodes) == ws && |start| == |items|
    requires wrr.currents == Schedule(items, ws, start, wrr.totalWeight, calls).0
    modifies wrr`currents, wrr.nodes
    ensures wrr.Valid() && wrr.nodes == old(wrr.nodes)
    ensures wrr.currents == Schedule(items, ws, start, wrr.totalWeight, calls + 1).0
    ensures Schedule(items, ws, start, wrr.totalWeight, calls + 1).1 ==
            Schedule(items, ws, start, wrr.totalWeight, calls).1 + [agent]
    ensures agent in items
  {
    ScheduleNext(items, ws, start, wrr.totalWeight, calls);
    var r := wrr.Next();
    agent := r.value;
  }

  /** Submitting a task: a worker for the next task id, the agent chosen and that agent's weight from the map. */
  method Submit(workers: seq<AgentWorker>, taskId: int, agent: string, weights: map<string, int>,
                ghost picks: seq<string>, ghost picks': seq<string>)
    returns (r: seq<AgentWorker>)
    requires agent in weights && forall k :: 0 <= k < |picks| ==> picks[k] in weights
    requires workers == WorkersFor(picks, weights)
    requires picks' == picks + [agent] && taskId == |picks| + 1
    ensures forall k :: 0 <= k < |picks'| ==> picks'[k] in weights
    ensures r == WorkersFor(picks', weights)
  {
    var w := weights[agent];
    r := workers + [AgentWorker(taskId, agent, w)];
    WorkersForAppend(picks, agent, weights);
  }

  /** Counting one more assignment of the agent in the ledger. */
  method Tally(ledger: Ledger, agent: string, ghost picks: seq<string>, ghost picks': seq<string>) returns (r: Ledger)
    requires ledger == LedgerOf(picks)
    requires picks' == picks + [agent]
    ensures r == LedgerOf(picks')
  {
    r := Merge(ledger, agent);
    assert picks'[..|picks|] == picks;
  }

  /** Where step 4 of `main` stands: the selector's current weights, the agents named so far, the submitted workers and the ledger. */
  datatype Submission = Submission(currents: seq<int>, picks: seq<string>, workers: seq<AgentWorker>, ledger: Ledger)

  /**
   * Where step 4 stands after `calls` submissions, as a function of the selector's nodes and
   * starting weights: the agents named are the schedule, the workers carry task ids 1..calls,
   * and the ledger is built from the agents named.
   */
  ghost function SubmittedAfter(items: seq<string>, ws: seq<int>, start: seq<int>, totalWeight: int,
                                weights: map<string, int>, calls: nat): (r: Submission)
    requires |items| == |ws| == |start| >= 1
    requires forall k :: 0 <= k < |items| ==> items[k] in weights
    ensures |r.picks| == |r.workers| == calls
    ensures forall k :: 0 <= k < calls ==> r.picks[k] in weights && r.workers[k].taskId == k + 1
  {
    var schedule := Schedule(items, ws, start, totalWeight, calls);
    Submission(schedule.0, schedule.1, WorkersFor(schedule.1, weights), LedgerOf(schedule.1))
  }

  /** One pass of step 4's loop body: pick an agent, submit its worker, merge it into the ledger. */
  method SubmitNext(wrr: WeightedRoundRobin<string>, weights: map<string, int>,
                    ghost items: seq<string>, ghost ws: seq<int>, ghost start: seq<int>, done: nat,
                    workers: seq<AgentWorker>, ledger: Ledger, ghost picks: seq<string>)
    returns (workers': seq<AgentWorker>, ledger': Ledger, ghost picks': seq<string>)
    requires wrr.Valid() && |wrr.nodes| >= 1
    requires ItemsOf(wrr.nodes) == items && WeightsOf(wrr.nodes) == ws && |start| == |items|
    requires forall k :: 0 <= k < |items| ==> items[k] in weights
    requires Submission(wrr.currents, picks, workers, ledger) == SubmittedAfter(items, ws, start, wrr.totalWeight, weights, done)
    modifies wrr`currents, wrr.nodes
    ensures wrr.Valid() && wrr.nodes == old(wrr.nodes)
    ensures Submission(wrr.currents, picks', workers', ledger') == SubmittedAfter(items, ws, start, wrr.totalWeight, weights, done + 1)
  {
    var agent := PickAgent(wrr, items, ws, start, done);
    picks' := picks + [agent];
    workers' := Submit(workers, done + 1, agent, weights, picks, picks');
    ledger' := Tally(ledger, agent, picks, picks');
  }

  /**
   * Step 4 of `main`: for task ids 1 to `total`, ask the selector for an agent, submit a worker
   * carrying the agent's weight, and merge the agent into the ledger. The agents asked for,
   * `picks`, are the selector's schedule.
   */
  method Dispatch(wrr: WeightedRoundRobin<string>, weights: map<string, int>, total: nat)
    returns (workers: seq<AgentWorker>, ledger: Ledger, ghost picks: seq<string>)
    requires wrr.Valid() && |wrr.nodes| >= 1
    requires forall i :: 0 <= i < |wrr.nodes| ==> wrr.nodes[i].item in weights
    modifies wrr`currents, wrr.nodes
    ensures wrr.Valid() && wrr.nodes == old(wrr.nodes)
    ensures Submission(wrr.currents, picks, workers, ledger) ==
            SubmittedAfter(ItemsOf(wrr.nodes), WeightsOf(wrr.nodes), old(wrr.currents), wrr.totalWeight, weights, total)
  {
    ghost var items := ItemsOf(wrr.nodes);
    ghost var ws := WeightsOf(wrr.nodes);
    ghost var start := wrr.currents;
    assert forall k :: 0 <= k < |items| ==> items[k] in weights;
    picks := [];
    workers := [];
    ledger := Ledger([], map[]);
    for done := 0 to total
      invariant wrr.Valid() && wrr.nodes == old(wrr.nodes)
      invariant ItemsOf(wrr.nodes) == items && WeightsOf(wrr.nodes) == ws
      invariant Submission(wrr.currents, picks, workers, ledger) == SubmittedAfter(items, ws, start, wrr.totalWeight, weights, done)
    {
      workers, ledger, picks := SubmitNext(wrr, weights, items, ws, start, done, workers, ledger, picks);
    }
  }

  /** The results main collects, in submission order: task i + 1 went to the agent of phase i. */
  ghost function ExpectedResults(calls: nat): (r: seq<WorkResult>)
    ensures |r| == calls
    ensures forall i :: 0 <= i < calls ==> r[i] == WorkResult(i + 1, Agents[CycleChoices[i % 7]])
  {
    seq(calls, i requires 0 <= i < calls => WorkResult(i + 1, Agents[CycleChoices[i % 7]]))
  }

  /** The balancer, registered as main registers it, names the agents of the seven-call period. */
  lemma AgentPicks(calls: nat)
    ensures Schedule(Agents, AgentWeights, [0, 0, 0], TotalAgentWeight, calls).1 == Dispatched(calls)
  {
    AgentSchedule(calls);
  }

  /**
   * What the 950 submissions of main produce: results in task-id order, one per task, with
   * the agent of its phase, and the ledger main prints.
   */
  lemma PipelineOutcome(weights: map<string, int>, submission: Submission)
    requires weights == map[Agent1 := 50, Agent2 := 100, Agent3 := 200]
    requires submission == SubmittedAfter(Agents, AgentWeights, [0, 0, 0], TotalAgentWeight, weights, TotalWorks)
    ensures Collected(submission.workers) == ExpectedResults(TotalWorks)
    ensures SortedById(ExpectedResults(TotalWorks))
    ensures submission.ledger == Ledger([Agent3, Agent2, Agent1], map[Agent1 := 136, Agent2 := 271, Agent3 := 543])
  {
    AgentPicks(TotalWorks);
    ReportedLedger();
    assert submission.workers == WorkersFor(Dispatched(TotalWorks), weights);
  }

  /** Copies the collected results into the list main sorts. */
  method ToArray(results: seq<WorkResult>) returns (a: array<WorkResult>)
    ensures fresh(a) && a[..] == results
  {
    a := new WorkResult[|results|](k requires 0 <= k < |results| => results[k]);
  }

  /**
   * `main`: register the three agents, size the pool, dispatch 950 tasks,
   * collect the results in submission order, sort them by task id and
   * format the report lines. Line i reports task i + 1 and the agent the
   * period of seven calls gives it; the printed ledger lists Agent#3 with
   * 543 tasks, Agent#2 with 271 and Agent#1 with 136.
   */
  method RunWorkPipeline(processors: int) returns (threads: int, lines: seq<string>, ledger: Ledger)
    ensures threads == PoolSize(processors)
    ensures |lines| == TotalWorks
    ensures forall i :: 0 <= i < TotalWorks ==> lines[i] == ToLine(WorkResult(i + 1, Agents[CycleChoices[i % 7]]))
    ensures ledger == Ledger([Agent3, Agent2, Agent1], map[Agent1 := 136, Agent2 := 271, Agent3 := 543])
  {
    var wrr, weights := RegisterAgents();
    threads := PoolSize(processors);
    var total := TotalWorks;
    var workers;
    ghost var picks;
    workers, ledger, picks := Dispatch(wrr, weights, total);
    PipelineOutcome(weights, Submission(wrr.currents, picks, workers, ledger));
    var results := Collect(workers);
    var sorted := ToArray(results);
    SortByTaskId(sorted);
    lines := FormatLines(sorted[..]);
  }

}
