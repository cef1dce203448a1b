/**
 * The smooth weighted round-robin selector (WeightedRoundRobin<T> in WRR.java).
 *
 * Each registered node carries a fixed positive weight and a running current
 * weight. A call to Next raises every current weight by the node's own weight,
 * picks the first node holding the largest current weight, and lowers the
 * winner by the total of all weights.
 *
 * The functions and lemmas over weight and current-weight sequences are the
 * specification; the classes Node and WeightedRoundRobin are the in-place
 * implementation, proved against it.
 */
module RoundRobin {
  import opened Wrappers

  /** The effect of one call to Next: the new current weights and the position returned, if any. */
  datatype Step = Step(currents: seq<int>, chosen: Option<nat>)

  function Sum(xs: seq<int>): int
  {
    if xs == [] then 0 else Sum(xs[..|xs| - 1]) + xs[|xs| - 1]
  }

  /** Appending one value adds it to the sum. */
  lemma SumSnoc(xs: seq<int>, x: int)
    ensures Sum(xs + [x]) == Sum(xs) + x
  {
    assert (xs + [x])[..|xs|] == xs;
  }

  /** Every current weight raised by the weight at the same position. */
  function Raised(weights: seq<int>, currents: seq<int>): (r: seq<int>)
    requires |weights| == |currents|
    ensures |r| == |currents|
    ensures forall i :: 0 <= i < |r| ==> r[i] == currents[i] + weights[i]
  {
    seq(|currents|, i requires 0 <= i < |currents| => currents[i] + weights[i])
  }

  /** k holds the largest value, and every position before k holds strictly less. */
  ghost predicate IsEarliestMax(xs: seq<int>, k: int)
  {
    && 0 <= k < |xs|
    && (forall j :: 0 <= j < |xs| ==> xs[j] <= xs[k])
    && (forall j :: 0 <= j < k ==> xs[j] < xs[k])
  }

  /**
   * The position a left-to-right scan with a strict `>` comparison settles on,
   * having looked at xs[..i] and holding k so far: an equal maximum later in
   * the list never displaces an earlier one.
   */
  function ScanMax(xs: seq<int>, i: int, k: nat): (r: nat)
    requires 0 <= k < i <= |xs|
    ensures r < |xs|
    decreases |xs| - i
  {
    if i == |xs| then k else ScanMax(xs, i + 1, if xs[i] > xs[k] then i else k)
  }

  /** The position of the earliest maximum, found by a scan from the start. */
  function FirstMax(xs: seq<int>): (k: nat)
    requires |xs| > 0
    ensures k < |xs|
  {
    ScanMax(xs, 1, 0)
  }

  /** Scanning one more position keeps an earliest maximum, or replaces it by a strictly larger value. */
  lemma EarliestMaxExtends(xs: seq<int>, i: int, k: int)
    requires 0 < i < |xs|
    requires IsEarliestMax(xs[..i], k)
    ensures IsEarliestMax(xs[..i + 1], if xs[i] > xs[k] then i else k)
  {
    assert forall j :: 0 <= j < i ==> xs[..i + 1][j] == xs[..i][j];
  }

  /** A scan that starts from the earliest maximum of a prefix ends on the earliest maximum of the whole list. */
  lemma {:induction false} ScanMaxIsEarliestMax(xs: seq<int>, i: int, k: nat)
    requires 0 <= k < i <= |xs|
    requires IsEarliestMax(xs[..i], k)
    ensures IsEarliestMax(xs, ScanMax(xs, i, k))
    decreases |xs| - i
  {
    if i == |xs| {
      assert xs[..i] == xs;
    } else {
      EarliestMaxExtends(xs, i, k);
      ScanMaxIsEarliestMax(xs, i + 1, if xs[i] > xs[k] then i else k);
    }
  }

  /** The scan finds the earliest maximum. */
  lemma FirstMaxIsEarliestMax(xs: seq<int>)
    requires |xs| > 0
    ensures IsEarliestMax(xs, FirstMax(xs))
  {
    ScanMaxIsEarliestMax(xs, 1, 0);
  }

  /** There is only one earliest maximum. */
  lemma EarliestMaxUnique(xs: seq<int>, k1: int, k2: int)
    requires IsEarliestMax(xs, k1) && IsEarliestMax(xs, k2)
    ensures k1 == k2
  {
    assert xs[k1] == xs[k2];
  }

  /** One call to Next, on values. */
  function NextStep(weights: seq<int>, currents: seq<int>, totalWeight: int): (r: Step)
    requires |weights| == |currents|
    ensures |r.currents| == |currents|
    ensures r.chosen.Some? <==> |currents| > 0
    ensures r.chosen.Some? ==> r.chosen.value < |currents|
  {
    if |currents| == 0 then Step(currents, None)
    else if |currents| == 1 then Step(currents, Some(0))
    else
      var raised := Raised(weights, currents);
      var k := FirstMax(raised);
      Step(raised[k := raised[k] - totalWeight], Some(k))
  }

  /** Raising every current weight raises their sum by the sum of the weights. */
  lemma {:induction false} RaisedSum(weights: seq<int>, currents: seq<int>)
    requires |weights| == |currents|
    ensures Sum(Raised(weights, currents)) == Sum(currents) + Sum(weights)
  {
    if currents != [] {
      var n := |currents| - 1;
      assert Raised(weights, currents)[..n] == Raised(weights[..n], currents[..n]);
      RaisedSum(weights[..n], currents[..n]);
    }
  }

  /** Changing one value changes the sum by exactly the difference. */
  lemma {:induction false} UpdateSum(xs: seq<int>, k: int, x: int)
    requires 0 <= k < |xs|
    ensures Sum(xs[k := x]) == Sum(xs) - xs[k] + x
  {
    var n := |xs| - 1;
    if k == n {
      assert xs[k := x][..n] == xs[..n];
    } else {
      assert xs[k := x][..n] == xs[..n][k := x];
      UpdateSum(xs[..n], k, x);
    }
  }

  /**
   * When totalWeight is the sum of the weights, one call to Next leaves the
   * sum of the current weights unchanged, so a sum of 0 stays 0.
   */
  lemma NextStepKeepsSum(weights: seq<int>, currents: seq<int>, totalWeight: int)
    requires |weights| == |currents|
    requires totalWeight == Sum(weights)
    ensures |NextStep(weights, currents, totalWeight).currents| == |currents|
    ensures Sum(NextStep(weights, currents, totalWeight).currents) == Sum(currents)
  {
    if |currents| >= 2 {
      var raised := Raised(weights, currents);
      var k := FirstMax(raised);
      RaisedSum(weights, currents);
      UpdateSum(raised, k, raised[k] - totalWeight);
    }
  }

  /**
   * With two or more nodes, Next is determined by the earliest maximum k of
   * the raised weights: position k is returned, it alone is lowered by
   * totalWeight, and every other position keeps its raised weight.
   */
  lemma NextStepChoosesEarliestMax(weights: seq<int>, currents: seq<int>, totalWeight: int, k: int)
    requires |weights| == |currents| >= 2
    requires IsEarliestMax(Raised(weights, currents), k)
    ensures NextStep(weights, currents, totalWeight).chosen == Some(k)
    ensures NextStep(weights, currents, totalWeight).currents ==
            Raised(weights, currents)[k := Raised(weights, currents)[k] - totalWeight]
  {
    FirstMaxIsEarliestMax(Raised(weights, currents));
    EarliestMaxUnique(Raised(weights, currents), k, FirstMax(Raised(weights, currents)));
  }

  /** With no node Next returns nothing, with one node it returns that node; neither changes a weight. */
  lemma NextStepShortCircuits(weights: seq<int>, currents: seq<int>, totalWeight: int)
    requires |weights| == |currents| <= 1
    ensures NextStep(weights, currents, totalWeight).currents == currents
    ensures NextStep(weights, currents, totalWeight).chosen == if |currents| == 0 then None else Some(0)
  {
  }

  /**
   * The first `calls` calls to Next on a non-empty selector whose items are
   * `items`: the current weights afterwards and the items returned, in call order.
   */
  function Schedule<T>(items: seq<T>, weights: seq<int>, currents: seq<int>, totalWeight: int, calls: nat)
    : (r: (seq<int>, seq<T>))
    requires |items| == |weights| == |currents| >= 1
    ensures |r.0| == |currents| && |r.1| == calls
    ensures forall i :: 0 <= i < calls ==> r.1[i] in items
  {
    if calls == 0 then (currents, [])
    else
      var before := Schedule(items, weights, currents, totalWeight, calls - 1);
      var step := NextStep(weights, before.0, totalWeight);
      (step.currents, before.1 + [items[step.chosen.value]])
  }

  /** One more call extends the schedule by the step from where it stands. */
  lemma ScheduleNext<T>(items: seq<T>, weights: seq<int>, currents: seq<int>, totalWeight: int, calls: nat)
    requires |items| == |weights| == |currents| >= 1
    ensures var before := Schedule(items, weights, currents, totalWeight, calls);
            var step := NextStep(weights, before.0, totalWeight);
            Schedule(items, weights, currents, totalWeight, calls + 1) == (step.currents, before.1 + [items[step.chosen.value]])
  {
  }

  /** Where call number `calls` stands in a cycle of length p: counts up from 0 and wraps to 0 at p. */
  function Phase(calls: nat, p: nat): (r: nat)
    requires p >= 1
    ensures r < p
  {
    if calls == 0 then 0 else if Phase(calls - 1, p) + 1 == p then 0 else Phase(calls - 1, p) + 1
  }

  /**
   * When the current weights run through a cycle of states, each call moving
   * from states[k] to the next state and returning choices[k], the selector
   * started in states[0] repeats the cycle's choices for ever.
   */
  lemma {:induction false} PeriodicSchedule<T>(items: seq<T>, weights: seq<int>, totalWeight: int,
                                               states: seq<seq<int>>, choices: seq<nat>, calls: nat)
    requires |items| == |weights| >= 1
    requires |states| == |choices| >= 1
    requires forall k :: 0 <= k < |states| ==> |states[k]| == |weights| && choices[k] < |items|
    requires forall k {:trigger NextStep(weights, states[k], totalWeight)} :: 0 <= k < |states| ==>
               NextStep(weights, states[k], totalWeight) ==
               Step(states[if k + 1 == |states| then 0 else k + 1], Some(choices[k]))
    ensures Schedule(items, weights, states[0], totalWeight, calls).0 == states[Phase(calls, |states|)]
    ensures forall j :: 0 <= j < calls ==>
              Schedule(items, weights, states[0], totalWeight, calls).1[j] == items[choices[Phase(j, |states|)]]
  {
    if calls > 0 {
      PeriodicSchedule(items, weights, totalWeight, states, choices, calls - 1);
      var k := Phase(calls - 1, |states|);
      var before := Schedule(items, weights, states[0], totalWeight, calls - 1);
      assert before.0 == states[k];
      assert NextStep(weights, states[k], totalWeight) ==
             Step(states[if k + 1 == |states| then 0 else k + 1], Some(choices[k]));
      var after := Schedule(items, weights, states[0], totalWeight, calls);
      assert after.1 == before.1 + [items[choices[k]]];
      forall j | 0 <= j < calls
        ensures after.1[j] == items[choices[Phase(j, |states|)]]
      {
        if j < calls - 1 {
          assert after.1[j] == before.1[j];
        }
      }
    }
  }

  /** A single registered node is returned by every call and its current weight never moves. */
  lemma {:induction false} SingleNodeSchedule<T>(item: T, weight: int, current: int, totalWeight: int, calls: nat)
    ensures Schedule([item], [weight], [current], totalWeight, calls).0 == [current]
    ensures forall i :: 0 <= i < calls ==> Schedule([item], [weight], [current], totalWeight, calls).1[i] == item
  {
    if calls > 0 {
      SingleNodeSchedule(item, weight, current, totalWeight, calls - 1);
    }
  }

  /** From [0, 0], two nodes of weight 1 pick the first one and move to [-1, 1]. */
  lemma PairStepFromLevel()
    ensures NextStep([1, 1], [0, 0], 2) == Step([-1, 1], Some(0))
  {
    assert Raised([1, 1], [0, 0]) == [1, 1];
  }

  /** From [-1, 1], two nodes of weight 1 pick the second one and move back to [0, 0]. */
  lemma PairStepFromTilted()
    ensures NextStep([1, 1], [-1, 1], 2) == Step([0, 0], Some(1))
  {
    assert Raised([1, 1], [-1, 1]) == [0, 2];
  }

  /** Two fresh nodes of weight 1: calls alternate between them, the first-registered first. */
  lemma {:induction false} EqualPairAlternates<T>(a: T, b: T, calls: nat)
    ensures Schedule([a, b], [1, 1], [0, 0], 2, calls).0 == if calls % 2 == 0 then [0, 0] else [-1, 1]
    ensures forall i :: 0 <= i < calls ==> Schedule([a, b], [1, 1], [0, 0], 2, calls).1[i] == if i % 2 == 0 then a else b
  {
    if calls > 0 {
      EqualPairAlternates(a, b, calls - 1);
      var prev := Schedule([a, b], [1, 1], [0, 0], 2, calls - 1);
      var cur := Schedule([a, b], [1, 1], [0, 0], 2, calls);
      assert cur.0 == NextStep([1, 1], prev.0, 2).currents;
      assert cur.1 == prev.1 + [[a, b][NextStep([1, 1], prev.0, 2).chosen.value]];
      if (calls - 1) % 2 == 0 {
        assert prev.0 == [0, 0];
        PairStepFromLevel();
        assert cur.0 == [-1, 1] && calls % 2 == 1;
        assert cur.1 == prev.1 + [a];
      } else {
        assert prev.0 == [-1, 1];
        PairStepFromTilted();
        assert cur.0 == [0, 0] && calls % 2 == 0;
        assert cur.1 == prev.1 + [b];
      }
      forall i | 0 <= i < calls
        ensures cur.1[i] == if i % 2 == 0 then a else b
      {
        if i < calls - 1 {
          assert cur.1[i] == prev.1[i];
        } else {
          assert cur.1[i] == if (calls - 1) % 2 == 0 then a else b;
        }
      }
    }
  }

  /** One registered node: an item, its fixed weight and its mutable current weight. */
  class Node<T> {
    const item: T
    const weight: int
    var currentWeight: int

    constructor (item: T, weight: int)
      requires weight > 0
      ensures this.item == item && this.weight == weight && currentWeight == 0
    {
      this.item := item;
      this.weight := weight;
      currentWeight := 0;
    }
  }

  /** Node's constructor: a non-positive weight is refused before any node exists. */
  method NewNode<T>(item: T, weight: int) returns (r: Result<Node<T>, string>)
    ensures weight <= 0 <==> r.Err?
    ensures r.Err? ==> r.error == "weight must be > 0"
    ensures r.Ok? ==> fresh(r.value) && r.value.item == item && r.value.weight == weight && r.value.currentWeight == 0
  {
    if weight <= 0 {
      return Err("weight must be > 0");
    }
    var n := new Node(item, weight);
    return Ok(n);
  }

  /** The items of a node list, in order. */
  function ItemsOf<T>(ns: seq<Node<T>>): (r: seq<T>)
    ensures |r| == |ns| && forall i :: 0 <= i < |ns| ==> r[i] == ns[i].item
  {
    seq(|ns|, i requires 0 <= i < |ns| => ns[i].item)
  }

  /** The weights of a node list, in order. */
  function WeightsOf<T>(ns: seq<Node<T>>): (r: seq<int>)
    ensures |r| == |ns| && forall i :: 0 <= i < |ns| ==> r[i] == ns[i].weight
  {
    seq(|ns|, i requires 0 <= i < |ns| => ns[i].weight)
  }

  /** Appending a node appends its item and its weight. */
  lemma NodesSnoc<T>(ns: seq<Node<T>>, n: Node<T>)
    ensures ItemsOf(ns + [n]) == ItemsOf(ns) + [n.item]
    ensures WeightsOf(ns + [n]) == WeightsOf(ns) + [n.weight]
  {
  }

  class WeightedRoundRobin<T> {
    var nodes: seq<Node<T>>
    var totalWeight: int
    /** The current weights of the nodes, in registration order. */
    ghost var currents: seq<int>
    /** Where each node sits in `nodes`; being a map, it makes the nodes distinct objects. */
    ghost var position: map<Node<T>, int>

    /**
     * Distinct node objects with positive weights whose current weights
     * `currents` mirrors; totalWeight is the sum of the weights and the
     * current weights sum to 0.
     */
    ghost predicate Valid()
      reads this, nodes
    {
      && (forall i :: 0 <= i < |nodes| ==> nodes[i] in position && position[nodes[i]] == i)
      && |currents| == |nodes|
      && (forall i :: 0 <= i < |nodes| ==> currents[i] == nodes[i].currentWeight && nodes[i].weight > 0)
      && totalWeight == Sum(WeightsOf(nodes))
      && Sum(currents) == 0
    }

    constructor ()
      ensures Valid() && nodes == [] && totalWeight == 0
    {
      nodes := [];
      totalWeight := 0;
      currents := [];
      position := map[];
    }

    /**
     * Registers item with the given weight at the end of the list. A
     * non-positive weight fails before anything changes.
     */
    method Add(item: T, weight: int) returns (o: Outcome<string>)
      requires Valid()
      modifies this
      ensures Valid()
      ensures weight <= 0 ==> && o == Fail("weight must be > 0")
                              && nodes == old(nodes) && currents == old(currents) && totalWeight == old(totalWeight)
      ensures weight > 0 ==> && o == Pass
                             && |nodes| == |old(nodes)| + 1
                             && nodes[..|old(nodes)|] == old(nodes)
                             && fresh(nodes[|old(nodes)|])
                             && ItemsOf(nodes) == ItemsOf(old(nodes)) + [item]
                             && WeightsOf(nodes) == WeightsOf(old(nodes)) + [weight]
                             && currents == old(currents) + [0]
                             && totalWeight == old(totalWeight) + weight
    {
      var n := NewNode(item, weight);
      if n.Err? {
        return Fail(n.error);
      }
      var node := n.value;
      ghost var before := nodes;
      position := position[node := |nodes|];
      nodes := nodes + [node];
      totalWeight := totalWeight + weight;
      currents := currents + [0];
      assert nodes[..|before|] == before;
      NodesSnoc(before, node);
      SumSnoc(WeightsOf(before), weight);
      SumSnoc(old(currents), 0);
      return Pass;
    }

    /**
     * The scan inside `next`: raises each node's current weight by its own
     * weight and keeps the first node holding the largest raised value.
     */
    method RaiseAll() returns (best: Node<T>, ghost bestIndex: int)
      requires |nodes| >= 1 && |currents| == |nodes|
      requires forall i :: 0 <= i < |nodes| ==> nodes[i] in position && position[nodes[i]] == i
      requires forall i :: 0 <= i < |nodes| ==> nodes[i].currentWeight == currents[i]
      modifies nodes
      ensures forall i :: 0 <= i < |nodes| ==> nodes[i].currentWeight == Raised(WeightsOf(nodes), currents)[i]
      ensures bestIndex == FirstMax(Raised(WeightsOf(nodes), currents)) && best == nodes[bestIndex]
    {
      ghost var raised := Raised(WeightsOf(nodes), currents);
      var found: Node?<T> := null;
      bestIndex := 0;
      var i := 0;
      while i < |nodes|
        invariant 0 <= i <= |nodes|
        invariant forall j :: 0 <= j < |nodes| ==> nodes[j].currentWeight == if j < i then raised[j] else currents[j]
        invariant i == 0 <==> found == null
        invariant i > 0 ==> bestIndex < i && found == nodes[bestIndex] && IsEarliestMax(raised[..i], bestIndex)
      {
        var n := nodes[i];
        n.currentWeight := n.currentWeight + n.weight;
        if i > 0 {
          EarliestMaxExtends(raised, i, bestIndex);
        }
        if found == null || n.currentWeight > found.currentWeight {
          found := n;
          bestIndex := i;
        }
        i := i + 1;
      }
      assert raised[..|nodes|] == raised;
      FirstMaxIsEarliestMax(raised);
      EarliestMaxUnique(raised, bestIndex, FirstMax(raised));
      best := found;
    }

    /**
     * Picks the next item: nothing on an empty selector, the only item on a
     * single-node selector, and otherwise the result of one smooth weighted
     * round-robin step, performed on the nodes in place.
     */
    method Next() returns (r: Option<T>)
      requires Valid()
      modifies this`currents, nodes
      ensures Valid()
      ensures currents == NextStep(WeightsOf(nodes), old(currents), totalWeight).currents
      ensures NextStep(WeightsOf(nodes), old(currents), totalWeight).chosen == None ==> r == None
      ensures NextStep(WeightsOf(nodes), old(currents), totalWeight).chosen.Some? ==>
                r == Some(nodes[NextStep(WeightsOf(nodes), old(currents), totalWeight).chosen.value].item)
    {
      if |nodes| == 0 {
        return None;
      }
      if |nodes| == 1 {
        return Some(nodes[0].item);
      }
      var item := Advance();
      r := Some(item);
    }

    /** The selection proper, once there are at least two nodes: raise every node, then lower the winner. */
    method Advance() returns (item: T)
      requires Valid() && |nodes| >= 2
      modifies this`currents, nodes
      ensures Valid()
      ensures var step := NextStep(WeightsOf(nodes), old(currents), totalWeight);
              && currents == step.currents
              && step.chosen.Some?
              && item == nodes[step.chosen.value].item
    {
      ghost var before := currents;
      ghost var w := WeightsOf(nodes);
      ghost var raised := Raised(w, before);
      ghost var step := NextStep(w, before, totalWeight);
      NextStepKeepsSum(w, before, totalWeight);
      var best, bestIndex := RaiseAll();
      assert step.currents == raised[bestIndex := raised[bestIndex] - totalWeight];
      best.currentWeight := best.currentWeight - totalWeight;
      item := best.item;
      currents := step.currents;
    }
  }
}
