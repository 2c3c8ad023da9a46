/** Moving a failed node's queued tasks to the surviving nodes: the loop as a function, and what it guarantees. */
module Reallocation {
  import opened Tasks
  import opened EdgeNodes
  import opened Allocation

  /** The allocator and fleet after some of the failed node's tasks were tried, and where each of them went. */
  datatype Sweep = Sweep(allocator: AllocatorState, fleet: seq<Node>, outcomes: seq<Option<nat>>)

  /** Taking the front task off the failed node and requesting an allocation for it. */
  function SweepStep(s: Sweep, f: nat): Sweep
    requires f < |s.fleet| && s.fleet[f].queue != []
  {
    var q := s.fleet[f].queue;
    var o := Allocate(s.allocator, s.fleet[f := s.fleet[f].(queue := q[1..])], q[0].req);
    Sweep(o.allocator, o.fleet, s.outcomes + [o.node])
  }

  /** Some node other than f has room. */
  ghost predicate SurvivorFits(fleet: seq<Node>, f: nat, d: Vec) {
    exists n :: 0 <= n < |fleet| && n != f && fleet[n].CanAllocate(d)
  }

  /** From s to r one task left the front of f's queue and node, if any, was charged its demand d. */
  ghost predicate TookOne(s: Sweep, f: nat, r: Sweep, node: Option<nat>, d: Vec)
    requires f < |s.fleet| && s.fleet[f].queue != []
  {
    && |r.fleet| == |s.fleet| && r.outcomes == s.outcomes + [node] && node != Some(f)
    && r.fleet[f] == s.fleet[f].(queue := s.fleet[f].queue[1..])
    && (forall n :: 0 <= n < |s.fleet| && n != f ==>
        r.fleet[n] == if node == Some(n) then s.fleet[n].Reserve(d) else s.fleet[n])
    && (forall n :: 0 <= n < |s.fleet| && node == Some(n) ==> s.fleet[n].CanAllocate(d))
  }

  /** One request was counted, under an unchanged strategy. */
  predicate CountedOne(a: AllocatorState, b: AllocatorState, node: Option<nat>) {
    && b.strategy == a.strategy && b.weights == a.weights && b.total == a.total + 1
    && b.succeeded == a.succeeded + (if node.Some? then 1 else 0)
    && b.failed == a.failed + (if node.Some? then 0 else 1)
  }

  lemma FitsOnASurvivor(fleet: seq<Node>, f: nat, g: seq<Node>, q: seq<TaskData>, d: Vec)
    requires f < |fleet| && !fleet[f].available && g == fleet[f := fleet[f].(queue := q)]
    ensures SomeNodeFits(g, d) <==> SurvivorFits(fleet, f, d)
  {
    if SomeNodeFits(g, d) {
      var n :| 0 <= n < |g| && g[n].CanAllocate(d);
      assert n != f && fleet[n].CanAllocate(d);
    }
    if SurvivorFits(fleet, f, d) {
      var n :| 0 <= n < |fleet| && n != f && fleet[n].CanAllocate(d);
      assert g[n].CanAllocate(d);
    }
  }

  lemma TookOneFrom(s: Sweep, f: nat, g: seq<Node>, o: Outcome, req: Requirements)
    requires f < |s.fleet| && s.fleet[f].queue != [] && !s.fleet[f].available
    requires g == s.fleet[f := s.fleet[f].(queue := s.fleet[f].queue[1..])] && o == Allocate(s.allocator, g, req)
    ensures TookOne(s, f, Sweep(o.allocator, o.fleet, s.outcomes + [o.node]), o.node, req.demand)
    ensures CountedOne(s.allocator, o.allocator, o.node)
    ensures o.node.Some? <==> SomeNodeFits(g, req.demand)
  {
    AttemptCharges(Requested(s.allocator), g, req);
  }

  /**
   A step takes one task off the unavailable node and charges at most one other node its demand; the task
   finds a node exactly when some surviving node has room.
   */
  lemma StepEffect(s: Sweep, f: nat) returns (node: Option<nat>)
    requires f < |s.fleet| && s.fleet[f].queue != [] && !s.fleet[f].available
    ensures TookOne(s, f, SweepStep(s, f), node, s.fleet[f].queue[0].req.demand)
    ensures CountedOne(s.allocator, SweepStep(s, f).allocator, node)
    ensures node.Some? <==> SurvivorFits(s.fleet, f, s.fleet[f].queue[0].req.demand)
  {
    var q := s.fleet[f].queue;
    var g := s.fleet[f := s.fleet[f].(queue := q[1..])];
    var o := Allocate(s.allocator, g, q[0].req);
    TookOneFrom(s, f, g, o, q[0].req);
    FitsOnASurvivor(s.fleet, f, g, q[1..], q[0].req.demand);
    node := o.node;
  }

  lemma StepShape(s: Sweep, f: nat)
    requires f < |s.fleet| && s.fleet[f].queue != [] && !s.fleet[f].available
    ensures |SweepStep(s, f).fleet| == |s.fleet| && |SweepStep(s, f).outcomes| == |s.outcomes| + 1
    ensures SweepStep(s, f).fleet[f] == s.fleet[f].(queue := s.fleet[f].queue[1..])
  {
    var node := StepEffect(s, f);
  }

  /** The loop's state after k tasks. */
  function SweepUpTo(a: AllocatorState, fleet: seq<Node>, f: nat, k: nat): (s: Sweep)
    requires f < |fleet| && !fleet[f].available && k <= |fleet[f].queue|
    ensures |s.fleet| == |fleet| && |s.outcomes| == k
    ensures s.fleet[f] == fleet[f].(queue := fleet[f].queue[k..])
  {
    if k == 0 then Sweep(a, fleet, [])
    else
      var s := SweepUpTo(a, fleet, f, k - 1);
      StepShape(s, f);
      SweepStep(s, f)
  }

  lemma SweepNext(a: AllocatorState, fleet: seq<Node>, f: nat, k: nat)
    requires f < |fleet| && !fleet[f].available && k < |fleet[f].queue|
    ensures SweepUpTo(a, fleet, f, k + 1) == SweepStep(SweepUpTo(a, fleet, f, k), f)
  {
  }

  /** The demands of the tasks whose outcome is node n. */
  function ChargedTo(tasks: seq<TaskData>, outcomes: seq<Option<nat>>, n: nat): Vec
    requires |outcomes| <= |tasks|
  {
    if outcomes == [] then ZERO
    else
      var i := |outcomes| - 1;
      var before := ChargedTo(tasks, outcomes[..i], n);
      if outcomes[i] == Some(n) then before.Plus(tasks[i].req.demand) else before
  }

  function Successes(outcomes: seq<Option<nat>>): (c: nat)
    ensures c <= |outcomes|
  {
    if outcomes == [] then 0
    else Successes(outcomes[..|outcomes| - 1]) + (if outcomes[|outcomes| - 1].Some? then 1 else 0)
  }

  lemma SuccessesOfNext(outcomes: seq<Option<nat>>, node: Option<nat>)
    ensures Successes(outcomes + [node]) == Successes(outcomes) + (if node.Some? then 1 else 0)
  {
    assert (outcomes + [node])[..|outcomes|] == outcomes;
  }

  /** The failed node is never chosen and, as written, keeps every reservation it had. */
  ghost predicate FailedNodeUntouched(fleet: seq<Node>, f: nat, s: Sweep)
    requires f < |fleet| == |s.fleet|
  {
    && s.fleet[f].usage == fleet[f].usage && s.fleet[f].processed == fleet[f].processed && !s.fleet[f].available
    && forall i :: 0 <= i < |s.outcomes| ==> s.outcomes[i] != Some(f)
  }

  /** Each survivor grows by exactly the demand of the tasks moved to it; no survivor's queue grows. */
  ghost predicate SurvivorsCharged(fleet: seq<Node>, f: nat, s: Sweep)
    requires f < |fleet| == |s.fleet| && |s.outcomes| <= |fleet[f].queue|
  {
    forall n :: 0 <= n < |fleet| && n != f ==>
      && s.fleet[n].usage == fleet[n].usage.Plus(ChargedTo(fleet[f].queue, s.outcomes, n))
      && s.fleet[n].queue == fleet[n].queue && s.fleet[n].capacity == fleet[n].capacity
      && s.fleet[n].latency == fleet[n].latency && s.fleet[n].available == fleet[n].available
  }

  /** One allocation request per task, under one strategy. */
  ghost predicate RequestsCounted(a: AllocatorState, s: Sweep) {
    && s.allocator.strategy == a.strategy && s.allocator.weights == a.weights
    && s.allocator.total == a.total + |s.outcomes|
    && s.allocator.succeeded == a.succeeded + Successes(s.outcomes)
    && s.allocator.failed == a.failed + |s.outcomes| - Successes(s.outcomes)
  }

  ghost predicate SweepFacts(a: AllocatorState, fleet: seq<Node>, f: nat, s: Sweep)
    requires f < |fleet| == |s.fleet| && |s.outcomes| <= |fleet[f].queue|
  {
    FailedNodeUntouched(fleet, f, s) && SurvivorsCharged(fleet, f, s) && RequestsCounted(a, s) && Sound(s.fleet)
  }

  /** A task is left without a node exactly when no surviving node had room for it at its turn. */
  ghost predicate TriedInTurn(a: AllocatorState, fleet: seq<Node>, f: nat, i: nat)
    requires f < |fleet| && !fleet[f].available && i < |fleet[f].queue|
  {
    SweepUpTo(a, fleet, f, i + 1).outcomes[i].Some? <==>
      SurvivorFits(SweepUpTo(a, fleet, f, i).fleet, f, fleet[f].queue[i].req.demand)
  }

  lemma ChargedToNext(tasks: seq<TaskData>, outcomes: seq<Option<nat>>, node: Option<nat>, n: nat)
    requires |outcomes| < |tasks|
    ensures ChargedTo(tasks, outcomes + [node], n) ==
      if node == Some(n) then ChargedTo(tasks, outcomes, n).Plus(tasks[|outcomes|].req.demand)
      else ChargedTo(tasks, outcomes, n)
  {
    assert (outcomes + [node])[..|outcomes|] == outcomes;
  }

  lemma StepKeepsCharges(fleet: seq<Node>, f: nat, s: Sweep, r: Sweep, node: Option<nat>)
    requires f < |fleet| == |s.fleet| && |s.outcomes| < |fleet[f].queue|
    requires s.fleet[f].queue == fleet[f].queue[|s.outcomes|..]
    requires TookOne(s, f, r, node, fleet[f].queue[|s.outcomes|].req.demand) && SurvivorsCharged(fleet, f, s)
    ensures SurvivorsCharged(fleet, f, r)
  {
    forall n | 0 <= n < |fleet| && n != f
      ensures r.fleet[n].usage == fleet[n].usage.Plus(ChargedTo(fleet[f].queue, r.outcomes, n))
    {
      ChargedToNext(fleet[f].queue, s.outcomes, node, n);
    }
  }

  lemma StepKeepsSound(s: Sweep, f: nat, r: Sweep, node: Option<nat>, d: Vec)
    requires f < |s.fleet| && s.fleet[f].queue != [] && TookOne(s, f, r, node, d) && ZERO.AtMost(d) && Sound(s.fleet)
    ensures Sound(r.fleet)
  {
    forall n | 0 <= n < |r.fleet| ensures r.fleet[n].Within() {
      if node == Some(n) {
        OperationsKeepWithin(s.fleet[n], d, 0.0, 0.0);
      }
    }
  }

  lemma StepKeepsCounts(a: AllocatorState, s: Sweep, r: Sweep, node: Option<nat>)
    requires RequestsCounted(a, s) && CountedOne(s.allocator, r.allocator, node) && r.outcomes == s.outcomes + [node]
    ensures RequestsCounted(a, r)
  {
    SuccessesOfNext(s.outcomes, node);
  }

  lemma StepKeepsFacts(a: AllocatorState, fleet: seq<Node>, f: nat, s: Sweep)
    requires f < |fleet| == |s.fleet| && |s.outcomes| < |fleet[f].queue|
    requires s.fleet[f].queue == fleet[f].queue[|s.outcomes|..]
    requires ZERO.AtMost(s.fleet[f].queue[0].req.demand) && SweepFacts(a, fleet, f, s)
    ensures |SweepStep(s, f).fleet| == |fleet| && |SweepStep(s, f).outcomes| == |s.outcomes| + 1
    ensures SweepFacts(a, fleet, f, SweepStep(s, f))
  {
    var node := StepEffect(s, f);
    var r := SweepStep(s, f);
    StepKeepsCharges(fleet, f, s, r, node);
    StepKeepsSound(s, f, r, node, s.fleet[f].queue[0].req.demand);
    StepKeepsCounts(a, s, r, node);
  }

  lemma TurnDecides(a: AllocatorState, fleet: seq<Node>, f: nat, i: nat)
    requires f < |fleet| && !fleet[f].available && i < |fleet[f].queue|
    ensures TriedInTurn(a, fleet, f, i)
  {
    var node := StepEffect(SweepUpTo(a, fleet, f, i), f);
    SweepNext(a, fleet, f, i);
  }

  lemma {:induction false} SweepHolds(a: AllocatorState, fleet: seq<Node>, f: nat, k: nat)
    requires f < |fleet| && !fleet[f].available && k <= |fleet[f].queue|
    requires NonNegativeDemands(fleet[f].queue) && Sound(fleet)
    ensures SweepFacts(a, fleet, f, SweepUpTo(a, fleet, f, k))
  {
    if k > 0 {
      SweepHolds(a, fleet, f, k - 1);
      StepKeepsFacts(a, fleet, f, SweepUpTo(a, fleet, f, k - 1));
    }
  }

  // ---- The whole loop ----

  function QueuedCount(fleet: seq<Node>): nat {
    if fleet == [] then 0 else QueuedCount(fleet[..|fleet| - 1]) + |fleet[|fleet| - 1].queue|
  }

  lemma {:induction false} QueuedCountDrops(before: seq<Node>, after: seq<Node>, f: nat)
    requires |before| == |after| && f < |before|
    requires forall n :: 0 <= n < |before| && n != f ==> after[n].queue == before[n].queue
    ensures QueuedCount(after) - |after[f].queue| == QueuedCount(before) - |before[f].queue|
  {
    var m := |before| - 1;
    if f < m {
      QueuedCountDrops(before[..m], after[..m], f);
    } else {
      QueuedCountSame(before[..m], after[..m]);
    }
  }

  lemma {:induction false} QueuedCountSame(before: seq<Node>, after: seq<Node>)
    requires |before| == |after| && forall n :: 0 <= n < |before| ==> after[n].queue == before[n].queue
    ensures QueuedCount(after) == QueuedCount(before)
  {
    if before != [] {
      QueuedCountSame(before[..|before| - 1], after[..|before| - 1]);
    }
  }

  /**
   After the loop the failed node's queue is empty and its usage untouched, survivors hold exactly the demands
   of the tasks moved to them on top of what they held, and the fleet queues fewer tasks by all of them.
   */
  lemma ReallocationResult(a: AllocatorState, fleet: seq<Node>, f: nat)
    requires f < |fleet| && !fleet[f].available && NonNegativeDemands(fleet[f].queue) && Sound(fleet)
    ensures var q := fleet[f].queue;
      var s := SweepUpTo(a, fleet, f, |q|);
      && s.fleet[f].queue == []
      && SweepFacts(a, fleet, f, s)
      && (forall i :: 0 <= i < |q| ==> TriedInTurn(a, fleet, f, i))
      && QueuedCount(s.fleet) == QueuedCount(fleet) - |q|
  {
    var q := fleet[f].queue;
    SweepHolds(a, fleet, f, |q|);
    forall i | 0 <= i < |q| ensures TriedInTurn(a, fleet, f, i) {
      TurnDecides(a, fleet, f, i);
    }
    QueuedCountDrops(fleet, SweepUpTo(a, fleet, f, |q|).fleet, f);
  }
}
