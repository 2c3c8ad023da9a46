/** Which node a task is reserved on (resource_allocator.h, resource_allocator.cpp). */
module Allocation {
  import opened Tasks
  import opened Selection
  import opened EdgeNodes

  datatype AllocationStrategy = RoundRobin | LeastLoad | PriorityRouting | MultiConstraint

  datatype Weights = Weights(cpu: real, ram: real, bandwidth: real, latency: real, queue: real, priority: real) {
    predicate NonNegative() {
      cpu >= 0.0 && ram >= 0.0 && bandwidth >= 0.0 && latency >= 0.0 && queue >= 0.0 && priority >= 0.0
    }

    function Scale(c: real): Weights {
      Weights(c * cpu, c * ram, c * bandwidth, c * latency, c * queue, c * priority)
    }
  }

  const DEFAULT_WEIGHTS := Weights(0.25, 0.20, 0.15, 0.15, 0.15, 0.10)

  /** One more than the largest std::size_t, at which the round-robin index wraps. */
  const SIZE_LIMIT: nat := 0x1_0000_0000_0000_0000

  /** Largest finite double, (2^53 - 1) * 2^323 * 2^324 * 2^324, and largest int64_t: the running-best sentinels. */
  const DBL_MAX: real :=
    9007199254740991.0
    * 17087896287367280659160173649356416916821636178853222159576332862577757806245124400183696695492608.0
    * 34175792574734561318320347298712833833643272357706444319152665725155515612490248800367393390985216.0
    * 34175792574734561318320347298712833833643272357706444319152665725155515612490248800367393390985216.0
  const INT64_MAX: real := 9223372036854775807.0

  // ---- Scoring ----

  function Share(free: real, capacity: real): real {
    if capacity <= 0.0 then 0.0 else Clamp(free / capacity, 0.0, 1.0)
  }

  function LatencyScore(latency: int): real {
    Clamp(1.0 - latency as real / 100.0, 0.01, 1.0)
  }

  function QueueScore(length: nat): real {
    Clamp(1.0 - length as real / 100.0, 0.0, 1.0)
  }

  function PriorityScore(priority: Priority): real {
    match priority
    case Critical => 1.0
    case High => 0.75
    case Medium => 0.5
    case Low => 0.25
  }

  /** The normalised sub-scores of a node. */
  datatype Terms = Terms(cpu: real, ram: real, bandwidth: real, latency: real, queue: real)

  function TermsOf(n: Node): (t: Terms)
    ensures 0.0 <= t.cpu <= 1.0 && 0.0 <= t.ram <= 1.0 && 0.0 <= t.bandwidth <= 1.0
    ensures 0.01 <= t.latency <= 1.0 && 0.0 <= t.queue <= 1.0
  {
    Terms(
      Share(n.capacity.cpu - n.usage.cpu, n.capacity.cpu),
      Share(n.capacity.ram - n.usage.ram, n.capacity.ram),
      Share(n.capacity.bandwidth - n.usage.bandwidth, n.capacity.bandwidth),
      LatencyScore(n.latency),
      QueueScore(|n.queue|))
  }

  function Weigh(w: Weights, t: Terms, priority: real): real {
    w.cpu * t.cpu + w.ram * t.ram + w.bandwidth * t.bandwidth + w.latency * t.latency + w.queue * t.queue
      + w.priority * priority
  }

  function Score(w: Weights, n: Node, priority: Priority): real {
    Weigh(w, TermsOf(n), PriorityScore(priority)) * 100.0
  }

  // ---- Selection ----

  predicate IsHigh(priority: Priority) {
    priority == High || priority == Critical
  }

  /** What each scanning strategy minimises; the multi-constraint scan maximises the score. */
  function SelectKey(strategy: AllocationStrategy, w: Weights, n: Node, priority: Priority): real {
    match strategy
    case RoundRobin => 0.0
    case LeastLoad => n.capacity.cpu - (n.capacity.cpu - n.usage.cpu)
    case PriorityRouting => if IsHigh(priority) then n.latency as real else |n.queue| as real
    case MultiConstraint => -Score(w, n, priority)
  }

  function KeyAt(strategy: AllocationStrategy, w: Weights, fleet: seq<Node>, priority: Priority): nat -> real {
    (i: nat) => if i < |fleet| then SelectKey(strategy, w, fleet[i], priority) else 0.0
  }

  /** The first k nodes in edge-id order that can hold the demand. */
  function ViableUpTo(fleet: seq<Node>, d: Vec, k: nat): (v: seq<nat>)
    requires k <= |fleet|
    ensures forall i :: 0 <= i < |v| ==> v[i] < k
    ensures forall i: nat :: i in v <==> i < k && fleet[i].CanAllocate(d)
    ensures forall i, j :: 0 <= i < j < |v| ==> v[i] < v[j]
  {
    if k == 0 then []
    else
      var v := ViableUpTo(fleet, d, k - 1);
      if fleet[k - 1].CanAllocate(d) then v + [k - 1] else v
  }

  function Viable(fleet: seq<Node>, d: Vec): (v: seq<nat>)
    ensures forall i :: 0 <= i < |v| ==> v[i] < |fleet|
    ensures forall i: nat :: i in v <==> i < |fleet| && fleet[i].CanAllocate(d)
    ensures forall i, j :: 0 <= i < j < |v| ==> v[i] < v[j]
  {
    ViableUpTo(fleet, d, |fleet|)
  }

  datatype AllocatorState = AllocatorState(
    strategy: AllocationStrategy, weights: Weights, total: nat, succeeded: nat, failed: nat, roundRobin: nat)

  function Select(a: AllocatorState, fleet: seq<Node>, viable: seq<nat>, priority: Priority): (n: nat)
    requires viable != []
    ensures n in viable
  {
    if a.strategy == RoundRobin then viable[a.roundRobin % |viable|]
    else viable[FirstLeast<nat>(viable, KeyAt(a.strategy, a.weights, fleet, priority))]
  }

  /** The allocator, the fleet, the chosen node and the reported score after a request. */
  datatype Outcome = Outcome(allocator: AllocatorState, fleet: seq<Node>, node: Option<nat>, score: real)

  function ReportedScore(a: AllocatorState, n: Node, priority: Priority): real {
    if a.strategy == MultiConstraint then Score(a.weights, n, priority)
    else SelectKey(a.strategy, a.weights, n, priority)
  }

  /** The strategy's choice among the viable nodes is charged the demand. */
  function Charge(a: AllocatorState, fleet: seq<Node>, viable: seq<nat>, req: Requirements): (o: Outcome)
    requires viable != [] && forall j :: 0 <= j < |viable| ==> viable[j] < |fleet|
    ensures |o.fleet| == |fleet| && o.node.Some? && o.node.value < |fleet|
  {
    var n := Select(a, fleet, viable, req.priority);
    var next := if a.strategy == RoundRobin then (a.roundRobin + 1) % SIZE_LIMIT else a.roundRobin;
    Outcome(a.(roundRobin := next), fleet[n := fleet[n].Reserve(req.demand)], Some(n),
      ReportedScore(a, fleet[n], req.priority))
  }

  /** One pass of a strategy over the fleet. */
  function Attempt(a: AllocatorState, fleet: seq<Node>, req: Requirements): (o: Outcome)
    ensures |o.fleet| == |fleet|
    ensures o.node.Some? ==> o.node.value < |fleet|
  {
    var viable := Viable(fleet, req.demand);
    if viable == [] then Outcome(a, fleet, None, 0.0) else Charge(a, fleet, viable, req)
  }

  /** A request is counted before its first attempt, its result after the last. */
  function Requested(a: AllocatorState): AllocatorState {
    a.(total := a.total + 1)
  }

  function Concluded(o: Outcome): Outcome {
    var a := o.allocator;
    o.(allocator := if o.node.Some? then a.(succeeded := a.succeeded + 1) else a.(failed := a.failed + 1))
  }

  function Allocate(a: AllocatorState, fleet: seq<Node>, req: Requirements): Outcome {
    Concluded(Attempt(Requested(a), fleet, req))
  }

  // ---- What the caller must bring for the scans to find a node ----

  function Sentinel(strategy: AllocationStrategy, priority: Priority): real {
    if strategy == PriorityRouting && IsHigh(priority) then INT64_MAX else DBL_MAX
  }

  ghost predicate Selectable(a: AllocatorState, fleet: seq<Node>, priority: Priority) {
    a.strategy != RoundRobin ==>
      forall i :: 0 <= i < |fleet| ==> 
        SelectKey(a.strategy, a.weights, fleet[i], priority) < Sentinel(a.strategy, priority)
  }

  /** Within capacity, with magnitudes the source's number types can tell from the sentinels. */
  ghost predicate Sound(fleet: seq<Node>) {
    forall i :: 0 <= i < |fleet| ==>
      && fleet[i].Within()
      && fleet[i].capacity.cpu < DBL_MAX
      && fleet[i].latency as real < INT64_MAX
      && |fleet[i].queue| as real < DBL_MAX
  }

  lemma WeighedMore(w: real, x: real, y: real)
    requires w >= 0.0 && x >= y
    ensures w * x >= w * y
  {
  }

  lemma SumMonotone(cpu: real, cpu': real, ram: real, ram': real, bandwidth: real, bandwidth': real, latency: real,
      latency': real, queue: real, queue': real, priority: real)
    requires cpu >= cpu' && ram >= ram' && bandwidth >= bandwidth' && latency >= latency' && queue >= queue'
    ensures cpu + ram + bandwidth + latency + queue + priority
      >= cpu' + ram' + bandwidth' + latency' + queue' + priority
  {
  }

  /** Non-negative weights make the weighted sum monotone. */
  lemma WeighMonotone(w: Weights, t: Terms, u: Terms, priority: real)
    requires w.NonNegative()
    requires t.cpu >= u.cpu && t.ram >= u.ram && t.bandwidth >= u.bandwidth && t.latency >= u.latency
      && t.queue >= u.queue
    ensures Weigh(w, t, priority) >= Weigh(w, u, priority)
  {
    WeighedMore(w.cpu, t.cpu, u.cpu);
    WeighedMore(w.ram, t.ram, u.ram);
    WeighedMore(w.bandwidth, t.bandwidth, u.bandwidth);
    WeighedMore(w.latency, t.latency, u.latency);
    WeighedMore(w.queue, t.queue, u.queue);
    SumMonotone(w.cpu * t.cpu, w.cpu * u.cpu, w.ram * t.ram, w.ram * u.ram, w.bandwidth * t.bandwidth,
      w.bandwidth * u.bandwidth, w.latency * t.latency, w.latency * u.latency, w.queue * t.queue, w.queue * u.queue,
      w.priority * priority);
  }

  lemma ScoreNonNegative(w: Weights, n: Node, priority: Priority)
    requires w.NonNegative()
    ensures Score(w, n, priority) >= 0.0
  {
    WeighMonotone(w, TermsOf(n), Terms(0.0, 0.0, 0.0, 0.0, 0.0), PriorityScore(priority));
    WeighedMore(w.priority, PriorityScore(priority), 0.0);
  }

  /** On a sound fleet no scan ends with its sentinel, so the chosen node is never null. */
  lemma SoundIsSelectable(a: AllocatorState, fleet: seq<Node>, priority: Priority)
    requires Sound(fleet) && (a.strategy == MultiConstraint ==> a.weights.NonNegative())
    ensures Selectable(a, fleet, priority)
  {
    forall i | 0 <= i < |fleet| && a.strategy != RoundRobin
      ensures SelectKey(a.strategy, a.weights, fleet[i], priority) < Sentinel(a.strategy, priority)
    {
      if a.strategy == MultiConstraint {
        ScoreNonNegative(a.weights, fleet[i], priority);
      }
    }
  }

  // ---- What an attempt promises ----

  ghost predicate SomeNodeFits(fleet: seq<Node>, d: Vec) {
    exists i :: 0 <= i < |fleet| && fleet[i].CanAllocate(d)
  }

  lemma {:induction false} AttemptSucceedsIffFits(a: AllocatorState, fleet: seq<Node>, req: Requirements)
    ensures Attempt(a, fleet, req).node.Some? <==> SomeNodeFits(fleet, req.demand)
    ensures Attempt(a, fleet, req).node.None? ==>
      Attempt(a, fleet, req).allocator == a && Attempt(a, fleet, req).fleet == fleet
  {
    var v := Viable(fleet, req.demand);
    if v == [] {
      forall i | 0 <= i < |fleet| ensures !fleet[i].CanAllocate(req.demand) {
        assert i !in v;
      }
    } else {
      assert v[0] in v;
    }
  }

  /**
   An attempt succeeds exactly when some node fits. It charges one fitting node the demand and touches no other;
   a scanning strategy takes the least key, and the lowest edge id among equals.
   */
  lemma AttemptCharges(a: AllocatorState, fleet: seq<Node>, req: Requirements)
    ensures var o := Attempt(a, fleet, req);
      && (o.node.Some? <==> SomeNodeFits(fleet, req.demand))
      && (o.node.None? ==> o.fleet == fleet && o.allocator == a)
      && (o.node.Some? ==>
          var n := o.node.value;
          && fleet[n].CanAllocate(req.demand)
          && o.fleet[n].usage == fleet[n].usage.Plus(req.demand)
          && o.fleet[n].queue == fleet[n].queue
          && (forall i :: 0 <= i < |fleet| && i != n ==> o.fleet[i] == fleet[i]))
    ensures var o := Attempt(a, fleet, req);
      o.node.Some? && a.strategy != RoundRobin ==>
        forall i :: 0 <= i < |fleet| && fleet[i].CanAllocate(req.demand) && i != o.node.value ==>
          var k, chosen := SelectKey(a.strategy, a.weights, fleet[i], req.priority),
                           SelectKey(a.strategy, a.weights, fleet[o.node.value], req.priority);
          chosen < k || (chosen == k && o.node.value < i)
  {
    AttemptSucceedsIffFits(a, fleet, req);
    var v := Viable(fleet, req.demand);
    if v != [] {
      if a.strategy != RoundRobin {
        var b := FirstLeast<nat>(v, KeyAt(a.strategy, a.weights, fleet, req.priority));
        forall i | 0 <= i < |fleet| && fleet[i].CanAllocate(req.demand) && i != v[b]
          ensures var k, chosen := SelectKey(a.strategy, a.weights, fleet[i], req.priority),
                                   SelectKey(a.strategy, a.weights, fleet[v[b]], req.priority);
                  chosen < k || (chosen == k && v[b] < i)
        {
          assert i in v;
          var j :| 0 <= j < |v| && v[j] == i;
          var key := KeyAt(a.strategy, a.weights, fleet, req.priority);
          assert key(v[b]) <= key(v[j]);
        }
      }
    }
  }

  /** Never overcommits: a sound fleet stays sound. */
  lemma AttemptKeepsSound(a: AllocatorState, fleet: seq<Node>, req: Requirements)
    requires Sound(fleet) && ZERO.AtMost(req.demand)
    ensures Sound(Attempt(a, fleet, req).fleet)
  {
    AttemptCharges(a, fleet, req);
  }
}
