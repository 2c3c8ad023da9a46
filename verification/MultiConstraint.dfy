/** The multi-constraint strategy's choice (resource_allocator.cpp). */
module MultiConstraintChoice {
  import opened Tasks
  import opened Selection
  import opened EdgeNodes
  import opened Allocation

  /** With the default weights every node state scores between 2.65 and 100. */
  lemma DefaultScoreRange(n: Node, priority: Priority)
    ensures 2.65 <= Score(DEFAULT_WEIGHTS, n, priority) <= 100.0
  {
  }

  const ANY_TASK := TaskData(0, Requirements(ZERO, 0, Low), 0.0)
  const UNIT := Vec(1.0, 1.0, 1.0)

  lemma WorstNode() returns (n: Node)
    ensures n.Within() && Score(DEFAULT_WEIGHTS, n, Low) == 2.65
  {
    n := Node(UNIT, 100, UNIT, true, seq(100, _ => ANY_TASK), 0);
    assert QueueScore(100) == 0.0 && LatencyScore(100) == 0.01 && Share(0.0, 1.0) == 0.0;
    assert TermsOf(n) == Terms(0.0, 0.0, 0.0, 0.01, 0.0);
  }

  lemma BestNode() returns (n: Node)
    ensures n.Within() && Score(DEFAULT_WEIGHTS, n, Critical) == 100.0
  {
    n := Node(UNIT, 0, ZERO, true, [], 0);
    assert QueueScore(0) == 1.0 && LatencyScore(0) == 1.0 && Share(1.0, 1.0) == 1.0;
    assert TermsOf(n) == Terms(1.0, 1.0, 1.0, 1.0, 1.0);
  }

  /** Both ends of that range are reached. */
  lemma DefaultScoreRangeIsTight()
    ensures exists n: Node :: n.Within() && Score(DEFAULT_WEIGHTS, n, Low) == 2.65
    ensures exists n: Node :: n.Within() && Score(DEFAULT_WEIGHTS, n, Critical) == 100.0
  {
    var worst := WorstNode();
    var best := BestNode();
  }

  /** At least as good in every scored dimension. */
  predicate AtLeastAsGood(x: Node, y: Node) {
    && x.capacity.cpu > 0.0 && x.capacity.ram > 0.0 && x.capacity.bandwidth > 0.0
    && y.capacity.cpu > 0.0 && y.capacity.ram > 0.0 && y.capacity.bandwidth > 0.0
    && (x.capacity.cpu - x.usage.cpu) / x.capacity.cpu >= (y.capacity.cpu - y.usage.cpu) / y.capacity.cpu
    && (x.capacity.ram - x.usage.ram) / x.capacity.ram >= (y.capacity.ram - y.usage.ram) / y.capacity.ram
    && (x.capacity.bandwidth - x.usage.bandwidth) / x.capacity.bandwidth
      >= (y.capacity.bandwidth - y.usage.bandwidth) / y.capacity.bandwidth
    && x.latency <= y.latency
    && |x.queue| <= |y.queue|
  }

  lemma MoreFreeShare(free: real, capacity: real, free': real, capacity': real)
    requires capacity > 0.0 && capacity' > 0.0 && free / capacity >= free' / capacity'
    ensures Share(free, capacity) >= Share(free', capacity')
  {
  }

  lemma DominatingScore(w: Weights, x: Node, y: Node, priority: Priority)
    requires w.NonNegative() && AtLeastAsGood(x, y)
    ensures Score(w, x, priority) >= Score(w, y, priority)
  {
    MoreFreeShare(x.capacity.cpu - x.usage.cpu, x.capacity.cpu, y.capacity.cpu - y.usage.cpu, y.capacity.cpu);
    MoreFreeShare(x.capacity.ram - x.usage.ram, x.capacity.ram, y.capacity.ram - y.usage.ram, y.capacity.ram);
    MoreFreeShare(x.capacity.bandwidth - x.usage.bandwidth, x.capacity.bandwidth,
      y.capacity.bandwidth - y.usage.bandwidth, y.capacity.bandwidth);
    WeighMonotone(w, TermsOf(x), TermsOf(y), PriorityScore(priority));
  }

  /**
   A fitting node that is at least as good in every dimension loses only an exact tie, and only to a lower edge id.
   */
  lemma DominantLosesOnlyTies(a: AllocatorState, fleet: seq<Node>, req: Requirements, x: nat)
    requires a.strategy == MultiConstraint && a.weights.NonNegative()
    requires x < |fleet| && fleet[x].CanAllocate(req.demand)
    ensures var o := Attempt(a, fleet, req);
      && o.node.Some?
      && (o.node.value != x && AtLeastAsGood(fleet[x], fleet[o.node.value]) ==>
          o.node.value < x && Score(a.weights, fleet[o.node.value], req.priority)
            == Score(a.weights, fleet[x], req.priority))
  {
    AttemptCharges(a, fleet, req);
    var n := Attempt(a, fleet, req).node.value;
    if n != x && AtLeastAsGood(fleet[x], fleet[n]) {
      DominatingScore(a.weights, fleet[x], fleet[n], req.priority);
    }
  }

  lemma CommonOffset(x: real, y: real, o: real, o': real)
    ensures x + o < y + o <==> x + o' < y + o'
  {
  }

  lemma PriorityIsACommonOffset(w: Weights, t: Terms, u: Terms, p: real, p': real)
    ensures Weigh(w, t, p) < Weigh(w, u, p) <==> Weigh(w, t, p') < Weigh(w, u, p')
  {
    CommonOffset(w.cpu * t.cpu + w.ram * t.ram + w.bandwidth * t.bandwidth + w.latency * t.latency + w.queue * t.queue,
      w.cpu * u.cpu + w.ram * u.ram + w.bandwidth * u.bandwidth + w.latency * u.latency + w.queue * u.queue,
      w.priority * p, w.priority * p');
  }

  /** Two tasks that differ only in priority, for any fleet and any weights, go to the same node. */
  lemma PriorityDoesNotMoveTheChoice(a: AllocatorState, fleet: seq<Node>, req: Requirements, priority: Priority)
    requires a.strategy == MultiConstraint
    ensures Attempt(a, fleet, req.(priority := priority)).node == Attempt(a, fleet, req).node
  {
    var v := Viable(fleet, req.demand);
    if v != [] {
      var key, key' := KeyAt(a.strategy, a.weights, fleet, req.priority), KeyAt(a.strategy, a.weights, fleet, priority);
      forall i, j | 0 <= i < |v| && 0 <= j < |v| ensures key(v[i]) < key(v[j]) <==> key'(v[i]) < key'(v[j]) {
        assert v[i] in v && v[j] in v;
        PriorityIsACommonOffset(a.weights, TermsOf(fleet[v[j]]), TermsOf(fleet[v[i]]), PriorityScore(req.priority),
          PriorityScore(priority));
      }
      SameOrderSamePick<nat>(v, key, key');
    }
  }

  lemma ScalingKeepsOrder(c: real, x: real, y: real)
    requires c > 0.0
    ensures c * x < c * y <==> x < y
  {
  }

  lemma ScaledSums(c: real, x1: real, x2: real, x3: real, x4: real, x5: real, x6: real,
    y1: real, y2: real, y3: real, y4: real, y5: real, y6: real)
    requires c > 0.0
    ensures c * x1 + c * x2 + c * x3 + c * x4 + c * x5 + c * x6 < c * y1 + c * y2 + c * y3 + c * y4 + c * y5 + c * y6
        <==> x1 + x2 + x3 + x4 + x5 + x6 < y1 + y2 + y3 + y4 + y5 + y6
  {
    ScalingKeepsOrder(c, x1 + x2 + x3 + x4 + x5 + x6, y1 + y2 + y3 + y4 + y5 + y6);
  }

  lemma ScaledProduct(c: real, x: real, y: real)
    ensures (c * x) * y == c * (x * y)
  {
  }

  lemma ScaledWeigh(w: Weights, c: real, t: Terms, p: real)
    ensures Weigh(w.Scale(c), t, p) == c * (w.cpu * t.cpu) + c * (w.ram * t.ram) + c * (w.bandwidth * t.bandwidth)
      + c * (w.latency * t.latency) + c * (w.queue * t.queue) + c * (w.priority * p)
  {
    ScaledProduct(c, w.cpu, t.cpu);
    ScaledProduct(c, w.ram, t.ram);
    ScaledProduct(c, w.bandwidth, t.bandwidth);
    ScaledProduct(c, w.latency, t.latency);
    ScaledProduct(c, w.queue, t.queue);
    ScaledProduct(c, w.priority, p);
  }

  lemma ScaledWeighOrder(w: Weights, c: real, t: Terms, u: Terms, p: real)
    requires c > 0.0
    ensures Weigh(w.Scale(c), t, p) < Weigh(w.Scale(c), u, p) <==> Weigh(w, t, p) < Weigh(w, u, p)
  {
    ScaledWeigh(w, c, t, p);
    ScaledWeigh(w, c, u, p);
    ScaledSums(c,
      w.cpu * t.cpu, w.ram * t.ram, w.bandwidth * t.bandwidth, w.latency * t.latency, w.queue * t.queue,
      w.priority * p,
      w.cpu * u.cpu, w.ram * u.ram, w.bandwidth * u.bandwidth, w.latency * u.latency, w.queue * u.queue,
      w.priority * p);
  }

  /** Scaling all weights by one positive factor leaves the choice unchanged. */
  lemma ScalingDoesNotMoveTheChoice(a: AllocatorState, fleet: seq<Node>, req: Requirements, c: real)
    requires a.strategy == MultiConstraint && c > 0.0
    ensures Attempt(a.(weights := a.weights.Scale(c)), fleet, req).node == Attempt(a, fleet, req).node
  {
    var v, a' := Viable(fleet, req.demand), a.(weights := a.weights.Scale(c));
    if v != [] {
      var key, key' := KeyAt(a.strategy, a.weights, fleet, req.priority),
        KeyAt(a'.strategy, a'.weights, fleet, req.priority);
      forall i, j | 0 <= i < |v| && 0 <= j < |v| ensures key(v[i]) < key(v[j]) <==> key'(v[i]) < key'(v[j]) {
        assert v[i] in v && v[j] in v;
        ScaledWeighOrder(a.weights, c, TermsOf(fleet[v[j]]), TermsOf(fleet[v[i]]), PriorityScore(req.priority));
      }
      SameOrderSamePick<nat>(v, key, key');
    }
  }
}
