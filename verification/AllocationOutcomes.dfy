/** What an attempt chooses and reports, in terms of the nodes' fields alone (resource_allocator.cpp). */
module AllocationOutcomes {
  import opened Tasks
  import opened EdgeNodes
  import opened Allocation

  // ---- What a node loses from full marks ----

  /** The part of each weight that is lost. */
  datatype Lost = Lost(cpu: real, ram: real, bandwidth: real, latency: real, queue: real, priority: real)

  /** The part of a capacity in use; a node without the resource has all of it in use. */
  function UsedShare(used: real, capacity: real): real {
    if capacity <= 0.0 || used >= capacity then 1.0 else if used <= 0.0 then 0.0 else used / capacity
  }

  /** A hundredth per millisecond, up to 99. */
  function LostToLatency(latency: int): real {
    if latency <= 0 then 0.0 else if latency >= 99 then 0.99 else latency as real / 100.0
  }

  /** A hundredth per queued task, up to 100. */
  function LostToQueue(length: nat): real {
    if length >= 100 then 1.0 else length as real / 100.0
  }

  /** A quarter per priority level below CRITICAL. */
  function LostToPriority(priority: Priority): real {
    match priority
    case Low => 0.75
    case Medium => 0.5
    case High => 0.25
    case Critical => 0.0
  }

  function LostBy(n: Node, priority: Priority): Lost {
    Lost(UsedShare(n.usage.cpu, n.capacity.cpu), UsedShare(n.usage.ram, n.capacity.ram),
      UsedShare(n.usage.bandwidth, n.capacity.bandwidth), LostToLatency(n.latency), LostToQueue(|n.queue|),
      LostToPriority(priority))
  }

  /** A hundred points per unit of weight, less what is lost. */
  function Points(w: Weights, lost: Lost): real {
    100.0 * w.cpu - 100.0 * (w.cpu * lost.cpu) + 100.0 * w.ram - 100.0 * (w.ram * lost.ram)
      + 100.0 * w.bandwidth - 100.0 * (w.bandwidth * lost.bandwidth)
      + 100.0 * w.latency - 100.0 * (w.latency * lost.latency)
      + 100.0 * w.queue - 100.0 * (w.queue * lost.queue)
      + 100.0 * w.priority - 100.0 * (w.priority * lost.priority)
  }

  // ---- The score is those points ----

  lemma QuotientOfDifference(used: real, capacity: real)
    requires capacity > 0.0
    ensures (capacity - used) / capacity == 1.0 - used / capacity
    ensures used <= 0.0 <==> used / capacity <= 0.0
    ensures used >= capacity <==> used / capacity >= 1.0
  {
    QuotientsOf(used, capacity, used / capacity);
  }

  lemma SignOfProduct(x: real, capacity: real)
    requires capacity > 0.0
    ensures x * capacity > 0.0 <==> x > 0.0
    ensures x * capacity < 0.0 <==> x < 0.0
  {
  }

  lemma RestOfProduct(x: real, capacity: real)
    requires capacity > 0.0
    ensures (1.0 - x) * capacity == capacity - x * capacity
    ensures (capacity - x * capacity) / capacity == 1.0 - x
  {
    QuotientOf(capacity - x * capacity, 1.0 - x, capacity);
  }

  lemma QuotientOf(a: real, q: real, n: real)
    requires n > 0.0 && a == q * n
    ensures a / n == q
  {
  }

  lemma QuotientsOf(used: real, capacity: real, x: real)
    requires capacity > 0.0 && used == x * capacity
    ensures (capacity - used) / capacity == 1.0 - x
    ensures (used <= 0.0 <==> x <= 0.0) && (used >= capacity <==> x >= 1.0)
  {
    RestOfProduct(x, capacity);
    SignOfProduct(x, capacity);
    SignOfProduct(1.0 - x, capacity);
  }

  lemma FreeIsNotUsed(used: real, capacity: real)
    ensures Share(capacity - used, capacity) == 1.0 - UsedShare(used, capacity)
  {
    if capacity > 0.0 {
      QuotientOfDifference(used, capacity);
    }
  }

  lemma TermsAreTheRest(n: Node, priority: Priority)
    ensures TermsOf(n).cpu == 1.0 - LostBy(n, priority).cpu && TermsOf(n).ram == 1.0 - LostBy(n, priority).ram
    ensures TermsOf(n).bandwidth == 1.0 - LostBy(n, priority).bandwidth
    ensures TermsOf(n).latency == 1.0 - LostBy(n, priority).latency
    ensures TermsOf(n).queue == 1.0 - LostBy(n, priority).queue
    ensures PriorityScore(priority) == 1.0 - LostBy(n, priority).priority
  {
    FreeIsNotUsed(n.usage.cpu, n.capacity.cpu);
    FreeIsNotUsed(n.usage.ram, n.capacity.ram);
    FreeIsNotUsed(n.usage.bandwidth, n.capacity.bandwidth);
  }

  lemma WeightedRest(w: real, x: real, y: real)
    requires y == 1.0 - x
    ensures w * y == w - w * x
  {
  }

  lemma HundredfoldSum(c: real, r: real, b: real, l: real, q: real, p: real)
    ensures (c + r + b + l + q + p) * 100.0 == 100.0 * c + 100.0 * r + 100.0 * b + 100.0 * l + 100.0 * q + 100.0 * p
  {
  }

  lemma WeighedRest(w: Weights, t: Terms, p: real, lost: Lost)
    requires t.cpu == 1.0 - lost.cpu && t.ram == 1.0 - lost.ram && t.bandwidth == 1.0 - lost.bandwidth
    requires t.latency == 1.0 - lost.latency && t.queue == 1.0 - lost.queue && p == 1.0 - lost.priority
    ensures Weigh(w, t, p) * 100.0 == Points(w, lost)
  {
    WeightedRest(w.cpu, lost.cpu, t.cpu);
    WeightedRest(w.ram, lost.ram, t.ram);
    WeightedRest(w.bandwidth, lost.bandwidth, t.bandwidth);
    WeightedRest(w.latency, lost.latency, t.latency);
    WeightedRest(w.queue, lost.queue, t.queue);
    WeightedRest(w.priority, lost.priority, p);
    HundredfoldSum(w.cpu * t.cpu, w.ram * t.ram, w.bandwidth * t.bandwidth, w.latency * t.latency, w.queue * t.queue,
      w.priority * p);
  }

  lemma ScoreIsPoints(w: Weights, n: Node, priority: Priority)
    ensures Score(w, n, priority) == Points(w, LostBy(n, priority))
  {
    TermsAreTheRest(n, priority);
    WeighedRest(w, TermsOf(n), PriorityScore(priority), LostBy(n, priority));
  }

  /** A multi-constraint attempt on this fleet charges node n and reports this score. */
  ghost predicate Reports(a: AllocatorState, fleet: seq<Node>, req: Requirements, n: Node, score: real) {
    var o := Attempt(a, fleet, req);
    a.strategy == MultiConstraint && o.node.Some? && n == fleet[o.node.value] && score == o.score
  }

  /** The reported score of any node whatever: full marks less what its use, delay and the task's priority cost. */
  lemma ReportedScoreIsPoints(a: AllocatorState, fleet: seq<Node>, req: Requirements, n: Node, score: real)
    requires Reports(a, fleet, req, n, score)
    ensures score == Points(a.weights, LostBy(n, req.priority))
  {
    ScoreIsPoints(a.weights, n, req.priority);
  }

  lemma ScoreBelow(a: AllocatorState, fleet: seq<Node>, req: Requirements, n: Node, score: real, points: real,
      cost: real)
    requires Reports(a, fleet, req, n, score) && points == Points(a.weights, LostBy(n, req.priority)) - cost
    ensures points == score - cost
  {
    ReportedScoreIsPoints(a, fleet, req, n, score);
  }

  /** Where one node has fewer points than another, by cost, its reported score is as much lower. */
  lemma ScoreFollowsPoints(a: AllocatorState, fleet: seq<Node>, fleet': seq<Node>, req: Requirements,
      req': Requirements, n: Node, n': Node, score: real, score': real, cost: real)
    requires Reports(a, fleet, req, n, score) && Reports(a, fleet', req', n', score')
    requires Points(a.weights, LostBy(n', req'.priority)) == Points(a.weights, LostBy(n, req.priority)) - cost
    ensures score' == score - cost
  {
    var points := Points(a.weights, LostBy(n', req'.priority));
    ScoreBelow(a, fleet, req, n, score, points, cost);
    ScoreBelow(a, fleet', req', n', score', points, 0.0);
  }

  // ---- What each field costs ----

  lemma LosingMore(w: real, x: real, y: real)
    ensures w * (x + y) == w * x + w * y
  {
  }

  lemma QuotientOfSum(w: real, used: real, x: real, capacity: real)
    requires capacity > 0.0
    ensures (used + x) / capacity == used / capacity + x / capacity
    ensures 100.0 * (w * (x / capacity)) == 100.0 * w * x / capacity
  {
  }

  lemma MoreUsed(w: real, used: real, x: real, capacity: real)
    requires capacity > 0.0 && 0.0 <= used <= capacity && 0.0 <= used + x <= capacity
    ensures UsedShare(used + x, capacity) == UsedShare(used, capacity) + x / capacity
    ensures 100.0 * (w * (x / capacity)) == 100.0 * w * x / capacity
  {
    QuotientOfDifference(used, capacity);
    QuotientOfDifference(used + x, capacity);
    QuotientOfSum(w, used, x, capacity);
  }

  lemma CpuPoints(w: Weights, lost: Lost, y: real, cost: real)
    requires cost == 100.0 * (w.cpu * y)
    ensures Points(w, lost.(cpu := lost.cpu + y)) == Points(w, lost) - cost
  {
    LosingMore(w.cpu, lost.cpu, y);
  }

  lemma RamPoints(w: Weights, lost: Lost, y: real, cost: real)
    requires cost == 100.0 * (w.ram * y)
    ensures Points(w, lost.(ram := lost.ram + y)) == Points(w, lost) - cost
  {
    LosingMore(w.ram, lost.ram, y);
  }

  lemma BandwidthPoints(w: Weights, lost: Lost, y: real, cost: real)
    requires cost == 100.0 * (w.bandwidth * y)
    ensures Points(w, lost.(bandwidth := lost.bandwidth + y)) == Points(w, lost) - cost
  {
    LosingMore(w.bandwidth, lost.bandwidth, y);
  }

  lemma LatencyPoints(w: Weights, lost: Lost, y: real, cost: real)
    requires cost == 100.0 * (w.latency * y)
    ensures Points(w, lost.(latency := lost.latency + y)) == Points(w, lost) - cost
  {
    LosingMore(w.latency, lost.latency, y);
  }

  lemma QueuePoints(w: Weights, lost: Lost, y: real, cost: real)
    requires cost == 100.0 * (w.queue * y)
    ensures Points(w, lost.(queue := lost.queue + y)) == Points(w, lost) - cost
  {
    LosingMore(w.queue, lost.queue, y);
  }

  lemma PriorityPoints(w: Weights, lost: Lost, y: real, cost: real)
    requires cost == 100.0 * (w.priority * y)
    ensures Points(w, lost.(priority := lost.priority + y)) == Points(w, lost) - cost
  {
    LosingMore(w.priority, lost.priority, y);
  }

  lemma ScoreAfterCpu(w: Weights, n: Node, n': Node, priority: Priority, x: real)
    requires n' == n.(usage := n.usage.(cpu := n.usage.cpu + x))
    requires n.capacity.cpu > 0.0 && 0.0 <= n.usage.cpu <= n.capacity.cpu && 0.0 <= n.usage.cpu + x <= n.capacity.cpu
    ensures Points(w, LostBy(n', priority)) == Points(w, LostBy(n, priority)) - 100.0 * w.cpu * x / n.capacity.cpu
  {
    MoreUsed(w.cpu, n.usage.cpu, x, n.capacity.cpu);
    CpuPoints(w, LostBy(n, priority), x / n.capacity.cpu, 100.0 * w.cpu * x / n.capacity.cpu);
  }

  lemma ScoreAfterRam(w: Weights, n: Node, n': Node, priority: Priority, x: real)
    requires n' == n.(usage := n.usage.(ram := n.usage.ram + x))
    requires n.capacity.ram > 0.0 && 0.0 <= n.usage.ram <= n.capacity.ram && 0.0 <= n.usage.ram + x <= n.capacity.ram
    ensures Points(w, LostBy(n', priority)) == Points(w, LostBy(n, priority)) - 100.0 * w.ram * x / n.capacity.ram
  {
    MoreUsed(w.ram, n.usage.ram, x, n.capacity.ram);
    RamPoints(w, LostBy(n, priority), x / n.capacity.ram, 100.0 * w.ram * x / n.capacity.ram);
  }

  lemma ScoreAfterBandwidth(w: Weights, n: Node, n': Node, priority: Priority, x: real)
    requires n' == n.(usage := n.usage.(bandwidth := n.usage.bandwidth + x)) && n.capacity.bandwidth > 0.0
    requires 0.0 <= n.usage.bandwidth <= n.capacity.bandwidth && 0.0 <= n.usage.bandwidth + x <= n.capacity.bandwidth
    ensures Points(w, LostBy(n', priority))
      == Points(w, LostBy(n, priority)) - 100.0 * w.bandwidth * x / n.capacity.bandwidth
  {
    MoreUsed(w.bandwidth, n.usage.bandwidth, x, n.capacity.bandwidth);
    BandwidthPoints(w, LostBy(n, priority), x / n.capacity.bandwidth, 100.0 * w.bandwidth * x / n.capacity.bandwidth);
  }

  /** Raising only the CPU in use by x lowers the reported score by the CPU weight's share of it. */
  lemma CpuUseCosts(a: AllocatorState, fleet: seq<Node>, fleet': seq<Node>, req: Requirements, n: Node, n': Node,
      score: real, score': real, x: real)
    requires Reports(a, fleet, req, n, score) && Reports(a, fleet', req, n', score')
    requires n' == n.(usage := n.usage.(cpu := n.usage.cpu + x))
    requires n.capacity.cpu > 0.0 && 0.0 <= n.usage.cpu <= n.capacity.cpu && 0.0 <= n.usage.cpu + x <= n.capacity.cpu
    ensures score' == score - 100.0 * a.weights.cpu * x / n.capacity.cpu
  {
    ScoreAfterCpu(a.weights, n, n', req.priority, x);
    ScoreFollowsPoints(a, fleet, fleet', req, req, n, n', score, score', 100.0 * a.weights.cpu * x / n.capacity.cpu);
  }

  /** The same for RAM, by the RAM weight. */
  lemma RamUseCosts(a: AllocatorState, fleet: seq<Node>, fleet': seq<Node>, req: Requirements, n: Node, n': Node,
      score: real, score': real, x: real)
    requires Reports(a, fleet, req, n, score) && Reports(a, fleet', req, n', score')
    requires n' == n.(usage := n.usage.(ram := n.usage.ram + x))
    requires n.capacity.ram > 0.0 && 0.0 <= n.usage.ram <= n.capacity.ram && 0.0 <= n.usage.ram + x <= n.capacity.ram
    ensures score' == score - 100.0 * a.weights.ram * x / n.capacity.ram
  {
    ScoreAfterRam(a.weights, n, n', req.priority, x);
    ScoreFollowsPoints(a, fleet, fleet', req, req, n, n', score, score', 100.0 * a.weights.ram * x / n.capacity.ram);
  }

  /** The same for bandwidth, by the bandwidth weight. */
  lemma BandwidthUseCosts(a: AllocatorState, fleet: seq<Node>, fleet': seq<Node>, req: Requirements, n: Node, n': Node,
      score: real, score': real, x: real)
    requires Reports(a, fleet, req, n, score) && Reports(a, fleet', req, n', score')
    requires n' == n.(usage := n.usage.(bandwidth := n.usage.bandwidth + x)) && n.capacity.bandwidth > 0.0
    requires 0.0 <= n.usage.bandwidth <= n.capacity.bandwidth && 0.0 <= n.usage.bandwidth + x <= n.capacity.bandwidth
    ensures score' == score - 100.0 * a.weights.bandwidth * x / n.capacity.bandwidth
  {
    ScoreAfterBandwidth(a.weights, n, n', req.priority, x);
    ScoreFollowsPoints(a, fleet, fleet', req, req, n, n', score, score',
      100.0 * a.weights.bandwidth * x / n.capacity.bandwidth);
  }

  lemma Hundredth(w: real, k: int)
    ensures 100.0 * (w * (k as real / 100.0)) == w * k as real
  {
  }

  lemma ScoreAfterLatency(w: Weights, n: Node, n': Node, priority: Priority)
    requires n' == n.(latency := n'.latency)
    ensures 0 <= n.latency <= n'.latency <= 99 ==>
      Points(w, LostBy(n', priority)) == Points(w, LostBy(n, priority)) - w.latency * (n'.latency - n.latency) as real
    ensures 99 <= n.latency <= n'.latency || n.latency <= n'.latency <= 0 ==>
      Points(w, LostBy(n', priority)) == Points(w, LostBy(n, priority))
  {
    var k := n'.latency - n.latency;
    Hundredth(w.latency, k);
    LatencyPoints(w, LostBy(n, priority), k as real / 100.0, w.latency * k as real);
    if 0 <= n.latency <= n'.latency <= 99 {
      assert LostBy(n', priority)
        == LostBy(n, priority).(latency := LostBy(n, priority).latency + k as real / 100.0);
    } else if 99 <= n.latency <= n'.latency || n.latency <= n'.latency <= 0 {
      assert LostBy(n', priority) == LostBy(n, priority);
    }
  }

  lemma ScoreAfterQueue(w: Weights, n: Node, n': Node, priority: Priority)
    requires n' == n.(queue := n'.queue)
    ensures |n.queue| <= |n'.queue| <= 100 ==>
      Points(w, LostBy(n', priority)) == Points(w, LostBy(n, priority)) - w.queue * (|n'.queue| - |n.queue|) as real
    ensures 100 <= |n.queue| <= |n'.queue| ==> Points(w, LostBy(n', priority)) == Points(w, LostBy(n, priority))
  {
    var k := |n'.queue| - |n.queue|;
    Hundredth(w.queue, k);
    QueuePoints(w, LostBy(n, priority), k as real / 100.0, w.queue * k as real);
    if |n.queue| <= |n'.queue| <= 100 {
      assert LostBy(n', priority) == LostBy(n, priority).(queue := LostBy(n, priority).queue + k as real / 100.0);
    } else if 100 <= |n.queue| <= |n'.queue| {
      assert LostBy(n', priority) == LostBy(n, priority);
    }
  }

  /** Each millisecond of latency from 0 to 99 costs the latency weight; beyond either end none costs anything. */
  lemma LatencyCosts(a: AllocatorState, fleet: seq<Node>, fleet': seq<Node>, req: Requirements, n: Node, n': Node,
      score: real, score': real)
    requires Reports(a, fleet, req, n, score) && Reports(a, fleet', req, n', score')
    requires n' == n.(latency := n'.latency)
    ensures 0 <= n.latency <= n'.latency <= 99 ==>
      score' == score - a.weights.latency * (n'.latency - n.latency) as real
    ensures 99 <= n.latency <= n'.latency || n.latency <= n'.latency <= 0 ==> score' == score
  {
    ScoreAfterLatency(a.weights, n, n', req.priority);
    if 0 <= n.latency <= n'.latency <= 99 {
      ScoreFollowsPoints(a, fleet, fleet', req, req, n, n', score, score',
        a.weights.latency * (n'.latency - n.latency) as real);
    } else if 99 <= n.latency <= n'.latency || n.latency <= n'.latency <= 0 {
      ScoreFollowsPoints(a, fleet, fleet', req, req, n, n', score, score', 0.0);
    }
  }

  /** Each queued task from 0 to 100 costs the queue weight; more than 100 cost no more. */
  lemma QueueCosts(a: AllocatorState, fleet: seq<Node>, fleet': seq<Node>, req: Requirements, n: Node, n': Node,
      score: real, score': real)
    requires Reports(a, fleet, req, n, score) && Reports(a, fleet', req, n', score')
    requires n' == n.(queue := n'.queue)
    ensures |n.queue| <= |n'.queue| <= 100 ==> score' == score - a.weights.queue * (|n'.queue| - |n.queue|) as real
    ensures 100 <= |n.queue| <= |n'.queue| ==> score' == score
  {
    ScoreAfterQueue(a.weights, n, n', req.priority);
    if |n.queue| <= |n'.queue| <= 100 {
      ScoreFollowsPoints(a, fleet, fleet', req, req, n, n', score, score',
        a.weights.queue * (|n'.queue| - |n.queue|) as real);
    } else if 100 <= |n.queue| <= |n'.queue| {
      ScoreFollowsPoints(a, fleet, fleet', req, req, n, n', score, score', 0.0);
    }
  }

  /** The levels by which a task's priority falls short of CRITICAL. */
  function Levels(priority: Priority): nat {
    match priority
    case Critical => 0
    case High => 1
    case Medium => 2
    case Low => 3
  }

  lemma ScoreAfterPriority(w: Weights, n: Node, p: Priority, p': Priority, k: int, cost: real)
    requires k == Levels(p') - Levels(p) && cost == 25.0 * w.priority * k as real
    ensures Points(w, LostBy(n, p')) == Points(w, LostBy(n, p)) - cost
  {
    PriorityPoints(w, LostBy(n, p), k as real / 4.0, cost);
  }

  /** Each level of the task's priority below CRITICAL costs a quarter of the priority weight. */
  lemma PriorityCosts(a: AllocatorState, fleet: seq<Node>, fleet': seq<Node>, req: Requirements, req': Requirements,
      n: Node, score: real, score': real, k: int, cost: real)
    requires Reports(a, fleet, req, n, score) && Reports(a, fleet', req', n, score')
    requires k == Levels(req'.priority) - Levels(req.priority) && cost == 25.0 * a.weights.priority * k as real
    ensures score' == score - cost
  {
    ScoreAfterPriority(a.weights, n, req.priority, req'.priority, k, cost);
    ScoreFollowsPoints(a, fleet, fleet', req, req', n, n, score, score', cost);
  }

  /** What the default weights make of it. */
  lemma DefaultPoints(lost: Lost)
    ensures Points(DEFAULT_WEIGHTS, lost) == 100.0 - 25.0 * lost.cpu - 20.0 * lost.ram - 15.0 * lost.bandwidth
      - 15.0 * lost.latency - 15.0 * lost.queue - 10.0 * lost.priority
  {
  }

  // ---- Which node is chosen ----

  /** Node n with the smaller number goes before node i; equal numbers go by id. */
  predicate Before(x: real, n: nat, y: real, i: nat) {
    x < y || (x == y && n < i)
  }

  /** The multi-constraint choice has the most points, and the lowest id among equals. */
  lemma MostPointsAreChosen(a: AllocatorState, fleet: seq<Node>, req: Requirements, i: nat)
    requires a.strategy == MultiConstraint && i < |fleet| && fleet[i].CanAllocate(req.demand)
    ensures var o := Attempt(a, fleet, req);
      && o.node.Some?
      && var n := o.node.value;
         n != i ==> Before(-Points(a.weights, LostBy(fleet[n], req.priority)), n,
           -Points(a.weights, LostBy(fleet[i], req.priority)), i)
  {
    AttemptCharges(a, fleet, req);
    var n := Attempt(a, fleet, req).node.value;
    ScoreIsPoints(a.weights, fleet[n], req.priority);
    ScoreIsPoints(a.weights, fleet[i], req.priority);
  }

  /** x and y may differ in CPU and RAM and in nothing else that is scored. */
  predicate DifferInCpuAndRam(x: Node, y: Node) {
    && x.capacity.bandwidth == y.capacity.bandwidth && x.usage.bandwidth == y.usage.bandwidth
    && x.latency == y.latency && |x.queue| == |y.queue|
  }

  predicate HasCpuAndRam(n: Node) {
    n.Within() && n.capacity.cpu > 0.0 && n.capacity.ram > 0.0
  }

  function FreeCpuShare(n: Node): real
    requires n.capacity.cpu > 0.0
  {
    (n.capacity.cpu - n.usage.cpu) / n.capacity.cpu
  }

  function FreeRamShare(n: Node): real
    requires n.capacity.ram > 0.0
  {
    (n.capacity.ram - n.usage.ram) / n.capacity.ram
  }

  lemma LostOfFree(n: Node, priority: Priority)
    requires HasCpuAndRam(n)
    ensures FreeCpuShare(n) == 1.0 - LostBy(n, priority).cpu && FreeRamShare(n) == 1.0 - LostBy(n, priority).ram
  {
    QuotientOfDifference(n.usage.cpu, n.capacity.cpu);
    QuotientOfDifference(n.usage.ram, n.capacity.ram);
  }

  function OtherPoints(w: Weights, lost: Lost): real {
    100.0 * w.bandwidth - 100.0 * (w.bandwidth * lost.bandwidth)
      + 100.0 * w.latency - 100.0 * (w.latency * lost.latency)
      + 100.0 * w.queue - 100.0 * (w.queue * lost.queue)
      + 100.0 * w.priority - 100.0 * (w.priority * lost.priority)
  }

  lemma PointsOfShares(w: Weights, x: Lost, cpu: real, ram: real)
    requires cpu == 1.0 - x.cpu && ram == 1.0 - x.ram
    ensures Points(w, x) == 100.0 * (w.cpu * cpu) + 100.0 * (w.ram * ram) + OtherPoints(w, x)
  {
    WeightedRest(w.cpu, x.cpu, cpu);
    WeightedRest(w.ram, x.ram, ram);
  }

  /** With value the weighted sum of the two free shares. */
  lemma PointsOfValue(w: Weights, x: Lost, cpu: real, ram: real, value: real, other: real)
    requires cpu == 1.0 - x.cpu && ram == 1.0 - x.ram
    requires value == w.cpu * cpu + w.ram * ram && other == OtherPoints(w, x)
    ensures Points(w, x) == 100.0 * value + other
  {
    PointsOfShares(w, x, cpu, ram);
  }

  lemma SameOtherPoints(w: Weights, x: Node, y: Node, priority: Priority)
    requires DifferInCpuAndRam(x, y)
    ensures OtherPoints(w, LostBy(x, priority)) == OtherPoints(w, LostBy(y, priority))
  {
  }

  /** The weighted sum of a node's free CPU share and free RAM share. */
  function SharesValue(w: Weights, n: Node): real
    requires HasCpuAndRam(n)
  {
    w.cpu * FreeCpuShare(n) + w.ram * FreeRamShare(n)
  }

  lemma PointsOfNode(w: Weights, n: Node, priority: Priority)
    requires HasCpuAndRam(n)
    ensures Points(w, LostBy(n, priority)) == 100.0 * SharesValue(w, n) + OtherPoints(w, LostBy(n, priority))
  {
    LostOfFree(n, priority);
    PointsOfValue(w, LostBy(n, priority), FreeCpuShare(n), FreeRamShare(n), SharesValue(w, n),
      OtherPoints(w, LostBy(n, priority)));
  }

  lemma MoreByValue(x: real, y: real, value: real, value': real, other: real)
    requires x == 100.0 * value + other && y == 100.0 * value' + other && value > value'
    ensures x > y
  {
  }

  lemma MorePointsByShares(w: Weights, x: Node, y: Node, priority: Priority)
    requires HasCpuAndRam(x) && HasCpuAndRam(y) && DifferInCpuAndRam(x, y) && SharesValue(w, x) > SharesValue(w, y)
    ensures Points(w, LostBy(x, priority)) > Points(w, LostBy(y, priority))
  {
    PointsOfNode(w, x, priority);
    PointsOfNode(w, y, priority);
    SameOtherPoints(w, x, y, priority);
    MoreByValue(Points(w, LostBy(x, priority)), Points(w, LostBy(y, priority)), SharesValue(w, x), SharesValue(w, y),
      OtherPoints(w, LostBy(x, priority)));
  }

  lemma MorePointsAreChosen(a: AllocatorState, fleet: seq<Node>, req: Requirements, x: nat, y: nat)
    requires a.strategy == MultiConstraint && x < |fleet| && y < |fleet| && fleet[x].CanAllocate(req.demand)
    requires Points(a.weights, LostBy(fleet[x], req.priority)) > Points(a.weights, LostBy(fleet[y], req.priority))
    ensures Attempt(a, fleet, req).node.Some? && Attempt(a, fleet, req).node != Some(y)
  {
    MostPointsAreChosen(a, fleet, req, x);
  }

  /**
   Of two fitting nodes that differ only in CPU and RAM, the one with the larger weighted sum of free CPU share and free
   RAM share is preferred: the other is not chosen, and it is chosen itself when no third node fits.
   */
  lemma CpuRamTradeOff(a: AllocatorState, fleet: seq<Node>, req: Requirements, x: nat, y: nat)
    requires a.strategy == MultiConstraint && x < |fleet| && y < |fleet| && fleet[x].CanAllocate(req.demand)
    requires HasCpuAndRam(fleet[x]) && HasCpuAndRam(fleet[y]) && DifferInCpuAndRam(fleet[x], fleet[y])
    requires SharesValue(a.weights, fleet[x]) > SharesValue(a.weights, fleet[y])
    ensures Attempt(a, fleet, req).node.Some? && Attempt(a, fleet, req).node != Some(y)
    ensures (forall i :: 0 <= i < |fleet| && fleet[i].CanAllocate(req.demand) ==> i == x || i == y)
      ==> Attempt(a, fleet, req).node == Some(x)
  {
    MorePointsByShares(a.weights, fleet[x], fleet[y], req.priority);
    MorePointsAreChosen(a, fleet, req, x, y);
    ChosenNodeFits(a, fleet, req);
  }

  lemma ChosenNodeFits(a: AllocatorState, fleet: seq<Node>, req: Requirements)
    requires Attempt(a, fleet, req).node.Some?
    ensures fleet[Attempt(a, fleet, req).node.value].CanAllocate(req.demand)
  {
    AttemptCharges(a, fleet, req);
  }

  /** Least load takes the fitting node with the least CPU in use and reports that. */
  lemma LeastLoadTakesLeastUsed(a: AllocatorState, fleet: seq<Node>, req: Requirements, i: nat)
    requires a.strategy == LeastLoad && i < |fleet| && fleet[i].CanAllocate(req.demand)
    ensures var o := Attempt(a, fleet, req);
      && o.node.Some? && o.score == fleet[o.node.value].usage.cpu
      && (o.node.value != i ==> Before(fleet[o.node.value].usage.cpu, o.node.value, fleet[i].usage.cpu, i))
  {
    AttemptCharges(a, fleet, req);
  }

  /** Priority routing takes the nearest fitting node for HIGH and CRITICAL tasks, and reports its latency. */
  lemma UrgentTasksGoNear(a: AllocatorState, fleet: seq<Node>, req: Requirements, i: nat)
    requires a.strategy == PriorityRouting && (req.priority == High || req.priority == Critical)
    requires i < |fleet| && fleet[i].CanAllocate(req.demand)
    ensures var o := Attempt(a, fleet, req);
      && o.node.Some? && o.score == fleet[o.node.value].latency as real
      && (o.node.value != i ==>
          Before(fleet[o.node.value].latency as real, o.node.value, fleet[i].latency as real, i))
  {
    AttemptCharges(a, fleet, req);
  }

  /** For LOW and MEDIUM tasks it takes the fitting node with the shortest queue, and reports its length. */
  lemma OtherTasksGoToShortQueues(a: AllocatorState, fleet: seq<Node>, req: Requirements, i: nat)
    requires a.strategy == PriorityRouting && (req.priority == Low || req.priority == Medium)
    requires i < |fleet| && fleet[i].CanAllocate(req.demand)
    ensures var o := Attempt(a, fleet, req);
      && o.node.Some? && o.score == |fleet[o.node.value].queue| as real
      && (o.node.value != i ==> Before(|fleet[o.node.value].queue| as real, o.node.value, |fleet[i].queue| as real, i))
  {
    AttemptCharges(a, fleet, req);
  }
}
