/** In every reachable state each node's usage is the sum of its open reservations, and within its capacity. */
module RuntimeLedger {
  import opened Tasks
  import opened Selection
  import opened EdgeNodes
  import opened Allocation
  import opened Runtime

  /** The demand a worker has yet to give back. */
  function HeldDemand(w: Worker): Vec {
    if w.Taken? || w.Active? || w.Finished? || w.Unlisted? then w.t.req.demand else ZERO
  }

  /** The demand reserved on node n for a task the producer has not queued yet. */
  function PendingDemand(p: Producer, n: nat): Vec {
    if (p.Committed? || p.HandOff?) && p.n == n then p.t.req.demand else ZERO
  }

  /** All reservations on a node not yet released: queued, in the worker's hands, awaiting scheduling. */
  function Reservations(node: Node, w: Worker, pending: Vec): Vec {
    TotalDemand(node.queue).Plus(HeldDemand(w)).Plus(pending)
  }

  /** Background load disturbs CPU and RAM; bandwidth is always exact. */
  predicate Agrees(experiment: bool, usage: Vec, reserved: Vec) {
    usage.bandwidth == reserved.bandwidth && (!experiment ==> usage == reserved)
  }

  ghost predicate NodeOk(experiment: bool, node: Node, w: Worker, pending: Vec) {
    && node.Within()
    && Agrees(experiment, node.usage, Reservations(node, w, pending))
    && NonNegativeDemands(node.queue) && ZERO.AtMost(HeldDemand(w)) && ZERO.AtMost(pending)
  }

  /** What lets the check and the reservation be separate steps: everything found viable still fits. */
  ghost predicate ProducerOk(p: Producer, nodes: seq<Node>) {
    match p
    case Ready(t) => ZERO.AtMost(t.req.demand)
    case Checking(t, _, k, viable) =>
      && ZERO.AtMost(t.req.demand) && k <= |nodes|
      && (forall j :: 0 <= j < |viable| ==> viable[j] < k && nodes[viable[j]].CanAllocate(t.req.demand))
    case Committed(t, n, _) => n < |nodes| && ZERO.AtMost(t.req.demand)
    case HandOff(t, n, _) => n < |nodes| && ZERO.AtMost(t.req.demand)
    case Recording(_, n, _) => n < |nodes|
    case _ => true
  }

  ghost predicate NodesOk(experiment: bool, nodes: seq<Node>, workers: seq<Worker>, p: Producer)
    requires |workers| == |nodes|
  {
    forall n :: 0 <= n < |nodes| ==> NodeOk(experiment, nodes[n], workers[n], PendingDemand(p, n))
  }

  ghost predicate Balanced(experiment: bool, nodes: seq<Node>, workers: seq<Worker>, p: Producer) {
    |workers| == |nodes| && ProducerOk(p, nodes) && NodesOk(experiment, nodes, workers, p)
  }

  ghost predicate LedgerInvariant(s: State) {
    Balanced(s.experiment, s.nodes, s.workers, s.producer)
  }

  /** One node's ledger changes, together with the producer's claim on it. */
  lemma OneNodeChanges(experiment: bool, nodes: seq<Node>, workers: seq<Worker>, p: Producer, n: nat, node: Node,
      p': Producer, pending: Vec)
    requires |workers| == |nodes| && NodesOk(experiment, nodes, workers, p) && n < |nodes|
    requires pending == PendingDemand(p', n) && NodeOk(experiment, node, workers[n], pending)
    requires forall m :: 0 <= m < |nodes| && m != n ==> PendingDemand(p', m) == PendingDemand(p, m)
    ensures NodesOk(experiment, nodes[n := node], workers, p')
  {
  }

  lemma DemandAround(q: seq<TaskData>, before: seq<TaskData>, t: TaskData, after: seq<TaskData>)
    requires q == before + ([t] + after)
    ensures TotalDemand(q) == TotalDemand(before + after).Plus(t.req.demand)
  {
    TotalDemandOfConcat(before, [t] + after);
    TotalDemandOfConcat([t], after);
    TotalDemandOfSingleton(t);
    TotalDemandOfConcat(before, after);
  }

  lemma TotalDemandWithout(q: seq<TaskData>, i: nat)
    requires i < |q|
    ensures TotalDemand(q) == TotalDemand(RemoveAt(q, i)).Plus(q[i].req.demand)
  {
    SplitAround(q, i);
    DemandAround(q, q[..i], q[i], q[i + 1..]);
  }

  lemma TotalDemandWith(q: seq<TaskData>, t: TaskData)
    ensures TotalDemand(q + [t]) == TotalDemand(q).Plus(t.req.demand)
  {
    TotalDemandOfConcat(q, [t]);
    TotalDemandOfSingleton(t);
  }

  /** What a balanced ledger needs, with the queued demand as a number. */
  lemma NodeOkFromTotal(experiment: bool, node: Node, w: Worker, pending: Vec, queued: Vec, held: Vec)
    requires queued == TotalDemand(node.queue) && held == HeldDemand(w) && NonNegativeDemands(node.queue)
    requires node.Within() && ZERO.AtMost(held) && ZERO.AtMost(pending)
    requires Agrees(experiment, node.usage, queued.Plus(held).Plus(pending))
    ensures NodeOk(experiment, node, w, pending)
  {
  }

  lemma TotalOfNodeOk(experiment: bool, node: Node, w: Worker, pending: Vec, queued: Vec, held: Vec)
    requires NodeOk(experiment, node, w, pending) && queued == TotalDemand(node.queue) && held == HeldDemand(w)
    ensures node.Within() && ZERO.AtMost(queued) && ZERO.AtMost(held) && ZERO.AtMost(pending)
    ensures Agrees(experiment, node.usage, queued.Plus(held).Plus(pending))
  {
    TotalDemandNonNegative(node.queue);
  }

  /** A release on numbers: the held demand leaves the usage and the reservations alike. */
  lemma AgreesAfterRelease(experiment: bool, usage: Vec, queued: Vec, held: Vec, pending: Vec)
    requires Agrees(experiment, usage, queued.Plus(held).Plus(pending))
    requires ZERO.AtMost(queued) && ZERO.AtMost(held) && ZERO.AtMost(pending)
    ensures Agrees(experiment, usage.Less(held), queued.Plus(ZERO).Plus(pending))
    ensures Agrees(experiment, usage.Less(held), usage.Minus(held))
  {
  }

  lemma ReleaseLowersUsage(node: Node, d: Vec)
    requires node.Within() && ZERO.AtMost(d)
    ensures node.Release(d).Within() && node.Release(d).usage.AtMost(node.usage)
  {
  }

  lemma HoldsNothing(t: TaskData, met: bool)
    ensures HeldDemand(Released(t, met)) == ZERO
  {
  }

  lemma ReleaseKeepsNodeOk(experiment: bool, node: Node, w: Worker, pending: Vec)
    requires w.Unlisted? && NodeOk(experiment, node, w, pending)
    ensures NodeOk(experiment, node.Release(w.t.req.demand), Released(w.t, w.met), pending)
    ensures node.Release(w.t.req.demand).usage.AtMost(node.usage)
    ensures Agrees(experiment, node.Release(w.t.req.demand).usage, node.usage.Minus(w.t.req.demand))
  {
    var d, queued := w.t.req.demand, TotalDemand(node.queue);
    TotalOfNodeOk(experiment, node, w, pending, queued, d);
    AgreesAfterRelease(experiment, node.usage, queued, d, pending);
    ReleaseLowersUsage(node, d);
    HoldsNothing(w.t, w.met);
    NodeOkFromTotal(experiment, node.Release(d), Released(w.t, w.met), pending, queued, ZERO);
  }

  lemma AgreesAfterPick(experiment: bool, usage: Vec, rest: Vec, d: Vec, pending: Vec)
    requires Agrees(experiment, usage, rest.Plus(d).Plus(ZERO).Plus(pending))
    ensures Agrees(experiment, usage, rest.Plus(d).Plus(pending))
  {
  }

  lemma PickKeepsNodeOk(experiment: bool, node: Node, w: Worker, pending: Vec, i: nat, rest: seq<TaskData>)
    requires NodeOk(experiment, node, w, pending) && w.Polling? && i < |node.queue| && rest == RemoveAt(node.queue, i)
    ensures NodeOk(experiment, node.(queue := rest), Taken(node.queue[i]), pending)
  {
    TotalDemandWithout(node.queue, i);
    AgreesAfterPick(experiment, node.usage, TotalDemand(rest), node.queue[i].req.demand, pending);
    assert NonNegativeDemands(rest);
  }

  /** A worker's step keeps its node's ledger exact and never raises its usage. */
  lemma WorkerKeepsNodeOk(experiment: bool, node: Node, w: Worker, pending: Vec, running: bool, a: Action,
      node': Node, w': Worker)
    requires NodeOk(experiment, node, w, pending) && IsWorkerStep(a) && WorkerCan(running, w, node.queue, a)
    requires node' == NodeAfter(node, w, a) && w' == WorkerAfter(w, node.queue, a)
    ensures NodeOk(experiment, node', w', pending)
    ensures node'.usage.AtMost(node.usage) && node'.capacity == node.capacity && node'.available == node.available
  {
    if a.Pick? {
      PickKeepsNodeOk(experiment, node, w, pending, a.i, node'.queue);
      assert node' == node.(queue := node'.queue) && w' == Taken(node.queue[a.i]);
    } else if a.Release? {
      ReleaseKeepsNodeOk(experiment, node, w, pending);
      assert node' == node.Release(w.t.req.demand) && w' == Released(w.t, w.met);
    } else {
      OtherWorkKeepsDemand(node, w, running, a, node', w');
      SameDemandKeepsNodeOk(experiment, node, w, pending, w');
    }
  }

  /** Between picking and releasing, the worker holds the same demand and leaves the node alone. */
  lemma OtherWorkKeepsDemand(node: Node, w: Worker, running: bool, a: Action, node': Node, w': Worker)
    requires IsWorkerStep(a) && !a.Pick? && !a.Release? && WorkerCan(running, w, node.queue, a)
    requires node' == NodeAfter(node, w, a) && w' == WorkerAfter(w, node.queue, a)
    ensures HeldDemand(w') == HeldDemand(w) && node' == node
  {
  }

  lemma SameDemandKeepsNodeOk(experiment: bool, node: Node, w: Worker, pending: Vec, w': Worker)
    requires NodeOk(experiment, node, w, pending) && HeldDemand(w') == HeldDemand(w)
    ensures NodeOk(experiment, node, w', pending)
  {
  }

  lemma WorkerKeepsProducerOk(p: Producer, nodes: seq<Node>, n: nat, node: Node)
    requires ProducerOk(p, nodes) && n < |nodes|
    requires node.usage.AtMost(nodes[n].usage) && node.capacity == nodes[n].capacity
      && node.available == nodes[n].available
    ensures ProducerOk(p, nodes[n := node])
  {
  }

  lemma OneWorkerChanges(experiment: bool, nodes: seq<Node>, workers: seq<Worker>, p: Producer, n: nat, node: Node,
      w: Worker)
    requires |workers| == |nodes| && NodesOk(experiment, nodes, workers, p) && n < |nodes|
    requires NodeOk(experiment, node, w, PendingDemand(p, n))
    ensures NodesOk(experiment, nodes[n := node], workers[n := w], p)
  {
  }

  lemma WorkerKeepsBalance(experiment: bool, nodes: seq<Node>, workers: seq<Worker>, p: Producer, running: bool,
      a: Action,
    node': Node, w': Worker)
    requires Balanced(experiment, nodes, workers, p) && IsWorkerStep(a) && a.w < |nodes|
    requires WorkerCan(running, workers[a.w], nodes[a.w].queue, a)
    requires node' == NodeAfter(nodes[a.w], workers[a.w], a) && w' == WorkerAfter(workers[a.w], nodes[a.w].queue, a)
    ensures Balanced(experiment, nodes[a.w := node'], workers[a.w := w'], p)
  {
    var pending := PendingDemand(p, a.w);
    assert NodeOk(experiment, nodes[a.w], workers[a.w], pending);
    WorkerKeepsNodeOk(experiment, nodes[a.w], workers[a.w], pending, running, a, node', w');
    OneWorkerChanges(experiment, nodes, workers, p, a.w, node', w');
    WorkerKeepsProducerOk(p, nodes, a.w, node');
  }

  lemma ViableFits(p: Producer, nodes: seq<Node>, n: nat)
    requires p.Checking? && ProducerOk(p, nodes) && n in p.viable
    ensures n < |nodes| && nodes[n].CanAllocate(p.t.req.demand)
  {
    var j :| 0 <= j < |p.viable| && p.viable[j] == n;
  }

  /** The reservation step: the chosen node was checked earlier, and only releases happened since. */
  lemma CommitKeepsBalance(experiment: bool, nodes: seq<Node>, workers: seq<Worker>, p: Producer, n: nat,
      used: AllocationStrategy)
    requires Balanced(experiment, nodes, workers, p) && p.Checking? && n in p.viable && n < |nodes|
    ensures Balanced(experiment, nodes[n := nodes[n].Reserve(p.t.req.demand)], workers, Committed(p.t, n, used))
  {
    ViableFits(p, nodes, n);
    ReserveKeepsNodeOk(experiment, nodes[n], workers[n], PendingDemand(p, n), p.t.req.demand);
    OneNodeChanges(experiment, nodes, workers, p, n, nodes[n].Reserve(p.t.req.demand), Committed(p.t, n, used),
      p.t.req.demand);
  }

  lemma AgreesAfterPlus(experiment: bool, usage: Vec, queued: Vec, held: Vec, pending: Vec, d: Vec)
    requires Agrees(experiment, usage, queued.Plus(held).Plus(pending)) && pending == ZERO
    ensures Agrees(experiment, usage.Plus(d), queued.Plus(held).Plus(d))
  {
  }

  lemma ReserveKeepsNodeOk(experiment: bool, node: Node, w: Worker, pending: Vec, d: Vec)
    requires NodeOk(experiment, node, w, pending) && pending == ZERO && node.CanAllocate(d) && ZERO.AtMost(d)
    ensures NodeOk(experiment, node.Reserve(d), w, d)
  {
    AgreesAfterPlus(experiment, node.usage, TotalDemand(node.queue), HeldDemand(w), pending, d);
  }

  lemma QueueingKeepsNodeOk(experiment: bool, node: Node, w: Worker, t: TaskData)
    requires NodeOk(experiment, node, w, t.req.demand)
    ensures NodeOk(experiment, node.(queue := node.queue + [t]), w, ZERO)
  {
    NodeOkByQueue(experiment, node, w, t, node.queue + [t]);
  }

  lemma NodeOkByQueue(experiment: bool, node: Node, w: Worker, t: TaskData, q: seq<TaskData>)
    requires NodeOk(experiment, node, w, t.req.demand) && q == node.queue + [t]
    ensures NodeOk(experiment, node.(queue := q), w, ZERO)
  {
    QueuedWith(node.queue, t, q);
    NodeOkWithTotal(experiment, node, w, t.req.demand, q, TotalDemand(node.queue), HeldDemand(w));
  }

  lemma QueuedWith(queue: seq<TaskData>, t: TaskData, q: seq<TaskData>)
    requires NonNegativeDemands(queue) && ZERO.AtMost(t.req.demand) && q == queue + [t]
    ensures NonNegativeDemands(q) && TotalDemand(q) == TotalDemand(queue).Plus(t.req.demand)
  {
    TotalDemandWith(queue, t);
  }

  lemma NodeOkWithTotal(experiment: bool, node: Node, w: Worker, d: Vec, q: seq<TaskData>, queued: Vec, held: Vec)
    requires NodeOk(experiment, node, w, d) && queued == TotalDemand(node.queue) && held == HeldDemand(w)
    requires NonNegativeDemands(q) && TotalDemand(q) == queued.Plus(d)
    ensures NodeOk(experiment, node.(queue := q), w, ZERO)
  {
    TotalOfNodeOk(experiment, node, w, d, queued, held);
    AgreesAfterQueueing(experiment, node.usage, queued, held, d);
    NodeOkFromTotal(experiment, node.(queue := q), w, ZERO, queued.Plus(d), held);
  }

  lemma AgreesAfterQueueing(experiment: bool, usage: Vec, queued: Vec, held: Vec, d: Vec)
    requires Agrees(experiment, usage, queued.Plus(held).Plus(d))
    ensures Agrees(experiment, usage, queued.Plus(d).Plus(held).Plus(ZERO))
  {
  }

  lemma ScheduleKeepsBalance(experiment: bool, nodes: seq<Node>, workers: seq<Worker>, p: Producer)
    requires Balanced(experiment, nodes, workers, p) && p.HandOff?
    ensures p.n < |nodes|
    ensures var node := nodes[p.n];
      Balanced(experiment, nodes[p.n := node.(queue := node.queue + [p.t])], workers, Recording(p.t, p.n, p.used))
  {
    var node := nodes[p.n];
    QueueingKeepsNodeOk(experiment, node, workers[p.n], p.t);
    OneNodeChanges(experiment, nodes, workers, p, p.n, node.(queue := node.queue + [p.t]),
      Recording(p.t, p.n, p.used), ZERO);
  }

  lemma FluctuationKeepsNodeOk(experiment: bool, node: Node, w: Worker, pending: Vec, cpu: real, ram: real)
    requires experiment && NodeOk(experiment, node, w, pending)
    ensures NodeOk(experiment, Loaded(node, cpu, ram), w, pending)
  {
    OperationsKeepWithin(node, ZERO, cpu, ram);
  }

  lemma FluctuateKeepsBalance(experiment: bool, nodes: seq<Node>, workers: seq<Worker>, p: Producer, node: Node)
    requires Balanced(experiment, nodes, workers, p) && p.Fluctuating? && p.k < |nodes|
    requires NodeOk(experiment, node, workers[p.k], PendingDemand(p, p.k))
    ensures Balanced(experiment, nodes[p.k := node], workers, Fluctuating(p.k + 1))
  {
    OneNodeChanges(experiment, nodes, workers, p, p.k, node, Fluctuating(p.k + 1), PendingDemand(p, p.k));
  }

  /** The producer's next step leaves the ledger balanced. */
  ghost predicate BalancedAfter(s: State, a: Action)
    requires Enabled(s, a) && !IsWorkerStep(a)
  {
    Balanced(s.experiment, NodesAfter(s, a), s.workers, ProducerAfter(s, a))
  }

  /** Steps that touch no node: the producer's claims carry over and nothing new is pending. */
  lemma QuietStepKeepsClaims(s: State, a: Action)
    requires ProducerOk(s.producer, s.nodes) && Enabled(s, a) && !IsWorkerStep(a) && !a.Commit? && !a.Schedule?
      && !a.Fluctuate?
    ensures NodesAfter(s, a) == s.nodes && ProducerOk(ProducerAfter(s, a), s.nodes)
  {
  }

  lemma QuietStepKeepsPending(s: State, a: Action, n: nat)
    requires Enabled(s, a) && !IsWorkerStep(a) && !a.Commit? && !a.Schedule? && !a.Fluctuate?
    ensures PendingDemand(ProducerAfter(s, a), n) == PendingDemand(s.producer, n)
  {
  }

  lemma QuietStepKeepsLedger(s: State, a: Action)
    requires LedgerInvariant(s) && Enabled(s, a) && !IsWorkerStep(a) && !a.Commit? && !a.Schedule? && !a.Fluctuate?
    ensures BalancedAfter(s, a)
  {
    QuietStepKeepsClaims(s, a);
    forall n | 0 <= n < |s.nodes| ensures PendingDemand(ProducerAfter(s, a), n) == PendingDemand(s.producer, n) {
      QuietStepKeepsPending(s, a, n);
    }
  }

  lemma CommitKeepsLedger(s: State, n: nat)
    requires LedgerInvariant(s) && Enabled(s, Commit(n))
    ensures BalancedAfter(s, Commit(n))
  {
    CommitKeepsBalance(s.experiment, s.nodes, s.workers, s.producer, n, s.config.allocation);
  }

  lemma ScheduleKeepsLedger(s: State)
    requires LedgerInvariant(s) && Enabled(s, Schedule)
    ensures BalancedAfter(s, Schedule)
  {
    ScheduleKeepsBalance(s.experiment, s.nodes, s.workers, s.producer);
  }

  lemma FluctuateKeepsLedger(s: State, cpu: real, ram: real)
    requires LedgerInvariant(s) && Enabled(s, Fluctuate(cpu, ram)) && s.experiment
    ensures BalancedAfter(s, Fluctuate(cpu, ram))
  {
    var p, k := s.producer, s.producer.k;
    FluctuationKeepsNodeOk(s.experiment, s.nodes[k], s.workers[k], PendingDemand(p, k), cpu, ram);
    FluctuateKeepsBalance(s.experiment, s.nodes, s.workers, p, Loaded(s.nodes[k], cpu, ram));
    FluctuateTouchesOneNode(s, cpu, ram);
  }

  lemma FluctuateTouchesOneNode(s: State, cpu: real, ram: real)
    requires Enabled(s, Fluctuate(cpu, ram))
    ensures NodesAfter(s, Fluctuate(cpu, ram)) == s.nodes[s.producer.k := Loaded(s.nodes[s.producer.k], cpu, ram)]
    ensures ProducerAfter(s, Fluctuate(cpu, ram)) == Fluctuating(s.producer.k + 1)
  {
  }

  lemma ProducerKeepsLedger(s: State, a: Action)
    requires LedgerInvariant(s) && Enabled(s, a) && !IsWorkerStep(a)
    requires s.producer.Fluctuating? ==> s.experiment
    ensures BalancedAfter(s, a)
  {
    if a.Commit? {
      CommitKeepsLedger(s, a.n);
    } else if a.Schedule? {
      ScheduleKeepsLedger(s);
    } else if a.Fluctuate? {
      FluctuateKeepsLedger(s, a.cpu, a.ram);
    } else {
      QuietStepKeepsLedger(s, a);
    }
  }

  lemma StepKeepsLedger(s: State, a: Action)
    requires LedgerInvariant(s) && Enabled(s, a) && (s.producer.Fluctuating? ==> s.experiment)
    ensures LedgerInvariant(Step(s, a)) && (Step(s, a).producer.Fluctuating? ==> Step(s, a).experiment)
    ensures Step(s, a).experiment == s.experiment && |Step(s, a).nodes| == |s.nodes|
  {
    if IsWorkerStep(a) {
      var node, w := s.nodes[a.w], s.workers[a.w];
      WorkerKeepsBalance(s.experiment, s.nodes, s.workers, s.producer, s.running, a, NodeAfter(node, w, a),
        WorkerAfter(w, node.queue, a));
    } else {
      ProducerKeepsLedger(s, a);
    }
  }

  lemma {:induction false} RunKeepsLedger(s: State, run: seq<Action>)
    requires Initial(s) && IsRun(s, run)
    ensures LedgerInvariant(After(s, run)) && (After(s, run).producer.Fluctuating? ==> After(s, run).experiment)
    ensures After(s, run).experiment == s.experiment && |After(s, run).nodes| == |s.nodes|
  {
    if run != [] {
      RunKeepsLedger(s, run[..|run| - 1]);
      StepKeepsLedger(After(s, run[..|run| - 1]), run[|run| - 1]);
    }
  }

  // ---- The theorems ----

  /** The node of a reachable state, seen alone. */
  lemma ReachableNodeOk(s: State, run: seq<Action>, n: nat, r: State)
    requires Initial(s) && IsRun(s, run) && r == After(s, run) && n < |r.nodes|
    ensures |r.workers| == |r.nodes| == |s.nodes|
    ensures NodeOk(s.experiment, r.nodes[n], r.workers[n], PendingDemand(r.producer, n))
  {
    RunKeepsLedger(s, run);
  }

  /** No overcommit, and bandwidth exact, in every reachable state, with or without background load. */
  lemma NeverOvercommits(s: State, run: seq<Action>, n: nat, r: State)
    requires Initial(s) && IsRun(s, run) && r == After(s, run) && n < |r.nodes|
    ensures |r.nodes| == |s.nodes| == |r.workers|
    ensures ZERO.AtMost(r.nodes[n].usage) && r.nodes[n].usage.AtMost(r.nodes[n].capacity)
    ensures r.nodes[n].usage.bandwidth == Reservations(r.nodes[n], r.workers[n], PendingDemand(r.producer, n)).bandwidth
  {
    ReachableNodeOk(s, run, n, r);
  }

  /** In the live runtime usage is exactly the open reservations; with none open it is zero. */
  lemma ExactLedger(s: State, run: seq<Action>, n: nat, r: State)
    requires Initial(s) && !s.experiment && IsRun(s, run) && r == After(s, run) && n < |r.nodes|
    ensures |r.nodes| == |s.nodes| == |r.workers|
    ensures r.nodes[n].usage == Reservations(r.nodes[n], r.workers[n], PendingDemand(r.producer, n))
    ensures r.nodes[n].queue == [] && HeldDemand(r.workers[n]) == ZERO && PendingDemand(r.producer, n) == ZERO
      ==> r.nodes[n].usage == ZERO
  {
    ReachableNodeOk(s, run, n, r);
  }

  lemma WorkOnNode(s: State, a: Action)
    requires IsWorkerStep(a) && Enabled(s, a)
    ensures |Step(s, a).nodes| == |s.nodes| && Step(s, a).nodes[a.w] == NodeAfter(s.nodes[a.w], s.workers[a.w], a)
  {
  }

  /** The clamps at zero never fire in the live runtime: a release subtracts exactly the task's demand. */
  lemma ReleaseIsExact(s: State, run: seq<Action>, w: nat, r: State)
    requires Initial(s) && !s.experiment && IsRun(s, run) && r == After(s, run) && WorkerEnabled(r, Runtime.Release(w))
    ensures w < |Step(r, Runtime.Release(w)).nodes|
    ensures Step(r, Runtime.Release(w)).nodes[w].usage == r.nodes[w].usage.Minus(r.workers[w].t.req.demand)
  {
    ReachableNodeOk(s, run, w, r);
    WorkOnNode(r, Runtime.Release(w));
    ReleaseKeepsNodeOk(s.experiment, r.nodes[w], r.workers[w], PendingDemand(r.producer, w));
  }

  lemma CommitOnNode(s: State, n: nat)
    requires LedgerInvariant(s) && Enabled(s, Commit(n))
    ensures s.nodes[n].CanAllocate(s.producer.t.req.demand) && ZERO.AtMost(s.producer.t.req.demand)
    ensures n < |Step(s, Commit(n)).nodes| && Step(s, Commit(n)).nodes[n] == s.nodes[n].Reserve(s.producer.t.req.demand)
  {
    ViableFits(s.producer, s.nodes, n);
  }

  /** Check-then-act is safe: whatever ran since the check, a reservation lands on a node that still has room. */
  lemma CommitFindsRoom(s: State, run: seq<Action>, n: nat, r: State)
    requires Initial(s) && IsRun(s, run) && r == After(s, run) && Enabled(r, Commit(n))
    ensures r.nodes[n].CanAllocate(r.producer.t.req.demand)
    ensures n < |Step(r, Commit(n)).nodes| && Step(r, Commit(n)).nodes[n].Within()
  {
    RunKeepsLedger(s, run);
    ReachableNodeOk(s, run, n, r);
    CommitOnNode(r, n);
    OperationsKeepWithin(r.nodes[n], r.producer.t.req.demand, 0.0, 0.0);
  }
}
