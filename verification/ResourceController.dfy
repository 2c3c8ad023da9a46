/** The node monitor and the controller that reacts to failures (resource_monitor.cpp, resource_controller.cpp). */
module ResourceControllers {
  import opened Tasks
  import opened EdgeNodes
  import opened Allocation
  import opened ResourceAllocators
  import opened Reallocation

  class ResourceMonitor {
    const nodes: seq<EdgeNode>
    var nodeFailures: nat
    var nodeRecoveries: nat

    constructor (nodes: seq<EdgeNode>)
      ensures this.nodes == nodes && nodeFailures == 0 && nodeRecoveries == 0
    {
      this.nodes, nodeFailures, nodeRecoveries := nodes, 0, 0;
    }

    /** Background load on every available node; draws holds each node's two random numbers. */
    method UpdateResourceMetrics(draws: seq<(real, real)>)
      requires NoDuplicates(nodes) && |draws| == |nodes|
      modifies (set e <- nodes)`usage
      ensures forall i :: 0 <= i < |nodes| ==> nodes[i].View() == Loaded(old(nodes[i].View()), draws[i].0, draws[i].1)
    {
      var k := 0;
      while k < |nodes|
        invariant 0 <= k <= |nodes|
        invariant forall i :: 0 <= i < k ==> nodes[i].View() == Loaded(old(nodes[i].View()), draws[i].0, draws[i].1)
        invariant forall i :: k <= i < |nodes| ==> nodes[i].View() == old(nodes[i].View())
      {
        DifferentFrom(nodes, k);
        if nodes[k].available {
          nodes[k].SimulateResourceFluctuation(draws[k].0, draws[k].1);
        }
        k := k + 1;
      }
    }

    /** Marks a node failed or recovered; an unknown id changes nothing. */
    method SetNodeAvailable(id: nat, value: bool) returns (known: bool)
      requires NoDuplicates(nodes)
      modifies this, (set e <- nodes)`available
      ensures known == (id < |nodes|)
      ensures !known ==>
        && Fleet(nodes) == old(Fleet(nodes))
        && nodeFailures == old(nodeFailures) && nodeRecoveries == old(nodeRecoveries)
      ensures known ==>
        && Fleet(nodes) == old(Fleet(nodes))[id := old(Fleet(nodes))[id].(available := value)]
        && nodeFailures == old(nodeFailures) + (if value then 0 else 1)
        && nodeRecoveries == old(nodeRecoveries) + (if value then 1 else 0)
    {
      known := id < |nodes|;
      if known {
        DifferentFrom(nodes, id);
        nodes[id].SetAvailable(value);
        if value {
          nodeRecoveries := nodeRecoveries + 1;
        } else {
          nodeFailures := nodeFailures + 1;
        }
        assert Fleet(nodes) == old(Fleet(nodes))[id := old(Fleet(nodes))[id].(available := value)];
      } else {
        assert Fleet(nodes) == old(Fleet(nodes));
      }
    }
  }

  /** A task after its turn: assigned and QUEUED, or without an edge and REALLOCATED. */
  predicate Settled(task: Task, outcome: Option<nat>)
    reads task
  {
    task.edge == outcome && task.status == (if outcome.Some? then Queued else Reallocated)
  }

  /** The first tasks of q are settled as the outcomes say. */
  ghost predicate AllSettled(q: seq<Task>, outcomes: seq<Option<nat>>)
    requires |outcomes| <= |q|
    reads q
  {
    forall i :: 0 <= i < |outcomes| ==> Settled(q[i], outcomes[i])
  }

  lemma AllSettledNext(q: seq<Task>, outcomes: seq<Option<nat>>, node: Option<nat>)
    requires |outcomes| < |q| && AllSettled(q, outcomes) && Settled(q[|outcomes|], node)
    ensures AllSettled(q, outcomes + [node])
  {
  }

  /** The fleet once node f is marked failed. */
  function WithFailed(fleet: seq<Node>, f: nat): (r: seq<Node>)
    requires f < |fleet|
    ensures |r| == |fleet| && !r[f].available && r[f].queue == fleet[f].queue
  {
    fleet[f := fleet[f].(available := false)]
  }

  lemma FailureKeepsSound(fleet: seq<Node>, f: nat)
    requires f < |fleet| && Sound(fleet)
    ensures Sound(WithFailed(fleet, f))
  {
  }

  class ResourceController {
    const allocator: ResourceAllocator
    var tasksAllocated: nat
    var allocationFailures: nat
    var reallocations: nat

    constructor (allocator: ResourceAllocator)
      ensures this.allocator == allocator && tasksAllocated == allocationFailures == reallocations == 0
    {
      this.allocator, tasksAllocated, allocationFailures, reallocations := allocator, 0, 0, 0;
    }

    function Nodes(): seq<EdgeNode> {
      allocator.nodes
    }

    /** The objects are in the state s describes. */
    ghost predicate Mirrors(s: Sweep)
      reads allocator, Nodes()
    {
      allocator.State() == s.allocator && Fleet(Nodes()) == s.fleet
    }

    /** The objects show s: the tasks with an outcome are settled, the rest of q still queued on the failed node. */
    ghost predicate Progress(s: Sweep, f: nat, q: seq<Task>)
      reads allocator, Nodes(), q
    {
      && allocator.Valid() && Mirrors(s)
      && f < |Nodes()| && |s.outcomes| <= |q| && Nodes()[f].queue == q[|s.outcomes|..]
      && AllSettled(q, s.outcomes)
    }

    method AllocateTaskNow(task: Task) returns (node: Option<nat>)
      requires allocator.Valid() && Selectable(allocator.State(), Fleet(Nodes()), task.data.req.priority)
      modifies this`tasksAllocated, this`allocationFailures
      modifies allocator`total, allocator`succeeded, allocator`failed, allocator`roundRobin, task`status, task`edge
      modifies (set e <- Nodes())`usage, (set e <- Nodes())`processed
      ensures allocator.Valid()
      ensures var o := Allocate(old(allocator.State()), old(Fleet(Nodes())), task.data.req);
        allocator.State() == o.allocator && Fleet(Nodes()) == o.fleet && node == o.node
      ensures tasksAllocated == old(tasksAllocated) + (if node.Some? then 1 else 0)
      ensures allocationFailures == old(allocationFailures) + (if node.Some? then 0 else 1)
      ensures task.status == (if node.Some? then Queued else old(task.status))
      ensures task.edge == (if node.Some? then node else old(task.edge))
    {
      var score: real;
      node, score := allocator.AllocateTask(task);
      if node.Some? {
        tasksAllocated := tasksAllocated + 1;
      } else {
        allocationFailures := allocationFailures + 1;
      }
      assert Fleet(Nodes()) == Allocate(old(allocator.State()), old(Fleet(Nodes())), task.data.req).fleet;
    }

    /** Takes the front task off the failed node and unassigns it. */
    method TakeFront(f: nat, ghost front: Task) returns (task: Task)
      requires allocator.Valid() && f < |Nodes()| && Nodes()[f].queue != [] && front == Nodes()[f].queue[0]
      modifies front`status, front`edge, (set e <- Nodes())`queue
      ensures task == front && Nodes()[f].queue == old(Nodes()[f].queue)[1..]
      ensures task.status == Reallocated && task.edge == None
      ensures var n := old(Fleet(Nodes()))[f];
        Fleet(Nodes()) == old(Fleet(Nodes()))[f := n.(queue := n.queue[1..])]
    {
      var failed := Nodes()[f];
      DifferentFrom(Nodes(), f);
      task := failed.Dequeue();
      task.status := Reallocated;
      task.edge := None;
      assert DataOf(failed.queue) == old(DataOf(failed.queue))[1..];
    }

    /** Takes the front task off and requests an allocation for it. */
    method ReallocateFront(f: nat, ghost front: Task, ghost s: Sweep) returns (node: Option<nat>)
      requires allocator.Valid() && f < |Nodes()| && Nodes()[f].queue != [] && front == Nodes()[f].queue[0]
      requires allocator.weights.NonNegative() && Sound(s.fleet) && Mirrors(s)
      modifies this`tasksAllocated, this`allocationFailures
      modifies allocator`total, allocator`succeeded, allocator`failed, allocator`roundRobin, front`status, front`edge
      modifies (set e <- Nodes())`usage, (set e <- Nodes())`processed, (set e <- Nodes())`queue
      ensures allocator.Valid() && Nodes()[f].queue == old(Nodes()[f].queue)[1..]
      ensures Mirrors(SweepStep(s, f)) && SweepStep(s, f).outcomes == s.outcomes + [node]
      ensures Settled(front, node)
      ensures tasksAllocated == old(tasksAllocated) + (if node.Some? then 1 else 0)
      ensures allocationFailures == old(allocationFailures) + (if node.Some? then 0 else 1)
    {
      var task := TakeFront(f, front);
      ghost var g := s.fleet[f := s.fleet[f].(queue := s.fleet[f].queue[1..])];
      SoundIsSelectable(s.allocator, g, task.data.req.priority);
      node := AllocateTaskNow(task);
    }

    /** One pass of the loop, with its counter. */
    method ReallocateNext(f: nat, ghost front: Task, ghost s: Sweep) returns (node: Option<nat>)
      requires allocator.Valid() && f < |Nodes()| && Nodes()[f].queue != [] && front == Nodes()[f].queue[0]
      requires allocator.weights.NonNegative() && Sound(s.fleet) && Mirrors(s)
      modifies this`tasksAllocated, this`allocationFailures, this`reallocations
      modifies allocator`total, allocator`succeeded, allocator`failed, allocator`roundRobin, front`status, front`edge
      modifies (set e <- Nodes())`usage, (set e <- Nodes())`processed, (set e <- Nodes())`queue
      ensures allocator.Valid() && Nodes()[f].queue == old(Nodes()[f].queue)[1..]
      ensures Mirrors(SweepStep(s, f)) && SweepStep(s, f).outcomes == s.outcomes + [node]
      ensures Settled(front, node)
      ensures tasksAllocated == old(tasksAllocated) + (if node.Some? then 1 else 0)
      ensures allocationFailures == old(allocationFailures) + (if node.Some? then 0 else 1)
      ensures reallocations == old(reallocations) + (if node.Some? then 1 else 0)
    {
      node := ReallocateFront(f, front, s);
      if node.Some? {
        reallocations := reallocations + 1;
      }
    }

    /**
     Tries every task queued on node f once, in queue order. A task that finds a node is QUEUED there in its
     status only; one that does not is left REALLOCATED with no edge.
     */
    method ReallocateTasksFromFailedNode(f: nat) returns (ghost outcomes: seq<Option<nat>>)
      requires allocator.Valid() && allocator.weights.NonNegative() && Sound(Fleet(Nodes()))
      requires f < |Nodes()| ==>
        !Nodes()[f].available && NoDuplicates(Nodes()[f].queue) && NonNegativeDemands(DataOf(Nodes()[f].queue))
      modifies this`tasksAllocated, this`allocationFailures, this`reallocations
      modifies allocator`total, allocator`succeeded, allocator`failed, allocator`roundRobin
      modifies (set e <- Nodes())`usage, (set e <- Nodes())`processed, (set e <- Nodes())`queue
      modifies (if f < |Nodes()| then (set t <- Nodes()[f].queue) else {})`status
      modifies (if f < |Nodes()| then (set t <- Nodes()[f].queue) else {})`edge
      ensures f >= |Nodes()| ==> Fleet(Nodes()) == old(Fleet(Nodes())) && allocator.State() == old(allocator.State())
      ensures f < |Nodes()| ==>
        var q := old(Nodes()[f].queue);
        var s := SweepUpTo(old(allocator.State()), old(Fleet(Nodes())), f, |q|);
        && outcomes == s.outcomes && Progress(s, f, q)
        && tasksAllocated + allocationFailures == old(tasksAllocated + allocationFailures) + |q|
        && tasksAllocated == old(tasksAllocated) + Successes(outcomes)
        && reallocations == old(reallocations) + Successes(outcomes)
    {
      outcomes := [];
      if f >= |Nodes()| {
        return;
      }
      outcomes := ReallocateQueue(f);
    }

    /** A node failure with the status callback it triggers: the node is marked, then its queue is reallocated. */
    method SimulateNodeFailure(monitor: ResourceMonitor, f: nat) returns (ghost outcomes: seq<Option<nat>>)
      requires monitor.nodes == Nodes()
      requires allocator.Valid() && allocator.weights.NonNegative() && Sound(Fleet(Nodes()))
      requires f < |Nodes()| ==> NoDuplicates(Nodes()[f].queue) && NonNegativeDemands(DataOf(Nodes()[f].queue))
      modifies this`tasksAllocated, this`allocationFailures, this`reallocations, monitor
      modifies allocator`total, allocator`succeeded, allocator`failed, allocator`roundRobin
      modifies (set e <- Nodes())`usage, (set e <- Nodes())`processed, (set e <- Nodes())`queue,
        (set e <- Nodes())`available
      modifies (if f < |Nodes()| then (set t <- Nodes()[f].queue) else {})`status
      modifies (if f < |Nodes()| then (set t <- Nodes()[f].queue) else {})`edge
      ensures f >= |Nodes()| ==> Fleet(Nodes()) == old(Fleet(Nodes())) && allocator.State() == old(allocator.State())
      ensures f >= |Nodes()| ==> monitor.nodeFailures == old(monitor.nodeFailures)
      ensures f < |Nodes()| ==> monitor.nodeFailures == old(monitor.nodeFailures) + 1
      ensures f < |Nodes()| ==>
        var q := old(Nodes()[f].queue);
        var s := SweepUpTo(old(allocator.State()), WithFailed(old(Fleet(Nodes())), f), f, |q|);
        && outcomes == s.outcomes && Progress(s, f, q)
        && tasksAllocated + allocationFailures == old(tasksAllocated + allocationFailures) + |q|
        && tasksAllocated == old(tasksAllocated) + Successes(outcomes)
        && reallocations == old(reallocations) + Successes(outcomes)
    {
      outcomes := [];
      ghost var a, fleet := allocator.State(), Fleet(Nodes());
      var known := monitor.SetNodeAvailable(f, false);
      if !known {
        return;
      }
      assert allocator.State() == a && Fleet(Nodes()) == WithFailed(fleet, f);
      FailureKeepsSound(fleet, f);
      outcomes := ReallocateTasksFromFailedNode(f);
    }

    method Round(f: nat, ghost s: Sweep, ghost q: seq<Task>, ghost front: Task) returns (node: Option<nat>)
      requires Progress(s, f, q) && |s.outcomes| < |q| && front == q[|s.outcomes|]
      requires forall i :: 0 <= i < |s.outcomes| ==> q[i] != front
      requires allocator.weights.NonNegative() && Sound(s.fleet)
      modifies this`tasksAllocated, this`allocationFailures, this`reallocations
      modifies allocator`total, allocator`succeeded, allocator`failed, allocator`roundRobin
      modifies (set e <- Nodes())`usage, (set e <- Nodes())`processed, (set e <- Nodes())`queue, front`status,
        front`edge
      ensures Progress(SweepStep(s, f), f, q) && SweepStep(s, f).outcomes == s.outcomes + [node]
      ensures tasksAllocated == old(tasksAllocated) + (if node.Some? then 1 else 0)
      ensures allocationFailures == old(allocationFailures) + (if node.Some? then 0 else 1)
      ensures reallocations == old(reallocations) + (if node.Some? then 1 else 0)
    {
      node := ReallocateNext(f, front, s);
      assert q[|s.outcomes|..][1..] == q[|s.outcomes| + 1..];
      forall i | 0 <= i < |s.outcomes| ensures Settled(q[i], s.outcomes[i]) {
        assert old(Settled(q[i], s.outcomes[i]));
      }
      AllSettledNext(q, s.outcomes, node);
    }

    method ReallocateQueue(f: nat) returns (ghost outcomes: seq<Option<nat>>)
      requires allocator.Valid() && allocator.weights.NonNegative() && Sound(Fleet(Nodes()))
      requires f < |Nodes()|
      requires !Nodes()[f].available && NoDuplicates(Nodes()[f].queue) && NonNegativeDemands(DataOf(Nodes()[f].queue))
      modifies this`tasksAllocated, this`allocationFailures, this`reallocations
      modifies allocator`total, allocator`succeeded, allocator`failed, allocator`roundRobin
      modifies (set e <- Nodes())`usage, (set e <- Nodes())`processed, (set e <- Nodes())`queue
      modifies (set t <- Nodes()[f].queue)`status, (set t <- Nodes()[f].queue)`edge
      ensures var q := old(Nodes()[f].queue);
        var s := SweepUpTo(old(allocator.State()), old(Fleet(Nodes())), f, |q|);
        && outcomes == s.outcomes && Progress(s, f, q)
        && tasksAllocated + allocationFailures == old(tasksAllocated + allocationFailures) + |q|
        && tasksAllocated == old(tasksAllocated) + Successes(outcomes)
        && reallocations == old(reallocations) + Successes(outcomes)
    {
      var failed := Nodes()[f];
      ghost var a, fleet, q := allocator.State(), Fleet(Nodes()), failed.queue;
      ghost var placed, failures, moved := tasksAllocated, allocationFailures, reallocations;
      ghost var k, s := 0, Sweep(a, fleet, []);
      while failed.queue != []
        invariant k <= |q| && s == SweepUpTo(a, fleet, f, k) && Progress(s, f, q)
        invariant tasksAllocated + allocationFailures == placed + failures + k
        invariant tasksAllocated == placed + Successes(s.outcomes)
        invariant reallocations == moved + Successes(s.outcomes)
        decreases |q| - k
      {
        TryNext(f, a, fleet, q, k, q[k], s);
        k := k + 1;
        s := SweepUpTo(a, fleet, f, k);
      }
      assert k == |q|;
      outcomes := s.outcomes;
    }

    /** The pass for task number k. */
    method TryNext(f: nat, ghost a: AllocatorState, ghost fleet: seq<Node>, ghost q: seq<Task>, ghost k: nat,
        ghost front: Task, ghost s: Sweep)
      requires f < |fleet| && !fleet[f].available && k < |q| == |fleet[f].queue| && front == q[k]
      requires Sound(fleet) && NonNegativeDemands(fleet[f].queue) && NoDuplicates(q)
      requires allocator.weights.NonNegative() && s == SweepUpTo(a, fleet, f, k) && Progress(s, f, q)
      modifies this`tasksAllocated, this`allocationFailures, this`reallocations
      modifies allocator`total, allocator`succeeded, allocator`failed, allocator`roundRobin
      modifies (set e <- Nodes())`usage, (set e <- Nodes())`processed, (set e <- Nodes())`queue, front`status,
        front`edge
      ensures Progress(SweepUpTo(a, fleet, f, k + 1), f, q)
      ensures var more := Successes(SweepUpTo(a, fleet, f, k + 1).outcomes) - Successes(s.outcomes);
        && tasksAllocated == old(tasksAllocated) + more && reallocations == old(reallocations) + more
        && tasksAllocated + allocationFailures == old(tasksAllocated + allocationFailures) + 1
    {
      SweepHolds(a, fleet, f, k);
      SweepNext(a, fleet, f, k);
      DifferentFrom(q, k);
      var node := Round(f, s, q, front);
      SuccessesOfNext(s.outcomes, node);
    }
  }
}
