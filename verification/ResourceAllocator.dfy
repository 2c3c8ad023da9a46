/** The allocator object over the registered nodes (resource_allocator.cpp, resource_monitor.cpp). */
module ResourceAllocators {
  import opened Tasks
  import opened Selection
  import opened EdgeNodes
  import opened Allocation
  import opened Retrying

  class ResourceAllocator {
    const nodes: seq<EdgeNode>
    const weights: Weights
    var strategy: AllocationStrategy
    var total: nat
    var succeeded: nat
    var failed: nat
    var roundRobin: nat

    ghost predicate Valid()
      reads this
    {
      NoDuplicates(nodes) && roundRobin < SIZE_LIMIT
    }

    function State(): AllocatorState
      reads this
    {
      AllocatorState(strategy, weights, total, succeeded, failed, roundRobin)
    }

    constructor (nodes: seq<EdgeNode>, weights: Weights, strategy: AllocationStrategy)
      requires NoDuplicates(nodes)
      ensures Valid() && this.nodes == nodes
      ensures State() == AllocatorState(strategy, weights, 0, 0, 0, 0)
    {
      this.nodes, this.weights, this.strategy := nodes, weights, strategy;
      total, succeeded, failed, roundRobin := 0, 0, 0, 0;
    }

    method SetStrategy(strategy: AllocationStrategy)
      modifies this`strategy
      ensures this.strategy == strategy
    {
      this.strategy := strategy;
    }

    /** Nodes in edge-id order that are available and can hold the demand. */
    method GetViableEdges(d: Vec) returns (viable: seq<nat>)
      ensures viable == Viable(Fleet(nodes), d)
    {
      viable := [];
      var i := 0;
      while i < |nodes|
        invariant 0 <= i <= |nodes|
        invariant viable == ViableUpTo(Fleet(nodes), d, i)
      {
        if nodes[i].available && nodes[i].View().CanAllocate(d) {
          viable := viable + [i];
        }
        i := i + 1;
      }
    }

    /** The state a scan has reached after j of the viable nodes: none taken, or the first least so far. */
    ghost predicate Scanned(viable: seq<nat>, key: nat -> real, sentinel: real, j: nat, best: int, lowest: real) {
      && (j == 0 ==> best == -1 && lowest == sentinel)
      && (0 < j <= |viable| ==>
          && 0 <= best < j && lowest == key(viable[best])
          && (forall i :: 0 <= i < j ==> key(viable[best]) <= key(viable[i]))
          && (forall i :: 0 <= i < best ==> key(viable[best]) < key(viable[i])))
    }

    lemma ScanFinds(viable: seq<nat>, key: nat -> real, sentinel: real, best: int, lowest: real)
      requires viable != [] && Scanned(viable, key, sentinel, |viable|, best, lowest)
      ensures best == FirstLeast(viable, key)
    {
      FirstLeastUnique(viable, key, best);
    }

    method LowestCpu(viable: seq<nat>, ghost key: nat -> real) returns (best: nat, lowest: real)
      requires viable != [] && forall j :: 0 <= j < |viable| ==> viable[j] < |nodes|
      requires forall j :: 0 <= j < |viable| ==>
        key(viable[j]) == SelectKey(LeastLoad, weights, nodes[viable[j]].View(), Low) < DBL_MAX
      ensures best == FirstLeast(viable, key) && lowest == key(viable[best])
    {
      var found: int := -1;
      lowest := DBL_MAX;
      var j := 0;
      while j < |viable|
        invariant 0 <= j <= |viable|
        invariant Scanned(viable, key, DBL_MAX, j, found, lowest)
      {
        var edge := nodes[viable[j]];
        var used := edge.capacity.cpu - (edge.capacity.cpu - edge.usage.cpu);
        if used < lowest {
          lowest := used;
          found := j;
        }
        j := j + 1;
      }
      ScanFinds(viable, key, DBL_MAX, found, lowest);
      best := found;
    }

    method LowestLatency(viable: seq<nat>, ghost key: nat -> real) returns (best: nat, lowest: real)
      requires viable != [] && forall j :: 0 <= j < |viable| ==> viable[j] < |nodes|
      requires forall j :: 0 <= j < |viable| ==> key(viable[j]) == nodes[viable[j]].latency as real < INT64_MAX
      ensures best == FirstLeast(viable, key) && lowest == key(viable[best])
    {
      var found: int := -1;
      lowest := INT64_MAX;
      var j := 0;
      while j < |viable|
        invariant 0 <= j <= |viable|
        invariant Scanned(viable, key, INT64_MAX, j, found, lowest)
      {
        var latency := nodes[viable[j]].latency as real;
        if latency < lowest {
          lowest := latency;
          found := j;
        }
        j := j + 1;
      }
      ScanFinds(viable, key, INT64_MAX, found, lowest);
      best := found;
    }

    method ShortestQueue(viable: seq<nat>, ghost key: nat -> real) returns (best: nat, lowest: real)
      requires viable != [] && forall j :: 0 <= j < |viable| ==> viable[j] < |nodes|
      requires forall j :: 0 <= j < |viable| ==> key(viable[j]) == |nodes[viable[j]].queue| as real < DBL_MAX
      ensures best == FirstLeast(viable, key) && lowest == key(viable[best])
    {
      var found: int := -1;
      lowest := DBL_MAX;
      var j := 0;
      while j < |viable|
        invariant 0 <= j <= |viable|
        invariant Scanned(viable, key, DBL_MAX, j, found, lowest)
      {
        var length := |nodes[viable[j]].queue| as real;
        if length < lowest {
          lowest := length;
          found := j;
        }
        j := j + 1;
      }
      ScanFinds(viable, key, DBL_MAX, found, lowest);
      best := found;
    }

    method HighestScore(viable: seq<nat>, priority: Priority, ghost key: nat -> real) returns (best: nat, highest: real)
      requires viable != [] && forall j :: 0 <= j < |viable| ==> viable[j] < |nodes|
      requires forall j :: 0 <= j < |viable| ==>
        key(viable[j]) == -Score(weights, nodes[viable[j]].View(), priority) < DBL_MAX
      ensures best == FirstLeast(viable, key) && highest == -key(viable[best])
    {
      var found: int := -1;
      highest := -DBL_MAX;
      var j := 0;
      while j < |viable|
        invariant 0 <= j <= |viable|
        invariant Scanned(viable, key, DBL_MAX, j, found, -highest)
      {
        var score := Score(weights, nodes[viable[j]].View(), priority);
        if score > highest {
          highest := score;
          found := j;
        }
        j := j + 1;
      }
      ScanFinds(viable, key, DBL_MAX, found, -highest);
      best := found;
    }

    /** The strategy's choice among the viable nodes, and the score it reports. */
    method Choose(viable: seq<nat>, priority: Priority) returns (n: nat, score: real)
      requires Valid() && viable != [] && (forall j :: 0 <= j < |viable| ==> viable[j] < |nodes|)
      requires Selectable(State(), Fleet(nodes), priority)
      modifies this`roundRobin
      ensures n == Select(old(State()), old(Fleet(nodes)), viable, priority)
      ensures score == ReportedScore(old(State()), old(Fleet(nodes))[n], priority)
      ensures roundRobin == (if strategy == RoundRobin then (old(roundRobin) + 1) % SIZE_LIMIT else old(roundRobin))
    {
      ghost var key := KeyAt(strategy, weights, Fleet(nodes), priority);
      var j: nat;
      match strategy {
        case RoundRobin =>
          j := roundRobin % |viable|;
          roundRobin := (roundRobin + 1) % SIZE_LIMIT;
          score := 0.0;
        case LeastLoad =>
          j, score := LowestCpu(viable, key);
        case PriorityRouting =>
          if IsHigh(priority) {
            j, score := LowestLatency(viable, key);
          } else {
            j, score := ShortestQueue(viable, key);
          }
        case MultiConstraint =>
          j, score := HighestScore(viable, priority, key);
      }
      n := viable[j];
    }

    /** One pass: find the viable nodes, choose one, reserve on it. */
    method AttemptOnce(req: Requirements) returns (node: Option<nat>, score: real)
      requires Valid() && Selectable(State(), Fleet(nodes), req.priority)
      modifies this`roundRobin, (set e <- nodes)`usage, (set e <- nodes)`processed
      ensures Valid()
      ensures Outcome(State(), Fleet(nodes), node, score) == Attempt(old(State()), old(Fleet(nodes)), req)
    {
      var viable := GetViableEdges(req.demand);
      if viable == [] {
        return None, 0.0;
      }
      node, score := ChargeOneOf(viable, req);
    }

    method ChargeOneOf(viable: seq<nat>, req: Requirements) returns (node: Option<nat>, score: real)
      requires Valid() && viable != [] && (forall j :: 0 <= j < |viable| ==> viable[j] < |nodes|)
      requires Selectable(State(), Fleet(nodes), req.priority)
      modifies this`roundRobin, (set e <- nodes)`usage, (set e <- nodes)`processed
      ensures Valid()
      ensures Outcome(State(), Fleet(nodes), node, score) == Charge(old(State()), old(Fleet(nodes)), viable, req)
    {
      var n, s := Choose(viable, req.priority);
      ReserveOn(n, req.demand);
      node, score := Some(n), s;
    }

    method ReserveOn(n: nat, d: Vec)
      requires Valid() && n < |nodes|
      modifies (set e <- nodes)`usage, (set e <- nodes)`processed
      ensures Fleet(nodes) == old(Fleet(nodes))[n := old(Fleet(nodes))[n].Reserve(d)]
    {
      DifferentFrom(nodes, n);
      nodes[n].AllocateResources(d);
    }

    method Conclude(task: Task, node: Option<nat>)
      modifies this`succeeded, this`failed, task`status, task`edge
      ensures node.Some? ==>
        succeeded == old(succeeded) + 1 && failed == old(failed) && task.status == Queued && task.edge == node
      ensures node.None? ==>
        && succeeded == old(succeeded) && failed == old(failed) + 1
        && task.status == old(task.status) && task.edge == old(task.edge)
      ensures State() == old(State()).(succeeded := succeeded, failed := failed) && Fleet(nodes) == old(Fleet(nodes))
    {
      if node.Some? {
        succeeded := succeeded + 1;
        task.edge := node;
        task.status := Queued;
      } else {
        failed := failed + 1;
      }
    }

    /** Counts the request, then makes its single attempt. */
    method RequestOnce(req: Requirements) returns (node: Option<nat>, score: real)
      requires Valid() && Selectable(State(), Fleet(nodes), req.priority)
      modifies this`total, this`roundRobin, (set e <- nodes)`usage, (set e <- nodes)`processed
      ensures Valid()
      ensures Outcome(State(), Fleet(nodes), node, score) == Attempt(Requested(old(State())), old(Fleet(nodes)), req)
    {
      total := total + 1;
      node, score := AttemptOnce(req);
    }

    method AllocateTask(task: Task) returns (node: Option<nat>, score: real)
      requires Valid() && Selectable(State(), Fleet(nodes), task.data.req.priority)
      modifies this`total, this`succeeded, this`failed, this`roundRobin, task`status, task`edge
      modifies (set e <- nodes)`usage, (set e <- nodes)`processed
      ensures Valid()
      ensures Outcome(State(), Fleet(nodes), node, score) == Allocate(old(State()), old(Fleet(nodes)), task.data.req)
      ensures task.status == (if node.Some? then Queued else old(task.status))
      ensures task.edge == (if node.Some? then node else old(task.edge))
    {
      node, score := RequestOnce(task.data.req);
      ghost var o := Outcome(State(), Fleet(nodes), node, score);
      Conclude(task, node);
      assert Outcome(State(), Fleet(nodes), node, score) == Concluded(o);
    }

    /** What other threads do during the sleep between two attempts. */
    method Sleep(es: seq<EnvAction>)
      requires Valid()
      modifies (set e <- nodes)`usage, (set e <- nodes)`available, (set e <- nodes)`queue
      ensures Valid() && State() == old(State()) && Fleet(nodes) == ApplyAll(old(Fleet(nodes)), es)
    {
      var i := 0;
      while i < |es|
        invariant 0 <= i <= |es|
        invariant Fleet(nodes) == ApplyAll(old(Fleet(nodes)), es[..i])
      {
        assert es[..i + 1][..i] == es[..i];
        Interfere(es[i]);
        i := i + 1;
      }
      assert es[..i] == es;
    }

    method Interfere(e: EnvAction)
      requires Valid()
      modifies (set e <- nodes)`usage, (set e <- nodes)`available, (set e <- nodes)`queue
      ensures Fleet(nodes) == Apply(old(Fleet(nodes)), e)
    {
      if e.node < |nodes| {
        var edge := nodes[e.node];
        DifferentFrom(nodes, e.node);
        match e {
          case Freed(_, demand) => edge.DeallocateResources(demand);
          case Fluctuated(_, cpu, ram) => edge.SimulateResourceFluctuation(cpu, ram);
          case Availability(_, value) => edge.SetAvailable(value);
          case Took(_, index) =>
            if index < |edge.queue| {
              edge.queue := RemoveAt(edge.queue, index);
              assert DataOf(edge.queue) == RemoveAt(old(DataOf(edge.queue)), index);
            }
        }
        assert edge.View() == Affect(old(edge.View()), e);
      }
      assert Fleet(nodes) == Apply(old(Fleet(nodes)), e);
    }

    method AllocateTaskWithRetry(task: Task, maxRetries: nat, env: seq<seq<EnvAction>>)
        returns (node: Option<nat>, score: real)
      requires Valid() && (strategy == MultiConstraint ==> weights.NonNegative())
      requires Sound(Fleet(nodes)) && PermittedEnv(env) && ZERO.AtMost(task.data.req.demand)
      modifies this`total, this`succeeded, this`failed, this`roundRobin, task`status, task`edge
      modifies (set e <- nodes)`usage, (set e <- nodes)`processed, (set e <- nodes)`available, (set e <- nodes)`queue
      ensures Valid()
      ensures Outcome(State(), Fleet(nodes), node, score) ==
        AllocateWithRetry(old(State()), old(Fleet(nodes)), task.data.req, maxRetries, env)
      ensures task.status == (if node.Some? then Queued else old(task.status))
      ensures task.edge == (if node.Some? then node else old(task.edge))
    {
      ghost var o := RetryFrom(Requested(State()), Fleet(nodes), task.data.req, maxRetries, env, 0).0;
      node, score := RequestWithRetry(task.data.req, maxRetries, env);
      assert Outcome(State(), Fleet(nodes), node, score) == o;
      Conclude(task, node);
      assert Outcome(State(), Fleet(nodes), node, score) == Concluded(o);
    }

    /** Counts the request once, however many attempts follow. */
    method RequestWithRetry(req: Requirements, maxRetries: nat, env: seq<seq<EnvAction>>)
        returns (node: Option<nat>, score: real)
      requires Valid() && (strategy == MultiConstraint ==> weights.NonNegative())
      requires Sound(Fleet(nodes)) && PermittedEnv(env) && ZERO.AtMost(req.demand)
      modifies this`total, this`roundRobin
      modifies (set e <- nodes)`usage, (set e <- nodes)`processed, (set e <- nodes)`available, (set e <- nodes)`queue
      ensures Valid()
      ensures Outcome(State(), Fleet(nodes), node, score) ==
        RetryFrom(Requested(old(State())), old(Fleet(nodes)), req, maxRetries, env, 0).0
    {
      ghost var a, fleet := Requested(State()), Fleet(nodes);
      total := total + 1;
      assert State() == a && Fleet(nodes) == fleet;
      node, score := RetryLoop(req, maxRetries, env);
    }

    method RetryLoop(req: Requirements, maxRetries: nat, env: seq<seq<EnvAction>>)
        returns (node: Option<nat>, score: real)
      requires Valid() && (strategy == MultiConstraint ==> weights.NonNegative())
      requires Sound(Fleet(nodes)) && PermittedEnv(env) && ZERO.AtMost(req.demand)
      modifies this`roundRobin
      modifies (set e <- nodes)`usage, (set e <- nodes)`processed, (set e <- nodes)`available, (set e <- nodes)`queue
      ensures Valid()
      ensures Outcome(State(), Fleet(nodes), node, score)
        == RetryFrom(old(State()), old(Fleet(nodes)), req, maxRetries, env, 0).0
    {
      ghost var a, fleet := State(), Fleet(nodes);
      ghost var goal := RetryFrom(a, fleet, req, maxRetries, env, 0);
      var attempt := 0;
      while true
        invariant 0 <= attempt <= maxRetries
        invariant Valid() && State() == a && Fleet(nodes) == fleet && Sound(fleet)
        invariant RetryFrom(a, fleet, req, maxRetries, env, attempt) == goal
        decreases maxRetries - attempt
      {
        node, score := LoopAttempt(req, maxRetries, env, attempt);
        if node.Some? || nodes == [] || attempt == maxRetries {
          return;
        }
        Sleep(Between(env, attempt));
        fleet := Fleet(nodes);
        attempt := attempt + 1;
      }
    }

    /** One round: an attempt, after which either the loop is decided or the fleet is as it was. */
    method LoopAttempt(req: Requirements, maxRetries: nat, ghost env: seq<seq<EnvAction>>, ghost k: nat)
      returns (node: Option<nat>, score: real)
      requires Valid() && (strategy == MultiConstraint ==> weights.NonNegative())
      requires Sound(Fleet(nodes)) && PermittedEnv(env) && k <= maxRetries
      modifies this`roundRobin, (set e <- nodes)`usage, (set e <- nodes)`processed
      ensures Valid()
      ensures var r := RetryFrom(old(State()), old(Fleet(nodes)), req, maxRetries, env, k);
        if node.Some? || nodes == [] || k == maxRetries
        then Outcome(State(), Fleet(nodes), node, score) == r.0
        else
          && State() == old(State()) && Fleet(nodes) == old(Fleet(nodes))
          && Sound(ApplyAll(Fleet(nodes), Between(env, k)))
          && r == RetryFrom(State(), ApplyAll(Fleet(nodes), Between(env, k)), req, maxRetries, env, k + 1)
    {
      SoundIsSelectable(State(), Fleet(nodes), req.priority);
      EnvKeepsSound(Fleet(nodes), Between(env, k));
      RoundDecides(State(), Fleet(nodes), req, maxRetries, env, k);
      AttemptSucceedsIffFits(State(), Fleet(nodes), req);
      node, score := AttemptOnce(req);
    }
  }
}
