/** Edge nodes: the reservation ledger and the task queue (edge_node.h, edge_node.cpp). */
module EdgeNodes {
  import opened Tasks

  /** std::clamp. */
  function Clamp(v: real, lo: real, hi: real): real {
    if v < lo then lo else if hi < v then hi else v
  }

  /** The observable state of one node. */
  datatype Node = Node(capacity: Vec, latency: int, usage: Vec, available: bool, queue: seq<TaskData>, processed: nat)
  {
    /** The no-overcommit invariant. */
    predicate Within() {
      ZERO.AtMost(usage) && usage.AtMost(capacity)
    }

    predicate CanAllocate(d: Vec) {
      && available
      && capacity.cpu - usage.cpu >= d.cpu
      && capacity.ram - usage.ram >= d.ram
      && capacity.bandwidth - usage.bandwidth >= d.bandwidth
    }

    function Reserve(d: Vec): Node {
      this.(usage := usage.Plus(d), processed := processed + 1)
    }

    function Release(d: Vec): Node {
      this.(usage := usage.Less(d))
    }

    /** Background load: cpu and ram are the two random draws, from -5 to 5. */
    function Fluctuate(cpu: real, ram: real): Node {
      this.(usage := Vec(
        Clamp(usage.cpu + cpu, 0.0, capacity.cpu),
        Clamp(usage.ram + ram * (capacity.ram / 100.0), 0.0, capacity.ram),
        usage.bandwidth))
    }
  }

  /** Background load reaches available nodes only. */
  function Loaded(node: Node, cpu: real, ram: real): Node {
    if node.available then node.Fluctuate(cpu, ram) else node
  }

  /** A demand fits exactly on an available node whose usage would stay within capacity. */
  lemma FitsIffRoom(n: Node, d: Vec)
    ensures n.CanAllocate(d) <==>
      && n.available
      && n.usage.cpu + d.cpu <= n.capacity.cpu && n.usage.ram + d.ram <= n.capacity.ram
      && n.usage.bandwidth + d.bandwidth <= n.capacity.bandwidth
    ensures n.CanAllocate(d) <==> n.available && n.Reserve(d).usage.AtMost(n.capacity)
  {
  }

  /** The first draw moves CPU by as many percent points, the second RAM by as many percent of the capacity. */
  lemma FluctuationMoves(n: Node, cpu: real, ram: real)
    ensures 0.0 <= n.usage.cpu + cpu <= n.capacity.cpu ==> n.Fluctuate(cpu, ram).usage.cpu == n.usage.cpu + cpu
    ensures 0.0 <= n.usage.ram + ram * n.capacity.ram / 100.0 <= n.capacity.ram ==>
      n.Fluctuate(cpu, ram).usage.ram == n.usage.ram + ram * n.capacity.ram / 100.0
    ensures n.Fluctuate(cpu, ram).usage.bandwidth == n.usage.bandwidth
    ensures n.Fluctuate(cpu, ram) == n.(usage := n.Fluctuate(cpu, ram).usage)
  {
    assert ram * (n.capacity.ram / 100.0) == ram * n.capacity.ram / 100.0;
  }

  /** A node stays within capacity through a checked reservation, any release and any fluctuation. */
  lemma OperationsKeepWithin(n: Node, d: Vec, cpu: real, ram: real)
    requires n.Within() && ZERO.AtMost(d)
    ensures n.CanAllocate(d) ==> n.Reserve(d).Within()
    ensures n.Release(d).Within()
    ensures n.Fluctuate(cpu, ram).Within()
  {
  }

  /** Releasing what was reserved restores the usage exactly; a release alone never raises it. */
  lemma ReleaseUndoesReserve(n: Node, d: Vec)
    requires n.Within() && ZERO.AtMost(d)
    ensures n.Reserve(d).Release(d).usage == n.usage
    ensures n.Release(d).usage.AtMost(n.usage)
    ensures d.AtMost(n.usage) ==> n.Release(d).usage == n.usage.Minus(d)
  {
  }

  /** Releases only make room: a demand that fits keeps fitting. */
  lemma ReleaseKeepsRoom(n: Node, d: Vec, released: Vec)
    requires n.Within() && ZERO.AtMost(released) && n.CanAllocate(d)
    ensures n.Release(released).CanAllocate(d)
  {
  }

  class EdgeNode {
    const capacity: Vec
    const latency: int
    var usage: Vec
    var available: bool
    var queue: seq<Task>
    var processed: nat

    function View(): Node
      reads this
    {
      Node(capacity, latency, usage, available, DataOf(queue), processed)
    }

    constructor (capacity: Vec, latency: int)
      ensures View() == Node(capacity, latency, ZERO, true, [], 0)
      ensures queue == []
    {
      this.capacity, this.latency := capacity, latency;
      usage, available, queue, processed := ZERO, true, [], 0;
    }

    method Enqueue(task: Task)
      modifies this`queue
      ensures queue == old(queue) + [task]
    {
      queue := queue + [task];
    }

    method Dequeue() returns (task: Task?)
      modifies this`queue
      ensures old(queue) == [] ==> task == null && queue == []
      ensures old(queue) != [] ==> task == old(queue)[0] && queue == old(queue)[1..]
    {
      if queue == [] {
        return null;
      }
      task := queue[0];
      queue := queue[1..];
    }

    method AllocateResources(d: Vec)
      modifies this`usage, this`processed
      ensures View() == old(View()).Reserve(d)
    {
      usage := usage.Plus(d);
      processed := processed + 1;
    }

    method DeallocateResources(d: Vec)
      modifies this`usage
      ensures View() == old(View()).Release(d)
    {
      var cpu := Max(0.0, usage.cpu - d.cpu);
      var ram := Max(0.0, usage.ram - d.ram);
      usage := Vec(cpu, ram, Max(0.0, usage.bandwidth - d.bandwidth));
    }

    method SimulateResourceFluctuation(cpuDraw: real, ramDraw: real)
      modifies this`usage
      ensures View() == old(View()).Fluctuate(cpuDraw, ramDraw)
    {
      usage := Vec(usage.cpu + cpuDraw, usage.ram, usage.bandwidth);
      usage := Vec(Clamp(usage.cpu, 0.0, capacity.cpu), usage.ram, usage.bandwidth);
      usage := Vec(usage.cpu, usage.ram + ramDraw * (capacity.ram / 100.0), usage.bandwidth);
      usage := Vec(usage.cpu, Clamp(usage.ram, 0.0, capacity.ram), usage.bandwidth);
    }

    method SetAvailable(value: bool)
      modifies this`available
      ensures available == value
    {
      available := value;
    }
  }

  /** The registered nodes in edge-id order, the order in which the node map is walked. */
  function Fleet(nodes: seq<EdgeNode>): (r: seq<Node>)
    reads nodes
    ensures |r| == |nodes|
    ensures forall i :: 0 <= i < |nodes| ==> r[i] == nodes[i].View()
  {
    seq(|nodes|, i requires 0 <= i < |nodes| reads nodes => nodes[i].View())
  }

  /** No element occurs twice. */
  ghost predicate NoDuplicates<T>(s: seq<T>) {
    s == [] || (s[|s| - 1] !in s[..|s| - 1] && NoDuplicates(s[..|s| - 1]))
  }

  lemma {:induction false} DifferentFrom<T>(s: seq<T>, n: nat)
    requires NoDuplicates(s) && n < |s|
    ensures forall i :: 0 <= i < |s| && i != n ==> s[i] != s[n]
  {
    var m := |s| - 1;
    if n < m {
      DifferentFrom(s[..m], n);
      assert s[n] in s[..m];
    } else {
      assert forall i :: 0 <= i < m ==> s[i] in s[..m];
    }
  }
}
