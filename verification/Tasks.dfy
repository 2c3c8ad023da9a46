/** Tasks, their resource demands and their timing (task.h, task.cpp). */
module Tasks {

  datatype Option<+T> = None | Some(value: T)

  function Max(a: real, b: real): real {
    if a < b then b else a
  }

  /** An amount of each reserved resource: CPU percent, RAM in MB, bandwidth in Mbps. */
  datatype Vec = Vec(cpu: real, ram: real, bandwidth: real) {
    function Plus(v: Vec): Vec {
      Vec(cpu + v.cpu, ram + v.ram, bandwidth + v.bandwidth)
    }

    function Minus(v: Vec): Vec {
      Vec(cpu - v.cpu, ram - v.ram, bandwidth - v.bandwidth)
    }

    /** Subtraction that stops at zero, as deallocation does. */
    function Less(v: Vec): Vec {
      Vec(Max(0.0, cpu - v.cpu), Max(0.0, ram - v.ram), Max(0.0, bandwidth - v.bandwidth))
    }

    predicate AtMost(v: Vec) {
      cpu <= v.cpu && ram <= v.ram && bandwidth <= v.bandwidth
    }
  }

  const ZERO := Vec(0.0, 0.0, 0.0)

  datatype Priority = Low | Medium | High | Critical {
    /** The enumerator's value. */
    function Rank(): int {
      match this
      case Low => 0
      case Medium => 1
      case High => 2
      case Critical => 3
    }
  }

  datatype Status = Created | Queued | Running | Completed | Failed | Reallocated

  datatype Requirements = Requirements(demand: Vec, deadline: int, priority: Priority)

  /** What never changes about a task. Times are in milliseconds. */
  datatype TaskData = TaskData(id: nat, req: Requirements, created: real) {
    function AbsoluteDeadline(): real {
      created + req.deadline as real
    }
  }

  /** A task object: its data, and the two fields other components write. */
  class Task {
    const data: TaskData
    var status: Status
    var edge: Option<nat>

    constructor (data: TaskData)
      ensures this.data == data && status == Created && edge == None
    {
      this.data := data;
      status, edge := Created, None;
    }
  }

  function DataOf(tasks: seq<Task>): (r: seq<TaskData>)
    ensures |r| == |tasks|
    ensures forall i :: 0 <= i < |tasks| ==> r[i] == tasks[i].data
  {
    seq(|tasks|, i requires 0 <= i < |tasks| => tasks[i].data)
  }

  /** std::chrono::duration_cast to a coarser unit: rounding towards zero. */
  function Truncate(x: real): int {
    if x >= 0.0 then x.Floor else -((-x).Floor)
  }

  function Elapsed(t: TaskData, now: real): int {
    Truncate(now - t.created)
  }

  function Remaining(t: TaskData, now: real): int {
    t.req.deadline - Elapsed(t, now)
  }

  predicate DeadlineExceeded(t: TaskData, now: real) {
    Elapsed(t, now) > t.req.deadline
  }

  /** Whole-millisecond remaining time over-reports the exact one by less than one millisecond. */
  lemma RemainingBracket(t: TaskData, now: real)
    requires t.created <= now
    ensures t.AbsoluteDeadline() - now <= Remaining(t, now) as real < t.AbsoluteDeadline() - now + 1.0
  {
  }

  /** The sum of the demands of a list of tasks. */
  function TotalDemand(q: seq<TaskData>): Vec {
    if q == [] then ZERO else TotalDemand(q[..|q| - 1]).Plus(q[|q| - 1].req.demand)
  }

  predicate NonNegativeDemands(q: seq<TaskData>) {
    forall i :: 0 <= i < |q| ==> ZERO.AtMost(q[i].req.demand)
  }

  lemma {:induction false} TotalDemandOfConcat(p: seq<TaskData>, q: seq<TaskData>)
    ensures TotalDemand(p + q) == TotalDemand(p).Plus(TotalDemand(q))
  {
    if q == [] {
      assert p + q == p;
    } else {
      assert (p + q)[..|p + q| - 1] == p + q[..|q| - 1];
      TotalDemandOfConcat(p, q[..|q| - 1]);
    }
  }

  lemma TotalDemandOfSingleton(t: TaskData)
    ensures TotalDemand([t]) == t.req.demand
  {
    assert [t][..0] == [];
  }

  lemma {:induction false} TotalDemandNonNegative(q: seq<TaskData>)
    requires NonNegativeDemands(q)
    ensures ZERO.AtMost(TotalDemand(q))
  {
    if q != [] {
      TotalDemandNonNegative(q[..|q| - 1]);
    }
  }
}
