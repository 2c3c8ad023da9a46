/** The scheduler object: drain the queue, select, restore the rest (task_scheduler.cpp). */
module TaskSchedulers {
  import opened Tasks
  import opened Selection
  import opened Scheduling
  import opened EdgeNodes

  /** std::max_element by priority: moves only to a strictly higher one. */
  method HighestPriority(tasks: seq<Task>) returns (best: nat)
    requires tasks != []
    ensures best == FirstLeast(DataOf(tasks), PriorityKey)
  {
    ghost var q := DataOf(tasks);
    best := 0;
    var i := 1;
    while i < |tasks|
      invariant 1 <= i <= |tasks| && best < i
      invariant forall j :: 0 <= j < i ==> PriorityKey(q[best]) <= PriorityKey(q[j])
      invariant forall j :: 0 <= j < best ==> PriorityKey(q[best]) < PriorityKey(q[j])
    {
      if tasks[best].data.req.priority.Rank() < tasks[i].data.req.priority.Rank() {
        best := i;
      }
      i := i + 1;
    }
    FirstLeastUnique(q, PriorityKey, best);
  }

  /** std::min_element by remaining time; both operands of each comparison read the clock. */
  method LeastRemainingTime(tasks: seq<Task>, clock: Clock) returns (best: nat)
    requires tasks != []
    ensures best == LeastRemaining(DataOf(tasks), clock, |tasks|)
  {
    best := 0;
    var i := 1;
    while i < |tasks|
      invariant 1 <= i <= |tasks| && best < |tasks|
      invariant best == LeastRemaining(DataOf(tasks), clock, i)
    {
      if Remaining(tasks[i].data, clock(i).candidate) < Remaining(tasks[best].data, clock(i).best) {
        best := i;
      }
      i := i + 1;
    }
  }

  class TaskScheduler {
    var strategy: SchedulingStrategy
    var scheduled: nat

    constructor (strategy: SchedulingStrategy)
      ensures this.strategy == strategy && scheduled == 0
    {
      this.strategy, scheduled := strategy, 0;
    }

    method SetStrategy(strategy: SchedulingStrategy)
      modifies this`strategy
      ensures this.strategy == strategy
    {
      this.strategy := strategy;
    }

    method ScheduleTask(edge: EdgeNode?, task: Task?)
      modifies this`scheduled, (if edge == null then {} else {edge})`queue, (if task == null then {} else {task})`status
      ensures edge == null || task == null ==>
        scheduled == old(scheduled) && (edge != null ==> edge.queue == old(edge.queue))
          && (task != null ==> task.status == old(task.status))
      ensures edge != null && task != null ==>
        scheduled == old(scheduled) + 1 && edge.queue == old(edge.queue) + [task] && task.status == Queued
    {
      if edge == null || task == null {
        return;
      }
      task.status := Queued;
      edge.Enqueue(task);
      scheduled := scheduled + 1;
    }

    /** Returns the task at the strategy's index and leaves all others queued in their order. */
    method GetNextTask(edge: EdgeNode?, clock: Clock) returns (selected: Task?)
      modifies (if edge == null then {} else {edge})`queue
      ensures edge == null ==> selected == null
      ensures edge != null && old(edge.queue) == [] ==> selected == null && edge.queue == []
      ensures edge != null && old(edge.queue) != [] ==>
        var q := old(edge.queue);
        var i := PickIndex(strategy, DataOf(q), clock);
        selected == q[i] && edge.queue == RemoveAt(q, i)
    {
      if edge == null || edge.queue == [] {
        return null;
      }
      if strategy == Fifo {
        selected := edge.Dequeue();
        return;
      }
      var scratch := DrainQueue(edge);
      var i := SelectFrom(scratch, clock);
      selected := scratch[i];
      scratch := RemoveAt(scratch, i);
      Restore(edge, scratch);
    }

    method DrainQueue(edge: EdgeNode) returns (scratch: seq<Task>)
      modifies edge`queue
      ensures scratch == old(edge.queue) && edge.queue == []
    {
      scratch := [];
      while edge.queue != []
        invariant scratch + edge.queue == old(edge.queue)
        decreases |edge.queue|
      {
        var t := edge.Dequeue();
        scratch := scratch + [t];
      }
    }

    method SelectFrom(scratch: seq<Task>, clock: Clock) returns (i: nat)
      requires scratch != []
      ensures i == PickIndex(strategy, DataOf(scratch), clock)
    {
      i := 0;
      match strategy {
        case PriorityBased => i := HighestPriority(scratch);
        case EarliestDeadlineFirst => i := LeastRemainingTime(scratch, clock);
        case RoundRobinTimeSlice =>
        case Fifo =>
      }
    }

    method Restore(edge: EdgeNode, scratch: seq<Task>)
      modifies edge`queue
      ensures edge.queue == old(edge.queue) + scratch
    {
      var k := 0;
      while k < |scratch|
        invariant 0 <= k <= |scratch|
        invariant edge.queue == old(edge.queue) + scratch[..k]
      {
        edge.Enqueue(scratch[k]);
        k := k + 1;
      }
      assert scratch[..k] == scratch;
    }
  }
}
