/** One worker's loop over its node, run on its own (task_executor.cpp); RuntimeLedger covers the interleavings. */
module TaskExecutors {
  import opened Tasks
  import opened Selection
  import opened Scheduling
  import opened EdgeNodes
  import opened TaskSchedulers
  import opened Runtime
  import RuntimeLedger

  /** What one turn of the loop depends on: the scheduler's clock, the execution time, and when it ended. */
  datatype Turn = Turn(clock: Clock, estimated: int, finished: real)

  /**
   A node's worker after some turns: what is queued, what was run in which order and when it ended, deadlines missed,
   the node's usage.
   */
  datatype Progress = Progress(queue: seq<TaskData>, served: seq<TaskData>, ended: seq<real>, misses: nat, usage: Vec)

  /** The whole-millisecond test forgives less than a millisecond, and nothing when the clock was set back. */
  predicate InTime(t: TaskData, finished: real) {
    if t.created <= finished then finished < t.AbsoluteDeadline() + 1.0 else finished <= t.AbsoluteDeadline()
  }

  lemma InTimeIffNotExceeded(t: TaskData, finished: real)
    ensures InTime(t, finished) <==> !DeadlineExceeded(t, finished)
  {
  }

  /** One task is run to its end. */
  function RunTask(p: Progress, i: nat, finished: real): Progress
    requires i < |p.queue|
  {
    var t := p.queue[i];
    var misses := p.misses + if InTime(t, finished) then 0 else 1;
    Progress(RemoveAt(p.queue, i), p.served + [t], p.ended + [finished], misses, p.usage.Less(t.req.demand))
  }

  /** A turn that finds the queue empty only waits. */
  function TakeTurn(strategy: SchedulingStrategy, p: Progress, turn: Turn): Progress {
    if p.queue == [] then p else RunTask(p, PickIndex(strategy, p.queue, turn.clock), turn.finished)
  }

  function TakeTurns(strategy: SchedulingStrategy, p: Progress, turns: seq<Turn>): Progress {
    if turns == [] then p else TakeTurn(strategy, TakeTurns(strategy, p, turns[..|turns| - 1]), turns[|turns| - 1])
  }

  lemma TakeNextTurn(strategy: SchedulingStrategy, p: Progress, turns: seq<Turn>, k: nat)
    requires k < |turns|
    ensures TakeTurns(strategy, p, turns[..k + 1]) == TakeTurn(strategy, TakeTurns(strategy, p, turns[..k]), turns[k])
  {
    assert turns[..k + 1][..k] == turns[..k];
  }

  /** The node's reservations are in its usage; every queued demand is among them. */
  ghost predicate Covered(p: Progress) {
    NonNegativeDemands(p.queue) && TotalDemand(p.queue).AtMost(p.usage)
  }

  lemma RunTaskIsExact(p: Progress, i: nat, finished: real)
    requires Covered(p) && i < |p.queue|
    ensures var r := RunTask(p, i, finished);
      && Covered(r)
      && p.usage.Minus(TotalDemand(p.queue)) == r.usage.Minus(TotalDemand(r.queue))
      && multiset(p.queue) + multiset(p.served) == multiset(r.queue) + multiset(r.served)
  {
    RemoveAtKeepsTheRest(p.queue, i);
    RuntimeLedger.TotalDemandWithout(p.queue, i);
    TotalDemandNonNegative(RemoveAt(p.queue, i));
  }

  /** Over any turns no clamp fires, and nothing queued is lost or run twice. */
  lemma {:induction false} TurnsAreExact(strategy: SchedulingStrategy, p: Progress, turns: seq<Turn>)
    requires Covered(p)
    ensures var r := TakeTurns(strategy, p, turns);
      && Covered(r)
      && p.usage.Minus(TotalDemand(p.queue)) == r.usage.Minus(TotalDemand(r.queue))
      && multiset(p.queue) + multiset(p.served) == multiset(r.queue) + multiset(r.served)
      && |r.queue| == if |turns| <= |p.queue| then |p.queue| - |turns| else 0
  {
    if turns != [] {
      TurnsAreExact(strategy, p, turns[..|turns| - 1]);
      var m, turn := TakeTurns(strategy, p, turns[..|turns| - 1]), turns[|turns| - 1];
      if m.queue != [] {
        RunTaskIsExact(m, PickIndex(strategy, m.queue, turn.clock), turn.finished);
      }
    }
  }

  /**
   Given a turn per task, a worker empties its queue, runs each task once and gives back exactly the queue's
   reservations.
   */
  lemma WorkerFinishesItsQueue(strategy: SchedulingStrategy, p: Progress, turns: seq<Turn>)
    requires Covered(p) && |turns| >= |p.queue|
    ensures var r := TakeTurns(strategy, p, turns);
      && r.queue == [] && multiset(r.served) == multiset(p.queue) + multiset(p.served)
      && r.usage == p.usage.Minus(TotalDemand(p.queue))
  {
    TurnsAreExact(strategy, p, turns);
    var r := TakeTurns(strategy, p, turns);
    assert multiset(r.queue) == multiset{};
  }

  /** How many tasks ended a millisecond or more after their deadlines, or after them by a clock that was set back. */
  function LateEnds(served: seq<TaskData>, ended: seq<real>): nat
    requires |ended| == |served|
  {
    if served == [] then 0
    else
      var k := |served| - 1;
      LateEnds(served[..k], ended[..k])
        + if ended[k] >= served[k].created
          then (if ended[k] >= served[k].created + served[k].req.deadline as real + 1.0 then 1 else 0)
          else (if ended[k] > served[k].created + served[k].req.deadline as real then 1 else 0)
  }

  lemma LateEndsNext(served: seq<TaskData>, ended: seq<real>, t: TaskData, finished: real)
    requires |ended| == |served|
    ensures LateEnds(served + [t], ended + [finished]) == LateEnds(served, ended) + if InTime(t, finished) then 0 else 1
  {
    assert (served + [t])[..|served|] == served && (ended + [finished])[..|ended|] == ended;
  }

  lemma TurnKeepsMisses(strategy: SchedulingStrategy, p: Progress, turn: Turn, r: Progress)
    requires |p.ended| == |p.served| && p.misses == LateEnds(p.served, p.ended) && r == TakeTurn(strategy, p, turn)
    ensures |r.ended| == |r.served| && r.misses == LateEnds(r.served, r.ended)
  {
    if p.queue != [] {
      LateEndsNext(p.served, p.ended, p.queue[PickIndex(strategy, p.queue, turn.clock)], turn.finished);
    }
  }

  /** A miss is counted exactly for each task that ended late. */
  lemma {:induction false} MissesAreTheLateEnds(strategy: SchedulingStrategy, p: Progress, turns: seq<Turn>,
      r: Progress)
    requires |p.ended| == |p.served| && p.misses == LateEnds(p.served, p.ended) && r == TakeTurns(strategy, p, turns)
    ensures |r.ended| == |r.served| && r.misses == LateEnds(r.served, r.ended)
  {
    if turns != [] {
      var m := TakeTurns(strategy, p, turns[..|turns| - 1]);
      MissesAreTheLateEnds(strategy, p, turns[..|turns| - 1], m);
      TurnKeepsMisses(strategy, m, turns[|turns| - 1], r);
    }
  }

  lemma TurnEndsOne(strategy: SchedulingStrategy, p: Progress, turn: Turn, r: Progress)
    requires r == TakeTurn(strategy, p, turn)
    ensures |r.queue| == if p.queue == [] then 0 else |p.queue| - 1
    ensures r.ended == p.ended + if p.queue == [] then [] else [turn.finished]
  {
  }

  function Finishes(turns: seq<Turn>): (r: seq<real>)
    ensures |r| == |turns|
  {
    seq(|turns|, k requires 0 <= k < |turns| => turns[k].finished)
  }

  lemma FinishesNext(turns: seq<Turn>, n: nat, before: seq<Turn>, turn: Turn)
    requires turns == before + [turn]
    ensures Finishes(if |turns| <= n then turns else turns[..n])
      == Finishes(if |before| <= n then before else before[..n]) + if |before| < n then [turn.finished] else []
  {
    if |before| < n {
      assert Finishes(turns) == Finishes(before) + [turn.finished];
    } else {
      assert turns[..n] == before[..n];
    }
  }

  /** One task is run per turn while any is queued, and ends when that turn does. */
  lemma {:induction false} OneEndPerTurn(strategy: SchedulingStrategy, p: Progress, turns: seq<Turn>, r: Progress)
    requires r == TakeTurns(strategy, p, turns)
    ensures |r.queue| == if |turns| <= |p.queue| then |p.queue| - |turns| else 0
    ensures r.ended == p.ended + Finishes(if |turns| <= |p.queue| then turns else turns[..|p.queue|])
  {
    if turns != [] {
      var before, turn := turns[..|turns| - 1], turns[|turns| - 1];
      var m := TakeTurns(strategy, p, before);
      OneEndPerTurn(strategy, p, before, m);
      TurnEndsOne(strategy, m, turn, r);
      FinishesNext(turns, |p.queue|, before, turn);
    }
  }

  lemma StaysUnlessRemoved<T>(q: seq<T>, i: nat, t: T)
    requires i < |q| && t in q
    ensures t == q[i] || t in RemoveAt(q, i)
  {
    var j :| 0 <= j < |q| && q[j] == t;
    if j != i {
      assert RemoveAt(q, i)[if j < i then j else j - 1] == t;
    }
  }

  class TaskExecutor {
    const scheduler: TaskScheduler
    var active: map<nat, Task>
    var executed: nat
    var missed: nat
    var totalTime: int

    constructor (scheduler: TaskScheduler)
      ensures this.scheduler == scheduler && active == map[] && executed == missed == 0 && totalTime == 0
    {
      this.scheduler, active, executed, missed, totalTime := scheduler, map[], 0, 0, 0;
    }

    /** Runs one task: RUNNING, in the active map, terminal, out of the map, released, counted. */
    method SimulateTaskExecution(edge: EdgeNode, task: Task, estimated: int, finished: real)
      modifies this`active, this`executed, this`missed, this`totalTime, edge`usage, task`status
      ensures task.status == Completed || task.status == Failed
      ensures task.data.created <= finished ==>
        (task.status == Completed <==> finished < task.data.AbsoluteDeadline() + 1.0)
      ensures finished < task.data.created ==>
        (task.status == Completed <==> finished <= task.data.AbsoluteDeadline())
      ensures edge.usage == old(edge.usage).Less(task.data.req.demand)
      ensures active == old(active) - {task.data.id}
      ensures executed == old(executed) + if task.status == Completed then 1 else 0
      ensures missed == old(missed) + if task.status == Completed then 0 else 1
      ensures totalTime == old(totalTime) + estimated
    {
      task.status := Running;
      active := active[task.data.id := task];
      var met := !DeadlineExceeded(task.data, finished);
      InTimeIffNotExceeded(task.data, finished);
      task.status := if met then Completed else Failed;
      active := active - {task.data.id};
      edge.DeallocateResources(task.data.req.demand);
      assert edge.usage == edge.View().usage;
      if met {
        executed := executed + 1;
      } else {
        missed := missed + 1;
      }
      totalTime := totalTime + estimated;
    }

    /** The loop while the running flag is seen set for as many turns as given. */
    method ExecuteTasksForEdge(edge: EdgeNode, turns: seq<Turn>)
      modifies this`active, this`executed, this`missed, this`totalTime, edge`usage, edge`queue,
        (set t <- edge.queue)`status
      ensures var p := Progress(old(DataOf(edge.queue)), [], [], 0, old(edge.usage));
        var r := TakeTurns(scheduler.strategy, p, turns);
        && DataOf(edge.queue) == r.queue && edge.usage == r.usage
        && executed + missed == old(executed + missed) + |r.served|
        && missed == old(missed) + r.misses
      ensures forall t <- old(edge.queue) :: t in edge.queue || t.status == Completed || t.status == Failed
    {
      ghost var strategy, p := scheduler.strategy, Progress(DataOf(edge.queue), [], [], 0, edge.usage);
      ghost var r := p;
      for k := 0 to |turns|
        invariant scheduler.strategy == strategy && r == TakeTurns(strategy, p, turns[..k])
        invariant forall t <- edge.queue :: t in old(edge.queue)
        invariant DataOf(edge.queue) == r.queue && edge.usage == r.usage
        invariant executed + missed == old(executed + missed) + |r.served|
        invariant missed == old(missed) + r.misses
        invariant forall t <- old(edge.queue) :: t in edge.queue || t.status == Completed || t.status == Failed
      {
        OneTurn(edge, turns[k], r);
        TakeNextTurn(strategy, p, turns, k);
        r := TakeTurn(strategy, r, turns[k]);
      }
      assert turns[..|turns|] == turns;
    }

    /** One turn of the loop. */
    method OneTurn(edge: EdgeNode, turn: Turn, ghost p: Progress)
      requires DataOf(edge.queue) == p.queue && edge.usage == p.usage
      modifies this`active, this`executed, this`missed, this`totalTime, edge`usage, edge`queue,
        (set t <- edge.queue)`status
      ensures forall t <- edge.queue :: t in old(edge.queue)
      ensures var r := TakeTurn(scheduler.strategy, p, turn);
        && DataOf(edge.queue) == r.queue && edge.usage == r.usage
        && executed + missed == old(executed + missed) + |r.served| - |p.served|
        && missed == old(missed) + r.misses - p.misses
      ensures forall t <- old(edge.queue) :: t in edge.queue || t.status == Completed || t.status == Failed
    {
      ghost var q := edge.queue;
      var task := scheduler.GetNextTask(edge, turn.clock);
      if task != null {
        SimulateTaskExecution(edge, task, turn.estimated, turn.finished);
        ghost var i := PickIndex(scheduler.strategy, p.queue, turn.clock);
        forall t <- q ensures t == task || t in edge.queue {
          StaysUnlessRemoved(q, i, t);
        }
      }
    }
  }
}
