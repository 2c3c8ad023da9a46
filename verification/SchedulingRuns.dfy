/** Whole runs of one node's queue: any interleaving of arrivals, picks and strategy switches. */
module SchedulingRuns {
  import opened Tasks
  import opened Selection
  import opened Scheduling

  datatype Event = Arrive(task: TaskData) | Pick(clock: Clock) | Switch(strategy: SchedulingStrategy)

  /** A queued task stamped with the number of the event that enqueued it. */
  datatype Entry = Entry(task: TaskData, arrival: nat)

  /** A returned task: the number of the event that took it, the strategy in force, the queue it scanned, its clock. */
  datatype Picked = Picked(entry: Entry, at: nat, strategy: SchedulingStrategy, scanned: seq<TaskData>, clock: Clock)

  datatype QueueState = QueueState(queue: seq<Entry>, out: seq<Picked>, strategy: SchedulingStrategy, now: nat)

  function TasksOf(q: seq<Entry>): (r: seq<TaskData>)
    ensures |r| == |q|
    ensures forall i :: 0 <= i < |q| ==> r[i] == q[i].task
  {
    seq(|q|, i requires 0 <= i < |q| => q[i].task)
  }

  function Take(s: QueueState, clock: Clock): Picked
    requires s.queue != []
  {
    var q := TasksOf(s.queue);
    Picked(s.queue[PickIndex(s.strategy, q, clock)], s.now, s.strategy, q, clock)
  }

  function Step(s: QueueState, e: Event): QueueState {
    match e
    case Arrive(task) =>
      s.(queue := s.queue + [Entry(task, s.now)], now := s.now + 1)
    case Switch(strategy) =>
      s.(strategy := strategy, now := s.now + 1)
    case Pick(clock) =>
      if s.queue == [] then s.(now := s.now + 1)
      else
        var i := PickIndex(s.strategy, TasksOf(s.queue), clock);
        QueueState(RemoveAt(s.queue, i), s.out + [Take(s, clock)], s.strategy, s.now + 1)
  }

  function Run(strategy: SchedulingStrategy, events: seq<Event>): QueueState {
    if events == [] then QueueState([], [], strategy, 0)
    else Step(Run(strategy, events[..|events| - 1]), events[|events| - 1])
  }

  // ---- Conservation ----

  function Arrived(events: seq<Event>): seq<TaskData> {
    if events == [] then []
    else
      var last := events[|events| - 1];
      Arrived(events[..|events| - 1]) + (if last.Arrive? then [last.task] else [])
  }

  function Returned(out: seq<Picked>): (r: seq<TaskData>)
    ensures |r| == |out|
    ensures forall i :: 0 <= i < |out| ==> r[i] == out[i].entry.task
  {
    seq(|out|, i requires 0 <= i < |out| => out[i].entry.task)
  }

  lemma TasksOfRemoveAt(q: seq<Entry>, i: nat)
    requires i < |q|
    ensures TasksOf(RemoveAt(q, i)) == RemoveAt(TasksOf(q), i)
  {
    var a, b := TasksOf(RemoveAt(q, i)), RemoveAt(TasksOf(q), i);
    forall k | 0 <= k < |a| ensures a[k] == b[k] {
      assert RemoveAt(q, i)[k] == q[if k < i then k else k + 1];
    }
  }

  lemma ReturnedWith(out: seq<Picked>, p: Picked)
    ensures Returned(out + [p]) == Returned(out) + [p.entry.task]
  {
  }

  lemma MoveOne(returned: seq<TaskData>, queued: seq<TaskData>, rest: seq<TaskData>, t: TaskData)
    requires multiset(queued) == multiset(rest) + multiset{t}
    ensures multiset(returned + [t]) + multiset(rest) == multiset(returned) + multiset(queued)
  {
  }

  lemma PickMovesOneTask(s: QueueState, clock: Clock)
    requires s.queue != []
    ensures var n := Step(s, Pick(clock));
            multiset(Returned(n.out)) + multiset(TasksOf(n.queue))
              == multiset(Returned(s.out)) + multiset(TasksOf(s.queue))
  {
    var q := TasksOf(s.queue);
    var i := PickIndex(s.strategy, q, clock);
    RemoveAtKeepsTheRest(q, i);
    TasksOfRemoveAt(s.queue, i);
    ReturnedWith(s.out, Take(s, clock));
    MoveOne(Returned(s.out), q, RemoveAt(q, i), q[i]);
  }

  /** Every task that arrived was returned once or is still queued, across any strategy switches. */
  lemma {:induction false} NothingLostOrDuplicated(strategy: SchedulingStrategy, events: seq<Event>)
    ensures var s := Run(strategy, events);
            multiset(Arrived(events)) == multiset(Returned(s.out)) + multiset(TasksOf(s.queue))
  {
    if events != [] {
      var before, e := events[..|events| - 1], events[|events| - 1];
      NothingLostOrDuplicated(strategy, before);
      var s := Run(strategy, before);
      if e.Arrive? {
        assert TasksOf(s.queue + [Entry(e.task, s.now)]) == TasksOf(s.queue) + [e.task];
      } else if e.Pick? && s.queue != [] {
        PickMovesOneTask(s, e.clock);
      }
    }
  }

  // ---- Overtaking ----

  /** The scan of q started after every creation and took at most d milliseconds. */
  ghost predicate ScanLasts(q: seq<TaskData>, clock: Clock, d: real) {
    exists mark: nat -> real ::
      ScanTimes(clock, mark, |q|) && CreatedBefore(q, mark(1)) && mark(|q|) - mark(1) <= d
  }

  /** The order a strategy promises between a returned task and one left waiting. */
  ghost predicate MayPass(first: Picked, waiting: Entry) {
    match first.strategy
    case Fifo => first.entry.arrival < waiting.arrival
    case RoundRobinTimeSlice => first.entry.arrival < waiting.arrival
    case PriorityBased =>
      var a, b := first.entry.task.req.priority.Rank(), waiting.task.req.priority.Rank();
      a > b || (a == b && first.entry.arrival < waiting.arrival)
    case EarliestDeadlineFirst =>
      forall d :: ScanLasts(first.scanned, first.clock, d) ==>
        waiting.task.AbsoluteDeadline() > first.entry.task.AbsoluteDeadline() - (1.0 + d)
  }

  ghost predicate InOrder(q: seq<Entry>) {
    forall i, j :: 0 <= i < j < |q| ==> q[i].arrival < q[j].arrival
  }

  ghost predicate BeforeNow(s: QueueState) {
    && (forall i :: 0 <= i < |s.queue| ==> s.queue[i].arrival < s.now)
    && (forall i :: 0 <= i < |s.out| ==> s.out[i].entry.arrival < s.out[i].at < s.now)
  }

  /** Pick number i passed only tasks it may pass: those queued at that moment and returned later, or still queued. */
  ghost predicate PassedFairly(s: QueueState, i: nat)
    requires i < |s.out|
  {
    var p := s.out[i];
    && (forall j :: i < j < |s.out| && s.out[j].entry.arrival < p.at ==> MayPass(p, s.out[j].entry))
    && (forall j :: 0 <= j < |s.queue| && s.queue[j].arrival < p.at ==> MayPass(p, s.queue[j]))
  }

  ghost predicate OrderInvariant(s: QueueState) {
    InOrder(s.queue) && BeforeNow(s) && forall i :: 0 <= i < |s.out| ==> PassedFairly(s, i)
  }

  lemma EdfPassesOnlyClose(q: seq<TaskData>, clock: Clock, j: nat, d: real)
    requires j < |q| && ScanLasts(q, clock, d)
    ensures q[j].AbsoluteDeadline() > q[PickIndex(EarliestDeadlineFirst, q, clock)].AbsoluteDeadline() - (1.0 + d)
  {
    var mark: nat -> real :|
      ScanTimes(clock, mark, |q|) && CreatedBefore(q, mark(1)) && mark(|q|) - mark(1) <= d;
    EdfAccuracy(q, clock, mark);
  }

  lemma PickPassesFairly(s: QueueState, clock: Clock, i: nat, j: nat)
    requires s.queue != [] && InOrder(s.queue) && i == PickIndex(s.strategy, TasksOf(s.queue), clock)
    requires j < |s.queue| && j != i
    ensures MayPass(Take(s, clock), s.queue[j])
  {
    var q := TasksOf(s.queue);
    match s.strategy {
      case PriorityBased =>
        assert PriorityKey(q[i]) <= PriorityKey(q[j]);
      case EarliestDeadlineFirst =>
        forall d | ScanLasts(q, clock, d)
          ensures q[j].AbsoluteDeadline() > q[i].AbsoluteDeadline() - (1.0 + d)
        {
          EdfPassesOnlyClose(q, clock, j, d);
        }
      case _ =>
    }
  }

  lemma EarlierPicksStayFair(s: QueueState, i: nat, last: Picked, k: nat)
    requires BeforeNow(s) && k < |s.out| && PassedFairly(s, k) && i < |s.queue| && last.entry == s.queue[i]
    ensures PassedFairly(QueueState(RemoveAt(s.queue, i), s.out + [last], s.strategy, s.now + 1), k)
  {
    var out, p := s.out + [last], s.out[k];
    forall j | k < j < |out| && out[j].entry.arrival < p.at ensures MayPass(p, out[j].entry) {
      assert j < |s.out| ==> out[j] == s.out[j];
    }
  }

  lemma NewPickIsFair(s: QueueState, i: nat, last: Picked)
    requires i < |s.queue| && forall j :: 0 <= j < |s.queue| && j != i ==> MayPass(last, s.queue[j])
    ensures PassedFairly(QueueState(RemoveAt(s.queue, i), s.out + [last], s.strategy, s.now + 1), |s.out|)
  {
    var rest := RemoveAt(s.queue, i);
    forall j | 0 <= j < |rest| ensures MayPass(last, rest[j]) {
      assert rest[j] == s.queue[if j < i then j else j + 1];
    }
  }

  lemma PickKeepsArrivals(s: QueueState, i: nat, last: Picked)
    requires InOrder(s.queue) && BeforeNow(s) && i < |s.queue| && last.entry == s.queue[i] && last.at == s.now
    ensures InOrder(RemoveAt(s.queue, i))
    ensures BeforeNow(QueueState(RemoveAt(s.queue, i), s.out + [last], s.strategy, s.now + 1))
  {
  }

  lemma PickKeepsOrder(s: QueueState, clock: Clock)
    requires OrderInvariant(s) && s.queue != []
    ensures OrderInvariant(Step(s, Pick(clock)))
  {
    var i := PickIndex(s.strategy, TasksOf(s.queue), clock);
    var n, last := Step(s, Pick(clock)), Take(s, clock);
    forall j | 0 <= j < |s.queue| && j != i ensures MayPass(last, s.queue[j]) {
      PickPassesFairly(s, clock, i, j);
    }
    PickKeepsArrivals(s, i, last);
    forall k | 0 <= k < |n.out| ensures PassedFairly(n, k) {
      if k < |s.out| {
        EarlierPicksStayFair(s, i, last, k);
      } else {
        NewPickIsFair(s, i, last);
      }
    }
  }

  lemma ArrivalKeepsOrder(s: QueueState, task: TaskData)
    requires OrderInvariant(s)
    ensures OrderInvariant(Step(s, Arrive(task)))
  {
    var n := Step(s, Arrive(task));
    forall k | 0 <= k < |n.out| ensures PassedFairly(n, k) {
      assert PassedFairly(s, k);
    }
  }

  lemma {:induction false} RunKeepsOrder(strategy: SchedulingStrategy, events: seq<Event>)
    ensures OrderInvariant(Run(strategy, events))
    ensures Run(strategy, events).now == |events|
  {
    if events != [] {
      var before, e := events[..|events| - 1], events[|events| - 1];
      RunKeepsOrder(strategy, before);
      var s := Run(strategy, before);
      match e {
        case Arrive(task) =>
          ArrivalKeepsOrder(s, task);
        case Pick(clock) =>
          if s.queue != [] {
            PickKeepsOrder(s, clock);
          } else {
            forall k | 0 <= k < |s.out| ensures PassedFairly(Step(s, e), k) {
              assert PassedFairly(s, k);
            }
          }
        case Switch(_) =>
          forall k | 0 <= k < |s.out| ensures PassedFairly(Step(s, e), k) {
            assert PassedFairly(s, k);
          }
      }
    }
  }

  /**
   Bounded overtaking. In any run, with any strategy switches, a returned task left behind, among the tasks that had
   arrived, only what the strategy of its pick allows: later arrivals; or lower priorities and later arrivals of its own
   priority; or, for a scan of at most d milliseconds, absolute deadlines above its own less 1 + d.
   */
  lemma BoundedOvertaking(strategy: SchedulingStrategy, events: seq<Event>, i: nat)
    requires i < |Run(strategy, events).out|
    ensures PassedFairly(Run(strategy, events), i)
  {
    RunKeepsOrder(strategy, events);
  }

  /** What may be left waiting when a task of this priority is returned. */
  predicate NoneHigher(returned: Priority, waiting: Priority) {
    match returned
    case Critical => true
    case High => waiting == High || waiting == Medium || waiting == Low
    case Medium => waiting == Medium || waiting == Low
    case Low => waiting == Low
  }

  lemma MayPassNoneHigher(first: Picked, waiting: Entry)
    requires first.strategy == PriorityBased && MayPass(first, waiting)
    ensures NoneHigher(first.entry.task.req.priority, waiting.task.req.priority)
  {
  }

  lemma PassedNoneHigher(s: QueueState, i: nat)
    requires i < |s.out| && s.out[i].strategy == PriorityBased && PassedFairly(s, i)
    ensures forall j :: i < j < |s.out| && s.out[j].entry.arrival < s.out[i].at ==>
      NoneHigher(s.out[i].entry.task.req.priority, s.out[j].entry.task.req.priority)
    ensures forall j :: 0 <= j < |s.queue| && s.queue[j].arrival < s.out[i].at ==>
      NoneHigher(s.out[i].entry.task.req.priority, s.queue[j].task.req.priority)
  {
    forall j | i < j < |s.out| && s.out[j].entry.arrival < s.out[i].at
      ensures NoneHigher(s.out[i].entry.task.req.priority, s.out[j].entry.task.req.priority)
    {
      MayPassNoneHigher(s.out[i], s.out[j].entry);
    }
    forall j | 0 <= j < |s.queue| && s.queue[j].arrival < s.out[i].at
      ensures NoneHigher(s.out[i].entry.task.req.priority, s.queue[j].task.req.priority)
    {
      MayPassNoneHigher(s.out[i], s.queue[j]);
    }
  }

  /** No task is returned under priority scheduling while one of higher priority that has arrived waits, in any run. */
  lemma NoHigherPriorityWaits(strategy: SchedulingStrategy, events: seq<Event>, i: nat, s: QueueState)
    requires s == Run(strategy, events) && i < |s.out| && s.out[i].strategy == PriorityBased
    ensures forall j :: i < j < |s.out| && s.out[j].entry.arrival < s.out[i].at ==>
      NoneHigher(s.out[i].entry.task.req.priority, s.out[j].entry.task.req.priority)
    ensures forall j :: 0 <= j < |s.queue| && s.queue[j].arrival < s.out[i].at ==>
      NoneHigher(s.out[i].entry.task.req.priority, s.queue[j].task.req.priority)
  {
    BoundedOvertaking(strategy, events, i);
    PassedNoneHigher(s, i);
  }

  /**
   A task returned by any strategy but earliest-deadline-first left no task of its own priority behind that had
   arrived before it, whatever strategies are in force before and after.
   */
  lemma EqualPrioritiesStayFifo(strategy: SchedulingStrategy, events: seq<Event>, i: nat, j: nat)
    requires i < j < |Run(strategy, events).out|
    requires var out := Run(strategy, events).out;
             && out[i].strategy != EarliestDeadlineFirst
             && out[i].entry.task.req.priority == out[j].entry.task.req.priority
    ensures Run(strategy, events).out[i].entry.arrival < Run(strategy, events).out[j].entry.arrival
  {
    BoundedOvertaking(strategy, events, i);
    RunKeepsOrder(strategy, events);
  }

  // ---- ROUND_ROBIN_TIME_SLICE behaves as FIFO ----

  function AsFifo(strategy: SchedulingStrategy): SchedulingStrategy {
    if strategy == RoundRobinTimeSlice then Fifo else strategy
  }

  function EventsAsFifo(events: seq<Event>): (r: seq<Event>)
    ensures |r| == |events|
  {
    seq(|events|, i requires 0 <= i < |events| =>
      if events[i].Switch? then Switch(AsFifo(events[i].strategy)) else events[i])
  }

  /** f is s with round robin replaced by FIFO. */
  predicate SameButFifo(s: QueueState, f: QueueState) {
    f.queue == s.queue && f.now == s.now && f.strategy == AsFifo(s.strategy) && Returned(f.out) == Returned(s.out)
  }

  lemma OneMoreReturned(s: seq<Picked>, f: seq<Picked>, p: Picked, r: Picked)
    requires Returned(s) == Returned(f) && p.entry == r.entry
    ensures Returned(s + [p]) == Returned(f + [r])
  {
    ReturnedWith(s, p);
    ReturnedWith(f, r);
  }

  lemma StepAsFifo(s: QueueState, f: QueueState, e: Event)
    requires SameButFifo(s, f)
    ensures SameButFifo(Step(s, e), Step(f, if e.Switch? then Switch(AsFifo(e.strategy)) else e))
  {
    if e.Pick? && s.queue != [] {
      OneMoreReturned(s.out, f.out, Take(s, e.clock), Take(f, e.clock));
    }
  }

  /** Replacing round robin by FIFO everywhere in a run changes no queue and no returned task. */
  lemma {:induction false} RoundRobinIsFifo(strategy: SchedulingStrategy, events: seq<Event>)
    ensures SameButFifo(Run(strategy, events), Run(AsFifo(strategy), EventsAsFifo(events)))
  {
    if events != [] {
      var before, e := events[..|events| - 1], events[|events| - 1];
      RoundRobinIsFifo(strategy, before);
      assert EventsAsFifo(events)[..|events| - 1] == EventsAsFifo(before);
      StepAsFifo(Run(strategy, before), Run(AsFifo(strategy), EventsAsFifo(before)), e);
    }
  }
}
