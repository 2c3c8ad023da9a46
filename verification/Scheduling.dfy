/** Which queued task runs next (task_scheduler.cpp): the selection each strategy makes. */
module Scheduling {
  import opened Tasks
  import opened Selection

  datatype SchedulingStrategy = Fifo | PriorityBased | EarliestDeadlineFirst | RoundRobinTimeSlice

  /** The two clock readings of one comparison: the one for the candidate and the one for the best so far. */
  datatype Reading = Reading(candidate: real, best: real)

  /** Readings by position in the queue: the comparison of element i uses clock(i). */
  type Clock = nat -> Reading

  /** A clock that stands still during the scan. */
  function At(now: real): Clock {
    _ => Reading(now, now)
  }

  function PriorityKey(t: TaskData): real {
    -(t.req.priority.Rank() as real)
  }

  /** Where the minimum search by remaining time stands after the first k elements. */
  function LeastRemaining(q: seq<TaskData>, clock: Clock, k: nat): (b: nat)
    requires 1 <= k <= |q|
    ensures b < k
  {
    if k == 1 then 0
    else
      var b := LeastRemaining(q, clock, k - 1);
      if Remaining(q[k - 1], clock(k - 1).candidate) < Remaining(q[b], clock(k - 1).best) then k - 1 else b
  }

  /** The position of the task a strategy takes next. */
  function PickIndex(strategy: SchedulingStrategy, q: seq<TaskData>, clock: Clock): (i: nat)
    requires q != []
    ensures i < |q|
  {
    match strategy
    case Fifo => 0
    case RoundRobinTimeSlice => 0
    case PriorityBased => FirstLeast(q, PriorityKey)
    case EarliestDeadlineFirst => LeastRemaining(q, clock, |q|)
  }

  // ---- Priorities ----

  /** Some task of this priority is queued. */
  ghost predicate Has(q: seq<TaskData>, priority: Priority) {
    exists i :: 0 <= i < |q| && q[i].req.priority == priority
  }

  lemma ByEnumerator(t: TaskData)
    ensures PriorityKey(t) == match t.req.priority
                              case Low => 0.0
                              case Medium => -1.0
                              case High => -2.0
                              case Critical => -3.0
  {
  }

  /**
   Priority scheduling takes a critical task if one is queued, or else a high one if one is queued, or else a medium one
   if one is queued; and the first of its priority.
   */
  lemma HighestPriorityIsPicked(q: seq<TaskData>, clock: Clock, i: nat)
    requires q != [] && i == PickIndex(PriorityBased, q, clock)
    ensures q[i].req.priority ==
      if Has(q, Critical) then Critical else if Has(q, High) then High else if Has(q, Medium) then Medium else Low
    ensures forall j :: 0 <= j < i ==> q[j].req.priority != q[i].req.priority
  {
    forall j | 0 <= j < |q|
      ensures q[j].req.priority == Critical ==> q[i].req.priority == Critical
      ensures q[j].req.priority == High ==> q[i].req.priority == Critical || q[i].req.priority == High
      ensures q[j].req.priority == Medium ==> q[i].req.priority != Low
      ensures j < i ==> q[j].req.priority != q[i].req.priority
    {
      ByEnumerator(q[i]);
      ByEnumerator(q[j]);
    }
  }

  // ---- Earliest deadline first, with a clock that moves during the scan ----

  /** Both readings of every comparison lie between the scan's consecutive time marks. */
  ghost predicate ScanTimes(clock: Clock, mark: nat -> real, n: nat) {
    forall i :: 1 <= i < n ==>
      mark(i) <= clock(i).candidate <= mark(i + 1) && mark(i) <= clock(i).best <= mark(i + 1)
  }

  /** No reading is before a creation time. */
  ghost predicate CreatedBefore(q: seq<TaskData>, time: real) {
    forall i :: 0 <= i < |q| ==> q[i].created <= time
  }

  /** The order in which one producer queues its tasks. */
  ghost predicate InCreationOrder(q: seq<TaskData>) {
    forall i, j :: 0 <= i < j < |q| ==> q[i].created <= q[j].created
  }

  lemma {:induction false} MarksGrow(clock: Clock, mark: nat -> real, n: nat, i: nat)
    requires ScanTimes(clock, mark, n) && 1 <= i <= n
    ensures mark(1) <= mark(i)
  {
    if i > 1 {
      MarksGrow(clock, mark, n, i - 1);
      assert mark(i - 1) <= clock(i - 1).best <= mark(i);
    }
  }

  /** The best of the first k elements misses their true minimum by less than 1 ms plus the time scanned. */
  lemma {:induction false} LeastRemainingAccuracy(q: seq<TaskData>, clock: Clock, mark: nat -> real, k: nat)
    requires 1 <= k <= |q|
    requires ScanTimes(clock, mark, |q|) && CreatedBefore(q, mark(1))
    ensures forall i :: 0 <= i < k ==>
      q[LeastRemaining(q, clock, k)].AbsoluteDeadline() < q[i].AbsoluteDeadline() + 1.0 + (mark(k) - mark(1))
  {
    if k > 1 {
      LeastRemainingAccuracy(q, clock, mark, k - 1);
      MarksGrow(clock, mark, |q|, k - 1);
      MarksGrow(clock, mark, |q|, k);
      var b, x, r := LeastRemaining(q, clock, k - 1), q[k - 1], clock(k - 1);
      assert mark(k - 1) <= r.candidate <= mark(k) && mark(k - 1) <= r.best <= mark(k);
      RemainingBracket(x, r.candidate);
      RemainingBracket(q[b], r.best);
    }
  }

  /**
   However the clock advances during the scan, the picked task's absolute deadline is less than
   one millisecond plus the duration of the scan above the least absolute deadline in the queue.
   */
  lemma EdfAccuracy(q: seq<TaskData>, clock: Clock, mark: nat -> real)
    requires q != []
    requires ScanTimes(clock, mark, |q|) && CreatedBefore(q, mark(1))
    ensures var p := q[PickIndex(EarliestDeadlineFirst, q, clock)];
            forall i :: 0 <= i < |q| ==>
              p.AbsoluteDeadline() < q[i].AbsoluteDeadline() + 1.0 + (mark(|q|) - mark(1))
  {
    LeastRemainingAccuracy(q, clock, mark, |q|);
  }

  /** A later deadline can win even with the clock standing still: here by more than nine tenths of a millisecond. */
  lemma EdfCanPickTheLaterDeadline()
    ensures exists q: seq<TaskData>, now: real ::
              && |q| == 2 && InCreationOrder(q) && CreatedBefore(q, now)
              && PickIndex(EarliestDeadlineFirst, q, At(now)) == 0
              && q[0].AbsoluteDeadline() > q[1].AbsoluteDeadline() + 0.9
  {
    var q := [TaskData(0, Requirements(ZERO, 11, Low), 0.0), TaskData(1, Requirements(ZERO, 10, Low), 0.05)];
    var clock := At(1.0);
    assert (0.95 as real).Floor == 0;
    assert Remaining(q[0], 1.0) == 10 && Remaining(q[1], 1.0) == 10;
    assert LeastRemaining(q, clock, 1) == 0;
    assert LeastRemaining(q, clock, 2) == 0;
    assert InCreationOrder(q) && CreatedBefore(q, 1.0);
    assert PickIndex(EarliestDeadlineFirst, q, clock) == 0;
    assert q[0].AbsoluteDeadline() > q[1].AbsoluteDeadline() + 0.9;
  }

  // ---- Draining a queue with no arrivals ----

  /** What repeated picks return, pick p using clocks(p). */
  function DrainedBy(strategy: SchedulingStrategy, q: seq<TaskData>, clocks: nat -> Clock): seq<TaskData>
    decreases |q|
  {
    if q == [] then [] else
      var i := PickIndex(strategy, q, clocks(|q|));
      [q[i]] + DrainedBy(strategy, RemoveAt(q, i), clocks)
  }

  lemma {:induction false} PriorityDrainStep(q: seq<TaskData>, clocks: nat -> Clock)
    ensures DrainedBy(PriorityBased, q, clocks) == Drain(q, PriorityKey)
    decreases |q|
  {
    if q != [] {
      PriorityDrainStep(RemoveAt(q, FirstLeast(q, PriorityKey)), clocks);
    }
  }

  /** Priority scheduling without arrivals is the stable sort by descending priority, and nothing else. */
  lemma PriorityDrainIsStableSort(q: seq<TaskData>, clocks: nat -> Clock, r: seq<TaskData>)
    ensures r == DrainedBy(PriorityBased, q, clocks) <==> IsStableSort(r, q, PriorityKey)
  {
    PriorityDrainStep(q, clocks);
    DrainIsStableSort(q, PriorityKey);
    if IsStableSort(r, q, PriorityKey) {
      StableSortUnique(r, Drain(q, PriorityKey), PriorityKey);
    }
  }

  function DeadlineKey(t: TaskData): real {
    t.AbsoluteDeadline()
  }

  ghost predicate WholeMilliseconds(q: seq<TaskData>) {
    forall i :: 0 <= i < |q| ==> q[i].created == q[i].created.Floor as real
  }

  lemma WholeMillisecondRemaining(t: TaskData, now: real)
    requires t.created <= now && t.created == t.created.Floor as real
    ensures Remaining(t, now) as real == t.AbsoluteDeadline() - now.Floor as real
  {
    assert (now - t.created).Floor == now.Floor - t.created.Floor;
  }

  lemma SameReadingComparesDeadlines(a: TaskData, b: TaskData, now: real)
    requires a.created <= now && a.created == a.created.Floor as real
    requires b.created <= now && b.created == b.created.Floor as real
    ensures Remaining(a, now) < Remaining(b, now) <==> DeadlineKey(a) < DeadlineKey(b)
  {
    WholeMillisecondRemaining(a, now);
    WholeMillisecondRemaining(b, now);
  }

  /** b is the first of the first k tasks with the earliest deadline. */
  ghost predicate FirstEarliest(q: seq<TaskData>, b: nat, k: nat)
    requires b < k <= |q|
  {
    && (forall j :: 0 <= j < k ==> DeadlineKey(q[b]) <= DeadlineKey(q[j]))
    && (forall j :: 0 <= j < b ==> DeadlineKey(q[b]) < DeadlineKey(q[j]))
  }

  lemma OneMoreCompared(q: seq<TaskData>, b: nat, k: nat)
    requires b < k < |q| && FirstEarliest(q, b, k)
    ensures FirstEarliest(q, if DeadlineKey(q[k]) < DeadlineKey(q[b]) then k else b, k + 1)
  {
  }

  lemma {:induction false} OneReadingFindsTheLeast(q: seq<TaskData>, now: real, k: nat)
    requires 1 <= k <= |q| && CreatedBefore(q, now) && WholeMilliseconds(q)
    ensures FirstEarliest(q, LeastRemaining(q, At(now), k), k)
  {
    if k > 1 {
      OneReadingFindsTheLeast(q, now, k - 1);
      var b := LeastRemaining(q, At(now), k - 1);
      SameReadingComparesDeadlines(q[k - 1], q[b], now);
      OneMoreCompared(q, b, k - 1);
    }
  }

  lemma {:induction false} EdfDrainStep(q: seq<TaskData>, times: nat -> real)
    requires WholeMilliseconds(q)
    requires forall p :: CreatedBefore(q, times(p))
    ensures DrainedBy(EarliestDeadlineFirst, q, p => At(times(p))) == Drain(q, DeadlineKey)
    decreases |q|
  {
    if q != [] {
      var clocks: nat -> Clock := p => At(times(p));
      assert CreatedBefore(q, times(|q|));
      OneReadingFindsTheLeast(q, times(|q|), |q|);
      var i := PickIndex(EarliestDeadlineFirst, q, clocks(|q|));
      FirstLeastUnique(q, DeadlineKey, i);
      var rest := RemoveAt(q, i);
      forall p ensures CreatedBefore(rest, times(p)) {
        assert CreatedBefore(q, times(p));
      }
      EdfDrainStep(rest, times);
    }
  }

  /**
   With creation times on whole milliseconds and one reading per pick, earliest-deadline-first without
   arrivals is the stable sort by absolute deadline, whatever times the picks happen.
   */
  lemma EdfDrainIsStableSort(q: seq<TaskData>, times: nat -> real, r: seq<TaskData>)
    requires WholeMilliseconds(q)
    requires forall p :: CreatedBefore(q, times(p))
    ensures r == DrainedBy(EarliestDeadlineFirst, q, p => At(times(p))) <==> IsStableSort(r, q, DeadlineKey)
  {
    EdfDrainStep(q, times);
    DrainIsStableSort(q, DeadlineKey);
    if IsStableSort(r, q, DeadlineKey) {
      StableSortUnique(r, Drain(q, DeadlineKey), DeadlineKey);
    }
  }
}
