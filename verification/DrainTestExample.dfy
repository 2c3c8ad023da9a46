/** The drain test of live_runtime.cpp passing too early, in two ways, on concrete runs with one node. */
module DrainTestExample {
  import opened Tasks
  import opened Selection
  import opened EdgeNodes
  import opened Allocation
  import opened Scheduling
  import opened Runtime
  import opened DrainTest

  const DEMAND := Vec(1.0, 1.0, 1.0)
  const CAPACITY := Vec(100.0, 100.0, 100.0)
  const REQUEST := Requirements(DEMAND, 1000, Low)
  const FIRST := TaskData(0, REQUEST, 0.0)
  const SECOND := TaskData(1, REQUEST, 0.0)

  function NewRuntime(scheduling: SchedulingStrategy): State {
    State(false, [Node(CAPACITY, 10, ZERO, true, [], 0)], [Waiting], [], Idle, Stats(0, 0, 0, 0, 0, 0), {}, true, Free,
      Configuration(RoundRobin, scheduling), [])
  }

  /** The node when tasks with count times the demand are reserved on it. */
  function TheNode(count: nat, queue: seq<TaskData>, processed: nat): Node {
    Node(CAPACITY, 10, Vec(count as real, count as real, count as real), true, queue, processed)
  }

  /** All that matters of a state while the producer works and the worker has not started. */
  predicate Scene(s: State, sch: SchedulingStrategy, p: Producer, lock: ConfigLock, records: seq<Record>, count: nat,
      queue: seq<TaskData>) {
    && !s.experiment && s.running && s.active == {} && s.config == Configuration(RoundRobin, sch)
    && s.producer == p && s.lock == lock && s.records == records && s.workers == [Waiting]
    && |s.nodes| == 1 && s.nodes[0] == TheNode(count, queue, s.nodes[0].processed)
  }

  const FRESH := Record(Created, None, Fresh)
  const RESERVED := Record(Created, None, Reserved(0))
  const ASSIGNED := Record(Queued, Some(0), Reserved(0))
  const QUEUED := Record(Queued, Some(0), Enqueued(0))

  // ---- One request, step by step ----

  lemma CreateStep(s: State, sch: SchedulingStrategy, records: seq<Record>, count: nat, q: seq<TaskData>, t: TaskData)
    requires Scene(s, sch, Idle, Free, records, count, q) && t == TaskData(|records|, REQUEST, 0.0)
    ensures Enabled(s, Create(REQUEST, 0.0))
    ensures Scene(Step(s, Create(REQUEST, 0.0)), sch, Ready(t), Free, records + [FRESH], count, q)
  {
  }

  lemma BeginStep(s: State, sch: SchedulingStrategy, records: seq<Record>, count: nat, q: seq<TaskData>, t: TaskData)
    requires Scene(s, sch, Ready(t), Free, records, count, q)
    ensures Enabled(s, Begin)
    ensures Scene(Step(s, Begin), sch, Checking(t, 0, 0, []), ByProducer, records, count, q)
  {
  }

  lemma CheckStep(s: State, sch: SchedulingStrategy, records: seq<Record>, count: nat, q: seq<TaskData>, t: TaskData)
    requires Scene(s, sch, Checking(t, 0, 0, []), ByProducer, records, count, q) && count < 100 && t.req == REQUEST
    ensures Enabled(s, Check)
    ensures Scene(Step(s, Check), sch, Checking(t, 0, 1, [0]), ByProducer, records, count, q)
  {
    assert s.nodes[0].CanAllocate(t.req.demand);
    assert [] + [0 as nat] == [0];
  }

  lemma CommitStep(s: State, sch: SchedulingStrategy, records: seq<Record>, count: nat, q: seq<TaskData>, t: TaskData)
    requires Scene(s, sch, Checking(t, 0, 1, [0]), ByProducer, records, count, q) && t.req == REQUEST
      && t.id < |records|
    requires records[t.id] == FRESH
    ensures Enabled(s, Commit(0))
    ensures Scene(Step(s, Commit(0)), sch, Committed(t, 0, RoundRobin), ByProducer, records[t.id := RESERVED],
      count + 1, q)
  {
    assert s.producer.viable[0] == 0;
  }

  lemma AcknowledgeStep(s: State, sch: SchedulingStrategy, records: seq<Record>, count: nat, q: seq<TaskData>,
      t: TaskData)
    requires Scene(s, sch, Committed(t, 0, RoundRobin), ByProducer, records, count, q) && t.id < |records|
    requires records[t.id] == RESERVED
    ensures Enabled(s, Acknowledge)
    ensures Scene(Step(s, Acknowledge), sch, HandOff(t, 0, RoundRobin), ByProducer, records[t.id := ASSIGNED], count, q)
  {
  }

  lemma ScheduleStep(s: State, sch: SchedulingStrategy, records: seq<Record>, count: nat, q: seq<TaskData>, t: TaskData)
    requires Scene(s, sch, HandOff(t, 0, RoundRobin), ByProducer, records, count, q) && t.id < |records|
    requires records[t.id] == ASSIGNED
    ensures Enabled(s, Schedule)
    ensures Scene(Step(s, Schedule), sch, Recording(t, 0, RoundRobin), ByProducer, records[t.id := QUEUED], count,
      q + [t])
  {
  }

  lemma RecordStep(s: State, sch: SchedulingStrategy, records: seq<Record>, count: nat, q: seq<TaskData>, t: TaskData)
    requires Scene(s, sch, Recording(t, 0, RoundRobin), ByProducer, records, count, q)
    ensures Enabled(s, RecordRow)
    ensures Scene(Step(s, RecordRow), sch, Idle, Free, records, count, q)
  {
  }

  /** From idle to a reservation. */
  lemma Reserves(s: State, run: seq<Action>, r: State, sch: SchedulingStrategy, records: seq<Record>, count: nat,
      q: seq<TaskData>, t: TaskData)
    returns (run': seq<Action>, r': State)
    requires IsRun(s, run) && After(s, run) == r && Scene(r, sch, Idle, Free, records, count, q)
    requires count < 100 && t == TaskData(|records|, REQUEST, 0.0)
    ensures IsRun(s, run') && After(s, run') == r'
    ensures Scene(r', sch, Committed(t, 0, RoundRobin), ByProducer, records + [RESERVED], count + 1, q)
  {
    CreateStep(r, sch, records, count, q, t);
    run' := Extend(s, run, r, Create(REQUEST, 0.0));
    r' := Step(r, Create(REQUEST, 0.0));
    BeginStep(r', sch, records + [FRESH], count, q, t);
    run' := Extend(s, run', r', Begin);
    r' := Step(r', Begin);
    CheckStep(r', sch, records + [FRESH], count, q, t);
    run' := Extend(s, run', r', Check);
    r' := Step(r', Check);
    CommitStep(r', sch, records + [FRESH], count, q, t);
    run' := Extend(s, run', r', Commit(0));
    r' := Step(r', Commit(0));
    LastReplaced(records, FRESH, RESERVED);
  }

  lemma LastReplaced<T>(s: seq<T>, x: T, y: T)
    ensures (s + [x])[|s| := y] == s + [y]
  {
  }

  /** From a reservation to idle again, with the task queued. */
  lemma Queues(s: State, run: seq<Action>, r: State, sch: SchedulingStrategy, records: seq<Record>, count: nat,
      q: seq<TaskData>, t: TaskData)
    returns (run': seq<Action>, r': State)
    requires IsRun(s, run) && After(s, run) == r && t.id == |records|
    requires Scene(r, sch, Committed(t, 0, RoundRobin), ByProducer, records + [RESERVED], count, q)
    ensures IsRun(s, run') && After(s, run') == r'
    ensures Scene(r', sch, Idle, Free, records + [QUEUED], count, q + [t])
  {
    LastReplaced(records, RESERVED, ASSIGNED);
    LastReplaced(records, ASSIGNED, QUEUED);
    AcknowledgeStep(r, sch, records + [RESERVED], count, q, t);
    run' := Extend(s, run, r, Acknowledge);
    r' := Step(r, Acknowledge);
    ScheduleStep(r', sch, records + [ASSIGNED], count, q, t);
    run' := Extend(s, run', r', Schedule);
    r' := Step(r', Schedule);
    RecordStep(r', sch, records + [QUEUED], count, q + [t], t);
    run' := Extend(s, run', r', RecordRow);
    r' := Step(r', RecordRow);
  }

  lemma OneQueued(sch: SchedulingStrategy) returns (run: seq<Action>, r: State)
    ensures Initial(NewRuntime(sch)) && IsRun(NewRuntime(sch), run) && After(NewRuntime(sch), run) == r
    ensures Scene(r, sch, Idle, Free, [QUEUED], 1, [FIRST])
  {
    var s := NewRuntime(sch);
    assert Scene(s, sch, Idle, Free, [], 0, []);
    run, r := Reserves(s, [], s, sch, [], 0, [], FIRST);
    run, r := Queues(s, run, r, sch, [], 1, [], FIRST);
    assert [] + [QUEUED] == [QUEUED] && [] + [FIRST] == [FIRST];
  }

  lemma TwoQueued(sch: SchedulingStrategy) returns (run: seq<Action>, r: State)
    ensures Initial(NewRuntime(sch)) && IsRun(NewRuntime(sch), run) && After(NewRuntime(sch), run) == r
    ensures Scene(r, sch, Idle, Free, [QUEUED, QUEUED], 2, [FIRST, SECOND])
  {
    run, r := OneQueued(sch);
    run, r := Reserves(NewRuntime(sch), run, r, sch, [QUEUED], 1, [FIRST], SECOND);
    run, r := Queues(NewRuntime(sch), run, r, sch, [QUEUED], 2, [FIRST], SECOND);
    assert [QUEUED] + [QUEUED] == [QUEUED, QUEUED] && [FIRST] + [SECOND] == [FIRST, SECOND];
  }

  /** The producer ends and starts to read. */
  lemma Drains(sch: SchedulingStrategy, run: seq<Action>, r: State, records: seq<Record>, count: nat, q: seq<TaskData>)
    returns (run': seq<Action>, w: Watch)
    requires Initial(NewRuntime(sch)) && IsRun(NewRuntime(sch), run) && After(NewRuntime(sch), run) == r
    requires Scene(r, sch, Idle, Free, records, count, q)
    ensures StartsDraining(NewRuntime(sch), run', w) && Scene(w.s, sch, Ended, Free, records, count, q)
  {
    run' := Extend(NewRuntime(sch), run, r, EndProducer);
    w := Watch(Step(r, EndProducer), Looking(0), {});
  }

  // ---- The worker's steps while the producer reads ----

  lemma Onward(w: Watch, moves: seq<Move>, r: Watch, m: Move) returns (longer: seq<Move>)
    requires IsWatch(w, moves) && Watched(w, moves) == r && CanMove(r, m)
    ensures longer == moves + [m] && IsWatch(w, longer) && Watched(w, longer) == Moved(r, m)
  {
    longer := moves + [m];
    assert longer[..|longer| - 1] == moves;
  }

  /** All that matters while the producer reads. */
  predicate Reading(w: Watch, sch: SchedulingStrategy, k: nat, worker: Worker, queue: seq<TaskData>, active: set<nat>,
      records: seq<Record>) {
    && w.reader == Looking(k) && w.s.producer == Ended && w.s.running && w.s.config.scheduling == sch
    && w.s.workers == [worker] && |w.s.nodes| == 1 && w.s.nodes[0].queue == queue
    && w.s.active == active && w.s.records == records
  }

  lemma PollMove(w: Watch, sch: SchedulingStrategy, k: nat, q: seq<TaskData>, records: seq<Record>)
    requires Reading(w, sch, k, Waiting, q, {}, records)
    ensures CanMove(w, Act(Poll(0))) && Reading(Moved(w, Act(Poll(0))), sch, k, Polling, q, {}, records)
  {
  }

  lemma LookMove(w: Watch, sch: SchedulingStrategy, worker: Worker, q: seq<TaskData>, records: seq<Record>)
    requires Reading(w, sch, 0, worker, q, {}, records) && (q == [] || (worker == Polling && sch != Fifo))
    ensures CanMove(w, Look(true)) && Reading(Moved(w, Look(true)), sch, 1, worker, q, {}, records)
  {
  }

  lemma PickMove(w: Watch, sch: SchedulingStrategy, k: nat, q: seq<TaskData>, records: seq<Record>)
    requires Reading(w, sch, k, Polling, [FIRST] + q, {}, records) && |records| > 0 && records[0] == QUEUED
    ensures CanMove(w, Act(Pick(0, 0)))
    ensures Reading(Moved(w, Act(Pick(0, 0))), sch, k, Taken(FIRST), q, {},
      records[0 := Record(Queued, Some(0), Held(0))])
  {
    assert RemoveAt([FIRST] + q, 0) == q;
  }

  lemma StartMove(w: Watch, sch: SchedulingStrategy, k: nat, q: seq<TaskData>, records: seq<Record>)
    requires Reading(w, sch, k, Taken(FIRST), q, {}, records) && |records| > 0
    ensures CanMove(w, Act(Start(0)))
    ensures Reading(Moved(w, Act(Start(0))), sch, k, Active(FIRST), q, {0},
      records[0 := records[0].(status := Running)])
  {
  }

  lemma FinishMove(w: Watch, sch: SchedulingStrategy, k: nat, q: seq<TaskData>, records: seq<Record>)
    requires Reading(w, sch, k, Active(FIRST), q, {0}, records) && |records| > 0
    ensures CanMove(w, Act(Finish(0, true)))
    ensures Reading(Moved(w, Act(Finish(0, true))), sch, k, Finished(FIRST, true), q, {0},
      records[0 := records[0].(status := Completed)])
  {
  }

  lemma UnlistMove(w: Watch, sch: SchedulingStrategy, k: nat, q: seq<TaskData>, records: seq<Record>)
    requires Reading(w, sch, k, Finished(FIRST, true), q, {0}, records)
    ensures CanMove(w, Act(Unlist(0)))
    ensures Reading(Moved(w, Act(Unlist(0))), sch, k, Unlisted(FIRST, true), q, {}, records)
  {
  }

  // ---- The two ways ----

  /** The next read makes the test pass although an allocated task is still to be run. */
  predicate PassesTooEarly(w: Watch) {
    Passes(w) && !AllAllocatedTerminal(w.s)
  }

  lemma UnfinishedAtTheEnd(w: Watch, sch: SchedulingStrategy, worker: Worker, q: seq<TaskData>, records: seq<Record>,
      id: nat)
    requires Reading(w, sch, 1, worker, q, {}, records)
    requires id < |records| && records[id].edge.Some? && records[id].status == Queued
    ensures PassesTooEarly(w)
  {
    assert w.s.records[id] == records[id];
  }

  /** The worker's half of the first way: it takes the only task before its queue is read. */
  lemma TakesBeforeTheRead(w: Watch, moves: seq<Move>, v: Watch, sch: SchedulingStrategy)
      returns (moves': seq<Move>, v': Watch)
    requires IsWatch(w, moves) && Watched(w, moves) == v && Reading(v, sch, 0, Polling, [FIRST], {}, [QUEUED])
    ensures IsWatch(w, moves') && Watched(w, moves') == v'
    ensures Reading(v', sch, 1, Taken(FIRST), [], {}, [Record(Queued, Some(0), Held(0))])
  {
    assert [FIRST] + [] == [FIRST];
    PickMove(v, sch, 0, [], [QUEUED]);
    moves' := Onward(w, moves, v, Act(Pick(0, 0)));
    v' := Moved(v, Act(Pick(0, 0)));
    LookMove(v', sch, Taken(FIRST), [], [Record(Queued, Some(0), Held(0))]);
    moves' := Onward(w, moves', v', Look(true));
    v' := Moved(v', Look(true));
  }

  /**
   Under every scheduling strategy: the worker has just taken the only task, its queue is truly empty, and the task is
   not yet in the active map.
   */
  lemma PassesWithATaskJustTaken(sch: SchedulingStrategy) returns (run: seq<Action>, w: Watch, moves: seq<Move>)
    ensures StartsDraining(NewRuntime(sch), run, w) && IsWatch(w, moves)
    ensures PassesTooEarly(Watched(w, moves)) && Watched(w, moves).s.workers == [Taken(FIRST)]
  {
    var r: State;
    run, r := OneQueued(sch);
    run, w := Drains(sch, run, r, [QUEUED], 1, [FIRST]);
    PollMove(w, sch, 0, [FIRST], [QUEUED]);
    moves := Onward(w, [], w, Act(Poll(0)));
    var v := Moved(w, Act(Poll(0)));
    moves, v := TakesBeforeTheRead(w, moves, v, sch);
    UnfinishedAtTheEnd(v, sch, Taken(FIRST), [], v.s.records, 0);
  }

  /** The worker's half of the second way: it runs the first of two tasks between the two reads. */
  lemma RunsBetweenReads(w: Watch, moves: seq<Move>, v: Watch, sch: SchedulingStrategy)
      returns (moves': seq<Move>, v': Watch)
    requires IsWatch(w, moves) && Watched(w, moves) == v
      && Reading(v, sch, 1, Polling, [FIRST, SECOND], {}, [QUEUED, QUEUED])
    ensures IsWatch(w, moves') && Watched(w, moves') == v'
    ensures Reading(v', sch, 1, Unlisted(FIRST, true), [SECOND], {}, [Record(Completed, Some(0), Held(0)), QUEUED])
  {
    assert [FIRST] + [SECOND] == [FIRST, SECOND];
    PickMove(v, sch, 1, [SECOND], [QUEUED, QUEUED]);
    moves' := Onward(w, moves, v, Act(Pick(0, 0)));
    v' := Moved(v, Act(Pick(0, 0)));
    StartMove(v', sch, 1, [SECOND], [Record(Queued, Some(0), Held(0)), QUEUED]);
    moves' := Onward(w, moves', v', Act(Start(0)));
    v' := Moved(v', Act(Start(0)));
    FinishMove(v', sch, 1, [SECOND], [Record(Running, Some(0), Held(0)), QUEUED]);
    moves' := Onward(w, moves', v', Act(Finish(0, true)));
    v' := Moved(v', Act(Finish(0, true)));
    UnlistMove(v', sch, 1, [SECOND], [Record(Completed, Some(0), Held(0)), QUEUED]);
    moves' := Onward(w, moves', v', Act(Unlist(0)));
    v' := Moved(v', Act(Unlist(0)));
  }

  /**
   Under every strategy that drains the queue to choose: the read sees the queue of two drained, the worker then takes,
   runs and unlists the first task, and the active map is read empty with the second task still queued.
   */
  lemma PassesWithADrainedQueue(sch: SchedulingStrategy) returns (run: seq<Action>, w: Watch, moves: seq<Move>)
    requires sch != Fifo
    ensures StartsDraining(NewRuntime(sch), run, w) && IsWatch(w, moves)
    ensures PassesTooEarly(Watched(w, moves)) && Watched(w, moves).s.workers == [Unlisted(FIRST, true)]
    ensures |Watched(w, moves).s.nodes| == 1 && Watched(w, moves).s.nodes[0].queue == [SECOND]
  {
    var r: State;
    run, r := TwoQueued(sch);
    run, w := Drains(sch, run, r, [QUEUED, QUEUED], 2, [FIRST, SECOND]);
    PollMove(w, sch, 0, [FIRST, SECOND], [QUEUED, QUEUED]);
    moves := Onward(w, [], w, Act(Poll(0)));
    var v := Moved(w, Act(Poll(0)));
    LookMove(v, sch, Polling, [FIRST, SECOND], [QUEUED, QUEUED]);
    moves := Onward(w, moves, v, Look(true));
    v := Moved(v, Look(true));
    moves, v := RunsBetweenReads(w, moves, v, sch);
    UnfinishedAtTheEnd(v, sch, Unlisted(FIRST, true), [SECOND], v.s.records, 1);
  }
}
