/**
 The producer, the workers and the reconfiguring threads as one state machine (live_runtime.cpp,
 task_executor.cpp, main.cpp): one critical section is one step, and steps of different threads interleave freely.
 */
module Runtime {
  import opened Tasks
  import opened Selection
  import opened EdgeNodes
  import opened Allocation
  import opened Scheduling

  const MAX_RETRIES: nat := 200

  /** Where one node's worker is in its loop. */
  datatype Worker =
    | Waiting                           // about to test the running flag
    | Polling                           // saw it set, about to ask the scheduler
    | Taken(t: TaskData)                // dequeued, in neither the queue nor the active map
    | Active(t: TaskData)               // RUNNING and in the active map
    | Finished(t: TaskData, met: bool)  // terminal status, still in the active map
    | Unlisted(t: TaskData, met: bool)  // erased from the active map, resources still reserved
    | Released(t: TaskData, met: bool)  // resources given back, not yet counted
    | Stopped

  /** Where the producer is. Checking..Recording hold the configuration and allocator mutexes. */
  datatype Producer =
    | Idle
    | Fluctuating(k: nat)                                            // updating node k's background load
    | Ready(t: TaskData)                                             // created, not yet requested
    | Checking(t: TaskData, attempt: nat, k: nat, viable: seq<nat>)  // nodes below k were checked in this attempt
    | Committed(t: TaskData, n: nat, used: AllocationStrategy)       // reserved on n
    | HandOff(t: TaskData, n: nat, used: AllocationStrategy)         // counted as a success, not yet queued
    | Recording(t: TaskData, n: nat, used: AllocationStrategy)       // queued, allocation row not yet written
    | Ended

  /** Bookkeeping for the proofs: the lifecycle phase of a task. */
  datatype Phase = Fresh | Reserved(n: nat) | Enqueued(n: nat) | Held(n: nat) | Done(n: nat) | Rejected

  datatype Record = Record(status: Status, edge: Option<nat>, phase: Phase)

  datatype Stats = Stats(total: nat, succeeded: nat, rejected: nat, scheduled: nat, executed: nat, missed: nat)

  datatype Configuration = Configuration(allocation: AllocationStrategy, scheduling: SchedulingStrategy)

  /** The configuration mutex: free, held by the producer's request, or by a thread applying next (if valid). */
  datatype ConfigLock = Free | ByProducer | ByReconfigurer(next: Option<Configuration>, half: bool)

  datatype LogEntry = LogEntry(id: nat, n: nat, used: AllocationStrategy, recorded: AllocationStrategy)

  datatype State = State(
    experiment: bool,        // runExperiment: background load between requests, no reconfiguration
    nodes: seq<Node>,
    workers: seq<Worker>,    // one per node
    records: seq<Record>,    // by task id, in creation order
    producer: Producer,
    stats: Stats,
    active: set<nat>,        // keys of the active-task map
    running: bool,
    lock: ConfigLock,
    config: Configuration,
    log: seq<LogEntry>)

  datatype Action =
    | Create(req: Requirements, created: real)
    | Begin
    | Check
    | Commit(n: nat)
    | NextAttempt
    | Reject
    | Acknowledge
    | Schedule
    | RecordRow
    | StartFluctuation
    | Fluctuate(cpu: real, ram: real)
    | EndFluctuation
    | EndProducer
    | StopExecutor
    | Poll(w: nat)
    | Quit(w: nat)
    | Pick(w: nat, i: nat)
    | Miss(w: nat)
    | Start(w: nat)
    | Finish(w: nat, met: bool)
    | Unlist(w: nat)
    | Release(w: nat)
    | Count(w: nat)
    | Acquire(next: Option<Configuration>)
    | ApplyAllocation
    | ApplyScheduling
    | Refuse

  // ---- Which steps are possible ----

  predicate IsWorkerStep(a: Action) {
    a.Poll? || a.Quit? || a.Pick? || a.Miss? || a.Start? || a.Finish? || a.Unlist? || a.Release? || a.Count?
  }

  /** What a worker in state w, with its node's queue, can do next. */
  predicate WorkerCan(running: bool, w: Worker, queue: seq<TaskData>, a: Action)
    requires IsWorkerStep(a)
  {
    match a
    case Poll(_) => w.Waiting? && running
    case Quit(_) => w.Waiting? && !running
    case Pick(_, i) => w.Polling? && i < |queue|
    case Miss(_) => w.Polling? && queue == []
    case Start(_) => w.Taken?
    case Finish(_, _) => w.Active?
    case Unlist(_) => w.Finished?
    case Release(_) => w.Unlisted?
    case Count(_) => w.Released?
  }

  predicate WorkerEnabled(s: State, a: Action)
    requires IsWorkerStep(a)
  {
    && a.w < |s.workers| && a.w < |s.nodes|
    && WorkerCan(s.running, s.workers[a.w], s.nodes[a.w].queue, a)
  }

  predicate Enabled(s: State, a: Action) {
    match a
    case Create(req, _) => s.producer.Idle? && ZERO.AtMost(req.demand)
    case Begin => s.producer.Ready? && s.lock == Free
    case Check => s.producer.Checking? && s.producer.k < |s.nodes|
    case Commit(n) => s.producer.Checking? && s.producer.k == |s.nodes| && n in s.producer.viable && n < |s.nodes|
    case NextAttempt =>
      s.producer.Checking? && s.producer.k == |s.nodes| && s.producer.viable == [] && s.nodes != []
        && s.producer.attempt < MAX_RETRIES
    case Reject =>
      && s.producer.Checking? && s.producer.k == |s.nodes| && s.producer.viable == []
      && (s.nodes == [] || s.producer.attempt == MAX_RETRIES)
      && s.producer.t.id < |s.records|
    case Acknowledge => s.producer.Committed? && s.producer.t.id < |s.records|
    case Schedule => s.producer.HandOff? && s.producer.n < |s.nodes| && s.producer.t.id < |s.records|
    case RecordRow => s.producer.Recording?
    case StartFluctuation => s.producer.Idle? && s.experiment
    case Fluctuate(cpu, ram) =>
      s.producer.Fluctuating? && s.producer.k < |s.nodes| && -5.0 <= cpu <= 5.0 && -5.0 <= ram <= 5.0
    case EndFluctuation => s.producer.Fluctuating? && s.producer.k == |s.nodes|
    case EndProducer => s.producer.Idle?
    case StopExecutor => s.producer.Ended?
    case Acquire(_) => s.lock == Free && !s.experiment
    case ApplyAllocation => s.lock.ByReconfigurer? && s.lock.next.Some? && !s.lock.half
    case ApplyScheduling => s.lock.ByReconfigurer? && s.lock.next.Some? && s.lock.half
    case Refuse => s.lock.ByReconfigurer? && s.lock.next.None?
    case _ => WorkerEnabled(s, a)
  }

  // ---- What each step does, component by component ----

  function WithPhase(records: seq<Record>, id: nat, phase: Phase): (r: seq<Record>)
    ensures |r| == |records|
  {
    if id < |records| then records[id := records[id].(phase := phase)] else records
  }

  function WithStatus(records: seq<Record>, id: nat, status: Status): (r: seq<Record>)
    ensures |r| == |records|
  {
    if id < |records| then records[id := records[id].(status := status)] else records
  }

  function Terminal(met: bool): Status {
    if met then Completed else Failed
  }

  function WorkerAfter(w: Worker, queue: seq<TaskData>, a: Action): Worker
    requires a.Pick? ==> a.i < |queue|
  {
    match a
    case Poll(_) => Polling
    case Quit(_) => Stopped
    case Miss(_) => Waiting
    case Pick(_, i) => Taken(queue[i])
    case Start(_) => if w.Taken? then Active(w.t) else w
    case Finish(_, met) => if w.Active? then Finished(w.t, met) else w
    case Unlist(_) => if w.Finished? then Unlisted(w.t, w.met) else w
    case Release(_) => if w.Unlisted? then Released(w.t, w.met) else w
    case Count(_) => Waiting
    case _ => w
  }

  function NodeAfter(node: Node, w: Worker, a: Action): Node
    requires a.Pick? ==> a.i < |node.queue|
  {
    match a
    case Pick(_, i) => node.(queue := RemoveAt(node.queue, i))
    case Release(_) => if w.Unlisted? then node.Release(w.t.req.demand) else node
    case _ => node
  }

  function RecordsAfterWork(records: seq<Record>, w: Worker, queue: seq<TaskData>, a: Action): (r: seq<Record>)
    requires a.Pick? ==> a.i < |queue|
    ensures |r| == |records|
  {
    match a
    case Pick(n, i) => WithPhase(records, queue[i].id, Held(n))
    case Start(_) => if w.Taken? then WithStatus(records, w.t.id, Running) else records
    case Finish(_, met) => if w.Active? then WithStatus(records, w.t.id, Terminal(met)) else records
    case Count(n) => if w.Released? then WithPhase(records, w.t.id, Done(n)) else records
    case _ => records
  }

  function ActiveAfter(active: set<nat>, w: Worker, a: Action): set<nat> {
    match a
    case Start(_) => if w.Taken? then active + {w.t.id} else active
    case Unlist(_) => if w.Finished? then active - {w.t.id} else active
    case _ => active
  }

  function StatsAfterWork(stats: Stats, w: Worker, a: Action): Stats {
    match a
    case Count(_) =>
      if !w.Released? then stats
      else if w.met then stats.(executed := stats.executed + 1) else stats.(missed := stats.missed + 1)
    case _ => stats
  }

  function Work(s: State, a: Action): State
    requires IsWorkerStep(a) && WorkerEnabled(s, a)
  {
    var w, node := s.workers[a.w], s.nodes[a.w];
    s.(workers := s.workers[a.w := WorkerAfter(w, node.queue, a)],
       nodes := s.nodes[a.w := NodeAfter(node, w, a)],
       records := RecordsAfterWork(s.records, w, node.queue, a),
       active := ActiveAfter(s.active, w, a),
       stats := StatsAfterWork(s.stats, w, a))
  }

  function ProducerAfter(s: State, a: Action): Producer
    requires Enabled(s, a) && !IsWorkerStep(a)
  {
    var p := s.producer;
    match a
    case Create(req, created) => Ready(TaskData(|s.records|, req, created))
    case Begin => Checking(p.t, 0, 0, [])
    case Check =>
      var fits := s.nodes[p.k].CanAllocate(p.t.req.demand);
      p.(k := p.k + 1, viable := if fits then p.viable + [p.k] else p.viable)
    case NextAttempt => p.(attempt := p.attempt + 1, k := 0, viable := [])
    case Commit(n) => Committed(p.t, n, s.config.allocation)
    case Acknowledge => HandOff(p.t, p.n, p.used)
    case Schedule => Recording(p.t, p.n, p.used)
    case Reject => Idle
    case RecordRow => Idle
    case StartFluctuation => Fluctuating(0)
    case Fluctuate(_, _) => Fluctuating(p.k + 1)
    case EndFluctuation => Idle
    case EndProducer => Ended
    case _ => p
  }

  function NodesAfter(s: State, a: Action): (r: seq<Node>)
    requires Enabled(s, a) && !IsWorkerStep(a)
    ensures |r| == |s.nodes|
  {
    var p := s.producer;
    match a
    case Commit(n) => s.nodes[n := s.nodes[n].Reserve(p.t.req.demand)]
    case Schedule => s.nodes[p.n := s.nodes[p.n].(queue := s.nodes[p.n].queue + [p.t])]
    case Fluctuate(cpu, ram) =>
      s.nodes[p.k := Loaded(s.nodes[p.k], cpu, ram)]
    case _ => s.nodes
  }

  function RecordsAfter(s: State, a: Action): seq<Record>
    requires Enabled(s, a) && !IsWorkerStep(a)
  {
    var p := s.producer;
    match a
    case Create(_, _) => s.records + [Record(Created, None, Fresh)]
    case Commit(n) => WithPhase(s.records, p.t.id, Reserved(n))
    case Reject => WithPhase(s.records, p.t.id, Rejected)
    case Acknowledge => s.records[p.t.id := s.records[p.t.id].(status := Queued, edge := Some(p.n))]
    case Schedule => WithPhase(WithStatus(s.records, p.t.id, Queued), p.t.id, Enqueued(p.n))
    case _ => s.records
  }

  function StatsAfter(stats: Stats, a: Action): Stats {
    match a
    case Begin => stats.(total := stats.total + 1)
    case Reject => stats.(rejected := stats.rejected + 1)
    case Acknowledge => stats.(succeeded := stats.succeeded + 1)
    case Schedule => stats.(scheduled := stats.scheduled + 1)
    case _ => stats
  }

  function LockAfter(lock: ConfigLock, a: Action): ConfigLock {
    match a
    case Begin => ByProducer
    case Reject => Free
    case RecordRow => Free
    case Acquire(next) => ByReconfigurer(next, false)
    case ApplyAllocation => if lock.ByReconfigurer? then lock.(half := true) else lock
    case ApplyScheduling => Free
    case Refuse => Free
    case _ => lock
  }

  function ConfigAfter(config: Configuration, lock: ConfigLock, a: Action): Configuration {
    if !(lock.ByReconfigurer? && lock.next.Some?) then config
    else match a
      case ApplyAllocation => config.(allocation := lock.next.value.allocation)
      case ApplyScheduling => config.(scheduling := lock.next.value.scheduling)
      case _ => config
  }

  function LogAfter(s: State, a: Action): seq<LogEntry>
    requires Enabled(s, a) && !IsWorkerStep(a)
  {
    if a.RecordRow? then s.log + [LogEntry(s.producer.t.id, s.producer.n, s.producer.used, s.config.allocation)]
    else s.log
  }

  /** The steps of the producer and of reconfiguring threads. */
  function Produce(s: State, a: Action): State
    requires Enabled(s, a) && !IsWorkerStep(a)
  {
    s.(producer := ProducerAfter(s, a),
       nodes := NodesAfter(s, a),
       records := RecordsAfter(s, a),
       stats := StatsAfter(s.stats, a),
       lock := LockAfter(s.lock, a),
       config := ConfigAfter(s.config, s.lock, a),
       log := LogAfter(s, a),
       running := s.running && !a.StopExecutor?)
  }

  function Step(s: State, a: Action): State
    requires Enabled(s, a)
  {
    if IsWorkerStep(a) then Work(s, a) else Produce(s, a)
  }

  // ---- Runs ----

  ghost predicate Initial(s: State) {
    && |s.workers| == |s.nodes|
    && (forall n :: 0 <= n < |s.nodes| ==>
        s.nodes[n].usage == ZERO && s.nodes[n].queue == [] && ZERO.AtMost(s.nodes[n].capacity)
          && s.workers[n] == Waiting)
    && s.records == [] && s.producer == Idle && s.stats == Stats(0, 0, 0, 0, 0, 0)
    && s.active == {} && s.running && s.lock == Free && s.log == []
  }

  /** Every action of the run is possible when its turn comes. */
  ghost predicate IsRun(s: State, run: seq<Action>) {
    run == [] || (IsRun(s, run[..|run| - 1]) && Enabled(After(s, run[..|run| - 1]), run[|run| - 1]))
  }

  function After(s: State, run: seq<Action>): State {
    if run == [] then s
    else
      var r, a := After(s, run[..|run| - 1]), run[|run| - 1];
      if Enabled(r, a) then Step(r, a) else r
  }

  /** A run with one more action. */
  lemma Extend(s: State, run: seq<Action>, r: State, a: Action) returns (longer: seq<Action>)
    requires IsRun(s, run) && After(s, run) == r && Enabled(r, a)
    ensures longer == run + [a] && IsRun(s, longer) && After(s, longer) == Step(r, a)
  {
    longer := run + [a];
    assert longer[..|longer| - 1] == run;
  }
}
