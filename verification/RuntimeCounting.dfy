/** The counters of the allocator, the scheduler and the executor agree with each other and with the tasks' records. */
module RuntimeCounting {
  import opened Tasks
  import opened EdgeNodes
  import opened Runtime
  import opened RuntimeLifecycle
  import opened RuntimeOnce

  // ---- Tasks in the nodes' queues and the workers' hands ----

  function InHand(w: Worker): nat {
    if Hand(w).Some? then 1 else 0
  }

  /** Queue lengths plus tasks in worker hands, over all nodes. */
  function InSystem(nodes: seq<Node>, workers: seq<Worker>): nat
    requires |workers| == |nodes|
  {
    if nodes == [] then 0
    else
      var last := |nodes| - 1;
      InSystem(nodes[..last], workers[..last]) + |nodes[last].queue| + InHand(workers[last])
  }

  lemma {:induction false} InSystemUpdate(nodes: seq<Node>, workers: seq<Worker>, n: nat, node: Node, w: Worker)
    requires |workers| == |nodes| && n < |nodes|
    ensures InSystem(nodes[n := node], workers[n := w]) - |node.queue| - InHand(w)
      == InSystem(nodes, workers) - |nodes[n].queue| - InHand(workers[n])
  {
    var last := |nodes| - 1;
    var nodes', workers' := nodes[n := node], workers[n := w];
    if n == last {
      assert nodes'[..last] == nodes[..last] && workers'[..last] == workers[..last];
    } else {
      assert nodes'[..last] == nodes[..last][n := node] && workers'[..last] == workers[..last][n := w];
      InSystemUpdate(nodes[..last], workers[..last], n, node, w);
    }
  }

  lemma {:induction false} InSystemByQueues(nodes: seq<Node>, workers: seq<Worker>, nodes': seq<Node>)
    requires |workers| == |nodes| == |nodes'| && forall n :: 0 <= n < |nodes| ==> |nodes'[n].queue| == |nodes[n].queue|
    ensures InSystem(nodes', workers) == InSystem(nodes, workers)
  {
    if nodes != [] {
      var last := |nodes| - 1;
      InSystemByQueues(nodes[..last], workers[..last], nodes'[..last]);
    }
  }

  lemma {:induction false} NothingInSystem(nodes: seq<Node>, workers: seq<Worker>)
    requires |workers| == |nodes|
    requires forall n :: 0 <= n < |nodes| ==> nodes[n].queue == [] && workers[n] == Waiting
    ensures InSystem(nodes, workers) == 0
  {
    if nodes != [] {
      NothingInSystem(nodes[..|nodes| - 1], workers[..|nodes| - 1]);
    }
  }

  // ---- Tasks by how they ended ----

  datatype Ending = InTime | Late | Refused

  predicate Ended(rec: Record, e: Ending) {
    match e
    case InTime => rec.phase.Done? && rec.status == Completed
    case Late => rec.phase.Done? && rec.status == Failed
    case Refused => rec.phase.Rejected?
  }

  function Number(records: seq<Record>, e: Ending): nat {
    if records == [] then 0 else Number(records[..|records| - 1], e) + if Ended(records[|records| - 1], e) then 1 else 0
  }

  lemma {:induction false} NumberUpdate(records: seq<Record>, id: nat, rec: Record, e: Ending)
    requires id < |records|
    ensures Number(records[id := rec], e) + (if Ended(records[id], e) then 1 else 0)
      == Number(records, e) + if Ended(rec, e) then 1 else 0
  {
    var last, records' := |records| - 1, records[id := rec];
    if id == last {
      assert records'[..last] == records[..last];
    } else {
      assert records'[..last] == records[..last][id := rec];
      NumberUpdate(records[..last], id, rec, e);
    }
  }

  lemma NumberAfterCreate(records: seq<Record>, rec: Record, e: Ending)
    requires !Ended(rec, e)
    ensures Number(records + [rec], e) == Number(records, e)
  {
    assert (records + [rec])[..|records|] == records;
  }

  // ---- The invariant ----

  function InFlight(p: Producer): nat {
    if p.Checking? || p.Committed? then 1 else 0
  }

  function AwaitingHandOff(p: Producer): nat {
    if p.HandOff? then 1 else 0
  }

  predicate CountsAgree(stats: Stats, p: Producer, inSystem: nat, inTime: nat, late: nat, refused: nat) {
    && stats.total == stats.succeeded + stats.rejected + InFlight(p)
    && stats.succeeded == stats.scheduled + AwaitingHandOff(p)
    && stats.scheduled == inSystem + stats.executed + stats.missed
    && stats.executed == inTime && stats.missed == late && stats.rejected == refused
  }

  ghost predicate CountingInvariant(s: State) {
    && |s.workers| == |s.nodes|
    && CountsAgree(s.stats, s.producer, InSystem(s.nodes, s.workers), Number(s.records, InTime),
      Number(s.records, Late), Number(s.records, Refused))
  }

  lemma SubjectNumber(rec: Record, w: Worker, a: Action, queue: seq<TaskData>, running: bool, e: Ending)
    requires IsWorkerStep(a) && WorkerCan(running, w, queue, a)
    requires a.Pick? ==> rec.phase == Enqueued(a.w)
    requires !a.Pick? ==> rec.phase == Held(a.w) && rec.status == HandStatus(w)
    ensures !Ended(rec, e)
    ensures Ended(RecordAfter(rec, w, a), e) <==> a.Count? && e == if w.met then InTime else Late
  {
  }

  /** A worker's step: only Count changes the numbers, moving one task from the worker's hands to the counters. */
  lemma WorkKeepsNumbers(s: State, a: Action, e: Ending, records': seq<Record>)
    requires LifecycleInvariant(s) && IsWorkerStep(a) && WorkerEnabled(s, a)
    requires records' == RecordsAfterWork(s.records, s.workers[a.w], s.nodes[a.w].queue, a)
    ensures Number(records', e) == Number(s.records, e)
      + if a.Count? && e == (if s.workers[a.w].met then InTime else Late) then 1 else 0
  {
    var w, q := s.workers[a.w], s.nodes[a.w].queue;
    if Subject(w, q, a).Some? {
      var id := WorkerRecord(s, a);
      SubjectNumber(s.records[id], w, a, q, s.running, e);
      SubjectIsUpdated(s.records, w, q, s.running, a, id, records');
      NumberUpdate(s.records, id, RecordAfter(s.records[id], w, a), e);
    } else {
      assert records' == s.records && !a.Count?;
    }
  }

  lemma SubjectIsUpdated(records: seq<Record>, w: Worker, queue: seq<TaskData>, running: bool, a: Action, id: nat,
      records': seq<Record>)
    requires IsWorkerStep(a) && WorkerCan(running, w, queue, a) && id < |records| && Subject(w, queue, a) == Some(id)
    requires records' == RecordsAfterWork(records, w, queue, a)
    ensures records' == records[id := RecordAfter(records[id], w, a)]
  {
  }

  lemma WorkMovesTasks(nodes: seq<Node>, workers: seq<Worker>, running: bool, a: Action)
    requires IsWorkerStep(a) && |workers| == |nodes| && a.w < |nodes|
      && WorkerCan(running, workers[a.w], nodes[a.w].queue, a)
    ensures var w, node := workers[a.w], nodes[a.w];
      InSystem(nodes[a.w := NodeAfter(node, w, a)], workers[a.w := WorkerAfter(w, node.queue, a)])
        == InSystem(nodes, workers) - if a.Count? then 1 else 0
  {
    var w, node := workers[a.w], nodes[a.w];
    InSystemUpdate(nodes, workers, a.w, NodeAfter(node, w, a), WorkerAfter(w, node.queue, a));
  }

  /** The counters after a worker's step, as numbers. */
  lemma WorkKeepsAgreement(stats: Stats, p: Producer, w: Worker, a: Action, queue: seq<TaskData>, running: bool,
    inSystem: nat, inTime: nat, late: nat, refused: nat, inSystem': nat)
    requires IsWorkerStep(a) && WorkerCan(running, w, queue, a)
      && CountsAgree(stats, p, inSystem, inTime, late, refused)
    requires inSystem' == inSystem - if a.Count? then 1 else 0
    ensures CountsAgree(StatsAfterWork(stats, w, a), p, inSystem',
      inTime + (if a.Count? && w.met then 1 else 0), late + (if a.Count? && !w.met then 1 else 0), refused)
  {
  }

  lemma WorkKeepsCounts(s: State, a: Action, records': seq<Record>, nodes': seq<Node>, workers': seq<Worker>)
    requires LifecycleInvariant(s) && CountingInvariant(s) && IsWorkerStep(a) && WorkerEnabled(s, a)
    requires records' == RecordsAfterWork(s.records, s.workers[a.w], s.nodes[a.w].queue, a)
    requires nodes' == s.nodes[a.w := NodeAfter(s.nodes[a.w], s.workers[a.w], a)]
    requires workers' == s.workers[a.w := WorkerAfter(s.workers[a.w], s.nodes[a.w].queue, a)]
    ensures CountsAgree(StatsAfterWork(s.stats, s.workers[a.w], a), s.producer, InSystem(nodes', workers'),
      Number(records', InTime), Number(records', Late), Number(records', Refused))
  {
    WorkMovesTasks(s.nodes, s.workers, s.running, a);
    WorkKeepsNumbers(s, a, InTime, records');
    WorkKeepsNumbers(s, a, Late, records');
    WorkKeepsNumbers(s, a, Refused, records');
    WorkKeepsAgreement(s.stats, s.producer, s.workers[a.w], a, s.nodes[a.w].queue, s.running,
      InSystem(s.nodes, s.workers),
      Number(s.records, InTime), Number(s.records, Late), Number(s.records, Refused), InSystem(nodes', workers'));
  }

  lemma ProduceKeepsNumbers(s: State, a: Action, e: Ending)
    requires LifecycleInvariant(s) && !IsWorkerStep(a) && Enabled(s, a)
    ensures Number(RecordsAfter(s, a), e) == Number(s.records, e) + if a.Reject? && e == Refused then 1 else 0
  {
    var records' := RecordsAfter(s, a);
    if a.Create? {
      NumberAfterCreate(s.records, Record(Created, None, Fresh), e);
    } else if a.Commit? || a.Reject? || a.Acknowledge? || a.Schedule? {
      var id := s.producer.t.id;
      assert RecordPlaced(id, s.records[id], s.nodes, s.workers, s.producer);
      assert records' == s.records[id := records'[id]];
      NumberUpdate(s.records, id, records'[id], e);
    }
  }

  lemma ProduceMovesTasks(s: State, a: Action)
    requires !IsWorkerStep(a) && Enabled(s, a) && |s.workers| == |s.nodes|
    ensures InSystem(NodesAfter(s, a), s.workers) == InSystem(s.nodes, s.workers) + if a.Schedule? then 1 else 0
  {
    if a.Schedule? {
      var p := s.producer;
      assert s.workers[p.n := s.workers[p.n]] == s.workers;
      InSystemUpdate(s.nodes, s.workers, p.n, NodesAfter(s, a)[p.n], s.workers[p.n]);
    } else {
      InSystemByQueues(s.nodes, s.workers, NodesAfter(s, a));
    }
  }

  lemma ProduceKeepsCounts(s: State, a: Action)
    requires LifecycleInvariant(s) && CountingInvariant(s) && !IsWorkerStep(a) && Enabled(s, a)
    ensures CountsAgree(StatsAfter(s.stats, a), ProducerAfter(s, a), InSystem(NodesAfter(s, a), s.workers),
      Number(RecordsAfter(s, a), InTime), Number(RecordsAfter(s, a), Late), Number(RecordsAfter(s, a), Refused))
  {
    ProduceMovesTasks(s, a);
    ProduceKeepsNumbers(s, a, InTime);
    ProduceKeepsNumbers(s, a, Late);
    ProduceKeepsNumbers(s, a, Refused);
  }

  lemma StepKeepsCounts(s: State, a: Action)
    requires LifecycleInvariant(s) && CountingInvariant(s) && Enabled(s, a)
    ensures CountingInvariant(Step(s, a))
  {
    if IsWorkerStep(a) {
      var w, node := s.workers[a.w], s.nodes[a.w];
      WorkKeepsCounts(s, a, RecordsAfterWork(s.records, w, node.queue, a),
        s.nodes[a.w := NodeAfter(node, w, a)], s.workers[a.w := WorkerAfter(w, node.queue, a)]);
    } else {
      ProduceKeepsCounts(s, a);
    }
  }

  lemma {:induction false} RunKeepsCounts(s: State, run: seq<Action>)
    requires Initial(s) && IsRun(s, run)
    ensures CountingInvariant(After(s, run))
  {
    if run == [] {
      NothingInSystem(s.nodes, s.workers);
    } else {
      var before := run[..|run| - 1];
      RunKeepsCounts(s, before);
      RunKeepsPlaced(s, before);
      StepKeepsCounts(After(s, before), run[|run| - 1]);
    }
  }

  // ---- The theorem ----

  lemma CountingMeans(r: State)
    requires CountingInvariant(r)
    ensures |r.workers| == |r.nodes|
    ensures r.stats.total == r.stats.succeeded + r.stats.rejected + InFlight(r.producer)
    ensures r.stats.succeeded == r.stats.scheduled + AwaitingHandOff(r.producer)
    ensures r.stats.scheduled == InSystem(r.nodes, r.workers) + r.stats.executed + r.stats.missed
    ensures r.stats.executed == Number(r.records, InTime) && r.stats.missed == Number(r.records, Late)
    ensures r.stats.rejected == Number(r.records, Refused)
  {
  }

  /**
   In every reachable state request, success, schedule and completion counters balance, and each outcome
   counter is the number of tasks whose record shows that outcome.
   */
  lemma CountersBalance(s: State, run: seq<Action>, r: State)
    requires Initial(s) && IsRun(s, run) && r == After(s, run)
    ensures |r.workers| == |r.nodes|
    ensures r.stats.total == r.stats.succeeded + r.stats.rejected + InFlight(r.producer)
    ensures r.stats.succeeded == r.stats.scheduled + AwaitingHandOff(r.producer)
    ensures r.stats.scheduled == InSystem(r.nodes, r.workers) + r.stats.executed + r.stats.missed
    ensures r.stats.executed == Number(r.records, InTime) && r.stats.missed == Number(r.records, Late)
    ensures r.stats.rejected == Number(r.records, Refused)
  {
    RunKeepsCounts(s, run);
    CountingMeans(r);
  }
}
