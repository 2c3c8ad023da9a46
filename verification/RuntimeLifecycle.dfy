/** Every created task is in exactly one place, and its status only moves forward. */
module RuntimeLifecycle {
  import opened Tasks
  import opened Selection
  import opened EdgeNodes
  import opened Runtime

  /** The task in a worker's hands. */
  function Hand(w: Worker): Option<nat> {
    if w.Taken? || w.Active? || w.Finished? || w.Unlisted? || w.Released? then Some(w.t.id) else None
  }

  /** The status a task has while a worker holds it. */
  function HandStatus(w: Worker): Status {
    if w.Taken? then Queued
    else if w.Active? then Running
    else if w.Finished? || w.Unlisted? || w.Released? then Terminal(w.met)
    else Created
  }

  ghost predicate InQueue(q: seq<TaskData>, id: nat) {
    exists i :: 0 <= i < |q| && q[i].id == id
  }

  // ---- Where a record's phase says it is, it is ----

  ghost predicate RecordPlaced(id: nat, rec: Record, nodes: seq<Node>, workers: seq<Worker>, p: Producer) {
    match rec.phase
    case Fresh => (p.Ready? || p.Checking?) && p.t.id == id && rec.status == Created && rec.edge == None
    case Reserved(n) =>
      && (p.Committed? || p.HandOff?) && p.t.id == id && p.n == n
      && (if p.HandOff? then rec.status == Queued && rec.edge == Some(n) else rec.status == Created && rec.edge == None)
    case Enqueued(n) => n < |nodes| && InQueue(nodes[n].queue, id) && rec.status == Queued && rec.edge == Some(n)
    case Held(n) => n < |workers| && Hand(workers[n]) == Some(id) && rec.status == HandStatus(workers[n])
      && rec.edge == Some(n)
    case Done(n) => (rec.status == Completed || rec.status == Failed) && rec.edge == Some(n)
    case Rejected => rec.status == Created && rec.edge == None
  }

  // ---- Whatever is somewhere has the matching phase ----

  ghost predicate QueuePlaced(n: nat, q: seq<TaskData>, records: seq<Record>) {
    && (forall i :: 0 <= i < |q| ==> q[i].id < |records| && records[q[i].id].phase == Enqueued(n))
    && (forall i, j :: 0 <= i < j < |q| ==> q[i].id != q[j].id)
  }

  ghost predicate WorkerPlaced(n: nat, w: Worker, records: seq<Record>) {
    Hand(w).Some? ==> Hand(w).value < |records| && records[Hand(w).value].phase == Held(n)
  }

  ghost predicate ProducerPlaced(p: Producer, records: seq<Record>) {
    && (p.Ready? || p.Checking? ==> p.t.id < |records| && records[p.t.id].phase == Fresh)
    && (p.Committed? || p.HandOff? ==> p.t.id < |records| && records[p.t.id].phase == Reserved(p.n))
  }

  ghost predicate RecordsPlaced(records: seq<Record>, nodes: seq<Node>, workers: seq<Worker>, p: Producer) {
    forall id :: 0 <= id < |records| ==> RecordPlaced(id, records[id], nodes, workers, p)
  }

  ghost predicate QueuesPlaced(records: seq<Record>, nodes: seq<Node>) {
    forall n :: 0 <= n < |nodes| ==> QueuePlaced(n, nodes[n].queue, records)
  }

  ghost predicate WorkersPlaced(records: seq<Record>, workers: seq<Worker>) {
    forall n :: 0 <= n < |workers| ==> WorkerPlaced(n, workers[n], records)
  }

  ghost predicate Placed(records: seq<Record>, nodes: seq<Node>, workers: seq<Worker>, p: Producer) {
    && |workers| == |nodes|
    && RecordsPlaced(records, nodes, workers, p)
    && QueuesPlaced(records, nodes)
    && WorkersPlaced(records, workers)
    && ProducerPlaced(p, records)
  }

  ghost predicate LifecycleInvariant(s: State) {
    Placed(s.records, s.nodes, s.workers, s.producer)
  }

  lemma QueueWithout(q: seq<TaskData>, i: nat, id: nat)
    requires i < |q| && id != q[i].id
    ensures InQueue(RemoveAt(q, i), id) <==> InQueue(q, id)
  {
    if InQueue(q, id) {
      var j :| 0 <= j < |q| && q[j].id == id;
      assert RemoveAt(q, i)[if j < i then j else j - 1].id == id;
    }
    if InQueue(RemoveAt(q, i), id) {
      var j :| 0 <= j < |RemoveAt(q, i)| && RemoveAt(q, i)[j].id == id;
      assert q[if j < i then j else j + 1].id == id;
    }
  }

  lemma QueueWith(q: seq<TaskData>, t: TaskData, id: nat)
    ensures InQueue(q + [t], id) <==> InQueue(q, id) || id == t.id
  {
    if InQueue(q, id) {
      var j :| 0 <= j < |q| && q[j].id == id;
      assert (q + [t])[j].id == id;
    }
    assert (q + [t])[|q|] == t;
  }

  // ---- A worker's step moves at most one task, and that one is at its node ----

  predicate AtNode(phase: Phase, n: nat) {
    phase == Enqueued(n) || phase == Held(n)
  }

  /** One task at node n changes place within n; nothing else moves. */
  lemma MoveAtNode(records: seq<Record>, nodes: seq<Node>, workers: seq<Worker>, p: Producer,
    id: nat, rec: Record, n: nat, node: Node, w: Worker)
    requires Placed(records, nodes, workers, p) && n < |nodes| && id < |records| && AtNode(records[id].phase, n)
    requires !AtNode(rec.phase, n) || rec.phase == Held(n)
    requires !rec.phase.Fresh? && !rec.phase.Reserved?
      && (rec.phase.Enqueued? || rec.phase.Held? ==> AtNode(rec.phase, n))
    requires RecordPlaced(id, rec, nodes[n := node], workers[n := w], p)
    requires QueuePlaced(n, node.queue, records[id := rec]) && WorkerPlaced(n, w, records[id := rec])
    requires forall j: nat :: j != id && InQueue(nodes[n].queue, j) ==> InQueue(node.queue, j)
    requires Hand(workers[n]) == None || Hand(workers[n]) == Some(id)
    ensures Placed(records[id := rec], nodes[n := node], workers[n := w], p)
  {
    var records', nodes', workers' := records[id := rec], nodes[n := node], workers[n := w];
    forall j | 0 <= j < |records'| ensures RecordPlaced(j, records'[j], nodes', workers', p) {
      assert RecordPlaced(j, records[j], nodes, workers, p);
    }
    forall m | 0 <= m < |nodes'| ensures QueuePlaced(m, nodes'[m].queue, records') {
      assert QueuePlaced(m, nodes[m].queue, records);
    }
    forall m | 0 <= m < |workers'| ensures WorkerPlaced(m, workers'[m], records') {
      assert WorkerPlaced(m, workers[m], records);
    }
  }

  lemma RestPlaced(n: nat, q: seq<TaskData>, i: nat, records: seq<Record>, rec: Record)
    requires QueuePlaced(n, q, records) && i < |q|
    ensures q[i].id < |records| && QueuePlaced(n, RemoveAt(q, i), records[q[i].id := rec])
  {
    var rest := RemoveAt(q, i);
    forall k | 0 <= k < |rest| ensures rest[k] == q[if k < i then k else k + 1] {
    }
    forall k | 0 <= k < |rest| ensures rest[k].id != q[i].id && records[rest[k].id].phase == Enqueued(n) {
      assert rest[k] == q[if k < i then k else k + 1];
    }
  }

  lemma PickKeepsPlaced(records: seq<Record>, nodes: seq<Node>, workers: seq<Worker>, p: Producer, n: nat, i: nat)
    requires Placed(records, nodes, workers, p) && n < |nodes| && workers[n].Polling? && i < |nodes[n].queue|
    ensures var q := nodes[n].queue;
      Placed(WithPhase(records, q[i].id, Held(n)), nodes[n := nodes[n].(queue := RemoveAt(q, i))],
        workers[n := Taken(q[i])], p)
  {
    var q := nodes[n].queue;
    var id, node, rest := q[i].id, nodes[n].(queue := RemoveAt(q, i)), RemoveAt(q, i);
    assert QueuePlaced(n, q, records) && RecordPlaced(id, records[id], nodes, workers, p);
    var rec := records[id].(phase := Held(n));
    forall j: nat | j != id && InQueue(q, j) ensures InQueue(rest, j) {
      QueueWithout(q, i, j);
    }
    RestPlaced(n, q, i, records, rec);
    MoveAtNode(records, nodes, workers, p, id, rec, n, node, Taken(q[i]));
  }

  /** A worker moves on with the task it holds; the queue is not touched. */
  lemma HeldTaskKeepsPlaced(records: seq<Record>, nodes: seq<Node>, workers: seq<Worker>, p: Producer,
    n: nat, node: Node, w: Worker, rec: Record)
    requires Placed(records, nodes, workers, p) && n < |nodes| && node.queue == nodes[n].queue && Hand(workers[n]).Some?
    requires var id := Hand(workers[n]).value;
      id < |records| && rec.edge == records[id].edge &&
      if Hand(w).Some? then Hand(w).value == id && rec.phase == Held(n) && rec.status == HandStatus(w)
      else rec.phase == Done(n) && (rec.status == Completed || rec.status == Failed)
    ensures Placed(records[Hand(workers[n]).value := rec], nodes[n := node], workers[n := w], p)
  {
    var id := Hand(workers[n]).value;
    assert WorkerPlaced(n, workers[n], records) && RecordPlaced(id, records[id], nodes, workers, p);
    assert QueuePlaced(n, nodes[n].queue, records);
    MoveAtNode(records, nodes, workers, p, id, rec, n, node, w);
  }

  /** Steps between two states of an empty-handed worker. */
  lemma EmptyHandKeepsPlaced(records: seq<Record>, nodes: seq<Node>, workers: seq<Worker>, p: Producer, n: nat,
      w: Worker)
    requires Placed(records, nodes, workers, p) && n < |nodes| && Hand(workers[n]) == None && Hand(w) == None
    ensures Placed(records, nodes[n := nodes[n]], workers[n := w], p)
  {
    assert nodes[n := nodes[n]] == nodes;
    forall id | 0 <= id < |records| ensures RecordPlaced(id, records[id], nodes, workers[n := w], p) {
      assert RecordPlaced(id, records[id], nodes, workers, p);
    }
  }

  lemma WorkerKeepsPlaced(s: State, a: Action)
    requires LifecycleInvariant(s) && IsWorkerStep(a) && WorkerEnabled(s, a)
    ensures LifecycleInvariant(Work(s, a))
  {
    var n, node, w := a.w, s.nodes[a.w], s.workers[a.w];
    var node', w' := NodeAfter(node, w, a), WorkerAfter(w, node.queue, a);
    if a.Poll? || a.Quit? || a.Miss? {
      EmptyHandKeepsPlaced(s.records, s.nodes, s.workers, s.producer, n, w');
    } else if a.Pick? {
      PickKeepsPlaced(s.records, s.nodes, s.workers, s.producer, n, a.i);
    } else {
      var id := w.t.id;
      assert WorkerPlaced(n, w, s.records) && RecordPlaced(id, s.records[id], s.nodes, s.workers, s.producer);
      var records' := RecordsAfterWork(s.records, w, node.queue, a);
      assert records' == s.records[id := records'[id]];
      HeldTaskKeepsPlaced(s.records, s.nodes, s.workers, s.producer, n, node', w', records'[id]);
    }
  }

  // ---- The producer's steps ----

  /** The producer moves on with its task; queues and workers are not touched. */
  lemma ProducerTaskKeepsPlaced(records: seq<Record>, nodes: seq<Node>, workers: seq<Worker>, p: Producer,
    rec: Record, nodes': seq<Node>, p': Producer)
    requires Placed(records, nodes, workers, p) && (p.Ready? || p.Checking? || p.Committed? || p.HandOff?)
    requires |nodes'| == |nodes| && forall n :: 0 <= n < |nodes| ==> nodes'[n].queue == nodes[n].queue
    requires p.t.id < |records| && (rec.phase.Fresh? || rec.phase.Reserved? || rec.phase.Rejected?)
    requires RecordPlaced(p.t.id, rec, nodes', workers, p') && ProducerPlaced(p', records[p.t.id := rec])
    ensures Placed(records[p.t.id := rec], nodes', workers, p')
  {
    var id, records' := p.t.id, records[p.t.id := rec];
    forall j | 0 <= j < |records'| ensures RecordPlaced(j, records'[j], nodes', workers, p') {
      assert RecordPlaced(j, records[j], nodes, workers, p);
    }
    forall m | 0 <= m < |nodes'| ensures QueuePlaced(m, nodes'[m].queue, records') {
      assert QueuePlaced(m, nodes[m].queue, records);
    }
    forall m | 0 <= m < |workers| ensures WorkerPlaced(m, workers[m], records') {
      assert WorkerPlaced(m, workers[m], records);
    }
  }

  lemma ScheduleKeepsPlaced(records: seq<Record>, nodes: seq<Node>, workers: seq<Worker>, p: Producer)
    requires Placed(records, nodes, workers, p) && p.HandOff? && p.n < |nodes|
    ensures var node := nodes[p.n].(queue := nodes[p.n].queue + [p.t]);
      Placed(WithPhase(WithStatus(records, p.t.id, Queued), p.t.id, Enqueued(p.n)), nodes[p.n := node], workers,
        Recording(p.t, p.n, p.used))
  {
    var id, n, q, p' := p.t.id, p.n, nodes[p.n].queue, Recording(p.t, p.n, p.used);
    var records' := WithPhase(WithStatus(records, id, Queued), id, Enqueued(n));
    var nodes' := nodes[n := nodes[n].(queue := q + [p.t])];
    assert RecordPlaced(id, records[id], nodes, workers, p);
    QueueWith(q, p.t, id);
    forall j | 0 <= j < |records'| ensures RecordPlaced(j, records'[j], nodes', workers, p') {
      assert RecordPlaced(j, records[j], nodes, workers, p);
      QueueWith(q, p.t, j);
    }
    forall m | 0 <= m < |nodes'| ensures QueuePlaced(m, nodes'[m].queue, records') {
      assert QueuePlaced(m, nodes[m].queue, records);
    }
    forall m | 0 <= m < |workers| ensures WorkerPlaced(m, workers[m], records') {
      assert WorkerPlaced(m, workers[m], records);
    }
  }

  lemma CreateKeepsPlaced(records: seq<Record>, nodes: seq<Node>, workers: seq<Worker>, p: Producer, t: TaskData)
    requires Placed(records, nodes, workers, p) && p.Idle? && t.id == |records|
    ensures Placed(records + [Record(Created, None, Fresh)], nodes, workers, Ready(t))
  {
    var records' := records + [Record(Created, None, Fresh)];
    forall j | 0 <= j < |records'| ensures RecordPlaced(j, records'[j], nodes, workers, Ready(t)) {
      if j < |records| {
        assert RecordPlaced(j, records[j], nodes, workers, p);
      }
    }
    forall m | 0 <= m < |nodes| ensures QueuePlaced(m, nodes[m].queue, records') {
      assert QueuePlaced(m, nodes[m].queue, records);
    }
    forall m | 0 <= m < |workers| ensures WorkerPlaced(m, workers[m], records') {
      assert WorkerPlaced(m, workers[m], records);
    }
  }

  /** Steps that leave records, queues and workers alone. */
  lemma QuietKeepsPlaced(records: seq<Record>, nodes: seq<Node>, workers: seq<Worker>, p: Producer, nodes': seq<Node>,
      p': Producer)
    requires Placed(records, nodes, workers, p)
    requires |nodes'| == |nodes| && forall n :: 0 <= n < |nodes| ==> nodes'[n].queue == nodes[n].queue
    requires p' == p
      || ((p.Ready? || p.Checking?) && p'.Checking? && p'.t == p.t)
      || ((p.Idle? || p.Recording? || p.Fluctuating?) && (p'.Idle? || p'.Fluctuating? || p'.Ended?))
    ensures Placed(records, nodes', workers, p')
  {
    forall j | 0 <= j < |records| ensures RecordPlaced(j, records[j], nodes', workers, p') {
      assert RecordPlaced(j, records[j], nodes, workers, p);
    }
    forall m | 0 <= m < |nodes'| ensures QueuePlaced(m, nodes'[m].queue, records) {
      assert QueuePlaced(m, nodes[m].queue, records);
    }
  }

  lemma TaskStepKeepsPlaced(s: State, a: Action)
    requires LifecycleInvariant(s) && Enabled(s, a) && (a.Commit? || a.Reject? || a.Acknowledge?)
    ensures LifecycleInvariant(Produce(s, a))
  {
    var id, records' := s.producer.t.id, RecordsAfter(s, a);
    assert RecordPlaced(id, s.records[id], s.nodes, s.workers, s.producer);
    assert records' == s.records[id := records'[id]];
    ProducerTaskKeepsPlaced(s.records, s.nodes, s.workers, s.producer, records'[id], NodesAfter(s, a),
      ProducerAfter(s, a));
  }

  lemma ProducerKeepsPlaced(s: State, a: Action)
    requires LifecycleInvariant(s) && Enabled(s, a) && !IsWorkerStep(a)
    ensures LifecycleInvariant(Produce(s, a))
  {
    if a.Create? {
      CreateKeepsPlaced(s.records, s.nodes, s.workers, s.producer, TaskData(|s.records|, a.req, a.created));
    } else if a.Commit? || a.Reject? || a.Acknowledge? {
      TaskStepKeepsPlaced(s, a);
    } else if a.Schedule? {
      ScheduleKeepsPlaced(s.records, s.nodes, s.workers, s.producer);
    } else {
      QuietKeepsPlaced(s.records, s.nodes, s.workers, s.producer, NodesAfter(s, a), ProducerAfter(s, a));
    }
  }

  lemma StepKeepsPlaced(s: State, a: Action)
    requires LifecycleInvariant(s) && Enabled(s, a)
    ensures LifecycleInvariant(Step(s, a))
  {
    if IsWorkerStep(a) {
      WorkerKeepsPlaced(s, a);
    } else {
      ProducerKeepsPlaced(s, a);
    }
  }

  lemma {:induction false} RunKeepsPlaced(s: State, run: seq<Action>)
    requires Initial(s) && IsRun(s, run)
    ensures LifecycleInvariant(After(s, run))
  {
    if run != [] {
      RunKeepsPlaced(s, run[..|run| - 1]);
      StepKeepsPlaced(After(s, run[..|run| - 1]), run[|run| - 1]);
    }
  }
}
