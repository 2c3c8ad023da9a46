/**
 The drain test of live_runtime.cpp, read by read: each queue under its node's mutex, then the active map, with any
 steps of the workers in between. What its passing means, and which reads make it certain.
 */
module DrainTest {
  import opened Tasks
  import opened EdgeNodes
  import opened Scheduling
  import opened Runtime
  import opened RuntimeLifecycle
  import opened RuntimeOnce

  // ---- The reads ----

  /**
   hasTasksInQueue can say no: the queue is empty, or its worker is inside getNextTask under a strategy other than
   FIFO and has the whole queue in its scratch buffer.
   */
  predicate CanLookEmpty(s: State, n: nat)
    requires n < |s.nodes| && n < |s.workers|
  {
    s.nodes[n].queue == [] || (s.workers[n].Polling? && s.config.scheduling != Fifo)
  }

  /** Where the draining producer is: about to read queue k (or, after the last, the active map), or past the test. */
  datatype Reader = Looking(k: nat) | Passed

  /** settled holds the nodes that the current round of reads found truly empty, with no task just taken. */
  datatype Watch = Watch(s: State, reader: Reader, settled: set<nat>)

  datatype Move = Act(a: Action) | Look(empty: bool) | ReadActive

  predicate CanMove(w: Watch, m: Move) {
    match m
    case Act(a) => Enabled(w.s, a)
    case Look(empty) =>
      && w.reader.Looking? && w.reader.k < |w.s.nodes| && w.reader.k < |w.s.workers|
      && if empty then CanLookEmpty(w.s, w.reader.k) else w.s.nodes[w.reader.k].queue != []
    case ReadActive => w.reader.Looking? && w.reader.k == |w.s.nodes|
  }

  /** The queue is empty and its worker does not hold a task on its way to the active map. */
  predicate Settled(s: State, n: nat) {
    n < |s.nodes| && n < |s.workers| && s.nodes[n].queue == [] && !s.workers[n].Taken?
  }

  function Moved(w: Watch, m: Move): Watch
    requires CanMove(w, m)
  {
    match m
    case Act(a) => w.(s := Step(w.s, a))
    case Look(empty) =>
      if empty then
        w.(reader := Looking(w.reader.k + 1),
           settled := if Settled(w.s, w.reader.k) then w.settled + {w.reader.k} else w.settled)
      else w.(reader := Looking(0), settled := {})
    case ReadActive => if w.s.active == {} then w.(reader := Passed) else w.(reader := Looking(0), settled := {})
  }

  ghost predicate IsWatch(w: Watch, moves: seq<Move>) {
    moves == [] || (IsWatch(w, moves[..|moves| - 1]) && CanMove(Watched(w, moves[..|moves| - 1]), moves[|moves| - 1]))
  }

  function Watched(w: Watch, moves: seq<Move>): Watch {
    if moves == [] then w
    else
      var r, m := Watched(w, moves[..|moves| - 1]), moves[|moves| - 1];
      if CanMove(r, m) then Moved(r, m) else r
  }

  /** The producer has ended in a reachable state, and starts to read. */
  ghost predicate StartsDraining(s: State, run: seq<Action>, w: Watch) {
    Initial(s) && IsRun(s, run) && w == Watch(After(s, run), Looking(0), {}) && w.s.producer == Ended
  }

  /** The test passes with the next read. */
  predicate Passes(w: Watch) {
    CanMove(w, ReadActive) && w.s.active == {}
  }

  // ---- With the producer gone, a settled node stays settled ----

  lemma EndedProducerLeavesNodes(s: State, a: Action)
    requires !IsWorkerStep(a) && Enabled(s, a) && s.producer == Ended
    ensures ProducerAfter(s, a) == Ended && NodesAfter(s, a) == s.nodes
  {
  }

  lemma WorkerFindsNothing(running: bool, w: Worker, node: Node, a: Action)
    requires IsWorkerStep(a) && WorkerCan(running, w, node.queue, a) && node.queue == []
    ensures NodeAfter(node, w, a).queue == [] && (!w.Taken? ==> !WorkerAfter(w, node.queue, a).Taken?)
  {
  }

  lemma WorkKeepsSettled(s: State, a: Action, n: nat)
    requires IsWorkerStep(a) && WorkerEnabled(s, a) && n < |s.nodes| && s.nodes[n].queue == []
    ensures Work(s, a).producer == s.producer && |Work(s, a).nodes| == |s.nodes| && Work(s, a).nodes[n].queue == []
    ensures Settled(s, n) ==> Settled(Work(s, a), n)
  {
    if a.w == n {
      WorkerFindsNothing(s.running, s.workers[n], s.nodes[n], a);
    }
  }

  lemma StepKeepsSettled(s: State, a: Action, n: nat)
    requires Enabled(s, a) && s.producer == Ended && n < |s.nodes| && s.nodes[n].queue == []
    ensures Step(s, a).producer == Ended && |Step(s, a).nodes| == |s.nodes| && Step(s, a).nodes[n].queue == []
    ensures Settled(s, n) ==> Settled(Step(s, a), n)
  {
    if IsWorkerStep(a) {
      WorkKeepsSettled(s, a, n);
    } else {
      EndedProducerLeavesNodes(s, a);
    }
  }

  /** After the producer has ended, a queue that is empty at one time is empty at every later time. */
  lemma {:induction false} EmptyQueueStaysEmpty(s: State, run: seq<Action>, k: nat, n: nat)
    requires IsRun(s, run) && k <= |run| && After(s, run[..k]).producer == Ended
    requires n < |After(s, run[..k]).nodes| && After(s, run[..k]).nodes[n].queue == []
    ensures After(s, run).producer == Ended
    ensures n < |After(s, run).nodes| && After(s, run).nodes[n].queue == []
  {
    if k == |run| {
      assert run[..k] == run;
    } else {
      var before := run[..|run| - 1];
      assert before[..k] == run[..k];
      EmptyQueueStaysEmpty(s, before, k, n);
      StepKeepsSettled(After(s, before), run[|run| - 1], n);
    }
  }

  // ---- What holds while the producer reads ----

  ghost predicate StateOk(s: State) {
    LifecycleInvariant(s) && ActiveOk(s.active, s.workers) && s.producer == Ended
  }

  lemma StepKeepsStateOk(s: State, a: Action)
    requires StateOk(s) && Enabled(s, a)
    ensures StateOk(Step(s, a))
  {
    StepKeepsPlaced(s, a);
    StepKeepsActive(s, a);
    if !IsWorkerStep(a) {
      EndedProducerLeavesNodes(s, a);
    }
  }

  ghost predicate SettledOk(w: Watch) {
    forall n <- w.settled :: Settled(w.s, n)
  }

  lemma MoveKeepsSettledOk(w: Watch, m: Move)
    requires StateOk(w.s) && SettledOk(w) && CanMove(w, m)
    ensures SettledOk(Moved(w, m))
  {
    if m.Act? {
      forall n <- w.settled ensures Settled(Step(w.s, m.a), n) {
        StepKeepsSettled(w.s, m.a, n);
      }
    }
  }

  lemma {:induction false} WatchKeepsOk(w: Watch, moves: seq<Move>)
    requires StateOk(w.s) && SettledOk(w) && IsWatch(w, moves)
    ensures StateOk(Watched(w, moves).s) && SettledOk(Watched(w, moves))
  {
    if moves != [] {
      var before, m := moves[..|moves| - 1], moves[|moves| - 1];
      WatchKeepsOk(w, before);
      var r := Watched(w, before);
      MoveKeepsSettledOk(r, m);
      if m.Act? {
        StepKeepsStateOk(r.s, m.a);
      }
    }
  }

  // ---- What passing the test means ----

  /** The task was allocated and has not ended. */
  predicate Unfinished(rec: Record) {
    rec.edge.Some? && rec.status != Completed && rec.status != Failed
  }

  predicate AllAllocatedTerminal(s: State) {
    forall rec <- s.records :: rec.edge.Some? ==> rec.status == Completed || rec.status == Failed
  }

  /** Every queue is truly empty and no worker holds a task that is not yet in the active map. */
  predicate AllSettled(s: State) {
    forall n :: 0 <= n < |s.nodes| ==> Settled(s, n)
  }

  /** With the active map empty an unfinished task is at a node that is not settled. */
  lemma UnfinishedIsUnsettled(s: State, id: nat)
    requires StateOk(s) && s.active == {} && id < |s.records| && Unfinished(s.records[id])
    ensures s.records[id].edge.value < |s.nodes| && !Settled(s, s.records[id].edge.value)
  {
    assert RecordPlaced(id, s.records[id], s.nodes, s.workers, s.producer);
    var place := SomePlace(s, id);
    PlaceHasPhase(s, id, place);
  }

  lemma UnsettledIsUnfinished(s: State, n: nat)
    requires StateOk(s) && n < |s.nodes| && !Settled(s, n)
    ensures !AllAllocatedTerminal(s)
  {
    var w := s.workers[n];
    var id := if w.Taken? then w.t.id else s.nodes[n].queue[0].id;
    PlaceHasPhase(s, id, if w.Taken? then WithWorker(n) else InQueueAt(n, 0));
    assert RecordPlaced(id, s.records[id], s.nodes, s.workers, s.producer);
    assert Unfinished(s.records[id]);
  }

  lemma EmptyMapDecides(s: State)
    requires StateOk(s) && s.active == {}
    ensures AllAllocatedTerminal(s) <==> AllSettled(s)
  {
    if AllSettled(s) {
      forall rec <- s.records | Unfinished(rec) ensures false {
        var id: nat :| id < |s.records| && s.records[id] == rec;
        UnfinishedIsUnsettled(s, id);
      }
    } else {
      var n :| 0 <= n < |s.nodes| && !Settled(s, n);
      UnsettledIsUnfinished(s, n);
    }
  }

  lemma StartIsOk(s: State, run: seq<Action>, w: Watch)
    requires StartsDraining(s, run, w)
    ensures StateOk(w.s) && SettledOk(w)
  {
    RunKeepsPlaced(s, run);
    ActiveMapIsExact(s, run);
  }

  /**
   Whenever the test passes, however its reads interleave with the workers: all allocated tasks are terminal if and
   only if every queue is truly empty and no worker holds a task it has just taken. A read that found its queue truly
   empty and its worker without such a task settles that node for good, so every unfinished task is at a node whose
   read did not.
   */
  lemma DrainTestMeansDoneIff(s: State, run: seq<Action>, w: Watch, moves: seq<Move>, r: Watch)
    requires StartsDraining(s, run, w) && IsWatch(w, moves) && r == Watched(w, moves) && Passes(r)
    ensures AllAllocatedTerminal(r.s) <==> AllSettled(r.s)
    ensures forall id :: 0 <= id < |r.s.records| && Unfinished(r.s.records[id]) ==>
      r.s.records[id].edge.value < |r.s.nodes| && r.s.records[id].edge.value !in r.settled
  {
    StartIsOk(s, run, w);
    WatchKeepsOk(w, moves);
    EmptyMapDecides(r.s);
    forall id | 0 <= id < |r.s.records| && Unfinished(r.s.records[id])
      ensures r.s.records[id].edge.value < |r.s.nodes| && r.s.records[id].edge.value !in r.settled
    {
      UnfinishedIsUnsettled(r.s, id);
    }
  }

  /** If every read of the round settled its node, passing the test is certain to mean that all is done. */
  lemma SettledReadsAreCertain(s: State, run: seq<Action>, w: Watch, moves: seq<Move>, r: Watch)
    requires StartsDraining(s, run, w) && IsWatch(w, moves) && r == Watched(w, moves) && Passes(r)
    requires forall n :: 0 <= n < |r.s.nodes| ==> n in r.settled
    ensures AllAllocatedTerminal(r.s)
  {
    DrainTestMeansDoneIff(s, run, w, moves, r);
  }

  // ---- Which reads precede a pass ----

  /** How many queues in a row have looked empty since the last read that found work. */
  function LookedEmpty(moves: seq<Move>): nat {
    if moves == [] then 0
    else
      var before, m := LookedEmpty(moves[..|moves| - 1]), moves[|moves| - 1];
      match m
      case Act(_) => before
      case Look(empty) => if empty then before + 1 else 0
      case ReadActive => 0
  }

  lemma MovedReader(w: Watch, m: Move, k: nat)
    requires CanMove(w, m) && (w.reader.Looking? ==> w.reader.k == k)
    ensures |Moved(w, m).s.nodes| == |w.s.nodes|
    ensures Moved(w, m).reader.Looking? ==>
      Moved(w, m).reader.k == match m
                              case Act(_) => k
                              case Look(empty) => if empty then k + 1 else 0
                              case ReadActive => 0
  {
  }

  lemma {:induction false} ReaderCounts(w: Watch, moves: seq<Move>)
    requires IsWatch(w, moves) && w.reader == Looking(0)
    ensures |Watched(w, moves).s.nodes| == |w.s.nodes|
    ensures Watched(w, moves).reader.Looking? ==> Watched(w, moves).reader.k == LookedEmpty(moves)
  {
    if moves != [] {
      var before := moves[..|moves| - 1];
      ReaderCounts(w, before);
      MovedReader(Watched(w, before), moves[|moves| - 1], LookedEmpty(before));
    }
  }

  /** The test passes only after every queue, one after the other, has looked empty without any read that found work. */
  lemma PassesOnlyAfterAFullRound(w: Watch, moves: seq<Move>, r: Watch)
    requires IsWatch(w, moves) && w.reader == Looking(0) && r == Watched(w, moves) && Passes(r)
    ensures LookedEmpty(moves) == |r.s.nodes| && r.s.active == {}
  {
    ReaderCounts(w, moves);
  }
}
