/** What the lifecycle invariant means over whole runs: one place, once per stage, forward only. */
module RuntimeOnce {
  import opened Tasks
  import opened Runtime
  import opened RuntimeLifecycle

  // ---- Exactly one place ----

  datatype Place = WithProducer | InQueueAt(n: nat, i: nat) | WithWorker(n: nat) | Counted | TurnedAway

  predicate IsAt(s: State, id: nat, place: Place) {
    match place
    case WithProducer =>
      (s.producer.Ready? || s.producer.Checking? || s.producer.Committed? || s.producer.HandOff?)
        && s.producer.t.id == id
    case InQueueAt(n, i) => n < |s.nodes| && i < |s.nodes[n].queue| && s.nodes[n].queue[i].id == id
    case WithWorker(n) => n < |s.workers| && Hand(s.workers[n]) == Some(id)
    case Counted => id < |s.records| && s.records[id].phase.Done?
    case TurnedAway => id < |s.records| && s.records[id].phase.Rejected?
  }

  /** The phase a task in this place has. */
  ghost predicate Matches(phase: Phase, place: Place) {
    match place
    case WithProducer => phase.Fresh? || phase.Reserved?
    case InQueueAt(n, _) => phase == Enqueued(n)
    case WithWorker(n) => phase == Held(n)
    case Counted => phase.Done?
    case TurnedAway => phase.Rejected?
  }

  lemma PlaceHasPhase(s: State, id: nat, place: Place)
    requires LifecycleInvariant(s) && IsAt(s, id, place)
    ensures id < |s.records| && Matches(s.records[id].phase, place)
  {
    match place {
      case InQueueAt(n, i) => assert QueuePlaced(n, s.nodes[n].queue, s.records);
      case WithWorker(n) => assert WorkerPlaced(n, s.workers[n], s.records);
      case _ =>
    }
  }

  lemma SomePlace(s: State, id: nat) returns (place: Place)
    requires LifecycleInvariant(s) && id < |s.records|
    ensures IsAt(s, id, place)
  {
    assert RecordPlaced(id, s.records[id], s.nodes, s.workers, s.producer);
    match s.records[id].phase {
      case Fresh => place := WithProducer;
      case Reserved(_) => place := WithProducer;
      case Enqueued(n) =>
        var i: nat :| i < |s.nodes[n].queue| && s.nodes[n].queue[i].id == id;
        place := InQueueAt(n, i);
      case Held(n) => place := WithWorker(n);
      case Done(_) => place := Counted;
      case Rejected => place := TurnedAway;
    }
  }

  lemma OnlyOnePlace(s: State, id: nat, a: Place, b: Place)
    requires LifecycleInvariant(s) && IsAt(s, id, a) && IsAt(s, id, b)
    ensures a == b
  {
    PlaceHasPhase(s, id, a);
    PlaceHasPhase(s, id, b);
    if a.InQueueAt? {
      assert QueuePlaced(a.n, s.nodes[a.n].queue, s.records);
    }
  }

  /** In every reachable state a created task is in exactly one place, and nothing else is anywhere. */
  lemma ExactlyOnePlace(s: State, run: seq<Action>, id: nat, r: State)
    requires Initial(s) && IsRun(s, run) && r == After(s, run)
    ensures id < |r.records| <==> exists place :: IsAt(r, id, place)
    ensures forall a, b :: IsAt(r, id, a) && IsAt(r, id, b) ==> a == b
  {
    RunKeepsPlaced(s, run);
    if id < |r.records| {
      var place := SomePlace(r, id);
    }
    forall place | IsAt(r, id, place) ensures id < |r.records| {
      PlaceHasPhase(r, id, place);
    }
    forall a, b | IsAt(r, id, a) && IsAt(r, id, b) ensures a == b {
      OnlyOnePlace(r, id, a, b);
    }
  }

  // ---- Status only moves forward ----

  predicate MovesTo(a: Status, b: Status) {
    || a == b || (a == Created && b == Queued) || (a == Queued && b == Running)
    || (a == Running && (b == Completed || b == Failed))
  }

  /** The task a worker's step is about, if any. */
  function Subject(w: Worker, queue: seq<TaskData>, a: Action): Option<nat>
    requires IsWorkerStep(a) && (a.Pick? ==> a.i < |queue|)
  {
    match a
    case Pick(_, i) => Some(queue[i].id)
    case Poll(_) => None
    case Quit(_) => None
    case Miss(_) => None
    case _ => Hand(w)
  }

  /** That task's record after the step. */
  function RecordAfter(rec: Record, w: Worker, a: Action): Record {
    match a
    case Pick(n, _) => rec.(phase := Held(n))
    case Start(_) => rec.(status := Running)
    case Finish(_, met) => rec.(status := Terminal(met))
    case Count(n) => rec.(phase := Done(n))
    case _ => rec
  }

  /** Before the step, that task is where the step needs it. */
  lemma WorkerRecord(s: State, a: Action) returns (id: nat)
    requires LifecycleInvariant(s) && IsWorkerStep(a) && WorkerEnabled(s, a)
    requires Subject(s.workers[a.w], s.nodes[a.w].queue, a).Some?
    ensures Subject(s.workers[a.w], s.nodes[a.w].queue, a) == Some(id) && id < |s.records|
    ensures a.Pick? ==> s.records[id].phase == Enqueued(a.w) && s.records[id].status == Queued
    ensures !a.Pick? ==> s.records[id].phase == Held(a.w) && s.records[id].status == HandStatus(s.workers[a.w])
  {
    var w, q := s.workers[a.w], s.nodes[a.w].queue;
    id := Subject(w, q, a).value;
    if a.Pick? {
      assert QueuePlaced(a.w, q, s.records);
    } else {
      assert WorkerPlaced(a.w, w, s.records);
    }
    assert RecordPlaced(id, s.records[id], s.nodes, s.workers, s.producer);
  }

  /** A worker's step rewrites its subject's record and no other. */
  lemma WorkTouchesSubject(records: seq<Record>, w: Worker, queue: seq<TaskData>, running: bool, a: Action, id: nat)
    requires IsWorkerStep(a) && WorkerCan(running, w, queue, a) && id < |records|
    ensures RecordsAfterWork(records, w, queue, a)[id] ==
      if Subject(w, queue, a) == Some(id) then RecordAfter(records[id], w, a) else records[id]
  {
  }

  lemma WorkMovesForward(s: State, a: Action, id: nat)
    requires LifecycleInvariant(s) && IsWorkerStep(a) && WorkerEnabled(s, a) && id < |s.records|
    ensures MovesTo(s.records[id].status, RecordsAfterWork(s.records, s.workers[a.w], s.nodes[a.w].queue, a)[id].status)
  {
    var w, q := s.workers[a.w], s.nodes[a.w].queue;
    WorkTouchesSubject(s.records, w, q, s.running, a, id);
    if Subject(w, q, a) == Some(id) {
      var same := WorkerRecord(s, a);
    }
  }

  lemma ProduceMovesForward(s: State, a: Action, id: nat)
    requires LifecycleInvariant(s) && Enabled(s, a) && !IsWorkerStep(a) && id < |s.records|
    ensures |s.records| <= |RecordsAfter(s, a)| && MovesTo(s.records[id].status, RecordsAfter(s, a)[id].status)
  {
    assert RecordPlaced(id, s.records[id], s.nodes, s.workers, s.producer);
  }

  lemma StepMovesForward(s: State, a: Action, id: nat)
    requires LifecycleInvariant(s) && Enabled(s, a) && id < |s.records|
    ensures id < |Step(s, a).records| && MovesTo(s.records[id].status, Step(s, a).records[id].status)
  {
    if IsWorkerStep(a) {
      WorkMovesForward(s, a, id);
    } else {
      ProduceMovesForward(s, a, id);
    }
  }

  /** Every step of every reachable state moves each status along CREATED, QUEUED, RUNNING, COMPLETED or FAILED. */
  lemma StatusMovesForward(s: State, run: seq<Action>, a: Action, id: nat, r: State)
    requires Initial(s) && IsRun(s, run) && r == After(s, run) && Enabled(r, a) && id < |r.records|
    ensures id < |Step(r, a).records| && MovesTo(r.records[id].status, Step(r, a).records[id].status)
  {
    RunKeepsPlaced(s, run);
    StepMovesForward(r, a, id);
  }

  function Rank(status: Status): nat {
    match status
    case Created => 0
    case Queued => 1
    case Running => 2
    case Completed => 3
    case Failed => 3
    case Reallocated => 4
  }

  predicate NotBack(early: Status, late: Status) {
    early == late || Rank(early) < Rank(late)
  }

  lemma OneMoveOn(a: Status, b: Status, c: Status)
    requires NotBack(a, b) && MovesTo(b, c)
    ensures NotBack(a, c)
  {
  }

  /** Over a whole run a status never goes back, and a terminal one never changes. */
  lemma {:induction false} StatusNeverGoesBack(s: State, run: seq<Action>, k: nat, id: nat)
    requires Initial(s) && IsRun(s, run) && k <= |run| && id < |After(s, run[..k]).records|
    ensures id < |After(s, run).records|
    ensures NotBack(After(s, run[..k]).records[id].status, After(s, run).records[id].status)
  {
    if k == |run| {
      assert run[..k] == run;
    } else {
      var before := run[..|run| - 1];
      assert before[..k] == run[..k];
      StatusNeverGoesBack(s, before, k, id);
      StatusMovesForward(s, before, run[|run| - 1], id, After(s, before));
      OneMoveOn(After(s, run[..k]).records[id].status, After(s, before).records[id].status,
        After(s, run).records[id].status);
    }
  }

  // ---- Each stage happens at most once ----

  datatype Stage = Entering | Taking | Starting | Finishing | Counting

  predicate IsStage(a: Action, stage: Stage) {
    match stage
    case Entering => a.Schedule?
    case Taking => a.Pick?
    case Starting => a.Start?
    case Finishing => a.Finish?
    case Counting => a.Count?
  }

  /** Action a takes task id through the stage. */
  predicate Passes(s: State, a: Action, stage: Stage, id: nat)
    requires Enabled(s, a)
  {
    && IsStage(a, stage)
    && if IsWorkerStep(a) then Subject(s.workers[a.w], s.nodes[a.w].queue, a) == Some(id) else s.producer.t.id == id
  }

  /** How often task id goes through the stage in the run. */
  ghost function Times(s: State, run: seq<Action>, stage: Stage, id: nat): nat
    requires IsRun(s, run)
  {
    if run == [] then 0
    else
      var before := run[..|run| - 1];
      Times(s, before, stage, id) + if Passes(After(s, before), run[|run| - 1], stage, id) then 1 else 0
  }

  predicate RecordPast(rec: Record, stage: Stage) {
    match stage
    case Entering => rec.phase.Enqueued? || rec.phase.Held? || rec.phase.Done?
    case Taking => rec.phase.Held? || rec.phase.Done?
    case Starting => rec.status == Running || rec.status == Completed || rec.status == Failed
    case Finishing => rec.status == Completed || rec.status == Failed
    case Counting => rec.phase.Done?
  }

  predicate Past(records: seq<Record>, stage: Stage, id: nat) {
    id < |records| && RecordPast(records[id], stage)
  }

  /** A step takes a task past a stage exactly when it is that stage's step, and never twice. */
  predicate Advances(records: seq<Record>, records': seq<Record>, passes: bool, stage: Stage, id: nat) {
    && (Past(records', stage, id) <==> Past(records, stage, id) || passes)
    && !(Past(records, stage, id) && passes)
  }

  lemma RecordAdvances(rec: Record, w: Worker, a: Action, stage: Stage, running: bool, queue: seq<TaskData>)
    requires IsWorkerStep(a) && WorkerCan(running, w, queue, a)
    requires a.Pick? ==> rec.phase == Enqueued(a.w) && rec.status == Queued
    requires !a.Pick? ==> rec.phase == Held(a.w) && rec.status == HandStatus(w)
    ensures RecordPast(RecordAfter(rec, w, a), stage) <==> RecordPast(rec, stage) || IsStage(a, stage)
    ensures !(RecordPast(rec, stage) && IsStage(a, stage))
  {
  }

  lemma SubjectAdvances(s: State, a: Action, stage: Stage, id: nat)
    requires LifecycleInvariant(s) && IsWorkerStep(a) && WorkerEnabled(s, a)
    requires Subject(s.workers[a.w], s.nodes[a.w].queue, a) == Some(id)
    ensures id < |s.records|
    ensures RecordPast(RecordAfter(s.records[id], s.workers[a.w], a), stage)
      <==> RecordPast(s.records[id], stage) || IsStage(a, stage)
    ensures !(RecordPast(s.records[id], stage) && IsStage(a, stage))
  {
    var same := WorkerRecord(s, a);
    RecordAdvances(s.records[id], s.workers[a.w], a, stage, s.running, s.nodes[a.w].queue);
  }

  lemma WorkAdvances(s: State, a: Action, stage: Stage, id: nat, records': seq<Record>, subject: Option<nat>)
    requires LifecycleInvariant(s) && IsWorkerStep(a) && WorkerEnabled(s, a)
    requires records' == RecordsAfterWork(s.records, s.workers[a.w], s.nodes[a.w].queue, a)
    requires subject == Subject(s.workers[a.w], s.nodes[a.w].queue, a)
    ensures Advances(s.records, records', IsStage(a, stage) && subject == Some(id), stage, id)
  {
    if subject == Some(id) {
      SubjectAdvances(s, a, stage, id);
    }
    if id < |s.records| {
      WorkTouchesSubject(s.records, s.workers[a.w], s.nodes[a.w].queue, s.running, a, id);
    }
  }

  lemma ProduceAdvances(s: State, a: Action, stage: Stage, id: nat)
    requires LifecycleInvariant(s) && !IsWorkerStep(a) && Enabled(s, a)
    ensures Advances(s.records, RecordsAfter(s, a), IsStage(a, stage) && s.producer.t.id == id, stage, id)
  {
    if id < |s.records| {
      assert RecordPlaced(id, s.records[id], s.nodes, s.workers, s.producer);
    }
  }

  lemma StepAdvances(s: State, a: Action, stage: Stage, id: nat)
    requires LifecycleInvariant(s) && Enabled(s, a)
    ensures Advances(s.records, Step(s, a).records, Passes(s, a, stage, id), stage, id)
  {
    if IsWorkerStep(a) {
      var w, q := s.workers[a.w], s.nodes[a.w].queue;
      WorkAdvances(s, a, stage, id, RecordsAfterWork(s.records, w, q, a), Subject(w, q, a));
    } else {
      ProduceAdvances(s, a, stage, id);
    }
  }

  /**
   Over every run each task enters a queue, is taken, run, finished and counted at most once each, exactly when its
   record says so.
   */
  lemma {:induction false} ExactlyOnce(s: State, run: seq<Action>, stage: Stage, id: nat)
    requires Initial(s) && IsRun(s, run)
    ensures Times(s, run, stage, id) == (if Past(After(s, run).records, stage, id) then 1 else 0)
  {
    if run != [] {
      var before, a := run[..|run| - 1], run[|run| - 1];
      ExactlyOnce(s, before, stage, id);
      RunKeepsPlaced(s, before);
      StepAdvances(After(s, before), a, stage, id);
    }
  }

  // ---- After the executor stops ----

  /** Once producer and workers have stopped, an allocated task is terminal or still queued; the rest were refused. */
  lemma AfterShutdown(s: State, run: seq<Action>, id: nat, r: State)
    requires Initial(s) && IsRun(s, run) && r == After(s, run) && id < |r.records|
    requires r.producer == Ended && forall n :: 0 <= n < |r.workers| ==> r.workers[n] == Stopped
    ensures var rec := r.records[id];
      if rec.edge == None then rec.status == Created && rec.phase == Rejected
      else if rec.status == Queued then exists i :: IsAt(r, id, InQueueAt(rec.edge.value, i))
      else rec.status == Completed || rec.status == Failed
  {
    RunKeepsPlaced(s, run);
    assert RecordPlaced(id, r.records[id], r.nodes, r.workers, r.producer);
    var place := SomePlace(r, id);
    PlaceHasPhase(r, id, place);
  }

  // ---- The active-task map ----

  predicate Listed(w: Worker) {
    w.Active? || w.Finished?
  }

  /** The map holds exactly the tasks whose worker is between insertion and erasure. */
  ghost predicate ActiveOk(active: set<nat>, workers: seq<Worker>) {
    && (forall n :: 0 <= n < |workers| && Listed(workers[n]) ==> workers[n].t.id in active)
    && (forall id <- active :: exists n :: 0 <= n < |workers| && Listed(workers[n]) && workers[n].t.id == id)
  }

  lemma ActiveKept(active: set<nat>, workers: seq<Worker>, n: nat, w: Worker, active': set<nat>)
    requires ActiveOk(active, workers) && n < |workers|
    requires forall m :: 0 <= m < |workers| && m != n && Listed(workers[m]) ==> workers[m].t.id in active'
    requires Listed(w) ==> w.t.id in active'
    requires forall id <- active' ::
      (Listed(w) && w.t.id == id) || (id in active && !(Listed(workers[n]) && workers[n].t.id == id))
    ensures ActiveOk(active', workers[n := w])
  {
    var workers' := workers[n := w];
    forall id <- active' ensures exists m :: 0 <= m < |workers'| && Listed(workers'[m]) && workers'[m].t.id == id {
      if Listed(w) && w.t.id == id {
        assert workers'[n] == w;
      } else {
        var m :| 0 <= m < |workers| && Listed(workers[m]) && workers[m].t.id == id;
        assert workers'[m] == workers[m];
      }
    }
  }

  lemma WorkKeepsActive(records: seq<Record>, active: set<nat>, workers: seq<Worker>, running: bool,
      queue: seq<TaskData>, a: Action)
    requires WorkersPlaced(records, workers) && ActiveOk(active, workers)
    requires IsWorkerStep(a) && a.w < |workers| && WorkerCan(running, workers[a.w], queue, a)
    ensures ActiveOk(ActiveAfter(active, workers[a.w], a), workers[a.w := WorkerAfter(workers[a.w], queue, a)])
  {
    var n, w := a.w, workers[a.w];
    assert WorkerPlaced(n, w, records);
    forall m | 0 <= m < |workers| && m != n && Listed(workers[m]) ensures workers[m].t.id in ActiveAfter(active, w, a) {
      assert WorkerPlaced(m, workers[m], records);
    }
    ActiveKept(active, workers, n, WorkerAfter(w, queue, a), ActiveAfter(active, w, a));
  }

  lemma StepKeepsActive(s: State, a: Action)
    requires LifecycleInvariant(s) && ActiveOk(s.active, s.workers) && Enabled(s, a)
    ensures ActiveOk(Step(s, a).active, Step(s, a).workers)
  {
    if IsWorkerStep(a) {
      WorkKeepsActive(s.records, s.active, s.workers, s.running, s.nodes[a.w].queue, a);
    }
  }

  lemma {:induction false} ActiveMapIsExact(s: State, run: seq<Action>)
    requires Initial(s) && IsRun(s, run)
    ensures ActiveOk(After(s, run).active, After(s, run).workers)
  {
    if run != [] {
      var before := run[..|run| - 1];
      ActiveMapIsExact(s, before);
      RunKeepsPlaced(s, before);
      StepKeepsActive(After(s, before), run[|run| - 1]);
    }
  }
}
