/** The strategy stored with an allocation is the one that chose its node, however reconfigurations interleave. */
module RecordedStrategy {
  import opened Tasks
  import opened Runtime
  import opened RuntimeLifecycle
  import opened RuntimeOnce

  /** The part of the producer's loop that runs under the configuration mutex. */
  predicate Requesting(p: Producer) {
    p.Checking? || Chosen(p)
  }

  predicate Chosen(p: Producer) {
    p.Committed? || p.HandOff? || p.Recording?
  }

  predicate ProducerOnRecord(p: Producer, lock: ConfigLock, config: Configuration) {
    && (lock == ByProducer <==> Requesting(p))
    && (Chosen(p) ==> p.used == config.allocation)
  }

  predicate RowOk(e: LogEntry, records: seq<Record>) {
    e.used == e.recorded && e.id < |records| && records[e.id].edge == Some(e.n)
  }

  predicate EdgeKnown(p: Producer, records: seq<Record>) {
    && (p.Committed? || p.HandOff? || p.Recording? ==> p.t.id < |records|)
    && (p.HandOff? || p.Recording? ==> records[p.t.id].edge == Some(p.n))
    && (p.Ready? || p.Checking? || p.Committed? ==> p.t.id < |records| && records[p.t.id].edge == None)
  }

  function Unwritten(p: Producer): nat {
    if p.Recording? then 1 else 0
  }

  ghost predicate RecordInvariant(s: State) {
    && ProducerOnRecord(s.producer, s.lock, s.config)
    && EdgeKnown(s.producer, s.records)
    && (forall i :: 0 <= i < |s.log| ==> RowOk(s.log[i], s.records))
    && |s.log| + Unwritten(s.producer) == s.stats.scheduled
  }

  /** No step changes the edge of a task that has one. */
  predicate EdgesKept(records: seq<Record>, records': seq<Record>) {
    && |records| <= |records'|
    && forall id :: 0 <= id < |records| && records[id].edge.Some? ==> records'[id].edge == records[id].edge
  }

  lemma WorkKeepsRecord(s: State, a: Action)
    requires RecordInvariant(s) && IsWorkerStep(a) && WorkerEnabled(s, a)
    ensures RecordInvariant(Work(s, a))
  {
    var records' := RecordsAfterWork(s.records, s.workers[a.w], s.nodes[a.w].queue, a);
    assert forall id :: 0 <= id < |s.records| ==> records'[id].edge == s.records[id].edge;
  }

  lemma ProducerStaysOnRecord(s: State, a: Action)
    requires RecordInvariant(s) && !IsWorkerStep(a) && Enabled(s, a)
    ensures ProducerOnRecord(ProducerAfter(s, a), LockAfter(s.lock, a), ConfigAfter(s.config, s.lock, a))
  {
  }

  lemma EdgeStaysKnown(s: State, a: Action)
    requires RecordInvariant(s) && !IsWorkerStep(a) && Enabled(s, a)
    ensures EdgeKnown(ProducerAfter(s, a), RecordsAfter(s, a)) && EdgesKept(s.records, RecordsAfter(s, a))
  {
  }

  lemma LogStaysOk(s: State, a: Action)
    requires RecordInvariant(s) && !IsWorkerStep(a) && Enabled(s, a)
    ensures forall i :: 0 <= i < |LogAfter(s, a)| ==> RowOk(LogAfter(s, a)[i], RecordsAfter(s, a))
    ensures |LogAfter(s, a)| + Unwritten(ProducerAfter(s, a)) == StatsAfter(s.stats, a).scheduled
  {
    EdgeStaysKnown(s, a);
  }

  lemma ProduceKeepsRecord(s: State, a: Action)
    requires RecordInvariant(s) && !IsWorkerStep(a) && Enabled(s, a)
    ensures RecordInvariant(Produce(s, a))
  {
    ProducerStaysOnRecord(s, a);
    EdgeStaysKnown(s, a);
    LogStaysOk(s, a);
  }

  lemma StepKeepsRecord(s: State, a: Action)
    requires RecordInvariant(s) && Enabled(s, a)
    ensures RecordInvariant(Step(s, a))
  {
    if IsWorkerStep(a) {
      WorkKeepsRecord(s, a);
    } else {
      ProduceKeepsRecord(s, a);
    }
  }

  lemma {:induction false} RunKeepsRecord(s: State, run: seq<Action>)
    requires Initial(s) && IsRun(s, run)
    ensures RecordInvariant(After(s, run))
  {
    if run != [] {
      RunKeepsRecord(s, run[..|run| - 1]);
      StepKeepsRecord(After(s, run[..|run| - 1]), run[|run| - 1]);
    }
  }

  // ---- One row per queued task ----

  /** Task id has a row. */
  ghost predicate Logged(log: seq<LogEntry>, id: nat) {
    exists i :: 0 <= i < |log| && log[i].id == id
  }

  /** Task id has been queued and its row is the producer's next step. */
  predicate RowPending(p: Producer, id: nat) {
    p.Recording? && p.t.id == id
  }

  /** The tasks that have entered a queue are those with a row and the one whose row is pending. */
  ghost predicate RowExpected(records: seq<Record>, log: seq<LogEntry>, p: Producer, id: nat) {
    && (Past(records, Entering, id) <==> Logged(log, id) || RowPending(p, id))
    && !(Logged(log, id) && RowPending(p, id))
  }

  ghost predicate OneRowEach(log: seq<LogEntry>) {
    forall i, j :: 0 <= i < j < |log| ==> log[i].id != log[j].id
  }

  ghost predicate RowsExact(s: State) {
    OneRowEach(s.log) && forall id: nat :: RowExpected(s.records, s.log, s.producer, id)
  }

  lemma LoggedNext(log: seq<LogEntry>, e: LogEntry, id: nat)
    ensures Logged(log + [e], id) <==> Logged(log, id) || e.id == id
  {
    assert (log + [e])[|log|] == e;
    if i :| 0 <= i < |log| && log[i].id == id {
      assert (log + [e])[i].id == id;
    }
  }

  lemma OneRowEachNext(log: seq<LogEntry>, e: LogEntry)
    requires OneRowEach(log) && !Logged(log, e.id)
    ensures OneRowEach(log + [e])
  {
  }

  lemma ProduceKeepsRow(s: State, a: Action, id: nat)
    requires LifecycleInvariant(s) && RowExpected(s.records, s.log, s.producer, id) && !IsWorkerStep(a) && Enabled(s, a)
    ensures RowExpected(RecordsAfter(s, a), LogAfter(s, a), ProducerAfter(s, a), id)
  {
    ProduceAdvances(s, a, Entering, id);
    if a.RecordRow? {
      LoggedNext(s.log, LogAfter(s, a)[|s.log|], id);
    }
  }

  lemma WorkKeepsRow(s: State, a: Action, id: nat)
    requires LifecycleInvariant(s) && RowExpected(s.records, s.log, s.producer, id)
    requires IsWorkerStep(a) && WorkerEnabled(s, a)
    ensures RowExpected(RecordsAfterWork(s.records, s.workers[a.w], s.nodes[a.w].queue, a), s.log, s.producer, id)
  {
    var w, q := s.workers[a.w], s.nodes[a.w].queue;
    WorkAdvances(s, a, Entering, id, RecordsAfterWork(s.records, w, q, a), Subject(w, q, a));
  }

  lemma StepKeepsRow(s: State, a: Action, id: nat)
    requires LifecycleInvariant(s) && RowExpected(s.records, s.log, s.producer, id) && Enabled(s, a)
    ensures RowExpected(Step(s, a).records, Step(s, a).log, Step(s, a).producer, id)
  {
    if IsWorkerStep(a) {
      WorkKeepsRow(s, a, id);
    } else {
      ProduceKeepsRow(s, a, id);
    }
  }

  lemma StepKeepsRowsExact(s: State, a: Action)
    requires LifecycleInvariant(s) && RowsExact(s) && Enabled(s, a)
    ensures RowsExact(Step(s, a))
  {
    forall id: nat ensures RowExpected(Step(s, a).records, Step(s, a).log, Step(s, a).producer, id) {
      StepKeepsRow(s, a, id);
    }
    if a.RecordRow? {
      assert RowExpected(s.records, s.log, s.producer, s.producer.t.id);
      OneRowEachNext(s.log, LogAfter(s, a)[|s.log|]);
    }
  }

  lemma {:induction false} RunKeepsRowsExact(s: State, run: seq<Action>)
    requires Initial(s) && IsRun(s, run)
    ensures RowsExact(After(s, run))
  {
    if run != [] {
      var before := run[..|run| - 1];
      RunKeepsRowsExact(s, before);
      RunKeepsPlaced(s, before);
      StepKeepsRowsExact(After(s, before), run[|run| - 1]);
    }
  }

  lemma RowsOfRecord(r: State)
    requires RecordInvariant(r)
    ensures forall e <- r.log :: e.recorded == e.used && e.id < |r.records| && r.records[e.id].edge == Some(e.n)
    ensures |r.log| + Unwritten(r.producer) == r.stats.scheduled
  {
    forall e <- r.log ensures RowOk(e, r.records) {
      var i :| 0 <= i < |r.log| && r.log[i] == e;
    }
  }

  /**
   Every stored allocation row names the task's node and the strategy that chose it. The rows name different tasks, and
   the tasks with a row are exactly those that have entered a queue, but for the one whose row is about to be written.
   */
  lemma RecordedStrategyIsTheOneUsed(s: State, run: seq<Action>, r: State)
    requires Initial(s) && IsRun(s, run) && r == After(s, run)
    ensures forall e <- r.log :: e.recorded == e.used && e.id < |r.records| && r.records[e.id].edge == Some(e.n)
    ensures |r.log| + Unwritten(r.producer) == r.stats.scheduled
    ensures forall i, j :: 0 <= i < j < |r.log| ==> r.log[i].id != r.log[j].id
    ensures forall id: nat :: Logged(r.log, id) <==> Past(r.records, Entering, id) && !RowPending(r.producer, id)
  {
    RunKeepsRecord(s, run);
    RowsOfRecord(r);
    RunKeepsRowsExact(s, run);
    forall id: nat ensures Logged(r.log, id) <==> Past(r.records, Entering, id) && !RowPending(r.producer, id) {
      assert RowExpected(r.records, r.log, r.producer, id);
    }
  }

  /** From the first check to the stored row a request sees one configuration, whatever other threads do. */
  lemma ConfigurationFixedDuringRequest(s: State, run: seq<Action>, a: Action, r: State)
    requires Initial(s) && IsRun(s, run) && r == After(s, run) && Requesting(r.producer) && Enabled(r, a)
    ensures Step(r, a).config == r.config
  {
    RunKeepsRecord(s, run);
  }

  // ---- Reconfiguration is all or nothing ----

  /** What a reconfiguration by a thread asking for next leaves behind. */
  function Outcome(before: Configuration, next: Option<Configuration>): Configuration {
    if next.Some? then next.value else before
  }

  /** How far the thread holding the mutex has come. */
  predicate Applying(s: State, before: Configuration, next: Option<Configuration>) {
    && s.lock.ByReconfigurer? && s.lock.next == next
    && s.config == (if s.lock.half && next.Some? then before.(allocation := next.value.allocation) else before)
    && (s.lock.half ==> next.Some?)
  }

  lemma OneStepOfApplying(s: State, before: Configuration, next: Option<Configuration>, a: Action)
    requires ProducerOnRecord(s.producer, s.lock, s.config) && Applying(s, before, next) && Enabled(s, a)
    ensures Applying(Step(s, a), before, next)
      || (Step(s, a).lock == Free && Step(s, a).config == Outcome(before, next))
  {
  }

  /** From after k steps on, the mutex is not free until the run's last step. */
  ghost predicate BusyFrom(s: State, run: seq<Action>, k: nat) {
    forall j :: k <= j < |run| ==> After(s, run[..j]).lock != Free
  }

  lemma BusyBefore(s: State, run: seq<Action>, k: nat, shorter: seq<Action>)
    requires k < |run| && shorter == run[..|run| - 1] && BusyFrom(s, run, k)
    ensures BusyFrom(s, shorter, k) && shorter[..k] == run[..k] && After(s, shorter).lock != Free
  {
    forall j | k <= j < |shorter| ensures After(s, shorter[..j]).lock != Free {
      assert shorter[..j] == run[..j];
    }
  }

  /** The mutex was taken in state start and may have been given back since; r is what came of it. */
  predicate AppliesWhole(start: State, next: Option<Configuration>, r: State) {
    Applying(r, start.config, next) || (r.lock == Free && r.config == Outcome(start.config, next))
  }

  lemma StepAppliesWhole(start: State, next: Option<Configuration>, r: State, a: Action)
    requires RecordInvariant(r) && AppliesWhole(start, next, r) && r.lock != Free && Enabled(r, a)
    ensures AppliesWhole(start, next, Step(r, a))
  {
    OneStepOfApplying(r, start.config, next, a);
  }

  /**
   From taking the mutex after k steps until it is free again, a valid configuration is applied whole and a rejected one
   changes nothing.
   */
  lemma {:induction false} ReconfigurationIsAllOrNothing(s: State, run: seq<Action>, k: nat,
      next: Option<Configuration>, start: State)
    requires Initial(s) && IsRun(s, run) && k <= |run|
    requires start == After(s, run[..k]) && start.lock == ByReconfigurer(next, false) && BusyFrom(s, run, k)
    ensures AppliesWhole(start, next, After(s, run))
  {
    if k == |run| {
      assert run[..k] == run;
    } else {
      var shorter := run[..|run| - 1];
      BusyBefore(s, run, k, shorter);
      ReconfigurationIsAllOrNothing(s, shorter, k, next, start);
      RunKeepsRecord(s, shorter);
      StepAppliesWhole(start, next, After(s, shorter), run[|run| - 1]);
    }
  }
}
