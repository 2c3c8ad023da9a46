/**
 The mutexes of the live runtime: every thread's code nests them in one order, so no set of threads can
 wait on each other, and a producer sleeping between retries never holds up a worker.
 */
module Locks {
  import opened Tasks

  datatype Lock =
    | Configuration | AllocatorStrategy | SchedulerStrategy | NodeMap
    | EdgeResource(n: nat) | LogFile | ExecutorStats | ActiveMap

  function Rank(l: Lock): nat {
    match l
    case Configuration => 0
    case AllocatorStrategy => 1
    case SchedulerStrategy => 1
    case NodeMap => 1
    case _ => 2
  }

  /** Code as far as mutexes go; Locked is the scope of a std::lock_guard. */
  datatype Code = Compute | Sleep | Then(first: Code, second: Code) | Locked(l: Lock, body: Code)

  /** Every acquisition ranks above everything held, and only the retry delay sleeps, under at most these two. */
  ghost predicate Disciplined(c: Code, held: set<Lock>) {
    match c
    case Compute => true
    case Sleep => held <= {Configuration, AllocatorStrategy}
    case Then(a, b) => Disciplined(a, held) && Disciplined(b, held)
    case Locked(l, body) => Above(l, held) && Disciplined(body, held + {l})
  }

  ghost predicate Above(l: Lock, held: set<Lock>) {
    forall h <- held :: Rank(h) < Rank(l)
  }

  // ---- What the threads run ----

  function Touch(l: Lock): Code {
    Locked(l, Compute)
  }

  function Touches(ls: seq<Lock>): Code {
    if ls == [] then Compute else Then(Touch(ls[0]), Touches(ls[1..]))
  }

  /** The retry loop: each attempt looks at some nodes; between attempts the thread sleeps. */
  function Attempts(tries: seq<seq<Lock>>): Code {
    if tries == [] then Compute
    else if |tries| == 1 then Touches(tries[0])
    else Then(Touches(tries[0]), Then(Sleep, Attempts(tries[1..])))
  }

  function SetStrategies(): Code {
    Then(Touch(AllocatorStrategy), Touch(SchedulerStrategy))
  }

  /** A strategy and its label are read one after the other. */
  function ReadStrategies(): Code {
    Then(Then(Touch(AllocatorStrategy), Touch(AllocatorStrategy)),
      Then(Touch(SchedulerStrategy), Touch(SchedulerStrategy)))
  }

  function Recommend(seen: seq<Lock>): Code {
    Then(Touches(seen), Locked(Configuration, SetStrategies()))
  }

  function Allocate(tries: seq<seq<Lock>>): Code {
    Locked(AllocatorStrategy, Then(Attempts(tries), Touch(LogFile)))
  }

  /** After a successful request: look the node up, queue the task, read the strategy for the stored row. */
  function Place(n: nat): Code {
    Then(Touch(NodeMap),
      Then(Locked(SchedulerStrategy, Then(Touch(EdgeResource(n)), Touch(LogFile))), Touch(AllocatorStrategy)))
  }

  /** One job of a thread, with whatever leaf mutexes it happens to touch. */
  datatype Job =
    | Look(seen: seq<Lock>)                                 // anything that takes leaf mutexes one at a time
    | Request(tries: seq<seq<Lock>>, granted: Option<nat>)   // request with retry, then schedule if granted
    | Recommendation(seen: seq<Lock>)
    | NextTask(seen: seq<Lock>)                             // the worker's call to getNextTask
    | Execute(seen: seq<Lock>)                              // run, finish, release and count a task
    | ApplyManual(valid: bool)
    | ApplyAutomatic(seen: seq<Lock>)
    | ReadConfiguration
    | CountAvailable(seen: seq<Lock>)
    | ReadMetrics(seen: seq<Lock>)

  predicate Leaves(ls: seq<Lock>) {
    forall i :: 0 <= i < |ls| ==> Rank(ls[i]) == 2
  }

  predicate TouchesLeavesOnly(job: Job) {
    match job
    case Request(tries, _) => forall i :: 0 <= i < |tries| ==> Leaves(tries[i])
    case ApplyManual(_) => true
    case ReadConfiguration => true
    case _ => Leaves(job.seen)
  }

  function CodeOf(job: Job): Code {
    match job
    case Look(seen) => Touches(seen)
    case Request(tries, granted) =>
      Locked(Configuration, if granted == None then Allocate(tries) else Then(Allocate(tries), Place(granted.value)))
    case Recommendation(seen) => Recommend(seen)
    case NextTask(seen) => Locked(SchedulerStrategy, Touches(seen))
    case Execute(seen) => Touches(seen)
    case ApplyManual(valid) => Locked(Configuration, if valid then SetStrategies() else Compute)
    case ApplyAutomatic(seen) => Then(Touch(Configuration), Recommend(seen))
    case ReadConfiguration => Locked(Configuration, ReadStrategies())
    case CountAvailable(seen) => Locked(NodeMap, Touches(seen))
    case ReadMetrics(seen) => Then(Touches(seen), Touch(AllocatorStrategy))
  }

  datatype Role = Producer | Worker | Api

  predicate MayRun(role: Role, job: Job) {
    && TouchesLeavesOnly(job)
    && match role
       case Producer => job.Look? || job.Request? || job.Recommendation?
       case Worker => job.NextTask? || job.Execute?
       case Api => !job.Request? && !job.NextTask? && !job.Execute?
  }

  lemma {:induction false} TouchesAreDisciplined(ls: seq<Lock>, held: set<Lock>)
    requires Leaves(ls) && forall h <- held :: Rank(h) < 2
    ensures Disciplined(Touches(ls), held)
  {
    if ls != [] {
      TouchesAreDisciplined(ls[1..], held);
    }
  }

  lemma {:induction false} AttemptsAreDisciplined(tries: seq<seq<Lock>>)
    requires forall i :: 0 <= i < |tries| ==> Leaves(tries[i])
    ensures Disciplined(Attempts(tries), {Configuration, AllocatorStrategy})
  {
    if tries != [] {
      TouchesAreDisciplined(tries[0], {Configuration, AllocatorStrategy});
      if |tries| > 1 {
        AttemptsAreDisciplined(tries[1..]);
      }
    }
  }

  lemma TouchIsDisciplined(l: Lock, held: set<Lock>)
    requires Above(l, held)
    ensures Disciplined(Touch(l), held)
  {
  }

  lemma SetStrategiesIsDisciplined(held: set<Lock>)
    requires held <= {Configuration}
    ensures Disciplined(SetStrategies(), held)
  {
    TouchIsDisciplined(AllocatorStrategy, held);
    TouchIsDisciplined(SchedulerStrategy, held);
  }

  lemma ReadStrategiesIsDisciplined(held: set<Lock>)
    requires held <= {Configuration}
    ensures Disciplined(ReadStrategies(), held)
  {
    TouchIsDisciplined(AllocatorStrategy, held);
    TouchIsDisciplined(SchedulerStrategy, held);
  }

  lemma AllocateIsDisciplined(tries: seq<seq<Lock>>)
    requires forall i :: 0 <= i < |tries| ==> Leaves(tries[i])
    ensures Disciplined(Allocate(tries), {Configuration})
  {
    assert {Configuration} + {AllocatorStrategy} == {Configuration, AllocatorStrategy};
    AttemptsAreDisciplined(tries);
    TouchIsDisciplined(LogFile, {Configuration, AllocatorStrategy});
  }

  lemma PlaceIsDisciplined(n: nat)
    ensures Disciplined(Place(n), {Configuration})
  {
    var held := {Configuration} + {SchedulerStrategy};
    TouchIsDisciplined(EdgeResource(n), held);
    TouchIsDisciplined(LogFile, held);
    TouchIsDisciplined(NodeMap, {Configuration});
    TouchIsDisciplined(AllocatorStrategy, {Configuration});
    assert Disciplined(Locked(SchedulerStrategy, Then(Touch(EdgeResource(n)), Touch(LogFile))), {Configuration});
  }

  lemma RecommendIsDisciplined(seen: seq<Lock>)
    requires Leaves(seen)
    ensures Disciplined(Recommend(seen), {})
  {
    TouchesAreDisciplined(seen, {});
    SetStrategiesIsDisciplined({} + {Configuration});
  }

  /** Every job of every thread keeps the order, whatever leaves it touches and however often it retries. */
  lemma JobsAreDisciplined(job: Job)
    requires TouchesLeavesOnly(job)
    ensures Disciplined(CodeOf(job), {})
  {
    match job {
      case Request(tries, granted) =>
        assert {} + {Configuration} == {Configuration};
        AllocateIsDisciplined(tries);
        if granted.Some? {
          PlaceIsDisciplined(granted.value);
        }
      case NextTask(seen) => TouchesAreDisciplined(seen, {} + {SchedulerStrategy});
      case CountAvailable(seen) => TouchesAreDisciplined(seen, {} + {NodeMap});
      case ApplyManual(_) => SetStrategiesIsDisciplined({} + {Configuration});
      case ReadConfiguration => ReadStrategiesIsDisciplined({} + {Configuration});
      case Recommendation(seen) => RecommendIsDisciplined(seen);
      case ApplyAutomatic(seen) =>
        TouchIsDisciplined(Configuration, {});
        RecommendIsDisciplined(seen);
      case ReadMetrics(seen) =>
        TouchIsDisciplined(AllocatorStrategy, {});
        TouchesAreDisciplined(seen, {});
      case _ => TouchesAreDisciplined(job.seen, {});
    }
  }

  // ---- Threads ----

  /** What a thread has left to do: code to run, and mutexes to release when their scopes end. */
  datatype Stack = Empty | Run(code: Code, rest: Stack) | Unlock(l: Lock, rest: Stack)

  function Held(k: Stack): set<Lock> {
    match k
    case Empty => {}
    case Run(_, rest) => Held(rest)
    case Unlock(l, rest) => Held(rest) + {l}
  }

  /** The mutex the thread's next step acquires. */
  function Wanted(k: Stack): Option<Lock> {
    if k.Run? && k.code.Locked? then Some(k.code.l) else None
  }

  predicate Asleep(k: Stack) {
    k.Run? && k.code.Sleep?
  }

  function Advance(k: Stack): Stack {
    match k
    case Empty => Empty
    case Unlock(_, rest) => rest
    case Run(c, rest) =>
      match c
      case Compute => rest
      case Sleep => rest
      case Then(a, b) => Run(a, Run(b, rest))
      case Locked(l, body) => Run(body, Unlock(l, rest))
  }

  ghost predicate StackOk(k: Stack) {
    match k
    case Empty => true
    case Run(c, rest) => Disciplined(c, Held(rest)) && StackOk(rest)
    case Unlock(l, rest) => Above(l, Held(rest)) && StackOk(rest)
  }

  lemma AdvanceKeepsOrder(k: Stack)
    requires StackOk(k)
    ensures StackOk(Advance(k))
    ensures Wanted(k).Some? ==> Above(Wanted(k).value, Held(k)) && Held(Advance(k)) == Held(k) + {Wanted(k).value}
    ensures Wanted(k).None? ==> Held(Advance(k)) <= Held(k)
    ensures Asleep(k) ==> Held(k) <= {Configuration, AllocatorStrategy}
  {
  }

  // ---- The system ----

  /** Thread i can run: it wants nothing, or nobody holds what it wants. */
  predicate Unblocked(ts: seq<Stack>, i: nat)
    requires i < |ts|
  {
    Wanted(ts[i]).Some? ==> forall j :: 0 <= j < |ts| ==> Wanted(ts[i]).value !in Held(ts[j])
  }

  /** Thread i waits for a mutex that thread j holds (possibly i itself: the mutexes are not recursive). */
  predicate WaitsFor(ts: seq<Stack>, i: nat, j: nat) {
    i < |ts| && j < |ts| && Wanted(ts[i]).Some? && Wanted(ts[i]).value in Held(ts[j])
  }

  /** Thread i takes one step: it starts a job, or runs one step of the current one. */
  ghost predicate ThreadStep(roles: seq<Role>, ts: seq<Stack>, i: nat, ts': seq<Stack>) {
    && i < |ts| == |roles|
    && if ts[i].Empty? then exists job :: MayRun(roles[i], job) && ts' == ts[i := Run(CodeOf(job), Empty)]
       else Unblocked(ts, i) && ts' == ts[i := Advance(ts[i])]
  }

  ghost predicate SystemStep(roles: seq<Role>, ts: seq<Stack>, ts': seq<Stack>) {
    exists i :: ThreadStep(roles, ts, i, ts')
  }

  /** A run of any number of threads from the state in which none has started. */
  ghost predicate IsTrace(roles: seq<Role>, trace: seq<seq<Stack>>) {
    && trace != [] && |trace[0]| == |roles|
    && (forall i :: 0 <= i < |roles| ==> trace[0][i] == Empty)
    && (forall k :: 0 <= k < |trace| - 1 ==> SystemStep(roles, trace[k], trace[k + 1]))
  }

  /** Mutexes a worker may want. */
  predicate WorkerLock(l: Lock) {
    l == SchedulerStrategy || Rank(l) == 2
  }

  predicate WorkerCode(c: Code) {
    match c
    case Compute => true
    case Sleep => false
    case Then(a, b) => WorkerCode(a) && WorkerCode(b)
    case Locked(l, body) => WorkerLock(l) && WorkerCode(body)
  }

  predicate WorkerStack(k: Stack) {
    match k
    case Empty => true
    case Run(c, rest) => WorkerCode(c) && WorkerStack(rest)
    case Unlock(_, rest) => WorkerStack(rest)
  }

  lemma {:induction false} TouchesAreWorkerCode(ls: seq<Lock>)
    requires Leaves(ls)
    ensures WorkerCode(Touches(ls))
  {
    if ls != [] {
      TouchesAreWorkerCode(ls[1..]);
    }
  }

  ghost predicate ThreadOk(role: Role, k: Stack) {
    StackOk(k) && (role == Worker ==> WorkerStack(k))
  }

  /** A mutex has at most one owner. */
  predicate Exclusive(ts: seq<Stack>) {
    forall i, j :: 0 <= i < j < |ts| ==> Held(ts[i]) !! Held(ts[j])
  }

  ghost predicate SystemOk(roles: seq<Role>, ts: seq<Stack>) {
    && |ts| == |roles| && Exclusive(ts)
    && (forall i :: 0 <= i < |ts| ==> ThreadOk(roles[i], ts[i]))
  }

  lemma AdvanceKeepsWorker(k: Stack)
    ensures WorkerStack(k) ==> WorkerStack(Advance(k))
  {
  }

  lemma StartIsOk(role: Role, job: Job)
    requires MayRun(role, job)
    ensures ThreadOk(role, Run(CodeOf(job), Empty))
  {
    JobsAreDisciplined(job);
    if role == Worker {
      TouchesAreWorkerCode(job.seen);
    }
  }

  lemma StepKeepsOk(roles: seq<Role>, ts: seq<Stack>, ts': seq<Stack>)
    requires SystemOk(roles, ts) && SystemStep(roles, ts, ts')
    ensures SystemOk(roles, ts')
  {
    var i: nat :| ThreadStep(roles, ts, i, ts');
    assert ThreadOk(roles[i], ts[i]);
    if ts[i].Empty? {
      var job :| MayRun(roles[i], job) && ts' == ts[i := Run(CodeOf(job), Empty)];
      StartIsOk(roles[i], job);
      assert Held(ts'[i]) == Held(ts[i]);
    } else {
      AdvanceKeepsOrder(ts[i]);
      AdvanceKeepsWorker(ts[i]);
    }
  }

  lemma {:induction false} TraceKeepsOk(roles: seq<Role>, trace: seq<seq<Stack>>)
    requires IsTrace(roles, trace)
    ensures SystemOk(roles, trace[|trace| - 1])
  {
    if |trace| > 1 {
      var shorter := trace[..|trace| - 1];
      TraceKeepsOk(roles, shorter);
      assert SystemStep(roles, trace[|trace| - 2], trace[|trace| - 1]);
      StepKeepsOk(roles, shorter[|shorter| - 1], trace[|trace| - 1]);
    }
  }

  // ---- The theorems ----

  /** If i waits for j and j waits too, j wants a mutex of higher rank. */
  lemma WaitingGoesUp(roles: seq<Role>, ts: seq<Stack>, i: nat, j: nat)
    requires SystemOk(roles, ts) && WaitsFor(ts, i, j) && Wanted(ts[j]).Some?
    ensures Rank(Wanted(ts[i]).value) < Rank(Wanted(ts[j]).value)
  {
    assert ThreadOk(roles[j], ts[j]);
    AdvanceKeepsOrder(ts[j]);
  }

  /** Following the waiting within a group from thread i leads to a member k that waits for no member. */
  lemma {:induction false} SomeoneOutsideIsNeeded(roles: seq<Role>, ts: seq<Stack>, group: set<nat>, i: nat)
    returns (k: nat)
    requires SystemOk(roles, ts) && i in group
    ensures k in group && forall j :: j in group ==> !WaitsFor(ts, k, j)
    decreases if i < |ts| && Wanted(ts[i]).Some? then 3 - Rank(Wanted(ts[i]).value) else 0
  {
    k := i;
    if j :| j in group && WaitsFor(ts, i, j) {
      if Wanted(ts[j]).Some? {
        WaitingGoesUp(roles, ts, i, j);
      }
      k := SomeoneOutsideIsNeeded(roles, ts, group, j);
    }
  }

  /** Deadlock freedom: in no reachable state does every member of a group of threads wait for a member of the group. */
  lemma NoDeadlock(roles: seq<Role>, trace: seq<seq<Stack>>, group: set<nat>)
    requires IsTrace(roles, trace) && group != {}
    ensures exists k <- group :: !exists j <- group :: WaitsFor(trace[|trace| - 1], k, j)
  {
    TraceKeepsOk(roles, trace);
    var ts := trace[|trace| - 1];
    var i :| i in group;
    var k := SomeoneOutsideIsNeeded(roles, ts, group, i);
  }

  /** Each thread of the path waits for the next. */
  predicate WaitPath(ts: seq<Stack>, path: seq<nat>) {
    path != [] && path[0] < |ts| && forall k :: 0 <= k < |path| - 1 ==> WaitsFor(ts, path[k], path[k + 1])
  }

  lemma {:induction false} FollowWaiting(roles: seq<Role>, ts: seq<Stack>, i: nat) returns (path: seq<nat>)
    requires SystemOk(roles, ts) && i < |ts|
    ensures WaitPath(ts, path) && path[0] == i
    ensures path[|path| - 1] < |ts| && Unblocked(ts, path[|path| - 1])
    ensures |path| <= 1 + if Wanted(ts[i]).Some? then 3 - Rank(Wanted(ts[i]).value) else 0
    decreases if Wanted(ts[i]).Some? then 3 - Rank(Wanted(ts[i]).value) else 0
  {
    if Unblocked(ts, i) {
      path := [i];
    } else {
      var j: nat :| j < |ts| && Wanted(ts[i]).value in Held(ts[j]);
      assert WaitsFor(ts, i, j);
      if Wanted(ts[j]).Some? {
        WaitingGoesUp(roles, ts, i, j);
      }
      var tail := FollowWaiting(roles, ts, j);
      path := [i] + tail;
      forall k | 0 <= k < |path| - 1 ensures WaitsFor(ts, path[k], path[k + 1]) {
        if k > 0 {
          assert WaitsFor(ts, tail[k - 1], tail[k - 1 + 1]);
        }
      }
    }
  }

  /** In every reachable state a blocked thread waits, through at most three others, for one that can run now. */
  lemma WaitingEndsAtARunner(roles: seq<Role>, trace: seq<seq<Stack>>, i: nat) returns (path: seq<nat>)
    requires IsTrace(roles, trace) && i < |roles|
    ensures var ts := trace[|trace| - 1];
      && |ts| == |roles| && WaitPath(ts, path) && path[0] == i && |path| <= 4
      && path[|path| - 1] < |ts| && Unblocked(ts, path[|path| - 1])
  {
    TraceKeepsOk(roles, trace);
    path := FollowWaiting(roles, trace[|trace| - 1], i);
  }

  /** Along a path of waiting threads that starts at a worker, only mutexes a worker may want are waited for. */
  lemma {:induction false} WorkersWaitOnlyForWorkerLocks(roles: seq<Role>, ts: seq<Stack>, path: seq<nat>)
    requires SystemOk(roles, ts) && WaitPath(ts, path) && roles[path[0]] == Worker && |path| > 1
    ensures path[|path| - 1] < |ts| && exists l <- Held(ts[path[|path| - 1]]) :: WorkerLock(l)
  {
    var i, j := path[|path| - 2], path[|path| - 1];
    assert WaitsFor(ts, i, j);
    assert ThreadOk(roles[i], ts[i]);
    var l := Wanted(ts[i]).value;
    if |path| > 2 {
      var shorter := path[..|path| - 1];
      assert forall k :: 0 <= k < |shorter| - 1 ==> WaitsFor(ts, shorter[k], shorter[k + 1]);
      WorkersWaitOnlyForWorkerLocks(roles, ts, shorter);
      AdvanceKeepsOrder(ts[i]);
    }
    assert WorkerLock(l);
  }

  /** No worker ever waits, directly or through other threads, for a thread that sleeps between retries. */
  lemma SleeperNeverHoldsUpAWorker(roles: seq<Role>, trace: seq<seq<Stack>>, path: seq<nat>)
    requires IsTrace(roles, trace) && WaitPath(trace[|trace| - 1], path)
    requires |trace[|trace| - 1]| == |roles| && roles[path[0]] == Worker
    ensures path[|path| - 1] < |roles| && !Asleep(trace[|trace| - 1][path[|path| - 1]])
  {
    TraceKeepsOk(roles, trace);
    var ts, j := trace[|trace| - 1], path[|path| - 1];
    if |path| > 1 {
      WorkersWaitOnlyForWorkerLocks(roles, ts, path);
    }
    assert ThreadOk(roles[j], ts[j]);
    AdvanceKeepsOrder(ts[j]);
  }
}
