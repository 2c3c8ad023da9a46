/**
 What the allocator and a worker do on their own are runs of the state machine: its free choices include every strategy.
 */
module RuntimeRefinement {
  import opened Tasks
  import opened Selection
  import opened Allocation
  import opened Scheduling
  import opened Runtime
  import opened TaskExecutors

  /** Run leads from s to r. */
  ghost predicate Leads(s: State, run: seq<Action>, r: State) {
    IsRun(s, run) && After(s, run) == r
  }

  lemma LeadsNext(s: State, run: seq<Action>, r: State, a: Action, r': State)
    requires Leads(s, run, r) && Enabled(r, a) && r' == Step(r, a)
    ensures Leads(s, run + [a], r')
  {
    var longer := Extend(s, run, r, a);
  }

  // ---- An attempt ----

  function Checks(k: nat): seq<Action> {
    if k == 0 then [] else Checks(k - 1) + [Check]
  }

  /** The producer after checking the first k nodes with nothing in between. */
  function CheckedUpTo(s: State, t: TaskData, attempt: nat, k: nat): State
    requires k <= |s.nodes|
  {
    s.(producer := Checking(t, attempt, k, ViableUpTo(s.nodes, t.req.demand, k)))
  }

  lemma OneCheck(s: State, t: TaskData, attempt: nat, k: nat)
    requires k < |s.nodes|
    ensures Enabled(CheckedUpTo(s, t, attempt, k), Check)
    ensures Step(CheckedUpTo(s, t, attempt, k), Check) == CheckedUpTo(s, t, attempt, k + 1)
  {
  }

  lemma NoCheckYet(s: State, t: TaskData, attempt: nat)
    requires s.producer == Checking(t, attempt, 0, [])
    ensures CheckedUpTo(s, t, attempt, 0) == s
  {
  }

  lemma {:induction false} ChecksLead(s: State, t: TaskData, attempt: nat, k: nat)
    requires s.producer == Checking(t, attempt, 0, []) && k <= |s.nodes|
    ensures Leads(s, Checks(k), CheckedUpTo(s, t, attempt, k))
  {
    if k == 0 {
      NoCheckYet(s, t, attempt);
    } else {
      ChecksLead(s, t, attempt, k - 1);
      OneCheck(s, t, attempt, k - 1);
      LeadsNext(s, Checks(k - 1), CheckedUpTo(s, t, attempt, k - 1), Check, CheckedUpTo(s, t, attempt, k));
    }
  }

  lemma CommitIsCharge(s: State, t: TaskData, attempt: nat, a: AllocatorState, r: State, o: Outcome)
    requires a.strategy == s.config.allocation && r == CheckedUpTo(s, t, attempt, |s.nodes|)
    requires o == Attempt(a, s.nodes, t.req) && o.node.Some?
    ensures Enabled(r, Commit(o.node.value))
    ensures Step(r, Commit(o.node.value)).nodes == o.fleet
    ensures Step(r, Commit(o.node.value)).producer == Committed(t, o.node.value, a.strategy)
  {
  }

  /**
   An undisturbed attempt of any strategy is a run of the machine: the checks, then the reservation on the
   strategy's node with the strategy's effect; or, when nothing fits, the checks and no node to reserve on.
   */
  lemma AttemptIsARun(s: State, t: TaskData, attempt: nat, a: AllocatorState, o: Outcome)
      returns (run: seq<Action>, r: State)
    requires s.producer == Checking(t, attempt, 0, []) && a.strategy == s.config.allocation
    requires o == Attempt(a, s.nodes, t.req)
    ensures Leads(s, run, r)
    ensures r.nodes == o.fleet
    ensures r.producer == match o.node
                          case Some(n) => Committed(t, n, a.strategy)
                          case None => Checking(t, attempt, |s.nodes|, [])
  {
    run, r := Checks(|s.nodes|), CheckedUpTo(s, t, attempt, |s.nodes|);
    ChecksLead(s, t, attempt, |s.nodes|);
    if o.node.Some? {
      CommitIsCharge(s, t, attempt, a, r, o);
      run := Extend(s, run, r, Commit(o.node.value));
      r := Step(r, Commit(o.node.value));
    }
  }

  // ---- A worker's turn ----

  /** s with node w's queue and usage, its worker, the active map and the outcome counters replaced. */
  predicate Local(s: State, r: State, w: nat, worker: Worker, queue: seq<TaskData>, usage: Vec, active: set<nat>,
      executed: nat, missed: nat)
    requires w < |s.nodes|
  {
    && r.nodes == s.nodes[w := s.nodes[w].(queue := queue, usage := usage)]
    && |s.workers| == |s.nodes| && r.workers == s.workers[w := worker]
    && r.active == active && r.running == s.running
    && r.stats == s.stats.(executed := executed, missed := missed)
  }

  lemma PollLocal(s: State, w: nat)
    requires w < |s.nodes| == |s.workers| && s.workers[w] == Waiting && s.running
    ensures Enabled(s, Poll(w))
    ensures Local(s, Step(s, Poll(w)), w, Polling, s.nodes[w].queue, s.nodes[w].usage, s.active, s.stats.executed,
      s.stats.missed)
  {
  }

  lemma PickLocal(s: State, r: State, w: nat, i: nat, q: seq<TaskData>, u: Vec, active: set<nat>, e: nat, m: nat)
    requires w < |s.nodes| && Local(s, r, w, Polling, q, u, active, e, m) && i < |q|
    ensures Enabled(r, Pick(w, i)) && Local(s, Step(r, Pick(w, i)), w, Taken(q[i]), RemoveAt(q, i), u, active, e, m)
  {
  }

  lemma StartLocal(s: State, r: State, w: nat, t: TaskData, q: seq<TaskData>, u: Vec, active: set<nat>, e: nat, m: nat)
    requires w < |s.nodes| && Local(s, r, w, Taken(t), q, u, active, e, m)
    ensures Enabled(r, Start(w)) && Local(s, Step(r, Start(w)), w, Active(t), q, u, active + {t.id}, e, m)
  {
  }

  lemma FinishLocal(s: State, r: State, w: nat, t: TaskData, met: bool, q: seq<TaskData>, u: Vec, active: set<nat>,
      e: nat, m: nat)
    requires w < |s.nodes| && Local(s, r, w, Active(t), q, u, active, e, m)
    ensures Enabled(r, Finish(w, met)) && Local(s, Step(r, Finish(w, met)), w, Finished(t, met), q, u, active, e, m)
  {
  }

  lemma UnlistLocal(s: State, r: State, w: nat, t: TaskData, met: bool, q: seq<TaskData>, u: Vec, active: set<nat>,
      e: nat, m: nat)
    requires w < |s.nodes| && Local(s, r, w, Finished(t, met), q, u, active, e, m)
    ensures Enabled(r, Unlist(w)) && Local(s, Step(r, Unlist(w)), w, Unlisted(t, met), q, u, active - {t.id}, e, m)
  {
  }

  lemma ReleaseLocal(s: State, r: State, w: nat, t: TaskData, met: bool, q: seq<TaskData>, u: Vec, active: set<nat>,
      e: nat, m: nat)
    requires w < |s.nodes| && Local(s, r, w, Unlisted(t, met), q, u, active, e, m)
    ensures Enabled(r, Runtime.Release(w))
    ensures Local(s, Step(r, Runtime.Release(w)), w, Released(t, met), q, u.Less(t.req.demand), active, e, m)
  {
  }

  lemma CountLocal(s: State, r: State, w: nat, t: TaskData, met: bool, q: seq<TaskData>, u: Vec, active: set<nat>,
      e: nat, m: nat)
    requires w < |s.nodes| && Local(s, r, w, Released(t, met), q, u, active, e, m)
    ensures Enabled(r, Count(w))
    ensures Local(s, Step(r, Count(w)), w, Waiting, q, u, active, if met then e + 1 else e, if met then m else m + 1)
  {
  }

  /** From asking the scheduler to holding a running task. */
  lemma TurnBegins(s: State, w: nat, i: nat, q: seq<TaskData>) returns (run: seq<Action>, r: State)
    requires w < |s.nodes| == |s.workers| && s.workers[w] == Waiting && s.running && q == s.nodes[w].queue && i < |q|
    ensures Leads(s, run, r)
    ensures Local(s, r, w, Active(q[i]), RemoveAt(q, i), s.nodes[w].usage, s.active + {q[i].id}, s.stats.executed,
      s.stats.missed)
  {
    var u, e, m := s.nodes[w].usage, s.stats.executed, s.stats.missed;
    PollLocal(s, w);
    run := Extend(s, [], s, Poll(w));
    r := Step(s, Poll(w));
    PickLocal(s, r, w, i, q, u, s.active, e, m);
    run := Extend(s, run, r, Pick(w, i));
    r := Step(r, Pick(w, i));
    StartLocal(s, r, w, q[i], RemoveAt(q, i), u, s.active, e, m);
    run := Extend(s, run, r, Start(w));
    r := Step(r, Start(w));
  }

  /** From holding a running task to waiting again. */
  lemma TurnEnds(s: State, run: seq<Action>, r: State, w: nat, t: TaskData, met: bool, q: seq<TaskData>, u: Vec,
      active: set<nat>, e: nat, m: nat)
    returns (run': seq<Action>, r': State)
    requires w < |s.nodes| && Leads(s, run, r) && Local(s, r, w, Active(t), q, u, active, e, m)
    ensures Leads(s, run', r')
    ensures Local(s, r', w, Waiting, q, u.Less(t.req.demand), active - {t.id},
      if met then e + 1 else e, if met then m else m + 1)
  {
    FinishLocal(s, r, w, t, met, q, u, active, e, m);
    run' := Extend(s, run, r, Finish(w, met));
    r' := Step(r, Finish(w, met));
    UnlistLocal(s, r', w, t, met, q, u, active, e, m);
    run' := Extend(s, run', r', Unlist(w));
    r' := Step(r', Unlist(w));
    ReleaseLocal(s, r', w, t, met, q, u, active - {t.id}, e, m);
    run' := Extend(s, run', r', Runtime.Release(w));
    r' := Step(r', Runtime.Release(w));
    CountLocal(s, r', w, t, met, q, u.Less(t.req.demand), active - {t.id}, e, m);
    run' := Extend(s, run', r', Count(w));
    r' := Step(r', Count(w));
  }

  /**
   An undisturbed turn of a worker under any scheduling strategy and clock is a run of the machine with the turn's
   effect.
   */
  lemma TurnIsARun(s: State, w: nat, strategy: SchedulingStrategy, turn: Turn, p: Progress)
      returns (run: seq<Action>, r: State)
    requires w < |s.nodes| == |s.workers| && s.workers[w] == Waiting && s.running && s.nodes[w].queue != []
    requires p == Progress(s.nodes[w].queue, [], [], 0, s.nodes[w].usage)
    ensures Leads(s, run, r) && |r.nodes| == |r.workers| == |s.nodes| && r.workers[w] == Waiting
    ensures var after := TakeTurn(strategy, p, turn);
      && r.nodes == s.nodes[w := s.nodes[w].(queue := after.queue, usage := after.usage)]
      && r.stats.missed == s.stats.missed + after.misses
      && r.stats.executed + r.stats.missed == s.stats.executed + s.stats.missed + |after.served|
      && r.active == s.active - {after.served[0].id}
  {
    var q := s.nodes[w].queue;
    var i := PickIndex(strategy, q, turn.clock);
    var met := InTime(q[i], turn.finished);
    run, r := TurnBegins(s, w, i, q);
    run, r := TurnEnds(s, run, r, w, q[i], met, RemoveAt(q, i), s.nodes[w].usage, s.active + {q[i].id},
      s.stats.executed, s.stats.missed);
  }
}
