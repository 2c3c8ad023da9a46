/** What a request of the live runtime has tried before it is granted or refused, over every run (live_runtime.cpp). */
module RuntimeRequests {
  import opened Tasks
  import opened EdgeNodes
  import opened Runtime

  /** How often a node was checked since the current request began, whatever other threads did in between. */
  function ChecksMade(run: seq<Action>): nat {
    if run == [] then 0
    else
      var a := run[|run| - 1];
      if a.Begin? then 0 else ChecksMade(run[..|run| - 1]) + if a.Check? then 1 else 0
  }

  /** The checked node has room for the request's demand. */
  predicate FindsRoom(s: State, a: Action) {
    a.Check? && Enabled(s, a) && s.nodes[s.producer.k].CanAllocate(s.producer.t.req.demand)
  }

  /** How many of those checks found room. */
  function RoomFound(s: State, run: seq<Action>): nat {
    if run == [] then 0
    else
      var before, a := run[..|run| - 1], run[|run| - 1];
      if a.Begin? then 0 else RoomFound(s, before) + if FindsRoom(After(s, before), a) then 1 else 0
  }

  /** Full rounds so far, and the nodes checked in the current one. */
  predicate RoundsAgree(p: Producer, count: nat, checks: nat, room: nat) {
    p.Checking? ==> p.k <= count && p.attempt <= 200 && checks == p.attempt * count + p.k && room == |p.viable|
  }

  lemma NextRound(attempt: nat, count: nat)
    ensures (attempt + 1) * count == attempt * count + count
  {
  }

  lemma ProducerKeepsRounds(s: State, a: Action, checks: nat, room: nat)
    requires !IsWorkerStep(a) && Enabled(s, a) && RoundsAgree(s.producer, |s.nodes|, checks, room)
    ensures RoundsAgree(ProducerAfter(s, a), |s.nodes|, if a.Begin? then 0 else checks + if a.Check? then 1 else 0,
      if a.Begin? then 0 else room + if FindsRoom(s, a) then 1 else 0)
  {
    if a.NextAttempt? {
      NextRound(s.producer.attempt, |s.nodes|);
    }
  }

  lemma StepKeepsRounds(s: State, a: Action, checks: nat, room: nat)
    requires Enabled(s, a) && RoundsAgree(s.producer, |s.nodes|, checks, room)
    ensures |Step(s, a).nodes| == |s.nodes|
    ensures RoundsAgree(Step(s, a).producer, |s.nodes|, if a.Begin? then 0 else checks + if a.Check? then 1 else 0,
      if a.Begin? then 0 else room + if FindsRoom(s, a) then 1 else 0)
  {
    if !IsWorkerStep(a) {
      ProducerKeepsRounds(s, a, checks, room);
    }
  }

  lemma {:induction false} RunKeepsRounds(s: State, run: seq<Action>)
    requires Initial(s) && IsRun(s, run)
    ensures |After(s, run).nodes| == |s.nodes|
    ensures RoundsAgree(After(s, run).producer, |s.nodes|, ChecksMade(run), RoomFound(s, run))
  {
    if run != [] {
      var before := run[..|run| - 1];
      RunKeepsRounds(s, before);
      StepKeepsRounds(After(s, before), run[|run| - 1], ChecksMade(before), RoomFound(s, before));
    }
  }

  lemma RefusalPoint(r: State, checks: nat, room: nat)
    requires RoundsAgree(r.producer, |r.nodes|, checks, room) && Enabled(r, Reject)
    ensures room == 0 && checks == if r.nodes == [] then 0 else 201 * |r.nodes|
  {
  }

  /**
   A request is refused only after its first attempt and 200 further ones have each checked every node, and no check
   found room; or, without nodes, at once.
   */
  lemma RefusedOnlyAfterEveryAttempt(s: State, run: seq<Action>, r: State)
    requires Initial(s) && IsRun(s, run) && r == After(s, run) && Enabled(r, Reject)
    ensures RoomFound(s, run) == 0
    ensures ChecksMade(run) == if r.nodes == [] then 0 else 201 * |r.nodes|
  {
    RunKeepsRounds(s, run);
    RefusalPoint(r, ChecksMade(run), RoomFound(s, run));
  }

  lemma GrantPoint(r: State, n: nat, checks: nat, room: nat)
    requires RoundsAgree(r.producer, |r.nodes|, checks, room) && Enabled(r, Commit(n))
    ensures room > 0 && r.producer.attempt <= 200 && checks == (r.producer.attempt + 1) * |r.nodes|
  {
    NextRound(r.producer.attempt, |r.nodes|);
  }

  /** A request is granted only at the end of one of those 201 attempts, in which some check found room. */
  lemma GrantedOnlyAtAttemptsEnd(s: State, run: seq<Action>, n: nat, r: State)
    requires Initial(s) && IsRun(s, run) && r == After(s, run) && Enabled(r, Commit(n))
    ensures RoomFound(s, run) > 0
    ensures r.producer.attempt <= 200 && ChecksMade(run) == (r.producer.attempt + 1) * |r.nodes|
  {
    RunKeepsRounds(s, run);
    GrantPoint(r, n, ChecksMade(run), RoomFound(s, run));
  }
}
