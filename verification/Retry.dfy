/** Allocation with bounded back-pressure while the fleet changes between attempts (resource_allocator.cpp). */
module Retrying {
  import opened Tasks
  import opened Selection
  import opened EdgeNodes
  import opened Allocation

  /** What other threads may do to a node while the allocator sleeps. */
  datatype EnvAction =
    | Freed(node: nat, demand: Vec)
    | Fluctuated(node: nat, cpu: real, ram: real)
    | Took(node: nat, index: nat)
    | Availability(node: nat, value: bool)

  predicate Permitted(e: EnvAction) {
    e.Freed? ==> ZERO.AtMost(e.demand)
  }

  function Affect(n: Node, e: EnvAction): Node {
    match e
    case Freed(_, demand) => n.Release(demand)
    case Fluctuated(_, cpu, ram) => n.Fluctuate(cpu, ram)
    case Took(_, index) => if index < |n.queue| then n.(queue := RemoveAt(n.queue, index)) else n
    case Availability(_, value) => n.(available := value)
  }

  function Apply(fleet: seq<Node>, e: EnvAction): (r: seq<Node>)
    ensures |r| == |fleet|
  {
    if e.node < |fleet| then fleet[e.node := Affect(fleet[e.node], e)] else fleet
  }

  function ApplyAll(fleet: seq<Node>, es: seq<EnvAction>): (r: seq<Node>)
    ensures |r| == |fleet|
  {
    if es == [] then fleet else Apply(ApplyAll(fleet, es[..|es| - 1]), es[|es| - 1])
  }

  /** The environment's actions after attempt k. */
  function Between(env: seq<seq<EnvAction>>, k: nat): seq<EnvAction> {
    if k < |env| then env[k] else []
  }

  /** The fleet as attempt k finds it when no earlier attempt succeeded. */
  function FleetAt(fleet: seq<Node>, env: seq<seq<EnvAction>>, k: nat): (r: seq<Node>)
    ensures |r| == |fleet|
  {
    if k == 0 then fleet else ApplyAll(FleetAt(fleet, env, k - 1), Between(env, k - 1))
  }

  /** The retry loop from attempt k on, and the number of the last attempt made. */
  function RetryFrom(a: AllocatorState, fleet: seq<Node>, req: Requirements, max: nat, env: seq<seq<EnvAction>>, k: nat)
    : (r: (Outcome, nat))
    requires k <= max
    ensures |r.0.fleet| == |fleet|
    ensures r.0.node.Some? ==> r.0.node.value < |fleet|
    decreases max - k
  {
    var o := Attempt(a, fleet, req);
    if o.node.Some? || fleet == [] || k == max then (o, k)
    else RetryFrom(a, ApplyAll(fleet, Between(env, k)), req, max, env, k + 1)
  }

  function AllocateWithRetry(a: AllocatorState, fleet: seq<Node>, req: Requirements, max: nat,
      env: seq<seq<EnvAction>>): Outcome {
    Concluded(RetryFrom(Requested(a), fleet, req, max, env, 0).0)
  }

  ghost predicate NoFitBefore(fleet: seq<Node>, d: Vec, env: seq<seq<EnvAction>>, k: nat) {
    forall j :: 0 <= j < k ==> !SomeNodeFits(FleetAt(fleet, env, j), d)
  }

  /** k is the first attempt that finds a node. */
  ghost predicate FirstFit(fleet: seq<Node>, d: Vec, env: seq<seq<EnvAction>>, k: nat) {
    SomeNodeFits(FleetAt(fleet, env, k), d) && NoFitBefore(fleet, d, env, k)
  }

  /** The loop ended at attempt last: on the first fit, or out of attempts (or of nodes) without any. */
  ghost predicate EndedAt(fleet: seq<Node>, d: Vec, max: nat, env: seq<seq<EnvAction>>, last: nat, node: Option<nat>) {
    && last <= max
    && NoFitBefore(fleet, d, env, last)
    && (node.Some? <==> SomeNodeFits(FleetAt(fleet, env, last), d))
    && (node.None? ==> last == max || fleet == [])
  }

  /** One round of the loop. */
  lemma RoundDecides(a: AllocatorState, current: seq<Node>, req: Requirements, max: nat, env: seq<seq<EnvAction>>,
      k: nat)
    requires k <= max
    ensures var r, o := RetryFrom(a, current, req, max, env, k), Attempt(a, current, req);
      if SomeNodeFits(current, req.demand) || current == [] || k == max
      then r == (o, k) && (o.node.Some? <==> SomeNodeFits(current, req.demand))
      else r == RetryFrom(a, ApplyAll(current, Between(env, k)), req, max, env, k + 1)
  {
    AttemptSucceedsIffFits(a, current, req);
  }

  lemma {:induction false} RetryEnds(a: AllocatorState, fleet: seq<Node>, req: Requirements, max: nat,
      env: seq<seq<EnvAction>>, k: nat)
    requires k <= max && NoFitBefore(fleet, req.demand, env, k)
    ensures var r := RetryFrom(a, FleetAt(fleet, env, k), req, max, env, k);
      r.0 == Attempt(a, FleetAt(fleet, env, r.1), req) && EndedAt(fleet, req.demand, max, env, r.1, r.0.node)
    decreases max - k
  {
    var current := FleetAt(fleet, env, k);
    RoundDecides(a, current, req, max, env, k);
    if !(SomeNodeFits(current, req.demand) || current == [] || k == max) {
      assert NoFitBefore(fleet, req.demand, env, k + 1);
      RetryEnds(a, fleet, req, max, env, k + 1);
    }
  }

  /**
   The request succeeds exactly when one of its first max + 1 attempts finds a fitting node. It then is the
   single attempt made at the first of them, under the strategy it started with; otherwise nothing is charged.
   */
  lemma RetryExact(a: AllocatorState, fleet: seq<Node>, req: Requirements, max: nat, env: seq<seq<EnvAction>>)
    ensures var o := AllocateWithRetry(a, fleet, req, max, env);
      && (o.node.Some? <==> exists k :: 0 <= k <= max && SomeNodeFits(FleetAt(fleet, env, k), req.demand))
      && o.allocator.strategy == a.strategy && o.allocator.weights == a.weights
      && o.allocator.total == a.total + 1
      && o.allocator.succeeded == a.succeeded + (if o.node.Some? then 1 else 0)
      && o.allocator.failed == a.failed + (if o.node.Some? then 0 else 1)
    ensures var (o, last) := RetryFrom(Requested(a), fleet, req, max, env, 0);
      && last <= max
      && (o.node.Some? ==>
          var found, n := FleetAt(fleet, env, last), o.node.value;
          && FirstFit(fleet, req.demand, env, last)
          && found[n].CanAllocate(req.demand)
          && o.fleet[n].usage == found[n].usage.Plus(req.demand)
          && (forall i :: 0 <= i < |fleet| && i != n ==> o.fleet[i] == found[i]))
      && (o.node.None? ==> o.fleet == FleetAt(fleet, env, last) && (last == max || fleet == []))
  {
    RetryEnds(Requested(a), fleet, req, max, env, 0);
    var (o, last) := RetryFrom(Requested(a), fleet, req, max, env, 0);
    AttemptCharges(Requested(a), FleetAt(fleet, env, last), req);
    if fleet == [] {
      forall k | 0 <= k <= max ensures !SomeNodeFits(FleetAt(fleet, env, k), req.demand) {
      }
    }
  }

  // ---- The fleet stays within capacity whatever happens between attempts ----

  ghost predicate AllPermitted(es: seq<EnvAction>) {
    forall i :: 0 <= i < |es| ==> Permitted(es[i])
  }

  ghost predicate PermittedEnv(env: seq<seq<EnvAction>>) {
    forall k :: 0 <= k < |env| ==> AllPermitted(env[k])
  }

  lemma {:induction false} EnvKeepsSound(fleet: seq<Node>, es: seq<EnvAction>)
    requires Sound(fleet) && AllPermitted(es)
    ensures Sound(ApplyAll(fleet, es))
  {
    if es != [] {
      EnvKeepsSound(fleet, es[..|es| - 1]);
      var e, f := es[|es| - 1], ApplyAll(fleet, es[..|es| - 1]);
      if e.node < |f| && (e.Freed? || e.Fluctuated?) {
        var demand := if e.Freed? then e.demand else ZERO;
        var cpu, ram := if e.Freed? then 0.0 else e.cpu, if e.Freed? then 0.0 else e.ram;
        OperationsKeepWithin(f[e.node], demand, cpu, ram);
      }
    }
  }

  lemma {:induction false} FleetAtSound(fleet: seq<Node>, env: seq<seq<EnvAction>>, k: nat)
    requires Sound(fleet) && PermittedEnv(env)
    ensures Sound(FleetAt(fleet, env, k))
  {
    if k > 0 {
      FleetAtSound(fleet, env, k - 1);
      EnvKeepsSound(FleetAt(fleet, env, k - 1), Between(env, k - 1));
    }
  }

  /** The whole request never overcommits, however the fleet evolves between its attempts. */
  lemma RetryNeverOvercommits(a: AllocatorState, fleet: seq<Node>, req: Requirements, max: nat,
      env: seq<seq<EnvAction>>)
    requires Sound(fleet) && PermittedEnv(env) && ZERO.AtMost(req.demand)
    ensures Sound(AllocateWithRetry(a, fleet, req, max, env).fleet)
  {
    RetryEnds(Requested(a), fleet, req, max, env, 0);
    var last := RetryFrom(Requested(a), fleet, req, max, env, 0).1;
    FleetAtSound(fleet, env, last);
    AttemptKeepsSound(Requested(a), FleetAt(fleet, env, last), req);
  }

  // ---- When others only release, waiting only helps ----

  ghost predicate AllReleases(es: seq<EnvAction>) {
    forall i :: 0 <= i < |es| ==> es[i].Freed? && ZERO.AtMost(es[i].demand)
  }

  ghost predicate OnlyReleases(env: seq<seq<EnvAction>>) {
    forall k :: 0 <= k < |env| ==> AllReleases(env[k])
  }

  lemma {:induction false} ReleasesKeepFit(fleet: seq<Node>, es: seq<EnvAction>, n: nat, d: Vec)
    requires Sound(fleet) && n < |fleet| && fleet[n].CanAllocate(d)
    requires AllReleases(es)
    ensures ApplyAll(fleet, es)[n].CanAllocate(d)
  {
    if es != [] {
      var before := es[..|es| - 1];
      ReleasesKeepFit(fleet, before, n, d);
      EnvKeepsSound(fleet, before);
      ReleaseKeepsRoom(ApplyAll(fleet, before)[n], d, es[|es| - 1].demand);
    }
  }

  lemma ReleasesArePermitted(env: seq<seq<EnvAction>>)
    requires OnlyReleases(env)
    ensures PermittedEnv(env)
  {
    forall k | 0 <= k < |env| ensures AllPermitted(env[k]) {
      assert AllReleases(env[k]);
    }
  }

  lemma ReleasesBetween(env: seq<seq<EnvAction>>, k: nat, es: seq<EnvAction>)
    requires OnlyReleases(env) && es == Between(env, k)
    ensures AllReleases(es)
  {
  }

  lemma FleetNext(fleet: seq<Node>, env: seq<seq<EnvAction>>, k: nat, before: seq<Node>, es: seq<EnvAction>)
    requires k > 0 && before == FleetAt(fleet, env, k - 1) && es == Between(env, k - 1)
    ensures FleetAt(fleet, env, k) == ApplyAll(before, es)
    ensures FleetAt(fleet, env, k) == if k <= |env| then ApplyAll(before, env[k - 1]) else before
  {
  }

  /** Under releases a node that fits at one attempt fits at every later one. */
  lemma {:induction false} FitPersists(fleet: seq<Node>, env: seq<seq<EnvAction>>, n: nat, d: Vec, k: nat, later: nat)
    requires Sound(fleet) && OnlyReleases(env) && k <= later && n < |fleet|
    requires FleetAt(fleet, env, k)[n].CanAllocate(d)
    ensures FleetAt(fleet, env, later)[n].CanAllocate(d)
    decreases later
  {
    if k < later {
      FitPersists(fleet, env, n, d, k, later - 1);
      var before, es := FleetAt(fleet, env, later - 1), Between(env, later - 1);
      ReleasesArePermitted(env);
      FleetAtSound(fleet, env, later - 1);
      ReleasesBetween(env, later - 1, es);
      ReleasesKeepFit(before, es, n, d);
      FleetNext(fleet, env, later, before, es);
    }
  }
}
