/** Choosing and changing the two strategies while the runtime is live (live_runtime.cpp). */
module LiveRuntimes {
  import opened Tasks
  import opened EdgeNodes
  import opened Allocation
  import opened Scheduling
  import opened Metrics
  import opened ResourceAllocators
  import opened TaskSchedulers

  // ---- Strategy names ----

  function AllocationFromString(value: string): Option<AllocationStrategy> {
    if value == "round_robin" then Some(RoundRobin)
    else if value == "least_load" then Some(LeastLoad)
    else if value == "priority_based" then Some(PriorityRouting)
    else if value == "multi_constraint" then Some(MultiConstraint)
    else None
  }

  function AllocationToString(strategy: AllocationStrategy): string {
    match strategy
    case RoundRobin => "round_robin"
    case LeastLoad => "least_load"
    case PriorityRouting => "priority_based"
    case MultiConstraint => "multi_constraint"
  }

  function SchedulingFromString(value: string): Option<SchedulingStrategy> {
    if value == "fifo" then Some(Fifo)
    else if value == "priority_based" then Some(PriorityBased)
    else if value == "edf" then Some(EarliestDeadlineFirst)
    else if value == "round_robin" then Some(RoundRobinTimeSlice)
    else None
  }

  function SchedulingToString(strategy: SchedulingStrategy): string {
    match strategy
    case Fifo => "fifo"
    case PriorityBased => "priority_based"
    case EarliestDeadlineFirst => "edf"
    case RoundRobinTimeSlice => "round_robin"
  }

  lemma FourAllocationNames()
    ensures |"round_robin"| == 11 && |"least_load"| == 10 && |"priority_based"| == 14 && |"multi_constraint"| == 16
  {
  }

  /** A name is accepted exactly when it is the one written back for its strategy. */
  lemma NamesRoundTrip(value: string, allocation: AllocationStrategy, scheduling: SchedulingStrategy)
    ensures AllocationFromString(value) == Some(allocation) <==> value == AllocationToString(allocation)
    ensures SchedulingFromString(value) == Some(scheduling) <==> value == SchedulingToString(scheduling)
  {
    FourAllocationNames();
    assert |"fifo"| == 4 && |"edf"| == 3;
  }

  // ---- The automatic recommendation ----

  /** The recommendation divides by all nodes, also those without CPU. */
  function RecommendationAverage(fleet: seq<Node>): real
    requires fleet != []
  {
    Sum(Utilizations(fleet)) / |fleet| as real
  }

  function RecommendedAllocation(average: real): AllocationStrategy {
    if average >= 70.0 then LeastLoad else MultiConstraint
  }

  function RecommendedScheduling(average: real): SchedulingStrategy {
    if average >= 60.0 then EarliestDeadlineFirst else PriorityBased
  }

  lemma SameQuotientIff(a: real, m: real, n: real)
    requires 0.0 < m && 0.0 < n
    ensures a / m == a / n <==> a == 0.0 || m == n
  {
    TimesQuotient(a, m);
    TimesQuotient(a, n);
    var q := a / m;
    if q == a / n {
      assert q * m == q * n;
      assert q * (m - n) == 0.0;
    }
  }

  /** The recommendation sees the reported average exactly when every node has CPU or nothing is used. */
  lemma AveragesAgreeIff(fleet: seq<Node>)
    requires fleet != []
    ensures RecommendationAverage(fleet) == Mean(Utilizations(fleet))
      <==> |Utilizations(fleet)| == |fleet| || Sum(Utilizations(fleet)) == 0.0
  {
    var s := Utilizations(fleet);
    if s != [] {
      SameQuotientIff(Sum(s), |s| as real, |fleet| as real);
    }
  }

  lemma {:induction false} AllCounted(fleet: seq<Node>)
    ensures |Utilizations(fleet)| == |fleet| <==> forall i :: 0 <= i < |fleet| ==> HasCpu(fleet[i])
  {
    if fleet != [] {
      var t := fleet[..|fleet| - 1];
      AllCounted(t);
      assert (forall i :: 0 <= i < |fleet| ==> HasCpu(fleet[i]))
        <==> (forall i :: 0 <= i < |t| ==> HasCpu(t[i])) && HasCpu(fleet[|t|]);
    }
  }

  /** Where all nodes have CPU, as the live runtime makes them, both averages agree on every fleet state. */
  lemma LiveFleetAveragesAgree(fleet: seq<Node>)
    requires fleet != [] && forall i :: 0 <= i < |fleet| ==> HasCpu(fleet[i])
    ensures RecommendationAverage(fleet) == Mean(Utilizations(fleet))
  {
    AllCounted(fleet);
    AveragesAgreeIff(fleet);
  }

  // ---- What the recommendation depends on, in usage and capacity ----

  lemma PartReaches(part: real, total: real, used: real, least: real)
    requires total > 0.0 && used == part * total
    ensures part >= least <==> used >= least * total
  {
    if part >= least {
      assert (part - least) * total >= 0.0;
    } else {
      assert (least - part) * total > 0.0;
    }
  }

  lemma PartThresholds(part: real, total: real, used: real)
    requires total > 0.0 && used == part * total
    ensures part >= 0.7 <==> used >= 0.7 * total
    ensures part >= 0.6 <==> used >= 0.6 * total
  {
    PartReaches(part, total, used, 0.7);
    PartReaches(part, total, used, 0.6);
  }

  lemma RecommendationIsAPart(fleet: seq<Node>, c: real) returns (part: real)
    requires fleet != [] && SameCpu(fleet, c)
    ensures TotalCpu(fleet) > 0.0 && UsedCpu(fleet) == part * TotalCpu(fleet)
    ensures RecommendationAverage(fleet) == 100.0 * part
  {
    LiveFleetAveragesAgree(fleet);
    part := AverageIsAPart(fleet, c);
  }

  lemma HundredfoldThresholds(average: real, part: real)
    requires average == 100.0 * part
    ensures (average >= 70.0 <==> part >= 0.7) && (average >= 60.0 <==> part >= 0.6)
  {
  }

  /** Seventy percent of the same nodes' CPU, and sixty. */
  lemma ThresholdsOfSameCpu(fleet: seq<Node>, c: real, average: real, used: real, total: real)
    requires fleet != [] && SameCpu(fleet, c)
    requires average == RecommendationAverage(fleet) && used == UsedCpu(fleet) && total == TotalCpu(fleet)
    ensures average >= 70.0 <==> used >= 0.7 * total
    ensures average >= 60.0 <==> used >= 0.6 * total
  {
    var part := RecommendationIsAPart(fleet, c);
    HundredfoldThresholds(average, part);
    PartThresholds(part, total, used);
  }

  lemma RecommendationOfParts(fleet: seq<Node>, parts: seq<real>)
    requires fleet != [] && UseParts(fleet, parts)
    ensures RecommendationAverage(fleet) == 100.0 * Mean(parts)
  {
    LiveFleetAveragesAgree(fleet);
    AverageOfParts(fleet, parts);
  }

  lemma MeanThresholds(parts: seq<real>, mean: real)
    requires parts != [] && mean == Mean(parts)
    ensures mean >= 0.7 <==> Sum(parts) >= 0.7 * |parts| as real
    ensures mean >= 0.6 <==> Sum(parts) >= 0.6 * |parts| as real
  {
    TimesQuotient(Sum(parts), |parts| as real);
    PartThresholds(mean, |parts| as real, Sum(parts));
  }

  /** Nodes that differ in CPU count by the parts of it in use. */
  lemma ThresholdsOfParts(fleet: seq<Node>, parts: seq<real>, average: real)
    requires fleet != [] && UseParts(fleet, parts) && average == RecommendationAverage(fleet)
    ensures average >= 70.0 <==> Sum(parts) >= 0.7 * |fleet| as real
    ensures average >= 60.0 <==> Sum(parts) >= 0.6 * |fleet| as real
  {
    RecommendationOfParts(fleet, parts);
    HundredfoldThresholds(average, Mean(parts));
    MeanThresholds(parts, Mean(parts));
  }

  /**
   The two strategies an automatic choice sets: the first by 70 percent of all CPU and the second by 60 where the nodes
   have the same, and otherwise by the mean part in use.
   */
  ghost predicate ChosenByUse(fleet: seq<Node>, allocation: AllocationStrategy, scheduling: SchedulingStrategy) {
    && (forall c :: SameCpu(fleet, c) ==>
        && allocation == (if UsedCpu(fleet) >= 0.7 * TotalCpu(fleet) then LeastLoad else MultiConstraint)
        && scheduling == (if UsedCpu(fleet) >= 0.6 * TotalCpu(fleet) then EarliestDeadlineFirst else PriorityBased))
    && (forall parts :: UseParts(fleet, parts) ==>
        && allocation == (if Sum(parts) >= 0.7 * |fleet| as real then LeastLoad else MultiConstraint)
        && scheduling == (if Sum(parts) >= 0.6 * |fleet| as real then EarliestDeadlineFirst else PriorityBased))
  }

  lemma RecommendationIsByUse(fleet: seq<Node>)
    requires fleet != []
    ensures ChosenByUse(fleet, RecommendedAllocation(RecommendationAverage(fleet)),
      RecommendedScheduling(RecommendationAverage(fleet)))
  {
    var average := RecommendationAverage(fleet);
    forall c | SameCpu(fleet, c)
      ensures average >= 70.0 <==> UsedCpu(fleet) >= 0.7 * TotalCpu(fleet)
      ensures average >= 60.0 <==> UsedCpu(fleet) >= 0.6 * TotalCpu(fleet)
    {
      ThresholdsOfSameCpu(fleet, c, average, UsedCpu(fleet), TotalCpu(fleet));
    }
    forall parts | UseParts(fleet, parts)
      ensures average >= 70.0 <==> Sum(parts) >= 0.7 * |fleet| as real
      ensures average >= 60.0 <==> Sum(parts) >= 0.6 * |fleet| as real
    {
      ThresholdsOfParts(fleet, parts, average);
    }
  }

  class LiveRuntime {
    const edges: seq<EdgeNode>
    const allocator: ResourceAllocator?
    const scheduler: TaskScheduler?
    var automatic: bool
    var allocationName: string
    var schedulingName: string

    constructor (edges: seq<EdgeNode>, allocator: ResourceAllocator?, scheduler: TaskScheduler?,
      automatic: bool, allocationName: string, schedulingName: string)
      ensures this.edges == edges && this.allocator == allocator && this.scheduler == scheduler
      ensures this.automatic == automatic && this.allocationName == allocationName
        && this.schedulingName == schedulingName
    {
      this.edges, this.allocator, this.scheduler := edges, allocator, scheduler;
      this.automatic, this.allocationName, this.schedulingName := automatic, allocationName, schedulingName;
    }

    predicate Ready() {
      allocator != null && scheduler != null
    }

    /** The average CPU use the recommendation is based on. */
    method AverageCpu() returns (average: real)
      requires edges != []
      ensures average == RecommendationAverage(Fleet(edges))
    {
      ghost var fleet := Fleet(edges);
      var total := 0.0;
      for i := 0 to |edges|
        invariant total == Sum(Utilizations(fleet[..i]))
      {
        NextNode(fleet, i);
        if edges[i].capacity.cpu > 0.0 {
          total := total + Utilization(edges[i].View());
        }
      }
      assert fleet[..|edges|] == fleet;
      average := total / |edges| as real;
    }

    method ChooseRecommendedConfiguration()
      modifies (if allocator == null then {} else {allocator})`strategy,
        (if scheduler == null then {} else {scheduler})`strategy
      ensures Ready() && edges != [] ==>
        var average := RecommendationAverage(old(Fleet(edges)));
        allocator.strategy == RecommendedAllocation(average) && scheduler.strategy == RecommendedScheduling(average)
      ensures Ready() && edges != [] ==> ChosenByUse(old(Fleet(edges)), allocator.strategy, scheduler.strategy)
      ensures !Ready() || edges == [] ==>
        && (allocator != null ==> allocator.strategy == old(allocator.strategy))
        && (scheduler != null ==> scheduler.strategy == old(scheduler.strategy))
    {
      if allocator == null || scheduler == null || edges == [] {
        return;
      }
      ghost var fleet := Fleet(edges);
      RecommendationIsByUse(fleet);
      var average := AverageCpu();
      allocator.SetStrategy(if average >= 70.0 then LeastLoad else MultiConstraint);
      scheduler.SetStrategy(if average >= 60.0 then EarliestDeadlineFirst else PriorityBased);
    }

    /** A manual configuration is applied whole; a rejected one changes neither strategy nor anything else. */
    method ApplyManual(allocation: string, scheduling: string) returns (error: Option<string>)
      requires Ready()
      modifies this`automatic, this`allocationName, this`schedulingName, allocator`strategy, scheduler`strategy
      ensures error == None <==> AllocationFromString(allocation).Some? && SchedulingFromString(scheduling).Some?
      ensures error == None ==>
        && Some(allocator.strategy) == AllocationFromString(allocation)
        && Some(scheduler.strategy) == SchedulingFromString(scheduling)
        && !automatic && allocationName == allocation && schedulingName == scheduling
      ensures error != None ==>
        && error == Some(if AllocationFromString(allocation) == None
          then "Unsupported allocation strategy: " + allocation
          else "Unsupported scheduling algorithm: " + scheduling)
        && allocator.strategy == old(allocator.strategy) && scheduler.strategy == old(scheduler.strategy)
        && automatic == old(automatic) && allocationName == old(allocationName) && schedulingName == old(schedulingName)
    {
      var a := AllocationFromString(allocation);
      if a == None {
        return Some("Unsupported allocation strategy: " + allocation);
      }
      var s := SchedulingFromString(scheduling);
      if s == None {
        return Some("Unsupported scheduling algorithm: " + scheduling);
      }
      allocator.SetStrategy(a.value);
      scheduler.SetStrategy(s.value);
      automatic := false;
      allocationName := AllocationToString(a.value);
      schedulingName := SchedulingToString(s.value);
      NamesRoundTrip(allocation, a.value, s.value);
      NamesRoundTrip(scheduling, a.value, s.value);
      error := None;
    }

    method ApplyConfiguration(auto: bool, allocation: string, scheduling: string) returns (error: Option<string>)
      modifies this`automatic, this`allocationName, this`schedulingName
      modifies (if allocator == null then {} else {allocator})`strategy,
        (if scheduler == null then {} else {scheduler})`strategy
      ensures !Ready() ==> error == Some("Runtime is not initialized")
      ensures !Ready() || (auto && edges == []) ==>
        && (allocator != null ==> allocator.strategy == old(allocator.strategy))
        && (scheduler != null ==> scheduler.strategy == old(scheduler.strategy))
      ensures !Ready() || (!auto && error != None) ==>
        automatic == old(automatic) && allocationName == old(allocationName) && schedulingName == old(schedulingName)
      ensures Ready() && auto ==>
        && error == None && automatic
        && allocationName == old(allocationName) && schedulingName == old(schedulingName)
      ensures Ready() && auto && edges != [] ==>
        var average := RecommendationAverage(old(Fleet(edges)));
        allocator.strategy == RecommendedAllocation(average) && scheduler.strategy == RecommendedScheduling(average)
      ensures Ready() && auto && edges != [] ==>
        ChosenByUse(old(Fleet(edges)), allocator.strategy, scheduler.strategy)
      ensures Ready() && !auto ==>
        (error == None <==> AllocationFromString(allocation).Some? && SchedulingFromString(scheduling).Some?)
      ensures Ready() && !auto && error == None ==>
        && Some(allocator.strategy) == AllocationFromString(allocation)
        && Some(scheduler.strategy) == SchedulingFromString(scheduling)
        && !automatic && allocationName == allocation && schedulingName == scheduling
      ensures Ready() && !auto && error != None ==>
        && error == Some(if AllocationFromString(allocation) == None
          then "Unsupported allocation strategy: " + allocation
          else "Unsupported scheduling algorithm: " + scheduling)
        && allocator.strategy == old(allocator.strategy) && scheduler.strategy == old(scheduler.strategy)
    {
      if allocator == null || scheduler == null {
        return Some("Runtime is not initialized");
      }
      if auto {
        automatic := true;
        ChooseRecommendedConfiguration();
        return None;
      }
      error := ApplyManual(allocation, scheduling);
    }
  }
}
