# Verified model of the edge task pipeline

This project models, in Dafny, how the edge simulator turns a stream of tasks into reservations, queued work and
completed executions, and proves what that pipeline guarantees. A producer creates tasks, asks the allocator for a
node, reserves resources there and hands the task to the node's queue; one worker per node picks queued tasks, runs
them and gives their resources back; other threads change the strategies, report the state, or fail nodes.

`dafny verify dfyconfig.toml` checks everything.

| file | what it holds |
|---|---|
| `Tasks.dfy`, `EdgeNodes.dfy` | tasks with their timing; nodes with their reservation ledger and queue, as values and as objects |
| `Selection.dfy`, `Scheduling.dfy`, `EdfExactness.dfy`, `SchedulingRuns.dfy`, `TaskScheduler.dfy` | first-least selection and stable sorting; each strategy's pick; when earliest-deadline-first is exact; whole runs of one queue; the scheduler object |
| `Allocation.dfy`, `AllocationOutcomes.dfy`, `ResourceAllocator.dfy` | viability, scoring and the four strategies as functions; what they choose and report in terms of the nodes' fields; the allocator object with its scans and retry loop |
| `MultiConstraint.dfy`, `RoundRobin.dfy`, `Retry.dfy` | properties of the multi-constraint choice, of round-robin fairness, and of retrying while the fleet changes |
| `Reallocation.dfy`, `ResourceController.dfy` | the loop that empties a failed node's queue, as a function and as objects |
| `Runtime.dfy` | producer, workers and reconfiguring threads as one state machine; one critical section is one step |
| `RuntimeLedger.dfy`, `RuntimeLifecycle.dfy`, `RuntimeOnce.dfy`, `RuntimeCounting.dfy`, `RuntimeRequests.dfy`, `RecordedStrategy.dfy`, `DrainTest.dfy`, `DrainTestExample.dfy` | invariants and theorems over all runs of that machine |
| `TaskExecutor.dfy` | one worker's loop on its own, as an object |
| `RuntimeRefinement.dfy` | undisturbed allocation attempts and worker turns as runs of the state machine |
| `Locks.dfy` | the mutexes, the code that takes them, and freedom from deadlock |
| `LiveRuntime.dfy`, `Metrics.dfy` | choosing and applying configurations; CPU utilisation and load imbalance |
| `TaskIds.dfy`, `PercentDecoding.dfy` | generated ids; percent-decoding of request paths |

## Conventions

- CPU, RAM, bandwidth, scores and clock readings are `real`; IEEE rounding is abstracted. Demands are non-negative and
  capacities are not negative, as the simulator's configuration guarantees.
- A node is known by its position in the node map's key order, which is the order in which ties are decided.
- Counters are unbounded, except the round-robin index, which wraps at 2^64 as `std::size_t` does.
- Clock readings, execution times, random draws and what other threads do meanwhile are parameters or free choices.
- In the state machine the producer may reserve on any node it found viable, and a worker may take any queued task.
  `AttemptIsARun` and `TurnIsARun` show that every strategy's choice and its effect are among these steps.
- `experiment` runs add background load between requests (`main.cpp:243-245`); live runs do not, but may be reconfigured.

## Where the code and its description differ

- Round-robin is described as an even rotation. Because the index wraps at 2^64 before the remainder is taken, the
  rotation can break at the wrap. `EveryCycleExactIff` and `AlwaysBalancedIff` give the exact conditions for runs of every
  length and `WrapBreaksThreeNodes` a failing run.
- Earliest-deadline-first re-reads the clock in every comparison and compares whole milliseconds, so it can pick a later
  deadline (`EdfCanPickTheLaterDeadline`). `EdfOneReadingExactIff` says exactly for which queues one reading per pick is
  always right, `EdfDrainExactIff` for which queues draining is, and `EdfExactIff` for which queues a moving clock is, where
  d bounds the time between the two readings of a comparison and any time may pass between comparisons. If d bounds the
  whole scan the same separation is enough (`ScanPicksEarliest`) but not needed (`ShortScansNeedLess`). `EdfAccuracy` bounds
  the error and `EdfAccuracyIsTight` shows that the bound is reached.
- The drain loop is meant to wait until all work is done. It reads each queue under its node's mutex only, and then the
  active map. A queue can look empty because getNextTask has it in its scratch buffer, and a task just taken is in neither
  the queue nor the active map, so the test can pass too early. `DrainTestMeansDoneIff` says exactly when passing means
  done, with all steps of the workers between the reads, `SettledReadsAreCertain` which reads make that certain, and
  `PassesWithATaskJustTaken` and `PassesWithADrainedQueue` are the two ways in which it fails.
- Reallocation reserves on a new node but neither releases the failed node's reservation nor queues the task there:
  `ReallocationResult` states both as they are.
- The recommendation divides by all nodes, the reported average by those with CPU: `AveragesAgreeIff`.

## Model

| member | source | states |
|---|---|---|
| Tasks.RemainingBracket | task.cpp:20-28 | the whole-millisecond remaining time is at least the exact one and less than one millisecond above it |
| EdgeNodes.OperationsKeepWithin | edge_node.cpp:73-117 | a checked reservation, any release and any fluctuation keep 0 <= usage <= capacity in every resource |
| EdgeNodes.ReleaseUndoesReserve | edge_node.cpp:86-99 | releasing a reservation restores the usage exactly; a release alone never raises it and is exact when the demand is covered |
| EdgeNodes.ReleaseKeepsRoom | edge_node.cpp:73-99 | a demand that fits a node still fits after any release |
| EdgeNodes.FitsIffRoom | edge_node.cpp:73-84 | a demand fits exactly on an available node whose usage plus the demand stays within capacity in all three resources |
| EdgeNodes.FluctuationMoves | edge_node.cpp:110-116 | the first draw moves CPU by as many percent points and the second RAM by as many percent of its capacity, as long as the result is within capacity; nothing else moves |
| EdgeNodes.EdgeNode.constructor | edge_node.cpp:7-14 | a new node is idle, available and has an empty queue |
| EdgeNodes.EdgeNode.Enqueue | edge_node.cpp:58-61 | the task goes to the back of the queue |
| EdgeNodes.EdgeNode.Dequeue | edge_node.cpp:63-71 | the front task, or null and no change on an empty queue |
| EdgeNodes.EdgeNode.AllocateResources | edge_node.cpp:86-92 | the demand is added in all three resources and the node's task count grows by one |
| EdgeNodes.EdgeNode.DeallocateResources | edge_node.cpp:94-99 | the demand is subtracted, each resource stopping at zero |
| EdgeNodes.EdgeNode.SimulateResourceFluctuation | edge_node.cpp:101-117 | CPU and RAM move by the draws and are clamped to the capacity; bandwidth does not move |
| Selection.RemoveAtKeepsTheRest | task_scheduler.cpp:114-115 | erasing one position loses exactly that element |
| Selection.SameOrderSamePick | resource_allocator.cpp:316-322 | two scans whose keys order the candidates alike pick the same position, ties included |
| Selection.DrainIsStableSort | task_scheduler.cpp:97-117 | repeatedly taking the first least yields a stable sort |
| Selection.StableSortUnique | task_scheduler.cpp:97-117 | a list has only one stable sort by a key |
| Scheduling.PickIndex | task_scheduler.cpp:97-142 | every strategy picks a position inside the non-empty queue |
| Scheduling.HighestPriorityIsPicked | task_scheduler.cpp:108-117 | the task taken is CRITICAL if any queued task is, otherwise HIGH if any is, otherwise MEDIUM if any is, and the first of its priority |
| Scheduling.EdfAccuracy | task_scheduler.cpp:118-126 | with nondecreasing readings over a scan of D ms, the picked absolute deadline is less than 1 ms + D above the least |
| Scheduling.EdfCanPickTheLaterDeadline | task_scheduler.cpp:118-126 | the failing case: a queue in creation order and a single reading with which a deadline more than 0.9 ms later is picked |
| EdfExactness.EdfOneReadingExactIff | task_scheduler.cpp:118-126 | with one reading per pick the least deadline is picked at every time if and only if every task queued before the first of the earliest is at least 1 ms later |
| EdfExactness.EdfExactIff | task_scheduler.cpp:118-126 | with a moving clock the least deadline is picked under all readings if and only if every later deadline is at least d later, and 1 ms + d later when queued before the first of the earliest; d bounds the two readings of one comparison |
| EdfExactness.ScanPicksEarliest | task_scheduler.cpp:118-126 | in a scan lasting at most d in all, that separation makes the pick exact |
| EdfExactness.ShortScansNeedLess | task_scheduler.cpp:118-126 | three tasks in creation order and not so separated that no scan of half a millisecond gets wrong, so for whole scans the separation is not necessary |
| EdfExactness.EdfAccuracyIsTight | task_scheduler.cpp:118-126 | for every duration d and every eps > 0 some queue in creation order and some clock reach an error above 1 ms + d - eps |
| EdfExactness.EdfDrainExactIff | task_scheduler.cpp:118-126 | with one reading per pick, draining is the stable sort by absolute deadline whatever the times if and only if any two tasks queued against their deadlines' order are at least 1 ms apart |
| Scheduling.PriorityDrainIsStableSort | task_scheduler.cpp:108-117 | draining by priority gives exactly the stable sort by descending priority, for any clocks |
| Scheduling.EdfDrainIsStableSort | task_scheduler.cpp:118-126 | with whole-millisecond creation times and one reading per pick, draining gives exactly the stable sort by absolute deadline, whatever the times |
| SchedulingRuns.NothingLostOrDuplicated | task_scheduler.cpp:68-157 | in every run of arrivals, picks and strategy switches: arrived = returned + queued, as multisets |
| SchedulingRuns.BoundedOvertaking | task_scheduler.cpp:97-135 | in every run, with any strategy switches, a returned task left behind, among those that had arrived, only later arrivals (FIFO, round robin), only lower priorities and later arrivals of its own priority (priority), only absolute deadlines above its own less 1 ms + d (earliest deadline, for a scan of at most d ms) |
| SchedulingRuns.NoHigherPriorityWaits | task_scheduler.cpp:108-117 | in every run, when priority scheduling returns a LOW task only LOW ones that had arrived wait, for MEDIUM only LOW and MEDIUM, for HIGH none that is CRITICAL |
| SchedulingRuns.EqualPrioritiesStayFifo | task_scheduler.cpp:97-135 | in every run, with any strategy switches, a task returned by a pick that was not earliest-deadline-first had arrived before every task of its priority returned later |
| SchedulingRuns.RoundRobinIsFifo | task_scheduler.cpp:127-135 | replacing ROUND_ROBIN_TIME_SLICE by FIFO changes no queue and no returned task in any run |
| TaskSchedulers.HighestPriority | task_scheduler.cpp:110-113 | the maximum search returns the first task of highest priority |
| TaskSchedulers.LeastRemainingTime | task_scheduler.cpp:119-122 | the minimum search with two clock readings per comparison computes the specified index |
| TaskSchedulers.TaskScheduler.constructor | task_scheduler.cpp:46-49 | a scheduler starts with its strategy and no scheduled task |
| TaskSchedulers.TaskScheduler.SetStrategy | task_scheduler.cpp:36-39 | only the strategy changes |
| TaskSchedulers.TaskScheduler.ScheduleTask | task_scheduler.cpp:68-80 | QUEUED, at the back of the queue, counted once; a null argument changes nothing |
| TaskSchedulers.TaskScheduler.GetNextTask | task_scheduler.cpp:82-157 | drain, select, restore equals removing the task at the strategy's index, all others staying in order |
| TaskSchedulers.TaskScheduler.DrainQueue | task_scheduler.cpp:97-100 | the scratch buffer is the old queue and the queue is empty |
| TaskSchedulers.TaskScheduler.SelectFrom | task_scheduler.cpp:108-142 | the selected position is the strategy's |
| TaskSchedulers.TaskScheduler.Restore | task_scheduler.cpp:150-154 | the buffer is appended in order |
| Allocation.TermsOf | resource_allocator.cpp:364-403 | every normalised sub-score lies in its range, for every node state |
| Allocation.Viable | resource_allocator.cpp:50-67 | exactly the available nodes with room, in edge-id order |
| Allocation.AttemptSucceedsIffFits | resource_allocator.cpp:185-340 | an attempt under any strategy succeeds exactly when some node fits, and otherwise changes nothing |
| Allocation.AttemptCharges | resource_allocator.cpp:185-340 | success charges one fitting node exactly the demand; under the scanning strategies that node is the first best in edge-id order |
| AllocationOutcomes.ReportedScoreIsPoints | resource_allocator.cpp:342-425 | the reported multi-constraint score of any node: 100 points per unit of weight, less each weight's lost part, given by used CPU, RAM and bandwidth shares, latency, queue length and task priority |
| AllocationOutcomes.CpuUseCosts | resource_allocator.cpp:364-370 | raising only the CPU in use by x lowers the reported score by 100 * cpu weight * x / CPU capacity |
| AllocationOutcomes.RamUseCosts | resource_allocator.cpp:372-378 | raising only the RAM in use by x lowers it by 100 * RAM weight * x / RAM capacity |
| AllocationOutcomes.BandwidthUseCosts | resource_allocator.cpp:380-386 | raising only the bandwidth in use by x lowers it by 100 * bandwidth weight * x / bandwidth capacity |
| AllocationOutcomes.LatencyCosts | resource_allocator.cpp:388-397 | each millisecond of latency from 0 to 99 costs the latency weight, and beyond either end nothing |
| AllocationOutcomes.QueueCosts | resource_allocator.cpp:399-403 | each queued task up to 100 costs the queue weight, and further ones nothing |
| AllocationOutcomes.PriorityCosts | resource_allocator.cpp:405-425 | each priority level below CRITICAL costs a quarter of the priority weight |
| AllocationOutcomes.DefaultPoints | constants.h:19-24 | under the default weights CPU is worth 25 points, RAM 20, bandwidth, latency and queue 15 each, priority 10 |
| AllocationOutcomes.CpuRamTradeOff | resource_allocator.cpp:302-332 | of two nodes that differ only in CPU and RAM, the fitting one with the larger cpu weight * free CPU share + RAM weight * free RAM share is preferred to the other |
| AllocationOutcomes.LeastLoadTakesLeastUsed | resource_allocator.cpp:209-242 | least load takes the fitting node with the least CPU in use, the lowest id among equals, and reports that use |
| AllocationOutcomes.UrgentTasksGoNear | resource_allocator.cpp:258-277 | HIGH and CRITICAL tasks go to the fitting node with the least latency, which is reported |
| AllocationOutcomes.OtherTasksGoToShortQueues | resource_allocator.cpp:278-289 | LOW and MEDIUM tasks go to the fitting node with the shortest queue, whose length is reported |
| Allocation.AttemptKeepsSound | resource_allocator.cpp:185-340 | an attempt keeps the fleet within capacity |
| Allocation.SoundIsSelectable | resource_allocator.cpp:221-316 | on a fleet within capacity every viable node beats the running-best sentinel, so the scan always finds one |
| MultiConstraintChoice.DefaultScoreRange | resource_allocator.h:26-33 | with the default weights every node state scores in [2.65, 100] |
| MultiConstraintChoice.DefaultScoreRangeIsTight | resource_allocator.cpp:342-425 | both ends of that range are reached |
| MultiConstraintChoice.DominantLosesOnlyTies | resource_allocator.cpp:302-332 | a fitting node at least as good in every dimension loses only an exact tie, and only to a lower edge id |
| MultiConstraintChoice.PriorityDoesNotMoveTheChoice | resource_allocator.cpp:313-362 | two tasks that differ only in priority go to the same node, for any fleet and weights |
| MultiConstraintChoice.ScalingDoesNotMoveTheChoice | resource_allocator.cpp:342-362 | scaling all weights by one positive factor leaves the choice unchanged |
| RoundRobinFairness.ChoicesFollowPositions | resource_allocator.cpp:196-197 | consecutive allocations walk through the viable list from the index, wrapping at 2^64 |
| RoundRobinFairness.AlwaysBalancedIff | resource_allocator.cpp:190-197 | over every stretch of a run of any length any two nodes' counts differ by at most one if and only if the index does not wrap during the run, or n divides 2^64, or the run is no longer than the remainder of 2^64 by n |
| RoundRobinFairness.EveryCycleExactIff | resource_allocator.cpp:190-197 | every n consecutive allocations hit each of the n nodes exactly once if and only if the index does not wrap during the run or n divides 2^64 |
| RoundRobinFairness.IndexWraps | resource_allocator.cpp:196-197 | the node at the index modulo the number of viable nodes is taken, and the index grows by one, from 18446744073709551615 to 0 |
| RoundRobinFairness.WrapBreaksThreeNodes | resource_allocator.cpp:196-197 | from the last index three allocations on three nodes hit the first twice and the third never |
| Retrying.RetryEnds | resource_allocator.cpp:129-174 | the loop ends at the first fit, or at the last allowed attempt, or at once when there are no nodes |
| Retrying.RetryExact | resource_allocator.cpp:113-180 | success exactly if one of the first max + 1 attempts finds a fit, charging one node once at the first of them; total grows by one and exactly one outcome counter by one; one strategy throughout |
| Retrying.RetryNeverOvercommits | resource_allocator.cpp:109-112 | the whole request keeps the fleet within capacity however others act between attempts |
| Retrying.FitPersists | resource_allocator.cpp:109-112 | if others only release, a node that fits at one attempt fits at every later one |
| ResourceAllocators.ResourceAllocator.constructor | resource_allocator.cpp:29-38 | a new allocator has zero counters and index |
| ResourceAllocators.ResourceAllocator.SetStrategy | resource_allocator.cpp:40-43 | only the strategy changes |
| ResourceAllocators.ResourceAllocator.GetViableEdges | resource_allocator.cpp:50-67 | the loop gathers exactly the viable nodes, in order |
| ResourceAllocators.ResourceAllocator.LowestCpu | resource_allocator.cpp:223-232 | the scan finds the first viable node with least CPU use |
| ResourceAllocators.ResourceAllocator.LowestLatency | resource_allocator.cpp:269-276 | the scan finds the first viable node with least latency |
| ResourceAllocators.ResourceAllocator.ShortestQueue | resource_allocator.cpp:280-287 | the scan finds the first viable node with the shortest queue |
| ResourceAllocators.ResourceAllocator.HighestScore | resource_allocator.cpp:313-322 | the scan finds the first viable node with the highest score |
| ResourceAllocators.ResourceAllocator.Choose | resource_allocator.cpp:185-340 | node and reported score are the strategy's; only round robin moves its index |
| ResourceAllocators.ResourceAllocator.AttemptOnce | resource_allocator.cpp:185-340 | one attempt leaves allocator and fleet as specified, or unchanged when nothing fits |
| ResourceAllocators.ResourceAllocator.Conclude | resource_allocator.cpp:95-104 | success assigns the edge and QUEUED and counts a success; failure only counts a failure |
| ResourceAllocators.ResourceAllocator.AllocateTask | resource_allocator.cpp:69-107 | one counted attempt with its whole effect on allocator, fleet and task |
| ResourceAllocators.ResourceAllocator.RetryLoop | resource_allocator.cpp:129-174 | the loop computes the specified retry over the fleet as others leave it |
| ResourceAllocators.ResourceAllocator.AllocateTaskWithRetry | resource_allocator.cpp:113-180 | one counted request with its whole effect on allocator, fleet and task |
| Reallocation.StepEffect | resource_controller.cpp:117-135 | one turn removes the front task, charges at most one node other than the failed one, and finds a node exactly when a survivor has room |
| Reallocation.ReallocationResult | resource_controller.cpp:108-140 | afterwards the failed node's queue is empty and its usage unchanged, survivors are within capacity and grew by exactly the demands moved to them, every task was tried in turn, and the fleet queues fewer tasks by all of them |
| ResourceControllers.ResourceMonitor.UpdateResourceMetrics | resource_monitor.cpp:48-56 | every available node fluctuates by its draws and no other node changes |
| ResourceControllers.ResourceMonitor.SetNodeAvailable | resource_monitor.cpp:58-100 | a known node changes availability and one counter grows; an unknown id changes nothing |
| ResourceControllers.ResourceController.AllocateTaskNow | resource_controller.cpp:82-92 | one allocation, counted as a success or a failure |
| ResourceControllers.ResourceController.TakeFront | resource_controller.cpp:118-124 | the front task leaves the queue and becomes REALLOCATED with no edge |
| ResourceControllers.ResourceController.ReallocateTasksFromFailedNode | resource_controller.cpp:108-140 | the loop ends with the specified sweep; every task is QUEUED with its node or REALLOCATED with none; the two outcome counters grow together by the old queue length |
| ResourceControllers.ResourceController.SimulateNodeFailure | resource_monitor.cpp:58-79 | a failure marks the node, counts it, and reallocates its whole queue through the status callback |
| RuntimeLedger.NeverOvercommits | resource_allocator.cpp:109-112 | in every reachable state, with or without background load, 0 <= usage <= capacity, and bandwidth equals the open reservations |
| RuntimeLedger.ExactLedger | live_runtime.cpp:169-181 | in every reachable state of the live runtime each node's usage is the sum of its open reservations, so zero when none is open |
| RuntimeLedger.ReleaseIsExact | edge_node.cpp:94-99 | in the live runtime a worker's release subtracts exactly the task's demand: the clamps never fire |
| RuntimeLedger.CommitFindsRoom | resource_allocator.cpp:50-67 | whatever ran since the check, a reservation lands on a node that still has room and stays within capacity |
| RuntimeRequests.RefusedOnlyAfterEveryAttempt | live_runtime.cpp:172 | over every run a request is refused only after 201 attempts have each checked every node and no check found room, or at once without nodes |
| RuntimeRequests.GrantedOnlyAtAttemptsEnd | resource_allocator.cpp:129-158 | a reservation is made only at the end of one of those attempts, all nodes checked, and only if some check found room |
| RuntimeRefinement.AttemptIsARun | resource_allocator.cpp:185-340 | an undisturbed attempt under any strategy is a run of the machine: checks, then the reservation on that strategy's node with its exact effect, or no node at all |
| RuntimeRefinement.TurnIsARun | task_executor.cpp:65-137 | an undisturbed worker turn under any scheduling strategy and clock is a run of the machine with the turn's exact effect on queue, usage, counters and active map |
| RuntimeLifecycle.RunKeepsPlaced | task_executor.cpp:65-137 | in every reachable state each task's recorded phase, status and edge agree with where it actually is |
| RuntimeOnce.ExactlyOnePlace | live_runtime.cpp:157-181 | every created task is with the producer, at one queue position, with one worker, counted, or refused: exactly one of these |
| RuntimeOnce.StatusMovesForward | task_executor.cpp:97-110 | every step moves every status along CREATED, QUEUED, RUNNING, COMPLETED or FAILED |
| RuntimeOnce.StatusNeverGoesBack | task_executor.cpp:97-110 | over any stretch of a run no status goes back and no terminal status changes |
| RuntimeOnce.ExactlyOnce | task_executor.cpp:65-137 | over every run each task is queued, taken, started, finished and counted at most once each, exactly when its record says so |
| RuntimeOnce.AfterShutdown | task_executor.cpp:49-63 | once producer and workers have stopped, an allocated task is terminal or still queued on its node; a task without an edge was refused |
| RuntimeOnce.ActiveMapIsExact | task_executor.cpp:100-116 | in every reachable state the active map holds exactly the tasks between insertion and erasure |
| DrainTest.DrainTestMeansDoneIff | live_runtime.cpp:193-203 | whenever the read-by-read test passes, with any worker steps between its reads: all allocated tasks are terminal if and only if every queue is truly empty and no worker holds a task it has just taken; any unfinished task is at a node whose read did not settle it |
| DrainTest.SettledReadsAreCertain | live_runtime.cpp:193-203 | if every read found its queue truly empty and its worker without a task just taken, passing means that all is done |
| DrainTest.EmptyQueueStaysEmpty | live_runtime.cpp:192-199 | over any stretch of a run after the producer has ended, a queue that is empty at its start is empty at its end |
| DrainTest.PassesOnlyAfterAFullRound | live_runtime.cpp:193-203 | the test passes only after every queue in turn has looked empty, with no read in between that found work, and with the active map empty |
| DrainTestExample.PassesWithATaskJustTaken | live_runtime.cpp:193-203 | under every strategy a reachable run passes the test while the worker holds the only task between dequeue and active map |
| DrainTestExample.PassesWithADrainedQueue | live_runtime.cpp:193-203 | under every strategy but FIFO a reachable run reads a drained queue of two as empty, lets the worker run the first task, reads the active map empty, and passes with the second still queued |
| RuntimeCounting.CountersBalance | resource_allocator.cpp:127-178 | total = successes + failures + in flight, successes = scheduled + hand-off, scheduled = queued + in hands + executed + missed; each outcome counter equals the number of tasks with that outcome |
| RecordedStrategy.RecordedStrategyIsTheOneUsed | live_runtime.cpp:171-181 | every stored row names the task's node and the strategy that chose it; the rows name different tasks, and the tasks with a row are exactly those past `Entering`, but for one whose row is about to be written |
| RecordedStrategy.ConfigurationFixedDuringRequest | live_runtime.cpp:171-181 | no step of any thread changes the configuration during a request |
| RecordedStrategy.ReconfigurationIsAllOrNothing | live_runtime.cpp:246-248 | from taking the mutex to releasing it, a valid configuration is applied whole and a rejected one changes nothing |
| Locks.JobsAreDisciplined | live_runtime.cpp:171-303 | all code of producer, workers and API callers nests mutexes in one order, for any leaf mutexes and any number of retries |
| Locks.TraceKeepsOk | resource_allocator.cpp:118-174 | in every reachable state the order holds for all threads and each mutex has at most one owner |
| Locks.NoDeadlock | live_runtime.cpp:171-181 | in no reachable state does every member of a group of threads wait for a member of that group |
| Locks.WaitingEndsAtARunner | task_scheduler.cpp:68-84 | a blocked thread waits, through at most three others, for one that can run now |
| Locks.SleeperNeverHoldsUpAWorker | resource_allocator.cpp:171-173 | no worker ever waits, directly or through others, for a thread sleeping between retries |
| TaskExecutors.TurnsAreExact | task_executor.cpp:65-137 | over any turns of a worker, nothing queued is lost or run twice and the usage falls by exactly the demands of the tasks run |
| TaskExecutors.WorkerFinishesItsQueue | task_executor.cpp:65-137 | given a turn per task, the queue is emptied, each task is run once, and exactly its reservations are returned |
| TaskExecutors.MissesAreTheLateEnds | task_executor.cpp:108-129 | over any turns a miss is counted for exactly the tasks that ended a millisecond or more after their deadlines |
| TaskExecutors.OneEndPerTurn | task_executor.cpp:65-76 | one task is run per turn while any is queued, and ends when that turn does |
| TaskExecutors.TaskExecutor.constructor | task_executor.cpp:10-16 | a new executor has an empty active map and zero counters |
| TaskExecutors.TaskExecutor.SimulateTaskExecution | task_executor.cpp:97-137 | COMPLETED and one more executed if and only if the task ended before its absolute deadline plus one millisecond, otherwise FAILED and one more missed; active map as before, resources released |
| TaskExecutors.TaskExecutor.ExecuteTasksForEdge | task_executor.cpp:65-76 | the loop leaves queue, usage and counters as specified, and every task that left the queue is terminal |
| LiveRuntimes.NamesRoundTrip | live_runtime.cpp:429-477 | a strategy name is accepted exactly when it is the one written back for that strategy |
| LiveRuntimes.AveragesAgreeIff | live_runtime.cpp:227-235 | the recommendation's average equals the reported one exactly when every node has CPU or nothing is used |
| LiveRuntimes.LiveFleetAveragesAgree | live_runtime.cpp:13-35 | where all nodes have CPU the two averages agree in every fleet state |
| LiveRuntimes.RecommendationIsByUse | live_runtime.cpp:227-244 | the recommendation in terms of usage and capacity: least load from 70 percent, earliest-deadline-first from 60, otherwise multi-constraint and priority-based |
| LiveRuntimes.LiveRuntime.AverageCpu | live_runtime.cpp:227-235 | the loop computes the recommendation's average |
| LiveRuntimes.LiveRuntime.ChooseRecommendedConfiguration | live_runtime.cpp:222-249 | least load exactly from 70 percent of the CPU in use and earliest-deadline-first exactly from 60, of the total where nodes have the same CPU and else by their mean part; without nodes nothing changes |
| LiveRuntimes.LiveRuntime.ApplyManual | live_runtime.cpp:269-290 | an accepted pair of names is applied whole; a rejected one yields its message and changes nothing |
| LiveRuntimes.LiveRuntime.ApplyConfiguration | live_runtime.cpp:251-290 | automatic mode sets the strategies by those thresholds; manual mode all or nothing; uninitialised changes nothing |
| Metrics.VarianceIsMeanSquareLessSquaredMean | metrics_collector.cpp:75-87 | the two passes compute mean of squares minus squared mean |
| Metrics.VarianceBound | metrics_collector.cpp:75-87 | for percentages the variance is at most mean * (100 - mean), with equality exactly when all are 0 or 100, and at most 2500 |
| Metrics.VarianceIsZeroIff | metrics_collector.cpp:75-87 | the variance is never negative, and zero exactly when all values are equal |
| Metrics.LoadImbalanceBound | metrics_collector.cpp:46-89 | for every fleet within capacity these bounds hold of the reported imbalance |
| Metrics.AverageOfParts | metrics_collector.cpp:27-43 | where every node has CPU and node i uses the part parts[i] of it, the average is 100 times their mean |
| Metrics.AverageOfEvenUse | metrics_collector.cpp:27-43 | if all nodes with CPU use the same part of it, the average is that part in percent, so 0 for an idle and 100 for a full fleet; 0 without CPU |
| Metrics.AverageOfSameCpu | metrics_collector.cpp:27-43 | where all nodes have the same CPU the average is the used part of the total, in percent |
| Metrics.CalculateAverageCpuUtilization | metrics_collector.cpp:17-44 | the loop computes the mean utilisation of the nodes with CPU, zero without any: 100 times the mean part in use |
| Metrics.CalculateLoadImbalance | metrics_collector.cpp:46-89 | the loops compute the variance of the utilisations; fewer than two count as balanced |
| TaskIds.IdDeterminesCounter | task_manager.cpp:14-19 | the counter can be read back from every id, padded or longer than six digits |
| TaskIds.IdDigits | task_manager.cpp:14-19 | counted from the right, every character after the T is that decimal digit of the counter, zero where it has none |
| TaskIds.IdsAreInjective | task_manager.cpp:14-19 | no two counters share an id |
| TaskIds.IdLength | task_manager.cpp:17 | an id has seven characters exactly below one million |
| TaskIds.IssuedIdsAreDistinct | task_manager.cpp:14-19 | no id a manager ever issued occurs twice |
| TaskIds.TaskManager.GenerateTaskId | task_manager.cpp:14-19 | a fresh id, different from all issued before |
| TaskIds.TaskManager.CreateTask | task_manager.cpp:21-47 | a new CREATED task with a fresh id and its sensor type's requirements (or the fallback), counted once, and queued exactly when the controller's callback is registered |
| TaskIds.TaskManager.SetForwarding | task_manager.cpp:76-82 | only the registration of the callback changes |
| TaskIds.TaskManager.EnqueueTask | task_manager.cpp:49-52 | the task goes to the back |
| TaskIds.TaskManager.DequeueTask | task_manager.cpp:54-64 | the front task, counted as processed; nothing on an empty queue |
| PercentDecoding.UrlDecode | http_api_server.cpp:22-40 | the in-place loop equals the one-pass decoder on every byte string |
| PercentDecoding.DecodeShortensByTwoPerEscape | http_api_server.cpp:32-35 | the string shrinks by exactly two bytes per escape and is unchanged exactly when it has none |
| PercentDecoding.DecodeComposesIff | http_api_server.cpp:22-40 | a first piece decodes separately from whatever follows it if and only if it does not end inside an escape; well-formed pieces never do, so no decoded byte is read again |
| PercentDecoding.DecodeInvertsExactlyTheEncodings | http_api_server.cpp:22-40 | a string encodes s exactly when it is well-formed and decodes to s, for every encoder and either case of digits |
| PercentDecoding.DecodeEncode | http_api_server.cpp:22-40 | decoding inverts the full encoder of RFC 3986 section 2.1 on every byte string |
| PercentDecoding.DecodeEncodeAs | http_api_server.cpp:22-40 | the round trip on every byte string for every choice of which bytes to escape and of upper or lower case for each digit, digits taken from two literal tables |
| PercentDecoding.EscapeIsItsByte | http_api_server.cpp:26-35 | wherever an escape stands, it is decoded to sixteen times its first digit plus its second |
| PercentDecoding.DigitCaseDoesNotMatter | http_api_server.cpp:26-30 | writing the digits of an escape in the other case never changes the decoded string |
| PercentDecoding.OnlyDigitsAreDecoded | http_api_server.cpp:26-33 | a percent sign and two bytes are decoded exactly if both bytes are in the tables of hexadecimal digits |
| PercentDecoding.DecodingTwiceDiffers | http_api_server.cpp:22-40 | decoding twice is not decoding once (RFC 3986 section 2.4) |

## Left out

- SQLite persistence: foreign calls. The stored allocation rows appear as the state machine's log; other rows do not.
- MQTT, HTTP sockets and routing, JSON conversion and log output: input and output around the modelled logic.
- The frontend, build files, argument parsing and sensor simulators hold no state the pipeline depends on.
- Random generators, jitter and execution-time estimates: free values in the ranges the code draws from.
- IEEE rounding and the square root: the load imbalance is stated on the variance, whose root the code reports.
- Metrics.CalculateLoadImbalance: returns the variance, the square of what the code returns, because the root is left out.
- Metrics.CalculateAverageCpuUtilization: reads all nodes at one moment; the code reads them one after the other while workers run.
- LiveRuntimes.LiveRuntime.AverageCpu: reads all nodes at one moment; the code reads them one after the other while workers run.
- TaskExecutors.TaskExecutor.ExecuteTasksForEdge: the running flag is a given number of turns, and the worker runs alone; interleavings are covered by the state machine.
- TaskIds.TaskManager.CreateTask: the only creation callback modelled is the controller's, which queues the task; device ids and sensor payloads are left out.
- LiveRuntimes.LiveRuntime.ApplyConfiguration: runs alone; its interleaving with requests is `ReconfigurationIsAllOrNothing`, and it requires strategy names as strings only.
- The drain loop's 30-second deadline and the stop request, after which the producer leaves the loop without the test having passed.
- ResourceAllocators.ResourceAllocator.AllocateTaskWithRetry: other threads act between attempts here; acting between check and reservation is covered by the state machine.
- The lock of `checkEdgeNodeHealth`: it calls the status callback while holding the node-map mutex that the callback takes again; the live runtime never calls it, so it is outside the deadlock theorem.
- Thread start, join and detachment, and SQLite's own locking, are outside the deadlock theorem; a joining thread holds no mutex.
- The controller's processing loop, which fluctuates usage on one thread while failures allocate on another: the check-to-reservation argument does not survive a rising fluctuation in between, so overcommit freedom is stated for the live runtime, for experiments and for sequential use of the controller.
- The automatic-mode flag is read without its mutex before a recommendation; that manual mode always shows the requested strategy is therefore not claimed.
- Unregistering nodes while the system runs, null entries in the node map, and the unknown-strategy branches, which no value of the enumerations reaches.
- Status writes take no mutex; the state machine joins each with the neighbouring critical section (RUNNING with the insertion into the active map, QUEUED with the allocator's success count).
- The unused comparator structs of the scheduler, label tables and dashboard views.
