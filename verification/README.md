# AccelSim-Lite, verified

Dafny models of the parts of AccelSim-Lite whose correctness is not visible from reading one
function, with proofs about whole runs and all schedules.

- **Pipeline simulator** (`Pipeline*.dfy`, `Loader.dfy`). `PipelineModel` states each loop and
  phase of `run_workload` as a function on a state value; class `Pipeline.Machine` runs the
  same loops in place and is proved to compute them. A run is a sequence of cycles from the
  initial state. On top of it: the central invariant, topological completion, the
  critical-path and resource bounds, Little's law, stall accounting, and the exact condition
  under which the simulator's outer loop ends (`HaltsIff`), with its cycle bound.
- **Worker pools** (`Checksum`, `StrideWalk`, `TaskWork`, `AccessPatterns`, `GeneratedData`,
  `WorkerPool*.dfy`, `Pthread*.dfy`). The C++ pool is a state machine with the
  mutex, both wait sets, notify-one, notify-all and spurious wake-ups as explicit steps; every
  sequence of enabled steps is a schedule. The C queue is a class over an array, and a second
  state machine lets any number of threads push, pop and close it; the benchmark program,
  with main's loop and the workers' loops, is a third on top of it. A critical section of the
  C queue, which signals before it unlocks, is one step there.
- **Component count** (`Connectivity`, `TrajectoryGraph`).
- **Q8.8 filter** (`FixedPointFilter`).

Identifiers, indices, latencies and cycle numbers are unbounded naturals. Checksum words are
64-bit with explicit wrap-around and a bitwise exclusive or; filter words are 16-bit with
explicit narrowing, and `>> 8` is floor division.

`RunWorkload` requires `Admissible`, because the source does not return otherwise: `HaltsIff`
proves that condition necessary and sufficient, and it is computable before the run.

Findings about the code, each proved above or below:

- A program that the loader accepts can make the simulator loop for ever although its
  dependencies are acyclic: a dependency on a later instruction can jam a small dispatch queue
  (`ForwardDependencyJams`). `HaltsIff` says exactly when; with room for the whole program in
  the dispatch queue, acyclic dependencies are enough and needed (`HaltsIffAcyclic`).
- `queue_capacity` zero passes the engine's constructor and deadlocks any non-empty
  multithreaded run (`CompletesIff`).
- process_work gives one checksum in both access patterns on all data of a size exactly when
  neither the chunk size (if a full chunk occurs) nor the length of a last short chunk is a
  multiple of 67 (`PatternsAgreeIff`). The failing half is about arbitrary data; on the data
  the engine generates for itself the patterns differ for workload and chunk size 268
  (`GeneratedDataDisagrees`).
- README.md:106 says every cycle without output has a named reason. An instruction held back
  by the issue width alone has none (src/simulator.cpp:174-177): `ResourceStallsAreWaiting`
  says exactly how much waiting that is, and `WidthWaitsUncounted` gives a finished run with
  such a wait.
- The filter is exact only for alpha in 0..256; outside, some input overflows
  (`AlwaysExactIff`).

## Model

| member | source | states |
|---|---|---|
| `Loader.Load` | src/workload_runner.cpp:54-105 | loading succeeds exactly when every row has its columns, a known operation and a new id, and every dependency id exists; each instruction then carries the columns of its row; otherwise the error is that of the first bad row, or of the first missing dependency |
| `Loader.LoadedProgram` | src/workload_runner.cpp:71-103 | a loaded program has distinct ids, only existing dependency ids, and column by column the id, operation, memory bytes and dependencies of its rows, with latency zero read as one |
| `Loader.LoadForgetsOnlyZero` | src/workload_runner.cpp:75-90 | two inputs that load as one program differ at most in a latency of zero against one |
| `Pipeline.Machine.constructor` | src/simulator.cpp:96-107 | the machine starts with every queue, slot, counter and retired set empty at cycle 0 |
| `Pipeline.Machine.Retire` | src/simulator.cpp:111-119 | the in-place retire loop computes the retire phase |
| `Pipeline.Machine.TickExecution` | src/simulator.cpp:121-146 | the slot loop throws exactly when a kind has more ending slots than its counter, and otherwise computes the tick |
| `Pipeline.Machine.MarkAndRetire` | src/simulator.cpp:141-146 | everything finished is stamped with this cycle and queued for retirement, in slot order |
| `Pipeline.Machine.DispatchFront` | src/simulator.cpp:150-164 | one iteration of the dispatch scan: front moves up, or rotates with its stall |
| `Pipeline.Machine.DispatchToReady` | src/simulator.cpp:148-165 | the rotate-in-place dispatch loop computes the dispatch scan |
| `Pipeline.Machine.IssueFront` | src/simulator.cpp:170-199 | one iteration of the issue scan, with its width, port and unit tests |
| `Pipeline.Machine.IssueReady` | src/simulator.cpp:167-200 | the rotate-in-place issue loop computes the issue scan |
| `Pipeline.Machine.DecodeToDispatch` | src/simulator.cpp:202-213 | decode to dispatch under width and capacity |
| `Pipeline.Machine.FetchToDecode` | src/simulator.cpp:215-222 | fetch to decode under width |
| `Pipeline.Machine.FetchNext` | src/simulator.cpp:224-232 | program order into fetch under width, stamping the enqueue cycle |
| `Pipeline.Machine.RunCycle` | src/simulator.cpp:109-249 | one iteration of the outer loop is the seven phases in the source order; it reports a throw exactly when one happens |
| `Pipeline.RunWorkload` | src/simulator.cpp:77-253 | on every input on which the source loop ends, without a throw: cfg as given; every instruction Done, unchanged, with complete - issue = max(1, latency); total_cycles zero for an empty program and otherwise the latest complete_cycle plus two, and within the cycle bound; completed_ops the workload size; total_latency the sum of complete - enqueue; never more memory, compute or issuing instructions in a cycle than ports, units and issue width; with distinct ids dependencies complete before issue; each stall counter the sum over the cycles of what it counts |
| `PipelineInvariant.UnderflowUnreachable` | src/simulator.cpp:131-133 | counters that count the slots never underflow in a tick |
| `PipelineInvariant.RetireAllEffect` | src/simulator.cpp:111-119 | retiring marks exactly the Retire-stage instructions Done, and changes nothing else |
| `PipelineInvariant.TickEffect` | src/simulator.cpp:121-146 | the tick completes exactly the instructions whose latency is up, in this cycle |
| `PipelineInvariant.TickSlots` | src/simulator.cpp:121-140 | survivors and finishers split the slots, kind by kind |
| `PipelinePhases.BackEndKeeps` | src/simulator.cpp:111-200 | the invariant holds after the tick, after the dispatch scan and after the issue scan, and nothing throws |
| `PipelinePhases.CycleKeeps` | src/simulator.cpp:109-249 | central invariant: no cycle throws; each index stays in exactly one of unfetched, the five queues, a slot or done, as its stage field says; counters count slots and stay within the configuration; lengths are conserved |
| `PipelineScans.DispatchScanIsFilter` | src/simulator.cpp:148-165 | the rotating scan is a stable filter limited by the ready room; each held entry is one stall, blamed on a dependency exactly when one is missing |
| `PipelineScans.DispatchScanMoves` | src/simulator.cpp:152-156 | only the entries moved up change, and only their stage |
| `PipelineScans.MovedUpMeaning` | src/simulator.cpp:153-163 | what moves up is exactly the satisfied part of the queue, cut off at the room; nothing is lost or duplicated |
| `PipelineScans.ScanKeepsOrder` | src/simulator.cpp:148-165 | what moves and what stays are both subsequences of the queue |
| `PipelineScans.IssueScanIsFilter` | src/simulator.cpp:167-200 | the rotating issue scan is a stable filter under a budget of width, ports and units |
| `PipelineScans.IssueScanMoves` | src/simulator.cpp:196-199 | only issued entries change: stage Execute and this issue cycle |
| `PipelineScans.IssueIsFifoPerClass` | src/simulator.cpp:169-200 | one scan: of each class a first part is issued and the rest is left, both in queue order |
| `PipelineIssue.IssueInReadyOrder` | src/simulator.cpp:148-200 | in every run, of two instructions of one class the one that became ready first, or stood before the other in ready_q at a boundary or at the start of an issue scan, never issues in a later cycle |
| `PipelineScans.IssueIsWorkConserving` | src/simulator.cpp:174-194 | one scan: an entry left waiting means its budget of ports or units is used up, or the width is |
| `PipelineIssue.WaitingHasReason` | src/simulator.cpp:174-198 | at every boundary of every run an instruction waiting in ready_q means all ports (units) of its kind are in use, or exactly issue_width instructions carry the last cycle as issue cycle |
| `PipelineIssue.IssueWidthHolds` | src/simulator.cpp:174-177 | no cycle of any run issues more instructions than issue_width |
| `PipelineStalls.HeldHasReason` | src/simulator.cpp:152-160 | in every run a dispatched instruction whose dependencies have retired stays only if the scan of that cycle filled ready_q |
| `PipelineStalls.FrontHasReason` | src/simulator.cpp:202-232 | in every run each cycle dispatches, decodes and fetches as many instructions as there are, the widths allow and dispatch_q has room for, and no more |
| `PipelineStalls.StallCounters` | src/simulator.cpp:157-207 | in every run each of the five stall counters is the sum over the cycles of what is seen at the boundaries: dispatched instructions with an unretired dependency; satisfied ones kept by a full ready_q; loads and stores, and compute instructions, left in ready_q and not behind the last issue the width allows; cycles in which a full dispatch_q stops decode |
| `PipelineStalls.SkippedIff` | src/simulator.cpp:174-177 | an entry is passed uncounted if and only if the width is used up by issues that all stand before it |
| `PipelineScans.SkippedMeaning` | src/simulator.cpp:174-177 | the entries passed without a count are exactly those behind the issue that used the width up |
| `PipelineScans.IssueStalls` | src/simulator.cpp:174-194 | exact count of a scan: NoMemoryPort (NoComputeUnit) plus the memory (compute) entries behind the last possible issue is the number of such entries left |
| `PipelineCycle.DispatchFullMeaning` | src/simulator.cpp:203-207 | DispatchQueueFull counts once per cycle, exactly when the full dispatch queue is what stops decode |
| `PipelineCycle.CycleAdvance` | src/simulator.cpp:109-249 | one cycle moves each instruction along the stage graph with the right timestamp, and in no other way |
| `PipelineRuns.RunInv` | src/simulator.cpp:109-249 | at every boundary of every run: the central invariant, unchanged program fields, consistent timestamps, dependencies done before issue |
| `PipelineOrder.NeverThrows` | src/simulator.cpp:130-135 | no run reaches either underflow throw |
| `PipelineOrder.IssueAfterDependencies` | src/simulator.cpp:153-198 | with distinct ids, an instruction issues strictly after each of its dependencies completed |
| `PipelineOrder.FinishedInstruction` | src/simulator.cpp:109-252 | a finished run completed every instruction once, unchanged, with issue at least three cycles after fetch and completion exactly its execution cycles after issue |
| `PipelineOrder.TotalIsLastCompletionPlusTwo` | src/simulator.cpp:141-251 | total_cycles is the latest complete_cycle plus two |
| `PipelineOrder.FinishedIsAcyclic` | src/simulator.cpp:109-165 | a run that ends proves the dependency relation acyclic |
| `PipelineOrder.BlockedNeverIssue` | src/simulator.cpp:153-164 | a set of instructions that wait only for each other never leaves Dispatch |
| `PipelineOrder.CyclicNeverIssue` | src/simulator.cpp:153-164 | every instruction on or behind a dependency cycle never leaves Dispatch |
| `PipelineOrder.CriticalPathBound` | src/simulator.cpp:111-251 | for every dependency chain of k instructions, total_cycles >= its execution cycles + k + 4 |
| `PipelineQueues.RunInOrder` | src/simulator.cpp:148-232 | in every run dispatch_q is in program order, fetch_q and decode_q are consecutive, and the bounded queues never exceed their capacities |
| `PipelineProgress.Progress` | src/simulator.cpp:109-249 | in a machine with all means, a cycle with work that is not stuck moves some instruction |
| `PipelineProgress.MeasureDrops` | src/simulator.cpp:109-249 | if one instruction moves, the weighted stage measure drops |
| `PipelineWindow.CloseStaysWithin` | src/simulator.cpp:153-213 | moves of the dispatch window commute: a jammed window bounds every run below it |
| `PipelineWindow.BackwardCompletes` | src/simulator.cpp:153-213 | dependencies that point backwards always get through |
| `PipelineHalting.RunWithin` | src/simulator.cpp:148-213 | every run of the pipeline is a run of the dispatch window |
| `PipelineHalting.StuckJams` | src/simulator.cpp:153-213 | a stuck pipeline is a jammed window with somebody inside |
| `PipelineHalting.HaltsIff` | src/simulator.cpp:109-249 | the outer loop ends if and only if the workload is empty, or all widths, queues and needed units are there and the dispatch window closes; for all workloads, with no hypothesis on ids or dependencies |
| `PipelineHalting.CycleBound` | src/simulator.cpp:109-251 | whenever the loop ends, total_cycles <= sum over instructions of max(1, latency) + 6 |
| `PipelineHalting.BackwardHalts` | src/simulator.cpp:109-249 | backward dependencies and a provisioned machine always end |
| `PipelineAcyclic.HaltsIffAcyclic` | src/simulator.cpp:109-213 | with distinct ids and room for the whole program in dispatch_q the loop ends if and only if the machine has all means, every dependency id exists and no dependency cycle does |
| `PipelineAcyclic.LongWalkCloses` | src/simulator.cpp:153-164 | a walk along dependencies longer than the program closes a cycle |
| `PipelineAcyclic.ForwardDependencyJams` | src/simulator.cpp:204-207 | two rows that pass every loader check and form an acyclic program never end on a dispatch queue of one, and end on a queue of two with all other means |
| `PipelineAccounting.DispatchStallsAreWaiting` | src/simulator.cpp:157-163 | ReadyQueueFull + WaitingDependency is the time spent in dispatch_q beyond one cycle per instruction |
| `PipelineAccounting.ResourceStallsAreWaiting` | src/simulator.cpp:174-194 | in every run NoMemoryPort + NoComputeUnit plus the width-limited waiting is the time spent waiting in ready_q; the two counters are all of it if and only if no scan passes an entry with its width used up, which is certain when issue_width > units + ports |
| `PipelineIssue.WidthWaitsUncounted` | src/simulator.cpp:174-177 | two independent instructions on a machine of issue width one: the loop ends, and in the finished run the counters stay strictly below the waiting time |
| `PipelineAccounting.LittlesLaw` | src/simulator.cpp:118-248 | total_latency is the pipeline occupancy summed over all cycles |
| `PipelineAccounting.ResourceAreaBound` | src/simulator.cpp:181-193 | ports times cycles covers the memory execution cycles, and units times cycles the compute ones |
| `PipelineAccounting.NoOversubscription` | src/simulator.cpp:121-199 | no cycle lies in more [issue, complete) intervals of a kind than that kind has ports or units |
| `PipelineReport.FinishedWithinMeans` | src/simulator.cpp:174-199 | by operation: no cycle lies in more [issue, complete) intervals of loads and stores than memory_ports, nor in more of compute instructions than compute_units, and no cycle issues more than issue_width |
| `PipelineReport.HaltsNeedsMeans` | src/simulator.cpp:179-187 | a program with a load or a store ends only with a memory port, one with a compute instruction only with a unit |
| `PipelineReport.FinishedLatency` | src/simulator.cpp:111-119 | total_latency of a finished run is the sum of complete_cycle - enqueue_cycle |
| `Checksum.SortedIsUnique` | performance_engine/src/performance_engine.cpp:133 | any sorting algorithm gives the same sorted values |
| `Checksum.ChecksumOrder` | performance_engine/src/performance_engine.cpp:97-141 | the task checksum depends only on which values were visited, in 64-bit wrapping arithmetic |
| `Checksum.TaskChecksumMeaning` | performance_engine/src/performance_engine.cpp:97-138 | the task checksum is the 64-bit sum of the values, with the 64-bit gaps between the sorted values xored in |
| `Checksum.XorBitwise` | performance_engine/src/performance_engine.cpp:108-138 | the exclusive or works bit by bit, in words of 64 bits |
| `Checksum.XorOrder` | performance_engine/src/performance_engine.cpp:286-289 | the combined checksum does not depend on the order of tasks |
| `StrideWalk.StrideIsPermutationIff` | performance_engine/src/performance_engine.cpp:118-123 | offset * 67 mod span visits every index once if and only if 67 does not divide span |
| `TaskWork.BuildWorkItems` | performance_engine/src/performance_engine.cpp:74-91 | the chunking loop computes the item list |
| `TaskWork.ItemsTile` | performance_engine/src/performance_engine.cpp:79-88 | items are consecutive, non-empty, of full size but the last, and cover the data exactly |
| `TaskWork.ItemChecksumMeaning` | performance_engine/src/performance_engine.cpp:97-141 | the checksum of a chunk, from data[i] xor i * 17 over the visited indices, in both patterns |
| `TaskWork.ProcessWork` | performance_engine/src/performance_engine.cpp:93-142 | both access patterns return the sum of data[i] xor i * 17 over the chunk with the gaps of the sorted values xored in, and count one allocation and one task |
| `TaskWork.FoldGaps` | performance_engine/src/performance_engine.cpp:135-138 | the last loop xors in, for each two neighbours of the sorted values, what added to the one gives the other |
| `TaskWork.RunSingleThreaded` | performance_engine/src/performance_engine.cpp:144-188 | the sequential run returns the exclusive or of one chunk answer per item, counting each once |
| `AccessPatterns.PatternsAgreeIff` | performance_engine/src/performance_engine.cpp:103-142 | process_work in both patterns gives one checksum on all data of a size if and only if no chunk of that size is a multiple of 67 |
| `GeneratedData.GeneratedDataDisagrees` | performance_engine/src/performance_engine.cpp:68-142 | on the data the constructor generates, with workload and chunk size 268, the two patterns give different checksums |
| `GeneratedData.AnswerForThree` | performance_engine/src/performance_engine.cpp:68-142 | workload and chunk size 3 on the generated data: the whole answer 0x1DAA66CE0 |
| `GeneratedData.TaskLowBit` | performance_engine/src/performance_engine.cpp:97-138 | the low bit of a task checksum is that of the number of odd values plus the least plus the greatest value |
| `WorkerPoolSteps.StepExclusion` | performance_engine/src/performance_engine.cpp:219-268 | the mutex is held by exactly the thread inside a critical section |
| `WorkerPoolSteps.WorkerStepWakeUps` | performance_engine/src/performance_engine.cpp:241-268 | a worker step keeps: non-empty queue means somebody is awake or about to be woken; a sleeping producer faces a full queue or a pending notify |
| `WorkerPoolSteps.ProducerStepWakeUps` | performance_engine/src/performance_engine.cpp:339-362 | the same for the producer, including the final notify-all after the mutex is released |
| `WorkerPoolSteps.StepConserves` | performance_engine/src/performance_engine.cpp:252-265 | each step keeps: queue is the run of pushed tasks not yet taken, each taken task is in one batch or processed |
| `WorkerPoolRuns.AtMostOneHolder` | performance_engine/src/performance_engine.cpp:207-268 | on every schedule at most one thread is in a critical section |
| `WorkerPoolRuns.EveryScheduleGivesTheAnswer` | performance_engine/src/performance_engine.cpp:190-384 | every completed schedule processed each task exactly once, with the checksum of the tasks in order |
| `WorkerPoolRuns.MultithreadedEqualsSequential` | performance_engine/src/performance_engine.cpp:144-384 | for any schedule, worker count, batch size and capacity the checksum is that of run_single_threaded |
| `WorkerPoolRuns.LockAcquisitionBounds` | performance_engine/src/performance_engine.cpp:213-268 | ceil(T / batch) + W <= lock acquisitions <= T + W, and exactly T + W for batch size one |
| `WorkerPoolBatches.TakesWhatThereIs` | performance_engine/src/performance_engine.cpp:241-265 | on every schedule a worker that finds tasks takes from the front until its batch is full or the queue empty; one that finds none leaves if the producer has finished, else sleeps |
| `WorkerPoolBatches.PushesWhenThereIsRoom` | performance_engine/src/performance_engine.cpp:339-355 | on every schedule the producer pushes the next task when there is room, and sleeps only when there is none |
| `WorkerPoolBatches.QueueFits` | performance_engine/src/performance_engine.cpp:339-355 | the queue never exceeds its capacity |
| `WorkerPoolBatches.FewestLocks` | performance_engine/src/performance_engine.cpp:213-268 | the lower bound is attained: one worker, room for all tasks, some schedule completes with exactly ceil(T / batch) + 1 lock acquisitions |
| `WorkerPoolRuns.NoDeadlock` | performance_engine/src/performance_engine.cpp:207-366 | no reachable state short of the end is stuck when the queue has room for a task |
| `WorkerPoolRuns.EveryScheduleEnds` | performance_engine/src/performance_engine.cpp:207-366 | every schedule is at most linear in tasks, workers and spurious wake-ups |
| `WorkerPoolRuns.CompletesIff` | performance_engine/src/performance_engine.cpp:47-72 | the pool can complete if and only if the capacity is at least one or there are no tasks; the constructor does not check the capacity |
| `PthreadQueue.InitQueue` | benchmarks/pthreads_queue/src/pthread_queue.c:56-104 | a capacity of zero is refused, otherwise the queue starts empty and open |
| `PthreadQueue.WorkQueue.constructor` | benchmarks/pthreads_queue/src/pthread_queue.c:66-77 | an empty open circular buffer |
| `PthreadQueue.UnrollPush` | benchmarks/pthreads_queue/src/pthread_queue.c:159-163 | writing at the tail index appends to the queued sequence |
| `PthreadQueue.UnrollPop` | benchmarks/pthreads_queue/src/pthread_queue.c:209-214 | advancing the head drops the first queued item |
| `PthreadQueue.WorkQueue.Push` | benchmarks/pthreads_queue/src/pthread_queue.c:139-168 | the array push refines the FIFO push: waits when full and open, refuses when closed, else appends |
| `PthreadQueue.WorkQueue.Pop` | benchmarks/pthreads_queue/src/pthread_queue.c:181-219 | the array pop refines the FIFO pop: waits when empty and open, reports the end when drained, else takes the first |
| `PthreadQueue.WorkQueue.Close` | benchmarks/pthreads_queue/src/pthread_queue.c:222-239 | closing keeps the contents |
| `PthreadRuns.ItemsComeOutInOrder` | benchmarks/pthreads_queue/src/pthread_queue.c:121-220 | for any threads and interleaving, accepted = handed out + queued, in order, within capacity |
| `PthreadRuns.PushAnswers` | benchmarks/pthreads_queue/src/pthread_queue.c:139-168 | on every history a push is refused when the queue is closed, waits when it is open and full, else adds its item |
| `PthreadRuns.PopAnswers` | benchmarks/pthreads_queue/src/pthread_queue.c:184-219 | on every history a pop takes the first item, also of a closed queue; empty, it waits while the queue is open and returns 0 once it is closed |
| `PthreadRuns.ClosedForEver` | benchmarks/pthreads_queue/src/pthread_queue.c:154-157 | a closed queue stays closed and accepts nothing more |
| `PthreadRuns.PopReturnsZeroOnlyWhenDrained` | benchmarks/pthreads_queue/src/pthread_queue.c:201-207 | a pop returned 0 only if the queue is closed and drained |
| `PthreadRuns.DrainedForEver` | benchmarks/pthreads_queue/src/pthread_queue.c:201-239 | over every history: once closed and drained, the queue, what was accepted and what every thread got never change again, every later pop returns 0 and every later push is refused |
| `PthreadRuns.SleepersReallyWait` | benchmarks/pthreads_queue/src/pthread_queue.c:139-239 | no lost wake-up: in every reachable state in which no call can go on, sleepers in pop face an empty open queue, sleepers in push a full open one, and with capacity not both |
| `TaskWork.ProcessItem` | benchmarks/pthreads_queue/src/pthread_queue_benchmark.c:101-150 | the array version returns the same sum with gaps for the chunk |
| `TaskWork.BuildBenchmarkItems` | benchmarks/pthreads_queue/src/pthread_queue_benchmark.c:269-405 | the indexed chunking loop builds the same items as the C++ one |
| `PthreadBenchmark.WorkerContext.Serve` | benchmarks/pthreads_queue/src/pthread_queue_benchmark.c:172-183 | the loop body of worker_main: process the item, xor its checksum in, count the allocation and the task |
| `PthreadBenchmark.FoldContexts` | benchmarks/pthreads_queue/src/pthread_queue_benchmark.c:440-459 | main folds the stored checksums, allocations and task counts of the contexts |
| `PthreadBenchmarkSteps.StepBench` | benchmarks/pthreads_queue/src/pthread_queue_benchmark.c:152-206 | every step of the program keeps: main alone pushes, in order, and closes after the last item; each context sums up exactly the items its worker served; no wake-up is lost |
| `PthreadBenchmarkSteps.MoveLowers` | benchmarks/pthreads_queue/src/pthread_queue_benchmark.c:152-206 | every step but a spurious wake-up lowers a measure of the work left |
| `PthreadBenchmarkRuns.BenchmarkChecksum` | benchmarks/pthreads_queue/src/pthread_queue_benchmark.c:396-459 | when all workers have left, on every schedule, each item went to exactly one worker and none to main, and the folded contexts hold the checksum of the C++ sequential cache-local run, one allocation and one task per item |
| `PthreadBenchmarkRuns.BenchmarkNeverStuck` | benchmarks/pthreads_queue/src/pthread_queue_benchmark.c:152-206 | in every reachable state the program can go on without a spurious wake-up if and only if some worker has not left its loop; when all have, the queue is closed and drained |
| `PthreadBenchmarkRuns.BenchmarkEnds` | benchmarks/pthreads_queue/src/pthread_queue_benchmark.c:152-459 | every schedule has at most 7 moves per item, 3 per worker, 2 per spurious wake-up, and 3 more |
| `PthreadBenchmarkRuns.BenchmarkCompletes` | benchmarks/pthreads_queue/src/pthread_queue_benchmark.c:152-459 | every schedule extends, without spurious wake-ups, to one in which all workers have left |
| `PthreadBenchmarkRuns.PushNeverRefused` | benchmarks/pthreads_queue/src/pthread_queue_benchmark.c:396-424 | while main pushes the queue is open and the item is the next in order, so no push fails |
| `TrajectoryGraph.Graph.AddPoint` | trajectory_graph_lite/src/trajectory_graph.cpp:47-50 | a new point adds one component, an update none; adjacency and edges stay in step |
| `TrajectoryGraph.Graph.AddEdge` | trajectory_graph_lite/src/trajectory_graph.cpp:52-62 | refused exactly on an unknown end; otherwise components drop by one exactly when the ends were not connected |
| `TrajectoryGraph.Graph.ConnectedComponents` | trajectory_graph_lite/src/trajectory_graph.cpp:76-109 | the count is the number of classes of undirected reachability, whatever the point order, and components + edges >= nodes |
| `TrajectoryGraph.Graph.Search` | trajectory_graph_lite/src/trajectory_graph.cpp:86-105 | the inner search terminates and visits exactly the class of its start |
| `TrajectoryGraph.ClassesGrow` | trajectory_graph_lite/src/trajectory_graph.cpp:80-88 | a visited point brings no new class, an unvisited one exactly its own |
| `Connectivity.ConnectedAfterEdge` | trajectory_graph_lite/src/trajectory_graph.cpp:60-61 | reachability after one more edge, as an if-and-only-if over the old graph |
| `Connectivity.EdgeEffect` | trajectory_graph_lite/src/trajectory_graph.cpp:52-62 | one more edge lowers the class count by one if its ends were not connected, else by zero |
| `Connectivity.NodeEffect` | trajectory_graph_lite/src/trajectory_graph.cpp:47-50 | one more node is one more class |
| `Connectivity.EulerBound` | trajectory_graph_lite/src/trajectory_graph.cpp:47-62 | over every graph components + edges >= nodes |
| `FixedPointFilter.Filter.Update` | firmware_style_validation/fixed_point_filter.cpp:13-21 | one update in 16-bit arithmetic with every cast explicit |
| `FixedPointFilter.UpdateWraps` | firmware_style_validation/fixed_point_filter.cpp:5-21 | for every alpha, also where narrowing changes values: 1 - alpha, the two products shifted down and their sum, each modulo 2^16 |
| `FixedPointFilter.RunFilterSequence` | firmware_style_validation/fixed_point_filter.cpp:27-40 | each output is the filter state after that prefix of inputs |
| `FixedPointFilter.AlwaysExactIff` | firmware_style_validation/fixed_point_filter.cpp:5-21 | no narrowing ever changes a value, on any input sequence, if and only if 0 <= alpha <= 256 |
| `FixedPointFilter.ErrorBound` | firmware_style_validation/fixed_point_filter.cpp:13-21 | at every step exact - state >= 0 and alpha * (exact - state) <= 510 |
| `FixedPointFilter.FilterTracksExact` | firmware_style_validation/fixed_point_filter.h:10-11 | for 1 <= alpha <= 256, 0 <= exact - state <= 510 / alpha against y = a*x + (1-a)*y over the reals |
| `FixedPointFilter.ZeroAlpha` | firmware_style_validation/fixed_point_filter.cpp:13-21 | with alpha zero state and exact value are both zero |

## Left out

- stage_busy_cycles, max_queue_occupancy, throughput, average latency and the bottleneck name: per-cycle bookkeeping and reports that would only add easy members.
- CSV, JSON and report writing, text splitting and number parsing, the command-line programs: input and output. Loader rows are given as parsed columns.
- Clocks, queue-wait and lock-wait times, percentiles, contention: wall-clock measurements. try_lock is a plain acquisition.
- The claim that batching strictly reduces lock acquisitions: it depends on the schedule; the two-sided bound is proved instead.
- malloc, thread, mutex and condition-variable error returns: assumed to succeed.
- The fixed data generator of the engine and the benchmark: results hold for any data; the engine's generator is modelled only where GeneratedData needs it.
- The C benchmark's fixed chunk size 256 and queue capacity 1024: its results hold for any positive ones.
- size_t and uint64_t overflow of indices and cycle counts: unbounded naturals.
- std::sort and qsort are a sorting function; SortedIsUnique covers every algorithm.
- Point distances, edge lengths and turn angles of the trajectory graph; storage_datapath; RTL and cad_flow scripts; the legacy Simulator, ComputeUnit, MemoryController, BoundedQueue and firmware ring buffer.
- Pipeline.RunWorkload: has no run on inputs that are not Admissible, because the source never returns on them; their infinite runs are covered by the lemmas on IsRun, which hold for every prefix.
- Pipeline.Machine.DispatchFront: the loop body stands in a method of its own, and so does Pipeline.Machine.IssueFront; the source has them inline.
