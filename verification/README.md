# Verified model of the predictive autoscaler

A Dafny 4.11 model of the logic of the predictive-autoscaling repository, with proofs about all
inputs and all runs. `dafny verify dfyconfig.toml` checks the whole project.

| module | what it models |
|---|---|
| `WorkerOperations`, `WorkerPlanner`, `WorkerExecutor` | the Go operator's tracked worker operations, the planner, and the executor that acknowledges, rolls back, times out and starts them |
| `NodeScaling` | one persisted reconcile as a transition on the stored status; `NodeScalingSafety`, `NodeScalingLedger` and `NodeScalingConvergence` prove what its runs keep, `NodeScalingBreaks` which runs break a limit, `NodeScalingExact` what a reconcile does to each operation and that it attains its limits |
| `WorkerCapacity` | the free-slots and direct-divide strategies and the node snapshots |
| `LoadSender`, `LoadSenderSafety`, `LoadSenderExact` | the Python load generator's token pool, bounded backlog and counters as interleaved atomic steps |
| `ScriptTimeline`, `Sharding`, `ScriptDispatch` | its script normalisation, its sharding over worker processes, and the two together |
| `StatisticsWriter` | its per-second report |
| `WorkerPool`, `WorkerPoolSafety`, `WorkerPoolExact` | the TypeScript service's worker threads, bounded queue, failures and shutdown |
| `ScriptRangeStore`, `SeriesSampling` | the sparse file index and the downsampling of what it reads |
| `LoopHistory` | the bounded history of controller loops |
| `PodScaling`, `PodScalingSafety`, `PodScalingExact` | replica demand, reactive pressure and scale-down guardrails |
| `ShellQuote` | quoting of operation commands |

## How to read it

Code that changes state is a class or a method with the source's own control flow. Each such method
is proved equal to a specification function on values, and the theorems are about runs of those
functions: `NodeScaling.After`, `LoadSender.After`, `WorkerPool.After`, `PodScaling.After`,
`StatisticsWriter.After`. The `Exact` modules say what a step or a run does in the source's own data:
configured numbers, phases, timestamps, lookups and events, not the helpers of those functions.

What the outside world decides is chosen freely at every step: the target, ready count, unschedulable
pods, job lookups, job creations and the status patch of a reconcile (`NodeScaling.Env`); the clock and
the order of tasks in the load generator; arrivals, worker messages, failures and exits in the pool;
forecasts and API outcomes in the pod scaler; the meaning
of a file line (`ScriptRangeStore.Parser`).

In the node scaler "credited" is what the planner takes to be done because the ready count moved,
and "acknowledged" is what the executor drops for the same reason. They can differ: a node that turns
Ready before its job has ended is credited while its operation stays tracked. The concurrency limits
are therefore not unconditional. `StepBound` is the bound that always holds. `CreateLimitExactly`,
`DeleteLimitExactly` and `OneWayExactly` say exactly when the limits survive a reconcile, in terms of the
phases, the job lookups and the two ready counts; `RunIsSafe` gives them for every run that meets those
conditions, and `NodeScalingBreaks` exhibits runs from the empty status that break each of them.

Two more promises hold only under a condition, which is proved exactly. The load generator reports as in
flight every token that is out, and counts an outcome before the response context is left. If that exit
suspends, which the HTTP client decides, a request is counted twice until it is left; if not, nothing is ever
left closing at an await and the reported balance always holds (`ReportedBalanceExactly`, `PromptRunsBalance`).
Syncing a loop record twice stores it twice when its key is padded and it names
no minute (`ResyncIsQuietExactly`, `PaddedKeyIsStoredTwice`); the records the showcase builds itself
(`system-showcase/app/snapshot_service.py:481-482`, `507-512`, `673-686`) carry an unpadded key and a minute.

Where code and documentation disagree the model follows the code:

- `general-resource-demand-service/README.md:97-98` speaks of a pool of 6 and a queue of 12;
  `resource-demand.constants.ts` sets 3 and 6. Both sizes are parameters here, so the theorems hold for either.
- Sorting by slots breaks ties by node name in the source; every result here is the same for any order of ties.
- A worker process without an index dispatches everything, which is the case of one worker with index zero.

## Model

| member | source | states |
|---|---|---|
| `NodeScalingSafety.StepBound` | custom-scaler/internal/controller/worker_prototype.go:120-229 | With no assumption on status or cluster: after a persisted reconcile the workers in flight of each type are at most max(what was in flight, the configured number, or one when it is not positive, + credited) minus what was removed (acknowledged or rolled back). |
| `NodeScalingSafety.RunIsSafe` | custom-scaler/internal/controller/node_scaling_controller.go:50-108 | From the empty status, in every run in which, at each persisted reconcile and for both types, no job still runs or the ready count moved by no more than the jobs that ended: creates and deletes in flight stay within the configured maxConcurrentCreateOps and maxConcurrentDeleteOps (within one when a number is not positive) and are never tracked together. |
| `NodeScalingExact.CreatesAreGreatest` | custom-scaler/internal/controller/worker_prototype.go:111-229 | In every state n creates are planned exactly when no delete is unobserved, n does not pass the target, and n fits the configured create limit less what is unobserved, and the batch: the setting, or else the larger configured limit. So the planner plans as many as it may, neither more nor fewer. |
| `NodeScalingExact.DeletesAreGreatest` | custom-scaler/internal/controller/worker_prototype.go:111-229 | The same for deletes, where also no pod may be waiting for a node. |
| `NodeScalingExact.IdleAttains` | custom-scaler/internal/controller/node_scaling_controller.go:50-108 | An idle scaler whose jobs are all created leaves exactly min(gap, configured limit, batch) in flight in the direction of the gap, and no deletes while pods wait: the bound is attained. |
| `NodeScalingExact.FateExactly` | custom-scaler/internal/controller/worker_executor.go:175-231 | The fate of each tracked operation in phases, lookup fields and timestamps: a missing or failed job is dropped and leaves pending; one that waits (job succeeded now or before) is acknowledged while its budget is positive; else it is rolled back if and only if the timeout is positive and now less its finish, else its start, reaches it; every other one is kept. |
| `NodeScalingExact.PassExactly` | custom-scaler/internal/controller/worker_executor.go:158-237 | Every reconcile passes once over all stored operations in order, with the move of the ready count as budget, each meeting that fate; what is stored is what the pass kept followed by what was started, and the pending it left less what was planned and not launched. |
| `NodeScalingExact.StartsUntilError` | custom-scaler/internal/controller/worker_executor.go:239-268 | The start loop stops at the first error of an enabled command and nowhere else; it fails the step if and only if that error is at the first attempt. |
| `NodeScalingExact.NewOperationsExactly` | custom-scaler/internal/controller/worker_executor.go:270-332 | One new operation per job created, in order, with its type, node and job name, running since now and standing for one worker; none while the command is disabled. |
| `NodeScalingExact.PersistsExactly` | custom-scaler/internal/controller/node_scaling_controller.go:50-108 | A reconcile stores a status if and only if every job lookup succeeds, the first planned start does not fail, and the status patch goes through. |
| `NodeScalingSafety.CreateLimitExactly` | custom-scaler/internal/controller/worker_prototype.go:151-229 | The create limit survives a reconcile for every target, batch, pod state and start outcome in that cluster if and only if creates cannot be started (command disabled or a job lookup failing), no create job still runs, or the ready count grew by no more than the creates whose jobs ended. |
| `NodeScalingSafety.DeleteLimitExactly` | custom-scaler/internal/controller/worker_prototype.go:151-229 | The delete limit survives in the same sense if and only if deletes cannot be started, no delete job still runs, the ready count fell by no more than the deletes whose jobs ended, or ready plus credited is within the limit plus the ended ones. |
| `NodeScalingSafety.OneWayExactly` | custom-scaler/internal/controller/worker_prototype.go:180-229 | Creates and deletes can come to be tracked together if and only if, for one type, jobs still run although the ready count moved for every worker in flight, and the other type can be started. |
| `NodeScalingSafety.UnmatchedCreatesBreak` | custom-scaler/internal/controller/worker_prototype.go:151-229 | Where the create condition fails, the limit is passed whatever the new jobs and nodes are called. |
| `NodeScalingSafety.UnmatchedDeletesBreak` | custom-scaler/internal/controller/worker_prototype.go:151-229 | Where the delete condition fails, the limit is passed whatever the new jobs and nodes are called. |
| `NodeScalingSafety.StrandedMixes` | custom-scaler/internal/controller/worker_prototype.go:180-229 | Where one direction is stranded and the other can be started, both come to be tracked, whatever the new jobs are called. |
| `NodeScalingSafety.MatchedExactly` | custom-scaler/internal/controller/worker_executor.go:198-222 | More is credited than removed if and only if some job of the type still runs and the ready count moved past the jobs that ended: a condition on phases, job lookups and ready counts. |
| `NodeScalingSafety.RemovedIsEnded` | custom-scaler/internal/controller/worker_executor.go:175-231 | The pass removes only operations whose job ended, and all of them unless the ready count moved by no more than what was removed. |
| `NodeScalingBreaks.EarlyMoveDoubles` | custom-scaler/internal/controller/worker_executor.go:198-222 | A node that turns Ready, or leaves Ready, while its job still runs is credited but its operation kept: two creates, or two deletes, run under a limit of one. |
| `NodeScalingBreaks.EarlyMoveMixes` | custom-scaler/internal/controller/worker_executor.go:198-222 | If the target turns round at that moment, a delete is started beside the create, or a create beside the delete. |
| `NodeScalingBreaks.CreateLimitBreaks` | custom-scaler/internal/controller/worker_executor.go:198-222 | Some run from the empty status breaks the create limit. |
| `NodeScalingBreaks.DeleteLimitBreaks` | custom-scaler/internal/controller/worker_executor.go:198-222 | Some run from the empty status breaks the delete limit. |
| `NodeScalingBreaks.DirectionsMix` | custom-scaler/internal/controller/worker_executor.go:198-222 | Some run from the empty status tracks creates and deletes together. |
| `NodeScalingSafety.SameClusterSameRemovals` | custom-scaler/internal/controller/worker_executor.go:158-237 | What a reconcile credits and removes does not depend on what it plans to start. |
| `NodeScalingSafety.EverythingLaunches` | custom-scaler/internal/controller/worker_executor.go:239-332 | With the planned command enabled and no error, exactly the planned operations are launched and persisted. |
| `NodeScalingSafety.UnstartableStays` | custom-scaler/internal/controller/worker_executor.go:158-284 | Operations whose command is disabled, or any while a job lookup fails, do not become more. |
| `NodeScaling.StepLedger` | custom-scaler/internal/controller/worker_executor.go:158-332 | Across planner, pass, rollbacks and partial starts: tracked changes by removed and launched, and pending is tracked minus the credit not yet acknowledged (never below zero). |
| `NodeScaling.StepShape` | custom-scaler/internal/controller/worker_executor.go:134-156 | A persisted status lists the kept operations followed by the new ones, its mirror is the first of them, and effective = ready + pending creates - pending deletes. |
| `NodeScaling.OutcomeLedger` | custom-scaler/internal/controller/worker_executor.go:239-268 | After the start loop, also when it stops at an error: planned workers that were not launched are taken out of pending, capped at zero. |
| `NodeScaling.PassLedger` | custom-scaler/internal/controller/worker_executor.go:158-237 | After the pass over the tracked operations: tracked is what was in flight minus what was removed; pending is what was in flight minus credited plus wanted minus rolled back. |
| `NodeScaling.SweepPartitions` | custom-scaler/internal/controller/worker_executor.go:175-231 | The pass loses and invents no worker: each tracked one is kept, acknowledged or rolled back. |
| `NodeScaling.SweepSpends` | custom-scaler/internal/controller/worker_executor.go:164-222 | Budget left plus workers acknowledged is the move of the ready count, for each type. |
| `NodeScaling.NodeScalingReconciler.Reconcile` | custom-scaler/internal/controller/node_scaling_controller.go:50-108 | One reconcile replaces the stored status by the planned and executed one, and leaves it untouched when a step or the patch failed. |
| `NodeScalingLedger.RunLedger` | custom-scaler/internal/controller/worker_executor.go:158-332 | Every status persisted by any run has effective = ready + pending creates - pending deletes and 0 <= tracked - pending <= the move of the ready count, so pending equals tracked when the ready count stood still. |
| `NodeScalingLedger.RunStaysBooked` | custom-scaler/internal/controller/worker_operations.go:30-42 | In every run the mirror is the first operation and every operation stands for one worker. |
| `NodeScalingLedger.RemovedStaysRemoved` | custom-scaler/internal/controller/worker_operations.go:10-42 | From any stored status, whatever its mirror says: a job that is no longer tracked never comes back, through the list or through the legacy mirror, until a job of that name is created again. |
| `NodeScalingConvergence.ConvergeStep` | custom-scaler/internal/controller/worker_prototype.go:165-229 | In the closed loop one reconcile observes everything in flight and leaves min(gap, batch, limit) in flight in the direction of the gap. |
| `NodeScalingConvergence.GapShrinks` | custom-scaler/internal/controller/worker_prototype.go:165-229 | After n closed-loop reconciles the gap is the first gap less n batches, with its sign kept and zero as its end: ready + creates - deletes never passes the target. |
| `NodeScalingConvergence.Converges` | custom-scaler/internal/controller/worker_prototype.go:165-229 | Once enough reconciles have passed to cover the gap, and one more, ready is the target and nothing is in flight; this holds for every longer run too, so nothing starts afterwards. |
| `NodeScalingConvergence.ConvergesFromAnyCluster` | custom-scaler/internal/controller/worker_prototype.go:165-229 | The same for a fresh scaler whose first reconcile finds any number of ready nodes, above or below the target. |
| `NodeScalingConvergence.ClosedGapIsQuiet` | custom-scaler/internal/controller/worker_prototype.go:176-229 | With the gap closed the next reconcile sees the target and starts nothing. |
| `NodeScalingConvergence.ClosedRunsExist` | custom-scaler/internal/controller/worker_prototype.go:165-229 | From every settling status with a non-negative level, closed-loop runs of every length exist for every target and batch. |
| `NodeScalingConvergence.ClosedRunsExistInAnyCluster` | custom-scaler/internal/controller/worker_prototype.go:165-229 | In particular after the first reconcile of a fresh scaler in a cluster of any size, so the convergence theorems are not empty in either direction. |
| `WorkerPlanner.PlanIsSafe` | custom-scaler/internal/controller/worker_prototype.go:151-229 | A plan never goes both ways, never passes the target, fits its slots and its batch, and keeps effective = ready + pending creates - pending deletes. |
| `WorkerPlanner.EnsureWorkers` | custom-scaler/internal/controller/worker_prototype.go:111-247 | The planner, normalising limits and batch as it goes, computes the plan that the safety, attainment and run theorems are about. |
| `WorkerPlanner.CreditObservations` | custom-scaler/internal/controller/worker_prototype.go:142-163 | Pending starts as tracked minus min(tracked, move of the ready count), per type. |
| `WorkerPlanner.DecideOperations` | custom-scaler/internal/controller/worker_prototype.go:176-229 | Creates and deletes wanted, with every early exit: opposite slots in use, no slot free, unschedulable pods. |
| `WorkerExecutor.ReconcileActiveWorkerOperations` | custom-scaler/internal/controller/worker_executor.go:158-237 | The in-place pass ends in the state of the pass function, whose every step meets the fate above, and errors exactly when some job lookup does. |
| `WorkerExecutor.StartWorkerOperations` | custom-scaler/internal/controller/worker_executor.go:239-268 | The start loop: an error at the first attempt fails the step, a later one gives the rest back and succeeds. |
| `WorkerExecutor.StartWorkerOperation` | custom-scaler/internal/controller/worker_executor.go:270-332 | A disabled command or a missing target gives one planned worker back; a created job is tracked with count one. |
| `WorkerExecutor.RollbackUnstartedWorkerOperations` | custom-scaler/internal/controller/worker_executor.go:633-652 | Pending of the type falls by the count but not below zero, and effective is recomputed. |
| `WorkerExecutor.WorkerOperationTimedOut` | custom-scaler/internal/controller/worker_executor.go:654-672 | Timeout is measured from the finish, else the start; never without a reference or a positive timeout. |
| `WorkerExecutor.ReconcileWorkerExecutor` | custom-scaler/internal/controller/worker_executor.go:134-156 | Pass, then the creates, else the deletes; any error leaves no status to persist. |
| `WorkerOperations.WorkerPlan.SyncLegacyActiveOperation` | custom-scaler/internal/controller/worker_operations.go:30-42 | The mirror becomes the first operation, or nothing; the rest of the status is unchanged. |
| `WorkerOperations.CloneActiveOperations` | custom-scaler/internal/controller/worker_operations.go:10-28 | The list, or the mirror when the list is empty. |
| `WorkerOperations.ActiveOperationsExactly` | custom-scaler/internal/controller/worker_operations.go:10-28 | Nothing without a status; the mirrored operation, if any, when the list is empty; otherwise the list. |
| `WorkerOperations.SumActiveOperationCounts` | custom-scaler/internal/controller/worker_operations.go:51-66 | Sums per type, a missing count reading as one and other types not counted. |
| `WorkerCapacity.ResolveWorkerTargetCountByFreeSlots` | custom-scaler/internal/controller/worker_capacity.go:118-190 | If the ready nodes can cover the demand, the result is the least size of any choice of ready nodes that does; otherwise the shortfall and the least number of fresh workers that closes it. |
| `WorkerCapacity.LargestAreBest` | custom-scaler/internal/controller/worker_capacity.go:147-170 | Exchange argument: no choice of k nodes offers more slots than the k largest. |
| `WorkerCapacity.ShortestPrefixIsLeast` | custom-scaler/internal/controller/worker_capacity.go:147-170 | The shortest covering prefix of the sorted nodes is a least cover of all choices. |
| `WorkerCapacity.StrategiesAgree` | custom-scaler/internal/controller/worker_capacity.go:109-190 | When every ready node has exactly PodsPerWorker slots, both strategies give the same target for every demand and node count, hence the same bounded target. |
| `WorkerCapacity.TakeLargestFirst` | custom-scaler/internal/controller/worker_capacity.go:156-170 | The greedy loop stops at the shortest covering prefix, nodes without slots skipped, or has used every slot. |
| `WorkerCapacity.DirectDivideTarget` | custom-scaler/internal/controller/worker_capacity.go:109-116 | Direct division gives the least number of workers whose slots reach a positive demand, and zero otherwise. |
| `WorkerCapacity.ApplyWorkerTargetBounds` | custom-scaler/internal/controller/worker_capacity.go:192-204 | Bounds that exclude each other give the maximum; otherwise the result is the admissible count nearest to the target, so it moves only from outside and only to the bound it passed; zero means no maximum. |
| `WorkerCapacity.BuildWorkerNodeCapacitySnapshots` | custom-scaler/internal/controller/worker_capacity.go:206-273 | Each ready node gets the greatest number of pods that fit in what other workloads leave free, the deployment's own pods not counted; these are counted in the second result when they are placed on a ready node. |
| `WorkerCapacity.ReadyNodesExactly` | custom-scaler/internal/controller/worker_capacity.go:214-222 | A node is counted if and only if it is ready. |
| `WorkerCapacity.HeldExactly` | custom-scaler/internal/controller/worker_capacity.go:224-258 | What other workloads hold on a node grows with a pod if and only if it is placed there, live, unfinished and not of the deployment, and by its request. |
| `WorkerCapacity.OwnPodsExactly` | custom-scaler/internal/controller/worker_capacity.go:224-258 | The own-pod count grows with a pod if and only if it is live, unfinished, of the deployment and placed on a ready node. |
| `LoadSenderSafety.RunKeeps` | custom-load-generator/load_sender.py:676-822 | At every await point of every interleaving: scheduled = completed + failed + timed out + in flight + backlog + dropped, where a request counted but still closing its response is taken off in flight once, and the other three balances; tokens + running + closing = maxInflight; backlog bounded, ordered and started in order, never past the maximum age. |
| `LoadSenderExact.OutcomesExactly` | custom-load-generator/load_sender.py:787-822 | Counted from the events of any run: completed is the number of requests answered with a status below 400, failed the number answered with 400 or above or ended by an exception that is no timeout, timed out the number ended by a timeout. |
| `LoadSenderExact.SchedulesExactly` | custom-load-generator/load_sender.py:676-715 | Over any run scheduled is the number of launches before scheduling ended, and the maximum depth is the greatest depth the backlog had. |
| `LoadSenderExact.LaunchExactly` | custom-load-generator/load_sender.py:676-737 | A launch takes a free token, else a place in the backlog, else it is dropped: one of the three, with its counter. |
| `LoadSenderExact.LoopTopExactly` | custom-load-generator/load_sender.py:739-757 | The loop returns when scheduling ended and nothing waits, waits for work, drops a head past the maximum age without taking a token, and otherwise asks for one. |
| `LoadSenderExact.LoopWithTokenExactly` | custom-load-generator/load_sender.py:757-782 | With a token the head is started when it is young enough and dropped, the token given back, when it is not. |
| `LoadSenderSafety.ReportedBalanceExactly` | custom-load-generator/load_sender.py:620-622 | With in flight as the source reports it, all tokens that are out, the balance holds if and only if no response is being closed. |
| `LoadSenderSafety.ClosingIsCountedTwice` | custom-load-generator/load_sender.py:797-822 | If the exit of the response context suspends, there is a run in which an answered request is both completed and in flight. |
| `LoadSenderSafety.PromptRunsBalance` | custom-load-generator/load_sender.py:797-822 | If it never suspends, the reported balance holds at every await of every interleaving. |
| `LoadSenderSafety.StepKeeps` | custom-load-generator/load_sender.py:676-822 | Each atomic step of dispatcher, backlog loop or request task keeps that invariant. |
| `LoadSenderSafety.TokenReturnsFit` | custom-load-generator/load_sender.py:757-822 | Every return of a token finds room: the loop's own, whether its head had expired or not, and a task's, after an exception or after closing its response. The loop never holds a token with an empty backlog. |
| `LoadSenderSafety.DrainConserves` | custom-load-generator/load_sender.py:739-782 | After scheduling ended, items taken in order plus items waiting are exactly what was waiting, so draining takes as many pops as there were items. |
| `LoadSenderSafety.RoundTakesOne` | custom-load-generator/load_sender.py:739-782 | With a token free, one round of the loop takes exactly one item. |
| `LoadSenderSafety.FinalAccount` | custom-load-generator/load_sender.py:787-822 | When the loop has returned and nothing runs, every scheduled request has exactly one outcome and all tokens are back. |
| `LoadSender.LoadSender.LaunchOrBacklogRequest` | custom-load-generator/load_sender.py:676-699 | A launch takes a free token or goes to the backlog step. |
| `LoadSender.LoadSender.EnqueueOrDropRequest` | custom-load-generator/load_sender.py:701-715 | Enqueue below capacity, otherwise drop, counted as backlog-full only when a backlog exists. |
| `LoadSender.LoadSender.StartRequestTask` | custom-load-generator/load_sender.py:717-737 | Counters and task set on a start, by origin. |
| `LoadSender.LoadSender.BacklogLoopIteration` | custom-load-generator/load_sender.py:739-757 | The loop up to its next await: return, wait, drop an expired head, or ask for a token. |
| `LoadSender.LoadSender.BacklogLoopWithToken` | custom-load-generator/load_sender.py:757-782 | With a token: give it back on an empty or expired head, otherwise start the head. |
| `LoadSender.LoadSender.EndTask` | custom-load-generator/load_sender.py:787-822 | One outcome is counted, by status or by exception; after an exception the token is returned at once, after an answer the response is still to be closed. |
| `LoadSender.LoadSender.CloseTask` | custom-load-generator/load_sender.py:797-822 | The response is closed and the token returned. |
| `Sharding.SecondIsExact` | custom-load-generator/load_sender.py:630-691 | Over all workers a dispatched second launches each class exactly as often as the script says. |
| `Sharding.ShardsPartition` | custom-load-generator/load_sender.py:671-674 | The same for every prefix of a second: each request belongs to one worker. |
| `Sharding.ShardSizeIs` | custom-load-generator/load_sender.py:671-674 | Closed form of a shard's size for every start offset of the second. |
| `Sharding.ShardsAreEven` | custom-load-generator/load_sender.py:671-674 | Sizes of two shards differ by at most one. |
| `Sharding.BuildSecondRequestOffsets` | custom-load-generator/load_sender.py:515-521 | Each second starts at the number of requests before it, and no global index falls into two seconds. |
| `Sharding.RunShareIsContiguous` | custom-load-generator/load_sender.py:515-521 | Over any number of seconds a worker launches exactly the global indices 0, 1, 2, ... that are its own, each once and in order. |
| `Sharding.EachIndexIsLaunchedByOne` | custom-load-generator/load_sender.py:671-674 | Every global index of the script is launched by exactly one worker. |
| `Sharding.ShareIs` | custom-load-generator/load_sender.py:671-674 | A share holds exactly the indices its worker handles, in ascending order, and has the size of the shard. |
| `Sharding.RunSharesAreEven` | custom-load-generator/load_sender.py:671-674 | Over a whole script the loads of two workers still differ by at most one request. |
| `Sharding.DispatchSecond` | custom-load-generator/load_sender.py:630-669 | One worker launches what it planned: its own global indices, its share of each class, and the class lookup never fails. |
| `Sharding.RequestClassForIndex` | custom-load-generator/workload.py:100-111 | The class whose block holds the index; failure exactly for an index beyond the total. |
| `ScriptTimeline.LoadScriptPoints` | custom-load-generator/load_sender.py:208-257 | Accepts exactly non-empty, strictly ascending scripts and returns their timeline; a rejection names the first offending row. |
| `ScriptTimeline.OnePointPerSecond` | custom-load-generator/load_sender.py:223-257 | For whole-second rows: one point per second from first to last, with the row's counts, or zero for every class where there is no row. |
| `ScriptTimeline.PerSecondExactly` | custom-load-generator/load_sender.py:223-257 | An accepted script gives consecutive seconds if and only if its rows are whole seconds apart. |
| `ScriptTimeline.TotalsPreserved` | custom-load-generator/load_sender.py:223-257 | Filling gaps keeps the total of requests and of every class. |
| `ScriptTimeline.TimelineAddsUp` | custom-load-generator/load_sender.py:223-257 | Every point announces as many requests as its class counts add up to. |
| `ScriptDispatch.ScriptIsLaunchedExactly` | custom-load-generator/load_sender.py:630-669 | End to end: over all workers and the whole timeline of a script, each class is launched exactly as often as the rows ask for, for every number of workers. |
| `ScriptDispatch.LaunchedIsShown` | custom-load-generator/load_sender.py:515-521 | Up to any second the launches of a class over all workers are the counts the timeline shows. |
| `StatisticsWriter.CountsConserved` | custom-load-generator/load_sender.py:367-406 | Over any run of records and flushes, written plus retained equals recorded, per second and column. |
| `StatisticsWriter.RunConsecutive` | custom-load-generator/load_sender.py:376-406 | Rows are written for consecutive seconds from the first, each once. |
| `StatisticsWriter.RetainedIsLate` | custom-load-generator/load_sender.py:367-406 | A second already written still holds counts if and only if something was recorded for it late. |
| `StatisticsWriter.FinalFlushRetainsOnlyLate` | custom-load-generator/load_sender.py:376-406 | The final flush leaves counts behind for exactly the late-recorded seconds; for the others the row holds all that was recorded. |
| `StatisticsWriter.FlushWritesExactly` | custom-load-generator/load_sender.py:376-406 | A flush writes a second if and only if it is not written yet and before now, or, when final, not after the latest recorded one; rows already written stay. |
| `StatisticsWriter.LatestIsGreatest` | custom-load-generator/load_sender.py:367-374 | The latest second seen is the greatest one recorded. |
| `StatisticsWriter.StatisticsReportWriter.Record` | custom-load-generator/load_sender.py:367-374 | One count is added to one second, and the latest second seen is kept. |
| `StatisticsWriter.StatisticsReportWriter.FlushClosed` | custom-load-generator/load_sender.py:376-406 | The in-place flush ends in the state of the flush function: a row per closed second, and those seconds forgotten. |
| `WorkerPoolSafety.RunIsSound` | general-resource-demand-service/src/resource-demand/resource-demand.service.ts:98-207 | Over any run each accepted request is in exactly one of queue, one slot or settled, so settled at most once; settlements are never withdrawn. |
| `WorkerPoolExact.ResolvedExactly` | general-resource-demand-service/src/resource-demand/resource-demand.service.ts:141-207 | Over every run of a fresh pool, told from its events: a settled promise is resolved if and only if a message brought a result for the task that ran for it; by a task error, a missing result, a worker failure or shutdown it is rejected; never both. |
| `WorkerPoolExact.AnswerEndsTask` | general-resource-demand-service/src/resource-demand/resource-demand.service.ts:141-178 | Before shutdown the answer to a running task settles it, as resolved exactly when it is a result, and hands its slot to the head of the queue when all workers were busy; with nothing waiting the slot becomes idle. |
| `WorkerPoolExact.FailureEndsTask` | general-resource-demand-service/src/resource-demand/resource-demand.service.ts:184-207 | Before shutdown a worker error or a non-zero exit rejects the task of its slot and hands the slot on in the same way. |
| `WorkerPoolExact.OtherFailures` | general-resource-demand-service/src/resource-demand/resource-demand.service.ts:184-207 | A clean exit, or any failure during shutdown, changes nothing; a failed worker without a task becomes idle when nothing waits. |
| `WorkerPoolExact.ArrivalExactly` | general-resource-demand-service/src/resource-demand/resource-demand.service.ts:75-139 | An arrival goes to the first idle worker with the next task id, else to the end of the queue, else it is refused and changes nothing. |
| `WorkerPoolSafety.ShutdownSettlesExactlyOnce` | general-resource-demand-service/src/resource-demand/resource-demand.service.ts:44-65 | A request accepted before shutdown is settled exactly once when shutdown ends, and still exactly once after any later event. |
| `WorkerPoolSafety.RepeatedAnswerIsIgnored` | general-resource-demand-service/src/resource-demand/resource-demand.service.ts:141-147 | Once a task is answered, a repeated or late message for it from any slot at any later time changes nothing. |
| `WorkerPoolSafety.RunIsFifoAndWorkConserving` | general-resource-demand-service/src/resource-demand/resource-demand.service.ts:87-258 | Until shutdown: waiting requests imply all workers busy, busy means a task is active, the queue is within capacity, and requests reach workers in acceptance order. |
| `WorkerPoolSafety.FreshPoolStaysWorking` | general-resource-demand-service/src/resource-demand/resource-demand.service.ts:38-42 | A fresh pool of any size works in this sense until its first shutdown. |
| `WorkerPoolSafety.RefusedExactlyWhenSaturated` | general-resource-demand-service/src/resource-demand/resource-demand.service.ts:87-96 | A request is refused if and only if every worker runs a task and the queue is full. |
| `WorkerPoolSafety.StepMoves` | general-resource-demand-service/src/resource-demand/resource-demand.service.ts:98-207 | One event adds a place for a newly accepted request only and loses none. |
| `WorkerPoolSafety.QueuedAfterShutdownIsStranded` | general-resource-demand-service/src/resource-demand/resource-demand.service.ts:240-256 | After shutdown the queue is never served again. |
| `WorkerPool.ResourceDemandService.ExecuteRequestClass` | general-resource-demand-service/src/resource-demand/resource-demand.service.ts:75-114 | Assign, queue or refuse. |
| `WorkerPool.ResourceDemandService.AssignTaskToWorker` | general-resource-demand-service/src/resource-demand/resource-demand.service.ts:127-139 | The slot becomes busy with the next task id. |
| `WorkerPool.ResourceDemandService.DispatchNextPendingTask` | general-resource-demand-service/src/resource-demand/resource-demand.service.ts:240-256 | The head of the queue goes to the first free slot, or stays in place. |
| `WorkerPool.ResourceDemandService.HandleMessage` | general-resource-demand-service/src/resource-demand/resource-demand.service.ts:141-178 | A matching message frees the slot, settles its task and dispatches; any other is ignored. |
| `WorkerPool.ResourceDemandService.HandleWorkerFailure` | general-resource-demand-service/src/resource-demand/resource-demand.service.ts:192-207 | A failure rejects the slot's task, frees the slot and dispatches, unless shutting down. |
| `WorkerPool.ResourceDemandService.HandleWorkerExit` | general-resource-demand-service/src/resource-demand/resource-demand.service.ts:184-190 | Only a non-zero exit before shutdown is a failure. |
| `WorkerPool.ResourceDemandService.OnModuleDestroy` | general-resource-demand-service/src/resource-demand/resource-demand.service.ts:44-65 | Queue then active tasks are rejected in order and cleared. |
| `WorkerPool.ResourceDemandService.FindFreeWorker` | general-resource-demand-service/src/resource-demand/resource-demand.service.ts:258-260 | The first slot that is not busy. |
| `ScriptRangeStore.SeekEqualsScan` | system-showcase/app/script_range_store.py:88-177 | For every file in time order (duplicates and unreadable lines allowed), stride, start and duration, reading from the indexed offset collects what reading from the header collects. |
| `ScriptRangeStore.CollectsLastOfEachSecond` | system-showcase/app/script_range_store.py:140-162 | A scan gives, for each second of the window, the last row of that second. |
| `ScriptRangeStore.EntryPointsAtRow` | system-showcase/app/script_range_store.py:106-123 | Reading from an index entry starts at a row with the entry's time and yields a suffix of all rows. |
| `ScriptRangeStore.ReadsLineByLine` | system-showcase/app/script_range_store.py:127-167 | Reading goes line by line, a line being the bytes up to and with its newline: one that can be read gives its row, any other nothing. |
| `ScriptRangeStore.IndexesLineByLine` | system-showcase/app/script_range_store.py:88-125 | Exactly the readable lines at multiples of the stride are indexed, at the offset where they start. |
| `ScriptRangeStore.BisectRightIsEarly` | system-showcase/app/script_range_store.py:169-177 | The entry found is at most as late as the start and all entries after it are later. |
| `ScriptRangeStore.ScriptRangeStore.SliceFilledSeries` | system-showcase/app/script_range_store.py:127-167 | The filled series shows each second's last row anywhere in the file, or zero, without a scan from the header. |
| `ScriptRangeStore.ScriptRangeStore.EnsureIndex` | system-showcase/app/script_range_store.py:88-125 | One pass builds the sparse index and the first and last time. |
| `ScriptRangeStore.ScriptRangeStore.GetRange` | system-showcase/app/script_range_store.py:32-86 | No readable row, no range; otherwise the start is moved into the file's range, and the answer has one point for each second asked for, or a default number when none is, from there; its total and peak, and samples that cover it. |
| `SeriesSampling.DownsamplePoints` | system-showcase/app/script_range_store.py:179-206 | At most maxPoints samples, whose buckets are evenly placed (each boundary the integer nearest to its even position), non-empty, cover the series without gap or overlap and add up to its total. |
| `SeriesSampling.BoundariesIncrease` | system-showcase/app/script_range_store.py:190-194 | Rounded to the nearest integer, ties to even, the bucket boundaries of a series longer than the number of buckets strictly increase. |
| `SeriesSampling.SamplesKeepTotals` | system-showcase/app/script_range_store.py:179-206 | Samples that cover a series add up to it. |
| `SeriesSampling.Summarize` | system-showcase/app/script_range_store.py:65-84 | The total of a series and its peak, zero for an empty one. |
| `LoopHistory.BoundedIsSuffixOfFull` | system-showcase/app/loop_history_store.py:56-83 | From any stored history, after any records (append, replace within the minute, ignore) and for any limit: the last `limit` entries stored are those of the history kept without a bound, and nothing else is stored if and only if the history began within the limit or a record was appended. |
| `LoopHistory.ResyncIsQuietExactly` | system-showcase/app/loop_history_store.py:56-83 | For any stored history a second sync of the same record reports no change, and changes nothing, if and only if it has no key, its key is already last, it names the minute of the last entry, or something is kept and the record is recognisable by its raw key or its minute. |
| `LoopHistory.PaddedKeyIsStoredTwice` | system-showcase/app/loop_history_store.py:64-83 | A record with a padded key and no minute is stored twice. |
| `LoopHistory.HistoryIsOnePerMinute` | system-showcase/app/loop_history_store.py:72-79 | Neighbouring entries never name the same minute. |
| `LoopHistory.SyncStores` | system-showcase/app/loop_history_store.py:56-83 | One sync stores nothing for a record without a key or with the last key, replaces the last entry when both name one minute, and otherwise appends and cuts to the limit. |
| `LoopHistory.StripIsMiddle` | system-showcase/app/loop_history_store.py:56-83 | Keys and minutes are compared without the spaces at both ends, and without those only. |
| `LoopHistory.Loops.AppendIfNew` | system-showcase/app/loop_history_store.py:56-83 | The in-place update ends in the function the refinement is about, and reports a change exactly when it made one. |
| `LoopHistory.LoopHistoryStore.SyncLatest` | system-showcase/app/loop_history_store.py:27-54 | Both histories of one scaler are synced; the file is written only on a change; other scalers are untouched. |
| `PodScalingSafety.PressureRefusesScaleDown` | custom-scaler/internal/controller/customscaler_controller.go:312-463 | Under the safe policy sustained pressure rules scale-down out, for series of any two lengths with gaps anywhere. |
| `PodScalingSafety.RunUnderPressureNeverLowers` | custom-scaler/internal/controller/pod_scaling_controller.go:141-176 | A run in which every forecast shows pressure never lowers the deployment. |
| `PodScalingSafety.SustainedPressureExactly` | custom-scaler/internal/controller/customscaler_controller.go:399-447 | Pressure is sustained if and only if the history ends in a window with the required number of occupied points, all of them triggered. |
| `PodScalingSafety.RunStaysInRange` | custom-scaler/internal/controller/pod_scaling_controller.go:92-176 | Over any run the replicas are as found or within [Min, Max], and the bump is never negative nor above ReactiveMaxBump when that is positive. |
| `PodScalingSafety.BumpIsBoundedExactly` | custom-scaler/internal/controller/customscaler_controller.go:382-397 | The bump is bounded over all runs if and only if ReactiveMaxBump is positive; zero is legal and means no maximum. The runs that pass a bound consist of forecasts with a prediction. |
| `PodScalingSafety.PressureGrows` | custom-scaler/internal/controller/customscaler_controller.go:382-390 | After any n cycles under pressure the bump has risen by n steps, held at the maximum when that is positive. |
| `PodScalingSafety.CycleIsInRange` | custom-scaler/internal/controller/pod_scaling_controller.go:141-176 | One cycle leaves the count alone or puts it within [Min, Max]. |
| `PodScalingSafety.BaseDemandIsLeast` | custom-scaler/internal/controller/customscaler_controller.go:261-297 | The forecast demand is the least number of pods that covers every predicted minute on both signals. |
| `PodScalingExact.DesiredExactly` | custom-scaler/internal/controller/customscaler_controller.go:261-310 | The desired count is the least number of pods covering every predicted minute on both signals, plus the spare pods when any is needed, moved into the range: less only at the maximum, more only at the minimum. |
| `PodScalingExact.ScaleDownAllowedExactly` | custom-scaler/internal/controller/customscaler_controller.go:312-347 | Scaling down is allowed if and only if the policy is not the safe one, or both histories end in the required number of values none of which is above its threshold. |
| `PodScalingExact.QuietFalls` | custom-scaler/internal/controller/customscaler_controller.go:382-397 | After any n cycles without pressure the bump has fallen by n steps and stopped at zero. |
| `PodScalingExact.CycleExactly` | custom-scaler/internal/controller/pod_scaling_controller.go:91-205 | Forecast demand, raised by the bump and cut at the maximum, is applied, but a lower count only when scaling down is allowed. |
| `PodScalingExact.UnfinishedCycle` | custom-scaler/internal/controller/pod_scaling_controller.go:91-205 | A cycle without forecast or deployment changes nothing; one whose update fails leaves the count, and one whose patch fails the bump. |
| `PodScalingExact.PolicyExactly` | custom-scaler/internal/controller/customscaler_controller.go:160-203 | A valid override is in force, otherwise a valid default. |
| `PodScaling.PolicyInForceIsWellFormed` | custom-scaler/internal/controller/customscaler_controller.go:160-203 | Whatever the defaults and overrides, the policy in force has a non-empty replica range and positive rates. |
| `PodScaling.HasSustainedReactivePressure` | custom-scaler/internal/controller/customscaler_controller.go:399-447 | The backward scan decides sustained pressure. |
| `PodScaling.AllowScaleDown` | custom-scaler/internal/controller/customscaler_controller.go:312-347 | Allowed exactly when not safe, or both series have enough recent values and none above its threshold. |
| `PodScaling.RecentNonNilValues` | custom-scaler/internal/controller/customscaler_controller.go:449-463 | The newest values, newest first, at most the limit. |
| `PodScaling.NextReactivePressureBump` | custom-scaler/internal/controller/customscaler_controller.go:382-397 | Under pressure the bump rises by its step, up to its maximum when that is positive; otherwise it falls by its step and stops at zero. |
| `PodScaling.CalculateDesiredReplicas` | custom-scaler/internal/controller/customscaler_controller.go:261-310 | Peak demand of both signals, spare pod, clamp. |
| `PodScaling.PodScalingReconciler.Reconcile` | custom-scaler/internal/controller/pod_scaling_controller.go:91-205 | One cycle with every early exit: no forecast, no deployment, failed update, failed patch. |
| `ShellQuote.QuotingRoundTrip` | custom-scaler/internal/controller/worker_executor.go:621-627 | For every string, reading the quoted value as shell text gives exactly one word, equal to it, no character of which is special. |
| `ShellQuote.CommandIsBaseThenTarget` | custom-scaler/internal/controller/worker_executor.go:577-584 | The operation command reads as the tokens of the trimmed base command, operators and parameters included, followed by the target as one word no character of which is special, provided that the base does not end in a comment. |
| `ShellQuote.CommentSwallowsTarget` | custom-scaler/internal/controller/worker_executor.go:577-584 | If it does end in a comment, a target without a newline is lost. |
| `ShellQuote.TrimIsMiddle` | custom-scaler/internal/controller/worker_executor.go:577-584 | The base command loses the spaces at both ends and nothing else. |

## Left out

- Kubernetes, HTTP, Prometheus, SSH and cloud calls, informers and job specs: only their results appear, chosen freely.
- Choice of the node to delete (`worker_executor.go:350`, `505-565`): it does not look at tracked operations, so two deletes may name the same node and nothing is claimed about that.
- A job created just before the status patch fails is not tracked by the code, and not by the model.
- Int32 overflow and float rounding: counts are integers, rates and times are reals or microseconds; the capacity ceiling is an integer ceiling.
- LastAction, LastReason and other human-readable strings, log lines and the lastLoop record.
- The manual target override and the counting of unschedulable pods: the target and the pod count of a reconcile are free.
- NodeScaling.NodeScalingReconciler.Reconcile: starts at the call of the planner; the reads before it are inputs.
- NodeScalingSafety.RunIsSafe: promises nothing for runs whose ready count moves past the ended jobs, since the limits can fail there; `NodeScalingBreaks` has such runs.
- The load generator's request construction, URLs, RNG, metadata, heartbeat, incident and request reports, and merging of worker outputs.
- LoadSenderSafety.RunKeeps: an HTTP call ends in exactly one outcome; an exception raised while the response is being closed, after the status was counted, is not modelled.
- The event that wakes the backlog loop: the loop may be scheduled at any time, so the wake-up order and its 0.5 s timeout are covered but nothing is said about how soon it runs.
- Fresh requests may take a token ahead of the backlog, as in the code; order is claimed among backlog items only.
- CSV and JSON encoding, date parsing and wall-clock formatting: rows are values, times are numbers.
- WorkerPool.ResourceDemandService.ExecuteRequestClass: begins after the request class was found; CPU sampling, payload building and timing are not modelled.
- WorkerPoolSafety.ShutdownSettlesExactlyOnce: says nothing about requests accepted after shutdown; `QueuedAfterShutdownIsStranded` shows that a queued one is not served.
- Replacement of a crashed worker thread: the slot is free again at once and any later message is judged by its task id.
- SeriesSampling.DownsamplePoints: works over exact arithmetic; the float quotient behind a boundary and the rounding of an average to two digits are not modelled.
- ScriptRangeStore.SeekEqualsScan: asks for a file in time order, as the scripts are; out-of-order files are not covered.
- Ingress deployment scaling (`customscaler_controller.go:205-259`, `349-380`): would only add easy members.
- ShellQuote.CommandIsBaseThenTarget: base commands with a braced, command or arithmetic substitution are not read, since they nest other shell text; what a parameter or pattern in the base expands to is the shell's.
- The forecasting service, snapshot cache, React frontend, Locust tests, bootstrap scripts and generated code.
