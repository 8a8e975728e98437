# Vulcan: a verified model

Vulcan is a distributed load generator. A control plane keeps tests, workers and their assignments in
three Postgres tables, workers poll for assignments and send requests at a fixed rate, an aggregator
merges their metrics into global windows, and an autoscaler sizes the fleet. This project models the
parts where several of these act at once, and proves what holds in every interleaving.

- **Control plane.** `Domain` has the rows, `Transactions` each repository transaction as a function on
  committed tables, `TransactionEffects` what each of them means for the rows it touches, `Repository` the same as methods of a class `Database`, one assignment a SQL
  statement, proved equal to those functions. `Lifecycle` is the state machine: a StartTest or StopTest
  is a call record with a program counter that advances one repository call at a time, every call may
  fail, and any number of calls interleave with reports, heartbeats, drains and sweeps. A disabled event
  changes nothing, so a run is any sequence of events. `LifecycleTheorems`, `FinishTheorems`,
  `ProgressTheorems`, `StatusTheorems`, `WorkerTheorems` and `Ownership` hold the results over runs. `ControlPlane` is the class
  `TestService`, whose methods follow the source line by line, take an arbitrary schedule of other
  activity between any two repository calls, and are proved to be runs of the state machine.
- **Completion barrier.** `CompletionBarrier` goes below transactions: statements, READ COMMITTED
  visibility, row locks, aborts. It proves serializability, hence the barrier, and shows the row lock is needed.
- **Fleet.** `Capacity` has the demand sums, `Autoscaler` the class `Reconciler` with other activity
  between reading the tests, reading the workers and draining, `FleetTheorems` what its cycles guarantee.
- **Telemetry.** `Metrics`, `Aggregation` are the collector, the windows, the store and the report as
  classes; `Pipeline` composes them into a state machine that carries the results behind every number;
  `Conservation` and `LatencyBound` compare it with a plain fold. `LossAccounting` splits the
  subscriber's callback and the report into their separately locked steps.
- **Worker.** `Execution` is the paced scheduler, its request goroutines and the flush loop; `WorkerAgent`
  is the polling worker against the control plane.

## Where the code and its documentation disagree

The model follows the code.

- internal/service/test_service.go:46-52 and 209-216 say that reconciling cannot double-provision. A cycle
  counts registered workers only, so a second cycle before they register asks again
  (`FleetTheorems.SecondCycleAsksAgain` gives the exact condition).
- docs/lifecycle.md:57-59 and internal/worker/worker.go:15-20 say that a stopped run reports nothing. The
  error returned at internal/worker/executor.go:129 is not the one compared at internal/worker/worker.go:169,
  so a detected stop is reported as a failure (`WorkerAgent.Worker.ProcessAssignment`,
  `WorkerAgent.StopRaceDecidesTheRow`).
- A STOPPED test can become RUNNING again while a start is in flight (`LifecycleTheorems.ReopensExactlyWhen`).
- A test whose workers finish before the RUNNING write stays RUNNING until it is stopped
  (`FinishTheorems.BarrierBreaksExactlyWhen`, `BarrierOverRuns`, `StuckForever`, `StuckIsReachable`).
- Exclusive ownership of workers is not unconditional (`Ownership.OwnershipOverRuns` and its two witnesses).
- A test can stay STARTING, or be RUNNING with a FAILED row, and a worker can stay RESERVED for nobody; the
  exact conditions are `StatusTheorems.StartingIsClaimedOverRuns`, `StatusTheorems.FailureEndsRunningOverRuns`
  and `WorkerTheorems.ReservedIsAwaitedOverRuns`.
- A bucket can miss all reports (`LossAccounting.EachBucketOnce`, `FirstBucketCanVanish`).

## Model

| member | source | states |
|---|---|---|
| LoadShare.RequiredWorkers | internal/scheduler/rps.go:5-10 | refuses exactly a non-positive rate or capacity; otherwise n-1 workers cannot carry the rate and n can |
| LoadShare.RequiredIsLeast | internal/scheduler/rps.go:5-10 | m workers can carry the rate if and only if m is at least the required number, for every m |
| LoadShare.DistributeRPS | internal/scheduler/rps.go:12-26 | fills a fresh slice with the shares, and fails exactly for a non-positive rate or count |
| LoadShare.SharesConserveRate | internal/scheduler/rps.go:17-25 | the shares sum to the rate |
| LoadShare.SharesAreEven | internal/scheduler/rps.go:17-25 | the shares are non-increasing and differ by at most one |
| LoadShare.SharesFitCapacity | internal/scheduler/rps.go:5-26 | with the required number of workers every share lies in 1..capacity |
| LoadShare.IntervalIsGreatest | internal/execution/scheduler.go:60 | the tick interval is the greatest whole number of nanoseconds at which the rate fits one second |
| LoadShare.ShareGivesUsableTicker | internal/execution/scheduler.go:60 | with a capacity up to 10^9 every share gives a positive tick interval, and share times interval is within one second |
| Repository.Database.CreateTest | internal/repository/test_repository.go:46-87 | inserts a new row, refuses an existing id and changes nothing else |
| Repository.Database.TryTransitionStatus | internal/repository/test_repository.go:232-260 | compare-and-set on the status; reports whether a row changed |
| Repository.Database.UpdateStatus | internal/repository/test_repository.go:189-214 | writes the status unconditionally, or reports a missing test |
| Repository.Database.UpdateWorkerCount | internal/repository/test_repository.go:216-230 | writes the worker count of an existing test |
| Repository.Database.CreateWorker | internal/repository/worker_repository.go:87-122 | inserts a worker under a new id |
| Repository.Database.UpdateHeartbeat | internal/repository/worker_repository.go:216-264 | refreshes the clock; the status follows the report only if the stored one is not RESERVED, DRAINING or OFFLINE |
| Repository.Database.MarkOfflineWorkers | internal/repository/worker_repository.go:266-287 | exactly the workers that are stale and not yet OFFLINE become OFFLINE |
| Repository.Database.ReserveWorkersForTest | internal/repository/worker_repository.go:289-420 | reserves all the selected workers with one row each, or fails with the source's error and changes nothing, also when the commit fails after every statement |
| Repository.BindParameters | internal/repository/worker_repository.go:375-395 | each placeholder of the bulk INSERT resolves to the test, to its own worker and to that worker's share |
| Repository.Database.InsertBound | internal/repository/worker_repository.go:397-413 | evaluating the bound INSERT adds exactly one RESERVED row for each selected worker with its share |
| Repository.Database.ReleaseWorkersForTest | internal/repository/worker_repository.go:422-497 | frees the RESERVED workers of all rows of the test and completes its live rows, and nothing else |
| Repository.Database.MarkAssignmentsFailedForOfflineWorkers | internal/repository/worker_repository.go:499-583 | fails the live rows of OFFLINE workers, then the RUNNING tests with a FAILED row |
| Repository.Database.TerminateIdleWorkers | internal/repository/worker_repository.go:585-658 | of the given ids exactly those IDLE become DRAINING and are returned |
| Repository.Database.GetReservedAssignment | internal/repository/assignment.go:30-84 | returns some RESERVED row of the worker whose test exists, or none if there is none |
| Repository.Database.MarkAssignmentRunning | internal/repository/assignment.go:86-147 | RESERVED row and RESERVED worker become RUNNING; otherwise an error and no change |
| Repository.Database.MarkAssignmentCompleted | internal/repository/assignment.go:149-284 | RUNNING row becomes COMPLETED, a RUNNING worker IDLE, and a RUNNING test COMPLETED exactly when no other row is left; otherwise the source's error and no change |
| Repository.Database.MarkAssignmentFailed | internal/repository/assignment.go:286-357 | live row becomes FAILED and a RUNNING test FAILED; the worker row is untouched |
| TransactionEffects.ReservationEffect | internal/repository/worker_repository.go:289-420 | the selected workers become RESERVED, each gets one RESERVED row with the share of its position, and no other worker, row or test changes |
| TransactionEffects.ReservationRefusals | internal/repository/worker_repository.go:356-413 | which refusal is given for which input, and that nothing else refuses |
| TransactionEffects.ReleaseFreesWorkers | internal/repository/worker_repository.go:422-497 | after a release every worker RESERVED under a row of the test is IDLE, no worker with a row of it is RESERVED, its live rows are COMPLETED, and all else is untouched |
| TransactionEffects.StartEffect | internal/repository/assignment.go:86-147 | accepted exactly on a RESERVED row; row and RESERVED worker become RUNNING, nothing else changes |
| TransactionEffects.CompletionEffect | internal/repository/assignment.go:195-277 | accepted exactly on a RUNNING row; the worker is freed whatever the other rows are, and a RUNNING test is COMPLETED exactly when no other row is unfinished |
| TransactionEffects.FailureEffect | internal/repository/assignment.go:286-357 | accepted exactly on a live row; row and RUNNING test fail, no worker changes |
| TransactionEffects.HeartbeatEffect | internal/repository/worker_repository.go:216-264 | the clock is always refreshed; the report becomes the status of an IDLE or RUNNING worker and of no other |
| TransactionEffects.DrainEffect | internal/repository/worker_repository.go:585-658 | exactly the IDLE workers among the given ids become DRAINING, all others stay as they were |
| TransactionEffects.SweepEffect | internal/repository/worker_repository.go:499-583 | the rows failed are exactly the live ones of OFFLINE workers, the tests failed exactly the RUNNING ones with a FAILED row |
| Lifecycle.RunKeepsInv | internal/service/test_service.go:149-337 | the invariant of the control plane (sound allocations, sound calls, single claim, references) is kept by every schedule of events |
| Lifecycle.NextKeepsInv | internal/service/test_service.go:258-337 | every single event keeps the invariant: start and stop steps, failed calls, rollbacks, reports, heartbeats, drains, sweeps |
| Lifecycle.ReservationIsFull | internal/repository/worker_repository.go:289-420 | a committed reservation gives the test a full allocation: as many workers as required, shares in 1..capacity summing to its rate |
| LifecycleTheorems.AllocationIsAllOrNothing | internal/service/test_service.go:258-337 | in every run a test has no rows, surely so while CREATED, or a full allocation whose shares sum to its rate |
| LifecycleTheorems.AllocationIsPermanent | internal/repository/worker_repository.go:356-413 | a committed allocation keeps its workers and shares in every continuation of the run |
| LifecycleTheorems.StepFollowsEdge | internal/service/test_service.go:149-337 | no event takes a test's status along an edge outside the list, and each edge names the only step that takes it |
| LifecycleTheorems.AtMostOneStart | internal/service/test_service.go:265-336 | of all StartTest calls on a test at most one holds a claim, counting calls in flight and successful ones alike |
| LifecycleTheorems.EnteringRunningIsAWin | internal/service/test_service.go:328-336 | only the last write of the claiming call moves a test to RUNNING, and only if none has before |
| LifecycleTheorems.RunningIsEnteredOnce | internal/service/test_service.go:265-336 | over a whole run at most one step moves a test to RUNNING |
| LifecycleTheorems.ClosedForever | internal/service/test_service.go:149-187 | a test COMPLETED, FAILED, or STOPPED with no start in flight stays closed in every continuation, and changes to STOPPED only |
| LifecycleTheorems.ReopensExactlyWhen | internal/service/test_service.go:328-332 | a step reopens a closed test if and only if it is the successful RUNNING write of a start in flight, and the test is then STOPPED |
| FinishTheorems.StopLosesToStartInFlight | internal/service/test_service.go:174-184 | a whole stop between the reservation and the RUNNING write of a start leaves the test STOPPED, and that write makes it RUNNING again |
| LifecycleTheorems.CompletedIsSound | internal/repository/assignment.go:239-277 | in every run a COMPLETED test has its full allocation and every row COMPLETED |
| LifecycleTheorems.FailedRowForbidsCompletion | internal/repository/worker_repository.go:518-563 | once a row has FAILED the test is COMPLETED neither then nor later |
| FinishTheorems.BarrierBreaksExactlyWhen | internal/repository/assignment.go:239-277 | a step leaves a RUNNING test without an unfinished row if and only if it is a RUNNING write after all rows completed, or a stop's release of a test that has become RUNNING meanwhile |
| FinishTheorems.BarrierOverRuns | internal/repository/assignment.go:149-284 | over whole runs: a RUNNING test has an unfinished row in every state if and only if neither of the two writes ever happens to it |
| FinishTheorems.StuckForever | internal/repository/assignment.go:149-284 | such a RUNNING test without unfinished rows and without a pending stop stays so until a stop is requested |
| FinishTheorems.StuckIsReachable | internal/service/test_service.go:318-332 | a run of one worker that finishes while its test is STARTING reaches that state |
| StatusTheorems.UndoRestoresTest | internal/service/test_service.go:316-323 | the undo of a start gives a STARTING test back as CREATED without rows, and leaves any other status alone |
| StatusTheorems.StartingIsClaimedExactlyWhen | internal/service/test_service.go:265-323 | a step leaves a STARTING test without a start at work on it if and only if it is an undo that fails |
| StatusTheorems.StartingIsClaimedOverRuns | internal/service/test_service.go:265-323 | over whole runs: a STARTING test always has a start at work on it if and only if no undo fails while it is STARTING |
| StatusTheorems.FailureEndsRunningExactlyWhen | internal/repository/assignment.go:303-350 | a step leaves a RUNNING test with a FAILED row if and only if it is the RUNNING write of a start one of whose workers has failed already |
| StatusTheorems.FailureEndsRunningOverRuns | internal/repository/worker_repository.go:518-563 | over whole runs: a RUNNING test never has a FAILED row if and only if no such write happens |
| StatusTheorems.StopAnnounces | internal/service/test_service.go:164-172 | a stop makes its test STOPPING unless the status has moved since it was read |
| StatusTheorems.StopFrees | internal/service/test_service.go:174-176 | a stop's release frees the workers of the test and leaves its status |
| StatusTheorems.WorkerCountIsLeast | internal/service/test_service.go:112-139 | in every run the stored worker count is the least number of workers whose capacity carries the rate |
| StatusTheorems.RateIsAsRequested | internal/repository/test_repository.go:46-87 | in every run a test carries the rate of the request that created it |
| WorkerTheorems.ReservedIsAwaitedExactlyWhen | internal/repository/worker_repository.go:422-497 | a step leaves a RESERVED worker without a RESERVED row if and only if the worker reports RESERVED unasked, or its only such row is reported failed before its start |
| WorkerTheorems.ReservedIsAwaitedOverRuns | internal/repository/worker_repository.go:289-497 | over whole runs: a RESERVED worker always has a test waiting for it if and only if neither event happens |
| WorkerTheorems.OfflineExactlyWhenSilent | internal/repository/worker_repository.go:266-287 | in every run marking declares OFFLINE exactly the workers last heard from before the cutoff, and leaves all others as they are |
| WorkerTheorems.FreshWorkerSurvives | internal/repository/worker_repository.go:216-287 | a worker heard from at or after the cutoff survives the marking |
| ProgressTheorems.SweepHeals | internal/repository/worker_repository.go:499-583 | after a sweep no OFFLINE worker has a live row and no RUNNING test a FAILED row, from any state |
| ProgressTheorems.HealthCycleHeals | internal/reconciler/worker_reconciler.go:48-101 | mark then sweep, with any events in between: the tables are healed and every stale worker is OFFLINE without live rows |
| ProgressTheorems.WithdrawalIsPermanent | internal/repository/worker_repository.go:233-243 | DRAINING changes only to OFFLINE, OFFLINE never, and the worker gets no new or revived row in any continuation |
| ProgressTheorems.DrainedNeverReserved | internal/repository/worker_repository.go:602-647 | no id returned by a drain is ever given a row afterwards |
| ProgressTheorems.SweptWorkerHoldsNothing | internal/repository/worker_repository.go:499-583 | a worker OFFLINE at a sweep never again holds a live row |
| ProgressTheorems.TransitionsAreBounded | internal/repository/assignment.go:98-121 | over a whole run the rows of a test change status at most twice the required number of workers |
| ProgressTheorems.EffectiveStepsUsePotential | internal/repository/assignment.go:195-218 | 2*RESERVED + RUNNING never grows once rows exist and strictly drops with every row transition |
| ProgressTheorems.LateReportsChangeNothing | internal/repository/assignment.go:303-326 | repeating a report, or reporting on a finished row, changes nothing |
| Ownership.OwnershipKeptExactlyWhen | internal/repository/worker_repository.go:422-497 | one event keeps exclusive ownership if and only if it is safe: no IDLE report of a worker running a row, no release that hits a worker reserved elsewhere |
| Ownership.OwnershipOverRuns | internal/repository/worker_repository.go:216-497 | ownership holds in every prefix of a run if and only if every event of the run is safe at its moment |
| Ownership.IdleReportBreaksOwnership | internal/repository/worker_repository.go:233-243 | a run in which an IDLE heartbeat of a running worker breaks ownership |
| Ownership.StopStealsAReservedWorker | internal/repository/worker_repository.go:429-471 | a run in which stopping a test frees a worker that finished it and is reserved for another test |
| ControlPlane.TestService.CreateTest | internal/service/test_service.go:74-139 | validates, sizes and inserts a CREATED test; succeeds exactly for valid requests, a positive capacity and a new id |
| ControlPlane.TestService.EnsureWorkersAvailable | internal/service/test_service.go:189-256 | succeeds only with at least the required number of IDLE workers, at once if they are there |
| ControlPlane.TestService.CountIdle | internal/service/test_service.go:195-200 | counts exactly the IDLE workers |
| ControlPlane.TestService.StartTest | internal/service/test_service.go:258-337 | under any interference the call is a run of the state machine; on success the test is RUNNING and its rows are exactly those of the returned workers; it succeeds when nothing interferes and enough workers are IDLE; refused without interference it leaves a CREATED test CREATED and without rows |
| ControlPlane.TestService.StopTest | internal/service/test_service.go:149-187 | under any interference the call is a run of the state machine; on success the test is closed, and STOPPED if it was open; unless others act after the release it holds no worker, and without interference exactly its RESERVED workers were freed |
| ControlPlane.TestService.Perform | internal/service/test_service.go:258-337 | each event of the state machine is what the repository methods do |
| CompletionBarrier.CommitIsAtomic | internal/repository/assignment.go:149-284 | a commit applies its transaction to the state committed at that moment, although its statements ran earlier |
| CompletionBarrier.RunsAreSerializable | internal/repository/assignment.go:149-284 | whatever statements interleave, wait or abort, the committed state is that of the committed transactions run one by one in commit order |
| CompletionBarrier.BarrierHolds | internal/repository/assignment.go:163-186 | every interleaving keeps: while the test is committed RUNNING some row is not COMPLETED |
| CompletionBarrier.LastCompleterFinishes | internal/repository/assignment.go:239-277 | the commit that completes the last row also commits the test COMPLETED |
| CompletionBarrier.WithoutTheLockBothMissTheEnd | internal/repository/assignment.go:163-186 | without the row lock two completions can both commit and leave the test RUNNING: the lock is needed |
| CompletionBarrier.ReportLeftAloneCommits | internal/repository/assignment.go:86-357 | a report transaction that nobody disturbs commits its whole effect and leaves no lock |
| CompletionBarrier.SweepLeftAloneCommits | internal/repository/worker_repository.go:499-583 | so does a sweep, in whatever order it locks the rows |
| CompletionBarrier.ReportsProject | internal/repository/assignment.go:86-357 | the atomic steps of this model are the transactions of module Transactions seen from one test |
| CompletionBarrier.SweepProjects | internal/repository/worker_repository.go:499-583 | and so is the sweep |
| Capacity.DesiredCapacity | internal/autoscaler/capacity.go:14-38 | the sum of the workers required by STARTING and RUNNING tests; fails exactly when one of them cannot be sized |
| Capacity.PendingCapacity | internal/autoscaler/capacity.go:62-86 | the same for CREATED tests |
| Capacity.DemandAgreesWithAllocations | internal/autoscaler/capacity.go:14-43 | in every reachable state and for every listing of the table, the active demand is the rows of RUNNING tests plus the requirement of STARTING ones, covers all live rows of those tests, and cannot fail |
| Capacity.PendingNeedIsTheAllocation | internal/autoscaler/capacity.go:62-86 | a CREATED test counts with exactly the workers it gets in any continuation that gives it any; no other test counts |
| Autoscaler.Reconciler.Reconcile | internal/autoscaler/reconciler.go:85-183 | with target max(active, pending): asks for exactly the missing workers, or drains up to the excess of managed workers read IDLE and still IDLE at the drain, and requests termination of exactly their hostnames; fails exactly when a read, a sum, the drain or the provisioner fails |
| Autoscaler.Reconciler.SurveyFleet | internal/autoscaler/reconciler.go:121-134 | counts all workers but the DRAINING and OFFLINE ones and collects the IDLE ones in order |
| Autoscaler.Reconciler.ScaleUp | internal/autoscaler/reconciler.go:186-205 | one provisioning request of exactly the count, none for a non-positive one |
| Autoscaler.Reconciler.ScaleDown | internal/autoscaler/reconciler.go:223-255 | candidates are as many managed IDLE workers as the excess allows |
| Autoscaler.Reconciler.DrainCandidates | internal/autoscaler/reconciler.go:257-318 | drains the candidates still IDLE after arbitrary interference and names their hosts to the provisioner |
| FleetTheorems.DecisionByStatuses | internal/autoscaler/reconciler.go:121-255 | the decision of a cycle by worker statuses and hostnames alone: how many it asks for and how many idle managed workers it may take |
| FleetTheorems.GoneWorkersDoNotCount | internal/autoscaler/reconciler.go:114-134 | deleting all OFFLINE and DRAINING rows changes neither the number asked for nor the number to drain |
| FleetTheorems.DeadWorkerIsReplaced | internal/autoscaler/reconciler.go:121-134 | marking a working worker OFFLINE at or below the target raises the number asked for by one |
| FleetTheorems.TargetCoversBothDemands | internal/autoscaler/reconciler.go:156-159 | the target is the larger of the two demands |
| FleetTheorems.ManagedHostnames | internal/autoscaler/reconciler.go:207-211 | the autoscaler's own hostnames are managed, a compose-started worker's is not |
| FleetTheorems.DrainIsSafe | internal/autoscaler/reconciler.go:223-318 | drained workers are managed and IDLE at the drain, no more than the excess, and the fleet left is short of the target by at most the workers that left in between |
| FleetTheorems.DrainKeepsTarget | internal/autoscaler/reconciler.go:209-318 | with no drain, offline mark or DRAINING report in between the fleet left is at least the target, and each drained worker still has the hostname that was read |
| FleetTheorems.DrainedStayOut | internal/autoscaler/reconciler.go:265-318 | no drained worker is ever given a row again |
| FleetTheorems.CyclesReachAFixedPoint | internal/autoscaler/reconciler.go:156-255 | on a quiet fleet, once the workers asked for have registered, the next cycle asks for and drains nothing, and the fleet is at target or above it with no eligible worker left |
| FleetTheorems.SecondCycleAsksAgain | internal/autoscaler/reconciler.go:121-164 | two cycles together ask for exactly the missing workers if and only if all workers of the first have registered before the second; otherwise the surplus is the number still under way |
| Metrics.Collector.Record | internal/metrics/collector.go:30-49 | adds one result to every counter and keeps the maximum |
| Metrics.Collector.Flush | internal/metrics/collector.go:51-86 | hands out the bucket of everything since the last flush and starts over |
| Metrics.TallyIsPlain | internal/metrics/collector.go:30-49 | the collector's fields are the plain count, success count, latency sum byte sums and maximum of the recorded list, and requests are successes plus failures |
| Aggregation.GlobalWindow.Merge | internal/aggregator/window.go:32-53 | adds a bucket to the window, recovering the latency total from the average |
| Aggregation.Store.Get | internal/aggregator/store.go:18-41 | returns the test's window, creating it only if missing, and disturbs no other window |
| Aggregation.Aggregator.Deliver | internal/aggregator/subscriber.go:26-27 | lookup and merge in one go merge the bucket into its test's window, fresh if missing, and change no other |
| Aggregation.Aggregator.Report | internal/aggregator/aggregator.go:45-99 | one snapshot of every window with requests, each once; those windows are emptied, the others deleted |
| Pipeline.RunOk | internal/aggregator/aggregator.go:45-99 | in every run every collector, bucket, window and emitted line is the exact image of the results it stands for |
| Conservation.ResultsAreConserved | internal/metrics/collector.go:30-86 | for every weight of results and every run: collectors, buckets on the way or undelivered, windows and lines together weigh what was recorded |
| Conservation.NoResultLostOrDoubled | internal/aggregator/subscriber.go:12-36 | each result stands in the pipeline exactly as often as it was recorded |
| Conservation.CountersAreConserved | internal/aggregator/window.go:32-53 | each counter of all lines plus everything still held is the plain statistic of the recorded results: their number, their successes and failures, the sums of their bytes sent and received |
| Conservation.LinesAddUp | internal/aggregator/aggregator.go:61-85 | every emitted line has requests = successes + failures > 0, and RPS = requests |
| Conservation.LinesReportTheirResults | internal/aggregator/aggregator.go:61-85 | every counter, the success rate and the number of workers of a line are those of the results it stands for |
| Conservation.FlushHandsOn | internal/metrics/collector.go:51-86 | a flush hands on everything the collector holds, under its test, worker and times, and leaves it empty |
| Conservation.DeliveryReachesWindow | internal/aggregator/subscriber.go:26-27 | a delivery takes one bucket off the way and its results into its test's window |
| Conservation.ReportsCatchUp | internal/aggregator/aggregator.go:45-99 | after a report every recorded result is in a line except those in collectors, on the way or undelivered |
| Pipeline.DeliveryIsTheAggregators | internal/aggregator/subscriber.go:26-27 | the pipeline's delivery is what the method Deliver does to the store |
| Pipeline.ReportIsTheAggregators | internal/aggregator/aggregator.go:45-99 | the pipeline's report is what the method Report does to the store, with the same snapshots |
| LatencyBound.BucketsTruncate | internal/metrics/collector.go:58-74 | truncation loses less than one millisecond a bucket in the total and nothing but the fraction in the maximum |
| LatencyBound.ReportedLatenciesAreBounded | internal/aggregator/aggregator.go:61-64 | with non-negative latencies every line of every run reports the floor in ms of the true maximum and a mean at most the true one, less than 1 ms below it, and less than 1 ms above the reported maximum |
| LossAccounting.NextLinked | internal/aggregator/store.go:18-41 | with lookup and creation as separate steps no creation replaces another callback's window: a window is in the store exactly until a report deletes it |
| LossAccounting.OnlyEscapesAreLost | internal/aggregator/subscriber.go:26-27 | for every weight: reports and store hold what was merged except the buckets whose window was deleted between their lookup and their merge, and those stand in deleted windows |
| LossAccounting.EachBucketOnce | internal/aggregator/aggregator.go:45-99 | every merged bucket stands in one place exactly, a deleted window if and only if the deletion fell between its lookup and its merge |
| LossAccounting.ReportsFallShortByEscapes | internal/aggregator/aggregator.go:51-97 | each reported and stored counter falls short of what was merged by exactly the escaped buckets |
| LossAccounting.RunStamps | internal/aggregator/store.go:18-41 | the times used above are the positions of the lookup, the merge and the report's visit in the schedule |
| LossAccounting.UndisturbedCallbackDelivers | internal/aggregator/subscriber.go:26-27 | the steps of one callback without anything in between are the delivery of module Aggregation |
| LossAccounting.VisitIsReportOne | internal/aggregator/aggregator.go:51-97 | one visit of a report does what the report loop of module Aggregation does for one test |
| LossAccounting.FirstBucketCanVanish | internal/aggregator/aggregator.go:55-59 | a run in which the first bucket of a test is merged but in no report and no window of the store |
| Execution.Assignment.OnTick | internal/execution/scheduler.go:73-93 | admits an execution if a slot is free and drops the tick otherwise |
| Execution.Assignment.OnFlushTick | internal/worker/executor.go:74-109 | polls for a stop unless one was seen, flushes, and publishes unless the bucket is empty |
| Execution.Assignment.OnEngineReturned | internal/worker/executor.go:111-141 | a final flush, then the stop, the engine's error or success as outcome |
| Execution.ExecutionsAreAccountedFor | internal/execution/scheduler.go:65-96 | at any time executions holding a slot are at most the concurrency, ticks are admitted or dropped, and the admitted ones are published, collected or executing |
| Execution.EngineWaitsForAll | internal/execution/scheduler.go:67-71 | the engine returns only when every admitted execution has been recorded, once, and is gone |
| Execution.NothingIsLeftBehind | internal/worker/executor.go:47-143 | on every return but cancellation the published buckets carry exactly what all admitted executions recorded, and the outcome is a stop exactly if one was seen |
| Execution.StopIsSeenExactlyWhen | internal/worker/executor.go:76-99 | a stop is seen if and only if some poll of the running loop answered STOPPING or STOPPED |
| Execution.NothingIsAdmittedAfterTheEnd | internal/execution/scheduler.go:67-71 | once the scheduler has noticed the end no continuation admits or counts another tick |
| Execution.TickIsDroppedExactlyWhenFull | internal/execution/scheduler.go:73-93 | a tick is dropped exactly when as many executions hold a slot as the concurrency allows; an invalid configuration never executes |
| Execution.FlushPublishesAll | internal/worker/executor.go:100-109 | after a flush tick everything recorded so far has been handed to Publish |
| Execution.ExecutionCanFinish | internal/worker/executor.go:66-143 | from every state of every run there is a way for the flush loop to return without being cancelled |
| WorkerAgent.Worker.Register | internal/service/worker_service.go:35-79 | succeeds exactly for valid requests and a new id, and then the worker is IDLE on both sides |
| WorkerAgent.Worker.SendHeartbeat | internal/worker/worker.go:100-106 | the heartbeat carries the local status |
| WorkerAgent.Worker.Poll | internal/worker/worker.go:108-126 | processes some RESERVED row of this worker, or does nothing if there is none |
| WorkerAgent.Worker.ProcessAssignment | internal/worker/worker.go:128-237 | sends exactly the reports the outcome calls for (a detected stop goes out as a failure), ends IDLE; a finished execution completes a row RUNNING when the report arrives, any other outcome but a shutdown fails a row live then, and an undisturbed successful run of a RUNNING test's only worker completes the test |
| WorkerAgent.FinalReportMakesIdleSafe | internal/worker/worker.go:128-237 | after the final report took effect the worker's IDLE heartbeats are safe for ownership |
| WorkerAgent.IdleWhileRunningIsUnsafe | internal/worker/worker.go:215-222 | before it an IDLE heartbeat breaks ownership and a RUNNING one does not |
| WorkerAgent.StopRaceDecidesTheRow | internal/worker/executor.go:129 | the failure report of a stopped run leaves the row FAILED before the release and is refused after it |

## Left out

- HTTP handlers, routing, JSON, the NATS transport, the Victoria payload text, the dashboard, configuration and logging: plumbing. A message's arrival is an event, a failing call a flag.
- Postgres itself: a transaction commits as a whole or not at all, primary and foreign keys hold, a deadlock victim is an abort. Locks and statement visibility appear in `CompletionBarrier` only.
- CompletionBarrier.BarrierHolds: does not model the worker rows nor the RUNNING write of a start, and supposes that no stop of the test runs, because a stop may empty a test without finishing it (`FinishTheorems.BarrierBreaksExactlyWhen` covers those writes).
- Integer width: Go's int and int64 are unbounded here, so overflow of the size formula and of counters is not modelled.
- Floats are reals, so rounding of averages and totals is not part of the latency bound.
- Clocks: time is a parameter, timers and timeouts are events that may happen at any moment, and a cutoff is any number.
- Names, URLs, methods, durations and versions are checked on entry but not stored; trimming and case folding of request fields is left out.
- The order in which the reservation prefers workers: the model allows any selection of IDLE workers, the source takes the oldest heartbeats first.
- Identifiers are natural numbers and supposed fresh; process spawning and killing are requests to a provisioner that may fail.
- ControlPlane.TestService.EnsureWorkersAvailable: the reconciliation it triggers is part of the arbitrary activity before the first poll, and the direct provisioning used when no reconciler is configured is left out.
- Autoscaler.Reconciler.Reconcile: the mutex is implicit, since one method runs at a time; the periodic loop around it only repeats it.
- Execution: request execution itself is the event of its result; the engine's checks for nil collaborators are left out.
- Liveness in time: that a poll, a flush or a sweep eventually happens is not stated.
