# CloudOS operator: verified model

A Dafny model of the scheduling, admission and protection logic of the CloudOS operator, with
proofs. `dafny verify dfyconfig.toml` checks everything.

| file | models |
|---|---|
| `TaskJobOperator.dfy`, `TaskJobInvariant.dfy` | the TaskJob controller as a protocol of single API calls, and its invariant over every run |
| `TaskJobRuns.dfy` | safety of every run, trap sets, and exactly which jobs can complete |
| `TaskJobStatuses.dfy` | what every recorded TaskJob status is backed by |
| `TaskJobReconciler.dfy` | the reconcile loop as code, proved to be a run of the protocol |
| `TaskJobFairness.dfy` | progress of whole reconcile calls with fresh reads, in every fair order |
| `Graphs.dfy`, `TaskGraph.dfy`, `DeadlockDetector.dfy` | the dependency graph, admission, cycle search, execution order, ready tasks |
| `ResourceAllocator.dfy`, `SchedulerApi.dfy` | the cluster's resource books and the submission pipeline |
| `Tasks.dfy`, `Mlfq.dfy`, `RoundRobin.dfy`, `Sjf.dfy` | the queue disciplines |
| `CircuitBreaker.dfy` | the gRPC client's circuit breaker and retry loops |
| `CloudTask.dfy`, `CloudTaskCompletion.dfy` | the CloudTask controller's retry machine, and exactly which tasks can complete |
| `CloudTaskOutcomes.dfy` | what one CloudTask reconcile leaves behind, retries within the spec, deletion |
| `CloudTaskStale.dfy` | the same machine with old reads of the task: what they break, rescue and keep |
| `TokenBucket.dfy`, `GatewayLimiter.dfy` | the gateway's token buckets |
| `RedisLimiter.dfy` | the orchestrator's counters with expiry |
| `Hpa.dfy` | the autoscaling calculator, and exactly when repeated decisions settle |
| `Options.dfy` | an answer that may be missing |

How the state machines are written. A run is any sequence of events: an event that is not possible
in a state leaves it unchanged. In the TaskJob protocol any number of reconciles are in flight, also
for the same job, every read may return an old version, a status write takes effect only on top of
the version that was read, a Create may fail after it took effect, and a crash or a failed read just
ends the reconcile. Pods move on their own, may be removed from outside, and stop moving once they
succeeded or failed. Specs are immutable, TaskJobs are not deleted and only the controller writes
status. In the CloudTask machine one reconcile runs at a time, as the work queue guarantees per key;
spec edits, deletion requests and pod removals come in between its API calls. `CloudTask.dfy` and
`CloudTaskCompletion.dfy` assume that a reconcile reads the current task and pod. The client reads
through a cache (`module2-orchestrator/cmd/operator/main.go:115-119`), so `CloudTaskStale.dfy` lets a
reconcile start from any earlier version of the task.
Clocks are parameters. Floats are reals and machine integers are unbounded.

Where the code and its documentation disagree, the model follows the code:

- `module2-orchestrator/DOCUMENTATION.md:505` says half-open allows a single test call whose failure
  opens the breaker again. The code admits every call and reopens only on the threshold-th failure:
  `CircuitBreaker.HalfOpenReopensIff`, `CircuitBreaker.HalfOpenFailureRun`.
- `module2-orchestrator/pkg/auth/ratelimiter.go:12` promises a sliding window; the windows are fixed:
  `RedisLimiter.SlidingPromiseIff`.
- `scheduler/scheduler_api.py:73-78` means to report the cycle it rejected and to undo the
  registration. The cycle is looked up after the removal, so none is ever reported
  (`SchedulerApi.Api.SubmitTask`), and the removal also drops what was there before
  (`TaskGraph.RollbackExactIff`, `TaskGraph.RejectionLosesEdges`).
- A CloudTask retry needs its failed pod to be removed by someone else, because the pod's name is
  fixed: `CloudTaskCompletion.FirstFailureWedges`, `CloudTask.WedgedUntilRemoved`,
  `CloudTask.RemovalRestarts`.
- `module2-orchestrator/controllers/cloudtask_controller.go:124` means to look whether a task whose
  pod is gone needs a retry. The branch only starts tasks that have not started, so such a task keeps
  its status for ever, unless an old read starts the pod again: `CloudTaskCompletion.FirstRemovalOrphans`,
  `CloudTaskCompletion.OrphanedForever`, `CloudTaskStale.StaleCanCompleteIff`.
- A "scale-up" for memory alone can lower the replica count and need not settle:
  `Hpa.MemoryScaleUpLowersIff`, `Hpa.MemoryOnlySettlesIff`.

## Model

| member | source | states |
|---|---|---|
| TaskJobInvariant.StepInv | internal/controller/taskjob_controller.go:30-96 | every API call, crash and pod move keeps the protocol invariant and loses no recorded version |
| TaskJobInvariant.WrittenInv | internal/controller/taskjob_controller.go:84-93 | a status write that takes effect keeps terminal phases last, start times kept and the completion log in dependency order |
| TaskJobInvariant.RunInv | internal/controller/taskjob_controller.go:30-231 | the invariant holds after every run |
| TaskJobRuns.PodOnlyAfterDependencies | internal/controller/taskjob_controller.go:48-77 | in every run a job has had a pod only if all its dependencies are Completed and it has an image |
| TaskJobRuns.CompletedClosed | internal/controller/taskjob_controller.go:98-110 | Completed jobs are closed under transitive DependsOn, and each has had a pod that succeeded |
| TaskJobRuns.TerminalAbsorbing | internal/controller/taskjob_controller.go:43-46 | a Completed or Failed status is never changed again, in any field |
| TaskJobRuns.StartTimeIsFinal | internal/controller/taskjob_controller.go:191-200 | a recorded start time is never overwritten |
| TaskJobRuns.TrapNeverRuns | internal/controller/taskjob_controller.go:43-59 | jobs that each depend on a Failed job or on one another never get a pod and never complete, before or after |
| TaskJobRuns.CycleIsTrap | internal/controller/taskjob_controller.go:98-110 | the members of a dependency cycle are such a set |
| TaskJobRuns.ReadyCompletes | internal/controller/taskjob_controller.go:48-95 | a job with finished dependencies that is not hopeless can complete without touching another job |
| TaskJobRuns.AllUndoomedComplete | internal/controller/taskjob_controller.go:48-231 | one run completes every job that is not doomed |
| TaskJobRuns.CanCompleteIffNotDoomed | internal/controller/taskjob_controller.go:43-110 | in every reachable state some continuation without new submissions and outside pod removals, old reads allowed, completes a job if and only if the job is not doomed |
| TaskJobRuns.AcyclicJobsAllComplete | internal/controller/taskjob_controller.go:48-95 | progress: without cycles, missing dependencies and hopeless jobs some run completes every job |
| TaskJobFairness.FairCompletesIff | internal/controller/taskjob_controller.go:30-96 | with no call in flight, after three rounds per unfinished job, each with a written call and a pod success for every job among any other calls, lost writes and pod moves but to Failed, exactly the jobs that are not doomed are Completed |
| TaskJobFairness.CallEffect | internal/controller/taskjob_controller.go:30-96 | a call, its write lost or not, touches its own job only, loses no job that was not lost, and brings a ready job without a pod or, if written, with a succeeded pod a stage further |
| TaskJobFairness.PodChangesEffect | internal/controller/taskjob_controller.go:189-231 | a pod move to any phase but Failed touches its own job only and sets no job back |
| TaskJobFairness.ReachedCalm | internal/controller/taskjob_controller.go:60-95 | every state reached without outside pod removals and with no call in flight is one to which this applies |
| TaskJobFairness.FailedPodFails | internal/controller/taskjob_controller.go:95-95 | otherwise a call that reads a failed pod writes Failed even if an earlier pod had succeeded |
| TaskJobStatuses.StatusesAreBacked | internal/controller/taskjob_controller.go:189-231 | every status ever recorded says only what happened: to a pod of that job, in a Create that reported the error in the message, or that there is no image |
| TaskJobStatuses.SyncBacked | internal/controller/taskjob_controller.go:189-231 | what is written for an observed pod phase is backed by that observation |
| TaskJobReconciler.Reconciler.CheckDependencies | internal/controller/taskjob_controller.go:98-110 | true exactly when every dependency is Completed; an error exactly when the first unfinished one is missing |
| TaskJobReconciler.Reconciler.Reconcile | internal/controller/taskjob_controller.go:30-96 | one call is one run of the protocol's steps; it is Finished, an Error or requeued after 5 or 10 seconds exactly as the job, its dependencies, its pod and the answers say |
| TaskJobReconciler.BlockedCall | internal/controller/taskjob_controller.go:48-59 | a call with an unfinished dependency writes only that it waits, or nothing if the dependency is missing |
| TaskJobReconciler.NoPodCall | internal/controller/taskjob_controller.go:66-93 | a call that finds no pod fails the job without an image, otherwise creates the pod and records Running or the failure |
| TaskJobReconciler.CallShows | internal/controller/taskjob_controller.go:61-231 | with finished dependencies, a written call leaves the newest status that its finding calls for, field by field with start and end times, and the created pod; an unwritten one leaves the status; nothing else changes |
| TaskJobReconciler.MoveIsRecorded | internal/controller/taskjob_controller.go:189-231 | every move of a live pod is recorded by the next written call: Running with a start time, Queued, Completed or Failed with an end time, or nothing for an unknown phase |
| TaskJobReconciler.EvictionIsRepaired | internal/controller/taskjob_controller.go:61-93 | a job whose pod is removed from outside before it ends gets another pod from its next call |
| TaskJobReconciler.OldReadStartsPod | internal/controller/taskjob_controller.go:37-93 | a call with an old read of a status that was not an end makes a pod if there is none, and its status write is refused |
| TaskJobReconciler.CompletedRunsAgain | internal/controller/taskjob_controller.go:43-45 | so in every reachable state a Completed job whose pod is removed can get another pod, its status unchanged |
| Graphs.NoSinkLeadsToCycle | scheduler/deadlock_detector.py:18-23 | if every task of a finite set depends on one in it, each leads into a cycle |
| Graphs.AcyclicIfListed | scheduler/deadlock_detector.py:32-35 | a dependency-first listing of all tasks rules out cycles |
| TaskGraph.AddTaskMeaning | scheduler/deadlock_detector.py:8-12 | adding a task adds exactly it, its dependencies and the edges between them |
| TaskGraph.RemoveTaskMeaning | scheduler/deadlock_detector.py:14-16 | removing a task removes it and every edge at it, and nothing else |
| TaskGraph.DeadlockIffDependencyReaches | scheduler/scheduler_api.py:71-78 | a submission to an acyclic graph closes a cycle if and only if a listed dependency is the task or already leads to it |
| TaskGraph.FreshTaskDeadlock | scheduler/scheduler_api.py:71-78 | a new task id is rejected only for depending on itself |
| TaskGraph.AdmitAcyclic | scheduler/scheduler_api.py:71-78 | accepting or rejecting one submission keeps the graph acyclic |
| TaskGraph.AlwaysAcyclic | scheduler/scheduler_api.py:71-78 | after any sequence of submissions the graph is acyclic |
| TaskGraph.RollbackExactIff | scheduler/scheduler_api.py:73-73 | the removal restores the graph if and only if the task was new and its other dependencies were known |
| TaskGraph.RejectionLosesEdges | scheduler/scheduler_api.py:73-73 | a concrete rejection that loses an accepted edge |
| TaskGraph.DrainReachesExactly | scheduler/deadlock_detector.py:37-45 | completing ready tasks in rounds ends within node-count rounds, dependency-first, at exactly the tasks that do not lead into a cycle |
| TaskGraph.AcyclicDrainsAll | scheduler/deadlock_detector.py:37-45 | on an acyclic graph it completes every task once |
| DeadlockDetection.Visit | scheduler/deadlock_detector.py:18-30 | the search below a node finds a simple cycle or lists the node after all it depends on |
| DeadlockDetection.FindCycle | scheduler/deadlock_detector.py:18-30 | finds a simple cycle exactly when there is one |
| DeadlockDetection.TopologicalSort | scheduler/deadlock_detector.py:35-35 | an order of all tasks before what they depend on, exactly when there is no cycle |
| DeadlockDetection.DeadlockDetector.AddTask | scheduler/deadlock_detector.py:8-12 | the loop builds the graph with the task added |
| DeadlockDetection.DeadlockDetector.RemoveTask | scheduler/deadlock_detector.py:14-16 | the loops drop the task and every edge at it, and nothing else; the others keep their order; an unknown task changes nothing |
| DeadlockDetection.DeadlockDetector.HasDeadlock | scheduler/deadlock_detector.py:18-23 | true exactly when the graph has a cycle |
| DeadlockDetection.DeadlockDetector.GetCycle | scheduler/deadlock_detector.py:25-30 | the nodes of a simple cycle, or none exactly when acyclic |
| DeadlockDetection.DeadlockDetector.GetExecutionOrder | scheduler/deadlock_detector.py:32-35 | an order exists exactly when acyclic; it lists every task once, after its dependencies |
| DeadlockDetection.DeadlockDetector.GetReadyTasks | scheduler/deadlock_detector.py:37-45 | exactly the tasks that are not completed and whose dependencies all are |
| ResourceAllocation.ResourceAllocator.AddNode | scheduler/resource_allocator.py:39-40 | the node takes exactly requests within its capacity; every other node, every allocation and the earlier order stay |
| ResourceAllocation.ResourceAllocator.Allocate | scheduler/resource_allocator.py:42-55 | fails exactly when no node has both amounts free, otherwise charges the first node of least cost under the strategy, and only that one, within its capacity |
| ResourceAllocation.ResourceAllocator.Deallocate | scheduler/resource_allocator.py:57-62 | exactly the task's node has the stated amounts more available, the task is forgotten, all else stays; an unknown task changes nothing |
| ResourceAllocation.ReleaseUndoesTake | scheduler/resource_allocator.py:52-62 | releasing what an allocation under an unused id took restores the cluster |
| ResourceAllocation.StrategyMeaning | scheduler/resource_allocator.py:46-51 | first fit is the first that fits, best fit leaves least over, worst fit had most available, the first of several as good |
| ResourceAllocation.BooksBalance | scheduler/resource_allocator.py:39-62 | in every history, whatever the amounts, each node's usage is exactly its live leases plus what overwritten ids, releases of other amounts and re-added nodes left over |
| ResourceAllocation.WithinCapacity | scheduler/resource_allocator.py:42-62 | with new nodes, requests of at least zero and releases of the leased amounts, usage stays between zero and capacity |
| ResourceAllocation.LeakFreeIff | scheduler/resource_allocator.py:42-62 | after such a history every node's usage is exactly its tracked leases if and only if no allocation overwrote a live lease of more than nothing |
| ResourceAllocation.UsageCoversTracked | scheduler/resource_allocator.py:42-62 | and it always covers them, between zero and capacity |
| ResourceAllocation.ReuseLeaks | scheduler/resource_allocator.py:52-62 | a history that charges a node twice for one tracked lease, and whose release leaves a charge with no task |
| ResourceAllocation.ReAddNodeIff | scheduler/resource_allocator.py:39-40 | re-adding a node keeps the books right if and only if nothing was charged on it |
| SchedulerApi.Api.constructor | scheduler/scheduler_api.py:17-26 | starts with an empty graph and three unused nodes of 4 CPU and 4096, 4 and 4096, 8 and 8192 |
| SchedulerApi.Api.SubmitTask | scheduler/scheduler_api.py:71-101 | rejects exactly the deadlocks, always reporting no cycle; 507 exactly when nothing fits, leaving the task registered; otherwise queues on the best-fit node; the graph stays acyclic |
| Mlfq.SiftDown | scheduler/priority_queue.py:33-33 | moving an entry up restores the heap with the same entries |
| Mlfq.SiftUp | scheduler/priority_queue.py:39-39 | sinking the root entry restores the heap with the same entries |
| Mlfq.HeapPush | scheduler/priority_queue.py:33-33 | the heap with one entry more |
| Mlfq.HeapPop | scheduler/priority_queue.py:39-39 | removes one least entry and leaves a heap of the rest |
| Mlfq.RootIsLeast | scheduler/priority_queue.py:39-39 | the root of a heap precedes every entry |
| Mlfq.MLFQueue.Enqueue | scheduler/priority_queue.py:31-34 | every level stays a heap of its priority and the contents grow by the task |
| Mlfq.MLFQueue.Dequeue | scheduler/priority_queue.py:36-42 | removes a least task by (priority, submitted_at) of everything queued; nothing exactly when empty |
| Mlfq.MLFQueue.Demote | scheduler/priority_queue.py:44-48 | queues the task one level down; the queue stays well formed if and only if the task was not queued or already on the lowest level |
| RoundRobin.Fair | scheduler/priority_queue.py:63-68 | any k consecutive turns serve each of n positions floor(k/n) or ceil(k/n) times |
| RoundRobin.TurnsInOrder | scheduler/priority_queue.py:66-67 | turns start at the head and go round in queue order |
| RoundRobin.RemovesItselfIff | scheduler/priority_queue.py:70-72 | completing removes the task itself if and only if no task with both its priority and its submission time is queued before it |
| RoundRobin.CompletesTheOther | scheduler/priority_queue.py:70-72 | a run in which completing the second of two such tasks leaves the second queued |
| RoundRobin.ServeCompleteServe | scheduler/priority_queue.py:63-72 | after serving a task and completing it, the next turn serves its successor if and only if the remaining count divides the finished cycles plus one |
| RoundRobin.CompletionSkips | scheduler/priority_queue.py:63-72 | a run of the scheduler in which completing the first of three tasks skips the second |
| RoundRobin.RoundRobinScheduler.NextTask | scheduler/priority_queue.py:63-68 | serves the position of the turn and advances the turn |
| RoundRobin.RoundRobinScheduler.Complete | scheduler/priority_queue.py:70-72 | removes the first task with both the priority and the submission time, and only that, keeping the order; nothing if there is none; a queued task itself if no two agree in both |
| Sjf.ArrivedStableSort | scheduler/priority_queue.py:81-83 | after any arrivals the queue is a permutation sorted by duration, equal durations in arrival order |
| Sjf.SwapNeighbours | scheduler/models.py:64-64 | exchanging two neighbours changes the total wait by the difference of their durations |
| Sjf.SortedIsOptimal | scheduler/models.py:64-64 | a sorted order has the least total waiting time of all permutations |
| Sjf.OptimalIsSorted | scheduler/models.py:64-64 | only sorted orders are optimal |
| Sjf.ArrivedIsOptimal | scheduler/priority_queue.py:77-86 | draining the queue waits no longer than any order of the arrivals |
| Sjf.SortAppended | scheduler/priority_queue.py:83-83 | sorting puts the appended task behind every task that is not longer |
| Sjf.SJFScheduler.Enqueue | scheduler/priority_queue.py:81-83 | keeps the queue sorted and stable |
| Sjf.SJFScheduler.Dequeue | scheduler/priority_queue.py:85-86 | the head, which is a shortest task, or nothing |
| CircuitBreaker.ErrorsAreFailuresSinceReset | module2-orchestrator/pkg/grpc/module1_client.go:180-229 | in every interleaving the error count is the failures since the last success, reconnect or half-open move, and below the threshold unless open |
| CircuitBreaker.OpensOnThreshold | module2-orchestrator/pkg/grpc/module1_client.go:218-229 | the breaker opens exactly on the threshold-th such failure |
| CircuitBreaker.StaysOpenIff | module2-orchestrator/pkg/grpc/module1_client.go:180-229 | through any continuation the breaker stays open if and only if nothing in it is a reconnect or a check more than the recovery time after the last failure so far; successes in flight do not close it |
| CircuitBreaker.RefusedIff | module2-orchestrator/pkg/grpc/module1_client.go:188-199 | a check is refused exactly when open within the recovery time of the last failure of any call |
| CircuitBreaker.HalfOpenReopensIff | module2-orchestrator/pkg/grpc/module1_client.go:190-195 | from half-open, only the threshold-th failure opens again |
| CircuitBreaker.HalfOpenIff | module2-orchestrator/pkg/grpc/module1_client.go:180-229 | after every log the breaker is half-open if and only if a check released it and since then there were only checks and fewer failures than the threshold: a success or reconnect closes it |
| CircuitBreaker.HalfOpenFailureReopensIff | module2-orchestrator/pkg/grpc/module1_client.go:218-229 | one half-open failure opens again if and only if the threshold is one |
| CircuitBreaker.HalfOpenFailureRun | module2-orchestrator/pkg/grpc/module1_client.go:180-229 | a run from the start whose half-open failure leaves the breaker half-open, for every threshold above one |
| CircuitBreaker.Client.CheckCircuitBreaker | module2-orchestrator/pkg/grpc/module1_client.go:180-202 | the check's answer and new state |
| CircuitBreaker.Client.RecordSuccess | module2-orchestrator/pkg/grpc/module1_client.go:205-215 | the state after a success |
| CircuitBreaker.Client.RecordFailure | module2-orchestrator/pkg/grpc/module1_client.go:218-229 | the state after a failure |
| CircuitBreaker.Client.CallWithRetry | module2-orchestrator/pkg/grpc/module1_client.go:232-270 | no attempt while refused, otherwise at most MaxRetries+1; RetryBackoff*(2^k-1) waited over k backoffs; one success, one failure or, cancelled, nothing recorded |
| CircuitBreaker.Client.ConnectWithRetry | module2-orchestrator/pkg/grpc/module1_client.go:114-158 | at most MaxRetries dials with doubling sleeps; to what other calls record in the meantime a success adds one reconnect, a failure nothing |
| CloudTask.StepInv | module2-orchestrator/controllers/cloudtask_controller.go:68-210 | every API call, crash, spec edit and pod event keeps the invariant; the retry count never falls |
| CloudTask.RetriesBounded | module2-orchestrator/controllers/cloudtask_controller.go:148-164 | the retry count never falls and stays within 0 to 10, the widest the webhooks admit; the specified retries themselves bound it by `CloudTaskOutcomes.RetriesWithinSpec` |
| CloudTaskOutcomes.RetriesWithinSpec | module2-orchestrator/controllers/cloudtask_controller.go:148-164 | in every run the retry count is at most the greatest number of retries ever specified, initially or by an admitted edit |
| CloudTaskOutcomes.RetriesIff | module2-orchestrator/controllers/cloudtask_controller.go:148-168 | a reconcile with a failed pod retries if and only if the count is below the specified retries; otherwise the task is Failed with that count |
| CloudTaskOutcomes.ExhaustedStays | module2-orchestrator/controllers/cloudtask_controller.go:166-168 | and it stays so in every continuation without a spec edit |
| CloudTask.WebhookMeaning | module2-orchestrator/api/v1/cloudtask_webhook.go:46-76 | retries from 0 to 10 are admitted, and zero becomes three |
| CloudTask.CompletedAbsorbing | module2-orchestrator/controllers/cloudtask_controller.go:142-146 | with current reads a Completed status never changes |
| CloudTask.CreationsBounded | module2-orchestrator/controllers/cloudtask_controller.go:176-206 | creations are at most 1 + outside removals and at most 1 + retries + lost status writes |
| CloudTask.StatusIsEarned | module2-orchestrator/controllers/cloudtask_controller.go:223-262 | retries and Failed are covered by pod failures, Completed by a pod success |
| CloudTask.BecomesWedged | module2-orchestrator/controllers/cloudtask_controller.go:154-163 | a retry beside its failed pod, or a lost write after a Create, leaves the task wedged |
| CloudTask.WedgedUntilRemoved | module2-orchestrator/controllers/cloudtask_controller.go:185-189 | a wedged task keeps its status until the pod is removed from outside |
| CloudTask.RemovalRestarts | module2-orchestrator/controllers/cloudtask_controller.go:176-206 | after the removal the next reconcile starts a new pod |
| CloudTaskCompletion.OrphanedForever | module2-orchestrator/controllers/cloudtask_controller.go:110-210 | with current reads, a task whose pod is gone, with nothing seen of it in flight, keeps its status in every continuation |
| CloudTaskCompletion.FirstFailureWedges | module2-orchestrator/controllers/cloudtask_controller.go:148-164 | a run from every new task's start that ends wedged: its first pod fails and is retried |
| CloudTaskCompletion.FirstRemovalOrphans | module2-orchestrator/controllers/cloudtask_controller.go:116-128 | a run from every new task's start that ends orphaned, never to complete |
| CloudTaskCompletion.CanCompleteIff | module2-orchestrator/controllers/cloudtask_controller.go:68-210 | with current reads, some continuation completes a task if and only if it is Completed, or stored, not being deleted and without a pod yet, with one that has not failed, with a failed one and fewer than ten retries, or with its lost pod's end in flight |
| CloudTaskStale.StaleBounds | module2-orchestrator/controllers/cloudtask_controller.go:68-210 | with old reads too, the retry count stays within 0 to 10 and creations are at most one more than removals |
| CloudTaskStale.StaleRetriesWithinSpec | module2-orchestrator/controllers/cloudtask_controller.go:148-164 | with old reads too, the retry count is at most the greatest number of retries ever specified |
| CloudTaskStale.StaleCanCompleteIff | module2-orchestrator/controllers/cloudtask_controller.go:68-210 | with old reads, some continuation completes a task if and only if it is Completed, or stored and not being deleted |
| CloudTaskStale.CompletedUndoneIff | module2-orchestrator/controllers/cloudtask_controller.go:176-206 | with old reads, a Completed task can go back to Running if and only if it is stored and not being deleted |
| CloudTaskStale.SettledUntilRemoved | module2-orchestrator/controllers/cloudtask_controller.go:185-189 | but never while its succeeded pod is not removed from outside |
| CloudTaskStale.CompletedIsUndone | module2-orchestrator/controllers/cloudtask_controller.go:68-210 | a run from every new task's start that completes and can be undone |
| CloudTask.Reconciler.UpdateStatusFromPod | module2-orchestrator/controllers/cloudtask_controller.go:213-272 | the phase that each pod phase calls for, and whether anything changed |
| CloudTask.Reconciler.Finalize | module2-orchestrator/controllers/cloudtask_controller.go:374-389 | deletes the known pod, then drops the finalizer |
| CloudTask.Reconciler.Reconcile | module2-orchestrator/controllers/cloudtask_controller.go:68-210 | one reconcile is one run of the protocol's steps |
| CloudTaskOutcomes.PodSeenOutcome | module2-orchestrator/controllers/cloudtask_controller.go:129-173 | a reconcile that finds the task's pod takes over its phase and retries a failure while retries are left, leaving the pod |
| CloudTaskOutcomes.NoPodSeenOutcome | module2-orchestrator/controllers/cloudtask_controller.go:175-210 | one that finds none starts a pod exactly when the task has not started and nothing is in the way |
| CloudTaskOutcomes.DeletionOutcome | module2-orchestrator/controllers/cloudtask_controller.go:88-104 | one of a task being deleted removes the named pod first and then the task, as far as the calls get through |
| CloudTaskOutcomes.DeletionRuns | module2-orchestrator/controllers/cloudtask_controller.go:88-104 | a deletion request and a reconcile remove the task and the pod it names |
| CloudTaskOutcomes.DeletionCleansUp | module2-orchestrator/controllers/cloudtask_controller.go:374-389 | in every run, once a task is gone the pod it names is gone |
| TokenBuckets.RefillComposes | gateway/rate_limit.py:103-121 | refilling in between makes no difference |
| TokenBuckets.ConsumeMeaning | gateway/rate_limit.py:103-138 | on the fields and the clock: granted exactly when the amount is within the capacity and within what was left plus what flowed in, and then taken |
| TokenBuckets.RunValid | gateway/rate_limit.py:90-138 | for any amounts tokens are never negative; above capacity only right after a negative amount |
| TokenBuckets.GrantBound | gateway/rate_limit.py:123-138 | in every run, of any amounts, and every interval at most capacity + rate * length is granted |
| TokenBuckets.GrantBoundReached | gateway/rate_limit.py:103-138 | a full bucket reaches that bound: its capacity at once and one more per token time |
| TokenBuckets.InstantGrantsIff | gateway/rate_limit.py:123-138 | of requests at one instant the i-th is granted if and only if the bucket then holds i + 1 tokens |
| TokenBuckets.SpacedNeverRefused | gateway/rate_limit.py:123-138 | whoever finds a token and asks no faster than the rate is never refused |
| TokenBuckets.ReadsAreInvisible | gateway/rate_limit.py:140-161 | leaving out every read gives the same decisions |
| TokenBuckets.ResetInIsExact | gateway/rate_limit.py:149-161 | an untouched bucket is full after the unrounded reset_in and no earlier |
| TokenBuckets.TokenBucket.RefillNow | gateway/rate_limit.py:103-121 | the lazily refilled bucket |
| TokenBuckets.TokenBucket.ConsumeNow | gateway/rate_limit.py:123-138 | grants exactly when the amount is within the capacity and within the tokens plus the inflow since the last refill, and takes it |
| TokenBuckets.TokenBucket.Remaining | gateway/rate_limit.py:140-147 | the whole tokens of the refilled bucket |
| TokenBuckets.TokenBucket.ResetInNow | gateway/rate_limit.py:149-161 | the seconds until full rounded to two digits, or a division by zero |
| GatewayLimiter.NewBucket | gateway/rate_limit.py:185-192 | a full bucket of the role's limit that refills in a minute |
| GatewayLimiter.RoleLimit | gateway/rate_limit.py:58-62 | 200, 60 and 10 requests a minute, and 10 for any other role |
| GatewayLimiter.ClientsAreIndependent | gateway/rate_limit.py:194-229 | a client's answers and bucket do not depend on other clients' requests |
| GatewayLimiter.ClientBound | gateway/rate_limit.py:206-229 | a client is allowed at most capacity + rate * length requests in any span |
| GatewayLimiter.NewClientBound | gateway/rate_limit.py:185-229 | the same for a new client with its first role's limit |
| GatewayLimiter.FirstRequestsAllowed | gateway/rate_limit.py:185-229 | whatever others do, a new client's first requests, as many as its role's limit, are all allowed |
| GatewayLimiter.UnhurriedNeverRefused | gateway/rate_limit.py:206-229 | a client that finds a token and asks no faster than its rate is never refused |
| GatewayLimiter.RateLimiter.GetBucket | gateway/rate_limit.py:194-204 | finds the client's bucket or adds one, leaving the others |
| GatewayLimiter.RateLimiter.CheckNow | gateway/rate_limit.py:206-229 | allows a first request always and a later one exactly when the client's bucket holds a token; remaining tokens and reset time; touches one bucket only |
| RedisLimiter.KeyInjective | module2-orchestrator/pkg/auth/ratelimiter.go:46-47 | different kind, tenant or window, different key |
| RedisLimiter.CountersCount | module2-orchestrator/pkg/auth/ratelimiter.go:42-69 | every counter is exactly the requests that incremented it: expiry never clears a current one |
| RedisLimiter.ExpiryRefreshed | module2-orchestrator/pkg/auth/ratelimiter.go:56-58 | every request leaves its counters to expire after two minutes and two hours |
| RedisLimiter.AnswerMeaning | module2-orchestrator/pkg/auth/ratelimiter.go:38-84 | which answer the counts up to a request call for, the minute limit first |
| RedisLimiter.TenantsAreIndependent | module2-orchestrator/pkg/auth/ratelimiter.go:45-84 | leaving out other tenants' requests leaves a tenant's acceptances as they were |
| RedisLimiter.WindowBound | module2-orchestrator/pkg/auth/ratelimiter.go:71-84 | no minute or hour window accepts more than its limit |
| RedisLimiter.AcceptancesArePrefix | module2-orchestrator/pkg/auth/ratelimiter.go:71-84 | within a minute window the accepted requests come first |
| RedisLimiter.SixtySecondBound | module2-orchestrator/pkg/auth/ratelimiter.go:45-84 | at most twice the minute limit in any sixty seconds |
| RedisLimiter.SpanCapIsMaximum | module2-orchestrator/pkg/auth/ratelimiter.go:45-84 | the exact maximum accepted in a span of up to sixty seconds, for any limits: reached by some history, exceeded by none |
| RedisLimiter.SlidingPromiseIff | module2-orchestrator/pkg/auth/ratelimiter.go:35-47 | the sliding-window promise holds for a span if and only if it lies in one minute window, nothing is ever accepted, or the hour limit is too small for the excess |
| RedisLimiter.RateLimiter.Allow | module2-orchestrator/pkg/auth/ratelimiter.go:37-85 | the stored counters decide as the history of requests does, errors and waiting time included |
| RedisLimiter.WindowLasts | module2-orchestrator/pkg/auth/ratelimiter.go:72-82 | the waiting time ends at the first moment outside the request's window |
| Hpa.QueueReplicasMeaning | module2-orchestrator/pkg/scaling/hpa_calculator.go:56-73 | within range, enough pods for the queue unless at the maximum, and no more than needed unless at the minimum |
| Hpa.UsageMeaning | module2-orchestrator/pkg/scaling/hpa_calculator.go:206-235 | within range, the most replicas whose load at the threshold is within the measured load, unless at the maximum or minimum |
| Hpa.MakeScalingDecision | module2-orchestrator/pkg/scaling/hpa_calculator.go:76-203 | for any configuration without zero divisors, scale-up exactly above a threshold or below the queue's figure; for a measured load, scale-down to the queue's figure exactly under the stated margins; otherwise the count is kept |
| Hpa.UsageDirection | module2-orchestrator/pkg/scaling/hpa_calculator.go:206-235 | usage above the threshold never asks for fewer replicas, at or below it never for more |
| Hpa.CpuOrQueueNeverLowers | module2-orchestrator/pkg/scaling/hpa_calculator.go:169-186 | a scale-up for CPU or the queue never lowers the count |
| Hpa.MemoryScaleUpLowersIff | module2-orchestrator/pkg/scaling/hpa_calculator.go:176-181 | one for memory alone lowers it if and only if the CPU figure lies strictly between the queue figure and the current count |
| Hpa.NoScaleDownInBand | module2-orchestrator/pkg/scaling/hpa_calculator.go:110-160 | no scale-down with CPU from 60% and memory from 50% of the thresholds on |
| Hpa.IdleReachesQueue | module2-orchestrator/pkg/scaling/hpa_calculator.go:110-203 | with neither resource above its threshold and one under half of it, one decision brings every count to the queue's figure |
| Hpa.QuietFixedPoint | module2-orchestrator/pkg/scaling/hpa_calculator.go:163-203 | with CPU and memory at or below threshold one decision reaches a fixed point |
| Hpa.BusySettles | module2-orchestrator/pkg/scaling/hpa_calculator.go:163-219 | with CPU above threshold repeated decisions climb and settle within the room to the maximum |
| Hpa.MemoryOscillates | module2-orchestrator/pkg/scaling/hpa_calculator.go:176-181 | with memory alone above threshold they can alternate for ever |
| Hpa.MemoryOnlySettlesIff | module2-orchestrator/pkg/scaling/hpa_calculator.go:163-235 | with memory alone above threshold repeated decisions settle if and only if CPU is at its threshold, or its figure at the maximum does not exceed the queue's, or memory keeps one replica above the queue's figure, or memory asks for no more than the queue's figure now and keeps that figure |
| Hpa.NeverSettles | module2-orchestrator/pkg/scaling/hpa_calculator.go:163-235 | otherwise, above the queue's figure, no number of decisions reaches a fixed count |
| Hpa.UsageMonotone | module2-orchestrator/pkg/scaling/hpa_calculator.go:206-235 | a larger count never gets a smaller usage figure |

## Left out

- Pod construction, labels, resource quantities, owner references, log lines, metrics and events: no state that the properties depend on.
- Deletion of TaskJobs and edits of their specs: the TaskJob properties are about fixed dependencies.
- A second CloudTask reconcile of the same task at the same time: the work queue runs one per key.
- CloudTaskCompletion.OrphanedForever: assumes that reconciles read the current task and pod.
- CloudTaskCompletion.CanCompleteIff: assumes that reconciles read the current task and pod.
- CloudTaskStale.StaleCanCompleteIff: old reads are of the task; pods are read as they are.
- The concrete algorithms of networkx and of Python's sort: the model has its own cycle search, topological sort and insertion, so the order among unrelated tasks is one possible order.
- ResourceAllocation.WithinCapacity: covers new nodes, requests of at least zero and releases of the leased amounts, because the code checks none of these and other calls push usage out of range.
- TaskJobFairness.FairCompletesIff: calls run one after the other with fresh reads, Creates get through and pods do not fail; a failed Create or pod makes the job Failed for good.
- RedisLimiter.AcceptancesArePrefix: takes the four commands of a request as one step; the plain pipeline lets another request's commands come in between, and then the minute and the hour counter may order two requests differently.
- Resetting a tenant's counters and reading its statistics: administrative calls outside the request path.
- Queueing a submitted task and pushing it to Redis: the submission enqueues into a scheduler object of its own, so nothing the API serves changes.
- The FIFO queue, and dispatch by algorithm name: a list and a table lookup.
- Task priorities outside the four levels: the API only builds the four.
- Floating-point rounding, Duration overflow and 32-bit truncation in the autoscaler.
- Hpa.MakeScalingDecision: a batch size or threshold of zero is left out, where the code panics or converts an infinite or undefined float.
- JWT, password hashing, HTTP handlers, gRPC dialing, health checks, the database, pub/sub, the worker, mocks and the UI.
