# Tandem: a verified model of its coordination core

Tandem runs Python tasks, compiled to WebAssembly, on volunteer nodes, and hosts web apps on the same
nodes. This project models the parts of it that decide what runs where and what a run means, and
proves what they promise:

- **The task queue** of the server (`TaskQueue*.dfy`, `TaskStore.dfy`, `JobStatus.dfy`, `Planner.dfy`):
  per-node queues, shared queues per runtime, claims with tokens, heartbeats, failover, rejected
  receipts, job verdicts and the planner. `TaskQueue.dfy` has the state (the contents of Redis) and
  one function per operation; `TaskStore.dfy` has the server's loops over its store, each proved equal
  to its function; `TaskQueueEffects.dfy` and `TaskQueueStart.dfy` say what each call answers and changes;
  the other files prove what holds of every step, of every run and of every sweep.
- **Web hosting** (`ServeQueue.dfy`, `ServeStore.dfy`, `ServeQueueEffects.dfy`, `ServeQueueRuns.dfy`
  on the server, `ServeNode.dfy`, `ServeNodeEffects.dfy` on the node): deployments, serving marks, refill,
  requests, removal and failure; and the node's serve loop interleaved with its start tasks, lock section
  by lock section.
- **The sweeper's lock** (`SweeperLock.dfy`) between server instances.
- **The Python to Rust transpiler** (`PythonSubset.dfy`, `RustEmission.dfy`, `RustTypes.dfy`,
  `RustCoverage.dfy`, `RustSimulation.dfy`, `RustMistakes.dfy`): semantics of both languages, what the builder emits, what
  rustc accepts, a static check under which the emitted text compiles and takes the same course, and
  where the translation is wrong, exactly on which inputs that shows.
- **The helper analysis** (`HelperAnalysis.dfy`): a memoised depth-first search against a
  reachability specification.
- **The compile cache** (`CompileKey.dfy`, `CompileClashes.dfy`, `CompileCache.dfy`): the key material,
  its unique decoding and all its clashes, validation, and compiling through the cache over any history.
- **Two codecs** (`TndmFrame.dfy`, `HttpMessage.dfy`, `HttpProxy.dfy`, `HttpLengths.dfy`): the frame of a
  module with its input, and the HTTP/1.1 (RFC 9112) that the node speaks with a hosted app.

`Sequences.dfy` and `Text.dfy` hold shared vocabulary. `dafny verify dfyconfig.toml` checks everything.

## What was found

Some of what the code or its comments say does not hold, and the model keeps the code as it is:

- A chained comparison under `not`, an assignment in a branch or in a loop to an outer name (in a loop the
  Rust then never ends), the `else` of a loop, several assignment targets, and `//` and `%` on operands of
  opposite signs are translated wrongly: `RustMistakes.dfy` has each pattern with the exact inputs on which
  it shows. `RustSimulation.TranslationFaithful` gives the static check that makes a program safe, and
  `RustCoverage.TranslatableIff` says that it refuses only what rustc refuses and these patterns.
- The reaper drops marks that are exactly ten seconds old, which the load balancer still accepts: the
  two views agree after a reap, and with the view before it exactly when no healthy node's mark is of
  that age (`ServeQueueRuns.ReapLeavesHealthyView`).
- A failed deployment is never assigned again, but what the comment on `mark_failed` says ("Stop handing
  it out") does not hold: some later claim can hand it to a node exactly when it still exists and waits in
  that node's queue (`ServeQueueRuns.FailedHandedIff`), as often as it waits there and no more
  (`ServeQueueRuns.ClaimsHandOut`, `ServeQueueRuns.FailedForever`).
- The sweeper's lock has no owner: a sweep that outlasts it lets a second instance in and then deletes
  that instance's lock. A run is safe exactly when no instance tries to sweep while a sweep still going
  on is fifteen seconds old or older (`SweeperLock.SafeIffNoLateTry`).
- Two compile requests share a cache key more often than it seems. A request shares its key material with
  another one exactly when its language, module or function holds a newline, or it has two options or
  more, or its one option has a second '=' or a shape among its rows (`CompileClashes.ConfusedIff`). The
  command line can produce such a pair, since a value may hold a newline: any two options can be given as
  one, under the same key (`CompileClashes.MergedConfuses`). Requests without newlines, with keys without
  '=', are never confused with each other (`CompileKey.MaterialUnique`).
- A source tree shares its hash with another one exactly when it has two files or more, whose listing reads
  like one file with NUL bytes, or when its one file hides a second between two of its NULs
  (`CompileKey.TreeCollidesIff`). One NUL alone does no harm, and no two trees without NULs collide.
- "A corrupt cache file is treated as a miss" holds only for damage to its size limit or its first
  eight bytes (`CompileCache.TruncationNoticedIff`); a write that fails half way is harmless exactly when it
  leaves fewer than eight bytes, or all of them (`CompileCache.PartialWriteIff`).
- A forwarded field can end the head early or be read as a second Content-Length: when its name ends in
  a space, or when its value holds a CRLF; so can what follows a CRLF in the path. `HttpLengths.OnlyLengthIff`
  says exactly for which requests, over the bytes sent.
- After a rejected receipt the node still points at the task. The invariant is therefore one-sided: an
  active task is the current task of its node, not the other way round. When the first node goes silent,
  the next sweep or claim takes the task from a second node that is alive and at work, exactly if such a
  stale pointer is there (`TaskQueueStalePointer.SweepRobsIff`, `TaskQueueStalePointer.ReclaimRobsIff`); a
  concrete run gets there (`TaskQueueStalePointer.StalePointerRun`). While the first node lives, its claims are
  answered with the record of the task the second one holds (`TaskQueueStalePointer.ShowsOtherIff`).

## Assumptions

Each endpoint call and each sweep is one atomic step that reads one clock value; only the wait of a
web-hosting poll lets other steps in. Identifiers and tokens drawn at random are new. Keys do not expire. A
receipt check, a blob's presence, the availability of a toolchain and how much of a file is written are
inputs; so are `secure_filename` and the lossy decoding of a response's head, as functions. Hashes have no
collisions. Nothing decides by `lease_expires_at`, metrics or timestamps other than `last_seen`, so the
state has none of them. What rustc accepts is decided here by its scopes, types, mutability and returns;
its lints are left out.

## Model

| member | source | states |
|---|---|---|
| TaskQueue.HealthyNodeIds | server/app/utils/task_queue.py:226-244 | the candidates for work are exactly the registered, healthy nodes that support the runtime, without the excluded one |
| TaskQueue.Destination | server/app/utils/task_queue.py:456-460 | lost work goes to a live registered node that can run it, and nowhere only if there is none |
| TaskQueue.LeastLoaded | server/app/utils/task_queue.py:278-299 | no candidate has a smaller load, queued and pending together |
| TaskQueueSafety.StepInv | server/app/blueprints/nodes.py:118-361 | every endpoint, sweep and tick keeps the invariant: waiting tasks sit once in their home queue and others in none, active tasks are their node's current task and carry tokens, job lists match |
| TaskQueueSafety.RunInv | server/app/utils/task_queue.py:302-690 | the invariant holds after every run |
| TaskQueueSafety.QueuedExactlyOnce | server/app/utils/task_queue.py:302-434 | a queued task is in exactly one place over all queues together, its home; any other task is in none |
| TaskQueueSafety.ReachablePlacement | server/app/utils/task_queue.py:302-611 | the same, and the node and tokens of active tasks, for every state reachable from an empty store |
| TaskQueueSafety.OneActivePerNode | server/app/utils/task_queue.py:542-611 | no node ever holds two claimed or running tasks, rejected receipts included |
| TaskQueueClaims.PopTaskHead | server/app/utils/task_queue.py:517-539 | no popped id is ever dropped: the pop loop hands over the head of the queue |
| TaskQueueClaims.ClaimFreshExact | server/app/utils/task_queue.py:556-611 | a claim hands over the head of the first queue that has one: the node's own, wasm for anyone if the node runs wasm, cloudpickle for anyone; nothing if all are empty; the refusal for a runtime the node lacks never happens |
| TaskQueueClaims.ClaimInv | server/app/utils/task_queue.py:542-611 | a claim, with the reclaiming before it, keeps the invariant whatever the node's current task is |
| TaskQueueEffects.StrangersRefused | server/app/blueprints/nodes.py:54-80 | a node's call with another token than its own, or of an unknown node, is refused without effect |
| TaskQueueEffects.RegisterEffect | server/app/blueprints/nodes.py:141-193 | a new node is live, runs cloudpickle, and wasm exactly if it said so |
| TaskQueueEffects.HeartbeatEffect | server/app/blueprints/nodes.py:118-138 | a heartbeat registers the node again, whatever happened to it, and makes it live |
| TaskQueueEffects.LiveForFiveSeconds | server/app/utils/task_queue.py:212-223 | a node is live for exactly five seconds after it was last heard of |
| TaskQueueEffects.NodesForever | server/app/blueprints/nodes.py:141-193 | in every run a node stays known under its token, with what it can run |
| TaskQueueEffects.ClaimEffect | server/app/utils/task_queue.py:542-611 | the answer and the whole state after a claim, from the one in which stale work is reclaimed |
| TaskQueueEffects.NoTaskIff | server/app/utils/task_queue.py:556-574 | a node is told that there is no task exactly when it has none in hand and none waits for it, or for anyone of a runtime it supports |
| TaskQueueEffects.FetchEffect | server/app/blueprints/nodes.py:233-286 | a download succeeds exactly for the task's node and download token, with its blob there, and only makes the task run |
| TaskQueueEffects.DeliverEffect | server/app/blueprints/nodes.py:289-361 | who may deliver, what an output, a failure and each kind of receipt lead to, and the whole state after it |
| TaskQueueEffects.DeliveredForever | server/app/utils/task_queue.py:637-690 | in every run a job's results hold the very bytes of an accepted output, or the message of an accepted failure, from then on, once, and nothing else for that task |
| TaskQueueEffects.RejectionsCounted | server/app/blueprints/nodes.py:325-334 | in every run a node's count is the number of its rejected receipts |
| TaskQueueEffects.DeregisteredIff | server/app/blueprints/nodes.py:325-334 | a node leaves the register exactly with a rejected receipt of its own that is at least its fifth |
| TaskQueueEffects.PollEffect | server/app/utils/task_queue.py:716-766 | a status poll stores the verdict over the job's tasks and changes nothing else |
| TaskQueueStart.StartIff | server/app/blueprints/start.py:107-143 | a start is planned exactly if it has a task and a live registered node can run it; otherwise nothing is created |
| TaskQueueStart.StartEffect | server/app/utils/task_queue.py:302-410 | each new task waits at the end of one live node's queue, in order, with its job and runtime; nothing else is new |
| TaskQueueStart.StartOptimal | server/app/utils/task_queue.py:278-299 | no other way to hand out as many tasks to live nodes leaves a shorter longest queue; a queue that grew ends at most one longer than any other |
| TaskQueueStart.LeastLoadedFirst | server/app/utils/task_queue.py:290-299 | of the nodes with the least load the first is picked |
| TaskQueueStart.DestinationFirst | server/app/utils/task_queue.py:456-460 | lost work goes to the first live node, by name, that can run it |
| TaskQueueDelivery.SubmitInv | server/app/blueprints/nodes.py:289-361 | a delivery keeps it: accepted, refused, or rejected with requeue and deregistration |
| TaskQueueRuns.StepLife | server/app/utils/task_queue.py:413-690 | every step moves every task along one lifecycle: back to waiting, claimed, running, or over |
| TaskQueueRuns.TerminalForever | server/app/utils/task_queue.py:637-690 | completed and failed are never left, and nothing of such a task changes again |
| TaskQueueRuns.AcceptanceEnds | server/app/blueprints/nodes.py:289-361 | an accepted delivery ends an active task and comes from the node and token that hold it |
| TaskQueueRuns.AtMostOneAcceptance | server/app/blueprints/nodes.py:289-361 | in every run a task accepts at most one result or failure |
| TaskQueueRuns.HeldSinceClaim | server/app/utils/task_queue.py:580-611 | whoever holds a task claimed it earlier and has held it without a break since |
| TaskQueueRuns.AcceptedFromLatestClaim | server/app/blueprints/nodes.py:289-361 | an accepted result comes from the node and token of the task's latest claim |
| TaskQueueRuns.SpentForever | server/app/utils/task_queue.py:413-434 | a token that no longer opens a task never opens it again |
| TaskQueueRuns.OldTokensRefused | server/app/blueprints/nodes.py:253-305 | tokens from before a requeue are refused for download and delivery forever, and the refusal changes nothing |
| TaskQueueRuns.QueueStep | server/app/utils/task_queue.py:517-606 | between drains a node's queue is served only from the front, by that node's claims, and extended only at the back |
| TaskQueueRuns.AdvancesOnePerClaim | server/app/utils/task_queue.py:517-606 | after c such claims a task that was at position p is at p - c |
| TaskQueueRuns.NoOvertaking | server/app/utils/task_queue.py:517-606 | the task at position p is handed out at the (p+1)-th such claim and waits until then, whatever happens in between |
| TaskQueueSweep.DeadNeverTarget | server/app/utils/task_queue.py:437-498 | lost work is never moved to the dead node it comes from |
| TaskQueueSweep.SweepTasks | server/app/utils/task_queue.py:437-509 | a sweep moves exactly the stranded tasks, each to a live node that can run it or to its unassigned queue |
| TaskQueueSweep.SweepNodes | server/app/utils/task_queue.py:437-509 | a sweep clears exactly the dead registered nodes' current tasks |
| TaskQueueSweep.SweepQueues | server/app/utils/task_queue.py:437-509 | every queue after a sweep from the state before it: empty for a dead registered node, else what it held, then the reclaimed tasks and then the drained ones that belong there, node by node |
| TaskQueueSweep.ReclaimClosed | server/app/utils/task_queue.py:437-465 | which tasks reclaiming appends to a queue, and in which order |
| TaskQueueSweep.RoutedKeepsOrder | server/app/utils/task_queue.py:468-498 | drained tasks that go to the same queue keep their order |
| TaskQueueSweep.SweepFreesTheDead | server/app/utils/task_queue.py:437-509 | afterwards a dead registered node has an empty queue, no current task and no unfinished task |
| TaskQueueSweep.SweepConservesWork | server/app/utils/task_queue.py:437-509 | the unfinished tasks are the same before and after |
| TaskQueueSweep.SweepIdempotent | server/app/utils/task_queue.py:501-509 | a second sweep at the same time changes nothing |
| TaskQueueStalePointer.SweepRobsIff | server/app/utils/task_queue.py:437-465 | a sweep takes an active task from a live holder exactly when a dead registered node still points at it |
| TaskQueueStalePointer.ReclaimRobsIff | server/app/utils/task_queue.py:437-465 | so does the reclaiming at the start of every claim and every job |
| TaskQueueStalePointer.StalePointerRun | server/app/blueprints/nodes.py:318-341 | a valid run from an empty store that gets there: claim, rejected receipt, a second node's claim, silence of the first |
| TaskQueueStalePointer.ShowsOtherIff | server/app/utils/task_queue.py:542-554 | a claim is answered with a task assigned to another node exactly when the node points at an active one and no dead registered node does |
| TaskQueueStalePointer.StalePointerShows | server/app/utils/task_queue.py:542-554 | on that run, while both nodes live, the first one's claim is answered with the second one's task |
| JobStatus.VerdictExact | server/app/utils/task_queue.py:716-766 | done means tasks exist and all have ended; failed means one of them failed; running means one is claimed or running |
| JobStatus.JobListForever | server/app/blueprints/start.py:107-143 | a job's list of tasks never changes |
| JobStatus.OneResultPerTask | server/app/utils/task_queue.py:769-787 | one result per task, in creation order, each the task's own |
| JobStatus.DoneForever | server/app/utils/task_queue.py:716-787 | a job that is done stays done with the same verdict and the same results |
| JobStatus.StoredVerdict | server/app/utils/task_queue.py:716-766 | in every run the stored status of a finished job is its verdict |
| TaskStore.Store.GetHealthyNodeIds | server/app/utils/task_queue.py:226-244 | the loop over the registered nodes computes the candidates |
| TaskStore.Store.Requeue | server/app/utils/task_queue.py:413-434 | the task waits again without tokens in the queue of its new node, or of its runtime |
| TaskStore.Store.RequeueStaleTasks | server/app/utils/task_queue.py:437-465 | the loop over dead nodes computes the reclaimed state |
| TaskStore.Store.DrainDeadNodeQueues | server/app/utils/task_queue.py:468-498 | both loops end and compute the drained state |
| TaskStore.Store.SweepStaleWork | server/app/utils/task_queue.py:501-509 | reclaim, then drain |
| TaskStore.Store.PopQueueTid | server/app/utils/task_queue.py:517-539 | the pop loop, with its skipped ids |
| TaskStore.Store.ClaimTaskForNode | server/app/utils/task_queue.py:542-611 | a claim: reclaim, existing task, pop, take |
| TaskStore.Store.SelectLeastLoadedNode | server/app/utils/task_queue.py:278-299 | the first node of least load, counted as pending |
| TaskStore.Store.AddTask | server/app/utils/task_queue.py:302-410 | a new task is listed in its job and waits in its queue |
| TaskStore.Store.StartTasks | server/app/blueprints/start.py:107-143 | reclaim, plan over the live nodes, create the tasks in order, refresh the verdict |
| TaskStore.Store.RefreshJobStatus | server/app/utils/task_queue.py:716-766 | the counting loop returns and stores the verdict |
| TaskStore.Store.GetJobResults | server/app/utils/task_queue.py:769-787 | the loop lists the results |
| TaskStore.Store.RegisterHandler | server/app/blueprints/nodes.py:141-193 | a new registered node |
| TaskStore.Store.HealthHandler | server/app/blueprints/nodes.py:118-138 | a heartbeat registers the node again |
| TaskStore.Store.ClaimHandler | server/app/blueprints/nodes.py:196-230 | authentication, then the claim |
| TaskStore.Store.DownloadHandler | server/app/blueprints/nodes.py:233-286 | node, token and blob checks, then running |
| TaskStore.Store.CompleteTask | server/app/utils/task_queue.py:637-664 | computes the state of an accepted output (what that is: TaskQueueEffects.DeliverEffect) |
| TaskStore.Store.FailTask | server/app/utils/task_queue.py:667-690 | computes the state of an accepted failure |
| TaskStore.Store.ResultHandler | server/app/blueprints/nodes.py:289-361 | checks, then failure, rejected receipt with requeue, or completion |
| Planner.GreedyOptimal | server/app/utils/task_queue.py:278-299 | no other assignment of as many tasks has a lower peak load; every node given work ends within one of every other |
| Planner.PeakNoLower | server/app/utils/task_queue.py:278-299 | any plan that leaves its nodes within one of each other is optimal |
| Planner.PendingSumsUp | server/app/utils/task_queue.py:278-299 | the pending counts are the planned counts and add up to the tasks planned |
| Planner.PlannedShards | server/app/blueprints/start.py:217-237 | one shard, unless a data-parallel hint with a cap above one meets two live nodes or more; then the smaller of the cap and their number |
| Planner.PlannedShardsCases | server/app/blueprints/start.py:217-237 | case by case: `chunk` if it is there, else `max_shards`; neither, or less than two of either, is no split |
| Planner.LabelsExact | server/app/blueprints/start.py:240-298 | every shard of every entry is planned exactly once and nothing else is |
| Planner.GreedySnoc | server/app/blueprints/start.py:240-298 | a greedy pass goes on from where it stopped, whatever entries it is cut into |
| Planner.PlanEntry | server/app/blueprints/start.py:268-290 | the shards of one entry continue the greedy pass, each with the entry's artifact |
| Planner.CollectUploads | server/app/blueprints/start.py:193-214 | accepted exactly when there are files, each a non-empty .wasm under a usable name of its own; then each name has its file's bytes |
| Planner.PlanWasmTasks | server/app/blueprints/start.py:240-298 | planning succeeds exactly on usable uploads and a manifest that names each of them and no other; it lists all shards in order, each with its entry's bytes, and is one greedy pass |
| HelperAnalysis.BadHasCause | cli/analysis.py:375-508 | a function that reaches a violation or a cycle violates the rules itself or calls one that does |
| HelperAnalysis.ErrorIffBad | cli/analysis.py:445-490 | a function's specified diagnostics are non-empty exactly when it reaches a violation or a call cycle |
| HelperAnalysis.DiagnosticsAre | cli/analysis.py:406-508 | which diagnostics a function gets, with code, name and order: each captured variable, each mutable global, each helper that reaches a violation or a cycle, each unrouted call |
| HelperAnalysis.AnalysisContext.AnalyzeHelper | cli/analysis.py:375-404 | whatever is cached or in progress, the search ends and reports an error exactly for bad helpers |
| HelperAnalysis.AnalysisContext.AnalyzeFunction | cli/analysis.py:406-508 | the diagnostics are exactly the specified ones |
| HelperAnalysis.AnalysisContext.AnalyzeTasks | cli/analysis.py:511-520 | so they are for all tasks, in any order, with any cache from before |
| PythonSubset.DivisionAgreesIff | sdk/python-sdk/tandem/builder.py:419-421 | truncating and flooring agree exactly when the division is exact or the signs are the same |
| PythonSubset.FloorIs | sdk/python-sdk/tandem/builder.py:419-421 | Python's remainder is on the divisor's side of zero and smaller than it |
| PythonSubset.TruncIs | sdk/python-sdk/tandem/builder.py:419-421 | Rust's is on the dividend's side and smaller than the divisor |
| RustTypes.TranslatableAccepted | sdk/python-sdk/tandem/builder.py:322-534 | what passes the static check is translated to a body rustc accepts: names in scope, every type right, every path returning, literals in range |
| RustCoverage.TypeOfIff | sdk/python-sdk/tandem/builder.py:407-534 | an expression is typed by the check exactly if rustc types its text and no chain stands under `not` or in a comparison, no `not` on an integer, no `+` on a boolean |
| RustCoverage.TranslatableIff | sdk/python-sdk/tandem/builder.py:322-534 | the check passes exactly the functions whose text rustc accepts and that have none of the patterns translated wrongly |
| RustSimulation.ExprAgrees | sdk/python-sdk/tandem/builder.py:407-534 | a well-typed expression whose arithmetic is exact evaluates in the emitted Rust to Python's value, of its type |
| RustSimulation.StmtAgrees | sdk/python-sdk/tandem/builder.py:322-403 | each statement keeps scopes and flat environment in agreement |
| RustSimulation.BlockAgrees | sdk/python-sdk/tandem/builder.py:350-388 | so do blocks and loops |
| RustSimulation.TranslationFaithful | sdk/python-sdk/tandem/builder.py:635-699 | for every function that passes the static check, all arguments of its types and every run with exact arithmetic: the emitted body compiles and returns the same value, of the declared type, or both fail |
| RustMistakes.ShadowingAgreesIff | sdk/python-sdk/tandem/builder.py:329-333 | an assignment in a branch to an outer name is lost, whatever the expressions: right exactly when the branch is skipped or would not change the value |
| RustMistakes.LoopShadowingAgreesIff | sdk/python-sdk/tandem/builder.py:329-388 | so is one in a loop, and once entered the loop never ends: right exactly when it is not entered, or fails in its first round, or Python's does not end |
| RustMistakes.CountingNeverEnds | sdk/python-sdk/tandem/builder.py:329-388 | a loop that counts to 3 gives 3 in Python and never ends in Rust |
| RustMistakes.LoopElseAgreesIff | sdk/python-sdk/tandem/builder.py:381-388 | the `else` of a loop is dropped: right exactly when the loop does not end at its test, or both continuations return the same |
| RustMistakes.NotChainAgreesIff | sdk/python-sdk/tandem/builder.py:427-523 | `not` over a chain of any length and any operands negates its first link only: right exactly when that link fails or the rest of the chain holds |
| RustMistakes.TwoTargetsAgreeIff | sdk/python-sdk/tandem/builder.py:329-333 | `x = y = e` evaluates e once for each target, for any e: right exactly when e has the same value again after x is assigned |
| RustMistakes.DivisionRunsAgreeIff | sdk/python-sdk/tandem/builder.py:498-513 | over all of i64 the two runs of `a // b` and `a % b` agree exactly when both fail on a zero divisor, or the division is exact or the signs are the same, and it is not the one that overflows |
| ServeNode.StepInv | node/src/serve.rs:304-406 | every step of the loop or of a start task keeps the invariant |
| ServeNode.SafeInEveryRun | node/src/serve.rs:304-406 | in every interleaving one start task per pid at most, marked in `starting`; no pid both hosted and given up |
| ServeNode.GivenUpForever | node/src/serve.rs:323-347 | a given-up pid is never started, tried or hosted again |
| ServeNode.ReportedOnce | node/src/serve.rs:401-405 | a node reports a pid failed at most once |
| ServeNode.AttemptsCounted | node/src/serve.rs:377-406 | a start task's phase counts its attempts: a success or the third failure ends them |
| ServeNode.GivenUpAfterThreeFailures | node/src/serve.rs:385-401 | a pid is given up only after exactly three failures of one start task and no success |
| ServeNodeEffects.FreshClaimStarts | node/src/serve.rs:319-347 | a claim of a pid not hosted, starting or given up is followed by marking it and spawning its first attempt, in every interleaving |
| ServeNodeEffects.HostedIff | node/src/serve.rs:352-369 | a pid is hosted exactly if a start of it succeeded and it was not stopped since |
| ServeNodeEffects.StartingIff | node/src/serve.rs:334-346 | a pid counts as starting exactly from its claim to the end of its start task |
| ServeNodeEffects.GivenUpIff | node/src/serve.rs:401-405 | a pid is given up exactly if some start task of it gave up |
| ServeNodeEffects.TaskEffect | node/src/serve.rs:377-405 | what each step of a start task leads to, and that it touches no other task |
| ServeNodeEffects.StopListStops | node/src/serve.rs:362-369 | the pids the server lists are removed one by one, in order, whatever start tasks do meanwhile |
| ServeStore.Store.AssignNodes | server/app/utils/serve_queue.py:112-131 | the assignment loop computes the assigned queues; nothing for a missing or failed deployment |
| ServeStore.Store.CreateServeDeployment | server/app/utils/serve_queue.py:59-71 | a listed, running deployment, assigned once |
| ServeStore.Store.MarkFailedStatus | server/app/utils/serve_queue.py:92-96 | failed, if it exists |
| ServeStore.Store.RemoveDeployment | server/app/utils/serve_queue.py:99-105 | deployment, marks and pending requests gone |
| ServeStore.Store.ClaimAssignment | server/app/utils/serve_queue.py:134-143 | the head of the node's queue, handed out only if the deployment exists |
| ServeStore.Store.HealthyServingNodeIds | server/app/utils/serve_queue.py:151-162 | exactly the healthy nodes marked within ten seconds |
| ServeStore.Store.NodesNext | server/app/blueprints/serve.py:114-123 | marks the active deployments of a poll and returns the others to stop |
| ServeStore.Store.ClaimRequest | server/app/utils/serve_queue.py:197-214 | the oldest request of the first listed deployment that has one |
| ServeStore.Store.LoadBalance | server/app/blueprints/serve.py:226-246 | a request is queued exactly when the healthy view is not empty |
| ServeStore.Store.ReapStaleServeNodes | server/app/utils/serve_queue.py:231-248 | the reaping loops compute the reaped and refilled state |
| ServeQueueEffects.DeployEffect | server/app/utils/serve_queue.py:59-131 | a new deployment runs with the replicas asked for, and exactly min(replicas, live nodes) live nodes gain it, once each |
| ServeQueueEffects.ReplicasForever | server/app/utils/serve_queue.py:59-71 | in every run it keeps that number as long as it exists |
| ServeQueueEffects.RefillAims | server/app/utils/serve_queue.py:112-131 | in every run each refill aims at the number it was created with |
| ServeQueueEffects.FailEffect | server/app/utils/serve_queue.py:92-96 | marking failed stops that deployment and changes nothing else |
| ServeQueueEffects.RemoveEffect | server/app/utils/serve_queue.py:99-105 | removing forgets that deployment with marks and requests, and nothing of others |
| ServeQueueEffects.ClaimEffect | server/app/utils/serve_queue.py:134-143 | a claim takes the first assignment and hands it over exactly if the deployment exists |
| ServeQueueEffects.PollEffect | server/app/blueprints/serve.py:114-123 | a poll marks the listed deployments that run, now, and lists the others to stop, both in order |
| ServeQueueEffects.MarkedForTenSeconds | server/app/utils/serve_queue.py:146-162 | a mark counts for the balancer for exactly ten seconds while its node is live |
| ServeQueueEffects.ReapKeepsTimes | server/app/utils/serve_queue.py:231-245 | a reap never makes a mark younger |
| ServeQueueEffects.TakeEffect | server/app/utils/serve_queue.py:197-214 | the end of a poll hands over the oldest request of the first listed deployment that has one, and takes only that |
| ServeQueueEffects.RequestsInOrder | server/app/utils/serve_queue.py:165-214 | over any steps, what was handed out followed by what waits is what waited followed by what was accepted: first in, first out, nothing lost or served twice |
| ServeQueueRuns.AssignExact | server/app/utils/serve_queue.py:125-131 | the loop pushes the pid once to each of the first missing nodes and to no other |
| ServeQueueRuns.AssignedExact | server/app/utils/serve_queue.py:112-131 | the targets are min(max(replicas - serving, 0), healthy not serving) distinct healthy nodes not serving |
| ServeQueueRuns.ReapLeavesHealthyView | server/app/utils/serve_queue.py:231-245 | after a reap the serving set is the balancer's view; the view before it, exactly when no healthy mark is ten seconds old to the instant |
| ServeQueueRuns.ReapRefills | server/app/utils/serve_queue.py:231-248 | over all deployments in any order, each running one is pushed once to exactly that many nodes, the others to none |
| ServeQueueRuns.StepInv | server/app/utils/serve_queue.py:59-143 | marks, requests and list entries exist only for existing deployments; queued pids were created |
| ServeQueueRuns.RemovedForever | server/app/utils/serve_queue.py:99-105 | a removed deployment has no marks or requests, is never handed out, and nodes that list it are told to stop, forever |
| ServeQueueRuns.RemoveRemoves | server/app/blueprints/serve.py:174-189 | removing a created deployment makes it removed |
| ServeQueueRuns.FailedForever | server/app/utils/serve_queue.py:112-122 | a failed deployment is never assigned or marked again; a node is handed it no more often than it was already waiting there |
| ServeQueueRuns.ClaimsHandOut | server/app/utils/serve_queue.py:134-143 | as many claims as a node's queue is long hand out an existing deployment, failed or not, exactly as often as it waits there |
| ServeQueueRuns.FailedHandedIff | server/app/utils/serve_queue.py:92-96 | a failed deployment can still be handed to a node exactly when it exists and waits in the node's queue |
| ServeQueueRuns.FailedStillHanded | server/app/utils/serve_queue.py:92-143 | deployed, failed and claimed: it is handed out |
| ServeQueueRuns.StepWaiting | server/app/utils/serve_queue.py:112-143 | only a deployment's creation and a refill while it runs add assignments; a claim that hands one out removes one |
| ServeQueueRuns.BalanceOnlyHealthy | server/app/blueprints/serve.py:226-246 | requests are only queued for existing deployments that a node serves |
| SweeperLock.SafeIffNoLateTry | server/app/utils/sweeper.py:27-46 | a run is exclusive exactly when no attempt comes while a sweep still going on is fifteen seconds old or older |
| SweeperLock.InTimeIsSafe | server/app/utils/sweeper.py:27-46 | if sweeps end within the lock's fifteen seconds, at most one instance sweeps and each deletes its own lock only |
| SweeperLock.OverrunBreaks | server/app/utils/sweeper.py:31-43 | a longer sweep lets a second one in and then deletes its lock |
| CompileKey.KeyFor | sdk/core/src/cache.rs:33-51 | the pushing loop hashes the key material |
| CompileKey.MaterialUnique | sdk/core/src/cache.rs:33-51 | among requests without newlines, with keys without '=', the key material determines the request and the source hash |
| CompileKey.ReadableConfusedIff | sdk/core/src/cache.rs:33-51 | among requests with readable options: exactly when the language, module or function holds a newline |
| CompileClashes.ConfusedIff | sdk/core/src/cache.rs:33-51 | among all requests with sorted options: one shares its key material with another exactly when a field holds a newline, or it has two options or more, or its one option has a second '=' or a shape among its rows with nothing or an '=' after it |
| CompileClashes.MergedConfuses | sdk/core/src/cache.rs:43-48 | any two options read like one with a newline in its value, under a key the request has |
| CompileKey.NewlinesConfuse | sdk/core/src/cache.rs:33-42 | a newline moved across either boundary, language and module or module and function: two requests, one key |
| CompileKey.EqualsConfuse | sdk/core/src/cache.rs:43-48 | an option key with an '=' among any other options: two requests, one key, both listed in order |
| CompileKey.SameOptionsSameListing | sdk/core/src/compile.rs:22-44 | the same options are listed the same way in whatever order they were set |
| CompileKey.ParseOptions | sdk/core/src/bin/tandem-compile.rs:117-123 | accepted exactly when every pair has an '='; keys hold none; the last value of a key wins |
| CompileKey.SourceMaterialUnique | sdk/core/src/bin/tandem-compile.rs:145-163 | without NUL bytes on either side every rename and every edit changes the material |
| CompileKey.TreeCollidesIff | sdk/core/src/bin/tandem-compile.rs:145-163 | a source tree shares its material with another exactly when it has two files or more, or one file that hides a second between two NULs |
| CompileKey.ListingCollidesIff | sdk/core/src/bin/tandem-compile.rs:148-163 | for listings in any order, with any paths free of NULs: exactly when it has two files or more, or two NULs in its one file |
| CompileKey.NulsConfuse | sdk/core/src/bin/tandem-compile.rs:153-161 | one file with two NULs can read like two files, whatever follows |
| CompileKey.HashSourceDir | sdk/core/src/bin/tandem-compile.rs:148-163 | the loop hashes the source material |
| CompileCache.BuildCache.Get | sdk/core/src/cache.rs:63-68 | a hit is a file that still validates |
| CompileCache.BuildCache.Put | sdk/core/src/cache.rs:71-76 | the artifact's bytes under the key; a failed write changes nothing or leaves any first part of them |
| CompileCache.BuildCache.CompileWithCache | sdk/core/src/lib.rs:39-63 | lookup, availability, compile, store, in that order (what it leads to: CompileCache.CompiledOnce, CompileCache.MissEffect) |
| CompileCache.GetAfterPut | sdk/core/src/validate.rs:21-61 | what was put comes back with bytes, kind and hash, and other keys are unaffected |
| CompileCache.ValidatesIff | sdk/core/src/validate.rs:21-61 | an artifact validates, as module or component, exactly by its size and its first eight bytes |
| CompileCache.CacheAgreesWithBackend | sdk/core/src/lib.rs:39-63 | over any history of readable requests and NUL-free sources whatever is returned equals what the backend would return |
| CompileCache.CompiledOnce | sdk/core/src/lib.rs:39-63 | after a call that returned an artifact and could write, the same request gets it from every later call, with or without the toolchain, and no file changes, unless its own file is lost or damaged |
| CompileCache.MissEffect | sdk/core/src/lib.rs:39-63 | what a call returns and writes when nothing usable is cached |
| CompileCache.TruncationNoticedIff | sdk/core/src/cache.rs:58-68 | a file cut short is a miss exactly when it lost part of its first eight bytes |
| CompileCache.PartialWriteIff | sdk/core/src/cache.rs:71-76 | after a write that fails half way the cache is right exactly when fewer than eight bytes were left, or all |
| TndmFrame.SplitFrame | node/src/executor.rs:44-56 | the node gets back exactly the framed pair |
| TndmFrame.SplitExact | node/src/executor.rs:44-56 | a payload is cut as the frame it is, and passed on whole if it is none |
| TndmFrame.SplitTruncated | node/src/executor.rs:44-56 | a frame cut inside its module is passed on whole; inside its input, the module is kept |
| TndmFrame.LengthRoundTrip | cli/remote.py:188-196 | four little-endian bytes carry every length below 2^32 |
| TndmFrame.FrameLayout | cli/remote.py:182-196 | the frame byte by byte |
| TndmFrame.ArtifactArrives | node/src/executor.rs:44-71 | a validated artifact, framed or not, is run unchanged as the kind it was validated as |
| HttpMessage.FindFrom | node/src/serve.rs:250-257 | the first occurrence, or none |
| HttpMessage.SplitsAtBlank | node/src/serve.rs:214-219 | the first CRLFCRLF of a message is its blank line, whatever the body holds |
| HttpMessage.SplitJoined | node/src/serve.rs:221-222 | splitting the head at CRLF gives back its lines |
| HttpProxy.BuildRequest | node/src/serve.rs:187-202 | the growing buffer is the request line, the fields sent, one empty line and the body |
| HttpProxy.RequestSplits | node/src/serve.rs:187-202 | parts without CR and LF give a request that splits into exactly its lines and its body |
| HttpProxy.RequestLayout | node/src/serve.rs:187-202 | the request byte by byte |
| HttpProxy.KeptConcat | node/src/serve.rs:193-199 | exactly the fields the proxy sets itself are left out, the others kept in order |
| HttpProxy.OneContentLength | node/src/serve.rs:190-200 | from token names, as section 5 of RFC 9112 has them, the lines read back field by field with exactly one Content-Length, equal to the body's length |
| HttpLengths.OnlyLengthIff | node/src/serve.rs:187-200 | over the bytes sent, for any method, path, names and values: they are read with the request line and body meant and its Content-Length as the only one, exactly when method and path hold no CRLF and every field is one the proxy leaves out or has no piece, cut at CRLF, that is empty or reads as Content-Length |
| HttpLengths.TokensReadRight | node/src/serve.rs:187-200 | fields of token names and plain values always are |
| HttpLengths.SpacedNameIsSent | node/src/serve.rs:193-199 | a name with a space at its end is sent on although it reads as Content-Length |
| HttpLengths.BrokenValueIsSent | node/src/serve.rs:193-199 | so is a value with a CRLF and a Content-Length line behind it |
| HttpLengths.BrokenPathIsSent | node/src/serve.rs:187-189 | a path with a CRLF puts what follows on a line of its own, here one that reads as Content-Length |
| HttpProxy.ParseHttpResponse | node/src/serve.rs:212-238 | the parse, with its loop over the header lines |
| HttpProxy.ResponseRoundTrip | node/src/serve.rs:212-247 | from any well-formed response with an ASCII head, under any decoding that keeps ASCII, the status, the fields in order and an arbitrary body are recovered |

## Left out

- Finer interleavings of the server: two concurrent reclaims could queue a task twice, and a request
  queued between a balancer's check and a removal would outlive the deployment. The theorems about the
  server are for atomic calls.
- Key expiry, encryption and key wrapping, receipts and JWT verification, authentication of users,
  the SQL tables, blob and bundle files, HTTP routing: only their outcome is an input, or they are absent.
- Planner.PlanWasmTasks: the manifest is already parsed, its names stripped; what `secure_filename` makes of
  a name is any function.
- Cloudpickle planning differs from the modelled planning only in its uploads and is not modelled apart.
- HelperAnalysis.AnalysisContext.AnalyzeFunction: messages, line numbers and columns of diagnostics are
  not modelled, nor how globals, captures and calls are found in the syntax tree.
- Sources that assign to a declared `global` pass the free-variable visitor; what the visitor finds is
  an input here.
- RustSimulation.TranslationFaithful: rustc's deny-by-default lints on constant operations that must panic are
  not modelled; annotated assignments, `for`, floats, strings, lists, comprehensions,
  calls, bit operations, power and true division are outside the subset; a loop with an `else` is in it and
  does not pass the check; it goes one way, since programs that do not pass can
  agree by accident, and RustMistakes.dfy has the exact conditions for the patterns.
- The emitted text is modelled as the tree rustc parses it into, not as characters; the literal
  -9223372036854775808 is rejected by the model although rustc accepts it.
- ServeNode.SafeInEveryRun: downloads, processes and sockets are outcomes of steps; the contents of a
  pid's work directory are not modelled.
- Request and response objects of web hosting and their expiry: a request is its identifier.
- The serving sets as Redis orders them by score: they are sets here.
- CompileKey.TreeCollidesIff: how the files are found and sorted is an input, as the paths that can name a
  file and their order.
- CompileCache.CacheAgreesWithBackend: the backend's output depends on the request and the sources, not
  on where the sources are; damage that keeps a file valid is excluded (see TruncationNoticedIff).
- HttpLengths.OnlyLengthIff: the reader takes CRLF alone as a line end; one that also takes a bare LF is not
  modelled.
- HttpProxy.ParseHttpResponse: of the white space `trim` takes off only the ASCII part is modelled.
- wasmtime, componentize-py, cargo, bubblewrap, the sandbox limits, the CLI, the keyring, installers,
  the usage display and ComputeFuture.
