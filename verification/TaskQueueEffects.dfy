/**
 What each call to the task queue answers and changes, written out against the state before it: which calls
 are refused, what a registration, a heartbeat, a claim, a download, a delivery and a status poll leave behind,
 and what that means over runs.
*/
module TaskQueueEffects {
  import opened Sequences
  import opened TaskQueue
  import opened TaskQueueInvariant
  import opened TaskQueueClaims
  import opened TaskQueueDelivery
  import opened TaskQueueSafety
  import opened TaskQueueRuns
  import opened JobStatus

  /* ----- Who may call ----- */

  predicate ByNode(step: Step) {
    step.Health? || step.Claim? || step.Fetch? || step.Deliver?
  }

  function Caller(step: Step): (NodeId, Token)
    requires ByNode(step)
  {
    match step
    case Health(n, auth) => (n, auth)
    case Claim(n, auth, _, _) => (n, auth)
    case Fetch(n, auth, _, _, _) => (n, auth)
    case Deliver(n, auth, _, _, _) => (n, auth)
  }

  /** A call in the name of an unknown node, or with another token than its own, is refused without effect. */
  lemma StrangersRefused(s: State, step: Step)
    requires ByNode(step) && var (n, auth) := Caller(step); n !in s.nodes || s.nodes[n].token != auth
    ensures Apply(s, step) == (s, Refused)
  {
  }

  /* ----- Registration and heartbeats ----- */

  /** A new node is live, takes cloudpickle work, and wasm work exactly if it said so; nobody else changes. */
  lemma RegisterEffect(s: State, n: NodeId, token: Token, wasm: bool)
    requires n !in s.nodes && s.now > 0.0
    ensures var (s', r) := Apply(s, Register(n, token, wasm));
      && r == Done && s' == s.(nodes := s'.nodes, registered := s'.registered)
      && s'.registered == s.registered + {n} && s'.nodes.Keys == s.nodes.Keys + {n}
      && (forall m :: m in s.nodes ==> s'.nodes[m] == s.nodes[m])
      && s'.nodes[n].token == token && s'.nodes[n].current == None && Healthy(s', n)
      && (forall runtime :: Supports(s'.nodes[n], runtime) <==> runtime == Cloudpickle || wasm)
  {
  }

  /** A heartbeat registers the node again, whatever happened to it, and makes it live; nothing else changes. */
  lemma HeartbeatEffect(s: State, n: NodeId, auth: Token)
    requires n in s.nodes && s.nodes[n].token == auth && s.now > 0.0
    ensures var (s', r) := Apply(s, Health(n, auth));
      && r == Done && s' == s.(nodes := s'.nodes, registered := s'.registered)
      && s'.registered == s.registered + {n} && s'.nodes.Keys == s.nodes.Keys
      && (forall m :: m in s.nodes && m != n ==> s'.nodes[m] == s.nodes[m])
      && s'.nodes[n] == s.nodes[n].(lastSeen := s.now) && Healthy(s', n)
  {
  }

  /** A node heard of at `seen` is live for exactly five seconds. */
  lemma LiveForFiveSeconds(s: State, n: NodeId, now: real)
    requires n in s.nodes && s.nodes[n].lastSeen > 0.0 && s.now <= now
    ensures Healthy(Next(s, Tick(now)), n) <==> now <= s.nodes[n].lastSeen + 5.0
    ensures Next(s, Tick(now)) == s.(now := now)
  {
  }

  /** Same nodes under the same tokens, with the same runtimes; same register and same rejections. */
  ghost predicate SameFleet(s: State, s': State) {
    && s'.registered == s.registered && s'.badReceipts == s.badReceipts && s'.nodes.Keys == s.nodes.Keys
    && forall n :: n in s.nodes ==> s'.nodes[n].token == s.nodes[n].token && s'.nodes[n].supportsWasm == s.nodes[n].supportsWasm
  }

  lemma RequeuedFleet(s: State, s': State)
    requires SameButRequeued(s, s')
    ensures SameFleet(s, s')
  {
  }

  lemma ReclaimFleet(s: State)
    ensures SameFleet(s, RequeueStale(s))
  {
    ReclaimAllKeeps(s, Sorted(s.registered));
    RequeuedFleet(s, RequeueStale(s));
  }

  lemma ClaimFleet(s: State, n: NodeId, ct: Token, dt: Token)
    requires Inv(s)
    ensures SameFleet(s, ClaimTask(s, n, ct, dt).0)
  {
    ClaimShape(s, n, ct, dt);
    ReclaimFleet(s);
    var (s', r) := ClaimTask(s, n, ct, dt);
    ClaimOfFleet(RequeueStale(s), n, ct, dt, s', r);
  }

  lemma ClaimOfFleet(s: State, n: NodeId, ct: Token, dt: Token, s': State, r: Response)
    requires ClaimOf(s, n, ct, dt, s', r)
    ensures SameFleet(s, s')
  {
  }

  /** Starting a job, claiming and sweeping leave the fleet as it is, but for its heartbeats and tasks in hand. */
  lemma WorkKeepsFleet(s: State, step: Step)
    requires Inv(s) && Enabled(s, step) && (step.Start? || step.Claim? || step.Sweep?)
    ensures SameFleet(s, Next(s, step))
  {
    match step
    case Start(runtime, job, tids) =>
      ReclaimFleet(s);
      StartKeepsNodes(s, runtime, job, tids);
    case Claim(n, auth, ct, dt) => if Authenticated(s, n, auth) { ClaimFleet(s, n, ct, dt); }
    case Sweep =>
      SweepKeeps(s);
      RequeuedFleet(s, SweepStale(s));
  }

  /** One step never takes a node away, nor changes its token or what it can run. */
  lemma StepKeepsNode(s: State, step: Step, n: NodeId)
    requires Inv(s) && Enabled(s, step) && n in s.nodes
    ensures var s' := Next(s, step);
      n in s'.nodes && s'.nodes[n].token == s.nodes[n].token && s'.nodes[n].supportsWasm == s.nodes[n].supportsWasm
  {
    if step.Start? || step.Claim? || step.Sweep? {
      WorkKeepsFleet(s, step);
    } else if step.Deliver? && Authenticated(s, step.n, step.auth) {
      DeliverEffect(s, step.n, step.auth, step.t, step.token, step.report);
    }
  }

  lemma {:induction false} CreateAllNodes(s: State, job: JobId, runtime: Runtime, tids: seq<Tid>, plan: seq<NodeId>)
    requires |tids| == |plan|
    ensures var s' := CreateAll(s, job, runtime, tids, plan);
      s'.nodes == s.nodes && s'.registered == s.registered && s'.badReceipts == s.badReceipts && s'.now == s.now
    decreases |tids|
  {
    if tids != [] { CreateAllNodes(CreateTask(s, job, tids[0], runtime, Some(plan[0])), job, runtime, tids[1..], plan[1..]); }
  }

  lemma StartKeepsNodes(s: State, runtime: Runtime, job: JobId, tids: seq<Tid>)
    ensures var (s1, s') := (RequeueStale(s), StartJob(s, runtime, job, tids).0);
      s'.nodes == s1.nodes && s'.registered == s1.registered && s'.badReceipts == s1.badReceipts && s'.now == s1.now
  {
    var s1 := RequeueStale(s);
    var ids := HealthyNodeIds(s1, None, runtime);
    if ids != [] && tids != [] {
      CreateAllNodes(s1.(jobs := s1.jobs[job := Job([], Queued)]), job, runtime, tids, GreedyPlan(s1, ids, map[], |tids|).0);
    }
  }

  /** So in every run a node stays known under its token, and what it can run is what it registered with. */
  lemma {:induction false} NodesForever(s: State, steps: seq<Step>, n: NodeId)
    requires Inv(s) && ValidRun(s, steps) && n in s.nodes
    ensures var s' := Run(s, steps);
      n in s'.nodes && s'.nodes[n].token == s.nodes[n].token && s'.nodes[n].supportsWasm == s.nodes[n].supportsWasm
    decreases |steps|
  {
    if steps != [] {
      StepKeepsNode(s, steps[0], n);
      StepInv(s, steps[0]);
      NodesForever(Next(s, steps[0]), steps[1..], n);
    }
  }

  /* ----- Claims ----- */

  /** `t` is the first in a queue. */
  predicate Heads(s: State, k: QueueKey, t: Tid) {
    Queue(s, k) != [] && Queue(s, k)[0] == t
  }

  /** The task is taken from the front of `k` into the node's hands, with the new tokens; nothing else changes. */
  ghost predicate TakenFrom(s: State, k: QueueKey, n: NodeId, t: Tid, ct: Token, dt: Token, s': State)
    requires n in s.nodes && t in s.tasks
  {
    && Heads(s, k, t)
    && s' == s.(
      queues := s.queues[k := Queue(s, k)[1..]],
      tasks := s.tasks[t := s.tasks[t].(status := Claimed, assignee := Some(n), claimToken := Some(ct), downloadToken := Some(dt))],
      nodes := s.nodes[n := s.nodes[n].(current := Some(t), lastSeen := s.now)],
      issued := s.issued + {ct, dt})
  }

  /**
   A node with an active task in hand is shown that task. Any other node is handed the first task of its own
   queue; if that is empty, the first unassigned wasm task, if it runs wasm; if there is none, the first
   unassigned cloudpickle task. It is told that there is no task only if all of these are empty. All of it
   from the state in which stale work has been reclaimed.
  */
  lemma ClaimEffect(s: State, n: NodeId, auth: Token, ct: Token, dt: Token)
    requires Inv(s) && n in s.nodes && s.nodes[n].token == auth
    ensures var (s1, s', r) := (RequeueStale(s), Apply(s, Claim(n, auth, ct, dt)).0, Apply(s, Claim(n, auth, ct, dt)).1);
      var (own, wasm, any) := (Queue(s1, NodeQueue(n)), Queue(s1, Unassigned(Wasm)), Queue(s1, Unassigned(Cloudpickle)));
      var runsWasm := s.nodes[n].supportsWasm;
      && n in s1.nodes
      && if HoldsActive(s1, n) then r == Existing(s1.nodes[n].current.value) && s' == s1
        else if own != [] then r == Handed(own[0], ct, dt) && own[0] in s1.tasks && TakenFrom(s1, NodeQueue(n), n, own[0], ct, dt, s')
        else if runsWasm && wasm != [] then r == Handed(wasm[0], ct, dt) && wasm[0] in s1.tasks && TakenFrom(s1, Unassigned(Wasm), n, wasm[0], ct, dt, s')
        else if any != [] then r == Handed(any[0], ct, dt) && any[0] in s1.tasks && TakenFrom(s1, Unassigned(Cloudpickle), n, any[0], ct, dt, s')
        else r == NoTask && s' == s1.(nodes := s1.nodes[n := s1.nodes[n].(current := None)])
  {
    ClaimShape(s, n, ct, dt);
  }

  /** Some task waits for the node, or for anyone that runs what the node runs. */
  ghost predicate WorkFor(s: State, n: NodeId, t: Tid, runsWasm: bool) {
    && t in s.tasks && s.tasks[t].status == Queued
    && (s.tasks[t].assignee == Some(n) || (s.tasks[t].assignee == None && (s.tasks[t].runtime == Cloudpickle || runsWasm)))
  }

  lemma WorkWaits(s: State, n: NodeId, runsWasm: bool)
    requires Inv(s)
    ensures (exists t :: WorkFor(s, n, t, runsWasm)) <==>
      Queue(s, NodeQueue(n)) != [] || (runsWasm && Queue(s, Unassigned(Wasm)) != []) || Queue(s, Unassigned(Cloudpickle)) != []
  {
    if t :| WorkFor(s, n, t, runsWasm) { assert t in Queue(s, Home(s.tasks[t])); }
    if Queue(s, NodeQueue(n)) != [] {
      HeadWaits(s, NodeQueue(n));
      assert WorkFor(s, n, Queue(s, NodeQueue(n))[0], runsWasm);
    }
    if runsWasm && Queue(s, Unassigned(Wasm)) != [] {
      HeadWaits(s, Unassigned(Wasm));
      assert WorkFor(s, n, Queue(s, Unassigned(Wasm))[0], runsWasm);
    }
    if Queue(s, Unassigned(Cloudpickle)) != [] {
      HeadWaits(s, Unassigned(Cloudpickle));
      assert WorkFor(s, n, Queue(s, Unassigned(Cloudpickle))[0], runsWasm);
    }
  }

  /** A node is told that there is no task exactly when it has none in hand and none waits that it could be given. */
  lemma NoTaskIff(s: State, n: NodeId, auth: Token, ct: Token, dt: Token)
    requires Inv(s) && n in s.nodes && s.nodes[n].token == auth
    ensures var s1 := RequeueStale(s);
      Apply(s, Claim(n, auth, ct, dt)).1 == NoTask <==> !HoldsActive(s1, n) && forall t :: !WorkFor(s1, n, t, s.nodes[n].supportsWasm)
  {
    ReclaimAllInv(s, Sorted(s.registered));
    ClaimEffect(s, n, auth, ct, dt);
    WorkWaits(RequeueStale(s), n, s.nodes[n].supportsWasm);
  }

  /* ----- Downloads ----- */

  /** A download succeeds exactly for the node and download token of the task, if its blob is there, and then the task runs. */
  lemma FetchEffect(s: State, n: NodeId, auth: Token, t: Tid, token: Token, blob: bool)
    requires n in s.nodes && s.nodes[n].token == auth
    ensures Apply(s, Fetch(n, auth, t, token, blob)) ==
      if blob && t in s.tasks && s.tasks[t].assignee == Some(n) && s.tasks[t].downloadToken == Some(token)
      then (s.(tasks := s.tasks[t := s.tasks[t].(status := Running)]), Downloaded) else (s, Refused)
  {
  }

  /* ----- Deliveries ----- */

  /** An ended task in the books: its record, its node freed and heard of, its job's verdict refreshed; no queue changes. */
  ghost predicate EndedAs(s: State, n: NodeId, t: Tid, ended: Task, s': State)
    requires n in s.nodes && t in s.tasks
  {
    && s' == s.(tasks := s'.tasks, nodes := s'.nodes, jobs := s'.jobs)
    && s'.tasks == s.tasks[t := ended]
    && s'.nodes == s.nodes[n := s.nodes[n].(current := None, lastSeen := s.now)]
    && Polled(s.(tasks := s'.tasks, nodes := s'.nodes), s.tasks[t].job, s')
  }

  /** The job has its list and, as status, its verdict; other jobs are untouched. */
  ghost predicate Polled(s: State, job: JobId, s': State) {
    && job in s.jobs && s' == s.(jobs := s'.jobs) && s'.jobs.Keys == s.jobs.Keys
    && (forall j :: j in s.jobs && j != job ==> s'.jobs[j] == s.jobs[j])
    && s'.jobs[job].tasks == s.jobs[job].tasks && s'.jobs[job].status == VerdictOf(s, s.jobs[job].tasks)
  }

  /** Over all tasks of a job: all ended, and one failed or none; or one active; or none. */
  function VerdictOf(s: State, tids: seq<Tid>): Status {
    if tids != [] && forall t :: t in tids ==> t in s.tasks && (s.tasks[t].status == Completed || s.tasks[t].status == Failed) then
      if exists t :: t in tids && t in s.tasks && s.tasks[t].status == Failed then Failed else Completed
    else if exists t :: t in tids && t in s.tasks && (s.tasks[t].status == Claimed || s.tasks[t].status == Running) then Running
    else Queued
  }

  lemma RefreshPolls(s: State, job: JobId)
    requires job in s.jobs
    ensures Polled(s, job, RefreshJob(s, job))
  {
    VerdictExact(s, s.jobs[job].tasks);
  }

  /** A status poll. */
  lemma PollEffect(s: State, job: JobId)
    requires job in s.jobs
    ensures Apply(s, Poll(job)).1 == Done && Polled(s, job, Next(s, Poll(job)))
  {
    RefreshPolls(s, job);
  }

  /** Sent back: waiting again, unassigned and without tokens, behind those that wait for anyone with its runtime. */
  ghost predicate SentBack(s: State, n: NodeId, t: Tid, s': State)
    requires t in s.tasks
  {
    var (k, rejections) := (Unassigned(s.tasks[t].runtime), (if n in s.badReceipts then s.badReceipts[n] else 0) + 1);
    && s' == s.(
      tasks := s.tasks[t := s.tasks[t].(status := Queued, assignee := None, claimToken := None, downloadToken := None)],
      queues := s.queues[k := Queue(s, k) + [t]],
      badReceipts := s.badReceipts[n := rejections],
      registered := if rejections >= 5 then s.registered - {n} else s.registered)
  }

  predicate MayDeliver(s: State, n: NodeId, t: Tid, token: Token) {
    t in s.tasks && s.tasks[t].assignee == Some(n) && s.tasks[t].claimToken == Some(token)
  }

  /**
   A delivery by anyone but the holder, or with a missing or unreadable receipt, is refused without effect. A
   failure is recorded with its message, a verified output with its bytes. A rejected receipt sends the task
   back and counts against the node, and from the fifth on deregisters it.
  */
  lemma DeliverEffect(s: State, n: NodeId, auth: Token, t: Tid, token: Token, report: Report)
    requires Inv(s) && n in s.nodes && s.nodes[n].token == auth
    ensures var (s', r) := Apply(s, Deliver(n, auth, t, token, report));
      if !MayDeliver(s, n, t, token) then (s', r) == (s, Refused)
      else match report
        case Problem(message) => r == Accepted
          && EndedAs(s, n, t, s.tasks[t].(status := Failed, error := message, claimToken := None, downloadToken := None), s')
        case Output(bytes, Verified) => r == Accepted
          && EndedAs(s, n, t, s.tasks[t].(status := Completed, result := Some(bytes), error := "", claimToken := None, downloadToken := None), s')
        case Output(_, Rejected) => r == BadReceipt && SentBack(s, n, t, s')
        case _ => (s', r) == (s, Refused)
  {
    if MayDeliver(s, n, t, token) { HolderDelivers(s, n, t, token, report); }
  }

  lemma HolderDelivers(s: State, n: NodeId, t: Tid, token: Token, report: Report)
    requires JobsRight(s) && n in s.nodes && MayDeliver(s, n, t, token)
    ensures var (s', r) := Submit(s, n, t, token, report);
      match report
      case Problem(message) => r == Accepted
        && EndedAs(s, n, t, s.tasks[t].(status := Failed, error := message, claimToken := None, downloadToken := None), s')
      case Output(bytes, Verified) => r == Accepted
        && EndedAs(s, n, t, s.tasks[t].(status := Completed, result := Some(bytes), error := "", claimToken := None, downloadToken := None), s')
      case Output(_, Rejected) => r == BadReceipt && SentBack(s, n, t, s')
      case _ => (s', r) == (s, Refused)
  {
    assert s.tasks[t].job in s.jobs;
    match report
    case Problem(message) =>
      EndEffect(s, n, t, s.tasks[t].(status := Failed, error := message, claimToken := None, downloadToken := None));
    case Output(bytes, receipt) =>
      EndEffect(s, n, t, s.tasks[t].(status := Completed, result := Some(bytes), error := "", claimToken := None, downloadToken := None));
  }

  lemma EndEffect(s: State, n: NodeId, t: Tid, ended: Task)
    requires n in s.nodes && t in s.tasks && ended.job == s.tasks[t].job && ended.job in s.jobs
    ensures EndedAs(s, n, t, ended, RefreshJob(Touch(PutTask(s, t, ended), n, None), ended.job))
  {
    RefreshPolls(Touch(PutTask(s, t, ended), n, None), ended.job);
  }

  /* ----- Results, over runs ----- */

  /** What get_job_results must say of a task that ended with this report. */
  function ItemFor(t: Tid, report: Report): ResultItem {
    match report
    case Output(bytes, _) => ResultItem(t, Completed, Some(bytes), "")
    case Problem(message) => ResultItem(t, Failed, None, message)
  }

  lemma AcceptedItem(s: State, n: NodeId, auth: Token, t: Tid, token: Token, report: Report)
    requires Inv(s) && Apply(s, Deliver(n, auth, t, token, report)).1 == Accepted
    ensures var s' := Next(s, Deliver(n, auth, t, token, report));
      && t in s.tasks && t in s'.tasks && Terminal(s'.tasks[t].status) && s'.tasks[t].job == s.tasks[t].job
      && s.tasks[t].job in s'.jobs && t in s'.jobs[s.tasks[t].job].tasks
      && ResultOf(s', t) == ItemFor(t, report)
  {
    DeliverEffect(s, n, auth, t, token, report);
  }

  /** The item of a listed task stands among the job's results once, where the task stands in the job's list. */
  lemma ItemListed(s: State, tids: seq<Tid>, t: Tid)
    requires Distinct(tids) && t in tids && forall u :: u in tids ==> u in s.tasks
    ensures |ResultsOf(s, tids)| == |tids|
    ensures exists i :: 0 <= i < |tids| && tids[i] == t && ResultsOf(s, tids)[i] == ResultOf(s, t)
    ensures forall item :: item in ResultsOf(s, tids) && item.tid == t ==> item == ResultOf(s, t)
  {
    OneResultPerTask(s, tids);
    var i :| 0 <= i < |tids| && tids[i] == t;
    assert ResultsOf(s, tids)[i] == ResultOf(s, t);
  }

  /** The job's results say of the task what the report said, once, and nothing else. */
  ghost predicate Says(s: State, job: JobId, t: Tid, report: Report) {
    var items := ResultsOf(s, JobTasks(s, job));
    && ItemFor(t, report) in items && |items| == |JobTasks(s, job)|
    && forall item :: item in items && item.tid == t ==> item == ItemFor(t, report)
  }

  lemma ListedSays(s: State, job: JobId, t: Tid, report: Report)
    requires Inv(s) && job in s.jobs && t in s.jobs[job].tasks && t in s.tasks && ResultOf(s, t) == ItemFor(t, report)
    ensures Says(s, job, t, report)
  {
    var tids := s.jobs[job].tasks;
    ItemListed(s, tids, t);
    var i :| 0 <= i < |tids| && tids[i] == t && ResultsOf(s, tids)[i] == ResultOf(s, t);
    assert ResultsOf(s, tids)[i] in ResultsOf(s, tids);
  }

  lemma DeliveredStays(s: State, job: JobId, t: Tid, report: Report, steps: seq<Step>)
    requires Inv(s) && ValidRun(s, steps) && job in s.jobs && t in s.jobs[job].tasks
    requires t in s.tasks && Terminal(s.tasks[t].status) && ResultOf(s, t) == ItemFor(t, report)
    ensures Says(Run(s, steps), job, t, report)
  {
    RunInv(s, steps);
    TerminalForever(s, steps, t);
    JobListForever(s, steps, job);
    ListedSays(Run(s, steps), job, t, report);
  }

  /**
   What a node delivered is what its job's results say from then on, in every run: the very bytes of an
   accepted output, the very message of an accepted failure, once, and nothing else for that task.
  */
  lemma DeliveredForever(s: State, steps: seq<Step>, i: nat, j: nat, t: Tid)
    requires Inv(s) && ValidRun(s, steps) && i < j <= |steps| && AcceptedAt(s, steps, i, t)
    ensures t in StateAt(s, steps, i).tasks
    ensures Says(StateAt(s, steps, j), StateAt(s, steps, i).tasks[t].job, t, steps[i].report)
  {
    At(s, steps, i);
    At(s, steps, i + 1);
    var (before, after) := (StateAt(s, steps, i), StateAt(s, steps, i + 1));
    AcceptedItem(before, steps[i].n, steps[i].auth, t, steps[i].token, steps[i].report);
    RunFrom(s, steps, i + 1, j);
    DeliveredStays(after, before.tasks[t].job, t, steps[i].report, steps[i + 1..j]);
  }

  /* ----- Rejections, over runs ----- */

  function Rejections(s: State, n: NodeId): nat {
    if n in s.badReceipts then s.badReceipts[n] else 0
  }

  /** How many deliveries of a node a run answers with BadReceipt. */
  function RejectedIn(s: State, steps: seq<Step>, n: NodeId): nat
    decreases |steps|
  {
    if steps == [] then 0
    else (if steps[0].Deliver? && steps[0].n == n && Apply(s, steps[0]).1 == BadReceipt then 1 else 0) + RejectedIn(Next(s, steps[0]), steps[1..], n)
  }

  lemma StepRejections(s: State, step: Step, n: NodeId)
    requires Inv(s) && Enabled(s, step)
    ensures Rejections(Next(s, step), n) == Rejections(s, n) + (if step.Deliver? && step.n == n && Apply(s, step).1 == BadReceipt then 1 else 0)
  {
    if step.Start? || step.Claim? || step.Sweep? {
      WorkKeepsFleet(s, step);
    } else if step.Deliver? && Authenticated(s, step.n, step.auth) {
      DeliverEffect(s, step.n, step.auth, step.t, step.token, step.report);
    }
  }

  /** The count is of the rejections, all of them, and a node is deregistered by exactly those from the fifth on. */
  lemma {:induction false} RejectionsCounted(s: State, steps: seq<Step>, n: NodeId)
    requires Inv(s) && ValidRun(s, steps)
    ensures Rejections(Run(s, steps), n) == Rejections(s, n) + RejectedIn(s, steps, n)
    decreases |steps|
  {
    if steps != [] {
      StepRejections(s, steps[0], n);
      StepInv(s, steps[0]);
      RejectionsCounted(Next(s, steps[0]), steps[1..], n);
    }
  }

  /** A step takes a node off the register exactly if it is that node's rejected delivery and at least its fifth. */
  lemma DeregisteredIff(s: State, step: Step, n: NodeId)
    requires Inv(s) && Enabled(s, step) && n in s.registered
    ensures n !in Next(s, step).registered <==>
      step.Deliver? && step.n == n && Apply(s, step).1 == BadReceipt && Rejections(s, n) >= 4
  {
    if step.Start? || step.Claim? || step.Sweep? {
      WorkKeepsFleet(s, step);
    } else if step.Deliver? && Authenticated(s, step.n, step.auth) {
      DeliverEffect(s, step.n, step.auth, step.t, step.token, step.report);
    }
  }
}
