/**
 The task queue of the Tandem server as one state and the functions that change it: the
 contents of Redis (node hashes, task hashes, queues, job lists, the registered set) and one
 function for each thing the server does with them. Every loop of the source is a recursive
 function here; TaskStore.dfy proves the loops themselves equal to these functions.
*/
module TaskQueue {
  import opened Sequences

  type NodeId = nat
  type Tid = nat
  type JobId = nat
  type Token = nat
  type Bytes = seq<bv8>

  datatype Runtime = Cloudpickle | Wasm
  datatype Status = Queued | Claimed | Running | Completed | Failed

  /** `node:N:queue` and `tasks:unassigned[:runtime]`. */
  datatype QueueKey = NodeQueue(node: NodeId) | Unassigned(runtime: Runtime)

  datatype Node = Node(
    token: Token,
    lastSeen: real,
    supportsWasm: bool,
    supportsCloudpickle: Option<bool>,
    current: Option<Tid>)

  datatype Task = Task(
    job: JobId,
    runtime: Runtime,
    status: Status,
    assignee: Option<NodeId>,
    claimToken: Option<Token>,
    downloadToken: Option<Token>,
    result: Option<Bytes>,
    error: string)

  datatype Job = Job(tasks: seq<Tid>, status: Status)

  datatype State = State(
    nodes: map<NodeId, Node>,
    registered: set<NodeId>,
    tasks: map<Tid, Task>,
    queues: map<QueueKey, seq<Tid>>,
    jobs: map<JobId, Job>,
    badReceipts: map<NodeId, nat>,
    issued: set<Token>,
    now: real)

  const NODE_STALE_SECONDS := 5.0
  const BAD_RECEIPT_THRESHOLD := 5

  predicate Active(status: Status) {
    status == Claimed || status == Running
  }

  predicate Terminal(status: Status) {
    status == Completed || status == Failed
  }

  /* ----- Reading the state ----- */

  function QueueIn(queues: map<QueueKey, seq<Tid>>, k: QueueKey): seq<Tid> {
    if k in queues then queues[k] else []
  }

  function Queue(s: State, k: QueueKey): seq<Tid> {
    QueueIn(s.queues, k)
  }

  function KeyFor(assignee: Option<NodeId>, runtime: Runtime): QueueKey {
    match assignee
    case Some(n) => NodeQueue(n)
    case None => Unassigned(runtime)
  }

  /** The one queue a waiting task belongs in. */
  function Home(task: Task): QueueKey {
    KeyFor(task.assignee, task.runtime)
  }

  predicate Supports(node: Node, runtime: Runtime) {
    match runtime
    case Wasm => node.supportsWasm
    case Cloudpickle => node.supportsCloudpickle.None? || node.supportsCloudpickle.value
  }

  predicate HealthyNode(node: Node, now: real) {
    node.lastSeen > 0.0 && now - node.lastSeen <= NODE_STALE_SECONDS
  }

  predicate Healthy(s: State, n: NodeId) {
    n in s.nodes && HealthyNode(s.nodes[n], s.now)
  }

  /** A registered node the sweep treats as gone. */
  predicate Dead(s: State, n: NodeId) {
    n in s.registered && n in s.nodes && !Healthy(s, n)
  }

  predicate Eligible(s: State, n: NodeId, exclude: Option<NodeId>, runtime: Runtime) {
    exclude != Some(n) && Healthy(s, n) && Supports(s.nodes[n], runtime)
  }

  function EligibleIn(s: State, ids: seq<NodeId>, exclude: Option<NodeId>, runtime: Runtime): seq<NodeId> {
    if ids == [] then []
    else (if Eligible(s, ids[0], exclude, runtime) then [ids[0]] else []) + EligibleIn(s, ids[1..], exclude, runtime)
  }

  lemma {:induction false} EligibleMembers(s: State, ids: seq<NodeId>, exclude: Option<NodeId>, runtime: Runtime)
    ensures forall n :: n in EligibleIn(s, ids, exclude, runtime) <==> n in ids && Eligible(s, n, exclude, runtime)
  {
    if ids != [] {
      EligibleMembers(s, ids[1..], exclude, runtime);
      assert ids == [ids[0]] + ids[1..];
    }
  }

  function HealthyNodeIds(s: State, exclude: Option<NodeId>, runtime: Runtime): (r: seq<NodeId>)
    ensures forall n :: n in r <==> n in s.registered && Eligible(s, n, exclude, runtime)
  {
    EligibleMembers(s, Sorted(s.registered), exclude, runtime);
    EligibleIn(s, Sorted(s.registered), exclude, runtime)
  }

  function Destination(s: State, exclude: Option<NodeId>, runtime: Runtime): (d: Option<NodeId>)
    ensures d.Some? ==> d.value in s.registered && Eligible(s, d.value, exclude, runtime)
    ensures d.None? ==> forall n :: n in s.registered ==> !Eligible(s, n, exclude, runtime)
  {
    var ids := HealthyNodeIds(s, exclude, runtime);
    if ids == [] then None
    else
      assert ids[0] in ids;
      Some(ids[0])
  }

  /* ----- Elementary writes ----- */

  function Push(s: State, k: QueueKey, t: Tid): State {
    s.(queues := s.queues[k := Queue(s, k) + [t]])
  }

  function Pop(s: State, k: QueueKey): State
    requires Queue(s, k) != []
  {
    s.(queues := s.queues[k := Queue(s, k)[1..]])
  }

  function PutTask(s: State, t: Tid, task: Task): State {
    s.(tasks := s.tasks[t := task])
  }

  function SetCurrent(s: State, n: NodeId, current: Option<Tid>): State
    requires n in s.nodes
  {
    s.(nodes := s.nodes[n := s.nodes[n].(current := current)])
  }

  function Touch(s: State, n: NodeId, current: Option<Tid>): State
    requires n in s.nodes
  {
    s.(nodes := s.nodes[n := s.nodes[n].(current := current, lastSeen := s.now)])
  }

  /** requeue_task: back to waiting, tokens gone, at the end of the chosen queue. */
  function Requeued(task: Task, dest: Option<NodeId>): Task {
    task.(status := Queued, assignee := dest, claimToken := None, downloadToken := None)
  }

  function RequeueTask(s: State, t: Tid, dest: Option<NodeId>): State {
    if t !in s.tasks then s
    else Push(PutTask(s, t, Requeued(s.tasks[t], dest)), KeyFor(dest, s.tasks[t].runtime), t)
  }

  /* ----- Failover ----- */

  function ReclaimNode(s: State, n: NodeId): State {
    if n !in s.nodes || Healthy(s, n) then s
    else match s.nodes[n].current
      case None => s
      case Some(t) =>
        if t !in s.tasks || !Active(s.tasks[t].status) then SetCurrent(s, n, None)
        else SetCurrent(RequeueTask(s, t, Destination(s, Some(n), s.tasks[t].runtime)), n, None)
  }

  function ReclaimAll(s: State, ids: seq<NodeId>): State
    decreases |ids|
  {
    if ids == [] then s else ReclaimAll(ReclaimNode(s, ids[0]), ids[1..])
  }

  function RequeueStale(s: State): State {
    ReclaimAll(s, Sorted(s.registered))
  }

  function DrainOne(s: State, n: NodeId): (s': State)
    requires Queue(s, NodeQueue(n)) != []
    ensures |Queue(s', NodeQueue(n))| < |Queue(s, NodeQueue(n))|
  {
    var t := Queue(s, NodeQueue(n))[0];
    var s1 := Pop(s, NodeQueue(n));
    if t !in s1.tasks || Terminal(s1.tasks[t].status) then s1
    else RequeueTask(s1, t, Destination(s1, Some(n), s1.tasks[t].runtime))
  }

  function DrainQueue(s: State, n: NodeId): State
    decreases |Queue(s, NodeQueue(n))|
  {
    if Queue(s, NodeQueue(n)) == [] then s else DrainQueue(DrainOne(s, n), n)
  }

  function DrainNode(s: State, n: NodeId): State {
    if n !in s.nodes || Healthy(s, n) then s else DrainQueue(s, n)
  }

  function DrainAll(s: State, ids: seq<NodeId>): State
    decreases |ids|
  {
    if ids == [] then s else DrainAll(DrainNode(s, ids[0]), ids[1..])
  }

  function DrainDead(s: State): State {
    DrainAll(s, Sorted(s.registered))
  }

  function SweepStale(s: State): State {
    DrainDead(RequeueStale(s))
  }

  /* ----- Claiming ----- */

  /** May the head of a queue be handed to `n`, or is it popped and dropped? */
  predicate Takable(s: State, t: Tid, n: NodeId, allowUnassigned: bool) {
    && t in s.tasks
    && (match s.tasks[t].assignee
        case Some(m) => m == n
        case None => allowUnassigned)
  }

  function PopTask(s: State, k: QueueKey, n: NodeId, allowUnassigned: bool): (r: (State, Option<Tid>))
    ensures r.1.Some? ==> Takable(r.0, r.1.value, n, allowUnassigned)
    decreases |Queue(s, k)|
  {
    if Queue(s, k) == [] then (s, None)
    else
      var t := Queue(s, k)[0];
      if Takable(s, t, n, allowUnassigned) then (Pop(s, k), Some(t))
      else PopTask(Pop(s, k), k, n, allowUnassigned)
  }

  function PopUnassigned(s: State, runtimes: seq<Runtime>, n: NodeId): (r: (State, Option<Tid>))
    ensures r.1.Some? ==> r.1.value in r.0.tasks
    decreases |runtimes|
  {
    if runtimes == [] then (s, None)
    else
      var r := PopTask(s, Unassigned(runtimes[0]), n, true);
      if r.1.Some? then r else PopUnassigned(r.0, runtimes[1..], n)
  }

  function UnassignedRuntimes(node: Node): seq<Runtime> {
    if Supports(node, Wasm) then [Wasm, Cloudpickle] else [Cloudpickle]
  }

  function PopFor(s: State, n: NodeId): (r: (State, Option<Tid>))
    requires n in s.nodes
    ensures r.1.Some? ==> r.1.value in r.0.tasks
  {
    var own := PopTask(s, NodeQueue(n), n, false);
    if own.1.Some? then own else PopUnassigned(own.0, UnassignedRuntimes(s.nodes[n]), n)
  }

  datatype Response =
    | Refused
    | NoTask
    | Existing(tid: Tid)
    | Handed(tid: Tid, claimToken: Token, downloadToken: Token)
    | Downloaded
    | Accepted
    | BadReceipt
    | Planned(job: JobId)
    | Done

  function TakeTask(s: State, n: NodeId, t: Tid, ct: Token, dt: Token): State
    requires n in s.nodes && t in s.tasks
  {
    var task := s.tasks[t].(status := Claimed, assignee := Some(n), claimToken := Some(ct), downloadToken := Some(dt));
    Touch(PutTask(s, t, task).(issued := s.issued + {ct, dt}), n, Some(t))
  }

  /** The part of a claim after stale work was reclaimed and the node has nothing in hand. */
  function ClaimFresh(s: State, n: NodeId, ct: Token, dt: Token): (State, Response)
    requires n in s.nodes
  {
    PopKeepsNodes(s, n);
    var (s1, popped) := PopFor(s, n);
    match popped
    case None => (s1, NoTask)
    case Some(t) =>
      if !Supports(s1.nodes[n], s1.tasks[t].runtime) then (RequeueTask(s1, t, None), NoTask)
      else (TakeTask(s1, n, t, ct, dt), Handed(t, ct, dt))
  }

  predicate HoldsActive(s: State, n: NodeId) {
    && n in s.nodes && s.nodes[n].current.Some?
    && s.nodes[n].current.value in s.tasks && Active(s.tasks[s.nodes[n].current.value].status)
  }

  /** A claim, stale work reclaimed. */
  function ClaimNow(s: State, n: NodeId, ct: Token, dt: Token): (State, Response) {
    if n !in s.nodes then (s, NoTask)
    else if HoldsActive(s, n) then (s, Existing(s.nodes[n].current.value))
    else ClaimFresh(if s.nodes[n].current.Some? then SetCurrent(s, n, None) else s, n, ct, dt)
  }

  /** claim_task_for_node */
  function ClaimTask(s: State, n: NodeId, ct: Token, dt: Token): (State, Response) {
    ClaimNow(RequeueStale(s), n, ct, dt)
  }

  lemma PopTaskKeeps(s: State, k: QueueKey, n: NodeId, allow: bool)
    ensures PopTask(s, k, n, allow).0.(queues := s.queues) == s
    decreases |Queue(s, k)|
  {
    if Queue(s, k) != [] && !Takable(s, Queue(s, k)[0], n, allow) {
      PopTaskKeeps(Pop(s, k), k, n, allow);
    }
  }

  lemma PopUnassignedKeeps(s: State, runtimes: seq<Runtime>, n: NodeId)
    ensures PopUnassigned(s, runtimes, n).0.(queues := s.queues) == s
    decreases |runtimes|
  {
    if runtimes != [] {
      PopTaskKeeps(s, Unassigned(runtimes[0]), n, true);
      PopUnassignedKeeps(PopTask(s, Unassigned(runtimes[0]), n, true).0, runtimes[1..], n);
    }
  }

  /** Looking for work changes queues only. */
  lemma PopKeepsNodes(s: State, n: NodeId)
    requires n in s.nodes
    ensures PopFor(s, n).0.(queues := s.queues) == s
  {
    PopTaskKeeps(s, NodeQueue(n), n, false);
    PopUnassignedKeeps(PopTask(s, NodeQueue(n), n, false).0, UnassignedRuntimes(s.nodes[n]), n);
  }

  /* ----- Planning and creating tasks ----- */

  function Load(s: State, pending: map<NodeId, nat>, n: NodeId): nat {
    |Queue(s, NodeQueue(n))| + if n in pending then pending[n] else 0
  }

  /** The first node of least load, as Python's `min` picks it. */
  function LeastLoaded(s: State, ids: seq<NodeId>, pending: map<NodeId, nat>): (best: NodeId)
    requires ids != []
    ensures best in ids
    ensures forall n :: n in ids ==> Load(s, pending, best) <= Load(s, pending, n)
  {
    if |ids| == 1 then ids[0]
    else
      var rest := LeastLoaded(s, ids[1..], pending);
      if Load(s, pending, ids[0]) <= Load(s, pending, rest) then ids[0] else rest
  }

  function Bump(pending: map<NodeId, nat>, n: NodeId): map<NodeId, nat> {
    pending[n := (if n in pending then pending[n] else 0) + 1]
  }

  /** The nodes select_least_loaded_node picks for `count` tasks in a row. */
  function GreedyPlan(s: State, ids: seq<NodeId>, pending: map<NodeId, nat>, count: nat): (r: (seq<NodeId>, map<NodeId, nat>))
    requires ids != []
    ensures |r.0| == count && forall i :: 0 <= i < count ==> r.0[i] in ids
    decreases count
  {
    if count == 0 then ([], pending)
    else
      var chosen := LeastLoaded(s, ids, pending);
      var rest := GreedyPlan(s, ids, Bump(pending, chosen), count - 1);
      ([chosen] + rest.0, rest.1)
  }

  function NewTask(job: JobId, runtime: Runtime, assignee: Option<NodeId>): Task {
    Task(job, runtime, Queued, assignee, None, None, None, "")
  }

  function CreateTask(s: State, job: JobId, t: Tid, runtime: Runtime, assignee: Option<NodeId>): State {
    var job' := Job((if job in s.jobs then s.jobs[job].tasks else []) + [t], if job in s.jobs then s.jobs[job].status else Queued);
    var s1 := PutTask(s, t, NewTask(job, runtime, assignee)).(jobs := s.jobs[job := job']);
    Push(s1, KeyFor(assignee, runtime), t)
  }

  function CreateAll(s: State, job: JobId, runtime: Runtime, tids: seq<Tid>, nodes: seq<NodeId>): State
    requires |tids| == |nodes|
    decreases |tids|
  {
    if tids == [] then s
    else CreateAll(CreateTask(s, job, tids[0], runtime, Some(nodes[0])), job, runtime, tids[1..], nodes[1..])
  }

  function CountStatus(s: State, tids: seq<Tid>, status: Status): nat {
    if tids == [] then 0
    else (if tids[0] in s.tasks && s.tasks[tids[0]].status == status then 1 else 0) + CountStatus(s, tids[1..], status)
  }

  datatype Summary = Summary(status: Status, done: bool)

  /** refresh_job_status: the verdict it returns and stores. */
  function JobSummary(s: State, tids: seq<Tid>): Summary {
    var failed := CountStatus(s, tids, Failed);
    var done := |tids| > 0 && CountStatus(s, tids, Completed) + failed == |tids|;
    if done && failed > 0 then Summary(Failed, done)
    else if done then Summary(Completed, done)
    else if CountStatus(s, tids, Running) > 0 || CountStatus(s, tids, Claimed) > 0 then Summary(Running, done)
    else Summary(Queued, done)
  }

  function JobTasks(s: State, job: JobId): seq<Tid> {
    if job in s.jobs then s.jobs[job].tasks else []
  }

  function RefreshJob(s: State, job: JobId): State {
    var tids := JobTasks(s, job);
    s.(jobs := s.jobs[job := Job(tids, JobSummary(s, tids).status)])
  }

  datatype ResultItem = ResultItem(tid: Tid, status: Status, result: Option<Bytes>, error: string)

  function ResultOf(s: State, t: Tid): ResultItem
    requires t in s.tasks
  {
    var task := s.tasks[t];
    ResultItem(t, task.status, if task.status == Completed then task.result else None, task.error)
  }

  /** get_job_results: one item per task, in creation order. */
  function ResultsOf(s: State, tids: seq<Tid>): seq<ResultItem> {
    if tids == [] then []
    else (if tids[0] in s.tasks then [ResultOf(s, tids[0])] else []) + ResultsOf(s, tids[1..])
  }

  /** start: reclaim, plan over the live nodes, create the job; no live node or no task is refused. */
  function StartJob(s: State, runtime: Runtime, job: JobId, tids: seq<Tid>): (State, Response) {
    var s1 := RequeueStale(s);
    var ids := HealthyNodeIds(s1, None, runtime);
    if ids == [] || tids == [] then (s1, Refused)
    else
      var plan := GreedyPlan(s1, ids, map[], |tids|).0;
      var s2 := s1.(jobs := s1.jobs[job := Job([], Queued)]);
      (RefreshJob(CreateAll(s2, job, runtime, tids, plan), job), Planned(job))
  }

  /* ----- The node endpoints ----- */

  predicate Authenticated(s: State, n: NodeId, auth: Token) {
    n in s.nodes && s.nodes[n].token == auth
  }

  function RegisterNode(s: State, n: NodeId, token: Token, wasm: bool): State {
    s.(nodes := s.nodes[n := Node(token, s.now, wasm, None, None)], registered := s.registered + {n})
  }

  function Heartbeat(s: State, n: NodeId): State
    requires n in s.nodes
  {
    s.(nodes := s.nodes[n := s.nodes[n].(lastSeen := s.now)], registered := s.registered + {n})
  }

  function Download(s: State, n: NodeId, t: Tid, token: Token, blobPresent: bool): (State, Response) {
    if t !in s.tasks || s.tasks[t].assignee != Some(n) || s.tasks[t].downloadToken != Some(token) || !blobPresent
    then (s, Refused)
    else (PutTask(s, t, s.tasks[t].(status := Running)), Downloaded)
  }

  datatype Receipt = Missing | Undecodable | Rejected | Verified
  datatype Report = Output(bytes: Bytes, receipt: Receipt) | Problem(message: string)

  function Complete(s: State, t: Tid, n: NodeId, bytes: Bytes): State
    requires t in s.tasks && n in s.nodes
  {
    var task := s.tasks[t].(status := Completed, result := Some(bytes), error := "", claimToken := None, downloadToken := None);
    RefreshJob(Touch(PutTask(s, t, task), n, None), task.job)
  }

  function Fail(s: State, t: Tid, n: NodeId, message: string): State
    requires t in s.tasks && n in s.nodes
  {
    var task := s.tasks[t].(status := Failed, error := message, claimToken := None, downloadToken := None);
    RefreshJob(Touch(PutTask(s, t, task), n, None), task.job)
  }

  function BadReceiptCount(s: State, n: NodeId): nat {
    (if n in s.badReceipts then s.badReceipts[n] else 0) + 1
  }

  function RejectReceipt(s: State, t: Tid, n: NodeId): State {
    var bad := BadReceiptCount(s, n);
    var s1 := s.(badReceipts := s.badReceipts[n := bad],
                 registered := if bad >= BAD_RECEIPT_THRESHOLD then s.registered - {n} else s.registered);
    RequeueTask(s1, t, None)
  }

  function Submit(s: State, n: NodeId, t: Tid, token: Token, report: Report): (State, Response)
    requires n in s.nodes
  {
    if t !in s.tasks || s.tasks[t].assignee != Some(n) || s.tasks[t].claimToken != Some(token) then (s, Refused)
    else match report
      case Problem(message) => (Fail(s, t, n, message), Accepted)
      case Output(bytes, receipt) =>
        if receipt == Missing || receipt == Undecodable then (s, Refused)
        else if receipt == Rejected then (RejectReceipt(s, t, n), BadReceipt)
        else (Complete(s, t, n, bytes), Accepted)
  }

  /* ----- Steps and runs ----- */

  datatype Step =
    | Register(n: NodeId, token: Token, wasm: bool)
    | Health(n: NodeId, auth: Token)
    | Start(runtime: Runtime, job: JobId, tids: seq<Tid>)
    | Claim(n: NodeId, auth: Token, ct: Token, dt: Token)
    | Fetch(n: NodeId, auth: Token, t: Tid, token: Token, blobPresent: bool)
    | Deliver(n: NodeId, auth: Token, t: Tid, token: Token, report: Report)
    | Poll(job: JobId)
    | Sweep
    | Tick(now: real)

  /** Identifiers and tokens drawn at random are new, and the clock does not run backwards. */
  predicate Enabled(s: State, step: Step) {
    match step
    case Register(n, _, _) => n !in s.nodes
    case Start(_, job, tids) => job !in s.jobs && Distinct(tids) && forall t :: t in tids ==> t !in s.tasks
    case Claim(_, _, ct, dt) => ct !in s.issued && dt !in s.issued && ct != dt
    case Poll(job) => job in s.jobs
    case Tick(now) => s.now <= now
    case _ => true
  }

  function Apply(s: State, step: Step): (State, Response) {
    match step
    case Register(n, token, wasm) => (RegisterNode(s, n, token, wasm), Done)
    case Health(n, auth) => if Authenticated(s, n, auth) then (Heartbeat(s, n), Done) else (s, Refused)
    case Start(runtime, job, tids) => StartJob(s, runtime, job, tids)
    case Claim(n, auth, ct, dt) => if Authenticated(s, n, auth) then ClaimTask(s, n, ct, dt) else (s, Refused)
    case Fetch(n, auth, t, token, blob) =>
      if Authenticated(s, n, auth) then Download(s, n, t, token, blob) else (s, Refused)
    case Deliver(n, auth, t, token, report) =>
      if Authenticated(s, n, auth) then Submit(s, n, t, token, report) else (s, Refused)
    case Poll(job) => (RefreshJob(s, job), Done)
    case Sweep => (SweepStale(s), Done)
    case Tick(now) => (s.(now := now), Done)
  }

  function Next(s: State, step: Step): State {
    Apply(s, step).0
  }

  predicate Init(s: State) {
    s.nodes == map[] && s.registered == {} && s.tasks == map[] && s.queues == map[] && s.jobs == map[]
  }

  predicate ValidRun(s: State, steps: seq<Step>)
    decreases |steps|
  {
    steps == [] || (Enabled(s, steps[0]) && ValidRun(Next(s, steps[0]), steps[1..]))
  }

  function Run(s: State, steps: seq<Step>): State
    decreases |steps|
  {
    if steps == [] then s else Run(Next(s, steps[0]), steps[1..])
  }
}
