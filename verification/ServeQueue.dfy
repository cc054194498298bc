/**
 Web hosting on the server: deployments, the nodes marked as serving them, the assignments waiting
 for each node and the requests waiting for each deployment, with one function for each thing the
 server does with them. Each call is one atomic step that reads the clock once; only the wait for a
 request, between a poll's marks and its answer, lets other steps in.
*/
module ServeQueue {
  import opened Sequences
  import TaskQueue

  type NodeId = TaskQueue.NodeId
  type Pid = nat
  type ReqId = nat

  const SERVE_NODE_STALE_SECONDS := 10.0

  datatype Deployment = Deployment(replicas: int, running: bool)

  datatype State = State(
    deploys: map<Pid, Deployment>,
    listed: set<Pid>,
    marks: map<Pid, map<NodeId, real>>,
    queues: map<NodeId, seq<Pid>>,
    pending: map<Pid, seq<ReqId>>,
    nodes: map<NodeId, TaskQueue.Node>,
    registered: set<NodeId>,
    created: set<Pid>,
    now: real)

  /* ----- Reading the state ----- */

  function MarksOf(s: State, pid: Pid): map<NodeId, real> {
    if pid in s.marks then s.marks[pid] else map[]
  }

  function QueueOf(queues: map<NodeId, seq<Pid>>, n: NodeId): seq<Pid> {
    if n in queues then queues[n] else []
  }

  function PendingOf(s: State, pid: Pid): seq<ReqId> {
    if pid in s.pending then s.pending[pid] else []
  }

  predicate Alive(s: State, n: NodeId) {
    n in s.nodes && TaskQueue.HealthyNode(s.nodes[n], s.now)
  }

  predicate Running(s: State, pid: Pid) {
    pid in s.deploys && s.deploys[pid].running
  }

  function AliveIn(s: State, ids: seq<NodeId>): seq<NodeId> {
    if ids == [] then [] else (if Alive(s, ids[0]) then [ids[0]] else []) + AliveIn(s, ids[1..])
  }

  /** The nodes new assignments go to, in order. */
  function HealthyNodes(s: State): seq<NodeId> {
    AliveIn(s, Sorted(s.registered))
  }

  /** The load balancer's view: marked within the last ten seconds, and healthy. */
  function HealthyServing(s: State, pid: Pid): set<NodeId> {
    set n | n in MarksOf(s, pid) && MarksOf(s, pid)[n] >= s.now - SERVE_NODE_STALE_SECONDS && Alive(s, n)
  }

  /* ----- Changing the state ----- */

  function AssignLoop(queues: map<NodeId, seq<Pid>>, pid: Pid, ids: seq<NodeId>, already: set<NodeId>, replicas: int)
    : map<NodeId, seq<Pid>>
    decreases |ids|
  {
    if ids == [] || |already| >= replicas then queues
    else if ids[0] in already then AssignLoop(queues, pid, ids[1..], already, replicas)
    else AssignLoop(queues[ids[0] := QueueOf(queues, ids[0]) + [pid]], pid, ids[1..], already + {ids[0]}, replicas)
  }

  function Assign(s: State, pid: Pid): State {
    if !Running(s, pid) then s
    else s.(queues := AssignLoop(s.queues, pid, HealthyNodes(s), MarksOf(s, pid).Keys, s.deploys[pid].replicas))
  }

  function Enter(s: State, pid: Pid, replicas: int): State {
    s.(deploys := s.deploys[pid := Deployment(replicas, true)], listed := s.listed + {pid}, created := s.created + {pid})
  }

  function Deploy(s: State, pid: Pid, replicas: int): State {
    Assign(Enter(s, pid, replicas), pid)
  }

  function MarkFailed(s: State, pid: Pid): State {
    if pid in s.deploys then s.(deploys := s.deploys[pid := s.deploys[pid].(running := false)]) else s
  }

  function Remove(s: State, pid: Pid): State {
    s.(listed := s.listed - {pid}, deploys := s.deploys - {pid}, marks := s.marks - {pid}, pending := s.pending - {pid})
  }

  function Claim(s: State, n: NodeId): (State, Option<Pid>) {
    var q := QueueOf(s.queues, n);
    if q == [] then (s, None)
    else (s.(queues := s.queues[n := q[1..]]), if q[0] in s.deploys then Some(q[0]) else None)
  }

  function Mark(s: State, pid: Pid, n: NodeId): State {
    s.(marks := s.marks[pid := MarksOf(s, pid)[n := s.now]])
  }

  /** A poll: mark the active deployments, tell the node to stop the others. */
  function Poll(s: State, n: NodeId, pids: seq<Pid>): (State, seq<Pid>, seq<Pid>)
    decreases |pids|
  {
    if pids == [] then (s, [], [])
    else
      var (t, active, stop) := Poll(s, n, pids[..|pids| - 1]);
      var pid := pids[|pids| - 1];
      if Running(t, pid) then (Mark(t, pid, n), active + [pid], stop) else (t, active, stop + [pid])
  }

  /** The end of a poll: the oldest request of the first listed deployment that has one. */
  function Take(s: State, active: seq<Pid>): (State, Option<ReqId>) {
    if active == [] then (s, None)
    else
      var q := PendingOf(s, active[0]);
      if q == [] then Take(s, active[1..]) else (s.(pending := s.pending[active[0] := q[1..]]), Some(q[0]))
  }

  function Balance(s: State, pid: Pid, req: ReqId): State {
    if HealthyServing(s, pid) == {} then s else s.(pending := s.pending[pid := PendingOf(s, pid) + [req]])
  }

  /** What a reap leaves of a deployment's marks: those younger than ten seconds, of healthy nodes. */
  function ReapedMarks(s: State, pid: Pid): map<NodeId, real> {
    map n | n in MarksOf(s, pid) && MarksOf(s, pid)[n] > s.now - SERVE_NODE_STALE_SECONDS && Alive(s, n) :: MarksOf(s, pid)[n]
  }

  function ReapOne(s: State, pid: Pid): State {
    Assign(s.(marks := s.marks[pid := ReapedMarks(s, pid)]), pid)
  }

  function Reap(s: State, order: seq<Pid>): State
    decreases |order|
  {
    if order == [] then s else ReapOne(Reap(s, order[..|order| - 1]), order[|order| - 1])
  }

  /** Any order in which the deployments may be listed. */
  predicate Lists(order: seq<Pid>, listed: set<Pid>) {
    Distinct(order) && (forall p :: p in order ==> p in listed) && (forall p :: p in listed ==> p in order)
  }

  /* ----- Steps ----- */

  datatype Step =
    | DeployStep(pid: Pid, replicas: int)
    | RemoveStep(pid: Pid)
    | FailedStep(pid: Pid)
    | ClaimStep(node: NodeId)
    | PollStep(node: NodeId, pids: seq<Pid>)
    | TakeStep(active: seq<Pid>)
    | BalanceStep(pid: Pid, req: ReqId)
    | ReapStep(order: seq<Pid>)
    | FleetStep(nodes: map<NodeId, TaskQueue.Node>, registered: set<NodeId>)
    | TickStep(seconds: real)

  predicate Enabled(s: State, step: Step) {
    match step
    case DeployStep(pid, replicas) => pid !in s.created && replicas >= 1
    case ReapStep(order) => Lists(order, s.listed)
    case TickStep(seconds) => seconds >= 0.0
    case _ => true
  }

  function Next(s: State, step: Step): State {
    match step
    case DeployStep(pid, replicas) => Deploy(s, pid, replicas)
    case RemoveStep(pid) => Remove(s, pid)
    case FailedStep(pid) => MarkFailed(s, pid)
    case ClaimStep(n) => Claim(s, n).0
    case PollStep(n, pids) => Poll(s, n, pids).0
    case TakeStep(active) => Take(s, active).0
    case BalanceStep(pid, req) => Balance(s, pid, req)
    case ReapStep(order) => Reap(s, order)
    case FleetStep(nodes, registered) => s.(nodes := nodes, registered := registered)
    case TickStep(seconds) => s.(now := s.now + seconds)
  }

  /** The deployment a step hands to a node to start, if any. */
  function HandedOut(s: State, step: Step): Option<Pid> {
    if step.ClaimStep? then Claim(s, step.node).1 else None
  }

  predicate Init(s: State) {
    s.deploys == map[] && s.listed == {} && s.marks == map[] && s.queues == map[] && s.pending == map[] && s.created == {}
  }

  /** The states step by step, from any first one. */
  ghost predicate Follows(states: seq<State>, steps: seq<Step>) {
    && |states| == |steps| + 1
    && forall i :: 0 <= i < |steps| ==> Enabled(states[i], steps[i]) && states[i + 1] == Next(states[i], steps[i])
  }

  ghost predicate IsRun(states: seq<State>, steps: seq<Step>) {
    Follows(states, steps) && Init(states[0])
  }
}
