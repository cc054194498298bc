/**
 What each call of web hosting answers and changes: who gets a new deployment, what its replica count is for as
 long as it exists, which marks a poll leaves and for how long they count, and in which order requests are served.
*/
module ServeQueueEffects {
  import opened Sequences
  import opened ServeQueue
  import opened ServeQueueRuns
  import TaskQueue

  /* ----- Deploying ----- */

  /** Registered nodes that are alive. */
  function LiveNodes(s: State): set<NodeId> {
    set n | n in s.registered && Alive(s, n)
  }

  function Min(a: int, b: nat): int {
    if a <= b then a else b
  }

  /**
   A new deployment runs with the replicas asked for, and exactly min(replicas, live nodes) distinct live nodes
   gain it, once each, at the end of their queues; nothing else changes.
  */
  lemma DeployEffect(s: State, pid: Pid, replicas: int) returns (gained: set<NodeId>)
    requires Inv(s) && Enabled(s, DeployStep(pid, replicas))
    ensures var t := Next(s, DeployStep(pid, replicas));
      && t == s.(deploys := s.deploys[pid := Deployment(replicas, true)], listed := s.listed + {pid}, created := s.created + {pid}, queues := t.queues)
      && gained <= LiveNodes(s) && |gained| == Min(replicas, |LiveNodes(s)|)
      && forall n :: QueueOf(t.queues, n) == QueueOf(s.queues, n) + (if n in gained then [pid] else [])
  {
    var e := Enter(s, pid, replicas);
    assert MarksOf(e, pid) == map[];
    AssignReaches(e, pid);
    AssignedExact(e, pid);
    assert Spare(e, pid) == LiveNodes(s);
    assert MarksOf(e, pid).Keys == {};
    DistinctSize(Assigned(e, pid));
    gained := ToSet(Assigned(e, pid));
  }

  /** No step changes how many replicas an existing deployment has, and none brings a removed one back. */
  lemma StepKeepsReplicas(s: State, step: Step, pid: Pid)
    requires KeysRight(s) && Enabled(s, step) && pid in s.created && pid in Next(s, step).deploys
    ensures pid in s.deploys && Next(s, step).deploys[pid].replicas == s.deploys[pid].replicas
  {
    match step
    case PollStep(n, pids) => PollShape(s, n, pids);
    case TakeStep(active) => TakeShape(s, active);
    case ReapStep(order) => ReapFrame(s, order);
    case DeployStep(p, replicas) => AssignFrame(Enter(s, p, replicas), p);
    case _ =>
  }

  /** The deployment was created, and has these replicas if it still exists. */
  predicate Keeps(s: State, pid: Pid, replicas: int) {
    KeysRight(s) && pid in s.created && (pid in s.deploys ==> s.deploys[pid].replicas == replicas)
  }

  lemma DeployKeeps(s: State, pid: Pid, replicas: int, t: State)
    requires Inv(s) && Enabled(s, DeployStep(pid, replicas)) && t == Next(s, DeployStep(pid, replicas))
    ensures Keeps(t, pid, replicas)
  {
    StepKeys(s, DeployStep(pid, replicas));
    var gained := DeployEffect(s, pid, replicas);
  }

  lemma KeepsStep(s: State, step: Step, t: State, pid: Pid, replicas: int)
    requires Keeps(s, pid, replicas) && Enabled(s, step) && t == Next(s, step)
    ensures Keeps(t, pid, replicas)
  {
    StepKeys(s, step);
    if pid in t.deploys { StepKeepsReplicas(s, step, pid); }
  }

  /** So in every run a deployment has the replicas it was created with for as long as it exists. */
  lemma ReplicasForever(states: seq<State>, steps: seq<Step>, i: nat, j: nat)
    requires IsRun(states, steps) && i < j < |states| && steps[i].DeployStep? && steps[i].pid in states[j].deploys
    ensures states[j].deploys[steps[i].pid].replicas == steps[i].replicas
  {
    InvInEveryRun(states, steps, i);
    DeployKeeps(states[i], steps[i].pid, steps[i].replicas, states[i + 1]);
    KeptFrom(states, steps, steps[i].pid, steps[i].replicas, i + 1, j);
  }

  lemma {:induction false} KeptFrom(states: seq<State>, steps: seq<Step>, pid: Pid, replicas: int, i: nat, j: nat)
    requires Follows(states, steps) && i <= j < |states| && Keeps(states[i], pid, replicas)
    ensures Keeps(states[j], pid, replicas)
    decreases j
  {
    if i < j {
      KeptFrom(states, steps, pid, replicas, i, j - 1);
      KeepsStep(states[j - 1], steps[j - 1], states[j], pid, replicas);
    }
  }

  /** And every refill of it aims at that number: as many nodes gain it as are missing, or as can be had. */
  lemma RefillAims(states: seq<State>, steps: seq<Step>, i: nat, j: nat) returns (gained: set<NodeId>)
    requires IsRun(states, steps) && i < j < |steps| && steps[i].DeployStep? && steps[j].ReapStep?
    requires Running(states[j], steps[i].pid)
    ensures var (pid, s, t) := (steps[i].pid, states[j], states[j + 1]);
      var serving := |HealthyServing(t, pid)|;
      && gained <= Spare(t, pid)
      && |gained| == (if steps[i].replicas <= serving then 0 else Min(steps[i].replicas - serving, |Spare(t, pid)|))
      && forall n :: Waiting(t, n, pid) == Waiting(s, n, pid) + (if n in gained then 1 else 0)
  {
    InvInEveryRun(states, steps, j);
    ReplicasForever(states, steps, i, j);
    gained := ReapRefills(states[j], steps[j].order, steps[i].pid);
  }

  /* ----- Ending a deployment ----- */

  /** Marking failed stops the deployment, if it exists, and nothing else. */
  lemma FailEffect(s: State, pid: Pid)
    ensures var t := Next(s, FailedStep(pid));
      && t == s.(deploys := t.deploys) && t.deploys.Keys == s.deploys.Keys
      && (pid in s.deploys ==> t.deploys[pid] == Deployment(s.deploys[pid].replicas, false))
      && forall p :: p in s.deploys && p != pid ==> t.deploys[p] == s.deploys[p]
  {
  }

  /** Removing forgets the deployment, its marks and its requests, and nothing of any other. */
  lemma RemoveEffect(s: State, pid: Pid)
    ensures var t := Next(s, RemoveStep(pid));
      && t == s.(deploys := t.deploys, listed := t.listed, marks := t.marks, pending := t.pending)
      && t.listed == s.listed - {pid} && t.deploys.Keys == s.deploys.Keys - {pid}
      && MarksOf(t, pid) == map[] && PendingOf(t, pid) == []
      && forall p :: p != pid ==> (p in s.deploys ==> t.deploys[p] == s.deploys[p]) && MarksOf(t, p) == MarksOf(s, p) && PendingOf(t, p) == PendingOf(s, p)
  {
  }

  /* ----- Assignments ----- */

  /** A claim takes the first assignment off the node's queue and hands it over exactly if the deployment still exists. */
  lemma ClaimEffect(s: State, n: NodeId)
    ensures var (t, handed, q) := (Next(s, ClaimStep(n)), HandedOut(s, ClaimStep(n)), QueueOf(s.queues, n));
      && t == s.(queues := t.queues) && (forall m :: m != n ==> QueueOf(t.queues, m) == QueueOf(s.queues, m))
      && (q == [] ==> handed == None && QueueOf(t.queues, n) == [])
      && (q != [] ==> QueueOf(t.queues, n) == q[1..] && (q[0] in s.deploys ==> handed == Some(q[0])) && (q[0] !in s.deploys ==> handed == None))
  {
  }

  /* ----- Polls and marks ----- */

  /** Those of the pids that run, or do not, in their order. */
  function Those(s: State, pids: seq<Pid>, running: bool): seq<Pid> {
    if pids == [] then [] else (if Running(s, pids[0]) == running then [pids[0]] else []) + Those(s, pids[1..], running)
  }

  lemma {:induction false} ThoseSnoc(s: State, pids: seq<Pid>, pid: Pid, running: bool)
    ensures Those(s, pids + [pid], running) == Those(s, pids, running) + (if Running(s, pid) == running then [pid] else [])
  {
    if pids == [] {
      assert ([] + [pid])[1..] == [] && [] + [pid] == [pid];
    } else {
      ThoseSnoc(s, pids[1..], pid, running);
      assert (pids + [pid])[0] == pids[0] && (pids + [pid])[1..] == pids[1..] + [pid];
      Regroup(if Running(s, pids[0]) == running then [pids[0]] else [], Those(s, pids[1..], running), if Running(s, pid) == running then [pid] else []);
    }
  }

  /** A poll marks the node as serving, now, each listed deployment that runs, and tells it to stop the others, both in order. */
  lemma {:induction false} PollEffect(s: State, n: NodeId, pids: seq<Pid>)
    ensures var (t, active, stop) := Poll(s, n, pids);
      && active == Those(s, pids, true) && stop == Those(s, pids, false)
      && t == s.(marks := t.marks)
      && forall p :: MarksOf(t, p) == if p in pids && Running(s, p) then MarksOf(s, p)[n := s.now] else MarksOf(s, p)
    decreases |pids|
  {
    PollShape(s, n, pids);
    if pids != [] {
      var (rest, last) := (pids[..|pids| - 1], pids[|pids| - 1]);
      assert pids == rest + [last];
      PollEffect(s, n, rest);
      ThoseSnoc(s, rest, last, true);
      ThoseSnoc(s, rest, last, false);
      assert Running(Poll(s, n, rest).0, last) == Running(s, last);
    }
  }

  /** A mark counts for the balancer for exactly ten seconds, as long as the node itself is live. */
  lemma MarkedForTenSeconds(s: State, n: NodeId, pid: Pid, pids: seq<Pid>, seconds: real)
    requires Running(s, pid) && pid in pids && seconds >= 0.0
    ensures var t := Next(Next(s, PollStep(n, pids)), TickStep(seconds));
      n in HealthyServing(t, pid) <==> seconds <= 10.0 && Alive(t, n)
  {
    PollShape(s, n, pids);
  }

  /** A reap drops marks but never makes one younger. */
  lemma ReapKeepsTimes(s: State, order: seq<Pid>, pid: Pid, n: NodeId)
    requires Distinct(order) && n in MarksOf(Reap(s, order), pid)
    ensures n in MarksOf(s, pid) && MarksOf(Reap(s, order), pid)[n] == MarksOf(s, pid)[n]
  {
    ReapMarks(s, order, pid);
  }

  /* ----- Requests: first in, first out ----- */

  /** The first of the deployments that has a request waiting. */
  function FirstWith(s: State, active: seq<Pid>): (p: Option<Pid>)
    ensures p.Some? ==> PendingOf(s, p.value) != []
  {
    if active == [] then None else if PendingOf(s, active[0]) != [] then Some(active[0]) else FirstWith(s, active[1..])
  }

  /** No deployment before place `i` has a request waiting. */
  predicate NoneBefore(s: State, active: seq<Pid>, i: nat) {
    i <= |active| && forall j :: 0 <= j < i ==> PendingOf(s, active[j]) == []
  }

  lemma {:induction false} FirstWithIs(s: State, active: seq<Pid>) returns (i: nat)
    ensures NoneBefore(s, active, i) && (FirstWith(s, active).None? <==> i == |active|)
    ensures i < |active| ==> FirstWith(s, active) == Some(active[i]) && PendingOf(s, active[i]) != []
  {
    if active == [] || PendingOf(s, active[0]) != [] {
      i := 0;
    } else {
      var k := FirstWithIs(s, active[1..]);
      i := k + 1;
      assert forall j :: 0 < j < i ==> active[j] == active[1..][j - 1];
    }
  }

  /** The end of a poll hands over the oldest request of the first listed deployment that has one, and takes only that one. */
  lemma {:induction false} TakeEffect(s: State, active: seq<Pid>)
    ensures Take(s, active) ==
      if FirstWith(s, active).None? then (s, None)
      else
        var p := FirstWith(s, active).value;
        var q := PendingOf(s, p);
        (s.(pending := s.pending[p := q[1..]]), Some(q[0]))
  {
    if active != [] && PendingOf(s, active[0]) == [] { TakeEffect(s, active[1..]); }
    var i := FirstWithIs(s, active);
  }

  /** The request of `pid` that a step hands to a node, as a sequence of at most one. */
  function TakenBy(s: State, step: Step, pid: Pid): seq<ReqId> {
    if step.TakeStep? && FirstWith(s, step.active) == Some(pid) then [PendingOf(s, pid)[0]] else []
  }

  /** The request for `pid` that a step accepts. */
  function QueuedBy(s: State, step: Step, pid: Pid): seq<ReqId> {
    if step.BalanceStep? && step.pid == pid && HealthyServing(s, pid) != {} then [step.req] else []
  }

  lemma PendingStep(s: State, step: Step, t: State, pid: Pid)
    requires Enabled(s, step) && t == Next(s, step) && step != RemoveStep(pid)
    ensures TakenBy(s, step, pid) + PendingOf(t, pid) == PendingOf(s, pid) + QueuedBy(s, step, pid)
  {
    match step
    case TakeStep(active) =>
      TakeEffect(s, active);
      var i := FirstWithIs(s, active);
    case PollStep(n, pids) => PollShape(s, n, pids);
    case ReapStep(order) => ReapFrame(s, order);
    case DeployStep(p, replicas) => AssignFrame(Enter(s, p, replicas), p);
    case _ =>
  }

  ghost function TakenIn(states: seq<State>, steps: seq<Step>, pid: Pid, i: nat, j: nat): seq<ReqId>
    requires i <= j <= |steps| < |states|
    decreases j
  {
    if i == j then [] else TakenIn(states, steps, pid, i, j - 1) + TakenBy(states[j - 1], steps[j - 1], pid)
  }

  ghost function QueuedIn(states: seq<State>, steps: seq<Step>, pid: Pid, i: nat, j: nat): seq<ReqId>
    requires i <= j <= |steps| < |states|
    decreases j
  {
    if i == j then [] else QueuedIn(states, steps, pid, i, j - 1) + QueuedBy(states[j - 1], steps[j - 1], pid)
  }

  lemma Handover(taken: seq<ReqId>, before: seq<ReqId>, queued: seq<ReqId>, now: seq<ReqId>, more: seq<ReqId>, a: seq<ReqId>, b: seq<ReqId>)
    requires taken + now == before + queued && a + more == now + b
    ensures (taken + a) + more == before + (queued + b)
  {
    assert (taken + a) + more == taken + (a + more) == (taken + now) + b == before + (queued + b);
  }

  lemma InOrderStep(s: State, step: Step, t: State, pid: Pid, taken: seq<ReqId>, before: seq<ReqId>, queued: seq<ReqId>)
    requires Enabled(s, step) && t == Next(s, step) && step != RemoveStep(pid)
    requires taken + PendingOf(s, pid) == before + queued
    ensures (taken + TakenBy(s, step, pid)) + PendingOf(t, pid) == before + (queued + QueuedBy(s, step, pid))
  {
    PendingStep(s, step, t, pid);
    Handover(taken, before, queued, PendingOf(s, pid), PendingOf(t, pid), TakenBy(s, step, pid), QueuedBy(s, step, pid));
  }

  /**
   Over any steps that do not remove the deployment: its requests that were handed to nodes, followed by those
   still waiting, are those that waited at first, followed by those accepted since. None is lost, none is
   served twice, and they are served in the order they came.
  */
  lemma {:induction false} RequestsInOrder(states: seq<State>, steps: seq<Step>, pid: Pid, i: nat, j: nat)
    requires Follows(states, steps) && i <= j < |states| && forall k :: i <= k < j ==> steps[k] != RemoveStep(pid)
    ensures TakenIn(states, steps, pid, i, j) + PendingOf(states[j], pid) == PendingOf(states[i], pid) + QueuedIn(states, steps, pid, i, j)
    decreases j
  {
    if i < j {
      RequestsInOrder(states, steps, pid, i, j - 1);
      InOrderStep(states[j - 1], steps[j - 1], states[j], pid,
                  TakenIn(states, steps, pid, i, j - 1), PendingOf(states[i], pid), QueuedIn(states, steps, pid, i, j - 1));
    }
  }
}
