/**
 What holds of web hosting in every run: a removed deployment is gone for good, a failed one is never
 assigned again, and a reap leaves exactly the healthy view and refills each deployment exactly.
*/
module ServeQueueRuns {
  import opened Sequences
  import opened ServeQueue

  /* ----- Refill: which nodes an assignment reaches ----- */

  function Missing(ids: seq<NodeId>, already: set<NodeId>): seq<NodeId> {
    if ids == [] then [] else (if ids[0] in already then [] else [ids[0]]) + Missing(ids[1..], already)
  }

  lemma {:induction false} MissingMembers(ids: seq<NodeId>, already: set<NodeId>)
    ensures forall n :: n in Missing(ids, already) <==> n in ids && n !in already
    ensures Distinct(ids) ==> Distinct(Missing(ids, already))
  {
    if ids != [] {
      MissingMembers(ids[1..], already);
      assert ids == [ids[0]] + ids[1..];
      assert Distinct(ids) ==> forall j :: 0 <= j < |ids| - 1 ==> ids[1..][j] == ids[j + 1] != ids[0];
    }
  }

  function Shortfall(replicas: int, serving: nat, available: nat): (k: nat)
    ensures k <= available
  {
    if replicas <= serving then 0 else if replicas - serving <= available then replicas - serving else available
  }

  function Targets(ids: seq<NodeId>, already: set<NodeId>, replicas: int): seq<NodeId> {
    Missing(ids, already)[..Shortfall(replicas, |already|, |Missing(ids, already)|)]
  }

  lemma {:induction false} MissingIgnores(ids: seq<NodeId>, already: set<NodeId>, n: NodeId)
    requires n !in ids
    ensures Missing(ids, already + {n}) == Missing(ids, already)
  {
    if ids != [] {
      assert ids == [ids[0]] + ids[1..];
      MissingIgnores(ids[1..], already, n);
    }
  }

  /** The loop of assign_nodes appends the pid once to the queue of each target and touches no other queue. */
  lemma {:induction false} AssignExact(queues: map<NodeId, seq<Pid>>, pid: Pid, ids: seq<NodeId>, already: set<NodeId>,
                                       replicas: int, n: NodeId)
    requires Distinct(ids)
    ensures QueueOf(AssignLoop(queues, pid, ids, already, replicas), n)
         == QueueOf(queues, n) + (if n in Targets(ids, already, replicas) then [pid] else [])
    decreases |ids|
  {
    if ids != [] && |already| < replicas {
      MissingMembers(ids, already);
      assert forall j :: 0 <= j < |ids| - 1 ==> ids[1..][j] == ids[j + 1] != ids[0];
      if ids[0] in already {
        AssignExact(queues, pid, ids[1..], already, replicas, n);
        assert Missing(ids, already) == Missing(ids[1..], already);
      } else {
        AssignExact(queues[ids[0] := QueueOf(queues, ids[0]) + [pid]], pid, ids[1..], already + {ids[0]}, replicas, n);
        MissingIgnores(ids[1..], already, ids[0]);
        TargetsFirst(ids, already, replicas);
        MissingMembers(ids[1..], already + {ids[0]});
      }
    }
  }

  lemma TargetsFirst(ids: seq<NodeId>, already: set<NodeId>, replicas: int)
    requires ids != [] && ids[0] !in already && |already| < replicas
    requires Missing(ids[1..], already + {ids[0]}) == Missing(ids[1..], already)
    ensures Targets(ids, already, replicas) == [ids[0]] + Targets(ids[1..], already + {ids[0]}, replicas)
  {
    assert Missing(ids, already) == [ids[0]] + Missing(ids[1..], already);
  }

  lemma {:induction false} AliveMembers(s: State, ids: seq<NodeId>)
    ensures forall n :: n in AliveIn(s, ids) <==> n in ids && Alive(s, n)
    ensures Distinct(ids) ==> Distinct(AliveIn(s, ids))
  {
    if ids != [] {
      AliveMembers(s, ids[1..]);
      assert ids == [ids[0]] + ids[1..];
      assert Distinct(ids) ==> forall j :: 0 <= j < |ids| - 1 ==> ids[1..][j] == ids[j + 1] != ids[0];
    }
  }

  /** The nodes an assignment of `pid` reaches in `s`. */
  function Assigned(s: State, pid: Pid): seq<NodeId> {
    if Running(s, pid) then Targets(HealthyNodes(s), MarksOf(s, pid).Keys, s.deploys[pid].replicas) else []
  }

  /** An assignment appends the pid to the queues of its targets and changes nothing else. */
  lemma AssignReaches(s: State, pid: Pid)
    ensures var t := Assign(s, pid);
      && t == s.(queues := t.queues)
      && forall n :: QueueOf(t.queues, n) == QueueOf(s.queues, n) + (if n in Assigned(s, pid) then [pid] else [])
  {
    if Running(s, pid) {
      AliveMembers(s, Sorted(s.registered));
      forall n
        ensures QueueOf(Assign(s, pid).queues, n) == QueueOf(s.queues, n) + (if n in Assigned(s, pid) then [pid] else [])
      {
        AssignExact(s.queues, pid, HealthyNodes(s), MarksOf(s, pid).Keys, s.deploys[pid].replicas, n);
      }
    } else {
      assert forall n :: QueueOf(s.queues, n) + [] == QueueOf(s.queues, n);
    }
  }

  /**
   The targets are exactly min(max(replicas - serving, 0), healthy not serving) distinct healthy nodes
   that are not serving the deployment.
  */
  lemma AssignedExact(s: State, pid: Pid)
    ensures Distinct(Assigned(s, pid))
    ensures forall n :: n in Assigned(s, pid) ==> n in Spare(s, pid)
    ensures |Assigned(s, pid)| == if Running(s, pid) then Shortfall(s.deploys[pid].replicas, |MarksOf(s, pid).Keys|, |Spare(s, pid)|) else 0
  {
    if Running(s, pid) {
      SpareIsMissing(s, pid);
      var missing := Missing(HealthyNodes(s), MarksOf(s, pid).Keys);
      assert Assigned(s, pid) == missing[..Shortfall(s.deploys[pid].replicas, |MarksOf(s, pid).Keys|, |missing|)];
      assert forall n :: n in Assigned(s, pid) ==> n in missing;
    }
  }

  lemma SpareIsMissing(s: State, pid: Pid)
    ensures var missing := Missing(HealthyNodes(s), MarksOf(s, pid).Keys);
      Distinct(missing) && Spare(s, pid) == ToSet(missing) && |missing| == |Spare(s, pid)|
  {
    AliveMembers(s, Sorted(s.registered));
    MissingMembers(HealthyNodes(s), MarksOf(s, pid).Keys);
    var missing := Missing(HealthyNodes(s), MarksOf(s, pid).Keys);
    DistinctSize(missing);
    assert Spare(s, pid) == ToSet(missing);
  }

  /** Registered healthy nodes not serving the deployment. */
  function Spare(s: State, pid: Pid): set<NodeId> {
    set n | n in s.registered && Alive(s, n) && n !in MarksOf(s, pid)
  }

  function ToSet<T>(q: seq<T>): set<T> {
    set x | x in q
  }

  lemma {:induction false} DistinctSize<T>(q: seq<T>)
    requires Distinct(q)
    ensures |ToSet(q)| == |q|
  {
    if q != [] {
      var (rest, last) := (q[..|q| - 1], q[|q| - 1]);
      assert q == rest + [last];
      DistinctSize(rest);
      assert last !in ToSet(rest);
      assert ToSet(q) == ToSet(rest) + {last};
    }
  }

  /* ----- One pass of the reaper ----- */

  /** How often a deployment waits in a node's queue. */
  function Waiting(s: State, n: NodeId, pid: Pid): nat {
    multiset(QueueOf(s.queues, n))[pid]
  }

  function AfterReaping(s: State, pid: Pid): State {
    s.(marks := s.marks[pid := ReapedMarks(s, pid)])
  }

  /** Nothing but marks and queues differs. */
  predicate SameRest(s: State, t: State) {
    && t.deploys == s.deploys && t.listed == s.listed && t.pending == s.pending
    && t.nodes == s.nodes && t.registered == s.registered && t.created == s.created && t.now == s.now
  }

  lemma AssignFrame(s: State, pid: Pid)
    ensures SameRest(s, Assign(s, pid)) && Assign(s, pid).marks == s.marks
  {
  }

  lemma {:induction false} ReapFrame(s: State, order: seq<Pid>)
    ensures SameRest(s, Reap(s, order))
    ensures forall p :: p in Reap(s, order).marks ==> p in s.marks || p in order
    decreases |order|
  {
    if order != [] {
      var (rest, pid) := (order[..|order| - 1], order[|order| - 1]);
      ReapFrame(s, rest);
      AssignFrame(AfterReaping(Reap(s, rest), pid), pid);
    }
  }

  lemma {:induction false} ReapMarks(s: State, order: seq<Pid>, p: Pid)
    requires Distinct(order)
    ensures MarksOf(Reap(s, order), p) == if p in order then ReapedMarks(s, p) else MarksOf(s, p)
    decreases |order|
  {
    if order != [] {
      var (rest, pid) := (order[..|order| - 1], order[|order| - 1]);
      assert order == rest + [pid] && pid !in rest;
      var u := Reap(s, rest);
      ReapFrame(s, rest);
      ReapMarks(s, rest, p);
      AssignFrame(AfterReaping(u, pid), pid);
      if p == pid {
        SameReapedMarks(s, u, pid);
      }
    }
  }

  lemma SameReapedMarks(s: State, t: State, pid: Pid)
    requires SameRest(s, t) && MarksOf(s, pid) == MarksOf(t, pid)
    ensures ReapedMarks(s, pid) == ReapedMarks(t, pid)
  {
  }

  /** Visiting the other deployments first does not change whom this one is assigned to. */
  lemma SameAssigned(s: State, rest: seq<Pid>, pid: Pid)
    requires Distinct(rest) && pid !in rest
    ensures Assigned(AfterReaping(Reap(s, rest), pid), pid) == Assigned(AfterReaping(s, pid), pid)
  {
    ReapFrame(s, rest);
    ReapMarks(s, rest, pid);
    SameNodesAlive(AfterReaping(s, pid), AfterReaping(Reap(s, rest), pid), Sorted(s.registered));
    assert ReapedMarks(Reap(s, rest), pid) == ReapedMarks(s, pid);
  }

  predicate Pushed(s: State, order: seq<Pid>, p: Pid, n: NodeId) {
    p in order && n in Assigned(AfterReaping(s, p), p)
  }

  lemma {:induction false} ReapPushes(s: State, order: seq<Pid>, p: Pid, n: NodeId)
    requires Distinct(order)
    ensures Waiting(Reap(s, order), n, p) == Waiting(s, n, p) + (if Pushed(s, order, p, n) then 1 else 0)
    decreases |order|
  {
    if order != [] {
      var (rest, pid) := (order[..|order| - 1], order[|order| - 1]);
      assert order == rest + [pid] && pid !in rest;
      ReapPushes(s, rest, p, n);
      SameAssigned(s, rest, pid);
      AssignReaches(AfterReaping(Reap(s, rest), pid), pid);
    }
  }

  lemma {:induction false} SameNodesAlive(s: State, t: State, ids: seq<NodeId>)
    requires s.nodes == t.nodes && s.now == t.now
    ensures AliveIn(s, ids) == AliveIn(t, ids)
  {
    if ids != [] {
      SameNodesAlive(s, t, ids[1..]);
    }
  }

  /**
   After a reap every listed deployment's serving set is the load balancer's view; it is the view from
   before the reap, too, unless a healthy node's last mark is exactly ten seconds old.
  */
  lemma ReapLeavesHealthyView(s: State, order: seq<Pid>, pid: Pid)
    requires Lists(order, s.listed) && pid in s.listed
    ensures MarksOf(Reap(s, order), pid).Keys == HealthyServing(Reap(s, order), pid)
    ensures MarksOf(Reap(s, order), pid).Keys == HealthyServing(s, pid) <==>
      !exists n :: n in MarksOf(s, pid) && MarksOf(s, pid)[n] == s.now - SERVE_NODE_STALE_SECONDS && Alive(s, n)
  {
    ReapFrame(s, order);
    ReapMarks(s, order, pid);
    var t := Reap(s, order);
    assert forall n :: Alive(t, n) == Alive(s, n);
    if n :| n in MarksOf(s, pid) && MarksOf(s, pid)[n] == s.now - SERVE_NODE_STALE_SECONDS && Alive(s, n) {
      assert n in HealthyServing(s, pid) && n !in MarksOf(t, pid);
    }
  }

  /**
   A reap refills every running deployment, whatever the order it visits them in: the pid is pushed once
   to each of exactly min(max(replicas - serving, 0), healthy not serving) healthy nodes not serving it,
   serving counted after the reap; a deployment that is not running gets nothing.
  */
  lemma ReapRefills(s: State, order: seq<Pid>, pid: Pid) returns (targets: set<NodeId>)
    requires Lists(order, s.listed) && pid in s.listed
    ensures targets <= Spare(Reap(s, order), pid)
    ensures forall n :: Waiting(Reap(s, order), n, pid) == Waiting(s, n, pid) + (if n in targets then 1 else 0)
    ensures var t := Reap(s, order);
      |targets| == if Running(s, pid) then Shortfall(s.deploys[pid].replicas, |HealthyServing(t, pid)|, |Spare(t, pid)|) else 0
  {
    ReapFrame(s, order);
    ReapMarks(s, order, pid);
    ReapLeavesHealthyView(s, order, pid);
    var u := AfterReaping(s, pid);
    AssignedExact(u, pid);
    DistinctSize(Assigned(u, pid));
    targets := ToSet(Assigned(u, pid));
    forall n
      ensures Waiting(Reap(s, order), n, pid) == Waiting(s, n, pid) + (if n in targets then 1 else 0)
    {
      ReapPushes(s, order, pid, n);
    }
    assert Spare(Reap(s, order), pid) == Spare(u, pid);
  }

  /* ----- What every run keeps ----- */

  /** Only existing deployments have marks, pending requests or an entry in the list. */
  predicate KeysRight(s: State) {
    && s.listed == s.deploys.Keys
    && s.listed <= s.created
    && s.marks.Keys <= s.deploys.Keys
    && s.pending.Keys <= s.deploys.Keys
  }

  ghost predicate QueuedWereCreated(s: State) {
    forall n, p :: Waiting(s, n, p) > 0 ==> p in s.created
  }

  ghost predicate Inv(s: State) {
    KeysRight(s) && QueuedWereCreated(s)
  }

  lemma {:induction false} PollShape(s: State, n: NodeId, pids: seq<Pid>)
    ensures var (t, active, stop) := Poll(s, n, pids);
      && t == s.(marks := t.marks)
      && (forall p :: MarksOf(t, p) == if p in pids && Running(s, p) then MarksOf(s, p)[n := s.now] else MarksOf(s, p))
      && t.marks.Keys == s.marks.Keys + (set p | p in active)
      && (forall p :: p in active <==> p in pids && Running(s, p))
      && (forall p :: p in stop <==> p in pids && !Running(s, p))
    decreases |pids|
  {
    if pids != [] {
      assert pids == pids[..|pids| - 1] + [pids[|pids| - 1]];
      PollShape(s, n, pids[..|pids| - 1]);
    }
  }

  lemma {:induction false} TakeShape(s: State, active: seq<Pid>)
    ensures var t := Take(s, active).0;
      && t == s.(pending := t.pending)
      && t.pending.Keys == s.pending.Keys
      && forall p :: |PendingOf(t, p)| <= |PendingOf(s, p)|
  {
    if active != [] && PendingOf(s, active[0]) == [] {
      TakeShape(s, active[1..]);
    }
  }

  lemma StepInv(s: State, step: Step)
    requires Inv(s) && Enabled(s, step)
    ensures Inv(Next(s, step))
  {
    StepKeys(s, step);
    StepCreated(s, step);
  }

  lemma BalanceKeys(s: State, pid: Pid, req: ReqId)
    requires KeysRight(s)
    ensures KeysRight(Balance(s, pid, req))
  {
    if n :| n in HealthyServing(s, pid) { assert n in MarksOf(s, pid); }
  }

  lemma StepKeys(s: State, step: Step)
    requires KeysRight(s) && Enabled(s, step)
    ensures KeysRight(Next(s, step)) && s.created <= Next(s, step).created
  {
    match step
    case PollStep(n, pids) => PollShape(s, n, pids);
    case TakeStep(active) => TakeShape(s, active);
    case DeployStep(pid, replicas) => AssignFrame(Enter(s, pid, replicas), pid);
    case BalanceStep(pid, req) => BalanceKeys(s, pid, req);
    case ReapStep(order) => ReapFrame(s, order);
    case _ =>
  }

  lemma StepCreated(s: State, step: Step)
    requires Inv(s) && Enabled(s, step)
    ensures QueuedWereCreated(Next(s, step))
  {
    StepKeys(s, step);
    forall n, p | Waiting(Next(s, step), n, p) > 0
      ensures p in Next(s, step).created
    {
      StepWaiting(s, step, n, p);
    }
  }

  predicate HandsOver(s: State, step: Step, n: NodeId, pid: Pid) {
    step == ClaimStep(n) && HandedOut(s, step) == Some(pid)
  }

  lemma ClaimWaiting(s: State, m: NodeId, n: NodeId, p: Pid)
    ensures Waiting(Claim(s, m).0, n, p) + (if m == n && Claim(s, m).1 == Some(p) then 1 else 0) <= Waiting(s, n, p)
  {
    var q := QueueOf(s.queues, m);
    if q != [] { assert q == [q[0]] + q[1..]; }
  }

  /** The only steps that add to a queue are a first assignment and a refill of a running deployment. */
  lemma StepWaiting(s: State, step: Step, n: NodeId, p: Pid)
    requires Enabled(s, step)
    ensures Waiting(Next(s, step), n, p) + (if HandsOver(s, step, n, p) then 1 else 0) <= Waiting(s, n, p)
      || (step.DeployStep? && step.pid == p) || (step.ReapStep? && p in s.listed && Running(s, p))
  {
    match step
    case DeployStep(pid, replicas) => AssignReaches(Enter(s, pid, replicas), pid);
    case PollStep(m, pids) => PollShape(s, m, pids);
    case TakeStep(active) => TakeShape(s, active);
    case ReapStep(order) => ReapPushes(s, order, p, n);
    case ClaimStep(m) => ClaimWaiting(s, m, n, p);
    case _ =>
  }

  /** The invariant holds in every state of every run. */
  lemma {:induction false} InvInEveryRun(states: seq<State>, steps: seq<Step>, i: nat)
    requires IsRun(states, steps) && i < |states|
    ensures Inv(states[i])
  {
    if i > 0 {
      InvInEveryRun(states, steps, i - 1);
      StepInv(states[i - 1], steps[i - 1]);
    }
  }

  /* ----- Removed means gone ----- */

  predicate Removed(s: State, pid: Pid) {
    pid in s.created && pid !in s.deploys
  }

  lemma StepRemoved(s: State, step: Step, pid: Pid)
    requires KeysRight(s) && Enabled(s, step) && Removed(s, pid)
    ensures Removed(Next(s, step), pid)
  {
    match step
    case PollStep(n, pids) => PollShape(s, n, pids);
    case TakeStep(active) => TakeShape(s, active);
    case ReapStep(order) => ReapFrame(s, order);
    case _ =>
  }

  /**
   Once removed, a deployment stays removed: it has no serving marks and no pending requests, no node is
   ever given it to start, and a node that still lists it is told to stop it.
  */
  lemma RemovedForever(states: seq<State>, steps: seq<Step>, pid: Pid, i: nat, j: nat)
    requires IsRun(states, steps) && i <= j < |states| && Removed(states[i], pid)
    ensures Removed(states[j], pid) && MarksOf(states[j], pid) == map[] && PendingOf(states[j], pid) == []
    ensures j < |steps| ==> HandedOut(states[j], steps[j]) != Some(pid)
    ensures j < |steps| && steps[j].PollStep? && pid in steps[j].pids ==> pid in Poll(states[j], steps[j].node, steps[j].pids).2
  {
    InvInEveryRun(states, steps, i);
    StaysRemoved(states, steps, pid, i, j);
    if j < |steps| && steps[j].PollStep? {
      PollShape(states[j], steps[j].node, steps[j].pids);
    }
  }

  lemma {:induction false} StaysRemoved(states: seq<State>, steps: seq<Step>, pid: Pid, i: nat, j: nat)
    requires Follows(states, steps) && i <= j < |states| && KeysRight(states[i]) && Removed(states[i], pid)
    ensures KeysRight(states[j]) && Removed(states[j], pid)
    decreases j
  {
    if i < j {
      StaysRemoved(states, steps, pid, i, j - 1);
      RemovedOnce(states[j - 1], steps[j - 1], states[j], pid);
    }
  }

  lemma RemovedOnce(s: State, step: Step, t: State, pid: Pid)
    requires KeysRight(s) && Enabled(s, step) && Removed(s, pid) && t == Next(s, step)
    ensures KeysRight(t) && Removed(t, pid)
  {
    StepKeys(s, step);
    StepRemoved(s, step, pid);
  }

  /** Removing does remove, whatever the deployment was. */
  lemma RemoveRemoves(s: State, pid: Pid)
    requires KeysRight(s) && pid in s.created
    ensures Removed(Remove(s, pid), pid)
  {
  }

  /* ----- Failed means never assigned again ----- */

  predicate Failed(s: State, pid: Pid) {
    pid in s.created && !Running(s, pid)
  }

  lemma StepFailed(s: State, step: Step, pid: Pid)
    requires KeysRight(s) && Enabled(s, step) && Failed(s, pid)
    ensures Failed(Next(s, step), pid)
    ensures MarksOf(Next(s, step), pid).Keys <= MarksOf(s, pid).Keys
  {
    match step
    case PollStep(m, pids) => PollShape(s, m, pids);
    case TakeStep(active) => TakeShape(s, active);
    case ReapStep(order) =>
      ReapFrame(s, order);
      ReapMarks(s, order, pid);
    case _ =>
  }

  function Hands(s: State, step: Step, n: NodeId, pid: Pid): nat {
    if HandsOver(s, step, n, pid) then 1 else 0
  }

  /** From a failed deployment no queue gains an assignment, and a claim that hands one out uses it up. */
  lemma FailedUsesUp(s: State, step: Step, t: State, pid: Pid, n: NodeId)
    requires Enabled(s, step) && Failed(s, pid) && t == Next(s, step)
    ensures Waiting(t, n, pid) + Hands(s, step, n, pid) <= Waiting(s, n, pid)
  {
    StepWaiting(s, step, n, pid);
  }

  lemma FailedOnce(s: State, step: Step, t: State, pid: Pid)
    requires KeysRight(s) && Enabled(s, step) && Failed(s, pid) && t == Next(s, step)
    ensures KeysRight(t) && Failed(t, pid) && MarksOf(t, pid).Keys <= MarksOf(s, pid).Keys
  {
    StepKeys(s, step);
    StepFailed(s, step, pid);
  }

  /** How often node `n` was given `pid` to start in steps i to j - 1. */
  ghost function Handed(states: seq<State>, steps: seq<Step>, n: NodeId, pid: Pid, i: nat, j: nat): nat
    requires i <= j <= |steps| < |states|
    decreases j
  {
    if i == j then 0 else Handed(states, steps, n, pid, i, j - 1) + Hands(states[j - 1], steps[j - 1], n, pid)
  }

  /**
   Once failed, a deployment is never assigned again and gains no serving node. Each node can still be
   handed only the assignments that were waiting for it when the deployment failed.
  */
  lemma FailedForever(states: seq<State>, steps: seq<Step>, pid: Pid, n: NodeId, i: nat, j: nat)
    requires IsRun(states, steps) && i <= j < |states| && Failed(states[i], pid)
    ensures Failed(states[j], pid)
    ensures MarksOf(states[j], pid).Keys <= MarksOf(states[i], pid).Keys
    ensures Handed(states, steps, n, pid, i, j) + Waiting(states[j], n, pid) <= Waiting(states[i], n, pid)
  {
    InvInEveryRun(states, steps, i);
    StaysFailed(states, steps, pid, i, j);
    FailedFrom(states, steps, pid, n, i, j);
  }

  lemma {:induction false} StaysFailed(states: seq<State>, steps: seq<Step>, pid: Pid, i: nat, j: nat)
    requires Follows(states, steps) && i <= j < |states| && KeysRight(states[i]) && Failed(states[i], pid)
    ensures KeysRight(states[j]) && Failed(states[j], pid) && MarksOf(states[j], pid).Keys <= MarksOf(states[i], pid).Keys
    decreases j
  {
    if i < j {
      StaysFailed(states, steps, pid, i, j - 1);
      FailedOnce(states[j - 1], steps[j - 1], states[j], pid);
    }
  }

  lemma {:induction false} HandedBound(states: seq<State>, steps: seq<Step>, pid: Pid, n: NodeId, i: nat, j: nat)
    requires Follows(states, steps) && i <= j < |states| && forall k :: i <= k < j ==> Failed(states[k], pid)
    ensures Handed(states, steps, n, pid, i, j) + Waiting(states[j], n, pid) <= Waiting(states[i], n, pid)
    decreases j
  {
    if i < j {
      HandedBound(states, steps, pid, n, i, j - 1);
      FailedUsesUp(states[j - 1], steps[j - 1], states[j], pid, n);
    }
  }

  lemma FailedFrom(states: seq<State>, steps: seq<Step>, pid: Pid, n: NodeId, i: nat, j: nat)
    requires Follows(states, steps) && i <= j < |states| && KeysRight(states[i]) && Failed(states[i], pid)
    ensures Handed(states, steps, n, pid, i, j) + Waiting(states[j], n, pid) <= Waiting(states[i], n, pid)
  {
    forall k | i <= k < j ensures Failed(states[k], pid) {
      StaysFailed(states, steps, pid, i, k);
    }
    HandedBound(states, steps, pid, n, i, j);
  }

  /** `k` claims by node `n` in a row. */
  function AfterClaims(s: State, n: NodeId, k: nat): State {
    if k == 0 then s else Claim(AfterClaims(s, n, k - 1), n).0
  }

  lemma {:induction false} ClaimsEmpty(s: State, n: NodeId, k: nat)
    requires k <= |QueueOf(s.queues, n)|
    ensures QueueOf(AfterClaims(s, n, k).queues, n) == QueueOf(s.queues, n)[k..]
    ensures AfterClaims(s, n, k).deploys == s.deploys
  {
    if k > 0 { ClaimsEmpty(s, n, k - 1); }
  }

  /** What is waiting for a node is handed out, failed or not: as often as it waits, by as many claims as the queue is long. */
  lemma ClaimsHandOut(s: State, pid: Pid, n: NodeId) returns (states: seq<State>, steps: seq<Step>)
    requires pid in s.deploys
    ensures Follows(states, steps) && states[0] == s
    ensures |steps| == |QueueOf(s.queues, n)| && forall i :: 0 <= i < |steps| ==> steps[i] == ClaimStep(n)
    ensures Handed(states, steps, n, pid, 0, |steps|) == Waiting(s, n, pid)
  {
    var q := QueueOf(s.queues, n);
    states := seq(|q| + 1, i requires 0 <= i => AfterClaims(s, n, i));
    steps := seq(|q|, i => ClaimStep(n));
    forall i | 0 <= i < |steps| ensures Enabled(states[i], steps[i]) && states[i + 1] == Next(states[i], steps[i]) {
      assert states[i] == AfterClaims(s, n, i) && steps[i] == ClaimStep(n);
    }
    HandedCount(s, pid, n, states, steps, |q|);
    assert q[..|q|] == q;
  }

  lemma HeadHandedOver(s: State, pid: Pid, n: NodeId, k: nat)
    requires pid in s.deploys && k < |QueueOf(s.queues, n)|
    ensures HandsOver(AfterClaims(s, n, k), ClaimStep(n), n, pid) <==> QueueOf(s.queues, n)[k] == pid
  {
    ClaimsEmpty(s, n, k);
    assert QueueOf(s.queues, n)[k..][0] == QueueOf(s.queues, n)[k];
  }

  lemma {:induction false} HandedCount(s: State, pid: Pid, n: NodeId, states: seq<State>, steps: seq<Step>, k: nat)
    requires pid in s.deploys && k <= |steps| == |QueueOf(s.queues, n)| && |states| == |steps| + 1
    requires forall i :: 0 <= i < |states| ==> states[i] == AfterClaims(s, n, i)
    requires forall i :: 0 <= i < |steps| ==> steps[i] == ClaimStep(n)
    ensures Handed(states, steps, n, pid, 0, k) == multiset(QueueOf(s.queues, n)[..k])[pid]
  {
    if k > 0 {
      var q := QueueOf(s.queues, n);
      HandedCount(s, pid, n, states, steps, k - 1);
      HeadHandedOver(s, pid, n, k - 1);
      assert states[k - 1] == AfterClaims(s, n, k - 1) && steps[k - 1] == ClaimStep(n);
      assert q[..k] == q[..k - 1] + [q[k - 1]];
    }
  }

  lemma {:induction false} SomeHandOver(states: seq<State>, steps: seq<Step>, n: NodeId, pid: Pid, j: nat) returns (k: nat)
    requires j <= |steps| < |states| && Handed(states, steps, n, pid, 0, j) > 0
    ensures k < j && HandsOver(states[k], steps[k], n, pid)
  {
    if HandsOver(states[j - 1], steps[j - 1], n, pid) { k := j - 1; } else { k := SomeHandOver(states, steps, n, pid, j - 1); }
  }

  lemma {:induction false} HandOverCounts(states: seq<State>, steps: seq<Step>, n: NodeId, pid: Pid, k: nat, j: nat)
    requires k < j <= |steps| < |states| && HandsOver(states[k], steps[k], n, pid)
    ensures Handed(states, steps, n, pid, 0, j) > 0
  {
    if k < j - 1 { HandOverCounts(states, steps, n, pid, k, j - 1); }
  }

  ghost predicate HandsOverLater(s: State, pid: Pid, n: NodeId, states: seq<State>, steps: seq<Step>) {
    Follows(states, steps) && states[0] == s && exists k :: 0 <= k < |steps| && HandsOver(states[k], steps[k], n, pid)
  }

  /** Some continuation hands a failed deployment to a node exactly when it still exists and waits in the node's queue. */
  lemma FailedHandedIff(s: State, pid: Pid, n: NodeId)
    requires KeysRight(s) && Failed(s, pid)
    ensures (exists states, steps :: HandsOverLater(s, pid, n, states, steps)) <==> pid in s.deploys && Waiting(s, n, pid) > 0
  {
    if states, steps :| HandsOverLater(s, pid, n, states, steps) {
      var k :| 0 <= k < |steps| && HandsOver(states[k], steps[k], n, pid);
      HandOverCounts(states, steps, n, pid, k, |steps|);
      FailedFrom(states, steps, pid, n, 0, |steps|);
      if Removed(s, pid) { StaysRemoved(states, steps, pid, 0, k); }
    }
    if pid in s.deploys && Waiting(s, n, pid) > 0 {
      var states, steps := ClaimsHandOut(s, pid, n);
      var k := SomeHandOver(states, steps, n, pid, |steps|);
      assert HandsOverLater(s, pid, n, states, steps);
    }
  }

  /** It happens: a deployment is assigned to a healthy node, fails elsewhere, and is handed to that node all the same. */
  lemma FailedStillHanded(s: State, pid: Pid, n: NodeId)
    requires Init(s) && s.registered == {n} && Alive(s, n)
    ensures var s1 := Next(s, DeployStep(pid, 1));
      var s2 := Next(s1, FailedStep(pid));
      Failed(s2, pid) && HandsOver(s2, ClaimStep(n), n, pid)
  {
    var e := Enter(s, pid, 1);
    AssignReaches(e, pid);
    AssignedExact(e, pid);
    assert MarksOf(e, pid).Keys == {};
    assert Spare(e, pid) == {n};
    var targets := Assigned(e, pid);
    assert |targets| == 1 && targets[0] in targets && targets == [targets[0]];
    assert QueueOf(e.queues, n) == [] && [] + [pid] == [pid];
  }

  /* ----- Requests ----- */

  /** A request is queued only while a node serves its deployment in the balancer's view, and then at the back. */
  lemma BalanceOnlyHealthy(s: State, pid: Pid, req: ReqId)
    requires KeysRight(s)
    ensures PendingOf(Balance(s, pid, req), pid) == PendingOf(s, pid) + (if HealthyServing(s, pid) != {} then [req] else [])
    ensures PendingOf(Balance(s, pid, req), pid) != PendingOf(s, pid) ==> pid in s.deploys
  {
    var t := Balance(s, pid, req);
    if HealthyServing(s, pid) != {} {
      var n :| n in HealthyServing(s, pid);
      assert n in MarksOf(s, pid);
    } else {
      assert PendingOf(s, pid) + [] == PendingOf(s, pid);
    }
  }
}
