/**
 Safety over whole runs of the task queue: the life of one task, at most one result per task and
 only from its latest claim, tokens that stay dead, first-in first-out service per node, and job
 verdicts that never change once a job is done.
*/
module TaskQueueRuns {
  import opened Sequences
  import opened TaskQueue
  import opened TaskQueueInvariant
  import opened TaskQueueClaims
  import opened TaskQueueSafety

  /* ----- Runs and their prefixes ----- */

  function StateAt(s: State, steps: seq<Step>, i: nat): State
    requires i <= |steps|
  {
    Run(s, steps[..i])
  }

  function ResponseAt(s: State, steps: seq<Step>, i: nat): Response
    requires i < |steps|
  {
    Apply(StateAt(s, steps, i), steps[i]).1
  }

  lemma {:induction false} RunSplit(s: State, a: seq<Step>, b: seq<Step>)
    ensures Run(s, a + b) == Run(Run(s, a), b)
    ensures ValidRun(s, a + b) <==> ValidRun(s, a) && ValidRun(Run(s, a), b)
    decreases |a|
  {
    if a == [] {
      assert a + b == b;
    } else {
      assert (a + b)[1..] == a[1..] + b;
      RunSplit(Next(s, a[0]), a[1..], b);
    }
  }

  lemma RunFrom(s: State, steps: seq<Step>, i: nat, j: nat)
    requires ValidRun(s, steps) && i <= j <= |steps|
    ensures ValidRun(StateAt(s, steps, i), steps[i..j])
    ensures StateAt(s, steps, j) == Run(StateAt(s, steps, i), steps[i..j])
  {
    assert steps == steps[..j] + steps[j..];
    RunSplit(s, steps[..j], steps[j..]);
    assert steps[..j] == steps[..i] + steps[i..j];
    RunSplit(s, steps[..i], steps[i..j]);
  }

  lemma StartState(s: State, steps: seq<Step>)
    ensures StateAt(s, steps, 0) == s
  {
    assert steps[..0] == [];
  }

  /** What holds at position i of a valid run from an invariant state. */
  lemma At(s: State, steps: seq<Step>, i: nat)
    requires Inv(s) && ValidRun(s, steps) && i <= |steps|
    ensures Inv(StateAt(s, steps, i))
    ensures i < |steps| ==> Enabled(StateAt(s, steps, i), steps[i])
    ensures i < |steps| ==> StateAt(s, steps, i + 1) == Next(StateAt(s, steps, i), steps[i])
    ensures StateAt(s, steps, |steps|) == Run(s, steps)
  {
    assert steps[..|steps|] == steps;
    assert steps[..i] + steps[i..] == steps;
    RunSplit(s, steps[..i], steps[i..]);
    RunInv(s, steps[..i]);
    if i < |steps| {
      assert steps[..i + 1] == steps[..i] + [steps[i]];
      RunSplit(s, steps[..i], [steps[i]]);
      assert [steps[i]][1..] == [];
    }
  }

  /* ----- The life of a task ----- */

  lemma DrainOneKeeps(s: State, n: NodeId)
    requires Queue(s, NodeQueue(n)) != []
    ensures SameButRequeued(s, DrainOne(s, n))
    ensures forall k :: k != NodeQueue(n) ==> Queue(s, k) <= Queue(DrainOne(s, n), k)
  {
  }

  lemma {:induction false} DrainQueueKeeps(s: State, n: NodeId)
    ensures SameButRequeued(s, DrainQueue(s, n))
    ensures forall k :: k != NodeQueue(n) ==> Queue(s, k) <= Queue(DrainQueue(s, n), k)
    decreases |Queue(s, NodeQueue(n))|
  {
    if Queue(s, NodeQueue(n)) != [] {
      var s1 := DrainOne(s, n);
      DrainOneKeeps(s, n);
      DrainQueueKeeps(s1, n);
      SameAfterSame(s, s1, DrainQueue(s1, n));
    }
  }

  /** Draining changes no node, and shortens only the queues of dead nodes. */
  lemma {:induction false} DrainAllKeeps(s: State, ids: seq<NodeId>)
    ensures SameButRequeued(s, DrainAll(s, ids))
    ensures forall k: QueueKey :: (k.NodeQueue? ==> k.node !in ids || k.node !in s.nodes || Healthy(s, k.node)) ==>
      Queue(s, k) <= Queue(DrainAll(s, ids), k)
    decreases |ids|
  {
    if ids != [] {
      DrainQueueKeeps(s, ids[0]);
      var s1 := DrainNode(s, ids[0]);
      DrainAllKeeps(s1, ids[1..]);
      SameAfterSame(s, s1, DrainAll(s1, ids[1..]));
      forall k: QueueKey | k.NodeQueue? ==> k.node !in ids || k.node !in s.nodes || Healthy(s, k.node)
        ensures Queue(s, k) <= Queue(DrainAll(s, ids), k)
      {
        assert k.NodeQueue? ==> (Healthy(s1, k.node) <==> Healthy(s, k.node));
      }
    }
  }

  lemma SweepKeeps(s: State)
    ensures SameButRequeued(s, SweepStale(s))
  {
    ReclaimAllKeeps(s, Sorted(s.registered));
    var s1 := RequeueStale(s);
    DrainAllKeeps(s1, Sorted(s1.registered));
    SameAfterSame(s, s1, SweepStale(s));
  }

  /** One step of one task. A result or failure is final; everything else goes back to waiting or forward. */
  ghost predicate Lifecycle(step: Step, r: Response, t: Tid, before: Task, after: Task) {
    || after == before
    || (!Terminal(before.status) && after == Requeued(before, after.assignee))
    || (step.Claim? && r == Handed(t, step.ct, step.dt) && !Terminal(before.status)
        && after == before.(status := Claimed, assignee := Some(step.n), claimToken := Some(step.ct), downloadToken := Some(step.dt)))
    || (step.Fetch? && step.t == t && Active(before.status) && after == before.(status := Running))
    || (step.Deliver? && step.t == t && r == Accepted && Active(before.status)
        && before.assignee == Some(step.n) && before.claimToken == Some(step.token)
        && Terminal(after.status) && after.job == before.job && after.claimToken.None? && after.downloadToken.None?)
  }

  lemma CreateTaskTasks(s: State, job: JobId, t: Tid, runtime: Runtime, assignee: Option<NodeId>)
    ensures var s' := CreateTask(s, job, t, runtime, assignee);
      && s'.tasks.Keys == s.tasks.Keys + {t}
      && s'.issued == s.issued
      && forall u :: u in s.tasks && u != t ==> s'.tasks[u] == s.tasks[u]
  {
  }

  lemma MembersCons(base: set<Tid>, tids: seq<Tid>)
    requires tids != []
    ensures base + {tids[0]} + (set t | t in tids[1..]) == base + (set t | t in tids)
  {
    assert tids == [tids[0]] + tids[1..];
  }

  lemma {:induction false} CreateAllTasks(s: State, job: JobId, runtime: Runtime, tids: seq<Tid>, nodes: seq<NodeId>)
    requires |tids| == |nodes|
    ensures var s' := CreateAll(s, job, runtime, tids, nodes);
      && s'.tasks.Keys == s.tasks.Keys + (set t | t in tids)
      && s'.issued == s.issued
      && forall t :: t in s.tasks && t !in tids ==> s'.tasks[t] == s.tasks[t]
    decreases |tids|
  {
    if tids != [] {
      var s1 := CreateTask(s, job, tids[0], runtime, Some(nodes[0]));
      CreateTaskTasks(s, job, tids[0], runtime, Some(nodes[0]));
      CreateAllTasks(s1, job, runtime, tids[1..], nodes[1..]);
      MembersCons(s.tasks.Keys, tids);
      assert forall t :: t !in tids ==> t != tids[0] && t !in tids[1..];
    }
  }

  lemma CreateTaskJobs(s: State, job: JobId, t: Tid, runtime: Runtime, assignee: Option<NodeId>)
    requires job in s.jobs
    ensures var s' := CreateTask(s, job, t, runtime, assignee);
      && s'.jobs.Keys == s.jobs.Keys
      && s'.jobs[job].tasks == s.jobs[job].tasks + [t]
      && forall j :: j in s.jobs && j != job ==> s'.jobs[j] == s.jobs[j]
  {
  }

  lemma {:induction false} CreateAllJobs(s: State, job: JobId, runtime: Runtime, tids: seq<Tid>, nodes: seq<NodeId>)
    requires |tids| == |nodes| && job in s.jobs
    ensures var s' := CreateAll(s, job, runtime, tids, nodes);
      && s'.jobs.Keys == s.jobs.Keys
      && s'.jobs[job].tasks == s.jobs[job].tasks + tids
      && forall j :: j in s.jobs && j != job ==> s'.jobs[j] == s.jobs[j]
    decreases |tids|
  {
    if tids != [] {
      var s1 := CreateTask(s, job, tids[0], runtime, Some(nodes[0]));
      CreateTaskJobs(s, job, tids[0], runtime, Some(nodes[0]));
      CreateAllJobs(s1, job, runtime, tids[1..], nodes[1..]);
      assert s.jobs[job].tasks + tids == s1.jobs[job].tasks + tids[1..];
    }
  }

  lemma {:induction false} CreateAllQueues(s: State, job: JobId, runtime: Runtime, tids: seq<Tid>, nodes: seq<NodeId>)
    requires |tids| == |nodes|
    ensures forall k :: Queue(s, k) <= Queue(CreateAll(s, job, runtime, tids, nodes), k)
    decreases |tids|
  {
    if tids != [] {
      var s1 := CreateTask(s, job, tids[0], runtime, Some(nodes[0]));
      assert forall k :: Queue(s, k) <= Queue(s1, k);
      CreateAllQueues(s1, job, runtime, tids[1..], nodes[1..]);
    }
  }

  lemma {:induction false} CreatedWait(s: State, job: JobId, runtime: Runtime, tids: seq<Tid>, nodes: seq<NodeId>, t: Tid)
    requires |tids| == |nodes| && Distinct(tids) && t in tids
    ensures t in CreateAll(s, job, runtime, tids, nodes).tasks
    ensures CreateAll(s, job, runtime, tids, nodes).tasks[t].status == Queued
    decreases |tids|
  {
    var s1 := CreateTask(s, job, tids[0], runtime, Some(nodes[0]));
    if t == tids[0] {
      assert t !in tids[1..];
      CreateAllTasks(s1, job, runtime, tids[1..], nodes[1..]);
    } else {
      CreatedWait(s1, job, runtime, tids[1..], nodes[1..], t);
    }
  }

  /** Starting a job: stale work reclaimed, then only new waiting tasks and the new job are added. */
  lemma StartShape(s: State, runtime: Runtime, job: JobId, tids: seq<Tid>)
    requires Inv(s) && Enabled(s, Start(runtime, job, tids))
    ensures SameButRequeued(s, RequeueStale(s)) && forall k :: Queue(s, k) <= Queue(RequeueStale(s), k)
    ensures match StartJob(s, runtime, job, tids).1
      case Refused => StartJob(s, runtime, job, tids).0 == RequeueStale(s)
      case _ => Added(RequeueStale(s), job, tids, StartJob(s, runtime, job, tids).0)
  {
    ReclaimAllKeeps(s, Sorted(s.registered));
    var s1 := RequeueStale(s);
    var ids := HealthyNodeIds(s1, None, runtime);
    if ids != [] && tids != [] {
      CreatedAdded(s1, job, runtime, tids, GreedyPlan(s1, ids, map[], |tids|).0);
    }
  }

  lemma CreatedAdded(s: State, job: JobId, runtime: Runtime, tids: seq<Tid>, plan: seq<NodeId>)
    requires |tids| == |plan| && job !in s.jobs && Distinct(tids) && forall t :: t in tids ==> t !in s.tasks
    ensures Added(s, job, tids, RefreshJob(CreateAll(s.(jobs := s.jobs[job := Job([], Queued)]), job, runtime, tids, plan), job))
  {
    var s1 := s.(jobs := s.jobs[job := Job([], Queued)]);
    var s2 := CreateAll(s1, job, runtime, tids, plan);
    CreateAllTasks(s1, job, runtime, tids, plan);
    forall t | t in tids ensures s2.tasks[t].status == Queued {
      CreatedWait(s1, job, runtime, tids, plan, t);
    }
    CreatedJobs(s, job, runtime, tids, plan);
    assert forall k :: Queue(s, k) == Queue(s1, k);
    CreateAllQueues(s1, job, runtime, tids, plan);
    assert forall k :: Queue(RefreshJob(s2, job), k) == Queue(s2, k);
  }

  lemma CreatedJobs(s: State, job: JobId, runtime: Runtime, tids: seq<Tid>, plan: seq<NodeId>)
    requires |tids| == |plan| && job !in s.jobs
    ensures JobsAdded(s, job, tids, RefreshJob(CreateAll(s.(jobs := s.jobs[job := Job([], Queued)]), job, runtime, tids, plan), job))
  {
    var s1 := s.(jobs := s.jobs[job := Job([], Queued)]);
    var s2 := CreateAll(s1, job, runtime, tids, plan);
    CreateAllJobs(s1, job, runtime, tids, plan);
    assert JobTasks(s2, job) == tids by { assert s1.jobs[job].tasks == []; }
    RefreshedSummary(s2, job, tids);
  }

  lemma {:induction false} RefreshedCount(s: State, job: JobId, tids: seq<Tid>, status: Status)
    ensures CountStatus(RefreshJob(s, job), tids, status) == CountStatus(s, tids, status)
  {
    if tids != [] { RefreshedCount(s, job, tids[1..], status); }
  }

  lemma RefreshedSummary(s: State, job: JobId, tids: seq<Tid>)
    ensures JobSummary(RefreshJob(s, job), tids) == JobSummary(s, tids)
  {
    forall status { RefreshedCount(s, job, tids, status); }
  }

  /** A verdict depends only on the tasks' statuses. */
  lemma {:induction false} SameTasksSameCount(s: State, s': State, tids: seq<Tid>, status: Status)
    requires forall t :: t in tids ==> t in s.tasks && t in s'.tasks && s.tasks[t].status == s'.tasks[t].status
    ensures CountStatus(s, tids, status) == CountStatus(s', tids, status)
  {
    if tids != [] { SameTasksSameCount(s, s', tids[1..], status); }
  }

  lemma SameTasksSameSummary(s: State, s': State, tids: seq<Tid>)
    requires forall t :: t in tids ==> t in s.tasks && t in s'.tasks && s.tasks[t].status == s'.tasks[t].status
    ensures JobSummary(s, tids) == JobSummary(s', tids)
  {
    forall status { SameTasksSameCount(s, s', tids, status); }
  }

  ghost predicate TasksAdded(s: State, tids: seq<Tid>, s': State) {
    && s'.tasks.Keys == s.tasks.Keys + (set t | t in tids)
    && (forall t :: t in s.tasks ==> s'.tasks[t] == s.tasks[t])
    && (forall t :: t in tids ==> s'.tasks[t].status == Queued)
  }

  ghost predicate JobsAdded(s: State, job: JobId, tids: seq<Tid>, s': State) {
    && s'.jobs.Keys == s.jobs.Keys + {job}
    && (forall j :: j in s.jobs ==> s'.jobs[j] == s.jobs[j])
    && s'.jobs[job] == Job(tids, JobSummary(s', tids).status)
  }

  /** Only new waiting tasks `tids` and their new job are added; queues grow at the back. */
  ghost predicate Added(s: State, job: JobId, tids: seq<Tid>, s': State) {
    && TasksAdded(s, tids, s') && JobsAdded(s, job, tids, s')
    && (forall k :: Queue(s, k) <= Queue(s', k))
    && s'.issued == s.issued
  }

  /** A claim whose stale work is reclaimed: either one waiting task is served, or only the node changes. */
  ghost predicate ClaimOf(s: State, n: NodeId, ct: Token, dt: Token, s': State, r: Response) {
    match r
    case Handed(t, c, d) => c == ct && d == dt && n in s.nodes && !HoldsActive(s, n) && Served(s, n, t, ct, dt, s')
      && FirstWaiting(s, n) == Some(Home(s.tasks[t]))
    case NoTask => Queue(s, NodeQueue(n)) == [] && !HoldsActive(s, n)
      && if n in s.nodes then FirstWaiting(s, n) == None && s' == s.(nodes := s.nodes[n := s.nodes[n].(current := None)]) else s' == s
    case Existing(t) => s' == s && HoldsActive(s, n) && s.nodes[n].current == Some(t)
    case _ => false
  }

  lemma ClaimShape(s: State, n: NodeId, ct: Token, dt: Token)
    requires Inv(s)
    ensures SameButRequeued(s, RequeueStale(s)) && forall k :: Queue(s, k) <= Queue(RequeueStale(s), k)
    ensures ClaimOf(RequeueStale(s), n, ct, dt, ClaimTask(s, n, ct, dt).0, ClaimTask(s, n, ct, dt).1)
  {
    ReclaimAllInv(s, Sorted(s.registered));
    ReclaimAllKeeps(s, Sorted(s.registered));
    ClaimNowExact(RequeueStale(s), n, ct, dt);
  }

  lemma ClaimNowExact(s: State, n: NodeId, ct: Token, dt: Token)
    requires Inv(s)
    ensures ClaimOf(s, n, ct, dt, ClaimNow(s, n, ct, dt).0, ClaimNow(s, n, ct, dt).1)
  {
    if n !in s.nodes {
      UnknownNodeHasNoQueue(s, n);
    } else if !HoldsActive(s, n) {
      var s1 := SetCurrent(s, n, None);
      ClearCurrentInv(s, n);
      CurrentNone(s, n);
      ClaimFreshExact(s1, n, ct, dt);
      ClaimFreshOf(s, n, ct, dt, ClaimFresh(s1, n, ct, dt).0, ClaimFresh(s1, n, ct, dt).1);
    }
  }

  lemma CurrentNone(s: State, n: NodeId)
    requires n in s.nodes
    ensures s.nodes[n].current.None? ==> SetCurrent(s, n, None) == s
  {
    if s.nodes[n].current.None? { assert s.nodes[n := s.nodes[n]] == s.nodes; }
  }

  /** What a claim does once the node's pointer is cleared, from the state before that. */
  lemma ClaimFreshOf(s: State, n: NodeId, ct: Token, dt: Token, s': State, r: Response)
    requires n in s.nodes && !HoldsActive(s, n)
    requires var s1 := SetCurrent(s, n, None);
      match FirstWaiting(s1, n)
      case Some(k) => r == Handed(Queue(s1, k)[0], ct, dt) && Served(s1, n, Queue(s1, k)[0], ct, dt, s') && Home(s1.tasks[Queue(s1, k)[0]]) == k
      case None => r == NoTask && s' == s1
    ensures ClaimOf(s, n, ct, dt, s', r)
  {
    var s1 := SetCurrent(s, n, None);
    assert forall k :: Queue(s1, k) == Queue(s, k);
    assert FirstWaiting(s1, n) == FirstWaiting(s, n);
    if FirstWaiting(s, n).Some? {
      var t := Queue(s, FirstWaiting(s, n).value)[0];
      assert s1.nodes[n := s1.nodes[n].(current := Some(t), lastSeen := s1.now)] == s.nodes[n := s.nodes[n].(current := Some(t), lastSeen := s.now)];
    }
  }

  lemma UnknownNodeHasNoQueue(s: State, n: NodeId)
    requires Inv(s) && n !in s.nodes
    ensures Queue(s, NodeQueue(n)) == []
  {
    if Queue(s, NodeQueue(n)) != [] {
      HeadWaits(s, NodeQueue(n));
      assert false;
    }
  }

  lemma ServedLife(s: State, n: NodeId, t: Tid, ct: Token, dt: Token, s': State, u: Tid)
    requires Served(s, n, t, ct, dt, s') && u in s.tasks
    ensures s'.tasks.Keys == s.tasks.Keys
    ensures s'.tasks[u] == if u == t then s.tasks[t].(status := Claimed, assignee := Some(n), claimToken := Some(ct), downloadToken := Some(dt))
                           else s.tasks[u]
  {
  }

  lemma ClaimOfLife(s: State, s1: State, n: NodeId, auth: Token, ct: Token, dt: Token, s': State, r: Response, t: Tid)
    requires SameButRequeued(s, s1) && ClaimOf(s1, n, ct, dt, s', r) && t in s.tasks
    ensures s'.tasks.Keys == s.tasks.Keys && s.issued <= s'.issued
    ensures Lifecycle(Claim(n, auth, ct, dt), r, t, s.tasks[t], s'.tasks[t])
    ensures r == Handed(t, ct, dt) ==> HoldsIn(s', t, n, ct)
  {
    if r.Handed? {
      ServedLife(s1, n, r.tid, ct, dt, s', t);
    } else {
      assert s'.tasks == s1.tasks;
    }
  }

  lemma ClaimLife(s: State, n: NodeId, auth: Token, ct: Token, dt: Token, t: Tid)
    requires Inv(s) && t in s.tasks
    ensures ClaimTask(s, n, ct, dt).0.tasks.Keys == s.tasks.Keys
    ensures Lifecycle(Claim(n, auth, ct, dt), ClaimTask(s, n, ct, dt).1, t, s.tasks[t], ClaimTask(s, n, ct, dt).0.tasks[t])
    ensures ClaimTask(s, n, ct, dt).1 == Handed(t, ct, dt) ==>
      HoldsIn(ClaimTask(s, n, ct, dt).0, t, n, ct)
    ensures s.issued <= ClaimTask(s, n, ct, dt).0.issued
  {
    ClaimShape(s, n, ct, dt);
    var (s', r) := ClaimTask(s, n, ct, dt);
    ClaimOfLife(s, RequeueStale(s), n, auth, ct, dt, s', r, t);
  }

  /** A delivery by the node and token that hold the task ends it, or sends it back, or is refused. */
  ghost predicate Ended(s: State, t: Tid, s': State, r: Response)
    requires t in s.tasks
  {
    && s'.issued == s.issued
    && match r
      case Accepted => t in s'.tasks && s'.tasks == s.tasks[t := s'.tasks[t]] && Terminal(s'.tasks[t].status)
        && s'.tasks[t].job == s.tasks[t].job && s'.tasks[t].claimToken == None && s'.tasks[t].downloadToken == None
      case BadReceipt => s'.tasks == s.tasks[t := Requeued(s.tasks[t], None)]
      case _ => s' == s
  }

  lemma EndLife(s: State, n: NodeId, t: Tid, token: Token, report: Report)
    requires Inv(s) && n in s.nodes && t in s.tasks
    requires s.tasks[t].assignee == Some(n) && s.tasks[t].claimToken == Some(token)
    ensures Active(s.tasks[t].status)
    ensures Ended(s, t, Submit(s, n, t, token, report).0, Submit(s, n, t, token, report).1)
  {
    assert HeldRight(s, t);
  }

  lemma EndedLife(s: State, n: NodeId, auth: Token, t0: Tid, token: Token, report: Report, s': State, r: Response, t: Tid)
    requires t in s.tasks && t0 in s.tasks && Active(s.tasks[t0].status) && HoldsIn(s, t0, n, token) && Ended(s, t0, s', r)
    ensures s'.tasks.Keys == s.tasks.Keys
    ensures Lifecycle(Deliver(n, auth, t0, token, report), r, t, s.tasks[t], s'.tasks[t])
    ensures r == Accepted && t0 == t ==> Terminal(s'.tasks[t].status)
  {
  }

  lemma DeliverLife(s: State, n: NodeId, auth: Token, t0: Tid, token: Token, report: Report, t: Tid)
    requires Inv(s) && n in s.nodes && t in s.tasks
    ensures var (s', r) := Submit(s, n, t0, token, report);
      && s'.tasks.Keys == s.tasks.Keys && s'.issued == s.issued
      && Lifecycle(Deliver(n, auth, t0, token, report), r, t, s.tasks[t], s'.tasks[t])
      && (r == Accepted && t0 == t ==> HoldsIn(s, t, n, token) && Terminal(s'.tasks[t].status))
  {
    var (s', r) := Submit(s, n, t0, token, report);
    if t0 in s.tasks && s.tasks[t0].assignee == Some(n) && s.tasks[t0].claimToken == Some(token) {
      EndLife(s, n, t0, token, report);
      EndedLife(s, n, auth, t0, token, report, s', r, t);
    } else {
      assert s' == s && r != Accepted;
    }
  }

  /** Every step of every run moves every task along its lifecycle, and only adds tasks. */
  lemma StepLife(s: State, step: Step, t: Tid)
    requires Inv(s) && Enabled(s, step) && t in s.tasks
    ensures t in Next(s, step).tasks
    ensures Lifecycle(step, Apply(s, step).1, t, s.tasks[t], Next(s, step).tasks[t])
  {
    match step
    case Start(runtime, job, tids) => StartShape(s, runtime, job, tids);
    case Claim(n, auth, ct, dt) => if Authenticated(s, n, auth) { ClaimLife(s, n, auth, ct, dt, t); }
    case Fetch(n, auth, t0, token, blob) => if t0 in s.tasks { assert HeldRight(s, t0); }
    case Deliver(n, auth, t0, token, report) => if Authenticated(s, n, auth) { DeliverLife(s, n, auth, t0, token, report, t); }
    case Sweep => SweepKeeps(s);
    case _ =>
  }

  /* ----- Completed and failed are final ----- */

  lemma {:induction false} TerminalForever(s: State, steps: seq<Step>, t: Tid)
    requires Inv(s) && ValidRun(s, steps) && t in s.tasks && Terminal(s.tasks[t].status)
    ensures t in Run(s, steps).tasks && Run(s, steps).tasks[t] == s.tasks[t]
    decreases |steps|
  {
    if steps != [] {
      StepLife(s, steps[0], t);
      StepInv(s, steps[0]);
      TerminalForever(Next(s, steps[0]), steps[1..], t);
    }
  }

  predicate AcceptedAt(s: State, steps: seq<Step>, i: nat, t: Tid)
    requires i < |steps|
  {
    steps[i].Deliver? && steps[i].t == t && ResponseAt(s, steps, i) == Accepted
  }

  /** A delivery that is accepted ends an active task, for the node and token that hold it. */
  lemma AcceptanceEnds(s: State, steps: seq<Step>, i: nat, t: Tid)
    requires Inv(s) && ValidRun(s, steps) && i < |steps| && AcceptedAt(s, steps, i, t)
    ensures t in StateAt(s, steps, i).tasks && t in StateAt(s, steps, i + 1).tasks
    ensures Active(StateAt(s, steps, i).tasks[t].status) && Terminal(StateAt(s, steps, i + 1).tasks[t].status)
    ensures StateAt(s, steps, i).tasks[t].assignee == Some(steps[i].n)
    ensures StateAt(s, steps, i).tasks[t].claimToken == Some(steps[i].token)
  {
    At(s, steps, i);
    var si := StateAt(s, steps, i);
    DeliverLife(si, steps[i].n, steps[i].auth, t, steps[i].token, steps[i].report, t);
  }

  lemma StaysTerminal(s: State, steps: seq<Step>, i: nat, j: nat, t: Tid)
    requires Inv(s) && ValidRun(s, steps) && i <= j <= |steps|
    requires t in StateAt(s, steps, i).tasks && Terminal(StateAt(s, steps, i).tasks[t].status)
    ensures t in StateAt(s, steps, j).tasks && Terminal(StateAt(s, steps, j).tasks[t].status)
  {
    At(s, steps, i);
    RunFrom(s, steps, i, j);
    TerminalForever(StateAt(s, steps, i), steps[i..j], t);
  }

  /** In every run a task accepts at most one result or failure. */
  lemma AtMostOneAcceptance(s: State, steps: seq<Step>, i: nat, j: nat, t: Tid)
    requires Inv(s) && ValidRun(s, steps) && i < |steps| && j < |steps|
    requires AcceptedAt(s, steps, i, t) && AcceptedAt(s, steps, j, t)
    ensures i == j
  {
    if i < j { NoLaterAcceptance(s, steps, i, j, t); } else if j < i { NoLaterAcceptance(s, steps, j, i, t); }
  }

  lemma NoLaterAcceptance(s: State, steps: seq<Step>, i: nat, j: nat, t: Tid)
    requires Inv(s) && ValidRun(s, steps) && i < j < |steps| && AcceptedAt(s, steps, i, t)
    ensures !AcceptedAt(s, steps, j, t)
  {
    AcceptanceEnds(s, steps, i, t);
    StaysTerminal(s, steps, i + 1, j, t);
    if AcceptedAt(s, steps, j, t) { AcceptanceEnds(s, steps, j, t); }
  }

  /* ----- Results come from the latest claim ----- */

  predicate ClaimedAt(s: State, steps: seq<Step>, i: nat, t: Tid, n: NodeId, token: Token)
    requires i < |steps|
  {
    steps[i].Claim? && steps[i].n == n && steps[i].ct == token && ResponseAt(s, steps, i) == Handed(t, token, steps[i].dt)
  }

  predicate HoldsAt(s: State, steps: seq<Step>, i: nat, t: Tid, n: NodeId, token: Token)
    requires i <= |steps|
  {
    HoldsIn(StateAt(s, steps, i), t, n, token)
  }

  /** Claimed at step i and in the same hands at every state from there to state j. */
  ghost predicate HeldFrom(s: State, steps: seq<Step>, i: nat, j: nat, t: Tid, n: NodeId, token: Token)
    requires i < j <= |steps|
  {
    ClaimedAt(s, steps, i, t, n, token) && forall m :: i < m <= j ==> HoldsAt(s, steps, m, t, n, token)
  }

  /** A hold is kept from the state before, or this step is the claim. */
  lemma HoldOrigin(s: State, step: Step, t: Tid, n: NodeId, token: Token)
    requires Inv(s) && Enabled(s, step) && HoldsIn(Next(s, step), t, n, token)
    ensures HoldsIn(s, t, n, token)
      || (step.Claim? && step.n == n && step.ct == token && Apply(s, step).1 == Handed(t, token, step.dt))
  {
    if t in s.tasks {
      StepLife(s, step, t);
      assert HeldRight(s, t);
    } else {
      NewTasksWait(s, step, t);
    }
  }

  /** A task that is active now was handed out by a claim, and has been in the same hands since. */
  lemma {:induction false} HeldSinceClaim(s: State, steps: seq<Step>, j: nat, t: Tid, n: NodeId, token: Token)
    requires Init(s) && ValidRun(s, steps) && j <= |steps| && HoldsAt(s, steps, j, t, n, token)
    ensures exists i :: 0 <= i < j && HeldFrom(s, steps, i, j, t, n, token)
    decreases j
  {
    InitInv(s);
    StartState(s, steps);
    if j > 0 {
      At(s, steps, j - 1);
      HoldOrigin(StateAt(s, steps, j - 1), steps[j - 1], t, n, token);
      if HoldsAt(s, steps, j - 1, t, n, token) {
        HeldSinceClaim(s, steps, j - 1, t, n, token);
        var i :| 0 <= i < j - 1 && HeldFrom(s, steps, i, j - 1, t, n, token);
        assert HeldFrom(s, steps, i, j, t, n, token);
      } else {
        assert HeldFrom(s, steps, j - 1, j, t, n, token);
      }
    }
  }

  /** A task that was not there before a step is waiting after it. */
  lemma NewTasksWait(s: State, step: Step, t: Tid)
    requires Inv(s) && Enabled(s, step) && t !in s.tasks && t in Next(s, step).tasks
    ensures Next(s, step).tasks[t].status == Queued
  {
    match step
    case Start(runtime, job, tids) => StartShape(s, runtime, job, tids);
    case Claim(n, auth, ct, dt) => ClaimShape(s, n, ct, dt);
    case Sweep => SweepKeeps(s);
    case _ => PlainSameTasks(s, step);
  }

  lemma PlainSameTasks(s: State, step: Step)
    requires !step.Start? && !step.Claim? && !step.Sweep?
    ensures Next(s, step).tasks.Keys == s.tasks.Keys
  {
  }

  /** An accepted result comes from the node and token of the task's latest claim, unbroken since. */
  lemma AcceptedFromLatestClaim(s: State, steps: seq<Step>, j: nat, t: Tid)
    requires Init(s) && ValidRun(s, steps) && j < |steps| && AcceptedAt(s, steps, j, t)
    ensures exists i :: 0 <= i < j && HeldFrom(s, steps, i, j, t, steps[j].n, steps[j].token)
  {
    InitInv(s);
    AcceptanceEnds(s, steps, j, t);
    HeldSinceClaim(s, steps, j, t, steps[j].n, steps[j].token);
  }

  /* ----- Spent tokens ----- */

  /** A token that was issued and opens task `t` no more. */
  predicate Spent(s: State, t: Tid, token: Token) {
    && t in s.tasks && token in s.issued
    && s.tasks[t].claimToken != Some(token) && s.tasks[t].downloadToken != Some(token)
  }

  lemma StepKeepsIssued(s: State, step: Step)
    requires Inv(s) && Enabled(s, step)
    ensures s.issued <= Next(s, step).issued
  {
    match step
    case Start(runtime, job, tids) => StartShape(s, runtime, job, tids);
    case Claim(n, auth, ct, dt) => ClaimShape(s, n, ct, dt);
    case Sweep => SweepKeeps(s);
    case _ =>
  }

  lemma {:induction false} SpentForever(s: State, steps: seq<Step>, t: Tid, token: Token)
    requires Inv(s) && ValidRun(s, steps) && Spent(s, t, token)
    ensures Spent(Run(s, steps), t, token)
    decreases |steps|
  {
    if steps != [] {
      StepLife(s, steps[0], t);
      StepKeepsIssued(s, steps[0]);
      StepInv(s, steps[0]);
      SpentForever(Next(s, steps[0]), steps[1..], t, token);
    }
  }

  /**
   Tokens from before a requeue are refused forever: once a task waits again, no token issued until
   then, however many steps later, downloads it or delivers for it.
  */
  lemma OldTokensRefused(s: State, steps: seq<Step>, t: Tid, token: Token, n: NodeId, auth: Token, report: Report, blob: bool)
    requires Inv(s) && ValidRun(s, steps)
    requires t in s.tasks && s.tasks[t].status == Queued && token in s.issued
    ensures Apply(Run(s, steps), Deliver(n, auth, t, token, report)) == (Run(s, steps), Refused)
    ensures Apply(Run(s, steps), Fetch(n, auth, t, token, blob)) == (Run(s, steps), Refused)
  {
    assert HeldRight(s, t);
    SpentForever(s, steps, t, token);
  }

  /* ----- First in, first out, per node ----- */

  /** A claim by `n` that reaches for the queue: nothing active is in the node's hands. */
  predicate Effective(s: State, step: Step, n: NodeId) {
    step.Claim? && step.n == n && Authenticated(s, n, step.auth) && !HoldsActive(RequeueStale(s), n)
  }

  predicate Drains(s: State, step: Step, n: NodeId) {
    step.Sweep? && Dead(s, n)
  }

  function EffectiveClaims(s: State, steps: seq<Step>, n: NodeId): nat
    decreases |steps|
  {
    if steps == [] then 0
    else (if Effective(s, steps[0], n) then 1 else 0) + EffectiveClaims(Next(s, steps[0]), steps[1..], n)
  }

  predicate NeverDrained(s: State, steps: seq<Step>, n: NodeId)
    decreases |steps|
  {
    steps == [] || (!Drains(s, steps[0], n) && NeverDrained(Next(s, steps[0]), steps[1..], n))
  }

  lemma ServedQueue(s: State, m: NodeId, t: Tid, ct: Token, dt: Token, s': State, n: NodeId)
    requires Inv(s) && Served(s, m, t, ct, dt, s')
    ensures Queue(s', NodeQueue(n)) ==
      if Home(s.tasks[t]) == NodeQueue(n) then Queue(s, NodeQueue(n))[1..] else Queue(s, NodeQueue(n))
    ensures Queue(s, NodeQueue(n)) != [] && t == Queue(s, NodeQueue(n))[0] ==> Home(s.tasks[t]) == NodeQueue(n)
  {
    if Queue(s, NodeQueue(n)) != [] {
      HeadWaits(s, NodeQueue(n));
    }
  }

  lemma ClaimQueue(s: State, m: NodeId, ct: Token, dt: Token, n: NodeId)
    requires Inv(s) && m in s.nodes
    ensures var q, q1, (s', r) := Queue(s, NodeQueue(n)), Queue(RequeueStale(s), NodeQueue(n)), ClaimTask(s, m, ct, dt);
      && q <= q1
      && (m == n && !HoldsActive(RequeueStale(s), n) && q1 != [] ==>
           Queue(s', NodeQueue(n)) == q1[1..] && r == Handed(q1[0], ct, dt))
      && (m != n || HoldsActive(RequeueStale(s), n) || q1 == [] ==> Queue(s', NodeQueue(n)) == q1)
  {
    ReclaimAllInv(s, Sorted(s.registered));
    ClaimShape(s, m, ct, dt);
    var (s', r) := ClaimTask(s, m, ct, dt);
    if r.Handed? {
      ServedQueue(RequeueStale(s), m, r.tid, ct, dt, s', n);
    }
  }

  lemma SweepQueue(s: State, n: NodeId)
    requires Inv(s) && !Dead(s, n)
    ensures Queue(s, NodeQueue(n)) <= Queue(SweepStale(s), NodeQueue(n))
  {
    ReclaimAllKeeps(s, Sorted(s.registered));
    var s1 := RequeueStale(s);
    DrainAllKeeps(s1, Sorted(s1.registered));
    assert n in s.registered ==> n in s.nodes && (Healthy(s1, n) <==> Healthy(s, n));
    assert Queue(s1, NodeQueue(n)) <= Queue(SweepStale(s), NodeQueue(n));
  }

  /** One step of a node's queue: served from the front, extended at the back. */
  lemma QueueStep(s: State, step: Step, n: NodeId)
    requires Inv(s) && Enabled(s, step) && !Drains(s, step, n)
    ensures var q, q' := Queue(s, NodeQueue(n)), Queue(Next(s, step), NodeQueue(n));
      if Effective(s, step, n) && q != [] then q[1..] <= q' && Apply(s, step).1 == Handed(q[0], step.ct, step.dt)
      else q <= q'
  {
    match step
    case Start(runtime, job, tids) => StartShape(s, runtime, job, tids);
    case Claim(m, auth, ct, dt) =>
      if Authenticated(s, m, auth) {
        ClaimQueue(s, m, ct, dt, n);
      }
    case Sweep => SweepQueue(s, n);
    case _ => PlainQueue(s, step, n);
  }

  lemma PlainQueue(s: State, step: Step, n: NodeId)
    requires !step.Start? && !step.Claim? && !step.Sweep?
    ensures Queue(s, NodeQueue(n)) <= Queue(Next(s, step), NodeQueue(n))
  {
  }

  lemma PositionStep(s: State, step: Step, n: NodeId, p: nat)
    requires Inv(s) && Enabled(s, step) && !Drains(s, step, n)
    requires p < |Queue(s, NodeQueue(n))| && (Effective(s, step, n) ==> p > 0)
    ensures var q', p' := Queue(Next(s, step), NodeQueue(n)), if Effective(s, step, n) then p - 1 else p;
      p' < |q'| && q'[p'] == Queue(s, NodeQueue(n))[p]
  {
    QueueStep(s, step, n);
  }

  /** After c effective claims of its node, a task that was at position p is at p - c. */
  lemma {:induction false} AdvancesOnePerClaim(s: State, steps: seq<Step>, n: NodeId, p: nat)
    requires Inv(s) && ValidRun(s, steps) && NeverDrained(s, steps, n)
    requires p < |Queue(s, NodeQueue(n))| && EffectiveClaims(s, steps, n) <= p
    ensures var q', c := Queue(Run(s, steps), NodeQueue(n)), EffectiveClaims(s, steps, n);
      p - c < |q'| && q'[p - c] == Queue(s, NodeQueue(n))[p]
    decreases |steps|
  {
    if steps != [] {
      var (s1, rest, p1) := (Next(s, steps[0]), steps[1..], if Effective(s, steps[0], n) then p - 1 else p);
      assert Run(s, steps) == Run(s1, rest) && ValidRun(s1, rest) && NeverDrained(s1, rest, n);
      assert p1 - EffectiveClaims(s1, rest, n) == p - EffectiveClaims(s, steps, n);
      PositionStep(s, steps[0], n, p);
      StepInv(s, steps[0]);
      AdvancesOnePerClaim(s1, rest, n, p1);
    }
  }

  /**
   No overtaking: the task at position p of a node's queue is handed out by that node's (p+1)-th
   effective claim and waits until then, whatever steps intervene, unless a sweep drains the queue.
  */
  lemma NoOvertaking(s: State, steps: seq<Step>, step: Step, n: NodeId, p: nat)
    requires Inv(s) && ValidRun(s, steps) && NeverDrained(s, steps, n)
    requires p < |Queue(s, NodeQueue(n))| && EffectiveClaims(s, steps, n) == p
    requires Enabled(Run(s, steps), step) && Effective(Run(s, steps), step, n)
    ensures var t := Queue(s, NodeQueue(n))[p];
      && t in Run(s, steps).tasks && Run(s, steps).tasks[t].status == Queued
      && Apply(Run(s, steps), step).1 == Handed(t, step.ct, step.dt)
      && Next(Run(s, steps), step).tasks[t].assignee == Some(n)
  {
    AdvancesOnePerClaim(s, steps, n, p);
    RunInv(s, steps);
    var s' := Run(s, steps);
    var t := Queue(s, NodeQueue(n))[p];
    assert t in Queue(s', NodeQueue(n)) && WaitsAt(s', NodeQueue(n), t);
    QueueStep(s', step, n);
    ClaimLife(s', n, step.auth, step.ct, step.dt, t);
  }
}
