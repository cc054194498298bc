/**
 What starting a job leaves behind: when it is planned, where each of its tasks waits, and that no other way of
 handing them out would have left a shorter longest queue.
*/
module TaskQueueStart {
  import opened Sequences
  import opened TaskQueue
  import opened TaskQueueInvariant
  import opened TaskQueueRuns
  import opened TaskQueueEffects
  import opened JobStatus
  import Planner

  /** A registered node that is alive and runs this. */
  predicate LiveFor(s: State, n: NodeId, runtime: Runtime) {
    && n in s.registered && n in s.nodes && s.nodes[n].lastSeen > 0.0 && s.now <= s.nodes[n].lastSeen + 5.0
    && (runtime == Wasm ==> s.nodes[n].supportsWasm)
  }

  /** Those of the tasks that a plan puts on `n`, in order. */
  function On(tids: seq<Tid>, plan: seq<NodeId>, n: NodeId): (mine: seq<Tid>)
    requires |tids| == |plan|
    ensures |mine| == Planner.Count(plan, n)
  {
    if tids == [] then [] else (if plan[0] == n then [tids[0]] else []) + On(tids[1..], plan[1..], n)
  }

  /** Those of the tasks that are assigned to `n`, in order. */
  function Mine(s: State, tids: seq<Tid>, n: NodeId): seq<Tid> {
    if tids == [] then []
    else (if tids[0] in s.tasks && s.tasks[tids[0]].assignee == Some(n) then [tids[0]] else []) + Mine(s, tids[1..], n)
  }

  lemma {:induction false} OnIsMine(s: State, tids: seq<Tid>, plan: seq<NodeId>, n: NodeId)
    requires |tids| == |plan| && forall i :: 0 <= i < |tids| ==> tids[i] in s.tasks && s.tasks[tids[i]].assignee == Some(plan[i])
    ensures On(tids, plan, n) == Mine(s, tids, n)
  {
    if tids != [] {
      forall i | 0 <= i < |tids| - 1 ensures tids[1..][i] in s.tasks && s.tasks[tids[1..][i]].assignee == Some(plan[1..][i]) {
        assert tids[1..][i] == tids[i + 1] && plan[1..][i] == plan[i + 1];
      }
      OnIsMine(s, tids[1..], plan[1..], n);
    }
  }

  /* ----- Choosing a node ----- */

  /** Among the nodes of least load it is the first, as Python's `min` picks it. */
  lemma {:induction false} LeastLoadedFirst(s: State, ids: seq<NodeId>, pending: map<NodeId, nat>) returns (i: nat)
    requires ids != []
    ensures i < |ids| && ids[i] == LeastLoaded(s, ids, pending)
    ensures forall j :: 0 <= j < i ==> Load(s, pending, LeastLoaded(s, ids, pending)) < Load(s, pending, ids[j])
  {
    i := 0;
    if |ids| > 1 {
      var (rest, tail) := (LeastLoaded(s, ids[1..], pending), ids[1..]);
      if Load(s, pending, ids[0]) > Load(s, pending, rest) {
        var k := LeastLoadedFirst(s, tail, pending);
        assert LeastLoaded(s, ids, pending) == rest;
        AfterFirst(s, ids, pending, rest, k);
        i := k + 1;
      }
    }
  }

  lemma AfterFirst(s: State, ids: seq<NodeId>, pending: map<NodeId, nat>, best: NodeId, k: nat)
    requires k + 1 < |ids| && ids[1..][k] == best && Load(s, pending, best) < Load(s, pending, ids[0])
    requires forall j :: 0 <= j < k ==> Load(s, pending, best) < Load(s, pending, ids[1..][j])
    ensures ids[k + 1] == best && forall j :: 0 <= j < k + 1 ==> Load(s, pending, best) < Load(s, pending, ids[j])
  {
    forall j | 0 < j < k + 1 ensures Load(s, pending, best) < Load(s, pending, ids[j]) { assert ids[j] == ids[1..][j - 1]; }
  }

  predicate Ascending(ids: seq<NodeId>) {
    forall i, j :: 0 <= i < j < |ids| ==> ids[i] < ids[j]
  }

  lemma AscendingFront(first: NodeId, rest: seq<NodeId>)
    requires Ascending(rest) && forall n :: n in rest ==> first < n
    ensures Ascending([first] + rest)
  {
    assert forall i :: 0 <= i < |rest| ==> rest[i] in rest;
  }

  lemma AscendingTail(ids: seq<NodeId>, n: NodeId)
    requires Ascending(ids) && ids != []
    ensures Ascending(ids[1..]) && (n in ids[1..] ==> ids[0] < n)
  {
    if n in ids[1..] {
      var j :| 0 <= j < |ids| - 1 && ids[1..][j] == n;
      assert ids[j + 1] == n;
    }
  }

  lemma {:induction false} EligibleOrdered(s: State, ids: seq<NodeId>, exclude: Option<NodeId>, runtime: Runtime)
    requires Ascending(ids)
    ensures Ascending(EligibleIn(s, ids, exclude, runtime))
  {
    if ids != [] {
      forall n { AscendingTail(ids, n); }
      EligibleOrdered(s, ids[1..], exclude, runtime);
      EligibleMembers(s, ids[1..], exclude, runtime);
      AscendingFront(ids[0], EligibleIn(s, ids[1..], exclude, runtime));
    }
  }

  /** Lost work goes to the first live node, in the order of their names, that can run it and is not the one it comes from. */
  lemma DestinationFirst(s: State, exclude: Option<NodeId>, runtime: Runtime, n: NodeId)
    requires LiveFor(s, n, runtime) && s.nodes[n].supportsCloudpickle.None? && exclude != Some(n)
    ensures Destination(s, exclude, runtime).Some? && Destination(s, exclude, runtime).value <= n
  {
    var ids := HealthyNodeIds(s, exclude, runtime);
    EligibleOrdered(s, Sorted(s.registered), exclude, runtime);
    assert n in ids;
    var i :| 0 <= i < |ids| && ids[i] == n;
    assert ids[0] <= ids[i];
  }

  /* ----- Creating the tasks ----- */

  lemma CreateQueue(s: State, job: JobId, t: Tid, runtime: Runtime, m: NodeId, k: QueueKey)
    ensures Queue(CreateTask(s, job, t, runtime, Some(m)), k) == Queue(s, k) + (if k == NodeQueue(m) then [t] else [])
  {
  }

  lemma {:induction false} CreateAllQueue(s: State, job: JobId, runtime: Runtime, tids: seq<Tid>, plan: seq<NodeId>, k: QueueKey)
    requires |tids| == |plan|
    ensures Queue(CreateAll(s, job, runtime, tids, plan), k) == Queue(s, k) + (if k.NodeQueue? then On(tids, plan, k.node) else [])
    decreases |tids|
  {
    if tids != [] {
      var s1 := CreateTask(s, job, tids[0], runtime, Some(plan[0]));
      CreateQueue(s, job, tids[0], runtime, plan[0], k);
      CreateAllQueue(s1, job, runtime, tids[1..], plan[1..], k);
      Regroup(Queue(s, k), if k == NodeQueue(plan[0]) then [tids[0]] else [], if k.NodeQueue? then On(tids[1..], plan[1..], k.node) else []);
    }
  }

  lemma {:induction false} CreateAllRecord(s: State, job: JobId, runtime: Runtime, tids: seq<Tid>, plan: seq<NodeId>, i: nat)
    requires |tids| == |plan| && Distinct(tids) && i < |tids|
    ensures var s' := CreateAll(s, job, runtime, tids, plan);
      tids[i] in s'.tasks && s'.tasks[tids[i]] == Task(job, runtime, Queued, Some(plan[i]), None, None, None, "")
    decreases |tids|
  {
    var s1 := CreateTask(s, job, tids[0], runtime, Some(plan[0]));
    if i == 0 {
      assert tids[0] !in tids[1..];
      CreateAllTasks(s1, job, runtime, tids[1..], plan[1..]);
    } else {
      CreateAllRecord(s1, job, runtime, tids[1..], plan[1..], i - 1);
    }
  }

  /* ----- The start ----- */

  /** The live nodes and the plan of a start. */
  function LiveNodes(s: State, runtime: Runtime): seq<NodeId> {
    HealthyNodeIds(RequeueStale(s), None, runtime)
  }

  lemma LiveNodesAre(s: State, runtime: Runtime)
    requires Inv(s)
    ensures Distinct(LiveNodes(s, runtime)) && forall n :: n in LiveNodes(s, runtime) <==> LiveFor(s, n, runtime)
  {
    var s1 := RequeueStale(s);
    ReclaimAllInv(s, Sorted(s.registered));
    ReclaimAllKeeps(s, Sorted(s.registered));
    forall n ensures n in LiveNodes(s, runtime) <==> LiveFor(s, n, runtime) {
      if n in s.nodes { assert s1.nodes[n].lastSeen == s.nodes[n].lastSeen && s1.nodes[n].supportsWasm == s.nodes[n].supportsWasm; }
    }
    EligibleDistinct(s1, Sorted(s1.registered), None, runtime);
  }

  lemma {:induction false} EligibleDistinct(s: State, ids: seq<NodeId>, exclude: Option<NodeId>, runtime: Runtime)
    requires Distinct(ids)
    ensures Distinct(EligibleIn(s, ids, exclude, runtime))
  {
    if ids != [] {
      assert forall i :: 0 <= i < |ids| - 1 ==> ids[1..][i] == ids[i + 1] != ids[0];
      EligibleDistinct(s, ids[1..], exclude, runtime);
      EligibleMembers(s, ids[1..], exclude, runtime);
    }
  }

  /** A start is planned exactly if there is a task and a live node that can run it; otherwise nothing is created. */
  lemma StartIff(s: State, runtime: Runtime, job: JobId, tids: seq<Tid>)
    requires Inv(s)
    ensures var (s', r) := Apply(s, Start(runtime, job, tids));
      && (r == Planned(job) <==> tids != [] && exists n :: LiveFor(s, n, runtime))
      && (r != Planned(job) ==> r == Refused && s' == RequeueStale(s))
  {
    var ids := LiveNodes(s, runtime);
    LiveNodesAre(s, runtime);
    if ids != [] { assert LiveFor(s, ids[0], runtime); }
  }

  predicate WaitsAnew(s: State, runtime: Runtime, job: JobId, task: Task) {
    task.assignee.Some? && LiveFor(s, task.assignee.value, runtime) && task == Task(job, runtime, Queued, task.assignee, None, None, None, "")
  }

  /** The tasks wait as new ones of this job, each in the queue of a live node, at its end and in their order. */
  ghost predicate SpreadOut(s: State, runtime: Runtime, job: JobId, tids: seq<Tid>, s': State) {
    && (forall t :: t in tids ==> t in s'.tasks && WaitsAnew(s, runtime, job, s'.tasks[t]))
    && (forall n :: Queue(s', NodeQueue(n)) == Queue(s, NodeQueue(n)) + Mine(s', tids, n))
    && (forall r :: Queue(s', Unassigned(r)) == Queue(s, Unassigned(r)))
  }

  /** Only the tasks and their job are new. */
  ghost predicate OnlyAdds(s: State, job: JobId, tids: seq<Tid>, s': State) {
    && s' == s.(tasks := s'.tasks, queues := s'.queues, jobs := s'.jobs)
    && s'.tasks.Keys == s.tasks.Keys + (set t | t in tids) && (forall t :: t in s.tasks ==> s'.tasks[t] == s.tasks[t])
    && s'.jobs.Keys == s.jobs.Keys + {job} && (forall j :: j in s.jobs ==> s'.jobs[j] == s.jobs[j])
    && s'.jobs[job] == Job(tids, Queued)
  }

  lemma CreatedSpread(s: State, runtime: Runtime, job: JobId, tids: seq<Tid>, plan: seq<NodeId>)
    requires |tids| == |plan| && Distinct(tids) && forall i :: 0 <= i < |plan| ==> LiveFor(s, plan[i], runtime)
    ensures var s1 := s.(jobs := s.jobs[job := Job([], Queued)]);
      SpreadOut(s, runtime, job, tids, RefreshJob(CreateAll(s1, job, runtime, tids, plan), job))
    ensures var s1 := s.(jobs := s.jobs[job := Job([], Queued)]);
      forall n :: Mine(RefreshJob(CreateAll(s1, job, runtime, tids, plan), job), tids, n) == On(tids, plan, n)
  {
    var s1 := s.(jobs := s.jobs[job := Job([], Queued)]);
    var s2 := CreateAll(s1, job, runtime, tids, plan);
    var s' := RefreshJob(s2, job);
    forall i | 0 <= i < |tids|
      ensures tids[i] in s'.tasks && s'.tasks[tids[i]] == Task(job, runtime, Queued, Some(plan[i]), None, None, None, "")
    {
      CreateAllRecord(s1, job, runtime, tids, plan, i);
    }
    forall n ensures Mine(s', tids, n) == On(tids, plan, n) { OnIsMine(s', tids, plan, n); }
    forall k ensures Queue(s', k) == Queue(s, k) + (if k.NodeQueue? then On(tids, plan, k.node) else []) {
      CreateAllQueue(s1, job, runtime, tids, plan, k);
    }
  }

  lemma CreatedAdds(s: State, runtime: Runtime, job: JobId, tids: seq<Tid>, plan: seq<NodeId>)
    requires |tids| == |plan| && tids != [] && Distinct(tids) && job !in s.jobs && forall t :: t in tids ==> t !in s.tasks
    ensures var s1 := s.(jobs := s.jobs[job := Job([], Queued)]);
      OnlyAdds(s, job, tids, RefreshJob(CreateAll(s1, job, runtime, tids, plan), job))
  {
    var s1 := s.(jobs := s.jobs[job := Job([], Queued)]);
    var s' := RefreshJob(CreateAll(s1, job, runtime, tids, plan), job);
    CreatedAdded(s, job, runtime, tids, plan);
    CreateAllNodes(s1, job, runtime, tids, plan);
    VerdictExact(s', tids);
    assert tids[0] in tids;
  }

  /**
   A planned start, from the state in which stale work has been reclaimed: the tasks are spread out over live
   nodes, and nothing else is new.
  */
  lemma StartEffect(s: State, runtime: Runtime, job: JobId, tids: seq<Tid>)
    requires Inv(s) && Enabled(s, Start(runtime, job, tids)) && Apply(s, Start(runtime, job, tids)).1 == Planned(job)
    ensures var (s1, s') := (RequeueStale(s), Next(s, Start(runtime, job, tids)));
      SpreadOut(s1, runtime, job, tids, s') && OnlyAdds(s1, job, tids, s')
  {
    var s1 := RequeueStale(s);
    ReclaimAllKeeps(s, Sorted(s.registered));
    var plan := StartPlan(s, runtime, job, tids);
    CreatedSpread(s1, runtime, job, tids, plan);
    CreatedAdds(s1, runtime, job, tids, plan);
  }

  /** The plan it follows: the greedy one, over the live nodes. */
  lemma StartPlan(s: State, runtime: Runtime, job: JobId, tids: seq<Tid>) returns (plan: seq<NodeId>)
    requires Inv(s) && Apply(s, Start(runtime, job, tids)).1 == Planned(job)
    ensures tids != [] && LiveNodes(s, runtime) != [] && |plan| == |tids|
    ensures plan == GreedyPlan(RequeueStale(s), LiveNodes(s, runtime), map[], |tids|).0
    ensures var s1 := RequeueStale(s);
      Next(s, Start(runtime, job, tids)) == RefreshJob(CreateAll(s1.(jobs := s1.jobs[job := Job([], Queued)]), job, runtime, tids, plan), job)
    ensures forall i :: 0 <= i < |plan| ==> LiveFor(RequeueStale(s), plan[i], runtime)
  {
    plan := GreedyPlan(RequeueStale(s), LiveNodes(s, runtime), map[], |tids|).0;
    LiveNodesAre(s, runtime);
    ReclaimAllKeeps(s, Sorted(s.registered));
    forall i | 0 <= i < |plan| ensures LiveFor(RequeueStale(s), plan[i], runtime) {
      assert plan[i] in LiveNodes(s, runtime) && LiveFor(s, plan[i], runtime);
    }
  }

  /** The length of a node's queue. */
  function Length(s: State, n: NodeId): nat {
    |Queue(s, NodeQueue(n))|
  }

  /** Some live node's queue, with what another plan adds to it, is at least as long as all of these. */
  ghost predicate NoShorter(s: State, runtime: Runtime, s1: State, other: seq<NodeId>, s': State) {
    exists m :: LiveFor(s, m, runtime) && forall n :: LiveFor(s, n, runtime) ==> Length(s', n) <= Length(s1, m) + Planner.Count(other, m)
  }

  /** A live node whose queue grew is at most one ahead of every other. */
  ghost predicate EvenlyGrown(s: State, runtime: Runtime, s1: State, s': State) {
    forall n, m :: LiveFor(s, n, runtime) && LiveFor(s, m, runtime) && Length(s', n) > Length(s1, n) ==> Length(s', n) <= Length(s', m) + 1
  }

  /**
   However else the tasks are handed out to live nodes, some live node's queue ends at least as long as the
   longest one of a start; and a node given any of them ends at most one longer than any other live node.
  */
  lemma StartOptimal(s: State, runtime: Runtime, job: JobId, tids: seq<Tid>, other: seq<NodeId>)
    requires Inv(s) && Enabled(s, Start(runtime, job, tids)) && Apply(s, Start(runtime, job, tids)).1 == Planned(job)
    requires |other| == |tids| && forall n :: n in other ==> LiveFor(s, n, runtime)
    ensures NoShorter(s, runtime, RequeueStale(s), other, Next(s, Start(runtime, job, tids)))
    ensures EvenlyGrown(s, runtime, RequeueStale(s), Next(s, Start(runtime, job, tids)))
  {
    LiveNodesAre(s, runtime);
    var plan := StartPlan(s, runtime, job, tids);
    var (s1, s') := (RequeueStale(s), Next(s, Start(runtime, job, tids)));
    StartLengths(s, runtime, job, tids, plan);
    GreedyLengths(s, runtime, LiveNodes(s, runtime), s1, s', plan, other);
  }

  lemma StartLengths(s: State, runtime: Runtime, job: JobId, tids: seq<Tid>, plan: seq<NodeId>)
    requires var s1 := RequeueStale(s);
      |plan| == |tids| && Distinct(tids) && (forall i :: 0 <= i < |plan| ==> LiveFor(s1, plan[i], runtime))
      && Next(s, Start(runtime, job, tids)) == RefreshJob(CreateAll(s1.(jobs := s1.jobs[job := Job([], Queued)]), job, runtime, tids, plan), job)
    ensures forall n :: Length(Next(s, Start(runtime, job, tids)), n) == Planner.Final(RequeueStale(s), plan, n)
  {
    var (s1, s') := (RequeueStale(s), Next(s, Start(runtime, job, tids)));
    CreatedSpread(s1, runtime, job, tids, plan);
    forall n ensures Length(s', n) == Planner.Final(s1, plan, n) { assert |Mine(s', tids, n)| == Planner.Count(plan, n); }
  }

  lemma GreedyLengths(s: State, runtime: Runtime, ids: seq<NodeId>, s1: State, s': State, plan: seq<NodeId>, other: seq<NodeId>)
    requires ids != [] && Distinct(ids) && forall n :: n in ids <==> LiveFor(s, n, runtime)
    requires plan == GreedyPlan(s1, ids, map[], |other|).0 && forall n :: n in other ==> LiveFor(s, n, runtime)
    requires forall n :: Length(s', n) == Planner.Final(s1, plan, n)
    ensures NoShorter(s, runtime, s1, other, s') && EvenlyGrown(s, runtime, s1, s')
  {
    Planner.GreedyOptimal(s1, ids, |other|, other);
    Planner.PeakIsMax(s1, plan, ids);
    Planner.PeakIsMax(s1, other, ids);
    var m :| m in ids && Planner.Final(s1, other, m) == Planner.Peak(s1, other, ids);
    forall n | LiveFor(s, n, runtime) ensures Length(s', n) <= Length(s1, m) + Planner.Count(other, m) { assert n in ids; }
    assert LiveFor(s, m, runtime);
    forall n ensures n in plan <==> Length(s', n) > Length(s1, n) { Planner.CountPositive(plan, n); }
  }
}
