/**
 The server's code over its store, step by step: one object holding the Redis contents, and one
 method for each function and endpoint of the source, each proved to compute exactly the state
 function of TaskQueue.dfy. Each call is one atomic step that reads the clock once.
*/
module TaskStore {
  import opened Sequences
  import opened TaskQueue

  lemma {:induction false} EligibleSnoc(s: State, ids: seq<NodeId>, n: NodeId, exclude: Option<NodeId>, runtime: Runtime)
    ensures EligibleIn(s, ids + [n], exclude, runtime) ==
      EligibleIn(s, ids, exclude, runtime) + if Eligible(s, n, exclude, runtime) then [n] else []
  {
    if ids == [] {
      assert (ids + [n])[1..] == [];
    } else {
      assert (ids + [n])[1..] == ids[1..] + [n];
      EligibleSnoc(s, ids[1..], n, exclude, runtime);
    }
  }

  lemma LeastLoadedStep(s: State, ids: seq<NodeId>, pending: map<NodeId, nat>, i: nat)
    requires i + 1 < |ids|
    ensures var rest := LeastLoaded(s, ids[i + 1..], pending);
      LeastLoaded(s, ids[i..], pending) == if Load(s, pending, ids[i]) <= Load(s, pending, rest) then ids[i] else rest
  {
    assert ids[i..][1..] == ids[i + 1..];
  }

  lemma GreedyStep(s: State, ids: seq<NodeId>, pending: map<NodeId, nat>, count: nat, plan: seq<NodeId>)
    requires ids != [] && count > 0
    ensures var chosen := LeastLoaded(s, ids, pending);
      plan + GreedyPlan(s, ids, pending, count).0 == plan + [chosen] + GreedyPlan(s, ids, Bump(pending, chosen), count - 1).0
  {
    var chosen := LeastLoaded(s, ids, pending);
    var rest := GreedyPlan(s, ids, Bump(pending, chosen), count - 1).0;
    assert GreedyPlan(s, ids, pending, count).0 == [chosen] + rest;
    assert plan + ([chosen] + rest) == plan + [chosen] + rest;
  }

  lemma ResultsStep(s: State, tids: seq<Tid>, i: nat, results: seq<ResultItem>)
    requires i < |tids|
    ensures results + ResultsOf(s, tids[i..]) ==
      (if tids[i] in s.tasks then results + [ResultOf(s, tids[i])] else results) + ResultsOf(s, tids[i + 1..])
  {
    assert tids[i..][1..] == tids[i + 1..];
    var rest := ResultsOf(s, tids[i + 1..]);
    assert results + ([] + rest) == results + rest;
  }

  class Store {
    var nodes: map<NodeId, Node>
    var registered: set<NodeId>
    var tasks: map<Tid, Task>
    var queues: map<QueueKey, seq<Tid>>
    var jobs: map<JobId, Job>
    var badReceipts: map<NodeId, nat>
    var now: real
    ghost var issued: set<Token>

    ghost function View(): State
      reads this
    {
      State(nodes, registered, tasks, queues, jobs, badReceipts, issued, now)
    }

    constructor (start: real)
      ensures Init(View()) && now == start
    {
      nodes, registered, tasks, queues, jobs, badReceipts, now := map[], {}, map[], map[], map[], map[], start;
      issued := {};
    }

    method PushTid(k: QueueKey, t: Tid)
      modifies this`queues
      ensures View() == Push(old(View()), k, t)
    {
      queues := queues[k := QueueIn(queues, k) + [t]];
    }

    method PopTid(k: QueueKey) returns (t: Option<Tid>)
      modifies this`queues
      ensures if Queue(old(View()), k) == [] then t == None && View() == old(View())
              else t == Some(Queue(old(View()), k)[0]) && View() == Pop(old(View()), k)
    {
      var q := QueueIn(queues, k);
      if q == [] {
        t := None;
      } else {
        t := Some(q[0]);
        queues := queues[k := q[1..]];
      }
    }

    method IsHealthy(n: NodeId) returns (healthy: bool)
      ensures healthy == Healthy(View(), n)
    {
      healthy := n in nodes && HealthyNode(nodes[n], now);
    }

    method GetHealthyNodeIds(exclude: Option<NodeId>, runtime: Runtime) returns (healthy: seq<NodeId>)
      ensures healthy == HealthyNodeIds(View(), exclude, runtime)
    {
      healthy := [];
      var ids := Sorted(registered);
      for i := 0 to |ids|
        invariant healthy == EligibleIn(View(), ids[..i], exclude, runtime)
      {
        EligibleSnoc(View(), ids[..i], ids[i], exclude, runtime);
        assert ids[..i + 1] == ids[..i] + [ids[i]];
        var alive := IsHealthy(ids[i]);
        if exclude != Some(ids[i]) && alive && Supports(nodes[ids[i]], runtime) {
          healthy := healthy + [ids[i]];
        }
      }
      assert ids[..|ids|] == ids;
    }

    method GetDestination(exclude: NodeId, runtime: Runtime) returns (dest: Option<NodeId>)
      ensures dest == Destination(View(), Some(exclude), runtime)
    {
      var healthy := GetHealthyNodeIds(Some(exclude), runtime);
      dest := if healthy == [] then None else Some(healthy[0]);
    }

    method Requeue(t: Tid, dest: Option<NodeId>)
      modifies this`tasks, this`queues
      ensures View() == RequeueTask(old(View()), t, dest)
    {
      if t !in tasks { return; }
      var task := tasks[t];
      tasks := tasks[t := Requeued(task, dest)];
      PushTid(KeyFor(dest, task.runtime), t);
    }

    method ClearCurrent(n: NodeId)
      requires n in nodes
      modifies this`nodes
      ensures View() == SetCurrent(old(View()), n, None)
    {
      nodes := nodes[n := nodes[n].(current := None)];
    }

    method RequeueStaleTasks()
      modifies this
      ensures View() == RequeueStale(old(View()))
    {
      ghost var was := View();
      var ids := Sorted(registered);
      var i := 0;
      while i < |ids|
        invariant 0 <= i <= |ids|
        invariant ReclaimAll(View(), ids[i..]) == ReclaimAll(was, ids)
      {
        var n := ids[i];
        i := i + 1;
        var healthy := IsHealthy(n);
        if n !in nodes || healthy { continue; }
        if nodes[n].current.None? { continue; }
        var t := nodes[n].current.value;
        if t !in tasks {
          ClearCurrent(n);
          continue;
        }
        if !Active(tasks[t].status) {
          ClearCurrent(n);
          continue;
        }
        var dest := GetDestination(n, tasks[t].runtime);
        Requeue(t, dest);
        ClearCurrent(n);
      }
    }

    method DrainQueueOf(n: NodeId)
      modifies this
      ensures View() == DrainQueue(old(View()), n)
    {
      while true
        invariant DrainQueue(View(), n) == DrainQueue(old(View()), n)
        decreases |Queue(View(), NodeQueue(n))|
      {
        ghost var before := View();
        var popped := PopTid(NodeQueue(n));
        if popped.None? { return; }
        var t := popped.value;
        if t !in tasks || Terminal(tasks[t].status) {
          assert View() == DrainOne(before, n);
          continue;
        }
        var dest := GetDestination(n, tasks[t].runtime);
        Requeue(t, dest);
        assert View() == DrainOne(before, n);
      }
    }

    method DrainDeadNodeQueues()
      modifies this
      ensures View() == DrainDead(old(View()))
    {
      ghost var was := View();
      var ids := Sorted(registered);
      var i := 0;
      while i < |ids|
        invariant 0 <= i <= |ids|
        invariant DrainAll(View(), ids[i..]) == DrainAll(was, ids)
      {
        var n := ids[i];
        i := i + 1;
        var healthy := IsHealthy(n);
        if n !in nodes || healthy { continue; }
        DrainQueueOf(n);
      }
    }

    method SweepStaleWork()
      modifies this
      ensures View() == SweepStale(old(View()))
    {
      RequeueStaleTasks();
      DrainDeadNodeQueues();
    }

    method PopQueueTid(k: QueueKey, n: NodeId, allowUnassigned: bool) returns (tid: Option<Tid>)
      modifies this`queues
      ensures (View(), tid) == PopTask(old(View()), k, n, allowUnassigned)
    {
      while true
        invariant View() == old(View()).(queues := queues)
        invariant PopTask(View(), k, n, allowUnassigned) == PopTask(old(View()), k, n, allowUnassigned)
        decreases |Queue(View(), k)|
      {
        var popped := PopTid(k);
        if popped.None? { return None; }
        var t := popped.value;
        if t !in tasks { continue; }
        if tasks[t].assignee.Some? && tasks[t].assignee.value != n { continue; }
        if !allowUnassigned && tasks[t].assignee.None? { continue; }
        return Some(t);
      }
    }

    method PopAnyFor(n: NodeId) returns (tid: Option<Tid>)
      requires n in nodes
      modifies this`queues
      ensures (View(), tid) == PopFor(old(View()), n)
    {
      var node := nodes[n];
      tid := PopQueueTid(NodeQueue(n), n, false);
      if tid.Some? { return; }
      ghost var own := View();
      var runtimes := UnassignedRuntimes(node);
      var i := 0;
      while i < |runtimes|
        invariant 0 <= i <= |runtimes| && tid == None
        invariant View() == own.(queues := queues)
        invariant PopUnassigned(View(), runtimes[i..], n) == PopUnassigned(own, runtimes, n)
      {
        tid := PopQueueTid(Unassigned(runtimes[i]), n, true);
        if tid.Some? { return; }
        assert runtimes[i..][1..] == runtimes[i + 1..];
        i := i + 1;
      }
    }

    method ClaimTaskForNode(n: NodeId, ct: Token, dt: Token) returns (r: Response)
      modifies this
      ensures (View(), r) == ClaimTask(old(View()), n, ct, dt)
    {
      RequeueStaleTasks();
      if n !in nodes { return NoTask; }
      if nodes[n].current.Some? {
        var existing := nodes[n].current.value;
        if existing in tasks && Active(tasks[existing].status) { return Existing(existing); }
        ClearCurrent(n);
      }
      ghost var ready := View();
      PopKeepsNodes(ready, n);
      var popped := PopAnyFor(n);
      if popped.None? { return NoTask; }
      var t := popped.value;
      if !Supports(nodes[n], tasks[t].runtime) {
        Requeue(t, None);
        return NoTask;
      }
      tasks := tasks[t := tasks[t].(status := Claimed, assignee := Some(n), claimToken := Some(ct), downloadToken := Some(dt))];
      nodes := nodes[n := nodes[n].(current := Some(t), lastSeen := now)];
      issued := issued + {ct, dt};
      r := Handed(t, ct, dt);
    }

    /* ----- Planning ----- */

    method SelectLeastLoadedNode(ids: seq<NodeId>, pending: map<NodeId, nat>) returns (chosen: NodeId, pending': map<NodeId, nat>)
      requires ids != []
      ensures chosen == LeastLoaded(View(), ids, pending)
      ensures pending' == Bump(pending, chosen)
    {
      // Python's min keeps the first of equal keys: scanning from the back, ties go to the front.
      var i := |ids| - 1;
      chosen := ids[i];
      while i > 0
        invariant 0 <= i < |ids|
        invariant chosen == LeastLoaded(View(), ids[i..], pending)
        decreases i
      {
        i := i - 1;
        var a := |QueueIn(queues, NodeQueue(ids[i]))| + if ids[i] in pending then pending[ids[i]] else 0;
        var b := |QueueIn(queues, NodeQueue(chosen))| + if chosen in pending then pending[chosen] else 0;
        LeastLoadedStep(View(), ids, pending, i);
        if a <= b { chosen := ids[i]; }
      }
      assert ids[0..] == ids;
      pending' := pending[chosen := (if chosen in pending then pending[chosen] else 0) + 1];
    }

    /** `count` tasks in a row, as one planning pass assigns them. */
    method PlanTasks(ids: seq<NodeId>, count: nat) returns (plan: seq<NodeId>)
      requires ids != []
      ensures plan == GreedyPlan(View(), ids, map[], count).0
    {
      plan := [];
      var pending: map<NodeId, nat> := map[];
      for i := 0 to count
        invariant |plan| == i
        invariant GreedyPlan(View(), ids, map[], count).0 == plan + GreedyPlan(View(), ids, pending, count - i).0
      {
        var chosen;
        GreedyStep(View(), ids, pending, count - i, plan);
        chosen, pending := SelectLeastLoadedNode(ids, pending);
        plan := plan + [chosen];
      }
    }

    method AddTask(job: JobId, t: Tid, runtime: Runtime, assignee: Option<NodeId>)
      modifies this`tasks, this`queues, this`jobs
      ensures View() == CreateTask(old(View()), job, t, runtime, assignee)
    {
      tasks := tasks[t := NewTask(job, runtime, assignee)];
      var list := if job in jobs then jobs[job].tasks else [];
      jobs := jobs[job := Job(list + [t], if job in jobs then jobs[job].status else Queued)];
      PushTid(KeyFor(assignee, runtime), t);
    }

    /** POST /start: tids are the fresh ids of the tasks planned. */
    method StartTasks(runtime: Runtime, job: JobId, tids: seq<Tid>) returns (r: Response)
      modifies this
      ensures (View(), r) == StartJob(old(View()), runtime, job, tids)
    {
      RequeueStaleTasks();
      var ids := GetHealthyNodeIds(None, runtime);
      if ids == [] || tids == [] { return Refused; }
      var plan := PlanTasks(ids, |tids|);
      jobs := jobs[job := Job([], Queued)];
      ghost var created := View();
      for i := 0 to |tids|
        invariant CreateAll(View(), job, runtime, tids[i..], plan[i..]) == CreateAll(created, job, runtime, tids, plan)
      {
        AddTask(job, tids[i], runtime, Some(plan[i]));
        assert tids[i..][1..] == tids[i + 1..] && plan[i..][1..] == plan[i + 1..];
      }
      var _ := RefreshJobStatus(job);
      r := Planned(job);
    }

    /* ----- Job status ----- */

    method CountStatuses(tids: seq<Tid>) returns (counts: map<Status, nat>)
      ensures counts.Keys == {Queued, Claimed, Running, Completed, Failed}
      ensures forall status :: status in counts ==> counts[status] == CountStatus(View(), tids, status)
    {
      counts := map[Queued := 0, Claimed := 0, Running := 0, Completed := 0, Failed := 0];
      for i := 0 to |tids|
        invariant counts.Keys == {Queued, Claimed, Running, Completed, Failed}
        invariant forall status :: status in counts ==> counts[status] + CountStatus(View(), tids[i..], status) == CountStatus(View(), tids, status)
      {
        assert tids[i..][1..] == tids[i + 1..];
        if tids[i] in tasks {
          var status := tasks[tids[i]].status;
          counts := counts[status := counts[status] + 1];
        }
      }
    }

    method RefreshJobStatus(job: JobId) returns (summary: Summary)
      modifies this`jobs
      ensures View() == RefreshJob(old(View()), job)
      ensures summary == JobSummary(old(View()), JobTasks(old(View()), job))
    {
      var tids := if job in jobs then jobs[job].tasks else [];
      var counts := CountStatuses(tids);
      var done := |tids| > 0 && counts[Completed] + counts[Failed] == |tids|;
      var overall :=
        if done && counts[Failed] > 0 then Failed
        else if done then Completed
        else if counts[Running] > 0 || counts[Claimed] > 0 then Running
        else Queued;
      jobs := jobs[job := Job(tids, overall)];
      summary := Summary(overall, done);
    }

    method GetJobResults(job: JobId) returns (results: seq<ResultItem>)
      ensures results == ResultsOf(View(), JobTasks(View(), job))
    {
      var tids := if job in jobs then jobs[job].tasks else [];
      results := [];
      for i := 0 to |tids|
        invariant ResultsOf(View(), tids) == results + ResultsOf(View(), tids[i..])
      {
        ResultsStep(View(), tids, i, results);
        if tids[i] in tasks {
          var task := tasks[tids[i]];
          var item := ResultItem(tids[i], task.status, if task.status == Completed then task.result else None, task.error);
          results := results + [item];
        }
      }
    }

    /* ----- Endpoints ----- */

    method RegisterHandler(n: NodeId, token: Token, wasm: bool) returns (r: Response)
      modifies this`nodes, this`registered
      ensures (View(), r) == Apply(old(View()), Register(n, token, wasm))
    {
      nodes := nodes[n := Node(token, now, wasm, None, None)];
      registered := registered + {n};
      r := Done;
    }

    method HealthHandler(n: NodeId, auth: Token) returns (r: Response)
      modifies this`nodes, this`registered
      ensures (View(), r) == Apply(old(View()), Health(n, auth))
    {
      if n !in nodes || nodes[n].token != auth { return Refused; }
      nodes := nodes[n := nodes[n].(lastSeen := now)];
      registered := registered + {n};
      r := Done;
    }

    method ClaimHandler(n: NodeId, auth: Token, ct: Token, dt: Token) returns (r: Response)
      modifies this
      ensures (View(), r) == Apply(old(View()), Claim(n, auth, ct, dt))
    {
      if n !in nodes || nodes[n].token != auth { return Refused; }
      r := ClaimTaskForNode(n, ct, dt);
    }

    method DownloadHandler(n: NodeId, auth: Token, t: Tid, token: Token, blobPresent: bool) returns (r: Response)
      modifies this`tasks
      ensures (View(), r) == Apply(old(View()), Fetch(n, auth, t, token, blobPresent))
    {
      if n !in nodes || nodes[n].token != auth { return Refused; }
      if t !in tasks { return Refused; }
      if tasks[t].assignee != Some(n) { return Refused; }
      if tasks[t].downloadToken != Some(token) { return Refused; }
      if !blobPresent { return Refused; }
      tasks := tasks[t := tasks[t].(status := Running)];
      r := Downloaded;
    }

    method CompleteTask(t: Tid, n: NodeId, bytes: Bytes)
      requires t in tasks && n in nodes
      modifies this
      ensures View() == Complete(old(View()), t, n, bytes)
    {
      tasks := tasks[t := tasks[t].(status := Completed, result := Some(bytes), error := "", claimToken := None, downloadToken := None)];
      nodes := nodes[n := nodes[n].(current := None, lastSeen := now)];
      var _ := RefreshJobStatus(tasks[t].job);
    }

    method FailTask(t: Tid, n: NodeId, message: string)
      requires t in tasks && n in nodes
      modifies this
      ensures View() == Fail(old(View()), t, n, message)
    {
      tasks := tasks[t := tasks[t].(status := Failed, error := message, claimToken := None, downloadToken := None)];
      nodes := nodes[n := nodes[n].(current := None, lastSeen := now)];
      var _ := RefreshJobStatus(tasks[t].job);
    }

    method ResultHandler(n: NodeId, auth: Token, t: Tid, token: Token, report: Report) returns (r: Response)
      modifies this
      ensures (View(), r) == Apply(old(View()), Deliver(n, auth, t, token, report))
    {
      if n !in nodes || nodes[n].token != auth { return Refused; }
      if t !in tasks { return Refused; }
      if tasks[t].assignee != Some(n) { return Refused; }
      if tasks[t].claimToken != Some(token) { return Refused; }
      match report
      case Output(bytes, receipt) =>
        if receipt == Missing || receipt == Undecodable { return Refused; }
        if receipt == Rejected {
          var bad := (if n in badReceipts then badReceipts[n] else 0) + 1;
          badReceipts := badReceipts[n := bad];
          if bad >= BAD_RECEIPT_THRESHOLD { registered := registered - {n}; }
          Requeue(t, None);
          return BadReceipt;
        }
        CompleteTask(t, n, bytes);
        r := Accepted;
      case Problem(message) =>
        FailTask(t, n, message);
        r := Accepted;
    }
  }
}
