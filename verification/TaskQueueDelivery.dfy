/**
 The invariant under the endpoints that create, download and end tasks.
*/
module TaskQueueDelivery {
  import opened Sequences
  import opened TaskQueue
  import opened TaskQueueInvariant

  /* ----- Creating, downloading, delivering ----- */

  lemma CreatePlaced(s: State, job: JobId, t: Tid, runtime: Runtime, n: NodeId)
    requires PlacedBut(s, None) && t !in s.tasks
    ensures PlacedBut(CreateTask(s, job, t, runtime, Some(n)), None)
  {
    var s' := CreateTask(s, job, t, runtime, Some(n));
    forall k ensures Queue(s', k) == if k == NodeQueue(n) then Queue(s, k) + [t] else Queue(s, k) {}
    assert forall k :: t in Queue(s, k) ==> WaitsAt(s, k, t);
    AppendDistinct(Queue(s, NodeQueue(n)), t);
    forall k, u | u in Queue(s', k) ensures WaitsAt(s', k, u) {
      if u in Queue(s, k) { assert WaitsAt(s, k, u); }
    }
  }

  lemma CreateJobs(s: State, job: JobId, t: Tid, runtime: Runtime, n: NodeId)
    requires JobsRight(s) && job in s.jobs && t !in s.tasks
    ensures JobsRight(CreateTask(s, job, t, runtime, Some(n)))
  {
    AppendDistinct(s.jobs[job].tasks, t);
  }

  lemma CreateInv(s: State, job: JobId, t: Tid, runtime: Runtime, n: NodeId)
    requires Inv(s) && job in s.jobs && t !in s.tasks && n in s.nodes && Supports(s.nodes[n], runtime)
    ensures Inv(CreateTask(s, job, t, runtime, Some(n)))
  {
    CreatePlaced(s, job, t, runtime, n);
    CreateJobs(s, job, t, runtime, n);
    var s' := CreateTask(s, job, t, runtime, Some(n));
    HeldStep(s, s', t);
    RunnableStep(s, s', t);
  }

  lemma {:induction false} CreateAllInv(s: State, job: JobId, runtime: Runtime, tids: seq<Tid>, nodes: seq<NodeId>)
    requires |tids| == |nodes| && Inv(s) && job in s.jobs && Distinct(tids)
    requires forall t :: t in tids ==> t !in s.tasks
    requires forall n :: n in nodes ==> n in s.nodes && Supports(s.nodes[n], runtime)
    ensures Inv(CreateAll(s, job, runtime, tids, nodes))
    ensures job in CreateAll(s, job, runtime, tids, nodes).jobs
    decreases |tids|
  {
    if tids != [] {
      assert tids[0] in tids && nodes[0] in nodes;
      CreateInv(s, job, tids[0], runtime, nodes[0]);
      var s1 := CreateTask(s, job, tids[0], runtime, Some(nodes[0]));
      forall t | t in tids[1..] ensures t !in s1.tasks {
        var i :| 0 <= i < |tids| - 1 && tids[1..][i] == t;
        assert tids[i + 1] == t;
      }
      CreateAllInv(s1, job, runtime, tids[1..], nodes[1..]);
    }
  }

  lemma NewJobInv(s: State, job: JobId)
    requires Inv(s) && job !in s.jobs
    ensures Inv(s.(jobs := s.jobs[job := Job([], Queued)]))
  {
    var s' := s.(jobs := s.jobs[job := Job([], Queued)]);
    PlacedSame(s, s', None);
    forall t | t in s'.tasks ensures HeldRight(s', t) { assert HeldRight(s, t); }
    NewJobRight(s, job);
  }

  lemma NewJobRight(s: State, job: JobId)
    requires JobsRight(s) && job !in s.jobs
    ensures JobsRight(s.(jobs := s.jobs[job := Job([], Queued)]))
  {
  }

  lemma StartInv(s: State, runtime: Runtime, job: JobId, tids: seq<Tid>)
    requires Inv(s) && Enabled(s, Start(runtime, job, tids))
    ensures Inv(StartJob(s, runtime, job, tids).0)
  {
    ReclaimAllInv(s, Sorted(s.registered));
    ReclaimAllKeeps(s, Sorted(s.registered));
    var s1 := RequeueStale(s);
    var ids := HealthyNodeIds(s1, None, runtime);
    if ids != [] && tids != [] {
      var plan := GreedyPlan(s1, ids, map[], |tids|).0;
      var s2 := s1.(jobs := s1.jobs[job := Job([], Queued)]);
      NewJobInv(s1, job);
      CreateAllInv(s2, job, runtime, tids, plan);
      RefreshInv(CreateAll(s2, job, runtime, tids, plan), job);
    }
  }

  lemma DownloadInv(s: State, n: NodeId, t: Tid, token: Token, blob: bool)
    requires Inv(s)
    ensures Inv(Download(s, n, t, token, blob).0)
  {
    var s' := Download(s, n, t, token, blob).0;
    if s' != s {
      assert HeldRight(s, t);
      assert s.nodes[n := s.nodes[n]] == s.nodes;
      ActiveWriteInv(s, s', t, n, s'.tasks[t], s.nodes[n]);
    }
  }

  lemma EndAndRefreshInv(s: State, t: Tid, n: NodeId, task: Task)
    requires Inv(s) && t in s.tasks && Active(s.tasks[t].status) && s.tasks[t].assignee == Some(n) && n in s.nodes
    requires Terminal(task.status) && task.claimToken.None? && task.downloadToken.None?
    requires task.job == s.tasks[t].job
    ensures Inv(RefreshJob(Touch(PutTask(s, t, task), n, None), task.job))
  {
    ActiveWriteInv(s, Touch(PutTask(s, t, task), n, None), t, n, task, s.nodes[n].(current := None, lastSeen := s.now));
    RefreshInv(Touch(PutTask(s, t, task), n, None), task.job);
  }

  lemma RejectInv(s: State, t: Tid, n: NodeId)
    requires Inv(s) && t in s.tasks && Active(s.tasks[t].status)
    ensures Inv(RejectReceipt(s, t, n))
  {
    var bad := BadReceiptCount(s, n);
    var s1 := s.(badReceipts := s.badReceipts[n := bad],
                 registered := if bad >= BAD_RECEIPT_THRESHOLD then s.registered - {n} else s.registered);
    FleetInv(s, s1);
    RequeueInv(s1, t, None, None);
  }

  lemma SubmitInv(s: State, n: NodeId, t: Tid, token: Token, report: Report)
    requires Inv(s) && n in s.nodes
    ensures Inv(Submit(s, n, t, token, report).0)
  {
    if t in s.tasks && s.tasks[t].assignee == Some(n) && s.tasks[t].claimToken == Some(token) {
      assert HeldRight(s, t);
      match report
      case Problem(message) =>
        EndAndRefreshInv(s, t, n, s.tasks[t].(status := Failed, error := message, claimToken := None, downloadToken := None));
      case Output(bytes, receipt) =>
        if receipt == Rejected {
          RejectInv(s, t, n);
        } else if receipt == Verified {
          EndAndRefreshInv(s, t, n,
            s.tasks[t].(status := Completed, result := Some(bytes), error := "", claimToken := None, downloadToken := None));
        }
    }
  }

  /** Fleet writes (registering, heartbeats, time) leave tasks and queues alone. */
  lemma FleetInv(s: State, s': State)
    requires Inv(s) && Fleet(s')
    requires s'.tasks == s.tasks && s'.queues == s.queues && s'.jobs == s.jobs && s'.issued == s.issued
    requires forall n :: n in s.nodes ==> n in s'.nodes
    requires forall n :: n in s.nodes ==> s'.nodes[n].current == s.nodes[n].current
    requires forall n :: n in s.nodes ==> s'.nodes[n].supportsWasm == s.nodes[n].supportsWasm
    ensures Inv(s')
  {
    PlacedSame(s, s', None);
    forall t | t in s'.tasks ensures HeldRight(s', t) { assert HeldRight(s, t); }
  }
}
