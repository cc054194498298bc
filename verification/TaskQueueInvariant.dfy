/**
 What every step of the task queue keeps. `_pop_queue_tid` never looks at a task's status, so
 that a task runs once at a time rests on where each task id sits: a waiting task in exactly one
 queue, its home; every other task in none. The other half is who holds what: an active task is
 the current task of its node and carries tokens, and nobody else's token opens anything.
*/
module TaskQueueInvariant {
  import opened Sequences
  import opened TaskQueue

  ghost predicate WaitsAt(s: State, k: QueueKey, t: Tid) {
    t in s.tasks && s.tasks[t].status == Queued && Home(s.tasks[t]) == k
  }

  /** Queues hold exactly the waiting tasks, each once and at home; `hole` is a task just popped. */
  ghost predicate PlacedBut(s: State, hole: Option<Tid>) {
    && (forall k, t :: t in Queue(s, k) ==> WaitsAt(s, k, t) && hole != Some(t))
    && (forall t :: t in s.tasks && s.tasks[t].status == Queued && hole != Some(t) ==> t in Queue(s, Home(s.tasks[t])))
    && (forall k :: Distinct(Queue(s, k)))
    && (hole.Some? ==> hole.value in s.tasks && s.tasks[hole.value].status == Queued)
  }

  ghost predicate HeldRight(s: State, t: Tid)
    requires t in s.tasks
  {
    var task := s.tasks[t];
    if Active(task.status) then
      && task.assignee.Some? && task.assignee.value in s.nodes
      && s.nodes[task.assignee.value].current == Some(t)
      && task.claimToken.Some? && task.claimToken.value in s.issued
      && task.downloadToken.Some? && task.downloadToken.value in s.issued
    else
      task.claimToken.None? && task.downloadToken.None?
  }

  ghost predicate Held(s: State) {
    forall t :: t in s.tasks ==> HeldRight(s, t)
  }

  /** A waiting task is only ever assigned to a known node that can run it. */
  ghost predicate CanRun(task: Task, nodes: map<NodeId, Node>) {
    task.status == Queued && task.assignee.Some? ==>
      task.assignee.value in nodes && Supports(nodes[task.assignee.value], task.runtime)
  }

  ghost predicate RunnableOn(tasks: map<Tid, Task>, nodes: map<NodeId, Node>) {
    forall t :: t in tasks ==> CanRun(tasks[t], nodes)
  }

  ghost predicate Runnable(s: State) {
    RunnableOn(s.tasks, s.nodes)
  }

  ghost predicate Fleet(s: State) {
    s.registered <= s.nodes.Keys && forall n :: n in s.nodes ==> s.nodes[n].supportsCloudpickle.None?
  }

  /** Tasks and job lists match. */
  ghost predicate Listed(tasks: map<Tid, Task>, jobs: map<JobId, Job>) {
    && (forall t :: t in tasks ==> tasks[t].job in jobs && t in jobs[tasks[t].job].tasks)
    && (forall j, t :: j in jobs && t in jobs[j].tasks ==> t in tasks && tasks[t].job == j)
    && (forall j :: j in jobs ==> Distinct(jobs[j].tasks))
  }

  ghost predicate JobsRight(s: State) {
    Listed(s.tasks, s.jobs)
  }

  ghost predicate InvBut(s: State, hole: Option<Tid>) {
    PlacedBut(s, hole) && Held(s) && Runnable(s) && Fleet(s) && JobsRight(s)
  }

  ghost predicate Inv(s: State) {
    InvBut(s, None)
  }

  lemma HeadWaits(s: State, k: QueueKey)
    requires PlacedBut(s, None) && Queue(s, k) != []
    ensures WaitsAt(s, k, Queue(s, k)[0])
  {
    assert Queue(s, k)[0] in Queue(s, k);
  }

  /** Placement depends only on which tasks wait where. */
  lemma PlacedSame(s: State, s': State, hole: Option<Tid>)
    requires PlacedBut(s, hole) && s'.queues == s.queues
    requires forall t :: t in s.tasks && s.tasks[t].status == Queued ==>
      t in s'.tasks && s'.tasks[t].status == Queued && Home(s'.tasks[t]) == Home(s.tasks[t])
    requires forall t :: t in s'.tasks && s'.tasks[t].status == Queued ==> t in s.tasks && s.tasks[t].status == Queued
    ensures PlacedBut(s', hole)
  {
    forall k ensures Queue(s', k) == Queue(s, k) {}
    forall k, t | t in Queue(s', k) ensures WaitsAt(s', k, t) && hole != Some(t) { assert WaitsAt(s, k, t); }
  }

  /** Job lists depend only on which tasks there are and whose job they are. */
  lemma JobsSame(s: State, s': State)
    requires JobsRight(s) && s'.jobs == s.jobs && s'.tasks.Keys == s.tasks.Keys
    requires forall t :: t in s.tasks ==> s'.tasks[t].job == s.tasks[t].job
    ensures JobsRight(s')
  {
  }

  /** Who holds what, after a write to the one task `t` and to nodes that hold no other task. */
  lemma HeldStep(s: State, s': State, t: Tid)
    requires Held(s) && s.issued <= s'.issued && t in s'.tasks && HeldRight(s', t)
    requires forall u :: u in s'.tasks && u != t ==> u in s.tasks && s'.tasks[u] == s.tasks[u]
    requires s.nodes.Keys <= s'.nodes.Keys
    requires forall n :: n in s.nodes && s'.nodes[n].current != s.nodes[n].current ==>
      !HoldsActive(s, n) || s.nodes[n].current == Some(t)
    ensures Held(s')
  {
    forall u | u in s'.tasks ensures HeldRight(s', u) {
      if u != t { assert HeldRight(s, u); }
    }
  }

  /** Who can run what, after a write to the one task `t`. */
  lemma RunnableStep(s: State, s': State, t: Tid)
    requires Runnable(s) && t in s'.tasks
    requires forall u :: u in s'.tasks && u != t ==> u in s.tasks && s'.tasks[u] == s.tasks[u]
    requires s.nodes.Keys <= s'.nodes.Keys
    requires forall n :: n in s.nodes ==> s'.nodes[n].supportsWasm == s.nodes[n].supportsWasm
    requires forall n :: n in s.nodes ==> s'.nodes[n].supportsCloudpickle == s.nodes[n].supportsCloudpickle
    requires s'.tasks[t].status == Queued && s'.tasks[t].assignee.Some? ==>
      s'.tasks[t].assignee.value in s'.nodes && Supports(s'.nodes[s'.tasks[t].assignee.value], s'.tasks[t].runtime)
    ensures Runnable(s')
  {
  }

  /* ----- The elementary writes ----- */

  lemma PopPlaced(s: State, k: QueueKey)
    requires PlacedBut(s, None) && Queue(s, k) != []
    ensures PlacedBut(Pop(s, k), Some(Queue(s, k)[0]))
  {
    var s', head := Pop(s, k), Queue(s, k)[0];
    assert head in Queue(s, k) && WaitsAt(s, k, head);
    forall k' ensures Queue(s', k') == if k' == k then Queue(s, k)[1..] else Queue(s, k') {}
    forall k', t | t in Queue(s', k') ensures WaitsAt(s', k', t) && t != head {
      assert t in Queue(s, k') && WaitsAt(s, k', t);
      assert Distinct(Queue(s, k'));
    }
  }

  lemma PopInv(s: State, k: QueueKey)
    requires Inv(s) && Queue(s, k) != []
    ensures InvBut(Pop(s, k), Some(Queue(s, k)[0]))
  {
    PopPlaced(s, k);
    var s' := Pop(s, k);
    forall t | t in s'.tasks ensures HeldRight(s', t) { assert HeldRight(s, t); }
  }

  lemma RequeuePlaced(s: State, t: Tid, dest: Option<NodeId>, hole: Option<Tid>)
    requires PlacedBut(s, hole) && t in s.tasks
    requires hole == Some(t) || (hole == None && Active(s.tasks[t].status))
    ensures PlacedBut(RequeueTask(s, t, dest), None)
  {
    var s' := RequeueTask(s, t, dest);
    var key := KeyFor(dest, s.tasks[t].runtime);
    assert Home(s'.tasks[t]) == key;
    forall k ensures Queue(s', k) == if k == key then Queue(s, k) + [t] else Queue(s, k) {}
    forall k ensures t !in Queue(s, k) {}
    AppendDistinct(Queue(s, key), t);
    forall k ensures Distinct(Queue(s', k)) { assert Distinct(Queue(s, k)); }
    forall k, u | u in Queue(s', k) ensures WaitsAt(s', k, u) {
      if u in Queue(s, k) {
        assert WaitsAt(s, k, u);
      }
    }
    forall u | u in s'.tasks && s'.tasks[u].status == Queued ensures u in Queue(s', Home(s'.tasks[u])) {
      if u != t { assert u in Queue(s, Home(s.tasks[u])); }
    }
  }

  lemma RequeueInv(s: State, t: Tid, dest: Option<NodeId>, hole: Option<Tid>)
    requires InvBut(s, hole) && t in s.tasks
    requires hole == Some(t) || (hole == None && Active(s.tasks[t].status))
    requires dest.Some? ==> dest.value in s.nodes && Supports(s.nodes[dest.value], s.tasks[t].runtime)
    ensures Inv(RequeueTask(s, t, dest))
  {
    RequeuePlaced(s, t, dest, hole);
    RequeueHeld(s, t, dest);
    RequeueRest(s, t, dest);
  }

  lemma RequeueHeld(s: State, t: Tid, dest: Option<NodeId>)
    requires Held(s) && t in s.tasks
    ensures Held(RequeueTask(s, t, dest))
  {
    var s' := RequeueTask(s, t, dest);
    forall u | u in s'.tasks ensures HeldRight(s', u) {
      if u != t { assert HeldRight(s, u); }
    }
  }

  lemma RequeueRest(s: State, t: Tid, dest: Option<NodeId>)
    requires Runnable(s) && Fleet(s) && JobsRight(s) && t in s.tasks
    requires dest.Some? ==> dest.value in s.nodes && Supports(s.nodes[dest.value], s.tasks[t].runtime)
    ensures var s' := RequeueTask(s, t, dest); Runnable(s') && Fleet(s') && JobsRight(s')
  {
    var s' := RequeueTask(s, t, dest);
    RunnableStep(s, s', t);
    JobsSame(s, s');
  }

  lemma ClearCurrentInv(s: State, n: NodeId)
    requires Inv(s) && n in s.nodes && !HoldsActive(s, n)
    ensures Inv(SetCurrent(s, n, None))
  {
    var s' := SetCurrent(s, n, None);
    PlacedSame(s, s', None);
    forall t | t in s'.tasks ensures HeldRight(s', t) { assert HeldRight(s, t); }
  }

  lemma TakePlaced(s: State, n: NodeId, t: Tid, ct: Token, dt: Token)
    requires PlacedBut(s, Some(t)) && n in s.nodes
    ensures PlacedBut(TakeTask(s, n, t, ct, dt), None)
  {
    var s' := TakeTask(s, n, t, ct, dt);
    forall k ensures Queue(s', k) == Queue(s, k) {}
    forall k, u | u in Queue(s', k) ensures WaitsAt(s', k, u) { assert WaitsAt(s, k, u); }
  }

  lemma TakeInv(s: State, n: NodeId, t: Tid, ct: Token, dt: Token)
    requires InvBut(s, Some(t)) && n in s.nodes && !HoldsActive(s, n)
    ensures Inv(TakeTask(s, n, t, ct, dt))
  {
    TakePlaced(s, n, t, ct, dt);
    TakeHeld(s, n, t, ct, dt);
    TakeRest(s, n, t, ct, dt);
  }

  lemma TakeHeld(s: State, n: NodeId, t: Tid, ct: Token, dt: Token)
    requires Held(s) && t in s.tasks && n in s.nodes && !HoldsActive(s, n)
    ensures Held(TakeTask(s, n, t, ct, dt))
  {
    var s' := TakeTask(s, n, t, ct, dt);
    forall u | u in s'.tasks ensures HeldRight(s', u) {
      if u != t { assert HeldRight(s, u); }
    }
  }

  lemma TakeRest(s: State, n: NodeId, t: Tid, ct: Token, dt: Token)
    requires Runnable(s) && Fleet(s) && JobsRight(s) && t in s.tasks && n in s.nodes
    ensures var s' := TakeTask(s, n, t, ct, dt); Runnable(s') && Fleet(s') && JobsRight(s')
  {
    var s' := TakeTask(s, n, t, ct, dt);
    RunnableStep(s, s', t);
    JobsSame(s, s');
  }

  /** A write to an active task that leaves it out of the queues, and to its own node. */
  lemma ActiveWriteInv(s: State, s': State, t: Tid, n: NodeId, task: Task, node: Node)
    requires Inv(s) && t in s.tasks && Active(s.tasks[t].status) && n in s.nodes && s.tasks[t].assignee == Some(n)
    requires s' == s.(tasks := s.tasks[t := task], nodes := s.nodes[n := node])
    requires task.status != Queued && task.job == s.tasks[t].job && HeldRight(s', t)
    requires node == s.nodes[n].(current := node.current, lastSeen := node.lastSeen)
    ensures Inv(s')
  {
    assert HeldRight(s, t);
    HeldStep(s, s', t);
    ActiveWriteRest(s, s', t, n, task, node);
  }

  lemma ActiveWriteRest(s: State, s': State, t: Tid, n: NodeId, task: Task, node: Node)
    requires PlacedBut(s, None) && Runnable(s) && Fleet(s) && JobsRight(s)
    requires t in s.tasks && Active(s.tasks[t].status) && n in s.nodes
    requires s' == s.(tasks := s.tasks[t := task], nodes := s.nodes[n := node])
    requires task.status != Queued && task.job == s.tasks[t].job
    requires node == s.nodes[n].(current := node.current, lastSeen := node.lastSeen)
    ensures PlacedBut(s', None) && Runnable(s') && Fleet(s') && JobsRight(s')
  {
    PlacedSame(s, s', None);
    RunnableStep(s, s', t);
    JobsSame(s, s');
  }

  lemma RefreshInv(s: State, job: JobId)
    requires Inv(s) && job in s.jobs
    ensures Inv(RefreshJob(s, job))
  {
    var s' := RefreshJob(s, job);
    PlacedSame(s, s', None);
    forall t | t in s'.tasks ensures HeldRight(s', t) { assert HeldRight(s, t); }
  }

  /* ----- Failover ----- */

  lemma RequeueLostInv(s: State, n: NodeId, t: Tid, hole: Option<Tid>)
    requires InvBut(s, hole) && t in s.tasks
    requires hole == Some(t) || (hole == None && Active(s.tasks[t].status))
    ensures Inv(RequeueTask(s, t, Destination(s, Some(n), s.tasks[t].runtime)))
  {
    RequeueInv(s, t, Destination(s, Some(n), s.tasks[t].runtime), hole);
  }

  lemma ReclaimNodeInv(s: State, n: NodeId)
    requires Inv(s)
    ensures Inv(ReclaimNode(s, n))
  {
    if n in s.nodes && !Healthy(s, n) && s.nodes[n].current.Some? {
      var t := s.nodes[n].current.value;
      if t in s.tasks && Active(s.tasks[t].status) {
        var s1 := RequeueTask(s, t, Destination(s, Some(n), s.tasks[t].runtime));
        RequeueLostInv(s, n, t, None);
        ClearCurrentInv(s1, n);
      } else {
        ClearCurrentInv(s, n);
      }
    }
  }

  lemma {:induction false} ReclaimAllInv(s: State, ids: seq<NodeId>)
    requires Inv(s)
    ensures Inv(ReclaimAll(s, ids))
    decreases |ids|
  {
    if ids != [] {
      ReclaimNodeInv(s, ids[0]);
      ReclaimAllInv(ReclaimNode(s, ids[0]), ids[1..]);
    }
  }

  lemma DrainOneInv(s: State, n: NodeId)
    requires Inv(s) && Queue(s, NodeQueue(n)) != []
    ensures Inv(DrainOne(s, n))
  {
    var t := Queue(s, NodeQueue(n))[0];
    assert t in Queue(s, NodeQueue(n)) && WaitsAt(s, NodeQueue(n), t);
    PopInv(s, NodeQueue(n));
    RequeueLostInv(Pop(s, NodeQueue(n)), n, t, Some(t));
  }

  lemma {:induction false} DrainQueueInv(s: State, n: NodeId)
    requires Inv(s)
    ensures Inv(DrainQueue(s, n))
    decreases |Queue(s, NodeQueue(n))|
  {
    if Queue(s, NodeQueue(n)) != [] {
      DrainOneInv(s, n);
      DrainQueueInv(DrainOne(s, n), n);
    }
  }

  lemma {:induction false} DrainAllInv(s: State, ids: seq<NodeId>)
    requires Inv(s)
    ensures Inv(DrainAll(s, ids))
    decreases |ids|
  {
    if ids != [] {
      DrainQueueInv(s, ids[0]);
      DrainAllInv(DrainNode(s, ids[0]), ids[1..]);
    }
  }

  lemma SweepInv(s: State)
    requires Inv(s)
    ensures Inv(SweepStale(s))
  {
    ReclaimAllInv(s, Sorted(s.registered));
    DrainAllInv(RequeueStale(s), Sorted(RequeueStale(s).registered));
  }

  /* ----- What a pass of requeue_stale_tasks leaves alone ----- */

  /** Tasks may go from active to waiting, nodes may drop their current task; nothing else moves. */
  ghost predicate SameButRequeued(s: State, s': State) {
    && s'.registered == s.registered && s'.jobs == s.jobs && s'.badReceipts == s.badReceipts
    && s'.issued == s.issued && s'.now == s.now && s'.tasks.Keys == s.tasks.Keys && s'.nodes.Keys == s.nodes.Keys
    && (forall t :: t in s.tasks && s'.tasks[t] != s.tasks[t] ==>
         !Terminal(s.tasks[t].status) && s'.tasks[t] == Requeued(s.tasks[t], s'.tasks[t].assignee))
    && (forall n :: n in s.nodes && s'.nodes[n] != s.nodes[n] ==>
         !Healthy(s, n) && s'.nodes[n] == s.nodes[n].(current := None))
  }

  lemma SameAfterSame(s: State, s1: State, s2: State)
    requires SameButRequeued(s, s1) && SameButRequeued(s1, s2)
    ensures SameButRequeued(s, s2)
  {
  }

  lemma RequeueKeeps(s: State, t: Tid, dest: Option<NodeId>, n: NodeId)
    requires t in s.tasks && !Terminal(s.tasks[t].status) && n in s.nodes && !Healthy(s, n)
    ensures SameButRequeued(s, SetCurrent(RequeueTask(s, t, dest), n, None))
    ensures forall k :: Queue(s, k) <= Queue(SetCurrent(RequeueTask(s, t, dest), n, None), k)
  {
  }

  lemma ReclaimNodeKeeps(s: State, n: NodeId)
    ensures SameButRequeued(s, ReclaimNode(s, n))
    ensures forall k :: Queue(s, k) <= Queue(ReclaimNode(s, n), k)
  {
    if n in s.nodes && !Healthy(s, n) && HoldsActive(s, n) {
      var t := s.nodes[n].current.value;
      RequeueKeeps(s, t, Destination(s, Some(n), s.tasks[t].runtime), n);
    }
  }

  lemma {:induction false} ReclaimAllKeeps(s: State, ids: seq<NodeId>)
    ensures SameButRequeued(s, ReclaimAll(s, ids))
    ensures forall k :: Queue(s, k) <= Queue(ReclaimAll(s, ids), k)
    decreases |ids|
  {
    if ids != [] {
      var s1 := ReclaimNode(s, ids[0]);
      ReclaimNodeKeeps(s, ids[0]);
      ReclaimAllKeeps(s1, ids[1..]);
      SameAfterSame(s, s1, ReclaimAll(s1, ids[1..]));
    }
  }
}
