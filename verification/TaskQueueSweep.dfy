/**
 What one failover sweep does, in closed form: which tasks move, where to, in which order, and
 that a second sweep at the same time finds nothing left to do.
*/
module TaskQueueSweep {
  import opened Sequences
  import opened TaskQueue
  import opened TaskQueueInvariant
  import opened TaskQueueRuns

  /* ----- Destinations depend on the fleet only ----- */

  /** The node a task of this runtime is moved to; none when no live registered node can run it. */
  function Target(s: State, runtime: Runtime): Option<NodeId> {
    Destination(s, None, runtime)
  }

  function TargetKey(s: State, runtime: Runtime): QueueKey {
    KeyFor(Target(s, runtime), runtime)
  }

  ghost predicate SameFleet(s: State, s': State) {
    && s'.registered == s.registered && s'.now == s.now && s'.nodes.Keys == s.nodes.Keys
    && forall n :: n in s.nodes ==> s'.nodes[n] == s.nodes[n].(current := s'.nodes[n].current)
  }

  lemma {:induction false} EligibleSame(s: State, s': State, ids: seq<NodeId>, exclude: Option<NodeId>, runtime: Runtime)
    requires SameFleet(s, s')
    ensures EligibleIn(s', ids, exclude, runtime) == EligibleIn(s, ids, exclude, runtime)
  {
    if ids != [] {
      assert Eligible(s', ids[0], exclude, runtime) == Eligible(s, ids[0], exclude, runtime);
      EligibleSame(s, s', ids[1..], exclude, runtime);
    }
  }

  lemma TargetSame(s: State, s': State)
    requires SameFleet(s, s')
    ensures forall runtime :: Target(s', runtime) == Target(s, runtime)
    ensures forall n :: Healthy(s', n) == Healthy(s, n)
  {
    forall runtime { EligibleSame(s, s', Sorted(s.registered), None, runtime); }
  }

  lemma {:induction false} EligibleWithoutDead(s: State, ids: seq<NodeId>, n: NodeId, runtime: Runtime)
    requires !Healthy(s, n)
    ensures EligibleIn(s, ids, Some(n), runtime) == EligibleIn(s, ids, None, runtime)
  {
    if ids != [] {
      assert Eligible(s, ids[0], Some(n), runtime) == Eligible(s, ids[0], None, runtime);
      EligibleWithoutDead(s, ids[1..], n, runtime);
    }
  }

  /** Excluding a dead node changes nothing: it is not a candidate anyway. */
  lemma DeadNeverTarget(s: State, n: NodeId, runtime: Runtime)
    requires !Healthy(s, n)
    ensures Destination(s, Some(n), runtime) == Target(s, runtime) && Target(s, runtime) != Some(n)
  {
    EligibleWithoutDead(s, Sorted(s.registered), n, runtime);
  }

  /* ----- Reclaiming ----- */

  /** `t` is an active task that the dead node `n` points at. */
  predicate Lost(s: State, n: NodeId, t: Tid) {
    n in s.nodes && !Healthy(s, n) && s.nodes[n].current == Some(t) && t in s.tasks && Active(s.tasks[t].status)
  }

  function Rehomed(s: State, t: Tid): Task
    requires t in s.tasks
  {
    Requeued(s.tasks[t], Target(s, s.tasks[t].runtime))
  }

  lemma ReclaimNodeExact(s: State, n: NodeId)
    ensures var s' := ReclaimNode(s, n);
      && SameFleet(s, s') && s'.tasks.Keys == s.tasks.Keys
      && (forall t :: t in s.tasks ==> s'.tasks[t] == if Lost(s, n, t) then Rehomed(s, t) else s.tasks[t])
      && (forall m :: m in s.nodes ==> s'.nodes[m].current == if m == n && !Healthy(s, n) then None else s.nodes[m].current)
  {
    ReclaimNodeFleet(s, n);
    ReclaimNodeTasks(s, n);
  }

  lemma ReclaimNodeFleet(s: State, n: NodeId)
    ensures var s' := ReclaimNode(s, n);
      && SameFleet(s, s')
      && (forall m :: m in s.nodes ==> s'.nodes[m].current == if m == n && !Healthy(s, n) then None else s.nodes[m].current)
  {
  }

  lemma ReclaimNodeTasks(s: State, n: NodeId)
    ensures var s' := ReclaimNode(s, n);
      && s'.tasks.Keys == s.tasks.Keys
      && (forall t :: t in s.tasks ==> s'.tasks[t] == if Lost(s, n, t) then Rehomed(s, t) else s.tasks[t])
  {
    if n in s.nodes && !Healthy(s, n) && HoldsActive(s, n) {
      DeadNeverTarget(s, n, s.tasks[s.nodes[n].current.value].runtime);
    }
  }

  ghost predicate LostBy(s: State, ids: seq<NodeId>, t: Tid) {
    exists n :: n in ids && Lost(s, n, t)
  }

  lemma {:induction false} ReclaimAllTasks(s: State, ids: seq<NodeId>, t: Tid)
    requires t in s.tasks
    ensures SameFleet(s, ReclaimAll(s, ids)) && t in ReclaimAll(s, ids).tasks
    ensures ReclaimAll(s, ids).tasks[t] == if LostBy(s, ids, t) then Rehomed(s, t) else s.tasks[t]
    decreases |ids|
  {
    if ids != [] {
      var s1 := ReclaimNode(s, ids[0]);
      ReclaimNodeExact(s, ids[0]);
      TargetSame(s, s1);
      ReclaimAllTasks(s1, ids[1..], t);
      if Lost(s, ids[0], t) {
        assert ids[0] in ids;
      } else {
        assert LostBy(s, ids, t) <==> LostBy(s1, ids[1..], t) by {
          forall n | n in ids && Lost(s, n, t) ensures n in ids[1..] && Lost(s1, n, t) {}
          forall n | n in ids[1..] && Lost(s1, n, t) ensures n in ids && Lost(s, n, t) {}
        }
      }
    }
  }

  lemma {:induction false} ReclaimAllNodes(s: State, ids: seq<NodeId>, m: NodeId)
    requires m in s.nodes
    ensures m in ReclaimAll(s, ids).nodes
    ensures ReclaimAll(s, ids).nodes[m] == if m in ids && !Healthy(s, m) then s.nodes[m].(current := None) else s.nodes[m]
    decreases |ids|
  {
    if ids != [] {
      ReclaimNodeExact(s, ids[0]);
      TargetSame(s, ReclaimNode(s, ids[0]));
      ReclaimAllNodes(ReclaimNode(s, ids[0]), ids[1..], m);
    }
  }

  /* ----- Draining ----- */

  /** Of the tasks in `q`, in order, those whose runtime sends them to queue `k`. */
  function Routed(s: State, q: seq<Tid>, k: QueueKey): seq<Tid> {
    if q == [] then []
    else (if q[0] in s.tasks && TargetKey(s, s.tasks[q[0]].runtime) == k then [q[0]] else []) + Routed(s, q[1..], k)
  }

  lemma {:induction false} RoutedSame(s: State, s': State, q: seq<Tid>, k: QueueKey)
    requires SameFleet(s, s') && s'.tasks.Keys == s.tasks.Keys
    requires forall t :: t in s.tasks ==> s'.tasks[t].runtime == s.tasks[t].runtime
    ensures Routed(s', q, k) == Routed(s, q, k)
  {
    TargetSame(s, s');
    if q != [] { RoutedSame(s, s', q[1..], k); }
  }

  /** Nothing is routed to a dead node. */
  lemma {:induction false} RoutedToDead(s: State, q: seq<Tid>, n: NodeId)
    requires !Healthy(s, n)
    ensures Routed(s, q, NodeQueue(n)) == []
  {
    if q != [] {
      forall runtime { DeadNeverTarget(s, n, runtime); }
      RoutedToDead(s, q[1..], n);
    }
  }

  /** A dead node's queue of distinct unfinished tasks: all that draining it relies on. */
  ghost predicate Drainable(s: State, n: NodeId) {
    && !Healthy(s, n) && Distinct(Queue(s, NodeQueue(n)))
    && forall t :: t in Queue(s, NodeQueue(n)) ==> t in s.tasks && !Terminal(s.tasks[t].status)
  }

  lemma InvDrainable(s: State, n: NodeId)
    requires Inv(s) && !Healthy(s, n)
    ensures Drainable(s, n)
  {
    assert forall t :: t in Queue(s, NodeQueue(n)) ==> WaitsAt(s, NodeQueue(n), t);
  }

  /** One popped task goes to the end of its target queue. */
  lemma DrainOneExact(s: State, n: NodeId)
    requires Drainable(s, n) && Queue(s, NodeQueue(n)) != []
    ensures var t := Queue(s, NodeQueue(n))[0];
      && t in s.tasks && TargetKey(s, s.tasks[t].runtime) != NodeQueue(n)
      && DrainOne(s, n) == Push(PutTask(Pop(s, NodeQueue(n)), t, Rehomed(s, t)), TargetKey(s, s.tasks[t].runtime), t)
  {
    var t := Queue(s, NodeQueue(n))[0];
    assert t in Queue(s, NodeQueue(n));
    var s1 := Pop(s, NodeQueue(n));
    TargetSame(s, s1);
    DeadNeverTarget(s1, n, s1.tasks[t].runtime);
    DeadNeverTarget(s, n, s.tasks[t].runtime);
  }

  lemma DrainOneStep(s: State, n: NodeId)
    requires Drainable(s, n) && Queue(s, NodeQueue(n)) != []
    ensures var s1, q := DrainOne(s, n), Queue(s, NodeQueue(n));
      && SameFleet(s, s1) && s1.nodes == s.nodes && q[0] in s.tasks
      && s1.tasks == s.tasks[q[0] := Rehomed(s, q[0])]
      && Queue(s1, NodeQueue(n)) == q[1..] && Drainable(s1, n)
  {
    DrainOneExact(s, n);
    var s1, q := DrainOne(s, n), Queue(s, NodeQueue(n));
    assert Queue(s1, NodeQueue(n)) == q[1..];
    assert forall t :: t in q[1..] ==> t in q;
  }

  lemma DrainOneQueues(s: State, n: NodeId, k: QueueKey)
    requires Drainable(s, n) && Queue(s, NodeQueue(n)) != [] && k != NodeQueue(n)
    ensures Queue(DrainOne(s, n), k) == Queue(s, k) + Routed(s, [Queue(s, NodeQueue(n))[0]], k)
  {
    DrainOneExact(s, n);
    var t := Queue(s, NodeQueue(n))[0];
    assert Routed(s, [t], k) == if TargetKey(s, s.tasks[t].runtime) == k then [t] else [] by {
      assert [t][1..] == [];
    }
  }

  lemma {:induction false} DrainQueueTasks(s: State, n: NodeId, t: Tid)
    requires Drainable(s, n) && t in s.tasks
    ensures t in DrainQueue(s, n).tasks
    ensures DrainQueue(s, n).tasks[t] == if t in Queue(s, NodeQueue(n)) then Rehomed(s, t) else s.tasks[t]
    decreases |Queue(s, NodeQueue(n))|
  {
    var q := Queue(s, NodeQueue(n));
    if q != [] {
      var s1 := DrainOne(s, n);
      DrainOneStep(s, n);
      DrainQueueTasks(s1, n, t);
      TargetSame(s, s1);
      assert q == [q[0]] + q[1..];
    }
  }

  lemma RoutedSplit(s: State, q: seq<Tid>, k: QueueKey)
    requires q != []
    ensures Routed(s, q, k) == Routed(s, [q[0]], k) + Routed(s, q[1..], k)
  {
    assert [q[0]][1..] == [];
  }

  lemma RoutedNext(s: State, n: NodeId, k: QueueKey)
    requires Drainable(s, n) && Queue(s, NodeQueue(n)) != [] && k != NodeQueue(n)
    ensures var s1, q := DrainOne(s, n), Queue(s, NodeQueue(n));
      Queue(s1, k) + Routed(s1, q[1..], k) == Queue(s, k) + Routed(s, q, k)
  {
    var s1, q := DrainOne(s, n), Queue(s, NodeQueue(n));
    DrainOneStep(s, n);
    DrainOneQueues(s, n, k);
    RoutedSame(s, s1, q[1..], k);
    RoutedSplit(s, q, k);
    Regroup(Queue(s, k), Routed(s, [q[0]], k), Routed(s, q[1..], k));
  }

  lemma {:induction false} DrainQueueQueues(s: State, n: NodeId, k: QueueKey)
    requires Drainable(s, n)
    ensures Queue(DrainQueue(s, n), k) == if k == NodeQueue(n) then [] else Queue(s, k) + Routed(s, Queue(s, NodeQueue(n)), k)
    decreases |Queue(s, NodeQueue(n))|
  {
    var q := Queue(s, NodeQueue(n));
    if q != [] {
      var s1 := DrainOne(s, n);
      DrainOneStep(s, n);
      DrainQueueQueues(s1, n, k);
      if k != NodeQueue(n) {
        RoutedNext(s, n, k);
      }
    }
  }

  /** What queue `k` gets when `n` is drained. */
  function Gain(s: State, n: NodeId, k: QueueKey): seq<Tid> {
    if n in s.nodes && !Healthy(s, n) then Routed(s, Queue(s, NodeQueue(n)), k) else []
  }

  /** The tasks of all dead nodes among `ids`, node by node, that go to queue `k`. */
  function RoutedAll(s: State, ids: seq<NodeId>, k: QueueKey): seq<Tid> {
    if ids == [] then [] else Gain(s, ids[0], k) + RoutedAll(s, ids[1..], k)
  }

  predicate Abandoned(s: State, ids: seq<NodeId>, k: QueueKey) {
    k.NodeQueue? && k.node in ids && k.node in s.nodes && !Healthy(s, k.node)
  }

  lemma DrainNodeTasks(s: State, n: NodeId, t: Tid)
    requires Inv(s) && t in s.tasks
    ensures var s', dead := DrainNode(s, n), n in s.nodes && !Healthy(s, n);
      t in s'.tasks && s'.tasks[t] == if dead && t in Queue(s, NodeQueue(n)) then Rehomed(s, t) else s.tasks[t]
  {
    if n in s.nodes && !Healthy(s, n) {
      InvDrainable(s, n);
      DrainQueueTasks(s, n, t);
    }
  }

  lemma DrainNodeQueues(s: State, n: NodeId, k: QueueKey)
    requires Inv(s)
    ensures Queue(DrainNode(s, n), k) == if Abandoned(s, [n], k) then [] else Queue(s, k) + Gain(s, n, k)
  {
    Regroup(Queue(s, k), [], []);
    if n in s.nodes && !Healthy(s, n) {
      InvDrainable(s, n);
      DrainQueueQueues(s, n, k);
    }
  }

  lemma DrainNodeFleet(s: State, n: NodeId)
    requires Inv(s)
    ensures SameFleet(s, DrainNode(s, n)) && DrainNode(s, n).tasks.Keys == s.tasks.Keys
    ensures forall t :: t in s.tasks ==> DrainNode(s, n).tasks[t].runtime == s.tasks[t].runtime
    ensures Inv(DrainNode(s, n))
  {
    DrainQueueKeeps(s, n);
    DrainQueueInv(s, n);
  }

  lemma {:induction false} RoutedAllSame(s: State, s': State, ids: seq<NodeId>, k: QueueKey)
    requires SameFleet(s, s') && s'.tasks.Keys == s.tasks.Keys
    requires forall t :: t in s.tasks ==> s'.tasks[t].runtime == s.tasks[t].runtime
    requires forall n :: n in ids && !Healthy(s, n) ==> Queue(s', NodeQueue(n)) == Queue(s, NodeQueue(n))
    ensures RoutedAll(s', ids, k) == RoutedAll(s, ids, k)
  {
    if ids != [] {
      TargetSame(s, s');
      assert ids[0] in ids;
      RoutedSame(s, s', Queue(s, NodeQueue(ids[0])), k);
      RoutedAllSame(s, s', ids[1..], k);
    }
  }

  ghost predicate Waiting(s: State, ids: seq<NodeId>, t: Tid) {
    exists n :: n in ids && n in s.nodes && !Healthy(s, n) && t in Queue(s, NodeQueue(n))
  }

  /** Draining node by node leaves the other dead queues as they were. */
  lemma DrainNodeLeavesDead(s: State, n: NodeId, m: NodeId)
    requires Inv(s) && m != n && !Healthy(s, m)
    ensures Queue(DrainNode(s, n), NodeQueue(m)) == Queue(s, NodeQueue(m))
  {
    DrainNodeQueues(s, n, NodeQueue(m));
    RoutedToDead(s, Queue(s, NodeQueue(n)), m);
  }

  lemma {:induction false} DrainAllTasks(s: State, ids: seq<NodeId>, t: Tid)
    requires Inv(s) && Distinct(ids) && t in s.tasks
    ensures t in DrainAll(s, ids).tasks
    ensures DrainAll(s, ids).tasks[t] == if Waiting(s, ids, t) then Rehomed(s, t) else s.tasks[t]
    decreases |ids|
  {
    if ids != [] {
      var s1 := DrainNode(s, ids[0]);
      DrainNodeTasks(s, ids[0], t);
      DrainNodeFleet(s, ids[0]);
      TargetSame(s, s1);
      forall n | n in ids[1..] && !Healthy(s, n) ensures Queue(s1, NodeQueue(n)) == Queue(s, NodeQueue(n)) {
        DrainNodeLeavesDead(s, ids[0], n);
      }
      DrainAllTasks(s1, ids[1..], t);
      assert Waiting(s1, ids[1..], t) <==> Waiting(s, ids[1..], t);
      var first := ids[0] in s.nodes && !Healthy(s, ids[0]) && t in Queue(s, NodeQueue(ids[0]));
      assert Waiting(s, ids, t) <==> first || Waiting(s, ids[1..], t);
    }
  }

  /** What the rest will bring to queue `k` is the same after the first node is drained. */
  lemma DrainFirstRest(s: State, ids: seq<NodeId>, k: QueueKey)
    requires Inv(s) && Distinct(ids) && ids != []
    ensures var s1 := DrainNode(s, ids[0]);
      RoutedAll(s1, ids[1..], k) == RoutedAll(s, ids[1..], k) && (Abandoned(s1, ids[1..], k) <==> Abandoned(s, ids[1..], k))
  {
    var s1 := DrainNode(s, ids[0]);
    DrainNodeFleet(s, ids[0]);
    TargetSame(s, s1);
    forall n | n in ids[1..] && !Healthy(s, n) ensures Queue(s1, NodeQueue(n)) == Queue(s, NodeQueue(n)) {
      DrainNodeLeavesDead(s, ids[0], n);
    }
    RoutedAllSame(s, s1, ids[1..], k);
  }

  /** What draining the first node does to queue `k`. */
  lemma DrainFirst(s: State, ids: seq<NodeId>, k: QueueKey)
    requires Inv(s) && ids != []
    ensures Abandoned(s, [ids[0]], k) ==> Queue(DrainNode(s, ids[0]), k) == [] && RoutedAll(s, ids[1..], k) == []
    ensures !Abandoned(s, [ids[0]], k) ==>
      Queue(DrainNode(s, ids[0]), k) + RoutedAll(s, ids[1..], k) == Queue(s, k) + RoutedAll(s, ids, k)
  {
    DrainNodeQueues(s, ids[0], k);
    if Abandoned(s, [ids[0]], k) {
      RoutedAllToDead(s, ids[1..], k.node);
    }
    Regroup(Queue(s, k), Gain(s, ids[0], k), RoutedAll(s, ids[1..], k));
  }

  lemma {:induction false} DrainAllQueues(s: State, ids: seq<NodeId>, k: QueueKey)
    requires Inv(s) && Distinct(ids)
    ensures Queue(DrainAll(s, ids), k) == if Abandoned(s, ids, k) then [] else Queue(s, k) + RoutedAll(s, ids, k)
    decreases |ids|
  {
    if ids != [] {
      DrainFirst(s, ids, k);
      DrainFirstRest(s, ids, k);
      DrainQueueInv(s, ids[0]);
      DrainAllQueues(DrainNode(s, ids[0]), ids[1..], k);
      assert Abandoned(s, ids, k) <==> Abandoned(s, [ids[0]], k) || Abandoned(s, ids[1..], k);
    }
  }

  lemma {:induction false} RoutedAllToDead(s: State, ids: seq<NodeId>, n: NodeId)
    requires !Healthy(s, n)
    ensures RoutedAll(s, ids, NodeQueue(n)) == []
  {
    if ids != [] {
      RoutedToDead(s, Queue(s, NodeQueue(ids[0])), n);
      RoutedAllToDead(s, ids[1..], n);
    }
  }

  /* ----- The sweep ----- */

  /** A task the sweep must move: a dead registered node points at it, whoever holds it by now, or it waits for one. */
  ghost predicate Stranded(s: State, t: Tid)
    requires t in s.tasks
  {
    exists n :: Dead(s, n) && (
      (Active(s.tasks[t].status) && s.nodes[n].current == Some(t)) ||
      (s.tasks[t].status == Queued && s.tasks[t].assignee == Some(n)))
  }

  lemma SortedDistinct(ids: set<nat>)
    ensures Distinct(Sorted(ids))
  {
  }

  /** After reclaiming, a task waits in a dead registered node's queue exactly if it did before. */
  lemma ReclaimKeepsWaiting(s: State, t: Tid)
    requires Inv(s) && t in s.tasks
    ensures var s1, ids := RequeueStale(s), Sorted(s.registered);
      Waiting(s1, ids, t) <==> exists n: NodeId :: Dead(s, n) && s.tasks[t].status == Queued && s.tasks[t].assignee == Some(n)
  {
    var s1, ids := RequeueStale(s), Sorted(s.registered);
    ReclaimAllInv(s, ids);
    ReclaimAllTasks(s, ids, t);
    TargetSame(s, s1);
    assert forall n :: t in Queue(s1, NodeQueue(n)) <==> WaitsAt(s1, NodeQueue(n), t);
    forall runtime, n | !Healthy(s, n) { DeadNeverTarget(s, n, runtime); }
    if Waiting(s1, ids, t) {
      var n :| n in ids && n in s1.nodes && !Healthy(s1, n) && t in Queue(s1, NodeQueue(n));
      assert Dead(s, n) && s.tasks[t].status == Queued && s.tasks[t].assignee == Some(n);
    }
    if n: NodeId :| Dead(s, n) && s.tasks[t].status == Queued && s.tasks[t].assignee == Some(n) {
      assert !LostBy(s, ids, t);
      assert n in ids && t in Queue(s1, NodeQueue(n));
    }
  }

  /**
   The sweep task by task: a stranded task waits again, on the first live registered node that can
   run it or unassigned when there is none; every other task is untouched.
  */
  lemma SweepTasks(s: State, t: Tid)
    requires Inv(s) && t in s.tasks
    ensures t in SweepStale(s).tasks
    ensures SweepStale(s).tasks[t] == if Stranded(s, t) then Rehomed(s, t) else s.tasks[t]
  {
    var ids, s1 := Sorted(s.registered), RequeueStale(s);
    ReclaimAllInv(s, ids);
    ReclaimAllTasks(s, ids, t);
    TargetSame(s, s1);
    SortedDistinct(s.registered);
    ReclaimKeepsWaiting(s, t);
    DrainAllTasks(s1, ids, t);
    if LostBy(s, ids, t) {
      var n :| n in ids && Lost(s, n, t);
      assert Dead(s, n);
    }
    assert LostBy(s, ids, t) <==> exists n :: Dead(s, n) && Active(s.tasks[t].status) && s.nodes[n].current == Some(t);
  }

  /** The sweep node by node: dead registered nodes drop their current task, the others keep it. */
  lemma SweepNodes(s: State, n: NodeId)
    requires Inv(s) && n in s.nodes
    ensures n in SweepStale(s).nodes
    ensures SweepStale(s).nodes[n] == if Dead(s, n) then s.nodes[n].(current := None) else s.nodes[n]
  {
    var ids, s1 := Sorted(s.registered), RequeueStale(s);
    ReclaimAllNodes(s, ids, n);
    DrainAllKeepsNodes(s1, Sorted(s1.registered));
  }

  lemma {:induction false} DrainAllKeepsNodes(s: State, ids: seq<NodeId>)
    ensures DrainAll(s, ids).nodes == s.nodes
    decreases |ids|
  {
    if ids != [] {
      DrainQueueKeepsNodes(s, ids[0]);
      DrainAllKeepsNodes(DrainNode(s, ids[0]), ids[1..]);
    }
  }

  lemma {:induction false} DrainQueueKeepsNodes(s: State, n: NodeId)
    ensures DrainQueue(s, n).nodes == s.nodes
    decreases |Queue(s, NodeQueue(n))|
  {
    if Queue(s, NodeQueue(n)) != [] { DrainQueueKeepsNodes(DrainOne(s, n), n); }
  }

  /** The node is dead and points at an active task that none of `seen` is. */
  predicate Points(s: State, n: NodeId, seen: set<Tid>) {
    && n in s.nodes && !Healthy(s, n) && s.nodes[n].current.Some? && s.nodes[n].current.value !in seen
    && s.nodes[n].current.value in s.tasks && Active(s.tasks[s.nodes[n].current.value].status)
  }

  /** The task the node points at, if it belongs in queue `k`. */
  function Pointed(s: State, n: NodeId, seen: set<Tid>, k: QueueKey): seq<Tid> {
    if Points(s, n, seen) && TargetKey(s, s.tasks[s.nodes[n].current.value].runtime) == k then [s.nodes[n].current.value] else []
  }

  function Seen(s: State, n: NodeId, seen: set<Tid>): set<Tid> {
    if Points(s, n, seen) then seen + {s.nodes[n].current.value} else seen
  }

  /** What reclaiming appends to queue `k`: the tasks dead nodes point at, node by node, each only once. */
  function Reclaimed(s: State, ids: seq<NodeId>, seen: set<Tid>, k: QueueKey): seq<Tid>
    decreases |ids|
  {
    if ids == [] then [] else Pointed(s, ids[0], seen, k) + Reclaimed(s, ids[1..], Seen(s, ids[0], seen), k)
  }

  /** `s1` is `s` after some nodes were visited: `seen` are the tasks taken from them. */
  ghost predicate Visited(s: State, s1: State, ids: seq<NodeId>, seen: set<Tid>) {
    && SameFleet(s, s1) && s1.tasks.Keys == s.tasks.Keys
    && (forall n :: n in ids && n in s.nodes ==> s1.nodes[n].current == s.nodes[n].current)
    && TasksVisited(s, s1, seen)
  }

  ghost predicate TasksVisited(s: State, s1: State, seen: set<Tid>)
    requires s1.tasks.Keys == s.tasks.Keys
  {
    && (forall t :: t in s.tasks ==> s1.tasks[t].runtime == s.tasks[t].runtime)
    && forall t :: t in s.tasks ==> (Active(s1.tasks[t].status) <==> Active(s.tasks[t].status) && t !in seen)
  }

  lemma SamePoints(s: State, s1: State, ids: seq<NodeId>, seen: set<Tid>, n: NodeId)
    requires Visited(s, s1, ids, seen) && n in ids
    ensures Points(s1, n, {}) <==> Points(s, n, seen)
  {
    TargetSame(s, s1);
  }

  lemma SamePointed(s: State, s1: State, ids: seq<NodeId>, seen: set<Tid>, n: NodeId, k: QueueKey)
    requires Visited(s, s1, ids, seen) && n in ids
    ensures Pointed(s1, n, {}, k) == Pointed(s, n, seen, k)
  {
    SamePoints(s, s1, ids, seen, n);
    TargetSame(s, s1);
  }

  lemma VisitTasks(s: State, s1: State, n: NodeId, seen: set<Tid>)
    requires s1.tasks.Keys == s.tasks.Keys && TasksVisited(s, s1, seen) && (Points(s1, n, {}) <==> Points(s, n, seen))
    requires n in s.nodes && n in s1.nodes && s1.nodes[n].current == s.nodes[n].current
    ensures ReclaimNode(s1, n).tasks.Keys == s.tasks.Keys && TasksVisited(s, ReclaimNode(s1, n), Seen(s, n, seen))
  {
    ReclaimNodeTasks(s1, n);
    var s2 := ReclaimNode(s1, n);
    forall t | t in s.tasks
      ensures s2.tasks[t].runtime == s.tasks[t].runtime
      ensures Active(s2.tasks[t].status) <==> Active(s.tasks[t].status) && t !in Seen(s, n, seen)
    {
      assert Lost(s1, n, t) <==> Points(s1, n, {}) && s1.nodes[n].current == Some(t);
    }
  }

  lemma VisitOne(s: State, s1: State, ids: seq<NodeId>, seen: set<Tid>)
    requires Visited(s, s1, ids, seen) && ids != [] && Distinct(ids)
    ensures Visited(s, ReclaimNode(s1, ids[0]), ids[1..], Seen(s, ids[0], seen))
  {
    SamePoints(s, s1, ids, seen, ids[0]);
    ReclaimNodeFleet(s1, ids[0]);
    if ids[0] in s.nodes { VisitTasks(s, s1, ids[0], seen); }
    assert forall n :: n in ids[1..] ==> n in ids && n != ids[0];
  }

  /** One visited node: its task, if it points at one, goes to the end of its target queue. */
  lemma VisitQueue(s: State, n: NodeId, k: QueueKey)
    ensures Queue(ReclaimNode(s, n), k) == Queue(s, k) + Pointed(s, n, {}, k)
  {
    if Points(s, n, {}) { DeadNeverTarget(s, n, s.tasks[s.nodes[n].current.value].runtime); }
    Regroup(Queue(s, k), [], []);
  }

  lemma {:induction false} ReclaimedQueues(s: State, s1: State, ids: seq<NodeId>, seen: set<Tid>, k: QueueKey)
    requires Visited(s, s1, ids, seen) && Distinct(ids)
    ensures Queue(ReclaimAll(s1, ids), k) == Queue(s1, k) + Reclaimed(s, ids, seen, k)
    decreases |ids|
  {
    if ids == [] {
      Regroup(Queue(s1, k), [], []);
    } else {
      VisitOne(s, s1, ids, seen);
      VisitQueue(s1, ids[0], k);
      SamePointed(s, s1, ids, seen, ids[0], k);
      TailDistinct(ids);
      ReclaimedQueues(s, ReclaimNode(s1, ids[0]), ids[1..], Seen(s, ids[0], seen), k);
      Regroup(Queue(s1, k), Pointed(s, ids[0], seen, k), Reclaimed(s, ids[1..], Seen(s, ids[0], seen), k));
    }
  }

  lemma TailDistinct(ids: seq<NodeId>)
    requires Distinct(ids) && ids != []
    ensures Distinct(ids[1..])
  {
    assert forall j :: 0 <= j < |ids| - 1 ==> ids[1..][j] == ids[j + 1];
  }

  /** Reclaiming sends nothing to a dead node. */
  lemma {:induction false} NothingReclaimedToDead(s: State, ids: seq<NodeId>, seen: set<Tid>, n: NodeId)
    requires !Healthy(s, n)
    ensures Reclaimed(s, ids, seen, NodeQueue(n)) == []
    decreases |ids|
  {
    if ids != [] {
      if Points(s, ids[0], seen) { DeadNeverTarget(s, n, s.tasks[s.nodes[ids[0]].current.value].runtime); }
      NothingReclaimedToDead(s, ids[1..], Seen(s, ids[0], seen), n);
    }
  }

  lemma ReclaimClosed(s: State, k: QueueKey)
    ensures Queue(RequeueStale(s), k) == Queue(s, k) + Reclaimed(s, Sorted(s.registered), {}, k)
  {
    SortedDistinct(s.registered);
    ReclaimedQueues(s, s, Sorted(s.registered), {}, k);
  }

  /** Draining after reclaiming finds in dead nodes' queues what was there before. */
  lemma RoutedAfterReclaim(s: State, k: QueueKey)
    requires Inv(s)
    ensures RoutedAll(RequeueStale(s), Sorted(s.registered), k) == RoutedAll(s, Sorted(s.registered), k)
  {
    var ids, s1 := Sorted(s.registered), RequeueStale(s);
    ReclaimAllKeeps(s, ids);
    forall n | n in ids && !Healthy(s, n) ensures Queue(s1, NodeQueue(n)) == Queue(s, NodeQueue(n)) {
      ReclaimClosed(s, NodeQueue(n));
      NothingReclaimedToDead(s, ids, {}, n);
      Regroup(Queue(s, NodeQueue(n)), [], []);
    }
    forall t | t in s.tasks ensures s1.tasks[t].runtime == s.tasks[t].runtime { ReclaimAllTasks(s, ids, t); }
    RoutedAllSame(s, s1, ids, k);
  }

  /**
   The sweep queue by queue, from the state before it: a dead registered node's queue is empty; any other
   queue keeps what it held, followed by the active tasks dead nodes point at and then by the tasks that
   waited for dead nodes, of both those that belong there, node by node and in their old order.
  */
  lemma SweepQueues(s: State, k: QueueKey)
    requires Inv(s)
    ensures var ids := Sorted(s.registered);
      Queue(SweepStale(s), k) ==
        if k.NodeQueue? && Dead(s, k.node) then [] else Queue(s, k) + Reclaimed(s, ids, {}, k) + RoutedAll(s, ids, k)
  {
    var ids, s1 := Sorted(s.registered), RequeueStale(s);
    ReclaimAllInv(s, ids);
    ReclaimAllKeeps(s, ids);
    assert SameFleet(s, s1);
    TargetSame(s, s1);
    SortedDistinct(s.registered);
    DrainAllQueues(s1, ids, k);
    ReclaimClosed(s, k);
    RoutedAfterReclaim(s, k);
  }

  /** Two waiting tasks that go to the same queue keep their order. */
  lemma {:induction false} RoutedKeepsOrder(s: State, q: seq<Tid>, k: QueueKey, i: nat, j: nat)
    requires i < j < |q| && q[i] in s.tasks && q[j] in s.tasks
    requires TargetKey(s, s.tasks[q[i]].runtime) == k == TargetKey(s, s.tasks[q[j]].runtime)
    ensures exists a, b :: 0 <= a < b < |Routed(s, q, k)| && Routed(s, q, k)[a] == q[i] && Routed(s, q, k)[b] == q[j]
  {
    if i == 0 {
      RoutedHas(s, q[1..], k, j - 1);
      var b :| 0 <= b < |Routed(s, q[1..], k)| && Routed(s, q[1..], k)[b] == q[j];
      assert Routed(s, q, k)[0] == q[0] && Routed(s, q, k)[b + 1] == q[j];
    } else {
      RoutedKeepsOrder(s, q[1..], k, i - 1, j - 1);
      var a, b :| 0 <= a < b < |Routed(s, q[1..], k)| && Routed(s, q[1..], k)[a] == q[i] && Routed(s, q[1..], k)[b] == q[j];
      var shift := |Routed(s, q, k)| - |Routed(s, q[1..], k)|;
      assert Routed(s, q, k)[a + shift] == q[i] && Routed(s, q, k)[b + shift] == q[j];
    }
  }

  lemma {:induction false} RoutedHas(s: State, q: seq<Tid>, k: QueueKey, i: nat)
    requires i < |q| && q[i] in s.tasks && TargetKey(s, s.tasks[q[i]].runtime) == k
    ensures exists a :: 0 <= a < |Routed(s, q, k)| && Routed(s, q, k)[a] == q[i]
  {
    if i == 0 {
      assert Routed(s, q, k)[0] == q[0];
    } else {
      RoutedHas(s, q[1..], k, i - 1);
      var a :| 0 <= a < |Routed(s, q[1..], k)| && Routed(s, q[1..], k)[a] == q[i];
      assert Routed(s, q, k)[a + (|Routed(s, q, k)| - |Routed(s, q[1..], k)|)] == q[i];
    }
  }

  lemma SweepEmptiesTheDead(s: State, n: NodeId)
    requires Inv(s) && Dead(s, n)
    ensures var s' := SweepStale(s);
      Dead(s', n) && Queue(s', NodeQueue(n)) == [] && s'.nodes[n].current == None
  {
    SweepKeeps(s);
    SweepNodes(s, n);
    SweepQueues(s, NodeQueue(n));
  }

  /** A node with no queue and no current task has no task that is not over. */
  lemma IdleHoldsNothing(s: State, n: NodeId)
    requires Inv(s) && n in s.nodes && s.nodes[n].current == None && Queue(s, NodeQueue(n)) == []
    ensures forall t :: t in s.tasks && s.tasks[t].assignee == Some(n) ==> Terminal(s.tasks[t].status)
  {
    forall t | t in s.tasks && s.tasks[t].assignee == Some(n) ensures Terminal(s.tasks[t].status) {
      assert HeldRight(s, t);
    }
  }

  /** After a sweep no dead registered node has a queue, a current task, or a claimed or running task. */
  lemma SweepFreesTheDead(s: State, n: NodeId)
    requires Inv(s) && Dead(s, n)
    ensures var s' := SweepStale(s);
      && Dead(s', n) && Queue(s', NodeQueue(n)) == [] && s'.nodes[n].current == None
      && forall t :: t in s'.tasks && s'.tasks[t].assignee == Some(n) ==> Terminal(s'.tasks[t].status)
  {
    SweepEmptiesTheDead(s, n);
    SweepInv(s);
    IdleHoldsNothing(SweepStale(s), n);
  }

  /** No task is lost, revived or duplicated: the unfinished tasks are the same before and after. */
  lemma SweepConservesWork(s: State)
    requires Inv(s)
    ensures (set t | t in SweepStale(s).tasks && !Terminal(SweepStale(s).tasks[t].status))
         == (set t | t in s.tasks && !Terminal(s.tasks[t].status))
  {
    SweepKeeps(s);
  }

  lemma {:induction false} ReclaimIdle(s: State, ids: seq<NodeId>)
    requires forall n :: n in ids && n in s.nodes && !Healthy(s, n) ==> s.nodes[n].current == None
    ensures ReclaimAll(s, ids) == s
    decreases |ids|
  {
    if ids != [] {
      assert ids[0] in ids;
      ReclaimIdle(s, ids[1..]);
    }
  }

  lemma {:induction false} DrainIdle(s: State, ids: seq<NodeId>)
    requires forall n :: n in ids && n in s.nodes && !Healthy(s, n) ==> Queue(s, NodeQueue(n)) == []
    ensures DrainAll(s, ids) == s
    decreases |ids|
  {
    if ids != [] {
      assert ids[0] in ids;
      DrainIdle(s, ids[1..]);
    }
  }

  /** A second sweep at the same time changes nothing. */
  lemma SweepIdempotent(s: State)
    requires Inv(s)
    ensures SweepStale(SweepStale(s)) == SweepStale(s)
  {
    var s' := SweepStale(s);
    SweepKeeps(s);
    forall n | n in Sorted(s'.registered) && n in s'.nodes && !Healthy(s', n)
      ensures s'.nodes[n].current == None && Queue(s', NodeQueue(n)) == []
    {
      assert Dead(s, n);
      SweepFreesTheDead(s, n);
    }
    ReclaimIdle(s', Sorted(s'.registered));
    DrainIdle(s', Sorted(s'.registered));
  }
}
