/**
 Claims: what the pop loop hands over, what a claim does to the one task it takes, and that it keeps
 the invariant.
*/
module TaskQueueClaims {
  import opened Sequences
  import opened TaskQueue
  import opened TaskQueueInvariant

  /** Nothing is ever popped and dropped: the head of a queue the node may read is handed over. */
  lemma PopTaskHead(s: State, k: QueueKey, n: NodeId, allow: bool)
    requires Inv(s)
    requires k == NodeQueue(n) || (k.Unassigned? && allow)
    ensures PopTask(s, k, n, allow) == if Queue(s, k) == [] then (s, None) else (Pop(s, k), Some(Queue(s, k)[0]))
  {
    if Queue(s, k) != [] {
      assert Queue(s, k)[0] in Queue(s, k) && WaitsAt(s, k, Queue(s, k)[0]);
    }
  }

  /** Where a node's next task waits: its own queue, then wasm for anyone if it runs wasm, then cloudpickle for anyone. */
  function FirstWaiting(s: State, n: NodeId): (k: Option<QueueKey>)
    requires n in s.nodes
    ensures k.Some? ==> Queue(s, k.value) != []
  {
    if Queue(s, NodeQueue(n)) != [] then Some(NodeQueue(n))
    else if s.nodes[n].supportsWasm && Queue(s, Unassigned(Wasm)) != [] then Some(Unassigned(Wasm))
    else if Queue(s, Unassigned(Cloudpickle)) != [] then Some(Unassigned(Cloudpickle))
    else None
  }

  lemma PopForSplit(s: State, n: NodeId)
    requires Inv(s) && n in s.nodes
    ensures var k := FirstWaiting(s, n);
      PopFor(s, n) == if k.None? then (s, None) else (Pop(s, k.value), Some(Queue(s, k.value)[0]))
  {
    PopTaskHead(s, NodeQueue(n), n, false);
    if Queue(s, NodeQueue(n)) == [] {
      PopTaskHead(s, Unassigned(Wasm), n, true);
      PopTaskHead(s, Unassigned(Cloudpickle), n, true);
      if Supports(s.nodes[n], Wasm) {
        assert UnassignedRuntimes(s.nodes[n])[1..] == [Cloudpickle];
        assert PopUnassigned(s, UnassignedRuntimes(s.nodes[n]), n) ==
          if Queue(s, Unassigned(Wasm)) != [] then (Pop(s, Unassigned(Wasm)), Some(Queue(s, Unassigned(Wasm))[0]))
          else PopUnassigned(s, [Cloudpickle], n);
      }
      assert PopUnassigned(s, [Cloudpickle], n) ==
        if Queue(s, Unassigned(Cloudpickle)) != [] then (Pop(s, Unassigned(Cloudpickle)), Some(Queue(s, Unassigned(Cloudpickle))[0]))
        else (s, None);
    }
  }

  predicate HoldsIn(s: State, t: Tid, n: NodeId, token: Token) {
    && t in s.tasks && Active(s.tasks[t].status)
    && s.tasks[t].assignee == Some(n) && s.tasks[t].claimToken == Some(token)
  }

  /** `t` left the front of its home queue and is now in the hands of `n` with new tokens; nothing else changed. */
  ghost predicate Served(s: State, n: NodeId, t: Tid, ct: Token, dt: Token, s': State) {
    && n in s.nodes && t in s.tasks && s.tasks[t].status == Queued
    && Queue(s, Home(s.tasks[t])) != [] && Queue(s, Home(s.tasks[t]))[0] == t
    && s'.queues == s.queues[Home(s.tasks[t]) := Queue(s, Home(s.tasks[t]))[1..]]
    && s'.tasks == s.tasks[t := s.tasks[t].(status := Claimed, assignee := Some(n), claimToken := Some(ct), downloadToken := Some(dt))]
    && s'.nodes == s.nodes[n := s.nodes[n].(current := Some(t), lastSeen := s.now)]
    && s'.issued == s.issued + {ct, dt} && s'.jobs == s.jobs
    && s'.registered == s.registered && s'.badReceipts == s.badReceipts && s'.now == s.now
    && (s.tasks[t].assignee == None || s.tasks[t].assignee == Some(n))
  }

  lemma TakeServes(s: State, n: NodeId, k: QueueKey, t: Tid, ct: Token, dt: Token)
    requires n in s.nodes && t in s.tasks && s.tasks[t].status == Queued && Home(s.tasks[t]) == k
    requires Queue(s, k) != [] && Queue(s, k)[0] == t
    requires s.tasks[t].assignee == None || s.tasks[t].assignee == Some(n)
    ensures Served(s, n, t, ct, dt, TakeTask(Pop(s, k), n, t, ct, dt))
  {
  }

  /**
   A claim hands over the head of the first queue that has one of those the node may serve, and nothing only
   if they are all empty; the refusal for a runtime the node lacks never happens.
  */
  lemma ClaimFreshExact(s: State, n: NodeId, ct: Token, dt: Token)
    requires Inv(s) && n in s.nodes && !HoldsActive(s, n)
    ensures Inv(ClaimFresh(s, n, ct, dt).0)
    ensures var (s', r) := ClaimFresh(s, n, ct, dt);
      match FirstWaiting(s, n)
      case Some(k) => r == Handed(Queue(s, k)[0], ct, dt) && Served(s, n, Queue(s, k)[0], ct, dt, s') && Home(s.tasks[Queue(s, k)[0]]) == k
      case None => r == NoTask && s' == s
  {
    PopKeepsNodes(s, n);
    PopForSplit(s, n);
    var (s1, popped) := PopFor(s, n);
    if popped.Some? {
      var (t, k) := (popped.value, FirstWaiting(s, n).value);
      assert t in Queue(s, k) && WaitsAt(s, k, t);
      PopInv(s, k);
      assert Supports(s1.nodes[n], s1.tasks[t].runtime);
      TakeInv(s1, n, t, ct, dt);
      TakeServes(s, n, k, t, ct, dt);
    }
  }

  lemma ClaimInv(s: State, n: NodeId, ct: Token, dt: Token)
    requires Inv(s)
    ensures Inv(ClaimTask(s, n, ct, dt).0)
  {
    ReclaimAllInv(s, Sorted(s.registered));
    var s1 := RequeueStale(s);
    if n in s1.nodes && !HoldsActive(s1, n) {
      if s1.nodes[n].current.Some? {
        ClearCurrentInv(s1, n);
        ClaimFreshExact(SetCurrent(s1, n, None), n, ct, dt);
      } else {
        ClaimFreshExact(s1, n, ct, dt);
      }
    }
  }
}
