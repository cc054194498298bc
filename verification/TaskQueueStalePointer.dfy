/**
 What a rejected receipt leaves behind: the node still points at the task it lost. While that node lives the
 pointer does nothing; once it is dead, the next sweep or claim takes the task from whoever holds it then.
*/
module TaskQueueStalePointer {
  import opened Sequences
  import opened TaskQueue
  import opened TaskQueueInvariant
  import opened TaskQueueSafety
  import opened TaskQueueRuns
  import opened TaskQueueSweep

  /** Some dead registered node points at the task. */
  ghost predicate DeadPointer(s: State, t: Tid) {
    exists n :: Dead(s, n) && s.nodes[n].current == Some(t)
  }

  /** A sweep takes an active task from its live holder exactly when a dead registered node points at it. */
  lemma SweepRobsIff(s: State, t: Tid)
    requires Inv(s) && t in s.tasks && Active(s.tasks[t].status)
    requires s.tasks[t].assignee.Some? && Healthy(s, s.tasks[t].assignee.value)
    ensures t in SweepStale(s).tasks
    ensures SweepStale(s).tasks[t] != s.tasks[t] <==> DeadPointer(s, t)
    ensures SweepStale(s).tasks[t] != s.tasks[t] ==> SweepStale(s).tasks[t] == Rehomed(s, t)
  {
    SweepTasks(s, t);
    assert Rehomed(s, t).status == Queued;
    assert Stranded(s, t) <==> DeadPointer(s, t);
  }

  /** So does the reclaiming that every claim and every start begins with. */
  lemma ReclaimRobsIff(s: State, t: Tid)
    requires Inv(s) && t in s.tasks && Active(s.tasks[t].status)
    requires s.tasks[t].assignee.Some? && Healthy(s, s.tasks[t].assignee.value)
    ensures t in RequeueStale(s).tasks
    ensures RequeueStale(s).tasks[t] != s.tasks[t] <==> DeadPointer(s, t)
  {
    TaskAfter(s, t);
  }

  /** A claim by `n` is answered with the record, tokens included, of a task that another node holds. */
  ghost predicate ShowsOther(s: State, n: NodeId, ct: Token, dt: Token, t: Tid) {
    var (s', r) := ClaimTask(s, n, ct, dt);
    r == Existing(t) && t in s'.tasks && s'.tasks[t].assignee != Some(n)
  }

  /** The node points at an active task assigned elsewhere, and nobody dead does. */
  ghost predicate PointsElsewhere(s: State, n: NodeId, t: Tid) {
    && n in s.nodes && s.nodes[n].current == Some(t)
    && t in s.tasks && Active(s.tasks[t].status) && s.tasks[t].assignee != Some(n)
    && !DeadPointer(s, t)
  }

  /** The other effect of a stale pointer, while its node lives: the claim finds a task in hand that is not its own. */
  lemma ShowsOtherIff(s: State, n: NodeId, ct: Token, dt: Token, t: Tid)
    requires Inv(s)
    ensures ShowsOther(s, n, ct, dt, t) <==> PointsElsewhere(s, n, t)
    ensures ShowsOther(s, n, ct, dt, t) ==> ClaimTask(s, n, ct, dt).0 == RequeueStale(s) && RequeueStale(s).tasks[t] == s.tasks[t]
  {
    var s1 := RequeueStale(s);
    AnswerIs(s, n, ct, dt, t);
    ReclaimAllKeeps(s, Sorted(s.registered));
    if n in s.nodes && t in s.tasks {
      TaskAfter(s, t);
      NodeAfter(s, n);
      PointerAfter(s, s1, n, t);
    }
  }

  /** Which task a claim finds in hand. */
  lemma AnswerIs(s: State, n: NodeId, ct: Token, dt: Token, t: Tid)
    requires Inv(s)
    ensures ShowsOther(s, n, ct, dt, t) <==>
      var s1 := RequeueStale(s);
      n in s1.nodes && s1.nodes[n].current == Some(t) && t in s1.tasks && Active(s1.tasks[t].status) && s1.tasks[t].assignee != Some(n)
    ensures ShowsOther(s, n, ct, dt, t) ==> ClaimTask(s, n, ct, dt).0 == RequeueStale(s)
  {
    ClaimShape(s, n, ct, dt);
  }

  lemma TaskAfter(s: State, t: Tid)
    requires t in s.tasks
    ensures t in RequeueStale(s).tasks
    ensures RequeueStale(s).tasks[t] == if Active(s.tasks[t].status) && DeadPointer(s, t) then Rehomed(s, t) else s.tasks[t]
    ensures Rehomed(s, t).status == Queued
  {
    ReclaimAllTasks(s, Sorted(s.registered), t);
    LostIffDeadPointer(s, t);
  }

  lemma NodeAfter(s: State, n: NodeId)
    requires n in s.nodes
    ensures n in RequeueStale(s).nodes
    ensures RequeueStale(s).nodes[n].current == if Dead(s, n) then None else s.nodes[n].current
  {
    ReclaimAllNodes(s, Sorted(s.registered), n);
  }

  /** Reclaiming leaves a pointer at an active task exactly when it was one and nobody dead points there. */
  lemma PointerAfter(s: State, s1: State, n: NodeId, t: Tid)
    requires n in s.nodes && n in s1.nodes && t in s.tasks && t in s1.tasks
    requires s1.nodes[n].current == if Dead(s, n) then None else s.nodes[n].current
    requires s1.tasks[t] == if Active(s.tasks[t].status) && DeadPointer(s, t) then Rehomed(s, t) else s.tasks[t]
    requires Rehomed(s, t).status == Queued
    ensures s1.nodes[n].current == Some(t) && Active(s1.tasks[t].status) <==>
      s.nodes[n].current == Some(t) && Active(s.tasks[t].status) && !DeadPointer(s, t)
    ensures Active(s1.tasks[t].status) ==> s1.tasks[t] == s.tasks[t]
  {
  }

  lemma LostIffDeadPointer(s: State, t: Tid)
    requires t in s.tasks
    ensures LostBy(s, Sorted(s.registered), t) <==> Active(s.tasks[t].status) && DeadPointer(s, t)
  {
    var ids := Sorted(s.registered);
    if LostBy(s, ids, t) {
      var n :| n in ids && Lost(s, n, t);
      assert Dead(s, n) && s.nodes[n].current == Some(t);
    }
    if Active(s.tasks[t].status) && DeadPointer(s, t) {
      var n :| Dead(s, n) && s.nodes[n].current == Some(t);
      assert n in ids && Lost(s, n, t);
    }
  }

  /* ----- A run that gets there ----- */

  lemma {:induction false} AllHealthyIdle(s: State, ids: seq<NodeId>)
    requires forall n :: n in ids ==> Healthy(s, n)
    ensures ReclaimAll(s, ids) == s
  {
    if ids != [] { AllHealthyIdle(s, ids[1..]); }
  }

  ghost predicate RunsTo(s: State, steps: seq<Step>, t: State) {
    ValidRun(s, steps) && Run(s, steps) == t
  }

  lemma OneStep(s: State, step: Step, t: State)
    requires Enabled(s, step) && Next(s, step) == t
    ensures RunsTo(s, [step], t)
  {
    assert [step][1..] == [];
  }

  lemma Joined(s: State, a: seq<Step>, t: State, b: seq<Step>, u: State)
    requires RunsTo(s, a, t) && RunsTo(t, b, u)
    ensures RunsTo(s, a + b, u)
  {
    RunSplit(s, a, b);
  }

  function FreshNode(token: Token, now: real): Node {
    Node(token, now, false, None, None)
  }

  const FIRST := State(map[], {}, map[], map[], map[], map[], {}, 1.0)

  /** One node, ... */
  const REGISTERED := FIRST.(nodes := map[0 := FreshNode(100, 1.0)], registered := {0})

  /** ... a job of one task, planned for it, ... */
  const STARTED := REGISTERED.(
    tasks := map[7 := NewTask(0, Cloudpickle, Some(0))],
    queues := map[NodeQueue(0) := [7]],
    jobs := map[0 := Job([7], Queued)])

  /** ... and claimed; */
  const CLAIMED := STARTED.(
    nodes := map[0 := FreshNode(100, 1.0).(current := Some(7))],
    tasks := map[7 := Task(0, Cloudpickle, Claimed, Some(0), Some(10), Some(11), None, "")],
    queues := map[NodeQueue(0) := []],
    issued := {10, 11})

  /** its receipt is rejected; */
  const REJECTED := CLAIMED.(
    tasks := map[7 := NewTask(0, Cloudpickle, None)],
    queues := map[NodeQueue(0) := [], Unassigned(Cloudpickle) := [7]],
    badReceipts := map[0 := 1])

  /** a second node joins ... */
  const JOINED := REJECTED.(nodes := REJECTED.nodes[1 := FreshNode(101, 1.0)], registered := {0, 1})

  /** ... and claims the task; */
  const TAKEN := JOINED.(
    nodes := JOINED.nodes[1 := FreshNode(101, 1.0).(current := Some(7))],
    tasks := map[7 := Task(0, Cloudpickle, Claimed, Some(1), Some(12), Some(13), None, "")],
    queues := map[NodeQueue(0) := [], Unassigned(Cloudpickle) := []],
    issued := {10, 11, 12, 13})

  /** six seconds later only the second has been heard of. */
  const LATER := TAKEN.(nodes := TAKEN.nodes[1 := FreshNode(101, 7.0).(current := Some(7))], now := 7.0)

  lemma SortedSingle(n: NodeId)
    ensures Sorted({n}) == [n]
  {
    var ids := Sorted({n});
    assert n in ids;
    assert forall i :: 0 <= i < |ids| ==> ids[i] in ids;
  }

  lemma RegisterFirst()
    ensures RunsTo(FIRST, [Register(0, 100, false)], REGISTERED)
  {
    OneStep(FIRST, Register(0, 100, false), REGISTERED);
  }

  lemma StartFirst()
    ensures RunsTo(REGISTERED, [Start(Cloudpickle, 0, [7])], STARTED)
  {
    var s := REGISTERED;
    SortedSingle(0);
    AllHealthyIdle(s, [0]);
    assert [0][1..] == [] && [7][1..] == [];
    assert HealthyNodeIds(s, None, Cloudpickle) == [0];
    assert GreedyPlan(s, [0], map[], 1).0 == [0] by {
      assert [0] + [] == [0];
    }
    var s2 := s.(jobs := s.jobs[0 := Job([], Queued)]);
    var s3 := CreateTask(s2, 0, 7, Cloudpickle, Some(0));
    assert [] + [7] == [7];
    assert s3 == STARTED;
    assert CreateAll(s2, 0, Cloudpickle, [7], [0]) == s3;
    assert CountStatus(s3, [7], Running) == CountStatus(s3, [7], Claimed) == CountStatus(s3, [7], Completed) == CountStatus(s3, [7], Failed) == 0;
    assert JobSummary(s3, [7]).status == Queued;
    assert RefreshJob(s3, 0).jobs == s3.jobs;
    OneStep(REGISTERED, Start(Cloudpickle, 0, [7]), STARTED);
  }

  lemma ClaimFirst()
    ensures RunsTo(STARTED, [Claim(0, 100, 10, 11)], CLAIMED)
  {
    SortedSingle(0);
    AllHealthyIdle(STARTED, [0]);
    assert [7][1..] == [];
    assert PopTask(STARTED, NodeQueue(0), 0, false) == (Pop(STARTED, NodeQueue(0)), Some(7));
    OneStep(STARTED, Claim(0, 100, 10, 11), CLAIMED);
  }

  lemma RejectFirst()
    ensures RunsTo(CLAIMED, [Deliver(0, 100, 7, 10, Output([], Rejected))], REJECTED)
  {
    assert [] + [7] == [7];
    OneStep(CLAIMED, Deliver(0, 100, 7, 10, Output([], Rejected)), REJECTED);
  }

  lemma RegisterSecond()
    ensures RunsTo(REJECTED, [Register(1, 101, false)], JOINED)
  {
    OneStep(REJECTED, Register(1, 101, false), JOINED);
  }

  lemma PopSecond()
    ensures PopFor(JOINED, 1) == (Pop(JOINED, Unassigned(Cloudpickle)), Some(7))
  {
    assert [7][1..] == [];
    assert PopTask(JOINED, NodeQueue(1), 1, false) == (JOINED, None);
    assert PopTask(JOINED, Unassigned(Cloudpickle), 1, true) == (Pop(JOINED, Unassigned(Cloudpickle)), Some(7));
  }

  /** A claim when nothing is stale and the node has nothing in hand. */
  lemma ClaimGoes(s: State, n: NodeId, ct: Token, dt: Token, popped: State, t: Tid)
    requires n in s.nodes && s.nodes[n].current.None? && forall m :: m in s.registered ==> Healthy(s, m)
    requires PopFor(s, n) == (popped, Some(t)) && n in popped.nodes && t in popped.tasks
    requires Supports(popped.nodes[n], popped.tasks[t].runtime)
    ensures ClaimTask(s, n, ct, dt).0 == TakeTask(popped, n, t, ct, dt)
  {
    AllHealthyIdle(s, Sorted(s.registered));
  }

  lemma ClaimSecond()
    ensures ClaimTask(JOINED, 1, 12, 13).0 == TAKEN
  {
    var popped := Pop(JOINED, Unassigned(Cloudpickle));
    PopSecond();
    ClaimGoes(JOINED, 1, 12, 13, popped, 7);
    TakeSecond(popped);
  }

  lemma RunSecond()
    ensures RunsTo(JOINED, [Claim(1, 101, 12, 13)], TAKEN)
  {
    ClaimSecond();
    OneStep(JOINED, Claim(1, 101, 12, 13), TAKEN);
  }

  lemma RunLater() returns (steps: seq<Step>)
    ensures RunsTo(TAKEN, steps, LATER)
  {
    var ticked := TAKEN.(now := 7.0);
    OneStep(TAKEN, Tick(7.0), ticked);
    OneStep(ticked, Health(1, 101), LATER);
    steps := [Tick(7.0)] + [Health(1, 101)];
    Joined(TAKEN, [Tick(7.0)], ticked, [Health(1, 101)], LATER);
  }

  lemma TakeSecond(popped: State)
    requires popped == Pop(JOINED, Unassigned(Cloudpickle))
    ensures TakeTask(popped, 1, 7, 12, 13) == TAKEN
  {
    assert [7][1..] == [];
    assert popped.queues.Keys == TAKEN.queues.Keys;
    assert popped.queues[NodeQueue(0)] == [] && popped.queues[Unassigned(Cloudpickle)] == [];
    assert popped.queues == TAKEN.queues;
  }

  /**
   Claimed, rejected, claimed by a second node, the first node goes silent, and a sweep takes the task from
   the second one, which is alive and at work.
  */
  lemma StalePointerRun() returns (steps: seq<Step>)
    ensures Init(FIRST) && RunsTo(FIRST, steps, LATER)
    ensures Healthy(LATER, 1) && Dead(LATER, 0) && LATER.tasks[7].status == Claimed && LATER.tasks[7].assignee == Some(1)
    ensures 7 in SweepStale(LATER).tasks && SweepStale(LATER).tasks[7].status == Queued
  {
    RegisterFirst();
    StartFirst();
    ClaimFirst();
    RejectFirst();
    RegisterSecond();
    RunSecond();
    var last := RunLater();
    steps := [Register(0, 100, false)] + [Start(Cloudpickle, 0, [7])];
    Joined(FIRST, [Register(0, 100, false)], REGISTERED, [Start(Cloudpickle, 0, [7])], STARTED);
    Joined(FIRST, steps, STARTED, [Claim(0, 100, 10, 11)], CLAIMED);
    steps := steps + [Claim(0, 100, 10, 11)];
    Joined(FIRST, steps, CLAIMED, [Deliver(0, 100, 7, 10, Output([], Rejected))], REJECTED);
    steps := steps + [Deliver(0, 100, 7, 10, Output([], Rejected))];
    Joined(FIRST, steps, REJECTED, [Register(1, 101, false)], JOINED);
    steps := steps + [Register(1, 101, false)];
    Joined(FIRST, steps, JOINED, [Claim(1, 101, 12, 13)], TAKEN);
    steps := steps + [Claim(1, 101, 12, 13)];
    Joined(FIRST, steps, TAKEN, last, LATER);
    steps := steps + last;
    InitInv(FIRST);
    RunInv(FIRST, steps);
    RobbedLater(LATER);
  }

  lemma RobbedLater(s: State)
    requires s == LATER && Inv(s)
    ensures Healthy(s, 1) && Dead(s, 0) && 7 in SweepStale(s).tasks && SweepStale(s).tasks[7].status == Queued
  {
    assert Dead(s, 0) && s.nodes[0].current == Some(7);
    assert DeadPointer(s, 7);
    SweepRobsIff(s, 7);
  }

  /** On the way there, while both nodes live: the first node's next claim is answered with the second's task. */
  lemma StalePointerShows(ct: Token, dt: Token)
    ensures ShowsOther(TAKEN, 0, ct, dt, 7) && TAKEN.tasks[7].assignee == Some(1) && TAKEN.tasks[7].claimToken == Some(12)
  {
    AllHealthyIdle(TAKEN, Sorted(TAKEN.registered));
  }
}
