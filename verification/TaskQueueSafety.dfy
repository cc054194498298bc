/**
 The invariant of the task queue over every step and every run, and what it says in plain words.
*/
module TaskQueueSafety {
  import opened Sequences
  import opened TaskQueue
  import opened TaskQueueInvariant
  import opened TaskQueueClaims
  import opened TaskQueueDelivery

  /** Every endpoint, every sweep, every tick keeps the invariant. */
  lemma StepInv(s: State, step: Step)
    requires Inv(s) && Enabled(s, step)
    ensures Inv(Next(s, step))
  {
    match step
    case Register(n, token, wasm) => FleetInv(s, RegisterNode(s, n, token, wasm));
    case Health(n, auth) => if Authenticated(s, n, auth) { FleetInv(s, Heartbeat(s, n)); }
    case Start(runtime, job, tids) => StartInv(s, runtime, job, tids);
    case Claim(n, auth, ct, dt) => ClaimInv(s, n, ct, dt);
    case Fetch(n, auth, t, token, blob) => DownloadInv(s, n, t, token, blob);
    case Deliver(n, auth, t, token, report) => if Authenticated(s, n, auth) { SubmitInv(s, n, t, token, report); }
    case Poll(job) => RefreshInv(s, job);
    case Sweep => SweepInv(s);
    case Tick(now) => FleetInv(s, s.(now := now));
  }

  lemma InitInv(s: State)
    requires Init(s)
    ensures Inv(s)
  {
    forall k ensures Queue(s, k) == [] {}
  }

  lemma {:induction false} RunInv(s: State, steps: seq<Step>)
    requires Inv(s) && ValidRun(s, steps)
    ensures Inv(Run(s, steps))
    decreases |steps|
  {
    if steps != [] {
      StepInv(s, steps[0]);
      RunInv(Next(s, steps[0]), steps[1..]);
    }
  }

  /* ----- The invariant in plain words ----- */

  /** Exactly once over all queues together, at home; and nowhere when not waiting. */
  lemma QueuedExactlyOnce(s: State, t: Tid)
    requires Inv(s) && t in s.tasks
    ensures s.tasks[t].status == Queued ==>
      exists i :: 0 <= i < |Queue(s, Home(s.tasks[t]))| && Queue(s, Home(s.tasks[t]))[i] == t
        && forall k, j :: 0 <= j < |Queue(s, k)| && Queue(s, k)[j] == t ==> k == Home(s.tasks[t]) && j == i
    ensures s.tasks[t].status != Queued ==> forall k :: t !in Queue(s, k)
  {
    if s.tasks[t].status == Queued {
      var home := Home(s.tasks[t]);
      assert t in Queue(s, home);
      var i :| 0 <= i < |Queue(s, home)| && Queue(s, home)[i] == t;
      forall k, j | 0 <= j < |Queue(s, k)| && Queue(s, k)[j] == t ensures k == home && j == i {
        assert t in Queue(s, k) && WaitsAt(s, k, t);
        assert Distinct(Queue(s, home));
      }
    } else {
      assert forall k :: t !in Queue(s, k);
    }
  }

  /** No node ever holds two active tasks, whatever receipts were rejected before. */
  lemma OneActivePerNode(s: State, t: Tid, u: Tid)
    requires Inv(s) && t in s.tasks && u in s.tasks
    requires Active(s.tasks[t].status) && Active(s.tasks[u].status) && s.tasks[t].assignee == s.tasks[u].assignee
    ensures t == u
  {
    assert HeldRight(s, t) && HeldRight(s, u);
  }

  /** The invariant over all runs, from an empty store. */
  lemma ReachablePlacement(s: State, steps: seq<Step>, t: Tid)
    requires Init(s) && ValidRun(s, steps) && t in Run(s, steps).tasks
    ensures var s' := Run(s, steps);
      && (s'.tasks[t].status == Queued ==>
           exists i :: 0 <= i < |Queue(s', Home(s'.tasks[t]))| && Queue(s', Home(s'.tasks[t]))[i] == t
             && forall k, j :: 0 <= j < |Queue(s', k)| && Queue(s', k)[j] == t ==> k == Home(s'.tasks[t]) && j == i)
      && (s'.tasks[t].status != Queued ==> forall k :: t !in Queue(s', k))
      && (Active(s'.tasks[t].status) ==>
           && s'.tasks[t].assignee.Some? && s'.tasks[t].assignee.value in s'.nodes
           && s'.nodes[s'.tasks[t].assignee.value].current == Some(t)
           && s'.tasks[t].claimToken.Some? && s'.tasks[t].downloadToken.Some?)
  {
    InitInv(s);
    RunInv(s, steps);
    QueuedExactlyOnce(Run(s, steps), t);
    assert HeldRight(Run(s, steps), t);
  }
}
