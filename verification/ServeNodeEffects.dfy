/**
 What the node's steps bring about, over runs: a fresh claim leads to a start task, a successful start to a hosted
 app that stays until it is stopped, three failures to a pid given up, and a stop list to every app on it removed.
*/
module ServeNodeEffects {
  import opened Sequences
  import opened ServeNode

  predicate OfLoop(step: Step) {
    !step.OfTask?
  }

  /** Only start tasks move in the steps from `i` to before `j`. */
  predicate LoopWaits(steps: seq<Step>, i: nat, j: nat) {
    i <= j <= |steps| && forall k :: i <= k < j ==> !OfLoop(steps[k])
  }

  lemma {:induction false} LoopUnmoved(states: seq<State>, steps: seq<Step>, i: nat, j: nat)
    requires IsRun(states, steps) && LoopWaits(steps, i, j)
    ensures states[j].loop == states[i].loop && states[j].spawned == states[i].spawned
    decreases j
  {
    if i < j { LoopUnmoved(states, steps, i, j - 1); }
  }

  /* ----- From a claim to a start ----- */

  /**
   A claim of a pid that is neither hosted, nor being started, nor given up: the loop's next two steps, whatever
   start tasks do meanwhile, mark it as starting and spawn a task for its first attempt.
  */
  lemma FreshClaimStarts(states: seq<State>, steps: seq<Step>, pid: Pid, i: nat, j: nat, k: nat)
    requires IsRun(states, steps) && i < j < k < |steps| && steps[i] == Claimed(pid)
    requires pid !in states[i].apps && pid !in states[i].starting && pid !in states[i].givenUp
    requires LoopWaits(steps, i + 1, j) && OfLoop(steps[j]) && LoopWaits(steps, j + 1, k) && OfLoop(steps[k])
    ensures steps[j] == EnterStarting && states[j + 1].starting == states[j].starting + {pid}
    ensures steps[k] == Spawn && states[k + 1].tasks == states[k].tasks[states[k].spawned := StartTask(pid, Trying(1))]
    ensures states[k].spawned !in states[k].tasks && states[k + 1].loop == Serving
  {
    LoopUnmoved(states, steps, i + 1, j);
    LoopUnmoved(states, steps, j + 1, k);
    SafeInEveryRun(states, steps, k);
  }

  /** Any other claim changes nothing. */
  lemma StaleClaimIgnored(s: State, pid: Pid)
    requires Enabled(s, Claimed(pid)) && (pid in s.apps || pid in s.starting || pid in s.givenUp)
    ensures Next(s, Claimed(pid)) == s.(loop := Serving)
  {
  }

  /* ----- Hosted, starting and given up ----- */

  predicate Hosts(s: State, step: Step, pid: Pid) {
    step.OfTask? && step.action.InsertApp? && step.id in s.tasks && s.tasks[step.id].pid == pid
  }

  predicate Stops(s: State, step: Step, pid: Pid) {
    step.StopNext? && s.loop.Stopping? && s.loop.stop != [] && s.loop.stop[0] == pid
  }

  /** Some start succeeded, and the app was not stopped since. */
  ghost predicate HostedSince(states: seq<State>, steps: seq<Step>, pid: Pid, i: nat, j: nat) {
    && i < j <= |steps| < |states| && Hosts(states[i], steps[i], pid)
    && forall k :: i < k < j ==> !Stops(states[k], steps[k], pid)
  }

  /** A pid is hosted exactly if a start of it succeeded and the server has not had it stopped since. */
  lemma {:induction false} HostedIff(states: seq<State>, steps: seq<Step>, pid: Pid, j: nat)
    requires IsRun(states, steps) && j < |states|
    ensures pid in states[j].apps <==> exists i :: HostedSince(states, steps, pid, i, j)
    decreases j
  {
    if j > 0 {
      HostedIff(states, steps, pid, j - 1);
      HostedStep(states[j - 1], steps[j - 1], pid);
      if pid in states[j].apps {
        if Hosts(states[j - 1], steps[j - 1], pid) {
          assert HostedSince(states, steps, pid, j - 1, j);
        } else {
          var i :| HostedSince(states, steps, pid, i, j - 1);
          assert HostedSince(states, steps, pid, i, j);
        }
      } else if i: nat :| HostedSince(states, steps, pid, i, j) {
        assert i < j - 1 ==> HostedSince(states, steps, pid, i, j - 1);
      }
    }
  }

  lemma HostedStep(s: State, step: Step, pid: Pid)
    requires Enabled(s, step)
    ensures pid in Next(s, step).apps <==> Hosts(s, step, pid) || (pid in s.apps && !Stops(s, step, pid))
  {
  }

  predicate Enters(s: State, step: Step, pid: Pid) {
    step.EnterStarting? && s.loop == Fresh(pid)
  }

  predicate Leaves(s: State, step: Step, pid: Pid) {
    step.OfTask? && step.action.LeaveStarting? && step.id in s.tasks && s.tasks[step.id].pid == pid
  }

  ghost predicate StartingSince(states: seq<State>, steps: seq<Step>, pid: Pid, i: nat, j: nat) {
    && i < j <= |steps| < |states| && Enters(states[i], steps[i], pid)
    && forall k :: i < k < j ==> !Leaves(states[k], steps[k], pid)
  }

  lemma StartingStep(s: State, step: Step, pid: Pid)
    requires Enabled(s, step)
    ensures pid in Next(s, step).starting <==> Enters(s, step, pid) || (pid in s.starting && !Leaves(s, step, pid))
  {
  }

  /** A pid counts as being started exactly from its claim to the end of its start task. */
  lemma {:induction false} StartingIff(states: seq<State>, steps: seq<Step>, pid: Pid, j: nat)
    requires IsRun(states, steps) && j < |states|
    ensures pid in states[j].starting <==> exists i :: StartingSince(states, steps, pid, i, j)
    decreases j
  {
    if j > 0 {
      StartingIff(states, steps, pid, j - 1);
      StartingStep(states[j - 1], steps[j - 1], pid);
      if pid in states[j].starting {
        if Enters(states[j - 1], steps[j - 1], pid) {
          assert StartingSince(states, steps, pid, j - 1, j);
        } else {
          var i :| StartingSince(states, steps, pid, i, j - 1);
          assert StartingSince(states, steps, pid, i, j);
        }
      } else if i: nat :| StartingSince(states, steps, pid, i, j) {
        assert i < j - 1 ==> StartingSince(states, steps, pid, i, j - 1);
      }
    }
  }

  predicate GivesUp(s: State, step: Step, pid: Pid) {
    step.OfTask? && step.action.GiveUp? && step.id in s.tasks && s.tasks[step.id].pid == pid
  }

  /** A pid is given up exactly if some start task of it gave up. */
  lemma {:induction false} GivenUpIff(states: seq<State>, steps: seq<Step>, pid: Pid, j: nat)
    requires IsRun(states, steps) && j < |states|
    ensures pid in states[j].givenUp <==> exists i :: 0 <= i < j && GivesUp(states[i], steps[i], pid)
    decreases j
  {
    if j > 0 {
      GivenUpIff(states, steps, pid, j - 1);
      GiveUpStep(states[j - 1], steps[j - 1], pid);
    }
  }

  lemma GiveUpStep(s: State, step: Step, pid: Pid)
    requires Enabled(s, step)
    ensures pid in Next(s, step).givenUp <==> pid in s.givenUp || GivesUp(s, step, pid)
  {
  }

  /* ----- A start task's own steps ----- */

  /**
   A task that succeeded hosts its app and leaves; one that failed tries again, up to the third time, when it gives up,
   reports and leaves. Leaving ends the task. No other task is touched.
  */
  lemma TaskEffect(s: State, id: TaskId, action: Action)
    requires Enabled(s, OfTask(id, action))
    ensures var (t, s') := (s.tasks[id], Next(s, OfTask(id, action)));
      && s'.loop == s.loop && s'.spawned == s.spawned
      && s'.tasks.Keys == s.tasks.Keys - (if action.LeaveStarting? then {id} else {})
      && (forall a :: a in s'.tasks && a != id ==> s'.tasks[a] == s.tasks[a])
      && (!action.LeaveStarting? ==> s'.tasks[id] == StartTask(t.pid,
           match action
           case AttemptFails => if t.phase.attempt < 3 then Trying(t.phase.attempt + 1) else GivingUp
           case AttemptSucceeds => Ready
           case GiveUp => Reporting
           case _ => Finished))
  {
  }

  /* ----- Stop lists ----- */

  /** How many steps of the loop there are from `i` to before `j`. */
  function LoopSteps(steps: seq<Step>, i: nat, j: nat): nat
    requires i <= j <= |steps|
  {
    if i == j then 0 else LoopSteps(steps, i, j - 1) + (if OfLoop(steps[j - 1]) then 1 else 0)
  }

  /** The loop works through a stop list from its first pid to its last, one step each, whatever start tasks do meanwhile. */
  lemma {:induction false} StopListInOrder(states: seq<State>, steps: seq<Step>, stop: seq<Pid>, i: nat, j: nat)
    requires IsRun(states, steps) && i <= j < |states| && states[i].loop == Stopping(stop) && LoopSteps(steps, i, j) <= |stop|
    ensures states[j].loop == Stopping(stop[LoopSteps(steps, i, j)..])
    decreases j
  {
    if i < j { StopListInOrder(states, steps, stop, i, j - 1); }
  }

  /** So the pid at place `m` of the list is removed by the loop's step number `m` from there. */
  lemma StopListStops(states: seq<State>, steps: seq<Step>, stop: seq<Pid>, i: nat, j: nat)
    requires IsRun(states, steps) && i <= j < |steps| && states[i].loop == Stopping(stop)
    requires OfLoop(steps[j]) && LoopSteps(steps, i, j) < |stop|
    ensures steps[j] == StopNext && states[j + 1].apps == states[j].apps - {stop[LoopSteps(steps, i, j)]}
  {
    StopListInOrder(states, steps, stop, i, j);
  }

  /** What the server says to stop is worked off, if the node hosts anything; otherwise, or without an answer, it claims again. */
  lemma PollEffect(s: State, reply: Option<seq<Pid>>)
    requires Enabled(s, Poll(reply))
    ensures Next(s, Poll(reply)) == s.(loop := if s.apps != {} && reply.Some? then Stopping(reply.value) else Claiming)
  {
  }
}
