/**
 The node's side of web hosting: the serve loop and the start tasks it spawns, interleaved at the
 granularity of their lock sections. `apps`, `starting` and `given_up` are the three locked sets.
*/
module ServeNode {
  import opened Sequences

  type Pid = nat

  type TaskId = nat

  const MAX_START_ATTEMPTS: nat := 3

  /** Where a spawned start task is. Between two phases it takes at most one lock, once. */
  datatype Phase = Trying(attempt: nat) | Ready | GivingUp | Reporting | Finished

  datatype StartTask = StartTask(pid: Pid, phase: Phase)

  /** Where the serve loop is. */
  datatype Loop = Claiming | Fresh(pid: Pid) | Entered(pid: Pid) | Serving | Stopping(stop: seq<Pid>)

  datatype State = State(
    apps: set<Pid>,
    starting: set<Pid>,
    givenUp: set<Pid>,
    loop: Loop,
    tasks: map<TaskId, StartTask>,
    spawned: nat)

  const INITIAL := State({}, {}, {}, Claiming, map[], 0)

  datatype Action = AttemptFails | AttemptSucceeds | InsertApp | GiveUp | Report | LeaveStarting

  /** A step of the loop, with what the server answered, or of one start task. */
  datatype Step =
    | Claimed(pid: Pid)
    | NothingClaimed
    | EnterStarting
    | Spawn
    | Poll(reply: Option<seq<Pid>>)
    | StopNext
    | OfTask(id: TaskId, action: Action)

  predicate Enabled(s: State, step: Step) {
    match step
    case Claimed(_) => s.loop.Claiming?
    case NothingClaimed => s.loop.Claiming?
    case EnterStarting => s.loop.Fresh?
    case Spawn => s.loop.Entered?
    case Poll(_) => s.loop.Serving?
    case StopNext => s.loop.Stopping?
    case OfTask(id, action) => id in s.tasks && CanDo(s.tasks[id].phase, action)
  }

  predicate CanDo(phase: Phase, action: Action) {
    match action
    case AttemptFails => phase.Trying?
    case AttemptSucceeds => phase.Trying?
    case InsertApp => phase.Ready?
    case GiveUp => phase.GivingUp?
    case Report => phase.Reporting?
    case LeaveStarting => phase.Finished?
  }

  function Next(s: State, step: Step): State
    requires Enabled(s, step)
  {
    match step
    case Claimed(pid) =>
      // All three locks are held while the three sets are compared.
      if pid !in s.apps && pid !in s.starting && pid !in s.givenUp then s.(loop := Fresh(pid)) else s.(loop := Serving)
    case NothingClaimed => s.(loop := Serving)
    case EnterStarting => s.(starting := s.starting + {s.loop.pid}, loop := Entered(s.loop.pid))
    case Spawn =>
      s.(tasks := s.tasks[s.spawned := StartTask(s.loop.pid, Trying(1))], spawned := s.spawned + 1, loop := Serving)
    case Poll(reply) =>
      if s.apps == {} || reply.None? then s.(loop := Claiming) else s.(loop := Stopping(reply.value))
    case StopNext =>
      if s.loop.stop == [] then s.(loop := Claiming)
      else s.(apps := s.apps - {s.loop.stop[0]}, loop := Stopping(s.loop.stop[1..]))
    case OfTask(id, action) => NextOfTask(s, id, s.tasks[id], action)
  }

  function NextOfTask(s: State, id: TaskId, t: StartTask, action: Action): State
    requires CanDo(t.phase, action)
  {
    match action
    case AttemptFails =>
      var n := t.phase.attempt;
      s.(tasks := s.tasks[id := StartTask(t.pid, if n < MAX_START_ATTEMPTS then Trying(n + 1) else GivingUp)])
    case AttemptSucceeds => s.(tasks := s.tasks[id := StartTask(t.pid, Ready)])
    case InsertApp => s.(tasks := s.tasks[id := StartTask(t.pid, Finished)], apps := s.apps + {t.pid})
    case GiveUp => s.(tasks := s.tasks[id := StartTask(t.pid, Reporting)], givenUp := s.givenUp + {t.pid})
    case Report => s.(tasks := s.tasks[id := StartTask(t.pid, Finished)])
    case LeaveStarting => s.(tasks := s.tasks - {id}, starting := s.starting - {t.pid})
  }

  /** A run: every interleaving of the loop with its tasks, and every answer of the server. */
  ghost predicate IsRun(states: seq<State>, steps: seq<Step>) {
    && |states| == |steps| + 1
    && states[0] == INITIAL
    && forall i :: 0 <= i < |steps| ==> Enabled(states[i], steps[i]) && states[i + 1] == Next(states[i], steps[i])
  }

  /* ----- What every interleaving keeps ----- */

  predicate OneTaskPerPid(s: State) {
    && (forall a :: a in s.tasks ==> a < s.spawned)
    && (forall a, b :: a in s.tasks && b in s.tasks && s.tasks[a].pid == s.tasks[b].pid ==> a == b)
    && (s.loop.Entered? || s.loop.Fresh? ==> forall a :: a in s.tasks ==> s.tasks[a].pid != s.loop.pid)
  }

  /** `starting` holds exactly the pids being started, one for each live task. */
  predicate StartingExact(s: State) {
    && (forall a :: a in s.tasks ==> s.tasks[a].pid in s.starting)
    && (forall p :: p in s.starting ==> s.loop == Entered(p) || exists a :: a in s.tasks && s.tasks[a].pid == p)
    && (s.loop.Entered? ==> s.loop.pid in s.starting)
    && (s.loop.Fresh? ==> s.loop.pid !in s.starting)
  }

  predicate Undecided(phase: Phase) {
    phase.Trying? || phase.Ready? || phase.GivingUp?
  }

  predicate PhaseRight(s: State, t: StartTask) {
    && (Undecided(t.phase) ==> t.pid !in s.apps && t.pid !in s.givenUp)
    && (t.phase.Reporting? ==> t.pid in s.givenUp)
    && (t.phase.Trying? ==> 1 <= t.phase.attempt <= MAX_START_ATTEMPTS)
  }

  /** A pid still to be started, or being tried, is neither hosted nor given up. */
  predicate Decisions(s: State) {
    && (s.loop.Fresh? || s.loop.Entered? ==> s.loop.pid !in s.apps && s.loop.pid !in s.givenUp)
    && (forall a :: a in s.tasks ==> PhaseRight(s, s.tasks[a]))
    && s.apps !! s.givenUp
  }

  predicate Inv(s: State) {
    OneTaskPerPid(s) && StartingExact(s) && Decisions(s)
  }

  lemma StepInv(s: State, step: Step)
    requires Inv(s) && Enabled(s, step)
    ensures Inv(Next(s, step))
  {
    StepOneTask(s, step);
    StepStarting(s, step);
    StepDecisions(s, step);
  }

  lemma StepOneTask(s: State, step: Step)
    requires OneTaskPerPid(s) && StartingExact(s) && Enabled(s, step)
    ensures OneTaskPerPid(Next(s, step))
  {
  }

  lemma StepStarting(s: State, step: Step)
    requires OneTaskPerPid(s) && StartingExact(s) && Enabled(s, step)
    ensures StartingExact(Next(s, step))
  {
    var t := Next(s, step);
    forall p | p in t.starting && t.loop != Entered(p)
      ensures exists a :: a in t.tasks && t.tasks[a].pid == p
    {
      StartedHasTask(s, step, p);
    }
    forall a | a in t.tasks ensures t.tasks[a].pid in t.starting {
      TaskIsStarting(s, step, a);
    }
  }

  lemma TaskIsStarting(s: State, step: Step, a: TaskId)
    requires OneTaskPerPid(s) && StartingExact(s) && Enabled(s, step) && a in Next(s, step).tasks
    ensures Next(s, step).tasks[a].pid in Next(s, step).starting
  {
  }

  lemma StartedHasTask(s: State, step: Step, p: Pid)
    requires OneTaskPerPid(s) && StartingExact(s) && Enabled(s, step) && p in Next(s, step).starting && Next(s, step).loop != Entered(p)
    ensures exists a :: a in Next(s, step).tasks && Next(s, step).tasks[a].pid == p
  {
    var t := Next(s, step);
    if s.loop == Entered(p) {
      assert t.tasks[s.spawned].pid == p;
    } else {
      var a :| a in s.tasks && s.tasks[a].pid == p;
      assert a in t.tasks && t.tasks[a].pid == p;
    }
  }

  lemma StepDecisions(s: State, step: Step)
    requires Inv(s) && Enabled(s, step)
    ensures Decisions(Next(s, step))
  {
    var t := Next(s, step);
    forall a | a in t.tasks
      ensures PhaseRight(t, t.tasks[a])
    {
      if a in s.tasks {
        assert PhaseRight(s, s.tasks[a]);
      }
    }
  }

  /**
   In every interleaving at most one start task per pid is alive, its pid is marked as starting, and
   no pid is both hosted and given up.
  */
  lemma {:induction false} SafeInEveryRun(states: seq<State>, steps: seq<Step>, i: nat)
    requires IsRun(states, steps) && i < |states|
    ensures Inv(states[i])
  {
    if i > 0 {
      SafeInEveryRun(states, steps, i - 1);
      StepInv(states[i - 1], steps[i - 1]);
    }
  }

  /* ----- Given up means given up ----- */

  /** The pid a step starts, tries, hosts, gives up, reports or leaves, if any. */
  function Concerns(s: State, step: Step): Option<Pid>
    requires Enabled(s, step)
  {
    match step
    case EnterStarting => Some(s.loop.pid)
    case Spawn => Some(s.loop.pid)
    case OfTask(id, _) => Some(s.tasks[id].pid)
    case _ => None
  }

  predicate Ending(step: Step) {
    step.OfTask? && (step.action.Report? || step.action.LeaveStarting?)
  }

  /** Once given up, a pid stays given up, is never hosted, and no start or attempt of it ever happens again. */
  lemma {:induction false} GivenUpForever(states: seq<State>, steps: seq<Step>, pid: Pid, i: nat, j: nat)
    requires IsRun(states, steps) && i <= j < |states| && pid in states[i].givenUp
    ensures pid in states[j].givenUp && pid !in states[j].apps
    ensures j < |steps| && Concerns(states[j], steps[j]) == Some(pid) ==> Ending(steps[j])
    decreases j
  {
    SafeInEveryRun(states, steps, j);
    if i < j {
      GivenUpForever(states, steps, pid, i, j - 1);
      StepKeepsGivenUp(states[j - 1], steps[j - 1]);
    }
    if j < |steps| && Concerns(states[j], steps[j]) == Some(pid) {
      OnlyEnds(states[j], steps[j], pid);
    }
  }

  lemma StepKeepsGivenUp(s: State, step: Step)
    requires Enabled(s, step)
    ensures s.givenUp <= Next(s, step).givenUp
  {
  }

  lemma OnlyEnds(s: State, step: Step, pid: Pid)
    requires Inv(s) && Enabled(s, step) && pid in s.givenUp && Concerns(s, step) == Some(pid)
    ensures Ending(step)
  {
    if step.OfTask? {
      assert PhaseRight(s, s.tasks[step.id]);
    }
  }

  /** The server hears of a failed start at most once per pid. */
  lemma ReportedOnce(states: seq<State>, steps: seq<Step>, i: nat, j: nat)
    requires IsRun(states, steps) && i < j < |steps|
    requires steps[i].OfTask? && steps[i].action.Report? && steps[j].OfTask? && steps[j].action.Report?
    ensures Concerns(states[i], steps[i]) != Concerns(states[j], steps[j])
  {
    var pid := states[i].tasks[steps[i].id].pid;
    SafeInEveryRun(states, steps, i);
    assert PhaseRight(states[i], states[i].tasks[steps[i].id]);
    StaysReported(states, steps, pid, i + 1, j);
  }

  predicate Reported(s: State, pid: Pid) {
    pid in s.givenUp && forall a :: a in s.tasks && s.tasks[a].pid == pid ==> s.tasks[a].phase.Finished?
  }

  lemma StepReported(s: State, step: Step, pid: Pid)
    requires Inv(s) && Enabled(s, step) && Reported(s, pid)
    ensures Reported(Next(s, step), pid)
  {
    StepKeepsGivenUp(s, step);
  }

  lemma {:induction false} StaysReported(states: seq<State>, steps: seq<Step>, pid: Pid, i: nat, j: nat)
    requires IsRun(states, steps) && i <= j < |states| && Reported(states[i], pid)
    ensures Reported(states[j], pid)
    decreases j
  {
    if i < j {
      StaysReported(states, steps, pid, i, j - 1);
      SafeInEveryRun(states, steps, j - 1);
      StepReported(states[j - 1], steps[j - 1], pid);
    }
  }

  /* ----- Three attempts, then it ends ----- */

  /** How often a task did something in the first `i` steps. */
  function Count(steps: seq<Step>, i: nat, id: TaskId, action: Action): nat
    requires i <= |steps|
  {
    if i == 0 then 0
    else Count(steps, i - 1, id, action) + (if steps[i - 1] == OfTask(id, action) then 1 else 0)
  }

  /** A task's phase tells how its attempts went so far: a success ends them, and so does the third failure. */
  predicate AttemptsMatch(phase: Phase, failures: nat, successes: nat) {
    match phase
    case Trying(n) => failures == n - 1 && successes == 0
    case Ready => failures < MAX_START_ATTEMPTS && successes == 1
    case GivingUp => failures == MAX_START_ATTEMPTS && successes == 0
    case Reporting => failures == MAX_START_ATTEMPTS && successes == 0
    case Finished => if successes == 0 then failures == MAX_START_ATTEMPTS else successes == 1 && failures < MAX_START_ATTEMPTS
  }

  lemma StepAttempts(s: State, step: Step, id: TaskId, failures: nat, successes: nat)
    requires Inv(s) && Enabled(s, step)
    requires id in s.tasks ==> AttemptsMatch(s.tasks[id].phase, failures, successes)
    requires id >= s.spawned ==> failures == successes == 0
    ensures var t := Next(s, step);
      var (f, g) := (failures + (if step == OfTask(id, AttemptFails) then 1 else 0),
        successes + (if step == OfTask(id, AttemptSucceeds) then 1 else 0));
      (id in t.tasks ==> AttemptsMatch(t.tasks[id].phase, f, g)) && (id >= t.spawned ==> f == g == 0)
  {
    if id in s.tasks {
      assert PhaseRight(s, s.tasks[id]);
    }
  }

  lemma {:induction false} AttemptsCounted(states: seq<State>, steps: seq<Step>, id: TaskId, i: nat)
    requires IsRun(states, steps) && i < |states|
    ensures var (failures, successes) := (Count(steps, i, id, AttemptFails), Count(steps, i, id, AttemptSucceeds));
      (id in states[i].tasks ==> AttemptsMatch(states[i].tasks[id].phase, failures, successes))
      && (id >= states[i].spawned ==> failures == successes == 0)
  {
    if i > 0 {
      SafeInEveryRun(states, steps, i - 1);
      AttemptsCounted(states, steps, id, i - 1);
      StepAttempts(states[i - 1], steps[i - 1], id,
                   Count(steps, i - 1, id, AttemptFails), Count(steps, i - 1, id, AttemptSucceeds));
    }
  }

  /** A pid is given up only by a start task of its own that failed exactly three times and never succeeded. */
  lemma {:induction false} GivenUpAfterThreeFailures(states: seq<State>, steps: seq<Step>, pid: Pid, i: nat)
    returns (j: nat, id: TaskId)
    requires IsRun(states, steps) && i < |states| && pid in states[i].givenUp
    ensures j < i && steps[j] == OfTask(id, GiveUp) && Concerns(states[j], steps[j]) == Some(pid)
    ensures Count(steps, j, id, AttemptFails) == 3 && Count(steps, j, id, AttemptSucceeds) == 0
  {
    if pid in states[i - 1].givenUp {
      j, id := GivenUpAfterThreeFailures(states, steps, pid, i - 1);
    } else {
      j, id := i - 1, steps[i - 1].id;
      AttemptsCounted(states, steps, id, j);
    }
  }
}
