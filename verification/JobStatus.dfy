/**
 Job verdicts. A job is reported done exactly when it has tasks and all of them ended; from then
 on its verdict and its results stay what they are, one result per task in creation order.
*/
module JobStatus {
  import opened Sequences
  import opened TaskQueue
  import opened TaskQueueInvariant
  import opened TaskQueueSafety
  import opened TaskQueueRuns

  predicate AllTerminal(s: State, tids: seq<Tid>) {
    forall t :: t in tids ==> t in s.tasks && Terminal(s.tasks[t].status)
  }

  predicate AnyFailed(s: State, tids: seq<Tid>) {
    exists t :: t in tids && t in s.tasks && s.tasks[t].status == Failed
  }

  predicate AnyActive(s: State, tids: seq<Tid>) {
    exists t :: t in tids && t in s.tasks && Active(s.tasks[t].status)
  }

  lemma {:induction false} CountsEnded(s: State, tids: seq<Tid>)
    ensures CountStatus(s, tids, Completed) + CountStatus(s, tids, Failed) <= |tids|
    ensures CountStatus(s, tids, Completed) + CountStatus(s, tids, Failed) == |tids| <==> AllTerminal(s, tids)
  {
    if tids != [] {
      CountsEnded(s, tids[1..]);
      assert tids == [tids[0]] + tids[1..];
    }
  }

  lemma {:induction false} CountsPositive(s: State, tids: seq<Tid>, status: Status)
    ensures CountStatus(s, tids, status) > 0 <==> exists t :: t in tids && t in s.tasks && s.tasks[t].status == status
  {
    if tids != [] {
      CountsPositive(s, tids[1..], status);
      assert tids == [tids[0]] + tids[1..];
    }
  }

  /** The verdict, in terms of the tasks: every case of refresh_job_status. */
  lemma VerdictExact(s: State, tids: seq<Tid>)
    ensures JobSummary(s, tids).done <==> tids != [] && AllTerminal(s, tids)
    ensures JobSummary(s, tids).status ==
      if tids != [] && AllTerminal(s, tids) then (if AnyFailed(s, tids) then Failed else Completed)
      else if AnyActive(s, tids) then Running else Queued
  {
    CountsEnded(s, tids);
    CountsPositive(s, tids, Failed);
    CountsPositive(s, tids, Running);
    CountsPositive(s, tids, Claimed);
  }

  /* ----- Once done, done for good ----- */

  lemma ClaimJobs(s: State, n: NodeId, ct: Token, dt: Token)
    requires Inv(s)
    ensures ClaimTask(s, n, ct, dt).0.jobs == s.jobs
  {
    ClaimShape(s, n, ct, dt);
  }

  /** A job, once there, keeps its list of tasks. */
  lemma JobListFixed(s: State, step: Step, job: JobId)
    requires Inv(s) && Enabled(s, step) && job in s.jobs
    ensures job in Next(s, step).jobs && Next(s, step).jobs[job].tasks == s.jobs[job].tasks
  {
    match step
    case Start(runtime, j, tids) => StartShape(s, runtime, j, tids);
    case Claim(n, auth, ct, dt) => ClaimJobs(s, n, ct, dt);
    case Sweep => SweepKeeps(s);
    case _ => PlainJobList(s, step, job);
  }

  lemma PlainJobList(s: State, step: Step, job: JobId)
    requires !step.Start? && !step.Claim? && !step.Sweep? && job in s.jobs
    ensures job in Next(s, step).jobs && Next(s, step).jobs[job].tasks == s.jobs[job].tasks
  {
  }

  lemma {:induction false} JobListForever(s: State, steps: seq<Step>, job: JobId)
    requires Inv(s) && ValidRun(s, steps) && job in s.jobs
    ensures job in Run(s, steps).jobs && Run(s, steps).jobs[job].tasks == s.jobs[job].tasks
    decreases |steps|
  {
    if steps != [] {
      JobListFixed(s, steps[0], job);
      StepInv(s, steps[0]);
      JobListForever(Next(s, steps[0]), steps[1..], job);
    }
  }

  lemma {:induction false} SameResults(s: State, s': State, tids: seq<Tid>)
    requires forall t :: t in tids ==> t in s.tasks && t in s'.tasks && s.tasks[t] == s'.tasks[t]
    ensures ResultsOf(s, tids) == ResultsOf(s', tids)
  {
    if tids != [] { SameResults(s, s', tids[1..]); }
  }

  /** Results are listed one per task, in creation order, each the task's own. */
  lemma {:induction false} OneResultPerTask(s: State, tids: seq<Tid>)
    requires forall t :: t in tids ==> t in s.tasks
    ensures |ResultsOf(s, tids)| == |tids|
    ensures forall i :: 0 <= i < |tids| ==> ResultsOf(s, tids)[i] == ResultOf(s, tids[i])
  {
    if tids != [] {
      assert tids[0] in tids;
      OneResultPerTask(s, tids[1..]);
    }
  }

  /** Once a job is done it stays done, with the same verdict and the same results, one per task. */
  lemma DoneForever(s: State, steps: seq<Step>, job: JobId)
    requires Inv(s) && ValidRun(s, steps) && job in s.jobs && JobSummary(s, s.jobs[job].tasks).done
    ensures var s', tids := Run(s, steps), s.jobs[job].tasks;
      && job in s'.jobs && s'.jobs[job].tasks == tids
      && JobSummary(s', tids) == JobSummary(s, tids)
      && ResultsOf(s', tids) == ResultsOf(s, tids)
      && |ResultsOf(s', tids)| == |tids|
      && forall i :: 0 <= i < |tids| ==> ResultsOf(s', tids)[i].tid == tids[i] && Terminal(ResultsOf(s', tids)[i].status)
  {
    var tids := s.jobs[job].tasks;
    VerdictExact(s, tids);
    JobListForever(s, steps, job);
    forall t | t in tids ensures t in Run(s, steps).tasks && Run(s, steps).tasks[t] == s.tasks[t] {
      TerminalForever(s, steps, t);
    }
    SameTasksSameSummary(s, Run(s, steps), tids);
    SameResults(s, Run(s, steps), tids);
    OneResultPerTask(Run(s, steps), tids);
  }

  /* ----- The stored verdict ----- */

  ghost predicate StoredAt(s: State, job: JobId)
    requires job in s.jobs
  {
    JobSummary(s, s.jobs[job].tasks).done ==> s.jobs[job].status == JobSummary(s, s.jobs[job].tasks).status
  }

  /** The status stored with a finished job is its verdict: the last delivery refreshes it. */
  ghost predicate Stored(s: State) {
    forall j :: j in s.jobs ==> StoredAt(s, j)
  }

  /** No task of these ends between `s` and `s'`. */
  ghost predicate NoneEnds(s: State, s': State, tids: seq<Tid>) {
    forall t :: t in tids ==> t in s.tasks && t in s'.tasks && (Terminal(s'.tasks[t].status) ==> s.tasks[t] == s'.tasks[t])
  }

  /** A step that ends no task of a job changes neither whether it is done nor its verdict. */
  lemma QuietJob(s: State, s': State, job: JobId)
    requires job in s.jobs && StoredAt(s, job) && job in s'.jobs && s'.jobs[job] == s.jobs[job]
    requires NoneEnds(s, s', s.jobs[job].tasks)
    ensures StoredAt(s', job)
  {
    var tids := s.jobs[job].tasks;
    if JobSummary(s', tids).done {
      VerdictExact(s', tids);
      SameTasksSameSummary(s, s', tids);
    }
  }

  lemma QuietStored(s: State, s': State)
    requires Inv(s) && Stored(s) && s'.jobs == s.jobs
    requires forall t :: t in s.tasks ==> t in s'.tasks && (Terminal(s'.tasks[t].status) ==> s'.tasks[t] == s.tasks[t])
    ensures Stored(s')
  {
    forall j | j in s'.jobs ensures StoredAt(s', j) {
      QuietJob(s, s', j);
    }
  }

  lemma RefreshStored(s: State, job: JobId)
    requires job in s.jobs
    requires forall j :: j in s.jobs && j != job ==> StoredAt(s, j)
    ensures Stored(RefreshJob(s, job))
  {
    forall j | j in s.jobs ensures StoredAt(RefreshJob(s, job), j) {
      RefreshedSummary(s, job, s.jobs[j].tasks);
    }
  }

  lemma EndStored(s: State, s1: State, t: Tid, task: Task)
    requires JobsRight(s) && Stored(s) && t in s.tasks && task.job == s.tasks[t].job
    requires s1.tasks == s.tasks[t := task] && s1.jobs == s.jobs
    ensures Stored(RefreshJob(s1, task.job))
  {
    forall j | j in s1.jobs && j != task.job ensures StoredAt(s1, j) {
      assert t !in s.jobs[j].tasks;
      assert NoneEnds(s, s1, s.jobs[j].tasks);
      QuietJob(s, s1, j);
    }
    RefreshStored(s1, task.job);
  }

  lemma AddedQuiet(s: State, job: JobId, tids: seq<Tid>, s': State, j: JobId)
    requires JobsRight(s) && Stored(s) && job !in s.jobs && Added(s, job, tids, s') && j in s.jobs
    ensures StoredAt(s', j)
  {
    assert NoneEnds(s, s', s.jobs[j].tasks);
    QuietJob(s, s', j);
  }

  lemma AddedStored(s: State, job: JobId, tids: seq<Tid>, s': State)
    requires JobsRight(s) && Stored(s) && job !in s.jobs && Added(s, job, tids, s')
    ensures Stored(s')
  {
    forall j | j in s'.jobs ensures StoredAt(s', j) {
      if j != job {
        AddedQuiet(s, job, tids, s', j);
      }
    }
  }

  lemma StartStored(s: State, runtime: Runtime, job: JobId, tids: seq<Tid>)
    requires Inv(s) && Stored(s) && Enabled(s, Start(runtime, job, tids))
    ensures Stored(StartJob(s, runtime, job, tids).0)
  {
    StartShape(s, runtime, job, tids);
    QuietStored(s, RequeueStale(s));
    ReclaimAllInv(s, Sorted(s.registered));
    if StartJob(s, runtime, job, tids).1 != Refused {
      AddedStored(RequeueStale(s), job, tids, StartJob(s, runtime, job, tids).0);
    }
  }

  lemma ClaimStored(s: State, n: NodeId, ct: Token, dt: Token)
    requires Inv(s) && Stored(s)
    ensures Stored(ClaimTask(s, n, ct, dt).0)
  {
    ClaimShape(s, n, ct, dt);
    var (s', r) := ClaimTask(s, n, ct, dt);
    ClaimOfStored(s, RequeueStale(s), n, ct, dt, s', r);
  }

  lemma ClaimOfStored(s: State, s1: State, n: NodeId, ct: Token, dt: Token, s': State, r: Response)
    requires Inv(s) && Stored(s) && SameButRequeued(s, s1) && ClaimOf(s1, n, ct, dt, s', r)
    ensures Stored(s')
  {
    forall t | t in s.tasks ensures t in s'.tasks && (Terminal(s'.tasks[t].status) ==> s'.tasks[t] == s.tasks[t]) {
      ClaimOfQuiet(s, s1, n, ct, dt, s', r, t);
    }
    assert s'.jobs == s.jobs;
    QuietStored(s, s');
  }

  lemma ClaimOfQuiet(s: State, s1: State, n: NodeId, ct: Token, dt: Token, s': State, r: Response, t: Tid)
    requires SameButRequeued(s, s1) && ClaimOf(s1, n, ct, dt, s', r) && t in s.tasks
    ensures t in s'.tasks && (Terminal(s'.tasks[t].status) ==> s'.tasks[t] == s.tasks[t])
  {
    ClaimOfLife(s, s1, n, 0, ct, dt, s', r, t);
  }

  lemma SubmitStored(s: State, n: NodeId, t: Tid, token: Token, report: Report)
    requires Inv(s) && Stored(s) && n in s.nodes
    ensures Stored(Submit(s, n, t, token, report).0)
  {
    if t in s.tasks && s.tasks[t].assignee == Some(n) && s.tasks[t].claimToken == Some(token) {
      assert HeldRight(s, t);
      match report
      case Problem(message) =>
        var task := s.tasks[t].(status := Failed, error := message, claimToken := None, downloadToken := None);
        EndStored(s, Touch(PutTask(s, t, task), n, None), t, task);
      case Output(bytes, receipt) =>
        if receipt == Verified {
          var task := s.tasks[t].(status := Completed, result := Some(bytes), error := "", claimToken := None, downloadToken := None);
          EndStored(s, Touch(PutTask(s, t, task), n, None), t, task);
        } else if receipt == Rejected {
          RejectStored(s, t, n);
        }
    }
  }

  lemma RejectStored(s: State, t: Tid, n: NodeId)
    requires Inv(s) && Stored(s) && n in s.nodes && t in s.tasks && Active(s.tasks[t].status)
    ensures Stored(RejectReceipt(s, t, n))
  {
    QuietStored(s, RejectReceipt(s, t, n));
  }

  lemma DownloadStored(s: State, n: NodeId, t: Tid, token: Token, blob: bool)
    requires Inv(s) && Stored(s)
    ensures Stored(Download(s, n, t, token, blob).0)
  {
    if t in s.tasks { assert HeldRight(s, t); }
    QuietStored(s, Download(s, n, t, token, blob).0);
  }

  lemma SweepStored(s: State)
    requires Inv(s) && Stored(s)
    ensures Stored(SweepStale(s))
  {
    SweepKeeps(s);
    QuietStored(s, SweepStale(s));
  }

  lemma StepStored(s: State, step: Step)
    requires Inv(s) && Stored(s) && Enabled(s, step)
    ensures Stored(Next(s, step))
  {
    match step
    case Start(runtime, job, tids) => StartStored(s, runtime, job, tids);
    case Claim(n, auth, ct, dt) => ClaimStored(s, n, ct, dt);
    case Fetch(n, auth, t, token, blob) => if Authenticated(s, n, auth) { DownloadStored(s, n, t, token, blob); }
    case Deliver(n, auth, t, token, report) => if Authenticated(s, n, auth) { SubmitStored(s, n, t, token, report); }
    case Poll(job) => RefreshStored(s, job);
    case Sweep => SweepStored(s);
    case _ => QuietStored(s, Next(s, step));
  }

  /** In every reachable state the stored status of a finished job is its verdict. */
  lemma {:induction false} StoredVerdict(s: State, steps: seq<Step>)
    requires Inv(s) && Stored(s) && ValidRun(s, steps)
    ensures Stored(Run(s, steps))
    decreases |steps|
  {
    if steps != [] {
      StepInv(s, steps[0]);
      StepStored(s, steps[0]);
      StoredVerdict(Next(s, steps[0]), steps[1..]);
    }
  }
}
