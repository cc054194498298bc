/**
 The sweeper's lock: any number of server instances, one Redis key with a time to live and no owner in
 it (the owner here is only for stating what happens), and a clock that moves between any two steps.
*/
module SweeperLock {
  import opened Sequences

  type Instance = nat

  const SWEEP_LOCK_TTL_SECONDS := 15.0

  datatype Lock = Lock(owner: Instance, expires: real)

  /** An instance between its two touches of the lock, since it set it. */
  datatype Phase = Resting | Sweeping(since: real) | Swept(since: real)

  datatype State = State(lock: Option<Lock>, phases: map<Instance, Phase>, now: real)

  /** A failed attempt, a sweep, an instance dying in the middle of one, and the passing of time. */
  datatype Step = TrySet(i: Instance) | Finish(i: Instance) | Delete(i: Instance) | Die(i: Instance) | Tick(seconds: real)

  predicate Held(s: State) {
    s.lock.Some? && s.now < s.lock.value.expires
  }

  predicate Active(s: State, i: Instance) {
    i in s.phases && !s.phases[i].Resting?
  }

  predicate Enabled(s: State, step: Step) {
    match step
    case TrySet(i) => i in s.phases && s.phases[i].Resting?
    case Finish(i) => i in s.phases && s.phases[i].Sweeping?
    case Delete(i) => i in s.phases && s.phases[i].Swept?
    case Die(i) => i in s.phases
    case Tick(seconds) => seconds > 0.0
  }

  function Next(s: State, step: Step): State
    requires Enabled(s, step)
  {
    match step
    case TrySet(i) =>
      if Held(s) then s
      else State(Some(Lock(i, s.now + SWEEP_LOCK_TTL_SECONDS)), s.phases[i := Sweeping(s.now)], s.now)
    case Finish(i) => s.(phases := s.phases[i := Swept(s.phases[i].since)])
    case Delete(i) => s.(lock := None, phases := s.phases[i := Resting])
    case Die(i) => s.(phases := s.phases - {i})
    case Tick(seconds) => s.(now := s.now + seconds)
  }

  predicate Init(s: State) {
    s.lock.None? && forall i :: i in s.phases ==> s.phases[i].Resting?
  }

  ghost predicate IsRun(states: seq<State>, steps: seq<Step>) {
    && |states| == |steps| + 1
    && Init(states[0])
    && forall k :: 0 <= k < |steps| ==> Enabled(states[k], steps[k]) && states[k + 1] == Next(states[k], steps[k])
  }

  /* ----- Safety ----- */

  /** At most one instance sweeps, and a lock that has not expired is its own. */
  ghost predicate Exclusive(s: State) {
    && (forall i, j :: Active(s, i) && Active(s, j) ==> i == j)
    && (forall i :: Active(s, i) && Held(s) ==> s.lock.value.owner == i)
  }

  /** The lock of an instance at work is there and is the one it set. */
  ghost predicate Guarded(s: State) {
    forall i :: Active(s, i) ==> s.lock == Some(Lock(i, s.phases[i].since + SWEEP_LOCK_TTL_SECONDS))
  }

  /** The instance set its lock at least fifteen seconds ago and is still at work. */
  predicate Overdue(s: State, i: Instance) {
    Active(s, i) && s.now >= s.phases[i].since + SWEEP_LOCK_TTL_SECONDS
  }

  /** Some instance tries to sweep while another is overdue. */
  predicate LateTry(s: State, step: Step) {
    step.TrySet? && exists i :: i in s.phases && Overdue(s, i)
  }

  /** As long as nobody tries late, locks stay with those who set them; a late try breaks exclusion at once. */
  lemma StepGuarded(s: State, step: Step)
    requires Guarded(s) && Enabled(s, step)
    ensures Exclusive(s)
    ensures !LateTry(s, step) ==> Guarded(Next(s, step))
    ensures LateTry(s, step) ==> !Exclusive(Next(s, step))
  {
    var t := Next(s, step);
    assert forall i :: Active(t, i) ==> Active(s, i) || step == TrySet(i);
    if LateTry(s, step) {
      var i :| i in s.phases && Overdue(s, i);
      assert !Held(s) && Active(t, i) && Active(t, step.i) && i != step.i;
    } else if step.Delete? {
      assert Active(s, step.i);
    }
  }

  ghost predicate AllExclusive(states: seq<State>) {
    forall k :: 0 <= k < |states| ==> Exclusive(states[k])
  }

  ghost predicate NoLateTry(states: seq<State>, steps: seq<Step>)
    requires |steps| < |states|
  {
    forall k :: 0 <= k < |steps| ==> !LateTry(states[k], steps[k])
  }

  lemma {:induction false} GuardedWithoutLateTry(states: seq<State>, steps: seq<Step>, k: nat)
    requires IsRun(states, steps) && k < |states|
    requires forall m :: 0 <= m < k ==> !LateTry(states[m], steps[m])
    ensures Guarded(states[k])
  {
    if k > 0 {
      GuardedWithoutLateTry(states, steps, k - 1);
      StepGuarded(states[k - 1], steps[k - 1]);
    }
  }

  /** The first late try among the first n steps, if there is any. */
  lemma {:induction false} FirstLateTry(states: seq<State>, steps: seq<Step>, n: nat) returns (k: nat)
    requires IsRun(states, steps) && n <= |steps|
    ensures k <= n && forall m :: 0 <= m < k ==> !LateTry(states[m], steps[m])
    ensures k < n ==> LateTry(states[k], steps[k])
  {
    k := 0;
    if n > 0 {
      k := FirstLateTry(states, steps, n - 1);
      if k == n - 1 && !LateTry(states[k], steps[k]) { k := n; }
    }
  }

  /**
   A run is exclusive exactly when nobody ever tries to sweep at a moment when a sweep still going on, or
   done but not yet followed by its delete, is at least fifteen seconds old.
  */
  lemma SafeIffNoLateTry(states: seq<State>, steps: seq<Step>)
    requires IsRun(states, steps)
    ensures AllExclusive(states) <==> NoLateTry(states, steps)
  {
    var k := FirstLateTry(states, steps, |steps|);
    GuardedWithoutLateTry(states, steps, k);
    if k < |steps| {
      StepGuarded(states[k], steps[k]);
      assert !Exclusive(states[k + 1]);
    } else {
      forall m | 0 <= m < |states| ensures Exclusive(states[m]) {
        GuardedWithoutLateTry(states, steps, m);
      }
    }
  }

  /** Every sweep deletes its lock before the fifteen seconds are over. */
  ghost predicate InTime(s: State) {
    forall i :: i in s.phases ==> !Overdue(s, i)
  }

  /**
   If every sweep ends within the lock's time to live, at most one instance sweeps at any time, and a
   delete always removes the lock of the instance that deletes.
  */
  lemma InTimeIsSafe(states: seq<State>, steps: seq<Step>, k: nat)
    requires IsRun(states, steps) && k < |states| && forall m :: 0 <= m < |states| ==> InTime(states[m])
    ensures Exclusive(states[k])
    ensures k < |steps| && steps[k].Delete? ==> Held(states[k]) && states[k].lock.value.owner == steps[k].i
  {
    GuardedWithoutLateTry(states, steps, k);
    assert InTime(states[k]);
    if k < |steps| && steps[k].Delete? { assert Active(states[k], steps[k].i); }
  }

  /** One sweep that outlasts its lock: two instances sweep, and then the first deletes the second's lock. */
  lemma OverrunBreaks(s: State, i: Instance, j: Instance, late: real) returns (states: seq<State>)
    requires Init(s) && i in s.phases && j in s.phases && i != j && late >= SWEEP_LOCK_TTL_SECONDS
    ensures IsRun(states, [TrySet(i), Tick(late), TrySet(j), Finish(i), Delete(i)]) && states[0] == s
    ensures Active(states[3], i) && Active(states[3], j)
    ensures states[4].lock.Some? && states[4].lock.value.owner == j
    ensures states[5].lock.None? && Active(states[5], j)
  {
    var s1 := Next(s, TrySet(i));
    var s2 := Next(s1, Tick(late));
    var s3 := Next(s2, TrySet(j));
    var s4 := Next(s3, Finish(i));
    states := [s, s1, s2, s3, s4, Next(s4, Delete(i))];
  }
}
