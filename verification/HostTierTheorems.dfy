/**
 What the host tier promises over whole histories: slots are conserved, no process escapes
 cancellation, exit status 0 is sound, the threads never block each other for good, and every run
 ends.
 */
module HostTierTheorems {
  import opened Prelude
  import opened HostTier
  import opened HostTierInvariant

  // ------------------------------------------------------------------- slots

  /** What the running processes of the first `n` commands cost. */
  function RunningCost(r: Tier, n: nat): nat
    requires |r.tasks| == |r.commands| && n <= |r.tasks|
  {
    if n == 0 then 0
    else RunningCost(r, n - 1) + if r.tasks[n - 1].process.Running? then Cost(r, n - 1) else 0
  }

  lemma {:induction false} RunningIsHeld(r: Tier, n: nat)
    requires TierInv(r) && n <= |r.tasks|
    ensures RunningCost(r, n) <= Held(r, n)
  {
    if n > 0 {
      RunningIsHeld(r, n - 1);
      assert TaskOk(r, n - 1);
    }
  }

  /** In every state of every run free slots and held slots make up the budget. */
  lemma SlotsConserved(run: seq<State>, i: nat, t: nat)
    requires IsRun(run) && i < |run| && t < |run[i].tiers|
    ensures var r := run[i].tiers[t];
      && |r.tasks| == |r.commands| && r.free + Held(r, |r.tasks|) == r.workers
      && RunningCost(r, |r.tasks|) <= r.workers
  {
    RunInv(run, i);
    var r := run[i].tiers[t];
    assert TierInv(r);
    RunningIsHeld(r, |r.tasks|);
  }

  /** The weights of those among the first `n` commands that hold slots. */
  function HeldWeight(r: Tier, n: nat): nat
    requires |r.tasks| == |r.commands| && n <= |r.tasks|
  {
    if n == 0 then 0
    else HeldWeight(r, n - 1) + if HoldsSlots(r.tasks[n - 1].pc) then r.commands[n - 1].weight else 0
  }

  /** The weights of those among the first `n` commands whose processes run. */
  function RunningWeight(r: Tier, n: nat): nat
    requires |r.tasks| == |r.commands| && n <= |r.tasks|
  {
    if n == 0 then 0
    else RunningWeight(r, n - 1) + if r.tasks[n - 1].process.Running? then r.commands[n - 1].weight else 0
  }

  predicate AllFit(r: Tier) {
    forall k | 0 <= k < |r.commands| :: r.commands[k].weight <= r.workers
  }

  lemma {:induction false} HeldIsWeight(r: Tier, n: nat)
    requires TierInv(r) && AllFit(r) && n <= |r.tasks|
    ensures HeldWeight(r, n) == Held(r, n) && RunningWeight(r, n) <= HeldWeight(r, n)
  {
    if n > 0 {
      HeldIsWeight(r, n - 1);
      assert TaskOk(r, n - 1);
    }
  }

  /** Where no command is heavier than the budget, the weights of what runs never exceed it. */
  lemma WeightsFit(run: seq<State>, i: nat, t: nat)
    requires IsRun(run) && i < |run| && t < |run[i].tiers| && AllFit(run[i].tiers[t])
    ensures var r := run[i].tiers[t];
      && |r.tasks| == |r.commands| && r.free + HeldWeight(r, |r.tasks|) == r.workers
      && RunningWeight(r, |r.tasks|) <= r.workers
  {
    RunInv(run, i);
    assert TierInv(run[i].tiers[t]);
    HeldIsWeight(run[i].tiers[t], |run[i].tiers[t].tasks|);
  }

  lemma {:induction false} HeldIncludes(r: Tier, n: nat, k: nat, j: nat)
    requires |r.tasks| == |r.commands| && k < n <= |r.tasks| && j < n && j != k
    ensures SlotsOf(r, k) + SlotsOf(r, j) <= Held(r, n)
  {
    if k == n - 1 {
      HeldCovers(r, n - 1, j);
    } else if j == n - 1 {
      HeldCovers(r, n - 1, k);
    } else {
      HeldIncludes(r, n - 1, k, j);
    }
  }

  lemma {:induction false} HeldCovers(r: Tier, n: nat, k: nat)
    requires |r.tasks| == |r.commands| && k < n <= |r.tasks|
    ensures SlotsOf(r, k) <= Held(r, n)
  {
    if k < n - 1 {
      HeldCovers(r, n - 1, k);
    }
  }

  /** A command as heavy as the budget runs alone, beside commands without weight at most. */
  lemma HeavyRunsAlone(run: seq<State>, i: nat, t: nat, k: nat, j: nat)
    requires IsRun(run) && i < |run| && t < |run[i].tiers| && Sized(run[i].tiers[t], k) && Sized(run[i].tiers[t], j) && j != k
    requires var r := run[i].tiers[t]; r.tasks[k].process.Running? && r.commands[k].weight >= r.workers
    ensures var r := run[i].tiers[t]; r.tasks[j].process.Running? ==> r.commands[j].weight == 0
  {
    RunInv(run, i);
    var r := run[i].tiers[t];
    assert TierInv(r) && TaskOk(r, k) && TaskOk(r, j);
    HeldIncludes(r, |r.tasks|, k, j);
  }

  lemma {:induction false} NothingIsHeld(r: Tier, n: nat)
    requires |r.tasks| == |r.commands| && n <= |r.tasks| && r.workers > 0
    ensures Held(r, n) == 0 <==> forall j | 0 <= j < n :: HoldsSlots(r.tasks[j].pc) ==> r.commands[j].weight == 0
  {
    if n > 0 {
      NothingIsHeld(r, n - 1);
    }
  }

  /**
   A waiting command is admitted exactly when its weight fits beside the weights that are held; one as
   heavy as the budget exactly when nothing with a weight is.
   */
  lemma AdmittedIff(run: seq<State>, i: nat, t: nat, k: nat)
    requires IsRun(run) && i < |run| && t < |run[i].tiers| && Sized(run[i].tiers[t], k)
    requires run[i].tiers[t].tasks[k].pc.Acquiring?
    ensures var r := run[i].tiers[t];
      && (AllFit(r) ==>
            ((exists r' :: Acquires(r, r', k)) <==> HeldWeight(r, |r.tasks|) + r.commands[k].weight <= r.workers))
      && (r.commands[k].weight >= r.workers ==>
            ((exists r' :: Acquires(r, r', k)) <==>
             forall j | 0 <= j < |r.tasks| :: HoldsSlots(r.tasks[j].pc) ==> r.commands[j].weight == 0))
  {
    RunInv(run, i);
    var r := run[i].tiers[t];
    assert TierInv(r);
    if AllFit(r) {
      HeldIsWeight(r, |r.tasks|);
    }
    NothingIsHeld(r, |r.tasks|);
    if r.free >= Cost(r, k) {
      assert Acquires(r, At(r, k, Admitted).(free := r.free - Cost(r, k)), k);
    }
  }

  // ----------------------------------------------------------------- threads

  lemma {:induction false} FlightMoved(tasks: seq<Task>, k: nat, task: Task, n: nat)
    requires k < |tasks| && n <= |tasks|
    ensures var after := FlightCount(tasks[k := task], n);
      after == FlightCount(tasks, n)
        + if k < n && InFlight(task.pc) && !InFlight(tasks[k].pc) then 1
          else if k < n && !InFlight(task.pc) && InFlight(tasks[k].pc) then -1 else 0
  {
    if n > 0 {
      FlightMoved(tasks, k, task, n - 1);
    }
  }

  lemma FlightKept(t: nat, r: Tier, g: Shared, r': Tier, g': Shared, k: nat)
    requires Sized(r, k) && TierStep(t, r, g, r', g', k) && FlightCount(r.tasks, |r.tasks|) <= r.workers
    ensures |r'.tasks| == |r.tasks| && r'.workers == r.workers && FlightCount(r'.tasks, |r'.tasks|) <= r'.workers
  {
    if Returns(r, r') || Handles(r, r', k) {
      assert r'.tasks == r.tasks;
    } else {
      assert r'.tasks == r.tasks[k := r'.tasks[k]];
      FlightMoved(r.tasks, k, r'.tasks[k], |r.tasks|);
    }
  }

  predicate AreThreadsBounded(s: State) {
    forall t | 0 <= t < |s.tiers| :: FlightCount(s.tiers[t].tasks, |s.tiers[t].tasks|) <= s.tiers[t].workers
  }

  lemma StepFlight(s: State, s': State, t: nat, k: nat)
    requires StepAt(s, s', t, k) && AreThreadsBounded(s)
    ensures AreThreadsBounded(s')
  {
    FlightKept(t, s.tiers[t], s.shared, s'.tiers[t], s'.shared, k);
  }

  lemma FirstFlight(s: State)
    requires Initial(s)
    ensures AreThreadsBounded(s)
  {
    forall t | 0 <= t < |s.tiers| ensures FlightCount(s.tiers[t].tasks, |s.tiers[t].tasks|) <= s.tiers[t].workers {
      assert Fresh(s.tiers[t]);
      NoneInFlight(s.tiers[t].tasks, |s.tiers[t].tasks|);
    }
  }

  /** In no state of a run does a tier have more threads at work than workers. */
  lemma {:induction false} ThreadsBounded(run: seq<State>, i: nat)
    requires IsRun(run) && i < |run|
    ensures AreThreadsBounded(run[i])
  {
    if i == 0 {
      FirstFlight(run[0]);
    } else {
      ThreadsBounded(run, i - 1);
      assert Step(run[i - 1], run[i]);
      var t: nat, k: nat :| StepAt(run[i - 1], run[i], t, k);
      StepFlight(run[i - 1], run[i], t, k);
    }
  }

  // ------------------------------------------------------------ cancellation

  /**
   Once the main thread has handled the first failing command, every process that still runs has
   been signalled or is about to be signalled by the thread that started it: that thread has still
   to register it, and will find `stop` set, or has found it set.
   */
  lemma NoProcessEscapes(run: seq<State>, i: nat, t: nat, k: nat)
    requires IsRun(run) && i < |run| && t < |run[i].tiers| && k < |run[i].tiers[t].tasks|
    requires run[i].tiers[t].failure.Some? && run[i].tiers[t].pending == {}
    requires run[i].tiers[t].tasks[k].process.Running?
    ensures var r, task := run[i].tiers[t], run[i].tiers[t].tasks[k];
      r.stop && (task.process.signalled || task.pc.Launched? || task.pc == Joined(true))
  {
    RunInv(run, i);
    assert TierInv(run[i].tiers[t]) && TaskOk(run[i].tiers[t], k);
  }

  /** Nobody waits for a process that was not signalled. */
  lemma WaitedIsSignalled(run: seq<State>, i: nat, t: nat, k: nat)
    requires IsRun(run) && i < |run| && t < |run[i].tiers| && k < |run[i].tiers[t].tasks|
    requires run[i].tiers[t].failure.Some? && run[i].tiers[t].pending == {}
    requires run[i].tiers[t].tasks[k].pc.Waiting?
    ensures run[i].tiers[t].tasks[k].process.Running? ==> run[i].tiers[t].tasks[k].process.signalled
  {
    RunInv(run, i);
    assert TierInv(run[i].tiers[t]) && TaskOk(run[i].tiers[t], k);
  }

  // ------------------------------------------------------------- exit status

  /** Some command with this identity ran to return code 0, at or before this moment. */
  ghost predicate RanToZero(run: seq<State>, i: nat, id: Id)
    requires i < |run|
  {
    exists j: nat, t: nat, k: nat :: j <= i && ReapedZero(run[j], t, k, id)
  }

  predicate ReapedZero(s: State, t: nat, k: nat, id: Id) {
    Valid(s, t, k) && IdOf(s, t, k) == id && s.tiers[t].tasks[k].pc == Reaped(0)
  }

  lemma {:induction false} SucceededRan(run: seq<State>, i: nat, id: Id)
    requires IsRun(run) && i < |run| && id in run[i].shared.succeeded
    ensures RanToZero(run, i, id)
  {
    var s, s' := run[if i == 0 then 0 else i - 1], run[i];
    if i > 0 {
      if id in s.shared.succeeded {
        SucceededRan(run, i - 1, id);
        var j: nat, t: nat, k: nat :| j <= i - 1 && ReapedZero(run[j], t, k, id);
      } else {
        assert Step(run[i - 1], run[i]);
        var t: nat, k: nat :| StepAt(s, s', t, k);
        NewSuccess(t, s.tiers[t], s.shared, s'.tiers[t], s'.shared, k, id);
        assert ReapedZero(s', t, k, id);
      }
    }
  }

  lemma NewSuccess(t: nat, r: Tier, g: Shared, r': Tier, g': Shared, k: nat, id: Id)
    requires Sized(r, k) && TierStep(t, r, g, r', g', k) && id !in g.succeeded && id in g'.succeeded
    ensures Sized(r', k) && r'.commands[k].id == id && r'.tasks[k].pc == Reaped(0)
  {
  }

  /**
   A call that returns 0 has skipped nothing: the process of each command exited with 0 in it, or the
   command was cached and a command with the same key, name and argv had run to 0 before.
   */
  lemma ExitZeroIsSound(run: seq<State>, i: nat, t: nat, k: nat)
    requires IsRun(run) && i < |run| && t < |run[i].tiers| && k < |run[i].tiers[t].tasks|
    requires run[i].tiers[t].main == Returned(0)
    ensures Valid(run[i], t, k)
    ensures var r := run[i].tiers[t];
      || (r.tasks[k].pc == Done(Ran(0)) && r.tasks[k].process == Exited(0) && RanToZero(run, i, r.commands[k].id))
      || (r.tasks[k].pc == Done(Hit) && r.commands[k].cached && RanToZero(run, i, r.commands[k].id))
  {
    RunInv(run, i);
    var s := run[i];
    var r := s.tiers[t];
    assert TierInv(r);
    NothingStopped(r);
    assert TaskOk(r, k) && ResultsOk(s, t, k);
    SucceededRan(run, i, r.commands[k].id);
  }

  lemma NothingStopped(r: Tier)
    requires TierInv(r) && r.main == Returned(0)
    ensures !r.stop && r.failure.None?
  {
    forall j: nat | j < |r.tasks| ensures !HasFailed(r.tasks[j].pc) {
      assert TaskOk(r, j);
    }
  }

  /** A call that returns reports the first failure it handled. */
  lemma ExitStatus(run: seq<State>, i: nat, t: nat)
    requires IsRun(run) && i < |run| && t < |run[i].tiers| && run[i].tiers[t].main.Returned?
    ensures run[i].tiers[t].main.status == 0 <==>
      forall k: nat | k < |run[i].tiers[t].tasks| :: !HasFailed(run[i].tiers[t].tasks[k].pc)
  {
    RunInv(run, i);
    var r := run[i].tiers[t];
    assert TierInv(r);
    if r.main.status == 0 {
      NothingStopped(r);
    }
    forall k: nat | k < |r.tasks| ensures HasFailed(r.tasks[k].pc) ==> r.stop && r.failure.Some? {
      assert TaskOk(r, k);
    }
  }

  /** The first failing command is handled in the step from `m`, with this return code. */
  ghost predicate FailsFirst(run: seq<State>, m: nat, t: nat, k: nat, code: int)
    requires m + 1 < |run|
  {
    && Valid(run[m], t, k) && Valid(run[m + 1], t, k)
    && run[m].tiers[t].failure.None? && run[m].tiers[t].tasks[k].pc == Done(Ran(code)) && code != 0
    && k !in run[m].tiers[t].handled && k in run[m + 1].tiers[t].handled
  }

  /** What is reported is the return code of the command that was the first to be handled as failed. */
  lemma {:induction false} FailureIsFirst(run: seq<State>, i: nat, t: nat)
    requires IsRun(run) && i < |run| && t < |run[i].tiers| && run[i].tiers[t].failure.Some?
    ensures exists m: nat, k: nat :: m < i && FailsFirst(run, m, t, k, run[i].tiers[t].failure.value)
  {
    if i > 0 {
      assert Step(run[i - 1], run[i]);
      var u: nat, k: nat :| StepAt(run[i - 1], run[i], u, k);
      if run[i - 1].tiers[t].failure.Some? {
        FailureIsFirst(run, i - 1, t);
        FailureKept(run[i - 1], run[i], u, k, t);
        var m: nat, j: nat :| m < i - 1 && FailsFirst(run, m, t, j, run[i - 1].tiers[t].failure.value);
      } else {
        NewFailure(run[i - 1], run[i], u, k, t);
        assert FailsFirst(run, i - 1, t, k, run[i].tiers[t].failure.value);
      }
    }
  }

  lemma FailureKept(s: State, s': State, u: nat, k: nat, t: nat)
    requires StepAt(s, s', u, k) && t < |s.tiers| && s.tiers[t].failure.Some?
    ensures s'.tiers[t].failure == s.tiers[t].failure
  {
  }

  lemma NewFailure(s: State, s': State, u: nat, k: nat, t: nat)
    requires StepAt(s, s', u, k) && t < |s.tiers| && s.tiers[t].failure.None? && s'.tiers[t].failure.Some?
    ensures u == t && Valid(s, t, k) && Valid(s', t, k) && s.tiers[t].tasks[k].pc == Done(Ran(s'.tiers[t].failure.value))
    ensures s'.tiers[t].failure.value != 0 && k !in s.tiers[t].handled && k in s'.tiers[t].handled
  {
  }

  /** A call that does not return 0 returns the code of the first failing command it handled, or 1 for one out of range. */
  lemma ExitCode(run: seq<State>, i: nat, t: nat)
    requires IsRun(run) && i < |run| && t < |run[i].tiers| && run[i].tiers[t].main.Returned? && run[i].tiers[t].main.status != 0
    ensures exists m: nat, k: nat, code: int ::
      m < i && FailsFirst(run, m, t, k, code) && run[i].tiers[t].main.status == if 0 < code < 256 then code else 1
  {
    RunInv(run, i);
    assert TierInv(run[i].tiers[t]);
    FailureIsFirst(run, i, t);
    var m: nat, k: nat :| m < i && FailsFirst(run, m, t, k, run[i].tiers[t].failure.value);
  }

  // --------------------------------------------------------------- progress

  predicate Ended(r: Tier) {
    r.main.Returned? || r.main.Crashed?
  }

  /** A worker that waits for nobody: its next step can be taken now. */
  predicate Ready(pc: Pc) {
    !pc.Queued? && !pc.Locking? && !pc.Acquiring? && !pc.Done?
  }

  function Forward(r: Tier, g: Shared, k: nat): (Tier, Shared)
    requires Sized(r, k)
  {
    var task, c := r.tasks[k], r.commands[k];
    match task.pc
    case Started => (At(r, k, if r.stop then Done(Skipped) else if c.cached then Locking else Acquiring), g)
    case Checking => (At(r, k, if c.id in g.markers then Unlocking(Hit) else Acquiring), g)
    case Admitted => (At(r, k, if r.stop then Leaving(Skipped) else Cleared), g)
    case Cleared => (WithTask(r, k, Task(Launched, Running(false))), g)
    case Launched => (At(r, k, Joined(r.stop)).(active := r.active + {k}), g)
    case Joined(cancelled) =>
      (WithTask(r, k, Task(Waiting, if cancelled then Signalled(task.process) else task.process)), g)
    case Waiting =>
      if task.process.Exited? then
        (At(r, k, Reaped(task.process.code)),
         if task.process.code == 0 then g.(succeeded := g.succeeded + {c.id}) else g)
      else (WithTask(r, k, Task(Waiting, Exited(0))), g)
    case Reaped(code) => (At(r, k, Removed(code)).(active := r.active - {k}), g)
    case Removed(code) => (At(r, k, Finishing(code)).(free := r.free + Cost(r, k)), g)
    case Leaving(o) => (At(r, k, Unlocking(o)).(free := r.free + Cost(r, k)), g)
    case Finishing(code) =>
      (At(r, k, Unlocking(Ran(code))).(stop := r.stop || code != 0),
       if code == 0 && c.cached then g.(markers := g.markers + {c.id}) else g)
    case Unlocking(o) => (At(r, k, Done(o)), if c.cached then g.(locks := g.locks - {c.id}) else g)
    case _ => (r, g)
  }

  lemma ReadyMoves(t: nat, r: Tier, g: Shared, k: nat)
    requires TierInv(r) && Sized(r, k) && Ready(r.tasks[k].pc)
    ensures TierStep(t, r, g, Forward(r, g, k).0, Forward(r, g, k).1, k)
  {
    assert TaskOk(r, k);
  }

  lemma StepTo(s: State, t: nat, k: nat, r': Tier, g': Shared) returns (s': State)
    requires t < |s.tiers| && Sized(s.tiers[t], k) && TierStep(t, s.tiers[t], s.shared, r', g', k)
    ensures Step(s, s')
  {
    s' := State(s.tiers[t := r'], g');
    assert StepAt(s, s', t, k);
  }

  lemma {:induction false} NoneHeld(r: Tier, n: nat)
    requires |r.tasks| == |r.commands| && n <= |r.tasks| && forall k: nat | k < n :: !HoldsSlots(r.tasks[k].pc)
    ensures Held(r, n) == 0
  {
    if n > 0 {
      NoneHeld(r, n - 1);
    }
  }

  lemma {:induction false} NoneInFlight(tasks: seq<Task>, n: nat)
    requires n <= |tasks| && forall k: nat | k < n :: !InFlight(tasks[k].pc)
    ensures FlightCount(tasks, n) == 0
  {
    if n > 0 {
      NoneInFlight(tasks, n - 1);
    }
  }

  predicate NoneReady(s: State) {
    forall t: nat | t < |s.tiers| :: forall k: nat | k < |s.tiers[t].tasks| :: !Ready(s.tiers[t].tasks[k].pc)
  }

  /** All workers wait: one that waits for slots finds them all free. */
  lemma SlotsAreFree(s: State, t: nat, k: nat) returns (s': State)
    requires Inv(s) && NoneReady(s) && Valid(s, t, k) && s.tiers[t].tasks[k].pc.Acquiring?
    ensures Step(s, s')
  {
    var r := s.tiers[t];
    assert TierInv(r);
    NoneHeld(r, |r.tasks|);
    var r' := At(r, k, Admitted).(free := r.free - Cost(r, k));
    assert Acquires(r, r', k);
    s' := StepTo(s, t, k, r', s.shared);
  }

  lemma Holder(s: State, id: Id) returns (t: nat, k: nat)
    requires Inv(s) && id in s.shared.locks
    ensures Valid(s, t, k) && HasLock(s, t, k)
  {
    assert HolderOk(s, id);
    t, k := s.shared.locks[id].0, s.shared.locks[id].1;
  }

  /** All workers wait and none for slots: one that waits for a lock finds it free. */
  lemma LockIsFree(s: State, t: nat, k: nat) returns (s': State)
    requires Inv(s) && NoneReady(s) && Valid(s, t, k) && s.tiers[t].tasks[k].pc.Locking?
    requires forall u: nat | u < |s.tiers| :: forall j: nat | j < |s.tiers[u].tasks| :: !s.tiers[u].tasks[j].pc.Acquiring?
    ensures Step(s, s')
  {
    var r, id := s.tiers[t], s.tiers[t].commands[k].id;
    forall u: nat, j: nat | Valid(s, u, j) ensures !HasLock(s, u, j) {
      assert !Ready(s.tiers[u].tasks[j].pc);
    }
    if id in s.shared.locks {
      var u, j := Holder(s, id);
    }
    var r', g' := At(r, k, Checking), s.shared.(locks := s.shared.locks[id := (t, k)]);
    assert Locks(t, r, s.shared, r', g', k);
    s' := StepTo(s, t, k, r', g');
  }

  /** No worker is under way: the pool takes a command or the main thread goes on. */
  lemma PoolGoesOn(s: State, t: nat) returns (s': State)
    requires Inv(s) && t < |s.tiers| && !Ended(s.tiers[t])
    requires forall k: nat | k < |s.tiers[t].tasks| :: !InFlight(s.tiers[t].tasks[k].pc)
    ensures Step(s, s')
  {
    var r, n := s.tiers[t], |s.tiers[t].tasks|;
    assert TierInv(r);
    if k: nat :| k < n && r.tasks[k].pc.Queued? {
      NoneInFlight(r.tasks, n);
      var r' := At(r, k, Started);
      assert Begins(r, r', k);
      s' := StepTo(s, t, k, r', s.shared);
    } else {
      s' := MainGoesOn(s, t);
    }
  }

  lemma MainGoesOn(s: State, t: nat) returns (s': State)
    requires Inv(s) && t < |s.tiers| && !Ended(s.tiers[t]) && AllDone(s.tiers[t])
    ensures Step(s, s')
  {
    var r, g := s.tiers[t], s.shared;
    assert TierInv(r);
    if r.pending != {} {
      var k: nat :| k in r.pending;
      var r' := WithTask(r, k, Task(r.tasks[k].pc, Signalled(r.tasks[k].process))).(pending := r.pending - {k});
      assert Signals(r, r', k);
      s' := StepTo(s, t, k, r', g);
    } else if r.main.Looping? && exists k: nat :: k < |r.tasks| && k !in r.handled {
      var k: nat :| k < |r.tasks| && k !in r.handled;
      var o := r.tasks[k].pc.result;
      var r' := if o.Raised? then r.(main := Aborting)
        else if Fails(o) && r.failure.None? then
          r.(handled := r.handled + {k}, failure := Some(o.returncode), pending := r.active)
        else r.(handled := r.handled + {k});
      assert Handles(r, r', k);
      s' := StepTo(s, t, k, r', g);
    } else {
      var r' := if r.main.Looping? then r.(main := Returned(Status(r.failure))) else r.(main := Crashed);
      assert Returns(r, r');
      s' := StepTo(s, t, 0, r', g);
    }
  }

  /** While a call has not ended some step can be taken, whatever the tiers hold and wait for. */
  lemma NoDeadlock(s: State, t: nat) returns (s': State)
    requires Inv(s) && t < |s.tiers| && !Ended(s.tiers[t])
    ensures Step(s, s')
  {
    assert forall u: nat | u < |s.tiers| :: TierInv(s.tiers[u]);
    if u: nat, k: nat :| u < |s.tiers| && k < |s.tiers[u].tasks| && Ready(s.tiers[u].tasks[k].pc) {
      ReadyMoves(u, s.tiers[u], s.shared, k);
      var next := Forward(s.tiers[u], s.shared, k);
      s' := StepTo(s, u, k, next.0, next.1);
    } else if u: nat, k: nat :| u < |s.tiers| && k < |s.tiers[u].tasks| && s.tiers[u].tasks[k].pc.Acquiring? {
      s' := SlotsAreFree(s, u, k);
    } else if u: nat, k: nat :| u < |s.tiers| && k < |s.tiers[u].tasks| && s.tiers[u].tasks[k].pc.Locking? {
      s' := LockIsFree(s, u, k);
    } else {
      s' := PoolGoesOn(s, t);
    }
  }

  // ------------------------------------------------------------- termination

  function Rank(pc: Pc): nat {
    match pc
    case Queued => 15
    case Started => 14
    case Locking => 13
    case Checking => 12
    case Acquiring => 11
    case Admitted => 10
    case Cleared => 9
    case Launched => 8
    case Joined(_) => 7
    case Waiting => 6
    case Reaped(_) => 5
    case Removed(_) => 4
    case Leaving(_) => 3
    case Finishing(_) => 3
    case Unlocking(_) => 2
    case Done(_) => 1
  }

  function TaskRank(task: Task): nat {
    2 * Rank(task.pc) + if task.process.Running? then 1 else 0
  }

  function TasksRank(tasks: seq<Task>, n: nat): nat
    requires n <= |tasks|
  {
    if n == 0 then 0 else TasksRank(tasks, n - 1) + TaskRank(tasks[n - 1])
  }

  /** How many of the first `n` futures are still to be handled. */
  function Unhandled(handled: set<nat>, n: nat): nat {
    if n == 0 then 0 else Unhandled(handled, n - 1) + if n - 1 in handled then 0 else 1
  }

  function MainRank(r: Tier): nat {
    (|r.tasks| + 2) * Unhandled(r.handled, |r.tasks|) + |r.pending|
    + if r.main.Looping? then 2 else if r.main.Aborting? then 1 else 0
  }

  function TierRank(r: Tier): nat {
    TasksRank(r.tasks, |r.tasks|) + MainRank(r)
  }

  function TotalRank(tiers: seq<Tier>, n: nat): nat
    requires n <= |tiers|
  {
    if n == 0 then 0 else TotalRank(tiers, n - 1) + TierRank(tiers[n - 1])
  }

  lemma {:induction false} TasksRankMoved(tasks: seq<Task>, k: nat, task: Task, n: nat)
    requires k < |tasks| && n <= |tasks|
    ensures TasksRank(tasks[k := task], n)
         == TasksRank(tasks, n) + if k < n then TaskRank(task) - TaskRank(tasks[k]) else 0
  {
    if n > 0 {
      TasksRankMoved(tasks, k, task, n - 1);
    }
  }

  lemma {:induction false} UnhandledOne(handled: set<nat>, k: nat, n: nat)
    requires k !in handled
    ensures Unhandled(handled + {k}, n) == Unhandled(handled, n) - if k < n then 1 else 0
  {
    if n > 0 {
      UnhandledOne(handled, k, n - 1);
    }
  }

  lemma {:induction false} IndexCount(s: set<nat>, n: nat)
    requires Indices(s, n)
    ensures |s| <= n
    decreases n
  {
    if n == 0 {
      assert s == {};
    } else {
      IndexCount(s - {n - 1}, n - 1);
      assert s <= (s - {n - 1}) + {n - 1};
    }
  }

  lemma MoveRank(r: Tier, r': Tier, k: nat)
    requires TierInv(r) && Sized(r, k) && Moves(r, r', k)
    ensures |r'.tasks| == |r.tasks| && r'.tasks == r.tasks[k := r'.tasks[k]]
    ensures TaskRank(r'.tasks[k]) < TaskRank(r.tasks[k]) && MainRank(r') == MainRank(r)
  {
    if Registers(r, r', k) || Waits(r, r', k) || Discards(r, r', k) || Releases(r, r', k) || Exits(r, r', k) {
      ProcessRank(r, r', k);
    } else {
      assert TaskOk(r, k);
    }
  }

  lemma ProcessRank(r: Tier, r': Tier, k: nat)
    requires TierInv(r) && Sized(r, k)
    requires Registers(r, r', k) || Waits(r, r', k) || Discards(r, r', k) || Releases(r, r', k) || Exits(r, r', k)
    ensures |r'.tasks| == |r.tasks| && r'.tasks == r.tasks[k := r'.tasks[k]]
    ensures TaskRank(r'.tasks[k]) < TaskRank(r.tasks[k]) && MainRank(r') == MainRank(r)
  {
    assert TaskOk(r, k);
  }

  lemma SharingRank(t: nat, r: Tier, g: Shared, r': Tier, g': Shared, k: nat)
    requires TierInv(r) && Sized(r, k)
    requires Locks(t, r, g, r', g', k) || Checks(r, g, r', k) || Reaps(r, g, r', g', k)
          || Finishes(r, g, r', g', k) || Unlocks(r, g, r', g', k)
    ensures |r'.tasks| == |r.tasks| && r'.tasks == r.tasks[k := r'.tasks[k]]
    ensures TaskRank(r'.tasks[k]) < TaskRank(r.tasks[k]) && MainRank(r') == MainRank(r)
  {
    assert TaskOk(r, k);
  }

  lemma SignalRank(r: Tier, r': Tier, k: nat)
    requires Sized(r, k) && Signals(r, r', k)
    ensures |r'.tasks| == |r.tasks| && r'.tasks == r.tasks[k := r'.tasks[k]]
    ensures TaskRank(r'.tasks[k]) == TaskRank(r.tasks[k]) && MainRank(r') < MainRank(r)
  {
    assert |r'.pending| == |r.pending| - 1;
  }

  lemma HandleRank(r: Tier, r': Tier, k: nat)
    requires TierInv(r) && Sized(r, k) && Handles(r, r', k)
    ensures r'.tasks == r.tasks && MainRank(r') < MainRank(r)
  {
    var n := |r.tasks|;
    IndexCount(r.active, n);
    UnhandledOne(r.handled, k, n);
    var u := Unhandled(r.handled, n);
    assert (n + 2) * (u - 1) == (n + 2) * u - (n + 2);
  }

  lemma StepRank(t: nat, r: Tier, g: Shared, r': Tier, g': Shared, k: nat)
    requires TierInv(r) && Sized(r, k) && TierStep(t, r, g, r', g', k)
    ensures TierRank(r') < TierRank(r)
  {
    if Handles(r, r', k) {
      HandleRank(r, r', k);
    } else if Returns(r, r') {
    } else if Signals(r, r', k) {
      SignalRank(r, r', k);
      TasksRankMoved(r.tasks, k, r'.tasks[k], |r.tasks|);
    } else {
      if Moves(r, r', k) {
        MoveRank(r, r', k);
      } else {
        SharingRank(t, r, g, r', g', k);
      }
      TasksRankMoved(r.tasks, k, r'.tasks[k], |r.tasks|);
    }
  }

  lemma {:induction false} TotalMoved(tiers: seq<Tier>, t: nat, r: Tier, n: nat)
    requires t < |tiers| && n <= |tiers|
    ensures TotalRank(tiers[t := r], n) == TotalRank(tiers, n) + if t < n then TierRank(r) - TierRank(tiers[t]) else 0
  {
    if n > 0 {
      TotalMoved(tiers, t, r, n - 1);
    }
  }

  function Measure(s: State): nat {
    TotalRank(s.tiers, |s.tiers|)
  }

  lemma StepDecreases(s: State, s': State)
    requires Inv(s) && Step(s, s')
    ensures Measure(s') < Measure(s)
  {
    var t: nat, k: nat :| StepAt(s, s', t, k);
    StepRank(t, s.tiers[t], s.shared, s'.tiers[t], s'.shared, k);
    TotalMoved(s.tiers, t, s'.tiers[t], |s.tiers|);
  }

  /** Every run is finite: its first state bounds the number of its steps. */
  lemma {:induction false} RunsEnd(run: seq<State>, i: nat)
    requires IsRun(run) && i < |run|
    ensures i + Measure(run[i]) <= Measure(run[0])
  {
    if i > 0 {
      RunsEnd(run, i - 1);
      RunInv(run, i - 1);
      StepDecreases(run[i - 1], run[i]);
    }
  }

  /** A run that cannot go on has ended every call. */
  lemma StuckIsEnded(run: seq<State>)
    requires IsRun(run) && forall s' :: !Step(Last(run), s')
    ensures forall t: nat | t < |Last(run).tiers| :: Ended(Last(run).tiers[t])
  {
    RunInv(run, |run| - 1);
    forall t: nat | t < |Last(run).tiers| ensures Ended(Last(run).tiers[t]) {
      if !Ended(Last(run).tiers[t]) {
        var s' := NoDeadlock(Last(run), t);
      }
    }
  }
}
