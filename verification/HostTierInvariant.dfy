/**
 What every step of the host tier keeps: slots are conserved, locks have one holder each, and after
 the first failure no process runs that nobody will signal.
 */
module HostTierInvariant {
  import opened Prelude
  import opened HostTier

  predicate IsRegistered(pc: Pc) {
    pc.Joined? || pc.Waiting? || pc.Reaped?
  }

  /** What `execute` is going to return, once that is settled. */
  function Settled(pc: Pc): Option<Outcome> {
    match pc
    case Leaving(o) => Some(o)
    case Unlocking(o) => Some(o)
    case Done(o) => Some(o)
    case _ => None
  }

  predicate HasFailed(pc: Pc) {
    (pc.Unlocking? || pc.Done?) && Fails(pc.result)
  }

  predicate ProcessFits(task: Task) {
    match task.pc
    case Launched => !task.process.NoProcess?
    case Joined(_) => !task.process.NoProcess?
    case Waiting => !task.process.NoProcess?
    case Reaped(code) => task.process == Exited(code)
    case Removed(code) => task.process == Exited(code)
    case Finishing(code) => task.process == Exited(code)
    case Leaving(_) => task.process.NoProcess?
    case Unlocking(result) => !task.process.Running? && (result.Ran? ==> task.process == Exited(result.returncode))
    case Done(result) => !task.process.Running? && (result.Ran? ==> task.process == Exited(result.returncode))
    case _ => task.process.NoProcess?
  }

  /** After the first failure is handled: signalled, or about to be signalled by its own thread. */
  predicate Cornered(task: Task) {
    task.process == Running(false) ==> task.pc.Launched? || task.pc == Joined(true)
  }

  predicate TaskOk(r: Tier, k: nat)
    requires Sized(r, k)
  {
    var task := r.tasks[k];
    && (task.pc.Locking? || task.pc.Checking? ==> r.commands[k].cached)
    && ProcessFits(task) && (k in r.active <==> IsRegistered(task.pc))
    && (HasFailed(task.pc) ==> r.stop)
    && (Settled(task.pc) == Some(Skipped) ==> r.stop)
    && (task.pc.Leaving? ==> task.pc.left.Skipped? || task.pc.left.Raised?)
    && (k in r.handled ==>
          task.pc.Done? && !task.pc.result.Raised? && (Fails(task.pc.result) ==> r.failure.Some?))
    && (r.failure.Some? && k !in r.pending ==> Cornered(task))
  }

  /** The slots that the first `n` commands hold. */
  function Held(r: Tier, n: nat): nat
    requires |r.tasks| == |r.commands| && n <= |r.tasks|
  {
    if n == 0 then 0 else Held(r, n - 1) + SlotsOf(r, n - 1)
  }

  function SlotsOf(r: Tier, k: nat): nat
    requires Sized(r, k)
  {
    if HoldsSlots(r.tasks[k].pc) then Cost(r, k) else 0
  }

  predicate Indices(s: set<nat>, n: nat) {
    forall k | k in s :: k < n
  }

  ghost predicate SomeFailed(r: Tier) {
    exists k: nat :: k < |r.tasks| && HasFailed(r.tasks[k].pc)
  }

  predicate MainOk(r: Tier) {
    && (r.failure.Some? ==> r.stop && r.failure.value != 0)
    && (r.failure.None? ==> r.pending == {})
    && (r.main.Returned? ==>
          && (forall k | 0 <= k < |r.tasks| :: k in r.handled)
          && r.main.status == Status(r.failure))
  }

  ghost predicate TierInv(r: Tier) {
    && |r.tasks| == |r.commands| && 1 <= r.workers <= |r.commands|
    && r.free + Held(r, |r.tasks|) == r.workers
    && (forall k: nat | k < |r.tasks| :: TaskOk(r, k))
    && (r.stop ==> SomeFailed(r))
    && MainOk(r) && Indices(r.pending, |r.tasks|) && Indices(r.active, |r.tasks|)
  }

  // -------------------------------------------------------------- one worker

  lemma {:induction false} HeldSame(r: Tier, r': Tier, n: nat)
    requires |r.tasks| == |r.commands| && |r'.tasks| == |r.tasks| && r'.commands == r.commands && r'.workers == r.workers
    requires n <= |r.tasks| && forall j | 0 <= j < n :: r'.tasks[j].pc == r.tasks[j].pc
    ensures Held(r', n) == Held(r, n)
  {
    if n > 0 {
      HeldSame(r, r', n - 1);
    }
  }

  lemma {:induction false} HeldMoved(r: Tier, r': Tier, k: nat, n: nat)
    requires Sized(r, k) && |r'.tasks| == |r.tasks| && r'.tasks == r.tasks[k := r'.tasks[k]]
    requires r'.commands == r.commands && r'.workers == r.workers && k < n <= |r.tasks|
    ensures Held(r', n) + SlotsOf(r, k) == Held(r, n) + SlotsOf(r', k)
  {
    if k == n - 1 {
      HeldSame(r, r', k);
    } else {
      HeldMoved(r, r', k, n - 1);
    }
  }

  /** Only the task of `k`, what it holds and whether it is registered or signalled change. */
  predicate OnlyTask(r: Tier, r': Tier, k: nat)
    requires Sized(r, k)
  {
    && |r'.tasks| == |r.tasks| && r'.tasks == r.tasks[k := r'.tasks[k]]
    && r'.commands == r.commands && r'.workers == r.workers && r'.main == r.main
    && r'.handled == r.handled && r'.failure == r.failure
    && r'.active - {k} == r.active - {k} && r'.pending - {k} == r.pending - {k} && r'.pending <= r.pending
    && (r.stop ==> r'.stop)
  }

  lemma WorkerKeeps(r: Tier, r': Tier, k: nat)
    requires TierInv(r) && Sized(r, k) && OnlyTask(r, r', k)
    requires r'.free + SlotsOf(r', k) == r.free + SlotsOf(r, k)
    requires TaskOk(r', k) && (HasFailed(r.tasks[k].pc) ==> HasFailed(r'.tasks[k].pc))
    requires r'.stop ==> r.stop || HasFailed(r'.tasks[k].pc)
    ensures TierInv(r')
  {
    HeldMoved(r, r', k, |r.tasks|);
    forall j: nat | j < |r'.tasks| ensures TaskOk(r', j) {
      assert TaskOk(r, j);
      if j != k {
        assert j in r'.active <==> j in r'.active - {k};
        assert j in r.active <==> j in r.active - {k};
        assert j in r'.pending <==> j in r'.pending - {k};
        assert j in r.pending <==> j in r.pending - {k};
      }
    }
    forall j | j in r'.active ensures j < |r'.tasks| {
      assert j == k || j in r.active - {k};
    }
    if r'.stop {
      if r.stop {
        var j: nat :| j < |r.tasks| && HasFailed(r.tasks[j].pc);
        assert HasFailed(r'.tasks[j].pc);
      } else {
        assert HasFailed(r'.tasks[k].pc);
      }
    }
  }

  lemma MovesKeep(r: Tier, r': Tier, k: nat)
    requires TierInv(r) && Sized(r, k) && Moves(r, r', k)
    ensures TierInv(r')
  {
    if Registers(r, r', k) || Waits(r, r', k) || Discards(r, r', k) || Releases(r, r', k) || Exits(r, r', k) {
      ProcessKeeps(r, r', k);
    } else {
      AdmissionKeeps(r, r', k);
    }
  }

  lemma AdmissionKeeps(r: Tier, r': Tier, k: nat)
    requires TierInv(r) && Sized(r, k)
    requires Begins(r, r', k) || Tests(r, r', k) || Acquires(r, r', k) || Admits(r, r', k) || Launches(r, r', k)
          || Raises(r, r', k)
    ensures TierInv(r')
  {
    if Begins(r, r', k) || Tests(r, r', k) || Acquires(r, r', k) {
      QueueKeeps(r, r', k);
    } else {
      assert TaskOk(r, k);
      WorkerKeeps(r, r', k);
    }
  }

  lemma QueueKeeps(r: Tier, r': Tier, k: nat)
    requires TierInv(r) && Sized(r, k) && (Begins(r, r', k) || Tests(r, r', k) || Acquires(r, r', k))
    ensures TierInv(r')
  {
    assert TaskOk(r, k);
    WorkerKeeps(r, r', k);
  }

  lemma ProcessKeeps(r: Tier, r': Tier, k: nat)
    requires TierInv(r) && Sized(r, k)
    requires Registers(r, r', k) || Waits(r, r', k) || Discards(r, r', k) || Releases(r, r', k) || Exits(r, r', k)
    ensures TierInv(r')
  {
    assert TaskOk(r, k);
    WorkerKeeps(r, r', k);
  }

  lemma SharingKeeps(t: nat, r: Tier, g: Shared, r': Tier, g': Shared, k: nat)
    requires TierInv(r) && Sized(r, k)
    requires Locks(t, r, g, r', g', k) || Checks(r, g, r', k) || Reaps(r, g, r', g', k)
          || Finishes(r, g, r', g', k) || Unlocks(r, g, r', g', k)
    ensures TierInv(r')
  {
    assert TaskOk(r, k);
    WorkerKeeps(r, r', k);
  }

  lemma SignalsKeep(r: Tier, r': Tier, k: nat)
    requires TierInv(r) && Sized(r, k) && Signals(r, r', k)
    ensures TierInv(r')
  {
    assert TaskOk(r, k);
    WorkerKeeps(r, r', k);
  }

  // --------------------------------------------------------- the main thread

  lemma HandlesKeeps(r: Tier, r': Tier, k: nat)
    requires TierInv(r) && Sized(r, k) && Handles(r, r', k)
    ensures TierInv(r')
  {
    HeldSame(r, r', |r.tasks|);
    assert TaskOk(r, k);
    forall j: nat | j < |r'.tasks| ensures TaskOk(r', j) {
      assert TaskOk(r, j);
    }
    if r.stop {
      var j: nat :| j < |r.tasks| && HasFailed(r.tasks[j].pc);
      assert HasFailed(r'.tasks[j].pc);
    }
  }

  lemma ReturnsKeeps(r: Tier, r': Tier)
    requires TierInv(r) && Returns(r, r')
    ensures TierInv(r')
  {
    HeldSame(r, r', |r.tasks|);
    forall j: nat | j < |r'.tasks| ensures TaskOk(r', j) {
      assert TaskOk(r, j);
    }
    if r.stop {
      var j: nat :| j < |r.tasks| && HasFailed(r.tasks[j].pc);
      assert HasFailed(r'.tasks[j].pc);
    }
  }

  lemma TierKeeps(t: nat, r: Tier, g: Shared, r': Tier, g': Shared, k: nat)
    requires TierInv(r) && Sized(r, k) && TierStep(t, r, g, r', g', k)
    ensures TierInv(r')
  {
    if Moves(r, r', k) {
      MovesKeep(r, r', k);
    } else if Handles(r, r', k) {
      HandlesKeeps(r, r', k);
    } else if Signals(r, r', k) {
      SignalsKeep(r, r', k);
    } else if Returns(r, r') {
      ReturnsKeeps(r, r');
    } else {
      SharingKeeps(t, r, g, r', g', k);
    }
  }

  // ------------------------------------------------------- locks and markers

  predicate Valid(s: State, t: nat, k: nat) {
    t < |s.tiers| && Sized(s.tiers[t], k)
  }

  /** The command holds the lock file of its marker. */
  predicate HasLock(s: State, t: nat, k: nat)
    requires Valid(s, t, k)
  {
    s.tiers[t].commands[k].cached && HoldsLock(s.tiers[t].tasks[k].pc)
  }

  function IdOf(s: State, t: nat, k: nat): Id
    requires Valid(s, t, k)
  {
    s.tiers[t].commands[k].id
  }

  predicate LockOk(s: State, t: nat, k: nat) {
    Valid(s, t, k) && HasLock(s, t, k) ==>
      IdOf(s, t, k) in s.shared.locks && s.shared.locks[IdOf(s, t, k)] == (t, k)
  }

  predicate HolderOk(s: State, id: Id) {
    id in s.shared.locks ==>
      var (t, k) := s.shared.locks[id]; Valid(s, t, k) && HasLock(s, t, k) && IdOf(s, t, k) == id
  }

  /** A hit names a command that has succeeded, and so does a return code 0. */
  predicate ResultOk(pc: Pc, c: Command, g: Shared) {
    && (Settled(pc) == Some(Hit) ==> c.cached && c.id in g.succeeded)
    && (Settled(pc) == Some(Ran(0)) || pc == Reaped(0) || pc == Removed(0) || pc == Finishing(0) ==> c.id in g.succeeded)
  }

  predicate ResultsOk(s: State, t: nat, k: nat) {
    Valid(s, t, k) ==> ResultOk(s.tiers[t].tasks[k].pc, s.tiers[t].commands[k], s.shared)
  }

  ghost predicate Inv(s: State) {
    && (forall t: nat | t < |s.tiers| :: TierInv(s.tiers[t]))
    && (forall t: nat, k: nat :: LockOk(s, t, k))
    && (forall id: Id :: HolderOk(s, id))
    && (forall t: nat, k: nat :: ResultsOk(s, t, k))
    && s.shared.markers <= s.shared.succeeded
  }

  /** Steps that leave the cache directory alone. */
  predicate PrivateStep(r: Tier, r': Tier, k: nat)
    requires Sized(r, k)
  {
    Moves(r, r', k) || Handles(r, r', k) || Signals(r, r', k) || Returns(r, r')
  }

  lemma PrivateResult(r: Tier, r': Tier, k: nat, g: Shared)
    requires TierInv(r) && Sized(r, k) && PrivateStep(r, r', k) && ResultOk(r.tasks[k].pc, r.commands[k], g)
    ensures Sized(r', k) && r'.commands == r.commands && ResultOk(r'.tasks[k].pc, r.commands[k], g)
  {
    assert TaskOk(r, k);
    if Registers(r, r', k) || Waits(r, r', k) || Discards(r, r', k) || Releases(r, r', k) || Exits(r, r', k) {
      ProcessResult(r, r', k, g);
    } else if Moves(r, r', k) {
      AdmissionResult(r, r', k, g);
    }
  }

  lemma ProcessResult(r: Tier, r': Tier, k: nat, g: Shared)
    requires Sized(r, k) && TaskOk(r, k) && ResultOk(r.tasks[k].pc, r.commands[k], g)
    requires Registers(r, r', k) || Waits(r, r', k) || Discards(r, r', k) || Releases(r, r', k) || Exits(r, r', k)
    ensures Sized(r', k) && r'.commands == r.commands && ResultOk(r'.tasks[k].pc, r.commands[k], g)
  {
  }

  lemma AdmissionResult(r: Tier, r': Tier, k: nat, g: Shared)
    requires Sized(r, k) && TaskOk(r, k) && ResultOk(r.tasks[k].pc, r.commands[k], g)
    requires Begins(r, r', k) || Tests(r, r', k) || Acquires(r, r', k) || Admits(r, r', k) || Launches(r, r', k)
          || Raises(r, r', k)
    ensures Sized(r', k) && r'.commands == r.commands && ResultOk(r'.tasks[k].pc, r.commands[k], g)
  {
  }

  lemma ResultKept(t: nat, r: Tier, g: Shared, r': Tier, g': Shared, k: nat)
    requires TierInv(r) && Sized(r, k) && ResultOk(r.tasks[k].pc, r.commands[k], g) && g.markers <= g.succeeded
    requires TierStep(t, r, g, r', g', k)
    ensures g'.markers <= g'.succeeded && g.succeeded <= g'.succeeded
    ensures Sized(r', k) && r'.commands == r.commands && ResultOk(r'.tasks[k].pc, r.commands[k], g')
  {
    if PrivateStep(r, r', k) && g' == g {
      PrivateResult(r, r', k, g);
    } else {
      assert TaskOk(r, k);
    }
  }

  lemma OthersKept(s: State, s': State, t: nat, k: nat, u: nat, j: nat)
    requires StepAt(s, s', t, k) && (u != t || j != k) && Valid(s', u, j)
    ensures Valid(s, u, j) && s'.tiers[u].commands == s.tiers[u].commands
    ensures s'.tiers[u].tasks[j].pc == s.tiers[u].tasks[j].pc
  {
  }

  lemma ResultsKept(s: State, s': State, t: nat, k: nat)
    requires Inv(s) && StepAt(s, s', t, k)
    ensures s'.shared.markers <= s'.shared.succeeded
    ensures forall u: nat, j: nat :: ResultsOk(s', u, j)
  {
    assert ResultsOk(s, t, k);
    ResultKept(t, s.tiers[t], s.shared, s'.tiers[t], s'.shared, k);
    forall u: nat, j: nat ensures ResultsOk(s', u, j) {
      if (u != t || j != k) && Valid(s', u, j) {
        OthersKept(s, s', t, k, u, j);
        assert ResultsOk(s, u, j);
      }
    }
  }

  predicate TakesLock(c: Command, pc: Pc) {
    c.cached && HoldsLock(pc)
  }

  lemma PrivateLocks(r: Tier, r': Tier, k: nat)
    requires TierInv(r) && Sized(r, k) && PrivateStep(r, r', k)
    ensures Sized(r', k) && r'.commands == r.commands
    ensures TakesLock(r.commands[k], r'.tasks[k].pc) == TakesLock(r.commands[k], r.tasks[k].pc)
  {
    assert TaskOk(r, k);
  }

  /** What a step does to the locks: its own command takes one, gives its own back, or nothing. */
  lemma LockMoves(t: nat, r: Tier, g: Shared, r': Tier, g': Shared, k: nat)
    requires TierInv(r) && Sized(r, k) && TierStep(t, r, g, r', g', k)
    ensures Sized(r', k) && r'.commands == r.commands
    ensures var c := r.commands[k]; var had, has := TakesLock(c, r.tasks[k].pc), TakesLock(c, r'.tasks[k].pc);
      && (had == has ==> g'.locks == g.locks)
      && (!had && has ==> c.id !in g.locks && g'.locks == g.locks[c.id := (t, k)])
      && (had && !has ==> g'.locks == g.locks - {c.id})
  {
    if PrivateStep(r, r', k) && g' == g {
      PrivateLocks(r, r', k);
    } else {
      assert TaskOk(r, k);
    }
  }

  lemma LocksKept(s: State, s': State, t: nat, k: nat)
    requires Inv(s) && StepAt(s, s', t, k)
    ensures forall u: nat, j: nat :: LockOk(s', u, j)
    ensures forall id: Id :: HolderOk(s', id)
  {
    LockMoves(t, s.tiers[t], s.shared, s'.tiers[t], s'.shared, k);
    assert LockOk(s, t, k);
    forall u: nat, j: nat ensures LockOk(s', u, j) {
      if (u != t || j != k) && Valid(s', u, j) {
        OthersKept(s, s', t, k, u, j);
        assert LockOk(s, u, j);
      }
    }
    forall id: Id ensures HolderOk(s', id) {
      assert HolderOk(s, id);
      if id in s.shared.locks {
        HolderKept(s, s', t, k, s.shared.locks[id].0, s.shared.locks[id].1);
      }
    }
  }

  lemma HolderKept(s: State, s': State, t: nat, k: nat, u: nat, j: nat)
    requires StepAt(s, s', t, k) && Valid(s, u, j)
    ensures Valid(s', u, j) && IdOf(s', u, j) == IdOf(s, u, j)
    ensures (u != t || j != k) ==> HasLock(s', u, j) == HasLock(s, u, j)
  {
  }

  /** Every step of every tier keeps the invariant. */
  lemma StepKeeps(s: State, s': State)
    requires Inv(s) && Step(s, s')
    ensures Inv(s')
  {
    var t: nat, k: nat :| StepAt(s, s', t, k);
    TierKeeps(t, s.tiers[t], s.shared, s'.tiers[t], s'.shared, k);
    ResultsKept(s, s', t, k);
    LocksKept(s, s', t, k);
  }

  lemma InitialInv(s: State)
    requires Initial(s)
    ensures Inv(s)
  {
    forall t: nat | t < |s.tiers| ensures TierInv(s.tiers[t]) {
      assert Fresh(s.tiers[t]);
      NothingHeld(s.tiers[t], |s.tiers[t].tasks|);
    }
  }

  lemma {:induction false} NothingHeld(r: Tier, n: nat)
    requires Fresh(r) && n <= |r.tasks|
    ensures Held(r, n) == 0
  {
    if n > 0 {
      NothingHeld(r, n - 1);
    }
  }

  lemma {:induction false} RunInv(run: seq<State>, i: nat)
    requires IsRun(run) && i < |run|
    ensures Inv(run[i])
  {
    if i == 0 {
      InitialInv(run[0]);
    } else {
      RunInv(run, i - 1);
      StepKeeps(run[i - 1], run[i]);
    }
  }
}
