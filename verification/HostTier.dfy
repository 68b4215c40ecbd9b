/**
 The host tier scheduler (`run_commands` with its inner `execute`, `WeightedSlots` and the success
 cache of ci/run-host-tier.py) as interleaved steps of worker threads and main threads. Any number of
 tiers run at once or one after the other; they share the cache directory with its lock files and
 success markers and nothing else.
 */
module HostTier {
  import opened Prelude

  /** What a success marker and its lock file are named by: cache key, command name and argv. */
  datatype Id = Id(key: string, name: string, argv: seq<string>)

  /** `cached`: the command is cacheable and the tier has a cache. */
  datatype Command = Command(id: Id, cached: bool, weight: nat)

  datatype Outcome = Skipped | Hit | Ran(returncode: int) | Raised

  /** Where a worker is in `execute`. */
  datatype Pc =
    | Queued
    | Started                   // about to test `stop`
    | Locking                   // waits for the lock file
    | Checking                  // holds the lock, reads the marker
    | Acquiring                 // waits for slots
    | Admitted                  // has slots, about to test `stop` again
    | Cleared                   // about to start the process
    | Launched                  // the process runs and is not registered
    | Joined(cancelled: bool)   // registered, with what `stop` was at that moment
    | Waiting                   // in process.wait()
    | Reaped(returncode: int)   // the process is gone
    | Removed(returncode: int)  // no longer registered
    | Leaving(left: Outcome)    // gives its slots back without a result
    | Finishing(returncode: int)
    | Unlocking(result: Outcome)
    | Done(result: Outcome)

  datatype Process = NoProcess | Running(signalled: bool) | Exited(code: int)

  datatype Task = Task(pc: Pc, process: Process)

  datatype Main = Looping | Aborting | Returned(status: int) | Crashed

  /**
   One call of `run_commands`. `pending`: processes of the snapshot that the main thread has still to
   signal; `failure`: the return code of the first failing command.
   */
  datatype Tier = Tier(
    commands: seq<Command>,
    workers: nat,
    tasks: seq<Task>,
    free: nat,
    stop: bool,
    active: set<nat>,
    main: Main,
    handled: set<nat>,
    failure: Option<int>,
    pending: set<nat>)

  /** `succeeded`: the commands that have run to return code 0 so far, in any tier. */
  datatype Shared = Shared(locks: map<Id, (nat, nat)>, markers: set<Id>, succeeded: set<Id>)

  datatype State = State(tiers: seq<Tier>, shared: Shared)

  function Min(a: nat, b: nat): nat {
    if a < b then a else b
  }

  function Cost(r: Tier, k: nat): nat
    requires k < |r.commands|
  {
    Min(r.commands[k].weight, r.workers)
  }

  predicate HoldsSlots(pc: Pc) {
    pc.Admitted? || pc.Cleared? || pc.Launched? || pc.Joined? || pc.Waiting? || pc.Reaped? || pc.Removed? || pc.Leaving?
  }

  predicate HoldsLock(pc: Pc) {
    pc.Checking? || pc.Acquiring? || HoldsSlots(pc) || pc.Finishing? || pc.Unlocking?
  }

  predicate InFlight(pc: Pc) {
    !pc.Queued? && !pc.Done?
  }

  /** How many of the first `n` commands have a worker thread. */
  function FlightCount(tasks: seq<Task>, n: nat): nat
    requires n <= |tasks|
  {
    if n == 0 then 0 else FlightCount(tasks, n - 1) + if InFlight(tasks[n - 1].pc) then 1 else 0
  }

  function WithTask(r: Tier, k: nat, task: Task): Tier
    requires k < |r.tasks|
  {
    r.(tasks := r.tasks[k := task])
  }

  function At(r: Tier, k: nat, pc: Pc): Tier
    requires k < |r.tasks|
  {
    WithTask(r, k, Task(pc, r.tasks[k].process))
  }

  predicate Sized(r: Tier, k: nat) {
    |r.tasks| == |r.commands| && k < |r.tasks|
  }

  // ---------------------------------------------------------- worker threads

  /** A worker thread of the pool takes a command from the queue. */
  predicate Begins(r: Tier, r': Tier, k: nat)
    requires Sized(r, k)
  {
    r.tasks[k].pc.Queued? && FlightCount(r.tasks, |r.tasks|) < r.workers && r' == At(r, k, Started)
  }

  predicate Tests(r: Tier, r': Tier, k: nat)
    requires Sized(r, k)
  {
    && r.tasks[k].pc.Started?
    && r' == At(r, k, if r.stop then Done(Skipped) else if r.commands[k].cached then Locking else Acquiring)
  }

  predicate Locks(t: nat, r: Tier, g: Shared, r': Tier, g': Shared, k: nat)
    requires Sized(r, k)
  {
    && r.tasks[k].pc.Locking? && r.commands[k].id !in g.locks
    && r' == At(r, k, Checking) && g' == g.(locks := g.locks[r.commands[k].id := (t, k)])
  }

  predicate Checks(r: Tier, g: Shared, r': Tier, k: nat)
    requires Sized(r, k)
  {
    r.tasks[k].pc.Checking? && r' == At(r, k, if r.commands[k].id in g.markers then Unlocking(Hit) else Acquiring)
  }

  predicate Acquires(r: Tier, r': Tier, k: nat)
    requires Sized(r, k)
  {
    r.tasks[k].pc.Acquiring? && r.free >= Cost(r, k) && r' == At(r, k, Admitted).(free := r.free - Cost(r, k))
  }

  predicate Admits(r: Tier, r': Tier, k: nat)
    requires Sized(r, k)
  {
    r.tasks[k].pc.Admitted? && r' == At(r, k, if r.stop then Leaving(Skipped) else Cleared)
  }

  predicate Launches(r: Tier, r': Tier, k: nat)
    requires Sized(r, k)
  {
    r.tasks[k].pc.Cleared? && r' == WithTask(r, k, Task(Launched, Running(false)))
  }

  /** Registration and the test of `stop`, both under the state lock. */
  predicate Registers(r: Tier, r': Tier, k: nat)
    requires Sized(r, k)
  {
    r.tasks[k].pc.Launched? && r' == At(r, k, Joined(r.stop)).(active := r.active + {k})
  }

  function Signalled(p: Process): Process {
    if p.Running? then Running(true) else p
  }

  predicate Waits(r: Tier, r': Tier, k: nat)
    requires Sized(r, k)
  {
    var task := r.tasks[k];
    && task.pc.Joined?
    && r' == WithTask(r, k, Task(Waiting, if task.pc.cancelled then Signalled(task.process) else task.process))
  }

  /** The process ends by itself or by a signal, at any moment and with any code. */
  predicate Exits(r: Tier, r': Tier, k: nat)
    requires Sized(r, k)
  {
    && r.tasks[k].process.Running? && |r'.tasks| == |r.tasks| && r'.tasks[k].process.Exited?
    && r' == WithTask(r, k, Task(r.tasks[k].pc, r'.tasks[k].process))
  }

  predicate Reaps(r: Tier, g: Shared, r': Tier, g': Shared, k: nat)
    requires Sized(r, k)
  {
    var task := r.tasks[k];
    && task.pc.Waiting? && task.process.Exited? && r' == At(r, k, Reaped(task.process.code))
    && g' == if task.process.code == 0 then g.(succeeded := g.succeeded + {r.commands[k].id}) else g
  }

  predicate Discards(r: Tier, r': Tier, k: nat)
    requires Sized(r, k)
  {
    r.tasks[k].pc.Reaped? && r' == At(r, k, Removed(r.tasks[k].pc.returncode)).(active := r.active - {k})
  }

  predicate Releases(r: Tier, r': Tier, k: nat)
    requires Sized(r, k)
  {
    var pc := r.tasks[k].pc;
    && (pc.Removed? || pc.Leaving?)
    && r' == At(r, k, if pc.Removed? then Finishing(pc.returncode) else Unlocking(pc.left)).(free := r.free + Cost(r, k))
  }

  /** A failure sets `stop`; a success writes the marker. */
  predicate Finishes(r: Tier, g: Shared, r': Tier, g': Shared, k: nat)
    requires Sized(r, k)
  {
    var pc := r.tasks[k].pc;
    && pc.Finishing?
    && r' == At(r, k, Unlocking(Ran(pc.returncode))).(stop := r.stop || pc.returncode != 0)
    && g' == if pc.returncode == 0 && r.commands[k].cached then g.(markers := g.markers + {r.commands[k].id}) else g
  }

  predicate Unlocks(r: Tier, g: Shared, r': Tier, g': Shared, k: nat)
    requires Sized(r, k)
  {
    && r.tasks[k].pc.Unlocking? && r' == At(r, k, Done(r.tasks[k].pc.result))
    && g' == if r.commands[k].cached then g.(locks := g.locks - {r.commands[k].id}) else g
  }

  /** Opening the lock file, reading the marker, starting the process or writing the marker fails. */
  predicate Raises(r: Tier, r': Tier, k: nat)
    requires Sized(r, k)
  {
    var pc := r.tasks[k].pc;
    || (pc.Locking? && r' == At(r, k, Done(Raised)))
    || (pc.Checking? && r' == At(r, k, Unlocking(Raised)))
    || (pc.Cleared? && r' == At(r, k, Leaving(Raised)))
    || (pc.Finishing? && pc.returncode == 0 && r.commands[k].cached && r' == At(r, k, Unlocking(Raised)))
  }

  predicate Moves(r: Tier, r': Tier, k: nat)
    requires Sized(r, k)
  {
    || Begins(r, r', k) || Tests(r, r', k) || Acquires(r, r', k) || Admits(r, r', k) || Launches(r, r', k)
    || Registers(r, r', k) || Waits(r, r', k) || Discards(r, r', k) || Releases(r, r', k) || Raises(r, r', k)
    || Exits(r, r', k)
  }

  // ------------------------------------------------------------- main threads

  predicate Fails(o: Outcome) {
    o.Ran? && o.returncode != 0
  }

  /** The next completed future; the first failing one takes the snapshot of registered processes. */
  predicate Handles(r: Tier, r': Tier, k: nat)
    requires Sized(r, k)
  {
    && r.main.Looping? && r.pending == {} && k !in r.handled && r.tasks[k].pc.Done?
    && var o := r.tasks[k].pc.result;
       if o.Raised? then r' == r.(main := Aborting)
       else if Fails(o) && r.failure.None? then
         r' == r.(handled := r.handled + {k}, failure := Some(o.returncode), pending := r.active)
       else r' == r.(handled := r.handled + {k})
  }

  predicate Signals(r: Tier, r': Tier, k: nat)
    requires Sized(r, k)
  {
    && k in r.pending
    && r' == WithTask(r, k, Task(r.tasks[k].pc, Signalled(r.tasks[k].process))).(pending := r.pending - {k})
  }

  function Status(failure: Option<int>): int {
    if failure.None? then 0 else if 0 < failure.value < 256 then failure.value else 1
  }

  predicate AllDone(r: Tier) {
    forall k | 0 <= k < |r.tasks| :: r.tasks[k].pc.Done?
  }

  predicate Returns(r: Tier, r': Tier) {
    || (r.main.Looping? && r.pending == {} && (forall k | 0 <= k < |r.tasks| :: k in r.handled)
        && r' == r.(main := Returned(Status(r.failure))))
    || (r.main.Aborting? && r.pending == {} && AllDone(r) && r' == r.(main := Crashed))
  }

  // -------------------------------------------------------------------- runs

  predicate TierStep(t: nat, r: Tier, g: Shared, r': Tier, g': Shared, k: nat)
    requires Sized(r, k)
  {
    || (g' == g && (Moves(r, r', k) || Handles(r, r', k) || Signals(r, r', k) || Returns(r, r')))
    || Locks(t, r, g, r', g', k) || (g' == g && Checks(r, g, r', k)) || Reaps(r, g, r', g', k)
    || Finishes(r, g, r', g', k) || Unlocks(r, g, r', g', k)
  }

  predicate StepAt(s: State, s': State, t: nat, k: nat) {
    && t < |s.tiers| && |s'.tiers| == |s.tiers| && Sized(s.tiers[t], k)
    && TierStep(t, s.tiers[t], s.shared, s'.tiers[t], s'.shared, k)
    && s'.tiers == s.tiers[t := s'.tiers[t]]
  }

  ghost predicate Step(s: State, s': State) {
    exists t: nat, k: nat :: StepAt(s, s', t, k)
  }

  /** The call as it starts: 1 <= workers <= commands, all commands queued. */
  predicate Fresh(r: Tier) {
    && 1 <= r.workers <= |r.commands| && |r.tasks| == |r.commands| && r.free == r.workers && !r.stop
    && r.active == {} && r.main.Looping? && r.handled == {} && r.failure.None? && r.pending == {}
    && forall k | 0 <= k < |r.tasks| :: r.tasks[k] == Task(Queued, NoProcess)
  }

  predicate Initial(s: State) {
    && (forall t | 0 <= t < |s.tiers| :: Fresh(s.tiers[t]))
    && s.shared == Shared(map[], {}, {})
  }

  ghost predicate IsRun(run: seq<State>) {
    && |run| > 0 && Initial(run[0])
    && forall i | 0 < i < |run| :: Step(run[i - 1], run[i])
  }
}
