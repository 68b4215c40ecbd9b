/**
 The single-path transaction of `pack` in scripts/handoff.py, as a machine over the disk in the
 same style as the handoff machine: one step per durable operation, one step per record of a
 recursive deletion, and a crash or a failing operation possible anywhere, also inside recovery.

 Unlike the handoff it keeps no copy: the old output is renamed away and renamed back, so recovery
 has to tell from the journal and the backup alone what the output is.
 */
module PackTransaction {
  import opened Trees
  import opened Prelude

  datatype Phase = Prepared | Committed

  datatype Journal = Journal(phase: Phase, existed: bool)

  datatype Disk = Disk(output: Tree, backup: Tree, staged: Tree, journal: Option<Journal>, journalTmp: bool)

  /** Whether recovery runs at the start of `pack` or in its exception handler. */
  datatype Caller = AtStart | InHandler | AfterCommit

  datatype Point =
    | Down
    // _recover_pack
    | Recover(caller: Caller)
    | DropForRestore(caller: Caller)
    | Restore(caller: Caller)
    | DropNew(caller: Caller)
    | BackupMissing(caller: Caller)
    // _pack_cleanup
    | CleanBackup(caller: Caller)
    | CleanStaged(caller: Caller)
    | CleanJournal(caller: Caller)
    | CleanTmp(caller: Caller)
    // pack
    | OpenStage | Stage
    | PrepareTmp | PrepareReplace(existed: bool)
    | Displace | PublishStaged | CommitTmp | CommitReplace

  datatype State = State(disk: Disk, point: Point)

  predicate IsPrepared(d: Disk) {
    d.journal.Some? && d.journal.value.phase == Prepared
  }

  // ------------------------------------------------------------------ steps

  function Return(c: Caller): (p: Point) {
    if c == AtStart then OpenStage else Down
  }

  ghost predicate Recovery(s: State, t: State) {
    var d, d' := s.disk, t.disk;
    match s.point
    case Recover(c) =>
      t == State(d,
        if !IsPrepared(d) then CleanBackup(c)
        else if d.backup != Absent then DropForRestore(c)
        else if !d.journal.value.existed then DropNew(c)
        else if d.output == Absent then BackupMissing(c)
        else CleanBackup(c))
    case DropForRestore(c) =>
      if d.output == Absent then t == State(d, Restore(c))
      else t.point == s.point && d' == d.(output := d'.output) && RemovesLeaf(d.output, d'.output)
    case Restore(c) =>
      t == State(d.(output := d.backup, backup := Absent), CleanBackup(c))
    case DropNew(c) =>
      if d.output == Absent then t == State(d, CleanBackup(c))
      else t.point == s.point && d' == d.(output := d'.output) && RemovesLeaf(d.output, d'.output)
    case BackupMissing(c) => t == State(d, Down)
    case CleanBackup(c) =>
      if d.backup == Absent then t == State(d, CleanStaged(c))
      else t.point == s.point && d' == d.(backup := d'.backup) && RemovesLeaf(d.backup, d'.backup)
    case CleanStaged(c) =>
      if d.staged == Absent then t == State(d, CleanJournal(c))
      else t.point == s.point && d' == d.(staged := d'.staged) && RemovesLeaf(d.staged, d'.staged)
    case CleanJournal(c) => t == State(d.(journal := None), CleanTmp(c))
    case CleanTmp(c) => t == State(d.(journalTmp := false), Return(c))
    case _ => false
  }

  ghost predicate Packing(s: State, t: State) {
    var d, d' := s.disk, t.disk;
    match s.point
    case Down => t == State(d, Recover(AtStart))
    case OpenStage =>
      // write_package refuses a staging directory that is already there
      t == State(d, if d.staged == Absent then Stage else Down)
    case Stage =>
      || (t.point == s.point && d' == d.(staged := d'.staged))
      || (d.staged != Absent && t == State(d, PrepareTmp))
    case PrepareTmp => t == State(d.(journalTmp := true), PrepareReplace(d.output != Absent))
    case PrepareReplace(e) => t == State(d.(journal := Some(Journal(Prepared, e)), journalTmp := false), Displace)
    case Displace =>
      t == if d.output == Absent then State(d, PublishStaged)
           else State(d.(backup := d.output, output := Absent), PublishStaged)
    case PublishStaged => t == State(d.(output := d.staged, staged := Absent), CommitTmp)
    case CommitTmp => t == State(d.(journalTmp := true), CommitReplace)
    case CommitReplace =>
      d.journal.Some? &&
      t == State(d.(journal := Some(d.journal.value.(phase := Committed)), journalTmp := false), CleanBackup(AfterCommit))
    case _ => false
  }

  /** An operation raises: inside the try block the handler recovers, elsewhere the process ends. */
  ghost predicate Raise(s: State, t: State) {
    t == State(s.disk,
               match s.point
               case Displace => Recover(InHandler)
               case PublishStaged => Recover(InHandler)
               case CommitTmp => Recover(InHandler)
               case CommitReplace => Recover(InHandler)
               case _ => Down)
  }

  /** The journal says committed, and then its write raises. */
  ghost predicate RaiseLate(s: State, t: State) {
    && s.point == CommitReplace && s.disk.journal.Some?
    && t == State(s.disk.(journal := Some(s.disk.journal.value.(phase := Committed)), journalTmp := false), Recover(InHandler))
  }

  ghost predicate Crash(s: State, t: State) {
    t == State(s.disk, Down)
  }

  ghost predicate Next(s: State, t: State) {
    Recovery(s, t) || Packing(s, t) || Raise(s, t) || RaiseLate(s, t) || Crash(s, t)
  }

  // -------------------------------------------------------------- invariant

  ghost predicate RolledBack(d: Disk) {
    IsPrepared(d) ==> d.backup == Absent && (d.output != Absent <==> d.journal.value.existed)
  }

  ghost predicate PointInv(s: State) {
    var d := s.disk;
    match s.point
    case DropForRestore(_) => IsPrepared(d) && d.backup != Absent
    case Restore(_) => IsPrepared(d) && d.backup != Absent && d.output == Absent
    case DropNew(_) => IsPrepared(d) && !d.journal.value.existed
    case BackupMissing(_) => false
    case CleanBackup(_) => RolledBack(d)
    case CleanStaged(_) => RolledBack(d) && d.backup == Absent
    case CleanJournal(_) => RolledBack(d) && d.backup == Absent && d.staged == Absent
    case CleanTmp(_) => d.journal.None? && d.backup == Absent && d.staged == Absent
    case OpenStage => d.journal.None? && d.backup == Absent && d.staged == Absent && !d.journalTmp
    case Stage => d.journal.None? && d.backup == Absent
    case PrepareTmp => d.journal.None? && d.backup == Absent && d.staged != Absent
    case PrepareReplace(e) => d.journal.None? && d.backup == Absent && d.staged != Absent && e == (d.output != Absent)
    case Displace => IsPrepared(d) && d.backup == Absent && d.staged != Absent && d.journal.value.existed == (d.output != Absent)
    case PublishStaged => IsPrepared(d) && d.output == Absent && d.staged != Absent && d.journal.value.existed == (d.backup != Absent)
    case CommitTmp => IsPrepared(d) && d.output != Absent && d.journal.value.existed == (d.backup != Absent)
    case CommitReplace => IsPrepared(d) && d.output != Absent && d.journal.value.existed == (d.backup != Absent)
    case _ => true
  }

  /** What recovery relies on: an output that existed is in the backup or still in place. */
  ghost predicate Safe(d: Disk) {
    IsPrepared(d) ==>
      if d.journal.value.existed then d.backup != Absent || d.output != Absent else d.backup == Absent
  }

  ghost predicate Inv(s: State) {
    Safe(s.disk) && PointInv(s)
  }

  /** What the transaction stands for: the old output while prepared, the output otherwise. */
  function Logical(d: Disk): (t: Tree) {
    if !IsPrepared(d) then d.output
    else if !d.journal.value.existed then Absent
    else if d.backup != Absent then d.backup
    else d.output
  }

  ghost predicate IsCommit(s: State, t: State) {
    s.point == CommitReplace && !IsPrepared(t.disk)
  }

  lemma NextKeeps(s: State, t: State)
    requires Inv(s) && Next(s, t)
    ensures Inv(t)
    ensures Logical(t.disk) == if IsCommit(s, t) then s.disk.output else Logical(s.disk)
    ensures s.point == PublishStaged && t.point == CommitTmp ==> t.disk.output == s.disk.staged
  {
    if Recovery(s, t) {
      RecoveryKeeps(s, t);
    } else if Packing(s, t) {
      PackingKeeps(s, t);
    }
  }

  lemma RecoveryKeeps(s: State, t: State)
    requires Inv(s) && Recovery(s, t)
    ensures Inv(t) && Logical(t.disk) == Logical(s.disk)
  {
  }

  lemma PackingKeeps(s: State, t: State)
    requires Inv(s) && Packing(s, t)
    ensures Inv(t)
    ensures Logical(t.disk) == if IsCommit(s, t) then s.disk.output else Logical(s.disk)
    ensures s.point == PublishStaged ==> t.point == CommitTmp && t.disk.output == s.disk.staged
  {
  }

  // ------------------------------------------------------------------- runs

  ghost predicate Initial(s: State) {
    s.point == Down && s.disk.journal.None?
  }

  ghost predicate StepsAt(run: seq<State>, i: nat)
    requires i < |run| - 1
  {
    Next(run[i], run[i + 1])
  }

  ghost predicate IsChain(run: seq<State>) {
    |run| > 0 && forall i | 0 <= i < |run| - 1 :: StepsAt(run, i)
  }

  /** The package that was last staged and whose transaction then committed. */
  ghost function LastCommitted(run: seq<State>): Tree
    requires |run| > 0
  {
    if |run| == 1 then run[0].disk.output
    else if IsCommit(run[|run| - 2], run[|run| - 1]) then LastStaged(run[..|run| - 1])
    else LastCommitted(run[..|run| - 1])
  }

  /** The content of the staging directory when it was last renamed onto the output. */
  ghost function LastStaged(run: seq<State>): Tree {
    if |run| <= 1 then Absent
    else if run[|run| - 2].point == PublishStaged && run[|run| - 1].point == CommitTmp then run[|run| - 2].disk.staged
    else LastStaged(run[..|run| - 1])
  }

  lemma {:induction false} PrefixIsChain(run: seq<State>)
    requires IsChain(run) && |run| > 1
    ensures IsChain(run[..|run| - 1]) && Next(run[|run| - 2], run[|run| - 1])
  {
    var front := run[..|run| - 1];
    forall i | 0 <= i < |front| - 1 ensures StepsAt(front, i) {
      assert StepsAt(run, i);
    }
    assert StepsAt(run, |run| - 2);
  }

  /**
   At every moment of every run, whatever crashed or failed, the output is the last committed
   package, unless the journal says prepared; then that package is in the backup, or is the output
   if there is no backup, or was never there. Recovery never finds its backup missing.
   */
  lemma {:induction false} PackIsAtomic(run: seq<State>)
    requires IsChain(run) && Initial(run[0])
    ensures Inv(Last(run)) && Logical(Last(run).disk) == LastCommitted(run)
    ensures !IsPrepared(Last(run).disk) ==> Last(run).disk.output == LastCommitted(run)
    ensures !Last(run).point.BackupMissing?
    ensures Last(run).point in {CommitTmp, CommitReplace} ==> Last(run).disk.output == LastStaged(run)
  {
    if |run| > 1 {
      PrefixIsChain(run);
      PackIsAtomic(run[..|run| - 1]);
      NextKeeps(run[|run| - 2], run[|run| - 1]);
    }
  }

  lemma ChainGrows(run: seq<State>, s: State)
    requires IsChain(run) && Next(Last(run), s)
    ensures IsChain(run + [s])
  {
    var longer := run + [s];
    forall i | 0 <= i < |longer| - 1 ensures StepsAt(longer, i) {
      assert i < |run| - 1 ==> StepsAt(run, i);
    }
  }

  // ---------------------------------------------------------------- program

  /** `pack` and `_recover_pack` run to the end undisturbed, each operation a step of the machine. */
  class Packer {
    var disk: Disk
    ghost var point: Point
    ghost var trace: seq<State>

    ghost predicate Valid()
      reads this
    {
      IsChain(trace) && Last(trace) == State(disk, point) && Inv(State(disk, point))
    }

    constructor (d: Disk, ghost p: Point)
      requires Inv(State(d, p))
      ensures Valid() && disk == d && point == p && trace == [State(d, p)]
    {
      disk, point, trace := d, p, [State(d, p)];
    }

    method Do(d: Disk, ghost p: Point)
      requires Valid() && Next(State(disk, point), State(d, p))
      modifies this
      ensures Valid() && disk == d && point == p && trace == old(trace) + [State(d, p)]
      ensures !IsCommit(State(old(disk), old(point)), State(d, p)) ==> Logical(disk) == old(Logical(disk))
    {
      NextKeeps(State(disk, point), State(d, p));
      ChainGrows(trace, State(d, p));
      disk, point, trace := d, p, trace + [State(d, p)];
    }

    method Recovers(d: Disk, ghost p: Point)
      requires Valid() && Recovery(State(disk, point), State(d, p))
      modifies this
      ensures Valid() && disk == d && point == p && trace == old(trace) + [State(d, p)]
      ensures Logical(disk) == old(Logical(disk))
    {
      Do(d, p);
    }

    method RemoveBackup(ghost c: Caller)
      requires Valid() && point == CleanBackup(c)
      modifies this
      ensures Valid() && old(trace) <= trace && point == CleanStaged(c)
      ensures disk == old(disk).(backup := Absent)
    {
      while disk.backup != Absent
        invariant Valid() && old(trace) <= trace && point == CleanBackup(c) && disk == old(disk).(backup := disk.backup)
        decreases |disk.backup|
      {
        var t := DeleteLeaf(disk.backup);
        Recovers(disk.(backup := t), point);
      }
      Recovers(disk, CleanStaged(c));
    }

    method RemoveStaged(ghost c: Caller)
      requires Valid() && point == CleanStaged(c)
      modifies this
      ensures Valid() && old(trace) <= trace && point == CleanJournal(c)
      ensures disk == old(disk).(staged := Absent)
    {
      while disk.staged != Absent
        invariant Valid() && old(trace) <= trace && point == CleanStaged(c) && disk == old(disk).(staged := disk.staged)
        decreases |disk.staged|
      {
        var t := DeleteLeaf(disk.staged);
        Recovers(disk.(staged := t), point);
      }
      Recovers(disk, CleanJournal(c));
    }

    method Cleanup(ghost c: Caller)
      requires Valid() && point == CleanBackup(c)
      modifies this
      ensures Valid() && old(trace) <= trace && point == Return(c)
      ensures disk == Disk(old(disk.output), Absent, Absent, None, false)
    {
      RemoveBackup(c);
      RemoveStaged(c);
      Recovers(disk.(journal := None), CleanTmp(c));
      Recovers(disk.(journalTmp := false), Return(c));
    }

    /** `_pack_remove(output)`, before the backup is moved back or because there was no output. */
    method RemoveOutput(ghost next: Point)
      requires Valid()
      requires (point.DropForRestore? && next == Restore(point.caller)) || (point.DropNew? && next == CleanBackup(point.caller))
      modifies this
      ensures Valid() && old(trace) <= trace && point == next
      ensures disk == old(disk).(output := Absent)
      ensures Logical(disk) == old(Logical(disk))
    {
      while disk.output != Absent
        invariant Valid() && old(trace) <= trace && point == old(point)
        invariant disk == old(disk).(output := disk.output) && Logical(disk) == old(Logical(disk))
        decreases |disk.output|
      {
        var t := DeleteLeaf(disk.output);
        Recovers(disk.(output := t), point);
      }
      Recovers(disk, next);
    }

    /**
     `_recover_pack`: total. From every disk that crashes can leave behind it restores what the
     transaction stands for and clears everything that could stop the next pack.
     */
    method RecoverPack(ghost c: Caller)
      requires Valid() && point == Recover(c)
      modifies this
      ensures Valid() && old(trace) <= trace && point == Return(c)
      ensures disk == Disk(old(Logical(disk)), Absent, Absent, None, false)
    {
      if IsPrepared(disk) && disk.backup != Absent {
        Recovers(disk, DropForRestore(c));
        RemoveOutput(Restore(c));
        Recovers(disk.(output := disk.backup, backup := Absent), CleanBackup(c));
      } else if IsPrepared(disk) && !disk.journal.value.existed {
        Recovers(disk, DropNew(c));
        RemoveOutput(CleanBackup(c));
      } else {
        Recovers(disk, CleanBackup(c));
      }
      Cleanup(c);
    }

    method Packs(d: Disk, ghost p: Point)
      requires Valid() && Packing(State(disk, point), State(d, p))
      modifies this
      ensures Valid() && disk == d && point == p && trace == old(trace) + [State(d, p)]
    {
      Do(d, p);
    }

    /** A whole `pack` that nothing disturbs publishes its package from any disk left behind. */
    method Pack(package: Tree)
      requires Valid() && point == Down && package != Absent
      modifies this
      ensures Valid() && old(trace) <= trace && point == Down
      ensures disk == Disk(package, Absent, Absent, None, false)
    {
      Packs(disk, Recover(AtStart));
      RecoverPack(AtStart);
      StagePackage(package);
      WriteJournal();
      Publish();
    }

    method StagePackage(package: Tree)
      requires Valid() && point == Return(AtStart) && package != Absent
      requires disk == Disk(disk.output, Absent, Absent, None, false)
      modifies this
      ensures Valid() && old(trace) <= trace && point == PrepareTmp
      ensures disk == old(disk).(staged := package)
    {
      Packs(disk, Stage);
      Packs(disk.(staged := package), Stage);
      Packs(disk, PrepareTmp);
    }

    method WriteJournal()
      requires Valid() && point == PrepareTmp
      modifies this
      ensures Valid() && old(trace) <= trace && point == Displace && disk.staged == old(disk.staged)
    {
      var existed := disk.output != Absent;
      Packs(disk.(journalTmp := true), PrepareReplace(existed));
      Packs(disk.(journal := Some(Journal(Prepared, existed)), journalTmp := false), Displace);
    }

    method Publish()
      requires Valid() && point == Displace
      modifies this
      ensures Valid() && old(trace) <= trace && point == Down
      ensures disk == Disk(old(disk.staged), Absent, Absent, None, false)
    {
      if disk.output == Absent {
        Packs(disk, PublishStaged);
      } else {
        Packs(disk.(backup := disk.output, output := Absent), PublishStaged);
      }
      Packs(disk.(output := disk.staged, staged := Absent), CommitTmp);
      Commit();
      Cleanup(AfterCommit);
    }

    method Commit()
      requires Valid() && point == CommitTmp
      modifies this
      ensures Valid() && old(trace) <= trace && point == CleanBackup(AfterCommit)
      ensures disk.output == old(disk.output)
    {
      Packs(disk.(journalTmp := true), CommitReplace);
      Packs(disk.(journal := Some(disk.journal.value.(phase := Committed)), journalTmp := false), CleanBackup(AfterCommit));
    }
  }
}
