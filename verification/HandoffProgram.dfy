/**
 The handoff program itself: the loops of `_cleanup_orphans`, `recover`, `_cleanup_transaction`
 and `publish`, run to the end without a crash or a failing operation. Every durable operation is
 appended to a trace that is a chain of the machine's steps, so each disk these methods pass
 through is one that the all-or-nothing theorem speaks about; a crash is a trace cut short.
 */
module HandoffProgram {
  import opened Prelude
  import opened Trees
  import opened HandoffTransaction

  function Records(ts: seq<Tree>): nat {
    if ts == [] then 0 else |ts[0]| + Records(ts[1..])
  }

  lemma {:induction false} RecordsDrop(ts: seq<Tree>, i: nat, t: Tree)
    requires i < |ts| && |t| < |ts[i]|
    ensures Records(ts[i := t]) < Records(ts)
  {
    if i == 0 {
      assert ts[i := t][1..] == ts[1..];
    } else {
      assert ts[i := t][1..] == ts[1..][i - 1 := t];
      RecordsDrop(ts[1..], i - 1, t);
    }
  }

  /** Deletes one record of one of the trees, the way a recursive deletion proceeds. */
  method DeleteOne(ts: seq<Tree>) returns (ts': seq<Tree>)
    requires !AllAbsent(ts)
    ensures RemovesOneOf(ts, ts') && |ts'| == |ts| && Records(ts') < Records(ts)
  {
    var i: nat :| i < |ts| && ts[i] != Absent;
    var t' := DeleteLeaf(ts[i]);
    ts' := ts[i := t'];
    RecordsDrop(ts, i, t');
  }

  predicate IsPart(t: Tree, whole: Tree) {
    forall p | p in t :: p in whole && t[p] == whole[p]
  }

  method CopyRecord(source: Tree, copy: Tree) returns (copy': Tree)
    requires copy != source && IsPart(copy, source)
    ensures CopiesRecord(source, copy, copy') && IsPart(copy', source)
    ensures |source.Keys - copy'.Keys| < |source.Keys - copy.Keys|
  {
    assert source.Keys - copy.Keys == {} ==> copy == source;
    var p :| p in source.Keys - copy.Keys;
    copy' := copy[p := source[p]];
    assert source.Keys - copy.Keys == (source.Keys - copy'.Keys) + {p};
  }

  class Workspace {
    var disk: Disk
    ghost var point: Point
    ghost var trace: seq<State>

    ghost predicate Valid()
      reads this
    {
      IsChain(trace) && Last(trace) == State(disk, point) && Inv(State(disk, point))
    }

    constructor (d: Disk, ghost p: Point)
      requires Inv(State(d, p))
      ensures Valid() && disk == d && point == p && trace == [State(d, p)]
    {
      disk, point, trace := d, p, [State(d, p)];
    }

    /** One durable operation. */
    method Do(d: Disk, ghost p: Point)
      requires Valid() && Next(State(disk, point), State(d, p))
      modifies this
      ensures Valid() && disk == d && point == p && trace == old(trace) + [State(d, p)]
      ensures !IsCommit(State(old(disk), old(point)), State(d, p)) ==> Logical(disk) == old(Logical(disk))
    {
      NextKeeps(State(disk, point), State(d, p));
      ChainGrows(trace, State(d, p));
      disk, point, trace := d, p, trace + [State(d, p)];
    }

    method Clean(d: Disk, ghost p: Point)
      requires Valid() && Cleanup(State(disk, point), State(d, p))
      modifies this
      ensures Valid() && disk == d && point == p && trace == old(trace) + [State(d, p)]
      ensures Logical(disk) == old(Logical(disk))
    {
      Do(d, p);
    }

    method EmptyScratch(id: nat)
      requires Valid() && point.CleanScratch? && point.id == id && id in disk.scratches
      modifies this
      ensures Valid() && old(trace) <= trace && point == old(point)
      ensures id in disk.scratches && AllAbsent(disk.scratches[id])
      ensures disk == old(disk).(scratches := disk.scratches)
      ensures disk.scratches - {id} == old(disk).scratches - {id}
      ensures Logical(disk) == old(Logical(disk))
    {
      while !AllAbsent(disk.scratches[id])
        invariant Valid() && old(trace) <= trace && point == old(point) && id in disk.scratches
        invariant disk == old(disk).(scratches := disk.scratches)
        invariant disk.scratches - {id} == old(disk).scratches - {id}
        invariant Logical(disk) == old(Logical(disk))
        decreases Records(disk.scratches[id])
      {
        CleanScratchRecord(id);
      }
    }

    method CleanScratchRecord(id: nat)
      requires Valid() && point.CleanScratch? && point.id == id && id in disk.scratches
      requires !AllAbsent(disk.scratches[id])
      modifies this
      ensures Valid() && trace == old(trace) + [State(disk, point)] && point == old(point)
      ensures id in disk.scratches && Records(disk.scratches[id]) < Records(old(disk).scratches[id])
      ensures disk == old(disk).(scratches := disk.scratches)
      ensures disk.scratches - {id} == old(disk).scratches - {id}
      ensures Logical(disk) == old(Logical(disk))
    {
      var ts' := DeleteOne(disk.scratches[id]);
      var d' := disk.(scratches := disk.scratches[id := ts']);
      assert RemovesScratch(disk, id, d');
      Clean(d', point);
    }

    method CleanUpScratch(id: nat, ghost c: Caller)
      requires Valid() && point == CleanScratch(id, c)
      modifies this
      ensures Valid() && old(trace) <= trace && point == CleanBackups(c)
      ensures disk == old(disk).(scratches := old(disk).scratches - {id})
      ensures Logical(disk) == old(Logical(disk))
    {
      if id in disk.scratches {
        EmptyScratch(id);
        Clean(disk.(scratches := disk.scratches - {id}), point);
      } else {
        assert disk.scratches == disk.scratches - {id};
      }
      Clean(disk, CleanBackups(c));
    }

    method CleanUpBackups(ghost c: Caller)
      requires Valid() && point == CleanBackups(c)
      modifies this
      ensures Valid() && old(trace) <= trace && point == CleanDisplaced(c)
      ensures disk == old(disk).(backupsDir := false, backups := disk.backups)
      ensures Logical(disk) == old(Logical(disk))
    {
      if disk.backupsDir {
        EmptyBackups();
        Clean(disk.(backupsDir := false), point);
      }
      Clean(disk, CleanDisplaced(c));
    }

    method EmptyBackups()
      requires Valid() && point.CleanBackups? && disk.backupsDir
      modifies this
      ensures Valid() && old(trace) <= trace && point == old(point) && AllAbsent(disk.backups)
      ensures disk == old(disk).(backups := disk.backups)
      ensures Logical(disk) == old(Logical(disk))
    {
      while !AllAbsent(disk.backups)
        invariant Valid() && old(trace) <= trace && point == old(point) && disk.backupsDir
        invariant disk == old(disk).(backups := disk.backups)
        invariant Logical(disk) == old(Logical(disk))
        decreases Records(disk.backups)
      {
        var ts' := DeleteOne(disk.backups);
        Clean(disk.(backups := ts'), point);
      }
    }

    method CleanUpDisplaced(ghost c: Caller)
      requires Valid() && point == CleanDisplaced(c)
      modifies this
      ensures Valid() && old(trace) <= trace && point == CleanTmp(c)
      ensures disk == old(disk).(displacedDir := false, displaced := disk.displaced)
      ensures Logical(disk) == old(Logical(disk))
    {
      if disk.displacedDir {
        EmptyDisplaced();
        Clean(disk.(displacedDir := false), point);
      }
      Clean(disk, CleanTmp(c));
    }

    method EmptyDisplaced()
      requires Valid() && point.CleanDisplaced? && disk.displacedDir
      modifies this
      ensures Valid() && old(trace) <= trace && point == old(point) && AllAbsent(disk.displaced)
      ensures disk == old(disk).(displaced := disk.displaced)
      ensures Logical(disk) == old(Logical(disk))
    {
      while !AllAbsent(disk.displaced)
        invariant Valid() && old(trace) <= trace && point == old(point) && disk.displacedDir
        invariant disk == old(disk).(displaced := disk.displaced)
        invariant Logical(disk) == old(Logical(disk))
        decreases Records(disk.displaced)
      {
        var ts' := DeleteOne(disk.displaced);
        Clean(disk.(displaced := ts'), point);
      }
    }

    method CleanupTransaction(id: nat, ghost c: Caller)
      requires Valid() && point == CleanScratch(id, c)
      modifies this
      ensures Valid() && old(trace) <= trace && point == Return(c)
      ensures disk.dest == old(disk.dest) && disk.journal.None? && !disk.journalTmp
      ensures !disk.backupsDir && !disk.displacedDir && disk.scratches == old(disk.scratches) - {id}
      ensures Logical(disk) == old(Logical(disk))
    {
      CleanUpScratch(id, c);
      CleanUpBackups(c);
      CleanUpDisplaced(c);
      CleanUpJournal(c);
    }

    method CleanUpJournal(ghost c: Caller)
      requires Valid() && point == CleanTmp(c)
      modifies this
      ensures Valid() && old(trace) <= trace && point == Return(c)
      ensures disk == old(disk).(journalTmp := false, journal := None)
      ensures Logical(disk) == old(Logical(disk))
    {
      Clean(disk.(journalTmp := false), CleanJournal(c));
      Clean(disk.(journal := None), Return(c));
    }

    method Undo(d: Disk, ghost p: Point)
      requires Valid() && Recovery(State(disk, point), State(d, p))
      modifies this
      ensures Valid() && disk == d && point == p && trace == old(trace) + [State(d, p)]
      ensures Logical(disk) == old(Logical(disk))
    {
      Do(d, p);
    }

    /** `_remove(destination)` during recovery. */
    method DiscardDestination(left: nat, ghost c: Caller)
      requires Valid() && point == Discard(left, c)
      modifies this
      ensures Valid() && old(trace) <= trace && point == Restore(left, c)
      ensures disk == old(disk).(dest := old(disk.dest)[left - 1 := Absent])
      ensures Logical(disk) == old(Logical(disk))
    {
      while disk.dest[left - 1] != Absent
        invariant Valid() && old(trace) <= trace && point == old(point)
        invariant disk == old(disk).(dest := old(disk.dest)[left - 1 := disk.dest[left - 1]])
        invariant Logical(disk) == old(Logical(disk))
        decreases |disk.dest[left - 1]|
      {
        DiscardRecord(left);
      }
      Undo(disk, Restore(left, c));
    }

    method DiscardRecord(left: nat)
      requires Valid() && point.Discard? && point.left == left && disk.dest[left - 1] != Absent
      modifies this
      ensures Valid() && trace == old(trace) + [State(disk, point)] && point == old(point)
      ensures disk == old(disk).(dest := old(disk.dest)[left - 1 := disk.dest[left - 1]])
      ensures |disk.dest[left - 1]| < |old(disk).dest[left - 1]|
      ensures Logical(disk) == old(Logical(disk))
    {
      var t' := DeleteLeaf(disk.dest[left - 1]);
      var d' := disk.(dest := disk.dest[left - 1 := t']);
      assert DiscardsLeaf(disk, left - 1, d');
      Undo(d', point);
    }

    /** Moves the backup of unit `left - 1` back into place, if the unit existed. */
    method RestoreUnit(left: nat, ghost c: Caller)
      requires Valid() && point == Restore(left, c)
      modifies this
      ensures Valid() && old(trace) <= trace && Logical(disk) == old(Logical(disk))
      ensures point == Rollback(left - 1, c)
      ensures disk == old(disk).(dest := disk.dest, backups := disk.backups)
      ensures disk.dest[..left - 1] == old(disk.dest)[..left - 1]
    {
      if disk.journal.value.units[left - 1].before == Absent {
        Undo(disk, Rollback(left - 1, c));
      } else {
        Undo(disk.(dest := disk.dest[left - 1 := disk.backups[left - 1]],
                   backups := disk.backups[left - 1 := Absent]),
             Rollback(left - 1, c));
      }
    }

    /** The body of recovery's loop for unit `left - 1`. */
    method RollBackUnit(left: nat, ghost c: Caller) returns (ok: bool)
      requires Valid() && point == Rollback(left, c) && left > 0
      modifies this
      ensures Valid() && old(trace) <= trace && Logical(disk) == old(Logical(disk))
      ensures ok <==> !IsForeign(old(disk), left - 1)
      ensures ok ==> point == Rollback(left - 1, c)
      ensures !ok ==> disk == old(disk) && point == Unwind(c)
      ensures disk == old(disk).(dest := disk.dest, backups := disk.backups)
      ensures disk.dest[..left - 1] == old(disk.dest)[..left - 1]
    {
      var u := disk.journal.value.units[left - 1];
      var observed := disk.dest[left - 1];
      if observed == u.before {
        Undo(disk, Rollback(left - 1, c));
        return true;
      }
      if observed != Absent && observed != u.after {
        Undo(disk, Unwind(c));
        return false;
      }
      ReplaceUnit(left, c);
      ok := true;
    }

    method ReplaceUnit(left: nat, ghost c: Caller)
      requires Valid() && point == Rollback(left, c) && 0 < left && disk.dest[left - 1] != disk.journal.value.units[left - 1].before
      requires !IsForeign(disk, left - 1)
      modifies this
      ensures Valid() && old(trace) <= trace && Logical(disk) == old(Logical(disk))
      ensures point == Rollback(left - 1, c)
      ensures disk == old(disk).(dest := disk.dest, backups := disk.backups)
      ensures disk.dest[..left - 1] == old(disk.dest)[..left - 1]
    {
      Undo(disk, Discard(left, c));
      RedoUnit(left, c);
    }

    method RedoUnit(left: nat, ghost c: Caller)
      requires Valid() && point == Discard(left, c)
      modifies this
      ensures Valid() && old(trace) <= trace && Logical(disk) == old(Logical(disk))
      ensures point == Rollback(left - 1, c)
      ensures disk == old(disk).(dest := disk.dest, backups := disk.backups)
      ensures disk.dest[..left - 1] == old(disk.dest)[..left - 1]
    {
      DiscardDestination(left, c);
      RestoreUnit(left, c);
    }

    method RollBack(ghost c: Caller) returns (ok: bool)
      requires Valid() && IsPrepared(disk) && point == Rollback(|disk.dest|, c)
      modifies this
      ensures Valid() && old(trace) <= trace && Logical(disk) == old(Logical(disk))
      ensures ok <==> !Blocked(old(disk))
      ensures ok ==> point == Rollback(0, c)
      ensures !ok ==> point == Unwind(c) && Blocked(disk)
      ensures disk == old(disk).(dest := disk.dest, backups := disk.backups)
    {
      var left := |disk.dest|;
      ok := true;
      while left > 0
        invariant 0 <= left <= |disk.dest| == |old(disk.dest)|
        invariant Valid() && old(trace) <= trace && Logical(disk) == old(Logical(disk))
        invariant point == Rollback(left, c)
        invariant disk == old(disk).(dest := disk.dest, backups := disk.backups)
        invariant disk.dest[..left] == old(disk.dest)[..left]
        invariant forall i | left <= i < |disk.dest| :: !IsForeign(old(disk), i)
      {
        assert disk.dest[left - 1] == disk.dest[..left][left - 1] == old(disk.dest)[left - 1];
        ghost var dest0 := disk.dest;
        ok := RollBackUnit(left, c);
        if !ok {
          assert IsForeign(old(disk), left - 1) && IsForeign(disk, left - 1);
          return;
        }
        assert dest0[..left - 1] == dest0[..left][..left - 1];
        left := left - 1;
      }
    }

    /** `recover`, undisturbed: it restores every destination, or refuses exactly when blocked. */
    method RecoverJournal(ghost c: Caller) returns (ok: bool)
      requires Valid() && point == Recover(c)
      modifies this
      ensures Valid() && old(trace) <= trace && Logical(disk) == old(Logical(disk))
      ensures ok <==> !Blocked(old(disk))
      ensures ok ==> point == Return(c) && disk.journal.None? && disk.dest == old(Logical(disk))
      ensures ok && old(disk.journal.Some?) ==> !disk.backupsDir && !disk.displacedDir && !disk.journalTmp
      ensures ok && old(disk.journal.None?) ==> disk == old(disk)
      ensures !ok ==> point == Unwind(c) && disk.journal == old(disk.journal) && Blocked(disk)
    {
      if disk.journal.None? {
        Undo(disk, Return(c));
        return true;
      }
      if disk.journal.value.phase == Committed {
        FinishCommit(c);
        return true;
      }
      ok := RollBackJournal(c);
    }

    method FinishCommit(ghost c: Caller)
      requires Valid() && point == Recover(c) && disk.journal.Some? && !IsPrepared(disk)
      modifies this
      ensures Valid() && old(trace) <= trace && Logical(disk) == old(Logical(disk))
      ensures point == Return(c) && disk.journal.None?
      ensures !disk.backupsDir && !disk.displacedDir && !disk.journalTmp
    {
      var id := disk.journal.value.scratch;
      Undo(disk, CleanScratch(id, c));
      CleanupTransaction(id, c);
    }

    method RollBackJournal(ghost c: Caller) returns (ok: bool)
      requires Valid() && point == Recover(c) && IsPrepared(disk)
      modifies this
      ensures Valid() && old(trace) <= trace && Logical(disk) == old(Logical(disk))
      ensures ok <==> !Blocked(old(disk))
      ensures ok ==> point == Return(c) && disk.journal.None?
      ensures ok ==> !disk.backupsDir && !disk.displacedDir && !disk.journalTmp
      ensures !ok ==> point == Unwind(c) && disk.journal == old(disk.journal) && Blocked(disk)
    {
      var id := disk.journal.value.scratch;
      Undo(disk, Rollback(|disk.journal.value.units|, c));
      ok := RollBack(c);
      if ok {
        FinishRollBack(id, c);
      }
    }

    method FinishRollBack(id: nat, ghost c: Caller)
      requires Valid() && point == Rollback(0, c) && id == disk.journal.value.scratch
      modifies this
      ensures Valid() && old(trace) <= trace && Logical(disk) == old(Logical(disk))
      ensures point == Return(c) && disk.journal.None?
      ensures !disk.backupsDir && !disk.displacedDir && !disk.journalTmp
    {
      Undo(disk, CleanScratch(id, c));
      CleanupTransaction(id, c);
    }

    method Tidy(d: Disk, ghost p: Point)
      requires Valid() && Orphans(State(disk, point), State(d, p))
      modifies this
      ensures Valid() && disk == d && point == p && trace == old(trace) + [State(d, p)]
      ensures Logical(disk) == old(Logical(disk))
    {
      Do(d, p);
    }

    method TidyBackups()
      requires Valid() && point == OrphanBackups && disk.journal.None?
      modifies this
      ensures Valid() && old(trace) <= trace && point == OrphanDisplaced
      ensures disk == old(disk).(backupsDir := false, backups := disk.backups)
    {
      if disk.backupsDir {
        while !AllAbsent(disk.backups)
          invariant Valid() && old(trace) <= trace && point == old(point) && disk.backupsDir
          invariant disk == old(disk).(backups := disk.backups)
          decreases Records(disk.backups)
        {
          var ts' := DeleteOne(disk.backups);
          Tidy(disk.(backups := ts'), point);
        }
        Tidy(disk.(backupsDir := false), point);
      }
      Tidy(disk, OrphanDisplaced);
    }

    method TidyDisplaced()
      requires Valid() && point == OrphanDisplaced
      modifies this
      ensures Valid() && old(trace) <= trace && point == OrphanTmp
      ensures disk == old(disk).(displacedDir := false, displaced := disk.displaced)
    {
      if disk.displacedDir {
        while !AllAbsent(disk.displaced)
          invariant Valid() && old(trace) <= trace && point == old(point) && disk.displacedDir
          invariant disk == old(disk).(displaced := disk.displaced)
          decreases Records(disk.displaced)
        {
          var ts' := DeleteOne(disk.displaced);
          Tidy(disk.(displaced := ts'), point);
        }
        Tidy(disk.(displacedDir := false), point);
      }
      Tidy(disk, OrphanTmp);
    }

    method TidyScratchRecord(id: nat)
      requires Valid() && point == OrphanScratch && id in disk.scratches && !AllAbsent(disk.scratches[id])
      modifies this
      ensures Valid() && trace == old(trace) + [State(disk, point)] && point == old(point)
      ensures id in disk.scratches && Records(disk.scratches[id]) < Records(old(disk).scratches[id])
      ensures disk == old(disk).(scratches := disk.scratches)
      ensures disk.scratches.Keys == old(disk).scratches.Keys
    {
      var ts' := DeleteOne(disk.scratches[id]);
      var d' := disk.(scratches := disk.scratches[id := ts']);
      assert RemovesScratch(disk, id, d');
      Tidy(d', point);
    }

    method TidyScratch(id: nat)
      requires Valid() && point == OrphanScratch && id in disk.scratches
      modifies this
      ensures Valid() && old(trace) <= trace && point == old(point)
      ensures disk == old(disk).(scratches := disk.scratches)
      ensures disk.scratches.Keys == old(disk).scratches.Keys - {id}
    {
      while !AllAbsent(disk.scratches[id])
        invariant Valid() && old(trace) <= trace && point == old(point) && id in disk.scratches
        invariant disk == old(disk).(scratches := disk.scratches)
        invariant disk.scratches.Keys == old(disk).scratches.Keys
        decreases Records(disk.scratches[id])
      {
        TidyScratchRecord(id);
      }
      var d' := disk.(scratches := disk.scratches - {id});
      assert RemovesScratch(disk, id, d');
      Tidy(d', point);
    }

    method CleanupOrphans()
      requires Valid() && point == OrphanBackups
      modifies this
      ensures Valid() && old(trace) <= trace && point == Recover(ThenPlan)
      ensures disk.dest == old(disk.dest) && disk.journal == old(disk.journal)
      ensures old(disk.journal.Some?) ==> disk == old(disk)
      ensures old(disk.journal.None?) ==>
        !disk.backupsDir && !disk.displacedDir && !disk.journalTmp && disk.scratches == map[]
    {
      if disk.journal.Some? {
        Tidy(disk, Recover(ThenPlan));
        return;
      }
      TidyAll();
    }

    method TidyAll()
      requires Valid() && point == OrphanBackups && disk.journal.None?
      modifies this
      ensures Valid() && old(trace) <= trace && point == Recover(ThenPlan)
      ensures disk.dest == old(disk.dest) && disk.journal == old(disk.journal)
      ensures !disk.backupsDir && !disk.displacedDir && !disk.journalTmp && disk.scratches == map[]
    {
      TidyBackups();
      TidyDisplaced();
      Tidy(disk.(journalTmp := false), OrphanScratch);
      TidyScratches();
    }

    method TidyScratches()
      requires Valid() && point == OrphanScratch
      modifies this
      ensures Valid() && old(trace) <= trace && point == Recover(ThenPlan)
      ensures disk == old(disk).(scratches := map[])
    {
      while disk.scratches != map[]
        invariant Valid() && old(trace) <= trace && point == OrphanScratch
        invariant disk == old(disk).(scratches := disk.scratches)
        decreases disk.scratches.Keys
      {
        var id :| id in disk.scratches;
        TidyScratch(id);
      }
      Tidy(disk, Recover(ThenPlan));
    }

    method Prepare(d: Disk, ghost p: Point)
      requires Valid() && Preparing(State(disk, point), State(d, p))
      modifies this
      ensures Valid() && disk == d && point == p && trace == old(trace) + [State(d, p)]
      ensures Logical(disk) == old(Logical(disk))
    {
      Do(d, p);
    }

    /** Copies the next unit into its backup, record by record. */
    method CopyBackup(k: nat)
      requires Valid() && point.Backup? && |point.before| == k < |disk.dest| == |point.after|
      requires disk.backups[k] == Absent
      modifies this
      ensures Valid() && old(trace) <= trace && point == old(point)
      ensures disk == old(disk).(backups := old(disk.backups)[k := old(disk).dest[k]])
    {
      var source := disk.dest[k];
      while disk.backups[k] != source
        invariant Valid() && old(trace) <= trace && point == old(point)
        invariant |disk.backups| == |old(disk.backups)|
        invariant disk == old(disk).(backups := old(disk.backups)[k := disk.backups[k]])
        invariant IsPart(disk.backups[k], source)
        decreases |source.Keys - disk.backups[k].Keys|
      {
        CopyBackupRecord(k);
      }
    }

    method CopyBackupRecord(k: nat)
      requires Valid() && point.Backup? && |point.before| == k < |disk.dest| == |point.after|
      requires disk.backups[k] != disk.dest[k] && IsPart(disk.backups[k], disk.dest[k])
      modifies this
      ensures Valid() && trace == old(trace) + [State(disk, point)] && point == old(point)
      ensures |disk.backups| == |old(disk.backups)|
      ensures disk == old(disk).(backups := old(disk.backups)[k := disk.backups[k]])
      ensures IsPart(disk.backups[k], disk.dest[k])
      ensures |disk.dest[k].Keys - disk.backups[k].Keys| < |disk.dest[k].Keys - old(disk).backups[k].Keys|
    {
      var copy := CopyRecord(disk.dest[k], disk.backups[k]);
      var d' := disk.(backups := disk.backups[k := copy]);
      assert CopiesInto(disk, k, d');
      Prepare(d', point);
    }

    method MakeDirectories(id: nat, after: seq<Tree>)
      requires Valid() && point == MakeBackups(id, after)
      modifies this
      ensures Valid() && old(trace) <= trace && point == Backup(id, after, [])
      ensures disk == old(disk).(backupsDir := true, displacedDir := true)
    {
      Prepare(disk.(backupsDir := true), MakeDisplaced(id, after));
      Prepare(disk.(displacedDir := true), Backup(id, after, []));
    }

    method BackUpAll(id: nat, after: seq<Tree>) returns (before: seq<Tree>)
      requires Valid() && point == Backup(id, after, []) && |after| == |disk.dest|
      requires AllAbsent(disk.backups)
      modifies this
      ensures Valid() && old(trace) <= trace && point == Backup(id, after, before)
      ensures before == old(disk.dest) && disk == old(disk).(backups := disk.backups)
    {
      before := [];
      while |before| < |disk.dest|
        invariant |before| <= |disk.dest| && Valid() && old(trace) <= trace
        invariant point == Backup(id, after, before) && before == disk.dest[..|before|]
        invariant disk == old(disk).(backups := disk.backups)
        invariant forall i | |before| <= i < |disk.backups| :: disk.backups[i] == Absent
      {
        before := BackUpUnit(id, after, before);
      }
    }

    method BackUpUnit(id: nat, after: seq<Tree>, before: seq<Tree>) returns (longer: seq<Tree>)
      requires Valid() && point == Backup(id, after, before) && |before| < |disk.dest| == |after|
      requires disk.backups[|before|] == Absent
      modifies this
      ensures Valid() && old(trace) <= trace && point == Backup(id, after, longer)
      ensures longer == before + [old(disk).dest[|before|]]
      ensures disk == old(disk).(backups := old(disk.backups)[|before| := old(disk).dest[|before|]])
    {
      CopyBackup(|before|);
      longer := before + [disk.dest[|before|]];
      Prepare(disk, Backup(id, after, longer));
    }

    /** The first half of publish: back every destination up, then write the prepared journal. */
    method PrepareAll(id: nat, after: seq<Tree>) returns (units: seq<Unit>)
      requires Valid() && point == MakeBackups(id, after) && |after| == |disk.dest|
      requires AllAbsent(disk.backups) && !disk.journalTmp
      modifies this
      ensures Valid() && old(trace) <= trace && point == Displace(id, units, 0)
      ensures Befores(units) == old(disk.dest) && Afters(units) == after
      ensures disk.dest == old(disk.dest) && !disk.journalTmp
    {
      MakeDirectories(id, after);
      var before := BackUpAll(id, after);
      units := ListUnits(id, before, after);
      WriteJournal(id, units);
    }

    method ListUnits(id: nat, before: seq<Tree>, after: seq<Tree>) returns (units: seq<Unit>)
      requires Valid() && point == Backup(id, after, before) && |before| == |after| == |disk.dest|
      modifies this
      ensures Valid() && old(trace) <= trace && point == PrepareTmp(id, units)
      ensures Befores(units) == before && Afters(units) == after && disk == old(disk)
    {
      units := MakeUnits(before, after);
      Prepare(disk, PrepareTmp(id, units));
    }

    method WriteJournal(id: nat, units: seq<Unit>)
      requires Valid() && point == PrepareTmp(id, units) && !disk.journalTmp
      modifies this
      ensures Valid() && old(trace) <= trace && point == Displace(id, units, 0)
      ensures disk == old(disk).(journal := Some(Journal(Prepared, id, units)))
    {
      Prepare(disk.(journalTmp := true), PrepareReplace(id, units));
      ReplaceJournal(id, units);
    }

    method ReplaceJournal(id: nat, units: seq<Unit>)
      requires Valid() && point == PrepareReplace(id, units)
      modifies this
      ensures Valid() && old(trace) <= trace && point == Displace(id, units, 0)
      ensures disk == old(disk).(journal := Some(Journal(Prepared, id, units)), journalTmp := false)
    {
      Prepare(disk.(journal := Some(Journal(Prepared, id, units)), journalTmp := false), Displace(id, units, 0));
    }

    method Replace(d: Disk, ghost p: Point)
      requires Valid() && Publishing(State(disk, point), State(d, p))
      modifies this
      ensures Valid() && disk == d && point == p && trace == old(trace) + [State(d, p)]
    {
      Do(d, p);
    }

    method DisplaceUnit(id: nat, units: seq<Unit>, k: nat)
      requires Valid() && point == Displace(id, units, k) && k < |units| == |disk.dest|
      modifies this
      ensures Valid() && old(trace) <= trace && point == Publish(id, units, k)
      ensures disk.journalTmp == old(disk.journalTmp) && |disk.dest| == |units|
    {
      if units[k].before == Absent {
        Replace(disk, Publish(id, units, k));
      } else {
        Replace(disk.(displaced := disk.displaced[k := disk.dest[k]], dest := disk.dest[k := Absent]),
                Publish(id, units, k));
      }
    }

    method PublishUnit(id: nat, units: seq<Unit>, k: nat)
      requires Valid() && point == Displace(id, units, k) && k < |units| == |disk.dest|
      modifies this
      ensures Valid() && old(trace) <= trace && point == Displace(id, units, k + 1)
      ensures disk.journalTmp == old(disk.journalTmp) && |disk.dest| == |units|
    {
      DisplaceUnit(id, units, k);
      Replace(disk.(dest := disk.dest[k := disk.scratches[id][k]],
                    scratches := disk.scratches[id := disk.scratches[id][k := Absent]]),
              Displace(id, units, k + 1));
    }

    /** The loop over the units, up to the point where the journal may say committed. */
    method PublishUnits(id: nat, units: seq<Unit>)
      requires Valid() && point == Displace(id, units, 0) && |units| == |disk.dest| && !disk.journalTmp
      modifies this
      ensures Valid() && old(trace) <= trace && point == CommitTmp(id, units)
      ensures |units| == |disk.dest| && !disk.journalTmp
    {
      var k := 0;
      while k < |units|
        invariant 0 <= k <= |units| == |disk.dest|
        invariant Valid() && old(trace) <= trace && point == Displace(id, units, k) && !disk.journalTmp
      {
        PublishUnit(id, units, k);
        k := k + 1;
      }
      Replace(disk, CommitTmp(id, units));
    }

    method Commit(id: nat, units: seq<Unit>)
      requires Valid() && point == CommitTmp(id, units) && !disk.journalTmp && |units| == |disk.dest|
      modifies this
      ensures Valid() && old(trace) <= trace && point == CleanScratch(id, ThenDone)
      ensures disk == old(disk).(journal := Some(Journal(Committed, id, units)))
      ensures disk.dest == Afters(units)
    {
      Replace(disk.(journalTmp := true), CommitReplace(id, units));
      CommitJournal(id, units);
    }

    method CommitJournal(id: nat, units: seq<Unit>)
      requires Valid() && point == CommitReplace(id, units) && |units| == |disk.dest|
      modifies this
      ensures Valid() && old(trace) <= trace && point == CleanScratch(id, ThenDone)
      ensures disk == old(disk).(journal := Some(Journal(Committed, id, units)), journalTmp := false)
      ensures disk.dest == Afters(units)
    {
      Replace(disk.(journal := Some(Journal(Committed, id, units)), journalTmp := false), CleanScratch(id, ThenDone));
    }

    /** `publish`, undisturbed: every destination ends with its staged content. */
    method PublishAll(id: nat, after: seq<Tree>)
      requires Valid() && point == MakeBackups(id, after) && |after| == |disk.dest|
      requires AllAbsent(disk.backups) && !disk.journalTmp
      modifies this
      ensures Valid() && old(trace) <= trace && point == Down
      ensures disk.dest == after && disk.journal.None?
    {
      var units := PrepareAll(id, after);
      PublishUnits(id, units);
      Commit(id, units);
      CleanupTransaction(id, ThenDone);
    }

    method Begin(d: Disk, ghost p: Point)
      requires Valid() && Opening(State(disk, point), State(d, p))
      modifies this
      ensures Valid() && disk == d && point == p && trace == old(trace) + [State(d, p)]
      ensures Logical(disk) == old(Logical(disk))
    {
      Do(d, p);
    }

    /** mkdtemp, then `stage`: the staged content is whatever the plan produced. */
    method StageAll(staged: seq<Tree>) returns (id: nat)
      requires Valid() && point == MakeScratch && |staged| == |disk.dest|
      requires forall i | 0 <= i < |staged| :: staged[i] != Absent
      modifies this
      ensures Valid() && old(trace) <= trace && point == Open(id, staged)
      ensures disk == old(disk).(scratches := disk.scratches)
    {
      id := FreshId(disk.scratches.Keys);
      Begin(disk.(scratches := disk.scratches[id := seq(|disk.dest|, i => Absent)]), Stage(id));
      FillScratch(id, staged);
    }

    method FillScratch(id: nat, staged: seq<Tree>)
      requires Valid() && point == Stage(id) && |staged| == |disk.dest|
      requires forall i | 0 <= i < |staged| :: staged[i] != Absent
      modifies this
      ensures Valid() && old(trace) <= trace && point == Open(id, staged)
      ensures disk == old(disk).(scratches := disk.scratches)
    {
      Begin(disk.(scratches := disk.scratches[id := staged]), Stage(id));
      Begin(disk, Open(id, staged));
    }

    method Start()
      requires Valid() && point == Down
      modifies this
      ensures Valid() && old(trace) <= trace && point == Recover(ThenPlan)
      ensures disk.dest == old(disk.dest) && disk.journal == old(disk.journal)
      ensures old(disk.journal.Some?) ==> disk == old(disk)
      ensures old(disk.journal.None?) ==> !disk.backupsDir && !disk.displacedDir && !disk.journalTmp
    {
      Begin(disk, OrphanBackups);
      CleanupOrphans();
    }

    /**
     A whole `execute` that nothing disturbs, from any disk that earlier crashes and failures can
     have left behind: it publishes all of the staged content, or else it finds the disk blocked
     and refuses with the old content still recoverable.
     */
    method Execute(staged: seq<Tree>) returns (ok: bool)
      requires Valid() && point == Down && |staged| == |disk.dest|
      requires forall i | 0 <= i < |staged| :: staged[i] != Absent
      modifies this
      ensures Valid() && old(trace) <= trace && point == Down
      ensures ok <==> !Blocked(old(disk))
      ensures ok ==> disk.dest == staged && disk.journal.None?
      ensures !ok ==> Logical(disk) == old(Logical(disk)) && disk.journal == old(disk.journal) && Blocked(disk)
    {
      Start();
      ok := RecoverJournal(ThenPlan);
      if ok {
        StageAndPublish(staged);
      }
    }

    method StageAndPublish(staged: seq<Tree>)
      requires Valid() && point == MakeScratch && |staged| == |disk.dest|
      requires forall i | 0 <= i < |staged| :: staged[i] != Absent
      requires !disk.backupsDir && !disk.displacedDir && !disk.journalTmp
      modifies this
      ensures Valid() && old(trace) <= trace && point == Down
      ensures disk.dest == staged && disk.journal.None?
    {
      var id := StageAll(staged);
      Begin(disk, MakeBackups(id, staged));
      PublishAll(id, staged);
    }
  }

  method FreshId(used: set<nat>) returns (id: nat)
    ensures id !in used
  {
    id := 0;
    var rest := used;
    while rest != {}
      invariant rest <= used
      invariant forall i | i in used :: i in rest || i < id
    {
      var i :| i in rest;
      rest := rest - {i};
      if i >= id {
        id := i + 1;
      }
    }
  }
}
