/**
 The handoff transaction of scripts/handoff_transaction.py as a machine over the disk.

 A state is the disk plus the point a running `execute` has reached; `Down` means that no process
 runs. One step is one durable operation. From any point the process may crash, any operation of
 a running process may instead raise, and a recursive deletion or copy is one step per record, so
 runs with any number of crashes, also inside recovery and inside a deletion, are covered.

 Paths that another process could change are taken to be stable: the journal, scratch and
 destination checks that guard against that are not branches here, except the recovery's refusal.
 */
module HandoffTransaction {
  import opened Trees
  import opened Prelude

  /** One publication path: what was there when the transaction began and what it stages. */
  datatype Unit = Unit(before: Tree, after: Tree)

  datatype Phase = Prepared | Committed

  datatype Journal = Journal(phase: Phase, scratch: nat, units: seq<Unit>)

  datatype Disk = Disk(
    dest: seq<Tree>,                 // the publication paths, in the order they are published
    backupsDir: bool,                // state/backups
    backups: seq<Tree>,
    displacedDir: bool,              // state/displaced
    displaced: seq<Tree>,
    journal: Option<Journal>,
    journalTmp: bool,                // journal.json.tmp
    scratches: map<nat, seq<Tree>>)  // the staging directories beside the control repository

  /** Where `recover` and `_cleanup_transaction` return to. */
  datatype Caller = ThenPlan | ThenFail(scratch: nat) | ThenDone

  datatype Point =
    | Down
    // _cleanup_orphans
    | OrphanBackups | OrphanDisplaced | OrphanTmp | OrphanScratch
    // recover: `left` units are still to be examined, last unit first
    | Recover(caller: Caller)
    | Rollback(left: nat, caller: Caller)
    | Discard(left: nat, caller: Caller)
    | Restore(left: nat, caller: Caller)
    // _cleanup_transaction
    | CleanScratch(id: nat, caller: Caller)
    | CleanBackups(caller: Caller)
    | CleanDisplaced(caller: Caller)
    | CleanTmp(caller: Caller)
    | CleanJournal(caller: Caller)
    // the rest of execute, up to publish
    | MakeScratch
    | Stage(id: nat)
    | Open(id: nat, after: seq<Tree>)
    // publish
    | MakeBackups(id: nat, after: seq<Tree>)
    | MakeDisplaced(id: nat, after: seq<Tree>)
    | Backup(id: nat, after: seq<Tree>, before: seq<Tree>)
    | PrepareTmp(id: nat, units: seq<Unit>)
    | PrepareReplace(id: nat, units: seq<Unit>)
    | Displace(id: nat, units: seq<Unit>, done: nat)
    | Publish(id: nat, units: seq<Unit>, done: nat)
    | CommitTmp(id: nat, units: seq<Unit>)
    | CommitReplace(id: nat, units: seq<Unit>)
    // publish's handler when there is no journal, and execute's finally clause
    | UndoBackups(id: nat)
    | UndoDisplaced(id: nat)
    | Finally(id: nat)

  datatype State = State(disk: Disk, point: Point)

  function Befores(us: seq<Unit>): (r: seq<Tree>)
    ensures |r| == |us| && forall i | 0 <= i < |us| :: r[i] == us[i].before
  {
    seq(|us|, i requires 0 <= i < |us| => us[i].before)
  }

  function Afters(us: seq<Unit>): (r: seq<Tree>)
    ensures |r| == |us| && forall i | 0 <= i < |us| :: r[i] == us[i].after
  {
    seq(|us|, i requires 0 <= i < |us| => us[i].after)
  }

  function MakeUnits(before: seq<Tree>, after: seq<Tree>): (r: seq<Unit>)
    requires |before| == |after|
    ensures Befores(r) == before && Afters(r) == after
  {
    seq(|before|, i requires 0 <= i < |before| => Unit(before[i], after[i]))
  }

  predicate IsPrepared(d: Disk) {
    d.journal.Some? && d.journal.value.phase == Prepared
  }

  // ------------------------------------------------------------------ steps

  /** One step of removing a directory of numbered trees, or of finding it gone. */
  ghost predicate RemovesDir(dir: bool, ts: seq<Tree>, dir': bool, ts': seq<Tree>) {
    dir && ((dir' && RemovesOneOf(ts, ts')) || (AllAbsent(ts) && !dir' && ts' == ts))
  }

  ghost predicate RemovesScratch(d: Disk, id: nat, d': Disk) {
    && id in d.scratches
    && ((exists ts' :: RemovesOneOf(d.scratches[id], ts') && d' == d.(scratches := d.scratches[id := ts']))
        || (AllAbsent(d.scratches[id]) && d' == d.(scratches := d.scratches - {id})))
  }

  ghost predicate RemovesBackups(d: Disk, d': Disk) {
    && RemovesDir(d.backupsDir, d.backups, d'.backupsDir, d'.backups)
    && d' == d.(backupsDir := d'.backupsDir, backups := d'.backups)
  }

  ghost predicate RemovesDisplaced(d: Disk, d': Disk) {
    && RemovesDir(d.displacedDir, d.displaced, d'.displacedDir, d'.displaced)
    && d' == d.(displacedDir := d'.displacedDir, displaced := d'.displaced)
  }

  function Return(c: Caller): (p: Point) {
    match c
    case ThenPlan => MakeScratch
    case ThenFail(id) => Finally(id)
    case ThenDone => Down
  }

  /** Where an exception goes that `recover` or `_cleanup_transaction` lets through. */
  function Unwind(c: Caller): (p: Point) {
    match c
    case ThenPlan => Down
    case ThenFail(id) => Finally(id)
    case ThenDone => Down
  }

  /** publish's exception handler. */
  function Handler(d: Disk, id: nat): (p: Point) {
    if d.journal.Some? then Recover(ThenFail(id)) else UndoBackups(id)
  }

  ghost predicate DiscardsLeaf(d: Disk, i: nat, d': Disk)
    requires i < |d.dest|
  {
    && |d'.dest| == |d.dest|
    && RemovesLeaf(d.dest[i], d'.dest[i])
    && d' == d.(dest := d.dest[i := d'.dest[i]])
  }

  ghost predicate CopiesInto(d: Disk, i: nat, d': Disk)
    requires i < |d.dest| && i < |d.backups|
  {
    && |d'.backups| == |d.backups|
    && CopiesRecord(d.dest[i], d.backups[i], d'.backups[i])
    && d' == d.(backups := d.backups[i := d'.backups[i]])
  }

  ghost predicate Orphans(s: State, t: State) {
    var d, d' := s.disk, t.disk;
    match s.point
    case OrphanBackups =>
      if d.journal.Some? then t == State(d, Recover(ThenPlan))
      else if d.backupsDir then t.point == s.point && RemovesBackups(d, d')
      else t == State(d, OrphanDisplaced)
    case OrphanDisplaced =>
      if d.displacedDir then t.point == s.point && RemovesDisplaced(d, d')
      else t == State(d, OrphanTmp)
    case OrphanTmp =>
      t == State(d.(journalTmp := false), OrphanScratch)
    case OrphanScratch =>
      if d.scratches == map[] then t == State(d, Recover(ThenPlan))
      else t.point == s.point && exists id :: RemovesScratch(d, id, d')
    case _ => false
  }

  ghost predicate Recovery(s: State, t: State) {
    var d, d' := s.disk, t.disk;
    match s.point
    case Recover(c) =>
      if d.journal.None? then t == State(d, Return(c))
      else if d.journal.value.phase == Committed then t == State(d, CleanScratch(d.journal.value.scratch, c))
      else t == State(d, Rollback(|d.journal.value.units|, c))
    case Rollback(left, c) =>
      d.journal.Some? && left <= |d.dest| && left <= |d.journal.value.units| &&
      (if left == 0 then t == State(d, CleanScratch(d.journal.value.scratch, c))
       else
         var u, observed := d.journal.value.units[left - 1], d.dest[left - 1];
         if observed == u.before then t == State(d, Rollback(left - 1, c))
         else if observed != Absent && observed != u.after then t == State(d, Unwind(c))
         else t == State(d, Discard(left, c)))
    case Discard(left, c) =>
      0 < left <= |d.dest| &&
      (if d.dest[left - 1] == Absent then t == State(d, Restore(left, c))
       else t.point == s.point && DiscardsLeaf(d, left - 1, d'))
    case Restore(left, c) =>
      d.journal.Some? && 0 < left <= |d.dest| && left <= |d.journal.value.units| && left <= |d.backups| &&
      var u := d.journal.value.units[left - 1];
      (if u.before == Absent then t == State(d, Rollback(left - 1, c))
       else if d.backups[left - 1] != u.before then t == State(d, Unwind(c))
       else t == State(d.(dest := d.dest[left - 1 := d.backups[left - 1]],
                          backups := d.backups[left - 1 := Absent]),
                       Rollback(left - 1, c)))
    case _ => false
  }

  ghost predicate Cleanup(s: State, t: State) {
    var d, d' := s.disk, t.disk;
    match s.point
    case CleanScratch(id, c) =>
      if id in d.scratches then t.point == s.point && RemovesScratch(d, id, d')
      else t == State(d, CleanBackups(c))
    case CleanBackups(c) =>
      if d.backupsDir then t.point == s.point && RemovesBackups(d, d')
      else t == State(d, CleanDisplaced(c))
    case CleanDisplaced(c) =>
      if d.displacedDir then t.point == s.point && RemovesDisplaced(d, d')
      else t == State(d, CleanTmp(c))
    case CleanTmp(c) =>
      t == State(d.(journalTmp := false), CleanJournal(c))
    case CleanJournal(c) =>
      t == State(d.(journal := None), Return(c))
    case _ => false
  }

  ghost predicate Opening(s: State, t: State) {
    var d, d' := s.disk, t.disk;
    match s.point
    case Down => t == State(d, OrphanBackups)
    case MakeScratch =>
      exists id :: id !in d.scratches &&
        t == State(d.(scratches := d.scratches[id := seq(|d.dest|, i => Absent)]), Stage(id))
    case Stage(id) =>
      id in d.scratches &&
      ((t.point == s.point && exists ts: seq<Tree> :: |ts| == |d.dest| && d' == d.(scratches := d.scratches[id := ts]))
       || ((forall i | 0 <= i < |d.scratches[id]| :: d.scratches[id][i] != Absent)
           && t == State(d, Open(id, d.scratches[id]))))
    case Open(id, after) =>
      if d.backupsDir || d.displacedDir then t == State(d, Finally(id))
      else t == State(d, MakeBackups(id, after))
    case _ => false
  }

  ghost predicate Preparing(s: State, t: State) {
    var d, d' := s.disk, t.disk;
    match s.point
    case MakeBackups(id, after) => t == State(d.(backupsDir := true), MakeDisplaced(id, after))
    case MakeDisplaced(id, after) => t == State(d.(displacedDir := true), Backup(id, after, []))
    case Backup(id, after, before) =>
      |before| <= |d.dest| <= |d.backups| && |after| == |d.dest| &&
      (if |before| == |d.dest| then t == State(d, PrepareTmp(id, MakeUnits(before, after)))
       else
         var k := |before|;
         if d.backups[k] == d.dest[k] then t == State(d, Backup(id, after, before + [d.dest[k]]))
         else t.point == s.point && CopiesInto(d, k, d'))
    case PrepareTmp(id, units) =>
      !d.journalTmp && t == State(d.(journalTmp := true), PrepareReplace(id, units))
    case PrepareReplace(id, units) =>
      t == State(d.(journal := Some(Journal(Prepared, id, units)), journalTmp := false), Displace(id, units, 0))
    case _ => false
  }

  ghost predicate Publishing(s: State, t: State) {
    var d, d' := s.disk, t.disk;
    match s.point
    case Displace(id, units, k) =>
      k <= |units| && |units| <= |d.dest| && |units| <= |d.displaced| &&
      (if k == |units| then t == State(d, CommitTmp(id, units))
       else if d.dest[k] != units[k].before then t == State(d, Handler(d, id))
       else if units[k].before == Absent then t == State(d, Publish(id, units, k))
       else t == State(d.(displaced := d.displaced[k := d.dest[k]], dest := d.dest[k := Absent]),
                       Publish(id, units, k)))
    case Publish(id, units, k) =>
      k < |units| && |units| <= |d.dest| && id in d.scratches && |units| <= |d.scratches[id]| &&
      (if d.dest[k] != Absent then t == State(d, Handler(d, id))
       else
         && d' == d.(dest := d.dest[k := d.scratches[id][k]],
                     scratches := d.scratches[id := d.scratches[id][k := Absent]])
         && t.point == (if d'.dest[k] == units[k].after then Displace(id, units, k + 1) else Handler(d', id)))
    case CommitTmp(id, units) =>
      !d.journalTmp && t == State(d.(journalTmp := true), CommitReplace(id, units))
    case CommitReplace(id, units) =>
      t == State(d.(journal := Some(Journal(Committed, id, units)), journalTmp := false), CleanScratch(id, ThenDone))
    case _ => false
  }

  ghost predicate Failing(s: State, t: State) {
    var d, d' := s.disk, t.disk;
    match s.point
    case UndoBackups(id) =>
      if d.backupsDir then t.point == s.point && RemovesBackups(d, d')
      else t == State(d, UndoDisplaced(id))
    case UndoDisplaced(id) =>
      if d.displacedDir then t.point == s.point && RemovesDisplaced(d, d')
      else t == State(d, Finally(id))
    case Finally(id) =>
      if d.journal.None? && id in d.scratches then t.point == s.point && RemovesScratch(d, id, d')
      else t == State(d, Down)
    case _ => false
  }

  ghost predicate Crash(s: State, t: State) {
    t == State(s.disk, Down)
  }

  /** An operation raises. A journal write that fails may have removed its temporary file. */
  ghost predicate Raise(s: State, t: State) {
    var d := s.disk;
    match s.point
    case Recover(c) => t == State(d, Unwind(c))
    case Rollback(_, c) => t == State(d, Unwind(c))
    case Discard(_, c) => t == State(d, Unwind(c))
    case Restore(_, c) => t == State(d, Unwind(c))
    case CleanScratch(_, c) => RaiseInCleanup(d, c, t)
    case CleanBackups(c) => RaiseInCleanup(d, c, t)
    case CleanDisplaced(c) => RaiseInCleanup(d, c, t)
    case CleanTmp(c) => RaiseInCleanup(d, c, t)
    case CleanJournal(c) => RaiseInCleanup(d, c, t)
    case Stage(id) => t == State(d, Finally(id))
    case Open(id, _) => t == State(d, Finally(id))
    case MakeBackups(id, _) => t == State(d, Handler(d, id))
    case MakeDisplaced(id, _) => t == State(d, Handler(d, id))
    case Backup(id, _, _) => t == State(d, Handler(d, id))
    case PrepareTmp(id, _) => t == State(d, Handler(d, id))
    case PrepareReplace(id, _) => RaiseInWrite(d, id, t)
    case Displace(id, _, _) => t == State(d, Handler(d, id))
    case Publish(id, _, _) => t == State(d, Handler(d, id))
    case CommitTmp(id, _) => t == State(d, Handler(d, id))
    case CommitReplace(id, _) => RaiseInWrite(d, id, t)
    case UndoBackups(id) => t == State(d, Finally(id))
    case UndoDisplaced(id) => t == State(d, Finally(id))
    case _ => t == State(d, Down)
  }

  /** A failed cleanup is only a warning once the journal says committed. */
  ghost predicate RaiseInCleanup(d: Disk, c: Caller, t: State) {
    t == State(d, Unwind(c)) || (d.journal.Some? && d.journal.value.phase == Committed && t == State(d, Return(c)))
  }

  ghost predicate RaiseInWrite(d: Disk, id: nat, t: State) {
    t == State(d, Handler(d, id)) || t == State(d.(journalTmp := false), Handler(d, id))
  }

  /** The replacement of the journal by the committed one is done, and then the write raises. */
  ghost predicate RaiseLate(s: State, t: State) {
    match s.point
    case CommitReplace(id, units) =>
      t == State(s.disk.(journal := Some(Journal(Committed, id, units)), journalTmp := false), Recover(ThenFail(id)))
    case _ => false
  }

  ghost predicate Advance(s: State, t: State) {
    Orphans(s, t) || Recovery(s, t) || Cleanup(s, t) || Opening(s, t) || Preparing(s, t) || Publishing(s, t) || Failing(s, t)
  }

  ghost predicate Next(s: State, t: State) {
    Advance(s, t) || Raise(s, t) || RaiseLate(s, t) || Crash(s, t)
  }

  // ------------------------------------------------------------- invariants

  /** Every tree table has one slot for each publication path. */
  ghost predicate Shape(d: Disk) {
    && |d.backups| == |d.dest| == |d.displaced|
    && (!d.backupsDir ==> AllAbsent(d.backups))
    && (forall id | id in d.scratches :: |d.scratches[id]| == |d.dest|)
    && (d.journal.Some? ==> |d.journal.value.units| == |d.dest|)
  }

  /** Under a prepared journal no old content is lost: it is in place or intact in its backup. */
  ghost predicate Safe(d: Disk) {
    IsPrepared(d) ==>
      && |d.journal.value.units| == |d.dest| == |d.backups|
      && forall i | 0 <= i < |d.dest| :: KeepsOld(d, i)
  }

  ghost predicate KeepsOld(d: Disk, i: nat)
    requires d.journal.Some? && i < |d.journal.value.units| == |d.dest| == |d.backups|
  {
    var prior := d.journal.value.units[i].before;
    d.dest[i] == prior || prior == Absent || d.backups[i] == prior
  }

  ghost predicate RolledBack(d: Disk, left: nat)
    requires Shape(d)
  {
    && IsPrepared(d) && left <= |d.dest|
    && forall i | left <= i < |d.dest| :: d.dest[i] == d.journal.value.units[i].before
  }

  ghost predicate BackedUp(d: Disk, i: nat)
    requires Shape(d) && i < |d.dest| && d.journal.Some?
  {
    d.journal.value.units[i].before == Absent || d.backups[i] == d.journal.value.units[i].before
  }

  ghost predicate Cleaning(d: Disk, c: Caller)
    requires Shape(d)
  {
    && d.journal.Some?
    && (IsPrepared(d) ==> c != ThenDone && d.dest == Befores(d.journal.value.units))
  }

  /** `done` units have been published, the others are still as they were. */
  ghost predicate HalfPublished(d: Disk, id: nat, units: seq<Unit>, done: nat)
    requires Shape(d)
  {
    && d.journal == Some(Journal(Prepared, id, units)) && done <= |d.dest| && id in d.scratches
    && d.backups == Befores(units)
    && (forall i | 0 <= i < done :: d.dest[i] == units[i].after)
    && (forall i | done <= i < |d.dest| :: d.scratches[id][i] == units[i].after)
    && (forall i | done < i < |d.dest| :: d.dest[i] == units[i].before)
  }

  ghost predicate PointInv(s: State)
    requires Shape(s.disk)
  {
    var d := s.disk;
    match s.point
    case Down => true
    case OrphanBackups => true
    case OrphanDisplaced => d.journal.None?
    case OrphanTmp => d.journal.None?
    case OrphanScratch => d.journal.None?
    case Recover(c) => c != ThenDone
    case Rollback(left, c) => c != ThenDone && RolledBack(d, left)
    case Discard(left, c) => c != ThenDone && 0 < left && RolledBack(d, left) && BackedUp(d, left - 1)
    case Restore(left, c) =>
      c != ThenDone && 0 < left && RolledBack(d, left) && BackedUp(d, left - 1) && d.dest[left - 1] == Absent
    case CleanScratch(_, c) => Cleaning(d, c)
    case CleanBackups(c) => Cleaning(d, c)
    case CleanDisplaced(c) => Cleaning(d, c)
    case CleanTmp(c) => Cleaning(d, c)
    case CleanJournal(c) => Cleaning(d, c)
    case MakeScratch => !IsPrepared(d)
    case Stage(id) => !IsPrepared(d) && id in d.scratches
    case Open(id, after) => !IsPrepared(d) && id in d.scratches && d.scratches[id] == after
    case MakeBackups(id, after) => !IsPrepared(d) && id in d.scratches && d.scratches[id] == after
    case MakeDisplaced(id, after) => d.backupsDir && !IsPrepared(d) && id in d.scratches && d.scratches[id] == after
    case Backup(id, after, before) =>
      && d.backupsDir && !IsPrepared(d) && id in d.scratches && d.scratches[id] == after
      && |before| <= |d.dest| && before == d.dest[..|before|] == d.backups[..|before|]
    case PrepareTmp(id, units) =>
      && !IsPrepared(d) && id in d.scratches && d.scratches[id] == Afters(units)
      && d.dest == Befores(units) == d.backups
    case PrepareReplace(id, units) =>
      && !IsPrepared(d) && id in d.scratches && d.scratches[id] == Afters(units)
      && d.dest == Befores(units) == d.backups
    case Displace(id, units, done) =>
      HalfPublished(d, id, units, done) && (done < |d.dest| ==> d.dest[done] == units[done].before)
    case Publish(id, units, done) => HalfPublished(d, id, units, done) && done < |d.dest| && d.dest[done] == Absent
    case CommitTmp(id, units) => HalfPublished(d, id, units, |d.dest|)
    case CommitReplace(id, units) => HalfPublished(d, id, units, |d.dest|)
    case UndoBackups(_) => d.journal.None?
    case UndoDisplaced(_) => d.journal.None?
    case Finally(_) => true
  }

  ghost predicate Inv(s: State) {
    Shape(s.disk) && Safe(s.disk) && PointInv(s)
  }

  /**
   What the transaction stands for at any moment: the old content as long as the journal says
   prepared, and otherwise what is at the destinations.
   */
  ghost function Logical(d: Disk): seq<Tree> {
    if IsPrepared(d) then Befores(d.journal.value.units) else d.dest
  }

  /** The journal becomes the committed one, whether the program then goes on or raises. */
  ghost predicate IsCommit(s: State, t: State) {
    s.point.CommitReplace? && !IsPrepared(t.disk)
  }

  lemma OrphansKeep(s: State, t: State)
    requires Inv(s) && Orphans(s, t)
    ensures Inv(t) && Logical(t.disk) == Logical(s.disk)
    ensures t.disk.dest == s.disk.dest && (t.disk != s.disk ==> s.disk.journal.None?)
  {
  }

  lemma RecoveryKeeps(s: State, t: State)
    requires Inv(s) && Recovery(s, t)
    ensures Inv(t) && Logical(t.disk) == Logical(s.disk)
  {
    if s.point.Rollback? {
      RollbackKeeps(s, t);
    } else if s.point.Discard? {
      DiscardKeeps(s, t);
    } else if s.point.Restore? {
      RestoreKeeps(s, t);
    }
  }

  lemma RollbackKeeps(s: State, t: State)
    requires Inv(s) && Recovery(s, t) && s.point.Rollback?
    ensures Inv(t) && Logical(t.disk) == Logical(s.disk)
  {
    if s.point.left > 0 {
      assert KeepsOld(s.disk, s.point.left - 1);
    }
  }

  lemma DiscardKeeps(s: State, t: State)
    requires Inv(s) && Recovery(s, t) && s.point.Discard?
    ensures Inv(t) && Logical(t.disk) == Logical(s.disk)
  {
    forall i | 0 <= i < |t.disk.dest| ensures KeepsOld(t.disk, i) {
      assert KeepsOld(s.disk, i);
    }
  }

  lemma RestoreKeeps(s: State, t: State)
    requires Inv(s) && Recovery(s, t) && s.point.Restore?
    ensures Inv(t) && Logical(t.disk) == Logical(s.disk)
  {
    forall i | 0 <= i < |t.disk.dest| ensures KeepsOld(t.disk, i) {
      assert KeepsOld(s.disk, i);
    }
  }

  lemma CleanupKeeps(s: State, t: State)
    requires Inv(s) && Cleanup(s, t)
    ensures Inv(t) && Logical(t.disk) == Logical(s.disk)
  {
    if s.point.CleanScratch? {
      CleanScratchKeeps(s, t);
    } else if s.point.CleanBackups? {
      CleanBackupsKeeps(s, t);
    } else if s.point.CleanJournal? {
      CleanJournalKeeps(s, t);
    }
  }

  lemma CleanScratchKeeps(s: State, t: State)
    requires Inv(s) && Cleanup(s, t) && s.point.CleanScratch?
    ensures Inv(t) && Logical(t.disk) == Logical(s.disk)
  {
  }

  lemma CleanBackupsKeeps(s: State, t: State)
    requires Inv(s) && Cleanup(s, t) && s.point.CleanBackups?
    ensures Inv(t) && Logical(t.disk) == Logical(s.disk)
  {
  }

  lemma CleanJournalKeeps(s: State, t: State)
    requires Inv(s) && Cleanup(s, t) && s.point.CleanJournal?
    ensures Inv(t) && Logical(t.disk) == Logical(s.disk)
  {
  }

  lemma OpeningKeeps(s: State, t: State)
    requires Inv(s) && Opening(s, t)
    ensures Inv(t) && Logical(t.disk) == Logical(s.disk)
  {
  }

  lemma PreparingKeeps(s: State, t: State)
    requires Inv(s) && Preparing(s, t)
    ensures Inv(t) && Logical(t.disk) == Logical(s.disk)
  {
    if s.point.Backup? {
      BackupKeeps(s, t);
    } else if s.point.PrepareReplace? {
      PrepareReplaceKeeps(s, t);
    }
  }

  lemma BackupKeeps(s: State, t: State)
    requires Inv(s) && Preparing(s, t) && s.point.Backup?
    ensures Inv(t) && Logical(t.disk) == Logical(s.disk)
  {
  }

  lemma PrepareReplaceKeeps(s: State, t: State)
    requires Inv(s) && Preparing(s, t) && s.point.PrepareReplace?
    ensures Inv(t) && Logical(t.disk) == Logical(s.disk)
  {
  }

  lemma PublishingKeeps(s: State, t: State)
    requires Inv(s) && Publishing(s, t)
    ensures Inv(t)
    ensures !IsCommit(s, t) ==> Logical(t.disk) == Logical(s.disk)
    ensures IsCommit(s, t) ==> Logical(s.disk) == Befores(s.point.units) && Logical(t.disk) == Afters(s.point.units)
  {
    if s.point.Displace? {
      DisplaceKeeps(s, t);
    } else if s.point.Publish? {
      PublishKeeps(s, t);
    } else if s.point.CommitReplace? {
      assert s.disk.dest == Afters(s.point.units);
    }
  }

  lemma DisplaceKeeps(s: State, t: State)
    requires Inv(s) && Publishing(s, t) && s.point.Displace?
    ensures Inv(t) && Logical(t.disk) == Logical(s.disk)
  {
    assert forall i | 0 <= i < |t.disk.dest| :: KeepsOld(t.disk, i);
  }

  lemma PublishKeeps(s: State, t: State)
    requires Inv(s) && Publishing(s, t) && s.point.Publish?
    ensures Inv(t) && Logical(t.disk) == Logical(s.disk)
  {
    assert forall i | 0 <= i < |t.disk.dest| :: KeepsOld(t.disk, i);
  }

  lemma LateKeeps(s: State, t: State)
    requires Inv(s) && RaiseLate(s, t)
    ensures Inv(t) && IsCommit(s, t)
    ensures Logical(s.disk) == Befores(s.point.units) && Logical(t.disk) == Afters(s.point.units)
  {
    assert s.disk.dest == Afters(s.point.units);
  }

  lemma FailingKeeps(s: State, t: State)
    requires Inv(s) && Failing(s, t)
    ensures Inv(t) && Logical(t.disk) == Logical(s.disk)
  {
  }

  lemma RaiseKeeps(s: State, t: State)
    requires Inv(s) && (Raise(s, t) || Crash(s, t))
    ensures Inv(t) && Logical(t.disk) == Logical(s.disk) && !IsCommit(s, t)
  {
    if Raise(s, t) {
      if s.point.CommitReplace? || s.point.PrepareReplace? {
        WriteFailureKeeps(s, t);
      } else {
        FailureKeeps(s, t);
      }
    }
  }

  lemma WriteFailureKeeps(s: State, t: State)
    requires Inv(s) && Raise(s, t) && (s.point.CommitReplace? || s.point.PrepareReplace?)
    ensures Inv(t) && Logical(t.disk) == Logical(s.disk) && !IsCommit(s, t)
  {
  }

  lemma FailureKeeps(s: State, t: State)
    requires Inv(s) && Raise(s, t) && !s.point.CommitReplace? && !s.point.PrepareReplace?
    ensures t.disk == s.disk && Inv(t) && !IsCommit(s, t)
  {
  }

  lemma QuietKeeps(s: State, t: State)
    requires Inv(s) && (Orphans(s, t) || Recovery(s, t) || Cleanup(s, t))
    ensures Inv(t) && Logical(t.disk) == Logical(s.disk) && !s.point.CommitReplace?
  {
    if Orphans(s, t) {
      OrphansKeep(s, t);
    } else if Recovery(s, t) {
      RecoveryKeeps(s, t);
    } else {
      CleanupKeeps(s, t);
    }
  }

  lemma RunningKeeps(s: State, t: State)
    requires Inv(s) && (Opening(s, t) || Preparing(s, t) || Failing(s, t))
    ensures Inv(t) && Logical(t.disk) == Logical(s.disk) && !s.point.CommitReplace?
  {
    if Opening(s, t) {
      OpeningKeeps(s, t);
    } else if Preparing(s, t) {
      PreparingKeeps(s, t);
    } else {
      FailingKeeps(s, t);
    }
  }

  lemma NextKeeps(s: State, t: State)
    requires Inv(s) && Next(s, t)
    ensures Inv(t)
    ensures !IsCommit(s, t) ==> Logical(t.disk) == Logical(s.disk)
    ensures IsCommit(s, t) ==> Logical(s.disk) == Befores(s.point.units) && Logical(t.disk) == Afters(s.point.units)
  {
    if Raise(s, t) || Crash(s, t) {
      RaiseKeeps(s, t);
    } else if Publishing(s, t) {
      PublishingKeeps(s, t);
    } else if RaiseLate(s, t) {
      LateKeeps(s, t);
    } else if Orphans(s, t) || Recovery(s, t) || Cleanup(s, t) {
      QuietKeeps(s, t);
    } else {
      RunningKeeps(s, t);
    }
  }

  // ------------------------------------------------------------------- runs

  /** A workspace that no transaction has touched yet. Left-over directories are allowed. */
  ghost predicate Initial(s: State) {
    s.point == Down && Shape(s.disk) && s.disk.journal.None?
  }

  ghost predicate IsChain(run: seq<State>) {
    |run| > 0 && forall i | 0 <= i < |run| - 1 :: StepsAt(run, i)
  }

  ghost predicate StepsAt(run: seq<State>, i: nat)
    requires i < |run| - 1
  {
    Next(run[i], run[i + 1])
  }

  ghost predicate CommitsAt(run: seq<State>, i: nat)
    requires i < |run| - 1
  {
    IsCommit(run[i], run[i + 1])
  }

  ghost predicate IsRun(run: seq<State>) {
    IsChain(run) && Initial(run[0])
  }

  /** The content of the last transaction that committed, or else what was there at first. */
  ghost function LastCommitted(run: seq<State>): seq<Tree>
    requires |run| > 0
  {
    if |run| == 1 then run[0].disk.dest
    else if IsCommit(run[|run| - 2], run[|run| - 1]) then Afters(run[|run| - 2].point.units)
    else LastCommitted(run[..|run| - 1])
  }

  /**
   All or nothing, at every moment of every run with any number of crashes, failures and
   interrupted recoveries. While the journal says prepared, the last committed content is what it
   records as old, and each piece of it is in place or intact in its backup. At any other time the
   destinations hold exactly the last committed content.
   */
  lemma {:induction false} AllOrNothing(run: seq<State>)
    requires IsRun(run)
    ensures Inv(Last(run)) && Safe(Last(run).disk)
    ensures IsPrepared(Last(run).disk) ==> Befores(Last(run).disk.journal.value.units) == LastCommitted(run)
    ensures !IsPrepared(Last(run).disk) ==> Last(run).disk.dest == LastCommitted(run)
  {
    if |run| > 1 {
      var front := run[..|run| - 1];
      assert forall i | 0 <= i < |front| - 1 :: StepsAt(run, i) ==> StepsAt(front, i);
      AllOrNothing(front);
      assert StepsAt(run, |run| - 2);
      NextKeeps(Last(front), Last(run));
    }
  }

  lemma {:induction false} InvHolds(run: seq<State>, i: nat)
    requires IsChain(run) && Inv(run[0]) && i < |run|
    ensures Inv(run[i])
  {
    if i > 0 {
      InvHolds(run, i - 1);
      assert StepsAt(run, i - 1);
      NextKeeps(run[i - 1], run[i]);
    }
  }

  /** Between two moments with no commit the transaction stands for the same content. */
  lemma {:induction false} LogicalIsStable(run: seq<State>, i: nat, j: nat)
    requires IsChain(run) && Inv(run[0]) && i <= j < |run|
    requires forall k | i <= k < j :: !CommitsAt(run, k)
    ensures Logical(run[j].disk) == Logical(run[i].disk)
    decreases j - i
  {
    if i < j {
      InvHolds(run, j - 1);
      assert StepsAt(run, j - 1) && !CommitsAt(run, j - 1);
      NextKeeps(run[j - 1], run[j]);
      LogicalIsStable(run, i, j - 1);
    }
  }

  /**
   Whenever recovery hands over to the next plan, the destinations are back to what the journal
   recorded as old if it said prepared, and are left as published if it said committed.
   */
  lemma RecoveryRestores(run: seq<State>, i: nat, j: nat)
    requires IsRun(run) && i <= j < |run|
    requires run[i].point == Recover(ThenPlan) && run[j].point == MakeScratch
    requires forall k | i <= k < j :: !CommitsAt(run, k)
    ensures IsPrepared(run[i].disk) ==> run[j].disk.dest == Befores(run[i].disk.journal.value.units)
    ensures !IsPrepared(run[i].disk) ==> run[j].disk.dest == run[i].disk.dest
    ensures !IsPrepared(run[j].disk)
  {
    LogicalIsStable(run, i, j);
    InvHolds(run, j);
  }

  // ---------------------------------------------------------------- refusal

  /** Some destination is neither absent, nor the old content, nor the staged content. */
  predicate Blocked(d: Disk) {
    IsPrepared(d) && exists i | 0 <= i < |d.dest| && i < |d.journal.value.units| :: IsForeign(d, i)
  }

  predicate IsForeign(d: Disk, i: nat)
    requires d.journal.Some? && i < |d.dest| && i < |d.journal.value.units|
  {
    d.dest[i] != Absent && d.dest[i] != d.journal.value.units[i].before && d.dest[i] != d.journal.value.units[i].after
  }

  /** The foreign destination is not one that recovery is just replacing. */
  ghost predicate IsStuck(s: State, i: nat) {
    && IsPrepared(s.disk) && i < |s.disk.dest| && i < |s.disk.journal.value.units| && IsForeign(s.disk, i)
    && (s.point.Discard? || s.point.Restore? ==> s.point.left != i + 1)
  }

  lemma StuckInRecovery(s: State, t: State, i: nat)
    requires Inv(s) && Recovery(s, t) && IsStuck(s, i)
    ensures IsStuck(t, i)
  {
  }

  lemma NotCleaning(s: State, i: nat)
    requires Inv(s) && IsStuck(s, i)
    ensures !s.point.CleanScratch? && !s.point.CleanBackups? && !s.point.CleanDisplaced? && !s.point.CleanTmp?
    ensures !s.point.CleanJournal?
  {
    assert s.disk.dest[i] != Befores(s.disk.journal.value.units)[i];
  }

  lemma NotPublishing(s: State, i: nat)
    requires Inv(s) && IsStuck(s, i)
    ensures !s.point.Displace? && !s.point.Publish? && !s.point.CommitTmp? && !s.point.CommitReplace?
  {
  }

  lemma StuckStep(s: State, t: State, i: nat)
    requires Inv(s) && Next(s, t) && IsStuck(s, i)
    ensures IsStuck(t, i)
  {
    NotCleaning(s, i);
    NotPublishing(s, i);
    if Recovery(s, t) {
      StuckInRecovery(s, t, i);
    } else if Advance(s, t) {
      StuckElsewhere(s, t, i);
    }
  }

  lemma StuckElsewhere(s: State, t: State, i: nat)
    requires Inv(s) && IsStuck(s, i) && (Orphans(s, t) || Opening(s, t) || Preparing(s, t) || Failing(s, t))
    ensures IsStuck(t, i)
  {
  }

  /** Once a process has left a blocked disk behind, it stays blocked whatever runs, and nothing commits any more. */
  lemma {:induction false} BlockedForGood(run: seq<State>, i: nat, j: nat)
    requires IsRun(run) && i <= j < |run| && run[i].point == Down && Blocked(run[i].disk)
    ensures Blocked(run[j].disk) && Logical(run[j].disk) == Logical(run[i].disk)
  {
    var k :| 0 <= k < |run[i].disk.dest| && k < |run[i].disk.journal.value.units| && IsForeign(run[i].disk, k);
    StuckRun(run, i, j, k);
  }

  lemma {:induction false} StuckRun(run: seq<State>, i: nat, j: nat, k: nat)
    requires IsRun(run) && i <= j < |run| && IsStuck(run[i], k)
    ensures IsStuck(run[j], k) && Logical(run[j].disk) == Logical(run[i].disk)
    decreases j
  {
    if i < j {
      StuckRun(run, i, j - 1, k);
      InvHolds(run, j - 1);
      assert StepsAt(run, j - 1);
      StuckStep(run[j - 1], run[j], k);
      NextKeeps(run[j - 1], run[j]);
    }
  }

  lemma ChainGrows(run: seq<State>, s: State)
    requires IsChain(run) && Next(Last(run), s)
    ensures IsChain(run + [s])
  {
    var longer := run + [s];
    forall i | 0 <= i < |longer| - 1 ensures StepsAt(longer, i) {
      assert i < |run| - 1 ==> StepsAt(run, i);
    }
  }

  lemma RunGrows(run: seq<State>, s: State) returns (longer: seq<State>)
    requires IsRun(run) && Next(Last(run), s)
    ensures IsRun(longer) && Last(longer) == s
  {
    ChainGrows(run, s);
    longer := run + [s];
  }

  const OldTree: Tree := map[[] := File(0, "old")]
  const NewTree: Tree := map[[] := Directory(0), ["a"] := File(0, "new")]
  const PartTree: Tree := map[[] := Directory(0)]
  const OneUnit: seq<Unit> := [Unit(OldTree, NewTree)]

  lemma TreesDiffer()
    ensures OldTree != Absent && NewTree != Absent && PartTree != Absent
    ensures OldTree != NewTree && OldTree != PartTree && NewTree != PartTree
  {
    assert [] in OldTree && [] in NewTree && [] in PartTree;
    assert OldTree[[]] != NewTree[[]] == PartTree[[]];
    assert ["a"] in NewTree && ["a"] !in PartTree;
  }

  lemma RunOpens(run: seq<State>, s: State) returns (longer: seq<State>)
    requires IsRun(run) && (Orphans(Last(run), s) || Opening(Last(run), s))
    ensures IsRun(longer) && Last(longer) == s
  {
    longer := RunGrows(run, s);
  }

  lemma RunRecovers(run: seq<State>, s: State) returns (longer: seq<State>)
    requires IsRun(run) && Recovery(Last(run), s)
    ensures IsRun(longer) && Last(longer) == s
  {
    longer := RunGrows(run, s);
  }

  lemma RunPrepares(run: seq<State>, s: State) returns (longer: seq<State>)
    requires IsRun(run) && Preparing(Last(run), s)
    ensures IsRun(longer) && Last(longer) == s
  {
    longer := RunGrows(run, s);
  }

  lemma RunPublishes(run: seq<State>, s: State) returns (longer: seq<State>)
    requires IsRun(run) && Publishing(Last(run), s)
    ensures IsRun(longer) && Last(longer) == s
  {
    longer := RunGrows(run, s);
  }

  lemma RunCrashes(run: seq<State>) returns (longer: seq<State>)
    requires IsRun(run)
    ensures IsRun(longer) && Last(longer) == State(Last(run).disk, Down)
  {
    longer := RunGrows(run, State(Last(run).disk, Down));
  }

  lemma ReachPrepared() returns (run: seq<State>)
    ensures IsRun(run)
    ensures Last(run) == State(Disk([OldTree], true, [OldTree], true, [Absent],
                                    Some(Journal(Prepared, 0, OneUnit)), false, map[0 := [NewTree]]),
                               Displace(0, OneUnit, 0))
  {
    var d := Disk([OldTree], false, [Absent], false, [Absent], None, false, map[]);
    run := [State(d, Down)];
    run := RunOpens(run, State(d, OrphanBackups));
    run := RunOpens(run, State(d, OrphanDisplaced));
    run := RunOpens(run, State(d, OrphanTmp));
    run := RunOpens(run, State(d, OrphanScratch));
    run := RunOpens(run, State(d, Recover(ThenPlan)));
    run := RunRecovers(run, State(d, MakeScratch));
    run := ReachOpen(run);
    run := ReachBackup(run);
    run := ReachJournal(run);
  }

  lemma ReachStage(run: seq<State>) returns (longer: seq<State>)
    requires IsRun(run)
    requires Last(run) == State(Disk([OldTree], false, [Absent], false, [Absent], None, false, map[]), MakeScratch)
    ensures IsRun(longer)
    ensures Last(longer) == State(Last(run).disk.(scratches := map[0 := [Absent]]), Stage(0))
  {
    var d := Last(run).disk;
    assert seq(|d.dest|, i => Absent) == [Absent];
    longer := RunOpens(run, State(d.(scratches := map[0 := [Absent]]), Stage(0)));
  }

  lemma ReachOpen(run: seq<State>) returns (longer: seq<State>)
    requires IsRun(run)
    requires Last(run) == State(Disk([OldTree], false, [Absent], false, [Absent], None, false, map[]), MakeScratch)
    ensures IsRun(longer)
    ensures Last(longer) == State(Disk([OldTree], false, [Absent], false, [Absent], None, false, map[0 := [NewTree]]),
                                  MakeBackups(0, [NewTree]))
  {
    longer := ReachStage(run);
    var d := Last(longer).disk;
    assert map[0 := [Absent]][0 := [NewTree]] == map[0 := [NewTree]];
    d := d.(scratches := map[0 := [NewTree]]);
    longer := RunOpens(longer, State(d, Stage(0)));
    TreesDiffer();
    longer := RunOpens(longer, State(d, Open(0, [NewTree])));
    longer := RunOpens(longer, State(d, MakeBackups(0, [NewTree])));
  }

  lemma ReachBackup(run: seq<State>) returns (longer: seq<State>)
    requires IsRun(run)
    requires Last(run) == State(Disk([OldTree], false, [Absent], false, [Absent], None, false, map[0 := [NewTree]]),
                                MakeBackups(0, [NewTree]))
    ensures IsRun(longer)
    ensures Last(longer) == State(Disk([OldTree], true, [OldTree], true, [Absent], None, false, map[0 := [NewTree]]),
                                  Backup(0, [NewTree], []))
  {
    var d := Last(run).disk.(backupsDir := true);
    longer := RunPrepares(run, State(d, MakeDisplaced(0, [NewTree])));
    d := d.(displacedDir := true);
    longer := RunPrepares(longer, State(d, Backup(0, [NewTree], [])));
    var d' := d.(backups := [OldTree]);
    assert CopiesRecord(OldTree, Absent, OldTree) by {
      assert OldTree == Absent[[] := OldTree[[]]];
    }
    assert CopiesInto(d, 0, d');
    TreesDiffer();
    longer := RunPrepares(longer, State(d', Backup(0, [NewTree], [])));
  }

  lemma ReachCopied(run: seq<State>, d: Disk) returns (longer: seq<State>)
    requires IsRun(run) && d.dest == d.backups == [OldTree] && Last(run) == State(d, Backup(0, [NewTree], []))
    ensures IsRun(longer) && Last(longer) == State(d, Backup(0, [NewTree], [OldTree]))
  {
    assert [] + [OldTree] == [OldTree];
    longer := RunPrepares(run, State(d, Backup(0, [NewTree], [OldTree])));
  }

  lemma ReachUnits(run: seq<State>) returns (longer: seq<State>)
    requires IsRun(run)
    requires Last(run) == State(Disk([OldTree], true, [OldTree], true, [Absent], None, false, map[0 := [NewTree]]),
                                Backup(0, [NewTree], []))
    ensures IsRun(longer)
    ensures Last(longer) == State(Last(run).disk, PrepareTmp(0, OneUnit))
  {
    var d := Last(run).disk;
    longer := ReachCopied(run, d);
    assert MakeUnits([OldTree], [NewTree]) == OneUnit;
    longer := RunPrepares(longer, State(d, PrepareTmp(0, OneUnit)));
  }

  lemma ReachJournal(run: seq<State>) returns (longer: seq<State>)
    requires IsRun(run)
    requires Last(run) == State(Disk([OldTree], true, [OldTree], true, [Absent], None, false, map[0 := [NewTree]]),
                                Backup(0, [NewTree], []))
    ensures IsRun(longer)
    ensures Last(longer) == State(Disk([OldTree], true, [OldTree], true, [Absent],
                                       Some(Journal(Prepared, 0, OneUnit)), false, map[0 := [NewTree]]),
                                  Displace(0, OneUnit, 0))
  {
    longer := ReachUnits(run);
    var d := Last(run).disk;
    longer := RunPrepares(longer, State(d.(journalTmp := true), PrepareReplace(0, OneUnit)));
    longer := RunPrepares(longer, State(d.(journal := Some(Journal(Prepared, 0, OneUnit))), Displace(0, OneUnit, 0)));
  }

  lemma ReachPublished() returns (run: seq<State>)
    ensures IsRun(run) && Last(run).point == Down
    ensures Last(run).disk.dest == [NewTree] && Last(run).disk.journal == Some(Journal(Prepared, 0, OneUnit))
  {
    run := ReachPrepared();
    var d := Last(run).disk.(dest := [Absent], displaced := [OldTree]);
    TreesDiffer();
    run := RunPublishes(run, State(d, Publish(0, OneUnit, 0)));
    assert [Absent][0 := NewTree] == [NewTree] && [NewTree][0 := Absent] == [Absent];
    d := d.(dest := [NewTree], scratches := map[0 := [Absent]]);
    assert map[0 := [NewTree]][0 := [Absent]] == d.scratches;
    run := RunPublishes(run, State(d, Displace(0, OneUnit, 1)));
    run := RunCrashes(run);
  }

  /**
   A blocked disk can be reached: a crash while recovery deletes a published directory leaves part
   of it behind, which is neither the old content nor the staged one.
   */
  lemma BlockedIsReachable() returns (run: seq<State>)
    ensures IsRun(run) && Last(run).point == Down && Blocked(Last(run).disk)
  {
    run := ReachPublished();
    run := ReachPartialDiscard(run, Last(run).disk);
    run := RunCrashes(run);
    TreesDiffer();
    assert IsForeign(Last(run).disk, 0);
  }

  lemma ReachPartialDiscard(run: seq<State>, d: Disk) returns (longer: seq<State>)
    requires IsRun(run) && Last(run) == State(d, Down)
    requires d.dest == [NewTree] && d.journal == Some(Journal(Prepared, 0, OneUnit))
    ensures IsRun(longer)
    ensures Last(longer).disk == d.(dest := [PartTree])
  {
    longer := RunOpens(run, State(d, OrphanBackups));
    longer := RunOpens(longer, State(d, Recover(ThenPlan)));
    longer := RunRecovers(longer, State(d, Rollback(1, ThenPlan)));
    TreesDiffer();
    longer := RunRecovers(longer, State(d, Discard(1, ThenPlan)));
    var d' := d.(dest := [PartTree]);
    assert IsLeaf(NewTree, ["a"]);
    assert NewTree - {["a"]} == d'.dest[0];
    assert RemovesLeaf(NewTree, d'.dest[0]);
    assert DiscardsLeaf(d, 0, d');
    longer := RunRecovers(longer, State(d', Discard(1, ThenPlan)));
  }
}
