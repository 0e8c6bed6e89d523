/**
 Threads racing through `run_external_backup`, the background executions it starts, and ejects,
 one program counter each. Every step is one database or lock operation; steps interleave freely.
 */
module BackupLock {
  import opened Wrappers

  datatype Kind = Backup | Eject

  datatype Status = Pending | Running | Success | Failed

  datatype Row = Row(kind: Kind, disk: int, status: Status) {
    predicate Active() {
      status.Pending? || status.Running?
    }
  }

  /**
   Where a caller of `run_external_backup` stands. Once its query has passed, `since` is the number of rows
   there were at that moment.
   */
  datatype CreatorPc =
    | Starting               // before the scheduler's own check
    | Prechecked             // that check, made outside the lock, saw no active row
    | Locked                 // holds the lock
    | Queried(since: nat)    // the query under the lock found no active row
    | Inspected(since: nat)  // the agent reported nothing running and the disk was acceptable
    | Created                // row committed, lock still held
    | Returned               // done, or refused

  datatype Creator = Creator(disk: int, pc: CreatorPc)

  /** Where a caller that wants a disk ejected stands; when its row is open, the row's own thread goes on. */
  datatype EjectorPc = Asked | Checked(since: nat) | Gone

  datatype Ejector = Ejector(disk: int, pc: EjectorPc)

  /** Where the one thread that works for a row stands. */
  datatype WorkerPc = Queued | Loaded | Working | Finished | Crashed

  datatype State = State(
    creators: seq<Creator>, holder: Option<nat>, ejectors: seq<Ejector>, rows: seq<Row>, workers: seq<WorkerPc>)

  datatype Step =
    | Arrive(disk: int)
    | Precheck(t: nat)
    | SkipPrecheck(t: nat)
    | Acquire(t: nat)
    | Query(t: nat)
    | Inspect(t: nat, ok: bool)
    | Create(t: nat)
    | Release(t: nat)
    | Load(r: nat)
    | DiskGone(r: nat)
    | Begin(r: nat)
    | End(r: nat, ok: bool)
    | AskEject(disk: int)
    | CheckEject(e: nat)
    | OpenEject(e: nat)
    | CloseEject(r: nat, ok: bool)
    | CrashEject(r: nat)

  predicate AnyActive(rows: seq<Row>) {
    exists i :: 0 <= i < |rows| && rows[i].Active()
  }

  predicate ActiveOn(rows: seq<Row>, disk: int) {
    exists i :: 0 <= i < |rows| && rows[i].Active() && rows[i].disk == disk
  }

  function Move(s: State, t: nat, pc: CreatorPc): State
    requires t < |s.creators|
  {
    s.(creators := s.creators[t := s.creators[t].(pc := pc)])
  }

  function MoveEjector(s: State, e: nat, pc: EjectorPc): State
    requires e < |s.ejectors|
  {
    s.(ejectors := s.ejectors[e := s.ejectors[e].(pc := pc)])
  }

  function Work(s: State, r: nat, pc: WorkerPc, status: Status): State
    requires r < |s.workers| && r < |s.rows|
  {
    s.(workers := s.workers[r := pc], rows := s.rows[r := s.rows[r].(status := status)])
  }

  function Insert(s: State, row: Row, pc: WorkerPc): State {
    s.(rows := s.rows + [row], workers := s.workers + [pc])
  }

  function Outcome(ok: bool): Status {
    if ok then Success else Failed
  }

  predicate At(s: State, t: nat, pc: CreatorPc) {
    t < |s.creators| && s.creators[t].pc == pc
  }

  predicate Doing(s: State, r: nat, kind: Kind, pc: WorkerPc) {
    r < |s.rows| && r < |s.workers| && s.rows[r].kind == kind && s.workers[r] == pc
  }

  /** The caller is about to insert its backup row. */
  predicate AboutToCreate(s: State, t: nat) {
    t < |s.creators| && s.creators[t].pc.Inspected?
  }

  /** The caller is about to insert its eject's row. */
  predicate AboutToOpen(s: State, e: nat) {
    e < |s.ejectors| && s.ejectors[e].pc.Checked?
  }

  /** One step; a step that is not possible changes nothing. */
  function Apply(s: State, step: Step): State {
    match step
    case Arrive(disk) => s.(creators := s.creators + [Creator(disk, Starting)])
    case Precheck(t) =>
      if !At(s, t, Starting) then s else Move(s, t, if AnyActive(s.rows) then Returned else Prechecked)
    case SkipPrecheck(t) => if !At(s, t, Starting) then s else Move(s, t, Prechecked)
    case Acquire(t) =>
      if !At(s, t, Prechecked) || s.holder.Some? then s else Move(s, t, Locked).(holder := Some(t))
    case Query(t) =>
      if !At(s, t, Locked) then s
      else if AnyActive(s.rows) then Move(s, t, Returned).(holder := None)
      else Move(s, t, Queried(|s.rows|))
    case Inspect(t, ok) =>
      if t >= |s.creators| || !s.creators[t].pc.Queried? then s
      else if ok then Move(s, t, Inspected(s.creators[t].pc.since))
      else Move(s, t, Returned).(holder := None)
    case Create(t) =>
      if !AboutToCreate(s, t) then s
      else Insert(Move(s, t, Created), Row(Backup, s.creators[t].disk, Pending), Queued)
    case Release(t) => if !At(s, t, Created) then s else Move(s, t, Returned).(holder := None)
    case Load(r) =>
      if !Doing(s, r, Backup, Queued) then s
      else s.(workers := s.workers[r := if s.rows[r].Active() then Loaded else Finished])
    case DiskGone(r) => if !Doing(s, r, Backup, Loaded) then s else Work(s, r, Finished, Failed)
    case Begin(r) => if !Doing(s, r, Backup, Loaded) then s else Work(s, r, Working, Running)
    case End(r, ok) => if !Doing(s, r, Backup, Working) then s else Work(s, r, Finished, Outcome(ok))
    case AskEject(disk) => s.(ejectors := s.ejectors + [Ejector(disk, Asked)])
    case CheckEject(e) =>
      if e >= |s.ejectors| || !s.ejectors[e].pc.Asked? then s
      else MoveEjector(s, e, if ActiveOn(s.rows, s.ejectors[e].disk) then Gone else Checked(|s.rows|))
    case OpenEject(e) =>
      if !AboutToOpen(s, e) then s
      else Insert(MoveEjector(s, e, Gone), Row(Eject, s.ejectors[e].disk, Running), Working)
    case CloseEject(r, ok) => if !Doing(s, r, Eject, Working) then s else Work(s, r, Finished, Outcome(ok))
    case CrashEject(r) => if !Doing(s, r, Eject, Working) then s else s.(workers := s.workers[r := Crashed])
  }

  function Run(s: State, steps: seq<Step>): State {
    if steps == [] then s else Apply(Run(s, steps[..|steps| - 1]), steps[|steps| - 1])
  }

  const INITIAL: State := State([], None, [], [], [])

  // ----- what every interleaving keeps -----

  predicate PastQuery(pc: CreatorPc) {
    pc.Queried? || pc.Inspected?
  }

  predicate Holds(pc: CreatorPc) {
    pc.Locked? || pc.Created? || PastQuery(pc)
  }

  ghost predicate NoActiveBackup(s: State) {
    forall r :: 0 <= r < |s.rows| && s.rows[r].kind.Backup? ==> !s.rows[r].Active()
  }

  /** Every row that was there at the query is closed. */
  ghost predicate ClosedBefore(s: State, since: nat) {
    since <= |s.rows| && forall r :: 0 <= r < since ==> !s.rows[r].Active()
  }

  ghost predicate ClosedBeforeOn(s: State, since: nat, disk: int) {
    since <= |s.rows| && forall r :: 0 <= r < since && s.rows[r].disk == disk ==> !s.rows[r].Active()
  }

  /** At most one row made by `run_external_backup` is pending or running. */
  ghost predicate AtMostOneBackup(s: State) {
    forall i, j :: 0 <= i < j < |s.rows| && s.rows[i].kind.Backup? && s.rows[j].kind.Backup? ==>
      !s.rows[i].Active() || !s.rows[j].Active()
  }

  /** A row's status follows its own thread. */
  predicate InStep(row: Row, pc: WorkerPc) {
    match pc
    case Queued => row.kind.Backup? && row.status.Pending?
    case Loaded => row.kind.Backup? && row.status.Pending?
    case Working => row.status.Running?
    case Finished => !row.Active()
    case Crashed => row.kind.Eject? && row.status.Running?
  }

  ghost predicate LockInv(s: State) {
    && (s.holder.Some? ==> s.holder.value < |s.creators|)
    && (forall t :: 0 <= t < |s.creators| ==> (Holds(s.creators[t].pc) <==> s.holder == Some(t)))
  }

  ghost predicate RowsInv(s: State) {
    |s.rows| == |s.workers| && forall r :: 0 <= r < |s.rows| ==> InStep(s.rows[r], s.workers[r])
  }

  ghost predicate WindowInv(s: State) {
    && (forall t :: 0 <= t < |s.creators| && PastQuery(s.creators[t].pc) ==>
          NoActiveBackup(s) && ClosedBefore(s, s.creators[t].pc.since))
    && (forall e :: 0 <= e < |s.ejectors| && s.ejectors[e].pc.Checked? ==>
          ClosedBeforeOn(s, s.ejectors[e].pc.since, s.ejectors[e].disk))
  }

  ghost predicate Inv(s: State) {
    LockInv(s) && RowsInv(s) && WindowInv(s) && AtMostOneBackup(s)
  }

  predicate ByWorker(step: Step) {
    step.Load? || step.DiskGone? || step.Begin? || step.End? || step.CloseEject? || step.CrashEject?
  }

  /** Rows keep their kind and disk, and a closed row stays closed. */
  ghost predicate OnlyCloses(s: State, t: State) {
    |t.rows| == |s.rows|
    && forall r :: 0 <= r < |s.rows| ==>
         && t.rows[r].kind == s.rows[r].kind && t.rows[r].disk == s.rows[r].disk
         && (!s.rows[r].Active() ==> !t.rows[r].Active())
  }

  lemma WorkerStep(s: State, step: Step)
    requires RowsInv(s) && ByWorker(step)
    ensures var t := Apply(s, step);
            && RowsInv(t) && OnlyCloses(s, t)
            && t.creators == s.creators && t.holder == s.holder && t.ejectors == s.ejectors
  {
  }

  lemma ClosingKeeps(s: State, t: State)
    requires Inv(s) && RowsInv(t) && OnlyCloses(s, t)
    requires t.creators == s.creators && t.holder == s.holder && t.ejectors == s.ejectors
    ensures Inv(t)
  {
    hide RowsInv;
  }

  lemma EjectorStepKeepsInv(s: State, step: Step)
    requires Inv(s) && (step.AskEject? || step.CheckEject? || step.OpenEject?)
    ensures Inv(Apply(s, step))
  {
  }

  lemma CreateKeepsInv(s: State, t: nat)
    requires Inv(s)
    ensures Inv(Apply(s, Create(t)))
  {
  }

  lemma CreatorStepKeepsInv(s: State, step: Step)
    requires Inv(s) && !ByWorker(step) && !step.AskEject? && !step.CheckEject? && !step.OpenEject? && !step.Create?
    ensures Inv(Apply(s, step))
  {
    hide InStep;
  }

  lemma StepKeepsInv(s: State, step: Step)
    requires Inv(s)
    ensures Inv(Apply(s, step))
  {
    if ByWorker(step) {
      WorkerStep(s, step);
      ClosingKeeps(s, Apply(s, step));
    } else if step.AskEject? || step.CheckEject? || step.OpenEject? {
      EjectorStepKeepsInv(s, step);
    } else if step.Create? {
      CreateKeepsInv(s, step.t);
    } else {
      CreatorStepKeepsInv(s, step);
    }
    hide Apply, LockInv, WindowInv, RowsInv, OnlyCloses, AtMostOneBackup;
  }

  /** In every state any interleaving can reach, at most one backup row is pending or running. */
  lemma {:induction false} OneBackupAtATime(steps: seq<Step>)
    ensures Inv(Run(INITIAL, steps)) && AtMostOneBackup(Run(INITIAL, steps))
  {
    if steps != [] {
      OneBackupAtATime(steps[..|steps| - 1]);
      StepKeepsInv(Run(INITIAL, steps[..|steps| - 1]), steps[|steps| - 1]);
      hide Apply;
    }
  }

  // ----- the check outside the lock -----

  /** A caller passes the check outside the lock exactly if no row is active just then, whoever else is on the way. */
  lemma PassesPrecheckIff(s: State, step: Step, t: nat)
    requires t < |s.creators| && !s.creators[t].pc.Prechecked?
    ensures Apply(s, step).creators[t].pc.Prechecked? <==>
              s.creators[t].pc.Starting? && (step == SkipPrecheck(t) || (step == Precheck(t) && !AnyActive(s.rows)))
  {
  }

  /** So a caller that passed it is refused later exactly if a row is active when it queries again under the lock. */
  lemma LockedQueryDecides(s: State, step: Step, t: nat)
    requires At(s, t, Locked)
    ensures var pc := Apply(s, step).creators[t].pc;
            && (pc.Queried? <==> step == Query(t) && !AnyActive(s.rows))
            && (pc.Returned? <==> step == Query(t) && AnyActive(s.rows))
  {
  }

  /** Rows are never removed and keep their kind. */
  lemma {:induction false} RowsStay(s: State, steps: seq<Step>)
    requires |s.rows| == |s.workers|
    ensures var t := Run(s, steps);
            |t.rows| == |t.workers| && SameKinds(s, t)
  {
    if steps != [] {
      RowsStay(s, steps[..|steps| - 1]);
      StepKeepsRows(Run(s, steps[..|steps| - 1]), steps[|steps| - 1]);
      hide Apply;
    }
  }

  ghost predicate SameKinds(s: State, t: State) {
    |s.rows| <= |t.rows| && forall r :: 0 <= r < |s.rows| ==> t.rows[r].kind == s.rows[r].kind
  }

  lemma StepKeepsRows(s: State, step: Step)
    requires |s.rows| == |s.workers|
    ensures |Apply(s, step).rows| == |Apply(s, step).workers| && SameKinds(s, Apply(s, step))
  {
    hide AnyActive, ActiveOn;
  }

  lemma {:induction false} RunOn(s: State, a: seq<Step>, b: seq<Step>)
    ensures Run(s, a + b) == Run(Run(s, a), b)
  {
    hide Apply;
    if b == [] {
      assert a + b == a;
    } else {
      RunOn(s, a, b[..|b| - 1]);
      assert (a + b)[..|a + b| - 1] == a + b[..|b| - 1];
    }
  }

  /**
   Over every run, however many callers have passed the check outside the lock: when one of them is about to
   insert its row, every backup row inserted before it, by any of the others, is closed.
   */
  lemma CreationsAlternate(steps: seq<Step>, i: nat, j: nat)
    requires i < j < |steps| && steps[i].Create? && steps[j].Create?
    requires AboutToCreate(Run(INITIAL, steps[..i]), steps[i].t) && AboutToCreate(Run(INITIAL, steps[..j]), steps[j].t)
    ensures var first, second := Run(INITIAL, steps[..i]), Run(INITIAL, steps[..j]);
            && |first.rows| < |second.rows|
            && second.rows[|first.rows|].kind.Backup? && !second.rows[|first.rows|].Active()
  {
    var first, created := Run(INITIAL, steps[..i]), Run(INITIAL, steps[..i + 1]);
    assert steps[..i + 1][..i] == steps[..i];
    assert created == Apply(first, steps[i]);
    OneBackupAtATime(steps[..i + 1]);
    OneBackupAtATime(steps[..j]);
    assert steps[..i + 1] + steps[i + 1..j] == steps[..j];
    RunOn(INITIAL, steps[..i + 1], steps[i + 1..j]);
    hide Run;
    RowsStay(created, steps[i + 1..j]);
  }

  lemma RunMore(s: State, steps: seq<Step>, step: Step)
    ensures Run(s, steps + [step]) == Apply(Run(s, steps), step)
  {
    assert (steps + [step])[..|steps|] == steps;
  }

  /** Two callers for one disk can both pass the check made outside the lock. */
  lemma PrecheckAlonePassesTwo()
    ensures var s := Run(INITIAL, [Arrive(1)] + [Arrive(1)] + [Precheck(0)] + [Precheck(1)]);
            At(s, 0, Prechecked) && At(s, 1, Prechecked)
  {
    assert [] + [Arrive(1)] == [Arrive(1)];
    RunMore(INITIAL, [], Arrive(1));
    RunMore(INITIAL, [Arrive(1)], Arrive(1));
    RunMore(INITIAL, [Arrive(1)] + [Arrive(1)], Precheck(0));
    RunMore(INITIAL, [Arrive(1)] + [Arrive(1)] + [Precheck(0)], Precheck(1));
    hide Run;
  }

  // ----- ejects and backups together -----

  ghost predicate ActiveRow(s: State, r: nat, kind: Kind, disk: int) {
    r < |s.rows| && s.rows[r].kind == kind && s.rows[r].disk == disk && s.rows[r].Active()
  }

  /** A backup and an eject are active together, on these disks. */
  ghost predicate Overlap(s: State, backupDisk: int, ejectDisk: int) {
    exists b, e :: ActiveRow(s, b, Backup, backupDisk) && ActiveRow(s, e, Eject, ejectDisk)
  }

  /** The step inserts the second of the two rows. */
  ghost predicate StartsOverlap(s: State, step: Step, backupDisk: int, ejectDisk: int) {
    || (step.Create? && AboutToCreate(s, step.t) && s.creators[step.t].disk == backupDisk
        && exists e :: ActiveRow(s, e, Eject, ejectDisk))
    || (step.OpenEject? && AboutToOpen(s, step.e) && s.ejectors[step.e].disk == ejectDisk
        && exists b :: ActiveRow(s, b, Backup, backupDisk))
  }

  lemma StartMakesOverlap(s: State, step: Step, backupDisk: int, ejectDisk: int)
    requires StartsOverlap(s, step, backupDisk, ejectDisk)
    ensures Overlap(Apply(s, step), backupDisk, ejectDisk)
  {
    var t := Apply(s, step);
    assert t.rows[..|s.rows|] == s.rows;
    if step.Create? {
      var e: nat :| ActiveRow(s, e, Eject, ejectDisk);
      assert ActiveRow(t, |s.rows|, Backup, backupDisk) && ActiveRow(t, e, Eject, ejectDisk);
    } else {
      var b: nat :| ActiveRow(s, b, Backup, backupDisk);
      assert ActiveRow(t, b, Backup, backupDisk) && ActiveRow(t, |s.rows|, Eject, ejectDisk);
    }
  }

  /** A row active after a step was active before it, or was just inserted. */
  lemma ActiveWas(s: State, step: Step, r: nat, kind: Kind, disk: int)
    requires RowsInv(s) && ActiveRow(Apply(s, step), r, kind, disk)
    ensures || ActiveRow(s, r, kind, disk)
            || (r == |s.rows| && kind.Backup? && step.Create?
                && AboutToCreate(s, step.t) && s.creators[step.t].disk == disk)
            || (r == |s.rows| && kind.Eject? && step.OpenEject?
                && AboutToOpen(s, step.e) && s.ejectors[step.e].disk == disk)
  {
    if ByWorker(step) {
      WorkerStep(s, step);
      hide Apply, RowsInv;
    }
  }

  /** An overlap begins exactly with the step that inserts the second row while the first is active. */
  lemma OverlapBeginsIff(s: State, step: Step, backupDisk: int, ejectDisk: int)
    requires Inv(s) && !Overlap(s, backupDisk, ejectDisk)
    ensures Overlap(Apply(s, step), backupDisk, ejectDisk) <==> StartsOverlap(s, step, backupDisk, ejectDisk)
  {
    var t := Apply(s, step);
    if StartsOverlap(s, step, backupDisk, ejectDisk) {
      StartMakesOverlap(s, step, backupDisk, ejectDisk);
    } else if Overlap(t, backupDisk, ejectDisk) {
      var b: nat, e: nat :| ActiveRow(t, b, Backup, backupDisk) && ActiveRow(t, e, Eject, ejectDisk);
      ActiveWas(s, step, b, Backup, backupDisk);
      ActiveWas(s, step, e, Eject, ejectDisk);
    }
    hide Apply, Inv, ActiveRow;
  }

  ghost predicate EverOverlaps(steps: seq<Step>, backupDisk: int, ejectDisk: int) {
    exists k :: 0 <= k <= |steps| && Overlap(Run(INITIAL, steps[..k]), backupDisk, ejectDisk)
  }

  ghost predicate EverStarts(steps: seq<Step>, backupDisk: int, ejectDisk: int) {
    exists i :: 0 <= i < |steps| && StartsOverlap(Run(INITIAL, steps[..i]), steps[i], backupDisk, ejectDisk)
  }

  lemma EverOverlapsLast(before: seq<Step>, last: Step, backupDisk: int, ejectDisk: int)
    ensures EverOverlaps(before + [last], backupDisk, ejectDisk) <==>
              || EverOverlaps(before, backupDisk, ejectDisk)
              || Overlap(Run(INITIAL, before + [last]), backupDisk, ejectDisk)
  {
    var steps := before + [last];
    hide Run, Overlap;
    assert steps[..|steps|] == steps;
    forall k | 0 <= k <= |before| ensures steps[..k] == before[..k] {
    }
    if EverOverlaps(before, backupDisk, ejectDisk) {
      var k :| 0 <= k <= |before| && Overlap(Run(INITIAL, before[..k]), backupDisk, ejectDisk);
      assert Overlap(Run(INITIAL, steps[..k]), backupDisk, ejectDisk);
    }
    if EverOverlaps(steps, backupDisk, ejectDisk) {
      var k :| 0 <= k <= |steps| && Overlap(Run(INITIAL, steps[..k]), backupDisk, ejectDisk);
      assert k <= |before| ==> Overlap(Run(INITIAL, before[..k]), backupDisk, ejectDisk);
    }
  }

  lemma EverStartsLast(before: seq<Step>, last: Step, backupDisk: int, ejectDisk: int)
    ensures EverStarts(before + [last], backupDisk, ejectDisk) <==>
              || EverStarts(before, backupDisk, ejectDisk)
              || StartsOverlap(Run(INITIAL, before), last, backupDisk, ejectDisk)
  {
    var steps, n := before + [last], |before|;
    hide Run, StartsOverlap;
    assert steps[..n] == before && steps[n] == last;
    forall i | 0 <= i < n ensures steps[..i] == before[..i] {
    }
    if EverStarts(before, backupDisk, ejectDisk) {
      var i :| 0 <= i < n && StartsOverlap(Run(INITIAL, before[..i]), before[i], backupDisk, ejectDisk);
      assert StartsOverlap(Run(INITIAL, steps[..i]), steps[i], backupDisk, ejectDisk);
    }
    if StartsOverlap(Run(INITIAL, before), last, backupDisk, ejectDisk) {
      assert StartsOverlap(Run(INITIAL, steps[..n]), steps[n], backupDisk, ejectDisk);
    }
    if EverStarts(steps, backupDisk, ejectDisk) {
      var i :| 0 <= i < |steps| && StartsOverlap(Run(INITIAL, steps[..i]), steps[i], backupDisk, ejectDisk);
      assert i < n ==> StartsOverlap(Run(INITIAL, before[..i]), before[i], backupDisk, ejectDisk);
    }
  }

  /**
   Over a whole run a backup of one disk and an eject of another, or the same, overlap exactly if some step
   starts it.
   */
  lemma {:induction false} OverlapsIffStarted(steps: seq<Step>, backupDisk: int, ejectDisk: int)
    ensures EverOverlaps(steps, backupDisk, ejectDisk) <==> EverStarts(steps, backupDisk, ejectDisk)
  {
    if steps == [] {
      assert steps[..0] == [];
    } else {
      var before, last := steps[..|steps| - 1], steps[|steps| - 1];
      OverlapsIffStarted(before, backupDisk, ejectDisk);
      OneBackupAtATime(before);
      assert steps == before + [last];
      EverOverlapsLast(before, last, backupDisk, ejectDisk);
      EverStartsLast(before, last, backupDisk, ejectDisk);
      var s := Run(INITIAL, before);
      assert Run(INITIAL, steps) == Apply(s, last);
      hide Apply, Inv, Overlap, StartsOverlap, EverStarts;
      if StartsOverlap(s, last, backupDisk, ejectDisk) {
        StartMakesOverlap(s, last, backupDisk, ejectDisk);
      } else if !Overlap(s, backupDisk, ejectDisk) {
        OverlapBeginsIff(s, last, backupDisk, ejectDisk);
      } else {
        assert before[..|before|] == before;
      }
    }
  }

  /** The number of rows when the inserting caller made its own check. */
  function CheckedAt(s: State, step: Step): nat
    requires (step.Create? && AboutToCreate(s, step.t)) || (step.OpenEject? && AboutToOpen(s, step.e))
  {
    if step.Create? then s.creators[step.t].pc.since else s.ejectors[step.e].pc.since
  }

  /**
   The row a backup runs into was always inserted after the backup's own query, and so was the row that an
   eject of the same disk runs into: a same-disk overlap needs an insertion between a check and its insertion.
   */
  lemma OverlapNeedsAWindow(s: State, step: Step, backupDisk: int, ejectDisk: int, r: nat)
    requires Inv(s) && StartsOverlap(s, step, backupDisk, ejectDisk)
    requires if step.Create? then ActiveRow(s, r, Eject, ejectDisk) else ActiveRow(s, r, Backup, backupDisk)
    ensures step.Create? || backupDisk == ejectDisk ==> CheckedAt(s, step) <= r
  {
    hide LockInv, RowsInv;
  }

  /** Every insertion of the run comes with nothing inserted since its caller's check. */
  ghost predicate Prompt(steps: seq<Step>) {
    forall i :: 0 <= i < |steps| ==> PromptStep(Run(INITIAL, steps[..i]), steps[i])
  }

  predicate PromptStep(s: State, step: Step) {
    (step.Create? && AboutToCreate(s, step.t)) || (step.OpenEject? && AboutToOpen(s, step.e)) ==>
      CheckedAt(s, step) == |s.rows|
  }

  /** Without such a window no disk is ever backed up and ejected at once. */
  lemma PromptRunsNeverOverlap(steps: seq<Step>, disk: int)
    requires Prompt(steps)
    ensures !EverOverlaps(steps, disk, disk)
  {
    OverlapsIffStarted(steps, disk, disk);
    if EverStarts(steps, disk, disk) {
      var i :| 0 <= i < |steps| && StartsOverlap(Run(INITIAL, steps[..i]), steps[i], disk, disk);
      OneBackupAtATime(steps[..i]);
      PromptStartsNothing(Run(INITIAL, steps[..i]), steps[i], disk);
    }
    hide *;
  }

  lemma PromptStartsNothing(s: State, step: Step, disk: int)
    requires Inv(s) && PromptStep(s, step)
    ensures !StartsOverlap(s, step, disk, disk)
  {
    if StartsOverlap(s, step, disk, disk) {
      var r: nat :| if step.Create? then ActiveRow(s, r, Eject, disk) else ActiveRow(s, r, Backup, disk);
      OverlapNeedsAWindow(s, step, disk, disk, r);
      hide Inv, StartsOverlap;
    }
  }

  /** A caller for disk 1 that has passed every check and is about to insert its row. */
  lemma PastTheChecks()
    ensures Run(INITIAL, [Arrive(1)] + [SkipPrecheck(0)] + [Acquire(0)] + [Query(0)] + [Inspect(0, true)])
         == State([Creator(1, Inspected(0))], Some(0), [], [], [])
  {
    assert [] + [Arrive(1)] == [Arrive(1)];
    RunMore(INITIAL, [], Arrive(1));
    RunMore(INITIAL, [Arrive(1)], SkipPrecheck(0));
    RunMore(INITIAL, [Arrive(1)] + [SkipPrecheck(0)], Acquire(0));
    RunMore(INITIAL, [Arrive(1)] + [SkipPrecheck(0)] + [Acquire(0)], Query(0));
    RunMore(INITIAL, [Arrive(1)] + [SkipPrecheck(0)] + [Acquire(0)] + [Query(0)], Inspect(0, true));
    hide Run;
  }

  function Checks(): seq<Step> {
    [Arrive(1)] + [SkipPrecheck(0)] + [Acquire(0)] + [Query(0)] + [Inspect(0, true)]
  }

  /** In the window an eject of the same disk slips in: both rows are active. */
  lemma EjectOverlapsBackup()
    ensures var s := Run(INITIAL, Checks() + [AskEject(1)] + [CheckEject(0)] + [OpenEject(0)] + [Create(0)]);
            s.rows == [Row(Eject, 1, Running), Row(Backup, 1, Pending)] && Overlap(s, 1, 1)
  {
    PastTheChecks();
    RunMore(INITIAL, Checks(), AskEject(1));
    RunMore(INITIAL, Checks() + [AskEject(1)], CheckEject(0));
    RunMore(INITIAL, Checks() + [AskEject(1)] + [CheckEject(0)], OpenEject(0));
    RunMore(INITIAL, Checks() + [AskEject(1)] + [CheckEject(0)] + [OpenEject(0)], Create(0));
    hide Run;
    var s := Run(INITIAL, Checks() + [AskEject(1)] + [CheckEject(0)] + [OpenEject(0)] + [Create(0)]);
    assert s.rows == [Row(Eject, 1, Running), Row(Backup, 1, Pending)];
    assert ActiveRow(s, 1, Backup, 1) && ActiveRow(s, 0, Eject, 1);
  }

  /** An eject of another disk needs no window: its check does not look at the backup at all. */
  lemma OtherDiskOverlaps()
    ensures var s := Run(INITIAL, Checks() + [Create(0)] + [AskEject(2)] + [CheckEject(0)] + [OpenEject(0)]);
            s.rows == [Row(Backup, 1, Pending), Row(Eject, 2, Running)] && Overlap(s, 1, 2)
  {
    PastTheChecks();
    RunMore(INITIAL, Checks(), Create(0));
    RunMore(INITIAL, Checks() + [Create(0)], AskEject(2));
    RunMore(INITIAL, Checks() + [Create(0)] + [AskEject(2)], CheckEject(0));
    RunMore(INITIAL, Checks() + [Create(0)] + [AskEject(2)] + [CheckEject(0)], OpenEject(0));
    hide Run;
    var s := Run(INITIAL, Checks() + [Create(0)] + [AskEject(2)] + [CheckEject(0)] + [OpenEject(0)]);
    assert s.rows == [Row(Backup, 1, Pending), Row(Eject, 2, Running)];
    assert ActiveRow(s, 0, Backup, 1) && ActiveRow(s, 1, Eject, 2);
  }

  // ----- an eject that dies with its row open -----

  function BackupCount(rows: seq<Row>): nat {
    if rows == [] then 0
    else BackupCount(rows[..|rows| - 1]) + (if rows[|rows| - 1].kind.Backup? then 1 else 0)
  }

  lemma {:induction false} SameKindsSameCount(a: seq<Row>, b: seq<Row>)
    requires |a| == |b| && forall i :: 0 <= i < |a| ==> a[i].kind == b[i].kind
    ensures BackupCount(a) == BackupCount(b)
  {
    if a != [] {
      SameKindsSameCount(a[..|a| - 1], b[..|b| - 1]);
    }
  }

  ghost predicate StuckEject(s: State, r: nat) {
    r < |s.rows| && r < |s.workers| && s.rows[r].kind.Eject? && s.rows[r].status.Running? && s.workers[r].Crashed?
  }

  /** The lock holder, if its query has already passed, can still insert one row. */
  predicate OneOnTheWay(s: State) {
    s.holder.Some? && s.holder.value < |s.creators| && PastQuery(s.creators[s.holder.value].pc)
  }

  function Credit(s: State): nat {
    BackupCount(s.rows) + (if OneOnTheWay(s) then 1 else 0)
  }

  lemma StuckStays(s: State, step: Step, r: nat)
    requires |s.rows| == |s.workers| && StuckEject(s, r)
    ensures StuckEject(Apply(s, step), r)
  {
    hide AnyActive, ActiveOn;
  }

  /** Rows only change their status or come at the end. */
  lemma KindsStay(s: State, step: Step)
    requires !AboutToCreateBy(s, step)
    ensures BackupCount(Apply(s, step).rows) == BackupCount(s.rows)
  {
    var q := Apply(s, step);
    if |q.rows| == |s.rows| {
      SameKindsSameCount(s.rows, q.rows);
    } else {
      assert q.rows[..|q.rows| - 1] == s.rows;
    }
    hide AnyActive, ActiveOn;
  }

  predicate AboutToCreateBy(s: State, step: Step) {
    step.Create? && AboutToCreate(s, step.t)
  }

  lemma CreditFalls(s: State, step: Step, r: nat)
    requires LockInv(s) && StuckEject(s, r)
    ensures Credit(Apply(s, step)) <= Credit(s)
  {
    assert AnyActive(s.rows) by { assert s.rows[r].Active(); }
    if AboutToCreateBy(s, step) {
      assert Apply(s, step).rows[..|s.rows|] == s.rows;
    } else {
      KindsStay(s, step);
    }
    hide BackupCount, AnyActive, ActiveOn;
  }

  /** An eject that dies without closing its row blocks every later backup but one whose query had already passed. */
  lemma {:induction false} StuckEjectBlocksBackups(s: State, steps: seq<Step>, r: nat)
    requires Inv(s) && StuckEject(s, r)
    ensures var q := Run(s, steps);
            && Inv(q) && StuckEject(q, r)
            && BackupCount(q.rows) <= BackupCount(s.rows) + (if OneOnTheWay(s) then 1 else 0)
            && Credit(q) <= Credit(s)
  {
    if steps != [] {
      StuckEjectBlocksBackups(s, steps[..|steps| - 1], r);
      StuckStays(Run(s, steps[..|steps| - 1]), steps[|steps| - 1], r);
      CreditFalls(Run(s, steps[..|steps| - 1]), steps[|steps| - 1], r);
      StepKeepsInv(Run(s, steps[..|steps| - 1]), steps[|steps| - 1]);
      hide Apply, Inv, StuckEject, OneOnTheWay;
    }
  }
}
