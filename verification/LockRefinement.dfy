/**
 Why the engine may take the check and the insertion of a backup as one step: whatever the threads of `BackupLock`
 do, one operation at a time, the steps of `PlanningModel` leave the same export rows.
 */
module LockRefinement {
  import opened Wrappers
  import opened PlanningModel
  import opened PlanningTicks
  import Lock = BackupLock

  /** The rows made by `run_external_backup`, in order. */
  function Exports(rows: seq<Lock.Row>): seq<Lock.Row> {
    if rows == [] then []
    else Exports(rows[..|rows| - 1]) + (if rows[|rows| - 1].kind.Backup? then [rows[|rows| - 1]] else [])
  }

  /** How many of them come before row `r`. */
  function Rank(rows: seq<Lock.Row>, r: nat): nat
    requires r <= |rows|
  {
    |Exports(rows[..r])|
  }

  function StatusOf(status: Lock.Status): BackupStatus {
    match status
    case Pending => Queued
    case Running => InProgress
    case Success => Succeeded
    case Failed => BackupStatus.Failed
  }

  /** The row as the engine's table holds it, the clock standing still at 0. */
  function Entry(row: Lock.Row): Backup {
    Backup(Export, row.disk, StatusOf(row.status), if row.Active() then None else Some(0), false, NoStage)
  }

  /** The engine's table is that of the export rows, numbered in order. */
  ghost predicate Matches(rows: seq<Lock.Row>, m: State) {
    && m.nextBackup == |Exports(rows)|
    && (forall b: nat :: b in m.backups <==> b < |Exports(rows)|)
    && forall b :: b in m.backups ==> m.backups[b] == Entry(Exports(rows)[b])
  }

  lemma {:induction false} RankOfRow(rows: seq<Lock.Row>, r: nat)
    requires r < |rows| && rows[r].kind.Backup?
    ensures Rank(rows, r) < |Exports(rows)| && Exports(rows)[Rank(rows, r)] == rows[r]
  {
    var before := rows[..|rows| - 1];
    if r < |before| {
      RankOfRow(before, r);
      assert before[..r] == rows[..r];
    } else {
      assert rows[..r] == before;
    }
  }

  lemma {:induction false} ExportChanged(rows: seq<Lock.Row>, r: nat, row: Lock.Row)
    requires r < |rows| && row.kind == rows[r].kind && row.kind.Backup?
    ensures Rank(rows, r) < |Exports(rows)| && Exports(rows[r := row]) == Exports(rows)[Rank(rows, r) := row]
  {
    RankOfRow(rows, r);
    var before := rows[..|rows| - 1];
    if r < |before| {
      ExportChanged(before, r, row);
      assert before[..r] == rows[..r];
      assert rows[r := row][..|rows| - 1] == before[r := row];
    } else {
      assert rows[r := row][..|rows| - 1] == before == rows[..r];
    }
  }

  lemma {:induction false} EjectChanged(rows: seq<Lock.Row>, r: nat, row: Lock.Row)
    requires r < |rows| && row.kind == rows[r].kind && row.kind.Eject?
    ensures Exports(rows[r := row]) == Exports(rows)
  {
    var before := rows[..|rows| - 1];
    if r < |before| {
      EjectChanged(before, r, row);
      assert rows[r := row][..|rows| - 1] == before[r := row];
    } else {
      assert rows[r := row][..|rows| - 1] == before;
    }
  }

  lemma RowAdded(rows: seq<Lock.Row>, row: Lock.Row)
    ensures Exports(rows + [row]) == Exports(rows) + (if row.kind.Backup? then [row] else [])
  {
    assert (rows + [row])[..|rows|] == rows;
  }

  lemma {:induction false} ExportsAreRows(rows: seq<Lock.Row>)
    ensures forall row :: row in Exports(rows) ==> row.kind.Backup? && row in rows
  {
    if rows != [] {
      ExportsAreRows(rows[..|rows| - 1]);
    }
  }

  /** A disk the agent's and the API's checks accept. */
  function Usable(id: int): Disk {
    Disk(id, "S", None, None, [], true, true, true, true, false, false, true, None, None, None, None, false)
  }

  /** The engine's steps for a step of the threads: one for an insertion, a start or an end of a backup, none else. */
  function Engine(s: Lock.State, step: Lock.Step): seq<Op> {
    match step
    case Create(t) =>
      if Lock.AboutToCreate(s, t) then [DisksOp([Usable(s.creators[t].disk)], 0), BackupOp(0, 0, Idle, false)] else []
    case DiskGone(r) =>
      if Lock.Doing(s, r, Lock.Kind.Backup, Lock.Loaded) then [DisksOp([], 0), BeginOp(Rank(s.rows, r), 0)] else []
    case Begin(r) =>
      if Lock.Doing(s, r, Lock.Kind.Backup, Lock.Loaded)
      then [DisksOp([Usable(s.rows[r].disk)], 0), BeginOp(Rank(s.rows, r), 0)] else []
    case End(r, ok) =>
      if Lock.Doing(s, r, Lock.Kind.Backup, Lock.Working)
      then [EndOp(Rank(s.rows, r), 0, if ok then Exported(None) else ExportRaised)] else []
    case _ => []
  }

  lemma EngineCreates(m: State, id: int)
    requires !AnyActive(m)
    ensures var t := RunOps(m, [DisksOp([Usable(id)], 0), BackupOp(0, 0, Idle, false)]);
            && t.nextBackup == m.nextBackup + 1
            && t.backups == m.backups[m.nextBackup := Backup(Export, id, Queued, None, false, NoStage)]
  {
    TwoOps(m, DisksOp([Usable(id)], 0), BackupOp(0, 0, Idle, false));
    hide RunOps;
    var found := m.(disks := [Usable(id)]);
    assert Apply(m, DisksOp([Usable(id)], 0)) == found;
    assert !AnyActive(found);
    hide AnyActive;
  }

  /** The insertion under the lock is the engine's check and insertion in one. */
  lemma CreationRefines(s: Lock.State, t: nat, m: State)
    requires Lock.Inv(s) && Lock.AboutToCreate(s, t) && Matches(s.rows, m)
    ensures Matches(Lock.Apply(s, Lock.Create(t)).rows, RunOps(m, Engine(s, Lock.Create(t))))
  {
    var row := Lock.Row.Row(Lock.Kind.Backup, s.creators[t].disk, Lock.Pending);
    RowAdded(s.rows, row);
    NothingActive(s, t, m);
    EngineCreates(m, row.disk);
    assert Lock.Apply(s, Lock.Create(t)).rows == s.rows + [row];
    assert Engine(s, Lock.Create(t)) == [DisksOp([Usable(row.disk)], 0), BackupOp(0, 0, Idle, false)];
    hide RunOps, Exports, Lock.Inv, Lock.Apply, Engine, AnyActive, Usable;
  }

  lemma NothingActive(s: Lock.State, t: nat, m: State)
    requires Lock.Inv(s) && Lock.AboutToCreate(s, t) && Matches(s.rows, m)
    ensures !AnyActive(m)
  {
    ExportsAreRows(s.rows);
    hide Exports;
    forall b | b in m.backups ensures !m.backups[b].Active() {
      var row := Exports(s.rows)[b];
      assert row in s.rows;
      var r :| 0 <= r < |s.rows| && s.rows[r] == row;
      assert !row.Active();
    }
  }

  /** The row of an execution, and what the engine's step makes of it. */
  lemma ExecutionRefines(s: Lock.State, step: Lock.Step, m: State)
    requires Lock.RowsInv(s) && Matches(s.rows, m) && (step.DiskGone? || step.Begin? || step.End?)
    ensures Matches(Lock.Apply(s, step).rows, RunOps(m, Engine(s, step)))
  {
    if Engine(s, step) == [] {
      assert Lock.Apply(s, step) == s;
    } else {
      RankOfRow(s.rows, step.r);
      var rows := Lock.Apply(s, step).rows;
      assert Lock.InStep(s.rows[step.r], s.workers[step.r]);
      assert rows == s.rows[step.r := rows[step.r]];
      ExportChanged(s.rows, step.r, rows[step.r]);
      ExecutionStep(s, step, m);
      hide RunOps, Exports, Engine, Lock.Apply;
    }
  }

  /** The engine picks the row up without its disk, or with it, or closes it. */
  lemma EngineExecutes(m: State, b: nat, row: Lock.Row, ok: bool)
    requires b in m.backups && m.backups[b] == Entry(row)
    ensures row.status.Pending? ==>
              SetTo(m, RunOps(m, [DisksOp([], 0), BeginOp(b, 0)]), b, row.(status := Lock.Status.Failed))
    ensures row.status.Pending? ==>
              SetTo(m, RunOps(m, [DisksOp([Usable(row.disk)], 0), BeginOp(b, 0)]), b, row.(status := Lock.Running))
    ensures row.status.Running? ==>
              SetTo(m, RunOps(m, [EndOp(b, 0, if ok then Exported(None) else ExportRaised)]), b,
                    row.(status := Lock.Outcome(ok)))
  {
    EngineLosesDisk(m, b, row);
    EngineBegins(m, b, row);
    EngineEnds(m, b, row, ok);
    hide *;
  }

  predicate SetTo(m: State, n: State, b: nat, row: Lock.Row) {
    n.nextBackup == m.nextBackup && n.backups == m.backups[b := Entry(row)]
  }

  lemma EngineLosesDisk(m: State, b: nat, row: Lock.Row)
    requires b in m.backups && m.backups[b] == Entry(row)
    ensures row.status.Pending? ==>
              SetTo(m, RunOps(m, [DisksOp([], 0), BeginOp(b, 0)]), b, row.(status := Lock.Status.Failed))
  {
    TwoOps(m, DisksOp([], 0), BeginOp(b, 0));
    hide RunOps;
  }

  lemma EngineBegins(m: State, b: nat, row: Lock.Row)
    requires b in m.backups && m.backups[b] == Entry(row)
    ensures row.status.Pending? ==>
              SetTo(m, RunOps(m, [DisksOp([Usable(row.disk)], 0), BeginOp(b, 0)]), b, row.(status := Lock.Running))
  {
    TwoOps(m, DisksOp([Usable(row.disk)], 0), BeginOp(b, 0));
    hide RunOps;
    assert DiskById([Usable(row.disk)], row.disk) == Some(0);
    hide DiskById;
  }

  lemma EngineEnds(m: State, b: nat, row: Lock.Row, ok: bool)
    requires b in m.backups && m.backups[b] == Entry(row)
    ensures row.status.Running? ==>
              SetTo(m, RunOps(m, [EndOp(b, 0, if ok then Exported(None) else ExportRaised)]), b,
                    row.(status := Lock.Outcome(ok)))
  {
    var end := EndOp(b, 0, if ok then Exported(None) else ExportRaised);
    RunOpsLast(m, [], end);
    assert [] + [end] == [end];
    assert Apply(RunOps(m, []), end) == Apply(m, end);
    hide RunOps, DiskById;
  }

  lemma ExecutionStep(s: Lock.State, step: Lock.Step, m: State)
    requires Lock.RowsInv(s) && (step.DiskGone? || step.Begin? || step.End?) && Engine(s, step) != []
    requires var b := Rank(s.rows, step.r); b in m.backups && m.backups[b] == Entry(s.rows[step.r])
    ensures SetTo(m, RunOps(m, Engine(s, step)), Rank(s.rows, step.r), Lock.Apply(s, step).rows[step.r])
  {
    assert Lock.InStep(s.rows[step.r], s.workers[step.r]);
    EngineExecutes(m, Rank(s.rows, step.r), s.rows[step.r], if step.End? then step.ok else false);
    hide RunOps, Rank, Usable, Entry, SetTo;
  }

  /** A step of the threads, taken as the engine's steps, leaves the same export rows. */
  lemma StepRefines(s: Lock.State, step: Lock.Step, m: State)
    requires Lock.Inv(s) && Matches(s.rows, m)
    ensures Matches(Lock.Apply(s, step).rows, RunOps(m, Engine(s, step)))
  {
    if step.Create? {
      if Lock.AboutToCreate(s, step.t) { CreationRefines(s, step.t, m); }
    } else if step.DiskGone? || step.Begin? || step.End? {
      ExecutionRefines(s, step, m);
    } else {
      ExportsKept(s, step);
    }
    hide Exports, Lock.Inv;
  }

  lemma ExportsKept(s: Lock.State, step: Lock.Step)
    requires |s.rows| == |s.workers| && !step.Create? && !step.DiskGone? && !step.Begin? && !step.End?
    ensures Exports(Lock.Apply(s, step).rows) == Exports(s.rows)
  {
    var rows := Lock.Apply(s, step).rows;
    if step.OpenEject? && Lock.AboutToOpen(s, step.e) {
      RowAdded(s.rows, rows[|s.rows|]);
    } else if step.CloseEject? && Lock.Doing(s, step.r, Lock.Kind.Eject, Lock.Working) {
      EjectChanged(s.rows, step.r, rows[step.r]);
    }
    hide Exports, Lock.AnyActive, Lock.ActiveOn;
  }

  /** The engine's steps for a whole run. */
  function EngineRun(steps: seq<Lock.Step>): seq<Op> {
    if steps == [] then []
    else
      var before := steps[..|steps| - 1];
      EngineRun(before) + Engine(Lock.Run(Lock.INITIAL, before), steps[|steps| - 1])
  }

  /**
   For every interleaving of the threads the engine has a run, which checks and inserts each backup in one step, with
   exactly the same export rows.
   */
  lemma {:induction false} LockRefinesEngine(steps: seq<Lock.Step>)
    ensures Matches(Lock.Run(Lock.INITIAL, steps).rows, RunOps(Initial(false), EngineRun(steps)))
  {
    if steps != [] {
      var before, last := steps[..|steps| - 1], steps[|steps| - 1];
      var s := Lock.Run(Lock.INITIAL, before);
      LockRefinesEngine(before);
      Lock.OneBackupAtATime(before);
      StepRefines(s, last, RunOps(Initial(false), EngineRun(before)));
      RunOpsAppend(Initial(false), EngineRun(before), Engine(s, last));
      hide Apply, Engine, Lock.Apply, Matches;
    }
  }
}
