/**
 External backup rows over time: only the thread that owns an open row writes it, and closed rows stay as they
 are.
 */
module PlanningRows {
  import opened Wrappers
  import opened PlanningModel

  /** At most one row is added, an export under the next number. */
  predicate OnlyAdds(s: State, t: State) {
    || (t.backups == s.backups && t.nextBackup == s.nextBackup)
    || (t.nextBackup == s.nextBackup + 1 && s.nextBackup in t.backups && t.backups[s.nextBackup].kind.Export?
        && t.backups == s.backups[s.nextBackup := t.backups[s.nextBackup]])
  }

  lemma StartOnlyAdds(s: State, r: nat, now: int, agent: AgentReply, announce: bool)
    requires Known(s, r)
    ensures OnlyAdds(s, StartRun(s, r, now, agent, announce))
  {
    hide StartOf, BackupResult, Launch, Refuse, SetStatus;
  }

  lemma AdvanceOnlyAdds(s: State, r: nat, now: int, agent: AgentReply)
    requires Known(s, r)
    ensures OnlyAdds(s, Advance(s, r, now, agent))
  {
    StartOnlyAdds(s, r, now, agent, true);
    hide StartRun, SetStatus;
  }

  predicate SameRows(s: State, t: State) {
    t.backups == s.backups && t.nextBackup == s.nextBackup
  }

  lemma AddsAfter(s: State, t: State, u: State)
    requires SameRows(s, t) && OnlyAdds(t, u)
    ensures OnlyAdds(s, u)
  {
  }

  lemma DecideOnlyAdds(s: State, r: nat, now: int, agent: AgentReply)
    requires Known(s, r)
    ensures OnlyAdds(s, Decide(s, r, now, agent))
  {
    var seen := SeeDisk(s, r, now);
    AdvanceOnlyAdds(seen, r, now, agent);
    AddsAfter(s, seen, Advance(seen, r, now, agent));
    SameAdds(s);
    hide Advance, PresentDisk, SeeDisk, MarkMissed, SetStatus;
  }

  lemma TurnOnlyAdds(s: State, r: nat, now: int, agent: AgentReply)
    ensures OnlyAdds(s, Turn(s, r, now, agent))
  {
    if Known(s, r) {
      var synced := SyncLinked(s, r, now);
      var reminded := Remind(synced, r, now);
      DecideOnlyAdds(reminded, r, now, agent);
      AddsAfter(s, reminded, Decide(reminded, r, now, agent));
    }
    hide OnlyAdds, SyncLinked, Decide, Remind;
  }

  lemma RequestsOnlyAdd(s: State, op: Op)
    requires op.DetectOp? || op.ConfirmOp? || op.CancelOp? || op.RunNowOp?
    ensures OnlyAdds(s, Apply(s, op))
  {
    hide StartRun, Advance, DiskMatches, OnlyAdds, SeeDisk;
    match op {
      case DetectOp(r, disk, now, agent) =>
        SameAdds(s);
        if Known(s, r) {
          AdvanceOnlyAdds(SeeDisk(s, r, now), r, now, agent);
          AddsAfter(s, SeeDisk(s, r, now), Advance(SeeDisk(s, r, now), r, now, agent));
        }
      case ConfirmOp(r, now, agent) =>
        SameAdds(s);
        if Known(s, r) {
          StartOnlyAdds(s, r, now, agent, false);
          AddsAfterCancel(s, r, now);
        }
      case RunNowOp(e, now, agent) =>
        SameAdds(s);
        if e < |s.events| {
          var t := s.(runs := s.runs + [NewRun(e, s.events[e], now)]);
          StartOnlyAdds(t, |s.runs|, now, agent, false);
          AddsAfter(s, t, StartRun(t, |s.runs|, now, agent, false));
        }
      case CancelOp(r, now) =>
        SameAdds(s);
        if r < |s.runs| { AddsAfterCancel(s, r, now); }
    }
  }

  lemma SameAdds(s: State)
    ensures OnlyAdds(s, s)
  {
  }

  lemma AddsAfterCancel(s: State, r: nat, now: int)
    requires r < |s.runs|
    ensures OnlyAdds(s, Put(s, r, s.runs[r].(status := Cancelled, finishedAt := Some(now))))
  {
  }

  predicate Planning(op: Op) {
    op.CreateOp? || op.CreateForDiskOp? || op.TurnOp? || op.DetectOp? || op.ConfirmOp? || op.CancelOp? || op.RunNowOp?
  }

  /** Whatever the scheduler does to runs, backup rows are only added. */
  lemma PlanningOnlyAdds(s: State, op: Op)
    requires Planning(op)
    ensures OnlyAdds(s, Apply(s, op))
  {
    match op {
      case TurnOp(r, now, agent) => TurnOnlyAdds(s, r, now, agent);
      case CreateOp(now) =>
      case CreateForDiskOp(disk, now) =>
      case _ => RequestsOnlyAdd(s, op);
    }
    hide Turn, DetectTurn, DueRuns;
  }

  /** A step of the thread that owns row `b`. */
  predicate Owns(op: Op, b: nat) {
    match op
    case BeginOp(c, _) => c == b
    case EndOp(c, _, _) => c == b
    case UnmountOp(c, _, _) => c == b
    case DetachOp(c, _, _, _) => c == b
    case FinishEjectOp(c, _) => c == b
    case _ => false
  }

  /** The row was there before if it is there now, and is unchanged if it was closed or the step is not its owner's. */
  ghost predicate RowKept(s: State, t: State, b: nat, owned: bool) {
    && b < t.nextBackup
    && (b in t.backups ==> b in s.backups)
    && (b in s.backups && (!s.backups[b].Active() || !owned) ==>
          && (b in t.backups ==> t.backups[b] == s.backups[b])
          && (s.backups[b].Active() ==> b in t.backups))
  }

  lemma RowFate(s: State, op: Op, b: nat)
    requires b < s.nextBackup
    ensures RowKept(s, Apply(s, op), b, Owns(op, b))
  {
    if Planning(op) {
      PlanningOnlyAdds(s, op);
      hide Apply, Owns;
    } else if op.OpenEjectOp? || op.UnmountOp? || op.DetachOp? || op.FinishEjectOp? {
      EjectRowFate(s, op, b);
      hide Apply, Owns;
    } else {
      BackupRowFate(s, op, b);
      hide Apply, Owns;
    }
  }

  lemma EjectRowFate(s: State, op: Op, b: nat)
    requires b < s.nextBackup && (op.OpenEjectOp? || op.UnmountOp? || op.DetachOp? || op.FinishEjectOp?)
    ensures RowKept(s, Apply(s, op), b, Owns(op, b))
  {
    hide CanEject, SlotGone, Released;
  }

  lemma BackupRowFate(s: State, op: Op, b: nat)
    requires b < s.nextBackup
    requires op.BackupOp? || op.BeginOp? || op.EndOp? || op.DeleteBackupOp? || op.DisksOp? || op.SaveEventOp?
    ensures RowKept(s, Apply(s, op), b, Owns(op, b))
  {
    hide AnyActive, DiskById, Prepared;
  }

  // ----- what an execution writes -----

  /** A disk with this id, the first if there are more. */
  predicate IsDisk(disks: seq<Disk>, id: int, i: nat) {
    i < |disks| && disks[i].id == id && forall j :: 0 <= j < i ==> disks[j].id != id
  }

  lemma DiskByIdIs(disks: seq<Disk>, id: int)
    ensures DiskById(disks, id).Some? ==> IsDisk(disks, id, DiskById(disks, id).value)
    ensures DiskById(disks, id).None? ==> forall i: nat :: !IsDisk(disks, id, i)
    ensures forall i: nat :: IsDisk(disks, id, i) ==> DiskById(disks, id) == Some(i)
  {
    forall i: nat | IsDisk(disks, id, i) ensures DiskById(disks, id) == Some(i) {
      assert disks[i].id == id;
    }
  }

  /** An export that is still pending or running is picked up if its disk is known, and closed as failed otherwise. */
  lemma BeginAnswer(s: State, b: nat, now: int)
    ensures BeginBackup(s, b, now) ==
            if b !in s.backups || !s.backups[b].kind.Export? || s.backups[b].status !in {Queued, InProgress} then s
            else if exists i: nat :: IsDisk(s.disks, s.backups[b].diskId, i)
            then s.(backups := s.backups[b := s.backups[b].(status := InProgress)])
            else s.(backups := s.backups[b := s.backups[b].(status := BackupStatus.Failed, finishedAt := Some(now))])
  {
    if b in s.backups {
      DiskByIdIs(s.disks, s.backups[b].diskId);
    }
    hide DiskById, IsDisk;
  }

  /**
   An execution closes its row, as succeeded only if everything went well; if the export itself went through and named
   a datastore, the disk is from now on prepared with it.
   */
  lemma EndAnswer(s: State, b: nat, now: int, exec: ExecReply)
    requires b in s.backups && s.backups[b].kind.Export? && s.backups[b].status.InProgress?
    ensures var t, row := EndBackup(s, b, now, exec), s.backups[b];
            && t == s.(backups := t.backups, disks := t.disks)
            && t.backups == s.backups[b := row.(status := if exec.Exported? then Succeeded else BackupStatus.Failed,
                                                finishedAt := Some(now))]
            && |t.disks| == |s.disks|
            && forall i :: 0 <= i < |s.disks| ==>
                 t.disks[i] == if IsDisk(s.disks, row.diskId, i) && !exec.ExportRaised? && exec.target.Some?
                               then s.disks[i].(datastoreName := exec.target, prepared := true) else s.disks[i]
  {
    DiskByIdIs(s.disks, s.backups[b].diskId);
    hide DiskById, IsDisk;
  }

  /**
   An eject follows an execution exactly if that succeeded, was asked to eject, and its disk is dedicated or prepared,
   by this very export or before.
   */
  lemma ExecutionEjects(s: State, b: nat, now: int, exec: ExecReply, eject: EjectReply)
    requires b in s.backups && s.backups[b].kind.Export? && s.backups[b].status.InProgress?
    ensures var t, row := EndBackup(s, b, now, exec), s.backups[b];
            if i: nat :| IsDisk(s.disks, row.diskId, i) && exec.Exported? && row.autoEject
                         && (s.disks[i].dedicated || s.disks[i].prepared || exec.target.Some?)
            then EndAndEject(s, b, now, exec, eject) == EjectDisk(t, i, now, eject)
            else EndAndEject(s, b, now, exec, eject) == t
  {
    DiskByIdIs(s.disks, s.backups[b].diskId);
    hide DiskById, IsDisk, EjectDisk, EndBackup;
  }

  /** Steps none of which is a step of the row's owner. */
  ghost predicate Unowned(ops: seq<Op>, b: nat) {
    forall i :: 0 <= i < |ops| ==> !Owns(ops[i], b)
  }

  /** An open row is untouched by everything but its owner, however long that takes. */
  lemma {:induction false} OpenRowWaits(s: State, ops: seq<Op>, b: nat)
    requires b < s.nextBackup && b in s.backups && s.backups[b].Active() && Unowned(ops, b)
    ensures var t := RunOps(s, ops); b < t.nextBackup && b in t.backups && t.backups[b] == s.backups[b]
  {
    if ops != [] {
      OpenRowWaits(s, ops[..|ops| - 1], b);
      RowFate(RunOps(s, ops[..|ops| - 1]), ops[|ops| - 1], b);
      hide Apply, Owns;
    }
  }

  /** A closed row stays as it is until it is deleted, and its number is never used again. */
  lemma {:induction false} ClosedRowStays(s: State, ops: seq<Op>, b: nat)
    requires b < s.nextBackup && (b in s.backups ==> !s.backups[b].Active())
    ensures var t := RunOps(s, ops);
            b < t.nextBackup && (b in t.backups ==> b in s.backups && t.backups[b] == s.backups[b])
  {
    if ops != [] {
      ClosedRowStays(s, ops[..|ops| - 1], b);
      RowFate(RunOps(s, ops[..|ops| - 1]), ops[|ops| - 1], b);
      hide Apply, Owns;
    }
  }

  /**
   An execution closes its row whatever else happens while it runs, successfully exactly when its disk
   existed when it began and the export went through, and the row then stays closed until it is deleted.
   */
  lemma ExecutionCloses(s: State, b: nat, t0: int, during: seq<Op>, t1: int, exec: ExecReply, later: seq<Op>)
    requires Executable(s, b) && b < s.nextBackup && s.backups[b].Active() && Unowned(during, b)
    ensures var begun := BeginBackup(s, b, t0);
            var ended := EndBackup(RunOps(begun, during), b, t1, exec);
            var last := RunOps(ended, later);
            var found := DiskById(s.disks, s.backups[b].diskId).Some?;
            && (found ==> b in ended.backups)
            && (b in ended.backups ==>
                  && !ended.backups[b].Active() && ended.backups[b].finishedAt == Some(if found then t1 else t0)
                  && (ended.backups[b].status.Succeeded? <==> found && exec.Exported?))
            && (b in last.backups ==> b in ended.backups && last.backups[b] == ended.backups[b])
  {
    var begun := BeginBackup(s, b, t0);
    var waited := RunOps(begun, during);
    if begun.backups[b].Active() {
      OpenRowWaits(begun, during, b);
    } else {
      ClosedRowStays(begun, during, b);
    }
    var ended := EndBackup(waited, b, t1, exec);
    assert b in ended.backups ==> !ended.backups[b].Active() by { hide RunOps, DiskById; }
    ClosedRowStays(ended, later, b);
    hide RunOps, DiskById, Prepared;
  }
}
