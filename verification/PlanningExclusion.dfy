/** Which backups the engine starts: one export at a time, on a disk that fits the event. */
module PlanningExclusion {
  import opened Wrappers
  import opened PlanningModel

  /** At most one export is pending or running. */
  ghost predicate OneExport(s: State) {
    forall a, b ::
      a in s.backups && b in s.backups && a != b && s.backups[a].kind.Export? && s.backups[b].kind.Export? ==>
        !s.backups[a].Active() || !s.backups[b].Active()
  }

  lemma StartKeepsOne(s: State, r: nat, now: int, agent: AgentReply, announce: bool)
    requires OneExport(s) && Known(s, r)
    ensures OneExport(StartRun(s, r, now, agent, announce))
  {
    WayIsFree(s, EventOf(s, r).diskSerial, agent);
    hide StartOf, Launch, Refuse, SetStatus, AnyActive;
  }

  lemma AdvanceKeepsOne(s: State, r: nat, now: int, agent: AgentReply)
    requires OneExport(s) && Known(s, r)
    ensures OneExport(Advance(s, r, now, agent))
  {
    StartKeepsOne(s, r, now, agent, true);
    hide StartRun;
  }

  lemma TurnKeepsOne(s: State, r: nat, now: int, agent: AgentReply)
    requires OneExport(s)
    ensures OneExport(Turn(s, r, now, agent))
  {
    if Known(s, r) {
      var synced := SyncLinked(s, r, now);
      assert OneExport(synced) by { hide EjectAfterSync; }
      DecideKeepsOne(Remind(synced, r, now), r, now, agent);
    }
    hide SyncLinked, Decide;
  }

  lemma DecideKeepsOne(s: State, r: nat, now: int, agent: AgentReply)
    requires OneExport(s) && Known(s, r)
    ensures OneExport(Decide(s, r, now, agent))
  {
    AdvanceKeepsOne(SeeDisk(s, r, now), r, now, agent);
    hide Advance, PresentDisk;
  }

  lemma RequestsKeepOne(s: State, op: Op)
    requires OneExport(s) && (op.DetectOp? || op.ConfirmOp? || op.CancelOp? || op.RunNowOp?)
    ensures OneExport(Apply(s, op))
  {
    match op {
      case DetectOp(r, disk, now, agent) =>
        if Known(s, r) { AdvanceKeepsOne(SeeDisk(s, r, now), r, now, agent); }
      case ConfirmOp(r, now, agent) =>
        if Known(s, r) { StartKeepsOne(s, r, now, agent, false); }
      case RunNowOp(e, now, agent) =>
        if e < |s.events| {
          StartKeepsOne(s.(runs := s.runs + [NewRun(e, s.events[e], now)]), |s.runs|, now, agent, false);
        }
      case CancelOp(r, now) =>
    }
    hide StartRun, Advance, DiskMatches;
  }

  lemma BackupsKeepOne(s: State, op: Op)
    requires OneExport(s)
    requires op.BackupOp? || op.BeginOp? || op.EndOp? || op.DeleteBackupOp? || op.DisksOp? || op.SaveEventOp?
    ensures OneExport(Apply(s, op))
  {
    hide DiskById, Prepared;
  }

  lemma EjectsKeepOne(s: State, op: Op)
    requires OneExport(s) && (op.OpenEjectOp? || op.UnmountOp? || op.DetachOp? || op.FinishEjectOp?)
    ensures OneExport(Apply(s, op))
  {
    hide CanEject, SlotGone, Released, DiskById;
  }

  lemma StepKeepsOne(s: State, op: Op)
    requires OneExport(s)
    ensures OneExport(Apply(s, op))
  {
    match op {
      case CreateOp(now) =>
      case CreateForDiskOp(disk, now) =>
      case TurnOp(r, now, agent) => TurnKeepsOne(s, r, now, agent);
      case DetectOp(r, disk, now, agent) => RequestsKeepOne(s, op);
      case ConfirmOp(r, now, agent) => RequestsKeepOne(s, op);
      case CancelOp(r, now) => RequestsKeepOne(s, op);
      case RunNowOp(e, now, agent) => RequestsKeepOne(s, op);
      case OpenEjectOp(i, now) => EjectsKeepOne(s, op);
      case UnmountOp(b, now, reply) => EjectsKeepOne(s, op);
      case DetachOp(b, now, raises, slotsAfter) => EjectsKeepOne(s, op);
      case FinishEjectOp(b, now) => EjectsKeepOne(s, op);
      case _ => BackupsKeepOne(s, op);
    }
    hide DueRuns, Turn, DetectTurn, OneExport;
  }

  /** Whatever the engine and its surroundings do, two exports are never active together. */
  lemma {:induction false} EngineOneExport(ops: seq<Op>, legacy: bool)
    ensures OneExport(RunOps(Initial(legacy), ops))
  {
    if ops != [] {
      EngineOneExport(ops[..|ops| - 1], legacy);
      StepKeepsOne(RunOps(Initial(legacy), ops[..|ops| - 1]), ops[|ops| - 1]);
      hide Apply, OneExport;
    }
  }

  /** The disk carries the event's serial, literally or by one of its aliases. */
  predicate Carries(disk: Disk, serial: string) {
    disk.serialNumber == serial || DiskMatches(disk, serial)
  }

  /**
   The disk to use carries the serial, is present if some present disk matches, and is found if any disk
   carries it.
   */
  lemma DiskToUseCarries(disks: seq<Disk>, serial: string)
    ensures var i := DiskToUse(disks, serial);
            && (i.Some? <==> exists j :: 0 <= j < |disks| && Carries(disks[j], serial))
            && (i.Some? ==>
                  && Carries(disks[i.value], serial)
                  && (disks[i.value].present || forall d :: d in disks && d.present ==> !DiskMatches(d, serial)))
  {
    SomeDiskCarries(disks, serial);
    hide DiskMatches, DiskByIdentity;
  }

  lemma {:induction false} SomeDiskCarries(disks: seq<Disk>, serial: string)
    ensures (exists i :: 0 <= i < |disks| && Carries(disks[i], serial)) <==> DiskByIdentity(disks, serial).Some?
    ensures DiskByIdentity(disks, serial).Some? ==> Carries(disks[DiskByIdentity(disks, serial).value], serial)
  {
    hide DiskMatches;
    if disks != [] {
      SomeDiskCarries(disks[1..], serial);
      assert forall i :: 1 <= i < |disks| ==> disks[i] == disks[1..][i - 1];
    }
  }

  /**
   The run was started: a queued export on a trusted, connected disk with the serial, a present one if there
   is one.
   */
  ghost predicate StartedOn(s: State, t: State, r: nat, serial: string, i: nat) {
    && i < |s.disks| && r < |t.runs| && t.runs[r].backupRunId == Some(s.nextBackup)
    && s.nextBackup in t.backups
    && t.backups[s.nextBackup] == Backup(Export, s.disks[i].id, Queued, None, false, NoStage)
    && Carries(s.disks[i], serial) && s.disks[i].trusted && s.disks[i].connected
    && (s.disks[i].present || forall d :: d in s.disks && d.present ==> !DiskMatches(d, serial))
  }

  /**
   A run gains a link only with nothing else active and on a disk of its event; otherwise no backup or disk
   changes.
   */
  lemma StartsOnItsDisk(s: State, r: nat, now: int, agent: AgentReply, announce: bool)
    requires Known(s, r) && s.runs[r].backupRunId.None?
    ensures var t := StartRun(s, r, now, agent, announce);
            if t.runs[r].backupRunId.Some?
            then !AnyActive(s) && exists i :: StartedOn(s, t, r, EventOf(s, r).diskSerial, i)
            else t.backups == s.backups && t.disks == s.disks
  {
    var serial := EventOf(s, r).diskSerial;
    StartLinks(s, r, now, agent, announce);
    DiskToUseCarries(s.disks, serial);
    hide DiskMatches, DiskToUse, AnyActive, Carries, StartRun;
    var t := StartRun(s, r, now, agent, announce);
    if t.runs[r].backupRunId.Some? {
      assert StartedOn(s, t, r, serial, DiskToUse(s.disks, serial).value);
    }
  }

  lemma StartLinks(s: State, r: nat, now: int, agent: AgentReply, announce: bool)
    requires Known(s, r) && s.runs[r].backupRunId.None?
    ensures var t, i := StartRun(s, r, now, agent, announce), DiskToUse(s.disks, EventOf(s, r).diskSerial);
            if t.runs[r].backupRunId.Some?
            then !AnyActive(s) && i.Some? && s.disks[i.value].trusted && s.disks[i.value].connected
                 && t.runs[r].backupRunId == Some(s.nextBackup) && s.nextBackup in t.backups
                 && t.backups[s.nextBackup] == Backup(Export, s.disks[i.value].id, Queued, None, false, NoStage)
            else t.backups == s.backups && t.disks == s.disks
  {
    WayIsFree(s, EventOf(s, r).diskSerial, agent);
    hide StartOf, DiskToUse, AnyActive, PlanExists, Launch, Refuse, SetStatus;
  }

  /**
   A start leaves the run waiting for its disk exactly when nothing is active and no known disk carries the
   serial.
   */
  lemma WaitsForUnknownDisk(s: State, r: nat, now: int, agent: AgentReply, announce: bool)
    requires Known(s, r)
    ensures StartRun(s, r, now, agent, announce).runs[r].status.WaitingForDisk? <==>
              !AnyActive(s) && forall i :: 0 <= i < |s.disks| ==> !Carries(s.disks[i], EventOf(s, r).diskSerial)
  {
    WaitsWithoutDisk(s, r, now, agent, announce);
    DiskToUseCarries(s.disks, EventOf(s, r).diskSerial);
    hide *;
  }

  lemma WaitsWithoutDisk(s: State, r: nat, now: int, agent: AgentReply, announce: bool)
    requires Known(s, r)
    ensures StartRun(s, r, now, agent, announce).runs[r].status.WaitingForDisk? <==>
              !AnyActive(s) && DiskToUse(s.disks, EventOf(s, r).diskSerial).None?
  {
    WayIsFree(s, EventOf(s, r).diskSerial, agent);
    hide StartOf, DiskToUse, AnyActive, RunExternalBackup, Launch, Refuse, SetStatus;
  }
}
