/**
 The scheduled-backup service as it runs: rows held in tables and changed in place. Each call is proved to
 leave exactly the tables the model's function says, and each entry point keeps the engine's invariant.
 */
module PlanningService {
  import opened Wrappers
  import opened Calendar
  import opened Recurrence
  import opened PlanningModel
  import opened PlanningDetections
  import opened PlanningEjects
  import opened PlanningInvariants
  import opened PlanningTicks

  /** What a request to eject a disk is told. */
  datatype EjectAnswer = Refused | Ejected | NotEjected | Raised

  class Service {
    var events: seq<Event>
    var runs: seq<Run>
    var backups: map<nat, Backup>
    var nextBackup: nat
    var disks: seq<Disk>
    var notices: multiset<Notice>
    const legacyCoexistence: bool

    /** Run rows added to the session and not yet written: queries do not see them. */
    var pending: seq<Run>

    /** The latest time a call was made at. */
    ghost var clock: int

    /** Between calls: nothing is left uncommitted and the tables satisfy the engine's invariant. */
    ghost predicate Valid()
      reads this
    {
      pending == [] && Inv(Snapshot(), clock)
    }

    constructor (legacy: bool, ghost now: int)
      ensures Valid() && clock == now && Snapshot() == Initial(legacy)
    {
      events, runs, backups, nextBackup, disks, notices, pending := [], [], map[], 0, [], multiset{}, [];
      legacyCoexistence := legacy;
      clock := now;
    }

    /** The committed tables. */
    function Snapshot(): State
      reads this
    {
      State(events, runs, backups, nextBackup, disks, notices, legacyCoexistence)
    }

    method Send(n: Notice)
      modifies `notices
      ensures notices == old(notices) + multiset{n}
    {
      notices := notices + multiset{n};
    }

    method Commit()
      modifies `runs, `pending
      ensures runs == old(runs + pending) && pending == []
    {
      runs := runs + pending;
      pending := [];
    }

    // ----- creating runs -----

    method EnsureRun(e: nat, t: int)
      requires e < |events|
      modifies `pending
      ensures pending == old(pending) + (if HasRun(runs, e, t) then [] else [NewRun(e, events[e], t)])
    {
      var i := 0;
      while i < |runs|
        invariant 0 <= i <= |runs|
        invariant !HasRun(runs[..i], e, t)
      {
        if runs[i].eventId == e && runs[i].scheduledFor == t {
          return;
        }
        i := i + 1;
      }
      assert runs[..i] == runs;
      var event := events[e];
      var end := t + event.windowDurationMinutes * MINUTE;
      pending := pending + [Run(e, t, t, end, Pending, None, None, None, None, None)];
    }

    method EnsureRuns(disk: Option<Disk>, lo: int, hi: int)
      requires pending == []
      modifies `runs, `pending
      ensures Snapshot() == CreateRuns(old(Snapshot()), disk, lo, hi) && pending == []
    {
      var n := 0;
      while n < |events|
        invariant 0 <= n <= |events| && runs == old(runs)
        invariant pending == DueRuns(runs, events, n, disk, lo, hi)
      {
        if Wanted(events[n], disk) {
          EnsureEvent(n, lo, hi);
        } else {
          assert pending + [] == pending;
        }
        n := n + 1;
      }
      Commit();
    }

    method EnsureEvent(e: nat, lo: int, hi: int)
      requires e < |events|
      modifies `pending
      ensures pending == old(pending) + MissingRuns(runs, e, events[e], Expand(events[e].schedule, lo, hi))
    {
      var occurrences := ExpandOccurrences(events[e].schedule, lo, hi);
      hide Expand, HasRun;
      var k := 0;
      while k < |occurrences|
        invariant 0 <= k <= |occurrences|
        invariant pending == old(pending) + MissingRuns(runs, e, events[e], occurrences[..k])
      {
        assert occurrences[..k + 1][..k] == occurrences[..k];
        EnsureRun(e, occurrences[k]);
        k := k + 1;
      }
      assert occurrences[..k] == occurrences;
    }

    method CreateDueRuns(now: int)
      requires pending == []
      modifies `runs, `pending
      ensures Snapshot() == CreateDue(old(Snapshot()), now) && pending == []
    {
      EnsureRuns(None, now - 24 * HOUR, now + 24 * HOUR);
    }

    // ----- disks and backups -----

    method CreateEjectActivity(i: nat) returns (row: nat)
      requires i < |disks| && CanEject(Snapshot(), i)
      modifies `backups, `nextBackup
      ensures Snapshot() == OpenEject(old(Snapshot()), i) && row == old(nextBackup)
      ensures Ejecting(Snapshot(), row) && backups[row].stage == Opened(disks[i])
      ensures backups[row].diskId == disks[i].id
    {
      hide CanEject;
      row := nextBackup;
      var disk := disks[i];
      backups := backups[row := Backup(EjectActivity, disk.id, InProgress, None, false, Opened(disk))];
      nextBackup := nextBackup + 1;
    }

    method FinishEjectActivityFailed(row: nat, now: int)
      requires row in backups
      modifies `backups
      ensures Snapshot() == EndEject(old(Snapshot()), row, Failed, now)
    {
      backups := backups[row := backups[row].(status := Failed, finishedAt := Some(now), stage := Over)];
    }

    method UnmountDatastore(row: nat, now: int, reply: UnmountReply) returns (unmounted: bool)
      requires Ejecting(Snapshot(), row) && backups[row].stage.Opened?
      modifies `backups
      ensures Snapshot() == Unmount(old(Snapshot()), row, now, reply) && row in backups
      ensures unmounted == reply.Unmounted? && backups[row].diskId == old(backups)[row].diskId
      ensures if unmounted
              then Ejecting(Snapshot(), row) && backups[row].stage == AfterUnmount(old(backups)[row].stage.copy)
              else backups[row].stage.Over?
    {
      if reply.OtherException? {
        backups := backups[row := backups[row].(stage := Over)];
      } else if !reply.Unmounted? {
        FinishEjectActivityFailed(row, now);
      } else {
        backups := backups[row := backups[row].(stage := AfterUnmount(backups[row].stage.copy))];
      }
      unmounted := reply.Unmounted?;
    }

    method DetachUsbPassthrough(row: nat, now: int, raises: bool, slotsAfter: set<string>) returns (detached: bool)
      requires Ejecting(Snapshot(), row) && backups[row].stage.AfterUnmount?
      modifies `backups
      ensures Snapshot() == Detach(old(Snapshot()), row, now, raises, slotsAfter) && row in backups
      ensures detached == SlotGone(old(backups)[row].stage.copy.handoffSlot, raises, slotsAfter)
      ensures backups[row].diskId == old(backups)[row].diskId
      ensures if detached then Ejecting(Snapshot(), row) && backups[row].stage.AfterDetach?
              else backups[row].stage.Over?
    {
      var slot := backups[row].stage.copy.handoffSlot;
      if slot.Some? && slot.value != "" && (raises || slot.value in slotsAfter) {
        FinishEjectActivityFailed(row, now);
        return false;
      }
      backups := backups[row := backups[row].(stage := AfterDetach(backups[row].stage.copy))];
      detached := true;
    }

    /** Disk and row are changed together once the slot is gone. */
    method MarkEjected(row: nat, now: int)
      requires Ejecting(Snapshot(), row) && backups[row].stage.AfterDetach?
      requires DiskById(disks, backups[row].diskId).Some?
      modifies `backups, `disks
      ensures Snapshot() == FinishEject(old(Snapshot()), row, now)
    {
      var at := DiskById(disks, backups[row].diskId).value;
      var copy, disk := backups[row].stage.copy, disks[at];
      disk := disk.(connected := Column(copy.connected, false, disk.connected));
      disk := disk.(pbsVisible := Column(copy.pbsVisible, false, disk.pbsVisible));
      disk := disk.(pbsDevicePath := Column(copy.pbsDevicePath, None, disk.pbsDevicePath));
      disk := disk.(handoffSlot := Column(copy.handoffSlot, None, disk.handoffSlot));
      disk := disk.(usbMapping := Column(copy.usbMapping, None, disk.usbMapping));
      disk := disk.(ejected := Column(copy.ejected, true, disk.ejected));
      disks := disks[at := disk];
      backups := backups[row := backups[row].(status := Succeeded, finishedAt := Some(now), stage := Over)];
    }

    method EjectDedicatedExternalDisk(i: nat, now: int, reply: EjectReply) returns (answer: EjectAnswer)
      requires i < |disks|
      modifies `backups, `nextBackup, `disks
      ensures Snapshot() == EjectDisk(old(Snapshot()), i, now, reply)
      ensures answer.Refused? <==> !CanEject(old(Snapshot()), i)
      ensures answer.Ejected? <==>
                CanEject(old(Snapshot()), i) && reply.unmount.Unmounted?
                && SlotGone(old(disks)[i].handoffSlot, reply.detachRaises, reply.slotsAfter)
      ensures OnlyId(old(disks), i) ==>
                disks == if answer.Ejected?
                         then old(disks)[i := old(disks)[i].(
                                connected := false, pbsVisible := false, pbsDevicePath := None, handoffSlot := None,
                                usbMapping := None, ejected := true)]
                         else old(disks)
    {
      if OnlyId(disks, i) {
        EjectOutcome(Snapshot(), i, now, reply);
        SlotFreed(disks[i].handoffSlot, reply.detachRaises, reply.slotsAfter);
      }
      if !Ejectable(disks[i]) || ActiveOnDisk(Snapshot(), disks[i].id) {
        return Refused;
      }
      IdFindsADisk(disks, i);
      assert CanEject(Snapshot(), i);
      hide CanEject, OpenEject, Unmount, SlotGone;
      var row := CreateEjectActivity(i);
      var unmounted := UnmountDatastore(row, now, reply.unmount);
      if !unmounted {
        return if reply.unmount.OtherException? then Raised else NotEjected;
      }
      ghost var asked := Snapshot();
      var detached := DetachUsbPassthrough(row, now, reply.detachRaises, reply.slotsAfter);
      assert Snapshot() == Detach(asked, row, now, reply.detachRaises, reply.slotsAfter);
      hide Detach;
      if !detached {
        return NotEjected;
      }
      MarkEjected(row, now);
      hide FinishEject;
      answer := Ejected;
    }

    method RunExternalBackup(i: nat, agent: AgentReply, autoEject: bool) returns (result: StartResult, row: nat)
      requires i < |disks|
      modifies `backups, `nextBackup
      ensures Snapshot() == PlanningModel.RunExternalBackup(old(Snapshot()), i, agent, autoEject)
      ensures result == BackupResult(old(Snapshot()), i, agent) && row == old(nextBackup)
    {
      hide AnyActive;
      row := nextBackup;
      if AnyActive(Snapshot()) || agent.AlreadyActive? {
        return Conflict, row;
      }
      if !agent.Idle? || !disks[i].trusted || !disks[i].connected || !PlanExists(Snapshot(), disks[i]) {
        return Rejected, row;
      }
      backups := backups[row := Backup(Export, disks[i].id, Queued, None, autoEject, NoStage)];
      nextBackup := nextBackup + 1;
      result := Started;
    }

    /** An eject asked for by hand. */
    method RequestEject(i: nat, now: int, reply: EjectReply) returns (answer: EjectAnswer)
      requires Valid() && clock <= now && i < |disks|
      modifies this
      ensures Valid() && clock == now && Evolves(old(Snapshot()), Snapshot())
      ensures Snapshot() == EjectDisk(old(Snapshot()), i, now, reply)
    {
      EjectKeeps(Snapshot(), i, clock, now, reply);
      hide Inv, Evolves, EjectDisk;
      answer := EjectDedicatedExternalDisk(i, now, reply);
      clock := now;
    }

    /** A backup asked for by hand. */
    method RequestBackup(i: nat, now: int, agent: AgentReply, autoEject: bool) returns (result: StartResult)
      requires Valid() && clock <= now && i < |disks|
      modifies this
      ensures Valid() && clock == now && Evolves(old(Snapshot()), Snapshot())
      ensures Snapshot() == PlanningModel.RunExternalBackup(old(Snapshot()), i, agent, autoEject)
      ensures result == BackupResult(old(Snapshot()), i, agent)
    {
      StepKeeps(Snapshot(), BackupOp(i, now, agent, autoEject), clock);
      hide Inv, Evolves, PlanningModel.RunExternalBackup;
      var row;
      result, row := RunExternalBackup(i, agent, autoEject);
      clock := now;
    }

    /** The execution thread up to the start of the export. */
    method BeginExecution(b: nat, now: int)
      requires Valid() && clock <= now
      modifies this
      ensures Valid() && clock == now && Evolves(old(Snapshot()), Snapshot())
      ensures Snapshot() == BeginBackup(old(Snapshot()), b, now)
    {
      StepKeeps(Snapshot(), BeginOp(b, now), clock);
      hide Inv, Evolves;
      clock := now;
      if b !in backups || !backups[b].kind.Export? || !backups[b].Active() {
        return;
      }
      if DiskById(disks, backups[b].diskId).None? {
        backups := backups[b := backups[b].(status := Failed, finishedAt := Some(now))];
      } else {
        backups := backups[b := backups[b].(status := InProgress)];
      }
    }

    /** The execution thread from the export's outcome on. */
    method FinishExecution(b: nat, now: int, exec: ExecReply, eject: EjectReply)
      requires Valid() && clock <= now && b in backups && backups[b].kind.Export? && backups[b].status.InProgress?
      modifies this
      ensures Valid() && clock == now && Evolves(old(Snapshot()), Snapshot())
      ensures Snapshot() == EndAndEject(old(Snapshot()), b, now, exec, eject)
    {
      EndAndEjectKeeps(Snapshot(), b, clock, now, exec, eject);
      hide Inv, Evolves;
      CloseAndEject(b, now, exec, eject);
      clock := now;
    }

    method CloseAndEject(b: nat, now: int, exec: ExecReply, eject: EjectReply)
      requires b in backups && backups[b].kind.Export? && backups[b].status.InProgress?
      modifies `backups, `nextBackup, `disks
      ensures Snapshot() == EndAndEject(old(Snapshot()), b, now, exec, eject)
    {
      hide EjectDisk, DiskById;
      var i := DiskById(disks, backups[b].diskId);
      if !exec.ExportRaised? && i.Some? && exec.target.Some? {
        disks := disks[i.value := disks[i.value].(datastoreName := exec.target, prepared := true)];
      }
      assert exec.ExportRaised? || Snapshot() == PrepareDisk(old(Snapshot()), old(backups)[b].diskId, exec.target);
      if exec.Exported? {
        backups := backups[b := backups[b].(status := Succeeded, finishedAt := Some(now))];
        assert Snapshot() == EndBackup(old(Snapshot()), b, now, exec);
        if backups[b].autoEject && i.Some? && Ejectable(disks[i.value]) {
          var _ := EjectDedicatedExternalDisk(i.value, now, eject);
        }
      } else {
        backups := backups[b := backups[b].(status := Failed, finishedAt := Some(now))];
      }
    }

    // ----- one run -----

    method FinishRun(r: nat, status: RunStatus, at: int)
      requires Known(Snapshot(), r)
      modifies `runs, `events
      ensures Snapshot() == Finish(old(Snapshot()), r, status, at)
    {
      var e := runs[r].eventId;
      runs := runs[r := runs[r].(status := status)];
      runs := runs[r := runs[r].(finishedAt := Some(at))];
      events := events[e := events[e].(lastStatus := Some(runs[r].status))];
      events := events[e := events[e].(lastCompletedAt := runs[r].finishedAt)];
      assert runs == old(runs)[r := runs[r]] && events == old(events)[e := events[e]];
    }

    method SyncLinkedBackupState(r: nat, now: int, eject: EjectReply)
      requires Known(Snapshot(), r)
      modifies `runs, `events, `backups, `nextBackup, `disks, `notices
      ensures Snapshot()
           == MaybeEject(SyncLinked(old(Snapshot()), r, now), EjectAfterSync(old(Snapshot()), r), now, eject)
    {
      hide EjectDisk, DiskByIdentity;
      var e, link := runs[r].eventId, runs[r].backupRunId;
      if link.None? || !runs[r].status.Running? || link.value !in backups || backups[link.value].Active() {
        return;
      }
      var backup := backups[link.value];
      var finished := if backup.finishedAt.Some? then backup.finishedAt.value else now;
      FinishRun(r, if backup.status.Succeeded? then Success else Failure, finished);
      if runs[r].status.Success? && events[e].autoEjectAfterSuccess {
        var disk := DiskByIdentity(disks, events[e].diskSerial);
        if disk.Some? {
          Send(AutoEjected(r));
          var _ := EjectDedicatedExternalDisk(disk.value, now, eject);
        }
      }
    }

    method StartRun(r: nat, now: int, agent: AgentReply, announce: bool)
      requires Known(Snapshot(), r)
      modifies `runs, `events, `backups, `nextBackup, `notices
      ensures Snapshot() == PlanningModel.StartRun(old(Snapshot()), r, now, agent, announce)
    {
      var e := runs[r].eventId;
      WayIsFree(Snapshot(), events[e].diskSerial, agent);
      hide AnyActive, PresentDisk, DiskByIdentity, BackupResult, StartOf;
      if AnyActive(Snapshot()) {
        runs := runs[r := runs[r].(status := WaitingForExternalBackup)];
        return;
      }
      var disk := PresentDisk(disks, events[e].diskSerial);
      if disk.None? {
        disk := DiskByIdentity(disks, events[e].diskSerial);
      }
      assert disk == DiskToUse(disks, events[e].diskSerial);
      hide DiskToUse;
      if disk.None? {
        runs := runs[r := runs[r].(status := WaitingForDisk)];
        return;
      }
      var result, row := RunExternalBackup(disk.value, agent, false);
      match result {
        case Conflict =>
          runs := runs[r := runs[r].(status := WaitingForExternalBackup)];
        case Rejected =>
          FinishRun(r, Failure, now);
          Send(StartFailed(r));
        case Started =>
          runs := runs[r := runs[r].(status := Running, backupRunId := Some(row), startedAt := Some(now))];
          events := events[e := events[e].(lastStatus := Some(Running), lastTriggeredAt := Some(now))];
          if announce {
            Send(PlannedStarted(r));
          }
      }
    }

    method AdvanceDetectedRun(r: nat, now: int, agent: AgentReply)
      requires Known(Snapshot(), r)
      modifies `runs, `events, `backups, `nextBackup, `notices
      ensures Snapshot() == Advance(old(Snapshot()), r, now, agent)
    {
      hide PlanningModel.StartRun;
      if runs[r].backupRunId.Some? {
        return;
      }
      if events[runs[r].eventId].startMode.ManualConfirmation? {
        if !runs[r].status.WaitingForConfirmation? {
          runs := runs[r := runs[r].(status := WaitingForConfirmation)];
          Send(ConfirmationRequired(r));
        }
        return;
      }
      StartRun(r, now, agent, true);
    }

    method NoteDisk(r: nat, now: int)
      requires r < |runs|
      modifies `runs, `notices
      ensures Snapshot() == SeeDisk(old(Snapshot()), r, now)
    {
      if runs[r].diskSeenAt.None? {
        runs := runs[r := runs[r].(diskSeenAt := Some(now))];
        Send(ExpectedDisk(r));
      }
    }

    method SendReminder(r: nat, now: int)
      requires Known(Snapshot(), r)
      modifies `runs, `notices
      ensures Snapshot() == Remind(old(Snapshot()), r, now)
    {
      var e := runs[r].eventId;
      if runs[r].reminderSentAt.None? && now >= runs[r].windowStartsAt - events[e].notifyBeforeMinutes * MINUTE {
        Send(Reminder(r));
        runs := runs[r := runs[r].(reminderSentAt := Some(now))];
      }
    }

    method DecideRun(r: nat, now: int, agent: AgentReply)
      requires Known(Snapshot(), r)
      modifies `runs, `events, `backups, `nextBackup, `notices
      ensures Snapshot() == Decide(old(Snapshot()), r, now, agent)
    {
      hide Advance, PresentDisk;
      var e := runs[r].eventId;
      if now > runs[r].windowEndsAt && CanMarkMissed(runs[r]) {
        FinishRun(r, Missed, now);
        Send(WindowMissed(r));
        return;
      }
      if now > runs[r].windowEndsAt || now < runs[r].windowStartsAt {
        return;
      }
      if PresentDisk(disks, events[e].diskSerial).None? {
        if runs[r].status.Pending? {
          runs := runs[r := runs[r].(status := WaitingForDisk)];
        }
        return;
      }
      NoteDisk(r, now);
      AdvanceDetectedRun(r, now, agent);
    }

    method ProcessRun(r: nat, now: int, env: Env)
      requires Known(Snapshot(), r)
      modifies `runs, `events, `backups, `nextBackup, `disks, `notices
      ensures Snapshot() == MaybeEject(PlanningModel.ProcessRun(old(Snapshot()), r, now, env.agent),
                                       EjectAfterSync(old(Snapshot()), r), now, env.eject)
    {
      EjectsOnlyWhenDone(Snapshot(), r, now);
      hide SyncLinked, Decide, EjectDisk, EjectAfterSync;
      SyncLinkedBackupState(r, now, env.eject);
      if runs[r].status in {Success, Failure, Cancelled} {
        return;
      }
      SendReminder(r, now);
      DecideRun(r, now, env.agent);
    }

    // ----- ticks and detections -----

    method SelectOpen() returns (ids: seq<nat>)
      ensures ids == OpenIds(runs, |runs|) && Selected(runs, ids)
      ensures forall j :: 0 <= j < |ids| ==> Open(runs[ids[j]].status)
    {
      ids := [];
      var n := 0;
      while n < |runs|
        invariant 0 <= n <= |runs| && ids == OpenIds(runs, n)
      {
        if runs[n].status in {Pending, WaitingForDisk, WaitingForConfirmation, WaitingForExternalBackup, Running} {
          ids := ids + [n];
        } else {
          assert ids + [] == ids;
        }
        n := n + 1;
      }
      OpenIdsExact(runs, n);
      assert forall j :: 0 <= j < |ids| ==> ids[j] in ids;
    }

    method SelectWaiting() returns (ids: seq<nat>)
      ensures ids == WaitingIds(runs, |runs|) && Selected(runs, ids)
      ensures forall j :: 0 <= j < |ids| ==> runs[ids[j]].status in {Pending, WaitingForDisk}
    {
      ids := [];
      var n := 0;
      while n < |runs|
        invariant 0 <= n <= |runs| && ids == WaitingIds(runs, n)
      {
        if runs[n].status in {Pending, WaitingForDisk} {
          ids := ids + [n];
        } else {
          assert ids + [] == ids;
        }
        n := n + 1;
      }
      WaitingIdsExact(runs, n);
      assert forall j :: 0 <= j < |ids| ==> ids[j] in ids;
    }

    /** One selected row, as the tick's loop treats it: its status is not read again. */
    method ProcessSelected(r: nat, now: int, env: Env)
      requires r < |runs| && Open(runs[r].status)
      modifies `runs, `events, `backups, `nextBackup, `disks, `notices
      ensures Snapshot() == WholeTurn(old(Snapshot()), r, now, env)
    {
      hide PlanningModel.ProcessRun, EjectAfterSync, EjectDisk;
      if runs[r].eventId < |events| && events[runs[r].eventId].Live() {
        ProcessRun(r, now, env);
      }
    }

    /** The selected rows are read once; while the loop runs, no row ahead of it changes. */
    method ProcessRuns(now: int, env: nat -> Env)
      modifies `runs, `events, `backups, `nextBackup, `disks, `notices
      ensures Snapshot() == ProcessList(old(Snapshot()), OpenIds(old(runs), |old(runs)|), now, env)
    {
      hide WholeTurn, TouchesOnly, OpenIds;
      var ids := SelectOpen();
      ghost var s := Snapshot();
      var k := 0;
      while k < |ids|
        invariant 0 <= k <= |ids|
        invariant Snapshot() == ProcessList(s, ids[..k], now, env)
        invariant Ahead(s.runs, runs, ids, k)
      {
        TurnFrame(Snapshot(), ids[k], now, env(ids[k]));
        assert ids[..k + 1][..k] == ids[..k];
        ProcessSelected(ids[k], now, env(ids[k]));
        k := k + 1;
      }
      assert ids[..k] == ids;
    }

    method SchedulerTick(now: int, env: nat -> Env)
      requires Valid() && clock <= now
      modifies this
      ensures Valid() && clock == now && Evolves(old(Snapshot()), Snapshot())
      ensures Snapshot() == Tick(old(Snapshot()), now, env)
    {
      TickKeeps(Snapshot(), clock, now, env);
      hide Inv, Evolves;
      CreateDueRuns(now);
      ProcessRuns(now, env);
      clock := now;
    }

    /** One selected row, as the detection loop treats it. */
    method DetectSelected(r: nat, disk: Disk, now: int, agent: AgentReply)
      requires r < |runs| && runs[r].status in {Pending, WaitingForDisk}
      modifies `runs, `events, `backups, `nextBackup, `notices
      ensures Snapshot() == DetectTurn(old(Snapshot()), r, disk, now, agent)
    {
      hide DiskMatches, Advance;
      if runs[r].eventId < |events| && !events[runs[r].eventId].schedule.deleted
         && DiskMatches(disk, events[runs[r].eventId].diskSerial)
         && runs[r].windowStartsAt <= now <= runs[r].windowEndsAt {
        NoteDisk(r, now);
        AdvanceDetectedRun(r, now, agent);
      }
    }

    method DetectDisk(disk: Disk, now: int, env: nat -> Env)
      requires pending == []
      modifies `runs, `pending, `events, `backups, `nextBackup, `notices
      ensures Snapshot() == Detect(old(Snapshot()), disk, now, env) && pending == []
    {
      EnsureRuns(Some(disk), now - 24 * HOUR, now + HOUR);
      hide DetectTurn, WaitingIds;
      ghost var s := Snapshot();
      var ids := SelectWaiting();
      var k := 0;
      while k < |ids|
        invariant 0 <= k <= |ids| && pending == []
        invariant Snapshot() == DetectList(s, ids[..k], disk, now, env)
        invariant Ahead(s.runs, runs, ids, k)
      {
        DetectFrame(Snapshot(), ids[k], disk, now, env(ids[k]).agent);
        assert ids[..k + 1][..k] == ids[..k];
        DetectSelected(ids[k], disk, now, env(ids[k]).agent);
        k := k + 1;
      }
      assert ids[..k] == ids;
    }

    method HandleDiskDetected(disk: Disk, now: int, env: nat -> Env)
      requires Valid() && clock <= now
      modifies this
      ensures Valid() && clock == now && Evolves(old(Snapshot()), Snapshot())
      ensures Snapshot() == Detect(old(Snapshot()), disk, now, env)
    {
      DetectKeeps(Snapshot(), disk, clock, now, env);
      hide Inv, Evolves, Detect;
      DetectDisk(disk, now, env);
      clock := now;
    }

    // ----- requests -----

    method ConfirmPlanningRun(r: nat, now: int, agent: AgentReply) returns (answer: Result<Run, Refusal>)
      requires Valid() && clock <= now
      modifies this
      ensures Valid() && clock == now && Evolves(old(Snapshot()), Snapshot())
      ensures Snapshot() == Outcome(old(Snapshot()), Confirm(old(Snapshot()), r, now, agent))
      ensures answer == AnswerOf(Confirm(old(Snapshot()), r, now, agent), r)
    {
      LaterClock(Snapshot(), clock, now);
      ConfirmKeeps(Snapshot(), r, now, agent);
      hide PlanningModel.StartRun, Inv, Evolves;
      clock := now;
      if r >= |runs| {
        return Err(RunNotFound);
      }
      if runs[r].eventId >= |events| {
        return Err(EventNotFound);
      }
      if !runs[r].status.WaitingForConfirmation? {
        return Err(NotWaitingForConfirmation);
      }
      if now > runs[r].windowEndsAt {
        runs := runs[r := runs[r].(status := Cancelled, finishedAt := Some(now))];
      } else {
        StartRun(r, now, agent, false);
      }
      answer := Ok(runs[r]);
    }

    method CancelPlanningRun(r: nat, now: int) returns (answer: Result<Run, Refusal>)
      requires Valid() && clock <= now
      modifies this
      ensures Valid() && clock == now && Evolves(old(Snapshot()), Snapshot())
      ensures Snapshot() == Outcome(old(Snapshot()), Cancel(old(Snapshot()), r, now))
      ensures answer == AnswerOf(Cancel(old(Snapshot()), r, now), r)
    {
      StepKeeps(Snapshot(), CancelOp(r, now), clock);
      hide Inv, Evolves;
      clock := now;
      if r >= |runs| {
        return Err(RunNotFound);
      }
      if runs[r].status !in {Success, Failure, Cancelled} {
        runs := runs[r := runs[r].(status := Cancelled, finishedAt := Some(now))];
      }
      answer := Ok(runs[r]);
    }

    method InsertRun(e: nat, now: int) returns (r: nat)
      requires pending == [] && e < |events|
      modifies `runs, `pending
      ensures Snapshot() == old(Snapshot()).(runs := old(runs) + [NewRun(e, events[e], now)])
      ensures pending == [] && r == |old(runs)|
    {
      r := |runs|;
      pending := [NewRun(e, events[e], now)];
      Commit();
    }

    method RunEventNow(e: nat, now: int, agent: AgentReply) returns (answer: Result<Run, Refusal>)
      requires Valid() && clock <= now
      modifies this
      ensures Valid() && clock == now && Evolves(old(Snapshot()), Snapshot())
      ensures Snapshot() == Outcome(old(Snapshot()), PlanningModel.RunEventNow(old(Snapshot()), e, now, agent))
      ensures answer == AnswerOf(PlanningModel.RunEventNow(old(Snapshot()), e, now, agent), |old(runs)|)
    {
      LaterClock(Snapshot(), clock, now);
      RunNowKeeps(Snapshot(), e, now, agent);
      hide PlanningModel.StartRun, Inv, Evolves;
      clock := now;
      if e >= |events| || events[e].schedule.deleted {
        return Err(EventNotFound);
      }
      var r := InsertRun(e, now);
      StartRun(r, now, agent, false);
      answer := Ok(runs[r]);
    }
  }

  /** The row a request answers with, read back after the commit. */
  function AnswerOf(r: Result<State, Refusal>, row: nat): Result<Run, Refusal>
    requires r.Ok? ==> row < |r.value.runs|
  {
    match r case Ok(t) => Ok(t.runs[row]) case Err(e) => Err(e)
  }

  /** Positions of rows, none twice. */
  ghost predicate Selected(rows: seq<Run>, ids: seq<nat>) {
    && (forall j :: 0 <= j < |ids| ==> ids[j] < |rows|)
    && forall i, j :: 0 <= i < j < |ids| ==> ids[i] != ids[j]
  }

  /** The rows selected from position `k` on are still what they were. */
  ghost predicate Ahead(was: seq<Run>, rows: seq<Run>, ids: seq<nat>, k: nat) {
    && |rows| == |was| && Selected(was, ids)
    && forall j :: k <= j < |ids| ==> rows[ids[j]] == was[ids[j]]
  }

  lemma {:induction false} IdFindsADisk(disks: seq<Disk>, i: nat)
    requires i < |disks|
    ensures DiskById(disks, disks[i].id).Some?
  {
    if i > 0 && disks[0].id != disks[i].id {
      IdFindsADisk(disks[1..], i - 1);
    }
  }

  /** A turn that goes on to an eject has nothing else left to do. */
  lemma EjectsOnlyWhenDone(s: State, r: nat, now: int)
    requires Known(s, r)
    ensures EjectAfterSync(s, r).Some? ==> Closed(SyncLinked(s, r, now).runs[r].status)
  {
    hide DiskByIdentity;
  }

  lemma TurnFrame(s: State, r: nat, now: int, env: Env)
    ensures var t := WholeTurn(s, r, now, env);
            |t.runs| == |s.runs| && forall i :: 0 <= i < |s.runs| && i != r ==> t.runs[i] == s.runs[i]
  {
    WholeTurnTouches(s, r, now, env);
    hide Turn, WholeTurn;
  }

  lemma DetectFrame(s: State, r: nat, disk: Disk, now: int, agent: AgentReply)
    ensures var t := DetectTurn(s, r, disk, now, agent);
            |t.runs| == |s.runs| && forall i :: 0 <= i < |s.runs| && i != r ==> t.runs[i] == s.runs[i]
  {
    DetectionTouches(s, r, disk, now, agent);
    hide DetectTurn;
  }
}
