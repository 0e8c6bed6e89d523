/** What a turn does to its run, how ended runs change, and what an eject's row left open does to the schedule. */
module PlanningOutcomes {
  import opened Wrappers
  import opened Calendar
  import opened PlanningModel
  import opened PlanningInvariants
  import opened PlanningTicks
  import opened PlanningExclusion
  import opened PlanningRows

  // ----- what a turn does to one run -----

  /**
   A turn of an unlinked open run reminds exactly from the lead time on, notes the disk exactly when a
   present one matches inside the window, and misses the run exactly when the window ends unseen.
   */
  lemma TurnRecords(s: State, r: nat, now: int, agent: AgentReply)
    requires Known(s, r) && Open(s.runs[r].status) && EventOf(s, r).Live()
    requires s.runs[r].backupRunId.None? && s.runs[r].startedAt.None?
    ensures var run, event, after := s.runs[r], EventOf(s, r), Turn(s, r, now, agent).runs[r];
            && (after.reminderSentAt.Some? <==>
                  run.reminderSentAt.Some? || now >= run.windowStartsAt - event.notifyBeforeMinutes * MINUTE)
            && (after.diskSeenAt.Some? <==>
                  run.diskSeenAt.Some?
                  || (run.windowStartsAt <= now <= run.windowEndsAt && PresentMatch(s.disks, event.diskSerial)))
            && (after.status.Missed? <==>
                  now > run.windowEndsAt && run.diskSeenAt.None? && run.status in {Pending, WaitingForDisk})
  {
    var reminded := Remind(s, r, now);
    UnlinkedTurn(s, r, now, agent);
    RemindRecords(s, r, now);
    hide Turn, Remind, Decide, DiskMatches, PresentMatch, Open;
    DecideRecords(reminded, r, now, agent);
  }

  lemma UnlinkedTurn(s: State, r: nat, now: int, agent: AgentReply)
    requires TakesTurn(s, r) && s.runs[r].backupRunId.None?
    ensures Turn(s, r, now, agent) == Decide(Remind(s, r, now), r, now, agent)
  {
    hide Decide, Remind;
    assert SyncLinked(s, r, now) == s;
    RemindRecords(s, r, now);
  }

  lemma RemindRecords(s: State, r: nat, now: int)
    requires Known(s, r)
    ensures var run, after := s.runs[r], Remind(s, r, now).runs[r];
            && (after.reminderSentAt.Some? <==>
                  run.reminderSentAt.Some? || now >= run.windowStartsAt - EventOf(s, r).notifyBeforeMinutes * MINUTE)
            && after.(reminderSentAt := None) == run.(reminderSentAt := None)
  {
  }

  lemma DecideRecords(s: State, r: nat, now: int, agent: AgentReply)
    requires Known(s, r) && Open(s.runs[r].status) && s.runs[r].backupRunId.None? && s.runs[r].startedAt.None?
    ensures var run, event, after := s.runs[r], EventOf(s, r), Decide(s, r, now, agent).runs[r];
            && after.reminderSentAt == run.reminderSentAt
            && (after.diskSeenAt.Some? <==>
                  run.diskSeenAt.Some?
                  || (run.windowStartsAt <= now <= run.windowEndsAt && PresentMatch(s.disks, event.diskSerial)))
            && (after.status.Missed? <==>
                  now > run.windowEndsAt && run.diskSeenAt.None? && run.status in {Pending, WaitingForDisk})
  {
    AdvanceRecords(SeeDisk(s, r, now), r, now, agent);
    hide Advance, DiskMatches;
  }

  lemma AdvanceRecords(s: State, r: nat, now: int, agent: AgentReply)
    requires Known(s, r) && Open(s.runs[r].status)
    ensures var run, after := s.runs[r], Advance(s, r, now, agent).runs[r];
            after.reminderSentAt == run.reminderSentAt && after.diskSeenAt == run.diskSeenAt && !after.status.Missed?
  {
    StartRecords(s, r, now, agent, true);
    hide StartRun;
  }

  lemma StartRecords(s: State, r: nat, now: int, agent: AgentReply, announce: bool)
    requires Known(s, r) && !s.runs[r].status.Missed?
    ensures var run, after := s.runs[r], StartRun(s, r, now, agent, announce).runs[r];
            after.reminderSentAt == run.reminderSentAt && after.diskSeenAt == run.diskSeenAt && !after.status.Missed?
  {
    hide StartOf, RunExternalBackup, Launch, Refuse, SetStatus;
  }

  /**
   A running run follows its backup: it runs on while the backup is active and ends as the backup ended, the
   event being told; the auto-eject goes out exactly after a success of an event that asks for it with a known disk.
   */
  lemma LinkedRunFollows(s: State, r: nat, now: int)
    requires Known(s, r) && Linked(s, r)
    ensures var t, backup, event := SyncLinked(s, r, now), s.backups[s.runs[r].backupRunId.value], EventOf(s, r);
            && (t.runs[r].status.Running? <==> backup.Active())
            && (t.runs[r].status.Success? <==> backup.status.Succeeded?)
            && (t.runs[r].status.Failure? <==> backup.status.Failed?)
            && (!backup.Active() ==> EventOf(t, r).lastStatus == Some(t.runs[r].status)
                                     && EventOf(t, r).lastCompletedAt == t.runs[r].finishedAt)
            && t.notices[AutoEjected(r)] == s.notices[AutoEjected(r)]
                 + (if backup.status.Succeeded? && event.autoEjectAfterSuccess
                       && (exists i :: 0 <= i < |s.disks| && Carries(s.disks[i], event.diskSerial)) then 1 else 0)
  {
    SomeDiskCarries(s.disks, EventOf(s, r).diskSerial);
    hide DiskByIdentity, Carries, DiskMatches;
  }

  // ----- ended runs -----

  /** A request does not touch a run that has ended, except to cancel it. */
  lemma RequestsSpareEnded(s: State, op: Op, r: nat)
    requires r < |s.runs| && s.runs[r].status.Missed? && (op.ConfirmOp? || op.CancelOp? || op.RunNowOp?)
    ensures var t := Apply(s, op);
            r < |t.runs| && t.runs[r] == if op.CancelOp? && op.r == r
              then s.runs[r].(status := Cancelled, finishedAt := Some(op.now)) else s.runs[r]
  {
    match op {
      case ConfirmOp(q, now, agent) =>
        if Known(s, q) { StartTouches(s, q, now, agent, false); }
        hide StartRun;
      case RunNowOp(e, now, agent) =>
        if e < |s.events| && !s.events[e].schedule.deleted {
          StartTouches(s.(runs := s.runs + [NewRun(e, s.events[e], now)]), |s.runs|, now, agent, false);
        }
        hide StartRun;
      case CancelOp(q, now) =>
    }
  }

  lemma DetectSparesEnded(s: State, q: nat, disk: Disk, now: int, agent: AgentReply, r: nat)
    requires r < |s.runs| && s.runs[r].status.Missed?
    ensures DetectTurn(s, q, disk, now, agent).runs[r] == s.runs[r]
  {
    hide DiskMatches, Advance;
    if Detectable(s, q, disk, now) {
      AdvanceTouches(SeeDisk(s, q, now), q, now, agent);
    }
  }

  /** Exactly a cancellation takes a run out of MISSED, and no step takes one out of the other ended states. */
  lemma MissedIsLeftOnlyByCancelling(s: State, op: Op, clock: int, r: nat)
    requires Inv(s, clock) && clock <= op.now && r < |s.runs| && Ended(s.runs[r].status)
    ensures r < |Apply(s, op).runs|
    ensures Apply(s, op).runs[r].status != s.runs[r].status <==> s.runs[r].status.Missed? && op.CancelOp? && op.r == r
  {
    StepKeeps(s, op, clock);
    hide Inv;
    assert MayBecome(s.runs[r], Apply(s, op).runs[r]);
    if s.runs[r].status.Missed? {
      match op {
        case TurnOp(q, now, agent) => TurnTouches(s, q, now, agent);
        case DetectOp(q, disk, now, agent) => DetectSparesEnded(s, q, disk, now, agent, r);
        case ConfirmOp(q, now, agent) => RequestsSpareEnded(s, op, r);
        case CancelOp(q, now) => RequestsSpareEnded(s, op, r);
        case RunNowOp(e, now, agent) => RequestsSpareEnded(s, op, r);
        case _ =>
      }
      hide ProcessRun, DetectTurn, Evolves, OpenEject, Unmount, Detach, FinishEject, EndBackup;
    }
  }

  // ----- runs no tick closes -----

  /** An open run without a backup that is not missed: its disk was seen, or it waits for something else. */
  predicate Abandoned(run: Run) {
    Open(run.status) && run.backupRunId.None? && !CanMarkMissed(run)
  }

  /** The requests that end such a run: a cancellation, and a confirmation if it waits for one, which comes too late. */
  predicate Settles(op: Op, r: nat, run: Run) {
    && Open(run.status)
    && ((op.CancelOp? && op.r == r) || (op.ConfirmOp? && op.r == r && run.status.WaitingForConfirmation?))
  }

  /** The row without the time of its reminder. */
  function Unreminded(run: Run): Run {
    run.(reminderSentAt := None)
  }

  lemma LateTurn(s: State, r: nat, now: int, agent: AgentReply)
    requires r < |s.runs| && now > s.runs[r].windowEndsAt && (Abandoned(s.runs[r]) || s.runs[r].status.Cancelled?)
    ensures Unreminded(Turn(s, r, now, agent).runs[r]) == Unreminded(s.runs[r])
  {
    if TakesTurn(s, r) {
      UnlinkedTurn(s, r, now, agent);
      RemindRecords(s, r, now);
      hide Turn, Remind, Advance, PresentDisk;
    }
  }

  /** After its window a run that was abandoned or cancelled is changed by those requests only. */
  lemma LateStep(s: State, op: Op, r: nat)
    requires Known(s, r) && op.now > s.runs[r].windowEndsAt && (Abandoned(s.runs[r]) || s.runs[r].status.Cancelled?)
    ensures var run, t := s.runs[r], Apply(s, op);
            && Known(t, r)
            && Unreminded(t.runs[r]) == Unreminded(
                 if Settles(op, r, run) then run.(status := Cancelled, finishedAt := Some(op.now)) else run)
  {
    EventsStayKnown(s, op);
    match op {
      case TurnOp(q, now, agent) =>
        LateTurn(s, r, now, agent);
        TurnTouches(s, q, now, agent);
      case DetectOp(q, disk, now, agent) => LateDetection(s, q, disk, now, agent, r);
      case ConfirmOp(q, now, agent) => LateRequest(s, op, r);
      case CancelOp(q, now) => LateRequest(s, op, r);
      case RunNowOp(e, now, agent) => LateRequest(s, op, r);
      case _ => RowIsKept(s, op, r);
    }
    hide Turn, DetectTurn, CreateRuns, OpenEject, Unmount, Detach, FinishEject, EndBackup, Confirm, Cancel, RunEventNow,
      Abandoned, CanMarkMissed;
  }

  lemma EventsStayKnown(s: State, op: Op)
    ensures |s.events| <= |Apply(s, op).events|
  {
    hide Turn, DetectTurn, StartRun, DueRuns, OpenEject, Unmount, Detach, FinishEject;
  }

  lemma RowIsKept(s: State, op: Op, r: nat)
    requires r < |s.runs|
    requires !op.TurnOp? && !op.DetectOp? && !op.ConfirmOp? && !op.CancelOp? && !op.RunNowOp?
    ensures r < |Apply(s, op).runs| && Apply(s, op).runs[r] == s.runs[r]
  {
    hide OpenEject, Unmount, Detach, FinishEject, DueRuns;
  }

  lemma LateDetection(s: State, q: nat, disk: Disk, now: int, agent: AgentReply, r: nat)
    requires r < |s.runs| && now > s.runs[r].windowEndsAt
    ensures DetectTurn(s, q, disk, now, agent).runs[r] == s.runs[r]
  {
    if Detectable(s, q, disk, now) {
      AdvanceTouches(SeeDisk(s, q, now), q, now, agent);
    }
    hide DiskMatches, Advance;
  }

  lemma LateRequest(s: State, op: Op, r: nat)
    requires Known(s, r) && op.now > s.runs[r].windowEndsAt && (Abandoned(s.runs[r]) || s.runs[r].status.Cancelled?)
    requires op.ConfirmOp? || op.CancelOp? || op.RunNowOp?
    ensures var run, t := s.runs[r], Apply(s, op);
            && r < |t.runs|
            && t.runs[r] == if Settles(op, r, run) then run.(status := Cancelled, finishedAt := Some(op.now)) else run
  {
    match op {
      case ConfirmOp(q, now, agent) =>
        if Known(s, q) { StartTouches(s, q, now, agent, false); }
      case RunNowOp(e, now, agent) =>
        if e < |s.events| && !s.events[e].schedule.deleted {
          StartTouches(s.(runs := s.runs + [NewRun(e, s.events[e], now)]), |s.runs|, now, agent, false);
        }
      case CancelOp(q, now) =>
    }
    hide StartRun, CanMarkMissed;
  }

  /** Steps after a moment. */
  ghost predicate After(ops: seq<Op>, moment: int) {
    forall i :: 0 <= i < |ops| ==> ops[i].now > moment
  }

  ghost predicate SettledBy(ops: seq<Op>, r: nat, run: Run) {
    exists i :: 0 <= i < |ops| && Settles(ops[i], r, run)
  }

  lemma SettledLater(before: seq<Op>, last: Op, r: nat, run: Run)
    ensures SettledBy(before + [last], r, run) <==> SettledBy(before, r, run) || Settles(last, r, run)
  {
    var ops := before + [last];
    assert forall i :: 0 <= i < |before| ==> ops[i] == before[i];
    assert ops[|before|] == last;
    hide Settles;
    if SettledBy(before, r, run) {
      var i :| 0 <= i < |before| && Settles(before[i], r, run);
      assert Settles(ops[i], r, run);
    }
  }

  /** The run has no backup yet; it was cancelled if that was asked for, and is as it was otherwise. */
  predicate LeftOpen(run: Run, after: Run, settled: bool) {
    && after.backupRunId.None? && after.windowEndsAt == run.windowEndsAt
    && if settled then after.status.Cancelled? else Unreminded(after) == Unreminded(run)
  }

  lemma LeftOpenStep(s: State, op: Op, r: nat, run: Run, settled: bool)
    requires Known(s, r) && Abandoned(run) && op.now > run.windowEndsAt && LeftOpen(run, s.runs[r], settled)
    ensures Known(Apply(s, op), r) && LeftOpen(run, Apply(s, op).runs[r], settled || Settles(op, r, run))
  {
    LateStep(s, op, r);
    hide Apply;
  }

  /**
   Once its window is over such a run is never linked, started or closed by the scheduler: it stays open in its
   status exactly if nobody cancels it or confirms it too late, and is cancelled otherwise.
   */
  lemma {:induction false} AbandonedForGood(s: State, ops: seq<Op>, r: nat)
    requires Known(s, r) && Abandoned(s.runs[r]) && After(ops, s.runs[r].windowEndsAt)
    ensures var t := RunOps(s, ops); Known(t, r) && LeftOpen(s.runs[r], t.runs[r], SettledBy(ops, r, s.runs[r]))
  {
    if ops != [] {
      var before, last := ops[..|ops| - 1], ops[|ops| - 1];
      assert After(before, s.runs[r].windowEndsAt) && last.now > s.runs[r].windowEndsAt;
      assert before + [last] == ops;
      AbandonedForGood(s, before, r);
      SettledLater(before, last, r, s.runs[r]);
      LeftOpenStep(RunOps(s, before), last, r, s.runs[r], SettledBy(before, r, s.runs[r]));
      hide Apply, Abandoned, LeftOpen, Settles, SettledBy, After;
    }
  }

  // ----- a start that another start has written over -----

  /** Linked to a backup but waiting for one: the status of a start, overwritten by that of a second one. */
  predicate Adrift(run: Run) {
    run.status.WaitingForExternalBackup? && run.backupRunId.Some?
  }

  predicate DriftsOn(before: Run, after: Run) {
    Adrift(after) && after.backupRunId == before.backupRunId && after.eventId == before.eventId
  }

  lemma AdriftDecides(s: State, r: nat, now: int, agent: AgentReply)
    requires Known(s, r) && Adrift(s.runs[r])
    ensures DriftsOn(s.runs[r], Decide(s, r, now, agent).runs[r])
  {
    var seen := SeeDisk(s, r, now);
    assert DriftsOn(s.runs[r], seen.runs[r]);
    assert Advance(seen, r, now, agent) == seen by { hide SeeDisk, StartRun; }
    hide SeeDisk, Advance, PresentDisk, MarkMissed, SetStatus;
  }

  lemma AdriftTurn(s: State, r: nat, now: int, agent: AgentReply)
    requires Known(s, r) && Adrift(s.runs[r])
    ensures DriftsOn(s.runs[r], Turn(s, r, now, agent).runs[r])
  {
    assert SyncLinked(s, r, now) == s;
    var reminded := Remind(s, r, now);
    assert DriftsOn(s.runs[r], reminded.runs[r]) && Known(reminded, r);
    AdriftDecides(reminded, r, now, agent);
    hide SyncLinked, Remind, Decide;
  }

  lemma AdriftRequest(s: State, op: Op, r: nat)
    requires Known(s, r) && Adrift(s.runs[r]) && (op.ConfirmOp? || op.CancelOp? || op.RunNowOp?)
    ensures var run, t := s.runs[r], Apply(s, op);
            && r < |t.runs|
            && t.runs[r] == if op.CancelOp? && op.r == r
                 then run.(status := Cancelled, finishedAt := Some(op.now)) else run
  {
    match op {
      case ConfirmOp(q, now, agent) =>
        if Known(s, q) { StartTouches(s, q, now, agent, false); }
      case RunNowOp(e, now, agent) =>
        if e < |s.events| && !s.events[e].schedule.deleted {
          StartTouches(s.(runs := s.runs + [NewRun(e, s.events[e], now)]), |s.runs|, now, agent, false);
        }
      case CancelOp(q, now) =>
    }
    hide StartRun;
  }

  lemma AdriftDetection(s: State, q: nat, disk: Disk, now: int, agent: AgentReply, r: nat)
    requires Known(s, r) && Adrift(s.runs[r])
    ensures DetectTurn(s, q, disk, now, agent).runs[r] == s.runs[r]
  {
    if Detectable(s, q, disk, now) {
      AdvanceTouches(SeeDisk(s, q, now), q, now, agent);
    }
    hide DiskMatches, Advance;
  }

  lemma AdriftStep(s: State, op: Op, r: nat)
    requires Known(s, r) && Adrift(s.runs[r]) && !(op.CancelOp? && op.r == r)
    ensures var t := Apply(s, op);
            Known(t, r) && Adrift(t.runs[r]) && t.runs[r].backupRunId == s.runs[r].backupRunId
  {
    EventsStayKnown(s, op);
    match op {
      case TurnOp(q, now, agent) =>
        AdriftTurn(s, r, now, agent);
        TurnTouches(s, q, now, agent);
      case DetectOp(q, disk, now, agent) => AdriftDetection(s, q, disk, now, agent, r);
      case ConfirmOp(q, now, agent) => AdriftRequest(s, op, r);
      case CancelOp(q, now) => AdriftRequest(s, op, r);
      case RunNowOp(e, now, agent) => AdriftRequest(s, op, r);
      case _ => RowIsKept(s, op, r);
    }
    hide Turn, DetectTurn, CreateRuns, OpenEject, Unmount, Detach, FinishEject, EndBackup, Confirm, Cancel, RunEventNow;
  }

  /** However its backup ends, such a run never follows it: it waits until somebody cancels it. */
  lemma {:induction false} AdriftForGood(s: State, ops: seq<Op>, r: nat)
    requires Known(s, r) && Adrift(s.runs[r])
    requires forall i :: 0 <= i < |ops| && ops[i].CancelOp? ==> ops[i].r != r
    ensures var t := RunOps(s, ops);
            Known(t, r) && Adrift(t.runs[r]) && t.runs[r].backupRunId == s.runs[r].backupRunId
  {
    if ops != [] {
      AdriftForGood(s, ops[..|ops| - 1], r);
      AdriftStep(RunOps(s, ops[..|ops| - 1]), ops[|ops| - 1], r);
      hide Apply, Adrift;
    }
  }

  // ----- the row an uncaught exception leaves open -----

  /** The thread of an eject is gone and its row is still open. */
  predicate StuckEject(s: State, b: nat) {
    b < s.nextBackup && Ejecting(s, b) && s.backups[b].stage.Over?
  }

  /** No run gains a link. */
  ghost predicate NoNewLink(s: State, t: State) {
    forall r :: 0 <= r < |t.runs| && t.runs[r].backupRunId.Some? ==> r < |s.runs| && s.runs[r].backupRunId.Some?
  }

  lemma StuckBlocksStart(s: State, r: nat, now: int, agent: AgentReply, announce: bool, b: nat)
    requires Known(s, r) && StuckEject(s, b)
    ensures StartRun(s, r, now, agent, announce) == SetStatus(s, r, WaitingForExternalBackup)
  {
    assert AnyActive(s);
    hide StuckEject, Launch, Refuse;
  }

  lemma StuckAdvance(s: State, r: nat, now: int, agent: AgentReply, b: nat)
    requires Known(s, r) && StuckEject(s, b)
    ensures NoNewLink(s, Advance(s, r, now, agent))
  {
    StuckBlocksStart(s, r, now, agent, true, b);
    hide StartRun;
  }

  lemma StuckRow(s: State, r: nat, now: int)
    requires Known(s, r)
    ensures NoNewLink(s, s) && NoNewLink(s, SetStatus(s, r, WaitingForDisk))
    ensures NoNewLink(s, MarkMissed(s, r, now)) && NoNewLink(s, SeeDisk(s, r, now)) && NoNewLink(s, Remind(s, r, now))
  {
  }

  /** Only the backup rows matter for being stuck. */
  lemma StuckThere(s: State, t: State, b: nat)
    requires StuckEject(s, b) && t.backups == s.backups && t.nextBackup == s.nextBackup
    ensures StuckEject(t, b)
  {
  }

  lemma LinksThrough(s: State, t: State, u: State)
    requires NoNewLink(s, t) && NoNewLink(t, u)
    ensures NoNewLink(s, u)
  {
  }

  lemma StuckDecide(s: State, r: nat, now: int, agent: AgentReply, b: nat)
    requires Known(s, r) && StuckEject(s, b)
    ensures NoNewLink(s, Decide(s, r, now, agent))
  {
    StuckRow(s, r, now);
    var seen := SeeDisk(s, r, now);
    StuckThere(s, seen, b);
    StuckAdvance(seen, r, now, agent, b);
    LinksThrough(s, seen, Advance(seen, r, now, agent));
    hide NoNewLink, StuckEject, SetStatus, MarkMissed, SeeDisk, Advance, PresentDisk;
  }

  lemma SyncLinksNothing(s: State, r: nat, now: int)
    requires Known(s, r)
    ensures NoNewLink(s, SyncLinked(s, r, now))
  {
    hide EjectAfterSync;
  }

  lemma StuckTurn(s: State, r: nat, now: int, agent: AgentReply, b: nat)
    requires StuckEject(s, b)
    ensures NoNewLink(s, Turn(s, r, now, agent))
  {
    if TakesTurn(s, r) {
      var synced := SyncLinked(s, r, now);
      var reminded := Remind(synced, r, now);
      SyncLinksNothing(s, r, now);
      StuckRow(synced, r, now);
      StuckThere(s, reminded, b);
      StuckDecide(reminded, r, now, agent, b);
      LinksThrough(s, synced, reminded);
      LinksThrough(s, reminded, Decide(reminded, r, now, agent));
    }
    hide SyncLinked, Decide, Remind, StuckEject;
  }

  lemma StuckDetect(s: State, r: nat, disk: Disk, now: int, agent: AgentReply, b: nat)
    requires StuckEject(s, b)
    ensures NoNewLink(s, DetectTurn(s, r, disk, now, agent))
  {
    if Known(s, r) {
      var seen := SeeDisk(s, r, now);
      StuckRow(s, r, now);
      StuckThere(s, seen, b);
      StuckAdvance(seen, r, now, agent, b);
      hide StuckEject, SeeDisk, Advance, DiskMatches;
      LinksThrough(s, seen, Advance(seen, r, now, agent));
    }
    hide DiskMatches;
  }

  lemma StuckRequests(s: State, op: Op, b: nat)
    requires StuckEject(s, b) && (op.ConfirmOp? || op.CancelOp? || op.RunNowOp?)
    ensures NoNewLink(s, Apply(s, op))
  {
    match op {
      case ConfirmOp(r, now, agent) =>
        if Known(s, r) { StuckBlocksStart(s, r, now, agent, false, b); }
        hide StartRun;
      case RunNowOp(e, now, agent) =>
        if e < |s.events| && !s.events[e].schedule.deleted {
          var t := s.(runs := s.runs + [NewRun(e, s.events[e], now)]);
          StuckThere(s, t, b);
          StuckBlocksStart(t, |s.runs|, now, agent, false, b);
        }
        hide StartRun, StuckEject;
      case CancelOp(r, now) =>
    }
  }

  lemma CreationLinksNothing(s: State, disk: Option<Disk>, lo: int, hi: int)
    ensures NoNewLink(s, CreateRuns(s, disk, lo, hi))
  {
    var rows := DueRuns(s.runs, s.events, |s.events|, disk, lo, hi);
    DueAreFresh(s.runs, s.events, |s.events|, disk, lo, hi);
    hide DueRuns;
    forall r | |s.runs| <= r < |s.runs + rows| ensures (s.runs + rows)[r].backupRunId.None? {
      assert Fresh(rows[r - |s.runs|], s.events);
    }
  }

  /** No step closes the row, and while it is open no step links a run to a backup. */
  lemma StuckStep(s: State, op: Op, b: nat)
    requires StuckEject(s, b)
    ensures StuckEject(Apply(s, op), b) && NoNewLink(s, Apply(s, op))
  {
    StuckRowStays(s, op, b);
    match op {
      case TurnOp(r, now, agent) => StuckTurn(s, r, now, agent, b);
      case DetectOp(r, disk, now, agent) => StuckDetect(s, r, disk, now, agent, b);
      case ConfirmOp(r, now, agent) => StuckRequests(s, op, b);
      case CancelOp(r, now) => StuckRequests(s, op, b);
      case RunNowOp(e, now, agent) => StuckRequests(s, op, b);
      case CreateOp(now) => CreationLinksNothing(s, None, now - 24 * HOUR, now + 24 * HOUR);
      case CreateForDiskOp(disk, now) => CreationLinksNothing(s, Some(disk), now - 24 * HOUR, now + HOUR);
      case _ =>
    }
    hide CreateRuns, Turn, DetectTurn, StuckEject, OpenEject, Unmount, Detach, FinishEject;
  }

  lemma StuckRowStays(s: State, op: Op, b: nat)
    requires StuckEject(s, b)
    ensures StuckEject(Apply(s, op), b)
  {
    RowFate(s, op, b);
    if Owns(op, b) {
      hide DiskById;
    } else {
      hide Apply;
    }
  }

  /** Once an eject has died with its row open, the row stays open and no run is ever linked to a backup again. */
  lemma {:induction false} StuckForGood(s: State, ops: seq<Op>, b: nat)
    requires StuckEject(s, b)
    ensures StuckEject(RunOps(s, ops), b) && NoNewLink(s, RunOps(s, ops))
  {
    if ops != [] {
      var before := ops[..|ops| - 1];
      StuckForGood(s, before, b);
      StuckStep(RunOps(s, before), ops[|ops| - 1], b);
      hide Apply, StuckEject;
      LinksThrough(s, RunOps(s, before), RunOps(s, ops));
    }
  }

  /** An exception that is not caught leaves such a row behind, whatever else is going on. */
  lemma UncaughtSticks(s: State, b: nat, now: int, reply: UnmountReply, more: seq<Op>)
    requires b < s.nextBackup && Ejecting(s, b) && s.backups[b].stage.Opened? && reply.OtherException?
    ensures var t := RunOps(Unmount(s, b, now, reply), more); StuckEject(t, b) && NoNewLink(s, t)
  {
    StuckForGood(Unmount(s, b, now, reply), more, b);
    hide RunOps, StuckEject;
  }
}
