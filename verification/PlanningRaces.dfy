/**
 Steps that work on a row read earlier. A tick, a detection, a confirmation and a run-now request all hold their
 row while the agent is asked, and write it back over what has been stored meanwhile.
 */
module PlanningRaces {
  import opened Wrappers
  import opened PlanningModel
  import opened PlanningInvariants

  function WriteBack(read: Run, computed: Run, stored: Run): Run {
    stored.(status := Column(read.status, computed.status, stored.status),
            diskSeenAt := Column(read.diskSeenAt, computed.diskSeenAt, stored.diskSeenAt),
            reminderSentAt := Column(read.reminderSentAt, computed.reminderSentAt, stored.reminderSentAt),
            backupRunId := Column(read.backupRunId, computed.backupRunId, stored.backupRunId),
            startedAt := Column(read.startedAt, computed.startedAt, stored.startedAt),
            finishedAt := Column(read.finishedAt, computed.finishedAt, stored.finishedAt))
  }

  /** A turn that decides on the row `read` and then writes it back over whatever is stored by now. */
  function StaleTurn(s: State, r: nat, read: Run, now: int, agent: AgentReply): State
    requires r < |s.runs|
  {
    var t := Turn(Put(s, r, read), r, now, agent);
    Put(t, r, WriteBack(read, t.runs[r], s.runs[r]))
  }

  /** If the row was read just now this is the turn itself. */
  lemma FreshReadIsTurn(s: State, r: nat, now: int, agent: AgentReply)
    requires Known(s, r)
    ensures StaleTurn(s, r, s.runs[r], now, agent) == Turn(s, r, now, agent)
  {
    assert Put(s, r, s.runs[r]) == s;
    var t := Turn(s, r, now, agent);
    TurnKeepsKey(s, r, now, agent);
    hide Turn;
    assert WriteBack(s.runs[r], t.runs[r], s.runs[r]) == t.runs[r];
  }

  lemma TurnKeepsKey(s: State, r: nat, now: int, agent: AgentReply)
    requires Known(s, r)
    ensures SameKey(s.runs[r], Turn(s, r, now, agent).runs[r])
  {
    var synced := SyncLinked(s, r, now);
    assert SameKey(s.runs[r], synced.runs[r]) && Known(synced, r) by { hide EjectAfterSync; }
    var reminded := Remind(synced, r, now);
    assert SameKey(synced.runs[r], reminded.runs[r]) && Known(reminded, r) by { hide SyncLinked; }
    DecideKeepsKey(reminded, r, now, agent);
    hide SyncLinked, Remind, Decide;
  }

  predicate SameKey(a: Run, b: Run) {
    b.eventId == a.eventId && b.scheduledFor == a.scheduledFor
    && b.windowStartsAt == a.windowStartsAt && b.windowEndsAt == a.windowEndsAt
  }

  lemma DecideKeepsKey(s: State, r: nat, now: int, agent: AgentReply)
    requires Known(s, r)
    ensures SameKey(s.runs[r], Decide(s, r, now, agent).runs[r])
  {
    var seen := SeeDisk(s, r, now);
    assert SameKey(s.runs[r], seen.runs[r]) && Known(seen, r);
    AdvanceKeepsKey(seen, r, now, agent);
    hide Advance, PresentDisk;
  }

  lemma AdvanceKeepsKey(s: State, r: nat, now: int, agent: AgentReply)
    requires Known(s, r)
    ensures SameKey(s.runs[r], Advance(s, r, now, agent).runs[r])
  {
    hide StartOf, Launch, Refuse, SetStatus, RunExternalBackup;
  }

  /**
   When a turn leaves the status of the row it read alone: a running run whose backup is active or gone, a
   run before its window or after it once its disk was seen, a run waiting already for what it must wait for.
   */
  predicate LeavesStatus(s: State, run: Run, event: Event, now: int, agent: AgentReply) {
    if !Open(run.status) || !event.Live() then true
    else if run.status.Running? && run.backupRunId.Some? then
      run.backupRunId.value !in s.backups || s.backups[run.backupRunId.value].Active()
    else if now > run.windowEndsAt then !CanMarkMissed(run)
    else if now < run.windowStartsAt then true
    else if !PresentMatch(s.disks, event.diskSerial) then !run.status.Pending?
    else AdvanceLeaves(s, run, event, agent)
  }

  /** The same for a run whose disk is there. */
  predicate AdvanceLeaves(s: State, run: Run, event: Event, agent: AgentReply) {
    || run.backupRunId.Some?
    || (if event.startMode.ManualConfirmation? then run.status.WaitingForConfirmation?
        else StartLeaves(s, run.status, event.diskSerial, agent))
  }

  /** And for a run that is started: it waits already for the backup or for the disk it must wait for. */
  predicate StartLeaves(s: State, status: RunStatus, serial: string, agent: AgentReply) {
    var disk := DiskToUse(s.disks, serial);
    if AnyActive(s) || (disk.Some? && agent.AlreadyActive?) then status.WaitingForExternalBackup?
    else disk.None? && status.WaitingForDisk?
  }

  lemma TurnKeepsStatusIff(s: State, r: nat, now: int, agent: AgentReply)
    requires Known(s, r) && (s.runs[r].status.Running? ==> s.runs[r].backupRunId.Some?)
    ensures Turn(s, r, now, agent).runs[r].status == s.runs[r].status
            <==> LeavesStatus(s, s.runs[r], EventOf(s, r), now, agent)
  {
    if TakesTurn(s, r) {
      if Linked(s, r) && !s.backups[s.runs[r].backupRunId.value].Active() {
        EndsWithItsBackup(s, r, now, agent);
      } else {
        ReminderLeavesStatus(s, r, now, agent);
        DecideKeepsStatusIff(Remind(s, r, now), r, now, agent);
        NothingToSync(s, r, now);
      }
    }
    hide SyncLinked, Decide, Remind, LeavesStatus;
  }

  lemma NothingToSync(s: State, r: nat, now: int)
    requires Known(s, r) && !(Linked(s, r) && !s.backups[s.runs[r].backupRunId.value].Active())
    ensures SyncLinked(s, r, now) == s && Remind(s, r, now).runs[r].status == s.runs[r].status
  {
  }

  lemma EndsWithItsBackup(s: State, r: nat, now: int, agent: AgentReply)
    requires TakesTurn(s, r) && Linked(s, r) && !s.backups[s.runs[r].backupRunId.value].Active()
    ensures SyncLinked(s, r, now).runs[r].status in {Success, Failure}
    ensures !LeavesStatus(s, s.runs[r], EventOf(s, r), now, agent)
  {
    hide EjectAfterSync, PresentMatch, AdvanceLeaves;
  }

  lemma ReminderLeavesStatus(s: State, r: nat, now: int, agent: AgentReply)
    requires Known(s, r)
    ensures var t := Remind(s, r, now);
            && LeavesStatus(t, t.runs[r], EventOf(t, r), now, agent)
            == LeavesStatus(s, s.runs[r], EventOf(s, r), now, agent)
            && (TakesTurn(s, r) ==> TakesTurn(t, r)) && (Linked(t, r) <==> Linked(s, r))
  {
    SameAnswer(s, Remind(s, r, now), r, agent);
    hide PresentMatch, StartLeaves;
  }

  lemma DecideKeepsStatusIff(s: State, r: nat, now: int, agent: AgentReply)
    requires TakesTurn(s, r) && (s.runs[r].status.Running? ==> s.runs[r].backupRunId.Some?)
    requires !(Linked(s, r) && !s.backups[s.runs[r].backupRunId.value].Active())
    ensures Decide(s, r, now, agent).runs[r].status == s.runs[r].status
            <==> LeavesStatus(s, s.runs[r], EventOf(s, r), now, agent)
  {
    SeenAdvanceIff(s, r, now, agent);
    assert PresentDisk(s.disks, EventOf(s, r).diskSerial).Some? <==> PresentMatch(s.disks, EventOf(s, r).diskSerial);
    hide Advance, SeeDisk, PresentDisk, PresentMatch, AdvanceLeaves;
  }

  lemma SeenAdvanceIff(s: State, r: nat, now: int, agent: AgentReply)
    requires TakesTurn(s, r) && (s.runs[r].status.Running? ==> s.runs[r].backupRunId.Some?)
    ensures Advance(SeeDisk(s, r, now), r, now, agent).runs[r].status == s.runs[r].status
            <==> AdvanceLeaves(s, s.runs[r], EventOf(s, r), agent)
  {
    var t := SeeDisk(s, r, now);
    AdvanceKeepsStatusIff(t, r, now, agent);
    hide Advance, StartLeaves;
    assert StartLeaves(t, s.runs[r].status, EventOf(s, r).diskSerial, agent)
        == StartLeaves(s, s.runs[r].status, EventOf(s, r).diskSerial, agent) by { SameAnswer(s, t, r, agent); }
  }

  lemma SameAnswer(s: State, t: State, r: nat, agent: AgentReply)
    requires Known(s, r) && t.backups == s.backups && t.disks == s.disks
    ensures StartLeaves(t, s.runs[r].status, EventOf(s, r).diskSerial, agent)
         == StartLeaves(s, s.runs[r].status, EventOf(s, r).diskSerial, agent)
  {
    assert AnyActive(t) == AnyActive(s);
    hide DiskToUse, AnyActive;
  }

  lemma AdvanceKeepsStatusIff(s: State, r: nat, now: int, agent: AgentReply)
    requires TakesTurn(s, r) && (s.runs[r].status.Running? ==> s.runs[r].backupRunId.Some?)
    ensures Advance(s, r, now, agent).runs[r].status == s.runs[r].status
            <==> AdvanceLeaves(s, s.runs[r], EventOf(s, r), agent)
  {
    if s.runs[r].backupRunId.None? {
      StartKeepsStatusIff(s, r, now, agent, true);
    }
    hide StartRun, StartLeaves;
  }

  lemma StartKeepsStatusIff(s: State, r: nat, now: int, agent: AgentReply, announce: bool)
    requires Known(s, r) && Open(s.runs[r].status) && !s.runs[r].status.Running?
    ensures StartRun(s, r, now, agent, announce).runs[r].status == s.runs[r].status
            <==> StartLeaves(s, s.runs[r].status, EventOf(s, r).diskSerial, agent)
  {
    WayIsTaken(s, EventOf(s, r).diskSerial, agent);
    hide StartOf, AnyActive, DiskToUse, Launch, Refuse, SetStatus, RunExternalBackup;
  }

  lemma WayIsTaken(s: State, serial: string, agent: AgentReply)
    ensures var way, disk := StartOf(s, serial, agent), DiskToUse(s.disks, serial);
            && (way.AwaitBackup? <==> AnyActive(s) || (disk.Some? && agent.AlreadyActive?))
            && (way.AwaitDisk? <==> !AnyActive(s) && disk.None?)
  {
    WayIsFree(s, serial, agent);
    hide StartOf, DiskToUse, AnyActive, PlanExists;
  }

  // ----- rows that end are dated -----

  /** Not cancelled, and dated exactly if ended. */
  predicate Dated(run: Run) {
    !run.status.Cancelled? && (run.finishedAt.Some? <==> run.status in {Success, Failure, Missed})
  }

  lemma TurnDates(s: State, r: nat, now: int, agent: AgentReply)
    requires Known(s, r) && Dated(s.runs[r])
    ensures Dated(Turn(s, r, now, agent).runs[r])
  {
    if TakesTurn(s, r) {
      SyncDates(s, r, now);
      var synced := SyncLinked(s, r, now);
      if !Closed(synced.runs[r].status) {
        var reminded := Remind(synced, r, now);
        RemindDates(synced, r, now);
        DecideDates(reminded, r, now, agent);
      }
    }
    hide SyncLinked, Remind, Decide, Dated;
  }

  lemma SyncDates(s: State, r: nat, now: int)
    requires TakesTurn(s, r) && Dated(s.runs[r])
    ensures var run := SyncLinked(s, r, now).runs[r]; Dated(run) && (Open(run.status) || Closed(run.status))
  {
    hide EjectAfterSync;
  }

  lemma RemindDates(s: State, r: nat, now: int)
    requires Known(s, r) && Dated(s.runs[r])
    ensures var run := Remind(s, r, now).runs[r]; Dated(run) && run.status == s.runs[r].status
  {
  }

  lemma DecideDates(s: State, r: nat, now: int, agent: AgentReply)
    requires Known(s, r) && Dated(s.runs[r]) && Open(s.runs[r].status)
    ensures Dated(Decide(s, r, now, agent).runs[r])
  {
    var seen := SeeDisk(s, r, now);
    assert Dated(seen.runs[r]) && Open(seen.runs[r].status);
    assert Dated(MarkMissed(s, r, now).runs[r]) && Dated(SetStatus(s, r, WaitingForDisk).runs[r]);
    AdvanceDates(seen, r, now, agent);
    hide Advance, SeeDisk, MarkMissed, SetStatus, PresentDisk, Dated;
  }

  lemma AdvanceDates(s: State, r: nat, now: int, agent: AgentReply)
    requires Known(s, r) && Dated(s.runs[r])
    ensures !Ended(s.runs[r].status) ==> Dated(Advance(s, r, now, agent).runs[r])
  {
    StartDates(s, r, now, agent, true);
    hide StartRun;
  }

  lemma StartDates(s: State, r: nat, now: int, agent: AgentReply, announce: bool)
    requires Known(s, r) && Dated(s.runs[r])
    ensures !Ended(s.runs[r].status) ==> Dated(StartRun(s, r, now, agent, announce).runs[r])
  {
    hide StartOf, Launch, Refuse, SetStatus, RunExternalBackup;
  }

  // ----- a cancellation that comes in between -----

  /** The row was cancelled after it was read. */
  predicate CancelledSince(read: Run, stored: Run, cancelledAt: int) {
    Open(read.status) && read.finishedAt.None? && stored == read.(status := Cancelled, finishedAt := Some(cancelledAt))
  }

  /**
   Whoever writes the row back: the cancellation survives exactly if the status was not changed, and its time
   stays unless the writer ends the run too.
   */
  lemma WrittenBack(read: Run, computed: Run, stored: Run, cancelledAt: int)
    requires CancelledSince(read, stored, cancelledAt) && Dated(computed)
    ensures var after := WriteBack(read, computed, stored);
            && (after.status.Cancelled? <==> computed.status == read.status)
            && after.finishedAt ==
                 if after.status in {Success, Failure, Missed} then computed.finishedAt else Some(cancelledAt)
  {
  }

  /**
   A cancellation committed after a tick read the row survives exactly when the turn has no status to write;
   otherwise the turn's status replaces it, and its time stays unless the turn ends the run too.
   */
  lemma CancellationSurvivesIff(s: State, r: nat, read: Run, cancelledAt: int, now: int, agent: AgentReply)
    requires Known(s, r) && read.eventId == s.runs[r].eventId && CancelledSince(read, s.runs[r], cancelledAt)
    requires read.status.Running? ==> read.backupRunId.Some?
    ensures var after := StaleTurn(s, r, read, now, agent).runs[r];
            var computed := Turn(Put(s, r, read), r, now, agent).runs[r];
            && (after.status.Cancelled? <==> LeavesStatus(s, read, EventOf(s, r), now, agent))
            && after.finishedAt ==
                 if after.status in {Success, Failure, Missed} then computed.finishedAt else Some(cancelledAt)
  {
    var seen := Put(s, r, read);
    TurnKeepsStatusIff(seen, r, now, agent);
    TurnDates(seen, r, now, agent);
    LeavesAsSeen(s, r, read, now, agent);
    WrittenBack(read, Turn(seen, r, now, agent).runs[r], s.runs[r], cancelledAt);
    hide Turn, LeavesStatus, WriteBack;
  }

  lemma LeavesAsSeen(s: State, r: nat, read: Run, now: int, agent: AgentReply)
    requires Known(s, r) && read.eventId == s.runs[r].eventId
    ensures var seen := Put(s, r, read);
            && LeavesStatus(seen, read, EventOf(s, r), now, agent) == LeavesStatus(s, read, EventOf(s, r), now, agent)
            && StartLeaves(seen, read.status, EventOf(s, r).diskSerial, agent)
            == StartLeaves(s, read.status, EventOf(s, r).diskSerial, agent)
  {
    assert AnyActive(Put(s, r, read)) == AnyActive(s);
    hide PresentMatch, AnyActive, DiskToUse;
  }

  /** A start on a row read earlier. */
  function StaleStart(s: State, r: nat, read: Run, now: int, agent: AgentReply, announce: bool): State
    requires Known(s, r) && read.eventId == s.runs[r].eventId
  {
    var t := StartRun(Put(s, r, read), r, now, agent, announce);
    Put(t, r, WriteBack(read, t.runs[r], s.runs[r]))
  }

  /**
   A cancellation committed while a start asks the agent survives exactly if the run waits already for what the
   start makes it wait for.
   */
  lemma CancellationSurvivesStartIff(s: State, r: nat, read: Run, cancelledAt: int, now: int, agent: AgentReply,
                                     announce: bool)
    requires Known(s, r) && read.eventId == s.runs[r].eventId && CancelledSince(read, s.runs[r], cancelledAt)
    requires !read.status.Running?
    ensures var after := StaleStart(s, r, read, now, agent, announce).runs[r];
            && (after.status.Cancelled? <==> StartLeaves(s, read.status, EventOf(s, r).diskSerial, agent))
            && (after.finishedAt == if after.status.Failure? then Some(now) else Some(cancelledAt))
  {
    var seen := Put(s, r, read);
    StartKeepsStatusIff(seen, r, now, agent, announce);
    StartDates(seen, r, now, agent, announce);
    StartEnds(seen, r, now, agent, announce);
    LeavesAsSeen(s, r, read, now, agent);
    WrittenBack(read, StartRun(seen, r, now, agent, announce).runs[r], s.runs[r], cancelledAt);
    hide StartRun, StartLeaves, WriteBack;
  }

  /** A start ends a run only as a failure, dated now. */
  lemma StartEnds(s: State, r: nat, now: int, agent: AgentReply, announce: bool)
    requires Known(s, r) && !Ended(s.runs[r].status)
    ensures var run := StartRun(s, r, now, agent, announce).runs[r];
            !run.status.Success? && !run.status.Missed? && (run.status.Failure? ==> run.finishedAt == Some(now))
  {
    hide StartOf, Launch, Refuse, SetStatus, RunExternalBackup;
  }

  /** A confirmation on a row read earlier: too late it cancels, in time it starts the run. */
  function StaleConfirm(s: State, r: nat, read: Run, now: int, agent: AgentReply): State
    requires Known(s, r) && read.eventId == s.runs[r].eventId
  {
    if now > read.windowEndsAt
    then Put(s, r, WriteBack(read, read.(status := Cancelled, finishedAt := Some(now)), s.runs[r]))
    else StaleStart(s, r, read, now, agent, false)
  }

  /** A confirmation inside the window always overwrites a cancellation committed since it read the row. */
  lemma ConfirmationOverwritesIff(s: State, r: nat, read: Run, cancelledAt: int, now: int, agent: AgentReply)
    requires Known(s, r) && read.eventId == s.runs[r].eventId && CancelledSince(read, s.runs[r], cancelledAt)
    requires read.status.WaitingForConfirmation?
    ensures StaleConfirm(s, r, read, now, agent).runs[r].status.Cancelled? <==> now > read.windowEndsAt
  {
    CancellationSurvivesStartIff(s, r, read, cancelledAt, now, agent, false);
    hide StaleStart, AnyActive, DiskToUse;
  }

  /** So does a run-now request, whose row is new and pending, at any time. */
  lemma RunNowOverwrites(s: State, r: nat, read: Run, cancelledAt: int, now: int, agent: AgentReply)
    requires Known(s, r) && read.eventId == s.runs[r].eventId && CancelledSince(read, s.runs[r], cancelledAt)
    requires read.status.Pending?
    ensures !StaleStart(s, r, read, now, agent, false).runs[r].status.Cancelled?
  {
    CancellationSurvivesStartIff(s, r, read, cancelledAt, now, agent, false);
    hide StaleStart, AnyActive, DiskToUse;
  }

  /** A detection's turn on a row read earlier. */
  function StaleDetect(s: State, r: nat, read: Run, disk: Disk, now: int, agent: AgentReply): State
    requires r < |s.runs|
  {
    var t := DetectTurn(Put(s, r, read), r, disk, now, agent);
    Put(t, r, WriteBack(read, t.runs[r], s.runs[r]))
  }

  /**
   A cancellation committed after a detection read the row survives exactly if the detection passes the run over,
   or starts it without confirmation and makes it wait for the disk it was waiting for.
   */
  lemma CancellationSurvivesDetectionIff(s: State, r: nat, read: Run, disk: Disk, cancelledAt: int, now: int,
                                         agent: AgentReply)
    requires Known(s, r) && read.eventId == s.runs[r].eventId && CancelledSince(read, s.runs[r], cancelledAt)
    requires read.backupRunId.None?
    ensures var after := StaleDetect(s, r, read, disk, now, agent).runs[r];
            after.status.Cancelled? <==>
              || !Detectable(Put(s, r, read), r, disk, now)
              || (read.status.WaitingForDisk? && !EventOf(s, r).startMode.ManualConfirmation?
                  && !AnyActive(s) && DiskToUse(s.disks, EventOf(s, r).diskSerial).None?)
  {
    var seen := Put(s, r, read);
    if Detectable(seen, r, disk, now) {
      DetectedLeavesIff(seen, r, now, agent);
      DetectedDates(seen, r, now, agent);
      WrittenBack(read, Advance(SeeDisk(seen, r, now), r, now, agent).runs[r], s.runs[r], cancelledAt);
      assert AnyActive(seen) == AnyActive(s);
      hide Advance, SeeDisk, DiskMatches, WriteBack, AnyActive, DiskToUse;
    }
    hide Advance, DiskMatches;
  }

  lemma DetectedDates(s: State, r: nat, now: int, agent: AgentReply)
    requires Known(s, r) && Dated(s.runs[r]) && !Ended(s.runs[r].status)
    ensures Dated(Advance(SeeDisk(s, r, now), r, now, agent).runs[r])
  {
    AdvanceDates(SeeDisk(s, r, now), r, now, agent);
    hide Advance;
  }

  lemma DetectedLeavesIff(s: State, r: nat, now: int, agent: AgentReply)
    requires Known(s, r) && s.runs[r].status in {Pending, WaitingForDisk} && s.runs[r].backupRunId.None?
    ensures Advance(SeeDisk(s, r, now), r, now, agent).runs[r].status == s.runs[r].status <==>
              s.runs[r].status.WaitingForDisk? && !EventOf(s, r).startMode.ManualConfirmation?
              && !AnyActive(s) && DiskToUse(s.disks, EventOf(s, r).diskSerial).None?
  {
    var t := SeeDisk(s, r, now);
    StartKeepsStatusIff(t, r, now, agent, true);
    assert AnyActive(t) == AnyActive(s);
    hide StartRun, AnyActive, DiskToUse;
  }

  // ----- a start that comes in between -----

  /** The run was started after the row was read, and its backup is still active. */
  predicate StartedSince(s: State, read: Run, stored: Run, b: nat, startedAt: int) {
    && Open(read.status) && !read.status.Running? && read.backupRunId.None?
    && stored == read.(status := Running, backupRunId := Some(b), startedAt := Some(startedAt))
    && b in s.backups && s.backups[b].Active()
  }

  /** With a backup active no run is linked or set running. */
  predicate StaysUnlinked(before: Run, after: Run) {
    after.backupRunId.None? && after.startedAt == before.startedAt && !after.status.Running?
  }

  lemma StartBlocked(s: State, r: nat, now: int, agent: AgentReply, announce: bool)
    requires Known(s, r) && AnyActive(s)
    ensures StartRun(s, r, now, agent, announce) == SetStatus(s, r, WaitingForExternalBackup)
  {
    hide AnyActive, SetStatus, Launch, Refuse;
  }

  lemma AdvanceBlocked(s: State, r: nat, now: int, agent: AgentReply)
    requires Known(s, r) && AnyActive(s) && StaysUnlinked(s.runs[r], s.runs[r])
    ensures StaysUnlinked(s.runs[r], Advance(s, r, now, agent).runs[r])
  {
    StartBlocked(s, r, now, agent, true);
    hide StartRun;
  }

  lemma DecideBlocked(s: State, r: nat, now: int, agent: AgentReply)
    requires Known(s, r) && AnyActive(s) && StaysUnlinked(s.runs[r], s.runs[r])
    ensures StaysUnlinked(s.runs[r], Decide(s, r, now, agent).runs[r])
  {
    var seen := SeeDisk(s, r, now);
    assert AnyActive(seen) by { assert seen.backups == s.backups; }
    assert StaysUnlinked(s.runs[r], seen.runs[r]) && StaysUnlinked(seen.runs[r], seen.runs[r]);
    assert StaysUnlinked(s.runs[r], MarkMissed(s, r, now).runs[r]);
    AdvanceBlocked(seen, r, now, agent);
    hide Advance, SeeDisk, MarkMissed, PresentDisk, AnyActive;
  }

  lemma TurnBlocked(s: State, r: nat, now: int, agent: AgentReply)
    requires Known(s, r) && AnyActive(s) && StaysUnlinked(s.runs[r], s.runs[r])
    ensures StaysUnlinked(s.runs[r], Turn(s, r, now, agent).runs[r])
  {
    var reminded := Remind(s, r, now);
    NothingToSync(s, r, now);
    assert AnyActive(reminded) by { assert reminded.backups == s.backups; }
    assert StaysUnlinked(s.runs[r], reminded.runs[r]) && StaysUnlinked(reminded.runs[r], reminded.runs[r]);
    DecideBlocked(reminded, r, now, agent);
    hide SyncLinked, Remind, Decide, AnyActive;
  }

  /**
   A start committed after a tick read the row keeps its link, but its status exactly if the turn has none to
   write.
   */
  lemma StartSurvivesIff(s: State, r: nat, read: Run, b: nat, startedAt: int, now: int, agent: AgentReply)
    requires Known(s, r) && read.eventId == s.runs[r].eventId && StartedSince(s, read, s.runs[r], b, startedAt)
    requires read.startedAt.None?
    ensures var after := StaleTurn(s, r, read, now, agent).runs[r];
            && after.backupRunId == Some(b) && after.startedAt == Some(startedAt)
            && (after.status.Running? <==> LeavesStatus(s, read, EventOf(s, r), now, agent))
  {
    var seen := Put(s, r, read);
    assert AnyActive(seen) by { assert b in seen.backups; }
    TurnKeepsStatusIff(seen, r, now, agent);
    TurnBlocked(seen, r, now, agent);
    LeavesAsSeen(s, r, read, now, agent);
    hide Turn, LeavesStatus, AnyActive;
  }

  /** A second start on the row as it was read leaves the run waiting for a backup, unless it waited for one before. */
  lemma StartOverStart(s: State, r: nat, read: Run, b: nat, startedAt: int, now: int, agent: AgentReply, announce: bool)
    requires Known(s, r) && read.eventId == s.runs[r].eventId && StartedSince(s, read, s.runs[r], b, startedAt)
    ensures StaleStart(s, r, read, now, agent, announce).runs[r] == s.runs[r].(
              status := if read.status.WaitingForExternalBackup? then Running else WaitingForExternalBackup)
  {
    var seen := Put(s, r, read);
    assert AnyActive(seen) by { assert b in seen.backups; }
    StartBlocked(seen, r, now, agent, announce);
    hide StartRun, AnyActive;
  }

  /** A detection keeps it exactly if it passes the run over. */
  lemma DetectionKeepsStartIff(s: State, r: nat, read: Run, b: nat, startedAt: int, disk: Disk, now: int,
                               agent: AgentReply)
    requires Known(s, r) && read.eventId == s.runs[r].eventId && StartedSince(s, read, s.runs[r], b, startedAt)
    requires read.startedAt.None?
    ensures var after := StaleDetect(s, r, read, disk, now, agent).runs[r];
            && after.backupRunId == Some(b) && after.startedAt == Some(startedAt)
            && (after.status.Running? <==> !Detectable(Put(s, r, read), r, disk, now))
  {
    var seen := Put(s, r, read);
    assert AnyActive(seen) by { assert b in seen.backups; }
    if Detectable(seen, r, disk, now) {
      DetectedBlocked(seen, r, now, agent);
      hide Advance, SeeDisk, DiskMatches, AnyActive;
    }
    hide Advance, DiskMatches;
  }

  lemma DetectedBlocked(s: State, r: nat, now: int, agent: AgentReply)
    requires Known(s, r) && AnyActive(s) && StaysUnlinked(s.runs[r], s.runs[r])
    requires s.runs[r].status in {Pending, WaitingForDisk}
    ensures var t := Advance(SeeDisk(s, r, now), r, now, agent);
            StaysUnlinked(s.runs[r], t.runs[r]) && t.runs[r].status != s.runs[r].status
  {
    var seen := SeeDisk(s, r, now);
    assert AnyActive(seen) by { assert seen.backups == s.backups; }
    AdvanceBlocked(seen, r, now, agent);
    StartBlocked(seen, r, now, agent, true);
    hide StartRun, AnyActive;
  }
}
