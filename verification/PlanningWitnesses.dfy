/** Runs of the engine that show what the exceptions in the other results are about. */
module PlanningWitnesses {
  import opened Wrappers
  import opened Calendar
  import opened Recurrence
  import opened SerialIdentity
  import opened PlanningModel
  import opened PlanningCoverage
  import opened PlanningTicks
  import opened PlanningOutcomes
  import opened PlanningRaces

  /** A weekly event with an hour's window for the disk with serial "S". */
  function WeeklyEvent(mode: StartMode): Event {
    Event(Schedule(Weekly, DateTime(Date(2024, 1, 1), 0), false), true, "S", 60, 0, mode, false, None, None, None)
  }

  const DEDICATED: Disk := Disk(
    7, "S", None, None, [], true, true, true, true, false, false, true, None, Some("usb0"), None, None, false)

  /** Its run for time 0, asked for by hand before the disk is known. */
  function Waiting(mode: StartMode): Run {
    NewRun(0, WeeklyEvent(mode), 0).(status := WaitingForDisk)
  }

  function Requested(mode: StartMode): State {
    Initial(false).(events := [WeeklyEvent(mode)], runs := [Waiting(mode)])
  }

  function Request(mode: StartMode): seq<Op> {
    [SaveEventOp(0, WeeklyEvent(mode), 0), RunNowOp(0, 0, Idle)]
  }

  lemma RequestWaits(s: State, mode: StartMode)
    requires s == Initial(false).(events := [WeeklyEvent(mode)])
    ensures Apply(s, RunNowOp(0, 0, Idle)) == Requested(mode)
  {
    var t := s.(runs := [NewRun(0, WeeklyEvent(mode), 0)]);
    assert !AnyActive(t);
    assert StartRun(t, 0, 0, Idle, false) == SetStatus(t, 0, WaitingForDisk);
    assert s.runs + [NewRun(0, WeeklyEvent(mode), 0)] == t.runs;
    hide StartRun, AnyActive;
  }

  lemma EventSaved(mode: StartMode)
    ensures var event := WeeklyEvent(mode);
            Apply(Initial(false), SaveEventOp(0, event, 0)) == Initial(false).(events := [event])
  {
  }

  /** A run asked for at time 0 without its disk waits for it. */
  lemma RequestedIsReached(mode: StartMode)
    ensures RunOps(Initial(false), Request(mode)) == Requested(mode)
  {
    EventSaved(mode);
    RequestWaits(Initial(false).(events := [WeeklyEvent(mode)]), mode);
    TwoOps(Initial(false), SaveEventOp(0, WeeklyEvent(mode), 0), RunNowOp(0, 0, Idle));
    hide RunOps, Apply, WeeklyEvent, Requested, Initial;
  }

  // ----- a missed run is cancelled, and a cancelled one missed -----

  /** The hour passes: the next turn misses the run, and a request then cancels it. */
  lemma MissedThenCancelled()
    ensures var request := Request(ManualConfirmation);
            var missed := RunOps(Initial(false), request + [TurnOp(0, HOUR + 1, Idle)]);
            var last := RunOps(Initial(false), request + [TurnOp(0, HOUR + 1, Idle)] + [CancelOp(0, HOUR + 2)]);
            |missed.runs| == |last.runs| == 1 && missed.runs[0].status.Missed? && last.runs[0].status.Cancelled?
  {
    var request := Request(ManualConfirmation);
    RequestedIsReached(ManualConfirmation);
    RunOpsLast(Initial(false), request, TurnOp(0, HOUR + 1, Idle));
    RunOpsLast(Initial(false), request + [TurnOp(0, HOUR + 1, Idle)], CancelOp(0, HOUR + 2));
    hide RunOps;
    var s := Requested(ManualConfirmation);
    assert Known(s, 0) && SyncLinked(s, 0, HOUR + 1) == s;
    assert Decide(Remind(s, 0, HOUR + 1), 0, HOUR + 1, Idle).runs[0].status.Missed?;
  }

  /**
   A request cancels the run while a turn that had read it before decides that it was missed: MISSED is what
   stays.
   */
  lemma CancellationLost()
    ensures var s := RunOps(Initial(false), Request(ManualConfirmation));
            var t := RunOps(Initial(false), Request(ManualConfirmation) + [CancelOp(0, HOUR)]);
            && |s.runs| == |t.runs| == 1
            && t.runs[0] == s.runs[0].(status := Cancelled, finishedAt := Some(HOUR))
            && StaleTurn(t, 0, s.runs[0], HOUR + 1, Idle).runs[0].status.Missed?
  {
    RequestedIsReached(ManualConfirmation);
    RunOpsLast(Initial(false), Request(ManualConfirmation), CancelOp(0, HOUR));
    hide RunOps;
    var s := Requested(ManualConfirmation);
    var t := Apply(s, CancelOp(0, HOUR));
    assert Put(t, 0, s.runs[0]) == s;
    assert Known(s, 0) && SyncLinked(s, 0, HOUR + 1) == s;
    assert Decide(Remind(s, 0, HOUR + 1), 0, HOUR + 1, Idle).runs[0].status.Missed?;
  }

  // ----- two batches at once -----

  lemma SerialIsItsAlias()
    ensures "S" in ApiAliases(Some("S"))
  {
    ApiMembers(Some("S"));
    assert StripLeft("S") == "S" && StripRight("S") == "S" && Squeeze("S") == "S";
    hide ApiAliases, CanonicalSerial, StripVendorPrefix, DecodeHexAscii;
  }

  /** The disk carries the serial of the event. */
  lemma DedicatedMatches()
    ensures PresentDisk([DEDICATED], "S") == Some(0)
  {
    SerialIsItsAlias();
    hide ApiAliases;
    assert SerialsMatch(Some("S"), Some("S"));
    hide SerialsMatch;
    assert DiskMatches(DEDICATED, "S");
    hide DiskMatches;
  }

  const STARTS: int := DateTime(Date(2024, 1, 1), 0).Instant()

  /** The first occurrence is due in a batch that reaches it, for the disk or for all. */
  lemma FirstIsDue(s: State, disk: Option<Disk>, hi: int)
    requires s.events == [WeeklyEvent(ManualConfirmation)] && disk in {None, Some(DEDICATED)} && STARTS <= hi
    ensures DueIn(s, disk, STARTS - 24 * HOUR, hi, 0, STARTS)
  {
    DedicatedMatches();
    assert DiskMatches(DEDICATED, "S") by { hide DiskMatches; }
    hide DiskMatches, PresentDisk;
    assert Occurrence(WeeklyEvent(ManualConfirmation).schedule, 0) == STARTS;
    hide Occurrence;
  }

  /** Both batches of a moment, the scheduler's and that of a detection, on top of what is committed. */
  function BothBatches(s: State, now: int): seq<Run> {
    s.runs + DueRuns(s.runs, s.events, |s.events|, None, now - 24 * HOUR, now + 24 * HOUR)
    + DueRuns(s.runs, s.events, |s.events|, Some(DEDICATED), now - 24 * HOUR, now + HOUR)
  }

  lemma BatchesRepeat(s: State)
    requires s.events == [WeeklyEvent(ManualConfirmation)] && s.runs == []
    ensures HasTwoRuns(BothBatches(s, STARTS), 0, STARTS)
  {
    hide DueIn, DueRuns, HasTwoRuns;
    FirstIsDue(s, None, STARTS + 24 * HOUR);
    FirstIsDue(s, Some(DEDICATED), STARTS + HOUR);
    OverlappingBatches(s, s, None, STARTS - 24 * HOUR, STARTS + 24 * HOUR, Some(DEDICATED), STARTS - 24 * HOUR,
                       STARTS + HOUR, 0, STARTS);
  }

  lemma SavedAlone(save: Op)
    requires save == SaveEventOp(0, WeeklyEvent(ManualConfirmation), 0)
    ensures RunOps(Initial(false), [save]) == Initial(false).(events := [WeeklyEvent(ManualConfirmation)])
  {
    RunOpsLast(Initial(false), [], save);
    assert [] + [save] == [save];
    hide RunOps;
  }

  /**
   The first occurrence comes up while its disk is found: the scheduler's batch and the detection's, both queried
   before either commits, give it two runs.
   */
  lemma TwoBatchesRepeat()
    ensures var save := SaveEventOp(0, WeeklyEvent(ManualConfirmation), 0);
            HasTwoRuns(BothBatches(RunOps(Initial(false), [save]), STARTS), 0, STARTS)
  {
    SavedAlone(SaveEventOp(0, WeeklyEvent(ManualConfirmation), 0));
    var s := Initial(false).(events := [WeeklyEvent(ManualConfirmation)]);
    assert s.runs == [];
    hide *;
    BatchesRepeat(s);
  }

  // ----- a confirmation and a cancellation at once -----

  /** The run as a turn with the disk there leaves it. */
  function Asked(): Run {
    Waiting(ManualConfirmation).(status := WaitingForConfirmation, diskSeenAt := Some(1), reminderSentAt := Some(1))
  }

  /** The event, its run and its disk, and no backup yet. */
  predicate OnlyRun(s: State, mode: StartMode, run: Run) {
    && s.events == [WeeklyEvent(mode)] && s.runs == [run] && s.disks == [DEDICATED]
    && s.backups == map[] && s.nextBackup == 0
  }

  lemma TurnAsks(s: State)
    requires OnlyRun(s, ManualConfirmation, Waiting(ManualConfirmation))
    ensures OnlyRun(Turn(s, 0, 1, Idle), ManualConfirmation, Asked())
  {
    assert Known(s, 0) && SyncLinked(s, 0, 1) == s;
    var reminded := Remind(s, 0, 1);
    assert OnlyRun(reminded, ManualConfirmation, s.runs[0].(reminderSentAt := Some(1)));
    assert Turn(s, 0, 1, Idle) == Decide(reminded, 0, 1, Idle) by { hide Decide; }
    DecisionAsks(reminded);
    hide *;
  }

  lemma DecisionAsks(s: State)
    requires OnlyRun(s, ManualConfirmation, Waiting(ManualConfirmation).(reminderSentAt := Some(1)))
    ensures OnlyRun(Decide(s, 0, 1, Idle), ManualConfirmation, Asked())
  {
    DedicatedMatches();
    hide PresentDisk;
    var seen := SeeDisk(s, 0, 1);
    assert OnlyRun(seen, ManualConfirmation, Asked().(status := WaitingForDisk));
    hide SeeDisk, StartRun;
    assert OnlyRun(Advance(seen, 0, 1, Idle), ManualConfirmation, Asked());
    hide Advance;
  }

  lemma GoesAhead(s: State)
    requires s.disks == [DEDICATED] && s.backups == map[]
    ensures StartOf(s, "S", Idle) == Go(0) && RunExternalBackup(s, 0, Idle, false)
         == NewBackup(s, Backup(Export, 7, Queued, None, false, NoStage))
  {
    DedicatedMatches();
    hide PresentDisk;
    assert !AnyActive(s);
  }

  /** With its disk there and nothing active a run is started. */
  lemma Starts(s: State, mode: StartMode, run: Run, now: int, announce: bool)
    requires OnlyRun(s, mode, run) && run.eventId == 0
    ensures var t := StartRun(s, 0, now, Idle, announce);
            && t.events != [] && t.disks == s.disks && t.nextBackup == 1
            && t.runs == [run.(status := Running, backupRunId := Some(0), startedAt := Some(now))]
            && t.backups == map[0 := Backup(Export, 7, Queued, None, false, NoStage)]
  {
    GoesAhead(s);
    hide StartOf, RunExternalBackup;
  }

  function Found(mode: StartMode): seq<Op> {
    Request(mode) + [DisksOp([DEDICATED], 0)]
  }

  lemma FoundIsReached(mode: StartMode)
    ensures OnlyRun(RunOps(Initial(false), Found(mode)), mode, Waiting(mode))
  {
    RequestedIsReached(mode);
    RunOpsLast(Initial(false), Request(mode), DisksOp([DEDICATED], 0));
    hide RunOps, Request;
  }

  lemma AskedIsReached()
    ensures var asked := Found(ManualConfirmation) + [TurnOp(0, 1, Idle)];
            OnlyRun(RunOps(Initial(false), asked), ManualConfirmation, Asked())
  {
    FoundIsReached(ManualConfirmation);
    RunOpsLast(Initial(false), Found(ManualConfirmation), TurnOp(0, 1, Idle));
    var s := RunOps(Initial(false), Found(ManualConfirmation));
    TurnAsks(s);
    assert Apply(s, TurnOp(0, 1, Idle)) == Turn(s, 0, 1, Idle) by { hide Turn; }
    hide *;
  }

  /** If nobody answers, the run waits for its confirmation for good, whatever else happens after its hour. */
  lemma NobodyConfirms(ops: seq<Op>)
    requires After(ops, HOUR)
    requires forall i :: 0 <= i < |ops| && (ops[i].CancelOp? || ops[i].ConfirmOp?) ==> ops[i].r != 0
    ensures var t := RunOps(Initial(false), Found(ManualConfirmation) + [TurnOp(0, 1, Idle)] + ops);
            |t.runs| > 0 && t.runs[0].status.WaitingForConfirmation? && t.runs[0].finishedAt.None?
  {
    AskedIsReached();
    var asked := Found(ManualConfirmation) + [TurnOp(0, 1, Idle)];
    RunOpsAppend(Initial(false), asked, ops);
    hide RunOps, Initial, Found;
    AbandonedForGood(RunOps(Initial(false), asked), ops, 0);
  }

  lemma CancelledInBetween(s: State)
    requires OnlyRun(s, ManualConfirmation, Asked())
    ensures OnlyRun(Apply(s, CancelOp(0, 2)), ManualConfirmation, Asked().(status := Cancelled, finishedAt := Some(2)))
  {
  }

  /** A confirmation goes ahead on the row it has read. */
  lemma ConfirmationStarts(s: State, run: Run)
    requires OnlyRun(s, ManualConfirmation, run) && run.eventId == 0
    ensures var t := StaleConfirm(s, 0, Asked(), 3, Idle);
            && |t.runs| == 1 && t.runs[0].status.Running? && t.runs[0].backupRunId == Some(0)
            && 0 in t.backups && t.backups[0].status.Queued?
  {
    Starts(Put(s, 0, Asked()), ManualConfirmation, Asked(), 3, false);
    hide StartRun;
  }

  /**
   A run waits for confirmation and is cancelled while a confirmation that had read it before asks the agent: the
   run is running, and its backup is queued.
   */
  lemma ConfirmedOverCancellation()
    ensures var asked := Found(ManualConfirmation) + [TurnOp(0, 1, Idle)];
            var s, t := RunOps(Initial(false), asked), RunOps(Initial(false), asked + [CancelOp(0, 2)]);
            && |s.runs| == |t.runs| == 1 && Known(t, 0) && t.runs[0].eventId == s.runs[0].eventId
            && s.runs[0].status.WaitingForConfirmation? && t.runs[0].status.Cancelled?
            && var last := StaleConfirm(t, 0, s.runs[0], 3, Idle);
               && |last.runs| == 1 && last.runs[0].status.Running? && last.runs[0].backupRunId == Some(0)
               && 0 in last.backups && last.backups[0].status.Queued?
  {
    AskedIsReached();
    var asked := Found(ManualConfirmation) + [TurnOp(0, 1, Idle)];
    RunOpsLast(Initial(false), asked, CancelOp(0, 2));
    var s := RunOps(Initial(false), asked);
    CancelledInBetween(s);
    hide RunOps, Apply, StaleConfirm, Initial, Found;
    ConfirmationStarts(Apply(s, CancelOp(0, 2)), Asked().(status := Cancelled, finishedAt := Some(2)));
  }

  // ----- two starts at once -----

  /** A detection finds the disk and starts the run. */
  lemma DetectionStarts(s: State)
    requires OnlyRun(s, AutoOnDiskDetected, Waiting(AutoOnDiskDetected))
    ensures var t := DetectTurn(s, 0, DEDICATED, 1, Idle);
            && Known(t, 0) && 0 in t.backups && t.backups[0].Active()
            && t.runs == [s.runs[0].(diskSeenAt := Some(1), status := Running, backupRunId := Some(0),
                                     startedAt := Some(1))]
            && t.disks == s.disks && EventOf(t, 0).startMode.AutoOnDiskDetected? && EventOf(t, 0).Live()
            && EventOf(t, 0).diskSerial == "S" && EventOf(t, 0).notifyBeforeMinutes == 0
  {
    DedicatedMatches();
    assert DiskMatches(DEDICATED, "S") by { hide DiskMatches; }
    hide DiskMatches, PresentDisk;
    var seen := SeeDisk(s, 0, 1);
    var run := s.runs[0].(diskSeenAt := Some(1));
    assert OnlyRun(seen, AutoOnDiskDetected, run);
    Starts(seen, AutoOnDiskDetected, run, 1, true);
  }

  /** A turn that had read the row before makes it wait for a backup, its own. */
  lemma TurnCollides(s: State, read: Run)
    requires Known(s, 0) && read == Waiting(AutoOnDiskDetected) && s.runs[0].eventId == 0 && s.disks == [DEDICATED]
    requires AnyActive(s) && EventOf(s, 0).startMode.AutoOnDiskDetected? && EventOf(s, 0).Live()
    requires EventOf(s, 0).diskSerial == "S" && EventOf(s, 0).notifyBeforeMinutes == 0
    ensures var after := StaleTurn(s, 0, read, 2, Idle).runs[0];
            after.status.WaitingForExternalBackup? && after.backupRunId == s.runs[0].backupRunId
  {
    var seen := Put(s, 0, read);
    assert AnyActive(seen) by { assert seen.backups == s.backups; }
    NothingToSync(seen, 0, 2);
    TurnWaits(Remind(seen, 0, 2));
    assert Turn(seen, 0, 2, Idle) == Decide(Remind(seen, 0, 2), 0, 2, Idle) by { hide Decide, Remind, AnyActive; }
    hide Turn, Decide, AnyActive;
  }

  lemma TurnWaits(s: State)
    requires Known(s, 0) && s.runs[0] == Waiting(AutoOnDiskDetected).(reminderSentAt := Some(2))
    requires s.disks == [DEDICATED] && AnyActive(s)
    requires EventOf(s, 0).startMode.AutoOnDiskDetected? && EventOf(s, 0).diskSerial == "S"
    ensures var run := Decide(s, 0, 2, Idle).runs[0]; run.status.WaitingForExternalBackup? && run.backupRunId.None?
  {
    DedicatedMatches();
    hide PresentDisk;
    var seen := SeeDisk(s, 0, 2);
    assert AnyActive(seen) by { assert seen.backups == s.backups; }
    StartBlocked(seen, 0, 2, Idle, true);
    hide StartRun, AnyActive;
  }

  /**
   A detection starts the run while a tick holds the row as it was before: the run, whose backup is under way, is
   left waiting for a backup, and stays so until somebody cancels it.
   */
  lemma TwoStartsCollide(ops: seq<Op>)
    requires forall i :: 0 <= i < |ops| && ops[i].CancelOp? ==> ops[i].r != 0
    ensures var found := Found(AutoOnDiskDetected);
            var s, t := RunOps(Initial(false), found),
                        RunOps(Initial(false), found + [DetectOp(0, DEDICATED, 1, Idle)]);
            && |s.runs| == |t.runs| == 1 && t.runs[0].status.Running? && t.runs[0].backupRunId == Some(0)
            && var last := RunOps(StaleTurn(t, 0, s.runs[0], 2, Idle), ops);
               |last.runs| > 0 && last.runs[0].status.WaitingForExternalBackup? && last.runs[0].backupRunId == Some(0)
  {
    var found := Found(AutoOnDiskDetected);
    FoundIsReached(AutoOnDiskDetected);
    RunOpsLast(Initial(false), found, DetectOp(0, DEDICATED, 1, Idle));
    var s := RunOps(Initial(false), found);
    DetectionStarts(s);
    var t := DetectTurn(s, 0, DEDICATED, 1, Idle);
    assert AnyActive(t);
    TurnCollides(t, s.runs[0]);
    hide RunOps, DetectTurn, StaleTurn, AnyActive, Initial, Found;
    AdriftForGood(StaleTurn(t, 0, s.runs[0], 2, Idle), ops, 0);
  }

  // ----- an eject that dies -----

  /** A disk is found, an eject of it begins, and the unmount raises something unforeseen. */
  lemma EjectDies()
    ensures var ops := [DisksOp([DEDICATED], 0)] + [OpenEjectOp(0, 0)] + [UnmountOp(0, 1, OtherException)];
            StuckEject(RunOps(Initial(false), ops), 0)
  {
    var ops: seq<Op> := [DisksOp([DEDICATED], 0)];
    assert ops == [] + [DisksOp([DEDICATED], 0)];
    RunOpsLast(Initial(false), [], DisksOp([DEDICATED], 0));
    RunOpsLast(Initial(false), ops, OpenEjectOp(0, 0));
    RunOpsLast(Initial(false), ops + [OpenEjectOp(0, 0)], UnmountOp(0, 1, OtherException));
    hide RunOps;
    var s := Initial(false).(disks := [DEDICATED]);
    assert Apply(Initial(false), DisksOp([DEDICATED], 0)) == s;
    OpensAndDies(s);
    hide Apply;
  }

  lemma OpensAndDies(s: State)
    requires s.backups == map[] && s.nextBackup == 0 && s.disks == [DEDICATED]
    ensures StuckEject(Apply(Apply(s, OpenEjectOp(0, 0)), UnmountOp(0, 1, OtherException)), 0)
  {
    assert CanEject(s, 0);
    hide CanEject;
  }
}
