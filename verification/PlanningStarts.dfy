/** What a backup request, a start, and the three requests on runs answer and write, in terms of the tables alone. */
module PlanningStarts {
  import opened Wrappers
  import opened SerialIdentity
  import opened PlanningModel
  import opened PlanningExclusion

  /** A name the disk goes by: an alias of either serial, a stored alias, or the canonical serial. */
  predicate KnownAs(disk: Disk, name: string) {
    || name in ApiAliases(Some(disk.serialNumber)) || name in ApiAliases(disk.reportedSerial)
    || name in disk.aliases || disk.canonicalSerial == Some(name)
  }

  /** A disk is meant by an event exactly if it goes by one of the aliases of the event's serial. */
  lemma MatchesByName(disk: Disk, serial: string)
    ensures DiskMatches(disk, serial) <==> exists a :: a in ApiAliases(Some(serial)) && KnownAs(disk, a)
  {
    NoAliases(Some(serial));
    NoAliases(Some(disk.serialNumber));
    NoAliases(disk.reportedSerial);
    hide ApiAliases;
    if a :| a in ApiAliases(Some(serial)) && KnownAs(disk, a) {
      assert a in disk.aliases || disk.canonicalSerial == Some(a) ==> HasAlias(disk, a);
    }
  }

  /** An empty or missing serial has no alias, and no alias is empty. */
  lemma NoAliases(serial: Option<string>)
    ensures serial.None? || serial.value == "" ==> ApiAliases(serial) == []
    ensures "" !in ApiAliases(serial)
  {
    ApiMembers(serial);
    if serial.None? || serial.value == "" {
      ShortIsNotHex(serial);
    }
    hide ApiAliases, DecodeHexAscii;
  }

  /** A backup or an eject is pending or running, on any disk. */
  ghost predicate Busy(s: State) {
    exists b :: b in s.backups && s.backups[b].status in {Queued, InProgress}
  }

  /** The agent is idle, and the disk is trusted, connected and either dedicated or allowed to be shared. */
  predicate Accepts(s: State, disk: Disk, agent: AgentReply) {
    && agent.Idle? && disk.trusted && disk.connected
    && (disk.dedicated || disk.allowExistingData || !s.legacyCoexistence)
  }

  /** The tables with one more export queued, for this disk. */
  function Queue(s: State, disk: Disk, autoEject: bool): State {
    s.(backups := s.backups[s.nextBackup := Backup(Export, disk.id, Queued, None, autoEject, NoStage)],
       nextBackup := s.nextBackup + 1)
  }

  /**
   A backup is queued exactly if nothing is active and both agent and disk accept it; it is a conflict exactly if
   something is active, here or on the agent; any other request is rejected and writes nothing.
   */
  lemma BackupAnswer(s: State, i: nat, agent: AgentReply, autoEject: bool)
    requires i < |s.disks|
    ensures var result := BackupResult(s, i, agent);
            && (result.Started? <==> !Busy(s) && Accepts(s, s.disks[i], agent))
            && (result.Conflict? <==> Busy(s) || agent.AlreadyActive?)
            && RunExternalBackup(s, i, agent, autoEject)
            == if result.Started? then Queue(s, s.disks[i], autoEject) else s
  {
    assert AnyActive(s) <==> Busy(s);
    hide AnyActive, Busy;
  }

  /** Some known disk carries the serial of the run's event. */
  ghost predicate DiskKnown(s: State, serial: string) {
    exists i :: 0 <= i < |s.disks| && Carries(s.disks[i], serial)
  }

  /**
   The disk a start goes for: one that carries the serial, present if a present one matches, and else one with
   literally this serial if there is one.
   */
  ghost predicate Chosen(s: State, serial: string, i: nat) {
    && i < |s.disks| && Carries(s.disks[i], serial)
    && (if exists d :: d in s.disks && d.present && DiskMatches(d, serial) then s.disks[i].present
        else (exists d :: d in s.disks && d.serialNumber == serial) ==> s.disks[i].serialNumber == serial)
  }

  lemma {:induction false} ExactIsFound(disks: seq<Disk>, serial: string)
    ensures (exists d :: d in disks && d.serialNumber == serial) <==> ExactDisk(disks, serial).Some?
  {
    if disks != [] {
      ExactIsFound(disks[1..], serial);
      assert disks == [disks[0]] + disks[1..];
    }
  }

  lemma ChoiceIs(s: State, serial: string)
    ensures DiskToUse(s.disks, serial).Some? <==> DiskKnown(s, serial)
    ensures DiskToUse(s.disks, serial).Some? ==> Chosen(s, serial, DiskToUse(s.disks, serial).value)
  {
    DiskToUseCarries(s.disks, serial);
    ExactIsFound(s.disks, serial);
    hide DiskMatches;
    if exists d :: d in s.disks && d.present && DiskMatches(d, serial) {
      var d :| d in s.disks && d.present && DiskMatches(d, serial);
    }
  }

  /** The run and its event after a start that went through: both are told, and the user if asked. */
  ghost predicate Launches(s: State, t: State, r: nat, i: nat, now: int, announce: bool)
    requires Known(s, r) && i < |s.disks|
  {
    var e := s.runs[r].eventId;
    t == Queue(s, s.disks[i], false).(
      runs := s.runs[r := s.runs[r].(status := Running, backupRunId := Some(s.nextBackup), startedAt := Some(now))],
      events := s.events[e := s.events[e].(lastStatus := Some(Running), lastTriggeredAt := Some(now))],
      notices := s.notices + (if announce then multiset{PlannedStarted(r)} else multiset{}))
  }

  /** The run, its event and the user are told that it failed; no backup is made. */
  ghost predicate TurnsDown(s: State, t: State, r: nat, now: int)
    requires Known(s, r)
  {
    var e := s.runs[r].eventId;
    t == s.(
      runs := s.runs[r := s.runs[r].(status := Failure, finishedAt := Some(now))],
      events := s.events[e := s.events[e].(lastStatus := Some(Failure), lastCompletedAt := Some(now))],
      notices := s.notices + multiset{StartFailed(r)})
  }

  /** Nothing but the status of the run changes. */
  predicate Waits(s: State, t: State, r: nat, status: RunStatus)
    requires r < |s.runs|
  {
    t == s.(runs := s.runs[r := s.runs[r].(status := status)])
  }

  /**
   A start waits for the backup exactly if something is active, waits for the disk exactly if else no disk is known,
   and else goes for the chosen disk: it launches exactly if agent and disk accept, and is refused otherwise.
   */
  ghost predicate StartsAs(s: State, t: State, r: nat, now: int, agent: AgentReply, announce: bool)
    requires Known(s, r)
  {
    var serial := EventOf(s, r).diskSerial;
    if Busy(s) || (DiskKnown(s, serial) && agent.AlreadyActive?) then Waits(s, t, r, WaitingForExternalBackup)
    else if !DiskKnown(s, serial) then Waits(s, t, r, WaitingForDisk)
    else exists i: nat :: Chosen(s, serial, i)
                     && (if Accepts(s, s.disks[i], agent) then Launches(s, t, r, i, now, announce)
                         else TurnsDown(s, t, r, now))
  }

  lemma StartAnswer(s: State, r: nat, now: int, agent: AgentReply, announce: bool)
    requires Known(s, r)
    ensures StartsAs(s, StartRun(s, r, now, agent, announce), r, now, agent, announce)
  {
    var serial := EventOf(s, r).diskSerial;
    var disk, way := DiskToUse(s.disks, serial), StartOf(s, serial, agent);
    ChoiceIs(s, serial);
    WayIsFree(s, serial, agent);
    assert AnyActive(s) <==> Busy(s);
    hide StartOf, DiskToUse, Chosen, DiskKnown, AnyActive, Busy, BackupResult, Accepts;
    if disk.Some? {
      BackupAnswer(s, disk.value, agent, false);
    }
    if way.Go? {
      LaunchWrites(s, r, way.disk, now, agent, announce);
    }
    assert TurnsDown(s, Refuse(s, r, now), r, now);
    assert Waits(s, SetStatus(s, r, WaitingForDisk), r, WaitingForDisk);
    hide Launch, Refuse, SetStatus, TurnsDown, Launches, Waits, RunExternalBackup;
  }

  lemma LaunchWrites(s: State, r: nat, i: nat, now: int, agent: AgentReply, announce: bool)
    requires Known(s, r) && i < |s.disks| && BackupResult(s, i, agent).Started?
    ensures var t := Launch(RunExternalBackup(s, i, agent, false), r, s.nextBackup, now, announce);
            Launches(s, t, r, i, now, announce)
  {
    hide BackupResult;
    assert s.notices + multiset{} == s.notices;
  }

  // ----- requests on runs -----

  /**
   A confirmation is refused for a run or an event that is not there and for a run that does not wait for one; too
   late it cancels the run, and in time it starts it quietly.
   */
  lemma ConfirmAnswer(s: State, r: nat, now: int, agent: AgentReply)
    ensures var answer := Confirm(s, r, now, agent);
            && (answer == Err(RunNotFound) <==> r >= |s.runs|)
            && (answer == Err(EventNotFound) <==> r < |s.runs| && s.runs[r].eventId >= |s.events|)
            && (answer == Err(NotWaitingForConfirmation) <==> Known(s, r) && s.runs[r].status != WaitingForConfirmation)
            && (answer.Ok? ==>
                  if now > s.runs[r].windowEndsAt
                  then answer.value == s.(runs := s.runs[r := s.runs[r].(status := Cancelled, finishedAt := Some(now))])
                  else answer.value == StartRun(s, r, now, agent, false))
  {
    hide StartRun;
  }

  /** A cancellation ends every run that has not ended by itself, a missed one included, and is refused for no run. */
  lemma CancelAnswer(s: State, r: nat, now: int)
    ensures var answer := Cancel(s, r, now);
            && (answer.Err? <==> r >= |s.runs|) && (answer.Err? ==> answer.error.RunNotFound?)
            && (answer.Ok? ==>
                  var run := s.runs[r];
                  answer.value == if run.status in {Success, Failure, Cancelled} then s
                                  else s.(runs := s.runs[r := run.(status := Cancelled, finishedAt := Some(now))]))
  {
  }

  /** The row of a new run: pending, with a window of the event's length from its time on, and nothing recorded. */
  predicate NewRow(run: Run, e: nat, event: Event, t: int) {
    && run.eventId == e && run.scheduledFor == t && run.windowStartsAt == t
    && run.windowEndsAt - t == event.windowDurationMinutes * 60 * 1_000_000
    && run.status == Pending && run.diskSeenAt == None && run.reminderSentAt == None
    && run.backupRunId == None && run.startedAt == None && run.finishedAt == None
  }

  /** A run-now request is refused exactly for an event that is not there; else it adds a run for now and starts it. */
  lemma RunNowAnswer(s: State, e: nat, now: int, agent: AgentReply)
    ensures var answer := RunEventNow(s, e, now, agent);
            && (answer.Err? <==> e >= |s.events| || s.events[e].schedule.deleted)
            && (answer.Err? ==> answer.error.EventNotFound?)
            && (answer.Ok? ==>
                  exists run :: NewRow(run, e, s.events[e], now)
                                && answer.value == StartRun(s.(runs := s.runs + [run]), |s.runs|, now, agent, false))
  {
    hide StartRun;
    if e < |s.events| {
      assert NewRow(NewRun(e, s.events[e], now), e, s.events[e], now);
    }
  }
}
