/** What one turn of the tick's loop makes of a run, for every state of it, in terms of the tables alone. */
module PlanningTurns {
  import opened Wrappers
  import opened PlanningModel
  import opened PlanningTicks
  import opened PlanningExclusion
  import opened PlanningStarts
  import opened PlanningDetections

  /** The run is open, and its event is enabled and not deleted. */
  predicate Due(run: Run, event: Event) {
    && run.status in {Pending, WaitingForDisk, WaitingForConfirmation, WaitingForExternalBackup, Running}
    && event.enabled && !event.schedule.deleted
  }

  /** The run's backup is over, and its row is still there. */
  predicate BackupIsOver(s: State, run: Run) {
    && run.status.Running? && run.backupRunId.Some? && run.backupRunId.value in s.backups
    && s.backups[run.backupRunId.value].status in {Succeeded, BackupStatus.Failed}
  }

  /** The reminder goes out once, from the lead time on. */
  function Reminded(s: State, r: nat, now: int): State
    requires Known(s, r)
  {
    var run := s.runs[r];
    if run.reminderSentAt.Some? || now < run.windowStartsAt - EventOf(s, r).notifyBeforeMinutes * 60 * 1_000_000 then s
    else s.(runs := s.runs[r := run.(reminderSentAt := Some(now))], notices := s.notices + multiset{Reminder(r)})
  }

  /** The run has ended, and its event knows how and when. */
  function Closing(s: State, r: nat, status: RunStatus, at: int, told: multiset<Notice>): State
    requires Known(s, r)
  {
    var e := s.runs[r].eventId;
    s.(runs := s.runs[r := s.runs[r].(status := status, finishedAt := Some(at))],
       events := s.events[e := s.events[e].(lastStatus := Some(status), lastCompletedAt := Some(at))],
       notices := s.notices + told)
  }

  /** Inside, before and after its window. */
  ghost predicate PassesAs(s: State, t: State, r: nat, now: int, agent: AgentReply)
    requires Known(s, r)
  {
    var run := s.runs[r];
    if now > run.windowEndsAt then
      t == if run.status in {Pending, WaitingForDisk} && run.diskSeenAt.None? && run.backupRunId.None?
              && run.startedAt.None?
           then Closing(s, r, Missed, now, multiset{WindowMissed(r)}) else s
    else if now < run.windowStartsAt then t == s
    else if !exists d :: d in s.disks && d.present && DiskMatches(d, EventOf(s, r).diskSerial) then
      t == if run.status.Pending? then s.(runs := s.runs[r := run.(status := WaitingForDisk)]) else s
    else AdvancesAs(Noted(s, r, now), t, r, now, agent)
  }

  /** A finished backup ends the run as it ended itself, when it did, or now if its row does not say. */
  function Follows(s: State, r: nat, now: int, ejects: bool): State
    requires Known(s, r) && BackupIsOver(s, s.runs[r])
  {
    var backup := s.backups[s.runs[r].backupRunId.value];
    Closing(s, r, if backup.status.Succeeded? then Success else Failure,
            match backup.finishedAt case Some(at) => at case None => now,
            if ejects then multiset{AutoEjected(r)} else multiset{})
  }

  /** The backup succeeded, the event asks for an eject, and a disk is known for it. */
  ghost predicate EjectsAfter(s: State, r: nat)
    requires Known(s, r) && BackupIsOver(s, s.runs[r])
  {
    && s.backups[s.runs[r].backupRunId.value].status.Succeeded?
    && EventOf(s, r).autoEjectAfterSuccess && DiskKnown(s, EventOf(s, r).diskSerial)
  }

  /**
   A turn does nothing for a run that is not due; it ends one whose backup is over; and to any other it sends the
   reminder when it is time, and goes on as the window says.
   */
  ghost predicate TurnsAs(s: State, t: State, r: nat, now: int, agent: AgentReply)
    requires Known(s, r)
  {
    if !Due(s.runs[r], EventOf(s, r)) then t == s
    else if BackupIsOver(s, s.runs[r]) then t == Follows(s, r, now, EjectsAfter(s, r))
    else PassesAs(Reminded(s, r, now), t, r, now, agent)
  }

  lemma TurnAnswer(s: State, r: nat, now: int, agent: AgentReply)
    requires Known(s, r)
    ensures TurnsAs(s, Turn(s, r, now, agent), r, now, agent)
  {
    if TakesTurn(s, r) {
      if BackupIsOver(s, s.runs[r]) {
        SyncAnswer(s, r, now);
      } else {
        NothingToFollow(s, r, now);
        RemindAnswer(s, r, now);
        PassAnswer(Reminded(s, r, now), r, now, agent);
      }
    }
    hide SyncLinked, Remind, Decide, PassesAs, Follows, EjectsAfter, Reminded, BackupIsOver;
  }

  lemma SyncAnswer(s: State, r: nat, now: int)
    requires Known(s, r) && BackupIsOver(s, s.runs[r])
    ensures SyncLinked(s, r, now) == Follows(s, r, now, EjectsAfter(s, r))
    ensures Closed(SyncLinked(s, r, now).runs[r].status)
  {
    SomeDiskCarries(s.disks, EventOf(s, r).diskSerial);
    assert EjectAfterSync(s, r).Some? <==> EjectsAfter(s, r) by { hide DiskByIdentity, Carries; }
    assert s.notices + multiset{} == s.notices;
    hide EjectAfterSync, EjectsAfter;
  }

  lemma NothingToFollow(s: State, r: nat, now: int)
    requires Known(s, r) && !BackupIsOver(s, s.runs[r])
    ensures SyncLinked(s, r, now) == s
  {
    hide Finish, EjectAfterSync;
  }

  lemma RemindAnswer(s: State, r: nat, now: int)
    requires Known(s, r)
    ensures Remind(s, r, now) == Reminded(s, r, now)
  {
  }

  lemma PassAnswer(s: State, r: nat, now: int, agent: AgentReply)
    requires Known(s, r)
    ensures PassesAs(s, Decide(s, r, now, agent), r, now, agent)
  {
    NotedIsSeen(s, r, now);
    AdvanceAnswer(Noted(s, r, now), r, now, agent);
    assert PresentDisk(s.disks, EventOf(s, r).diskSerial).Some?
      <==> exists d :: d in s.disks && d.present && DiskMatches(d, EventOf(s, r).diskSerial);
    MissAnswer(s, r, now);
    hide Advance, SeeDisk, AdvancesAs, PresentDisk, DiskMatches, Noted, MarkMissed, Closing;
  }

  lemma MissAnswer(s: State, r: nat, now: int)
    requires Known(s, r)
    ensures MarkMissed(s, r, now) == Closing(s, r, Missed, now, multiset{WindowMissed(r)})
  {
  }

  /** An eject follows a turn exactly if the turn ended its run with a success that asks for it. */
  lemma WholeTurnAnswer(s: State, r: nat, now: int, env: Env)
    requires Known(s, r)
    ensures var t, w := Turn(s, r, now, env.agent), WholeTurn(s, r, now, env);
            if Due(s.runs[r], EventOf(s, r)) && BackupIsOver(s, s.runs[r]) && EjectsAfter(s, r)
            then exists i: nat :: i < |t.disks| && Carries(t.disks[i], EventOf(s, r).diskSerial)
                                  && w == EjectDisk(t, i, now, env.eject)
            else w == t
  {
    if BackupIsOver(s, s.runs[r]) {
      TurnEjects(s, r);
    }
    hide Turn, EjectDisk, DiskByIdentity, EjectsAfter, Carries;
  }

  /** The disk that is ejected after a turn: one that carries the serial, with literally this serial if there is one. */
  lemma TurnEjects(s: State, r: nat)
    requires Known(s, r) && BackupIsOver(s, s.runs[r])
    ensures var i, serial := EjectAfterSync(s, r), EventOf(s, r).diskSerial;
            && (i.Some? <==> EjectsAfter(s, r))
            && (i.Some? ==> Carries(s.disks[i.value], serial)
                            && ((exists d :: d in s.disks && d.serialNumber == serial) ==>
                                  s.disks[i.value].serialNumber == serial))
  {
    SomeDiskCarries(s.disks, EventOf(s, r).diskSerial);
    ExactIsFound(s.disks, EventOf(s, r).diskSerial);
    hide DiskMatches;
  }

  // ----- a whole tick -----

  /** Run `r` and the settings of all events are the same in both. */
  ghost predicate SameRun(s: State, t: State, r: nat) {
    SameSettings(s, t) && |t.runs| == |s.runs| && r < |s.runs| && t.runs[r] == s.runs[r]
  }

  lemma SameRunThrough(s: State, t: State, u: State, r: nat)
    requires SameRun(s, t, r) && SameRun(t, u, r)
    ensures SameRun(s, u, r)
  {
    SettingsThrough(s, t, u);
  }

  lemma OtherRunTurns(s: State, q: nat, now: int, env: Env, r: nat)
    requires r < |s.runs| && q != r
    ensures SameRun(s, WholeTurn(s, q, now, env), r)
  {
    WholeTurnTouches(s, q, now, env);
    hide WholeTurn, Turn;
  }

  lemma {:induction false} OneTurnEach(s: State, ids: seq<nat>, now: int, env: nat -> Env, r: nat)
    returns (before: State, after: State)
    requires r < |s.runs| && forall i, j :: 0 <= i < j < |ids| ==> ids[i] != ids[j]
    ensures SameRun(s, before, r) && SameRun(after, ProcessList(s, ids, now, env), r)
    ensures after == if r in ids then WholeTurn(before, r, now, env(r)) else before
  {
    hide WholeTurn, SameRun;
    if ids == [] {
      before, after := s, s;
      assert SameRun(s, s, r) by { SameRunSelf(s, r); }
    } else {
      var rest, q := ids[..|ids| - 1], ids[|ids| - 1];
      before, after := OneTurnEach(s, rest, now, env, r);
      var m := ProcessList(s, rest, now, env);
      assert ids == rest + [q] && q !in rest;
      assert |m.runs| == |s.runs|;
      if q == r {
        SameRunThrough(s, before, m, r);
        before, after := m, WholeTurn(m, r, now, env(r));
        SameRunSelf(after, r);
      } else {
        OtherRunTurns(m, q, now, env(q), r);
        SameRunThrough(after, m, WholeTurn(m, q, now, env(q)), r);
      }
    }
  }

  lemma SameRunSelf(s: State, r: nat)
    requires r < |s.runs|
    ensures SameRun(s, s, r)
  {
  }

  /**
   In a tick every run that is open after the creation step takes exactly one turn, with nothing about it changed before
   and nothing after; the others stay as they are.
   */
  lemma TickTurns(s: State, now: int, env: nat -> Env, r: nat) returns (before: State)
    requires r < |CreateDue(s, now).runs|
    ensures var c, t := CreateDue(s, now), Tick(s, now, env);
            && SameRun(c, before, r) && |t.runs| == |c.runs|
            && t.runs[r] == if c.runs[r].status in {Pending, WaitingForDisk, WaitingForConfirmation,
                                                    WaitingForExternalBackup, Running}
                            then Turn(before, r, now, env(r).agent).runs[r] else c.runs[r]
  {
    var c := CreateDue(s, now);
    var ids := OpenIds(c.runs, |c.runs|);
    OpenIdsExact(c.runs, |c.runs|);
    var after;
    before, after := OneTurnEach(c, ids, now, env, r);
    WholeTurnTouches(before, r, now, env(r));
    hide CreateDue, OpenIds, ProcessList, WholeTurn, Turn, SameSettings;
  }
}
