/** What every reachable state of the scheduled-backup engine satisfies. */
module PlanningInvariants {
  import opened Wrappers
  import opened Calendar
  import opened Recurrence
  import opened PlanningModel

  predicate Ended(status: RunStatus) {
    Closed(status) || status.Missed?
  }

  predicate InWindow(run: Run, t: Option<int>, clock: int) {
    t.Some? ==> run.windowStartsAt <= t.value <= run.windowEndsAt && t.value <= clock
  }

  /** The linked backup exists or was deleted, and an ended run agrees with how it ended. */
  predicate LinkOk(s: State, run: Run) {
    run.backupRunId.Some? ==>
      var b := run.backupRunId.value;
      && b < s.nextBackup
      && (b in s.backups ==>
            && s.backups[b].kind.Export?
            && (run.status.Success? ==> s.backups[b].status.Succeeded?)
            && (run.status.Failure? ==> s.backups[b].status.Failed?))
  }

  /** How often each notice about a run can have gone out, given the run's row. */
  ghost predicate NoticesOk(notices: multiset<Notice>, r: nat, run: Run) {
    && notices[Reminder(r)] == (if run.reminderSentAt.Some? then 1 else 0)
    && notices[ExpectedDisk(r)] == (if run.diskSeenAt.Some? then 1 else 0)
    && notices[WindowMissed(r)] <= 1
    && (run.status.Missed? ==> notices[WindowMissed(r)] == 1)
    && (!run.status.Missed? && !run.status.Cancelled? ==> notices[WindowMissed(r)] == 0)
    && notices[AutoEjected(r)] <= (if run.status.Success? then 1 else 0)
    && notices[PlannedStarted(r)] <= (if run.backupRunId.Some? then 1 else 0)
    && notices[StartFailed(r)] <= (if run.status.Failure? && run.backupRunId.None? then 1 else 0)
  }

  predicate RunOk(run: Run, clock: int) {
    && run.windowStartsAt < run.windowEndsAt
    && (run.status in {Running, Success} ==> run.backupRunId.Some?)
    && (run.backupRunId.Some? ==> run.status in {Running, Success, Failure, Cancelled})
    && (run.backupRunId.Some? <==> run.startedAt.Some?)
    && InWindow(run, run.diskSeenAt, clock) && InWindow(run, run.startedAt, clock)
    && (run.status.WaitingForConfirmation? ==> run.windowStartsAt <= clock)
    && (Ended(run.status) <==> run.finishedAt.Some?)
    && (run.status.Missed? ==> run.diskSeenAt.None? && run.backupRunId.None? && run.finishedAt.value > run.windowEndsAt)
  }

  ghost predicate RowInv(s: State, r: nat, clock: int)
    requires r < |s.runs|
  {
    && s.runs[r].eventId < |s.events|
    && RunOk(s.runs[r], clock) && LinkOk(s, s.runs[r]) && NoticesOk(s.notices, r, s.runs[r])
  }

  ghost predicate DistinctLinks(runs: seq<Run>) {
    forall i, j :: 0 <= i < j < |runs| && runs[i].backupRunId.Some? ==> runs[i].backupRunId != runs[j].backupRunId
  }

  ghost predicate Inv(s: State, clock: int) {
    && (forall e :: 0 <= e < |s.events| ==> s.events[e].windowDurationMinutes >= 1)
    && (forall r :: 0 <= r < |s.runs| ==> RowInv(s, r, clock))
    && DistinctLinks(s.runs)
    && (forall b :: b in s.backups ==> b < s.nextBackup)
    && (forall n :: n in s.notices ==> n.run < |s.runs|)
  }

  // ----- what one step may change -----

  /** Ended runs stay as they are, except that a missed one can still be cancelled; links are written once. */
  ghost predicate MayBecome(a: Run, b: Run) {
    && b.eventId == a.eventId && b.scheduledFor == a.scheduledFor
    && b.windowStartsAt == a.windowStartsAt && b.windowEndsAt == a.windowEndsAt
    && (Closed(a.status) ==> b.status == a.status && b.finishedAt == a.finishedAt)
    && (a.status.Missed? ==> b.status in {Missed, Cancelled})
    && (a.backupRunId.Some? ==> b.backupRunId == a.backupRunId && b.startedAt == a.startedAt)
    && (a.diskSeenAt.Some? ==> b.diskSeenAt == a.diskSeenAt)
    && (a.reminderSentAt.Some? ==> b.reminderSentAt == a.reminderSentAt)
  }

  /** Backup rows keep their kind and disk, closed ones do not change, and new ones take fresh numbers. */
  ghost predicate BackupsEvolve(s: State, t: State) {
    && s.nextBackup <= t.nextBackup
    && (forall b :: b in t.backups ==> b in s.backups || s.nextBackup <= b < t.nextBackup)
    && (forall b :: b in s.backups && b in t.backups ==>
          && t.backups[b].kind == s.backups[b].kind && t.backups[b].diskId == s.backups[b].diskId
          && (!s.backups[b].Active() ==> t.backups[b] == s.backups[b]))
  }

  ghost predicate Evolves(s: State, t: State) {
    && |s.runs| <= |t.runs| && |s.events| <= |t.events|
    && (forall r :: 0 <= r < |s.runs| ==> MayBecome(s.runs[r], t.runs[r]))
    && BackupsEvolve(s, t)
    && s.notices <= t.notices
  }

  lemma EvolvesReflexively(s: State)
    requires forall b :: b in s.backups ==> b < s.nextBackup
    ensures Evolves(s, s)
  {
  }

  lemma EvolvesTransitively(s: State, t: State, u: State)
    requires Evolves(s, t) && Evolves(t, u)
    requires forall b :: b in s.backups ==> b < s.nextBackup
    ensures Evolves(s, u)
  {
    forall r | 0 <= r < |s.runs| ensures MayBecome(s.runs[r], u.runs[r]) {
      assert MayBecome(s.runs[r], t.runs[r]) && MayBecome(t.runs[r], u.runs[r]);
    }
  }

  /** Only run `r` changed, its link at most once and to a fresh backup. */
  ghost predicate Framed(s: State, t: State, r: nat) {
    && r < |s.runs| && |t.runs| == |s.runs| && |t.events| == |s.events|
    && (forall e :: 0 <= e < |t.events| ==> t.events[e].windowDurationMinutes == s.events[e].windowDurationMinutes)
    && (forall i :: 0 <= i < |s.runs| && i != r ==> t.runs[i] == s.runs[i])
    && (forall n: Notice :: n.run != r ==> t.notices[n] == s.notices[n])
    && s.notices <= t.notices
    && BackupsEvolve(s, t)
    && MayBecome(s.runs[r], t.runs[r])
    && (t.runs[r].backupRunId == s.runs[r].backupRunId || t.runs[r].backupRunId == Some(s.nextBackup))
  }

  lemma LinkStays(s: State, t: State, run: Run)
    requires LinkOk(s, run) && BackupsEvolve(s, t)
    ensures LinkOk(t, run)
  {
  }

  lemma OtherRows(s: State, t: State, r: nat, clock: int, i: nat)
    requires Inv(s, clock) && Framed(s, t, r) && i < |s.runs| && i != r
    ensures RowInv(t, i, clock) && MayBecome(s.runs[i], t.runs[i])
  {
    assert RowInv(s, i, clock);
    LinkStays(s, t, s.runs[i]);
    hide Inv, LinkOk, RunOk, BackupsEvolve;
  }

  lemma LinksStayDistinct(s: State, t: State, r: nat, clock: int)
    requires Inv(s, clock) && Framed(s, t, r)
    ensures DistinctLinks(t.runs)
  {
    forall i | 0 <= i < |s.runs| ensures s.runs[i].backupRunId.Some? ==> s.runs[i].backupRunId.value < s.nextBackup {
      assert RowInv(s, i, clock);
    }
    assert DistinctLinks(s.runs);
    hide Inv, BackupsEvolve, MayBecome;
  }

  lemma Reframe(s: State, t: State, r: nat, clock: int)
    requires Inv(s, clock) && Framed(s, t, r) && RowInv(t, r, clock)
    ensures Inv(t, clock) && Evolves(s, t)
  {
    forall i | 0 <= i < |t.runs| && i != r ensures RowInv(t, i, clock) && MayBecome(s.runs[i], t.runs[i]) {
      OtherRows(s, t, r, clock, i);
    }
    LinksStayDistinct(s, t, r, clock);
    hide RowInv, DistinctLinks, MayBecome;
    forall n | n in t.notices ensures n.run < |t.runs| {
      if n.run != r {
        assert n in s.notices;
      }
    }
  }

  /** Steps that touch only backups, disks and events. */
  lemma RunsUntouched(s: State, t: State, clock: int)
    requires Inv(s, clock) && t.runs == s.runs && t.notices == s.notices
    requires BackupsEvolve(s, t) && |s.events| <= |t.events|
    requires forall e :: 0 <= e < |t.events| ==> t.events[e].windowDurationMinutes >= 1
    ensures Inv(t, clock) && Evolves(s, t)
  {
    forall i | 0 <= i < |t.runs| ensures RowInv(t, i, clock) {
      assert RowInv(s, i, clock);
      LinkStays(s, t, s.runs[i]);
    }
  }

  lemma LaterClock(s: State, clock: int, now: int)
    requires Inv(s, clock) && clock <= now
    ensures Inv(s, now)
  {
    forall r | 0 <= r < |s.runs| ensures RowInv(s, r, now) {
      assert RowInv(s, r, clock);
    }
  }

  // ----- backups and ejects -----

  /** The steps of an eject touch its own activity row and, at the end, the disk. */
  lemma EjectStepsKeep(s: State, op: Op, now: int)
    requires Inv(s, now) && (op.OpenEjectOp? || op.UnmountOp? || op.DetachOp? || op.FinishEjectOp?)
    ensures Inv(Apply(s, op), now) && Evolves(s, Apply(s, op))
  {
    EjectStepsEvolve(s, op, now);
    hide Apply, Inv, BackupsEvolve, Evolves;
    EventsStay(s, now);
    RunsUntouched(s, Apply(s, op), now);
  }

  lemma EjectStepsEvolve(s: State, op: Op, now: int)
    requires Inv(s, now) && (op.OpenEjectOp? || op.UnmountOp? || op.DetachOp? || op.FinishEjectOp?)
    ensures var t := Apply(s, op);
            t.runs == s.runs && t.events == s.events && t.notices == s.notices && BackupsEvolve(s, t)
  {
    KeysBound(s, now);
    match op {
      case OpenEjectOp(i, at) => if i < |s.disks| { OpenEvolves(s, i); }
      case UnmountOp(b, at, reply) => UnmountEvolves(s, b, at, reply);
      case DetachOp(b, at, raises, slotsAfter) => DetachEvolves(s, b, at, raises, slotsAfter);
      case FinishEjectOp(b, at) => FinishEvolves(s, b, at);
    }
    hide Inv, OpenEject, Unmount, Detach, FinishEject;
  }

  lemma OpenEvolves(s: State, i: nat)
    requires i < |s.disks| && forall c :: c in s.backups ==> c < s.nextBackup
    ensures BackupsEvolve(s, OpenEject(s, i))
  {
    hide CanEject;
  }

  lemma UnmountEvolves(s: State, b: nat, now: int, reply: UnmountReply)
    requires forall c :: c in s.backups ==> c < s.nextBackup
    ensures BackupsEvolve(s, Unmount(s, b, now, reply))
  {
  }

  lemma DetachEvolves(s: State, b: nat, now: int, raises: bool, slotsAfter: set<string>)
    requires forall c :: c in s.backups ==> c < s.nextBackup
    ensures BackupsEvolve(s, Detach(s, b, now, raises, slotsAfter))
  {
    hide SlotGone;
  }

  lemma FinishEvolves(s: State, b: nat, now: int)
    requires forall c :: c in s.backups ==> c < s.nextBackup
    ensures BackupsEvolve(s, FinishEject(s, b, now))
  {
    hide Released, DiskById;
  }

  lemma EventsStay(s: State, now: int)
    requires Inv(s, now)
    ensures forall e :: 0 <= e < |s.events| ==> s.events[e].windowDurationMinutes >= 1
  {
  }

  lemma BackupSteps(s: State, op: Op, now: int)
    requires Inv(s, now) && (op.BackupOp? || op.BeginOp? || op.DeleteBackupOp? || op.DisksOp? || op.SaveEventOp?)
    ensures Inv(Apply(s, op), now) && Evolves(s, Apply(s, op))
  {
    KeysBound(s, now);
    EventsStay(s, now);
    BackupStepsEvolve(s, op);
    hide Apply, Inv, Evolves, BackupsEvolve;
    RunsUntouched(s, Apply(s, op), now);
  }

  lemma BackupStepsEvolve(s: State, op: Op)
    requires op.BackupOp? || op.BeginOp? || op.DeleteBackupOp? || op.DisksOp? || op.SaveEventOp?
    requires forall b :: b in s.backups ==> b < s.nextBackup
    requires forall e :: 0 <= e < |s.events| ==> s.events[e].windowDurationMinutes >= 1
    ensures var t := Apply(s, op);
            && t.runs == s.runs && t.notices == s.notices && BackupsEvolve(s, t) && |s.events| <= |t.events|
            && forall e :: 0 <= e < |t.events| ==> t.events[e].windowDurationMinutes >= 1
  {
    hide AnyActive, PlanExists, DiskById;
  }

  lemma CloseKeeps(s: State, b: nat, status: BackupStatus, now: int, target: Option<string>)
    requires Inv(s, now) && Executable(s, b) && s.backups[b].Active()
    ensures var t := CloseBackup(PrepareDisk(s, s.backups[b].diskId, target), b, status, now);
            Inv(t, now) && Evolves(s, t)
    ensures var t := CloseBackup(s, b, status, now); Inv(t, now) && Evolves(s, t)
  {
    RunsUntouched(s, CloseBackup(PrepareDisk(s, s.backups[b].diskId, target), b, status, now), now);
    RunsUntouched(s, CloseBackup(s, b, status, now), now);
  }

  lemma EndKeeps(s: State, b: nat, now: int, exec: ExecReply)
    requires Inv(s, now)
    ensures Inv(EndBackup(s, b, now, exec), now) && Evolves(s, EndBackup(s, b, now, exec))
  {
    KeysBound(s, now);
    EvolvesReflexively(s);
    if Executable(s, b) && s.backups[b].status.InProgress? {
      CloseKeeps(s, b, ExportStatus(exec), now, if exec.ExportRaised? then None else exec.target);
      hide Inv, Evolves, CloseBackup, PrepareDisk;
    }
  }

  lemma KeysBound(s: State, now: int)
    requires Inv(s, now)
    ensures forall b :: b in s.backups ==> b < s.nextBackup
  {
  }

  lemma RowAndKeys(s: State, r: nat, now: int)
    requires Inv(s, now) && r < |s.runs|
    ensures RowInv(s, r, now) && forall b :: b in s.backups ==> b < s.nextBackup
  {
  }

  // ----- stages of one run -----

  lemma FinishKeeps(s: State, r: nat, now: int, backup: Backup, at: int)
    requires Inv(s, now) && Known(s, r) && s.runs[r].status.Running? && s.runs[r].backupRunId.Some?
    requires s.runs[r].backupRunId.value in s.backups
    requires backup == s.backups[s.runs[r].backupRunId.value] && !backup.Active()
    ensures var t := Finish(s, r, if backup.status.Succeeded? then Success else Failure, at);
            Inv(t, now) && Evolves(s, t) && t.notices[AutoEjected(r)] == 0
  {
    RowAndKeys(s, r, now);
    hide Inv, Evolves;
    Reframe(s, Finish(s, r, if backup.status.Succeeded? then Success else Failure, at), r, now);
  }

  lemma NoteEjectKeeps(s: State, r: nat, now: int)
    requires Inv(s, now) && r < |s.runs| && s.runs[r].status.Success? && s.notices[AutoEjected(r)] == 0
    ensures Inv(Notify(s, AutoEjected(r)), now) && Evolves(s, Notify(s, AutoEjected(r)))
  {
    RowAndKeys(s, r, now);
    hide Inv, Evolves;
    Reframe(s, Notify(s, AutoEjected(r)), r, now);
  }

  lemma SyncKeeps(s: State, r: nat, now: int)
    requires Inv(s, now) && Known(s, r)
    ensures Inv(SyncLinked(s, r, now), now) && Evolves(s, SyncLinked(s, r, now))
    ensures !Closed(SyncLinked(s, r, now).runs[r].status) ==> SyncLinked(s, r, now) == s
  {
    KeysBound(s, now);
    EvolvesReflexively(s);
    if Linked(s, r) && !s.backups[s.runs[r].backupRunId.value].Active() {
      var backup := s.backups[s.runs[r].backupRunId.value];
      var at := if backup.finishedAt.Some? then backup.finishedAt.value else now;
      FinishKeeps(s, r, now, backup, at);
      var done := Finish(s, r, if backup.status.Succeeded? then Success else Failure, at);
      if EjectAfterSync(s, r).Some? {
        NoteEjectKeeps(done, r, now);
        KeysBound(done, now);
        hide Inv, Evolves, DiskByIdentity;
        EvolvesTransitively(s, done, Notify(done, AutoEjected(r)));
      }
    }
    hide Inv, Evolves, DiskByIdentity;
  }

  lemma RemindKeeps(s: State, r: nat, now: int)
    requires Inv(s, now) && Known(s, r)
    ensures Inv(Remind(s, r, now), now) && Evolves(s, Remind(s, r, now))
  {
    RowAndKeys(s, r, now);
    hide Inv, Evolves;
    Reframe(s, Remind(s, r, now), r, now);
  }

  lemma MissKeeps(s: State, r: nat, now: int)
    requires Inv(s, now) && Known(s, r) && CanMarkMissed(s.runs[r]) && now > s.runs[r].windowEndsAt
    ensures Inv(MarkMissed(s, r, now), now) && Evolves(s, MarkMissed(s, r, now))
  {
    RowAndKeys(s, r, now);
    hide Inv, Evolves;
    Reframe(s, MarkMissed(s, r, now), r, now);
  }

  lemma SeeKeeps(s: State, r: nat, now: int)
    requires Inv(s, now) && Known(s, r) && Open(s.runs[r].status)
    requires s.runs[r].windowStartsAt <= now <= s.runs[r].windowEndsAt
    ensures Inv(SeeDisk(s, r, now), now) && Evolves(s, SeeDisk(s, r, now))
  {
    RowAndKeys(s, r, now);
    hide Inv, Evolves;
    Reframe(s, SeeDisk(s, r, now), r, now);
  }

  /** An unlinked open run may be set waiting. */
  lemma WaitKeeps(s: State, r: nat, status: RunStatus, now: int)
    requires Inv(s, now) && Known(s, r) && Open(s.runs[r].status) && s.runs[r].backupRunId.None?
    requires status in {WaitingForDisk, WaitingForExternalBackup, WaitingForConfirmation}
    requires status.WaitingForConfirmation? ==> s.runs[r].windowStartsAt <= now
    ensures Inv(SetStatus(s, r, status), now) && Evolves(s, SetStatus(s, r, status))
    ensures var t := Notify(SetStatus(s, r, status), ConfirmationRequired(r)); Inv(t, now) && Evolves(s, t)
  {
    RowAndKeys(s, r, now);
    hide Inv, Evolves;
    Reframe(s, SetStatus(s, r, status), r, now);
    Reframe(s, Notify(SetStatus(s, r, status), ConfirmationRequired(r)), r, now);
  }

  lemma RejectKeeps(s: State, r: nat, now: int)
    requires Inv(s, now) && Known(s, r) && Open(s.runs[r].status) && s.runs[r].backupRunId.None?
    ensures Inv(Refuse(s, r, now), now) && Evolves(s, Refuse(s, r, now))
  {
    RowAndKeys(s, r, now);
    hide Inv, Evolves;
    Reframe(s, Refuse(s, r, now), r, now);
  }

  /** The tables right after a start: the run linked to the new backup, its event updated, the user told if asked. */
  function Launched(s: State, r: nat, now: int, i: nat, announce: bool): State
    requires Known(s, r) && i < |s.disks|
  {
    Launch(NewBackup(s, Backup(Export, s.disks[i].id, Queued, None, false, NoStage)), r, s.nextBackup, now, announce)
  }

  lemma LaunchFrames(s: State, r: nat, now: int, i: nat, announce: bool)
    requires Known(s, r) && i < |s.disks| && Open(s.runs[r].status) && s.runs[r].backupRunId.None?
    requires forall b :: b in s.backups ==> b < s.nextBackup
    ensures Framed(s, Launched(s, r, now, i, announce), r)
  {
  }

  lemma LaunchKeeps(s: State, r: nat, now: int, i: nat, announce: bool)
    requires Inv(s, now) && Known(s, r) && Open(s.runs[r].status) && s.runs[r].backupRunId.None?
    requires s.runs[r].windowStartsAt <= now <= s.runs[r].windowEndsAt && i < |s.disks|
    ensures Inv(Launched(s, r, now, i, announce), now) && Evolves(s, Launched(s, r, now, i, announce))
  {
    RowAndKeys(s, r, now);
    LaunchFrames(s, r, now, i, announce);
    hide Inv, Evolves, Framed;
    Reframe(s, Launched(s, r, now, i, announce), r, now);
  }

  lemma StartKeeps(s: State, r: nat, now: int, agent: AgentReply, announce: bool)
    requires Inv(s, now) && Known(s, r) && Open(s.runs[r].status) && s.runs[r].backupRunId.None?
    requires s.runs[r].windowStartsAt <= now <= s.runs[r].windowEndsAt
    ensures Inv(StartRun(s, r, now, agent, announce), now) && Evolves(s, StartRun(s, r, now, agent, announce))
  {
    var way := StartOf(s, EventOf(s, r).diskSerial, agent);
    WayIsFree(s, EventOf(s, r).diskSerial, agent);
    hide Inv, Evolves, StartOf, BackupResult, Launch, Refuse, SetStatus, AnyActive, DiskToUse;
    WaitKeeps(s, r, WaitingForExternalBackup, now);
    WaitKeeps(s, r, WaitingForDisk, now);
    RejectKeeps(s, r, now);
    if way.Go? {
      LaunchKeeps(s, r, now, way.disk, announce);
    }
  }

  lemma AdvanceKeeps(s: State, r: nat, now: int, agent: AgentReply)
    requires Inv(s, now) && Known(s, r) && Open(s.runs[r].status)
    requires s.runs[r].windowStartsAt <= now <= s.runs[r].windowEndsAt
    ensures Inv(Advance(s, r, now, agent), now) && Evolves(s, Advance(s, r, now, agent))
  {
    KeysBound(s, now);
    EvolvesReflexively(s);
    hide Inv, Evolves, StartRun;
    if s.runs[r].backupRunId.None? {
      WaitKeeps(s, r, WaitingForConfirmation, now);
      StartKeeps(s, r, now, agent, true);
    }
  }

  lemma ProcessKeeps(s: State, r: nat, now: int, agent: AgentReply)
    requires Inv(s, now) && Known(s, r) && Open(s.runs[r].status)
    ensures Inv(ProcessRun(s, r, now, agent), now) && Evolves(s, ProcessRun(s, r, now, agent))
  {
    KeysBound(s, now);
    SyncKeeps(s, r, now);
    var s1 := SyncLinked(s, r, now);
    if !Closed(s1.runs[r].status) {
      var s2 := Remind(s, r, now);
      RemindKeeps(s, r, now);
      AfterReminder(s2, r, now, agent);
      hide Inv, Evolves, SyncLinked, Remind, Advance;
      EvolvesTransitively(s, s2, ProcessRun(s, r, now, agent));
    }
  }

  lemma AfterReminder(s: State, r: nat, now: int, agent: AgentReply)
    requires Inv(s, now) && Known(s, r) && Open(s.runs[r].status)
    ensures Inv(Decide(s, r, now, agent), now) && Evolves(s, Decide(s, r, now, agent))
  {
    var run := s.runs[r];
    KeysBound(s, now);
    assert RowInv(s, r, now);
    EvolvesReflexively(s);
    if now > run.windowEndsAt {
      if CanMarkMissed(run) { MissKeeps(s, r, now); }
    } else if now >= run.windowStartsAt {
      if run.status.Pending? { WaitKeeps(s, r, WaitingForDisk, now); }
      SeeThenAdvanceKeeps(s, r, now, agent);
      hide Inv, Evolves, Advance;
    }
  }

  lemma SeeThenAdvanceKeeps(s: State, r: nat, now: int, agent: AgentReply)
    requires Inv(s, now) && Known(s, r) && Open(s.runs[r].status)
    requires s.runs[r].windowStartsAt <= now <= s.runs[r].windowEndsAt
    ensures var t := Advance(SeeDisk(s, r, now), r, now, agent); Inv(t, now) && Evolves(s, t)
  {
    KeysBound(s, now);
    SeeKeeps(s, r, now);
    AdvanceKeeps(SeeDisk(s, r, now), r, now, agent);
    hide Inv, Evolves, Advance;
    EvolvesTransitively(s, SeeDisk(s, r, now), Advance(SeeDisk(s, r, now), r, now, agent));
  }

  // ----- new runs -----

  predicate Fresh(run: Run, events: seq<Event>) {
    run.eventId < |events| && run == NewRun(run.eventId, events[run.eventId], run.scheduledFor)
  }

  lemma {:induction false} MissingAreFresh(committed: seq<Run>, e: nat, events: seq<Event>, occurrences: seq<int>)
    requires e < |events|
    ensures forall run :: run in MissingRuns(committed, e, events[e], occurrences) ==> Fresh(run, events)
  {
    if occurrences != [] {
      MissingAreFresh(committed, e, events, occurrences[..|occurrences| - 1]);
    }
  }

  lemma {:induction false} DueAreFresh(committed: seq<Run>, events: seq<Event>, n: nat, disk: Option<Disk>, lo: int,
                                       hi: int)
    requires n <= |events|
    ensures forall run :: run in DueRuns(committed, events, n, disk, lo, hi) ==> Fresh(run, events)
  {
    hide Expand, Fresh, MissingRuns, Wanted;
    if n > 0 {
      DueAreFresh(committed, events, n - 1, disk, lo, hi);
      if Wanted(events[n - 1], disk) {
        MissingAreFresh(committed, n - 1, events, Expand(events[n - 1].schedule, lo, hi));
      }
    }
  }

  lemma AppendKeeps(s: State, rows: seq<Run>, now: int)
    requires Inv(s, now) && forall run :: run in rows ==> Fresh(run, s.events)
    ensures var t := s.(runs := s.runs + rows); Inv(t, now) && Evolves(s, t)
  {
    var t := s.(runs := s.runs + rows);
    forall r | 0 <= r < |t.runs| ensures RowInv(t, r, now) {
      if r < |s.runs| {
        assert RowInv(s, r, now);
      } else {
        assert t.runs[r] == rows[r - |s.runs|] && Fresh(t.runs[r], s.events);
        assert forall n :: n in s.notices ==> n.run < |s.runs|;
      }
    }
    forall i, j | 0 <= i < j < |t.runs| && t.runs[i].backupRunId.Some?
      ensures t.runs[i].backupRunId != t.runs[j].backupRunId
    {
      if j >= |s.runs| {
        assert Fresh(rows[j - |s.runs|], s.events);
        assert i >= |s.runs| ==> Fresh(rows[i - |s.runs|], s.events);
      }
    }
  }

  lemma CreateKeeps(s: State, disk: Option<Disk>, lo: int, hi: int, now: int)
    requires Inv(s, now)
    ensures Inv(CreateRuns(s, disk, lo, hi), now) && Evolves(s, CreateRuns(s, disk, lo, hi))
  {
    DueAreFresh(s.runs, s.events, |s.events|, disk, lo, hi);
    AppendKeeps(s, DueRuns(s.runs, s.events, |s.events|, disk, lo, hi), now);
  }

  // ----- requests -----

  lemma CancelKeeps(s: State, r: nat, now: int)
    requires Inv(s, now) && r < |s.runs| && !Closed(s.runs[r].status)
    ensures var t := Put(s, r, s.runs[r].(status := Cancelled, finishedAt := Some(now))); Inv(t, now) && Evolves(s, t)
  {
    RowAndKeys(s, r, now);
    hide Inv, Evolves;
    Reframe(s, Put(s, r, s.runs[r].(status := Cancelled, finishedAt := Some(now))), r, now);
  }

  lemma ConfirmKeeps(s: State, r: nat, now: int, agent: AgentReply)
    requires Inv(s, now)
    ensures var t := Outcome(s, Confirm(s, r, now, agent)); Inv(t, now) && Evolves(s, t)
  {
    KeysBound(s, now);
    EvolvesReflexively(s);
    if r < |s.runs| && s.runs[r].status.WaitingForConfirmation? {
      assert RowInv(s, r, now);
      if now > s.runs[r].windowEndsAt {
        CancelKeeps(s, r, now);
      } else {
        StartKeeps(s, r, now, agent, false);
        hide Inv, Evolves, StartRun;
      }
    }
  }

  lemma RunNowKeeps(s: State, e: nat, now: int, agent: AgentReply)
    requires Inv(s, now)
    ensures var t := Outcome(s, RunEventNow(s, e, now, agent)); Inv(t, now) && Evolves(s, t)
  {
    KeysBound(s, now);
    EvolvesReflexively(s);
    if e < |s.events| && !s.events[e].schedule.deleted {
      var row := NewRun(e, s.events[e], now);
      var t := s.(runs := s.runs + [row]);
      AppendKeeps(s, [row], now);
      assert s.events[e].windowDurationMinutes >= 1;
      StartKeeps(t, |s.runs|, now, agent, false);
      hide Inv, Evolves, StartRun;
      EvolvesTransitively(s, t, StartRun(t, |s.runs|, now, agent, false));
    }
  }

  lemma TurnKeeps(s: State, r: nat, now: int, agent: AgentReply)
    requires Inv(s, now)
    ensures Inv(Turn(s, r, now, agent), now) && Evolves(s, Turn(s, r, now, agent))
  {
    KeysBound(s, now);
    EvolvesReflexively(s);
    if Known(s, r) && Open(s.runs[r].status) {
      ProcessKeeps(s, r, now, agent);
    }
    hide Inv, Evolves, ProcessRun;
  }

  lemma DetectTurnKeeps(s: State, r: nat, disk: Disk, now: int, agent: AgentReply)
    requires Inv(s, now)
    ensures Inv(DetectTurn(s, r, disk, now, agent), now) && Evolves(s, DetectTurn(s, r, disk, now, agent))
  {
    KeysBound(s, now);
    EvolvesReflexively(s);
    if Detectable(s, r, disk, now) {
      SeeThenAdvanceKeeps(s, r, now, agent);
    }
    hide Inv, Evolves, Advance;
  }

  lemma StepKeeps(s: State, op: Op, clock: int)
    requires Inv(s, clock) && clock <= op.now
    ensures Inv(Apply(s, op), op.now) && Evolves(s, Apply(s, op))
  {
    LaterClock(s, clock, op.now);
    KeysBound(s, clock);
    EvolvesReflexively(s);
    match op {
      case CreateOp(now) => CreateKeeps(s, None, now - 24 * HOUR, now + 24 * HOUR, now);
      case TurnOp(r, now, agent) => TurnKeeps(s, r, now, agent);
      case CreateForDiskOp(disk, now) => CreateKeeps(s, Some(disk), now - 24 * HOUR, now + HOUR, now);
      case DetectOp(r, disk, now, agent) => DetectTurnKeeps(s, r, disk, now, agent);
      case ConfirmOp(r, now, agent) => ConfirmKeeps(s, r, now, agent);
      case CancelOp(r, now) =>
        if r < |s.runs| && !Closed(s.runs[r].status) { CancelKeeps(s, r, now); }
      case RunNowOp(e, now, agent) => RunNowKeeps(s, e, now, agent);
      case EndOp(b, now, exec) => EndKeeps(s, b, now, exec);
      case OpenEjectOp(i, now) => EjectStepsKeep(s, op, now);
      case UnmountOp(b, now, reply) => EjectStepsKeep(s, op, now);
      case DetachOp(b, now, raises, slotsAfter) => EjectStepsKeep(s, op, now);
      case FinishEjectOp(b, now) => EjectStepsKeep(s, op, now);
      case _ => BackupSteps(s, op, op.now);
    }
    hide Inv, Evolves;
  }

  // ----- whole runs -----

  /** Every state any timed sequence of steps reaches satisfies the invariant. */
  lemma {:induction false} AlwaysInv(ops: seq<Op>, from: int, legacy: bool)
    requires Timed(ops, from)
    ensures Inv(RunOps(Initial(legacy), ops), EndOf(ops, from))
  {
    if ops != [] {
      var before, last := ops[..|ops| - 1], ops[|ops| - 1];
      AlwaysInv(before, from, legacy);
      StepKeeps(RunOps(Initial(legacy), before), last, EndOf(before, from));
    }
  }

  /** Between any two moments of a timed sequence of steps, rows only evolve as allowed. */
  lemma {:induction false} HistoryEvolves(ops: seq<Op>, from: int, legacy: bool, i: nat)
    requires Timed(ops, from) && i <= |ops|
    ensures Evolves(RunOps(Initial(legacy), ops[..i]), RunOps(Initial(legacy), ops))
  {
    var s := RunOps(Initial(legacy), ops[..i]);
    AlwaysInv(ops[..i], from, legacy);
    KeysBound(s, EndOf(ops[..i], from));
    if i == |ops| {
      assert ops[..i] == ops;
      EvolvesReflexively(s);
    } else {
      var before, last := ops[..|ops| - 1], ops[|ops| - 1];
      assert before[..i] == ops[..i];
      HistoryEvolves(before, from, legacy, i);
      AlwaysInv(before, from, legacy);
      var t := RunOps(Initial(legacy), before);
      StepKeeps(t, last, EndOf(before, from));
      hide Inv, Evolves, Apply;
      EvolvesTransitively(s, t, Apply(t, last));
    }
  }

  /**
   Over every run of the engine: ended runs stay ended, except that a missed one may be cancelled, and links
   are kept.
   */
  lemma EngineHistory(ops: seq<Op>, from: int, legacy: bool, i: nat)
    requires Timed(ops, from) && i <= |ops|
    ensures var s, t := RunOps(Initial(legacy), ops[..i]), RunOps(Initial(legacy), ops);
            && |s.runs| <= |t.runs|
            && forall r :: 0 <= r < |s.runs| ==>
                 && (Closed(s.runs[r].status) ==> t.runs[r].status == s.runs[r].status)
                 && (s.runs[r].status.Missed? ==> t.runs[r].status in {Missed, Cancelled})
                 && (s.runs[r].backupRunId.Some? ==> t.runs[r].backupRunId == s.runs[r].backupRunId)
  {
    HistoryEvolves(ops, from, legacy, i);
    var s, t := RunOps(Initial(legacy), ops[..i]), RunOps(Initial(legacy), ops);
    hide RunOps, Initial, Timed;
    forall r | 0 <= r < |s.runs| ensures MayBecome(s.runs[r], t.runs[r]) {
    }
  }

  /**
   In every reachable state: a run that is running or succeeded has a backup and only such a run, a
   failed or a cancelled one does, sightings and starts lie in the window, and a missed run was never
   seen or started and ended after its window.
   */
  lemma EngineRows(ops: seq<Op>, from: int, legacy: bool, r: nat)
    requires Timed(ops, from) && r < |RunOps(Initial(legacy), ops).runs|
    ensures var run := RunOps(Initial(legacy), ops).runs[r];
            && (run.status in {Running, Success} ==> run.backupRunId.Some?)
            && (run.backupRunId.Some? ==> run.status in {Running, Success, Failure, Cancelled})
            && (run.diskSeenAt.Some? ==> run.windowStartsAt <= run.diskSeenAt.value <= run.windowEndsAt)
            && (run.startedAt.Some? ==> run.windowStartsAt <= run.startedAt.value <= run.windowEndsAt)
            && (run.status.Missed? ==>
                  && run.diskSeenAt.None? && run.backupRunId.None?
                  && run.finishedAt.Some? && run.finishedAt.value > run.windowEndsAt)
  {
    AlwaysInv(ops, from, legacy);
    var t := RunOps(Initial(legacy), ops);
    hide RunOps, Initial, Timed;
    assert RowInv(t, r, EndOf(ops, from));
  }

  /** In every reachable state no two runs share a backup. */
  lemma EngineLinks(ops: seq<Op>, from: int, legacy: bool, r: nat, q: nat)
    requires Timed(ops, from) && r < q < |RunOps(Initial(legacy), ops).runs|
    requires RunOps(Initial(legacy), ops).runs[r].backupRunId.Some?
    ensures RunOps(Initial(legacy), ops).runs[r].backupRunId != RunOps(Initial(legacy), ops).runs[q].backupRunId
  {
    AlwaysInv(ops, from, legacy);
    hide RunOps, Initial, Timed;
  }

  /**
   In every reachable state each reminder, disk notice, missed notice and auto-eject of a run has
   happened at most once, and the auto-eject only for a successful run whose backup, if it still
   exists, succeeded.
   */
  lemma EngineNotices(ops: seq<Op>, from: int, legacy: bool, r: nat)
    requires Timed(ops, from) && r < |RunOps(Initial(legacy), ops).runs|
    ensures var t := RunOps(Initial(legacy), ops);
            && t.notices[Reminder(r)] <= 1 && t.notices[ExpectedDisk(r)] <= 1
            && t.notices[WindowMissed(r)] <= 1 && t.notices[AutoEjected(r)] <= 1
            && (t.notices[AutoEjected(r)] == 1 ==>
                  && t.runs[r].status.Success? && t.runs[r].backupRunId.Some?
                  && var b := t.runs[r].backupRunId.value;
                     b in t.backups ==> t.backups[b].status.Succeeded?)
  {
    AlwaysInv(ops, from, legacy);
    var t := RunOps(Initial(legacy), ops);
    hide RunOps, Initial, Timed;
    assert RowInv(t, r, EndOf(ops, from));
  }
}
