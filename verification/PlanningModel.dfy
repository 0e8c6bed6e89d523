/**
 The scheduled-backup engine as operations on the tables it keeps: scheduled events and their runs,
 external backup rows, and disks. Each function is what one service call commits.
 */
module PlanningModel {
  import opened Wrappers
  import opened Calendar
  import opened Recurrence
  import opened SerialIdentity

  datatype RunStatus =
    | Pending | WaitingForDisk | WaitingForConfirmation | WaitingForExternalBackup
    | Running | Success | Failure | Missed | Cancelled

  datatype StartMode = AutoOnDiskDetected | ManualConfirmation

  datatype Event = Event(
    schedule: Schedule, enabled: bool, diskSerial: string, windowDurationMinutes: int, notifyBeforeMinutes: int,
    startMode: StartMode, autoEjectAfterSuccess: bool,
    lastStatus: Option<RunStatus>, lastTriggeredAt: Option<int>, lastCompletedAt: Option<int>)
  {
    predicate Live() { enabled && !schedule.deleted }
  }

  datatype Run = Run(
    eventId: nat, scheduledFor: int, windowStartsAt: int, windowEndsAt: int, status: RunStatus,
    diskSeenAt: Option<int>, reminderSentAt: Option<int>, backupRunId: Option<nat>,
    startedAt: Option<int>, finishedAt: Option<int>)

  /** An external backup row is an export, or the activity record of an eject. */
  datatype BackupKind = Export | EjectActivity

  /** PENDING, RUNNING, SUCCESS and FAILED of an external backup row. */
  datatype BackupStatus = Queued | InProgress | Succeeded | Failed

  /** How far the thread that owns an eject's row has got, with its copy of the disk row; an export has no stages. */
  datatype Stage = NoStage | Opened(copy: Disk) | AfterUnmount(copy: Disk) | AfterDetach(copy: Disk) | Over

  datatype Backup = Backup(
    kind: BackupKind, diskId: int, status: BackupStatus, finishedAt: Option<int>, autoEject: bool, stage: Stage)
  {
    predicate Active() { status.Queued? || status.InProgress? }
  }

  datatype Disk = Disk(
    id: int,
    serialNumber: string, reportedSerial: Option<string>, canonicalSerial: Option<string>, aliases: seq<string>,
    present: bool, trusted: bool, connected: bool, dedicated: bool, prepared: bool, allowExistingData: bool,
    pbsVisible: bool, pbsDevicePath: Option<string>, handoffSlot: Option<string>, usbMapping: Option<string>,
    datastoreName: Option<string>, ejected: bool)

  /** What a service call tells the user about a run. */
  datatype Notice =
    | Reminder(run: nat) | ExpectedDisk(run: nat) | WindowMissed(run: nat) | AutoEjected(run: nat)
    | ConfirmationRequired(run: nat) | PlannedStarted(run: nat) | StartFailed(run: nat)

  datatype State = State(
    events: seq<Event>, runs: seq<Run>, backups: map<nat, Backup>, nextBackup: nat, disks: seq<Disk>,
    notices: multiset<Notice>, legacyCoexistence: bool)

  /** The agent's answer when a backup is about to be created. */
  datatype AgentReply = Idle | AlreadyActive | Incompatible | CommandError | OtherError

  /** The answer to the unmount command of an eject. */
  datatype UnmountReply = Unmounted | NotOk | AgentCommandError | HttpException | OtherException

  datatype EjectReply = EjectReply(unmount: UnmountReply, detachRaises: bool, slotsAfter: set<string>)

  /** How handing the disk over and exporting to it went. */
  datatype ExecReply = Exported(target: Option<string>) | RefreshRaised(target: Option<string>) | ExportRaised

  datatype Env = Env(agent: AgentReply, eject: EjectReply)

  // ----- disks -----

  predicate HasAlias(disk: Disk, alias: string) {
    alias in disk.aliases || (alias != "" && disk.canonicalSerial == Some(alias))
  }

  predicate DiskMatches(disk: Disk, eventSerial: string) {
    || SerialsMatch(Some(disk.serialNumber), Some(eventSerial))
    || (disk.reportedSerial.Some? && disk.reportedSerial.value != ""
        && SerialsMatch(disk.reportedSerial, Some(eventSerial)))
    || (exists a :: a in ApiAliases(Some(eventSerial)) && HasAlias(disk, a))
  }

  predicate PresentMatch(disks: seq<Disk>, serial: string) {
    exists d :: d in disks && d.present && DiskMatches(d, serial)
  }

  function PresentDisk(disks: seq<Disk>, serial: string): (i: Option<nat>)
    ensures i.Some? ==> i.value < |disks| && disks[i.value].present && DiskMatches(disks[i.value], serial)
    ensures i.None? ==> forall d :: d in disks && d.present ==> !DiskMatches(d, serial)
  {
    if disks == [] then None
    else if disks[0].present && DiskMatches(disks[0], serial) then Some(0)
    else match PresentDisk(disks[1..], serial) case Some(i) => Some(i + 1) case None => None
  }

  function ExactDisk(disks: seq<Disk>, serial: string): (i: Option<nat>)
    ensures i.Some? ==> i.value < |disks| && disks[i.value].serialNumber == serial
  {
    if disks == [] then None
    else if disks[0].serialNumber == serial then Some(0)
    else match ExactDisk(disks[1..], serial) case Some(i) => Some(i + 1) case None => None
  }

  function MatchingDisk(disks: seq<Disk>, serial: string): (i: Option<nat>)
    ensures i.Some? ==> i.value < |disks| && DiskMatches(disks[i.value], serial)
  {
    if disks == [] then None
    else if DiskMatches(disks[0], serial) then Some(0)
    else match MatchingDisk(disks[1..], serial) case Some(i) => Some(i + 1) case None => None
  }

  function DiskByIdentity(disks: seq<Disk>, serial: string): (i: Option<nat>)
    ensures i.Some? ==> i.value < |disks|
  {
    if ExactDisk(disks, serial).Some? then ExactDisk(disks, serial) else MatchingDisk(disks, serial)
  }

  /** A present disk if there is one, else any known one. */
  function DiskToUse(disks: seq<Disk>, serial: string): (i: Option<nat>)
    ensures i.Some? ==> i.value < |disks|
  {
    if PresentDisk(disks, serial).Some? then PresentDisk(disks, serial) else DiskByIdentity(disks, serial)
  }

  function DiskById(disks: seq<Disk>, id: int): (i: Option<nat>)
    ensures i.Some? ==> i.value < |disks| && disks[i.value].id == id
    ensures forall j :: 0 <= j < |disks| && disks[j].id == id ==> i.Some? && i.value <= j
  {
    if disks == [] then None
    else if disks[0].id == id then Some(0)
    else match DiskById(disks[1..], id) case Some(i) => Some(i + 1) case None => None
  }

  // ----- table updates -----

  /** A column is written when it differs from what was read. */
  function Column<T(==)>(read: T, computed: T, stored: T): T {
    if computed == read then stored else computed
  }

  function Put(s: State, r: nat, run: Run): State
    requires r < |s.runs|
  {
    s.(runs := s.runs[r := run])
  }

  function PutEvent(s: State, e: nat, event: Event): State
    requires e < |s.events|
  {
    s.(events := s.events[e := event])
  }

  function PutBackup(s: State, b: nat, backup: Backup): State {
    s.(backups := s.backups[b := backup])
  }

  function Notify(s: State, n: Notice): State {
    s.(notices := s.notices + multiset{n})
  }

  function NewBackup(s: State, backup: Backup): State {
    s.(backups := s.backups[s.nextBackup := backup], nextBackup := s.nextBackup + 1)
  }

  predicate AnyActive(s: State) {
    exists b :: b in s.backups && s.backups[b].Active()
  }

  predicate ActiveOnDisk(s: State, diskId: int) {
    exists b :: b in s.backups && s.backups[b].Active() && s.backups[b].diskId == diskId
  }

  // ----- ejecting a disk -----

  predicate Ejectable(disk: Disk) {
    disk.dedicated || disk.prepared
  }

  predicate CanEject(s: State, i: nat)
    requires i < |s.disks|
  {
    Ejectable(s.disks[i]) && !ActiveOnDisk(s, s.disks[i].id)
  }

  /** The eject opens its activity row; it keeps the copy of the disk row it has read. */
  function OpenEject(s: State, i: nat): (t: State)
    requires i < |s.disks|
    ensures t.runs == s.runs && t.events == s.events && t.notices == s.notices && |t.disks| == |s.disks|
  {
    if CanEject(s, i)
    then NewBackup(s, Backup(EjectActivity, s.disks[i].id, InProgress, None, false, Opened(s.disks[i])))
    else s
  }

  /** The eject of row `b` has got to a certain stage. */
  predicate Ejecting(s: State, b: nat) {
    b in s.backups && s.backups[b].kind.EjectActivity? && s.backups[b].status.InProgress?
  }

  function Reach(s: State, b: nat, stage: Stage): State
    requires b in s.backups
  {
    PutBackup(s, b, s.backups[b].(stage := stage))
  }

  function EndEject(s: State, b: nat, status: BackupStatus, now: int): State
    requires b in s.backups
  {
    PutBackup(s, b, s.backups[b].(status := status, finishedAt := Some(now), stage := Over))
  }

  /** The unmount command is answered; an exception that is not caught ends the thread with its row open. */
  function Unmount(s: State, b: nat, now: int, reply: UnmountReply): (t: State)
    ensures t.runs == s.runs && t.events == s.events && t.notices == s.notices && |t.disks| == |s.disks|
  {
    if !Ejecting(s, b) || !s.backups[b].stage.Opened? then s
    else match reply
      case Unmounted => Reach(s, b, AfterUnmount(s.backups[b].stage.copy))
      case OtherException => Reach(s, b, Over)
      case _ => EndEject(s, b, Failed, now)
  }

  /** The USB slot is empty, or was given back and is no longer configured. */
  predicate SlotGone(slot: Option<string>, raises: bool, slotsAfter: set<string>) {
    slot.None? || slot.value == "" || (!raises && slot.value !in slotsAfter)
  }

  function Detach(s: State, b: nat, now: int, raises: bool, slotsAfter: set<string>): (t: State)
    ensures t.runs == s.runs && t.events == s.events && t.notices == s.notices && |t.disks| == |s.disks|
  {
    if !Ejecting(s, b) || !s.backups[b].stage.AfterUnmount? then s
    else if SlotGone(s.backups[b].stage.copy.handoffSlot, raises, slotsAfter)
    then Reach(s, b, AfterDetach(s.backups[b].stage.copy))
    else EndEject(s, b, Failed, now)
  }

  /** A released disk, of whose columns those are written that differ from the copy the eject has read. */
  function Released(copy: Disk, disk: Disk): Disk {
    disk.(connected := Column(copy.connected, false, disk.connected),
          pbsVisible := Column(copy.pbsVisible, false, disk.pbsVisible),
          pbsDevicePath := Column(copy.pbsDevicePath, None, disk.pbsDevicePath),
          handoffSlot := Column(copy.handoffSlot, None, disk.handoffSlot),
          usbMapping := Column(copy.usbMapping, None, disk.usbMapping),
          ejected := Column(copy.ejected, true, disk.ejected))
  }

  /** Disk and row are written in one commit, which raises if the disk row is gone. */
  function FinishEject(s: State, b: nat, now: int): (t: State)
    ensures t.runs == s.runs && t.events == s.events && t.notices == s.notices && |t.disks| == |s.disks|
  {
    if !Ejecting(s, b) || !s.backups[b].stage.AfterDetach? then s
    else
      match DiskById(s.disks, s.backups[b].diskId)
      case None => Reach(s, b, Over)
      case Some(i) =>
        var released := Released(s.backups[b].stage.copy, s.disks[i]);
        EndEject(s.(disks := s.disks[i := released]), b, Succeeded, now)
  }

  /** A whole eject with nothing in between. */
  function EjectDisk(s: State, i: nat, now: int, reply: EjectReply): (t: State)
    requires i < |s.disks|
    ensures t.runs == s.runs && t.events == s.events && t.notices == s.notices && |t.disks| == |s.disks|
  {
    if !CanEject(s, i) then s
    else
      var b := s.nextBackup;
      var unmounted := Unmount(OpenEject(s, i), b, now, reply.unmount);
      FinishEject(Detach(unmounted, b, now, reply.detachRaises, reply.slotsAfter), b, now)
  }

  function MaybeEject(s: State, i: Option<nat>, now: int, reply: EjectReply): (t: State)
    requires i.Some? ==> i.value < |s.disks|
    ensures t.runs == s.runs && t.events == s.events && t.notices == s.notices && |t.disks| == |s.disks|
  {
    if i.Some? then EjectDisk(s, i.value, now, reply) else s
  }

  // ----- creating and executing an external backup -----

  datatype StartResult = Started | Conflict | Rejected

  predicate PlanExists(s: State, disk: Disk) {
    disk.dedicated || !s.legacyCoexistence || disk.allowExistingData
  }

  function BackupResult(s: State, i: nat, agent: AgentReply): StartResult
    requires i < |s.disks|
  {
    if AnyActive(s) then Conflict
    else if agent.AlreadyActive? then Conflict
    else if !agent.Idle? then Rejected
    else if !s.disks[i].trusted || !s.disks[i].connected || !PlanExists(s, s.disks[i]) then Rejected
    else Started
  }

  /** `run_external_backup` as one step: the check and the insertion happen under one lock. */
  function RunExternalBackup(s: State, i: nat, agent: AgentReply, autoEject: bool): (t: State)
    requires i < |s.disks|
    ensures t.runs == s.runs && t.events == s.events && t.disks == s.disks && t.notices == s.notices
  {
    if BackupResult(s, i, agent).Started?
    then NewBackup(s, Backup(Export, s.disks[i].id, Queued, None, autoEject, NoStage)) else s
  }

  predicate Executable(s: State, b: nat) {
    b in s.backups && s.backups[b].kind.Export?
  }

  /** The execution thread picks its row up. */
  function BeginBackup(s: State, b: nat, now: int): State {
    if !Executable(s, b) || !s.backups[b].Active() then s
    else if DiskById(s.disks, s.backups[b].diskId).None? then
      PutBackup(s, b, s.backups[b].(status := Failed, finishedAt := Some(now)))
    else PutBackup(s, b, s.backups[b].(status := InProgress))
  }

  function Prepared(disk: Disk, target: Option<string>): Disk {
    if target.Some? then disk.(datastoreName := target, prepared := true) else disk
  }

  function CloseBackup(s: State, b: nat, status: BackupStatus, now: int): State
    requires b in s.backups
  {
    PutBackup(s, b, s.backups[b].(status := status, finishedAt := Some(now)))
  }

  /** The disk row as a successful export leaves it. */
  function PrepareDisk(s: State, diskId: int, target: Option<string>): State {
    var i := DiskById(s.disks, diskId);
    if i.Some? then s.(disks := s.disks[i.value := Prepared(s.disks[i.value], target)]) else s
  }

  function ExportStatus(exec: ExecReply): BackupStatus {
    if exec.Exported? then Succeeded else Failed
  }

  /** The execution thread closes the row it set in progress. */
  function EndBackup(s: State, b: nat, now: int, exec: ExecReply): (t: State)
    ensures |t.disks| == |s.disks|
  {
    if !Executable(s, b) || !s.backups[b].status.InProgress? then s
    else
      var prepared := if exec.ExportRaised? then s else PrepareDisk(s, s.backups[b].diskId, exec.target);
      CloseBackup(prepared, b, ExportStatus(exec), now)
  }

  /** The disk an execution goes on to eject when it has closed its row. */
  function EjectAfterBackup(s: State, b: nat, exec: ExecReply): (i: Option<nat>)
    ensures i.Some? ==> i.value < |s.disks|
  {
    if !Executable(s, b) || !s.backups[b].status.InProgress? || !exec.Exported? || !s.backups[b].autoEject then None
    else
      match DiskById(s.disks, s.backups[b].diskId)
      case None => None
      case Some(i) => if Ejectable(Prepared(s.disks[i], exec.target)) then Some(i) else None
  }

  /** The end of an execution with the eject it goes on to. */
  function EndAndEject(s: State, b: nat, now: int, exec: ExecReply, eject: EjectReply): State {
    MaybeEject(EndBackup(s, b, now, exec), EjectAfterBackup(s, b, exec), now, eject)
  }

  // ----- creating runs -----

  predicate HasRun(runs: seq<Run>, e: nat, t: int) {
    exists i :: 0 <= i < |runs| && runs[i].eventId == e && runs[i].scheduledFor == t
  }

  function NewRun(e: nat, event: Event, t: int): Run {
    Run(e, t, t, t + event.windowDurationMinutes * MINUTE, Pending, None, None, None, None, None)
  }

  /** New rows for the occurrences of one event that have no committed row. */
  function MissingRuns(committed: seq<Run>, e: nat, event: Event, occurrences: seq<int>): seq<Run> {
    if occurrences == [] then []
    else
      var rest := MissingRuns(committed, e, event, occurrences[..|occurrences| - 1]);
      var t := occurrences[|occurrences| - 1];
      if HasRun(committed, e, t) then rest else rest + [NewRun(e, event, t)]
  }

  /** The event is enabled, not deleted and, when a disk is given, meant for it. */
  predicate Wanted(event: Event, disk: Option<Disk>) {
    event.Live() && (disk.Some? ==> DiskMatches(disk.value, event.diskSerial))
  }

  /** New rows for the first `n` events. */
  function DueRuns(committed: seq<Run>, events: seq<Event>, n: nat, disk: Option<Disk>, lo: int, hi: int): seq<Run>
    requires n <= |events|
  {
    if n == 0 then []
    else
      DueRuns(committed, events, n - 1, disk, lo, hi)
      + (if Wanted(events[n - 1], disk)
         then MissingRuns(committed, n - 1, events[n - 1], Expand(events[n - 1].schedule, lo, hi)) else [])
  }

  function CreateRuns(s: State, disk: Option<Disk>, lo: int, hi: int): State {
    s.(runs := s.runs + DueRuns(s.runs, s.events, |s.events|, disk, lo, hi))
  }

  function CreateDue(s: State, now: int): State {
    CreateRuns(s, None, now - 24 * HOUR, now + 24 * HOUR)
  }

  // ----- advancing one run -----

  predicate Known(s: State, r: nat) {
    r < |s.runs| && s.runs[r].eventId < |s.events|
  }

  function EventOf(s: State, r: nat): Event
    requires Known(s, r)
  {
    s.events[s.runs[r].eventId]
  }

  predicate Closed(status: RunStatus) {
    status in {Success, Failure, Cancelled}
  }

  predicate Open(status: RunStatus) {
    status in {Pending, WaitingForDisk, WaitingForConfirmation, WaitingForExternalBackup, Running}
  }

  function SetStatus(s: State, r: nat, status: RunStatus): (t: State)
    requires r < |s.runs|
    ensures |t.runs| == |s.runs| && t.events == s.events && t.runs[r] == s.runs[r].(status := status)
    ensures t.backups == s.backups && t.nextBackup == s.nextBackup && t.disks == s.disks
  {
    Put(s, r, s.runs[r].(status := status))
  }

  /** A status change that ends the run is copied to its event. */
  function Finish(s: State, r: nat, status: RunStatus, at: int): State
    requires Known(s, r)
  {
    PutEvent(Put(s, r, s.runs[r].(status := status, finishedAt := Some(at))), s.runs[r].eventId,
             EventOf(s, r).(lastStatus := Some(status), lastCompletedAt := Some(at)))
  }

  predicate Linked(s: State, r: nat) {
    r < |s.runs| && s.runs[r].status.Running? && s.runs[r].backupRunId.Some? && s.runs[r].backupRunId.value in s.backups
  }

  /** The disk a turn goes on to eject when its run turns out to have succeeded. */
  function EjectAfterSync(s: State, r: nat): (i: Option<nat>)
    requires Known(s, r)
    ensures i.Some? ==> i.value < |s.disks|
  {
    if Linked(s, r) && s.backups[s.runs[r].backupRunId.value].status.Succeeded? && EventOf(s, r).autoEjectAfterSuccess
    then DiskByIdentity(s.disks, EventOf(s, r).diskSerial) else None
  }

  /** The run follows its backup; an eject that is due is noted and left to the steps after. */
  function SyncLinked(s: State, r: nat, now: int): (t: State)
    requires Known(s, r)
    ensures |t.runs| == |s.runs| && |t.events| == |s.events| && t.runs[r].eventId == s.runs[r].eventId
    ensures t.backups == s.backups && t.nextBackup == s.nextBackup && t.disks == s.disks
  {
    if !Linked(s, r) || s.backups[s.runs[r].backupRunId.value].Active() then s
    else
      var backup := s.backups[s.runs[r].backupRunId.value];
      var finished := if backup.finishedAt.Some? then backup.finishedAt.value else now;
      var done := Finish(s, r, if backup.status.Succeeded? then Success else Failure, finished);
      if EjectAfterSync(s, r).Some? then Notify(done, AutoEjected(r)) else done
  }

  function Remind(s: State, r: nat, now: int): (t: State)
    requires Known(s, r)
    ensures |t.runs| == |s.runs| && t.events == s.events && t.runs[r].eventId == s.runs[r].eventId
    ensures t.backups == s.backups && t.nextBackup == s.nextBackup && t.disks == s.disks
  {
    if s.runs[r].reminderSentAt.None? && now >= s.runs[r].windowStartsAt - EventOf(s, r).notifyBeforeMinutes * MINUTE
    then Notify(Put(s, r, s.runs[r].(reminderSentAt := Some(now))), Reminder(r))
    else s
  }

  predicate CanMarkMissed(run: Run) {
    run.diskSeenAt.None? && run.backupRunId.None? && run.startedAt.None? && run.status in {Pending, WaitingForDisk}
  }

  function MarkMissed(s: State, r: nat, now: int): (t: State)
    requires Known(s, r)
    ensures t.backups == s.backups && t.nextBackup == s.nextBackup && t.disks == s.disks
  {
    Notify(Finish(s, r, Missed, now), WindowMissed(r))
  }

  function SeeDisk(s: State, r: nat, now: int): (t: State)
    requires r < |s.runs|
    ensures |t.runs| == |s.runs| && t.events == s.events && t.runs[r].eventId == s.runs[r].eventId
    ensures t.backups == s.backups && t.nextBackup == s.nextBackup && t.disks == s.disks
  {
    if s.runs[r].diskSeenAt.Some? then s
    else Notify(Put(s, r, s.runs[r].(diskSeenAt := Some(now))), ExpectedDisk(r))
  }

  /** The run was refused by the agent or for the state of its disk. */
  function Refuse(s: State, r: nat, now: int): (t: State)
    requires Known(s, r)
    ensures |t.runs| == |s.runs| && |t.events| == |s.events|
    ensures t.backups == s.backups && t.nextBackup == s.nextBackup && t.disks == s.disks
    ensures t.runs[r] == s.runs[r].(status := Failure, finishedAt := Some(now))
  {
    Notify(Finish(s, r, Failure, now), StartFailed(r))
  }

  /** The run is linked to the backup that was made for it, and its event and the user are told. */
  function Launch(s: State, r: nat, b: nat, now: int, announce: bool): (t: State)
    requires Known(s, r)
    ensures |t.runs| == |s.runs| && |t.events| == |s.events|
    ensures t.backups == s.backups && t.nextBackup == s.nextBackup && t.disks == s.disks
    ensures t.runs[r] == s.runs[r].(status := Running, backupRunId := Some(b), startedAt := Some(now))
  {
    var linked := Put(s, r, s.runs[r].(status := Running, backupRunId := Some(b), startedAt := Some(now)));
    var event := EventOf(s, r).(lastStatus := Some(Running), lastTriggeredAt := Some(now));
    var told := PutEvent(linked, s.runs[r].eventId, event);
    if announce then Notify(told, PlannedStarted(r)) else told
  }

  /** How a start goes on: it waits, is turned down, or has a disk to back up to. */
  datatype StartWay = AwaitBackup | AwaitDisk | TurnDown | Go(disk: nat)

  function StartOf(s: State, serial: string, agent: AgentReply): (way: StartWay)
    ensures way.Go? ==> way.disk < |s.disks|
  {
    if AnyActive(s) then AwaitBackup
    else
      var disk := DiskToUse(s.disks, serial);
      if disk.None? then AwaitDisk
      else
        match BackupResult(s, disk.value, agent)
        case Conflict => AwaitBackup
        case Rejected => TurnDown
        case Started => Go(disk.value)
  }

  /** A start goes ahead only with nothing active, on a disk that may be used. */
  lemma WayIsFree(s: State, serial: string, agent: AgentReply)
    ensures var way, disk := StartOf(s, serial, agent), DiskToUse(s.disks, serial);
            && (way.AwaitBackup? <==> AnyActive(s) || (disk.Some? && BackupResult(s, disk.value, agent).Conflict?))
            && (way.AwaitDisk? <==> !AnyActive(s) && disk.None?)
            && (way.TurnDown? <==> !AnyActive(s) && disk.Some? && BackupResult(s, disk.value, agent).Rejected?)
            && (way.Go? ==> !AnyActive(s) && disk == Some(way.disk) && BackupResult(s, way.disk, agent).Started?)
  {
    hide DiskToUse, AnyActive, PlanExists;
  }

  function StartRun(s: State, r: nat, now: int, agent: AgentReply, announce: bool): (t: State)
    requires Known(s, r)
    ensures |t.runs| == |s.runs| && |t.events| == |s.events| && t.disks == s.disks
  {
    match StartOf(s, EventOf(s, r).diskSerial, agent)
    case AwaitBackup => SetStatus(s, r, WaitingForExternalBackup)
    case AwaitDisk => SetStatus(s, r, WaitingForDisk)
    case TurnDown => Refuse(s, r, now)
    case Go(disk) => Launch(RunExternalBackup(s, disk, agent, false), r, s.nextBackup, now, announce)
  }

  function Advance(s: State, r: nat, now: int, agent: AgentReply): (t: State)
    requires Known(s, r)
    ensures |t.runs| == |s.runs| && |t.events| == |s.events| && t.disks == s.disks
  {
    if s.runs[r].backupRunId.Some? then s
    else if EventOf(s, r).startMode.ManualConfirmation? then
      if s.runs[r].status.WaitingForConfirmation? then s
      else Notify(SetStatus(s, r, WaitingForConfirmation), ConfirmationRequired(r))
    else StartRun(s, r, now, agent, true)
  }

  /** What a turn does once the link is up to date and the reminder is out. */
  function Decide(s: State, r: nat, now: int, agent: AgentReply): (t: State)
    requires Known(s, r)
    ensures |t.runs| == |s.runs| && |t.events| == |s.events| && t.disks == s.disks
  {
    var run := s.runs[r];
    if now > run.windowEndsAt then (if CanMarkMissed(run) then MarkMissed(s, r, now) else s)
    else if now < run.windowStartsAt then s
    else if PresentDisk(s.disks, EventOf(s, r).diskSerial).None? then
      (if run.status.Pending? then SetStatus(s, r, WaitingForDisk) else s)
    else Advance(SeeDisk(s, r, now), r, now, agent)
  }

  function ProcessRun(s: State, r: nat, now: int, agent: AgentReply): (t: State)
    requires Known(s, r)
    ensures |t.runs| == |s.runs| && |t.events| == |s.events| && t.disks == s.disks
  {
    var synced := SyncLinked(s, r, now);
    if Closed(synced.runs[r].status) then synced else Decide(Remind(synced, r, now), r, now, agent)
  }

  // ----- the entry points -----

  predicate TakesTurn(s: State, r: nat) {
    Known(s, r) && Open(s.runs[r].status) && EventOf(s, r).Live()
  }

  /** One turn of the tick's loop, up to the eject it may go on to. */
  function Turn(s: State, r: nat, now: int, agent: AgentReply): (t: State)
    ensures |t.runs| == |s.runs| && |t.events| == |s.events| && t.disks == s.disks
  {
    if TakesTurn(s, r) then ProcessRun(s, r, now, agent) else s
  }

  /** One turn of the tick's loop with its eject. */
  function WholeTurn(s: State, r: nat, now: int, env: Env): (t: State)
    ensures |t.runs| == |s.runs| && |t.events| == |s.events|
  {
    MaybeEject(Turn(s, r, now, env.agent), if TakesTurn(s, r) then EjectAfterSync(s, r) else None, now, env.eject)
  }

  function ProcessList(s: State, ids: seq<nat>, now: int, env: nat -> Env): (t: State)
    ensures |t.runs| == |s.runs| && |t.events| == |s.events|
  {
    if ids == [] then s
    else WholeTurn(ProcessList(s, ids[..|ids| - 1], now, env), ids[|ids| - 1], now, env(ids[|ids| - 1]))
  }

  /** The open runs among the first `n`, in table order. */
  function OpenIds(runs: seq<Run>, n: nat): seq<nat>
    requires n <= |runs|
  {
    if n == 0 then [] else OpenIds(runs, n - 1) + (if Open(runs[n - 1].status) then [n - 1] else [])
  }

  function Tick(s: State, now: int, env: nat -> Env): State {
    var t := CreateDue(s, now);
    ProcessList(t, OpenIds(t.runs, |t.runs|), now, env)
  }

  predicate Detectable(s: State, r: nat, disk: Disk, now: int) {
    && Known(s, r) && s.runs[r].status in {Pending, WaitingForDisk}
    && !EventOf(s, r).schedule.deleted && DiskMatches(disk, EventOf(s, r).diskSerial)
    && s.runs[r].windowStartsAt <= now <= s.runs[r].windowEndsAt
  }

  /** One turn of the detection loop. */
  function DetectTurn(s: State, r: nat, disk: Disk, now: int, agent: AgentReply): (t: State)
    ensures |t.runs| == |s.runs| && |t.events| == |s.events|
  {
    if Detectable(s, r, disk, now) then Advance(SeeDisk(s, r, now), r, now, agent) else s
  }

  function DetectList(s: State, ids: seq<nat>, disk: Disk, now: int, env: nat -> Env): (t: State)
    ensures |t.runs| == |s.runs| && |t.events| == |s.events|
  {
    if ids == [] then s
    else
      var before, last := DetectList(s, ids[..|ids| - 1], disk, now, env), ids[|ids| - 1];
      DetectTurn(before, last, disk, now, env(last).agent)
  }

  function WaitingIds(runs: seq<Run>, n: nat): seq<nat>
    requires n <= |runs|
  {
    if n == 0 then []
    else WaitingIds(runs, n - 1) + (if runs[n - 1].status in {Pending, WaitingForDisk} then [n - 1] else [])
  }

  function CreateForDisk(s: State, disk: Disk, now: int): State {
    CreateRuns(s, Some(disk), now - 24 * HOUR, now + HOUR)
  }

  function Detect(s: State, disk: Disk, now: int, env: nat -> Env): State {
    var t := CreateForDisk(s, disk, now);
    DetectList(t, WaitingIds(t.runs, |t.runs|), disk, now, env)
  }

  /** Why a request on a run is refused. */
  datatype Refusal = RunNotFound | EventNotFound | NotWaitingForConfirmation

  function Confirm(s: State, r: nat, now: int, agent: AgentReply): Result<State, Refusal> {
    if r >= |s.runs| then Err(RunNotFound)
    else if s.runs[r].eventId >= |s.events| then Err(EventNotFound)
    else if !s.runs[r].status.WaitingForConfirmation? then Err(NotWaitingForConfirmation)
    else if now > s.runs[r].windowEndsAt then Ok(Put(s, r, s.runs[r].(status := Cancelled, finishedAt := Some(now))))
    else Ok(StartRun(s, r, now, agent, false))
  }

  function Cancel(s: State, r: nat, now: int): Result<State, Refusal> {
    if r >= |s.runs| then Err(RunNotFound)
    else if Closed(s.runs[r].status) then Ok(s)
    else Ok(Put(s, r, s.runs[r].(status := Cancelled, finishedAt := Some(now))))
  }

  function RunEventNow(s: State, e: nat, now: int, agent: AgentReply): Result<State, Refusal> {
    if e >= |s.events| || s.events[e].schedule.deleted then Err(EventNotFound)
    else
      var t := s.(runs := s.runs + [NewRun(e, s.events[e], now)]);
      Ok(StartRun(t, |s.runs|, now, agent, false))
  }

  // ----- runs of the whole engine -----

  /** One atomic step of the engine or of what surrounds it. */
  datatype Op =
    | CreateOp(now: int)
    | TurnOp(r: nat, now: int, agent: AgentReply)
    | CreateForDiskOp(disk: Disk, now: int)
    | DetectOp(r: nat, disk: Disk, now: int, agent: AgentReply)
    | ConfirmOp(r: nat, now: int, agent: AgentReply)
    | CancelOp(r: nat, now: int)
    | RunNowOp(e: nat, now: int, agent: AgentReply)
    | SaveEventOp(e: nat, event: Event, now: int)
    | BackupOp(i: nat, now: int, agent: AgentReply, autoEject: bool)
    | BeginOp(b: nat, now: int)
    | EndOp(b: nat, now: int, exec: ExecReply)
    | OpenEjectOp(i: nat, now: int)
    | UnmountOp(b: nat, now: int, reply: UnmountReply)
    | DetachOp(b: nat, now: int, raises: bool, slotsAfter: set<string>)
    | FinishEjectOp(b: nat, now: int)
    | DeleteBackupOp(b: nat, now: int)
    | DisksOp(disks: seq<Disk>, now: int)

  function Outcome(s: State, r: Result<State, Refusal>): State {
    match r case Ok(t) => t case Err(_) => s
  }

  function Apply(s: State, op: Op): State {
    match op
    case CreateOp(now) => CreateDue(s, now)
    case TurnOp(r, now, agent) => Turn(s, r, now, agent)
    case CreateForDiskOp(disk, now) => CreateForDisk(s, disk, now)
    case DetectOp(r, disk, now, agent) => DetectTurn(s, r, disk, now, agent)
    case ConfirmOp(r, now, agent) => Outcome(s, Confirm(s, r, now, agent))
    case CancelOp(r, now) => Outcome(s, Cancel(s, r, now))
    case RunNowOp(e, now, agent) => Outcome(s, RunEventNow(s, e, now, agent))
    case SaveEventOp(e, event, now) =>
      if event.windowDurationMinutes < 1 || e > |s.events| then s
      else s.(events := if e == |s.events| then s.events + [event] else s.events[e := event])
    case BackupOp(i, now, agent, autoEject) => if i < |s.disks| then RunExternalBackup(s, i, agent, autoEject) else s
    case BeginOp(b, now) => BeginBackup(s, b, now)
    case EndOp(b, now, exec) => EndBackup(s, b, now, exec)
    case OpenEjectOp(i, now) => if i < |s.disks| then OpenEject(s, i) else s
    case UnmountOp(b, now, reply) => Unmount(s, b, now, reply)
    case DetachOp(b, now, raises, slotsAfter) => Detach(s, b, now, raises, slotsAfter)
    case FinishEjectOp(b, now) => FinishEject(s, b, now)
    case DeleteBackupOp(b, now) =>
      if b in s.backups && !s.backups[b].Active() then s.(backups := s.backups - {b}) else s
    case DisksOp(disks, now) => s.(disks := disks)
  }

  function RunOps(s: State, ops: seq<Op>): State {
    if ops == [] then s else Apply(RunOps(s, ops[..|ops| - 1]), ops[|ops| - 1])
  }

  /** One clock that never goes back. */
  ghost predicate Timed(ops: seq<Op>, from: int) {
    && (forall i :: 0 <= i < |ops| ==> from <= ops[i].now)
    && (forall i, j :: 0 <= i < j < |ops| ==> ops[i].now <= ops[j].now)
  }

  function EndOf(ops: seq<Op>, from: int): int {
    if ops == [] then from else ops[|ops| - 1].now
  }

  function Initial(legacyCoexistence: bool): State {
    State([], [], map[], 0, [], multiset{}, legacyCoexistence)
  }
}
