# Proxmox backup orchestration: a verified model

This project models the decision logic of a backup orchestrator for Proxmox hosts: the scheduled-backup engine of the
API, the capacity planner, the agent's export bracket around a Proxmox Backup Server (PBS), and five smaller algorithms
whose fast or duplicated form is compared with a simple one. Check everything with `dafny verify dfyconfig.toml`.

How it is organised, hardest part first:

- **Scheduled-backup engine.** `Calendar` and `Recurrence` hold the calendar and the four recurrence types.
  `PlanningModel` gives what each service call commits, as functions on the tables (events, runs, external backup rows,
  disks); agent answers, disk presence and the clock are parameters. An eject is four steps of its own, and an execution
  two, so that anything can happen in between. `PlanningService` is the service itself: a class whose tables are changed
  in place, row by row, with uncommitted rows that queries cannot see. Each method leaves exactly the tables
  `PlanningModel` says, and each entry point keeps `Valid()`, which holds the engine's invariant. `PlanningInvariants`,
  `PlanningTicks`, `PlanningCoverage`, `PlanningExclusion`, `PlanningRows`, `PlanningEjects` and `PlanningOutcomes` prove
  properties of every sequence of steps: ticks, disk detections, confirmations, cancellations, run-now requests, event
  edits, backup executions, ejects, deletions and changes of the disks, in any order. `PlanningRaces` lets each of the
  four writers that hold a run's row while the agent is asked work on a row it read earlier; `PlanningWitnesses` gives
  runs in which the exceptional cases happen. `PlanningStarts`, `PlanningTurns` and `PlanningDetections` say, in terms of
  the tables alone, what every start, request, turn, tick and detection answers and writes, for every input.
- **The backup lock.** `BackupLock` models `run_external_backup`, the executions it starts and ejects at the grain of one
  database or lock operation, with one program counter per thread and arbitrary interleaving. `LockRefinement` proves
  that the scheduled-backup engine, which takes the check and the insertion as one step, has a run with the same export
  rows for every interleaving.
- **Capacity planner.** `CapacityPlanner`: first-fit-decreasing with pins, and the source's second copy of its loop.
- **PBS export bracket.** `ExportBracket`: PBS as datastores, remotes and sync jobs; every command may succeed, be refused
  or raise, and may have had its effect or not.
- **Kernels.** `ReverseLines`, `StableStringify` with a reader after RFC 8259 as its partner (`JsonReader`),
  `SerialIdentity`, `ProgressReplay`, `LoginLockout`.

Instants are integers counting microseconds; dates follow the proleptic Gregorian calendar. Strings of serials are ASCII,
JavaScript strings are sequences of UTF-16 code units.

## What turned out not to hold

Each of these comes with the exact condition and with a run or an input in which it happens.

- A missed run can still be cancelled, so MISSED is not final: `PlanningOutcomes.MissedIsLeftOnlyByCancelling`,
  `PlanningWitnesses.MissedThenCancelled`.
- CANCELLED is not final either when writers overlap. A tick, a detection, a confirmation and a run-now request hold the
  run's row while the agent is asked and write it back over a cancellation committed meanwhile. Each loses the cancellation
  exactly if it has a status of its own to write: `PlanningRaces.CancellationSurvivesIff` for ticks,
  `PlanningRaces.CancellationSurvivesDetectionIff` for detections, `PlanningRaces.CancellationSurvivesStartIff` for starts.
  A confirmation inside the window and a run-now request always lose it (`PlanningRaces.ConfirmationOverwritesIff`,
  `PlanningRaces.RunNowOverwrites`). Runs: `PlanningWitnesses.CancellationLost`,
  `PlanningWitnesses.ConfirmedOverCancellation`.
- RUNNING can be overwritten in the same way, the link being kept: by a tick exactly if it has a status to write, by a
  detection exactly if it takes the run up, by a second start unless the run waited for a backup before. A run left
  waiting for its own backup never follows it: `PlanningRaces.StartSurvivesIff`, `PlanningRaces.DetectionKeepsStartIff`,
  `PlanningRaces.StartOverStart`, `PlanningOutcomes.AdriftForGood`, `PlanningWitnesses.TwoStartsCollide`.
- Two batches that both query before either commits, a tick's and a detection's say, create two runs for a key exactly if
  it is due in both and had none: `PlanningCoverage.OverlappingBatches`, `PlanningWitnesses.TwoBatchesRepeat`.
- A run does not always end. An unlinked run whose disk was seen, or which waits for confirmation or for another backup,
  stays open after its window exactly if nobody cancels it or confirms it too late: `PlanningOutcomes.AbandonedForGood`,
  `PlanningWitnesses.NobodyConfirms`.
- An eject leaves its row RUNNING in two cases: its unmount raises anything but the two exceptions that are caught, or its
  disk row is gone when it finishes. `httpx.InvalidURL` is such an exception: it is not an `httpx.HTTPError`, so the agent
  client does not turn it into an error that is caught (`apps/api/app/services/host_agent.py:83-103`). From then on no
  scheduled run is ever started: `PlanningEjects.EjectCloses`, `PlanningOutcomes.StuckForGood`,
  `PlanningOutcomes.UncaughtSticks`, `PlanningWitnesses.EjectDies`, `BackupLock.StuckEjectBlocksBackups`.
- The cleanup of an export ignores a refused job removal and goes on to remove the remote, which can leave a sync job
  naming a remote that is gone: `ExportBracket.DanglesIff`, `ExportBracket.RefusedRemovalDangles`.
- The scheduler's own check before `run_external_backup` does not exclude a second caller (`BackupLock.PassesPrecheckIff`,
  `BackupLock.PrecheckAlonePassesTwo`); the query under the lock does (`BackupLock.CreationsAlternate`).
- Ejects are outside the lock, so a backup and an eject can be active together: exactly if one row is inserted while the
  other is active, which on one disk takes an insertion between a caller's check and its own insertion
  (`BackupLock.OverlapsIffStarted`, `BackupLock.OverlapNeedsAWindow`, `BackupLock.EjectOverlapsBackup`,
  `BackupLock.OtherDiskOverlaps`).
- Replaying a log can change the message of a partial failure, and nothing else but the two clock columns:
  `ProgressReplay.ReplayKeepsMessageIff`, `ProgressReplay.ReplayChangesMessage`.
- The comment above `stableStringify` promises independence of key order. It also prints undefined, null and non-finite
  numbers alike and drops undefined members: `StableStringify.StringifyEqualIffSame`, `StableStringify.DifferentPrintAlike`.

## Model

| member | source | states |
|---|---|---|
| Calendar.OrdinalIsOrder | apps/api/app/services/planning_scheduler.py:220-233 | Field-by-field comparison of dates agrees with their day numbers, so date subtraction identifies dates. |
| Calendar.NextMonthStart | apps/api/app/services/planning_scheduler.py:487-492 | The first of the next month is one month length after the first of this one, leap years and century rules included. |
| Calendar.DaysInMonthBySubtraction | apps/api/app/services/planning_scheduler.py:487-492 | A date lies one day before the first of the next month if and only if it is this month's day numbered by its Gregorian length, for every year and month. |
| Recurrence.MonthlyGap | apps/api/app/services/planning_scheduler.py:234-248 | Consecutive monthly occurrences are 28 to 31 whole days apart: clamping the day neither drifts nor skips a month. |
| Recurrence.AdvanceMonth | apps/api/app/services/planning_scheduler.py:237-240 | One loop step leads from the k-th clamped month to the (k+1)-th, the day being taken anew from the event's start. |
| Recurrence.ExpandExact | apps/api/app/services/planning_scheduler.py:212-256 | The expansion is exactly the occurrences in the closed range, strictly increasing, empty for a deleted event. |
| Recurrence.OccurrencesOnSchedule | apps/api/app/services/planning_scheduler.py:212-247 | The occurrences are exactly what the calendar gives: the start, full days or weeks after it, or in each month from the start's on the start's day, or the last of a shorter month, at its time of day. |
| Recurrence.ExpandOnSchedule | apps/api/app/services/planning_scheduler.py:212-256 | The expansion holds exactly those moments in the closed range, strictly increasing, and none for a deleted event. |
| Recurrence.FirstIsUnique | apps/api/app/services/planning_scheduler.py:219-232 | An index is the first one in range if and only if its occurrence is in range and its predecessor's is not, so jumping ahead skips nothing. |
| Recurrence.ExpandDaily | apps/api/app/services/planning_scheduler.py:219-226 | The day jump and the loop give the reference expansion. |
| Recurrence.ExpandWeekly | apps/api/app/services/planning_scheduler.py:227-234 | The week jump and both loops give the reference expansion. |
| Recurrence.ExpandMonthly | apps/api/app/services/planning_scheduler.py:235-248 | The two month loops terminate with the reference expansion. |
| Recurrence.ExpandOccurrences | apps/api/app/services/planning_scheduler.py:212-256 | For all four recurrence types the result is exactly the moments of the closed range that the calendar gives, in increasing order, and empty for a deleted event. |
| Recurrence.NextOccurrence | apps/api/app/services/planning_scheduler.py:208-209 | The result is the least occurrence from `after` on; it is missing exactly when none lies in the next 370 days, which for a recurring event means it starts later. |
| Recurrence.WithinAYear | apps/api/app/services/planning_scheduler.py:208-209 | A recurring event has an occurrence in the next 370 days if and only if it starts before they end. |
| PlanningService.Service.EnsureRun | apps/api/app/services/planning_scheduler.py:395-417 | A pending row is added unless a committed row has the key; rows pending in the same batch are not seen. |
| PlanningService.Service.CreateDueRuns | apps/api/app/services/planning_scheduler.py:71-84 | The nested loops and the commit leave exactly the tables of `PlanningModel.CreateDue`. |
| PlanningService.Service.EjectDedicatedExternalDisk | apps/api/app/services/disk_eject.py:33-133 | Refusal, row, unmount, detach and closing in the source's order leave exactly the tables of the four steps in a row, and the answer says whether the disk was safely ejected, which then shows in its six columns and in no other disk. |
| PlanningService.Service.CreateEjectActivity | apps/api/app/services/disk_eject.py:178-202 | The activity row is opened in progress for the disk and the slot it names now. |
| PlanningService.Service.DetachUsbPassthrough | apps/api/app/services/disk_eject.py:136-157 | The detach succeeds exactly when no slot was named or it was given back and is no longer configured; otherwise the row is closed as failed. |
| PlanningService.Service.FinishEjectActivityFailed | apps/api/app/services/disk_eject.py:205-227 | The row is closed as failed with a finish time. |
| PlanningService.Service.RequestEject | apps/api/app/api/routes/disks.py:128-131 | The entry point for ejects keeps the engine's invariant and lets rows evolve only as allowed. |
| PlanningService.Service.RequestBackup | apps/api/app/api/routes/external_backups.py:39-53 | The entry point for backups keeps the engine's invariant and lets rows evolve only as allowed. |
| PlanningService.Service.RunExternalBackup | apps/api/app/services/external_backups.py:170-226 | The checks under the lock and the insertion give `PlanningModel.RunExternalBackup` and its conflict or refusal. |
| PlanningService.Service.BeginExecution | apps/api/app/services/external_backups.py:238-266 | Picking the row up closes it as failed if its disk is gone and otherwise sets it in progress. Keeps `Valid()`, hence the engine's invariant. |
| PlanningService.Service.FinishExecution | apps/api/app/services/external_backups.py:309-472 | Whatever the export answers, the row and the disk end as `PlanningModel.EndBackup` says, followed by a whole eject exactly when one is due. Keeps `Valid()`, hence the engine's invariant. |
| PlanningService.Service.SyncLinkedBackupState | apps/api/app/services/planning_scheduler.py:369-392 | The field updates leave the tables of `PlanningModel.SyncLinked`, followed by a whole eject exactly when one is due. |
| PlanningService.Service.StartRun | apps/api/app/services/planning_scheduler.py:317-366 | Every branch of the start, from the pre-check to the link, leaves the tables of `PlanningModel.StartRun`. |
| PlanningService.Service.AdvanceDetectedRun | apps/api/app/services/planning_scheduler.py:304-314 | A run whose disk is there is asked to be confirmed once, or started. |
| PlanningService.Service.ProcessRun | apps/api/app/services/planning_scheduler.py:259-301 | Sync, reminder, expiry, waiting and start in the source's order give `PlanningModel.ProcessRun`. |
| PlanningService.Service.ProcessRuns | apps/api/app/services/planning_scheduler.py:87-108 | The loop over rows selected once, without reading their status again, equals turns that do check it: no turn changes a row ahead. |
| PlanningService.Service.SchedulerTick | apps/api/app/services/planning_scheduler.py:64-68 | Creation followed by processing is one tick of the model. Keeps `Valid()`, hence the engine's invariant. |
| PlanningService.Service.HandleDiskDetected | apps/api/app/services/planning_scheduler.py:111-146 | Creation for the disk's events and the detection loop over rows selected once give `PlanningModel.Detect`. Keeps `Valid()`, hence the engine's invariant. |
| PlanningService.Service.ConfirmPlanningRun | apps/api/app/services/planning_scheduler.py:149-168 | The three refusals, the late confirmation that cancels, and the start. Keeps `Valid()`, hence the engine's invariant. |
| PlanningService.Service.CancelPlanningRun | apps/api/app/services/planning_scheduler.py:171-182 | Every run but a succeeded, failed or cancelled one becomes cancelled and is returned as stored. Keeps `Valid()`, hence the engine's invariant. |
| PlanningService.Service.RunEventNow | apps/api/app/services/planning_scheduler.py:185-205 | A new row for this moment is committed and started, without looking for an existing one. Keeps `Valid()`, hence the engine's invariant. |
| PlanningModel.PresentDisk | apps/api/app/services/planning_scheduler.py:420-424 | A present disk that matches, and none only if no present disk matches. |
| PlanningStarts.MatchesByName | apps/api/app/services/planning_scheduler.py:437-446 | A disk is meant by an event exactly if it goes by an alias of the event's serial: as alias of its own or reported serial, as stored alias or as canonical serial. |
| PlanningStarts.BackupAnswer | apps/api/app/services/external_backups.py:170-226 | A backup is queued exactly if nothing is active, the agent is idle and the disk is trusted, connected and dedicated or shareable; it is a conflict exactly if something is active here or there; nothing else is written. |
| PlanningStarts.StartAnswer | apps/api/app/services/planning_scheduler.py:317-366 | For every start: which of the five ends it has, on which disk, and all that it writes to run, event, backups and notices. |
| PlanningStarts.ConfirmAnswer | apps/api/app/services/planning_scheduler.py:149-168 | Each refusal exactly in its case; a late confirmation cancels the run, any other starts it without an announcement. |
| PlanningStarts.CancelAnswer | apps/api/app/services/planning_scheduler.py:171-182 | A cancellation is refused only for a run that is not there and ends every run but a succeeded, failed or cancelled one. |
| PlanningStarts.RunNowAnswer | apps/api/app/services/planning_scheduler.py:185-205 | Refused exactly for an event that is missing or deleted; otherwise a pending run for now with the event's window is added and started. |
| PlanningTurns.TurnAnswer | apps/api/app/services/planning_scheduler.py:259-314 | For every turn, whatever the run: nothing if it is not due, the end of its backup with its time, or reminder, miss, waiting for the disk, confirmation and start, each exactly in its case with all that is written. |
| PlanningTurns.WholeTurnAnswer | apps/api/app/services/planning_scheduler.py:382-392 | An eject follows a turn exactly if the turn ended its run with a success whose event asks for it and a disk is known for it. |
| PlanningTurns.TurnEjects | apps/api/app/services/planning_scheduler.py:427-434 | That disk carries the event's serial, literally if one does. |
| PlanningTurns.TickTurns | apps/api/app/services/planning_scheduler.py:64-108 | In a tick every run open after the creation step takes exactly one turn, nothing about it changing before or after; the others stay. |
| PlanningDetections.DetectionAnswer | apps/api/app/services/planning_scheduler.py:136-146 | A detected disk changes a run only if that awaits it: pending or waiting for its disk, inside the window, its event not deleted and meant for this disk; then it is noted once, and the run confirmed or started. |
| PlanningDetections.DetectionSees | apps/api/app/services/planning_scheduler.py:111-146 | Over a whole detection a run, be it old or just created, has its disk seen exactly if it had before or awaited this one. |
| PlanningDetections.DetectionSpares | apps/api/app/services/planning_scheduler.py:136-146 | A whole detection leaves the runs of events meant for other disks as they are, and sends no notice about them. |
| PlanningDetections.UnrelatedDisk | apps/api/app/services/planning_scheduler.py:111-146 | A disk that no event is meant for changes no table at all. |
| PlanningInvariants.StepKeeps | apps/api/app/services/planning_scheduler.py:87-205 | Every step at a later time keeps the engine invariant and only evolves rows as allowed. |
| PlanningInvariants.AlwaysInv | apps/api/app/services/planning_scheduler.py:64-392 | Every state any timed sequence of steps reaches satisfies the invariant on links, windows, endings and notices. |
| PlanningInvariants.HistoryEvolves | apps/api/app/services/planning_scheduler.py:64-392 | Between any two moments of any run of the engine rows evolve only as allowed: keys and windows fixed, links and sightings written once, closed backups unchanged. |
| PlanningInvariants.EngineHistory | apps/api/app/services/planning_scheduler.py:149-182 | Over every run of steps, each committed before the next reads: SUCCESS, FAILURE and CANCELLED are never left, MISSED only for CANCELLED, and a link is written at most once. Ticks, detections, confirmations and run-now requests that read their row before another writer's commit are excluded here and decided in PlanningRaces. |
| PlanningInvariants.EngineRows | apps/api/app/services/planning_scheduler.py:259-392 | In every reachable state: RUNNING and SUCCESS imply a link, a link implies one of four statuses, sightings and starts lie in the window, and a missed run was never seen or linked and ended after its window. |
| PlanningInvariants.EngineLinks | apps/api/app/services/planning_scheduler.py:354-366 | In every reachable state no two runs share a backup. |
| PlanningInvariants.EngineNotices | apps/api/app/services/planning_scheduler.py:259-392 | Per run the reminder, the expected-disk notice, the missed notice and the auto-eject happen at most once, the auto-eject only for a run whose backup succeeded. |
| PlanningTicks.TurnTouches | apps/api/app/services/planning_scheduler.py:87-108 | Processing one run changes no other run and no event setting. |
| PlanningTicks.TickIsOps | apps/api/app/services/planning_scheduler.py:64-108 | A tick with the ejects it goes on to is a sequence of single steps at one time, so every result about steps covers ticks. |
| PlanningTicks.DetectIsOps | apps/api/app/services/planning_scheduler.py:111-146 | A disk detection is a sequence of single steps at one time. |
| PlanningTicks.TickSettlesExpired | apps/api/app/services/planning_scheduler.py:87-108 | After a tick no run of a live event with its window over and its disk never seen is PENDING or WAITING_FOR_DISK. |
| PlanningTicks.EngineTicksSettle | apps/api/app/services/planning_scheduler.py:274-282 | The same for a tick after any timed sequence of steps from the empty tables. |
| PlanningCoverage.MissingAreNew | apps/api/app/services/planning_scheduler.py:395-417 | Because the expansion is strictly increasing, a batch that cannot see its own rows adds no key twice and none already committed. |
| PlanningCoverage.BatchIsExact | apps/api/app/services/planning_scheduler.py:71-84 | A batch creates a run for each wanted occurrence in its range and keeps keys unique. |
| PlanningCoverage.BatchAdds | apps/api/app/services/planning_scheduler.py:395-417 | A batch adds a row for a key if and only if it is due in its range for a wanted event and has no committed row. |
| PlanningCoverage.BatchRows | apps/api/app/services/planning_scheduler.py:395-417 | A batch keeps the rows there are; each new one is pending, its window reaching from its occurrence for the event's minutes, with nothing recorded. |
| PlanningCoverage.TickCreates | apps/api/app/services/planning_scheduler.py:71-84 | After a tick's batch a time has a run exactly if it had one, or is on the schedule of the enabled, undeleted event at most 24 hours before or after now. |
| PlanningCoverage.DetectionCreates | apps/api/app/services/planning_scheduler.py:111-125 | The same after a detection's batch, for events meant for the disk, from 24 hours before to one hour after now. |
| PlanningCoverage.OverlappingBatches | apps/api/app/services/planning_scheduler.py:71-125 | When two batches query before either commits, a key gets two rows if and only if it is due in both and had none. |
| PlanningCoverage.NeverTwoRuns | apps/api/app/services/planning_scheduler.py:71-84 | Without run-now requests no occurrence ever has two runs, whatever the steps, a batch's query and commit being one step; two batches that overlap are decided by PlanningCoverage.OverlappingBatches. |
| PlanningCoverage.OccurrencesGetRuns | apps/api/app/services/planning_scheduler.py:71-84 | With ticks at most 48 hours apart, every occurrence from 24 hours before the first to 24 hours after the last has a run, exactly one without run-now and with batches that do not overlap. |
| PlanningExclusion.EngineOneExport | apps/api/app/services/external_backups.py:185-218 | In every reachable state at most one export is pending or running, whoever asked for it, the check and the insertion being one step here, which LockRefinement.LockRefinesEngine justifies. |
| LockRefinement.StepRefines | apps/api/app/services/external_backups.py:160-226 | In every state the lock allows, a step of the threads leaves the export rows that the engine's steps for it leave, an insertion under the lock being the engine's check and insertion in one. |
| LockRefinement.LockRefinesEngine | apps/api/app/services/external_backups.py:160-266 | For every interleaving of callers, executions and ejects, one database or lock operation at a time, a run of the engine's atomic steps ends with exactly the same export rows. |
| PlanningExclusion.DiskToUseCarries | apps/api/app/services/planning_scheduler.py:420-446 | The disk chosen carries the serial, is present if any present disk matches, and is found exactly when some disk carries it. |
| PlanningExclusion.StartsOnItsDisk | apps/api/app/services/planning_scheduler.py:317-366 | A run gains a link only with nothing active, to a new queued export on a trusted, connected disk of its event; otherwise no backup or disk changes. |
| PlanningExclusion.WaitsForUnknownDisk | apps/api/app/services/planning_scheduler.py:325-337 | A start leaves the run waiting for its disk if and only if nothing is active and no known disk carries the serial. |
| PlanningRows.RowFate | apps/api/app/services/external_backups.py:96-105 | Every step leaves an open backup row alone unless its own thread takes it, changes no closed row, and uses no number twice. |
| PlanningRows.OpenRowWaits | apps/api/app/services/external_backups.py:238-472 | However many other steps pass, an open row is there as its thread left it. |
| PlanningRows.ClosedRowStays | apps/api/app/services/external_backups.py:96-105 | A closed row stays as it is until it is deleted. |
| PlanningRows.ExecutionCloses | apps/api/app/services/external_backups.py:238-472 | Whatever happens while the export runs, the execution closes its row with a finish time, as a success if and only if its disk existed at the beginning and the export went through, and the row stays closed whatever comes later, failed ejects included. |
| PlanningRows.BeginAnswer | apps/api/app/services/external_backups.py:238-266 | An execution picks its row up exactly if that is an open export and its disk is known, and closes it as failed if the disk is not. |
| PlanningRows.EndAnswer | apps/api/app/services/external_backups.py:309-433 | The row ends as succeeded exactly if everything went well; the disk is prepared with the named datastore exactly if the export itself went through, and no other disk changes. |
| PlanningRows.ExecutionEjects | apps/api/app/services/external_backups.py:345-375 | An eject follows exactly if the execution succeeded, its row asks for it, and the disk is dedicated or prepared, by this export or before. |
| PlanningEjects.EjectCloses | apps/api/app/services/disk_eject.py:55-133 | With anything in between the steps, an eject closes its row unless an exception is not caught or the disk row is gone, as a success if and only if unmounted with the slot gone that the disk named at the start. |
| PlanningEjects.EjectOutcome | apps/api/app/services/disk_eject.py:33-133 | For a whole eject: who is refused, how its row ends, and that the disk is then disconnected, invisible to PBS, without device path, slot and mapping, and ejected exactly if it was unmounted and its slot freed, and as it was otherwise. |
| PlanningEjects.EjectReleases | apps/api/app/services/disk_eject.py:75-100 | The same with anything in between the steps: each of the six columns is cleared as far as it was set when the eject began, and nothing else is written. |
| PlanningEjects.RowsExplained | apps/api/app/services/disk_eject.py:55-89 | In every reachable state an eject's open row stands where its opening, unmount and detach, in this order, have brought it. |
| PlanningEjects.EjectedOnlyInOrder | apps/api/app/services/disk_eject.py:75-100 | Over every run, a disk becomes ejected only in the step that closes its own eject's row as succeeded, after that eject was opened, unmounted and found its slot gone. |
| PlanningEjects.CompleteEjectReleases | apps/api/app/services/disk_eject.py:75-100 | The converse, over every run: the last step of an eject that was opened, unmounted and found its slot gone closes its row as succeeded and releases its disk column by column. |
| PlanningEjects.EjectWritesOnlyBySucceeding | apps/api/app/services/disk_eject.py:84-133 | Whoever else writes disks meanwhile, a step of an eject changes a disk row only by finishing it, which closes its row as succeeded for good and releases its own disk, as PlanningEjects.EjectReleases spells out. |
| PlanningEjects.FailedEjectTouchesNothing | apps/api/app/services/disk_eject.py:84-133 | As long as nothing else writes disk rows, every disk stays as it was unless the eject succeeds, and then only its own is released. With other writers about, PlanningEjects.EjectWritesOnlyBySucceeding holds. |
| PlanningOutcomes.TurnRecords | apps/api/app/services/planning_scheduler.py:259-301 | A turn of an unlinked open run reminds exactly from the lead time on, notes the disk exactly when a present one matches inside the window, and misses the run exactly when its window is over unseen. |
| PlanningOutcomes.LinkedRunFollows | apps/api/app/services/planning_scheduler.py:369-392 | A running run goes on while its backup is active and ends as the backup ended; the auto-eject is counted exactly after a success of an event asking for it with a known disk. |
| PlanningOutcomes.MissedIsLeftOnlyByCancelling | apps/api/app/services/planning_scheduler.py:171-182 | A step changes the status of an ended run if and only if the run is missed and the step cancels it. |
| PlanningOutcomes.AbandonedForGood | apps/api/app/services/planning_scheduler.py:274-314 | After its window, an open run without a backup that may not be marked missed keeps its row, but for the reminder's time, under every sequence of steps without a cancellation of it or a confirmation it waits for, and is cancelled otherwise. |
| PlanningOutcomes.AdriftForGood | apps/api/app/services/planning_scheduler.py:304-392 | A linked run whose status says that it waits for a backup keeps both under every sequence of steps that does not cancel it, however its backup ends. |
| PlanningOutcomes.StuckForGood | apps/api/app/services/planning_scheduler.py:325-330 | While an eject row is open no sequence of steps closes it or links any run to a backup. |
| PlanningOutcomes.UncaughtSticks | apps/api/app/services/disk_eject.py:55-69 | An uncaught exception during the unmount leaves such a row, for every continuation. |
| PlanningRaces.FreshReadIsTurn | apps/api/app/services/planning_scheduler.py:87-108 | A turn on a row read just now and written back column by column is the turn of the model. |
| PlanningRaces.TurnKeepsStatusIff | apps/api/app/services/planning_scheduler.py:259-366 | A turn leaves the status of its run alone exactly in the cases listed by `LeavesStatus`, all checkable before the turn. |
| PlanningRaces.CancellationSurvivesIff | apps/api/app/services/planning_scheduler.py:87-108 | A cancellation committed after a tick read the row survives the tick's write if and only if the turn has no status to write; its time stays unless the turn ends the run itself. |
| PlanningRaces.StartKeepsStatusIff | apps/api/app/services/planning_scheduler.py:317-366 | A start leaves the status of its run alone if and only if the run waits already for the backup, or for the disk, that the start makes it wait for. |
| PlanningRaces.CancellationSurvivesStartIff | apps/api/app/services/planning_scheduler.py:317-366 | The same holds for a cancellation committed while a start asks the agent; its time stays unless the start fails. |
| PlanningRaces.ConfirmationOverwritesIff | apps/api/app/services/planning_scheduler.py:149-168 | A confirmation leaves a run that was cancelled meanwhile cancelled if and only if it comes after the window. |
| PlanningRaces.RunNowOverwrites | apps/api/app/services/planning_scheduler.py:185-205 | A run-now request never leaves its new run cancelled if that happens while the agent is asked. |
| PlanningRaces.CancellationSurvivesDetectionIff | apps/api/app/services/planning_scheduler.py:127-146 | A cancellation committed after a detection read the row survives if and only if the detection passes the run over, or starts it without confirmation with nothing active and no known disk while it waits for one. |
| PlanningRaces.StartSurvivesIff | apps/api/app/services/planning_scheduler.py:87-108 | A start committed after a tick read the row, its backup still active, keeps its link and time, and stays RUNNING if and only if the turn has no status to write. |
| PlanningRaces.StartOverStart | apps/api/app/services/planning_scheduler.py:317-366 | Of two starts that read the same row the second leaves it waiting for a backup, linked to the first's, unless the run waited for a backup before. |
| PlanningRaces.DetectionKeepsStartIff | apps/api/app/services/planning_scheduler.py:127-146 | After a detection on a row read before a start, the run is linked as the start left it, and RUNNING if and only if the detection passed the row over. |
| PlanningWitnesses.MissedThenCancelled | apps/api/app/services/planning_scheduler.py:171-182 | A run of four steps in which a run is missed and then cancelled. |
| PlanningWitnesses.CancellationLost | apps/api/app/services/planning_scheduler.py:87-108 | A run in which a tick overwrites a cancellation with MISSED. |
| PlanningWitnesses.ConfirmedOverCancellation | apps/api/app/services/planning_scheduler.py:149-168 | A run cancelled while a confirmation asks the agent: it ends up running with a queued backup. |
| PlanningWitnesses.TwoBatchesRepeat | apps/api/app/services/planning_scheduler.py:395-417 | A tick and a detection that overlap give the first occurrence of an event two runs. |
| PlanningWitnesses.TwoStartsCollide | apps/api/app/services/planning_scheduler.py:87-146 | A tick and a detection that both start one run leave it waiting for its own backup for good, unless somebody cancels it. |
| PlanningWitnesses.NobodyConfirms | apps/api/app/services/planning_scheduler.py:304-314 | A run that waits for confirmation for good, whatever else happens after its window. |
| PlanningWitnesses.EjectDies | apps/api/app/services/disk_eject.py:55-69 | A run in which an eject dies and leaves its row open. |
| BackupLock.StepKeepsInv | apps/api/app/services/external_backups.py:160-226 | Every operation of every thread keeps: one lock holder, every row closed that was there when a caller's check passed (for an eject: on its disk), at most one active backup row. |
| BackupLock.OneBackupAtATime | apps/api/app/services/external_backups.py:160-226 | For any interleaving of callers, executions and ejects at most one row made by `run_external_backup` is pending or running. |
| BackupLock.PassesPrecheckIff | apps/api/app/services/planning_scheduler.py:325-330 | A caller passes the check outside the lock if and only if no row is active just then, whoever else is on the way. |
| BackupLock.LockedQueryDecides | apps/api/app/services/external_backups.py:512-528 | Under the lock the caller goes on if and only if no row is active at its own query. |
| BackupLock.CreationsAlternate | apps/api/app/services/external_backups.py:160-226 | Over every run, whoever has passed the outer check: when a caller is about to insert its row, every backup row inserted before is closed. |
| BackupLock.PrecheckAlonePassesTwo | apps/api/app/services/planning_scheduler.py:325-330 | Two callers for one disk both pass the check made outside the lock. |
| BackupLock.OverlapBeginsIff | apps/api/app/services/disk_eject.py:43-54 | A backup of one disk and an eject of another, or the same, begin to be active together exactly with the insertion of the second row while the first is active. |
| BackupLock.OverlapsIffStarted | apps/api/app/services/disk_eject.py:43-54 | The same over whole runs: they are ever active together if and only if some step starts it. |
| BackupLock.OverlapNeedsAWindow | apps/api/app/services/disk_eject.py:43-54 | The eject a backup runs into was inserted after the backup's query, and the backup that an eject of the same disk runs into after the eject's. |
| BackupLock.PromptRunsNeverOverlap | apps/api/app/services/disk_eject.py:43-54 | If nothing is inserted between a caller's check and its insertion, no disk is ever backed up and ejected at once. |
| BackupLock.EjectOverlapsBackup | apps/api/app/services/disk_eject.py:178-202 | An interleaving in which one disk is backed up and ejected at once. |
| BackupLock.OtherDiskOverlaps | apps/api/app/services/disk_eject.py:43-54 | An eject of another disk is not refused while a backup is active. |
| BackupLock.StuckEjectBlocksBackups | apps/api/app/services/external_backups.py:512-549 | With a crashed eject's row open, every interleaving creates at most one more backup row, and none if no caller was past its query. |
| CapacityPlanner.SortIsStable | apps/api/app/services/planning.py:51 | The planning order is a stable descending permutation of the assets. |
| CapacityPlanner.GetDiskPlanning | apps/api/app/services/planning.py:38-87 | The summaries, in disk order, of the plan the properties below are about, or the KeyError. |
| CapacityPlanner.GetUnplannedAssets | apps/api/app/services/planning.py:90-118 | The separately written loop, which keeps capacities only, returns exactly the plan's leftovers. |
| CapacityPlanner.GetPlanningOverview | apps/api/app/services/planning.py:121-137 | The counts agree with the plan: the planned count is the number of assets on its disks, and the coverage is their share. |
| CapacityPlanner.FailsIff | apps/api/app/services/planning.py:51-60 | Planning raises if and only if an asset of negative size is pinned to a disk that is not trusted. |
| CapacityPlanner.InventoriesPlan | apps/api/app/services/planning.py:51-71 | With sizes that are never negative, as inventory sync and the API guarantee, planning never raises. |
| CapacityPlanner.CoverageIsFullIff | apps/api/app/services/planning.py:128-131 | The coverage before rounding lies between 0 and 100 and is 100 if and only if nothing is unplanned. |
| CapacityPlanner.Conservation | apps/api/app/services/planning.py:46-71 | Planned size plus remaining capacity is the available capacity of each disk and never negative; each asset is in exactly one place; a pinned asset only on its disk. |
| CapacityPlanner.PlaceAnswer | apps/api/app/services/planning.py:51-71 | Where an asset goes: a pinned one on its disk exactly if that is planned and has room, an unpinned one on the first disk with room, any other on none. |
| CapacityPlanner.PinsExact | apps/api/app/services/planning.py:44 | An asset is pinned to a disk exactly if the last assignment that pins it names that disk. |
| CapacityPlanner.PlannableExact | apps/api/app/services/planning.py:41-43 | An asset is planned for, as often as it is listed, exactly if it is enabled and not ignored. |
| CapacityPlanner.SummariesTell | apps/api/app/services/planning.py:73-87 | Each summary tells the number and total size of what was placed on its disk and the room left of usable capacity less reserve; placed and left over together are exactly the plannable assets. |
| CapacityPlanner.CoverageIsShare | apps/api/app/services/planning.py:128-131 | The coverage before rounding is the planned share in percent, and none of nothing. |
| CapacityPlanner.AppendingADisk | apps/api/app/services/planning.py:46-71 | Appending a disk to the scan order changes nothing on the earlier ones and leaves a subset of the old leftovers, for any sizes and pins. |
| CapacityPlanner.LeftoverMeansHalfFull | apps/api/app/services/planning.py:51-71 | If an unpinned asset stays unplanned, each disk ends with less than its size free, and each disk able to hold it is more than half full. |
| CapacityPlanner.HalfTheCapacityFits | apps/api/app/services/planning.py:33-71 | Without pins, with disks that each hold the largest asset, anything up to half the total capacity is planned completely. |
| ExportBracket.PbsHost.ClearStaleObjects | apps/agent/src/agent/main.py:2229-2260 | The two loops pass through exactly the states of the specification, exceptions included. |
| ExportBracket.PbsHost.CreateAndSync | apps/agent/src/agent/main.py:885-1032 | The try block: each created-flag is set exactly when its command reported success, and every state on the way is the specification's. |
| ExportBracket.PbsHost.RemoveCreated | apps/agent/src/agent/main.py:1033-1048 | The finally block: removals in reverse order, refusals ignored, a raised one skipping the rest. |
| ExportBracket.PbsHost.RunExternalExport | apps/agent/src/agent/main.py:843-1048 | The whole call passes through exactly the states of the specification, for every outcome of every command, and answers success exactly when everything that decides about it went well. |
| ExportBracket.ClearStaleEffect | apps/agent/src/agent/main.py:2229-2260 | Whatever an earlier export left behind, no PBO job or remote is left past the cleanup and everything else is kept; and the cleanup makes no job dangle. |
| ExportBracket.DanglesIff | apps/agent/src/agent/main.py:853-1048 | Some state of an export has a PBO job naming a missing remote or datastore if and only if one was found like that, or a job was left behind and its remote or temporary datastore removed. |
| ExportBracket.ReferenceCheckingPbsNeverDangles | apps/agent/src/agent/main.py:2222-2226 | If PBS refuses to remove what a left-behind job names, no state ever has a dangling job. |
| ExportBracket.RefusedRemovalDangles | apps/agent/src/agent/main.py:1033-1048 | An export from a PBS with one datastore whose job removal is refused leaves a job without its remote. |
| ExportBracket.ExitIsClean | apps/agent/src/agent/main.py:853-1048 | If failed creations make nothing and removals succeed, every exit past the cleanup leaves no PBO job or remote, dangling ones of earlier exports included, other objects as they were, and the old datastores plus the target exactly when it was created to persist. |
| ExportBracket.RaisesIff | apps/agent/src/agent/main.py:843-1048 | The call reports success if and only if the listings succeed and name the source, no stale job runs and all cleanup is done, the target exists or is made under a free name, remote, job and sync run report success, and no removal raises. |
| ExportBracket.SuccessHadItsJob | apps/agent/src/agent/main.py:985-1030 | An export that reports success had its sync job in place between its remote and a datastore on the target's path. |
| ReverseLines.SplitJoin | apps/agent/src/agent/ntfy_notif.py:479 | Splitting at newlines loses nothing and leaves newline-free pieces. |
| ReverseLines.JoinSplit | apps/agent/src/agent/ntfy_notif.py:479 | Newline-free pieces are recovered from their join. |
| ReverseLines.SplitConcat | apps/agent/src/agent/ntfy_notif.py:478-481 | Splitting a concatenation glues the two splits at the seam. |
| ReverseLines.IterLinesReverse | apps/agent/src/agent/ntfy_notif.py:468-486 | For every file and every chunk size the result is the non-blank lines of the whole file in reverse, trailing returns stripped, each decoded whole. |
| ReverseLines.ReadHistory | apps/agent/src/agent/ntfy_notif.py:489-532 | Malformed filters are refused, a missing file gives an empty page, and otherwise the newest entries passing both filters up to the clamped limit, reading stopping at the line that fills it, with the exact number of unparsable lines read. |
| ReverseLines.LineYields | apps/agent/src/agent/ntfy_notif.py:478-486 | A line yields its text without trailing carriage returns, and nothing exactly if it is blank. |
| ReverseLines.EveryLineCounts | apps/agent/src/agent/ntfy_notif.py:508-532 | An entry is on the page's list exactly if some line parses to it and it passes; lines that parse and lines counted as skipped add up to all. |
| ReverseLines.LimitIs | apps/agent/src/agent/ntfy_notif.py:489-507 | The limit is at least 1 and at most 1000 and otherwise what was asked for. |
| StableStringify.SortKeysSorts | apps/web/src/hostNotifCatalog.ts:228-231 | Keys are sorted by code units and none is lost or repeated. |
| StableStringify.EscapeUnique | apps/web/src/hostNotifCatalog.ts:232 | An escaped string can be read back in one way only, and its end is where its quote stands. |
| StableStringify.SamePrintsAlike | apps/web/src/hostNotifCatalog.ts:224-236 | Values that are the same up to key order and undefined-valued keys print alike. |
| StableStringify.UniquelyDecodable | apps/web/src/hostNotifCatalog.ts:224-236 | A printed value followed by a delimiter determines the value and what follows. |
| JsonReader.StringReadsBack | apps/web/src/hostNotifCatalog.ts:232 | A printed string is read back, by the escapes of section 7 of RFC 8259, as exactly the string that was printed. |
| JsonReader.ReadsBack | apps/web/src/hostNotifCatalog.ts:224-236 | A reader after RFC 8259 reads every printed value back as the same value, up to key order, undefined-valued keys and what prints as null, and stops where it ends. |
| StableStringify.StringifyEqualIffSame | apps/web/src/hostNotifCatalog.ts:224-236 | Two values print alike if and only if they are the same up to key order, undefined-valued keys and what prints as null. |
| StableStringify.DifferentPrintAlike | apps/web/src/hostNotifCatalog.ts:224-236 | Lists of undefined, of null and of an infinite number print alike, and so do an object with an undefined member and an empty one. |
| SerialIdentity.SerialAliases | apps/api/app/services/disk_identity.py:38-49 | The API's loop computes the alias list that ApiMembers describes. |
| SerialIdentity.AgentSerialAliases | apps/agent/src/agent/main.py:2337-2346 | The agent's loop computes the alias list that AgentMembers describes. |
| SerialIdentity.ApiMembers | apps/api/app/services/disk_identity.py:38-49 | An alias is the normal form or its decoding, with or without vendor prefix, or the canonical form; no alias is empty or repeated. |
| SerialIdentity.AgentMembers | apps/agent/src/agent/main.py:2337-2346 | An alias of the agent's list is the non-empty normal or canonical form of the serial, of its decoding or of its canonical form, and nothing else; none is repeated. |
| SerialIdentity.AliasListsAreSets | apps/api/app/services/disk_identity.py:69-71 | Neither alias list repeats anything, and a non-empty canonical form is always listed. |
| SerialIdentity.ApiAliasesAreAgentAliases | apps/agent/src/agent/main.py:2305-2346 | Every alias the API computes for a serial the agent's separate code computes too. |
| SerialIdentity.MatchesCarryOver | apps/api/app/services/disk_identity.py:52-57 | Whenever the API matches two serials, the agent's alias sets of them meet. |
| SerialIdentity.HexRoundTrip | apps/api/app/services/disk_identity.py:17-29 | Decoding the hexadecimal encoding of a printable serial of four or more characters gives it back, in either letter case. |
| SerialIdentity.DecodesIff | apps/api/app/services/disk_identity.py:17-29 | A serial decodes to a text if and only if its normal form is the encoding of that text, which is printable and at least four characters long. |
| SerialIdentity.NormalizeStrips | apps/api/app/services/disk_identity.py:11-14 | White space around a serial does not count. |
| SerialIdentity.SqueezeOne | apps/api/app/services/disk_identity.py:11-14 | Inside, blanks, underscores and hyphens are dropped and letters become upper case. |
| SerialIdentity.VendorPrefixDropped | apps/api/app/services/disk_identity.py:60-66 | A vendor prefix is dropped exactly in front of a W that at least five more characters follow. |
| SerialIdentity.HexEncodingMatches | apps/api/app/services/disk_identity.py:52-57 | Such a serial matches its encoding if its normal form is not empty, and has no aliases at all if it is. |
| ProgressReplay.BackupRunProgress.ApplyProgressLine | apps/api/app/services/external_backups.py:601-645 | The field updates and list loops of one line leave the state of the fold's step. |
| ProgressReplay.BackupRunProgress.ApplyProgressText | apps/api/app/services/external_backups.py:593-598 | A text leaves the state of the fold over its lines. |
| ProgressReplay.AppendMissingIsUnion | apps/api/app/services/external_backups.py:628-642 | Appending keeps the known prefix, adds exactly what was missing and makes no duplicate. |
| ProgressReplay.ReplayGrowsLists | apps/api/app/services/external_backups.py:628-642 | Over a whole log both lists only grow, hold exactly what was there or listed, and never repeat. |
| ProgressReplay.ReplayColumns | apps/api/app/services/external_backups.py:603-624 | In each of the eleven columns the last line that gives it a value wins, whatever the others say; without such a line it stays. |
| ProgressReplay.ReplayClocks | apps/api/app/services/external_backups.py:625-627 | A log with a line that reports progress or an end sets the time of reading and the full seconds since the start; speed and identifiers alone do not. |
| ProgressReplay.ReplayMessage | apps/api/app/services/external_backups.py:643-645 | The message is that of the last partial failure and names, with its reason, each group known to have failed by then. |
| ProgressReplay.ReplayIsIdempotent | apps/api/app/services/external_backups.py:593-645 | Replaying a log the run has absorbed changes nothing but the two clock columns and the message, and even after more lines leaves both lists alone. |
| ProgressReplay.ReplayKeepsMessageIff | apps/api/app/services/external_backups.py:643-645 | The message stays on replay if and only if no line reports a partial failure or it already lists every failed group known. |
| ProgressReplay.ReplayChangesMessage | apps/api/app/services/external_backups.py:643-645 | A log of two lines, the failed group reported after the partial failure, whose second reading changes the message. |
| LoginLockout.LoginGuard.PruneAttempts | apps/api/app/auth.py:54-57 | Exactly the attempts younger than 300 seconds are kept and stored. |
| LoginLockout.LoginGuard.RegisterFailedLogin | apps/api/app/auth.py:70-73 | The failure is added to the pruned list of its client only. |
| LoginLockout.LoginGuard.Login | apps/api/app/auth.py:179-184 | A login is refused if and only if the full history of failures holds at least five younger than 300 seconds, although only the pruned list is stored. |
| LoginLockout.PrunedHistory | apps/api/app/auth.py:54-73 | At every later moment the pruned list and the full history have the same fresh attempts. |
| LoginLockout.FreshExact | apps/api/app/auth.py:54-57 | The attempts that count are those of the last 300 seconds, each as often as it was made. |
| LoginLockout.FailuresExact | apps/api/app/auth.py:60-73 | The recorded failures of a client are, one for one, its logins with a wrong password that found fewer than five fresh failures. |
| LoginLockout.FailuresInOrder | apps/api/app/auth.py:70-73 | Recorded failures are in time order. |
| LoginLockout.FailuresAreSpaced | apps/api/app/auth.py:60-73 | For every sequence of logins the (i+5)-th recorded failure of a client comes at least 300 seconds after the i-th. |

## Left out

- PlanningInvariants.EngineHistory: each turn, request, creation and step of an eject or execution is one step that reads what is committed. Writers with stale rows are modelled one at a time in `PlanningRaces`, for the columns of the run's own row, the other tables being read as they are now; the database operations of `run_external_backup`, executions and ejects are those of `BackupLock`.
- PlanningExclusion.EngineOneExport: takes the check and the insertion as one step, as `LockRefinement.LockRefinesEngine` allows for export rows; an eject that slips in between is the subject of `BackupLock.OverlapsIffStarted`.
- LockRefinement.LockRefinesEngine: compares kind, disk, status and order of the export rows; times stand still and the disks offered to the engine's steps are chosen to fit.
- PlanningCoverage.NeverTwoRuns: assumes that no two batches overlap; more than two at once are not modelled.
- PlanningEjects.EjectWritesOnlyBySucceeding: an eject that an execution goes on to keeps the copy of the disk row read at its opening here, while in the source that copy is as old as the execution.
- A failing database, sessions that roll back, HTTP routes and their schemas: commits succeed and rows are found by position.
- PlanningModel.PresentDisk: scan order of disks is the order of the table, which the source leaves to the database.
- Columns that only record or explain: creation and update times, error texts, log columns, step names, progress messages.
- What handing a disk to the PBS machine does to the disk row before the export starts (`apps/api/app/services/disk_handoff.py`); disks may change arbitrarily between steps instead.
- PlanningRows.ExecutionCloses: a disk row deleted while it is being backed up is not followed; the usage refresh after an export is one answer of the environment; what it measures is not modelled.
- A second execution of the same backup row: each row is executed by the thread started with it.
- The foreign key from a run to its backup row: any closed row may be deleted at any time, which is more than the database may allow.
- The refusal to delete an event while one of its runs is active: events may be saved, deleted or disabled at any time with any settings that keep the window positive, which is more than the source allows.
- Years past 9999, where Python's `datetime` overflows, and time zones (all times are naive UTC).
- CapacityPlanner.CoverageIsFullIff: the coverage is an exact real number; the source divides floats and rounds to one decimal for display.
- The choice of preferred disks and inventory entries and the ignore map: the planner starts from disks and assets with flags.
- ExportBracket.PbsHost.RunExternalExport: hashing of resource names, the checks of the target directory and settings before the first command, subprocess streaming, lock files and log texts are inputs or absent; progress posts never raise in the source and do nothing here.
- ReverseLines.ReadHistory: the event filter's pattern and the parsing of a line are arbitrary functions.
- ReverseLines.IterLinesReverse: the generator is run to its end, decoding is an arbitrary function of a line's bytes, and the file does not change while it is read.
- StableStringify.StringifyEqualIffSame: finite numbers are given by the text JavaScript prints for them; functions, symbols, big integers and `toJSON` are not values of the model.
- JsonReader.ReadsBack: the reader knows no white space between tokens and takes any run of digits, signs, points and exponent markers for a number.
- SerialIdentity.ApiAliasesAreAgentAliases: non-ASCII serials, whose upper-casing may change length, are not covered.
- ProgressReplay.BackupRunProgress.ApplyProgressLine: regular expressions that parse a line are replaced by the parsed update; messages that other code writes to the same column are not followed.
- LoginLockout.LoginGuard.Login: password hashing, tokens and the mode without authentication; a login is one step, its two clock readings being ordered.
- Retention cleanups, inventory syncs, notification texts and delivery, template rendering, and the user interface.
