/** Ejects step by step, with anything else happening between the steps. */
module PlanningEjects {
  import opened Wrappers
  import opened PlanningModel
  import opened PlanningRows
  import opened PlanningTicks

  // ----- how an eject ends -----

  /**
   Whatever happens between its steps, an eject that was opened closes its row, with the time of the step that
   closed it, unless the unmount raised an exception that is not caught or the disk row vanished; it succeeds
   exactly when unmounted with the slot it read at the start gone.
   */
  lemma EjectCloses(s: State, i: nat, m1: seq<Op>, t1: int, reply: UnmountReply,
                    m2: seq<Op>, t2: int, raises: bool, slotsAfter: set<string>, m3: seq<Op>, t3: int)
    requires i < |s.disks| && CanEject(s, i)
    requires Unowned(m1, s.nextBackup) && Unowned(m2, s.nextBackup) && Unowned(m3, s.nextBackup)
    ensures var b, disk := s.nextBackup, s.disks[i];
            var unmounted := Unmount(RunOps(OpenEject(s, i), m1), b, t1, reply);
            var detached := Detach(RunOps(unmounted, m2), b, t2, raises, slotsAfter);
            var before := RunOps(detached, m3);
            var t := FinishEject(before, b, t3);
            var safe := reply.Unmounted? && SlotGone(disk.handoffSlot, raises, slotsAfter);
            var found := DiskById(before.disks, disk.id).Some?;
            && (b in t.backups ==>
                  && (t.backups[b].Active() <==> reply.OtherException? || (safe && !found))
                  && (t.backups[b].status.Succeeded? <==> safe && found)
                  && (!t.backups[b].Active() ==>
                        t.backups[b].finishedAt == Some(if !reply.Unmounted? then t1 else if !safe then t2 else t3)))
            && (reply.OtherException? || safe ==> b in t.backups)
  {
    var b, disk := s.nextBackup, s.disks[i];
    OpenedRow(s, i);
    var first := OpenEject(s, i);
    hide CanEject, OpenEject, RunOps, SlotGone;
    OpenRowWaits(first, m1, b);
    var asked := RunOps(first, m1);
    var unmounted := Unmount(asked, b, t1, reply);
    UnmountEnds(asked, b, t1, reply);
    hide Unmount;
    AfterOne(asked, unmounted, m2, b);
    var waited := RunOps(unmounted, m2);
    var detached := Detach(waited, b, t2, raises, slotsAfter);
    DetachEnds(waited, b, t2, raises, slotsAfter);
    hide Detach;
    AfterOne(waited, detached, m3, b);
    var before := RunOps(detached, m3);
    FinishEnds(before, b, t3);
    hide FinishEject, DiskById;
  }

  lemma UnmountEnds(s: State, b: nat, now: int, reply: UnmountReply)
    requires b < s.nextBackup && Ejecting(s, b) && s.backups[b].stage.Opened?
    ensures var t, row := Unmount(s, b, now, reply), s.backups[b];
            && t.nextBackup == s.nextBackup && b in t.backups
            && t.backups[b] == if reply.Unmounted? then row.(stage := AfterUnmount(row.stage.copy))
                               else if reply.OtherException? then row.(stage := Over)
                               else row.(status := Failed, finishedAt := Some(now), stage := Over)
  {
  }

  lemma DetachEnds(s: State, b: nat, now: int, raises: bool, slotsAfter: set<string>)
    ensures var t := Detach(s, b, now, raises, slotsAfter);
            if b in s.backups && Ejecting(s, b) && s.backups[b].stage.AfterUnmount?
            then t.nextBackup == s.nextBackup && b in t.backups
                 && t.backups[b] == if SlotGone(s.backups[b].stage.copy.handoffSlot, raises, slotsAfter)
                                    then s.backups[b].(stage := AfterDetach(s.backups[b].stage.copy))
                                    else s.backups[b].(status := Failed, finishedAt := Some(now), stage := Over)
            else t == s
  {
    hide SlotGone;
  }

  lemma FinishEnds(s: State, b: nat, now: int)
    ensures var t := FinishEject(s, b, now);
            if b in s.backups && Ejecting(s, b) && s.backups[b].stage.AfterDetach?
            then b in t.backups
                 && t.backups[b] == if DiskById(s.disks, s.backups[b].diskId).Some?
                                    then s.backups[b].(status := Succeeded, finishedAt := Some(now), stage := Over)
                                    else s.backups[b].(stage := Over)
            else t == s
  {
    hide DiskById, Released;
  }

  lemma OpenedRow(s: State, i: nat)
    requires i < |s.disks| && CanEject(s, i)
    ensures var t, b := OpenEject(s, i), s.nextBackup;
            && t.nextBackup == b + 1 && b in t.backups
            && t.backups[b]
            == Backup(EjectActivity, s.disks[i].id, InProgress, None, false, Opened(s.disks[i]))
  {
    hide CanEject;
  }

  /** A step of the owner, and then anything but its steps: an open row waits, a closed one stays. */
  lemma AfterOne(s: State, t: State, ops: seq<Op>, b: nat)
    requires b < t.nextBackup && Unowned(ops, b)
    ensures var u := RunOps(t, ops);
            && b < u.nextBackup
            && (b in u.backups ==> b in t.backups && u.backups[b] == t.backups[b])
            && (b in t.backups && t.backups[b].Active() ==> b in u.backups)
  {
    if b in t.backups && t.backups[b].Active() {
      OpenRowWaits(t, ops, b);
    } else {
      ClosedRowStays(t, ops, b);
    }
  }

  // ----- what an eject does to its disk -----

  /** The row of an eject while its last step is still to come, if that step is to release the disk. */
  lemma EjectArrives(s: State, i: nat, m1: seq<Op>, t1: int, reply: UnmountReply,
                     m2: seq<Op>, t2: int, raises: bool, slotsAfter: set<string>, m3: seq<Op>)
    requires i < |s.disks| && CanEject(s, i)
    requires Unowned(m1, s.nextBackup) && Unowned(m2, s.nextBackup) && Unowned(m3, s.nextBackup)
    ensures var b, copy := s.nextBackup, s.disks[i];
            var unmounted := Unmount(RunOps(OpenEject(s, i), m1), b, t1, reply);
            var before := RunOps(Detach(RunOps(unmounted, m2), b, t2, raises, slotsAfter), m3);
            if reply.Unmounted? && SlotGone(copy.handoffSlot, raises, slotsAfter)
            then b in before.backups
                 && before.backups[b] == Backup(EjectActivity, copy.id, InProgress, None, false, AfterDetach(copy))
            else !(Ejecting(before, b) && before.backups[b].stage.AfterDetach?)
  {
    var b := s.nextBackup;
    OpenedRow(s, i);
    var first := OpenEject(s, i);
    hide CanEject, OpenEject, RunOps, SlotGone;
    OpenRowWaits(first, m1, b);
    var asked := RunOps(first, m1);
    var unmounted := Unmount(asked, b, t1, reply);
    UnmountEnds(asked, b, t1, reply);
    hide Unmount;
    AfterOne(asked, unmounted, m2, b);
    var waited := RunOps(unmounted, m2);
    var detached := Detach(waited, b, t2, raises, slotsAfter);
    DetachEnds(waited, b, t2, raises, slotsAfter);
    hide Detach;
    AfterOne(waited, detached, m3, b);
  }

  lemma SlotFreed(slot: Option<string>, raises: bool, slotsAfter: set<string>)
    ensures SlotGone(slot, raises, slotsAfter) <==>
            slot in {None, Some("")} || (!raises && slot.value !in slotsAfter)
  {
    if slot.Some? && slot.value == "" {
      assert slot == Some("");
    }
  }

  /** The disk row after an eject that read `copy` at its start: released, but for what others have written since. */
  predicate ReleasedFrom(copy: Disk, stored: Disk, after: Disk) {
    && after.connected == (stored.connected && !copy.connected)
    && after.pbsVisible == (stored.pbsVisible && !copy.pbsVisible)
    && after.pbsDevicePath == (if copy.pbsDevicePath.Some? then None else stored.pbsDevicePath)
    && after.handoffSlot == (if copy.handoffSlot.Some? then None else stored.handoffSlot)
    && after.usbMapping == (if copy.usbMapping.Some? then None else stored.usbMapping)
    && after.ejected == (stored.ejected || !copy.ejected)
    && after.(connected := stored.connected, pbsVisible := stored.pbsVisible, pbsDevicePath := stored.pbsDevicePath,
              handoffSlot := stored.handoffSlot, usbMapping := stored.usbMapping, ejected := stored.ejected) == stored
  }

  /**
   With anything in between its steps, an eject releases its disk exactly if it was unmounted and its slot freed; the
   six columns are cleared as far as the disk row had them set when the eject began, and nothing else is written.
   */
  lemma EjectReleases(s: State, i: nat, m1: seq<Op>, t1: int, reply: UnmountReply,
                      m2: seq<Op>, t2: int, raises: bool, slotsAfter: set<string>, m3: seq<Op>, t3: int)
    requires i < |s.disks| && CanEject(s, i)
    requires Unowned(m1, s.nextBackup) && Unowned(m2, s.nextBackup) && Unowned(m3, s.nextBackup)
    ensures var b, copy := s.nextBackup, s.disks[i];
            var unmounted := Unmount(RunOps(OpenEject(s, i), m1), b, t1, reply);
            var before := RunOps(Detach(RunOps(unmounted, m2), b, t2, raises, slotsAfter), m3);
            var t := FinishEject(before, b, t3);
            var freed := copy.handoffSlot in {None, Some("")} || (!raises && copy.handoffSlot.value !in slotsAfter);
            && |t.disks| == |before.disks|
            && forall j :: 0 <= j < |t.disks| ==>
                 if reply.Unmounted? && freed && DiskById(before.disks, copy.id) == Some(j)
                 then ReleasedFrom(copy, before.disks[j], t.disks[j]) else t.disks[j] == before.disks[j]
  {
    EjectArrives(s, i, m1, t1, reply, m2, t2, raises, slotsAfter, m3);
    var b, copy := s.nextBackup, s.disks[i];
    SlotFreed(copy.handoffSlot, raises, slotsAfter);
    hide OpenEject, Unmount, Detach, SlotGone, RunOps, CanEject;
    var before := RunOps(Detach(RunOps(Unmount(RunOps(OpenEject(s, i), m1), b, t1, reply), m2), b, t2, raises,
                                slotsAfter), m3);
    FinishReleases(before, b, t3);
    hide FinishEject, ReleasedFrom;
  }

  lemma FinishReleases(s: State, b: nat, now: int)
    ensures var t := FinishEject(s, b, now);
            && |t.disks| == |s.disks|
            && forall j :: 0 <= j < |s.disks| ==>
                 if Ejecting(s, b) && s.backups[b].stage.AfterDetach?
                    && DiskById(s.disks, s.backups[b].diskId) == Some(j)
                 then ReleasedFrom(s.backups[b].stage.copy, s.disks[j], t.disks[j]) else t.disks[j] == s.disks[j]
  {
    hide DiskById;
  }

  /** The tables after a whole eject: its row as it ends, the disk released or as it was. */
  function AfterEject(s: State, i: nat, status: BackupStatus, finishedAt: Option<int>, stage: Stage, released: bool)
    : State
    requires i < |s.disks|
  {
    var disk := s.disks[i];
    var closed := NewBackup(s, Backup(EjectActivity, disk.id, status, finishedAt, false, stage));
    if released
    then closed.(disks := s.disks[i := disk.(connected := false, pbsVisible := false, pbsDevicePath := None,
                                             handoffSlot := None, usbMapping := None, ejected := true)])
    else closed
  }

  lemma OpenEnds(s: State, i: nat, now: int, reply: UnmountReply)
    requires i < |s.disks| && CanEject(s, i)
    ensures Unmount(OpenEject(s, i), s.nextBackup, now, reply)
         == match reply
            case Unmounted => AfterEject(s, i, InProgress, None, AfterUnmount(s.disks[i]), false)
            case OtherException => AfterEject(s, i, InProgress, None, Over, false)
            case _ => AfterEject(s, i, BackupStatus.Failed, Some(now), Over, false)
  {
    hide CanEject;
  }

  lemma DetachesTo(s: State, i: nat, now: int, raises: bool, slotsAfter: set<string>)
    requires i < |s.disks|
    ensures var unmounted := AfterEject(s, i, InProgress, None, AfterUnmount(s.disks[i]), false);
            Detach(unmounted, s.nextBackup, now, raises, slotsAfter) ==
              if SlotGone(s.disks[i].handoffSlot, raises, slotsAfter)
              then AfterEject(s, i, InProgress, None, AfterDetach(s.disks[i]), false)
              else AfterEject(s, i, BackupStatus.Failed, Some(now), Over, false)
  {
    hide SlotGone;
  }

  lemma FinishesTo(s: State, i: nat, now: int)
    requires i < |s.disks| && DiskById(s.disks, s.disks[i].id) == Some(i)
    ensures FinishEject(AfterEject(s, i, InProgress, None, AfterDetach(s.disks[i]), false), s.nextBackup, now)
         == AfterEject(s, i, Succeeded, Some(now), Over, true)
  {
    hide DiskById;
  }

  lemma OverIsOver(s: State, i: nat, status: BackupStatus, finishedAt: Option<int>, now: int, raises: bool,
                   slotsAfter: set<string>)
    requires i < |s.disks|
    ensures var t := AfterEject(s, i, status, finishedAt, Over, false);
            && Detach(t, s.nextBackup, now, raises, slotsAfter) == t
            && FinishEject(t, s.nextBackup, now) == t
  {
  }

  /** The disk's id is its own: ids are the primary key of the table. */
  ghost predicate OnlyId(disks: seq<Disk>, i: nat) {
    i < |disks| && forall j :: 0 <= j < |disks| && disks[j].id == disks[i].id ==> j == i
  }

  /**
   A whole eject at one moment: who is refused, how the row ends, and what the disk is like afterwards.
   */
  lemma EjectOutcome(s: State, i: nat, now: int, reply: EjectReply)
    requires OnlyId(s.disks, i)
    ensures var t, disk := EjectDisk(s, i, now, reply), s.disks[i];
            var freed := disk.handoffSlot in {None, Some("")}
                         || (!reply.detachRaises && disk.handoffSlot.value !in reply.slotsAfter);
            if !(disk.dedicated || disk.prepared)
               || exists c :: c in s.backups && s.backups[c].status in {Queued, InProgress}
                              && s.backups[c].diskId == disk.id
            then t == s
            else t == if reply.unmount.OtherException? then AfterEject(s, i, InProgress, None, Over, false)
                      else if reply.unmount.Unmounted? && freed then AfterEject(s, i, Succeeded, Some(now), Over, true)
                      else AfterEject(s, i, BackupStatus.Failed, Some(now), Over, false)
  {
    var disk := s.disks[i];
    assert DiskById(s.disks, disk.id) == Some(i);
    assert CanEject(s, i) <==> (disk.dedicated || disk.prepared)
                               && !exists c :: c in s.backups && s.backups[c].status in {Queued, InProgress}
                                               && s.backups[c].diskId == disk.id;
    SlotFreed(disk.handoffSlot, reply.detachRaises, reply.slotsAfter);
    hide SlotGone;
    if CanEject(s, i) {
      OpenEnds(s, i, now, reply.unmount);
      DetachesTo(s, i, now, reply.detachRaises, reply.slotsAfter);
      FinishesTo(s, i, now);
      OverIsOver(s, i, InProgress, None, now, reply.detachRaises, reply.slotsAfter);
      OverIsOver(s, i, BackupStatus.Failed, Some(now), now, reply.detachRaises, reply.slotsAfter);
    }
    hide DiskById, CanEject, OpenEject, Unmount, Detach, FinishEject, AfterEject;
  }

  // ----- a disk is ejected only by a complete eject -----

  /** Step `k` opened the eject of row `b` on a disk with this id, of which it keeps this copy. */
  ghost predicate OpenedAt(ops: seq<Op>, legacy: bool, b: nat, k: nat, diskId: int, copy: Disk) {
    && k < |ops| && ops[k].OpenEjectOp?
    && var s := RunOps(Initial(legacy), ops[..k]);
       && ops[k].i < |s.disks| && s.nextBackup == b && CanEject(s, ops[k].i)
       && s.disks[ops[k].i] == copy && copy.id == diskId
  }

  predicate UnmountedAt(ops: seq<Op>, b: nat, u: nat) {
    u < |ops| && ops[u].UnmountOp? && ops[u].b == b && ops[u].reply.Unmounted?
  }

  predicate DetachedAt(ops: seq<Op>, b: nat, d: nat, copy: Disk) {
    d < |ops| && ops[d].DetachOp? && ops[d].b == b && SlotGone(copy.handoffSlot, ops[d].raises, ops[d].slotsAfter)
  }

  ghost predicate WentThrough(ops: seq<Op>, legacy: bool, b: nat, diskId: int, k: nat, u: nat, d: nat,
                              copy: Disk) {
    k < u < d && OpenedAt(ops, legacy, b, k, diskId, copy) && UnmountedAt(ops, b, u) && DetachedAt(ops, b, d, copy)
  }

  /** What must have happened for an eject's open row to stand where it does. */
  ghost predicate Explained(ops: seq<Op>, legacy: bool, b: nat, row: Backup) {
    row.kind.EjectActivity? && row.status.InProgress? ==>
      match row.stage
      case Opened(copy) => exists k :: OpenedAt(ops, legacy, b, k, row.diskId, copy)
      case AfterUnmount(copy) =>
        exists k, u :: k < u && OpenedAt(ops, legacy, b, k, row.diskId, copy) && UnmountedAt(ops, b, u)
      case AfterDetach(copy) => exists k, u, d :: WentThrough(ops, legacy, b, row.diskId, k, u, d, copy)
      case _ => true
  }

  lemma OpenedStays(before: seq<Op>, op: Op, legacy: bool, b: nat, k: nat, diskId: int, copy: Disk)
    requires OpenedAt(before, legacy, b, k, diskId, copy)
    ensures OpenedAt(before + [op], legacy, b, k, diskId, copy)
  {
    assert (before + [op])[..k] == before[..k];
    hide CanEject;
  }

  lemma ExplainedStays(before: seq<Op>, op: Op, legacy: bool, b: nat, row: Backup)
    requires Explained(before, legacy, b, row)
    ensures Explained(before + [op], legacy, b, row)
  {
    var ops := before + [op];
    if row.kind.EjectActivity? && row.status.InProgress? {
      hide OpenedAt, SlotGone;
      match row.stage {
        case Opened(copy) =>
          var k :| OpenedAt(before, legacy, b, k, row.diskId, copy);
          OpenedStays(before, op, legacy, b, k, row.diskId, copy);
        case AfterUnmount(copy) =>
          var k, u :| k < u && OpenedAt(before, legacy, b, k, row.diskId, copy) && UnmountedAt(before, b, u);
          OpenedStays(before, op, legacy, b, k, row.diskId, copy);
          assert UnmountedAt(ops, b, u);
        case AfterDetach(copy) =>
          var k, u, d :| WentThrough(before, legacy, b, row.diskId, k, u, d, copy);
          OpenedStays(before, op, legacy, b, k, row.diskId, copy);
          assert WentThrough(ops, legacy, b, row.diskId, k, u, d, copy);
        case _ =>
      }
    }
  }

  predicate JustOpened(s: State, op: Op, b: nat, row: Backup) {
    op.OpenEjectOp? && op.i < |s.disks| && b == s.nextBackup && CanEject(s, op.i)
    && row.stage == Opened(s.disks[op.i]) && row.diskId == s.disks[op.i].id
  }

  predicate JustUnmounted(s: State, op: Op, b: nat, row: Backup) {
    op.UnmountOp? && op.b == b && op.reply.Unmounted? && Ejecting(s, b) && s.backups[b].stage.Opened?
    && row == s.backups[b].(stage := AfterUnmount(s.backups[b].stage.copy))
  }

  predicate JustDetached(s: State, op: Op, b: nat, row: Backup) {
    op.DetachOp? && op.b == b && Ejecting(s, b) && s.backups[b].stage.AfterUnmount?
    && SlotGone(s.backups[b].stage.copy.handoffSlot, op.raises, op.slotsAfter)
    && row == s.backups[b].(stage := AfterDetach(s.backups[b].stage.copy))
  }

  /** How an eject's open row can have come to be as it is after a step. */
  predicate CameAbout(s: State, op: Op, b: nat, row: Backup) {
    row.kind.EjectActivity? && row.status.InProgress? && !row.stage.Over? && !row.stage.NoStage? ==>
      || (b in s.backups && row == s.backups[b])
      || JustOpened(s, op, b, row) || JustUnmounted(s, op, b, row) || JustDetached(s, op, b, row)
  }

  lemma OwnStep(s: State, op: Op, b: nat)
    requires b < s.nextBackup || b !in s.backups
    ensures var t := Apply(s, op); b in t.backups ==> CameAbout(s, op, b, t.backups[b])
  {
    if Planning(op) {
      PlanningOnlyAdds(s, op);
      hide Apply;
    } else if op.OpenEjectOp? || op.UnmountOp? || op.DetachOp? || op.FinishEjectOp? {
      OwnEjectStep(s, op, b);
      hide Apply, CameAbout;
    } else {
      NoEjectStep(s, op, b);
      hide Apply, CameAbout;
    }
  }

  lemma OwnEjectStep(s: State, op: Op, b: nat)
    requires op.OpenEjectOp? || op.UnmountOp? || op.DetachOp? || op.FinishEjectOp?
    requires b < s.nextBackup || b !in s.backups
    ensures var t := Apply(s, op); b in t.backups ==> CameAbout(s, op, b, t.backups[b])
  {
    hide CanEject, SlotGone, Released, DiskById;
  }

  lemma NoEjectStep(s: State, op: Op, b: nat)
    requires op.BackupOp? || op.BeginOp? || op.EndOp? || op.DeleteBackupOp? || op.DisksOp? || op.SaveEventOp?
    requires b < s.nextBackup || b !in s.backups
    ensures var t := Apply(s, op); b in t.backups ==> CameAbout(s, op, b, t.backups[b])
  {
    hide AnyActive, DiskById, Prepared;
  }

  /** No row has a number still to be given out. */
  ghost predicate Numbered(s: State) {
    forall b :: b in s.backups ==> b < s.nextBackup
  }

  lemma StepNumbers(s: State, op: Op)
    requires Numbered(s)
    ensures Numbered(Apply(s, op))
  {
    if Planning(op) {
      PlanningOnlyAdds(s, op);
      hide Apply;
    } else if op.OpenEjectOp? || op.UnmountOp? || op.DetachOp? || op.FinishEjectOp? {
      hide CanEject, SlotGone, Released, DiskById;
    } else {
      hide AnyActive, DiskById, Prepared;
    }
  }

  lemma {:induction false} AlwaysNumbered(ops: seq<Op>, legacy: bool)
    ensures Numbered(RunOps(Initial(legacy), ops))
  {
    if ops != [] {
      AlwaysNumbered(ops[..|ops| - 1], legacy);
      StepNumbers(RunOps(Initial(legacy), ops[..|ops| - 1]), ops[|ops| - 1]);
      hide Apply;
    }
  }

  /** In every reachable state each open eject row stands where the steps so far have brought it. */
  lemma {:induction false} RowsExplained(ops: seq<Op>, legacy: bool, b: nat)
    ensures var t := RunOps(Initial(legacy), ops); b in t.backups ==> Explained(ops, legacy, b, t.backups[b])
  {
    hide Apply, Explained, Numbered;
    if ops != [] {
      var before, last := ops[..|ops| - 1], ops[|ops| - 1];
      RowsExplained(before, legacy, b);
      AlwaysNumbered(before, legacy);
      ExplainStep(before, last, legacy, b);
      assert ops == before + [last];
    }
  }

  lemma ExplainStep(before: seq<Op>, op: Op, legacy: bool, b: nat)
    requires var s := RunOps(Initial(legacy), before);
             Numbered(s) && (b in s.backups ==> Explained(before, legacy, b, s.backups[b]))
    ensures var t := Apply(RunOps(Initial(legacy), before), op);
            b in t.backups ==> Explained(before + [op], legacy, b, t.backups[b])
  {
    var s := RunOps(Initial(legacy), before);
    hide RunOps, Initial, Apply, CameAbout, Explained;
    OwnStep(s, op, b);
    if b in Apply(s, op).backups {
      ExplainRow(before, op, legacy, b, Apply(s, op).backups[b]);
    }
  }

  lemma ExplainRow(before: seq<Op>, op: Op, legacy: bool, b: nat, row: Backup)
    requires var s := RunOps(Initial(legacy), before);
             && (b in s.backups ==> Explained(before, legacy, b, s.backups[b]))
             && CameAbout(s, op, b, row)
    ensures Explained(before + [op], legacy, b, row)
  {
    var s := RunOps(Initial(legacy), before);
    hide RunOps;
    if row.kind.EjectActivity? && row.status.InProgress? && !row.stage.Over? && !row.stage.NoStage? {
      if b in s.backups && row == s.backups[b] {
        ExplainedStays(before, op, legacy, b, row);
      } else if JustOpened(s, op, b, row) {
        hide CanEject, Explained;
        ExplainOpened(before, op, legacy, b, row);
      } else if JustUnmounted(s, op, b, row) {
        hide CanEject, SlotGone, OpenedAt;
        ExplainUnmounted(before, op, legacy, b, s.backups[b]);
      } else {
        hide CanEject, SlotGone, OpenedAt;
        ExplainDetached(before, op, legacy, b, s.backups[b]);
      }
    }
  }

  lemma ExplainOpened(before: seq<Op>, op: Op, legacy: bool, b: nat, row: Backup)
    requires JustOpened(RunOps(Initial(legacy), before), op, b, row)
    ensures Explained(before + [op], legacy, b, row)
  {
    var ops := before + [op];
    assert ops[..|before|] == before;
    hide CanEject, RunOps;
    assert OpenedAt(ops, legacy, b, |before|, row.diskId, row.stage.copy);
  }

  lemma ExplainUnmounted(before: seq<Op>, op: Op, legacy: bool, b: nat, row: Backup)
    requires row.kind.EjectActivity? && row.status.InProgress? && row.stage.Opened? && Explained(before, legacy, b, row)
    requires op.UnmountOp? && op.b == b && op.reply.Unmounted?
    ensures Explained(before + [op], legacy, b, row.(stage := AfterUnmount(row.stage.copy)))
  {
    hide OpenedAt;
    var k: nat :| OpenedAt(before, legacy, b, k, row.diskId, row.stage.copy);
    OpenedBefore(before, legacy, b, k, row.diskId, row.stage.copy);
    OpenedStays(before, op, legacy, b, k, row.diskId, row.stage.copy);
    assert UnmountedAt(before + [op], b, |before|);
  }

  lemma ExplainDetached(before: seq<Op>, op: Op, legacy: bool, b: nat, row: Backup)
    requires row.kind.EjectActivity? && row.status.InProgress? && row.stage.AfterUnmount?
    requires Explained(before, legacy, b, row)
    requires op.DetachOp? && op.b == b && SlotGone(row.stage.copy.handoffSlot, op.raises, op.slotsAfter)
    ensures Explained(before + [op], legacy, b, row.(stage := AfterDetach(row.stage.copy)))
  {
    hide OpenedAt, SlotGone;
    var copy := row.stage.copy;
    var k: nat, u: nat :| k < u && OpenedAt(before, legacy, b, k, row.diskId, copy) && UnmountedAt(before, b, u);
    OpenedStays(before, op, legacy, b, k, row.diskId, copy);
    assert UnmountedAt(before + [op], b, u) && DetachedAt(before + [op], b, |before|, copy);
    assert WentThrough(before + [op], legacy, b, row.diskId, k, u, |before|, copy);
  }

  lemma OpenedBefore(ops: seq<Op>, legacy: bool, b: nat, k: nat, diskId: int, copy: Disk)
    requires OpenedAt(ops, legacy, b, k, diskId, copy)
    ensures k < |ops|
  {
  }

  /** Only the last step of an eject marks a disk ejected, and only the one with its row's disk id. */
  lemma EjectedBy(s: State, op: Op, j: nat)
    requires !op.DisksOp? && j < |s.disks| && !s.disks[j].ejected
    ensures var t := Apply(s, op);
            && |t.disks| == |s.disks|
            && (t.disks[j].ejected ==>
                  && op.FinishEjectOp? && Ejecting(s, op.b) && s.backups[op.b].stage.AfterDetach?
                  && s.backups[op.b].diskId == s.disks[j].id
                  && op.b in t.backups && t.backups[op.b].status.Succeeded?
                  && t.backups[op.b].finishedAt == Some(op.now))
  {
    if Planning(op) {
      PlanningKeepsDisks(s, op);
      hide Apply;
    } else {
      hide CanEject, SlotGone, AnyActive;
    }
  }

  lemma PlanningKeepsDisks(s: State, op: Op)
    requires Planning(op)
    ensures Apply(s, op).disks == s.disks
  {
    hide DueRuns, ProcessRun, DiskMatches;
  }

  /**
   Over every run: a disk becomes ejected (other than by an inventory sync) only in the last step of an eject
   of that disk, which closes its row as succeeded, and only after that same eject had opened its row, had the
   datastore unmounted and had found the slot gone that the disk row named when it began.
   */
  lemma EjectedOnlyInOrder(ops: seq<Op>, legacy: bool, c: nat, j: nat)
    requires c < |ops| && !ops[c].DisksOp?
    ensures var s, t := RunOps(Initial(legacy), ops[..c]), RunOps(Initial(legacy), ops[..c + 1]);
            j < |s.disks| && !s.disks[j].ejected && |t.disks| == |s.disks| && t.disks[j].ejected ==>
              && ops[c].FinishEjectOp? && ops[c].b in t.backups
              && t.backups[ops[c].b].status.Succeeded? && t.backups[ops[c].b].finishedAt == Some(ops[c].now)
              && exists k, u, d, copy :: WentThrough(ops[..c], legacy, ops[c].b, s.disks[j].id, k, u, d, copy)
  {
    var s, t := RunOps(Initial(legacy), ops[..c]), RunOps(Initial(legacy), ops[..c + 1]);
    assert ops[..c + 1][..c] == ops[..c];
    assert t == Apply(s, ops[c]);
    if j < |s.disks| && !s.disks[j].ejected {
      EjectedBy(s, ops[c], j);
      if ops[c].FinishEjectOp? {
        RowsExplained(ops[..c], legacy, ops[c].b);
      }
    }
    hide Apply, RunOps, WentThrough;
  }

  /**
   The converse: over every run, the last step of an eject that got that far releases its disk, column by column
   against the copy read when that eject was opened.
   */
  lemma CompleteEjectReleases(ops: seq<Op>, legacy: bool, c: nat, j: nat)
    requires c < |ops| && ops[c].FinishEjectOp?
    requires var s, b := RunOps(Initial(legacy), ops[..c]), ops[c].b;
             Ejecting(s, b) && s.backups[b].stage.AfterDetach? && DiskById(s.disks, s.backups[b].diskId) == Some(j)
    ensures var s, t := RunOps(Initial(legacy), ops[..c]), RunOps(Initial(legacy), ops[..c + 1]);
            && j < |s.disks| == |t.disks| && ops[c].b in t.backups && t.backups[ops[c].b].status.Succeeded?
            && exists k, u, d, copy :: WentThrough(ops[..c], legacy, ops[c].b, s.disks[j].id, k, u, d, copy)
                                       && ReleasedFrom(copy, s.disks[j], t.disks[j])
  {
    var s, b := RunOps(Initial(legacy), ops[..c]), ops[c].b;
    assert ops[..c + 1][..c] == ops[..c];
    assert RunOps(Initial(legacy), ops[..c + 1]) == FinishEject(s, b, ops[c].now) by { hide FinishEject; }
    RowsExplained(ops[..c], legacy, b);
    FinishReleases(s, b, ops[c].now);
    FinishEnds(s, b, ops[c].now);
    hide RunOps, FinishEject, WentThrough, ReleasedFrom;
  }

  // ----- an eject writes disks only by succeeding -----

  /** The copy of the disk row that an eject under way works with. */
  function CopyOf(row: Backup): Option<Disk> {
    match row.stage
    case Opened(copy) => Some(copy)
    case AfterUnmount(copy) => Some(copy)
    case AfterDetach(copy) => Some(copy)
    case _ => None
  }

  /** Row `b` as long as it exists: of the same eject, on the same disk, under way with the same copy. */
  ghost predicate CarriesOn(s: State, t: State, b: nat) {
    && b < t.nextBackup
    && (b in t.backups ==>
          && b in s.backups && t.backups[b].kind.EjectActivity? && t.backups[b].diskId == s.backups[b].diskId
          && (Ejecting(t, b) ==> t.backups[b].stage.Over? || CopyOf(t.backups[b]) == CopyOf(s.backups[b])))
  }

  lemma RowCarriesStep(s: State, m: State, op: Op, b: nat)
    requires CarriesOn(s, m, b)
    ensures CarriesOn(s, Apply(m, op), b)
  {
    RowFate(m, op, b);
    if Owns(op, b) && b in m.backups {
      OwnerCarries(m, op, b);
    }
    hide Apply, Owns, CopyOf;
  }

  /** The owner's steps keep what the row is about. */
  lemma OwnerCarries(s: State, op: Op, b: nat)
    requires Owns(op, b) && b in s.backups && s.backups[b].kind.EjectActivity?
    ensures var t := Apply(s, op);
            && b in t.backups && t.backups[b].kind.EjectActivity? && t.backups[b].diskId == s.backups[b].diskId
            && (Ejecting(t, b) ==>
                  Ejecting(s, b) && (t.backups[b].stage.Over? || CopyOf(t.backups[b]) == CopyOf(s.backups[b])))
  {
    hide SlotGone, Released, DiskById, Prepared;
  }

  lemma {:induction false} RowCarries(s: State, ops: seq<Op>, b: nat)
    requires b < s.nextBackup && Ejecting(s, b)
    ensures CarriesOn(s, RunOps(s, ops), b)
  {
    hide Apply, CopyOf;
    if ops != [] {
      RowCarries(s, ops[..|ops| - 1], b);
      RowCarriesStep(s, RunOps(s, ops[..|ops| - 1]), ops[|ops| - 1], b);
    }
  }

  /** The disks after the eject of row `b` has succeeded: its own disk released, the others as they were. */
  function WithReleased(disks: seq<Disk>, row: Backup): seq<Disk> {
    var i := DiskById(disks, row.diskId);
    if i.Some? && CopyOf(row).Some? then disks[i.value := Released(CopyOf(row).value, disks[i.value])] else disks
  }

  lemma OwnStepWrites(s: State, op: Op, b: nat)
    requires Owns(op, b) && b in s.backups && s.backups[b].kind.EjectActivity?
    ensures var t := Apply(s, op);
            t.disks == s.disks
            || (op.FinishEjectOp? && Ejecting(s, b) && !s.backups[b].stage.Over? && b in t.backups
                && t.backups[b].status.Succeeded? && t.disks == WithReleased(s.disks, s.backups[b]))
  {
    hide SlotGone, Released, Prepared;
  }

  /**
   Whatever else writes disks: a step of an eject changes disk rows only by finishing it, which closes its row as
   succeeded for good and releases the eject's own disk, column by column against the copy it began with. So
   an eject whose row is not closed as succeeded at the end has changed none.
   */
  lemma EjectWritesOnlyBySucceeding(s: State, ops: seq<Op>, b: nat, k: nat)
    requires b < s.nextBackup && Ejecting(s, b) && k < |ops| && Owns(ops[k], b)
    ensures var m, n, last := RunOps(s, ops[..k]), RunOps(s, ops[..k + 1]), RunOps(s, ops);
            n.disks != m.disks ==>
              && ops[k].FinishEjectOp? && n.disks == WithReleased(m.disks, s.backups[b])
              && (b in last.backups ==> last.backups[b].status.Succeeded?)
  {
    hide RunOps, Apply, Owns, WithReleased, CopyOf, Ejecting, CarriesOn;
    RowCarries(s, ops[..k], b);
    RunOpsAt(s, ops, k);
    WriteStays(s, RunOps(s, ops[..k]), ops[k], ops[k + 1..], b);
  }

  lemma WriteStays(s: State, m: State, op: Op, later: seq<Op>, b: nat)
    requires CarriesOn(s, m, b) && Owns(op, b)
    ensures var n, last := Apply(m, op), RunOps(Apply(m, op), later);
            n.disks != m.disks ==>
              && op.FinishEjectOp? && n.disks == WithReleased(m.disks, s.backups[b])
              && (b in last.backups ==> last.backups[b].status.Succeeded?)
  {
    hide RunOps, Apply, Owns, CopyOf;
    if b in m.backups {
      OwnStepWrites(m, op, b);
      RowFate(m, op, b);
      var n := Apply(m, op);
      if n.disks != m.disks {
        ClosedRowStays(n, later, b);
      }
    } else {
      NoRowNoWrite(m, op, b);
    }
  }

  lemma NoRowNoWrite(s: State, op: Op, b: nat)
    requires Owns(op, b) && b !in s.backups
    ensures Apply(s, op) == s
  {
  }

  predicate MayWriteDisks(op: Op, b: nat) {
    op.DisksOp? || op.EndOp? || (op.FinishEjectOp? && op.b != b)
  }

  lemma OthersKeepDisks(s: State, op: Op, b: nat)
    requires !MayWriteDisks(op, b) && !Owns(op, b)
    ensures Apply(s, op).disks == s.disks
  {
    if Planning(op) {
      PlanningKeepsDisks(s, op);
      hide Apply;
    } else {
      hide CanEject, SlotGone, AnyActive, Released;
    }
  }

  /** The disks as the eject leaves them: written exactly if its row has succeeded. */
  ghost predicate DisksFollow(s: State, t: State, b: nat) {
    && CarriesOn(s, t, b) && b in t.backups && b in s.backups
    && t.disks == if t.backups[b].status.Succeeded? then WithReleased(s.disks, s.backups[b]) else s.disks
  }

  /**
   If nothing else writes disk rows meanwhile, an open eject leaves every disk exactly as it was when it began
   until it succeeds, and for good if it fails or dies; if it succeeds, its disk is released and no other changes.
   */
  lemma {:induction false} FailedEjectTouchesNothing(s: State, ops: seq<Op>, b: nat)
    requires Ejecting(s, b) && b < s.nextBackup
    requires forall k :: 0 <= k < |ops| ==> !MayWriteDisks(ops[k], b) && !(ops[k].DeleteBackupOp? && ops[k].b == b)
    ensures DisksFollow(s, RunOps(s, ops), b)
  {
    hide Apply, WithReleased, CopyOf;
    if ops != [] {
      var before, last := ops[..|ops| - 1], ops[|ops| - 1];
      FailedEjectTouchesNothing(s, before, b);
      FollowStep(s, RunOps(s, before), last, b);
    }
  }

  lemma FollowStep(s: State, m: State, op: Op, b: nat)
    requires DisksFollow(s, m, b) && !MayWriteDisks(op, b) && !(op.DeleteBackupOp? && op.b == b)
    ensures DisksFollow(s, Apply(m, op), b)
  {
    RowCarriesStep(s, m, op, b);
    RowFate(m, op, b);
    RowIsThere(m, op, b);
    if Owns(op, b) {
      OwnStepWrites(m, op, b);
      SucceedsOnlyByFinishing(m, op, b);
      assert Ejecting(m, b) && !m.backups[b].stage.Over? ==>
               WithReleased(m.disks, m.backups[b]) == WithReleased(m.disks, s.backups[b]);
    } else {
      OthersKeepDisks(m, op, b);
    }
    hide Apply, WithReleased, CopyOf, Owns, MayWriteDisks;
  }

  lemma RowIsThere(s: State, op: Op, b: nat)
    requires b < s.nextBackup && b in s.backups && !(op.DeleteBackupOp? && op.b == b)
    ensures b in Apply(s, op).backups
  {
    if Planning(op) {
      PlanningOnlyAdds(s, op);
      hide Apply;
    } else {
      hide CanEject, SlotGone, AnyActive, Released, DiskById, Prepared;
    }
  }

  /** The owner's other steps never make the row succeed, and its last one writes the disk when it does. */
  lemma SucceedsOnlyByFinishing(s: State, op: Op, b: nat)
    requires Owns(op, b) && b in s.backups && s.backups[b].kind.EjectActivity?
    ensures var t := Apply(s, op);
            b in t.backups && t.backups[b].status.Succeeded? && !s.backups[b].status.Succeeded? ==>
              Ejecting(s, b) && !s.backups[b].stage.Over? && t.disks == WithReleased(s.disks, s.backups[b])
  {
    hide SlotGone, Released, Prepared;
  }
}
