/** Every occurrence of a live event gets its run, exactly once, as long as ticks are frequent enough. */
module PlanningCoverage {
  import opened Wrappers
  import opened Calendar
  import opened Recurrence
  import opened PlanningModel
  import opened PlanningInvariants
  import opened PlanningStarts

  /** No event has two runs for the same time. */
  ghost predicate KeysUnique(runs: seq<Run>) {
    forall i, j :: 0 <= i < j < |runs| && runs[i].eventId == runs[j].eventId ==>
      runs[i].scheduledFor != runs[j].scheduledFor
  }

  // ----- one batch -----

  lemma {:induction false} MissingCovers(committed: seq<Run>, e: nat, event: Event, occurrences: seq<int>, t: int)
    requires t in occurrences
    ensures HasRun(committed, e, t) || HasRun(MissingRuns(committed, e, event, occurrences), e, t)
  {
    var before, last := occurrences[..|occurrences| - 1], occurrences[|occurrences| - 1];
    var r := MissingRuns(committed, e, event, occurrences);
    if t == last {
      if !HasRun(committed, e, t) {
        assert r[|r| - 1].eventId == e && r[|r| - 1].scheduledFor == t;
      }
    } else {
      assert occurrences == before + [last];
      MissingCovers(committed, e, event, before, t);
      if !HasRun(committed, e, t) {
        GrowingKeeps(MissingRuns(committed, e, event, before), r, e, t);
      }
    }
  }

  lemma GrowingKeeps(a: seq<Run>, b: seq<Run>, e: nat, t: int)
    requires a <= b && HasRun(a, e, t)
    ensures HasRun(b, e, t)
  {
    var i :| 0 <= i < |a| && a[i].eventId == e && a[i].scheduledFor == t;
    assert b[i] == a[i];
  }

  lemma SuffixKeeps(a: seq<Run>, b: seq<Run>, e: nat, t: int)
    requires HasRun(b, e, t)
    ensures HasRun(a + b, e, t)
  {
    var i :| 0 <= i < |b| && b[i].eventId == e && b[i].scheduledFor == t;
    assert (a + b)[|a| + i] == b[i];
  }

  lemma {:induction false} DueCovers(committed: seq<Run>, events: seq<Event>, n: nat, disk: Option<Disk>, lo: int,
                                     hi: int, e: nat, t: int)
    requires e < n <= |events|
    ensures Wanted(events[e], disk) && t in Expand(events[e].schedule, lo, hi) ==>
              HasRun(committed, e, t) || HasRun(DueRuns(committed, events, n, disk, lo, hi), e, t)
  {
    hide Expand, Wanted, HasRun;
    var occurrences := Expand(events[e].schedule, lo, hi);
    if !Wanted(events[e], disk) || t !in occurrences { return; }
    var before := DueRuns(committed, events, n - 1, disk, lo, hi);
    if e == n - 1 {
      MissingCovers(committed, e, events[e], occurrences, t);
      if !HasRun(committed, e, t) {
        SuffixKeeps(before, MissingRuns(committed, e, events[e], occurrences), e, t);
      }
    } else {
      DueCovers(committed, events, n - 1, disk, lo, hi, e, t);
      if !HasRun(committed, e, t) {
        GrowingKeeps(before, DueRuns(committed, events, n, disk, lo, hi), e, t);
      }
    }
  }

  /** Rows of one event, none committed yet, all at different times. */
  ghost predicate NewTimes(committed: seq<Run>, e: nat, rows: seq<Run>) {
    && (forall i :: 0 <= i < |rows| ==> rows[i].eventId == e && !HasRun(committed, e, rows[i].scheduledFor))
    && (forall i, j :: 0 <= i < j < |rows| ==> rows[i].scheduledFor < rows[j].scheduledFor)
  }

  lemma NewTimeAdded(committed: seq<Run>, e: nat, rows: seq<Run>, row: Run)
    requires NewTimes(committed, e, rows) && row.eventId == e && !HasRun(committed, e, row.scheduledFor)
    requires forall run :: run in rows ==> run.scheduledFor < row.scheduledFor
    ensures NewTimes(committed, e, rows + [row])
  {
    assert forall i :: 0 <= i < |rows| ==> rows[i] in rows;
    hide HasRun;
  }

  /** Because the expansion is strictly increasing, a batch that cannot see itself still repeats nothing. */
  lemma {:induction false} MissingAreNew(committed: seq<Run>, e: nat, event: Event, occurrences: seq<int>)
    requires StrictlyIncreasing(occurrences)
    ensures NewTimes(committed, e, MissingRuns(committed, e, event, occurrences))
    ensures forall run :: run in MissingRuns(committed, e, event, occurrences) ==> run.scheduledFor in occurrences
  {
    hide HasRun;
    if occurrences != [] {
      var before, last := occurrences[..|occurrences| - 1], occurrences[|occurrences| - 1];
      MissingAreNew(committed, e, event, before);
      assert occurrences == before + [last];
      assert forall t :: t in before ==> t < last;
      if !HasRun(committed, e, last) {
        NewTimeAdded(committed, e, MissingRuns(committed, e, event, before), NewRun(e, event, last));
      }
      hide NewTimes;
    }
  }

  ghost predicate NewKeys(committed: seq<Run>, n: nat, rows: seq<Run>) {
    && KeysUnique(rows)
    && forall i :: 0 <= i < |rows| ==> rows[i].eventId < n && !HasRun(committed, rows[i].eventId, rows[i].scheduledFor)
  }

  lemma AddEventRows(committed: seq<Run>, n: nat, rows: seq<Run>, more: seq<Run>)
    requires NewKeys(committed, n, rows) && NewTimes(committed, n, more)
    ensures NewKeys(committed, n + 1, rows + more)
  {
    hide HasRun;
  }

  /** The rows one event adds, none if the event is not wanted. */
  lemma EventRowsAreNew(committed: seq<Run>, n: nat, event: Event, lo: int, hi: int, wanted: bool)
    ensures NewTimes(committed, n,
              if wanted then MissingRuns(committed, n, event, Expand(event.schedule, lo, hi)) else [])
  {
    ExpandExact(event.schedule, lo, hi);
    MissingAreNew(committed, n, event, Expand(event.schedule, lo, hi));
    hide Expand, MissingRuns, HasRun;
  }

  lemma {:induction false} DueAreNew(committed: seq<Run>, events: seq<Event>, n: nat, disk: Option<Disk>, lo: int,
                                     hi: int)
    requires n <= |events|
    ensures NewKeys(committed, n, DueRuns(committed, events, n, disk, lo, hi))
  {
    hide Expand, Wanted, MissingRuns, NewTimes, HasRun;
    if n > 0 {
      var before, event := DueRuns(committed, events, n - 1, disk, lo, hi), events[n - 1];
      var wanted := Wanted(event, disk);
      DueAreNew(committed, events, n - 1, disk, lo, hi);
      EventRowsAreNew(committed, n - 1, event, lo, hi, wanted);
      AddEventRows(committed, n - 1, before,
                   if wanted then MissingRuns(committed, n - 1, event, Expand(event.schedule, lo, hi)) else []);
      hide NewKeys;
    }
  }

  lemma AppendedKeys(committed: seq<Run>, n: nat, rows: seq<Run>)
    requires KeysUnique(committed) && NewKeys(committed, n, rows)
    ensures KeysUnique(committed + rows)
  {
    var all := committed + rows;
    forall i, j | 0 <= i < j < |all| && all[i].eventId == all[j].eventId
      ensures all[i].scheduledFor != all[j].scheduledFor
    {
      if i < |committed| <= j {
        assert !HasRun(committed, rows[j - |committed|].eventId, rows[j - |committed|].scheduledFor);
      } else if |committed| <= i {
        assert all[i] == rows[i - |committed|] && all[j] == rows[j - |committed|];
      }
    }
  }

  /** `t` is an occurrence in the range of a wanted event. */
  ghost predicate DueIn(s: State, disk: Option<Disk>, lo: int, hi: int, e: nat, t: int) {
    e < |s.events| && Wanted(s.events[e], disk) && lo <= t <= hi && IsOccurrence(s.events[e].schedule, t)
  }

  /** A batch creates a run for each occurrence in its range and never a second one for a key. */
  lemma BatchIsExact(s: State, disk: Option<Disk>, lo: int, hi: int)
    ensures KeysUnique(s.runs) ==> KeysUnique(CreateRuns(s, disk, lo, hi).runs)
    ensures forall e: nat, t: int :: DueIn(s, disk, lo, hi, e, t) ==> HasRun(CreateRuns(s, disk, lo, hi).runs, e, t)
  {
    var rows := DueRuns(s.runs, s.events, |s.events|, disk, lo, hi);
    DueAreNew(s.runs, s.events, |s.events|, disk, lo, hi);
    if KeysUnique(s.runs) {
      AppendedKeys(s.runs, |s.events|, rows);
    }
    forall e: nat, t: int | DueIn(s, disk, lo, hi, e, t)
      ensures HasRun(s.runs + rows, e, t)
    {
      ExpandExact(s.events[e].schedule, lo, hi);
      DueCovers(s.runs, s.events, |s.events|, disk, lo, hi, e, t);
      hide Expand, IsOccurrence, DueRuns;
      if HasRun(s.runs, e, t) {
        GrowingKeeps(s.runs, s.runs + rows, e, t);
      } else {
        SuffixKeeps(s.runs, rows, e, t);
      }
    }
  }

  // ----- the two batches of the source -----

  /** Rows that were there stay; every new one is pending, with the event's window from its occurrence on. */
  lemma BatchRows(s: State, disk: Option<Disk>, lo: int, hi: int, k: nat)
    requires |s.runs| <= k < |CreateRuns(s, disk, lo, hi).runs|
    ensures var c := CreateRuns(s, disk, lo, hi);
            && s.runs <= c.runs && c == s.(runs := c.runs)
            && var run := c.runs[k];
               run.eventId < |s.events| && NewRow(run, run.eventId, s.events[run.eventId], run.scheduledFor)
  {
    var rows := DueRuns(s.runs, s.events, |s.events|, disk, lo, hi);
    DueAreFresh(s.runs, s.events, |s.events|, disk, lo, hi);
    hide DueRuns;
    assert rows[k - |s.runs|] in rows;
  }

  lemma HasRunIn(a: seq<Run>, b: seq<Run>, e: nat, t: int)
    ensures HasRun(a + b, e, t) <==> HasRun(a, e, t) || HasRun(b, e, t)
  {
    if HasRun(a, e, t) {
      GrowingKeeps(a, a + b, e, t);
    }
    if HasRun(b, e, t) {
      SuffixKeeps(a, b, e, t);
    }
    if HasRun(a + b, e, t) {
      var i :| 0 <= i < |a + b| && (a + b)[i].eventId == e && (a + b)[i].scheduledFor == t;
      if i >= |a| {
        assert b[i - |a|] == (a + b)[i];
      }
    }
  }

  /**
   After a tick's batch a time has a run of an event exactly if it had one, or is on the schedule of the enabled,
   undeleted event and within a day of now.
   */
  lemma TickCreates(s: State, now: int, e: nat, t: int)
    ensures HasRun(CreateDue(s, now).runs, e, t) <==>
              || HasRun(s.runs, e, t)
              || (e < |s.events| && s.events[e].enabled && !s.events[e].schedule.deleted
                  && now - 24 * HOUR <= t <= now + 24 * HOUR && OnSchedule(s.events[e].schedule, t))
  {
    BatchAdds(s, None, now - 24 * HOUR, now + 24 * HOUR, e, t);
    HasRunIn(s.runs, DueRuns(s.runs, s.events, |s.events|, None, now - 24 * HOUR, now + 24 * HOUR), e, t);
    if e < |s.events| {
      OccurrencesOnSchedule(s.events[e].schedule, t);
    }
    hide DueRuns, HasRun, IsOccurrence, OnSchedule;
  }

  /** A detection's batch does the same from a day ago to an hour ahead, for events meant for the disk. */
  lemma DetectionCreates(s: State, disk: Disk, now: int, e: nat, t: int)
    ensures HasRun(CreateForDisk(s, disk, now).runs, e, t) <==>
              || HasRun(s.runs, e, t)
              || (e < |s.events| && s.events[e].enabled && !s.events[e].schedule.deleted
                  && DiskMatches(disk, s.events[e].diskSerial)
                  && now - 24 * HOUR <= t <= now + HOUR && OnSchedule(s.events[e].schedule, t))
  {
    BatchAdds(s, Some(disk), now - 24 * HOUR, now + HOUR, e, t);
    HasRunIn(s.runs, DueRuns(s.runs, s.events, |s.events|, Some(disk), now - 24 * HOUR, now + HOUR), e, t);
    if e < |s.events| {
      OccurrencesOnSchedule(s.events[e].schedule, t);
    }
    hide DueRuns, HasRun, IsOccurrence, OnSchedule, DiskMatches;
  }

  // ----- two batches at once -----

  /** The row is for an occurrence in range of a wanted event. */
  predicate ForOccurrence(events: seq<Event>, n: nat, disk: Option<Disk>, lo: int, hi: int, run: Run) {
    && run.eventId < n <= |events| && Wanted(events[run.eventId], disk)
    && run.scheduledFor in Expand(events[run.eventId].schedule, lo, hi)
  }

  lemma EventRowsAreWanted(committed: seq<Run>, events: seq<Event>, n: nat, disk: Option<Disk>, lo: int, hi: int,
                           run: Run)
    requires n < |events| && Wanted(events[n], disk)
    requires run in MissingRuns(committed, n, events[n], Expand(events[n].schedule, lo, hi))
    ensures ForOccurrence(events, n + 1, disk, lo, hi, run)
  {
    hide Expand, Wanted, MissingRuns, HasRun;
    var occurrences := Expand(events[n].schedule, lo, hi);
    ExpandExact(events[n].schedule, lo, hi);
    MissingAreNew(committed, n, events[n], occurrences);
  }

  lemma {:induction false} DueAreWanted(committed: seq<Run>, events: seq<Event>, n: nat, disk: Option<Disk>, lo: int,
                                        hi: int)
    requires n <= |events|
    ensures forall run :: run in DueRuns(committed, events, n, disk, lo, hi) ==>
              ForOccurrence(events, n, disk, lo, hi, run)
  {
    hide Expand, Wanted, MissingRuns, HasRun;
    if n > 0 {
      var before := DueRuns(committed, events, n - 1, disk, lo, hi);
      DueAreWanted(committed, events, n - 1, disk, lo, hi);
      forall run | run in DueRuns(committed, events, n, disk, lo, hi)
        ensures ForOccurrence(events, n, disk, lo, hi, run)
      {
        if run in before {
          assert ForOccurrence(events, n - 1, disk, lo, hi, run);
        } else {
          EventRowsAreWanted(committed, events, n - 1, disk, lo, hi, run);
        }
      }
    }
  }

  /** What a batch adds: a row for exactly the keys that are due and have none. */
  lemma BatchAdds(s: State, disk: Option<Disk>, lo: int, hi: int, e: nat, t: int)
    ensures HasRun(DueRuns(s.runs, s.events, |s.events|, disk, lo, hi), e, t) <==>
              DueIn(s, disk, lo, hi, e, t) && !HasRun(s.runs, e, t)
  {
    var rows := DueRuns(s.runs, s.events, |s.events|, disk, lo, hi);
    DueAreNew(s.runs, s.events, |s.events|, disk, lo, hi);
    DueAreWanted(s.runs, s.events, |s.events|, disk, lo, hi);
    if HasRun(rows, e, t) {
      var i :| 0 <= i < |rows| && rows[i].eventId == e && rows[i].scheduledFor == t;
      assert ForOccurrence(s.events, |s.events|, disk, lo, hi, rows[i]) && rows[i] in rows;
    }
    if e < |s.events| {
      ExpandExact(s.events[e].schedule, lo, hi);
      DueCovers(s.runs, s.events, |s.events|, disk, lo, hi, e, t);
    }
    hide Expand, IsOccurrence, DueRuns, HasRun, Wanted;
  }

  /** The key has two rows. */
  ghost predicate HasTwoRuns(runs: seq<Run>, e: nat, t: int) {
    exists i, j :: 0 <= i < j < |runs| && runs[i].eventId == runs[j].eventId == e
                   && runs[i].scheduledFor == runs[j].scheduledFor == t
  }

  /**
   A batch of a tick and one of a detection, or any two, that both query before either commits: a key gets two rows
   exactly if it is due in both and had no row.
   */
  lemma OverlappingBatches(s: State, u: State, a: Option<Disk>, loA: int, hiA: int, b: Option<Disk>, loB: int,
                           hiB: int, e: nat, t: int)
    requires KeysUnique(s.runs) && u.runs == s.runs
    ensures var first := DueRuns(s.runs, s.events, |s.events|, a, loA, hiA);
            var second := DueRuns(u.runs, u.events, |u.events|, b, loB, hiB);
            HasTwoRuns(s.runs + first + second, e, t) <==>
              DueIn(s, a, loA, hiA, e, t) && DueIn(u, b, loB, hiB, e, t) && !HasRun(s.runs, e, t)
  {
    var first := DueRuns(s.runs, s.events, |s.events|, a, loA, hiA);
    var second := DueRuns(u.runs, u.events, |u.events|, b, loB, hiB);
    DueAreNew(s.runs, s.events, |s.events|, a, loA, hiA);
    DueAreNew(u.runs, u.events, |u.events|, b, loB, hiB);
    BatchAdds(s, a, loA, hiA, e, t);
    BatchAdds(u, b, loB, hiB, e, t);
    hide DueRuns, DueIn;
    TwoBatchesOnTop(s.runs, first, second, |s.events|, |u.events|, e, t);
  }

  lemma TwoBatchesOnTop(committed: seq<Run>, first: seq<Run>, second: seq<Run>, n: nat, m: nat, e: nat, t: int)
    requires KeysUnique(committed) && NewKeys(committed, n, first) && NewKeys(committed, m, second)
    ensures HasTwoRuns(committed + first + second, e, t) <==> HasRun(first, e, t) && HasRun(second, e, t)
  {
    AppendedKeys(committed, n, first);
    var all, k := committed + first, |committed| + |first|;
    if HasTwoRuns(all + second, e, t) {
      TwiceIsInBoth(committed, first, second, n, m, e, t);
    }
    if HasRun(first, e, t) && HasRun(second, e, t) {
      SuffixKeeps(committed, first, e, t);
      var i :| 0 <= i < |all| && all[i].eventId == e && all[i].scheduledFor == t;
      var j :| 0 <= j < |second| && second[j].eventId == e && second[j].scheduledFor == t;
      assert (all + second)[i] == all[i] && (all + second)[k + j] == second[j];
    }
  }

  lemma TwiceIsInBoth(committed: seq<Run>, first: seq<Run>, second: seq<Run>, n: nat, m: nat, e: nat, t: int)
    requires NewKeys(committed, n, first) && NewKeys(committed, m, second) && KeysUnique(committed + first)
    requires HasTwoRuns(committed + first + second, e, t)
    ensures HasRun(first, e, t) && HasRun(second, e, t)
  {
    var one := committed + first;
    var all := one + second;
    var i, j :| 0 <= i < j < |all| && all[i].eventId == all[j].eventId == e
                && all[i].scheduledFor == all[j].scheduledFor == t;
    assert j >= |one|;
    var row := second[j - |one|];
    assert row == all[j] && !HasRun(committed, row.eventId, row.scheduledFor);
    assert |committed| <= i < |one|;
    assert first[i - |committed|] == all[i];
  }

  // ----- whole runs -----

  lemma EvolvedKeeps(s: State, t: State, e: nat, at: int)
    requires Evolves(s, t) && HasRun(s.runs, e, at)
    ensures HasRun(t.runs, e, at)
  {
    var i :| 0 <= i < |s.runs| && s.runs[i].eventId == e && s.runs[i].scheduledFor == at;
    assert MayBecome(s.runs[i], t.runs[i]);
  }

  /** Rows that only change outcome columns keep their keys. */
  lemma SameKeys(a: seq<Run>, b: seq<Run>)
    requires |a| == |b| && forall i :: 0 <= i < |a| ==> MayBecome(a[i], b[i])
    ensures KeysUnique(a) ==> KeysUnique(b)
  {
    forall i, j | KeysUnique(a) && 0 <= i < j < |b| && b[i].eventId == b[j].eventId
      ensures b[i].scheduledFor != b[j].scheduledFor
    {
      assert MayBecome(a[i], b[i]) && MayBecome(a[j], b[j]);
    }
  }

  lemma StepKeepsKeys(s: State, op: Op, clock: int)
    requires Inv(s, clock) && clock <= op.now && KeysUnique(s.runs) && !op.RunNowOp?
    ensures KeysUnique(Apply(s, op).runs)
  {
    if op.CreateOp? {
      BatchIsExact(s, None, op.now - 24 * HOUR, op.now + 24 * HOUR);
    } else if op.CreateForDiskOp? {
      BatchIsExact(s, Some(op.disk), op.now - 24 * HOUR, op.now + HOUR);
    } else {
      StepKeeps(s, op, clock);
      SameLength(s, op);
      hide Apply, Inv;
      SameKeys(s.runs, Apply(s, op).runs);
    }
  }

  lemma SameLength(s: State, op: Op)
    requires !op.RunNowOp? && !op.CreateOp? && !op.CreateForDiskOp?
    ensures |Apply(s, op).runs| == |s.runs|
  {
    hide Turn, DetectTurn, StartRun, OpenEject, Unmount, Detach, FinishEject;
  }

  /** Without manual run-now requests no occurrence ever gets two runs, whatever else happens. */
  lemma {:induction false} NeverTwoRuns(ops: seq<Op>, from: int, legacy: bool)
    requires Timed(ops, from) && forall i :: 0 <= i < |ops| ==> !ops[i].RunNowOp?
    ensures KeysUnique(RunOps(Initial(legacy), ops).runs)
  {
    if ops != [] {
      var before, last := ops[..|ops| - 1], ops[|ops| - 1];
      NeverTwoRuns(before, from, legacy);
      AlwaysInv(before, from, legacy);
      StepKeepsKeys(RunOps(Initial(legacy), before), last, EndOf(before, from));
    }
  }

  /** The event is live with this schedule. */
  predicate LiveAs(s: State, e: nat, schedule: Schedule) {
    e < |s.events| && s.events[e].Live() && s.events[e].schedule == schedule
  }

  /** Positions of ticks in a sequence of steps, each at most 48 hours after the one before. */
  ghost predicate FrequentTicks(ops: seq<Op>, ticks: seq<nat>) {
    && ticks != []
    && (forall k :: 0 <= k < |ticks| ==> ticks[k] < |ops| && ops[ticks[k]].CreateOp?)
    && (forall k :: 0 < k < |ticks| ==> ops[ticks[k]].now - ops[ticks[k - 1]].now <= 48 * HOUR)
  }

  /** The event is live with this schedule just before each of the ticks. */
  ghost predicate LiveAtTicks(ops: seq<Op>, legacy: bool, ticks: seq<nat>, e: nat, schedule: Schedule)
    requires FrequentTicks(ops, ticks)
  {
    forall k :: 0 <= k < |ticks| ==> LiveAs(RunOps(Initial(legacy), ops[..ticks[k]]), e, schedule)
  }

  /** Some tick is within 24 hours of any moment between 24 hours before the first and after the last. */
  lemma {:induction false} NearestTick(ops: seq<Op>, ticks: seq<nat>, t: int) returns (k: nat)
    requires FrequentTicks(ops, ticks)
    requires ops[ticks[0]].now - 24 * HOUR <= t <= ops[ticks[|ticks| - 1]].now + 24 * HOUR
    ensures k < |ticks| && ops[ticks[k]].now - 24 * HOUR <= t <= ops[ticks[k]].now + 24 * HOUR
  {
    if t >= ops[ticks[|ticks| - 1]].now - 24 * HOUR {
      k := |ticks| - 1;
    } else {
      k := NearestTick(ops, ticks[..|ticks| - 1], t);
    }
  }

  /** Right after a tick, an occurrence within 24 hours of it has its run. */
  lemma TickCovers(ops: seq<Op>, legacy: bool, i: nat, e: nat, schedule: Schedule, t: int)
    requires i < |ops| && ops[i].CreateOp? && ops[i].now - 24 * HOUR <= t <= ops[i].now + 24 * HOUR
    ensures LiveAs(RunOps(Initial(legacy), ops[..i]), e, schedule) && IsOccurrence(schedule, t) ==>
              HasRun(RunOps(Initial(legacy), ops[..i + 1]).runs, e, t)
  {
    TickStep(ops, legacy, i);
    hide RunOps, Initial;
    if LiveAs(RunOps(Initial(legacy), ops[..i]), e, schedule) && IsOccurrence(schedule, t) {
      CreationCovers(RunOps(Initial(legacy), ops[..i]), ops[i].now, e, t);
    }
  }

  lemma TickStep(ops: seq<Op>, legacy: bool, i: nat)
    requires i < |ops| && ops[i].CreateOp?
    ensures RunOps(Initial(legacy), ops[..i + 1]) == CreateDue(RunOps(Initial(legacy), ops[..i]), ops[i].now)
  {
    assert ops[..i + 1][..i] == ops[..i];
    hide CreateRuns;
  }

  lemma CreationCovers(s: State, now: int, e: nat, t: int)
    requires e < |s.events| && s.events[e].Live() && IsOccurrence(s.events[e].schedule, t)
    requires now - 24 * HOUR <= t <= now + 24 * HOUR
    ensures HasRun(CreateDue(s, now).runs, e, t)
  {
    assert Wanted(s.events[e], None);
    hide CreateRuns, HasRun, IsOccurrence, Wanted;
    BatchIsExact(s, None, now - 24 * HOUR, now + 24 * HOUR);
  }

  /** The run is still there at the end. */
  lemma TickCoversForGood(ops: seq<Op>, from: int, legacy: bool, i: nat, e: nat, schedule: Schedule, t: int)
    requires Timed(ops, from)
    requires i < |ops| && ops[i].CreateOp? && ops[i].now - 24 * HOUR <= t <= ops[i].now + 24 * HOUR
    ensures LiveAs(RunOps(Initial(legacy), ops[..i]), e, schedule) && IsOccurrence(schedule, t) ==>
              HasRun(RunOps(Initial(legacy), ops).runs, e, t)
  {
    hide RunOps, IsOccurrence, HasRun, Initial, LiveAs, Evolves;
    TickCovers(ops, legacy, i, e, schedule, t);
    HistoryEvolves(ops, from, legacy, i + 1);
    if HasRun(RunOps(Initial(legacy), ops[..i + 1]).runs, e, t) {
      EvolvedKeeps(RunOps(Initial(legacy), ops[..i + 1]), RunOps(Initial(legacy), ops), e, t);
    }
  }

  /**
   If ticks are at most 48 hours apart and the event is live with the same schedule at each of them,
   every occurrence from 24 hours before the first tick to 24 hours after the last has a run, and
   exactly one unless runs are also requested by hand.
   */
  lemma OccurrencesGetRuns(ops: seq<Op>, from: int, legacy: bool, ticks: seq<nat>, e: nat, schedule: Schedule, t: int)
    requires Timed(ops, from) && FrequentTicks(ops, ticks)
    ensures LiveAtTicks(ops, legacy, ticks, e, schedule) && IsOccurrence(schedule, t)
            && ops[ticks[0]].now - 24 * HOUR <= t <= ops[ticks[|ticks| - 1]].now + 24 * HOUR ==>
              HasRun(RunOps(Initial(legacy), ops).runs, e, t)
    ensures (forall i :: 0 <= i < |ops| ==> !ops[i].RunNowOp?) ==> KeysUnique(RunOps(Initial(legacy), ops).runs)
  {
    hide RunOps, IsOccurrence, HasRun, Initial, KeysUnique, LiveAs;
    if LiveAtTicks(ops, legacy, ticks, e, schedule) && IsOccurrence(schedule, t)
       && ops[ticks[0]].now - 24 * HOUR <= t <= ops[ticks[|ticks| - 1]].now + 24 * HOUR {
      var k := NearestTick(ops, ticks, t);
      assert LiveAs(RunOps(Initial(legacy), ops[..ticks[k]]), e, schedule);
      TickCoversForGood(ops, from, legacy, ticks[k], e, schedule, t);
    }
    if forall i :: 0 <= i < |ops| ==> !ops[i].RunNowOp? {
      NeverTwoRuns(ops, from, legacy);
    }
  }
}
