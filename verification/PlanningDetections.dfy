/** What plugging in a disk does: to the runs of its own events, and to nobody else's. */
module PlanningDetections {
  import opened Wrappers
  import opened Calendar
  import opened PlanningModel
  import opened PlanningTicks
  import opened PlanningStarts

  /** The run waits for this disk, inside its window, and its event is not deleted. */
  predicate Awaits(run: Run, event: Event, disk: Disk, now: int) {
    && (run.status.Pending? || run.status.WaitingForDisk?) && !event.schedule.deleted
    && run.windowStartsAt <= now <= run.windowEndsAt && DiskMatches(disk, event.diskSerial)
  }

  /** The disk is noted and announced, unless that has happened before. */
  function Noted(s: State, r: nat, now: int): State
    requires r < |s.runs|
  {
    if s.runs[r].diskSeenAt.Some? then s
    else s.(runs := s.runs[r := s.runs[r].(diskSeenAt := Some(now))], notices := s.notices + multiset{ExpectedDisk(r)})
  }

  /** The run waits for its confirmation, and the user is asked for it. */
  predicate AsksIn(s: State, t: State, r: nat)
    requires r < |s.runs|
  {
    t == s.(runs := s.runs[r := s.runs[r].(status := WaitingForConfirmation)],
            notices := s.notices + multiset{ConfirmationRequired(r)})
  }

  /** A run whose disk is there is left alone if linked, is asked to be confirmed once, or is started. */
  ghost predicate AdvancesAs(s: State, t: State, r: nat, now: int, agent: AgentReply)
    requires Known(s, r)
  {
    if s.runs[r].backupRunId.Some? then t == s
    else if EventOf(s, r).startMode.AutoOnDiskDetected? then StartsAs(s, t, r, now, agent, true)
    else if s.runs[r].status.WaitingForConfirmation? then t == s
    else AsksIn(s, t, r)
  }

  lemma AdvanceAnswer(s: State, r: nat, now: int, agent: AgentReply)
    requires Known(s, r)
    ensures AdvancesAs(s, Advance(s, r, now, agent), r, now, agent)
  {
    StartAnswer(s, r, now, agent, true);
    hide StartRun, StartsAs;
  }

  /**
   What the detection of a disk does to a run: nothing at all unless the run awaits that disk; else the disk is noted,
   and an unlinked run is asked to be confirmed or started, as its event says.
   */
  ghost predicate DetectsAs(s: State, t: State, r: nat, disk: Disk, now: int, agent: AgentReply)
    requires Known(s, r)
  {
    if Awaits(s.runs[r], EventOf(s, r), disk, now) then AdvancesAs(Noted(s, r, now), t, r, now, agent) else t == s
  }

  lemma NotedIsSeen(s: State, r: nat, now: int)
    requires r < |s.runs|
    ensures SeeDisk(s, r, now) == Noted(s, r, now)
  {
  }

  lemma DetectionAnswer(s: State, r: nat, disk: Disk, now: int, agent: AgentReply)
    requires Known(s, r)
    ensures DetectsAs(s, DetectTurn(s, r, disk, now, agent), r, disk, now, agent)
  {
    NotedIsSeen(s, r, now);
    var noted := Noted(s, r, now);
    AdvanceAnswer(noted, r, now, agent);
    assert Detectable(s, r, disk, now) <==> Awaits(s.runs[r], EventOf(s, r), disk, now) by { hide DiskMatches; }
    hide Advance, AdvancesAs, SeeDisk, Detectable, Awaits;
  }

  // ----- a whole detection -----

  /** Notices about other runs are as they were. */
  ghost predicate OthersUntold(s: State, t: State, r: nat) {
    forall n: Notice :: n.run != r ==> t.notices[n] == s.notices[n]
  }

  lemma StartUntold(s: State, t: State, r: nat, now: int, agent: AgentReply, announce: bool)
    requires Known(s, r) && StartsAs(s, t, r, now, agent, announce)
    ensures OthersUntold(s, t, r)
  {
    hide Busy, DiskKnown, Chosen, Accepts;
  }

  lemma AdvanceUntold(s: State, r: nat, now: int, agent: AgentReply)
    requires Known(s, r)
    ensures OthersUntold(s, Advance(s, r, now, agent), r)
  {
    var t := Advance(s, r, now, agent);
    AdvanceAnswer(s, r, now, agent);
    if StartsAs(s, t, r, now, agent, true) {
      StartUntold(s, t, r, now, agent, true);
    }
    hide Advance, StartsAs;
  }

  lemma DetectionUntold(s: State, r: nat, disk: Disk, now: int, agent: AgentReply)
    ensures OthersUntold(s, DetectTurn(s, r, disk, now, agent), r)
  {
    if Known(s, r) {
      NotedIsSeen(s, r, now);
      AdvanceUntold(Noted(s, r, now), r, now, agent);
    }
    hide DiskMatches, Advance, SeeDisk;
  }

  lemma AdvanceKeepsEvent(s: State, r: nat, now: int, agent: AgentReply)
    requires Known(s, r)
    ensures Advance(s, r, now, agent).runs[r].eventId == s.runs[r].eventId
  {
    AdvanceAnswer(s, r, now, agent);
    hide Advance, Busy, DiskKnown, Chosen, Accepts;
  }

  lemma DetectionTouches(s: State, r: nat, disk: Disk, now: int, agent: AgentReply)
    ensures TouchesOnly(s, DetectTurn(s, r, disk, now, agent), r)
    ensures r < |s.runs| ==> DetectTurn(s, r, disk, now, agent).runs[r].eventId == s.runs[r].eventId
  {
    if Known(s, r) {
      RowTouches(s, r, now);
      var seen := SeeDisk(s, r, now);
      AdvanceTouches(seen, r, now, agent);
      AdvanceKeepsEvent(seen, r, now, agent);
      TouchesTogether(s, seen, Advance(seen, r, now, agent), r);
    }
    hide TouchesOnly, SeeDisk, Advance, DiskMatches;
  }

  /** Run `r`, its event's settings and the notices about it are the same in both. */
  ghost predicate SameFor(s: State, t: State, r: nat) {
    && SameSettings(s, t) && |t.runs| == |s.runs| && r < |s.runs| && t.runs[r] == s.runs[r]
    && forall n: Notice :: n.run == r ==> t.notices[n] == s.notices[n]
  }

  lemma SameThrough(s: State, t: State, u: State, r: nat)
    requires SameFor(s, t, r) && SameFor(t, u, r)
    ensures SameFor(s, u, r)
  {
    SettingsThrough(s, t, u);
  }

  lemma OtherTurn(s: State, q: nat, disk: Disk, now: int, agent: AgentReply, r: nat)
    requires r < |s.runs| && q != r
    ensures SameFor(s, DetectTurn(s, q, disk, now, agent), r)
  {
    DetectionTouches(s, q, disk, now, agent);
    DetectionUntold(s, q, disk, now, agent);
    hide DetectTurn;
  }

  /** Within a detection a selected run takes one turn, from a state in which nothing about it has changed. */
  lemma {:induction false} OneTurnEach(s: State, ids: seq<nat>, disk: Disk, now: int, env: nat -> Env, r: nat)
    returns (before: State, after: State)
    requires r < |s.runs| && forall i, j :: 0 <= i < j < |ids| ==> ids[i] != ids[j]
    ensures SameFor(s, before, r) && SameFor(after, DetectList(s, ids, disk, now, env), r)
    ensures after == if r in ids then DetectTurn(before, r, disk, now, env(r).agent) else before
  {
    hide DetectTurn, SameFor;
    if ids == [] {
      before, after := s, s;
      SameSelf(s, r);
    } else {
      var rest, q := ids[..|ids| - 1], ids[|ids| - 1];
      before, after := OneTurnEach(s, rest, disk, now, env, r);
      var m := DetectList(s, rest, disk, now, env);
      assert ids == rest + [q] && q !in rest;
      SameCounts(s, before, r);
      if q == r {
        SameThrough(s, before, m, r);
        before, after := m, DetectTurn(m, r, disk, now, env(r).agent);
        SameCounts(s, m, r);
        SameSelf(after, r);
      } else {
        DetectionTouches(before, r, disk, now, env(r).agent);
        OtherTurn(m, q, disk, now, env(q).agent, r);
        SameThrough(after, m, DetectTurn(m, q, disk, now, env(q).agent), r);
      }
    }
  }

  lemma SameSelf(s: State, r: nat)
    requires r < |s.runs|
    ensures SameFor(s, s, r)
  {
  }

  lemma SameCounts(s: State, t: State, r: nat)
    requires SameFor(s, t, r)
    ensures |t.runs| == |s.runs|
  {
  }

  /** The event of a run is meant for the disk before a turn if it was so at the beginning. */
  lemma SameEvent(s: State, t: State, r: nat)
    requires Known(s, r) && SameFor(s, t, r)
    ensures Known(t, r) && Settings(EventOf(t, r)) == Settings(EventOf(s, r))
  {
  }

  lemma AwaitsBySettings(run: Run, a: Event, b: Event, disk: Disk, now: int)
    requires Settings(a) == Settings(b)
    ensures Awaits(run, a, disk, now) == Awaits(run, b, disk, now)
  {
    hide DiskMatches;
  }

  /** After a turn the run has seen its disk exactly if it had before or awaited this one; only then it is changed. */
  lemma TurnSees(s: State, r: nat, disk: Disk, now: int, agent: AgentReply)
    requires Known(s, r)
    ensures var run, t := s.runs[r], DetectTurn(s, r, disk, now, agent);
            && |t.runs| == |s.runs|
            && t.runs[r].diskSeenAt == (if run.diskSeenAt.Some? || !Awaits(run, EventOf(s, r), disk, now)
                                        then run.diskSeenAt else Some(now))
            && (!Awaits(run, EventOf(s, r), disk, now) ==> t == s)
  {
    DetectionAnswer(s, r, disk, now, agent);
    if Awaits(s.runs[r], EventOf(s, r), disk, now) {
      AdvanceSees(Noted(s, r, now), DetectTurn(s, r, disk, now, agent), r, now, agent);
    }
    hide DetectTurn, Awaits, AdvancesAs;
  }

  lemma AdvanceSees(s: State, t: State, r: nat, now: int, agent: AgentReply)
    requires Known(s, r) && AdvancesAs(s, t, r, now, agent)
    ensures |t.runs| == |s.runs| && t.runs[r].diskSeenAt == s.runs[r].diskSeenAt
  {
    hide Busy, DiskKnown, Chosen, Accepts;
  }

  /** The rows as the detection's own batch leaves them: those that were there, and new ones. */
  lemma BatchKeeps(s: State, disk: Disk, now: int)
    ensures var c := CreateForDisk(s, disk, now);
            && s.runs <= c.runs && c.events == s.events && c.notices == s.notices && c.backups == s.backups
            && c.disks == s.disks
  {
    hide DueRuns;
  }

  /**
   Over a whole detection: a run, be it one that was there or one just created, has seen its disk afterwards exactly if
   it had before, or waited for it inside its window, its event not deleted and meant for the disk that was plugged in.
   */
  lemma DetectionSees(s: State, disk: Disk, now: int, env: nat -> Env, r: nat)
    requires Known(CreateForDisk(s, disk, now), r)
    ensures var c, t := CreateForDisk(s, disk, now), Detect(s, disk, now, env);
            var run, event := c.runs[r], c.events[c.runs[r].eventId];
            && |t.runs| == |c.runs|
            && (t.runs[r].diskSeenAt.Some? <==>
                  || run.diskSeenAt.Some?
                  || (run.status in {Pending, WaitingForDisk} && !event.schedule.deleted
                      && run.windowStartsAt <= now <= run.windowEndsAt && DiskMatches(disk, event.diskSerial)))
  {
    var c := CreateForDisk(s, disk, now);
    var ids := WaitingIds(c.runs, |c.runs|);
    WaitingIdsExact(c.runs, |c.runs|);
    var before, after := OneTurnEach(c, ids, disk, now, env, r);
    SameEvent(c, before, r);
    AwaitsBySettings(c.runs[r], EventOf(before, r), EventOf(c, r), disk, now);
    TurnSees(before, r, disk, now, env(r).agent);
    assert Detect(s, disk, now, env) == DetectList(c, ids, disk, now, env);
    hide Detect, DetectList, DetectTurn, CreateForDisk, WaitingIds, DiskMatches, SameSettings;
  }

  /** A detection leaves a run whose event is meant for another disk as it is, and says nothing about it. */
  lemma DetectionSpares(s: State, disk: Disk, now: int, env: nat -> Env, r: nat)
    requires Known(s, r) && !DiskMatches(disk, EventOf(s, r).diskSerial)
    ensures var t := Detect(s, disk, now, env);
            && r < |t.runs| && t.runs[r] == s.runs[r]
            && forall n: Notice :: n.run == r ==> t.notices[n] == s.notices[n]
  {
    BatchKeeps(s, disk, now);
    var c := CreateForDisk(s, disk, now);
    var ids := WaitingIds(c.runs, |c.runs|);
    WaitingIdsExact(c.runs, |c.runs|);
    assert Known(c, r) && EventOf(c, r) == EventOf(s, r);
    var before, after := OneTurnEach(c, ids, disk, now, env, r);
    SameEvent(c, before, r);
    assert !Awaits(before.runs[r], EventOf(before, r), disk, now) by { hide DiskMatches; }
    TurnSees(before, r, disk, now, env(r).agent);
    assert Detect(s, disk, now, env) == DetectList(c, ids, disk, now, env);
    SameThrough(c, before, DetectList(c, ids, disk, now, env), r);
    hide Detect, DetectList, DetectTurn, CreateForDisk, WaitingIds, DiskMatches, SameSettings;
  }

  lemma {:induction false} NothingDue(committed: seq<Run>, events: seq<Event>, n: nat, disk: Disk, lo: int, hi: int)
    requires n <= |events| && forall e :: 0 <= e < n ==> !DiskMatches(disk, events[e].diskSerial)
    ensures DueRuns(committed, events, n, Some(disk), lo, hi) == []
  {
    hide DiskMatches, MissingRuns;
    if n > 0 {
      NothingDue(committed, events, n - 1, disk, lo, hi);
    }
  }

  lemma {:induction false} NothingDetected(s: State, ids: seq<nat>, disk: Disk, now: int, env: nat -> Env)
    requires forall e :: 0 <= e < |s.events| ==> !DiskMatches(disk, s.events[e].diskSerial)
    ensures DetectList(s, ids, disk, now, env) == s
  {
    if ids != [] {
      NothingDetected(s, ids[..|ids| - 1], disk, now, env);
      var q := ids[|ids| - 1];
      assert !Detectable(s, q, disk, now) by { hide DiskMatches; }
      hide Detectable, Advance, SeeDisk, DiskMatches;
    }
  }

  /** A disk that no event is meant for changes nothing at all. */
  lemma UnrelatedDisk(s: State, disk: Disk, now: int, env: nat -> Env)
    requires forall e :: 0 <= e < |s.events| ==> !DiskMatches(disk, s.events[e].diskSerial)
    ensures Detect(s, disk, now, env) == s
  {
    NothingDue(s.runs, s.events, |s.events|, disk, now - 24 * HOUR, now + HOUR);
    hide DueRuns;
    var c := CreateForDisk(s, disk, now);
    assert s.runs + [] == s.runs;
    assert c == s;
    NothingDetected(s, WaitingIds(s.runs, |s.runs|), disk, now, env);
    hide DetectList, WaitingIds, DiskMatches;
  }
}
