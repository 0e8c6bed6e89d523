/** Whole ticks and detections: they are sequences of single steps, and what a tick leaves behind. */
module PlanningTicks {
  import opened Wrappers
  import opened Calendar
  import opened PlanningModel
  import opened PlanningInvariants

  /** The settings of an event, without the copies of its runs' outcomes. */
  function Settings(event: Event): Event {
    event.(lastStatus := None, lastTriggeredAt := None, lastCompletedAt := None)
  }

  ghost predicate SameSettings(s: State, t: State) {
    |s.events| == |t.events| && forall e :: 0 <= e < |s.events| ==> Settings(t.events[e]) == Settings(s.events[e])
  }

  /** Only row `r` of the runs differs and no event setting does. */
  ghost predicate TouchesOnly(s: State, t: State, r: nat) {
    && |t.runs| == |s.runs| && SameSettings(s, t)
    && forall i :: 0 <= i < |s.runs| && i != r ==> t.runs[i] == s.runs[i]
  }

  /** Replacing one row and the outcome columns of its event touches only that row. */
  lemma Replaced(s: State, t: State, r: nat)
    requires Known(s, r) && |t.runs| == |s.runs| && |t.events| == |s.events|
    requires t.runs == s.runs[r := t.runs[r]]
    requires var e := s.runs[r].eventId;
             t.events == s.events[e := t.events[e]] && Settings(t.events[e]) == Settings(s.events[e])
    ensures TouchesOnly(s, t, r)
  {
  }

  lemma LaunchTouches(s: State, r: nat, b: nat, now: int, announce: bool)
    requires Known(s, r)
    ensures TouchesOnly(s, Launch(s, r, b, now, announce), r)
  {
    var t, e := Launch(s, r, b, now, announce), s.runs[r].eventId;
    assert t.runs == s.runs[r := t.runs[r]];
    assert t.events == s.events[e := t.events[e]] && Settings(t.events[e]) == Settings(s.events[e]);
    hide Launch;
    Replaced(s, t, r);
  }

  lemma RefuseTouches(s: State, r: nat, now: int)
    requires Known(s, r)
    ensures TouchesOnly(s, Refuse(s, r, now), r)
  {
    var t, e := Refuse(s, r, now), s.runs[r].eventId;
    assert t.runs == s.runs[r := t.runs[r]];
    assert t.events == s.events[e := t.events[e]] && Settings(t.events[e]) == Settings(s.events[e]);
    hide Refuse;
    Replaced(s, t, r);
  }

  lemma WaitTouches(s: State, r: nat, status: RunStatus)
    requires r < |s.runs|
    ensures TouchesOnly(s, SetStatus(s, r, status), r)
  {
  }

  lemma SameRunsTouch(s: State, t: State, u: State, r: nat)
    requires t.runs == s.runs && t.events == s.events && TouchesOnly(t, u, r)
    ensures TouchesOnly(s, u, r)
  {
  }

  lemma StartTouches(s: State, r: nat, now: int, agent: AgentReply, announce: bool)
    requires Known(s, r)
    ensures TouchesOnly(s, StartRun(s, r, now, agent, announce), r)
  {
    hide StartOf, Launch, Refuse, SetStatus, RunExternalBackup, TouchesOnly;
    var way := StartOf(s, EventOf(s, r).diskSerial, agent);
    WaitTouches(s, r, WaitingForExternalBackup);
    WaitTouches(s, r, WaitingForDisk);
    RefuseTouches(s, r, now);
    if way.Go? {
      var created := RunExternalBackup(s, way.disk, agent, false);
      LaunchTouches(created, r, s.nextBackup, now, announce);
      SameRunsTouch(s, created, Launch(created, r, s.nextBackup, now, announce), r);
    }
  }

  lemma SyncTouches(s: State, r: nat, now: int)
    requires Known(s, r)
    ensures TouchesOnly(s, SyncLinked(s, r, now), r)
  {
    hide EjectAfterSync;
  }

  lemma AdvanceTouches(s: State, r: nat, now: int, agent: AgentReply)
    requires Known(s, r)
    ensures TouchesOnly(s, Advance(s, r, now, agent), r)
  {
    StartTouches(s, r, now, agent, true);
    hide StartRun;
  }

  lemma TouchesTogether(s: State, t: State, u: State, r: nat)
    requires TouchesOnly(s, t, r) && TouchesOnly(t, u, r)
    ensures TouchesOnly(s, u, r)
  {
  }

  lemma RowTouches(s: State, r: nat, now: int)
    requires Known(s, r)
    ensures TouchesOnly(s, s, r) && TouchesOnly(s, SetStatus(s, r, WaitingForDisk), r)
    ensures TouchesOnly(s, MarkMissed(s, r, now), r) && TouchesOnly(s, SeeDisk(s, r, now), r)
    ensures SeeDisk(s, r, now).runs[r].eventId == s.runs[r].eventId
  {
  }

  lemma DecideTouches(s: State, r: nat, now: int, agent: AgentReply)
    requires Known(s, r)
    ensures TouchesOnly(s, Decide(s, r, now, agent), r)
  {
    RowTouches(s, r, now);
    var seen := SeeDisk(s, r, now);
    AdvanceTouches(seen, r, now, agent);
    TouchesTogether(s, seen, Advance(seen, r, now, agent), r);
    hide TouchesOnly, SetStatus, MarkMissed, SeeDisk, Advance, PresentDisk;
  }

  lemma ProcessTouches(s: State, r: nat, now: int, agent: AgentReply)
    requires Known(s, r)
    ensures TouchesOnly(s, ProcessRun(s, r, now, agent), r)
  {
    SyncTouches(s, r, now);
    var synced := SyncLinked(s, r, now);
    var reminded := Remind(synced, r, now);
    assert TouchesOnly(synced, reminded, r) && Known(reminded, r);
    DecideTouches(reminded, r, now, agent);
    hide SyncLinked, Remind, Decide, TouchesOnly;
    TouchesTogether(s, synced, reminded, r);
    TouchesTogether(s, reminded, Decide(reminded, r, now, agent), r);
  }

  lemma TurnTouches(s: State, r: nat, now: int, agent: AgentReply)
    ensures TouchesOnly(s, Turn(s, r, now, agent), r)
  {
    if Known(s, r) { ProcessTouches(s, r, now, agent); }
    hide ProcessRun;
  }

  lemma WholeTurnTouches(s: State, r: nat, now: int, env: Env)
    ensures TouchesOnly(s, WholeTurn(s, r, now, env), r)
    ensures WholeTurn(s, r, now, env).runs == Turn(s, r, now, env.agent).runs
  {
    TurnTouches(s, r, now, env.agent);
    hide Turn, MaybeEject, EjectAfterSync, TakesTurn;
  }

  // ----- a tick as a sequence of steps -----

  function DetectOps(ids: seq<nat>, disk: Disk, now: int, env: nat -> Env): seq<Op> {
    if ids == [] then []
    else DetectOps(ids[..|ids| - 1], disk, now, env) + [DetectOp(ids[|ids| - 1], disk, now, env(ids[|ids| - 1]).agent)]
  }

  ghost predicate AllAt(ops: seq<Op>, now: int) {
    forall op :: op in ops ==> op.now == now
  }

  lemma RunOpsLast(s: State, ops: seq<Op>, op: Op)
    ensures RunOps(s, ops + [op]) == Apply(RunOps(s, ops), op)
  {
    assert (ops + [op])[..|ops|] == ops;
  }

  lemma {:induction false} RunOpsFirst(s: State, op: Op, ops: seq<Op>)
    ensures RunOps(s, [op] + ops) == RunOps(Apply(s, op), ops)
  {
    hide Apply;
    if ops == [] {
      assert [op] + ops == [] + [op];
      RunOpsLast(s, [], op);
    } else {
      var before := ops[..|ops| - 1];
      RunOpsFirst(s, op, before);
      assert ([op] + ops)[..|ops|] == [op] + before;
    }
  }

  lemma {:induction false} RunOpsAppend(s: State, a: seq<Op>, b: seq<Op>)
    ensures RunOps(s, a + b) == RunOps(RunOps(s, a), b)
  {
    hide Apply;
    if b == [] {
      assert a + b == a;
    } else {
      RunOpsAppend(s, a, b[..|b| - 1]);
      assert (a + b)[..|a + b| - 1] == a + b[..|b| - 1];
    }
  }

  /** Step `k` of a sequence, and the steps after it. */
  lemma RunOpsAt(s: State, ops: seq<Op>, k: nat)
    requires k < |ops|
    ensures RunOps(s, ops[..k + 1]) == Apply(RunOps(s, ops[..k]), ops[k])
    ensures RunOps(s, ops) == RunOps(RunOps(s, ops[..k + 1]), ops[k + 1..])
  {
    hide Apply;
    RunOpsLast(s, ops[..k], ops[k]);
    RunOpsAppend(s, ops[..k + 1], ops[k + 1..]);
    assert ops[..k] + [ops[k]] == ops[..k + 1];
    assert ops[..k + 1] + ops[k + 1..] == ops;
    hide RunOps;
  }

  lemma TwoOps(s: State, a: Op, b: Op)
    ensures RunOps(s, [a, b]) == Apply(Apply(s, a), b)
  {
    hide Apply;
    RunOpsLast(s, [], a);
    RunOpsLast(s, [] + [a], b);
    assert [] + [a] + [b] == [a, b];
  }

  lemma FourOps(s: State, a: Op, b: Op, c: Op, d: Op)
    ensures RunOps(s, [a, b, c, d]) == Apply(Apply(Apply(Apply(s, a), b), c), d)
  {
    hide Apply;
    RunOpsLast(s, [], a);
    RunOpsLast(s, [] + [a], b);
    RunOpsLast(s, [] + [a] + [b], c);
    RunOpsLast(s, [] + [a] + [b] + [c], d);
    assert [] + [a] + [b] + [c] + [d] == [a, b, c, d];
  }

  /** A whole eject is its four steps in a row. */
  lemma EjectIsOps(s: State, i: nat, now: int, reply: EjectReply) returns (ops: seq<Op>)
    requires i < |s.disks|
    ensures EjectDisk(s, i, now, reply) == RunOps(s, ops) && AllAt(ops, now)
  {
    hide CanEject, OpenEject, Unmount, Detach, FinishEject;
    if CanEject(s, i) {
      var b := s.nextBackup;
      ops := [OpenEjectOp(i, now), UnmountOp(b, now, reply.unmount),
              DetachOp(b, now, reply.detachRaises, reply.slotsAfter), FinishEjectOp(b, now)];
      FourOps(s, ops[0], ops[1], ops[2], ops[3]);
      hide RunOps;
    } else {
      ops := [];
    }
  }

  lemma WholeTurnIsOps(s: State, r: nat, now: int, env: Env) returns (ops: seq<Op>)
    ensures WholeTurn(s, r, now, env) == RunOps(s, ops) && AllAt(ops, now)
  {
    var turn := TurnOp(r, now, env.agent);
    var t := Turn(s, r, now, env.agent);
    var i := if TakesTurn(s, r) then EjectAfterSync(s, r) else None;
    RunOpsLast(s, [], turn);
    ops := [] + [turn];
    hide Turn, EjectAfterSync, EjectDisk, TakesTurn;
    if i.Some? {
      var more := EjectIsOps(t, i.value, now, env.eject);
      RunOpsAppend(s, ops, more);
      hide RunOps;
      ops := ops + more;
    }
  }

  lemma {:induction false} ProcessIsOps(s: State, ids: seq<nat>, now: int, env: nat -> Env) returns (ops: seq<Op>)
    ensures ProcessList(s, ids, now, env) == RunOps(s, ops) && AllAt(ops, now)
  {
    ops := [];
    if ids != [] {
      ops := ProcessIsOps(s, ids[..|ids| - 1], now, env);
      var more := WholeTurnIsOps(RunOps(s, ops), ids[|ids| - 1], now, env(ids[|ids| - 1]));
      RunOpsAppend(s, ops, more);
      ops := ops + more;
    }
    hide WholeTurn;
  }

  lemma {:induction false} DetectionIsOps(s: State, ids: seq<nat>, disk: Disk, now: int, env: nat -> Env)
    ensures DetectList(s, ids, disk, now, env) == RunOps(s, DetectOps(ids, disk, now, env))
    ensures forall op :: op in DetectOps(ids, disk, now, env) ==> op.now == now
  {
    if ids != [] {
      var before := ids[..|ids| - 1];
      DetectionIsOps(s, before, disk, now, env);
      RunOpsLast(s, DetectOps(before, disk, now, env), DetectOp(ids[|ids| - 1], disk, now, env(ids[|ids| - 1]).agent));
      hide DetectTurn;
    }
  }

  /**
   A tick is a creation step, one turn per open run and the steps of the ejects they go on to, all at the
   same time: every result about steps covers ticks.
   */
  lemma TickIsOps(s: State, now: int, env: nat -> Env) returns (ops: seq<Op>)
    ensures Tick(s, now, env) == RunOps(s, ops) && AllAt(ops, now)
    ensures ops != [] && ops[0] == CreateOp(now)
  {
    var t := CreateDue(s, now);
    var turns := ProcessIsOps(t, OpenIds(t.runs, |t.runs|), now, env);
    ops := [CreateOp(now)] + turns;
    RunOpsFirst(s, CreateOp(now), turns);
    hide ProcessList, CreateDue, OpenIds, RunOps;
  }

  lemma DetectIsOps(s: State, disk: Disk, now: int, env: nat -> Env) returns (ops: seq<Op>)
    ensures Detect(s, disk, now, env) == RunOps(s, ops) && AllAt(ops, now)
  {
    var t := CreateForDisk(s, disk, now);
    var ids := WaitingIds(t.runs, |t.runs|);
    DetectionIsOps(t, ids, disk, now, env);
    ops := [CreateForDiskOp(disk, now)] + DetectOps(ids, disk, now, env);
    RunOpsFirst(s, CreateForDiskOp(disk, now), DetectOps(ids, disk, now, env));
    hide DetectList, CreateForDisk, DetectOps, WaitingIds, RunOps;
  }

  // ----- the invariant over whole calls -----

  lemma CallKeeps(s: State, ops: seq<Op>, clock: int, now: int)
    requires Inv(s, clock) && clock <= now && AllAt(ops, now)
    ensures Inv(RunOps(s, ops), now) && Evolves(s, RunOps(s, ops))
  {
    assert forall i :: 0 <= i < |ops| ==> ops[i] in ops;
    hide Inv, Evolves, RunOps, Apply;
    StepsKeep(s, ops, clock, now);
  }

  lemma TickKeeps(s: State, clock: int, now: int, env: nat -> Env)
    requires Inv(s, clock) && clock <= now
    ensures Inv(Tick(s, now, env), now) && Evolves(s, Tick(s, now, env))
  {
    hide Inv, Evolves, RunOps, Tick;
    var ops := TickIsOps(s, now, env);
    CallKeeps(s, ops, clock, now);
  }

  lemma DetectKeeps(s: State, disk: Disk, clock: int, now: int, env: nat -> Env)
    requires Inv(s, clock) && clock <= now
    ensures Inv(Detect(s, disk, now, env), now) && Evolves(s, Detect(s, disk, now, env))
  {
    hide Inv, Evolves, RunOps, Detect;
    var ops := DetectIsOps(s, disk, now, env);
    CallKeeps(s, ops, clock, now);
  }

  lemma EjectKeeps(s: State, i: nat, clock: int, now: int, reply: EjectReply)
    requires Inv(s, clock) && clock <= now && i < |s.disks|
    ensures Inv(EjectDisk(s, i, now, reply), now) && Evolves(s, EjectDisk(s, i, now, reply))
  {
    hide Inv, Evolves, RunOps, EjectDisk;
    var ops := EjectIsOps(s, i, now, reply);
    CallKeeps(s, ops, clock, now);
  }

  lemma EndAndEjectKeeps(s: State, b: nat, clock: int, now: int, exec: ExecReply, reply: EjectReply)
    requires Inv(s, clock) && clock <= now
    ensures Inv(EndAndEject(s, b, now, exec, reply), now) && Evolves(s, EndAndEject(s, b, now, exec, reply))
  {
    StepKeeps(s, EndOp(b, now, exec), clock);
    var ended, i := EndBackup(s, b, now, exec), EjectAfterBackup(s, b, exec);
    KeysBound(s, clock);
    hide Inv, Evolves, EjectDisk, EndBackup, EjectAfterBackup;
    if i.Some? {
      EjectKeeps(ended, i.value, now, now, reply);
      EvolvesTransitively(s, ended, EjectDisk(ended, i.value, now, reply));
    }
  }

  // ----- expired runs -----

  /** A run whose window is over without its disk having been seen, still waiting for it. */
  predicate Overdue(run: Run, now: int) {
    now > run.windowEndsAt && run.diskSeenAt.None? && run.status in {Pending, WaitingForDisk}
  }

  predicate OfLiveEvent(s: State, r: nat) {
    Known(s, r) && EventOf(s, r).Live()
  }

  /** A turn after the window settles a run that was never seen, and makes no settled run wait again. */
  lemma TurnSettles(s: State, r: nat, now: int, agent: AgentReply)
    requires Inv(s, now) && OfLiveEvent(s, r)
    ensures !Overdue(Turn(s, r, now, agent).runs[r], now)
  {
    assert RowInv(s, r, now);
    TurnKeeps(s, r, now, agent);
    assert MayBecome(s.runs[r], Turn(s, r, now, agent).runs[r]);
    if now > s.runs[r].windowEndsAt && Open(s.runs[r].status) {
      ProcessSettles(s, r, now, agent);
    }
    hide ProcessRun, Inv, Evolves, NoticesOk, LinkOk;
  }

  lemma ProcessSettles(s: State, r: nat, now: int, agent: AgentReply)
    requires Inv(s, now) && Known(s, r) && now > s.runs[r].windowEndsAt && Open(s.runs[r].status)
    ensures !Overdue(ProcessRun(s, r, now, agent).runs[r], now)
  {
    SyncKeeps(s, r, now);
    RemindKeeps(s, r, now);
    assert RowInv(Remind(s, r, now), r, now) && MayBecome(s.runs[r], Remind(s, r, now).runs[r]);
    DecideSettles(Remind(s, r, now), r, now, agent);
    hide SyncLinked, Decide, Remind, Inv, Evolves;
  }

  lemma DecideSettles(s: State, r: nat, now: int, agent: AgentReply)
    requires Known(s, r) && RunOk(s.runs[r], now) && now > s.runs[r].windowEndsAt
    ensures !Overdue(Decide(s, r, now, agent).runs[r], now)
  {
    hide Advance, PresentDisk, SeeDisk;
  }

  lemma WholeTurnKeeps(s: State, q: nat, now: int, env: Env)
    requires Inv(s, now)
    ensures Inv(WholeTurn(s, q, now, env), now) && Evolves(s, WholeTurn(s, q, now, env))
  {
    var ops := WholeTurnIsOps(s, q, now, env);
    StepsKeep(s, ops, now, now);
    hide WholeTurn, RunOps, Inv, Evolves;
  }

  /** Steps at times between the clock and `now` keep the invariant. */
  lemma {:induction false} StepsKeep(s: State, ops: seq<Op>, clock: int, now: int)
    requires Inv(s, clock) && clock <= now && Timed(ops, clock) && EndOf(ops, clock) <= now
    ensures Inv(RunOps(s, ops), now) && Evolves(s, RunOps(s, ops))
  {
    hide Apply, Inv, Evolves;
    KeysBound(s, clock);
    if ops == [] {
      EvolvesReflexively(s);
      LaterClock(s, clock, now);
    } else {
      var before, last := ops[..|ops| - 1], ops[|ops| - 1];
      StepsKeep(s, before, clock, last.now);
      StepKeeps(RunOps(s, before), last, last.now);
      LaterClock(RunOps(s, ops), last.now, now);
      EvolvesTransitively(s, RunOps(s, before), RunOps(s, ops));
    }
  }

  /** One turn among others: it settles its own run and leaves run `r` alone otherwise. */
  lemma TurnStep(s: State, q: nat, now: int, env: Env, r: nat)
    requires Inv(s, now) && OfLiveEvent(s, r)
    ensures var t := WholeTurn(s, q, now, env);
            && Inv(t, now) && SameSettings(s, t) && |t.runs| == |s.runs|
            && (if q == r then !Overdue(t.runs[r], now) else t.runs[r] == s.runs[r])
            && t.runs[r].eventId == s.runs[r].eventId
  {
    WholeTurnKeeps(s, q, now, env);
    WholeTurnTouches(s, q, now, env);
    if q == r {
      TurnSettles(s, r, now, env.agent);
      assert MayBecome(s.runs[r], WholeTurn(s, q, now, env).runs[r]);
    }
    hide Turn, WholeTurn, Inv, SameSettings, OfLiveEvent, Overdue;
  }

  lemma LiveThroughout(s: State, t: State, r: nat)
    requires OfLiveEvent(s, r) && SameSettings(s, t) && |t.runs| == |s.runs| && t.runs[r].eventId == s.runs[r].eventId
    ensures OfLiveEvent(t, r)
  {
    assert Settings(t.events[s.runs[r].eventId]) == Settings(s.events[s.runs[r].eventId]);
  }

  lemma SettingsThrough(s: State, t: State, u: State)
    requires SameSettings(s, t) && SameSettings(t, u)
    ensures SameSettings(s, u)
  {
  }

  lemma {:induction false} ListSettles(s: State, ids: seq<nat>, now: int, env: nat -> Env, r: nat)
    requires Inv(s, now) && OfLiveEvent(s, r)
    requires forall i, j :: 0 <= i < j < |ids| ==> ids[i] != ids[j]
    ensures var t := ProcessList(s, ids, now, env);
            && Inv(t, now) && SameSettings(s, t) && |t.runs| == |s.runs|
            && (r !in ids ==> t.runs[r] == s.runs[r])
            && (r in ids ==> !Overdue(t.runs[r], now))
            && t.runs[r].eventId == s.runs[r].eventId
  {
    if ids != [] {
      var before, q := ids[..|ids| - 1], ids[|ids| - 1];
      ListSettles(s, before, now, env, r);
      var t := ProcessList(s, before, now, env);
      assert ids == before + [q] && q !in before;
      hide WholeTurn, Inv, OfLiveEvent, Overdue, SameSettings;
      LiveThroughout(s, t, r);
      TurnStep(t, q, now, env(q), r);
      SettingsThrough(s, t, WholeTurn(t, q, now, env(q)));
    }
  }

  lemma {:induction false} OpenIdsExact(runs: seq<Run>, n: nat)
    requires n <= |runs|
    ensures forall r :: r in OpenIds(runs, n) <==> 0 <= r < n && Open(runs[r].status)
    ensures forall i, j :: 0 <= i < j < |OpenIds(runs, n)| ==> OpenIds(runs, n)[i] < OpenIds(runs, n)[j]
  {
    if n > 0 {
      OpenIdsExact(runs, n - 1);
      var ids := OpenIds(runs, n - 1);
      assert forall i :: 0 <= i < |ids| ==> ids[i] in ids;
    }
  }

  lemma {:induction false} WaitingIdsExact(runs: seq<Run>, n: nat)
    requires n <= |runs|
    ensures forall r :: r in WaitingIds(runs, n) <==> 0 <= r < n && runs[r].status in {Pending, WaitingForDisk}
    ensures forall i, j :: 0 <= i < j < |WaitingIds(runs, n)| ==> WaitingIds(runs, n)[i] < WaitingIds(runs, n)[j]
  {
    if n > 0 {
      WaitingIdsExact(runs, n - 1);
      var ids := WaitingIds(runs, n - 1);
      assert forall i :: 0 <= i < |ids| ==> ids[i] in ids;
    }
  }

  /** After a tick no run of a live event whose window is over is still waiting for a disk never seen. */
  lemma TickSettlesExpired(s: State, clock: int, now: int, env: nat -> Env, r: nat)
    requires Inv(s, clock) && clock <= now && r < |Tick(s, now, env).runs|
    requires OfLiveEvent(Tick(s, now, env), r)
    ensures !Overdue(Tick(s, now, env).runs[r], now)
  {
    LaterClock(s, clock, now);
    CreateKeeps(s, None, now - 24 * HOUR, now + 24 * HOUR, now);
    var t := CreateDue(s, now);
    var ids := OpenIds(t.runs, |t.runs|);
    OpenIdsExact(t.runs, |t.runs|);
    hide CreateDue, OpenIds, Inv;
    LiveBefore(t, ids, now, env, r);
    ListSettles(t, ids, now, env, r);
  }

  /** The same for a tick after any timed sequence of steps. */
  lemma EngineTicksSettle(ops: seq<Op>, from: int, legacy: bool, now: int, env: nat -> Env, r: nat)
    requires Timed(ops, from) && EndOf(ops, from) <= now
    ensures var t := Tick(RunOps(Initial(legacy), ops), now, env);
            r < |t.runs| && OfLiveEvent(t, r) ==> !Overdue(t.runs[r], now)
  {
    AlwaysInv(ops, from, legacy);
    var s := RunOps(Initial(legacy), ops);
    hide RunOps, Inv, Overdue;
    if r < |Tick(s, now, env).runs| && OfLiveEvent(Tick(s, now, env), r) {
      TickSettlesExpired(s, EndOf(ops, from), now, env, r);
    }
  }

  lemma {:induction false} LiveBefore(s: State, ids: seq<nat>, now: int, env: nat -> Env, r: nat)
    requires Inv(s, now) && r < |s.runs|
    ensures var t := ProcessList(s, ids, now, env);
            && Inv(t, now) && SameSettings(s, t) && |t.runs| == |s.runs| && t.runs[r].eventId == s.runs[r].eventId
            && (OfLiveEvent(t, r) ==> OfLiveEvent(s, r))
  {
    if ids != [] {
      var before, q := ids[..|ids| - 1], ids[|ids| - 1];
      LiveBefore(s, before, now, env, r);
      var t := ProcessList(s, before, now, env);
      WholeTurnKeeps(t, q, now, env(q));
      WholeTurnTouches(t, q, now, env(q));
      assert MayBecome(t.runs[r], WholeTurn(t, q, now, env(q)).runs[r]);
      hide WholeTurn, Turn, Inv;
    }
    var t := ProcessList(s, ids, now, env);
    var e := s.runs[r].eventId;
    assert e < |s.events| ==> Settings(t.events[e]) == Settings(s.events[e]);
  }
}
