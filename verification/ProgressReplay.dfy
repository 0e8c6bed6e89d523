/** Folding parsed log lines into the progress columns of an external backup run. */
module ProgressReplay {
  import opened Wrappers

  /** The columns where the last line that says something wins. */
  datatype Fields = Fields(
    progressPercent: Option<real>, totalGroups: Option<int>, completedGroups: Option<int>,
    currentGroup: Option<string>, currentSnapshot: Option<string>, currentArchive: Option<string>,
    downloadedBytes: Option<int>, currentSpeed: Option<string>,
    pbsSyncJobId: Option<string>, pbsRemoteId: Option<string>, pbsTaskUpid: Option<string>)

  const NOTHING: Fields := Fields(None, None, None, None, None, None, None, None, None, None, None)

  datatype FailedGroup = FailedGroup(group: string, reason: string)

  /** One parsed line. */
  datatype Update = Update(fields: Fields, warnings: seq<string>, failedGroups: seq<FailedGroup>,
                           taskOk: bool, taskError: bool, partialFailure: bool)
  {
    predicate HasProgress() {
      || fields.progressPercent.Some? || fields.totalGroups.Some? || fields.completedGroups.Some?
      || fields.currentGroup.Some? || fields.currentSnapshot.Some? || fields.currentArchive.Some?
      || fields.downloadedBytes.Some?
    }

    predicate Moves() {
      HasProgress() || taskOk || taskError || partialFailure
    }
  }

  datatype Progress = Progress(fields: Fields, warnings: seq<string>, failedGroups: seq<FailedGroup>,
                               lastProgressAt: Option<int>, elapsedSeconds: Option<int>, message: Option<string>)

  const SECOND: int := 1_000_000

  function Later<T>(before: Option<T>, after: Option<T>): Option<T> {
    if after.Some? then after else before
  }

  function Overlay(a: Fields, b: Fields): Fields {
    Fields(
      Later(a.progressPercent, b.progressPercent), Later(a.totalGroups, b.totalGroups),
      Later(a.completedGroups, b.completedGroups), Later(a.currentGroup, b.currentGroup),
      Later(a.currentSnapshot, b.currentSnapshot), Later(a.currentArchive, b.currentArchive),
      Later(a.downloadedBytes, b.downloadedBytes), Later(a.currentSpeed, b.currentSpeed),
      Later(a.pbsSyncJobId, b.pbsSyncJobId), Later(a.pbsRemoteId, b.pbsRemoteId),
      Later(a.pbsTaskUpid, b.pbsTaskUpid))
  }

  function AppendMissing<T(==)>(known: seq<T>, items: seq<T>): seq<T> {
    if items == [] then known
    else
      var r := AppendMissing(known, items[..|items| - 1]);
      var last := items[|items| - 1];
      if last in r then r else r + [last]
  }

  /** The failed groups that have both a name and a reason. */
  function Details(groups: seq<FailedGroup>): string {
    if groups == [] then ""
    else
      var before, last := Details(groups[..|groups| - 1]), groups[|groups| - 1];
      if last.group == "" || last.reason == "" then before
      else (if before == "" then "" else before + ", ") + last.group + ": " + last.reason
  }

  /** The message of a synchronisation that finished with errors. */
  function Summary(groups: seq<FailedGroup>): string {
    if Details(groups) == "" then "Synchronisation terminee avec erreurs"
    else "Synchronisation terminee avec erreurs: " + Details(groups)
  }

  function Apply(p: Progress, u: Update, startedAt: int, now: int): Progress {
    var elapsed := (now - startedAt) / SECOND;
    var failed := AppendMissing(p.failedGroups, u.failedGroups);
    Progress(
      Overlay(p.fields, u.fields),
      AppendMissing(p.warnings, u.warnings),
      failed,
      if u.Moves() then Some(now) else p.lastProgressAt,
      if u.Moves() then Some(if elapsed > 0 then elapsed else 0) else p.elapsedSeconds,
      if u.partialFailure then Some(Summary(failed)) else p.message)
  }

  function Replay(p: Progress, log: seq<Update>, startedAt: int, now: int): Progress {
    if log == [] then p
    else Apply(Replay(p, log[..|log| - 1], startedAt, now), log[|log| - 1], startedAt, now)
  }

  class BackupRunProgress {
    const startedAt: int
    var fields: Fields
    var warningMessages: seq<string>
    var failedGroups: seq<FailedGroup>
    var lastProgressAt: Option<int>
    var elapsedSeconds: Option<int>
    var progressMessage: Option<string>

    constructor (startedAt: int)
      ensures this.startedAt == startedAt
      ensures Snapshot() == Progress(NOTHING, [], [], None, None, None)
    {
      this.startedAt := startedAt;
      fields := NOTHING;
      warningMessages, failedGroups := [], [];
      lastProgressAt, elapsedSeconds, progressMessage := None, None, None;
    }

    function Snapshot(): Progress
      reads this
    {
      Progress(fields, warningMessages, failedGroups, lastProgressAt, elapsedSeconds, progressMessage)
    }

    method AddWarnings(warnings: seq<string>)
      modifies `warningMessages
      ensures warningMessages == AppendMissing(old(warningMessages), warnings)
    {
      if warnings != [] {
        var existing := warningMessages;
        for i := 0 to |warnings|
          invariant existing == AppendMissing(old(warningMessages), warnings[..i])
        {
          assert warnings[..i + 1][..i] == warnings[..i];
          if warnings[i] !in existing {
            existing := existing + [warnings[i]];
          }
        }
        assert warnings[..|warnings|] == warnings;
        warningMessages := existing;
      }
    }

    method AddFailedGroups(groups: seq<FailedGroup>)
      modifies `failedGroups
      ensures failedGroups == AppendMissing(old(failedGroups), groups)
    {
      if groups != [] {
        var existing, seen := failedGroups, set f | f in failedGroups;
        for i := 0 to |groups|
          invariant existing == AppendMissing(old(failedGroups), groups[..i])
          invariant seen == set f | f in existing
        {
          assert groups[..i + 1][..i] == groups[..i];
          if groups[i] !in seen {
            existing, seen := existing + [groups[i]], seen + {groups[i]};
          }
        }
        assert groups[..|groups|] == groups;
        failedGroups := existing;
      }
    }

    method ApplyProgressLine(update: Update, now: int)
      modifies this
      ensures Snapshot() == Apply(old(Snapshot()), update, startedAt, now)
    {
      fields := Overlay(fields, update.fields);
      if update.Moves() {
        lastProgressAt := Some(now);
        var elapsed := (now - startedAt) / SECOND;
        elapsedSeconds := Some(if elapsed > 0 then elapsed else 0);
      }
      AddWarnings(update.warnings);
      AddFailedGroups(update.failedGroups);
      if update.partialFailure {
        progressMessage := Some(Summary(failedGroups));
      }
    }

    method ApplyProgressText(log: seq<Update>, now: int)
      modifies this
      ensures Snapshot() == Replay(old(Snapshot()), log, startedAt, now)
    {
      for i := 0 to |log|
        invariant Snapshot() == Replay(old(Snapshot()), log[..i], startedAt, now)
      {
        assert log[..i + 1][..i] == log[..i];
        ApplyProgressLine(log[i], now);
      }
      assert log[..|log|] == log;
    }
  }

  ghost predicate NoDuplicates<T(!new)>(s: seq<T>) {
    forall i, j :: 0 <= i < j < |s| ==> s[i] != s[j]
  }

  /** Appending keeps the known prefix, adds exactly what was missing, and creates no duplicate. */
  lemma {:induction false} AppendMissingIsUnion<T(!new)>(known: seq<T>, items: seq<T>)
    ensures known <= AppendMissing(known, items)
    ensures forall x :: x in AppendMissing(known, items) <==> x in known || x in items
    ensures NoDuplicates(known) ==> NoDuplicates(AppendMissing(known, items))
  {
    if items != [] {
      var rest := items[..|items| - 1];
      AppendMissingIsUnion(known, rest);
      assert items == rest + [items[|items| - 1]];
    }
  }

  lemma {:induction false} NothingMissing<T(!new)>(known: seq<T>, items: seq<T>)
    requires forall x :: x in items ==> x in known
    ensures AppendMissing(known, items) == known
  {
    if items != [] {
      NothingMissing(known, items[..|items| - 1]);
    }
  }

  /** The run has already taken in everything a line lists. */
  ghost predicate HoldsLists(p: Progress, u: Update) {
    && (forall w :: w in u.warnings ==> w in p.warnings)
    && (forall f :: f in u.failedGroups ==> f in p.failedGroups)
  }

  /** Lists only grow: old entries keep their place, nothing listed is lost, nothing is listed twice. */
  lemma {:induction false} ReplayGrowsLists(p: Progress, log: seq<Update>, startedAt: int, now: int)
    ensures var q := Replay(p, log, startedAt, now);
            && p.warnings <= q.warnings && p.failedGroups <= q.failedGroups
            && (forall i :: 0 <= i < |log| ==> HoldsLists(q, log[i]))
            && (forall w :: w in q.warnings ==> w in p.warnings || exists i :: 0 <= i < |log| && w in log[i].warnings)
            && (forall f :: f in q.failedGroups ==>
                  f in p.failedGroups || exists i :: 0 <= i < |log| && f in log[i].failedGroups)
            && (NoDuplicates(p.warnings) ==> NoDuplicates(q.warnings))
            && (NoDuplicates(p.failedGroups) ==> NoDuplicates(q.failedGroups))
  {
    if log != [] {
      var before, last := log[..|log| - 1], log[|log| - 1];
      ReplayGrowsLists(p, before, startedAt, now);
      var mid := Replay(p, before, startedAt, now);
      AppendMissingIsUnion(mid.warnings, last.warnings);
      AppendMissingIsUnion(mid.failedGroups, last.failedGroups);
      forall i | 0 <= i < |log| ensures HoldsLists(Replay(p, log, startedAt, now), log[i]) {
        if i < |before| {
          assert HoldsLists(mid, before[i]);
        }
      }
    }
  }

  lemma {:induction false} HeldListsStay(p: Progress, log: seq<Update>, startedAt: int, now: int)
    requires forall i :: 0 <= i < |log| ==> HoldsLists(p, log[i])
    ensures Replay(p, log, startedAt, now).warnings == p.warnings
    ensures Replay(p, log, startedAt, now).failedGroups == p.failedGroups
  {
    if log != [] {
      var last := log[|log| - 1];
      HeldListsStay(p, log[..|log| - 1], startedAt, now);
      NothingMissing(p.warnings, last.warnings);
      NothingMissing(p.failedGroups, last.failedGroups);
    }
  }

  /** Line `i` is the last one that gives a value for the column. */
  ghost predicate LastValue<T>(log: seq<Update>, column: Fields -> Option<T>, i: nat) {
    && i < |log| && column(log[i].fields).Some?
    && forall j :: i < j < |log| ==> column(log[j].fields).None?
  }

  /** The column holds what the last line with a value for it says, and what it held before if there is none. */
  ghost predicate ColumnReplayed<T>(p: Progress, log: seq<Update>, q: Progress, column: Fields -> Option<T>) {
    && (forall i: nat :: LastValue(log, column, i) ==> column(q.fields) == column(log[i].fields))
    && ((forall i :: 0 <= i < |log| ==> column(log[i].fields).None?) ==> column(q.fields) == column(p.fields))
  }

  /** One line writes the column if it has a value for it. */
  ghost predicate Writes<T>(column: Fields -> Option<T>) {
    forall p: Progress, u: Update, startedAt: int, now: int ::
      column(Apply(p, u, startedAt, now).fields)
      == if column(u.fields).Some? then column(u.fields) else column(p.fields)
  }

  lemma {:induction false} ColumnReplays<T>(p: Progress, log: seq<Update>, startedAt: int, now: int,
                                            column: Fields -> Option<T>)
    requires Writes(column)
    ensures ColumnReplayed(p, log, Replay(p, log, startedAt, now), column)
  {
    if log != [] {
      var before, last := log[..|log| - 1], log[|log| - 1];
      ColumnReplays(p, before, startedAt, now, column);
      var mid := Replay(p, before, startedAt, now);
      ColumnStep(p, before, mid, last, Apply(mid, last, startedAt, now), column);
      assert before + [last] == log;
      hide Apply, Writes, ColumnReplayed;
    }
  }

  lemma ColumnStep<T>(p: Progress, before: seq<Update>, mid: Progress, last: Update, q: Progress,
                      column: Fields -> Option<T>)
    requires ColumnReplayed(p, before, mid, column)
    requires column(q.fields) == if column(last.fields).Some? then column(last.fields) else column(mid.fields)
    ensures ColumnReplayed(p, before + [last], q, column)
  {
    var log := before + [last];
    assert forall i :: 0 <= i < |before| ==> log[i] == before[i];
    forall i: nat | LastValue(log, column, i) ensures column(q.fields) == column(log[i].fields) {
      if i < |before| {
        assert column(log[|before|].fields).None?;
        assert LastValue(before, column, i);
      }
    }
    if forall i :: 0 <= i < |log| ==> column(log[i].fields).None? {
      assert column(log[|before|].fields).None?;
    }
  }

  /** In each column the last line that says something wins, whatever the others say. */
  lemma ReplayColumns(p: Progress, log: seq<Update>, startedAt: int, now: int)
    ensures ColumnReplayed(p, log, Replay(p, log, startedAt, now), (f: Fields) => f.progressPercent)
    ensures ColumnReplayed(p, log, Replay(p, log, startedAt, now), (f: Fields) => f.totalGroups)
    ensures ColumnReplayed(p, log, Replay(p, log, startedAt, now), (f: Fields) => f.completedGroups)
    ensures ColumnReplayed(p, log, Replay(p, log, startedAt, now), (f: Fields) => f.currentGroup)
    ensures ColumnReplayed(p, log, Replay(p, log, startedAt, now), (f: Fields) => f.currentSnapshot)
    ensures ColumnReplayed(p, log, Replay(p, log, startedAt, now), (f: Fields) => f.currentArchive)
    ensures ColumnReplayed(p, log, Replay(p, log, startedAt, now), (f: Fields) => f.downloadedBytes)
    ensures ColumnReplayed(p, log, Replay(p, log, startedAt, now), (f: Fields) => f.currentSpeed)
    ensures ColumnReplayed(p, log, Replay(p, log, startedAt, now), (f: Fields) => f.pbsSyncJobId)
    ensures ColumnReplayed(p, log, Replay(p, log, startedAt, now), (f: Fields) => f.pbsRemoteId)
    ensures ColumnReplayed(p, log, Replay(p, log, startedAt, now), (f: Fields) => f.pbsTaskUpid)
  {
    ColumnReplays(p, log, startedAt, now, (f: Fields) => f.progressPercent);
    ColumnReplays(p, log, startedAt, now, (f: Fields) => f.totalGroups);
    ColumnReplays(p, log, startedAt, now, (f: Fields) => f.completedGroups);
    ColumnReplays(p, log, startedAt, now, (f: Fields) => f.currentGroup);
    ColumnReplays(p, log, startedAt, now, (f: Fields) => f.currentSnapshot);
    ColumnReplays(p, log, startedAt, now, (f: Fields) => f.currentArchive);
    ColumnReplays(p, log, startedAt, now, (f: Fields) => f.downloadedBytes);
    ColumnReplays(p, log, startedAt, now, (f: Fields) => f.currentSpeed);
    ColumnReplays(p, log, startedAt, now, (f: Fields) => f.pbsSyncJobId);
    ColumnReplays(p, log, startedAt, now, (f: Fields) => f.pbsRemoteId);
    ColumnReplays(p, log, startedAt, now, (f: Fields) => f.pbsTaskUpid);
    hide *;
  }

  /** The last-writer columns of a whole log, taken alone. */
  ghost function LogFields(log: seq<Update>): Fields {
    if log == [] then NOTHING
    else Overlay(LogFields(log[..|log| - 1]), log[|log| - 1].fields)
  }

  lemma {:induction false} ReplayFields(p: Progress, log: seq<Update>, startedAt: int, now: int)
    ensures Replay(p, log, startedAt, now).fields == Overlay(p.fields, LogFields(log))
  {
    if log != [] {
      ReplayFields(p, log[..|log| - 1], startedAt, now);
    }
  }

  ghost predicate HasPartialFailure(log: seq<Update>) {
    exists i :: 0 <= i < |log| && log[i].partialFailure
  }

  /** The line says how far the synchronisation is, or how it ended; speed and identifiers alone do not count. */
  predicate ReportsProgress(u: Update) {
    || u.taskOk || u.taskError || u.partialFailure
    || u.fields.progressPercent != None || u.fields.totalGroups != None || u.fields.completedGroups != None
    || u.fields.currentGroup != None || u.fields.currentSnapshot != None || u.fields.currentArchive != None
    || u.fields.downloadedBytes != None
  }

  /** Full seconds from the start to now, none if the clocks disagree. */
  predicate FullSeconds(seconds: Option<int>, startedAt: int, now: int) {
    && seconds.Some?
    && (now >= startedAt ==> 0 <= (now - startedAt) - seconds.value * 1_000_000 < 1_000_000)
    && (now < startedAt ==> seconds.value == 0)
  }

  lemma ClockStep(p: Progress, u: Update, startedAt: int, now: int)
    ensures var q := Apply(p, u, startedAt, now);
            if ReportsProgress(u) then q.lastProgressAt == Some(now) && FullSeconds(q.elapsedSeconds, startedAt, now)
            else q.lastProgressAt == p.lastProgressAt && q.elapsedSeconds == p.elapsedSeconds
  {
    hide AppendMissing, Overlay, Summary;
  }

  /** A log with such a line sets the clock columns: to the time of reading and the full seconds since the start. */
  lemma {:induction false} ReplayClocks(p: Progress, log: seq<Update>, startedAt: int, now: int)
    ensures var q := Replay(p, log, startedAt, now);
            if exists i :: 0 <= i < |log| && ReportsProgress(log[i])
            then q.lastProgressAt == Some(now) && FullSeconds(q.elapsedSeconds, startedAt, now)
            else q.lastProgressAt == p.lastProgressAt && q.elapsedSeconds == p.elapsedSeconds
  {
    if log != [] {
      var before, last := log[..|log| - 1], log[|log| - 1];
      ReplayClocks(p, before, startedAt, now);
      ClockStep(Replay(p, before, startedAt, now), last, startedAt, now);
      assert forall i :: 0 <= i < |before| ==> log[i] == before[i];
      hide Apply, ReportsProgress, FullSeconds;
    }
  }

  /** The groups that failed, each with its reason, in the order they were reported. */
  function FailureTexts(groups: seq<FailedGroup>): seq<string> {
    if groups == [] then []
    else (if groups[0].group != "" && groups[0].reason != "" then [groups[0].group + ": " + groups[0].reason] else [])
         + FailureTexts(groups[1..])
  }

  function Join(texts: seq<string>): string {
    if texts == [] then "" else if |texts| == 1 then texts[0] else texts[0] + ", " + Join(texts[1..])
  }

  lemma {:induction false} JoinLast(texts: seq<string>, last: string)
    ensures Join(texts + [last]) == if texts == [] then last else Join(texts) + ", " + last
  {
    if |texts| > 1 {
      assert (texts + [last])[1..] == texts[1..] + [last];
      JoinLast(texts[1..], last);
    } else if texts != [] {
      assert (texts + [last])[1..] == [last];
    }
  }

  lemma {:induction false} TextsLast(groups: seq<FailedGroup>, last: FailedGroup)
    ensures FailureTexts(groups + [last]) == FailureTexts(groups)
              + (if last.group != "" && last.reason != "" then [last.group + ": " + last.reason] else [])
  {
    if groups == [] {
      assert ([] + [last])[1..] == [];
    } else {
      TextsLast(groups[1..], last);
      assert (groups + [last])[1..] == groups[1..] + [last];
    }
  }

  lemma {:induction false} JoinEmpty(texts: seq<string>)
    requires forall s :: s in texts ==> s != ""
    ensures Join(texts) == "" <==> texts == []
  {
    if texts != [] {
      assert texts[0] in texts;
    }
  }

  lemma DetailsLast(groups: seq<FailedGroup>, last: FailedGroup)
    ensures var before, text := Details(groups), last.group + ": " + last.reason;
            Details(groups + [last]) == if last.group == "" || last.reason == "" then before
                                        else if before == "" then text else before + ", " + text
  {
    assert (groups + [last])[..|groups|] == groups;
    var before := Details(groups);
    assert Details(groups + [last]) ==
           if last.group == "" || last.reason == "" then before
           else (if before == "" then "" else before + ", ") + last.group + ": " + last.reason;
    hide Details;
    assert "" + last.group + ": " + last.reason == last.group + ": " + last.reason;
    assert before + ", " + last.group + ": " + last.reason == before + ", " + (last.group + ": " + last.reason);
  }

  lemma {:induction false} DetailsJoin(groups: seq<FailedGroup>)
    ensures Details(groups) == Join(FailureTexts(groups))
    ensures forall s :: s in FailureTexts(groups) ==> s != ""
  {
    if groups != [] {
      var before, last := groups[..|groups| - 1], groups[|groups| - 1];
      DetailsJoin(before);
      assert before + [last] == groups;
      TextsLast(before, last);
      DetailsLast(before, last);
      hide Details, Join, FailureTexts;
      var text := last.group + ": " + last.reason;
      assert text != "" && FailureTexts(before) + [] == FailureTexts(before);
      JoinLast(FailureTexts(before), text);
      JoinEmpty(FailureTexts(before));
    }
  }

  /** Line `i` is the last one that reports a partial failure. */
  ghost predicate LastFailure(log: seq<Update>, i: nat) {
    i < |log| && log[i].partialFailure && forall j :: i < j < |log| ==> !log[j].partialFailure
  }

  /** The message is that of the last partial failure and names the groups known to have failed by then. */
  lemma {:induction false} ReplayMessage(p: Progress, log: seq<Update>, startedAt: int, now: int)
    ensures var q := Replay(p, log, startedAt, now);
            && (forall i: nat :: LastFailure(log, i) ==>
                  var texts := FailureTexts(Replay(p, log[..i + 1], startedAt, now).failedGroups);
                  q.message == Some("Synchronisation terminee avec erreurs"
                                    + (if texts == [] then "" else ": " + Join(texts))))
            && (!HasPartialFailure(log) ==> q.message == p.message)
  {
    if log != [] {
      var before, last := log[..|log| - 1], log[|log| - 1];
      ReplayMessage(p, before, startedAt, now);
      assert forall i :: 0 <= i < |before| ==> log[i] == before[i];
      var q := Replay(p, log, startedAt, now);
      forall i: nat | LastFailure(log, i)
        ensures var texts := FailureTexts(Replay(p, log[..i + 1], startedAt, now).failedGroups);
                q.message == Some("Synchronisation terminee avec erreurs"
                                  + (if texts == [] then "" else ": " + Join(texts)))
      {
        if i < |before| {
          assert !log[|before|].partialFailure;
          assert before[..i + 1] == log[..i + 1];
          assert LastFailure(before, i);
        } else {
          assert log[..i + 1] == log;
          SummaryJoins(q.failedGroups);
        }
      }
      hide Summary, AppendMissing, Overlay, Join, FailureTexts;
    }
  }

  lemma Appended(a: string, b: string, c: string)
    ensures a + b + c == a + (b + c)
  {
  }

  lemma SummaryText(groups: seq<FailedGroup>)
    ensures Summary(groups) == if Details(groups) == "" then "Synchronisation terminee avec erreurs"
                               else "Synchronisation terminee avec erreurs" + ": " + Details(groups)
  {
    assert "Synchronisation terminee avec erreurs: " == "Synchronisation terminee avec erreurs" + ": ";
    hide Details;
  }

  lemma SummaryJoins(groups: seq<FailedGroup>)
    ensures var texts := FailureTexts(groups);
            Summary(groups) == "Synchronisation terminee avec erreurs"
                               + (if texts == [] then "" else ": " + Join(texts))
  {
    var texts := FailureTexts(groups);
    hide *;
    DetailsJoin(groups);
    JoinEmpty(texts);
    SummaryText(groups);
    Appended("Synchronisation terminee avec erreurs", ": ", Join(texts));
  }

  /**
   Replaying a log that has been absorbed changes no list, whatever came in between, and no
   last-writer column when nothing did, even if the replay happens at another time.
   */
  lemma ReplayIsIdempotent(p: Progress, log: seq<Update>, more: seq<Update>, startedAt: int, t0: int, t1: int, t2: int)
    ensures var once := Replay(p, log, startedAt, t0);
            && Replay(once, log, startedAt, t2).(lastProgressAt := None, elapsedSeconds := None, message := None)
               == once.(lastProgressAt := None, elapsedSeconds := None, message := None)
            && var later := Replay(once, more, startedAt, t1);
               && Replay(later, log, startedAt, t2).warnings == later.warnings
               && Replay(later, log, startedAt, t2).failedGroups == later.failedGroups
  {
    var once := Replay(p, log, startedAt, t0);
    var later := Replay(once, more, startedAt, t1);
    ReplayGrowsLists(p, log, startedAt, t0);
    ReplayGrowsLists(once, more, startedAt, t1);
    HeldListsStay(once, log, startedAt, t2);
    forall i | 0 <= i < |log| ensures HoldsLists(later, log[i]) {
      assert HoldsLists(once, log[i]);
    }
    HeldListsStay(later, log, startedAt, t2);
    ReplayFields(p, log, startedAt, t0);
    ReplayFields(once, log, startedAt, t2);
  }

  lemma {:induction false} ReplayedMessage(p: Progress, log: seq<Update>, startedAt: int, now: int)
    requires forall i :: 0 <= i < |log| ==> HoldsLists(p, log[i])
    ensures Replay(p, log, startedAt, now).message
         == if HasPartialFailure(log) then Some(Summary(p.failedGroups)) else p.message
  {
    if log != [] {
      var before, last := log[..|log| - 1], log[|log| - 1];
      ReplayedMessage(p, before, startedAt, now);
      HeldListsStay(p, before, startedAt, now);
      NothingMissing(p.failedGroups, last.failedGroups);
      assert forall i :: 0 <= i < |before| ==> log[i] == before[i];
      hide Summary;
    }
  }

  /**
   The message of a partial failure is the one column a replay can change: it stays exactly when no line reports
   such a failure, or when it already lists every group the run knows to have failed.
   */
  lemma ReplayKeepsMessageIff(p: Progress, log: seq<Update>, startedAt: int, t0: int, t2: int)
    ensures var once := Replay(p, log, startedAt, t0);
            Replay(once, log, startedAt, t2).message == once.message <==>
              !HasPartialFailure(log) || once.message == Some(Summary(once.failedGroups))
  {
    ReplayGrowsLists(p, log, startedAt, t0);
    ReplayedMessage(Replay(p, log, startedAt, t0), log, startedAt, t2);
  }

  /** A run without progress reports a partial failure, and only then the group that failed. */
  const LATE_GROUP: seq<Update> := [
    Update(NOTHING, [], [], false, false, true),
    Update(NOTHING, [], [FailedGroup("vm/1", "x")], false, false, false)]

  lemma SummaryOfOne()
    ensures Summary([FailedGroup("vm/1", "x")]) == "Synchronisation terminee avec erreurs: vm/1: x"
  {
    var group := FailedGroup("vm/1", "x");
    assert [group][..0] == [];
    assert Details([group]) == group.group + ": " + group.reason;
    assert group.group + ": " + group.reason == "vm/1: x";
    hide Details;
    assert "Synchronisation terminee avec erreurs: " + "vm/1: x" == "Synchronisation terminee avec erreurs: vm/1: x";
  }

  /** Read again, such a log changes the message: the second time the group is known. */
  lemma ReplayChangesMessage()
    ensures var once := Replay(Progress(NOTHING, [], [], None, None, None), LATE_GROUP, 0, 0);
            && once.message == Some("Synchronisation terminee avec erreurs")
            && Replay(once, LATE_GROUP, 0, 0).message == Some("Synchronisation terminee avec erreurs: vm/1: x")
  {
    var p, log := Progress(NOTHING, [], [], None, None, None), LATE_GROUP;
    assert log[..1][..0] == [] && log[..1] == [log[0]] && log[..2] == log;
    var failed := Apply(p, log[0], 0, 0);
    assert Replay(p, log[..1], 0, 0) == failed;
    var once := Apply(failed, log[1], 0, 0);
    assert Replay(p, log, 0, 0) == once;
    assert log[1].failedGroups[..0] == [] && once.failedGroups == [FailedGroup("vm/1", "x")];
    assert failed.message == Some(Summary([]));
    hide Apply;
    ReplayGrowsLists(p, log, 0, 0);
    ReplayedMessage(once, log, 0, 0);
    SummaryOfOne();
    assert log[0].partialFailure;
    hide Replay;
  }
}
