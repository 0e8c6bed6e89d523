/** Expansion of a scheduled event's recurrence into the occurrences of a time range. */
module Recurrence {
  import opened Wrappers
  import opened Calendar

  datatype Kind = Once | Daily | Weekly | Monthly

  datatype Schedule = Schedule(kind: Kind, start: DateTime, deleted: bool)

  function Min(a: int, b: int): int {
    if a <= b then a else b
  }

  /** The k-th monthly occurrence: k months on, the original day cut down to the month's length. */
  function MonthlyDate(start: DateTime, k: nat): DateTime {
    var i := MonthIndex(start.date) + k;
    DateTime(Date(i / 12, i % 12 + 1, Min(start.date.day, LengthOf(i))), start.time)
  }

  function Occurrence(s: Schedule, k: nat): int {
    match s.kind
    case Once => s.start.Instant()
    case Daily => s.start.Instant() + k * DAY
    case Weekly => s.start.Instant() + k * (7 * DAY)
    case Monthly => MonthlyDate(s.start, k).Instant()
  }

  /** `t` is an occurrence of the schedule; a one-off event has only its start. */
  ghost predicate IsOccurrence(s: Schedule, t: int) {
    exists k: nat :: (s.kind.Once? ==> k == 0) && Occurrence(s, k) == t
  }

  lemma MonthlyStart(start: DateTime)
    ensures MonthlyDate(start, 0) == start
  {
    var i, d := MonthIndex(start.date), start.date;
    assert i / 12 == d.year && i % 12 == d.month - 1;
  }

  lemma MonthlyOrdinal(start: DateTime, k: nat)
    ensures var i := MonthIndex(start.date) + k;
            MonthlyDate(start, k).date.Ordinal() == FirstOf(i).Ordinal() + Min(start.date.day, LengthOf(i)) - 1
  {
    OrdinalInMonth(MonthlyDate(start, k).date);
  }

  lemma MonthlyDayGap(start: DateTime, k: nat)
    ensures var days := MonthlyDate(start, k + 1).date.Ordinal() - MonthlyDate(start, k).date.Ordinal();
            28 <= days <= 31
  {
    hide *;
    var i := MonthIndex(start.date) + k;
    MonthlyOrdinal(start, k);
    MonthlyOrdinal(start, k + 1);
    NextMonthStart(i);
    ClampedGap(start, i);
  }

  lemma ClampedGap(start: DateTime, i: int)
    ensures 28 <= LengthOf(i) - Min(start.date.day, LengthOf(i)) + Min(start.date.day, LengthOf(i + 1)) <= 31
  {
    ShortMonths(i);
  }

  /** No two consecutive months are both shorter than 31 days. */
  lemma ShortMonths(i: int)
    ensures LengthOf(i) < 31 ==> LengthOf(i + 1) == 31
  {
    if i % 12 == 11 {
      assert (i + 1) % 12 == 0;
    } else {
      assert (i + 1) % 12 == i % 12 + 1;
    }
  }

  /** Consecutive monthly occurrences are 28 to 31 days apart: clamping neither drifts nor skips a month. */
  lemma MonthlyGap(start: DateTime, k: nat)
    ensures var gap := MonthlyDate(start, k + 1).Instant() - MonthlyDate(start, k).Instant();
            28 * DAY <= gap <= 31 * DAY && gap % DAY == 0
  {
    MonthlyDayGap(start, k);
    hide RawDate.Ordinal, MonthLength;
    var days := MonthlyDate(start, k + 1).date.Ordinal() - MonthlyDate(start, k).date.Ordinal();
    assert MonthlyDate(start, k + 1).Instant() - MonthlyDate(start, k).Instant() == days * DAY;
  }

  lemma Gap(s: Schedule, k: nat)
    requires !s.kind.Once?
    ensures DAY <= Occurrence(s, k + 1) - Occurrence(s, k) <= 31 * DAY
  {
    if s.kind.Monthly? {
      MonthlyGap(s.start, k);
    }
  }

  lemma {:induction false} Increasing(s: Schedule, i: nat, j: nat)
    requires !s.kind.Once? && i < j
    ensures Occurrence(s, i) + DAY <= Occurrence(s, j)
    decreases j - i
  {
    hide Occurrence;
    Gap(s, i);
    if i + 1 < j {
      Increasing(s, i + 1, j);
    }
  }

  /** The least index from `k` on whose occurrence is not before `lo`. */
  function FirstFrom(s: Schedule, k: nat, lo: int): nat
    requires !s.kind.Once?
    decreases lo - Occurrence(s, k)
  {
    if Occurrence(s, k) >= lo then k else
      Gap(s, k);
      FirstFrom(s, k + 1, lo)
  }

  lemma {:induction false} FirstFromIsLeast(s: Schedule, k: nat, lo: int)
    requires !s.kind.Once?
    ensures var n := FirstFrom(s, k, lo);
            k <= n && Occurrence(s, n) >= lo && (k < n ==> Occurrence(s, n - 1) < lo)
    decreases lo - Occurrence(s, k)
  {
    hide Occurrence;
    if Occurrence(s, k) < lo {
      Gap(s, k);
      FirstFromIsLeast(s, k + 1, lo);
    }
  }

  /** The occurrences from index `k` on that are not after `hi`. */
  function Collect(s: Schedule, k: nat, hi: int): (r: seq<int>)
    requires !s.kind.Once?
    ensures forall i :: 0 <= i < |r| ==> r[i] == Occurrence(s, k + i) && r[i] <= hi
    ensures Occurrence(s, k + |r|) > hi
    decreases hi - Occurrence(s, k)
  {
    if Occurrence(s, k) > hi then [] else
      Gap(s, k);
      [Occurrence(s, k)] + Collect(s, k + 1, hi)
  }

  /** Appending the next occurrence in range keeps what is left to collect in step. */
  lemma CollectStep(s: Schedule, k: nat, hi: int, done: seq<int>)
    requires !s.kind.Once?
    ensures if Occurrence(s, k) <= hi
            then done + Collect(s, k, hi) == done + [Occurrence(s, k)] + Collect(s, k + 1, hi)
            else done + Collect(s, k, hi) == done
  {
    hide Occurrence;
  }

  /** Reference expansion: skip to the first index in range, then collect. */
  function Expand(s: Schedule, lo: int, hi: int): seq<int> {
    if s.deleted then []
    else if s.kind.Once? then (if lo <= s.start.Instant() <= hi then [s.start.Instant()] else [])
    else Collect(s, FirstFrom(s, 0, lo), hi)
  }

  ghost predicate StrictlyIncreasing(r: seq<int>) {
    forall i, j :: 0 <= i < j < |r| ==> r[i] < r[j]
  }

  /**
   When an event takes place, by the calendar alone: a fixed number of days after its start, or in a month from that
   of its start on, at the same time of day, on the same day or the last of a shorter month.
   */
  ghost predicate OnSchedule(s: Schedule, t: int) {
    var start := s.start.Instant();
    match s.kind
    case Once => t == start
    case Daily => start <= t && (t - start) % DAY == 0
    case Weekly => start <= t && (t - start) % (7 * DAY) == 0
    case Monthly => exists d: DateTime :: d.Instant() == t && MonthlyOn(s.start, d)
  }

  predicate MonthlyOn(start: DateTime, d: DateTime) {
    && d.time == start.time
    && (start.date.year < d.date.year || (start.date.year == d.date.year && start.date.month <= d.date.month))
    && d.date.day == (if start.date.day <= MonthLength(d.date.year, d.date.month) then start.date.day
                      else MonthLength(d.date.year, d.date.month))
  }

  lemma MonthlyDatesAre(start: DateTime, k: nat)
    ensures MonthlyOn(start, MonthlyDate(start, k))
  {
    var i := MonthIndex(start.date) + k;
    assert MonthIndex(MonthlyDate(start, k).date) == i;
    hide MonthLength;
  }

  /** Months are counted from the start's on. */
  lemma MonthlyDatesReach(start: DateTime, d: DateTime) returns (k: nat)
    requires MonthlyOn(start, d)
    ensures MonthlyDate(start, k) == d
  {
    k := MonthIndex(d.date) - MonthIndex(start.date);
    var i := MonthIndex(d.date);
    assert i / 12 == d.date.year && i % 12 == d.date.month - 1;
    hide MonthLength;
  }

  lemma MonthlyExact(s: Schedule, t: int)
    requires s.kind.Monthly?
    ensures IsOccurrence(s, t) <==> OnSchedule(s, t)
  {
    hide RawDateTime.Instant, MonthlyDate, MonthlyOn;
    if IsOccurrence(s, t) {
      var k: nat :| Occurrence(s, k) == t;
      MonthlyDatesAre(s.start, k);
      assert MonthlyDate(s.start, k).Instant() == t;
    }
    if OnSchedule(s, t) {
      var d: DateTime :| d.Instant() == t && MonthlyOn(s.start, d);
      var k := MonthlyDatesReach(s.start, d);
      assert Occurrence(s, k) == t;
    }
  }

  lemma DailyExact(s: Schedule, t: int)
    requires s.kind.Daily?
    ensures IsOccurrence(s, t) <==> OnSchedule(s, t)
  {
    hide RawDateTime.Instant, MonthlyDate;
    if IsOccurrence(s, t) {
      var k: nat :| Occurrence(s, k) == t;
      assert t - s.start.Instant() == k * DAY;
    }
    if OnSchedule(s, t) {
      var k: nat := (t - s.start.Instant()) / DAY;
      assert Occurrence(s, k) == t;
    }
  }

  lemma WeeklyExact(s: Schedule, t: int)
    requires s.kind.Weekly?
    ensures IsOccurrence(s, t) <==> OnSchedule(s, t)
  {
    hide RawDateTime.Instant, MonthlyDate;
    if IsOccurrence(s, t) {
      var k: nat :| Occurrence(s, k) == t;
      assert t - s.start.Instant() == k * (7 * DAY);
    }
    if OnSchedule(s, t) {
      var k: nat := (t - s.start.Instant()) / (7 * DAY);
      assert Occurrence(s, k) == t;
    }
  }

  /** The occurrences are the moments the calendar gives. */
  lemma OccurrencesOnSchedule(s: Schedule, t: int)
    ensures IsOccurrence(s, t) <==> OnSchedule(s, t)
  {
    match s.kind {
      case Once => assert IsOccurrence(s, t) <==> Occurrence(s, 0) == t;
      case Daily => DailyExact(s, t);
      case Weekly => WeeklyExact(s, t);
      case Monthly => MonthlyExact(s, t);
    }
  }

  lemma CollectExact(s: Schedule, lo: int, hi: int)
    requires !s.kind.Once?
    ensures forall t :: t in Collect(s, FirstFrom(s, 0, lo), hi) <==> lo <= t <= hi && IsOccurrence(s, t)
    ensures StrictlyIncreasing(Collect(s, FirstFrom(s, 0, lo), hi))
  {
    hide Occurrence;
    var first := FirstFrom(s, 0, lo);
    FirstFromIsLeast(s, 0, lo);
    var r := Collect(s, first, hi);
    forall i, j | 0 <= i < j < |r| ensures r[i] < r[j] {
      Increasing(s, first + i, first + j);
    }
    forall t | lo <= t <= hi && IsOccurrence(s, t) ensures t in r {
      var k: nat :| Occurrence(s, k) == t;
      if k < first - 1 { Increasing(s, k, first - 1); }
      if first + |r| < k { Increasing(s, first + |r|, k); }
      assert r[k - first] == t;
    }
    forall t | t in r ensures lo <= t <= hi && IsOccurrence(s, t) {
      var i :| 0 <= i < |r| && r[i] == t;
      if 0 < i { Increasing(s, first, first + i); }
    }
  }

  /** The expansion holds exactly the occurrences in the closed range, in strictly increasing order. */
  lemma ExpandExact(s: Schedule, lo: int, hi: int)
    ensures forall t :: t in Expand(s, lo, hi) <==> !s.deleted && lo <= t <= hi && IsOccurrence(s, t)
    ensures StrictlyIncreasing(Expand(s, lo, hi))
  {
    if s.kind.Once? {
      assert Occurrence(s, 0) == s.start.Instant();
    } else {
      CollectExact(s, lo, hi);
    }
  }

  /** The expansion holds exactly the moments in the closed range that the calendar gives. */
  lemma ExpandOnSchedule(s: Schedule, lo: int, hi: int)
    ensures StrictlyIncreasing(Expand(s, lo, hi))
    ensures forall t :: t in Expand(s, lo, hi) <==> !s.deleted && lo <= t <= hi && OnSchedule(s, t)
  {
    ExpandExact(s, lo, hi);
    hide Expand, IsOccurrence, OnSchedule;
    forall t ensures IsOccurrence(s, t) <==> OnSchedule(s, t) {
      OccurrencesOnSchedule(s, t);
    }
  }

  /** The first index in range is the one whose occurrence is in range while its predecessor's is not. */
  lemma FirstIsUnique(s: Schedule, k: nat, lo: int)
    requires !s.kind.Once?
    ensures FirstFrom(s, 0, lo) == k <==> Occurrence(s, k) >= lo && (0 < k ==> Occurrence(s, k - 1) < lo)
  {
    hide Occurrence;
    var n := FirstFrom(s, 0, lo);
    FirstFromIsLeast(s, 0, lo);
    if n < k - 1 { Increasing(s, n, k - 1); }
    if k < n - 1 { Increasing(s, k, n - 1); }
  }

  /** `datetime.date()` subtraction followed by `.days`. */
  function DaysBetween(a: int, b: int): int {
    b / DAY - a / DAY
  }

  function Max(a: int, b: int): int {
    if a >= b then a else b
  }

  /** One month on from `candidate`, with the day taken from the event's start. */
  method AdvanceMonth(start: DateTime, candidate: DateTime) returns (next: DateTime)
    ensures forall k: nat :: candidate == MonthlyDate(start, k) ==> next == MonthlyDate(start, k + 1)
  {
    var year := candidate.date.year + (if candidate.date.month == 12 then 1 else 0);
    var month := if candidate.date.month == 12 then 1 else candidate.date.month + 1;
    var day := Min(start.date.day, MonthLength(year, month));
    next := DateTime(Date(year, month, day), candidate.time);
    forall k: nat | candidate == MonthlyDate(start, k) ensures next == MonthlyDate(start, k + 1) {
      var i := MonthIndex(start.date) + k;
      assert i == year * 12 + month - 2;
      assert (i + 1) / 12 == year && (i + 1) % 12 == month - 1;
    }
  }

  /** The day jump of the daily branch lands on the first occurrence in range. */
  lemma DailyJump(start: int, lo: int, k: nat)
    requires var days := Max(0, DaysBetween(start, lo));
             k == if start + days * DAY < lo then days + 1 else days
    ensures start + k * DAY >= lo
    ensures 0 < k ==> start + (k - 1) * DAY < lo
  {
    assert start == DAY * (start / DAY) + start % DAY;
    assert lo == DAY * (lo / DAY) + lo % DAY;
  }

  lemma DailyFirst(s: Schedule, lo: int, k: nat)
    requires s.kind.Daily?
    requires var start := s.start.Instant();
             var days := Max(0, DaysBetween(start, lo));
             k == if start + days * DAY < lo then days + 1 else days
    ensures FirstFrom(s, 0, lo) == k
  {
    DailyJump(s.start.Instant(), lo, k);
    hide RawDateTime.Instant, DaysBetween, Max, MonthlyDate, FirstFrom;
    FirstIsUnique(s, k, lo);
  }

  method ExpandDaily(s: Schedule, rangeStart: int, rangeEnd: int) returns (occurrences: seq<int>)
    requires s.kind.Daily? && !s.deleted
    ensures occurrences == Expand(s, rangeStart, rangeEnd)
  {
    var start := s.start.Instant();
    var days := Max(0, DaysBetween(start, rangeStart));
    var candidate := start + days * DAY;
    ghost var k: nat := days;
    if candidate < rangeStart {
      candidate, k := candidate + DAY, k + 1;
    }
    DailyFirst(s, rangeStart, k);
    hide RawDateTime.Instant, DaysBetween, Max, MonthlyDate, FirstFrom, Collect;
    ghost var first := k;
    occurrences := [];
    while candidate <= rangeEnd
      invariant candidate == Occurrence(s, k)
      invariant occurrences + Collect(s, k, rangeEnd) == Collect(s, first, rangeEnd)
      decreases rangeEnd - candidate
    {
      CollectStep(s, k, rangeEnd, occurrences);
      occurrences := occurrences + [candidate];
      candidate, k := candidate + DAY, k + 1;
    }
    CollectStep(s, k, rangeEnd, occurrences);
  }

  method ExpandWeekly(s: Schedule, rangeStart: int, rangeEnd: int) returns (occurrences: seq<int>)
    requires s.kind.Weekly? && !s.deleted
    ensures occurrences == Expand(s, rangeStart, rangeEnd)
  {
    var start := s.start.Instant();
    var weeks := Max(0, DaysBetween(start, rangeStart) / 7);
    var candidate := start + weeks * (7 * DAY);
    ghost var k: nat := weeks;
    hide RawDateTime.Instant;
    assert 0 < k ==> Occurrence(s, k - 1) < rangeStart;
    while candidate < rangeStart
      invariant candidate == Occurrence(s, k)
      invariant 0 < k ==> Occurrence(s, k - 1) < rangeStart
      decreases rangeStart - candidate
    {
      candidate, k := candidate + 7 * DAY, k + 1;
    }
    FirstIsUnique(s, k, rangeStart);
    hide FirstFrom, Collect;
    ghost var first := k;
    occurrences := [];
    while candidate <= rangeEnd
      invariant candidate == Occurrence(s, k)
      invariant occurrences + Collect(s, k, rangeEnd) == Collect(s, first, rangeEnd)
      decreases rangeEnd - candidate
    {
      CollectStep(s, k, rangeEnd, occurrences);
      occurrences := occurrences + [candidate];
      candidate, k := candidate + 7 * DAY, k + 1;
    }
    CollectStep(s, k, rangeEnd, occurrences);
  }

  method ExpandMonthly(s: Schedule, rangeStart: int, rangeEnd: int) returns (occurrences: seq<int>)
    requires s.kind.Monthly? && !s.deleted
    ensures occurrences == Expand(s, rangeStart, rangeEnd)
  {
    var candidate := s.start;
    ghost var k: nat := 0;
    MonthlyStart(s.start);
    hide RawDateTime.Instant, MonthlyDate;
    while candidate.Instant() < rangeStart
      invariant candidate == MonthlyDate(s.start, k)
      invariant 0 < k ==> Occurrence(s, k - 1) < rangeStart
      decreases rangeStart - candidate.Instant()
    {
      MonthlyGap(s.start, k);
      candidate := AdvanceMonth(s.start, candidate);
      k := k + 1;
    }
    FirstIsUnique(s, k, rangeStart);
    hide FirstFrom, Collect;
    ghost var first := k;
    occurrences := [];
    while candidate.Instant() <= rangeEnd
      invariant candidate == MonthlyDate(s.start, k)
      invariant occurrences + Collect(s, k, rangeEnd) == Collect(s, first, rangeEnd)
      decreases rangeEnd - candidate.Instant()
    {
      MonthlyGap(s.start, k);
      CollectStep(s, k, rangeEnd, occurrences);
      occurrences := occurrences + [candidate.Instant()];
      candidate := AdvanceMonth(s.start, candidate);
      k := k + 1;
    }
    CollectStep(s, k, rangeEnd, occurrences);
  }

  /** The source's expansion: jump close to the range, step up to it, then collect. */
  method ExpandOccurrences(s: Schedule, rangeStart: int, rangeEnd: int) returns (occurrences: seq<int>)
    ensures occurrences == Expand(s, rangeStart, rangeEnd) && StrictlyIncreasing(occurrences)
    ensures forall t :: t in occurrences <==> !s.deleted && rangeStart <= t <= rangeEnd && OnSchedule(s, t)
  {
    ExpandOnSchedule(s, rangeStart, rangeEnd);
    hide OnSchedule, StrictlyIncreasing;
    if s.deleted {
      return [];
    }
    match s.kind {
      case Once =>
        var start := s.start.Instant();
        occurrences := if rangeStart <= start <= rangeEnd then [start] else [];
      case Daily => occurrences := ExpandDaily(s, rangeStart, rangeEnd);
      case Weekly => occurrences := ExpandWeekly(s, rangeStart, rangeEnd);
      case Monthly => occurrences := ExpandMonthly(s, rangeStart, rangeEnd);
    }
  }

  /** A recurring event has an occurrence in the next 370 days exactly when it starts before they end. */
  lemma WithinAYear(s: Schedule, after: int)
    requires !s.kind.Once? && !s.deleted
    ensures Expand(s, after, after + 370 * DAY) != [] <==> s.start.Instant() <= after + 370 * DAY
  {
    if s.kind.Monthly? { MonthlyStart(s.start); }
    assert Occurrence(s, 0) == s.start.Instant();
    var k := FirstFrom(s, 0, after);
    FirstFromIsLeast(s, 0, after);
    if k > 0 {
      Gap(s, k - 1);
      Increasing(s, 0, k);
    }
  }

  /** The head of the expansion is the least occurrence in range. */
  lemma HeadIsLeast(s: Schedule, lo: int, hi: int)
    ensures Expand(s, lo, hi) == [] <==> s.deleted || forall t | IsOccurrence(s, t) :: !(lo <= t <= hi)
    ensures Expand(s, lo, hi) != [] ==>
              var first := Expand(s, lo, hi)[0];
              && IsOccurrence(s, first) && lo <= first <= hi
              && forall t | IsOccurrence(s, t) && lo <= t :: first <= t
  {
    hide Expand, IsOccurrence;
    ExpandExact(s, lo, hi);
    var r := Expand(s, lo, hi);
    if r == [] {
      forall t | IsOccurrence(s, t) && !s.deleted ensures !(lo <= t <= hi) {
        assert t !in r;
      }
    } else {
      assert r[0] in r;
      forall t | IsOccurrence(s, t) && lo <= t ensures r[0] <= t {
        if t <= hi {
          assert t in r;
        }
      }
    }
  }

  /** The first occurrence in the 370 days from `after` on. */
  method NextOccurrence(s: Schedule, after: int) returns (next: Option<int>)
    ensures next.None? <==> s.deleted || forall t | IsOccurrence(s, t) :: !(after <= t <= after + 370 * DAY)
    ensures next.Some? ==> IsOccurrence(s, next.value) && after <= next.value <= after + 370 * DAY
    ensures next.Some? ==> forall t | IsOccurrence(s, t) && after <= t :: next.value <= t
    ensures !s.deleted && !s.kind.Once? ==> (next.Some? <==> s.start.Instant() <= after + 370 * DAY)
  {
    hide Expand, IsOccurrence, RawDateTime.Instant;
    var occurrences := ExpandOccurrences(s, after, after + 370 * DAY);
    next := if occurrences == [] then None else Some(occurrences[0]);
    HeadIsLeast(s, after, after + 370 * DAY);
    if !s.deleted && !s.kind.Once? {
      WithinAYear(s, after);
    }
  }
}
