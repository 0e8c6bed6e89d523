/**
 The proleptic Gregorian calendar behind Python's `datetime`: dates, their day numbers and
 month lengths. Years are unbounded integers; instants count microseconds.
 */
module Calendar {
  const SECOND: int := 1_000_000
  const MINUTE: int := 60 * SECOND
  const HOUR: int := 60 * MINUTE
  const DAY: int := 24 * HOUR

  predicate IsLeap(year: int) {
    year % 4 == 0 && (year % 100 != 0 || year % 400 == 0)
  }

  function MonthLength(year: int, month: int): (days: int)
    requires 1 <= month <= 12
    ensures 28 <= days <= 31
  {
    if month == 2 then (if IsLeap(year) then 29 else 28)
    else if month in {4, 6, 9, 11} then 30
    else 31
  }

  /** Days in all the years before `year`, counted from year 1. */
  function DaysBeforeYear(year: int): int {
    (year - 1) * 365 + (year - 1) / 4 - (year - 1) / 100 + (year - 1) / 400
  }

  /** Days of `year` before the first of `month`. */
  function DaysBeforeMonth(year: int, month: int): int
    requires 1 <= month <= 12
  {
    [0, 31, 59, 90, 120, 151, 181, 212, 243, 273, 304, 334][month - 1]
    + (if month > 2 && IsLeap(year) then 1 else 0)
  }

  datatype RawDate = Date(year: int, month: int, day: int) {
    predicate Valid() {
      1 <= month <= 12 && 1 <= day <= MonthLength(year, month)
    }

    /** The day number Python's `toordinal` gives. */
    function Ordinal(): int
      requires 1 <= month <= 12
    {
      DaysBeforeYear(year) + DaysBeforeMonth(year, month) + day
    }
  }

  type Date = d: RawDate | d.Valid() witness Date(1, 1, 1)

  datatype RawDateTime = DateTime(date: Date, time: int) {
    predicate Valid() {
      0 <= time < DAY
    }

    function Instant(): int {
      date.Ordinal() * DAY + time
    }
  }

  type DateTime = d: RawDateTime | d.Valid() witness DateTime(Date(1, 1, 1), 0)

  /** Months counted from year 0, so that the month after `i` is `i + 1` even across a year end. */
  function MonthIndex(date: Date): int {
    date.year * 12 + date.month - 1
  }

  /** The first day of the month with index `i`. */
  function FirstOf(i: int): (d: Date)
    ensures MonthIndex(d) == i
  {
    Date(i / 12, i % 12 + 1, 1)
  }

  function LengthOf(i: int): int {
    MonthLength(i / 12, i % 12 + 1)
  }

  lemma YearLength(year: int)
    ensures DaysBeforeYear(year + 1) - DaysBeforeYear(year) == if IsLeap(year) then 366 else 365
  {
    StepOfQuotient(year, 4);
    StepOfQuotient(year, 100);
    StepOfQuotient(year, 400);
    Centuries(year);
  }

  lemma StepOfQuotient(y: int, q: int)
    requires q in {4, 100, 400}
    ensures y / q - (y - 1) / q == if y % q == 0 then 1 else 0
  {
    if q == 4 {
    } else if q == 100 {
    } else {
    }
  }

  lemma Centuries(y: int)
    ensures y % 400 == 0 ==> y % 100 == 0
    ensures y % 100 == 0 ==> y % 4 == 0
  {
  }

  lemma NextMonthStart(i: int)
    ensures FirstOf(i + 1).Ordinal() == FirstOf(i).Ordinal() + LengthOf(i)
  {
    var year, month := i / 12, i % 12 + 1;
    if month == 12 {
      assert (i + 1) / 12 == year + 1 && (i + 1) % 12 == 0;
      YearLength(year);
    } else {
      assert (i + 1) / 12 == year && (i + 1) % 12 == month;
    }
  }

  lemma {:induction false} MonthStartsGrow(i: int, j: int)
    requires i < j
    ensures FirstOf(i).Ordinal() + LengthOf(i) <= FirstOf(j).Ordinal()
    decreases j - i
  {
    hide RawDate.Ordinal, MonthLength;
    NextMonthStart(i);
    if i + 1 < j {
      MonthStartsGrow(i + 1, j);
    }
  }

  lemma OrdinalInMonth(d: Date)
    ensures d.Ordinal() == FirstOf(MonthIndex(d)).Ordinal() + d.day - 1
    ensures LengthOf(MonthIndex(d)) == MonthLength(d.year, d.month)
  {
    assert MonthIndex(d) / 12 == d.year && MonthIndex(d) % 12 == d.month - 1;
  }

  /** The field-by-field order Python compares dates with. */
  predicate Before(a: Date, b: Date) {
    a.year < b.year
    || (a.year == b.year && (a.month < b.month || (a.month == b.month && a.day < b.day)))
  }

  /** Comparing fields and comparing day numbers agree, so day numbers are injective. */
  lemma OrdinalIsOrder(a: Date, b: Date)
    ensures Before(a, b) <==> a.Ordinal() < b.Ordinal()
    ensures a.Ordinal() == b.Ordinal() ==> a == b
  {
    OrdinalInMonth(a);
    OrdinalInMonth(b);
    if MonthIndex(a) < MonthIndex(b) {
      MonthStartsGrow(MonthIndex(a), MonthIndex(b));
    } else if MonthIndex(b) < MonthIndex(a) {
      MonthStartsGrow(MonthIndex(b), MonthIndex(a));
    } else {
      assert a.year == b.year && a.month == b.month;
    }
  }

  /** First day of the next month, built as `_days_in_month` builds it. */
  function NextMonthFirst(year: int, month: int): Date
    requires 1 <= month <= 12
  {
    if month == 12 then Date(year + 1, 1, 1) else Date(year, month + 1, 1)
  }

  /** The day before the first of the next month is the last day of this one, whatever its length. */
  lemma DaysInMonthBySubtraction(year: int, month: int, last: Date)
    requires 1 <= month <= 12
    ensures last.Ordinal() == NextMonthFirst(year, month).Ordinal() - 1 <==>
              last == Date(year, month, MonthLength(year, month))
  {
    hide RawDate.Ordinal, MonthLength;
    var end := Date(year, month, MonthLength(year, month));
    var i := MonthIndex(end);
    assert i / 12 == year && i % 12 == month - 1;
    assert FirstOf(i + 1) == NextMonthFirst(year, month);
    NextMonthStart(i);
    OrdinalInMonth(end);
    OrdinalIsOrder(last, end);
  }
}
