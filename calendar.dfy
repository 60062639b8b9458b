/** The part of JavaScript's `Date` that the dashboard relies on.

    A stored timestamp is read as a calendar instant: its year, its month
    (1..12, what `getMonth() + 1` gives), its day of the month and the
    milliseconds since midnight.  Comparing two `Date`s with `<`, `<=`, `>`
    compares their millisecond values; `ChronologicalOrder` below proves that
    the lexicographic order on the fields used throughout the model is that
    same order. */
module Calendar {

  const DayMs: int := 86_400_000

  datatype Instant = Instant(year: int, month: int, day: int, millis: int)

  predicate IsLeapYear(y: int)
  {
    y % 4 == 0 && (y % 100 != 0 || y % 400 == 0)
  }

  function DaysInMonth(y: int, m: int): (n: int)
    requires 1 <= m <= 12
    ensures 28 <= n <= 31
  {
    if m == 2 then (if IsLeapYear(y) then 29 else 28)
    else if m == 4 || m == 6 || m == 9 || m == 11 then 30
    else 31
  }

  /** A date a timestamp can denote: an existing day of the Gregorian
      calendar, from 1970 on. */
  predicate Valid(t: Instant)
  {
    && t.year >= 1970
    && 1 <= t.month <= 12
    && 1 <= t.day <= DaysInMonth(t.year, t.month)
    && 0 <= t.millis < DayMs
  }

  type Timestamp = t: Instant | Valid(t) witness Instant(1970, 1, 1, 0)

  /** Months since year 0, so that consecutive months differ by one. */
  function MonthIndex(year: int, month: int): int
  {
    year * 12 + month - 1
  }

  function MonthIndexOf(t: Instant): int
  {
    MonthIndex(t.year, t.month)
  }

  /** `a < b` on two dates. */
  predicate Before(a: Instant, b: Instant)
  {
    || a.year < b.year
    || (a.year == b.year && a.month < b.month)
    || (a.year == b.year && a.month == b.month && a.day < b.day)
    || (a.year == b.year && a.month == b.month && a.day == b.day && a.millis < b.millis)
  }

  /** `a <= b` on two dates. */
  predicate AtOrBefore(a: Instant, b: Instant)
  {
    !Before(b, a)
  }

  /** `d.setMonth(d.getMonth() + 1)` on a date whose day exists in every
      month, so that no overflow into the month after happens. */
  function NextMonth(t: Instant): (n: Instant)
    requires 1 <= t.month <= 12
    ensures 1 <= n.month <= 12
    ensures MonthIndexOf(n) == MonthIndexOf(t) + 1
    ensures n.day == t.day && n.millis == t.millis
    ensures Valid(t) && t.day <= 28 ==> Valid(n)
  {
    if t.month == 12 then Instant(t.year + 1, 1, t.day, t.millis)
    else Instant(t.year, t.month + 1, t.day, t.millis)
  }

  /** Days from 1 January 1970 to the first day of the given month. */
  function DaysBefore(year: int, month: int): int
    requires year >= 1970 && 1 <= month <= 12
    decreases MonthIndex(year, month)
  {
    if year == 1970 && month == 1 then 0
    else if month == 1 then DaysBefore(year - 1, 12) + DaysInMonth(year - 1, 12)
    else DaysBefore(year, month - 1) + DaysInMonth(year, month - 1)
  }

  /** `date.getTime()`: milliseconds since the epoch, the fields read in UTC. */
  function EpochMillis(t: Timestamp): int
  {
    (DaysBefore(t.year, t.month) + t.day - 1) * DayMs + t.millis
  }

  /** A later month starts no earlier than the earlier month ends. */
  lemma {:induction false} DaysBeforeGrows(y1: int, m1: int, y2: int, m2: int)
    requires y1 >= 1970 && 1 <= m1 <= 12 && y2 >= 1970 && 1 <= m2 <= 12
    requires MonthIndex(y1, m1) < MonthIndex(y2, m2)
    ensures DaysBefore(y1, m1) + DaysInMonth(y1, m1) <= DaysBefore(y2, m2)
    decreases MonthIndex(y2, m2)
  {
    var (py, pm) := if m2 == 1 then (y2 - 1, 12) else (y2, m2 - 1);
    assert DaysBefore(y2, m2) == DaysBefore(py, pm) + DaysInMonth(py, pm);
    if MonthIndex(y1, m1) < MonthIndex(py, pm) {
      DaysBeforeGrows(y1, m1, py, pm);
    } else {
      assert y1 == py && m1 == pm;
    }
  }

  lemma BeforeMeansEarlier(a: Timestamp, b: Timestamp)
    requires Before(a, b)
    ensures EpochMillis(a) < EpochMillis(b)
  {
    if MonthIndexOf(a) < MonthIndexOf(b) {
      DaysBeforeGrows(a.year, a.month, b.year, b.month);
    } else {
      assert a.year == b.year && a.month == b.month;
    }
  }

  /** The field-wise order used by the model is the order of the epoch
      milliseconds. */
  lemma ChronologicalOrder(a: Timestamp, b: Timestamp)
    ensures Before(a, b) <==> EpochMillis(a) < EpochMillis(b)
    ensures a == b <==> EpochMillis(a) == EpochMillis(b)
  {
    if Before(a, b) {
      BeforeMeansEarlier(a, b);
    } else if Before(b, a) {
      BeforeMeansEarlier(b, a);
    }
  }
}
