/**
 Timestamps as the reports use them: only their year and month matter to
 the month walk, and only their order matters to the date checks.
 */
module Dates {

  /** `datetime.MINYEAR .. datetime.MAXYEAR`. */
  type Year = y: int | 1 <= y <= 9999 witness 1

  type MonthOfYear = m: int | 1 <= m <= 12 witness 1

  /** A timestamp; `day` and `time` stand for everything finer than the month, in order. */
  datatype Date = Date(year: Year, month: MonthOfYear, day: int, time: int)

  /** `a < b` on timestamps: lexicographic on (year, month, day, time). */
  predicate Before(a: Date, b: Date) {
    || a.year < b.year
    || (a.year == b.year && a.month < b.month)
    || (a.year == b.year && a.month == b.month && a.day < b.day)
    || (a.year == b.year && a.month == b.month && a.day == b.day && a.time < b.time)
  }

  predicate NotAfter(a: Date, b: Date) {
    !Before(b, a)
  }

  /** The timestamp `dateutil` reads from `"<year>-<month>-01T00:00.000Z"`: midnight on the first. */
  function FirstOfMonth(year: Year, month: MonthOfYear): Date {
    Date(year, month, 1, 0)
  }

  /** Months counted from January of year 0, so consecutive months have consecutive indices. */
  function MonthIndex(year: int, month: int): int {
    12 * year + month - 1
  }

  function IndexOf(d: Date): int {
    MonthIndex(d.year, d.month)
  }

  /** The (year, month) a month index stands for. */
  function YearOfIndex(i: int): int {
    i / 12
  }

  function MonthOfIndex(i: int): (m: int)
    ensures 1 <= m <= 12
  {
    i % 12 + 1
  }

  lemma IndexRoundTrip(i: int)
    ensures MonthIndex(YearOfIndex(i), MonthOfIndex(i)) == i
  {
  }

  /** The index of (year, month) reads back as that year and month. */
  lemma IndexParts(year: int, month: int)
    requires 1 <= month <= 12
    ensures YearOfIndex(MonthIndex(year, month)) == year
    ensures MonthOfIndex(MonthIndex(year, month)) == month
  {
    var i := MonthIndex(year, month);
    assert i == 12 * year + (month - 1);
    assert 0 <= month - 1 < 12;
  }

  /** A month between two timestamps' months lies in a year between theirs. */
  lemma YearOfIndexBetween(a: Date, b: Date, i: int)
    requires IndexOf(a) <= i <= IndexOf(b)
    ensures a.year <= YearOfIndex(i) <= b.year
  {
    IndexParts(a.year, a.month);
    IndexParts(b.year, b.month);
    IndexRoundTrip(i);
  }

  lemma IndexInjective(y1: int, m1: int, y2: int, m2: int)
    requires 1 <= m1 <= 12 && 1 <= m2 <= 12
    requires MonthIndex(y1, m1) == MonthIndex(y2, m2)
    ensures y1 == y2 && m1 == m2
  {
  }

  /** Timestamps in order have month indices in order. */
  lemma NotAfterIndex(a: Date, b: Date)
    requires NotAfter(a, b)
    ensures IndexOf(a) <= IndexOf(b)
  {
  }

  lemma BeforeTransitive(a: Date, b: Date, c: Date)
    requires Before(a, b) && Before(b, c)
    ensures Before(a, c)
  {
  }
}
