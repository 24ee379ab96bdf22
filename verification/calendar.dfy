/** The proleptic Gregorian calendar as Python's `datetime` module counts
    it: years 1 to 9999, and day ordinals where 0001-01-01 is day 1. */
module Calendar {

  const MinYear: int := 1
  const MaxYear: int := 9999

  predicate IsLeap(year: int) {
    year % 4 == 0 && (year % 100 != 0 || year % 400 == 0)
  }

  function DaysInYear(year: int): int {
    if IsLeap(year) then 366 else 365
  }

  function DaysInMonth(year: int, month: int): int
    requires 1 <= month <= 12
  {
    if month == 2 then (if IsLeap(year) then 29 else 28)
    else if month == 4 || month == 6 || month == 9 || month == 11 then 30
    else 31
  }

  /** Days in the months of `year` that precede `month`. */
  function DaysBeforeMonth(year: int, month: int): int
    requires 1 <= month <= 12
  {
    var common := [0, 31, 59, 90, 120, 151, 181, 212, 243, 273, 304, 334][month - 1];
    if month > 2 && IsLeap(year) then common + 1 else common
  }

  /** Days in the years before `year`, by the closed form of the Gregorian
      leap rule (every 4th year, except every 100th, except every 400th). */
  function DaysBeforeYear(year: int): int
    requires year >= 1
  {
    var y := year - 1;
    y * 365 + y / 4 - y / 100 + y / 400
  }

  predicate ValidDate(year: int, month: int, day: int) {
    MinYear <= year <= MaxYear && 1 <= month <= 12 && 1 <= day <= DaysInMonth(year, month)
  }

  /** The ordinal of a date: 0001-01-01 is day 1. */
  function Ordinal(year: int, month: int, day: int): int
    requires ValidDate(year, month, day)
  {
    DaysBeforeYear(year) + DaysBeforeMonth(year, month) + day
  }

  /** Lexicographic order on (year, month, day) triples. */
  predicate DateBefore(y1: int, m1: int, d1: int, y2: int, m2: int, d2: int) {
    y1 < y2 || (y1 == y2 && (m1 < m2 || (m1 == m2 && d1 < d2)))
  }

  /** The day after a valid date. Past 9999-12-31 it leaves the valid range. */
  function NextDay(year: int, month: int, day: int): (r: (int, int, int))
    requires ValidDate(year, month, day)
    ensures r.0 <= MaxYear ==> ValidDate(r.0, r.1, r.2)
    ensures r.0 <= MaxYear ==> Ordinal(r.0, r.1, r.2) == Ordinal(year, month, day) + 1
    ensures r.0 > MaxYear <==> (year, month, day) == (MaxYear, 12, 31)
  {
    if day < DaysInMonth(year, month) then
      (year, month, day + 1)
    else if month < 12 then
      MonthStep(year, month);
      (year, month + 1, 1)
    else
      YearStep(year);
      (year + 1, 1, 1)
  }

  /** Finishing a month lands on the first day of the next one. */
  lemma MonthStep(year: int, month: int)
    requires 1 <= month < 12
    ensures DaysBeforeMonth(year, month + 1) == DaysBeforeMonth(year, month) + DaysInMonth(year, month)
  {
  }

  /** Finishing a year lands on the first day of the next one. */
  lemma YearStep(year: int)
    requires year >= 1
    ensures DaysBeforeYear(year + 1) == DaysBeforeYear(year) + DaysInYear(year)
    ensures DaysBeforeMonth(year, 12) + DaysInMonth(year, 12) == DaysInYear(year)
  {
    var y := year - 1;
    QuotientStep4(y);
    QuotientStep100(y);
    QuotientStep400(y);
    Divisibility(year);
    var leapDays := year / 4 - y / 4 - (year / 100 - y / 100) + (year / 400 - y / 400);
    assert leapDays == (if IsLeap(year) then 1 else 0);
    assert DaysBeforeYear(year + 1) == DaysBeforeYear(year) + 365 + leapDays;
    DecemberEndsYear(year);
  }

  /** A multiple of 400 is a multiple of 100, which is a multiple of 4. */
  lemma Divisibility(year: int)
    ensures year % 400 == 0 ==> year % 100 == 0
    ensures year % 100 == 0 ==> year % 4 == 0
  {
  }

  lemma DecemberEndsYear(year: int)
    ensures DaysBeforeMonth(year, 12) + DaysInMonth(year, 12) == DaysInYear(year)
  {
  }

  // The count of multiples of k up to y grows by one exactly at a multiple.

  lemma QuotientStep4(y: int)
    ensures (y + 1) / 4 == y / 4 + (if (y + 1) % 4 == 0 then 1 else 0)
  {
  }

  lemma QuotientStep100(y: int)
    ensures (y + 1) / 100 == y / 100 + (if (y + 1) % 100 == 0 then 1 else 0)
  {
  }

  lemma QuotientStep400(y: int)
    ensures (y + 1) / 400 == y / 400 + (if (y + 1) % 400 == 0 then 1 else 0)
  {
  }

  /** A later year starts no earlier than the end of an earlier one. */
  lemma {:induction false} YearsAdvance(y1: int, y2: int)
    requires 1 <= y1 < y2
    ensures DaysBeforeYear(y1) + DaysInYear(y1) <= DaysBeforeYear(y2)
    decreases y2 - y1
  {
    YearStep(y1);
    if y1 + 1 < y2 {
      YearsAdvance(y1 + 1, y2);
    }
  }

  /** A date's offset within its year is below the length of the year. */
  lemma WithinYear(year: int, month: int, day: int)
    requires ValidDate(year, month, day)
    ensures 1 <= DaysBeforeMonth(year, month) + day <= DaysInYear(year)
  {
  }

  /** A later month of the same year starts after an earlier month ends. */
  lemma MonthsAdvance(year: int, m1: int, m2: int)
    requires 1 <= m1 < m2 <= 12
    ensures DaysBeforeMonth(year, m1) + DaysInMonth(year, m1) <= DaysBeforeMonth(year, m2)
  {
  }

  /** Ordinals order valid dates exactly as the calendar does. */
  lemma OrdinalOrder(y1: int, m1: int, d1: int, y2: int, m2: int, d2: int)
    requires ValidDate(y1, m1, d1) && ValidDate(y2, m2, d2)
    ensures DateBefore(y1, m1, d1, y2, m2, d2) <==> Ordinal(y1, m1, d1) < Ordinal(y2, m2, d2)
    ensures (y1, m1, d1) == (y2, m2, d2) <==> Ordinal(y1, m1, d1) == Ordinal(y2, m2, d2)
  {
    if y1 < y2 {
      WithinYear(y1, m1, d1);
      YearsAdvance(y1, y2);
    } else if y2 < y1 {
      WithinYear(y2, m2, d2);
      YearsAdvance(y2, y1);
    } else if m1 < m2 {
      MonthsAdvance(y1, m1, m2);
    } else if m2 < m1 {
      MonthsAdvance(y1, m2, m1);
    }
  }
}
