/**
 * The part of Python's `datetime.date` that the time-origin logic relies on:
 * proleptic Gregorian dates with years 1..9999, their lexicographic ordering
 * (the `<` of date objects, used as the sort key) and the day ordinal that
 * `date - date` subtracts (`date.toordinal()`, with 0001-01-01 as day 1).
 */
module Calendar {

  datatype Date = Date(year: int, month: int, day: int)

  const MinYear := 1
  const MaxYear := 9999

  predicate IsLeapYear(y: int) {
    y % 4 == 0 && (y % 100 != 0 || y % 400 == 0)
  }

  function DaysInMonth(y: int, m: int): (n: int)
    requires 1 <= m <= 12
    ensures 28 <= n <= 31
  {
    if m == 2 then (if IsLeapYear(y) then 29 else 28)
    else if m == 4 || m == 6 || m == 9 || m == 11 then 30
    else 31
  }

  function DaysInYear(y: int): (r: int) {
    if IsLeapYear(y) then 366 else 365
  }

  /** A date that `datetime.date(year, month, day)` accepts. */
  predicate IsValid(d: Date) {
    MinYear <= d.year <= MaxYear && 1 <= d.month <= 12 && 1 <= d.day <= DaysInMonth(d.year, d.month)
  }

  /** Python's `_days_before_year`: days in the years 1 .. y-1. */
  function DaysBeforeYear(y: int): (r: int)
    requires 1 <= y
  {
    var p := y - 1;
    p * 365 + p / 4 - p / 100 + p / 400
  }

  /** Python's `_days_before_month`: days in the months 1 .. m-1 of year y. */
  function DaysBeforeMonth(y: int, m: int): (r: int)
    requires 1 <= m <= 12
  {
    var table :=
      if m == 1 then 0 else if m == 2 then 31 else if m == 3 then 59 else if m == 4 then 90
      else if m == 5 then 120 else if m == 6 then 151 else if m == 7 then 181 else if m == 8 then 212
      else if m == 9 then 243 else if m == 10 then 273 else if m == 11 then 304 else 334;
    table + (if m > 2 && IsLeapYear(y) then 1 else 0)
  }

  /** `date.toordinal()`; `(a - b).days` is `DaysFromCivil(a) - DaysFromCivil(b)`. */
  function DaysFromCivil(d: Date): (n: int)
    requires IsValid(d)
    ensures d == Date(1, 1, 1) ==> n == 1
  {
    DaysBeforeYear(d.year) + DaysBeforeMonth(d.year, d.month) + d.day
  }

  /** `(a - b).days` for two dates. */
  function DaysBetween(a: Date, b: Date): (r: int)
    requires IsValid(a) && IsValid(b)
  {
    DaysFromCivil(a) - DaysFromCivil(b)
  }

  /** `a <= b` on date objects: year, then month, then day. */
  predicate Le(a: Date, b: Date) {
    a.year < b.year || (a.year == b.year && (a.month < b.month || (a.month == b.month && a.day <= b.day)))
  }

  predicate Lt(a: Date, b: Date) {
    Le(a, b) && a != b
  }

  /** The calendar day after d, by the calendar rules alone (an independent reference for the ordinal). */
  function NextDay(d: Date): (r: Date)
    requires IsValid(d)
  {
    if d.day < DaysInMonth(d.year, d.month) then Date(d.year, d.month, d.day + 1)
    else if d.month < 12 then Date(d.year, d.month + 1, 1)
    else Date(d.year + 1, 1, 1)
  }

  lemma {:induction false} DaysBeforeYearStep(y: int)
    requires 1 <= y
    ensures DaysBeforeYear(y + 1) == DaysBeforeYear(y) + DaysInYear(y)
  {
    var p := y - 1;
    var a, b, c := y / 4 - p / 4, y / 100 - p / 100, y / 400 - p / 400;
    DivStep(p);
    Divisibility(y);
    assert DaysBeforeYear(y + 1) == DaysBeforeYear(y) + 365 + a - b + c;
    assert a - b + c == (if IsLeapYear(y) then 1 else 0);
  }

  /** A multiple of 400 is one of 100, and a multiple of 100 is one of 4. */
  lemma {:induction false} Divisibility(y: int)
    ensures y % 400 == 0 ==> y % 100 == 0
    ensures y % 100 == 0 ==> y % 4 == 0
  {
    if y % 400 == 0 {
      MultipleMod(y, 4 * (y / 400), 100);
    }
    if y % 100 == 0 {
      MultipleMod(y, 25 * (y / 100), 4);
    }
  }

  lemma {:induction false} MultipleMod(y: int, q: int, k: int)
    requires k in {4, 100} && y == k * q
    ensures y % k == 0
  {
    if k == 4 {
      assert y == 4 * q;
    } else {
      assert y == 100 * q;
    }
  }

  /** Moving from p to p + 1 raises p / 4, p / 100 and p / 400 by one exactly at their multiples. */
  lemma {:induction false} DivStep(p: int)
    requires 0 <= p
    ensures (p + 1) / 4 - p / 4 == if (p + 1) % 4 == 0 then 1 else 0
    ensures (p + 1) / 100 - p / 100 == if (p + 1) % 100 == 0 then 1 else 0
    ensures (p + 1) / 400 - p / 400 == if (p + 1) % 400 == 0 then 1 else 0
  {
  }

  lemma {:induction false} DaysBeforeYearMonotone(y1: int, y2: int)
    requires 1 <= y1 < y2
    ensures DaysBeforeYear(y1) + DaysInYear(y1) <= DaysBeforeYear(y2)
    decreases y2 - y1
  {
    DaysBeforeYearStep(y1);
    if y1 + 1 < y2 {
      DaysBeforeYearMonotone(y1 + 1, y2);
    }
  }

  lemma {:induction false} DaysBeforeMonthStep(y: int, m: int)
    requires 1 <= m < 12
    ensures DaysBeforeMonth(y, m + 1) == DaysBeforeMonth(y, m) + DaysInMonth(y, m)
  {
  }

  lemma {:induction false} DaysBeforeMonthMonotone(y: int, m1: int, m2: int)
    requires 1 <= m1 < m2 <= 12
    ensures DaysBeforeMonth(y, m1) + DaysInMonth(y, m1) <= DaysBeforeMonth(y, m2)
    decreases m2 - m1
  {
    DaysBeforeMonthStep(y, m1);
    if m1 + 1 < m2 {
      DaysBeforeMonthMonotone(y, m1 + 1, m2);
    }
  }

  /** The ordinal of a date lies inside its own year's range of ordinals. */
  lemma {:induction false} OrdinalWithinYear(d: Date)
    requires IsValid(d)
    ensures DaysBeforeYear(d.year) < DaysFromCivil(d) <= DaysBeforeYear(d.year) + DaysInYear(d.year)
  {
    assert DaysBeforeMonth(d.year, 12) + 31 == DaysInYear(d.year);
    if d.month < 12 {
      DaysBeforeMonthMonotone(d.year, d.month, 12);
    }
  }

  /** Earlier dates have smaller ordinals. */
  lemma {:induction false} DaysFromCivilStrictlyMonotone(a: Date, b: Date)
    requires IsValid(a) && IsValid(b) && Lt(a, b)
    ensures DaysFromCivil(a) < DaysFromCivil(b)
  {
    if a.year < b.year {
      OrdinalWithinYear(a);
      OrdinalWithinYear(b);
      DaysBeforeYearMonotone(a.year, b.year);
    } else if a.month < b.month {
      DaysBeforeMonthMonotone(a.year, a.month, b.month);
    }
  }

  /**
   * The date ordering and the ordinal ordering agree, in both directions:
   * comparing two dates (the sort key) is the same as comparing the sign of
   * their difference (the `base_delta` check).
   */
  lemma {:induction false} DaysFromCivilOrder(a: Date, b: Date)
    requires IsValid(a) && IsValid(b)
    ensures Le(a, b) <==> DaysFromCivil(a) <= DaysFromCivil(b)
    ensures a == b <==> DaysFromCivil(a) == DaysFromCivil(b)
  {
    if Lt(a, b) {
      DaysFromCivilStrictlyMonotone(a, b);
    } else if Lt(b, a) {
      DaysFromCivilStrictlyMonotone(b, a);
    }
  }

  /**
   * The ordinal counts days: the day after d is one ordinal later. With
   * `DaysFromCivil(Date(1, 1, 1)) == 1` this determines the ordinal of every
   * valid date, so `DaysBetween` is the number of calendar days between two dates.
   */
  lemma {:induction false} DaysFromCivilSuccessor(d: Date)
    requires IsValid(d) && d != Date(MaxYear, 12, 31)
    ensures IsValid(NextDay(d)) && DaysFromCivil(NextDay(d)) == DaysFromCivil(d) + 1
  {
    if d.day == DaysInMonth(d.year, d.month) {
      if d.month < 12 {
        DaysBeforeMonthStep(d.year, d.month);
      } else {
        DaysBeforeYearStep(d.year);
        assert DaysBeforeMonth(d.year, 12) + 31 == DaysInYear(d.year);
      }
    }
  }
}
