/**
 * Calendar dates as Python's `datetime.date` represents them: a date is its
 * proleptic-Gregorian ordinal (`date.toordinal()`), where 0001-01-01 is 1 and
 * 9999-12-31 (`date.max`) is 3652059. This module gives the day-of-week
 * arithmetic the heatmap uses and the conversion from an ordinal back to
 * year, month and day of month.
 */
module Calendar {

  /** The ordinal of 9999-12-31, the last date Python can represent. */
  const MaxOrdinal: int := 3652059

  /** A date Python can represent, as its ordinal. */
  type Ordinal = n: int | 1 <= n <= MaxOrdinal witness 1

  /** A civil date: year, month (1..12) and day of month. */
  datatype Date = Date(year: int, month: int, day: int)

  // ---------------------------------------------------------------------------
  // Day of week
  // ---------------------------------------------------------------------------

  /** Python's `date.weekday()`: Monday is 0, Sunday is 6. Ordinal 1 is a Monday. */
  function Weekday(n: int): int
  {
    (n + 6) % 7
  }

  /** The Sunday-based day of week generate_heatmap computes: `(weekday() + 1) % 7`. */
  function DayOfWeek(n: int): (dow: int)
    ensures 0 <= dow < 7
  {
    (Weekday(n) + 1) % 7
  }

  /** The Sunday-based day of week is the ordinal modulo 7, so it advances by one each day. */
  lemma DayOfWeekIsResidue(n: int)
    ensures DayOfWeek(n) == n % 7
    ensures DayOfWeek(n + 1) == (DayOfWeek(n) + 1) % 7
  {
  }

  // ---------------------------------------------------------------------------
  // The Gregorian calendar
  // ---------------------------------------------------------------------------

  predicate IsLeapYear(y: int)
  {
    y % 4 == 0 && (y % 100 != 0 || y % 400 == 0)
  }

  function DaysInYear(y: int): nat
  {
    if IsLeapYear(y) then 366 else 365
  }

  function DaysInMonth(y: int, m: int): nat
  {
    if m == 2 then (if IsLeapYear(y) then 29 else 28)
    else if m == 4 || m == 6 || m == 9 || m == 11 then 30
    else 31
  }

  /** Days in the months of year `y` before month `m`. */
  function DaysBeforeMonth(y: int, m: int): nat
    requires 1 <= m <= 12
  {
    var common :=
      if m == 1 then 0 else if m == 2 then 31 else if m == 3 then 59
      else if m == 4 then 90 else if m == 5 then 120 else if m == 6 then 151
      else if m == 7 then 181 else if m == 8 then 212 else if m == 9 then 243
      else if m == 10 then 273 else if m == 11 then 304 else 334;
    common + (if m > 2 && IsLeapYear(y) then 1 else 0)
  }

  /** Days in the years before year `y`, counted from 0001-01-01. */
  function DaysBeforeYear(y: int): int
    requires 1 <= y
  {
    var p := y - 1;
    365 * p + p / 4 - p / 100 + p / 400
  }

  predicate ValidDate(date: Date)
  {
    1 <= date.year <= 9999 && 1 <= date.month <= 12 && 1 <= date.day <= DaysInMonth(date.year, date.month)
  }

  /** `date.toordinal()`. */
  function ToOrdinal(date: Date): int
    requires ValidDate(date)
  {
    DaysBeforeYear(date.year) + DaysBeforeMonth(date.year, date.month) + date.day
  }

  lemma DaysBeforeMonthStep(y: int, m: int)
    requires 1 <= m < 12
    ensures DaysBeforeMonth(y, m + 1) == DaysBeforeMonth(y, m) + DaysInMonth(y, m)
  {
  }

  lemma DaysBeforeMonthMonotone(y: int, m1: int, m2: int)
    requires 1 <= m1 < m2 <= 12
    ensures DaysBeforeMonth(y, m1) + DaysInMonth(y, m1) <= DaysBeforeMonth(y, m2)
  {
  }

  lemma MonthsFillYear(y: int)
    ensures DaysBeforeMonth(y, 12) + DaysInMonth(y, 12) == DaysInYear(y)
  {
  }

  /** How many multiples of 4, 100 and 400 a step from year - 1 to year passes. */
  lemma QuarterStep(y: int)
    ensures y / 4 - (y - 1) / 4 == if y % 4 == 0 then 1 else 0
  {
    var q, r := y / 4, y % 4;
    assert y == 4 * q + r && 0 <= r < 4;
    if r == 0 {
      assert y - 1 == 4 * (q - 1) + 3;
    } else {
      assert y - 1 == 4 * q + (r - 1);
    }
  }

  lemma CenturyStep(y: int)
    ensures y / 100 - (y - 1) / 100 == if y % 100 == 0 then 1 else 0
  {
    var q, r := y / 100, y % 100;
    assert y == 100 * q + r && 0 <= r < 100;
    if r == 0 {
      assert y - 1 == 100 * (q - 1) + 99;
    } else {
      assert y - 1 == 100 * q + (r - 1);
    }
  }

  lemma FourCenturyStep(y: int)
    ensures y / 400 - (y - 1) / 400 == if y % 400 == 0 then 1 else 0
  {
    var q, r := y / 400, y % 400;
    assert y == 400 * q + r && 0 <= r < 400;
    if r == 0 {
      assert y - 1 == 400 * (q - 1) + 399;
    } else {
      assert y - 1 == 400 * q + (r - 1);
    }
  }

  /** A multiple of 400 is a multiple of 100, and a multiple of 100 is a multiple of 4. */
  lemma DivisibilityChain(y: int)
    ensures y % 400 == 0 ==> y % 100 == 0
    ensures y % 100 == 0 ==> y % 4 == 0
  {
    var q4, r4 := y / 4, y % 4;
    var q100, r100 := y / 100, y % 100;
    var q400 := y / 400;
    assert y == 4 * q4 + r4 && 0 <= r4 < 4;
    assert y == 100 * q100 + r100 && 0 <= r100 < 100;
    if y % 400 == 0 {
      assert y == 400 * q400;
      assert r100 == 100 * (4 * q400 - q100);
    }
    if y % 100 == 0 {
      assert r4 == 4 * (25 * q100 - q4);
    }
  }

  lemma DaysBeforeYearStep(y: int)
    requires 1 <= y
    ensures DaysBeforeYear(y + 1) == DaysBeforeYear(y) + DaysInYear(y)
  {
    var a := if y % 4 == 0 then 1 else 0;
    var b := if y % 100 == 0 then 1 else 0;
    var c := if y % 400 == 0 then 1 else 0;
    QuarterStep(y);
    CenturyStep(y);
    FourCenturyStep(y);
    DivisibilityChain(y);
    assert DaysBeforeYear(y + 1) - DaysBeforeYear(y) == 365 + a - b + c;
  }

  lemma {:induction false} DaysBeforeYearMonotone(a: int, b: int)
    requires 1 <= a < b
    ensures DaysBeforeYear(a) + DaysInYear(a) <= DaysBeforeYear(b)
    decreases b - a
  {
    DaysBeforeYearStep(a);
    if a + 1 < b {
      DaysBeforeYearMonotone(a + 1, b);
    }
  }

  // ---------------------------------------------------------------------------
  // From an ordinal back to a civil date
  // ---------------------------------------------------------------------------

  /** The last date Python can represent. */
  const LastDate := Date(9999, 12, 31)

  /** The day after a date (what `date + timedelta(days=1)` gives for a valid date other than `LastDate`). */
  function NextDay(date: Date): Date
  {
    if date.day < DaysInMonth(date.year, date.month) then Date(date.year, date.month, date.day + 1)
    else if date.month < 12 then Date(date.year, date.month + 1, 1)
    else Date(date.year + 1, 1, 1)
  }

  /** Stepping a valid date other than `LastDate` by one day gives a valid date one ordinal later. */
  lemma NextDayOrdinal(date: Date)
    requires ValidDate(date) && date != LastDate
    ensures ValidDate(NextDay(date)) && ToOrdinal(NextDay(date)) == ToOrdinal(date) + 1
  {
    if date.day == DaysInMonth(date.year, date.month) {
      if date.month < 12 {
        DaysBeforeMonthStep(date.year, date.month);
      } else {
        DaysBeforeYearStep(date.year);
        MonthsFillYear(date.year);
      }
    }
  }

  /** The civil date of ordinal `n` (`date.fromordinal(n)`): the date n - 1 days after 0001-01-01. */
  function Civil(n: Ordinal): Date
    decreases n
  {
    if n == 1 then Date(1, 1, 1) else NextDay(Civil(n - 1))
  }

  /** `Civil(n)` is a valid date whose ordinal is `n`. */
  lemma {:induction false} CivilIsInverse(n: Ordinal)
    ensures ValidDate(Civil(n)) && ToOrdinal(Civil(n)) == n
    decreases n
  {
    if n > 1 {
      CivilIsInverse(n - 1);
      assert Civil(n - 1) != LastDate by {
        assert ToOrdinal(LastDate) == MaxOrdinal;
      }
      NextDayOrdinal(Civil(n - 1));
    }
  }

  /** Day of month of a date: `date.day`. */
  function Day(n: Ordinal): int
  {
    Civil(n).day
  }

  /** Month number of a date: `date.month`, which `strftime("%b")` names. */
  function Month(n: Ordinal): int
  {
    Civil(n).month
  }

  /** A valid civil date lies within the year it names. */
  lemma OrdinalWithinYear(date: Date)
    requires ValidDate(date)
    ensures DaysBeforeYear(date.year) < ToOrdinal(date) <= DaysBeforeYear(date.year + 1)
  {
    DaysBeforeYearStep(date.year);
    MonthsFillYear(date.year);
    if date.month < 12 {
      DaysBeforeMonthMonotone(date.year, date.month, 12);
    }
  }

  /** Every valid civil date has an ordinal Python can represent, and converting back gives the same date. */
  lemma OrdinalRoundTrip(date: Date)
    requires ValidDate(date)
    ensures 1 <= ToOrdinal(date) <= MaxOrdinal
    ensures Civil(ToOrdinal(date)) == date
  {
    var n := ToOrdinal(date);
    OrdinalWithinYear(date);
    assert MaxOrdinal == DaysBeforeYear(10000);
    if date.year < 9999 {
      DaysBeforeYearMonotone(date.year + 1, 10000);
    }
    var c := Civil(n);
    CivilIsInverse(n);
    OrdinalWithinYear(c);
    if c.year < date.year {
      if c.year + 1 < date.year {
        DaysBeforeYearMonotone(c.year + 1, date.year);
      }
      assert false;
    } else if c.year > date.year {
      if date.year + 1 < c.year {
        DaysBeforeYearMonotone(date.year + 1, c.year);
      }
      assert false;
    }
    if c.month < date.month {
      DaysBeforeMonthMonotone(date.year, c.month, date.month);
      assert false;
    } else if c.month > date.month {
      DaysBeforeMonthMonotone(date.year, date.month, c.month);
      assert false;
    }
  }

  /** Two different first days of a month are at least 28 days apart. */
  lemma FirstDaysApart(a: Ordinal, b: Ordinal)
    requires a < b && Day(a) == 1 && Day(b) == 1
    ensures b - a >= 28
  {
    CivilIsInverse(a);
    CivilIsInverse(b);
    FirstDaysOfMonthsApart(Civil(a), Civil(b));
  }

  lemma FirstDaysOfMonthsApart(x: Date, z: Date)
    requires ValidDate(x) && ValidDate(z) && x.day == 1 && z.day == 1
    requires ToOrdinal(x) < ToOrdinal(z)
    ensures ToOrdinal(z) - ToOrdinal(x) >= 28
  {
    if x.year == z.year {
      if z.month < x.month {
        DaysBeforeMonthMonotone(x.year, z.month, x.month);
        assert false;
      } else if z.month > x.month {
        DaysBeforeMonthMonotone(x.year, x.month, z.month);
      }
    } else if x.year < z.year {
      OrdinalWithinYear(x);
      DaysBeforeYearStep(x.year);
      MonthsFillYear(x.year);
      if x.month < 12 {
        DaysBeforeMonthMonotone(x.year, x.month, 12);
      }
      if x.year + 1 < z.year {
        DaysBeforeYearMonotone(x.year + 1, z.year);
      }
    } else {
      OrdinalWithinYear(z);
      DaysBeforeYearMonotone(z.year, x.year);
      assert false;
    }
  }
}
