/**
  The proleptic Gregorian calendar of Python's `datetime` module, as far as
  the bot uses it: `datetime.strptime` builds a date, `- timedelta(days=1)`
  steps back one day, and `strftime("%A")` needs the day of the week.

  Dates run from 0001-01-01 to 9999-12-31 (`datetime.MINYEAR` and
  `datetime.MAXYEAR`); stepping outside that range raises `OverflowError`,
  which is why `PreviousDay` is not defined on the first date.
*/
module Calendar {

  datatype Date = Date(year: int, month: int, day: int)

  const MinYear := 1
  const MaxYear := 9999

  /** The first and the last date Python's `date` type can hold. */
  const FirstDate := Date(MinYear, 1, 1)
  const LastDate := Date(MaxYear, 12, 31)

  predicate IsLeapYear(y: int) {
    y % 4 == 0 && (y % 100 != 0 || y % 400 == 0)
  }

  function DaysInYear(y: int): int {
    if IsLeapYear(y) then 366 else 365
  }

  function DaysInMonth(y: int, m: int): (n: int)
    requires 1 <= m <= 12
    ensures 28 <= n <= 31
    ensures n == 29 <==> m == 2 && IsLeapYear(y)
    ensures n == 28 <==> m == 2 && !IsLeapYear(y)
  {
    if m == 2 then (if IsLeapYear(y) then 29 else 28)
    else if m == 4 || m == 6 || m == 9 || m == 11 then 30
    else 31
  }

  predicate ValidDate(d: Date) {
    && MinYear <= d.year <= MaxYear
    && 1 <= d.month <= 12
    && 1 <= d.day <= DaysInMonth(d.year, d.month)
  }

  /** Strict chronological order, read field by field. */
  predicate Precedes(a: Date, b: Date) {
    || a.year < b.year
    || (a.year == b.year && a.month < b.month)
    || (a.year == b.year && a.month == b.month && a.day < b.day)
  }

  /** Days in the years before `y`, as Python's `_days_before_year`. */
  function DaysBeforeYear(y: int): int
    requires y >= 1
  {
    var k := y - 1;
    k * 365 + k / 4 - k / 100 + k / 400
  }

  /** Days in the months of `y` before `m`, from a fixed table plus the leap day,
      as Python's `_days_before_month`. */
  function DaysBeforeMonth(y: int, m: int): int
    requires 1 <= m <= 12
  {
    var table := [0, 31, 59, 90, 120, 151, 181, 212, 243, 273, 304, 334];
    table[m - 1] + (if m > 2 && IsLeapYear(y) then 1 else 0)
  }

  /** The day number of `d`, counting 0001-01-01 as day 1 (`date.toordinal()`). */
  function Ordinal(d: Date): (n: int)
    requires ValidDate(d)
    ensures n >= 1
  {
    DaysBeforeYear(d.year) + DaysBeforeMonth(d.year, d.month) + d.day
  }

  /** Day of the week, Monday = 0 ... Sunday = 6 (`date.weekday()`). */
  function Weekday(d: Date): (w: int)
    requires ValidDate(d)
    ensures 0 <= w < 7
  {
    (Ordinal(d) + 6) % 7
  }

  /** `d - timedelta(days=1)`: the calendar day before `d`. */
  function PreviousDay(d: Date): (p: Date)
    requires ValidDate(d) && d != FirstDate
    ensures ValidDate(p) && Precedes(p, d)
  {
    if d.day > 1 then Date(d.year, d.month, d.day - 1)
    else if d.month > 1 then Date(d.year, d.month - 1, DaysInMonth(d.year, d.month - 1))
    else Date(d.year - 1, 12, 31)
  }

  /** `d + timedelta(days=1)`: the calendar day after `d`. */
  function NextDay(d: Date): (n: Date)
    requires ValidDate(d) && d != LastDate
    ensures ValidDate(n) && Precedes(d, n)
  {
    if d.day < DaysInMonth(d.year, d.month) then Date(d.year, d.month, d.day + 1)
    else if d.month < 12 then Date(d.year, d.month + 1, 1)
    else Date(d.year + 1, 1, 1)
  }

  // ---------------------------------------------------------------------
  // The closed-form day count agrees with month and year lengths.
  // ---------------------------------------------------------------------

  /** A year contributes exactly its length to the day count. */
  lemma DaysBeforeYearStep(y: int)
    requires y >= 1
    ensures DaysBeforeYear(y + 1) == DaysBeforeYear(y) + DaysInYear(y)
  {
    StepDivisions(y);
    var k := y - 1;
    assert DaysBeforeYear(y) == k * 365 + k / 4 - k / 100 + k / 400;
    assert DaysBeforeYear(y + 1) == y * 365 + y / 4 - y / 100 + y / 400;
    LeapDays(y);
  }

  /** The leap-day rule as a sum: +1 every 4 years, -1 every 100, +1 every 400. */
  lemma LeapDays(y: int)
    ensures DaysInYear(y) == 365 + (if y % 4 == 0 then 1 else 0) - (if y % 100 == 0 then 1 else 0)
                                 + (if y % 400 == 0 then 1 else 0)
  {
    if y % 400 == 0 {
      Multiple400(y);
    }
    if y % 100 == 0 {
      Multiple100(y);
    }
  }

  lemma Multiple400(y: int)
    requires y % 400 == 0
    ensures y % 100 == 0
  {
    var q := y / 400;
    assert y == 400 * q;
    assert y == 100 * (4 * q) + 0;
  }

  lemma Multiple100(y: int)
    requires y % 100 == 0
    ensures y % 4 == 0
  {
    var q := y / 100;
    assert y == 100 * q;
    assert y == 4 * (25 * q) + 0;
  }

  /** How the leap-year counts change from year `y - 1` to year `y`. */
  lemma StepDivisions(y: int)
    ensures y / 4 - (y - 1) / 4 == if y % 4 == 0 then 1 else 0
    ensures y / 100 - (y - 1) / 100 == if y % 100 == 0 then 1 else 0
    ensures y / 400 - (y - 1) / 400 == if y % 400 == 0 then 1 else 0
  {
    StepDivision4(y);
    StepDivision100(y);
    StepDivision400(y);
  }

  lemma StepDivision4(y: int)
    ensures y / 4 - (y - 1) / 4 == if y % 4 == 0 then 1 else 0
  {
  }

  lemma StepDivision100(y: int)
    ensures y / 100 - (y - 1) / 100 == if y % 100 == 0 then 1 else 0
  {
  }

  lemma StepDivision400(y: int)
    ensures y / 400 - (y - 1) / 400 == if y % 400 == 0 then 1 else 0
  {
  }

  /** The month table is the running sum of the month lengths. */
  lemma DaysBeforeMonthStep(y: int, m: int)
    requires 1 <= m < 12
    ensures DaysBeforeMonth(y, m + 1) == DaysBeforeMonth(y, m) + DaysInMonth(y, m)
  {
  }

  lemma DaysBeforeMonthEnd(y: int)
    ensures DaysBeforeMonth(y, 12) + DaysInMonth(y, 12) == DaysInYear(y)
  {
  }

  /** Later months of a year start after earlier months have ended. */
  lemma {:induction false} DaysBeforeMonthMonotone(y: int, m1: int, m2: int)
    requires 1 <= m1 < m2 <= 12
    ensures DaysBeforeMonth(y, m1) + DaysInMonth(y, m1) <= DaysBeforeMonth(y, m2)
    decreases m2 - m1
  {
    DaysBeforeMonthStep(y, m1);
    if m1 + 1 < m2 {
      DaysBeforeMonthMonotone(y, m1 + 1, m2);
    }
  }

  /** Later years start after earlier years have ended. */
  lemma {:induction false} DaysBeforeYearMonotone(y1: int, y2: int)
    requires 1 <= y1 < y2
    ensures DaysBeforeYear(y1) + DaysInYear(y1) <= DaysBeforeYear(y2)
    decreases y2 - y1
  {
    DaysBeforeYearStep(y1);
    if y1 + 1 < y2 {
      DaysBeforeYearMonotone(y1 + 1, y2);
      DaysBeforeYearStep(y1 + 1);
    }
  }

  /** Every day of year `y` is numbered within that year's span. */
  lemma OrdinalWithinYear(d: Date)
    requires ValidDate(d)
    ensures DaysBeforeYear(d.year) < Ordinal(d) <= DaysBeforeYear(d.year) + DaysInYear(d.year)
  {
    if d.month < 12 {
      DaysBeforeMonthMonotone(d.year, d.month, 12);
    }
    DaysBeforeMonthEnd(d.year);
  }

  /** The day number grows with the date: the numbering is an order embedding. */
  lemma OrdinalMonotone(a: Date, b: Date)
    requires ValidDate(a) && ValidDate(b)
    ensures Precedes(a, b) <==> Ordinal(a) < Ordinal(b)
  {
    if a.year < b.year {
      OrdinalWithinYear(a);
      OrdinalWithinYear(b);
      DaysBeforeYearMonotone(a.year, b.year);
    } else if b.year < a.year {
      OrdinalWithinYear(a);
      OrdinalWithinYear(b);
      DaysBeforeYearMonotone(b.year, a.year);
    } else if a.month < b.month {
      DaysBeforeMonthMonotone(a.year, a.month, b.month);
    } else if b.month < a.month {
      DaysBeforeMonthMonotone(a.year, b.month, a.month);
    }
  }

  /** Distinct dates have distinct day numbers. */
  lemma OrdinalInjective(a: Date, b: Date)
    requires ValidDate(a) && ValidDate(b)
    ensures Ordinal(a) == Ordinal(b) <==> a == b
  {
    if a != b {
      OrdinalMonotone(a, b);
      OrdinalMonotone(b, a);
    }
  }

  // ---------------------------------------------------------------------
  // Stepping one day.
  // ---------------------------------------------------------------------

  /** The day before `d` is numbered one less than `d`. */
  lemma PreviousDayOrdinal(d: Date)
    requires ValidDate(d) && d != FirstDate
    ensures Ordinal(PreviousDay(d)) == Ordinal(d) - 1
  {
    if d.day == 1 {
      if d.month > 1 {
        DaysBeforeMonthStep(d.year, d.month - 1);
      } else {
        DaysBeforeYearStep(d.year - 1);
        DaysBeforeMonthEnd(d.year - 1);
      }
    }
  }

  /** The day after `d` is numbered one more than `d`. */
  lemma NextDayOrdinal(d: Date)
    requires ValidDate(d) && d != LastDate
    ensures Ordinal(NextDay(d)) == Ordinal(d) + 1
  {
    if d.day == DaysInMonth(d.year, d.month) {
      if d.month < 12 {
        DaysBeforeMonthStep(d.year, d.month);
      } else {
        DaysBeforeYearStep(d.year);
        DaysBeforeMonthEnd(d.year);
      }
    }
  }

  /** `PreviousDay` is exactly "one day earlier": the only valid date numbered
      one less than `d`. */
  lemma PreviousDayUnique(d: Date, q: Date)
    requires ValidDate(d) && d != FirstDate && ValidDate(q)
    ensures Ordinal(q) == Ordinal(d) - 1 <==> q == PreviousDay(d)
  {
    PreviousDayOrdinal(d);
    OrdinalInjective(q, PreviousDay(d));
  }

  /** Stepping back and forward again returns to the same date, both ways. */
  lemma PreviousNextInverse(d: Date)
    requires ValidDate(d)
    ensures d != FirstDate ==> PreviousDay(d) != LastDate && NextDay(PreviousDay(d)) == d
    ensures d != LastDate ==> NextDay(d) != FirstDate && PreviousDay(NextDay(d)) == d
  {
    if d != FirstDate {
      var p := PreviousDay(d);
      PreviousDayOrdinal(d);
      OrdinalInjective(p, LastDate);
      OrdinalMonotone(d, LastDate);
      NextDayOrdinal(p);
      OrdinalInjective(NextDay(p), d);
    }
    if d != LastDate {
      var n := NextDay(d);
      NextDayOrdinal(d);
      OrdinalMonotone(FirstDate, d);
      OrdinalInjective(n, FirstDate);
      PreviousDayOrdinal(n);
      OrdinalInjective(PreviousDay(n), d);
    }
  }

  // ---------------------------------------------------------------------
  // Boundaries of the step back.
  // ---------------------------------------------------------------------

  /** The first of a month (other than January) steps back to the last day of
      the previous month of the same year. */
  lemma PreviousDayOfMonthStart(y: int, m: int)
    requires MinYear <= y <= MaxYear && 2 <= m <= 12
    ensures PreviousDay(Date(y, m, 1)) == Date(y, m - 1, DaysInMonth(y, m - 1))
  {
  }

  /** January 1 steps back to December 31 of the previous year. */
  lemma PreviousDayOfNewYear(y: int)
    requires MinYear < y <= MaxYear
    ensures PreviousDay(Date(y, 1, 1)) == Date(y - 1, 12, 31)
  {
  }

  /** March 1 steps back to February 29 exactly in leap years, else to February 28. */
  lemma PreviousDayOfMarchFirst(y: int)
    requires MinYear <= y <= MaxYear
    ensures PreviousDay(Date(y, 3, 1)) == Date(y, 2, 29) <==> IsLeapYear(y)
    ensures PreviousDay(Date(y, 3, 1)) == Date(y, 2, 28) <==> !IsLeapYear(y)
  {
  }

  // ---------------------------------------------------------------------
  // Days of the week.
  // ---------------------------------------------------------------------

  /** The day before `d` falls one weekday earlier, modulo 7. */
  lemma WeekdayOfPreviousDay(d: Date)
    requires ValidDate(d) && d != FirstDate
    ensures Weekday(PreviousDay(d)) == (Weekday(d) + 6) % 7
  {
    PreviousDayOrdinal(d);
    var n := Ordinal(d);
    assert Weekday(PreviousDay(d)) == (n + 5) % 7;
    ShiftMod7(n + 5);
  }

  /** The day after `d` falls one weekday later, modulo 7. */
  lemma WeekdayOfNextDay(d: Date)
    requires ValidDate(d) && d != LastDate
    ensures Weekday(NextDay(d)) == (Weekday(d) + 1) % 7
  {
    NextDayOrdinal(d);
    var n := Ordinal(d);
    assert Weekday(NextDay(d)) == (n + 7) % 7;
    ShiftMod7(n + 6);
  }

  /** One step of the week, as arithmetic: adding 1 before or after `% 7`. */
  lemma ShiftMod7(n: int)
    ensures (n + 1) % 7 == (n % 7 + 1) % 7
    ensures n % 7 == ((n + 1) % 7 + 6) % 7
  {
  }

  /** The proleptic Gregorian calendar starts on a Monday. */
  lemma FirstDateIsMonday()
    ensures Weekday(FirstDate) == 0
  {
  }

  /** May 19, 2020 was a Tuesday. */
  lemma TuesdayExample()
    ensures Weekday(Date(2020, 5, 19)) == 1
  {
  }

  /** `Weekday` is the only labelling of dates that starts on Monday and
      advances by one weekday per calendar day. */
  lemma {:induction false} WeekdayUnique(w: Date -> int, d: Date)
    requires w(FirstDate) == 0
    requires forall e :: ValidDate(e) && e != LastDate ==> w(NextDay(e)) == (w(e) + 1) % 7
    requires ValidDate(d)
    ensures w(d) == Weekday(d)
    decreases Ordinal(d)
  {
    if d == FirstDate {
      FirstDateIsMonday();
    } else {
      var p := PreviousDay(d);
      PreviousDayOrdinal(d);
      WeekdayUnique(w, p);
      PreviousNextInverse(d);
      assert p != LastDate && NextDay(p) == d;
      assert w(d) == (w(p) + 1) % 7;
      WeekdayOfNextDay(p);
    }
  }

  /** The Gregorian calendar repeats every 400 years, weekdays included. */
  lemma GregorianCycle(d: Date)
    requires ValidDate(d) && d.year + 400 <= MaxYear
    ensures ValidDate(Date(d.year + 400, d.month, d.day))
    ensures Ordinal(Date(d.year + 400, d.month, d.day)) == Ordinal(d) + 146097
    ensures Weekday(Date(d.year + 400, d.month, d.day)) == Weekday(d)
  {
    var e := Date(d.year + 400, d.month, d.day);
    LeapCycle(d.year);
    YearCycle(d.year);
    assert DaysBeforeMonth(e.year, e.month) == DaysBeforeMonth(d.year, d.month);
    var n := Ordinal(d);
    assert Ordinal(e) == n + 146097;
    WeekCycle(n + 6);
  }

  lemma LeapCycle(y: int)
    ensures IsLeapYear(y + 400) == IsLeapYear(y)
  {
    CycleDivisions(y);
  }

  lemma YearCycle(y: int)
    requires y >= 1
    ensures DaysBeforeYear(y + 400) == DaysBeforeYear(y) + 146097
  {
    var k := y - 1;
    CycleDivisions(k);
    assert DaysBeforeYear(y + 400) == (k + 400) * 365 + (k + 400) / 4 - (k + 400) / 100 + (k + 400) / 400;
  }

  /** 146097 days are exactly 20871 weeks. */
  lemma WeekCycle(n: int)
    ensures (n + 146097) % 7 == n % 7
  {
    assert n + 146097 == n + 7 * 20871;
  }

  /** 400 years hold 100 multiples of 4, 4 of 100 and 1 of 400. */
  lemma CycleDivisions(k: int)
    ensures (k + 400) / 4 == k / 4 + 100 && (k + 400) % 4 == k % 4
    ensures (k + 400) / 100 == k / 100 + 4 && (k + 400) % 100 == k % 100
    ensures (k + 400) / 400 == k / 400 + 1 && (k + 400) % 400 == k % 400
  {
  }
}
