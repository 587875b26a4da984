/** The calendar: leap years, days in a month, and the days and milliseconds counted from them.
    Months and days start at 0. */
module Calendar {

  predicate IsLeapYear(year: int) {
    (year % 4 == 0 && year % 100 != 0) || (year % 4 == 0 && year % 100 == 0 && year % 400 == 0)
  }

  const MONTHS: seq<nat> := [31, 28, 31, 30, 31, 30, 31, 31, 30, 31, 30, 31]

  /** There is no month beyond 11: it has no days. */
  function DaysInMonth(year: int, month: nat): (n: nat)
    ensures n == 0 <==> month >= 12
    ensures n <= 31
  {
    if month >= 12 then 0
    else if month == 1 && IsLeapYear(year) then 29
    else MONTHS[month]
  }

  function DaysBeforeMonth(year: int, month: nat): nat {
    if month == 0 then 0 else DaysBeforeMonth(year, month - 1) + DaysInMonth(year, month - 1)
  }

  function YearLength(year: int): nat {
    DaysBeforeMonth(year, 12)
  }

  /** Days from the beginning of the year 0. */
  function DaysBeforeYear(year: int): int
    decreases if year < 0 then -year else year
  {
    if year == 0 then 0
    else if year > 0 then DaysBeforeYear(year - 1) + YearLength(year - 1)
    else DaysBeforeYear(year + 1) - YearLength(year)
  }

  /** Months from 12 on belong to the years after. */
  function DayNumber(year: int, month: nat, day: int): int {
    DaysBeforeYear(year + month / 12) + DaysBeforeMonth(year + month / 12, month % 12) + day
  }

  // ---------------------------------------------------------------- closed forms

  const BEFORE_MONTH: seq<nat> := [0, 31, 59, 90, 120, 151, 181, 212, 243, 273, 304, 334, 365]

  function LeapDay(year: int): nat {
    if IsLeapYear(year) then 1 else 0
  }

  lemma {:induction false} MonthTable(year: int, month: nat)
    requires month <= 12
    ensures DaysBeforeMonth(year, month) == BEFORE_MONTH[month] + if month >= 2 then LeapDay(year) else 0
  {
    if month > 0 {
      MonthTable(year, month - 1);
    }
  }

  /** Leap years from year 1 to a year, by the Gregorian rule; less than 0 for years before. */
  function LeapYearsTo(year: int): int {
    year / 4 - year / 100 + year / 400
  }

  lemma LeapYearsStep(year: int)
    ensures LeapYearsTo(year) == LeapYearsTo(year - 1) + LeapDay(year)
  {
    DivisionStep(year, 4);
    DivisionStep(year, 100);
    DivisionStep(year, 400);
    LeapDayMeans(year);
    hide LeapDay;
  }

  lemma LeapDayMeans(year: int)
    ensures LeapDay(year)
            == (if year % 4 == 0 then 1 else 0) - (if year % 100 == 0 then 1 else 0)
               + (if year % 400 == 0 then 1 else 0)
  {
    if year % 100 == 0 {
      assert year == 4 * (25 * (year / 100));
    }
    if year % 400 == 0 {
      assert year == 100 * (4 * (year / 400));
    }
  }

  lemma DivisionStep(x: int, d: int)
    requires d == 4 || d == 100 || d == 400
    ensures x / d == (x - 1) / d + if x % d == 0 then 1 else 0
  {
  }

  lemma BeforeYearZero()
    ensures LeapYearsTo(-1) == -1
  {
  }

  /** The days before a year in closed form: the recursion by years agrees with the rule of leap years. */
  lemma {:induction false} DaysBeforeYearClosed(year: int)
    ensures DaysBeforeYear(year) == 365 * year + LeapYearsTo(year - 1) + 1
    decreases if year < 0 then -year else year
  {
    hide LeapYearsTo, LeapDay, DaysBeforeMonth;
    BeforeYearZero();
    if year > 0 {
      DaysBeforeYearClosed(year - 1);
      LeapYearsStep(year - 1);
      MonthTable(year - 1, 12);
    } else if year < 0 {
      DaysBeforeYearClosed(year + 1);
      LeapYearsStep(year);
      MonthTable(year, 12);
    }
  }
}
