/** The integer part of the Julian day: calendar arithmetic in one formula of truncating divisions. */
module JulianDay {
  import opened Calendar
  import opened CArithmetic

  /** Month and day start at 1 here. */
  function Formula(year: int, month: int, day: int): int {
    day - 32075 + CDiv(1461 * (year + 4800 + CDiv(month - 14, 12)), 4)
    + CDiv(367 * (month - 2 - CDiv(month - 14, 12) * 12), 12)
    - CDiv(3 * CDiv(year + 4900 + CDiv(day - 14, 12), 100), 4)
  }

  /** Month and day of the date record start at 0. */
  function JulianDayAtNoon(year: int, month: nat, day: nat): int {
    Formula(year, month + 1, day + 1)
  }

  predicate ValidDate(year: int, month: nat, day: nat) {
    month < 12 && day < DaysInMonth(year, month)
  }

  /** The Julian day of noon on the first day of the year 0. */
  const EPOCH := 1721060

  // ---------------------------------------------------------------- the century term

  /** Days left out by the century rule, counted to a year. */
  function CenturyDays(year: int): int {
    3 * ((year + 4900) / 100) / 4
  }

  predicate CenturyWithoutLeap(year: int) {
    year % 100 == 0 && year % 400 != 0
  }

  lemma CenturyDaysMean(year: int)
    ensures CenturyDays(year) == 36 + year / 100 - year / 400
  {
    var q := year / 100;
    assert (year + 4900) / 100 == q + 49;
    assert year / 400 == q / 4;
    Quarters(q);
  }

  lemma Quarters(q: int)
    ensures 3 * (q + 49) / 4 == 36 + q - q / 4
  {
  }

  /** The years in which the century rule leaves out a day. */
  lemma CenturyStep(year: int)
    ensures CenturyDays(year) == CenturyDays(year - 1) + if CenturyWithoutLeap(year) then 1 else 0
  {
    CenturyDaysMean(year);
    CenturyDaysMean(year - 1);
    DivisionStep(year, 100);
    DivisionStep(year, 400);
    FourHundreds(year);
    hide CenturyDays;
  }

  lemma FourHundreds(year: int)
    ensures year % 400 == 0 ==> year % 100 == 0
  {
    assert year == 400 * (year / 400) + year % 400;
  }

  // ---------------------------------------------------------------- the formula

  /** The years in which a month and a day put the date, as the truncating divisions have it. */
  function MonthShift(month: nat): int {
    if month < 2 then -1 else 0
  }

  function DayShift(day: nat): int {
    if day < 2 then -1 else if day < 25 then 0 else 1
  }

  lemma FormulaMeans(year: int, month: nat, day: nat)
    requires year >= -4799 && month < 12 && day < 31
    ensures JulianDayAtNoon(year, month, day) ==
            day + 1 - 32075 + 1461 * (year + 4800 + MonthShift(month)) / 4
            + 367 * (month - 1 - MonthShift(month) * 12) / 12 - CenturyDays(year + DayShift(day))
  {
    assert CDiv(month + 1 - 14, 12) == MonthShift(month);
    assert CDiv(day + 1 - 14, 12) == DayShift(day);
  }

  lemma MonthTerm(month: nat)
    requires month < 12
    ensures 367 * (month - 1 - MonthShift(month) * 12) / 12 == BEFORE_MONTH[month] + if month < 2 then 336 else -29
  {
  }

  lemma YearTerm(y: int)
    ensures 1461 * (y + 4800) / 4 == 365 * y + y / 4 + 1753200
  {
    var q, r := y / 4, y % 4;
    assert y == 4 * q + r;
    assert 1461 * (y + 4800) == 4 * (1461 * q + 1461 * 1200 + 365 * r) + r;
  }

  lemma DayNumberMeans(year: int, month: nat, day: nat)
    requires month < 12
    ensures DayNumber(year, month, day) ==
            365 * year + LeapYearsTo(year + MonthShift(month)) + 1 + BEFORE_MONTH[month] + day
  {
    DaysBeforeYearClosed(year);
    MonthTable(year, month);
    LeapYearsStep(year);
  }

  /** Where the century rule counted by the day of the month instead of the month goes wrong. */
  function Discrepancy(year: int, month: nat, day: nat): int {
    CenturyDays(year + MonthShift(month)) - CenturyDays(year + DayShift(day))
  }

  lemma FormulaIsCountPlusDiscrepancy(year: int, month: nat, day: nat)
    requires year >= -4799 && month < 12 && day < 31
    ensures JulianDayAtNoon(year, month, day) == EPOCH + DayNumber(year, month, day) + Discrepancy(year, month, day)
  {
    FormulaMeans(year, month, day);
    MonthTerm(month);
    var y := year + MonthShift(month);
    YearTerm(y);
    CenturyDaysMean(y);
    DayNumberMeans(year, month, day);
    hide JulianDayAtNoon, CenturyDays, DayNumber;
  }

  /** One day early, one day late, or right. */
  function ErrorOf(year: int, month: nat, day: nat): int {
    if CenturyWithoutLeap(year) then
      if month < 2 && day >= 2 then -1 else if month >= 2 && day < 2 then 1 else 0
    else if CenturyWithoutLeap(year + 1) && day >= 25 then -1
    else 0
  }

  lemma CenturiesApart(year: int)
    ensures !(CenturyWithoutLeap(year) && CenturyWithoutLeap(year + 1))
  {
    assert year % 100 == 0 ==> (year + 1) % 100 == 1;
  }

  lemma DiscrepancyIsError(year: int, month: nat, day: nat)
    ensures Discrepancy(year, month, day) == ErrorOf(year, month, day)
  {
    CenturyStep(year);
    CenturyStep(year + 1);
    CenturiesApart(year);
    hide CenturyDays, CenturyWithoutLeap;
  }

  /** Main result: the formula against the count of days, for every date from the year -4799 on. */
  lemma JulianDayCountsDays(year: int, month: nat, day: nat)
    requires year >= -4799 && ValidDate(year, month, day)
    ensures JulianDayAtNoon(year, month, day) == EPOCH + DayNumber(year, month, day) + ErrorOf(year, month, day)
  {
    FormulaIsCountPlusDiscrepancy(year, month, day);
    DiscrepancyIsError(year, month, day);
    hide JulianDayAtNoon, DayNumber, Discrepancy, ErrorOf;
  }

  /** The dates on which the formula is right: all but those where day and month disagree about a century year. */
  lemma JulianDayIsRightExactly(year: int, month: nat, day: nat)
    requires year >= -4799 && ValidDate(year, month, day)
    ensures JulianDayAtNoon(year, month, day) == EPOCH + DayNumber(year, month, day) <==>
            !(CenturyWithoutLeap(year) && (month < 2 <==> day >= 2)) && !(CenturyWithoutLeap(year + 1) && day >= 25)
  {
    JulianDayCountsDays(year, month, day);
    CenturiesApart(year);
    hide JulianDayAtNoon, DayNumber, ValidDate, CenturyWithoutLeap;
  }

  lemma AwayFromCenturies(year: int)
    requires year % 100 != 0 && year % 100 != 99
    ensures !CenturyWithoutLeap(year) && !CenturyWithoutLeap(year + 1)
  {
    assert (year + 1) % 100 == year % 100 + 1;
  }

  lemma JulianDayIsRightAwayFromCenturies(year: int, month: nat, day: nat)
    requires year >= -4799 && ValidDate(year, month, day) && year % 100 != 0 && year % 100 != 99
    ensures JulianDayAtNoon(year, month, day) == EPOCH + DayNumber(year, month, day)
  {
    JulianDayCountsDays(year, month, day);
    AwayFromCenturies(year);
    hide JulianDayAtNoon, DayNumber, ValidDate, CenturyWithoutLeap;
  }

  /** The epoch is the standard one: noon of 1 January 2000 is Julian day 2451545. */
  lemma StandardEpoch()
    ensures JulianDayAtNoon(2000, 0, 0) == 2451545
  {
    FormulaMeans(2000, 0, 0);
  }

  /** The error shows: 3 January 1900 has the Julian day of the day before. */
  lemma WrongAtTheCentury()
    ensures JulianDayAtNoon(1900, 0, 2) == JulianDayAtNoon(1900, 0, 1)
    ensures ValidDate(1900, 0, 1) && ValidDate(1900, 0, 2)
  {
    FormulaMeans(1900, 0, 2);
    FormulaMeans(1900, 0, 1);
  }
}
