/** Bringing the fields of a time and a date into range, in place, in fields of one byte each. */
module DateNormalisation {
  import opened Calendar

  type byte = x: int | 0 <= x < 256
  type ushort = x: int | 0 <= x < 65536
  type short = x: int | -32768 <= x < 32768

  datatype Moment = Moment(ms: ushort, seconds: byte, minutes: byte, hours: byte, day: byte, month: byte, year: short)

  predicate InRange(m: Moment) {
    m.ms < 1000 && m.seconds < 60 && m.minutes < 60 && m.hours < 24
    && m.month < 12 && m.day < DaysInMonth(m.year, m.month)
  }

  const MS_PER_DAY := 86400000

  /** Milliseconds from the beginning of the year 0, whatever the fields hold. */
  function Instant(m: Moment): int {
    ((m.hours * 60 + m.minutes) * 60 + m.seconds) * 1000 + m.ms + MS_PER_DAY * DayNumber(m.year, m.month, m.day)
  }

  // ---------------------------------------------------------------- what the loops compute

  function WrapYear(y: int): (r: short)
    ensures (y - r) % 65536 == 0
  {
    (y + 32768) % 65536 - 32768
  }

  /** The carries into seconds, minutes, hours, days and years, before the byte drops what it cannot hold. */
  function Seconds(m: Moment): nat { m.seconds + m.ms / 1000 }
  function Minutes(m: Moment): nat { m.minutes + Seconds(m) % 256 / 60 }
  function Hours(m: Moment): nat { m.hours + Minutes(m) % 256 / 60 }
  function Days(m: Moment): nat { m.day + Hours(m) % 256 / 24 }
  function Years(m: Moment): int { m.year + m.month / 12 }

  /** All fields in range but the day, which still counts from the beginning of the month. */
  function Carried(m: Moment): (r: Moment)
    ensures r.ms < 1000 && r.seconds < 60 && r.minutes < 60 && r.hours < 24 && r.month < 12
  {
    Moment(m.ms % 1000, Seconds(m) % 256 % 60, Minutes(m) % 256 % 60, Hours(m) % 256 % 24, Days(m) % 256,
           m.month % 12, WrapYear(Years(m)))
  }

  /** Takes off month after month; the months from 12 to 255 have no days, and month 0 of the same year follows. */
  function RollDays(year: short, month: byte, day: byte): (r: (byte, byte))
    ensures r.0 < 12 && r.1 < DaysInMonth(year, r.0)
    decreases day, if month >= 12 then 256 - month else 0
  {
    var n := DaysInMonth(year, month);
    if day >= n then RollDays(year, (month + 1) % 256, day - n) else (month, day)
  }

  function Normalised(m: Moment): (r: Moment)
    ensures InRange(r)
  {
    var c := Carried(m);
    var (month, day) := RollDays(c.year, c.month, c.day);
    c.(month := month, day := day)
  }

  // ---------------------------------------------------------------- days

  function DayOfYear(year: int, month: nat, day: nat): nat {
    DaysBeforeMonth(year, month) + day
  }

  /** The days run past the end of December. */
  predicate PastDecember(m: Moment) {
    DayOfYear(Carried(m).year, Carried(m).month, Carried(m).day) >= YearLength(Carried(m).year)
  }

  lemma {:induction false} NoDaysBeyondDecember(year: short, month: byte, day: byte)
    requires month >= 12
    ensures RollDays(year, month, day) == RollDays(year, 0, day)
    decreases 256 - month
  {
    hide DaysInMonth;
    if month < 255 {
      NoDaysBeyondDecember(year, month + 1, day);
    }
  }

  lemma MonthEnd(year: int, month: nat, day: nat)
    requires month < 12
    ensures day < DaysInMonth(year, month) ==> DayOfYear(year, month, day) < YearLength(year)
    ensures DaysBeforeMonth(year, month + 1) == DaysBeforeMonth(year, month) + DaysInMonth(year, month)
    ensures YearLength(year) >= 365
  {
    MonthTable(year, month);
    MonthTable(year, 12);
  }

  /** Rolling keeps the day of the year; past December it comes out exactly one year's length early. */
  lemma {:induction false} RolledDays(year: short, month: byte, day: byte)
    requires month < 12
    ensures var r := RollDays(year, month, day);
            DayOfYear(year, r.0, r.1) == DayOfYear(year, month, day) -
              if DayOfYear(year, month, day) >= YearLength(year) then YearLength(year) else 0
    decreases day
  {
    hide DaysBeforeMonth, YearLength, DaysInMonth;
    MonthEnd(year, month, day);
    var n := DaysInMonth(year, month);
    if day >= n {
      if month < 11 {
        RolledDays(year, month + 1, day - n);
      } else {
        NoDaysBeyondDecember(year, 12, day - n);
        RolledDays(year, 0, day - n);
        YearStart(year);
      }
    }
  }

  lemma YearStart(year: int)
    ensures DaysBeforeMonth(year, 0) == 0 && DaysBeforeMonth(year, 12) == YearLength(year)
  {
  }

  // ---------------------------------------------------------------- the instant

  /** Milliseconds of the carries that do not fit a byte. */
  function DroppedTime(m: Moment): nat {
    Seconds(m) / 256 * 256000 + Minutes(m) / 256 * 15360000 + Hours(m) / 256 * 921600000
  }

  /** Days that do not fit a byte, years that do not fit 16 bits, and the year that December falls back. */
  function DroppedDays(m: Moment): int {
    Days(m) / 256 * 256
    + DaysBeforeYear(Years(m)) - DaysBeforeYear(WrapYear(Years(m)))
    + DaysBeforeMonth(Years(m), m.month % 12) - DaysBeforeMonth(WrapYear(Years(m)), m.month % 12)
    + if PastDecember(m) then YearLength(WrapYear(Years(m))) else 0
  }

  function TimeOfDay(m: Moment): nat {
    ((m.hours * 60 + m.minutes) * 60 + m.seconds) * 1000 + m.ms
  }

  lemma CarriedTime(m: Moment)
    ensures TimeOfDay(m) + MS_PER_DAY * m.day == TimeOfDay(Carried(m)) + MS_PER_DAY * Days(m) + DroppedTime(m)
  {
    hide DaysInMonth, WrapYear;
    var s, mi, h := Seconds(m), Minutes(m), Hours(m);
    assert m.ms == 1000 * (m.ms / 1000) + m.ms % 1000;
    assert s == 256 * (s / 256) + s % 256 && s % 256 == 60 * (s % 256 / 60) + s % 256 % 60;
    assert mi == 256 * (mi / 256) + mi % 256 && mi % 256 == 60 * (mi % 256 / 60) + mi % 256 % 60;
    assert h == 256 * (h / 256) + h % 256 && h % 256 == 24 * (h % 256 / 24) + h % 256 % 24;
  }

  lemma CarriedDays(m: Moment)
    ensures var c, r := Carried(m), Normalised(m);
            DayNumber(m.year, m.month, Days(m)) == DayNumber(r.year, r.month, r.day) + DroppedDays(m)
  {
    hide DaysBeforeMonth, DaysBeforeYear, YearLength, WrapYear, DayNumber, Days, RollDays, DaysInMonth;
    var c, r := Carried(m), Normalised(m);
    RolledDays(c.year, c.month, c.day);
    DayNumberInYear(r.year, r.month, r.day);
    DayNumberAcrossYears(m.year, m.month, Days(m));
    assert Days(m) == Days(m) / 256 * 256 + Days(m) % 256;
  }

  lemma DayNumberInYear(year: int, month: nat, day: nat)
    requires month < 12
    ensures DayNumber(year, month, day) == DaysBeforeYear(year) + DayOfYear(year, month, day)
  {
    hide DaysBeforeMonth, DaysBeforeYear;
  }

  lemma DayNumberAcrossYears(year: int, month: nat, day: nat)
    ensures DayNumber(year, month, day)
            == DaysBeforeYear(year + month / 12) + DaysBeforeMonth(year + month / 12, month % 12) + day
  {
    hide DaysBeforeMonth, DaysBeforeYear;
  }

  /** What normalising loses, to the millisecond. */
  lemma NormalisingLoses(m: Moment)
    ensures Instant(m) == Instant(Normalised(m)) + DroppedTime(m) + MS_PER_DAY * DroppedDays(m)
  {
    CarriedTime(m);
    CarriedDays(m);
    hide Carried, DroppedTime, DroppedDays, Seconds, Minutes, Hours, DaysBeforeYear, DaysBeforeMonth;
  }

  lemma YearStep(year: int)
    ensures DaysBeforeYear(year + 1) == DaysBeforeYear(year) + YearLength(year)
    ensures YearLength(year) >= 365
  {
    MonthTable(year, 12);
  }

  lemma {:induction false} YearsAreLong(a: int, b: int)
    requires a <= b
    ensures DaysBeforeYear(b) - DaysBeforeYear(a) >= 365 * (b - a)
    decreases b - a
  {
    if a < b {
      YearsAreLong(a, b - 1);
      YearStep(b - 1);
    }
  }

  lemma DroppedYears(m: Moment)
    ensures var y, w := Years(m), WrapYear(Years(m));
            var d := DaysBeforeYear(y) - DaysBeforeYear(w)
                     + DaysBeforeMonth(y, m.month % 12) - DaysBeforeMonth(w, m.month % 12);
            d >= 0 && (d == 0 <==> y <= 32767)
  {
    var y, w := Years(m), WrapYear(Years(m));
    assert w == y || w == y - 65536;
    YearsAreLong(w, y);
    MonthTable(y, m.month % 12);
    MonthTable(w, m.month % 12);
    hide DaysBeforeYear, DaysBeforeMonth;
  }

  /** The carries that a caller can check beforehand to fit their fields. */
  predicate CarriesFit(m: Moment) {
    Seconds(m) <= 255 && Minutes(m) <= 255 && Hours(m) <= 255 && Days(m) <= 255 && Years(m) <= 32767
  }

  lemma Overflow(x: nat)
    ensures x / 256 * 256 >= 0 && (x / 256 == 0 <==> x <= 255)
  {
  }

  lemma NoTimeDropped(m: Moment)
    ensures DroppedTime(m) >= 0
    ensures DroppedTime(m) == 0 <==> Seconds(m) <= 255 && Minutes(m) <= 255 && Hours(m) <= 255
  {
    Overflow(Seconds(m));
    Overflow(Minutes(m));
    Overflow(Hours(m));
    hide Seconds, Minutes, Hours;
  }

  lemma NoDaysDropped(m: Moment)
    ensures DroppedDays(m) >= 0
    ensures DroppedDays(m) == 0 <==> Days(m) <= 255 && Years(m) <= 32767 && !PastDecember(m)
  {
    Overflow(Days(m));
    DroppedYears(m);
    YearStep(WrapYear(Years(m)));
    hide PastDecember, DaysBeforeYear, DaysBeforeMonth, YearLength, Days, Years, WrapYear;
  }

  /** Main result: the instant is kept exactly when the carries fit and the days do not run past December. */
  lemma InstantKeptExactly(m: Moment)
    ensures Instant(Normalised(m)) == Instant(m) <==> CarriesFit(m) && !PastDecember(m)
    ensures Instant(Normalised(m)) <= Instant(m)
  {
    NormalisingLoses(m);
    NoTimeDropped(m);
    NoDaysDropped(m);
    hide Instant, Normalised, DroppedTime, DroppedDays, PastDecember, Seconds, Minutes, Hours, Days;
  }

  /** Past December the date is one year's length early: daysInMonth has no month 12, and the month byte comes round. */
  lemma PastDecemberIsAYearEarly(m: Moment)
    requires CarriesFit(m) && PastDecember(m)
    ensures Instant(m) - Instant(Normalised(m)) == MS_PER_DAY * YearLength(Years(m))
    ensures Normalised(m).year == Years(m)
  {
    NormalisingLoses(m);
    NoTimeDropped(m);
    NoDaysDropped(m);
    hide Instant, PastDecember, DaysBeforeYear, DaysBeforeMonth, RollDays, DroppedTime, DaysInMonth;
    hide Seconds, Minutes, Hours;
  }

  /** A date in range stays as it is. */
  lemma InRangeIsKept(m: Moment)
    requires InRange(m)
    ensures Normalised(m) == m
  {
    CarriedInRange(m);
    hide Carried, DaysInMonth;
  }

  lemma CarriedInRange(m: Moment)
    requires m.ms < 1000 && m.seconds < 60 && m.minutes < 60 && m.hours < 24 && m.month < 12
    ensures Carried(m) == m
  {
    WrapKeepsShort(m.year);
    InField(m.ms, 1000);
    InField(m.seconds, 60);
    InField(m.minutes, 60);
    InField(m.hours, 24);
    InField(m.day, 256);
    InField(m.month, 12);
    hide WrapYear, DaysInMonth;
  }

  lemma InField(x: nat, d: nat)
    requires x < d <= 256 || (x < d && d == 1000)
    ensures x / d == 0 && x % d == x && (d <= 256 ==> x % 256 == x)
  {
  }

  lemma WrapKeepsShort(y: short)
    ensures WrapYear(y) == y
  {
  }

  /** Normalising twice is normalising once. */
  lemma NormalisingAgain(m: Moment)
    ensures Normalised(Normalised(m)) == Normalised(m)
  {
    InRangeIsKept(Normalised(m));
  }

  // ---------------------------------------------------------------- in place

  class TimeRecord {
    var hours: byte
    var minutes: byte
    var seconds: byte
    var milliseconds: ushort
  }

  class DateRecord {
    var day: byte
    var month: byte
    var year: short
  }

  ghost function Fields(time: TimeRecord, date: DateRecord): Moment
    reads time, date
  {
    Moment(time.milliseconds, time.seconds, time.minutes, time.hours, date.day, date.month, date.year)
  }

  lemma NextByte(x: nat)
    ensures (x % 256 + 1) % 256 == (x + 1) % 256
  {
  }

  method CarrySeconds(time: TimeRecord)
    modifies time
    ensures time.milliseconds == old(time.milliseconds) % 1000
    ensures time.seconds == (old(time.seconds) + old(time.milliseconds) / 1000) % 256
    ensures time.minutes == old(time.minutes) && time.hours == old(time.hours)
  {
    ghost var carry := 0;
    while time.milliseconds >= 1000
      invariant time.milliseconds == old(time.milliseconds) - 1000 * carry
      invariant time.seconds == (old(time.seconds) + carry) % 256
      invariant time.minutes == old(time.minutes) && time.hours == old(time.hours)
    {
      time.milliseconds := time.milliseconds - 1000;
      NextByte(old(time.seconds) + carry);
      time.seconds := (time.seconds + 1) % 256;
      carry := carry + 1;
    }
  }

  method CarryMinutes(time: TimeRecord)
    modifies time
    ensures time.seconds == old(time.seconds) % 60
    ensures time.minutes == (old(time.minutes) + old(time.seconds) / 60) % 256
    ensures time.milliseconds == old(time.milliseconds) && time.hours == old(time.hours)
  {
    ghost var carry := 0;
    while time.seconds >= 60
      invariant time.seconds == old(time.seconds) - 60 * carry
      invariant time.minutes == (old(time.minutes) + carry) % 256
      invariant time.milliseconds == old(time.milliseconds) && time.hours == old(time.hours)
    {
      time.seconds := time.seconds - 60;
      NextByte(old(time.minutes) + carry);
      time.minutes := (time.minutes + 1) % 256;
      carry := carry + 1;
    }
  }

  method CarryHours(time: TimeRecord)
    modifies time
    ensures time.minutes == old(time.minutes) % 60
    ensures time.hours == (old(time.hours) + old(time.minutes) / 60) % 256
    ensures time.milliseconds == old(time.milliseconds) && time.seconds == old(time.seconds)
  {
    ghost var carry := 0;
    while time.minutes >= 60
      invariant time.minutes == old(time.minutes) - 60 * carry
      invariant time.hours == (old(time.hours) + carry) % 256
      invariant time.milliseconds == old(time.milliseconds) && time.seconds == old(time.seconds)
    {
      time.minutes := time.minutes - 60;
      NextByte(old(time.hours) + carry);
      time.hours := (time.hours + 1) % 256;
      carry := carry + 1;
    }
  }

  method CarryDays(time: TimeRecord, date: DateRecord)
    modifies time, date
    ensures time.hours == old(time.hours) % 24
    ensures date.day == (old(date.day) + old(time.hours) / 24) % 256
    ensures time.milliseconds == old(time.milliseconds) && time.seconds == old(time.seconds)
            && time.minutes == old(time.minutes)
    ensures date.month == old(date.month) && date.year == old(date.year)
  {
    ghost var carry := 0;
    while time.hours >= 24
      invariant time.hours == old(time.hours) - 24 * carry
      invariant date.day == (old(date.day) + carry) % 256
      invariant time.milliseconds == old(time.milliseconds) && time.seconds == old(time.seconds)
      invariant time.minutes == old(time.minutes) && date.month == old(date.month) && date.year == old(date.year)
    {
      time.hours := time.hours - 24;
      NextByte(old(date.day) + carry);
      date.day := (date.day + 1) % 256;
      carry := carry + 1;
    }
  }

  method CarryYears(date: DateRecord)
    modifies date
    ensures date.month == old(date.month) % 12
    ensures date.year == WrapYear(old(date.year) + old(date.month) / 12)
    ensures date.day == old(date.day)
  {
    ghost var carry := 0;
    while date.month >= 12
      invariant date.month == old(date.month) - 12 * carry
      invariant date.year == WrapYear(old(date.year) + carry)
      invariant date.day == old(date.day)
    {
      date.month := date.month - 12;
      date.year := WrapYear(date.year + 1);
      carry := carry + 1;
    }
  }

  method RollMonths(date: DateRecord)
    modifies date
    ensures (date.month, date.day) == RollDays(old(date.year), old(date.month), old(date.day))
    ensures date.year == old(date.year)
  {
    var days := DaysInMonth(date.year, date.month);
    while date.day >= days
      invariant days == DaysInMonth(date.year, date.month)
      invariant RollDays(date.year, date.month, date.day) == RollDays(old(date.year), old(date.month), old(date.day))
      invariant date.year == old(date.year)
      decreases date.day, if date.month >= 12 then 256 - date.month else 0
    {
      date.day := date.day - days;
      date.month := (date.month + 1) % 256;
      days := DaysInMonth(date.year, date.month);
    }
  }

  /** All carries but those of the days. */
  method CarryAll(time: TimeRecord, date: DateRecord)
    modifies time, date
    ensures Fields(time, date) == Carried(old(Fields(time, date)))
  {
    hide WrapYear, DaysInMonth;
    CarrySeconds(time);
    CarryMinutes(time);
    CarryHours(time);
    CarryDays(time, date);
    CarryYears(date);
  }

  /** A missing record is left alone. The last carry into the year never has anything to do. */
  method CheckDateTimeRanges(time: TimeRecord?, date: DateRecord?)
    modifies time, date
    ensures time != null && date != null ==> Fields(time, date) == Normalised(old(Fields(time, date)))
    ensures date == null && time != null ==> unchanged(time)
    ensures time == null && date != null ==> unchanged(date)
  {
    hide Carried, WrapYear, DaysInMonth, RollDays;
    if date == null || time == null {
      return;
    }
    CarryAll(time, date);
    RollMonths(date);
    WrapKeepsShort(date.year);
    CarryYears(date);
  }
}
