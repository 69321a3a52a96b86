/** The parts of the JavaScript Date object the calendar screen relies on,
    in local time: day numbers counted from 1970-01-01, the proleptic
    Gregorian calendar, `new Date(year, month, day)` with its rollover of an
    out-of-range month or day, and getDay. The formulas are those of section
    21.4.1 of ECMAScript 2024 (DayFromYear, MakeDay, WeekDay). */
module CivilDates {

  /** A calendar date as getFullYear, getMonth (0 = January) and getDate
      return it. */
  datatype CivilDate = CivilDate(year: int, month: int, day: int)

  predicate IsLeapYear(y: int) {
    y % 4 == 0 && (y % 100 != 0 || y % 400 == 0)
  }

  function DaysInYear(y: int): int {
    if IsLeapYear(y) then 366 else 365
  }

  function DaysInMonth(y: int, m: int): (n: int)
    requires 0 <= m < 12
    ensures 28 <= n <= 31
  {
    if m == 1 then (if IsLeapYear(y) then 29 else 28)
    else if m == 3 || m == 5 || m == 8 || m == 10 then 30
    else 31
  }

  predicate Valid(d: CivilDate) {
    0 <= d.month < 12 && 1 <= d.day <= DaysInMonth(d.year, d.month)
  }

  /** The day number of 1 January of year y. */
  function DayFromYear(y: int): (n: int)
    ensures y == 1970 ==> n == 0
    ensures y == 1971 ==> n == 365
  {
    365 * (y - 1970) + (y - 1969) / 4 - (y - 1901) / 100 + (y - 1601) / 400
  }

  /** Days of year y before the first of month m (m = 12: the whole year). */
  function DaysBeforeMonth(y: int, m: int): int
    requires 0 <= m <= 12
  {
    var common := [0, 31, 59, 90, 120, 151, 181, 212, 243, 273, 304, 334, 365];
    common[m] + (if m >= 2 && IsLeapYear(y) then 1 else 0)
  }

  /** The day number of the first of month m of year y. */
  function MonthStart(y: int, m: int): int
    requires 0 <= m < 12
  {
    DayFromYear(y) + DaysBeforeMonth(y, m)
  }

  function DayNumber(d: CivilDate): int
    requires 0 <= d.month < 12
  {
    MonthStart(d.year, d.month) + d.day - 1
  }

  /** MakeDay(year, month, date): the month is first folded into the year
      with floor division, then the date is counted from the first. */
  function MakeDay(y: int, m: int, d: int): (n: int)
    ensures 0 <= m < 12 ==> n == DayNumber(CivilDate(y, m, d))
    ensures 0 <= m < 12 && d == 1 ==> n == MonthStart(y, m)
  {
    MonthStart(y + m / 12, m % 12) + d - 1
  }

  /** getDay: 0 = Sunday; 1970-01-01 was a Thursday. */
  function WeekDay(dayNumber: int): (w: int)
    ensures 0 <= w < 7
  {
    (dayNumber + 4) % 7
  }

  function PreviousMonth(y: int, m: int): (r: (int, int))
    requires 0 <= m < 12
    ensures 0 <= r.1 < 12
  {
    if m == 0 then (y - 1, 11) else (y, m - 1)
  }

  function NextMonth(y: int, m: int): (r: (int, int))
    requires 0 <= m < 12
    ensures 0 <= r.1 < 12
  {
    if m == 11 then (y + 1, 0) else (y, m + 1)
  }

  /** The date `new Date(y, m, d)` reads back as. The month is folded into
      the year; then a day before the first moves into the previous month
      and a day after the last into the next one, as often as needed. */
  function NewDate(y: int, m: int, d: int): (r: CivilDate)
    ensures Valid(r)
  {
    RollDay(y + m / 12, m % 12, d)
  }

  function RollDay(y: int, m: int, d: int): (r: CivilDate)
    requires 0 <= m < 12
    ensures Valid(r)
    decreases if d < 1 then 1 - d else 0, d
  {
    if d < 1 then
      var (py, pm) := PreviousMonth(y, m);
      RollDay(py, pm, d + DaysInMonth(py, pm))
    else if d > DaysInMonth(y, m) then
      var (ny, nm) := NextMonth(y, m);
      RollDay(ny, nm, d - DaysInMonth(y, m))
    else CivilDate(y, m, d)
  }

  /** (a + 1) / n - a / n for the divisors of the leap-year rule. */
  lemma FloorStep4(a: int)
    ensures (a + 1) / 4 - a / 4 == if (a + 1) % 4 == 0 then 1 else 0
  {
  }

  lemma FloorStep100(a: int)
    ensures (a + 1) / 100 - a / 100 == if (a + 1) % 100 == 0 then 1 else 0
  {
  }

  lemma FloorStep400(a: int)
    ensures (a + 1) / 400 - a / 400 == if (a + 1) % 400 == 0 then 1 else 0
  {
  }

  /** The three remainders of the leap-year rule, seen from the offsets
      DayFromYear counts from. */
  lemma LeapOffsets(y: int)
    ensures (y - 1968) % 4 == 0 <==> y % 4 == 0
    ensures (y - 1900) % 100 == 0 <==> y % 100 == 0
    ensures (y - 1600) % 400 == 0 <==> y % 400 == 0
  {
    ShiftMod4(y, 492);
    ShiftMod100(y, 19);
    ShiftMod400(y, 4);
  }

  lemma ShiftMod4(y: int, q: int)
    ensures (y - 4 * q) % 4 == y % 4
  {
  }

  lemma ShiftMod100(y: int, q: int)
    ensures (y - 100 * q) % 100 == y % 100
  {
  }

  lemma ShiftMod400(y: int, q: int)
    ensures (y - 400 * q) % 400 == y % 400
  {
  }

  /** A multiple of 400 is one of 100, and a multiple of 100 one of 4. */
  lemma DivisorChain(y: int)
    ensures y % 400 == 0 ==> y % 100 == 0
    ensures y % 100 == 0 ==> y % 4 == 0
  {
    if y % 400 == 0 {
      MultipleOf100(y, 4 * (y / 400));
    }
    if y % 100 == 0 {
      MultipleOf4(y, 25 * (y / 100));
    }
  }

  lemma MultipleOf100(y: int, k: int)
    requires y == 100 * k
    ensures y % 100 == 0
  {
  }

  lemma MultipleOf4(y: int, k: int)
    requires y == 4 * k
    ensures y % 4 == 0
  {
  }

  /** Consecutive years are DaysInYear apart. */
  lemma {:induction false} YearStep(y: int)
    ensures DayFromYear(y + 1) == DayFromYear(y) + DaysInYear(y)
  {
    FloorStep4(y - 1969);
    FloorStep100(y - 1901);
    FloorStep400(y - 1601);
    LeapOffsets(y);
    DivisorChain(y);
    var a := (y - 1968) / 4 - (y - 1969) / 4;
    var b := (y - 1900) / 100 - (y - 1901) / 100;
    var c := (y - 1600) / 400 - (y - 1601) / 400;
    assert a == if y % 4 == 0 then 1 else 0;
    assert b == if y % 100 == 0 then 1 else 0;
    assert c == if y % 400 == 0 then 1 else 0;
    assert DayFromYear(y + 1) - DayFromYear(y) == 365 + a - b + c;
  }

  /** The first of the next month is DaysInMonth days after the first of
      this one, across a year end too. */
  lemma {:induction false} MonthStep(y: int, m: int)
    requires 0 <= m < 12
    ensures var (ny, nm) := NextMonth(y, m); MonthStart(ny, nm) == MonthStart(y, m) + DaysInMonth(y, m)
  {
    if m == 11 {
      YearStep(y);
    }
  }

  /** new Date(y, m, d) lands on day MakeDay(y, m, d): the rollover agrees
      with the day-number arithmetic of the standard. */
  lemma {:induction false} RollDayAgrees(y: int, m: int, d: int)
    requires 0 <= m < 12
    ensures DayNumber(RollDay(y, m, d)) == MonthStart(y, m) + d - 1
    decreases if d < 1 then 1 - d else 0, d
  {
    if d < 1 {
      var (py, pm) := PreviousMonth(y, m);
      RollDayAgrees(py, pm, d + DaysInMonth(py, pm));
      MonthStep(py, pm);
      assert NextMonth(py, pm) == (y, m);
    } else if d > DaysInMonth(y, m) {
      var (ny, nm) := NextMonth(y, m);
      RollDayAgrees(ny, nm, d - DaysInMonth(y, m));
      MonthStep(y, m);
    }
  }

  lemma {:induction false} NewDateAgrees(y: int, m: int, d: int)
    ensures DayNumber(NewDate(y, m, d)) == MakeDay(y, m, d)
  {
    RollDayAgrees(y + m / 12, m % 12, d);
  }

  /** A date already in range is read back unchanged. */
  lemma {:induction false} NewDateOfValid(d: CivilDate)
    requires Valid(d)
    ensures NewDate(d.year, d.month, d.day) == d
  {
    assert d.month / 12 == 0 && d.month % 12 == d.month;
  }

  /** Day 0 of the month after m is the last day of m, so its getDate is
      the length of m: new Date(year, month + 1, 0).getDate(). */
  lemma {:induction false} DayZeroIsLastOfMonth(y: int, m: int)
    requires 0 <= m < 12
    ensures NewDate(y, m + 1, 0) == CivilDate(y, m, DaysInMonth(y, m))
  {
    if m == 11 {
      assert (m + 1) / 12 == 1 && (m + 1) % 12 == 0;
      assert PreviousMonth(y + 1, 0) == (y, 11);
    } else {
      assert (m + 1) / 12 == 0 && (m + 1) % 12 == m + 1;
      assert PreviousMonth(y, m + 1) == (y, m);
    }
  }

  /** new Date(y, m + k, 1): the first of the month k months away, the year
      rolling over with floor division in either direction. */
  lemma {:induction false} FirstOfShiftedMonth(y: int, m: int, k: int)
    ensures NewDate(y, m + k, 1) == CivilDate(y + (m + k) / 12, (m + k) % 12, 1)
    ensures var r := NewDate(y, m + k, 1); r.year * 12 + r.month == y * 12 + m + k
  {
  }

  /** The next day number is the next weekday. */
  lemma WeekDayStep(n: int)
    ensures WeekDay(n + 1) == (WeekDay(n) + 1) % 7
  {
  }

  /** Days of February: 29 in 2024 and 2000, 28 in 2023 and 1900. */
  lemma LeapYearExamples()
    ensures DaysInMonth(2024, 1) == 29 && DaysInMonth(2000, 1) == 29
    ensures DaysInMonth(2023, 1) == 28 && DaysInMonth(1900, 1) == 28
  {
  }

  /** 1 January 2024 was a Monday and 1 September 2024 a Sunday. */
  lemma KnownWeekDays()
    ensures WeekDay(DayNumber(CivilDate(2024, 0, 1))) == 1
    ensures WeekDay(DayNumber(CivilDate(2024, 8, 1))) == 0
  {
  }
}
