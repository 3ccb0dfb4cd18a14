/** The proleptic Gregorian calendar in UTC, as section 21.4.1 of ECMA-262 defines it: day numbers
    count from 1970-01-01, months run from 1 to 12. */
module Calendars {

  datatype Date = Date(year: int, month: int, day: int)

  predicate Leap(y: int) {
    y % 4 == 0 && (y % 100 != 0 || y % 400 == 0)
  }

  function YearLength(y: int): int {
    if Leap(y) then 366 else 365
  }

  // The number of the first day of a year.
  function YearStart(y: int): int
    decreases if y >= 1970 then y - 1970 else 1970 - y
  {
    if y == 1970 then 0
    else if y > 1970 then YearStart(y - 1) + YearLength(y - 1)
    else YearStart(y + 1) - YearLength(y)
  }

  lemma YearSteps(y: int)
    ensures YearStart(y + 1) == YearStart(y) + YearLength(y)
  {
  }

  // The closed form the standard gives; / rounds down.
  lemma {:induction false} YearStartFormula(y: int)
    ensures YearStart(y) == 365 * (y - 1970) + (y - 1969) / 4 - (y - 1901) / 100 + (y - 1601) / 400
    decreases if y >= 1970 then y - 1970 else 1970 - y
  {
    if y > 1970 {
      YearStartFormula(y - 1);
      LeapDays(y - 1);
    } else if y < 1970 {
      YearStartFormula(y + 1);
      LeapDays(y);
    }
  }

  lemma LeapDays(y: int)
    ensures (y - 1968) / 4 - (y - 1900) / 100 + (y - 1600) / 400
            == (y - 1969) / 4 - (y - 1901) / 100 + (y - 1601) / 400 + (if Leap(y) then 1 else 0)
  {
    By4(y);
    By100(y);
    By400(y);
    Nested(y);
  }

  lemma By4(y: int)
    ensures (y - 1968) / 4 == (y - 1969) / 4 + if y % 4 == 0 then 1 else 0
  {
  }

  lemma By100(y: int)
    ensures (y - 1900) / 100 == (y - 1901) / 100 + if y % 100 == 0 then 1 else 0
  {
  }

  lemma By400(y: int)
    ensures (y - 1600) / 400 == (y - 1601) / 400 + if y % 400 == 0 then 1 else 0
  {
  }

  lemma Nested(y: int)
    ensures (y % 400 == 0 ==> y % 100 == 0) && (y % 100 == 0 ==> y % 4 == 0)
  {
  }

  lemma {:induction false} YearsAscend(y: int, z: int)
    requires y <= z
    ensures YearStart(z) >= YearStart(y) + 365 * (z - y)
    decreases z - y
  {
    if y < z {
      YearSteps(y);
      YearsAscend(y + 1, z);
    }
  }

  // The year that a day falls in.
  function YearOf(day: int): int {
    if day >= 0 then YearUp(day, 1970) else YearDown(day, 1970)
  }

  function YearUp(day: int, from: int): int
    requires YearStart(from) <= day
    decreases day - YearStart(from)
  {
    YearSteps(from);
    if day < YearStart(from + 1) then from else YearUp(day, from + 1)
  }

  function YearDown(day: int, above: int): int
    requires day < YearStart(above)
    decreases YearStart(above) - day
  {
    YearSteps(above - 1);
    if YearStart(above - 1) <= day then above - 1 else YearDown(day, above - 1)
  }

  lemma {:induction false} YearUpFits(day: int, from: int)
    requires YearStart(from) <= day
    ensures YearStart(YearUp(day, from)) <= day < YearStart(YearUp(day, from) + 1)
    decreases day - YearStart(from)
  {
    YearSteps(from);
    if day >= YearStart(from + 1) {
      YearUpFits(day, from + 1);
    }
  }

  lemma {:induction false} YearDownFits(day: int, above: int)
    requires day < YearStart(above)
    ensures YearStart(YearDown(day, above)) <= day < YearStart(YearDown(day, above) + 1)
    decreases YearStart(above) - day
  {
    YearSteps(above - 1);
    if day < YearStart(above - 1) {
      YearDownFits(day, above - 1);
    }
  }

  // Every day falls in exactly one year.
  lemma YearFits(day: int)
    ensures YearStart(YearOf(day)) <= day < YearStart(YearOf(day) + 1)
  {
    if day >= 0 {
      YearUpFits(day, 1970);
    } else {
      YearDownFits(day, 1970);
    }
  }

  lemma YearIsUnique(day: int, y: int)
    requires YearStart(y) <= day < YearStart(y + 1)
    ensures YearOf(day) == y
  {
    YearFits(day);
    var z := YearOf(day);
    if y < z {
      YearsAscend(y + 1, z);
    } else if z < y {
      YearsAscend(z + 1, y);
    }
  }

  lemma YearsKeepOrder(a: int, b: int)
    requires a <= b
    ensures YearOf(a) <= YearOf(b)
  {
    YearFits(a);
    YearFits(b);
    if YearOf(b) < YearOf(a) {
      YearsAscend(YearOf(b) + 1, YearOf(a));
    }
  }

  // ---------------------------------------------------------------- months

  function MonthLength(leap: bool, month: int): int {
    if month == 2 then (if leap then 29 else 28)
    else if month == 4 || month == 6 || month == 9 || month == 11 then 30
    else 31
  }

  // Days of the year before the first of a month; month 13 is the first of the next year.
  function DaysBefore(leap: bool, month: int): int
    requires 1 <= month <= 13
    decreases month
  {
    if month == 1 then 0 else DaysBefore(leap, month - 1) + MonthLength(leap, month - 1)
  }

  lemma TwelveMonths(leap: bool)
    ensures DaysBefore(leap, 13) == 365 + (if leap then 1 else 0)
  {
    assert DaysBefore(leap, 3) == 59 + (if leap then 1 else 0);
    assert DaysBefore(leap, 5) == DaysBefore(leap, 3) + 61;
    assert DaysBefore(leap, 7) == DaysBefore(leap, 5) + 61;
    assert DaysBefore(leap, 9) == DaysBefore(leap, 7) + 62;
    assert DaysBefore(leap, 11) == DaysBefore(leap, 9) + 61;
    assert DaysBefore(leap, 13) == DaysBefore(leap, 11) + 61;
  }

  function MonthStart(y: int, month: int): int
    requires 1 <= month <= 13
  {
    YearStart(y) + DaysBefore(Leap(y), month)
  }

  predicate Exists(date: Date) {
    1 <= date.month <= 12 && 1 <= date.day <= MonthLength(Leap(date.year), date.month)
  }

  function DayNumber(date: Date): int
    requires 1 <= date.month <= 12
  {
    MonthStart(date.year, date.month) + date.day - 1
  }

  lemma {:induction false} MonthsAscend(leap: bool, month: int, later: int)
    requires 1 <= month <= later <= 13
    ensures DaysBefore(leap, later) >= DaysBefore(leap, month) + 28 * (later - month)
    decreases later - month
  {
    if month < later {
      MonthsAscend(leap, month + 1, later);
    }
  }

  lemma MonthBounds(leap: bool, month: int)
    requires 1 <= month <= 13
    ensures 0 <= DaysBefore(leap, month) <= 366
  {
    MonthsAscend(leap, 1, month);
    MonthsAscend(leap, month, 13);
    TwelveMonths(leap);
  }

  // The month, from the given one on, that a day of the year falls in.
  function MonthIn(leap: bool, offset: int, from: int): (month: int)
    requires 1 <= from <= 12 && DaysBefore(leap, from) <= offset < DaysBefore(leap, 13)
    ensures 1 <= month <= 12 && DaysBefore(leap, month) <= offset < DaysBefore(leap, month + 1)
    decreases 12 - from
  {
    if offset < DaysBefore(leap, from + 1) then from else MonthIn(leap, offset, from + 1)
  }

  lemma MonthIsUnique(leap: bool, offset: int, month: int)
    requires 1 <= month <= 12 && DaysBefore(leap, month) <= offset < DaysBefore(leap, month + 1)
    ensures 0 <= offset < DaysBefore(leap, 13) && MonthIn(leap, offset, 1) == month
  {
    MonthsAscend(leap, 1, month);
    MonthsAscend(leap, month + 1, 13);
    OneMonth(leap, offset, MonthIn(leap, offset, 1), month);
  }

  lemma OneMonth(leap: bool, offset: int, a: int, b: int)
    requires 1 <= a <= 12 && DaysBefore(leap, a) <= offset < DaysBefore(leap, a + 1)
    requires 1 <= b <= 12 && DaysBefore(leap, b) <= offset < DaysBefore(leap, b + 1)
    ensures a == b
  {
    if a < b {
      MonthsAscend(leap, a + 1, b);
    } else if b < a {
      MonthsAscend(leap, b + 1, a);
    }
  }

  // The date that many days into a year.
  function DateIn(y: int, offset: int): Date
    requires 0 <= offset < YearLength(y)
  {
    TwelveMonths(Leap(y));
    var month := MonthIn(Leap(y), offset, 1);
    Date(y, month, offset - DaysBefore(Leap(y), month) + 1)
  }

  function DateOf(day: int): Date {
    var y := YearOf(day);
    YearFits(day);
    YearSteps(y);
    DateIn(y, day - YearStart(y))
  }

  lemma DateFits(day: int)
    ensures Exists(DateOf(day)) && DayNumber(DateOf(day)) == day
    ensures DateOf(day).year == YearOf(day)
  {
    YearFits(day);
    YearSteps(YearOf(day));
    DateInFits(YearOf(day), day - YearStart(YearOf(day)));
  }

  lemma DateInFits(y: int, offset: int)
    requires 0 <= offset < YearLength(y)
    ensures var date := DateIn(y, offset);
            Exists(date) && date.year == y && DaysBefore(Leap(y), date.month) + date.day - 1 == offset
  {
    TwelveMonths(Leap(y));
  }

  // Day numbers and existing dates are two names for the same days.
  lemma DateIsUnique(date: Date)
    requires Exists(date)
    ensures DateOf(DayNumber(date)) == date
  {
    var offset := DaysBefore(Leap(date.year), date.month) + date.day - 1;
    MonthIsUnique(Leap(date.year), offset, date.month);
    TwelveMonths(Leap(date.year));
    YearSteps(date.year);
    YearIsUnique(DayNumber(date), date.year);
  }

  // A month is a stretch of consecutive days.
  predicate InMonth(y: int, month: int, day: int)
    requires 1 <= month <= 12
  {
    MonthStart(y, month) <= day < MonthStart(y, month + 1)
  }

  lemma MonthContains(y: int, month: int, day: int)
    requires 1 <= month <= 12
    ensures InMonth(y, month, day) <==> DateOf(day).year == y && DateOf(day).month == month
  {
    DayInMonth(day);
    if InMonth(y, month, day) {
      DateInMonth(y, month, day);
    }
  }

  lemma DateInMonth(y: int, month: int, day: int)
    requires 1 <= month <= 12 && InMonth(y, month, day)
    ensures DateOf(day) == Date(y, month, day - MonthStart(y, month) + 1)
  {
    DateIsUnique(Date(y, month, day - MonthStart(y, month) + 1));
  }

  lemma DayInMonth(day: int)
    ensures Exists(DateOf(day)) && InMonth(DateOf(day).year, DateOf(day).month, day)
  {
    DateFits(day);
  }

  lemma FirstOfMonth(y: int, month: int)
    requires 1 <= month <= 12
    ensures DateOf(MonthStart(y, month)) == Date(y, month, 1)
  {
    DateIsUnique(Date(y, month, 1));
  }

  lemma MonthThirteen(y: int)
    ensures MonthStart(y, 13) == MonthStart(y + 1, 1)
  {
    TwelveMonths(Leap(y));
    YearSteps(y);
  }

  function NextMonth(y: int, month: int): Date {
    if month < 12 then Date(y, month + 1, 1) else Date(y + 1, 1, 1)
  }

  lemma FirstOfNextMonth(y: int, month: int)
    requires 1 <= month <= 12
    ensures DateOf(MonthStart(y, month + 1)) == NextMonth(y, month)
  {
    if month < 12 {
      FirstOfMonth(y, month + 1);
    } else {
      FirstOfNextYear(y);
    }
  }

  lemma FirstOfNextYear(y: int)
    ensures DateOf(MonthStart(y, 13)) == Date(y + 1, 1, 1)
  {
    MonthThirteen(y);
    FirstOfMonth(y + 1, 1);
  }

  // ---------------------------------------------------------------- weekdays

  // 0 is Sunday. 1970-01-01 was a Thursday.
  function Weekday(day: int): (w: int)
    ensures 0 <= w <= 6
  {
    (day + 4) % 7
  }

  // The weekday of a written date by Zeller's congruence, which counts January and February as the last
  // months of the year before and the days from Saturday on.
  function DayOfWeek(date: Date): (w: int)
    ensures 0 <= w <= 6
  {
    var y := if date.month <= 2 then date.year - 1 else date.year;
    var m := if date.month <= 2 then date.month + 12 else date.month;
    (date.day + 13 * (m + 1) / 5 + y + y / 4 - y / 100 + y / 400 + 6) % 7
  }

  // Days before a month from March on, in years that start with March.
  lemma DaysFromMarch(leap: bool, month: int)
    requires 3 <= month <= 12
    ensures DaysBefore(leap, month) == (if leap then 1 else 0) + 13 * (month + 1) / 5 + 28 * month - 35
    decreases month
  {
    if month > 3 {
      DaysFromMarch(leap, month - 1);
    } else {
      assert DaysBefore(leap, 2) == 31;
    }
  }

  // Seven divides what the congruence leaves out.
  lemma WeeksAway(a: int, b: int, weeks: int)
    requires a == b + 7 * weeks
    ensures a % 7 == b % 7
  {
  }

  lemma Centuries(y: int)
    ensures (y - 1968) / 4 == y / 4 - 492 && (y - 1900) / 100 == y / 100 - 19 && (y - 1600) / 400 == y / 400 - 4
  {
  }

  lemma WeekdayFromMarch(date: Date)
    requires 3 <= date.month <= 12
    ensures Weekday(DayNumber(date)) == DayOfWeek(date)
  {
    var y, m := date.year, date.month;
    YearStartFormula(y);
    LeapDays(y);
    Centuries(y);
    DaysFromMarch(Leap(y), m);
    var sum := date.day + 13 * (m + 1) / 5 + y + y / 4 - y / 100 + y / 400 + 6;
    WeeksAway(DayNumber(date) + 4, sum, 52 * y + 4 * m - 102795);
  }

  lemma WeekdayToFebruary(date: Date)
    requires 1 <= date.month <= 2
    ensures Weekday(DayNumber(date)) == DayOfWeek(date)
  {
    var y, m := date.year - 1, date.month + 12;
    YearStartFormula(date.year);
    Centuries(y);
    assert DaysBefore(Leap(date.year), 1) == 0 && DaysBefore(Leap(date.year), 2) == 31;
    var sum := date.day + 13 * (m + 1) / 5 + y + y / 4 - y / 100 + y / 400 + 6;
    WeeksAway(DayNumber(date) + 4, sum, 52 * y - 102743 + 4 * (date.month - 1));
  }

  /** The weekday of a day number is the weekday of the date it stands for. */
  lemma WeekdayOfDate(date: Date)
    requires 1 <= date.month <= 12
    ensures Weekday(DayNumber(date)) == DayOfWeek(date)
  {
    if date.month <= 2 {
      WeekdayToFebruary(date);
    } else {
      WeekdayFromMarch(date);
    }
  }

  lemma WeekdayOfDay(day: int)
    ensures Weekday(day) == DayOfWeek(DateOf(day))
  {
    DateFits(day);
    WeekdayOfDate(DateOf(day));
  }
}
