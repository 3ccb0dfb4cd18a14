/** Budget periods and usage (src/core/budget.ts). Times are milliseconds since 1970-01-01 UTC. */
module Budgets {
  import opened Prelude
  import opened Calendars

  datatype Period = Session | Daily | Weekly | Monthly

  const MS_PER_DAY := 86_400_000
  const MAX_TIME := 8_640_000_000_000_000

  function Day(t: int): int {
    t / MS_PER_DAY
  }

  function Monday(day: int): (monday: int)
    ensures monday <= day < monday + 7 && Weekday(monday) == 1
  {
    day - (Weekday(day) + 6) % 7
  }

  // The years for which a date is written with four digits.
  predicate InRange(t: int) {
    0 <= DateOf(Day(t)).year <= 9999
  }

  // ---------------------------------------------------------------- keys as text

  function Digit(n: int): char {
    ('0' as int + n % 10) as char
  }

  function Two(n: int): string {
    [Digit(n / 10), Digit(n)]
  }

  function Four(n: int): string {
    Two(n / 100) + Two(n % 100)
  }

  // Years outside 0 to 9999 are written with a sign and six digits.
  function YearText(y: int): string {
    if 0 <= y <= 9999 then Four(y)
    else [if y < 0 then '-' else '+'] + Two((if y < 0 then -y else y) / 10000) + Four(if y < 0 then -y else y)
  }

  function IsoDay(date: Date): (s: string)
    ensures |s| >= 10
  {
    YearText(date.year) + "-" + Two(date.month) + "-" + Two(date.day)
  }

  function DayKey(day: int): string {
    IsoDay(DateOf(day))[..10]
  }

  function MonthKey(day: int): string {
    IsoDay(DateOf(day))[..7]
  }

  lemma TwoDigits(a: int, b: int)
    requires 0 <= a < 100 && 0 <= b < 100
    ensures Digit(a / 10) == Digit(b / 10) && Digit(a) == Digit(b) <==> a == b
  {
    assert a == 10 * (a / 10) + a % 10 && b == 10 * (b / 10) + b % 10;
  }

  lemma FourDigits(a: int, b: int)
    requires 0 <= a <= 9999 && 0 <= b <= 9999
    ensures Four(a) == Four(b) <==> a == b
  {
    TwoDigits(a / 100, b / 100);
    TwoDigits(a % 100, b % 100);
    if Four(a) == Four(b) {
      assert Four(a)[..2] == Two(a / 100) && Four(b)[..2] == Two(b / 100);
      assert Four(a)[2..] == Two(a % 100) && Four(b)[2..] == Two(b % 100);
      assert Two(a / 100)[0] == Two(b / 100)[0] && Two(a / 100)[1] == Two(b / 100)[1];
      assert Two(a % 100)[0] == Two(b % 100)[0] && Two(a % 100)[1] == Two(b % 100)[1];
      assert a == 100 * (a / 100) + a % 100 && b == 100 * (b / 100) + b % 100;
    }
  }

  // In four-digit years the text of a date shows its parts at fixed places.
  lemma PlainText(date: Date)
    requires 0 <= date.year <= 9999
    ensures IsoDay(date)[..10] == Four(date.year) + "-" + Two(date.month) + "-" + Two(date.day)
    ensures IsoDay(date)[..7] == Four(date.year) + "-" + Two(date.month)
  {
    assert |IsoDay(date)| == 10;
  }

  lemma MonthTextIsUnique(a: Date, b: Date)
    requires Exists(a) && Exists(b) && 0 <= a.year <= 9999 && 0 <= b.year <= 9999
    ensures IsoDay(a)[..7] == IsoDay(b)[..7] <==> a.year == b.year && a.month == b.month
  {
    PlainText(a);
    PlainText(b);
    var s, t := IsoDay(a)[..7], IsoDay(b)[..7];
    if s == t {
      assert s[..4] == Four(a.year) && t[..4] == Four(b.year);
      FourDigits(a.year, b.year);
      assert s[5] == Digit(a.month / 10) && t[5] == Digit(b.month / 10);
      assert s[6] == Digit(a.month) && t[6] == Digit(b.month);
      TwoDigits(a.month, b.month);
    }
  }

  lemma DayTextIsUnique(a: Date, b: Date)
    requires Exists(a) && Exists(b) && 0 <= a.year <= 9999 && 0 <= b.year <= 9999
    ensures IsoDay(a)[..10] == IsoDay(b)[..10] <==> a == b
  {
    PlainText(a);
    PlainText(b);
    var s, t := IsoDay(a)[..10], IsoDay(b)[..10];
    if s == t {
      assert s[..7] == IsoDay(a)[..7] && t[..7] == IsoDay(b)[..7];
      MonthTextIsUnique(a, b);
      assert s[8] == Digit(a.day / 10) && t[8] == Digit(b.day / 10) && s[9] == Digit(a.day) && t[9] == Digit(b.day);
      TwoDigits(a.day, b.day);
    }
  }

  lemma DayKeyIsUnique(a: int, b: int)
    requires 0 <= DateOf(a).year <= 9999 && 0 <= DateOf(b).year <= 9999
    ensures DayKey(a) == DayKey(b) <==> a == b
  {
    DayTextIsUnique(DateOf(a), DateOf(b));
  }

  // Only the first days of year 0 belong to a week that starts in the year before, and their key,
  // cut to ten characters, starts with a sign.
  lemma WeekKeyIsUnique(a: int, b: int)
    requires 0 <= DateOf(a).year <= 9999 && 0 <= DateOf(b).year <= 9999
    ensures DayKey(Monday(a)) == DayKey(Monday(b)) <==> Monday(a) == Monday(b)
  {
    MondayYear(a);
    MondayYear(b);
    FirstWeekKeyIsUnique(Monday(a), Monday(b));
  }

  lemma FirstWeekKeyIsUnique(x: int, y: int)
    requires -1 <= DateOf(x).year <= 9999 && -1 <= DateOf(y).year <= 9999 && Weekday(x) == Weekday(y)
    requires DateOf(x).year == -1 ==> YearStart(0) - 7 < x < YearStart(0)
    requires DateOf(y).year == -1 ==> YearStart(0) - 7 < y < YearStart(0)
    ensures DayKey(x) == DayKey(y) <==> x == y
  {
    if DateOf(x).year >= 0 && DateOf(y).year >= 0 {
      DayKeyIsUnique(x, y);
    } else {
      Signed(x);
      Signed(y);
      if DateOf(x).year == -1 && DateOf(y).year == -1 {
        SameWeekday(x, y);
      }
    }
  }

  lemma SameWeekday(x: int, y: int)
    requires Weekday(x) == Weekday(y) && -7 < x - y < 7
    ensures x == y
  {
  }

  lemma Signed(day: int)
    requires -1 <= DateOf(day).year <= 9999
    ensures DayKey(day)[0] == '-' <==> DateOf(day).year == -1
  {
    var y := DateOf(day).year;
    if y >= 0 {
      PlainText(DateOf(day));
      assert DayKey(day)[0] == Digit(y / 100 / 10);
    } else {
      assert DayKey(day)[0] == YearText(y)[0];
    }
  }

  lemma MondayYear(day: int)
    requires 0 <= DateOf(day).year <= 9999
    ensures -1 <= DateOf(Monday(day)).year <= 9999
    ensures DateOf(Monday(day)).year == -1 ==> YearStart(0) - 7 < Monday(day) < YearStart(0)
  {
    DateFits(day);
    DateFits(Monday(day));
    WeekStartYear(Monday(day), day, 0);
  }

  // The week of a day of year y or later starts at most six days before year y.
  lemma WeekStartYear(first: int, day: int, y: int)
    requires y <= YearOf(day) && first <= day < first + 7
    ensures y - 1 <= YearOf(first) <= YearOf(day)
    ensures YearOf(first) == y - 1 ==> YearStart(y) - 7 < first < YearStart(y)
  {
    YearFits(day);
    YearsAscend(y, YearOf(day));
    YearsKeepOrder(first, day);
    if first < YearStart(y) {
      YearSteps(y - 1);
      YearIsUnique(first, y - 1);
    } else {
      YearSteps(y);
      YearIsUnique(YearStart(y), y);
      YearsKeepOrder(YearStart(y), first);
    }
  }

  // The number a text of digits reads as.
  function Num(s: string): int {
    if s == [] then 0 else Num(s[..|s| - 1]) * 10 + (s[|s| - 1] as int - '0' as int)
  }

  lemma OneMoreDigit(s: string, n: nat)
    ensures Num(s + [Digit(n)]) == 10 * Num(s) + n % 10
  {
    assert (s + [Digit(n)])[..|s|] == s;
  }

  lemma TwoMoreDigits(s: string, n: nat)
    requires n < 100
    ensures Num(s + Two(n)) == 100 * Num(s) + n
  {
    var t := s + [Digit(n / 10)];
    OneMoreDigit(s, n / 10);
    OneMoreDigit(t, n);
    assert s + Two(n) == t + [Digit(n)];
  }

  lemma TwoReads(n: nat)
    requires n < 100
    ensures Num(Two(n)) == n
  {
    TwoMoreDigits([], n);
    assert [] + Two(n) == Two(n);
  }

  lemma FourReads(n: nat)
    requires n <= 9999
    ensures Num(Four(n)) == n
  {
    TwoReads(n / 100);
    TwoMoreDigits(Two(n / 100), n % 100);
  }

  // The text of a date, in four-digit years, is YYYY-MM-DD.
  lemma TextReadsBack(date: Date)
    requires Exists(date) && 0 <= date.year <= 9999
    ensures var s := IsoDay(date);
            && |s| == 10 && s[4] == '-' && s[7] == '-'
            && Date(Num(s[..4]), Num(s[5..7]), Num(s[8..10])) == date
  {
    var s := IsoDay(date);
    assert s[..4] == Four(date.year) && s[5..7] == Two(date.month) && s[8..10] == Two(date.day);
    FourReads(date.year);
    TwoReads(date.month);
    TwoReads(date.day);
  }

  // ---------------------------------------------------------------- periods

  function PeriodKey(p: Period, t: int): string {
    match p
    case Session => "session"
    case Daily => DayKey(Day(t))
    case Weekly => DayKey(Monday(Day(t)))
    case Monthly => MonthKey(Day(t))
  }

  function PeriodStart(p: Period, t: int): int {
    match p
    case Session => t
    case Daily => Day(t) * MS_PER_DAY
    case Weekly => Monday(Day(t)) * MS_PER_DAY
    case Monthly => MonthStart(DateOf(Day(t)).year, DateOf(Day(t)).month) * MS_PER_DAY
  }

  // Date.UTC takes the years 0 to 99 for 1900 to 1999 (section 21.4.3.4 of ECMA-262); month 13 is
  // January of the next year.
  function UtcMonth(y: int, month: int): int
    requires 1 <= month <= 13
  {
    MonthStart(if 0 <= y <= 99 then 1900 + y else y, month) * MS_PER_DAY
  }

  // Where the period of a time starts, said of the written date: at that very time; at midnight; at
  // midnight of the Monday within the last seven days; or at midnight of the first of its month.
  predicate StartsPeriod(p: Period, t: int, start: int) {
    match p
    case Session => start == t
    case Daily => start % MS_PER_DAY == 0 && start <= t < start + MS_PER_DAY
    case Weekly =>
      start % MS_PER_DAY == 0 && start <= t < start + 7 * MS_PER_DAY && DayOfWeek(DateOf(Day(start))) == 1
    case Monthly => start % MS_PER_DAY == 0 && DateOf(Day(start)) == DateOf(Day(t)).(day := 1)
  }

  lemma PeriodStarts(p: Period, t: int)
    ensures StartsPeriod(p, t, PeriodStart(p, t))
  {
    match p
    case Session =>
    case Daily =>
    case Weekly =>
      Midnight(Monday(Day(t)));
      WholeDays(Monday(Day(t)), Monday(Day(t)) + 7, t);
      WeekdayOfDay(Monday(Day(t)));
    case Monthly => MonthlyStartsOnFirst(t);
  }

  // No other time is such a start.
  lemma StartIsUnique(p: Period, t: int, a: int, b: int)
    requires StartsPeriod(p, t, a) && StartsPeriod(p, t, b)
    ensures a == b
  {
    match p
    case Session =>
    case Daily =>
    case Weekly => MondayIsUnique(t, a, b);
    case Monthly => FirstIsUnique(a, b);
  }

  lemma MondayIsUnique(t: int, a: int, b: int)
    requires a % MS_PER_DAY == 0 && a <= t < a + 7 * MS_PER_DAY && DayOfWeek(DateOf(Day(a))) == 1
    requires b % MS_PER_DAY == 0 && b <= t < b + 7 * MS_PER_DAY && DayOfWeek(DateOf(Day(b))) == 1
    ensures a == b
  {
    WeekdayOfDay(Day(a));
    WeekdayOfDay(Day(b));
    SameWeekday(Day(a), Day(b));
  }

  lemma FirstIsUnique(a: int, b: int)
    requires a % MS_PER_DAY == 0 && b % MS_PER_DAY == 0 && DateOf(Day(a)) == DateOf(Day(b))
    ensures a == b
  {
    DateFits(Day(a));
    DateFits(Day(b));
  }

  function PeriodEnd(p: Period, t: int): int {
    match p
    case Session => MAX_TIME
    case Daily => PeriodStart(p, t) + MS_PER_DAY
    case Weekly => PeriodStart(p, t) + 7 * MS_PER_DAY
    case Monthly => UtcMonth(DateOf(Day(t)).year, DateOf(Day(t)).month + 1)
  }

  predicate Within(p: Period, t: int, u: int) {
    PeriodStart(p, t) <= u < PeriodEnd(p, t)
  }

  // Whole days can be compared by their day numbers.
  lemma Midnight(day: int)
    ensures Day(day * MS_PER_DAY) == day
  {
  }

  lemma WholeDays(lo: int, hi: int, u: int)
    ensures lo * MS_PER_DAY <= u < hi * MS_PER_DAY <==> lo <= Day(u) < hi
  {
  }

  /**
    Two times in the years 0 to 9999 share a key exactly when either lies in the period of the other.
    For months this takes a year of at least 100.
   */
  lemma SameKeyIffSamePeriod(p: Period, t: int, u: int)
    requires p != Session && InRange(t) && InRange(u)
    requires p == Monthly ==> DateOf(Day(t)).year >= 100
    ensures PeriodKey(p, t) == PeriodKey(p, u) <==> Within(p, t, u)
  {
    match p
    case Daily =>
      DayKeyIsUnique(Day(t), Day(u));
      WholeDays(Day(t), Day(t) + 1, u);
    case Weekly =>
      WeekKeyIsUnique(Day(t), Day(u));
      SameWeek(Day(t), Day(u));
      WholeDays(Monday(Day(t)), Monday(Day(t)) + 7, u);
    case Monthly =>
      SameMonth(t, u);
  }

  lemma SameWeek(a: int, b: int)
    ensures Monday(a) == Monday(b) <==> Monday(a) <= b < Monday(a) + 7
  {
    if Monday(a) <= b < Monday(a) + 7 {
      SameWeekday(Monday(a), Monday(b));
    }
  }

  lemma SameMonth(t: int, u: int)
    requires InRange(t) && InRange(u) && DateOf(Day(t)).year >= 100
    ensures MonthKey(Day(t)) == MonthKey(Day(u)) <==> Within(Monthly, t, u)
  {
    DateFits(Day(t));
    DateFits(Day(u));
    var d := DateOf(Day(t));
    MonthTextIsUnique(d, DateOf(Day(u)));
    SameMonthDays(t, d.year, d.month, u);
  }

  lemma SameMonthDays(t: int, y: int, month: int, u: int)
    requires 1 <= month <= 12 && y >= 100 && DateOf(Day(t)).year == y && DateOf(Day(t)).month == month
    ensures Within(Monthly, t, u) <==> DateOf(Day(u)).year == y && DateOf(Day(u)).month == month
  {
    MonthContains(y, month, Day(u));
    WholeDays(MonthStart(y, month), MonthStart(y, month + 1), u);
  }

  // A time lies in its own period.
  lemma PeriodHoldsItsTime(p: Period, t: int)
    requires p == Session ==> t < MAX_TIME
    requires InRange(t)
    ensures Within(p, t, t)
  {
    match p
    case Session =>
    case Daily => WholeDays(Day(t), Day(t) + 1, t);
    case Weekly => WholeDays(Monday(Day(t)), Monday(Day(t)) + 7, t);
    case Monthly => MonthHoldsItsTime(t);
  }

  lemma MonthHoldsItsTime(t: int)
    requires InRange(t)
    ensures Within(Monthly, t, t)
  {
    DayInMonth(Day(t));
    var d := DateOf(Day(t));
    EndIsLater(d.year, d.month + 1);
    WholeDays(MonthStart(d.year, d.month), MonthStart(if d.year < 100 then 1900 + d.year else d.year, d.month + 1), t);
  }

  lemma EndIsLater(y: int, month: int)
    requires 0 <= y && 1 <= month <= 13
    ensures MonthStart(y, month) <= MonthStart(if y < 100 then 1900 + y else y, month)
  {
    if y < 100 {
      CenturyLater(y, month);
    }
  }

  lemma CenturyLater(y: int, month: int)
    requires 0 <= y <= 99 && 1 <= month <= 13
    ensures MonthStart(y, month) + 400 < MonthStart(1900 + y, month)
  {
    YearsAscend(y, 1900 + y);
    MonthBounds(Leap(y), month);
    MonthBounds(Leap(1900 + y), month);
  }

  // For months the partition holds of a time exactly when its year is at least 100: before that the
  // period ends 1900 years too late and swallows the next month.
  lemma MonthlyPartitionsFrom100(t: int)
    requires InRange(t)
    ensures (forall u :: InRange(u) ==> (PeriodKey(Monthly, t) == PeriodKey(Monthly, u) <==> Within(Monthly, t, u)))
            <==> DateOf(Day(t)).year >= 100
  {
    var d := DateOf(Day(t));
    if d.year >= 100 {
      forall u | InRange(u) ensures PeriodKey(Monthly, t) == PeriodKey(Monthly, u) <==> Within(Monthly, t, u) {
        SameKeyIffSamePeriod(Monthly, t, u);
      }
    } else {
      var u := NextMonthSwallowed(t);
    }
  }

  lemma NextMonthSwallowed(t: int) returns (u: int)
    requires InRange(t) && DateOf(Day(t)).year < 100
    ensures InRange(u) && Within(Monthly, t, u) && PeriodKey(Monthly, t) != PeriodKey(Monthly, u)
  {
    DayInMonth(Day(t));
    var d := DateOf(Day(t));
    var next := MonthStart(d.year, d.month + 1);
    u := next * MS_PER_DAY;
    Midnight(next);
    FirstOfNextMonth(d.year, d.month);
    NextMonthDiffers(d);
    NextMonthIsWithin(t, d.year, d.month);
  }

  lemma NextMonthIsWithin(t: int, y: int, month: int)
    requires 0 <= y < 100 && 1 <= month <= 12 && DateOf(Day(t)).year == y && DateOf(Day(t)).month == month
    ensures Within(Monthly, t, MonthStart(y, month + 1) * MS_PER_DAY)
  {
    NextMonthIsInside(y, month);
  }

  lemma NextMonthIsInside(y: int, month: int)
    requires 0 <= y < 100 && 1 <= month <= 12
    ensures MonthStart(y, month) <= MonthStart(y, month + 1) < MonthStart(1900 + y, month + 1)
  {
    CenturyLater(y, month + 1);
    MonthsAscend(Leap(y), month, month + 1);
  }

  lemma NextMonthDiffers(d: Date)
    requires Exists(d) && 0 <= d.year < 100
    ensures IsoDay(d)[..7] != IsoDay(NextMonth(d.year, d.month))[..7]
  {
    MonthTextIsUnique(d, NextMonth(d.year, d.month));
  }

  // A mutable date, as far as the period helpers use it.
  class UtcDate {
    var time: int

    constructor (time: int)
      ensures this.time == time
    {
      this.time := time;
    }

    method SetMidnight()
      modifies this
      ensures time == Day(old(time)) * MS_PER_DAY
    {
      time := time - time % MS_PER_DAY;
    }

    // setUTCDate: counts on from the first of the month, below 1 and past the end as well.
    method SetDate(day: int)
      modifies this
      ensures Day(time) == MonthStart(DateOf(Day(old(time))).year, DateOf(Day(old(time))).month) + day - 1
      ensures time % MS_PER_DAY == old(time) % MS_PER_DAY
    {
      var today := DateOf(Day(time));
      time := (DayNumber(today.(day := 1)) + day - 1) * MS_PER_DAY + time % MS_PER_DAY;
    }
  }

  method GetPeriodStart(p: Period, date: int) returns (start: int)
    ensures start == PeriodStart(p, date) && StartsPeriod(p, date, start)
  {
    PeriodStarts(p, date);
    var d := new UtcDate(date);
    match p {
      case Session =>
      case Daily =>
        d.SetMidnight();
      case Weekly =>
        d.SetMidnight();
        d.SetDate(DateOf(Day(d.time)).day - (Weekday(Day(d.time)) + 6) % 7);
      case Monthly =>
        d.SetDate(1);
        d.SetMidnight();
    }
    start := d.time;
  }

  method GetPeriodEnd(p: Period, date: int) returns (end: int)
    ensures end == PeriodEnd(p, date)
  {
    var start := GetPeriodStart(p, date);
    match p {
      case Session => end := MAX_TIME;
      case Daily => end := start + MS_PER_DAY;
      case Weekly => end := start + 7 * MS_PER_DAY;
      case Monthly =>
        MonthlyStartsOnFirst(date);
        var first := DateOf(Day(start));
        end := UtcMonth(first.year, first.month + 1);
    }
  }

  lemma MonthlyStartsOnFirst(t: int)
    ensures DateOf(Day(PeriodStart(Monthly, t))) == DateOf(Day(t)).(day := 1)
  {
    var d := DateOf(Day(t));
    Midnight(MonthStart(d.year, d.month));
    DateFits(Day(t));
    FirstOfMonth(d.year, d.month);
  }

  // ---------------------------------------------------------------- usage

  type Name = string

  datatype Config = Config(period: Period, limit: real, threshold: real, enabled: bool)

  datatype Store = Store(budgets: map<Name, Config>, usage: map<Name, map<string, real>>)

  function Spent(s: Store, name: Name, key: string): real {
    if name in s.usage && key in s.usage[name] then s.usage[name][key] else 0.0
  }

  predicate Active(s: Store, name: Name) {
    name in s.budgets && s.budgets[name].enabled
  }

  datatype Recording = Recording(name: Name, amount: real, date: int)

  function Recorded(s: Store, r: Recording): Store {
    if !Active(s, r.name) then s else
    var key := PeriodKey(s.budgets[r.name].period, r.date);
    var used := if r.name in s.usage then s.usage[r.name] else map[];
    s.(usage := s.usage[r.name := used[key := Spent(s, r.name, key) + r.amount]])
  }

  function RecordedAll(s: Store, rs: seq<Recording>): Store {
    if rs == [] then s else Recorded(RecordedAll(s, rs[..|rs| - 1]), rs[|rs| - 1])
  }

  // The amounts of a budget that are dated inside the period of a time.
  function SumWithin(rs: seq<Recording>, name: Name, p: Period, t: int): real {
    if rs == [] then 0.0 else
    var r := rs[|rs| - 1];
    SumWithin(rs[..|rs| - 1], name, p, t) + (if r.name == name && Within(p, t, r.date) then r.amount else 0.0)
  }

  lemma {:induction false} RecordingsKeepBudgets(s: Store, rs: seq<Recording>)
    ensures RecordedAll(s, rs).budgets == s.budgets
    decreases |rs|
  {
    if rs != [] {
      RecordingsKeepBudgets(s, rs[..|rs| - 1]);
    }
  }

  /**
    Under an enabled budget, after any sequence of recordings to any budgets, what is reported as
    spent for a date is what was spent in its period before plus exactly the amounts dated inside it.
   */
  lemma {:induction false} SpentIsSumOfPeriod(s: Store, rs: seq<Recording>, name: Name, t: int)
    requires Active(s, name) && s.budgets[name].period != Session && InRange(t)
    requires s.budgets[name].period == Monthly ==> DateOf(Day(t)).year >= 100
    requires forall r :: r in rs ==> InRange(r.date)
    ensures var p := s.budgets[name].period;
            Spent(RecordedAll(s, rs), name, PeriodKey(p, t))
            == Spent(s, name, PeriodKey(p, t)) + SumWithin(rs, name, p, t)
    decreases |rs|
  {
    if rs != [] {
      var front, r := rs[..|rs| - 1], rs[|rs| - 1];
      assert r in rs && forall x :: x in front ==> x in rs;
      SpentIsSumOfPeriod(s, front, name, t);
      RecordingsKeepBudgets(s, front);
      var p := s.budgets[name].period;
      SpentAfter(RecordedAll(s, front), r, name, PeriodKey(p, t));
      SameKeyIffSamePeriod(p, t, r.date);
    }
  }

  // Under a budget that is missing or disabled nothing is recorded.
  lemma {:induction false} InactiveRecordsNothing(s: Store, rs: seq<Recording>, name: Name, key: string)
    requires !Active(s, name)
    ensures Spent(RecordedAll(s, rs), name, key) == Spent(s, name, key)
    decreases |rs|
  {
    if rs != [] {
      var front, r := rs[..|rs| - 1], rs[|rs| - 1];
      InactiveRecordsNothing(s, front, name, key);
      RecordingsKeepBudgets(s, front);
      SpentAfter(RecordedAll(s, front), r, name, key);
    }
  }

  // One recording adds to one key of one budget.
  lemma SpentAfter(s: Store, r: Recording, name: Name, key: string)
    ensures Spent(Recorded(s, r), name, key) == Spent(s, name, key) +
            (if Active(s, r.name) && r.name == name && PeriodKey(s.budgets[r.name].period, r.date) == key
             then r.amount else 0.0)
  {
  }

  // A session budget has one key and counts every amount; its period is whatever lies ahead of the
  // date asked about, so earlier recordings count although they lie outside.
  function SumOf(rs: seq<Recording>, name: Name): real {
    if rs == [] then 0.0
    else SumOf(rs[..|rs| - 1], name) + (if rs[|rs| - 1].name == name then rs[|rs| - 1].amount else 0.0)
  }

  lemma {:induction false} SessionCountsEverything(s: Store, rs: seq<Recording>, name: Name, t: int)
    requires Active(s, name) && s.budgets[name].period == Session
    ensures Spent(RecordedAll(s, rs), name, PeriodKey(Session, t))
            == Spent(s, name, PeriodKey(Session, t)) + SumOf(rs, name)
    ensures !Within(Session, t, t - 1) && PeriodKey(Session, t) == PeriodKey(Session, t - 1)
    decreases |rs|
  {
    if rs != [] {
      var front, r := rs[..|rs| - 1], rs[|rs| - 1];
      SessionCountsEverything(s, front, name, t);
      RecordingsKeepBudgets(s, front);
      SpentAfter(RecordedAll(s, front), r, name, PeriodKey(Session, t));
    }
  }

  datatype Usage = Usage(spent: real, limit: real, remaining: real, exceeded: bool, warning: bool)

  // Exceeded from the limit on, and a warning below it from the threshold on; without a positive limit
  // nothing spent counts as nothing of it used.
  function UsageOf(config: Config, spent: real): (u: Usage)
    ensures u.spent == spent && u.limit == config.limit
    ensures u.exceeded <==> spent >= config.limit
    ensures if u.exceeded then u.remaining == 0.0 else u.remaining > 0.0 && spent + u.remaining == config.limit
    ensures config.limit > 0.0 ==> (u.warning <==> config.threshold * config.limit <= spent < config.limit)
    ensures config.limit <= 0.0 ==> (u.warning <==> config.threshold <= 0.0 && spent < config.limit)
  {
    var limit := config.limit;
    var ratio := if limit > 0.0 then spent / limit else 0.0;
    RatioReaches(spent, limit, config.threshold);
    Usage(spent, limit, if limit - spent > 0.0 then limit - spent else 0.0, spent >= limit,
          ratio >= config.threshold && !(spent >= limit))
  }

  lemma RatioReaches(spent: real, limit: real, threshold: real)
    ensures limit > 0.0 ==> (spent / limit >= threshold <==> threshold * limit <= spent)
  {
    if limit > 0.0 {
      var ratio := spent / limit;
      assert ratio * limit == spent;
      Scaled(ratio, threshold, limit);
    }
  }

  lemma Scaled(a: real, b: real, c: real)
    requires c > 0.0
    ensures a >= b <==> b * c <= a * c
  {
    assert (a - b) * c == a * c - b * c;
  }

  class BudgetTracker {
    var store: Store

    constructor (budgets: map<Name, Config>)
      ensures store == Store(budgets, map[])
    {
      store := Store(budgets, map[]);
    }

    method RecordUsage(name: Name, amount: real, date: int) returns (u: Option<Usage>)
      modifies this
      ensures store == Recorded(old(store), Recording(name, amount, date))
      ensures u.Some? <==> Active(old(store), name)
      ensures u.Some? ==>
        u.value == UsageOf(store.budgets[name], Spent(store, name, PeriodKey(store.budgets[name].period, date)))
    {
      if name !in store.budgets || !store.budgets[name].enabled { return None; }
      var periodKey := PeriodKey(store.budgets[name].period, date);
      if name !in store.usage {
        store := store.(usage := store.usage[name := map[]]);
      }
      var used := store.usage[name];
      var before := if periodKey in used then used[periodKey] else 0.0;
      store := store.(usage := store.usage[name := used[periodKey := before + amount]]);
      u := GetUsage(name, date);
    }

    method GetUsage(name: Name, date: int) returns (u: Option<Usage>)
      ensures u.Some? <==> name in store.budgets
      ensures u.Some? ==>
        u.value == UsageOf(store.budgets[name], Spent(store, name, PeriodKey(store.budgets[name].period, date)))
    {
      if name !in store.budgets { return None; }
      var periodKey := PeriodKey(store.budgets[name].period, date);
      u := Some(UsageOf(store.budgets[name], Spent(store, name, periodKey)));
    }
  }
}
