/** The search for the next fire time of a parsed cron expression (getNextRun in src/core/cron.ts),
    in UTC. */
module CronSearches {
  import opened Prelude
  import opened Calendars
  import opened Crons

  const MINUTES_PER_DAY := 1440
  const MAX_ITERATIONS := 366 * 24 * 60

  // ---------------------------------------------------------------- matching

  predicate DomRestricted(p: ParsedCron) {
    |p.dom| != 31
  }

  predicate DowRestricted(p: ParsedCron) {
    |p.dow| != 7
  }

  // If both days are restricted either may match; if one is, it must.
  predicate DayMatches(p: ParsedCron, dom: int, dow: int) {
    if DomRestricted(p) && DowRestricted(p) then dom in p.dom || dow in p.dow
    else if DomRestricted(p) then dom in p.dom
    else if DowRestricted(p) then dow in p.dow
    else true
  }

  predicate DateMatches(p: ParsedCron, day: int) {
    DateOf(day).month in p.month && DayMatches(p, DateOf(day).day, Weekday(day))
  }

  predicate ClockMatches(p: ParsedCron, minute: int, hour: int) {
    minute in p.minute && hour in p.hour
  }

  predicate Matches(p: ParsedCron, m: int) {
    ClockMatches(p, m % 60, m / 60 % 24) && DateMatches(p, m / MINUTES_PER_DAY)
  }

  // The number of a minute of a written date and clock.
  function At(date: Date, hour: int, minute: int): int
    requires 1 <= date.month <= 12
  {
    (DayNumber(date) * 24 + hour) * 60 + minute
  }

  predicate Written(date: Date, hour: int, minute: int) {
    Exists(date) && 0 <= hour < 24 && 0 <= minute < 60
  }

  // The expression allows a written minute: each field holds its part of it, and the weekday counts as
  // the congruence gives it.
  predicate Allows(p: ParsedCron, date: Date, hour: int, minute: int)
    requires 1 <= date.month <= 12
  {
    && minute in p.minute && hour in p.hour && date.month in p.month
    && DayMatches(p, date.day, DayOfWeek(date))
  }

  ghost predicate FiresAt(p: ParsedCron, m: int) {
    exists date, hour, minute ::
      Written(date, hour, minute) && At(date, hour, minute) == m && Allows(p, date, hour, minute)
  }

  lemma Clock(day: int, hour: int, minute: int)
    requires 0 <= hour < 24 && 0 <= minute < 60
    ensures var m := (day * 24 + hour) * 60 + minute;
            m % 60 == minute && m / 60 % 24 == hour && m / MINUTES_PER_DAY == day
  {
    var m := (day * 24 + hour) * 60 + minute;
    assert m / 60 == day * 24 + hour;
  }

  lemma ReadsBack(m: int)
    ensures m == (m / MINUTES_PER_DAY * 24 + m / 60 % 24) * 60 + m % 60
  {
  }

  lemma MatchesWritten(p: ParsedCron, date: Date, hour: int, minute: int)
    requires Written(date, hour, minute)
    ensures Matches(p, At(date, hour, minute)) <==> Allows(p, date, hour, minute)
  {
    Clock(DayNumber(date), hour, minute);
    DateIsUnique(date);
    WeekdayOfDate(date);
  }

  // What the loop tests of a minute is what the expression allows of its date and clock.
  lemma MatchesExactly(p: ParsedCron, m: int)
    ensures Matches(p, m) <==> FiresAt(p, m)
  {
    var date, hour, minute := DateOf(m / MINUTES_PER_DAY), m / 60 % 24, m % 60;
    DateFits(m / MINUTES_PER_DAY);
    ReadsBack(m);
    assert Written(date, hour, minute) && At(date, hour, minute) == m;
    MatchesWritten(p, date, hour, minute);
    if FiresAt(p, m) {
      var d, h, i :| Written(d, h, i) && At(d, h, i) == m && Allows(p, d, h, i);
      MatchesWritten(p, d, h, i);
    }
  }

  // The first whole minute strictly after a time in milliseconds.
  function FirstMinute(from: int): (m: int)
    ensures forall x :: x >= m <==> x * 60_000 > from
  {
    from / 60_000 + 1
  }

  /**
    The answer is the least minute strictly after from that the expression allows; there is none
    exactly when it allows no minute of the window.
   */
  method GetNextRun(p: ParsedCron, from: int) returns (r: Option<int>)
    ensures r.Some? ==> FiresAt(p, r.value) && r.value * 60_000 > from
    ensures r.Some? ==> forall m :: m * 60_000 > from && m < r.value ==> !FiresAt(p, m)
    ensures r.Some? <==> FiresFrom(p, FirstMinute(from))
  {
    var result := FirstMinute(from);
    var i := 0;
    while i < MAX_ITERATIONS
      invariant 0 <= i <= MAX_ITERATIONS && result == FirstMinute(from) + i
      invariant forall m :: FirstMinute(from) <= m < result ==> !FiresAt(p, m)
    {
      var minute, hour := result % 60, result / 60 % 24;
      var date, dow := DateOf(result / MINUTES_PER_DAY), Weekday(result / MINUTES_PER_DAY);
      MatchesExactly(p, result);
      if minute in p.minute && hour in p.hour && date.month in p.month {
        if DayMatches(p, date.day, dow) {
          return Some(result);
        }
      }
      result := result + 1;
      i := i + 1;
    }
    r := None;
  }

  ghost predicate FiresFrom(p: ParsedCron, start: int) {
    exists m :: start <= m < start + MAX_ITERATIONS && FiresAt(p, m)
  }

  // ---------------------------------------------------------------- what the field lengths mean

  function Elements(s: seq<nat>): (r: set<nat>)
    ensures forall v :: v in r <==> v in s
  {
    if s == [] then {} else
    assert s == s[..|s| - 1] + [s[|s| - 1]];
    Elements(s[..|s| - 1]) + {s[|s| - 1]}
  }

  // The n numbers from lo on.
  function Interval(lo: nat, n: nat): (r: set<nat>)
    ensures |r| == n && forall v: nat :: v in r <==> lo <= v < lo + n
  {
    if n == 0 then {} else Interval(lo, n - 1) + {lo + n - 1}
  }

  lemma {:induction false} AscendingSize(s: seq<nat>)
    requires Ascending(s)
    ensures |Elements(s)| == |s|
  {
    if s != [] {
      var front, last := s[..|s| - 1], s[|s| - 1];
      AscendingSize(front);
      assert last !in front;
      assert last !in Elements(front);
    }
  }

  lemma Subset(a: set<nat>, b: set<nat>)
    requires a <= b
    ensures |b| == |a| + |b - a|
    ensures |a| == |b| <==> a == b
  {
    assert b == a + (b - a);
  }

  // The list leaves out w alone of the n numbers from lo on.
  ghost predicate AllBut(s: seq<nat>, lo: nat, n: nat, w: nat) {
    lo <= w < lo + n && forall v: nat :: lo <= v < lo + n ==> (v in s <==> v != w)
  }

  // Of those n numbers, the ones that the list lacks.
  lemma Lacking(s: seq<nat>, lo: nat, n: nat) returns (missing: set<nat>)
    requires Ascending(s) && forall v :: v in s ==> lo <= v < lo + n
    ensures |missing| == n - |s| && forall v: nat :: v in missing <==> lo <= v < lo + n && v !in s
  {
    AscendingSize(s);
    missing := Interval(lo, n) - Elements(s);
    Subset(Elements(s), Interval(lo, n));
  }

  // How long an ascending list of some of n numbers is tells whether it holds all of them, or all but one.
  lemma FullLength(s: seq<nat>, lo: nat, n: nat)
    requires Ascending(s) && forall v :: v in s ==> lo <= v < lo + n
    ensures |s| == n <==> forall v: nat :: lo <= v < lo + n ==> v in s
  {
    var missing := Lacking(s, lo, n);
    if |s| != n {
      var v :| v in missing;
    } else {
      assert missing == {};
    }
  }

  lemma OneShort(s: seq<nat>, lo: nat, n: nat)
    requires Ascending(s) && forall v :: v in s ==> lo <= v < lo + n
    ensures |s| == n - 1 <==> exists w: nat :: AllBut(s, lo, n, w)
  {
    var missing := Lacking(s, lo, n);
    if |missing| == 1 {
      var w := OnlyElement(missing);
      OnlyOneOut(s, lo, n, missing, w);
    }
    if w: nat :| AllBut(s, lo, n, w) {
      OnlyOneOut(s, lo, n, missing, w);
    }
  }

  lemma OnlyOneOut(s: seq<nat>, lo: nat, n: nat, missing: set<nat>, w: nat)
    requires forall v: nat :: v in missing <==> lo <= v < lo + n && v !in s
    ensures missing == {w} <==> AllBut(s, lo, n, w)
  {
    if missing == {w} {
      assert w in missing;
    }
    if AllBut(s, lo, n, w) {
      assert w in missing && forall v :: v in missing ==> v == w;
    }
  }

  lemma OnlyElement(s: set<nat>) returns (w: nat)
    requires |s| == 1
    ensures s == {w}
  {
    w :| w in s;
    Subset({w}, s);
  }

  // Days of the month are unrestricted exactly when all of them are allowed.
  lemma DomLengthMeans(p: ParsedCron)
    requires Parsed(p)
    ensures !DomRestricted(p) <==> forall v: nat :: 1 <= v <= 31 ==> v in p.dom
  {
    assert forall v :: v in p.dom ==> Accepted(Dom, v);
    FullLength(p.dom, 1, 31);
  }

  // Weekdays are unrestricted exactly when all but one of 0 to 7 are listed, whichever that is: a list
  // that leaves out Saturday and has 7 for Sunday restricts nothing.
  lemma DowLengthMeans(p: ParsedCron)
    requires Parsed(p)
    ensures !DowRestricted(p) <==> exists w: nat :: AllBut(p.dow, 0, 8, w)
  {
    assert forall v :: v in p.dow ==> Accepted(Dow, v);
    OneShort(p.dow, 0, 8);
  }

  // ---------------------------------------------------------------- the documented weekday rule

  // The field table: 0 to 6 from Sunday on, and 7 for Sunday too.
  predicate Listed(p: ParsedCron, w: int) {
    w in p.dow || (w == 0 && 7 in p.dow)
  }

  ghost predicate SomeDayUnlisted(p: ParsedCron) {
    exists w: nat :: w <= 6 && !Listed(p, w)
  }

  // The either-matches rule over the weekdays that the table lists.
  ghost predicate Documented(p: ParsedCron, dom: int, dow: int) {
    if DomRestricted(p) && SomeDayUnlisted(p) then dom in p.dom || Listed(p, dow)
    else if DomRestricted(p) then dom in p.dom
    else if SomeDayUnlisted(p) then Listed(p, dow)
    else true
  }

  ghost predicate AsDocumented(p: ParsedCron) {
    forall dom: nat, dow: nat :: 1 <= dom <= 31 && dow <= 6 ==> (DayMatches(p, dom, dow) <==> Documented(p, dom, dow))
  }

  // With 7 listed: 0 is listed too and another day is missing besides, or the list is 1-7, or it is
  // 0-7 and the days of the month are unrestricted.
  predicate SevenHarmless(p: ParsedCron) {
    || 7 !in p.dow
    || (0 in p.dow && |p.dow| < 7)
    || (0 !in p.dow && |p.dow| == 7)
    || (|p.dow| == 8 && !DomRestricted(p))
  }

  // The listed values below 7.
  lemma BelowSeven(p: ParsedCron) returns (front: seq<nat>)
    requires Parsed(p) && 7 in p.dow
    ensures Ascending(front) && |front| == |p.dow| - 1
    ensures forall v: nat :: v in front <==> v in p.dow && v <= 6
    ensures forall v: nat :: v in p.dow ==> v <= 7
  {
    assert forall v :: v in p.dow ==> Accepted(Dow, v);
    front := p.dow[..|p.dow| - 1];
    assert p.dow == front + [p.dow[|p.dow| - 1]];
    var i :| 0 <= i < |p.dow| && p.dow[i] == 7;
    assert Accepted(Dow, p.dow[|p.dow| - 1]);
  }

  // How long a list with 7 is tells which of 0 to 6 it holds.
  lemma SevenCounts(p: ParsedCron)
    requires Parsed(p) && 7 in p.dow
    ensures |p.dow| == 8 <==> forall v: nat :: v <= 6 ==> v in p.dow
    ensures 0 !in p.dow ==> (|p.dow| == 7 <==> forall v: nat :: 1 <= v <= 6 ==> v in p.dow)
    ensures |p.dow| <= 8 && (0 !in p.dow ==> |p.dow| <= 7)
  {
    var front := BelowSeven(p);
    FullLength(front, 0, 7);
    var missing := Lacking(front, 0, 7);
    if 0 !in p.dow {
      FullLength(front, 1, 6);
      assert 0 in missing;
      Subset({0}, missing);
    }
  }

  // The table restricts the weekdays exactly when one of 0 to 6 stands for no listed value.
  lemma UnlistedMeans(p: ParsedCron)
    requires Parsed(p)
    ensures 7 !in p.dow ==> (SomeDayUnlisted(p) <==> DowRestricted(p))
    ensures 7 in p.dow && 0 in p.dow ==> (SomeDayUnlisted(p) <==> |p.dow| != 8)
    ensures 7 in p.dow && 0 !in p.dow ==> (SomeDayUnlisted(p) <==> |p.dow| != 7)
  {
    assert forall v :: v in p.dow ==> Accepted(Dow, v);
    if 7 !in p.dow {
      FullLength(p.dow, 0, 7);
    } else {
      SevenCounts(p);
    }
    if v: nat :| v <= 6 && v !in p.dow && (v != 0 || 7 !in p.dow) {
      assert !Listed(p, v);
    }
  }

  lemma HarmlessIsDocumented(p: ParsedCron)
    requires Parsed(p) && SevenHarmless(p)
    ensures AsDocumented(p)
  {
    UnlistedMeans(p);
    if 7 in p.dow {
      SevenCounts(p);
    }
    forall dom: nat, dow: nat | 1 <= dom <= 31 && dow <= 6
      ensures DayMatches(p, dom, dow) <==> Documented(p, dom, dow)
    {
      if !SomeDayUnlisted(p) {
        assert Listed(p, dow);
      }
    }
  }

  // A day of the month that the field leaves to the weekdays.
  lemma OpenDay(p: ParsedCron) returns (dom: nat)
    requires Parsed(p)
    ensures 1 <= dom <= 31 && (DomRestricted(p) ==> dom !in p.dom)
  {
    dom := 1;
    if DomRestricted(p) {
      DomLengthMeans(p);
      dom :| 1 <= dom <= 31 && dom !in p.dom;
    }
  }

  lemma HarmfulIsNot(p: ParsedCron)
    requires Parsed(p) && !SevenHarmless(p)
    ensures !AsDocumented(p)
  {
    UnlistedMeans(p);
    SevenCounts(p);
    var dom := OpenDay(p);
    if 0 !in p.dow {
      // fewer than seven values: Sunday is listed and does not match
      assert Listed(p, 0);
      assert !DayMatches(p, dom, 0) && Documented(p, dom, 0);
    } else if |p.dow| == 7 {
      // one of 1 to 6 is missing, and yet nothing is restricted
      var w: nat :| w <= 6 && !Listed(p, w);
      if DomRestricted(p) {
        assert !DayMatches(p, dom, 0) && Documented(p, dom, 0);
      } else {
        assert DayMatches(p, dom, w) && !Documented(p, dom, w);
      }
    } else {
      // all eight: every day matches, where only the days of the month should count
      assert DayMatches(p, dom, 0) && !Documented(p, dom, 0);
    }
  }

  /**
    The weekday rule is the documented one, on every day of the month and weekday, exactly for the
    expressions whose list has no 7, or has 7 where it does no harm.
   */
  lemma WeekdaysAsDocumentedExactly(p: ParsedCron)
    requires Parsed(p)
    ensures AsDocumented(p) <==> SevenHarmless(p)
  {
    if SevenHarmless(p) {
      HarmlessIsDocumented(p);
    } else {
      HarmfulIsNot(p);
    }
  }

  // `0 0 * * 7`: Sunday is listed and never matches.
  lemma SevenIsNoSunday(p: ParsedCron, dom: int)
    requires Parsed(p) && !DomRestricted(p) && p.dow == [7]
    ensures Documented(p, dom, 0) && !DayMatches(p, dom, 0)
  {
  }

  // `0 0 1 * 0-7`: every day matches, not only the first.
  lemma ZeroToSevenMatchesEveryDay(p: ParsedCron, dow: nat)
    requires Parsed(p) && p.dom == [1] && p.dow == [0, 1, 2, 3, 4, 5, 6, 7] && dow <= 6
    ensures DayMatches(p, 2, dow) && !Documented(p, 2, dow)
  {
    assert forall w: nat :: w <= 6 ==> p.dow[w] == w;
    assert forall w: nat :: w <= 6 ==> Listed(p, w);
  }

  // `0 0 * * 0-5,7`: Saturday is not listed and matches.
  lemma LeftOutSaturdayMatches(p: ParsedCron, dom: int)
    requires Parsed(p) && !DomRestricted(p) && p.dow == [0, 1, 2, 3, 4, 5, 7]
    ensures DayMatches(p, dom, 6) && !Documented(p, dom, 6)
  {
    assert !Listed(p, 6);
  }

  // `1-7` is every day under both rules.
  lemma OneToSevenIsEveryDay(p: ParsedCron, dom: int, dow: nat)
    requires Parsed(p) && !DomRestricted(p) && p.dow == [1, 2, 3, 4, 5, 6, 7] && dow <= 6
    ensures DayMatches(p, dom, dow) && Documented(p, dom, dow)
  {
    assert dow > 0 ==> p.dow[dow - 1] == dow;
  }

  // ---------------------------------------------------------------- dates that come round

  predicate CommonDate(month: int, day: int) {
    1 <= month <= 12 && 1 <= day <= MonthLength(false, month)
  }

  predicate Fits(p: ParsedCron, month: nat, day: nat) {
    month in p.month && day in p.dom && CommonDate(month, day)
  }

  // A restricted field must hold something that every year has: a date of a common year, or a
  // weekday other than 7.
  ghost predicate Recurs(p: ParsedCron) {
    || (!DomRestricted(p) && !DowRestricted(p))
    || (DomRestricted(p) && exists month, day :: Fits(p, month, day))
    || (DowRestricted(p) && exists w :: w in p.dow && w <= 6)
  }

  lemma {:induction false} LeapShift(month: int)
    requires 1 <= month <= 13
    ensures DaysBefore(true, month) == DaysBefore(false, month) + (if month > 2 then 1 else 0)
    decreases month
  {
    if month > 1 {
      LeapShift(month - 1);
    }
  }

  lemma LeapsApart(y: int)
    ensures !(Leap(y) && Leap(y + 1))
  {
  }

  // The same date of a common year comes round after 365 or 366 days.
  lemma YearLater(y: int, month: int)
    requires 1 <= month <= 12
    ensures 365 <= MonthStart(y + 1, month) - MonthStart(y, month) <= 366
  {
    YearSteps(y);
    LeapsApart(y);
    LeapShift(month);
  }

  lemma DateInItsYear(y: int, month: int, day: int)
    requires CommonDate(month, day)
    ensures YearStart(y) <= DayNumber(Date(y, month, day)) < YearStart(y + 1)
  {
    MonthsAscend(Leap(y), 1, month);
    MonthsAscend(Leap(y), month + 1, 13);
    TwelveMonths(Leap(y));
    YearSteps(y);
  }

  // Any 366 days in a row hold every date of a common year.
  lemma YearlyDate(first: int, month: int, day: int) returns (found: int)
    requires CommonDate(month, day)
    ensures first <= found <= first + 365
    ensures DateOf(found).month == month && DateOf(found).day == day
  {
    var y := YearOf(first);
    YearFits(first);
    YearSteps(y);
    DateInItsYear(y, month, day);
    DateInItsYear(y + 1, month, day);
    YearLater(y, month);
    var here, next := DayNumber(Date(y, month, day)), DayNumber(Date(y + 1, month, day));
    DateIsUnique(Date(y, month, day));
    DateIsUnique(Date(y + 1, month, day));
    found := if here >= first then here else next;
  }

  // Any seven days in a row hold every weekday.
  lemma WeekdayWithin(first: int, w: int) returns (found: int)
    requires 0 <= w <= 6
    ensures first <= found <= first + 6 && Weekday(found) == w
  {
    found := first + (w - Weekday(first) + 7) % 7;
  }

  lemma EarlyInMonth(y: int, month: int, day: int)
    requires 1 <= month <= 12 && MonthStart(y, month) <= day < MonthStart(y, month) + 28
    ensures DateOf(day).month == month
  {
    MonthsAscend(Leap(y), month, month + 1);
    MonthContains(y, month, day);
  }

  // Any 366 days in a row hold every weekday of every month, even if they start in the middle of one.
  lemma MonthlyWeekday(first: int, month: int, w: int) returns (found: int)
    requires 1 <= month <= 12 && 0 <= w <= 6
    ensures first <= found <= first + 365
    ensures DateOf(found).month == month && Weekday(found) == w
  {
    var start := YearlyDate(first, month, 1);
    var y := DateOf(start).year;
    DateFits(start);
    assert start == MonthStart(y, month);
    if start + 6 <= first + 365 {
      found := WeekdayWithin(start, w);
      EarlyInMonth(y, month, found);
    } else {
      YearLater(y - 1, month);
      found := WeekdayWithin(first, w);
      EarlyInMonth(y - 1, month, found);
    }
  }

  lemma SomeDayMatches(p: ParsedCron, first: int) returns (day: int)
    requires Parsed(p) && Recurs(p)
    ensures first <= day <= first + 365 && DateMatches(p, day)
  {
    var month := p.month[0];
    assert month in p.month && Accepted(Month, month);
    if !DomRestricted(p) && !DowRestricted(p) {
      day := YearlyDate(first, month, 1);
    } else if DomRestricted(p) && exists m, d :: Fits(p, m, d) {
      var m: nat, d: nat :| Fits(p, m, d);
      day := YearlyDate(first, m, d);
    } else {
      var w :| w in p.dow && w <= 6;
      day := MonthlyWeekday(first, month, w);
    }
  }

  // A minute of the day turns up once for each of 366 days in any window.
  lemma ClockInWindow(start: int, x: int, day: int)
    requires 0 <= x < MINUTES_PER_DAY
    requires var first := if x >= start % MINUTES_PER_DAY then start / MINUTES_PER_DAY else start / MINUTES_PER_DAY + 1;
             first <= day <= first + 365
    ensures start <= day * MINUTES_PER_DAY + x < start + MAX_ITERATIONS
  {
  }

  lemma RecurringFires(p: ParsedCron, start: int)
    requires Parsed(p) && Recurs(p)
    ensures FiresFrom(p, start)
  {
    var hour, minute := p.hour[0], p.minute[0];
    assert hour in p.hour && minute in p.minute && Accepted(Hour, hour) && Accepted(Minute, minute);
    var x := hour * 60 + minute;
    var first := if x >= start % MINUTES_PER_DAY then start / MINUTES_PER_DAY else start / MINUTES_PER_DAY + 1;
    var day := SomeDayMatches(p, first);
    ClockInWindow(start, x, day);
    Clock(day, hour, minute);
    MatchesExactly(p, (day * 24 + hour) * 60 + minute);
  }

  // 2021 and 2022 are common years, and the window from the start of 2021 ends on their border.
  lemma OtherwiseStuck(p: ParsedCron)
    requires Parsed(p) && !Recurs(p)
    ensures !FiresFrom(p, YearStart(2021) * MINUTES_PER_DAY)
  {
    var start := YearStart(2021) * MINUTES_PER_DAY;
    forall m | start <= m < start + MAX_ITERATIONS ensures !FiresAt(p, m) {
      var day := m / MINUTES_PER_DAY;
      assert YearStart(2021) <= day <= YearStart(2021) + 365;
      CommonYears(day);
      NoDateMatches(p, day);
      MatchesExactly(p, m);
    }
  }

  lemma CommonYears(day: int)
    requires YearStart(2021) <= day <= YearStart(2021) + 365
    ensures CommonDate(DateOf(day).month, DateOf(day).day)
  {
    YearSteps(2021);
    YearSteps(2022);
    DateFits(day);
    YearIsUnique(day, if day < YearStart(2022) then 2021 else 2022);
  }

  lemma NoDateMatches(p: ParsedCron, day: int)
    requires !Recurs(p) && CommonDate(DateOf(day).month, DateOf(day).day)
    ensures !DateMatches(p, day)
  {
    assert DomRestricted(p) ==> !Fits(p, DateOf(day).month, DateOf(day).day);
  }

  /**
    The search succeeds from every moment exactly for the expressions that recur: those with neither
    day restricted, with a restricted day of the month that some allowed month has in a common year,
    or with a restricted weekday in 0 to 6.
   */
  lemma AlwaysFiresExactly(p: ParsedCron)
    requires Parsed(p)
    ensures (forall start: int :: FiresFrom(p, start)) <==> Recurs(p)
  {
    if Recurs(p) {
      forall start: int ensures FiresFrom(p, start) {
        RecurringFires(p, start);
      }
    } else {
      OtherwiseStuck(p);
    }
  }

  // Two expressions that parse and do not recur: only 29 February, and weekday 7 for Sunday.
  lemma LeapDayDoesNotRecur(p: ParsedCron)
    requires Parsed(p) && p.month == [2] && p.dom == [29] && |p.dow| == 7
    ensures !FiresFrom(p, YearStart(2021) * MINUTES_PER_DAY)
  {
    assert forall month, day :: Fits(p, month, day) ==> month == 2 && day == 29;
    OtherwiseStuck(p);
  }

  lemma SevenNeverFires(p: ParsedCron, start: int)
    requires Parsed(p) && !DomRestricted(p) && p.dow == [7]
    ensures !FiresFrom(p, start)
  {
    forall m ensures !FiresAt(p, m) {
      MatchesExactly(p, m);
    }
  }
}
