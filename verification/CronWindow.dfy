/** What the 1830-day search window reaches: everything, except a February 29th
    schedule asked in the gap around a century that is no leap year. */
module CronWindow {
  import opened Arithmetic
  import opened Calendar
  import opened CronNext

  // ---------------------------------------------------------------------
  // Days that come round within two years
  // ---------------------------------------------------------------------

  lemma DayOfNextYear(day: nat, m: nat, d: nat) returns (later: nat)
    requires 1 <= m <= 12 && 1 <= d <= MonthLength(DateOf(day).year + 1, m)
    ensures DateOf(later) == Date(DateOf(day).year + 1, m, d)
    ensures day < later < day + 732
  {
    DateOfSound(day);
    var date := DateOf(day);
    var y := date.year + 1;
    MonthBounds(date.year, date.month, date.day);
    MonthBounds(y, m, d);
    assert YearStart(y) == YearStart(y - 1) + YearLength(y - 1);
    later := YearStart(y) + MonthStart(y, m) + d - 1;
    DateFromComplete(Date(y, m, d), EPOCH_YEAR, later);
  }

  lemma MonthBounds(y: nat, m: nat, d: nat)
    requires 1 <= m <= 12 && 1 <= d <= MonthLength(y, m)
    ensures MonthStart(y, m) + d <= YearLength(y)
  {
  }

  lemma WeekdayWithinWeek(day: nat, w: nat) returns (i: nat)
    requires w < 7
    ensures i < 7 && Weekday(day + i) == w
  {
    var r := Weekday(day);
    i := if r <= w then w - r else w + 7 - r;
    var q := (day + 4) / 7;
    assert day + 4 == 7 * q + r;
    if r <= w {
      DivModUnique(day + i + 4, 7, q, w);
    } else {
      DivModUnique(day + i + 4, 7, q + 1, w);
    }
  }

  /** The first week of a month of the next year has every weekday. */
  lemma WeekdayOfNextYear(day: nat, m: nat, w: nat) returns (later: nat)
    requires 1 <= m <= 12 && w < 7
    ensures DateOf(later).month == m && Weekday(later) == w
    ensures day < later < day + 740
  {
    var first := DayOfNextYear(day, m, 1);
    DateOfSound(first);
    var i := WeekdayWithinWeek(first, w);
    var y := DateOf(day).year + 1;
    later := first + i;
    DateOfSound(day);
    DateFromComplete(Date(y, m, 1 + i), EPOCH_YEAR, later);
  }

  lemma FullWeek(dow: set<int>)
    requires (forall w :: w in dow ==> 0 <= w < 7) && |dow| >= 7
    ensures forall w :: 0 <= w < 7 ==> w in dow
  {
    FullRange(dow, 0, 7);
  }

  /** A set of n values from a range of n holds them all. */
  lemma {:induction false} FullRange(s: set<int>, lo: int, n: nat)
    requires (forall x :: x in s ==> lo <= x < lo + n) && |s| >= n
    ensures forall x :: lo <= x < lo + n ==> x in s
    decreases n
  {
    if n > 0 {
      var last := lo + n - 1;
      AtMost(s - {last}, lo, n - 1);
      assert last !in s ==> s - {last} == s;
      FullRange(s - {last}, lo, n - 1);
      forall x | lo <= x < lo + n ensures x in s {
        if x != last { assert x in s - {last}; }
      }
    }
  }

  lemma {:induction false} AtMost(s: set<int>, lo: int, n: nat)
    requires forall x :: x in s ==> lo <= x < lo + n
    ensures |s| <= n
    decreases n
  {
    if n > 0 {
      AtMost(s - {lo + n - 1}, lo, n - 1);
    } else {
      assert forall x :: x !in s;
      assert s == {};
    }
  }

  // ---------------------------------------------------------------------
  // Schedules that only February 29th can meet
  // ---------------------------------------------------------------------

  predicate IsLeapDay(day: nat) {
    DateOf(day).month == 2 && DateOf(day).day == 29
  }

  /** Read off the fields: only February, only days past its 28th, any weekday. */
  predicate LeapOnly(c: Schedule) {
    2 in c.months && (forall m :: m in c.months ==> m == 2) && 29 in c.dom && (forall d :: d in c.dom ==> 29 <= d) && |c.dow| >= 7
  }

  lemma LeapOnlyMatches(c: Schedule, day: nat)
    requires Compiled(c) && LeapOnly(c)
    ensures MatchesDay(c, day) <==> IsLeapDay(day)
  {
    FullWeek(c.dow);
    DateOfSound(day);
  }

  /** Any other schedule that has a day at all has one within 740 days. */
  lemma OtherwiseSoon(c: Schedule, start: nat, some: nat) returns (later: nat)
    requires Compiled(c) && MatchesDay(c, some) && !LeapOnly(c)
    ensures MatchesDay(c, later) && start < later < start + 740
  {
    if |c.dow| < 7 {
      var w: int :| w in c.dow;
      if |c.dom| < 31 {
        later := WeekdayOfNextYear(start, DateOf(some).month, w);
      } else {
        FullRange(c.dom, 1, 31);
        DateOfSound(some);
        later := WeekdayOfNextYear(start, DateOf(some).month, w);
        DateOfSound(later);
      }
    } else {
      FullWeek(c.dow);
      DateOfSound(some);
      var m, d := EveryYear(c, some);
      later := DayOfNextYear(start, m, d);
    }
  }

  /** A month and a day of the fields that every year has. */
  lemma EveryYear(c: Schedule, some: nat) returns (m: nat, d: nat)
    requires Compiled(c) && |c.dow| >= 7 && MatchesDay(c, some) && !LeapOnly(c)
    ensures m in c.months && d in c.dom && 1 <= m <= 12 && forall y: nat :: 1 <= d <= MonthLength(y, m)
  {
    DateOfSound(some);
    m, d := DateOf(some).month, DateOf(some).day;
    if m == 2 && d == 29 {
      if e :| e in c.dom && e < 29 {
        d := e;
      } else if n :| n in c.months && n != 2 {
        m := n;
      }
    }
  }

  // ---------------------------------------------------------------------
  // The gap
  // ---------------------------------------------------------------------

  function LeapDayOf(y: nat): nat
    requires EPOCH_YEAR <= y
  {
    YearStart(y) + 59
  }

  /** The day of `earliest` still has a matching time. */
  ghost predicate TimeLeft(c: Schedule, earliest: nat) {
    exists h, m :: h in c.hours && m in c.minutes && earliest % DAY <= h * 60 + m
  }

  /** The leap day of y is over for the schedule. */
  ghost predicate Over(c: Schedule, earliest: nat, y: nat)
    requires EPOCH_YEAR <= y
  {
    LeapDayOf(y) < earliest / DAY || (LeapDayOf(y) == earliest / DAY && !TimeLeft(c, earliest))
  }

  /** The window opens after the last leap day before a common century and closes
      before the first one after it. */
  ghost predicate InGap(c: Schedule, earliest: nat, y: nat) {
    && EPOCH_YEAR <= y && Leap(y) && !Leap(y + 4)
    && Over(c, earliest, y) && earliest / DAY + MAX_SEARCH_DAYS <= LeapDayOf(y + 8)
  }

  ghost predicate Gap(c: Schedule, earliest: nat) {
    exists y: nat :: InGap(c, earliest, y)
  }

  lemma CommonBetween(y: nat)
    requires y % 4 == 0
    ensures !Leap(y + 1) && !Leap(y + 2) && !Leap(y + 3)
  {
    DivModUnique(y + 1, 4, y / 4, 1);
    DivModUnique(y + 2, 4, y / 4, 2);
    DivModUnique(y + 3, 4, y / 4, 3);
  }

  lemma FourYears(y: nat)
    requires EPOCH_YEAR <= y && y % 4 == 0
    ensures YearStart(y + 4) == YearStart(y) + 1460 + (if Leap(y) then 1 else 0)
    ensures !Leap(y + 1) && !Leap(y + 2) && !Leap(y + 3)
    ensures !Leap(y) || !Leap(y + 4) ==> Leap(y + 8) && (Leap(y) || Leap(y + 4))
  {
    CommonBetween(y);
    YearAfter(y);
    YearAfter(y + 1);
    YearAfter(y + 2);
    YearAfter(y + 3);
    if !Leap(y) || !Leap(y + 4) { CommonCentury(y); }
  }

  lemma YearAfter(y: nat)
    requires EPOCH_YEAR <= y
    ensures YearStart(y + 1) == YearStart(y) + 365 + (if Leap(y) then 1 else 0)
  {
  }

  /** Of three multiples of four in a row at most one is a common year. */
  lemma CommonCentury(y: nat)
    requires y % 4 == 0 && (!Leap(y) || !Leap(y + 4))
    ensures Leap(y + 8) && (Leap(y) || Leap(y + 4))
  {
    var r := y % 100;
    assert y == 100 * (y / 100) + r;
    if !Leap(y) {
      DivModUnique(y + 4, 100, y / 100, 4);
      DivModUnique(y + 8, 100, y / 100, 8);
    } else {
      DivModUnique(y + 8, 100, (y + 4) / 100, 4);
    }
  }

  /** Between two leap years eight years apart no other leap day lies. */
  lemma NoLeapDayBetween(y: nat, day: nat)
    requires EPOCH_YEAR <= y && Leap(y) && !Leap(y + 4) && LeapDayOf(y) < day < LeapDayOf(y + 8)
    ensures !IsLeapDay(day)
  {
    FourYears(y);
    FourYears(y + 4);
    LeapDay(day);
    DateOfSound(day);
    var z := DateOf(day).year;
    if z < y { YearStartGrows(z, y); }
    if z > y + 8 { YearStartGrows(y + 8, z); }
  }

  /** A matching time on a matching day. */
  function MinuteOn(day: nat, h: int, m: int): int {
    day * DAY + h * 60 + m
  }

  lemma TimeOnDay(c: Schedule, day: nat, h: int, m: int)
    requires CompiledTimes(c) && h in c.hours && m in c.minutes && MatchesDay(c, day)
    ensures day * DAY <= MinuteOn(day, h, m) < (day + 1) * DAY && Matches(c, MinuteOn(day, h, m))
  {
    PartsOfCandidate(day, h, m);
  }

  /** A later matching day inside the window is found. */
  lemma DayInWindowIsFound(c: Schedule, fromSeconds: nat, day: nat)
    requires Compiled(c) && MatchesDay(c, day)
    requires Earliest(fromSeconds) / DAY < day < Earliest(fromSeconds) / DAY + MAX_SEARCH_DAYS
    ensures NextFire(c, fromSeconds).Some?
  {
    var h: int :| h in c.hours;
    var m: int :| m in c.minutes;
    TimeOnDay(c, day, h, m);
    assert Earliest(fromSeconds) < day * DAY && (day + 1) * DAY <= Horizon(fromSeconds);
  }

  lemma YearOf(day: nat)
    ensures var z := DateOf(day).year; EPOCH_YEAR <= z && YearStart(z) <= day < YearStart(z + 1)
  {
    DateOfSound(day);
    var date := DateOf(day);
    MonthBounds(date.year, date.month, date.day);
    assert YearStart(date.year + 1) == YearStart(date.year) + YearLength(date.year);
  }

  lemma YearsInOrder(x: nat, y: nat)
    requires EPOCH_YEAR <= x && EPOCH_YEAR <= y
    ensures x <= y ==> YearStart(x) <= YearStart(y)
  {
    if x <= y { YearStartGrows(x, y); }
  }

  lemma MultipleOfFour(z: nat, first: nat) returns (y: nat)
    requires first % 4 == 0 && first <= z
    ensures y % 4 == 0 && first <= y <= z < y + 4
  {
    var q := z / 4;
    y := 4 * q;
    DivModUnique(y, 4, q, 0);
    assert first == 4 * (first / 4);
  }

  /** The leap cycle that a day lies in. */
  lemma LeapCycle(day: nat, first: nat) returns (y: nat)
    requires EPOCH_YEAR <= first && first % 4 == 0 && YearStart(first) <= day
    ensures EPOCH_YEAR <= y && y % 4 == 0 && YearStart(y) <= day < YearStart(y + 4)
  {
    YearOf(day);
    var z := DateOf(day).year;
    YearsInOrder(z + 1, first);
    y := MultipleOfFour(z, first);
    YearsInOrder(y, z);
    YearsInOrder(z + 1, y + 4);
  }

  lemma LeapDayFound(c: Schedule, fromSeconds: nat, y: nat)
    requires Compiled(c) && LeapOnly(c) && EPOCH_YEAR <= y && Leap(y)
    requires Earliest(fromSeconds) / DAY <= LeapDayOf(y) < Earliest(fromSeconds) / DAY + MAX_SEARCH_DAYS
    requires !Over(c, Earliest(fromSeconds), y)
    ensures NextFire(c, fromSeconds).Some?
  {
    var e := Earliest(fromSeconds);
    LeapDayExists(y);
    LeapOnlyMatches(c, LeapDayOf(y));
    if e / DAY < LeapDayOf(y) {
      DayInWindowIsFound(c, fromSeconds, LeapDayOf(y));
    } else {
      var h, m :| h in c.hours && m in c.minutes && e % DAY <= h * 60 + m;
      TimeOnDay(c, LeapDayOf(y), h, m);
      assert e == e / DAY * DAY + e % DAY;
      assert e <= MinuteOn(LeapDayOf(y), h, m) < Horizon(fromSeconds);
    }
  }

  /** Outside every gap a February 29th schedule is found. */
  lemma FoundOutsideGap(c: Schedule, fromSeconds: nat)
    requires Compiled(c) && LeapOnly(c) && !Gap(c, Earliest(fromSeconds))
    ensures NextFire(c, fromSeconds).Some?
  {
    var e := Earliest(fromSeconds);
    var day := e / DAY;
    assert YearStart(1971) == 365;
    assert YearStart(1972) == 730;
    if day < 730 {
      LeapDayFound(c, fromSeconds, 1972);
    } else {
      var y := LeapCycle(day, 1972);
      FourYears(y);
      FourYears(y + 4);
      if Leap(y) && !Over(c, e, y) {
        LeapDayFound(c, fromSeconds, y);
      } else if Leap(y + 4) {
        LeapDayFound(c, fromSeconds, y + 4);
      } else {
        assert !InGap(c, e, y);
        LeapDayFound(c, fromSeconds, y + 8);
      }
    }
  }

  lemma NotFoundInGap(c: Schedule, fromSeconds: nat, y: nat)
    requires Compiled(c) && LeapOnly(c) && InGap(c, Earliest(fromSeconds), y)
    ensures NextFire(c, fromSeconds).None?
  {
    var e := Earliest(fromSeconds);
    forall t: nat | e <= t < Horizon(fromSeconds) ensures !Matches(c, t) {
      if Matches(c, t) {
        LeapOnlyMatches(c, t / DAY);
        if LeapDayOf(y) < t / DAY {
          NoLeapDayBetween(y, t / DAY);
        } else {
          TimeOfDay(c, e, t);
        }
      }
    }
  }

  lemma TimeOfDay(c: Schedule, earliest: nat, t: nat)
    requires earliest <= t && t / DAY == earliest / DAY && Matches(c, t)
    ensures TimeLeft(c, earliest)
  {
    MinuteParts(t);
    MinuteParts(earliest);
    var h, m := (t % DAY) / 60, t % 60;
    assert earliest % DAY <= h * 60 + m;
  }

  // ---------------------------------------------------------------------
  // The theorem
  // ---------------------------------------------------------------------

  /** Five years catch every schedule that has a later match, but for one kind:
      the search reports "never" exactly for February 29th schedules asked in a
      gap, at whatever moment it is asked. */
  lemma MissedExactlyInGap(c: Schedule, fromSeconds: nat, t: nat)
    requires Compiled(c) && Earliest(fromSeconds) <= t && Matches(c, t)
    ensures NextFire(c, fromSeconds).None? <==> LeapOnly(c) && Gap(c, Earliest(fromSeconds))
  {
    var e := Earliest(fromSeconds);
    if !LeapOnly(c) {
      var later := OtherwiseSoon(c, e / DAY, t / DAY);
      DayInWindowIsFound(c, fromSeconds, later);
    } else if Gap(c, e) {
      var y: nat :| InGap(c, e, y);
      NotFoundInGap(c, fromSeconds, y);
    } else {
      FoundOutsideGap(c, fromSeconds);
    }
  }

  /** A February 29th schedule always has a later match, so in a gap the answer
      "never" is wrong. */
  lemma LeapOnlyRecurs(c: Schedule, fromSeconds: nat) returns (t: nat)
    requires Compiled(c) && LeapOnly(c)
    ensures Earliest(fromSeconds) <= t && Matches(c, t)
  {
    var day := Earliest(fromSeconds) / DAY;
    YearOf(day);
    var z := DateOf(day).year;
    var y := 400 * (z / 400 + 1);
    DivModUnique(y, 400, z / 400 + 1, 0);
    assert y == 100 * (4 * (z / 400 + 1)) && y == 4 * (100 * (z / 400 + 1));
    DivModUnique(y, 4, 100 * (z / 400 + 1), 0);
    YearStartGrows(z + 1, y);
    LeapDayExists(y);
    LeapOnlyMatches(c, LeapDayOf(y));
    var h: int :| h in c.hours;
    var m: int :| m in c.minutes;
    TimeOnDay(c, LeapDayOf(y), h, m);
    t := MinuteOn(LeapDayOf(y), h, m);
  }

  /** How long a gap is: from the last leap day for 1091 days, almost three years. */
  lemma GapLength(c: Schedule, earliest: nat, y: nat)
    requires EPOCH_YEAR <= y && Leap(y) && !Leap(y + 4) && Over(c, earliest, y)
    ensures InGap(c, earliest, y) <==> earliest / DAY <= LeapDayOf(y) + 1091
  {
    FourYears(y);
    FourYears(y + 4);
  }

  /** The first year with such a gap. */
  lemma NextMissedYear(y: nat)
    requires EPOCH_YEAR <= y <= 2096
    ensures Leap(y) && !Leap(y + 4) <==> y == 2096
  {
    if y % 4 == 0 && (y + 4) % 100 == 0 {
      assert y == 1996 || y == 2096;
    }
  }
}
