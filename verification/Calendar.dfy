/** The Gregorian calendar in UTC, counted in days since 1970-01-01. */
module Calendar {

  datatype Date = Date(year: nat, month: nat, day: nat)

  const EPOCH_YEAR: nat := 1970

  predicate Leap(y: nat) {
    y % 4 == 0 && (y % 100 != 0 || y % 400 == 0)
  }

  function YearLength(y: nat): (n: nat)
    ensures n == 365 || n == 366
  {
    if Leap(y) then 366 else 365
  }

  function MonthLength(y: nat, m: nat): (n: nat)
    ensures 28 <= n <= 31
  {
    if m == 2 then (if Leap(y) then 29 else 28)
    else if m == 4 || m == 6 || m == 9 || m == 11 then 30
    else 31
  }

  /** Day number of January 1st. */
  function YearStart(y: nat): nat
    requires EPOCH_YEAR <= y
  {
    if y == EPOCH_YEAR then 0 else YearStart(y - 1) + YearLength(y - 1)
  }

  /** Days of the year before the first of a month. */
  function MonthStart(y: nat, m: nat): nat
    requires 1 <= m <= 12
  {
    [0, 31, 59, 90, 120, 151, 181, 212, 243, 273, 304, 334][m - 1] + if m > 2 && Leap(y) then 1 else 0
  }

  lemma MonthStartStep(y: nat, m: nat)
    requires 1 <= m <= 12
    ensures MonthStart(y, m) + MonthLength(y, m) == if m == 12 then YearLength(y) else MonthStart(y, m + 1)
  {
  }

  /** Walk the years, then the months. */
  function DateFrom(day: nat, y: nat): Date {
    if day < YearLength(y) then MonthFrom(day, y, 1) else DateFrom(day - YearLength(y), y + 1)
  }

  function MonthFrom(day: nat, y: nat, m: nat): Date
    decreases 13 - m
  {
    if day < MonthLength(y, m) || m >= 12 then Date(y, m, day + 1) else MonthFrom(day - MonthLength(y, m), y, m + 1)
  }

  function DateOf(day: nat): Date {
    DateFrom(day, EPOCH_YEAR)
  }

  /** Sunday is 0; the epoch was a Thursday. */
  function Weekday(day: nat): (w: nat)
    ensures w < 7
  {
    (day + 4) % 7
  }

  lemma {:induction false} YearStartGrows(x: nat, y: nat)
    requires EPOCH_YEAR <= x <= y
    ensures YearStart(x) + 365 * (y - x) <= YearStart(y)
  {
    if x < y { YearStartGrows(x, y - 1); }
  }

  lemma {:induction false} MonthFromSound(day: nat, y: nat, m: nat)
    requires 1 <= m <= 12 && MonthStart(y, m) + day < YearLength(y)
    ensures var d := MonthFrom(day, y, m);
            && d.year == y && m <= d.month <= 12 && 1 <= d.day <= MonthLength(y, d.month)
            && MonthStart(y, d.month) + d.day - 1 == MonthStart(y, m) + day
    decreases 13 - m
  {
    MonthStartStep(y, m);
    if m < 12 && day >= MonthLength(y, m) {
      MonthFromSound(day - MonthLength(y, m), y, m + 1);
    }
  }

  lemma {:induction false} DateFromSound(day: nat, y: nat)
    requires EPOCH_YEAR <= y
    ensures var d := DateFrom(day, y);
            && y <= d.year && 1 <= d.month <= 12 && 1 <= d.day <= MonthLength(d.year, d.month)
            && YearStart(d.year) + MonthStart(d.year, d.month) + d.day - 1 == YearStart(y) + day
    decreases day
  {
    if day < YearLength(y) {
      MonthFromSound(day, y, 1);
    } else {
      DateFromSound(day - YearLength(y), y + 1);
    }
  }

  /** A day number and its date determine each other. */
  lemma DateOfSound(day: nat)
    ensures var d := DateOf(day);
            && EPOCH_YEAR <= d.year && 1 <= d.month <= 12 && 1 <= d.day <= MonthLength(d.year, d.month)
            && YearStart(d.year) + MonthStart(d.year, d.month) + d.day - 1 == day
  {
    DateFromSound(day, EPOCH_YEAR);
  }

  lemma {:induction false} MonthFromComplete(d: Date, m: nat, day: nat)
    requires 1 <= m <= d.month <= 12 && 1 <= d.day <= MonthLength(d.year, d.month)
    requires MonthStart(d.year, m) + day == MonthStart(d.year, d.month) + d.day - 1
    ensures MonthFrom(day, d.year, m) == d
    decreases d.month - m
  {
    MonthStartStep(d.year, m);
    if m < d.month {
      MonthStartGrows(d.year, m + 1, d.month);
      MonthFromComplete(d, m + 1, day - MonthLength(d.year, m));
    }
  }

  lemma {:induction false} MonthStartGrows(y: nat, m: nat, n: nat)
    requires 1 <= m <= n <= 12
    ensures MonthStart(y, m) <= MonthStart(y, n)
  {
  }

  lemma {:induction false} DateFromComplete(d: Date, y: nat, day: nat)
    requires EPOCH_YEAR <= y <= d.year && 1 <= d.month <= 12 && 1 <= d.day <= MonthLength(d.year, d.month)
    requires YearStart(y) + day == YearStart(d.year) + MonthStart(d.year, d.month) + d.day - 1
    ensures DateFrom(day, y) == d
    decreases d.year - y
  {
    if y == d.year {
      MonthStartStep(y, d.month);
      if d.month < 12 { MonthStartGrows(y, d.month + 1, 12); }
      MonthFromComplete(d, 1, day);
    } else {
      YearStartGrows(y + 1, d.year);
      DateFromComplete(d, y + 1, day - YearLength(y));
    }
  }

  /** February 29th exists exactly in leap years, 59 days after January 1st. */
  lemma LeapDay(day: nat)
    ensures var d := DateOf(day);
            EPOCH_YEAR <= d.year && (d.month == 2 && d.day == 29 ==> Leap(d.year) && day == YearStart(d.year) + 59)
  {
    DateOfSound(day);
  }

  lemma LeapDayExists(y: nat)
    requires EPOCH_YEAR <= y && Leap(y)
    ensures DateOf(YearStart(y) + 59) == Date(y, 2, 29)
  {
    DateFromComplete(Date(y, 2, 29), EPOCH_YEAR, YearStart(y) + 59);
  }
}
