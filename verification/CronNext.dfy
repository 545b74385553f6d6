/** The compiled schedule and the bounded search for its next fire time.
    Times are minutes since 1970-01-01 00:00 UTC. */
module CronNext {
  import opened Calendar

  datatype Option<+T> = None | Some(value: T)

  const MAX_SEARCH_DAYS := 5 * 366
  const DAY := 1440

  datatype Schedule = Schedule(
    minutes: set<int>, hours: set<int>, dom: set<int>, months: set<int>, dow: set<int>,
    sortedMinutes: seq<int>, sortedHours: seq<int>)

  ghost predicate SortedView(xs: seq<int>, s: set<int>) {
    (forall x :: x in xs <==> x in s) && forall i, j :: 0 <= i < j < |xs| ==> xs[i] < xs[j]
  }

  /** The time fields ParseCron builds, with the views the search walks. */
  ghost predicate CompiledTimes(c: Schedule) {
    && (forall m :: m in c.minutes ==> 0 <= m < 60)
    && (forall h :: h in c.hours ==> 0 <= h < 24)
    && SortedView(c.sortedMinutes, c.minutes)
    && SortedView(c.sortedHours, c.hours)
  }

  /** The whole schedule: fields select something, within their bounds. */
  ghost predicate Compiled(c: Schedule) {
    && CompiledTimes(c)
    && (forall d :: d in c.dom ==> 1 <= d <= 31)
    && (forall m :: m in c.months ==> 1 <= m <= 12)
    && (forall w :: w in c.dow ==> 0 <= w < 7)
    && (exists m :: m in c.minutes) && (exists h :: h in c.hours) && (exists w :: w in c.dow)
  }

  /** The Vixie rule: when both day fields are restricted either may match. */
  predicate MatchesDay(c: Schedule, day: nat) {
    var d := DateOf(day);
    && d.month in c.months
    && if |c.dom| < 31 && |c.dow| < 7 then d.day in c.dom || Weekday(day) in c.dow
       else d.day in c.dom && Weekday(day) in c.dow
  }

  predicate Matches(c: Schedule, t: nat) {
    MatchesDay(c, t / DAY) && (t % DAY) / 60 in c.hours && t % 60 in c.minutes
  }

  /** First minute strictly after a moment given in seconds. */
  function Earliest(fromSeconds: nat): nat {
    fromSeconds / 60 + 1
  }

  /** End of the search window: 1830 days from the first candidate's day. */
  function Horizon(fromSeconds: nat): nat {
    (Earliest(fromSeconds) / DAY + MAX_SEARCH_DAYS) * DAY
  }

  ghost predicate NoneIn(c: Schedule, a: nat, b: nat) {
    forall t: nat :: a <= t < b ==> !Matches(c, t)
  }

  ghost predicate IsNext(c: Schedule, fromSeconds: nat, t: nat) {
    fromSeconds < 60 * t && Matches(c, t) && NoneIn(c, Earliest(fromSeconds), t)
  }

  lemma MinuteParts(t: nat)
    ensures t == (t / DAY) * DAY + ((t % DAY) / 60) * 60 + t % 60
    ensures (t % DAY) / 60 < 24
  {
  }

  lemma PartsOfCandidate(day: nat, h: nat, m: nat)
    requires h < 24 && m < 60
    ensures var t := day * DAY + h * 60 + m;
            t / DAY == day && (t % DAY) / 60 == h && t % 60 == m
  {
  }

  /** Candidates of one day, hour by hour, that were tried before (h, m). */
  ghost predicate TriedBefore(c: Schedule, earliest: nat, day: nat, h: nat, m: nat) {
    forall i, j {:trigger c.sortedHours[i], c.sortedMinutes[j]} ::
      0 <= i < |c.sortedHours| && 0 <= j < |c.sortedMinutes| && (i < h || (i == h && j < m)) ==>
        day * DAY + c.sortedHours[i] * 60 + c.sortedMinutes[j] < earliest
  }

  /** Everything at or after `earliest` and before a candidate that has only
      rejected candidates in front of it is no match. */
  lemma NothingSkipped(c: Schedule, earliest: nat, day: nat, h: nat, m: nat, t: nat)
    requires CompiledTimes(c) && TriedBefore(c, earliest, day, h, m)
    requires earliest <= t && t / DAY == day
    ensures Matches(c, t) ==>
              exists i, j ::
                && 0 <= i < |c.sortedHours| && 0 <= j < |c.sortedMinutes| && (i > h || (i == h && j >= m))
                && t == day * DAY + c.sortedHours[i] * 60 + c.sortedMinutes[j]
  {
    MinuteParts(t);
    if Matches(c, t) {
      var i :| 0 <= i < |c.sortedHours| && c.sortedHours[i] == (t % DAY) / 60;
      var j :| 0 <= j < |c.sortedMinutes| && c.sortedMinutes[j] == t % 60;
      assert t == day * DAY + c.sortedHours[i] * 60 + c.sortedMinutes[j];
    }
  }

  lemma ListedIsMember(c: Schedule, h: nat, m: nat)
    requires CompiledTimes(c) && h < |c.sortedHours| && m < |c.sortedMinutes|
    ensures 0 <= c.sortedHours[h] < 24 && c.sortedHours[h] in c.hours
    ensures 0 <= c.sortedMinutes[m] < 60 && c.sortedMinutes[m] in c.minutes
  {
    assert c.sortedHours[h] in c.sortedHours && c.sortedMinutes[m] in c.sortedMinutes;
  }

  lemma TriedOne(c: Schedule, earliest: nat, day: nat, h: nat, m: nat)
    requires TriedBefore(c, earliest, day, h, m) && h < |c.sortedHours| && m < |c.sortedMinutes|
    requires day * DAY + c.sortedHours[h] * 60 + c.sortedMinutes[m] < earliest
    ensures TriedBefore(c, earliest, day, h, m + 1)
  {
  }

  lemma TriedHour(c: Schedule, earliest: nat, day: nat, h: nat)
    requires TriedBefore(c, earliest, day, h, |c.sortedMinutes|)
    ensures TriedBefore(c, earliest, day, h + 1, 0)
  {
  }

  lemma CandidateIsLeast(c: Schedule, earliest: nat, day: nat, h: nat, m: nat, t: int)
    requires CompiledTimes(c) && h < |c.sortedHours| && m < |c.sortedMinutes|
    requires TriedBefore(c, earliest, day, h, m) && NoneIn(c, earliest, day * DAY) && MatchesDay(c, day)
    requires t == day * DAY + c.sortedHours[h] * 60 + c.sortedMinutes[m]
    ensures 0 <= t < (day + 1) * DAY && Matches(c, t) && NoneIn(c, earliest, t)
  {
    ListedIsMember(c, h, m);
    PartsOfCandidate(day, c.sortedHours[h], c.sortedMinutes[m]);
    forall u: nat | earliest <= u < t ensures !Matches(c, u) {
      if u / DAY == day { NothingSkipped(c, earliest, day, h, m, u); }
    }
  }

  lemma DayHasNone(c: Schedule, earliest: nat, day: nat)
    requires CompiledTimes(c) && NoneIn(c, earliest, day * DAY)
    requires MatchesDay(c, day) ==> TriedBefore(c, earliest, day, |c.sortedHours|, 0)
    ensures NoneIn(c, earliest, (day + 1) * DAY)
  {
    forall u: nat | earliest <= u < (day + 1) * DAY ensures !Matches(c, u) {
      if u / DAY == day && MatchesDay(c, day) { NothingSkipped(c, earliest, day, |c.sortedHours|, 0, u); }
    }
  }

  /** The two inner loops: the first hour and minute not before `earliest`. */
  method FirstCandidate(c: Schedule, earliest: nat, day: nat) returns (found: bool, h: nat, m: nat)
    ensures found ==> h < |c.sortedHours| && m < |c.sortedMinutes| && TriedBefore(c, earliest, day, h, m)
                      && earliest <= day * DAY + c.sortedHours[h] * 60 + c.sortedMinutes[m]
    ensures !found ==> TriedBefore(c, earliest, day, |c.sortedHours|, 0)
  {
    h, m := 0, 0;
    while h < |c.sortedHours|
      invariant h <= |c.sortedHours| && TriedBefore(c, earliest, day, h, 0)
    {
      m := 0;
      while m < |c.sortedMinutes|
        invariant m <= |c.sortedMinutes| && TriedBefore(c, earliest, day, h, m)
      {
        if day * DAY + c.sortedHours[h] * 60 + c.sortedMinutes[m] >= earliest {
          return true, h, m;
        }
        TriedOne(c, earliest, day, h, m);
        m := m + 1;
      }
      TriedHour(c, earliest, day, h);
      h := h + 1;
    }
    found := false;
  }

  /** One day of the search. */
  method ScanDay(c: Schedule, earliest: nat, day: nat) returns (r: Option<nat>)
    requires CompiledTimes(c) && MatchesDay(c, day) && NoneIn(c, earliest, day * DAY)
    ensures r.Some? ==> earliest <= r.value && Matches(c, r.value) && NoneIn(c, earliest, r.value)
                        && r.value < (day + 1) * DAY
    ensures r.None? ==> NoneIn(c, earliest, (day + 1) * DAY)
  {
    var found, h, m := FirstCandidate(c, earliest, day);
    if found {
      var cand := day * DAY + c.sortedHours[h] * 60 + c.sortedMinutes[m];
      CandidateIsLeast(c, earliest, day, h, m, cand);
      r := Some(cand);
    } else {
      DayHasNone(c, earliest, day);
      r := None;
    }
  }

  /** The fire time Next stands for. */
  ghost function NextFire(c: Schedule, fromSeconds: nat): (r: Option<nat>)
    ensures r.Some? ==> IsNext(c, fromSeconds, r.value) && r.value < Horizon(fromSeconds)
    ensures r.None? ==> NoneIn(c, Earliest(fromSeconds), Horizon(fromSeconds))
  {
    if t: nat :| IsNext(c, fromSeconds, t) && t < Horizon(fromSeconds) then Some(t)
    else
      assert NoneIn(c, Earliest(fromSeconds), Horizon(fromSeconds)) by {
        LeastMatch(c, fromSeconds, Horizon(fromSeconds));
      }
      None
  }

  lemma {:induction false} LeastMatch(c: Schedule, fromSeconds: nat, b: nat)
    requires forall t: nat :: t < b ==> !IsNext(c, fromSeconds, t)
    ensures NoneIn(c, Earliest(fromSeconds), b)
    decreases b
  {
    if b > 0 {
      LeastMatch(c, fromSeconds, b - 1);
      assert !IsNext(c, fromSeconds, b - 1);
      assert Earliest(fromSeconds) <= b - 1 ==> fromSeconds < 60 * (b - 1);
    }
  }

  lemma NextFireIsUnique(c: Schedule, fromSeconds: nat, s: nat, t: nat)
    requires IsNext(c, fromSeconds, s) && IsNext(c, fromSeconds, t)
    ensures s == t
  {
  }

  lemma FoundIsNext(c: Schedule, fromSeconds: nat, t: nat)
    requires Earliest(fromSeconds) <= t < Horizon(fromSeconds) && Matches(c, t) && NoneIn(c, Earliest(fromSeconds), t)
    ensures NextFire(c, fromSeconds) == Some(t) && IsNext(c, fromSeconds, t)
  {
    assert IsNext(c, fromSeconds, t);
    assert NextFire(c, fromSeconds).Some?;
    NextFireIsUnique(c, fromSeconds, t, NextFire(c, fromSeconds).value);
  }

  /** Next returns the least matching minute strictly after its argument, and
      reports failure exactly when the 1830-day window holds no match. */
  method Next(c: Schedule, fromSeconds: nat) returns (r: Option<nat>)
    requires CompiledTimes(c)
    ensures r.Some? ==> IsNext(c, fromSeconds, r.value) && r.value < Horizon(fromSeconds)
    ensures r.None? <==> NoneIn(c, Earliest(fromSeconds), Horizon(fromSeconds))
    ensures r == NextFire(c, fromSeconds)
  {
    var earliest := fromSeconds / 60 + 1;
    var day := earliest / DAY;
    for i := 0 to MAX_SEARCH_DAYS
      invariant day == earliest / DAY + i
      invariant NoneIn(c, earliest, day * DAY)
    {
      if MatchesDay(c, day) {
        r := ScanDay(c, earliest, day);
        if r.Some? {
          assert (day + 1) * DAY <= Horizon(fromSeconds);
          FoundIsNext(c, fromSeconds, r.value);
          return;
        }
      } else {
        DayHasNone(c, earliest, day);
      }
      day := day + 1;
    }
    r := None;
  }
}
