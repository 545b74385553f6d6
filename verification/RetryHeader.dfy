/** When the Retry-After header is enough: exactly at one token per second or more. */
module RetryHeader {
  import opened Float64
  import opened RateLimit
  import opened RetryAfter
  import opened RetryTiming
  import opened RetryShort
  import RetryRates

  // ---------------------------------------------------------------------
  // An empty bucket
  // ---------------------------------------------------------------------

  function Repeat(n: nat): (r: seq<int>)
    ensures |r| == n && forall i :: 0 <= i < n ==> r[i] == 0
  {
    seq(n, _ => 0)
  }

  /** A burst of requests at time zero empties the bucket exactly. */
  lemma {:induction false} Drained(rd: Rounding, clock: Clock, p: real, burst: int, n: nat)
    requires Nearest(rd) && n <= FULL
    ensures AfterAll(rd, clock, p, burst, Tokens(n as real, 0), Repeat(n)) == Tokens(0.0, 0)
    decreases n
  {
    if n > 0 {
      FixedInteger(rd, n - 1);
      assert n as real - 1.0 == (n - 1) as real;
      assert Asked(rd, clock, p, burst, Tokens(n as real, 0), 0) == Tokens((n - 1) as real, 0);
      assert Repeat(n)[1..] == Repeat(n - 1);
      Drained(rd, clock, p, burst, n - 1);
    }
  }

  lemma {:induction false} AfterBoth(rd: Rounding, clock: Clock, p: real, burst: int, b: Tokens, xs: seq<int>, ys: seq<int>)
    ensures AfterAll(rd, clock, p, burst, b, xs + ys) ==
            AfterAll(rd, clock, p, burst, AfterAll(rd, clock, p, burst, b, xs), ys)
    decreases |xs|
  {
    if xs == [] {
      assert xs + ys == ys;
    } else {
      assert (xs + ys)[1..] == xs[1..] + ys;
      AfterBoth(rd, clock, p, burst, Asked(rd, clock, p, burst, b, xs[0]), xs[1..], ys);
    }
  }

  /** What an empty bucket shows, a full one shows after a burst. */
  lemma FromEmpty(rd: Rounding, clock: Clock, p: real, burst: int, times: seq<int>, now: int)
    requires Nearest(rd) && 0.0 < p && 1 <= burst <= FULL && Between(0, times, now)
    requires !Honoured(rd, clock, p, burst, AfterAll(rd, clock, p, burst, Tokens(0.0, 0), times), now)
    ensures Readings(Repeat(burst) + times, now) && !HeaderSuffices(rd, clock, p, burst, Repeat(burst) + times, now)
  {
    Drained(rd, clock, p, burst, burst);
    AfterBoth(rd, clock, p, burst, Tokens(burst as real, 0), Repeat(burst), times);
    assert Start(burst, Repeat(burst) + times, now) == Tokens(burst as real, 0);
  }

  // ---------------------------------------------------------------------
  // Rates below one token per second
  // ---------------------------------------------------------------------

  lemma SlowPace(rd: Rounding, rpm: int) returns (p: real, r: real)
    requires Nearest(rd) && 0 < rpm < 60
    ensures p == PerSecond(rd, rpm) && Slow(p, r)
  {
    p := PerSecond(rd, rpm);
    SlowestRate(rd, rpm);
    FixedInteger(rd, rpm);
    IntegerFloat(1);
    AtMost(rd, rpm as real / 60.0, 1.0);
    r := Quotient(p, NANO);
    assert NANO * r == p;
  }

  lemma TableShort(rd: Rounding, rpm: int, burst: int) returns (times: seq<int>, now: int)
    requires Nearest(rd) && 0 < rpm < 60 && RetryRates.InTable(rpm) && 1 <= burst <= FULL
    ensures 0.0 < PerSecond(rd, rpm) && Readings(times, now) && !HeaderSuffices(rd, Nanos, PerSecond(rd, rpm), burst, times, now)
  {
    var p, r := SlowPace(rd, rpm);
    var rate, run := RetryRates.Witness(rpm);
    FixedInteger(rd, rpm);
    ProductReal(rpm, UNIT);
    RoundedIs(rd, rpm as real / 60.0, rpm * UNIT, 60, rate);
    RunIsShort(rd, p, r, rate.Units(), burst, Tokens(0.0, 0), 0, run);
    InstantsInOrder(rate.Units(), 0, 0, run);
    times, now := Repeat(burst) + Instants(0, run), End(0, run);
    FromEmpty(rd, Nanos, p, burst, Instants(0, run), now);
  }

  /** r tokens a nanosecond is a rate of rpm, up to rounding: a token takes between q
      and q + 1 nanoseconds, and is no closer than 0.005 to either. */
  lemma TokenTime(p: real, r: real, rpm: int, q: int)
    requires 0 < rpm < 60 && NANO * r == p && 0 <= q <= MINUTE && rpm * q < MINUTE < rpm * (q + 1)
    requires rpm as real / 60.0 - 0.00000000000000023 <= p <= rpm as real / 60.0 + 0.00000000000000023
    ensures Product(q as real, r) + 0.005 * r <= 1.0
    ensures 1.0 + 0.005 * r <= Product(q as real, r) + r
  {
    ProductReal(rpm, q);
    TokenTimeReal(p, r, rpm as real, q as real);
  }

  lemma TokenTimeReal(p: real, r: real, rpm: real, q: real)
    requires 1.0 <= rpm <= 59.0 && 1000000000.0 * r == p && 0.0 <= q <= 60000000000.0
    requires rpm * q <= 59999999999.0 && 60000000001.0 <= rpm * q + rpm
    requires rpm / 60.0 - 0.00000000000000023 <= p <= rpm / 60.0 + 0.00000000000000023
    ensures Product(q, r) + 0.005 * r <= 1.0 && 1.0 + 0.005 * r <= Product(q, r) + r
  {
    var e := 60.0 * p - rpm;
    assert -0.000000000000014 <= e <= 0.000000000000014;
    NotNegativeProduct(0.000000000000014 - e, q);
    NotNegativeProduct(e + 0.000000000000014, q);
    assert (0.000000000000014 - e) * q == 0.000000000000014 * q - e * q;
    assert (e + 0.000000000000014) * q == e * q + 0.000000000000014 * q;
    assert 60000000000.0 * Product(q, r) == rpm * q + e * q by { Minutes(q, r, p, rpm, e); }
  }

  lemma Minutes(q: real, r: real, p: real, rpm: real, e: real)
    requires 1000000000.0 * r == p && e == 60.0 * p - rpm
    ensures 60000000000.0 * Product(q, r) == rpm * q + e * q
  {
    assert 60000000000.0 * r == rpm + e;
    assert (60000000000.0 * r) * q == (rpm + e) * q;
  }

  lemma OneSecond(rd: Rounding, wait: int)
    requires Nearest(rd) && 0 <= wait <= SECOND
    ensures Header(rd, wait) == 1
  {
    HeaderAtMost(rd, wait, 1);
  }

  /** A request a second before the last whole nanosecond of a token is told one
      second, which ends just short of it. */
  lemma SecondBefore(rd: Rounding, p: real, r: real, q: int, burst: int)
    requires Nearest(rd) && Slow(p, r) && 1 <= burst && SECOND < q <= MINUTE
    requires Product(q as real, r) + 0.005 * r <= 1.0 && 1.0 + 0.005 * r <= Product(q as real, r) + r
    ensures !Honoured(rd, Nanos, p, burst, Tokens(0.0, 0), q - SECOND)
  {
    assert NANO == 1000000000.0;
    var n := q - SECOND;
    Later(0, n, q, r);
    var level := Grown(rd, Nanos, p, 0.0, n);
    GrownClose(rd, Nanos, p, r, 0.0, n);
    GrownNotNegative(rd, Nanos, p, 0.0, n);
    PassesUncapped(rd, Nanos, p, burst, Tokens(0.0, 0), n);
    AsReal(burst);
    SplitProduct(SECOND as real, 1.0, r);
    WaitAtMost(rd, p, r, level, 1);
    OneSecond(rd, Told(rd, Nanos, p, level));
    GrownClose(rd, Nanos, p, r, level, SECOND);
    PassesUncapped(rd, Nanos, p, burst, Tokens(level, n), SECOND);
  }

  lemma OtherShort(rd: Rounding, rpm: int, burst: int) returns (times: seq<int>, now: int)
    requires Nearest(rd) && 0 < rpm < 60 && !RetryRates.InTable(rpm) && 1 <= burst <= FULL
    ensures 0.0 < PerSecond(rd, rpm) && Readings(times, now) && !HeaderSuffices(rd, Nanos, PerSecond(rd, rpm), burst, times, now)
  {
    var p, r := SlowPace(rd, rpm);
    RetryRates.Indivisible(rpm);
    var q := MINUTE / rpm;
    MinuteParts(rpm, q);
    FixedInteger(rd, rpm);
    CloseToOne(rd, rpm as real / 60.0);
    TokenTime(p, r, rpm, q);
    SecondBefore(rd, p, r, q, burst);
    times, now := Repeat(burst) + [], q - SECOND;
    FromEmpty(rd, Nanos, p, burst, [], now);
  }

  lemma MinuteParts(rpm: int, q: int)
    requires 0 < rpm < 60 && q == MINUTE / rpm && MINUTE % rpm != 0
    ensures rpm * q < MINUTE < rpm * (q + 1) && SECOND < q <= MINUTE
  {
    assert MINUTE == rpm * q + MINUTE % rpm;
    assert rpm * (q + 1) == rpm * q + rpm;
    if q <= SECOND { LeftMono(rpm, 59, q + 1); }
    if q > MINUTE { LeftMono(1, rpm, q); }
  }

  lemma LeftMono(a: int, b: int, c: int)
    requires a <= b && 0 <= c
    ensures a * c <= b * c
  {
  }

  lemma HeaderFallsShort(rd: Rounding, rpm: int, burst: int) returns (times: seq<int>, now: int)
    requires Nearest(rd) && 0 < rpm < 60 && 1 <= burst <= FULL
    ensures 0.0 < PerSecond(rd, rpm) && Readings(times, now) && !HeaderSuffices(rd, Nanos, PerSecond(rd, rpm), burst, times, now)
  {
    if RetryRates.InTable(rpm) {
      times, now := TableShort(rd, rpm, burst);
    } else {
      times, now := OtherShort(rd, rpm, burst);
    }
  }

  /** The header is enough for every request that is turned away, after any requests
      before it, exactly at one token per second or more. */
  lemma HeaderSufficesIff(rd: Rounding, rpm: int, burst: int)
    requires Nearest(rd) && 0 < rpm <= FULL && 1 <= burst <= FULL
    ensures 0.0 < PerSecond(rd, rpm)
    ensures (forall times: seq<int>, now: int :: Readings(times, now) ==>
               HeaderSuffices(rd, Nanos, PerSecond(rd, rpm), burst, times, now)) <==> rpm >= 60
  {
    SlowestRate(rd, rpm);
    if rpm >= 60 {
      forall times: seq<int>, now: int | Readings(times, now)
        ensures HeaderSuffices(rd, Nanos, PerSecond(rd, rpm), burst, times, now)
      {
        HeaderSufficesWhen(rd, Nanos, rpm, burst, times, now);
      }
    } else {
      var times, now := HeaderFallsShort(rd, rpm, burst);
    }
  }
}
