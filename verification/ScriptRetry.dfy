/** When the Retry-After header is enough over the shared script. */
module ScriptRetry {
  import opened Float64
  import opened RateLimit
  import opened RetryAfter
  import opened RetryTiming
  import opened RetryShort
  import opened ScriptHeader
  import opened ScriptRates
  import opened ScriptShort
  import RetryHeader
  import ScriptTrails

  // ---------------------------------------------------------------------
  // From the wait to the header
  // ---------------------------------------------------------------------

  /** The header is the wait in seconds, rounded up. */
  lemma HeaderCoversTold(rd: Rounding, told: int)
    requires Nearest(rd) && 1 <= told <= 100_000
    ensures 1 <= Header(rd, WaitNanos(Millis, told)) <= 101 && told <= 1000 * Header(rd, WaitNanos(Millis, told))
  {
    var n, w, x := 1_000_000 * told, told / 1000, told % 1000;
    assert n / SECOND == w && n % SECOND == 1_000_000 * x;
    Parts(rd, n);
    var part := rd(rd((n % SECOND) as real) / NANO);
    FixedInteger(rd, w + 1);
    InOrder(rd, w as real + part, (w + 1) as real);
    if x == 0 {
      FixedInteger(rd, 0);
      FixedInteger(rd, w);
    } else {
      PartVisible(rd, x, part);
      Visible(rd, w, part);
    }
  }

  lemma PartVisible(rd: Rounding, x: int, part: real)
    requires Nearest(rd) && 1 <= x < 1000 && part == rd(rd((1_000_000 * x) as real) / NANO)
    ensures 1.0 / 1024.0 <= part
  {
    NotchFloat(Millis);
    FixedInteger(rd, 1_000_000 * x);
    AtLeast(rd, (1_000_000 * x) as real / NANO, 1.0 / 1024.0);
  }

  lemma Visible(rd: Rounding, w: int, part: real)
    requires Nearest(rd) && 0 <= w <= 100 && 1.0 / 1024.0 <= part
    ensures w as real < rd(w as real + part)
  {
    SmallScales();
    assert Pow(2) == 4.0;
    ScaleProduct(256.0, 4.0);
    GridFloat(1024 * w + 1, 1024.0, w as real + 1.0 / 1024.0);
    AtLeast(rd, w as real + part, w as real + 1.0 / 1024.0);
  }

  /** A wait is at most a little over a minute. */
  lemma ToldBound(rd: Rounding, p: real, level: real)
    requires Nearest(rd) && 0.015625 <= p <= 1.0 && 0.0 <= level < 1.0
    ensures 1 <= Told(rd, Millis, p, level) <= 100_000
    ensures RawWait(rd, p, level, 1000.0) <= Told(rd, Millis, p, level) as real
  {
    var r := Quotient(p, 1000.0);
    assert 1000.0 * r == p && 1000.0 <= NANO;
    WaitError(rd, p, r, 1000.0, level);
    var raw := RawWait(rd, p, level, 1000.0);
    assert Product(99999.0, r) == 99.999 * p;
    Under(raw, 99999.0, r);
  }

  lemma SecondsElapsed(rd: Rounding, h: int)
    requires Nearest(rd) && 1 <= h <= 101
    ensures Elapsed(rd, Millis, 1000 * h) == h as real
  {
    FixedInteger(rd, 1000 * h);
    FixedInteger(rd, h);
    assert (1000 * h) as real / 1000.0 == h as real;
  }

  lemma EnoughHonoured(rd: Rounding, p: real, burst: int, b: Tokens, now: int)
    requires Nearest(rd) && 0.015625 <= p <= 1.0 && 1 <= burst && 0.0 <= b.held && 0 <= b.updated <= now < MAX_DURATION
    requires forall h: int :: 1 <= h ==> Enough(rd, p, h)
    ensures Honoured(rd, Millis, p, burst, b, now)
  {
    AskedNotNegative(rd, Millis, p, burst, b, now);
    var level := Refilled(rd, Millis, p, burst, b, now);
    if level < 1.0 {
      ToldBound(rd, p, level);
      var told := Told(rd, Millis, p, level);
      HeaderCoversTold(rd, told);
      var h := Header(rd, WaitNanos(Millis, told));
      SecondsElapsed(rd, h);
      assert Enough(rd, p, h) && Fills(rd, p, h, level);
      PassesUncapped(rd, Millis, p, burst, Tokens(level, now), 1000 * h);
    }
  }

  /** At every other rate the header is enough. */
  lemma ScriptSufficesWhen(rd: Rounding, rpm: int, burst: int, times: seq<int>, now: int)
    requires Standard(rd) && 0 < rpm <= FULL && !Exceptional(rpm) && 1 <= burst && Readings(times, now)
    ensures 0.0 < PerSecond(rd, rpm) && HeaderSuffices(rd, Millis, PerSecond(rd, rpm), burst, times, now)
  {
    if rpm >= 60 {
      HeaderSufficesWhen(rd, Millis, rpm, burst, times, now);
    } else {
      var p := PerSecond(rd, rpm);
      SlowestRate(rd, rpm);
      RateAtMostOne(rd, rpm);
      Checked(rd, rpm);
      forall h: int | 1 <= h ensures Enough(rd, p, h) {
        AllEnough(rd, p, rpm, h);
      }
      AsReal(burst);
      AfterAllNotNegative(rd, Millis, p, burst, Start(burst, times, now), times, now);
      EnoughHonoured(rd, p, burst, AfterAll(rd, Millis, p, burst, Start(burst, times, now), times), now);
    }
  }

  lemma RateAtMostOne(rd: Rounding, rpm: int)
    requires Nearest(rd) && 0 < rpm <= 60
    ensures PerSecond(rd, rpm) <= 1.0
  {
    FixedInteger(rd, rpm);
    IntegerFloat(1);
    AtMost(rd, rpm as real / 60.0, 1.0);
  }

  // ---------------------------------------------------------------------
  // A burst of one at rates that do not divide the minute
  // ---------------------------------------------------------------------

  /** r tokens a millisecond: 9 or 18 a minute, and q whole milliseconds in a token. */
  ghost predicate Odd(rd: Rounding, rpm: int, p: real, r: real, q: int) {
    && ((rpm == 9 && q == 6666) || (rpm == 18 && q == 3333))
    && p == PerSecond(rd, rpm) && 1000.0 * r == p && 0.14 <= p <= 1.0
    && (q as real + 0.01) * r < 1.0 <= (q as real + 0.99) * r
  }

  lemma OddRate(rd: Rounding, rpm: int) returns (p: real, r: real, q: int)
    requires Nearest(rd) && (rpm == 9 || rpm == 18)
    ensures Odd(rd, rpm, p, r, q)
  {
    p, q := PerSecond(rd, rpm), if rpm == 9 then 6666 else 3333;
    FixedInteger(rd, rpm);
    CloseToOne(rd, rpm as real / 60.0);
    r := p / 1000.0;
  }

  lemma FineError(s: real, x: real, p: real, r: real)
    requires 0.0 <= p && 1000.0 * r == p && x - 0.00000000000007 <= s <= x + 0.00000000000007
    ensures Product(x, p) - 0.0000000001 * r <= Product(s, p) <= Product(x, p) + 0.0000000001 * r
  {
    NotNegativeProduct(s - x + 0.00000000000007, p);
    NotNegativeProduct(x + 0.00000000000007 - s, p);
    assert (s - x + 0.00000000000007) * p == s * p - x * p + 0.00000000000007 * p;
    assert (x + 0.00000000000007 - s) * p == x * p + 0.00000000000007 * p - s * p;
  }

  /** A refill is exact up to a thousand-millionth of a millisecond's worth. */
  lemma GrownFine(rd: Rounding, p: real, r: real, held: real, n: int)
    requires Nearest(rd) && 1000.0 * r == p && 0.14 <= p <= 1.0 && 0.0 <= held <= 1.0 && 0 <= n && Product(n as real, r) <= 4.0
    ensures held + Product(n as real, r) - 0.000000001 * r <= Grown(rd, Millis, p, held, n)
    ensures Grown(rd, Millis, p, held, n) <= held + Product(n as real, r) + 0.000000001 * r
  {
    var x := Quotient(n as real, 1000.0);
    SameGrowth(n as real, x, p, r, 1000.0);
    SecondsBound(x, p);
    ElapsedClose(rd, Millis, n, x);
    ElapsedMonotone(rd, Millis, n, n);
    var s := Elapsed(rd, Millis, n);
    FineError(s, x, p, r);
    NotNegativeProduct(s, p);
    CloseToTen(rd, Product(s, p));
    NotNegativeRounded(rd, Product(s, p));
    CloseToTen(rd, held + Times(rd, s, p));
  }

  /** The bucket was empty at `from` and has refilled since. */
  ghost predicate Since(b: Tokens, from: int, r: real) {
    && 0 <= from <= b.updated && 0.0 <= b.held < 1.0
    && 0.99999999 * Product((b.updated - from) as real, r) <= b.held
    && b.held <= 1.00000001 * Product((b.updated - from) as real, r)
  }

  /** A request that is turned away keeps it so. */
  lemma SinceLater(rd: Rounding, p: real, r: real, b: Tokens, from: int, t: int)
    requires Nearest(rd) && 1000.0 * r == p && 0.14 <= p <= 1.0 && Since(b, from, r) && b.updated < t < MAX_DURATION
    requires Grown(rd, Millis, p, b.held, t - b.updated) < 1.0
    ensures Since(Tokens(Grown(rd, Millis, p, b.held, t - b.updated), t), from, r)
  {
    var n := t - b.updated;
    Later(from, b.updated, t, r);
    assert NANO == 1000000000.0;
    if Product(n as real, r) > 4.0 { GrownFar(rd, Millis, p, r, b.held, n); }
    GrownFine(rd, p, r, b.held, n);
    GrownNotNegative(rd, Millis, p, b.held, n);
    AtLeastOneTick(n, r);
    SinceSum(b.held, Grown(rd, Millis, p, b.held, n), Product((b.updated - from) as real, r), Product(n as real, r), r);
  }

  lemma AtLeastOneTick(n: int, r: real)
    requires 1 <= n && 0.0 <= r
    ensures r <= Product(n as real, r)
  {
    MulMono(1.0, n as real, r);
  }

  lemma SinceSum(held: real, grown: real, before: real, more: real, r: real)
    requires 0.99999999 * before <= held <= 1.00000001 * before && r <= more && 0.0 <= r
    requires held + more - 0.000000001 * r <= grown <= held + more + 0.000000001 * r
    ensures 0.99999999 * (before + more) <= grown <= 1.00000001 * (before + more)
  {
  }

  /** One that passes empties the bucket: it never held more than one. */
  lemma SinceAsked(rd: Rounding, p: real, r: real, b: Tokens, from: int, t: int) returns (start: int)
    requires Nearest(rd) && 1000.0 * r == p && 0.14 <= p <= 1.0 && Since(b, from, r) && b.updated <= t < MAX_DURATION
    ensures Since(Asked(rd, Millis, p, 1, b, t), start, r) && Asked(rd, Millis, p, 1, b, t).updated == t
  {
    start := from;
    if t > b.updated {
      if Grown(rd, Millis, p, b.held, t - b.updated) < 1.0 {
        SinceLater(rd, p, r, b, from, t);
      } else {
        FixedInteger(rd, 0);
        start := t;
      }
    }
  }

  lemma {:induction false} SinceAll(rd: Rounding, p: real, r: real, b: Tokens, from: int, times: seq<int>, now: int)
    returns (start: int)
    requires Nearest(rd) && 1000.0 * r == p && 0.14 <= p <= 1.0 && Since(b, from, r) && Between(b.updated, times, now)
    ensures var a := AfterAll(rd, Millis, p, 1, b, times); Since(a, start, r) && a.updated <= now
    decreases |times|
  {
    if times == [] {
      start := from;
    } else {
      var next := SinceAsked(rd, p, r, b, from, times[0]);
      start := SinceAll(rd, p, r, Asked(rd, Millis, p, 1, b, times[0]), next, times[1..], now);
    }
  }

  /** The wait that is told reaches past the next whole millisecond. */
  lemma OddReaches(rd: Rounding, rpm: int, p: real, r: real, q: int, level: real, n: int, h: int)
    requires Nearest(rd) && Odd(rd, rpm, p, r, q) && 0.0 <= level < 1.0 && 0 <= n && 1 <= h
    requires 0.99999999 * Product(n as real, r) <= level <= 1.00000001 * Product(n as real, r)
    requires RawWait(rd, p, level, 1000.0) <= 1000.0 * h as real
    ensures q + 1 <= n + 1000 * h
  {
    assert NANO == 1000000000.0;
    WaitError(rd, p, r, 1000.0, level);
    ProductMono(RawWait(rd, p, level, 1000.0), 1000.0 * h as real, r);
    var m := n as real + 1000.0 * h as real;
    SplitProduct(n as real, 1000.0 * h as real, r);
    assert m == (n + 1000 * h) as real;
    OddArith(n + 1000 * h, m, q, r, Product(n as real, r));
  }

  lemma ProductMono(a: real, b: real, r: real)
    requires a <= b && 0.0 <= r
    ensures Product(a, r) <= Product(b, r)
  {
    MulMono(a, b, r);
  }

  lemma OddArith(m: int, x: real, q: int, r: real, before: real)
    requires x == m as real && 0.0001 <= r <= 0.001 && before <= 1.1 && (q as real + 0.01) * r < 1.0
    requires 1.0 <= Product(x, r) + 0.00000002 * before + 0.001 * r
    ensures q + 1 <= m
  {
    assert (q as real + 0.01) * r == q as real * r + 0.01 * r;
    if m <= q { MulMono(x, q as real, r); }
  }

  /** And so the header's seconds bring the token. */
  lemma OddFills(rd: Rounding, rpm: int, p: real, r: real, q: int, level: real, n: int, h: int)
    requires Nearest(rd) && Odd(rd, rpm, p, r, q) && 0.0 <= level < 1.0 && 0 <= n && 1 <= h && 1000 * h < MAX_DURATION
    requires 0.99999999 * Product(n as real, r) <= level && q + 1 <= n + 1000 * h
    ensures 1.0 <= Grown(rd, Millis, p, level, 1000 * h)
  {
    assert NANO == 1000000000.0;
    if Product((1000 * h) as real, r) > 4.0 {
      GrownFar(rd, Millis, p, r, level, 1000 * h);
    } else {
      GrownFine(rd, p, r, level, 1000 * h);
      SplitProduct(n as real, (1000 * h) as real, r);
      OddSum(q as real, n as real + (1000 * h) as real, r);
    }
  }

  lemma OddSum(q: real, m: real, r: real)
    requires q + 1.0 <= m && 0.0 <= r && 1.0 <= (q + 0.99) * r
    ensures 1.0 + 0.01 * r <= Product(m, r)
  {
    MulMono(q + 1.0, m, r);
    assert (q + 1.0) * r == (q + 0.99) * r + 0.01 * r;
  }

  lemma OddHonoured(rd: Rounding, rpm: int, p: real, r: real, q: int, b: Tokens, from: int, now: int)
    requires Nearest(rd) && Odd(rd, rpm, p, r, q) && Since(b, from, r) && b.updated <= now < MAX_DURATION
    ensures Honoured(rd, Millis, p, 1, b, now)
  {
    var level := Refilled(rd, Millis, p, 1, b, now);
    if level < 1.0 {
      var start := SinceAsked(rd, p, r, b, from, now);
      var a := Asked(rd, Millis, p, 1, b, now);
      ToldBound(rd, p, level);
      var told := Told(rd, Millis, p, level);
      HeaderCoversTold(rd, told);
      var h := Header(rd, WaitNanos(Millis, told));
      OddReaches(rd, rpm, p, r, q, level, now - start, h);
      OddFills(rd, rpm, p, r, q, level, now - start, h);
      PassesUncapped(rd, Millis, p, 1, a, 1000 * h);
    }
  }

  /** With a burst of one the header is enough at 9 and 18 requests a minute too. */
  lemma SingleSuffices(rd: Rounding, rpm: int, times: seq<int>, now: int)
    requires Nearest(rd) && (rpm == 9 || rpm == 18) && Readings(times, now)
    ensures 0.0 < PerSecond(rd, rpm) && HeaderSuffices(rd, Millis, PerSecond(rd, rpm), 1, times, now)
  {
    var p, r, q := OddRate(rd, rpm);
    if times != [] {
      var b := Start(1, times, now);
      FixedInteger(rd, 0);
      var a := Asked(rd, Millis, p, 1, b, times[0]);
      assert a == Tokens(0.0, times[0]) && Since(a, times[0], r);
      var start := SinceAll(rd, p, r, a, times[0], times[1..], now);
      OddHonoured(rd, rpm, p, r, q, AfterAll(rd, Millis, p, 1, a, times[1..]), start, now);
    }
  }

  // ---------------------------------------------------------------------
  // The exact condition
  // ---------------------------------------------------------------------

  /** The rates and bursts at which some header is too short. */
  predicate FallsShort(rpm: int, burst: int) {
    rpm == 3 || rpm == 6 || ((rpm == 9 || rpm == 18) && 2 <= burst)
  }

  lemma ShortTrail(rpm: int, burst: int) returns (rate: Num, trail: Trail)
    requires FallsShort(rpm, burst) && 1 <= burst
    ensures Rounded(rpm * UNIT, 60, rate) && Trailed(burst, rate.Units(), 0, 0, trail)
  {
    ScriptTrails.Grains();
    match rpm
    case 3 =>
      rate := Num(7205759403792794, 8192);
      trail := ScriptTrails.Trail3(burst);
    case 6 =>
      rate := Num(7205759403792794, 16384);
      trail := ScriptTrails.Trail6(burst);
    case 9 =>
      rate := Num(5404319552844595, 32768);
      trail := ScriptTrails.Trail9(burst);
    case 18 =>
      rate := Num(5404319552844595, 65536);
      trail := ScriptTrails.Trail18(burst);
  }

  lemma ScriptFallsShort(rd: Rounding, rpm: int, burst: int) returns (times: seq<int>, now: int)
    requires Standard(rd) && FallsShort(rpm, burst) && 1 <= burst <= FULL
    ensures 0.0 < PerSecond(rd, rpm) && Readings(times, now) && !HeaderSuffices(rd, Millis, PerSecond(rd, rpm), burst, times, now)
  {
    var p := PerSecond(rd, rpm);
    SlowestRate(rd, rpm);
    var rate, trail := ShortTrail(rpm, burst);
    RateIs(rd, rpm, rate);
    TrailIsShort(rd, p, rate.Units(), burst, Tokens(0.0, 0), 0, trail);
    MomentsInOrder(burst, rate.Units(), 0, 0, trail);
    times, now := RetryHeader.Repeat(burst) + Moments(0, trail), Finish(0, trail);
    RetryHeader.FromEmpty(rd, Millis, p, burst, Moments(0, trail), now);
  }

  /** Over the shared script, with ties to even, the header is enough for every request
      that is turned away exactly unless the rate is 3 or 6 requests a minute, or 9 or 18
      with a burst of two or more. */
  lemma ScriptSufficesIff(rd: Rounding, rpm: int, burst: int)
    requires Standard(rd) && 0 < rpm <= FULL && 1 <= burst <= FULL
    ensures 0.0 < PerSecond(rd, rpm)
    ensures (forall times: seq<int>, now: int :: Readings(times, now) ==>
               HeaderSuffices(rd, Millis, PerSecond(rd, rpm), burst, times, now)) <==> !FallsShort(rpm, burst)
  {
    SlowestRate(rd, rpm);
    if FallsShort(rpm, burst) {
      var times, now := ScriptFallsShort(rd, rpm, burst);
    } else {
      forall times: seq<int>, now: int | Readings(times, now)
        ensures HeaderSuffices(rd, Millis, PerSecond(rd, rpm), burst, times, now)
      {
        if Exceptional(rpm) {
          SingleSuffices(rd, rpm, times, now);
        } else {
          ScriptSufficesWhen(rd, rpm, burst, times, now);
        }
      }
    }
  }
}
