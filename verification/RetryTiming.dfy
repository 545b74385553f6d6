/** How far rounding can move the moment at which a denied caller passes again:
    always less than a thousandth of a clock tick per request. */
module RetryTiming {
  import opened Float64
  import opened RateLimit
  import opened RetryAfter

  /** `r` tokens per tick, `ticks` ticks per second, `p` tokens per second. Rates of
      one request per minute or more, up to two tokens per tick. */
  predicate Paced(p: real, r: real, ticks: real) {
    ticks * r == p && 1.0 <= ticks <= NANO && 0.015625 <= p && 0.0 < r <= 2.0
  }

  lemma TickSize(p: real, r: real, ticks: real)
    requires Paced(p, r, ticks)
    ensures 0.015625 <= p <= 1000000000.0 * r
  {
    assert NANO == 1000000000.0;
    MulMono(ticks, 1000000000.0, r);
  }

  /** An error of 70 femtoseconds is worth less than a ten-thousandth of a tick. */
  lemma TimeError(s: real, x: real, p: real, r: real)
    requires 0.0 <= p <= 1000000000.0 * r && x - 0.00000000000007 <= s <= x + 0.00000000000007
    ensures Product(x, p) - 0.00007 * r <= Product(s, p) <= Product(x, p) + 0.00007 * r
  {
    NotNegativeProduct(s - x + 0.00000000000007, p);
    NotNegativeProduct(x + 0.00000000000007 - s, p);
    assert (s - x + 0.00000000000007) * p == s * p - x * p + 0.00000000000007 * p;
    assert (x + 0.00000000000007 - s) * p == x * p + 0.00000000000007 * p - s * p;
  }

  lemma SecondsClose(rd: Rounding, n: int)
    requires Nearest(rd) && 0 <= n <= 500 * SECOND
    ensures n as real / NANO - 0.00000000000007 <= Seconds(rd, n) <= n as real / NANO + 0.00000000000007
  {
    Parts(rd, n);
    var whole, part := (n / SECOND) as real, (n % SECOND) as real / NANO;
    assert n == SECOND * (n / SECOND) + n % SECOND;
    assert n as real / NANO == whole + part;
    CloseToOne(rd, part);
    CloseToHundreds(rd, whole + rd(part));
  }

  /** One refill is exact up to a thousandth of a tick's worth. */
  lemma GrowthError(rd: Rounding, p: real, r: real, ticks: real, s: real, x: real, held: real)
    requires Nearest(rd) && Paced(p, r, ticks) && 0.0 <= held <= 1.0
    requires 0.0 <= s && 0.0 <= x && Product(x, p) <= 8.0 && x - 0.00000000000007 <= s <= x + 0.00000000000007
    ensures held + Product(x, p) - 0.001 * r <= Plus(rd, held, Times(rd, s, p)) <= held + Product(x, p) + 0.001 * r
  {
    TickSize(p, r, ticks);
    TimeError(s, x, p, r);
    NotNegativeProduct(s, p);
    CloseToTen(rd, Product(s, p));
    NotNegativeRounded(rd, Product(s, p));
    CloseToTen(rd, held + Times(rd, s, p));
  }

  lemma QuotientRange(u: real, p: real, d: real)
    requires 0.0 <= d <= 2.0 && 0.015625 <= p && u * p == d
    ensures 0.0 <= u <= 128.0
  {
    if u < 0.0 { PositiveProduct(-u, p); }
    if u > 128.0 { MulMono(0.015625, p, u); }
  }

  lemma ProductClose(w: real, x: real, r: real)
    requires 0.0 <= r && x - 0.000016 <= w <= x + 0.000016
    ensures Product(x, r) - 0.000016 * r <= Product(w, r) <= Product(x, r) + 0.000016 * r
  {
    NotNegativeProduct(w - x + 0.000016, r);
    NotNegativeProduct(x + 0.000016 - w, r);
    assert (w - x + 0.000016) * r == w * r - x * r + 0.000016 * r;
    assert (x + 0.000016 - w) * r == x * r + 0.000016 * r - w * r;
  }

  lemma Reassociate(q: real, ticks: real, r: real, p: real)
    requires ticks * r == p
    ensures Product(Product(q, ticks), r) == Product(q, p)
  {
  }

  lemma WaitTicks(rd: Rounding, p: real, r: real, ticks: real, d: real, u: real, q: real)
    requires Nearest(rd) && Paced(p, r, ticks) && Product(u, p) == d && 0.0 <= u <= 128.0 && 0.0 <= q
    requires u - 0.00000000000006 <= q <= u + 0.00000000000006
    ensures 0.0 <= Times(rd, q, ticks) && d - 0.0001 * r <= Product(Times(rd, q, ticks), r) <= d + 0.0001 * r
  {
    TickSize(p, r, ticks);
    NotNegativeProduct(q, ticks);
    assert Product(q, ticks) <= 129000000000.0 by {
      NotNegativeProduct(129.0 - q, ticks);
      assert (129.0 - q) * ticks == 129.0 * ticks - q * ticks;
      assert NANO == 1000000000.0;
    }
    CloseToBillions(rd, Product(q, ticks));
    NotNegativeRounded(rd, Product(q, ticks));
    TimeError(q, u, p, r);
    Reassociate(q, ticks, r, p);
    ProductClose(Times(rd, q, ticks), Product(q, ticks), r);
  }

  /** The raw wait, in ticks, is exact up to a thousandth of a tick. */
  lemma WaitError(rd: Rounding, p: real, r: real, ticks: real, level: real)
    requires Nearest(rd) && Paced(p, r, ticks) && 0.0 <= level < 1.0
    ensures 0.0 <= RawWait(rd, p, level, ticks)
    ensures 1.0 - level - 0.001 * r <= Product(RawWait(rd, p, level, ticks), r) <= 1.0 - level + 0.001 * r
  {
    TickSize(p, r, ticks);
    var d := Minus(rd, 1.0, level);
    CloseToOne(rd, 1.0 - level);
    NotNegativeRounded(rd, 1.0 - level);
    var u := Quotient(d, p);
    QuotientRange(u, p, d);
    CloseToHundreds(rd, u);
    NotNegativeRounded(rd, u);
    WaitTicks(rd, p, r, ticks, d, u, Over(rd, d, p));
  }

  // ---------------------------------------------------------------------
  // One refill on either clock
  // ---------------------------------------------------------------------

  lemma ElapsedClose(rd: Rounding, clock: Clock, n: int, x: real)
    requires Nearest(rd) && 0 <= n && x * Ticks(clock) == n as real && x <= 256.0
    ensures 0.0 <= x && x - 0.00000000000007 <= Elapsed(rd, clock, n) <= x + 0.00000000000007
  {
    assert NANO == 1000000000.0;
    if clock.Nanos? {
      SecondsClose(rd, n);
    } else {
      FixedInteger(rd, n);
      CloseToHundreds(rd, rd(n as real) / 1000.0);
    }
  }

  /** n ticks are x seconds. */
  lemma SameGrowth(n: real, x: real, p: real, r: real, ticks: real)
    requires x * ticks == n && ticks * r == p
    ensures Product(x, p) == Product(n, r)
  {
    assert (x * ticks) * r == x * (ticks * r);
  }

  lemma SecondsBound(x: real, p: real)
    requires Product(x, p) <= 4.0 && 0.015625 <= p
    ensures x <= 256.0
  {
    if x > 256.0 { MulMono(0.015625, p, x); }
  }

  lemma GrownClose(rd: Rounding, clock: Clock, p: real, r: real, held: real, n: int)
    requires Nearest(rd) && Paced(p, r, Ticks(clock)) && 0.0 <= held <= 1.0 && 0 <= n && Product(n as real, r) <= 4.0
    ensures held + Product(n as real, r) - 0.001 * r <= Grown(rd, clock, p, held, n) <= held + Product(n as real, r) + 0.001 * r
  {
    var x := Quotient(n as real, Ticks(clock));
    SameGrowth(n as real, x, p, r, Ticks(clock));
    SecondsBound(x, p);
    ElapsedClose(rd, clock, n, x);
    ElapsedMonotone(rd, clock, n, n);
    GrowthError(rd, p, r, Ticks(clock), Elapsed(rd, clock, n), x, held);
  }

  /** Some count of ticks brings between two and four tokens. */
  lemma Plenty(r: real) returns (m: int)
    requires 0.0 < r <= 2.0
    ensures 0 <= m && 2.0 <= Product(m as real, r) <= 4.0
  {
    var x := Quotient(4.0, r);
    if x < 0.0 { PositiveProduct(-x, r); }
    m := x.Floor;
    MulMono(m as real, x, r);
    NotNegativeProduct(m as real + 1.0 - x, r);
    assert (m as real + 1.0 - x) * r == m as real * r + r - x * r;
  }

  lemma TicksInOrder(m: int, n: int, r: real)
    requires 0.0 < r && Product(m as real, r) <= Product(n as real, r)
    ensures m <= n
  {
    if m > n { PositiveProduct(m as real - n as real, r); }
  }

  lemma GrownFar(rd: Rounding, clock: Clock, p: real, r: real, held: real, n: int)
    requires Nearest(rd) && Paced(p, r, Ticks(clock)) && 0.0 <= held <= 1.0 && 0 <= n < MAX_DURATION
    requires 4.0 < Product(n as real, r)
    ensures 1.0 <= Grown(rd, clock, p, held, n)
  {
    var m := Plenty(r);
    TicksInOrder(m, n, r);
    GrownClose(rd, clock, p, r, held, m);
    RefillMonotone(rd, clock, p, held, m, n);
  }

  // ---------------------------------------------------------------------
  // Runs of retries
  // ---------------------------------------------------------------------

  /** The bucket has been refilling since it held `level` at `from`, and its count is
      what that comes to, up to the refill of `slack` ticks. */
  ghost predicate Drifted(a: Tokens, level: real, from: int, r: real, slack: real) {
    && from <= a.updated && 0.0 <= a.held < 1.0
    && level + Product((a.updated - from) as real, r) - Product(slack, r) <= a.held
    && a.held <= level + Product((a.updated - from) as real, r) + Product(slack, r)
  }

  lemma Later(from: int, now: int, t: int, r: real)
    requires from <= now <= t && 0.0 < r
    ensures Product((t - from) as real, r) == Product((now - from) as real, r) + Product((t - now) as real, r)
    ensures 0.0 <= Product((t - now) as real, r)
  {
    NotNegativeProduct((t - now) as real, r);
    assert (t - from) as real == (now - from) as real + (t - now) as real;
    SplitProduct((now - from) as real, (t - now) as real, r);
  }

  lemma SplitProduct(a: real, b: real, r: real)
    ensures Product(a + b, r) == Product(a, r) + Product(b, r)
  {
  }

  lemma EarlyGrowth(rd: Rounding, clock: Clock, p: real, r: real, a: Tokens, level: real, from: int, slack: real, t: int)
    requires Nearest(rd) && Paced(p, r, Ticks(clock)) && Drifted(a, level, from, r, slack)
    requires a.updated < t < a.updated + MAX_DURATION && 0.0 <= slack && 0.0 <= level
    requires level + Product((t - from) as real, r) + Product(slack, r) + 0.5 * r <= 1.0
    ensures var grown := Grown(rd, clock, p, a.held, t - a.updated);
            grown < 1.0 && Drifted(Tokens(grown, t), level, from, r, slack + 0.001)
  {
    Later(from, a.updated, t, r);
    NotNegativeProduct(slack, r);
    Later(from, from, a.updated, r);
    SplitProduct(slack, 0.001, r);
    GrownClose(rd, clock, p, r, a.held, t - a.updated);
    GrownNotNegative(rd, clock, p, a.held, t - a.updated);
  }

  lemma MoreSlack(a: Tokens, level: real, from: int, r: real, slack: real)
    requires Drifted(a, level, from, r, slack) && 0.0 < r
    ensures Drifted(a, level, from, r, slack + 0.001)
  {
    SplitProduct(slack, 0.001, r);
  }

  /** A retry that comes early is turned away and costs a thousandth of a tick. */
  lemma EarlyIsDenied(rd: Rounding, clock: Clock, p: real, r: real, burst: int, a: Tokens,
                      level: real, from: int, slack: real, t: int)
    requires Nearest(rd) && Paced(p, r, Ticks(clock)) && 1 <= burst && Drifted(a, level, from, r, slack)
    requires a.updated <= t < a.updated + MAX_DURATION && 0.0 <= slack && 0.0 <= level
    requires level + Product((t - from) as real, r) + Product(slack, r) + 0.5 * r <= 1.0
    ensures !Passes(rd, clock, p, burst, a, t) && Asked(rd, clock, p, burst, a, t).updated == t
    ensures Drifted(Asked(rd, clock, p, burst, a, t), level, from, r, slack + 0.001)
  {
    if t > a.updated {
      EarlyGrowth(rd, clock, p, r, a, level, from, slack, t);
      PassesUncapped(rd, clock, p, burst, a, t - a.updated);
      AsReal(burst);
    } else {
      MoreSlack(a, level, from, r, slack);
    }
  }

  /** One that comes late enough passes. */
  lemma LateIsAdmitted(rd: Rounding, clock: Clock, p: real, r: real, burst: int, a: Tokens,
                       level: real, from: int, slack: real, t: int)
    requires Nearest(rd) && Paced(p, r, Ticks(clock)) && 1 <= burst && Drifted(a, level, from, r, slack)
    requires a.updated < t && t - a.updated < MAX_DURATION
    requires 1.0 <= level + Product((t - from) as real, r) - Product(slack, r) - 0.5 * r
    ensures Passes(rd, clock, p, burst, a, t)
  {
    var n := t - a.updated;
    Later(from, a.updated, t, r);
    PassesUncapped(rd, clock, p, burst, a, n);
    if Product(n as real, r) <= 4.0 {
      GrownClose(rd, clock, p, r, a.held, n);
    } else {
      GrownFar(rd, clock, p, r, a.held, n);
    }
  }

  ghost predicate AllDenied(rd: Rounding, clock: Clock, p: real, burst: int, b: Tokens, times: seq<int>)
    decreases |times|
  {
    times == [] ||
    (!Passes(rd, clock, p, burst, b, times[0]) &&
     AllDenied(rd, clock, p, burst, Asked(rd, clock, p, burst, b, times[0]), times[1..]))
  }

  ghost predicate Between(from: int, times: seq<int>, t: int) {
    && (forall i :: 0 <= i < |times| ==> from <= times[i] <= t)
    && (forall i, j :: 0 <= i < j < |times| ==> times[i] <= times[j])
    && 0 <= from <= t < MAX_DURATION
  }

  ghost predicate Early(times: seq<int>, level: real, from: int, r: real, slack: real) {
    forall i :: 0 <= i < |times| ==> level + Product((times[i] - from) as real, r) + Product(slack, r) + 0.5 * r <= 1.0
  }

  lemma {:induction false} RetriesDrift(rd: Rounding, clock: Clock, p: real, r: real, burst: int, a: Tokens,
                                        level: real, from: int, slack: real, total: real, times: seq<int>, t: int)
    requires Nearest(rd) && Paced(p, r, Ticks(clock)) && 1 <= burst && Drifted(a, level, from, r, slack)
    requires Between(a.updated, times, t) && 0.0 <= slack && 0.0 <= level && total == slack + 0.001 * |times| as real
    requires Early(times, level, from, r, total)
    ensures AllDenied(rd, clock, p, burst, a, times)
    ensures var last := AfterAll(rd, clock, p, burst, a, times); Drifted(last, level, from, r, total) && last.updated <= t
    decreases |times|
  {
    if times != [] {
      assert level + Product((times[0] - from) as real, r) + Product(total, r) + 0.5 * r <= 1.0;
      MulMono(slack, total, r);
      EarlyIsDenied(rd, clock, p, r, burst, a, level, from, slack, times[0]);
      var next := Asked(rd, clock, p, burst, a, times[0]);
      RetriesDrift(rd, clock, p, r, burst, next, level, from, slack + 0.001, total, times[1..], t);
    }
  }

  /** Before the wait that was reported, with a tick and the slack to spare. */
  lemma BeforeWait(n: real, slack: real, raw: real, r: real, level: real)
    requires 0.0 < r && n + 1.0 + slack <= raw && Product(raw, r) <= 1.0 - level + 0.001 * r
    ensures level + Product(n, r) + Product(slack, r) + 0.5 * r <= 1.0
  {
    MulMono(n + 1.0 + slack, raw, r);
    SplitProduct(n + 1.0, slack, r);
    SplitProduct(n, 1.0, r);
  }

  lemma BeyondWait(n: real, slack: real, raw: real, r: real, level: real)
    requires 0.0 < r && raw + 1.0 + slack <= n && 1.0 - level - 0.001 * r <= Product(raw, r)
    ensures 1.0 <= level + Product(n, r) - Product(slack, r) - 0.5 * r
  {
    MulMono(raw + 1.0 + slack, n, r);
    SplitProduct(raw + 1.0, slack, r);
    SplitProduct(raw, 1.0, r);
  }

  // ---------------------------------------------------------------------
  // More than two tokens a tick
  // ---------------------------------------------------------------------

  /** A power of two a little below a tick, in seconds. */
  function Notch(clock: Clock): real { if clock.Nanos? then 1.0 / 1073741824.0 else 1.0 / 1024.0 }

  lemma NotchFloat(clock: Clock)
    ensures Float(Notch(clock)) && 0.9 <= Notch(clock) * Ticks(clock) <= 0.98
  {
    SmallScales();
    assert Pow(2) == 4.0;
    ScaleProduct(256.0, 4.0);
    ScaleProduct(1024.0, 16.0);
    ScaleProduct(16384.0, 65536.0);
    GridFloat(1, if clock.Nanos? then 1073741824.0 else 1024.0, Notch(clock));
  }

  lemma TickIsANotch(rd: Rounding, clock: Clock)
    requires Nearest(rd)
    ensures Notch(clock) <= Elapsed(rd, clock, 1)
  {
    NotchFloat(clock);
    FixedInteger(rd, 0);
    FixedInteger(rd, 1);
    if clock.Nanos? {
      AtLeast(rd, 1.0 / NANO, Notch(clock));
      AtLeast(rd, rd(1.0 / NANO), Notch(clock));
    } else {
      AtLeast(rd, 1.0 / 1000.0, Notch(clock));
    }
  }

  lemma FastGrowth(rd: Rounding, clock: Clock, p: real, held: real, n: int)
    requires Nearest(rd) && 2.0 * Ticks(clock) <= p && 0.0 <= held && 1 <= n < MAX_DURATION
    ensures 1.0 <= Grown(rd, clock, p, held, n)
  {
    TickIsANotch(rd, clock);
    NotchFloat(clock);
    var s := Elapsed(rd, clock, 1);
    MulMono(2.0 * Ticks(clock), p, Notch(clock));
    MulMono(Notch(clock), s, p);
    AtLeastOne(rd, Product(s, p));
    AtLeastOne(rd, held + Times(rd, s, p));
    RefillMonotone(rd, clock, p, held, 1, n);
  }

  lemma FastWait(rd: Rounding, clock: Clock, p: real, level: real)
    requires Nearest(rd) && 2.0 * Ticks(clock) <= p && 0.0 <= level < 1.0
    ensures 0.0 < p && 0.0 <= RawWait(rd, p, level, Ticks(clock)) < 1.0
  {
    NotchFloat(clock);
    IntegerFloat(1);
    var d := Minus(rd, 1.0, level);
    AtMost(rd, 1.0 - level, 1.0);
    NotNegativeRounded(rd, 1.0 - level);
    var u := Quotient(d, p);
    SmallQuotient(u, p, d, Ticks(clock), Notch(clock));
    AtMost(rd, u, Notch(clock));
    NotNegativeRounded(rd, u);
    var q := Over(rd, d, p);
    MulMono(q, Notch(clock), Ticks(clock));
    NotNegativeProduct(q, Ticks(clock));
    NotNegativeRounded(rd, Product(q, Ticks(clock)));
    SmallScales();
    GridFloat(255, 256.0, 0.99609375);
    AtMost(rd, Product(q, Ticks(clock)), 0.99609375);
  }

  lemma SmallQuotient(u: real, p: real, d: real, ticks: real, notch: real)
    requires u * p == d && 0.0 <= d <= 1.0 && 1.0 <= ticks && 2.0 * ticks <= p && 0.9 <= notch * ticks && 0.0 < notch
    ensures 0.0 <= u <= notch
  {
    if u < 0.0 { PositiveProduct(-u, p); }
    if u > notch {
      MulMono(notch, u, p);
      MulMono(2.0 * ticks, p, notch);
    }
  }

  // ---------------------------------------------------------------------
  // The deadline
  // ---------------------------------------------------------------------

  lemma SlowestRate(rd: Rounding, rpm: int)
    requires Nearest(rd) && 1 <= rpm <= FULL
    ensures 0.015625 <= PerSecond(rd, rpm)
  {
    SmallScales();
    assert Pow(2) == 4.0;
    ScaleProduct(16.0, 4.0);
    GridFloat(1, 64.0, 0.015625);
    FixedInteger(rd, rpm);
    AtLeast(rd, rd(rpm as real) / 60.0, 0.015625);
  }

  /** These come more than a tick before the wait is over. */
  ghost predicate Before(times: seq<int>, from: int, raw: real, slack: real) {
    forall i :: 0 <= i < |times| ==> (times[i] - from) as real + 1.0 + slack <= raw
  }

  lemma PacedRetries(rd: Rounding, clock: Clock, p: real, r: real, burst: int, b: Tokens, times: seq<int>, t: int)
    requires Nearest(rd) && Paced(p, r, Ticks(clock)) && 1 <= burst && 0.0 <= b.held < 1.0 && Between(b.updated, times, t)
    requires Before(times, b.updated, RawWait(rd, p, b.held, Ticks(clock)), 0.001 * |times| as real)
    ensures AllDenied(rd, clock, p, burst, b, times)
    ensures Deadline(rd, clock, p, burst, b, times, t)
  {
    var raw, slack := RawWait(rd, p, b.held, Ticks(clock)), 0.001 * |times| as real;
    WaitError(rd, p, r, Ticks(clock), b.held);
    forall i | 0 <= i < |times|
      ensures b.held + Product((times[i] - b.updated) as real, r) + Product(slack, r) + 0.5 * r <= 1.0
    {
      BeforeWait((times[i] - b.updated) as real, slack, raw, r, b.held);
    }
    RetriesDrift(rd, clock, p, r, burst, b, b.held, b.updated, 0.0, slack, times, t);
    var last := AfterAll(rd, clock, p, burst, b, times);
    var n := (t - b.updated) as real;
    if n + 1.0 + slack <= raw {
      BeforeWait(n, slack, raw, r, b.held);
      EarlyIsDenied(rd, clock, p, r, burst, last, b.held, b.updated, slack, t);
    } else if raw + 1.0 + slack <= n {
      BeyondWait(n, slack, raw, r, b.held);
      NotYet(last, b.held, b.updated, r, slack, t);
      LateIsAdmitted(rd, clock, p, r, burst, last, b.held, b.updated, slack, t);
    }
  }

  /** A bucket that already would hold a token has not been asked at t. */
  lemma NotYet(a: Tokens, level: real, from: int, r: real, slack: real, t: int)
    requires Drifted(a, level, from, r, slack) && a.updated <= t && 0.0 < r
    requires 1.0 <= level + Product((t - from) as real, r) - Product(slack, r) - 0.5 * r
    ensures a.updated < t
  {
  }

  /** After these retries, the next one is turned away more than a tick before the
      reported wait is over and passes more than a tick after. */
  ghost predicate Deadline(rd: Rounding, clock: Clock, p: real, burst: int, b: Tokens, times: seq<int>, t: int)
    requires p > 0.0
  {
    var raw, slack := RawWait(rd, p, b.held, Ticks(clock)), 0.001 * |times| as real;
    var last := AfterAll(rd, clock, p, burst, b, times);
    && ((t - b.updated) as real + 1.0 + slack <= raw ==> !Passes(rd, clock, p, burst, last, t))
    && (raw + 1.0 + slack <= (t - b.updated) as real ==> Passes(rd, clock, p, burst, last, t))
  }

  lemma FirstBefore(times: seq<int>, from: int, raw: real, slack: real, t: int)
    requires Before(times, from, raw, slack) && Between(from, times, t) && 0.0 <= slack
    ensures |times| > 0 ==> 1.0 <= raw
  {
    if |times| > 0 { assert from <= times[0]; }
  }

  lemma FastRetries(rd: Rounding, clock: Clock, p: real, burst: int, b: Tokens, times: seq<int>, t: int)
    requires Nearest(rd) && 2.0 * Ticks(clock) <= p && 1 <= burst && 0.0 <= b.held < 1.0 && Between(b.updated, times, t)
    requires Before(times, b.updated, RawWait(rd, p, b.held, Ticks(clock)), 0.001 * |times| as real)
    ensures AllDenied(rd, clock, p, burst, b, times)
    ensures Deadline(rd, clock, p, burst, b, times, t)
  {
    FastWait(rd, clock, p, b.held);
    var raw := RawWait(rd, p, b.held, Ticks(clock));
    FirstBefore(times, b.updated, raw, 0.001 * |times| as real, t);
    if raw + 1.0 <= (t - b.updated) as real {
      FastGrowth(rd, clock, p, b.held, t - b.updated);
      PassesUncapped(rd, clock, p, burst, b, t - b.updated);
    }
  }

  /** A caller alone on its key who is turned away and keeps retrying: every retry
      more than a tick before the reported wait is over is turned away, the first one
      more than a tick after it passes, and no retry in between moves that moment by
      more than a thousandth of a tick. On either clock, at every rate, under every
      rounding. */
  lemma RetriesKeepDeadline(rd: Rounding, clock: Clock, rpm: int, burst: int, b: Tokens, times: seq<int>, t: int)
    requires Nearest(rd) && 1 <= rpm <= FULL && 1 <= burst && 0.0 <= b.held < 1.0 && Between(b.updated, times, t)
    ensures var p := PerSecond(rd, rpm);
            && 0.0 < p
            && (Before(times, b.updated, RawWait(rd, p, b.held, Ticks(clock)), 0.001 * |times| as real) ==>
                  AllDenied(rd, clock, p, burst, b, times) && Deadline(rd, clock, p, burst, b, times, t))
  {
    var p := PerSecond(rd, rpm);
    SlowestRate(rd, rpm);
    var r := Quotient(p, Ticks(clock));
    assert Ticks(clock) * r == p;
    if Before(times, b.updated, RawWait(rd, p, b.held, Ticks(clock)), 0.001 * |times| as real) {
      if 2.0 * Ticks(clock) <= p {
        FastRetries(rd, clock, p, burst, b, times, t);
      } else {
        Pace(p, r, Ticks(clock));
        PacedRetries(rd, clock, p, r, burst, b, times, t);
      }
    }
  }

  lemma Pace(p: real, r: real, ticks: real)
    requires ticks * r == p && 1.0 <= ticks <= NANO && 0.015625 <= p <= 2.0 * ticks
    ensures Paced(p, r, ticks)
  {
    if r <= 0.0 { NotNegativeProduct(ticks, -r); }
    if r > 2.0 { PositiveProduct(ticks, r - 2.0); }
  }

  /** What a single denied caller is told is right to within a tick: turned away
      before it, admitted after it. */
  lemma WaitIsTight(rd: Rounding, clock: Clock, rpm: int, burst: int, b: Tokens, now: int, n: nat)
    requires Nearest(rd) && 1 <= rpm <= FULL && 1 <= burst && 0.0 <= b.held && 0 <= b.updated <= now && now + n < MAX_DURATION
    requires !Passes(rd, clock, PerSecond(rd, rpm), burst, b, now)
    ensures 0.0 < PerSecond(rd, rpm)
    ensures var p := PerSecond(rd, rpm);
            var told := Told(rd, clock, p, Refilled(rd, clock, p, burst, b, now));
            var after := Asked(rd, clock, p, burst, b, now);
            var early, late := if clock.Nanos? then 1 else 2, if clock.Nanos? then 2 else 1;
            && (n + early <= told ==> !Passes(rd, clock, p, burst, after, now + n))
            && (told + late <= n ==> Passes(rd, clock, p, burst, after, now + n))
  {
    var p := PerSecond(rd, rpm);
    SlowestRate(rd, rpm);
    AskedNotNegative(rd, clock, p, burst, b, now);
    var after := Asked(rd, clock, p, burst, b, now);
    RetriesKeepDeadline(rd, clock, rpm, burst, after, [], now + n);
    Integral(RawWait(rd, p, after.held, Ticks(clock)), n);
  }

  /** From a wait in ticks to the integers made of it. */
  lemma Integral(raw: real, n: int)
    ensures n + 1 <= raw.Floor ==> n as real + 1.0 <= raw
    ensures raw.Floor + 2 <= n ==> raw + 1.0 <= n as real
    ensures 0 <= n && n + 2 <= Max(1, Ceil(raw)) ==> n as real + 1.0 <= raw
    ensures Max(1, Ceil(raw)) + 1 <= n ==> raw + 1.0 <= n as real
  {
  }
}
