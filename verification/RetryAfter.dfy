/** What a denied caller is told: the wait in the answer and the Retry-After header
    the gateway makes of it. These turn on the last bits of the token count, so here
    the buckets are in binary floating point, operation by operation, under any
    rounding to nearest. */
module RetryAfter {
  import opened Float64
  import opened RateLimit

  // ---------------------------------------------------------------------
  // The two buckets in floating point
  // ---------------------------------------------------------------------

  const NANO: real := 1000000000.0
  /** Durations are 64-bit counts of nanoseconds. */
  const MAX_DURATION: int := 0x8000_0000_0000_0000

  /** The gateway's own bucket counts nanoseconds, the shared script milliseconds. */
  datatype Clock = Nanos | Millis

  function Ticks(clock: Clock): real { if clock.Nanos? then NANO else 1000.0 }

  /** A count of nanoseconds in seconds: whole seconds plus the rest. */
  function Seconds(rd: Rounding, n: int): real
    requires 0 <= n
  {
    rd(rd((n / SECOND) as real) + rd(rd((n % SECOND) as real) / NANO))
  }

  function Elapsed(rd: Rounding, clock: Clock, n: int): real
    requires 0 <= n
  {
    if clock.Nanos? then Seconds(rd, n) else rd(rd(n as real) / 1000.0)
  }

  function PerSecond(rd: Rounding, rpm: int): real {
    rd(rd(rpm as real) / 60.0)
  }

  datatype Tokens = Tokens(held: real, updated: int)

  function Least(a: real, b: real): real { if a < b then a else b }

  /** The count after n ticks, before the cap. */
  function Grown(rd: Rounding, clock: Clock, p: real, held: real, n: int): real
    requires 0 <= n
  {
    Plus(rd, held, Times(rd, Elapsed(rd, clock, n), p))
  }

  function Refilled(rd: Rounding, clock: Clock, p: real, burst: int, b: Tokens, now: int): real {
    if now > b.updated then Least(burst as real, Grown(rd, clock, p, b.held, now - b.updated)) else b.held
  }

  predicate Passes(rd: Rounding, clock: Clock, p: real, burst: int, b: Tokens, now: int) {
    Refilled(rd, clock, p, burst, b, now) >= 1.0
  }

  function Asked(rd: Rounding, clock: Clock, p: real, burst: int, b: Tokens, now: int): Tokens {
    var level := Refilled(rd, clock, p, burst, b, now);
    Tokens(if level >= 1.0 then Minus(rd, level, 1.0) else level,
           if clock.Nanos? then Max(b.updated, now) else now)
  }

  function AfterAll(rd: Rounding, clock: Clock, p: real, burst: int, b: Tokens, times: seq<int>): Tokens
    decreases |times|
  {
    if times == [] then b
    else AfterAll(rd, clock, p, burst, Asked(rd, clock, p, burst, b, times[0]), times[1..])
  }

  /** The wait until a full token, in ticks, before it is made an integer. */
  function RawWait(rd: Rounding, p: real, level: real, ticks: real): real
    requires p > 0.0
  {
    Times(rd, Over(rd, Minus(rd, 1.0, level), p), ticks)
  }

  /** The gateway truncates it; the script rounds it up and never says zero. */
  function Told(rd: Rounding, clock: Clock, p: real, level: real): int
    requires p > 0.0
  {
    var raw := RawWait(rd, p, level, Ticks(clock));
    if clock.Nanos? then raw.Floor else Max(1, Ceil(raw))
  }

  function Ceil(x: real): int { -((-x).Floor) }

  function SecondTicks(clock: Clock): int { if clock.Nanos? then SECOND else 1000 }

  /** The duration that the limiter returns, in nanoseconds. */
  function WaitNanos(clock: Clock, told: int): int { if clock.Nanos? then told else 1_000_000 * told }

  /** Retry-After: seconds, rounded up, at least one. */
  function Header(rd: Rounding, wait: int): int
    requires 0 <= wait
  {
    Max(1, Ceil(Seconds(rd, wait)))
  }

  // ---------------------------------------------------------------------
  // Signs and order
  // ---------------------------------------------------------------------

  lemma NotNegativeRounded(rd: Rounding, x: real)
    requires Nearest(rd) && 0.0 <= x
    ensures 0.0 <= rd(x)
  {
    IntegerFloat(0);
    AtLeast(rd, x, 0.0);
  }

  lemma AtLeastOne(rd: Rounding, x: real)
    requires Nearest(rd) && 1.0 <= x
    ensures 1.0 <= rd(x)
  {
    IntegerFloat(1);
    AtLeast(rd, x, 1.0);
  }

  /** The two parts of a duration. */
  lemma Parts(rd: Rounding, n: int)
    requires Nearest(rd) && 0 <= n < MAX_DURATION
    ensures rd((n / SECOND) as real) == (n / SECOND) as real && rd((n % SECOND) as real) == (n % SECOND) as real
    ensures 0.0 <= rd(rd((n % SECOND) as real) / NANO) <= 1.0
  {
    FixedInteger(rd, n / SECOND);
    FixedInteger(rd, n % SECOND);
    var part := (n % SECOND) as real / NANO;
    assert 0.0 <= part <= 1.0;
    NotNegativeRounded(rd, part);
    IntegerFloat(1);
    AtMost(rd, part, 1.0);
  }

  lemma SecondsNotNegative(rd: Rounding, n: int)
    requires Nearest(rd) && 0 <= n < MAX_DURATION
    ensures 0.0 <= Seconds(rd, n)
  {
    Parts(rd, n);
    NotNegativeRounded(rd, rd((n / SECOND) as real) + rd(rd((n % SECOND) as real) / NANO));
  }

  lemma SecondsMonotone(rd: Rounding, n: int, m: int)
    requires Nearest(rd) && 0 <= n <= m < MAX_DURATION
    ensures Seconds(rd, n) <= Seconds(rd, m)
  {
    Parts(rd, n);
    Parts(rd, m);
    var x, y := rd(rd((n % SECOND) as real) / NANO), rd(rd((m % SECOND) as real) / NANO);
    if n / SECOND == m / SECOND {
      InOrder(rd, (n % SECOND) as real / NANO, (m % SECOND) as real / NANO);
    }
    assert (n / SECOND) as real + x <= (m / SECOND) as real + y;
    InOrder(rd, (n / SECOND) as real + x, (m / SECOND) as real + y);
  }

  lemma ElapsedMonotone(rd: Rounding, clock: Clock, n: int, m: int)
    requires Nearest(rd) && 0 <= n <= m < MAX_DURATION
    ensures 0.0 <= Elapsed(rd, clock, n) <= Elapsed(rd, clock, m)
  {
    if clock.Nanos? {
      SecondsNotNegative(rd, n);
      SecondsMonotone(rd, n, m);
    } else {
      NotNegativeRounded(rd, n as real);
      InOrder(rd, n as real, m as real);
      NotNegativeRounded(rd, rd(n as real) / 1000.0);
      InOrder(rd, rd(n as real) / 1000.0, rd(m as real) / 1000.0);
    }
  }

  /** Whole seconds are at least one. */
  lemma WholeSeconds(rd: Rounding, clock: Clock, h: int)
    requires Nearest(rd) && 1 <= h && SecondTicks(clock) * h < MAX_DURATION
    ensures 1.0 <= Elapsed(rd, clock, SecondTicks(clock) * h)
  {
    var n := SecondTicks(clock) * h;
    if clock.Nanos? {
      Parts(rd, n);
      AtLeastOne(rd, rd((n / SECOND) as real) + rd(rd((n % SECOND) as real) / NANO));
    } else {
      FixedInteger(rd, 1000);
      InOrder(rd, 1000.0, n as real);
      AtLeastOne(rd, rd(n as real) / 1000.0);
    }
  }

  lemma RefillMonotone(rd: Rounding, clock: Clock, p: real, held: real, n: int, m: int)
    requires Nearest(rd) && 0.0 <= p && 0 <= n <= m < MAX_DURATION
    ensures Grown(rd, clock, p, held, n) <= Grown(rd, clock, p, held, m)
  {
    ElapsedMonotone(rd, clock, n, m);
    var s, t := Elapsed(rd, clock, n), Elapsed(rd, clock, m);
    MulMono(s, t, p);
    var x, y := Times(rd, s, p), Times(rd, t, p);
    assert x <= y by { InOrder(rd, Product(s, p), Product(t, p)); }
    InOrder(rd, held + x, held + y);
  }

  lemma GrownNotNegative(rd: Rounding, clock: Clock, p: real, held: real, n: int)
    requires Nearest(rd) && 0.0 <= p && 0.0 <= held && 0 <= n < MAX_DURATION
    ensures 0.0 <= Grown(rd, clock, p, held, n)
  {
    ElapsedMonotone(rd, clock, n, n);
    var s := Elapsed(rd, clock, n);
    NotNegativeProduct(s, p);
    NotNegativeRounded(rd, Product(s, p));
    NotNegativeRounded(rd, held + Times(rd, s, p));
  }

  lemma AsReal(n: int)
    requires 1 <= n
    ensures 1.0 <= n as real
  {
  }

  /** A cap of at least one token does not decide who passes. */
  lemma PassesUncapped(rd: Rounding, clock: Clock, p: real, burst: int, b: Tokens, n: int)
    requires 1 <= burst && 0 < n
    ensures Passes(rd, clock, p, burst, b, b.updated + n) <==> 1.0 <= Grown(rd, clock, p, b.held, n)
  {
    AsReal(burst);
    assert b.updated + n - b.updated == n;
  }

  lemma AskedNotNegative(rd: Rounding, clock: Clock, p: real, burst: int, b: Tokens, now: int)
    requires Nearest(rd) && 0.0 <= p && 1 <= burst && 0.0 <= b.held && now - b.updated < MAX_DURATION
    ensures 0.0 <= Refilled(rd, clock, p, burst, b, now) && 0.0 <= Asked(rd, clock, p, burst, b, now).held
  {
    if now > b.updated {
      GrownNotNegative(rd, clock, p, b.held, now - b.updated);
      AsReal(burst);
    }
    var level := Refilled(rd, clock, p, burst, b, now);
    if level >= 1.0 { NotNegativeRounded(rd, level - 1.0); }
  }

  /** Readings of one clock, in order, that a duration can span. */
  ghost predicate Readings(times: seq<int>, now: int) {
    && (forall i :: 0 <= i < |times| ==> 0 <= times[i] <= now)
    && (forall i, j :: 0 <= i < j < |times| ==> times[i] <= times[j])
    && 0 <= now < MAX_DURATION
  }

  lemma {:induction false} AfterAllNotNegative(rd: Rounding, clock: Clock, p: real, burst: int, b: Tokens,
                                               times: seq<int>, now: int)
    requires Nearest(rd) && 0.0 <= p && 1 <= burst && 0.0 <= b.held && 0 <= b.updated <= now && Readings(times, now)
    ensures var a := AfterAll(rd, clock, p, burst, b, times); 0.0 <= a.held && 0 <= a.updated <= now
    decreases |times|
  {
    if times != [] {
      AskedNotNegative(rd, clock, p, burst, b, times[0]);
      AfterAllNotNegative(rd, clock, p, burst, Asked(rd, clock, p, burst, b, times[0]), times[1..], now);
    }
  }

  // ---------------------------------------------------------------------
  // The header at one token per second or more
  // ---------------------------------------------------------------------

  function Start(burst: int, times: seq<int>, now: int): Tokens {
    Tokens(burst as real, if times == [] then now else times[0])
  }

  /** If a request is turned away at `now`, one that comes when the header's seconds
      have gone by passes. */
  ghost predicate Honoured(rd: Rounding, clock: Clock, p: real, burst: int, b: Tokens, now: int)
    requires p > 0.0
  {
    var level := Refilled(rd, clock, p, burst, b, now);
    var wait := WaitNanos(clock, Told(rd, clock, p, level));
    level < 1.0 && 0 <= wait && now + SecondTicks(clock) * Header(rd, wait) < MAX_DURATION ==>
      Passes(rd, clock, p, burst, Asked(rd, clock, p, burst, b, now), now + SecondTicks(clock) * Header(rd, wait))
  }

  /** The same after any earlier requests. */
  ghost predicate HeaderSuffices(rd: Rounding, clock: Clock, p: real, burst: int, times: seq<int>, now: int)
    requires p > 0.0
  {
    Honoured(rd, clock, p, burst, AfterAll(rd, clock, p, burst, Start(burst, times, now), times), now)
  }

  lemma RateAtLeastOne(rd: Rounding, rpm: int)
    requires Nearest(rd) && 60 <= rpm <= FULL
    ensures 1.0 <= PerSecond(rd, rpm)
  {
    FixedInteger(rd, rpm);
    AtLeastOne(rd, rd(rpm as real) / 60.0);
  }

  /** At one token per second or more, whole seconds bring a token. */
  lemma SecondFills(rd: Rounding, clock: Clock, p: real, burst: int, b: Tokens, h: int)
    requires Nearest(rd) && 1.0 <= p && 1 <= burst && 0.0 <= b.held && 1 <= h && SecondTicks(clock) * h < MAX_DURATION
    ensures Passes(rd, clock, p, burst, b, b.updated + SecondTicks(clock) * h)
  {
    WholeSeconds(rd, clock, h);
    SecondGrows(rd, clock, p, b.held, SecondTicks(clock) * h);
    PassesUncapped(rd, clock, p, burst, b, SecondTicks(clock) * h);
  }

  lemma SecondGrows(rd: Rounding, clock: Clock, p: real, held: real, n: int)
    requires Nearest(rd) && 1.0 <= p && 0.0 <= held && 0 <= n && 1.0 <= Elapsed(rd, clock, n)
    ensures 1.0 <= Grown(rd, clock, p, held, n)
  {
    var s := Elapsed(rd, clock, n);
    MulMono(1.0, s, p);
    AtLeastOne(rd, Product(s, p));
    AtLeastOne(rd, held + Times(rd, s, p));
  }

  lemma HonouredWhen(rd: Rounding, clock: Clock, p: real, burst: int, b: Tokens, now: int)
    requires Nearest(rd) && 1.0 <= p && 1 <= burst && 0.0 <= b.held && 0 <= b.updated <= now < MAX_DURATION
    ensures Honoured(rd, clock, p, burst, b, now)
  {
    AskedNotNegative(rd, clock, p, burst, b, now);
    var wait := WaitNanos(clock, Told(rd, clock, p, Refilled(rd, clock, p, burst, b, now)));
    if 0 <= wait && now + SecondTicks(clock) * Header(rd, wait) < MAX_DURATION {
      SecondFills(rd, clock, p, burst, Asked(rd, clock, p, burst, b, now), Header(rd, wait));
    }
  }

  /** On either store: at sixty requests a minute or more the header is enough. */
  lemma HeaderSufficesWhen(rd: Rounding, clock: Clock, rpm: int, burst: int, times: seq<int>, now: int)
    requires Nearest(rd) && 60 <= rpm <= FULL && 1 <= burst && Readings(times, now)
    ensures 0.0 < PerSecond(rd, rpm) && HeaderSuffices(rd, clock, PerSecond(rd, rpm), burst, times, now)
  {
    var p := PerSecond(rd, rpm);
    RateAtLeastOne(rd, rpm);
    AsReal(burst);
    AfterAllNotNegative(rd, clock, p, burst, Start(burst, times, now), times, now);
    HonouredWhen(rd, clock, p, burst, AfterAll(rd, clock, p, burst, Start(burst, times, now), times), now);
  }
}
