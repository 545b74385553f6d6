/** Certificates for runs in floating point: every rounding in a run is checked on
    integers, and a checked run shows a header that is too short. */
module RetryShort {
  import opened Float64
  import opened RateLimit
  import opened RetryAfter
  import opened RetryTiming

  /** Numbers are counted in units of 2^-70. */
  const UNIT: int := 0x40_0000_0000_0000_0000

  /** A 53-bit count of grains of `grain` units each. */
  datatype Num = Num(count: int, grain: int) {
    function Units(): int { count * grain }
  }

  /** A grain is a power of two up to the unit. */
  ghost predicate Grain(grain: int) {
    0 < grain && exists s: real :: Scale(s) && s * grain as real == UNIT as real
  }

  /** num/den units, rounded. */
  ghost predicate Rounded(num: int, den: int, result: Num) {
    && 0 < den && Grain(result.grain) && HALF < result.count <= FULL
    && -(result.grain * den) < 2 * (num - result.Units() * den) < result.grain * den
  }

  lemma RoundedIs(rd: Rounding, x: real, num: int, den: int, result: Num)
    requires Nearest(rd) && Rounded(num, den, result) && x * UNIT as real * den as real == num as real
    ensures rd(x) * UNIT as real == result.Units() as real
  {
    var s: real :| Scale(s) && s * result.grain as real == UNIT as real;
    ScaleAtLeastOne(s);
    InGrains(x, s, UNIT as real, result.grain as real, den as real, num as real, result.count as real);
    RoundsTo(rd, x, s, result.count);
    assert rd(x) * (s * result.grain as real) == (rd(x) * s) * result.grain as real;
    ProductReal(result.count, result.grain);
  }

  lemma InGrains(x: real, s: real, unit: real, grain: real, den: real, num: real, count: real)
    requires 0.0 < grain && 0.0 < den && s * grain == unit && x * unit * den == num
    requires -(grain * den) < 2.0 * (num - count * grain * den) < grain * den
    ensures count - 0.5 < x * s < count + 0.5
  {
    PositiveProduct(grain, den);
    var y, g := Product(x, s), Product(grain, den);
    assert Product(y, g) == num by { Regroup(x, s, grain, den); }
    assert Product(count, g) == count * grain * den;
    InUnits(y, count, g);
  }

  lemma InUnits(y: real, count: real, g: real)
    requires 0.0 < g && -g < 2.0 * (Product(y, g) - Product(count, g)) < g
    ensures count - 0.5 < y < count + 0.5
  {
    assert (y - count) * g == y * g - count * g;
    HalfUnit(y - count, g);
  }

  lemma Regroup(x: real, s: real, grain: real, den: real)
    ensures (x * s) * (grain * den) == x * (s * grain) * den
  {
  }

  lemma HalfUnit(z: real, g: real)
    requires 0.0 < g && -g < 2.0 * Product(z, g) < g
    ensures -0.5 < z < 0.5
  {
    if z >= 0.5 { MulMono(0.5, z, g); }
    if z <= -0.5 { MulMono(z, -0.5, g); }
  }

  // ---------------------------------------------------------------------
  // One request
  // ---------------------------------------------------------------------

  /** A request that comes so long after the last one: the fraction of a second, the
      seconds, the tokens gained and the level. */
  datatype Reading = Reading(whole: int, nanos: int, part: Num, secs: Num, gain: Num, level: Num) {
    function Gap(): int { SECOND * whole + nanos }
  }

  /** At `rate` units a second, a bucket of `held` units goes through these numbers and
      stays below a token. */
  ghost predicate Reads(rate: int, held: int, r: Reading) {
    && 0 <= r.whole < HALF / SECOND && 0 <= r.nanos < SECOND && 0 < r.Gap()
    && (if r.nanos == 0 then r.part.count == 0 else Rounded(r.nanos * UNIT, SECOND, r.part))
    && Rounded(r.whole * UNIT + r.part.Units(), 1, r.secs)
    && Rounded(r.secs.Units() * rate, UNIT, r.gain)
    && Rounded(held + r.gain.Units(), 1, r.level)
    && r.level.Units() < UNIT
  }

  /** x is that many units. */
  ghost predicate Is(x: real, units: int) { x * UNIT as real == units as real }

  lemma SumIs(rd: Rounding, a: real, b: real, x: int, y: int, result: Num)
    requires Nearest(rd) && Is(a, x) && Is(b, y) && Rounded(x + y, 1, result)
    ensures Is(Plus(rd, a, b), result.Units())
  {
    assert (a + b) * UNIT as real == a * UNIT as real + b * UNIT as real;
    RoundedIs(rd, a + b, x + y, 1, result);
  }

  lemma ProductIs(rd: Rounding, a: real, b: real, x: int, y: int, result: Num)
    requires Nearest(rd) && Is(a, x) && Is(b, y) && Rounded(x * y, UNIT, result)
    ensures Is(Times(rd, a, b), result.Units())
  {
    ProductReal(x, y);
    Regroup(a, UNIT as real, b, UNIT as real);
    Swapped(a, b, UNIT as real);
    RoundedIs(rd, Product(a, b), x * y, UNIT, result);
  }

  lemma Swapped(a: real, b: real, u: real)
    ensures a * b * u * u == (a * u) * (b * u)
  {
  }

  lemma WholeIs(n: int)
    ensures Is(n as real, n * UNIT)
  {
    ProductReal(n, UNIT);
  }

  lemma PartIs(rd: Rounding, f: int, part: Num)
    requires Nearest(rd) && 0 <= f < SECOND
    requires if f == 0 then part.count == 0 else Rounded(f * UNIT, SECOND, part)
    ensures Is(rd(rd(f as real) / NANO), part.Units())
  {
    FixedInteger(rd, f);
    FixedInteger(rd, 0);
    if f != 0 {
      ProductReal(f, UNIT);
      assert f as real / NANO * UNIT as real * SECOND as real == f as real * UNIT as real;
      RoundedIs(rd, f as real / NANO, f * UNIT, SECOND, part);
    }
  }

  lemma SecondsIs(rd: Rounding, n: int, part: Num, secs: Num)
    requires Nearest(rd) && 0 <= n < MAX_DURATION
    requires if n % SECOND == 0 then part.count == 0 else Rounded(n % SECOND * UNIT, SECOND, part)
    requires Rounded(n / SECOND * UNIT + part.Units(), 1, secs)
    ensures Is(Seconds(rd, n), secs.Units())
  {
    PartIs(rd, n % SECOND, part);
    FixedInteger(rd, n / SECOND);
    WholeIs(n / SECOND);
    SumIs(rd, (n / SECOND) as real, rd(rd((n % SECOND) as real) / NANO), n / SECOND * UNIT, part.Units(), secs);
  }

  lemma ReadingIs(rd: Rounding, p: real, rate: int, held: real, units: int, r: Reading)
    requires Nearest(rd) && Is(p, rate) && Is(held, units) && Reads(rate, units, r)
    ensures Is(Grown(rd, Nanos, p, held, r.Gap()), r.level.Units()) && Grown(rd, Nanos, p, held, r.Gap()) < 1.0
  {
    assert r.Gap() / SECOND == r.whole && r.Gap() % SECOND == r.nanos;
    SecondsIs(rd, r.Gap(), r.part, r.secs);
    ProductIs(rd, Seconds(rd, r.Gap()), p, r.secs.Units(), rate, r.gain);
    SumIs(rd, held, Times(rd, Seconds(rd, r.Gap()), p), units, r.gain.Units(), r.level);
  }

  // ---------------------------------------------------------------------
  // Runs
  // ---------------------------------------------------------------------

  /** Requests that are turned away, and the whole seconds the last one is told. */
  datatype Run = Last(seconds: int, gain: Num) | Next(reading: Reading, rest: Run)

  /** The wait is less than a nanosecond over h seconds, and h seconds leave a level
      that is not rounded up to one. */
  ghost predicate TooShort(rate: int, held: int, h: int, gain: Num) {
    && 0 <= held < UNIT && 1 <= h <= 60
    && 1000 * SECOND * (UNIT - held) + rate < 1000 * (h * SECOND + 1) * rate
    && Rounded(h * UNIT * rate, UNIT, gain) && held + gain.Units() < UNIT - 0x1_0000
  }

  /** From a level of `held` units, `at` nanoseconds into the first minute. */
  ghost predicate Certified(rate: int, held: int, at: int, run: Run)
    decreases run
  {
    match run
    case Last(h, gain) => at <= MINUTE && TooShort(rate, held, h, gain)
    case Next(r, rest) => Reads(rate, held, r) && Certified(rate, r.level.Units(), at + r.Gap(), rest)
  }

  /** When the requests come, and the last of them. */
  function Instants(from: int, run: Run): seq<int>
    decreases run
  {
    match run
    case Last(_, _) => []
    case Next(r, rest) => [from + r.Gap()] + Instants(from + r.Gap(), rest)
  }

  function End(from: int, run: Run): int
    decreases run
  {
    match run
    case Last(_, _) => from
    case Next(r, rest) => End(from + r.Gap(), rest)
  }

  lemma WholeHeader(rd: Rounding, h: int)
    requires Nearest(rd) && 1 <= h <= 60
    ensures Seconds(rd, SECOND * h) == h as real
  {
    FixedInteger(rd, h);
    FixedInteger(rd, 0);
    assert SECOND * h / SECOND == h && SECOND * h % SECOND == 0;
  }

  lemma HeaderAtMost(rd: Rounding, wait: int, h: int)
    requires Nearest(rd) && 0 <= wait <= SECOND * h && 1 <= h <= 60
    ensures 1 <= Header(rd, wait) <= h
  {
    WholeHeader(rd, h);
    SecondsMonotone(rd, wait, SECOND * h);
  }

  /** The gateway's pace. */
  predicate Slow(p: real, r: real) {
    NANO * r == p && 0.015625 <= p <= 1.0 && 0.0 < r
  }

  lemma WaitAtMost(rd: Rounding, p: real, r: real, level: real, h: int)
    requires Nearest(rd) && Slow(p, r) && 0.0 <= level < 1.0 && 1 <= h <= 60
    requires 1.0 - level + 0.001 * r < Product((h * SECOND + 1) as real, r)
    ensures 0 <= Told(rd, Nanos, p, level) <= SECOND * h
  {
    assert NANO == 1000000000.0;
    WaitError(rd, p, r, NANO, level);
    var raw := RawWait(rd, p, level, NANO);
    Under(raw, (h * SECOND + 1) as real, r);
  }

  lemma Under(a: real, b: real, r: real)
    requires Product(a, r) < Product(b, r) && 0.0 < r
    ensures a < b
  {
    if a >= b { MulMono(b, a, r); }
  }

  lemma JustUnderOne()
    ensures Float(9007199254740991.0 / 9007199254740992.0)
  {
    SmallScales();
    ScaleProduct(65536.0, 4294967296.0);
    ScaleProduct(281474976710656.0, 16.0);
    assert Pow(1) == 2.0;
    ScaleProduct(4503599627370496.0, 2.0);
    GridFloat(9007199254740991, 9007199254740992.0, 9007199254740991.0 / 9007199254740992.0);
  }

  lemma StillShort(rd: Rounding, p: real, rate: int, held: real, units: int, h: int, gain: Num)
    requires Nearest(rd) && Is(p, rate) && Is(held, units) && 1 <= h <= 60
    requires Rounded(h * UNIT * rate, UNIT, gain) && units + gain.Units() < UNIT - 0x1_0000
    ensures Grown(rd, Nanos, p, held, SECOND * h) < 1.0
  {
    WholeHeader(rd, h);
    WholeIs(h);
    ProductIs(rd, h as real, p, h * UNIT, rate, gain);
    var total := held + Times(rd, h as real, p);
    assert total * UNIT as real == (units + gain.Units()) as real;
    JustUnderOne();
    NearestBound(rd, total, 9007199254740991.0 / 9007199254740992.0);
  }

  lemma WaitCheck(p: real, r: real, rate: int, level: real, units: int, h: int)
    requires Slow(p, r) && Is(p, rate) && Is(level, units)
    requires 1000 * SECOND * (UNIT - units) + rate < 1000 * (h * SECOND + 1) * rate
    ensures 1.0 - level + 0.001 * r < Product((h * SECOND + 1) as real, r)
  {
    assert NANO == 1000000000.0;
    ProductReal(h * SECOND + 1, rate);
    var k := (h * SECOND + 1) as real;
    assert 1000000000000.0 * (UNIT as real - units as real) + rate as real < 1000.0 * (k * rate as real);
    CheckScaled(p, r, level, k, UNIT as real);
  }

  lemma CheckScaled(p: real, r: real, level: real, k: real, u: real)
    requires 1000000000.0 * r == p && 0.0 < u
    requires 1000000000000.0 * (u - level * u) + p * u < 1000.0 * (k * (p * u))
    ensures 1.0 - level + 0.001 * r < Product(k, r)
  {
    var z := 1000000000000.0 * (1.0 - level) + p - 1000.0 * (k * p);
    assert z * u == 1000000000000.0 * (u - level * u) + p * u - 1000.0 * (k * (p * u));
    if z >= 0.0 { NotNegativeProduct(z, u); }
    assert k * p == 1000000000.0 * (k * r);
  }

  lemma LastIsShort(rd: Rounding, p: real, r: real, rate: int, burst: int, b: Tokens, units: int, h: int, gain: Num)
    requires Nearest(rd) && Slow(p, r) && Is(p, rate) && 1 <= burst && Is(b.held, units) && TooShort(rate, units, h, gain)
    requires 0 <= b.updated && b.updated + SECOND * 60 < MAX_DURATION
    ensures !Honoured(rd, Nanos, p, burst, b, b.updated)
  {
    assert 0.0 <= b.held < 1.0;
    WaitCheck(p, r, rate, b.held, units, h);
    WaitAtMost(rd, p, r, b.held, h);
    var wait := Told(rd, Nanos, p, b.held);
    HeaderAtMost(rd, wait, h);
    StillShort(rd, p, rate, b.held, units, h, gain);
    RefillMonotone(rd, Nanos, p, b.held, SECOND * Header(rd, wait), SECOND * h);
    PassesUncapped(rd, Nanos, p, burst, b, SECOND * Header(rd, wait));
    assert Asked(rd, Nanos, p, burst, b, b.updated) == b;
  }

  lemma {:induction false} InstantsInOrder(rate: int, units: int, from: int, run: Run)
    requires Certified(rate, units, from, run) && 0 <= from
    ensures Between(from, Instants(from, run), End(from, run)) && End(from, run) <= MINUTE
    decreases run
  {
    if run.Next? { InstantsInOrder(rate, run.reading.level.Units(), from + run.reading.Gap(), run.rest); }
  }

  lemma AskedReading(rd: Rounding, p: real, rate: int, burst: int, b: Tokens, units: int, r: Reading)
    requires Nearest(rd) && Is(p, rate) && 1 <= burst && Is(b.held, units) && Reads(rate, units, r)
    ensures var a := Asked(rd, Nanos, p, burst, b, b.updated + r.Gap());
            a.updated == b.updated + r.Gap() && Is(a.held, r.level.Units())
  {
    ReadingIs(rd, p, rate, b.held, units, r);
    PassesUncapped(rd, Nanos, p, burst, b, r.Gap());
    AsReal(burst);
  }

  lemma FirstOfRun(rd: Rounding, p: real, burst: int, b: Tokens, r: Reading, rest: Run)
    ensures var at := b.updated + r.Gap();
            AfterAll(rd, Nanos, p, burst, b, Instants(b.updated, Next(r, rest))) ==
            AfterAll(rd, Nanos, p, burst, Asked(rd, Nanos, p, burst, b, at), Instants(at, rest))
  {
    assert Instants(b.updated, Next(r, rest))[1..] == Instants(b.updated + r.Gap(), rest);
  }

  /** In a certified run the last request is told too little. */
  ghost predicate EndsShort(rd: Rounding, p: real, burst: int, b: Tokens, run: Run)
    requires p > 0.0
  {
    !Honoured(rd, Nanos, p, burst, AfterAll(rd, Nanos, p, burst, b, Instants(b.updated, run)), End(b.updated, run))
  }

  lemma EndsShortNext(rd: Rounding, p: real, burst: int, b: Tokens, r: Reading, rest: Run, a: Tokens)
    requires p > 0.0 && a == Asked(rd, Nanos, p, burst, b, b.updated + r.Gap()) && a.updated == b.updated + r.Gap()
    ensures EndsShort(rd, p, burst, b, Next(r, rest)) <==> EndsShort(rd, p, burst, a, rest)
  {
    FirstOfRun(rd, p, burst, b, r, rest);
  }

  lemma {:induction false} RunIsShort(rd: Rounding, p: real, r: real, rate: int, burst: int, b: Tokens, units: int, run: Run)
    requires Nearest(rd) && Slow(p, r) && Is(p, rate) && 1 <= burst && Is(b.held, units)
    requires 0 <= b.updated && Certified(rate, units, b.updated, run)
    ensures EndsShort(rd, p, burst, b, run)
    decreases run
  {
    match run
    case Last(h, gain) => LastIsShort(rd, p, r, rate, burst, b, units, h, gain);
    case Next(reading, rest) =>
      AskedReading(rd, p, rate, burst, b, units, reading);
      var a := Asked(rd, Nanos, p, burst, b, b.updated + reading.Gap());
      RunIsShort(rd, p, r, rate, burst, a, reading.level.Units(), rest);
      EndsShortNext(rd, p, burst, b, reading, rest, a);
  }
}
