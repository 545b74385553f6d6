/** Runs of the shared script that end in a header that is too short, every rounding
    checked on integers. */
module ScriptShort {
  import opened Float64
  import opened RateLimit
  import opened RetryAfter
  import opened RetryTiming
  import opened RetryShort
  import opened ScriptHeader

  /** A request `ms` milliseconds after the last one: the seconds, the tokens gained, the
      level, and what is left of it. */
  datatype Visit = Visit(ms: int, secs: Num, gain: Num, level: Num, left: Num)

  /** Requests, and what the last one is told: the lack, the quotient by the rate, the
      header and what its seconds gain. */
  datatype Trail = Missed(h: int, lack: Num, quot: Num, gain: Num) | Then(visit: Visit, rest: Trail)

  /** A level of two tokens is allowed where the burst is. */
  ghost predicate Visited(burst: int, rate: int, held: int, v: Visit) {
    && 1 <= v.ms <= 60_000 && Rounded(v.ms * UNIT, 1000, v.secs)
    && Rounded(v.secs.Units() * rate, UNIT, v.gain) && Rounded(held + v.gain.Units(), 1, v.level)
    && if v.level.Units() < UNIT then v.left == v.level
       else 2 <= burst && v.level.Units() < 2 * UNIT && Rounded(v.level.Units() - UNIT, 1, v.left)
  }

  ghost predicate Short(rate: int, held: int, h: int, lack: Num, quot: Num, gain: Num) {
    && 0 <= held < UNIT && 1 <= h <= 60 && 0 < rate
    && Rounded(UNIT - held, 1, lack) && Rounded(lack.Units() * UNIT, rate, quot) && quot.Units() <= h * UNIT
    && (Rounded(h * rate, 1, gain) || Tied(h * rate, 1, gain)) && held + gain.Units() < UNIT - 0x1_0000
  }

  ghost predicate Trailed(burst: int, rate: int, held: int, at: int, trail: Trail)
    decreases trail
  {
    match trail
    case Missed(h, lack, quot, gain) => at <= 60_000 && Short(rate, held, h, lack, quot, gain)
    case Then(v, rest) => Visited(burst, rate, held, v) && Trailed(burst, rate, v.left.Units(), at + v.ms, rest)
  }

  function Moments(from: int, trail: Trail): seq<int>
    decreases trail
  {
    match trail
    case Missed(_, _, _, _) => []
    case Then(v, rest) => [from + v.ms] + Moments(from + v.ms, rest)
  }

  function Finish(from: int, trail: Trail): int
    decreases trail
  {
    match trail
    case Missed(_, _, _, _) => from
    case Then(v, rest) => Finish(from + v.ms, rest)
  }

  // ---------------------------------------------------------------------
  // One request
  // ---------------------------------------------------------------------

  lemma ElapsedIs(rd: Rounding, ms: int, secs: Num)
    requires Nearest(rd) && 1 <= ms <= 60_000 && Rounded(ms * UNIT, 1000, secs)
    ensures Is(Elapsed(rd, Millis, ms), secs.Units())
  {
    FixedInteger(rd, ms);
    ProductReal(ms, UNIT);
    assert ms as real / 1000.0 * UNIT as real * 1000.0 == ms as real * UNIT as real;
    RoundedIs(rd, ms as real / 1000.0, ms * UNIT, 1000, secs);
  }

  lemma LevelIs(rd: Rounding, p: real, rate: int, burst: int, held: real, units: int, v: Visit)
    requires Nearest(rd) && Is(p, rate) && Is(held, units) && Visited(burst, rate, units, v)
    ensures Is(Grown(rd, Millis, p, held, v.ms), v.level.Units())
  {
    var s := Elapsed(rd, Millis, v.ms);
    ElapsedIs(rd, v.ms, v.secs);
    ProductIs(rd, s, p, v.secs.Units(), rate, v.gain);
    SumIs(rd, held, Times(rd, s, p), units, v.gain.Units(), v.level);
  }

  lemma LeftIs(rd: Rounding, level: real, units: int, left: Num)
    requires Nearest(rd) && Is(level, units) && Rounded(units - UNIT, 1, left)
    ensures Is(Minus(rd, level, 1.0), left.Units())
  {
    assert (level - 1.0) * UNIT as real == level * UNIT as real - UNIT as real;
    RoundedIs(rd, level - 1.0, units - UNIT, 1, left);
  }

  lemma AskedVisit(rd: Rounding, p: real, rate: int, burst: int, b: Tokens, units: int, v: Visit)
    requires Nearest(rd) && Is(p, rate) && 1 <= burst && Is(b.held, units) && Visited(burst, rate, units, v)
    ensures var a := Asked(rd, Millis, p, burst, b, b.updated + v.ms);
            a.updated == b.updated + v.ms && Is(a.held, v.left.Units())
  {
    LevelIs(rd, p, rate, burst, b.held, units, v);
    var level := Grown(rd, Millis, p, b.held, v.ms);
    AsReal(burst);
    if v.level.Units() < UNIT {
      PassesUncapped(rd, Millis, p, burst, b, v.ms);
    } else {
      assert 2.0 <= burst as real;
      LeftIs(rd, level, v.level.Units(), v.left);
    }
  }

  // ---------------------------------------------------------------------
  // The last request
  // ---------------------------------------------------------------------

  lemma ToldAtMost(rd: Rounding, p: real, rate: int, level: real, held: int, h: int, lack: Num, quot: Num)
    requires Nearest(rd) && p > 0.0 && 0 < rate && Is(p, rate) && Is(level, held) && 1 <= h <= 60
    requires Rounded(UNIT - held, 1, lack) && Rounded(lack.Units() * UNIT, rate, quot) && quot.Units() <= h * UNIT
    ensures 1 <= Told(rd, Millis, p, level) <= 1000 * h
  {
    var d := Minus(rd, 1.0, level);
    assert (1.0 - level) * UNIT as real == UNIT as real - level * UNIT as real;
    RoundedIs(rd, 1.0 - level, UNIT - held, 1, lack);
    var u := Quotient(d, p);
    QuotientIs(u, p, rate as real, d, lack.Units() as real, UNIT as real);
    ProductReal(lack.Units(), UNIT);
    RoundedIs(rd, u, lack.Units() * UNIT, rate, quot);
    var q := Over(rd, d, p);
    WholeIs(h);
    assert q <= h as real;
    IntegerFloat(1000 * h);
    AtMost(rd, Product(q, 1000.0), (1000 * h) as real);
  }

  lemma QuotientIs(u: real, p: real, rate: real, d: real, lack: real, unit: real)
    requires u * p == d && p * unit == rate && d * unit == lack
    ensures u * unit * rate == lack * unit
  {
    assert u * unit * (p * unit) == (u * p) * unit * unit;
  }

  lemma MissedIsShort(rd: Rounding, p: real, rate: int, burst: int, b: Tokens, units: int, h: int, lack: Num, quot: Num, gain: Num)
    requires Standard(rd) && p > 0.0 && Is(p, rate) && 1 <= burst && Is(b.held, units) && Short(rate, units, h, lack, quot, gain)
    requires 0 <= b.updated <= 60_000
    ensures !Honoured(rd, Millis, p, burst, b, b.updated)
  {
    assert 0.0 <= b.held < 1.0;
    ToldAtMost(rd, p, rate, b.held, units, h, lack, quot);
    var wait := WaitNanos(Millis, Told(rd, Millis, p, b.held));
    HeaderAtMost(rd, wait, h);
    StillBelow(rd, p, rate, b.held, units, h, gain);
    RefillMonotone(rd, Millis, p, b.held, 1000 * Header(rd, wait), 1000 * h);
    PassesUncapped(rd, Millis, p, burst, b, 1000 * Header(rd, wait));
    assert Asked(rd, Millis, p, burst, b, b.updated) == b;
  }

  lemma StillBelow(rd: Rounding, p: real, rate: int, held: real, units: int, h: int, gain: Num)
    requires Standard(rd) && Is(p, rate) && Is(held, units) && 1 <= h <= 60
    requires (Rounded(h * rate, 1, gain) || Tied(h * rate, 1, gain)) && units + gain.Units() < UNIT - 0x1_0000
    ensures Grown(rd, Millis, p, held, 1000 * h) < 1.0
  {
    FixedInteger(rd, 1000 * h);
    FixedInteger(rd, h);
    assert (1000 * h) as real / 1000.0 == h as real;
    GainIs(rd, p, rate, h, gain);
    BelowOne(rd, held + Times(rd, h as real, p), units + gain.Units());
  }

  lemma BelowOne(rd: Rounding, total: real, units: int)
    requires Nearest(rd) && Is(total, units) && units < UNIT - 0x1_0000
    ensures rd(total) < 1.0
  {
    JustUnderOne();
    NearestBound(rd, total, 9007199254740991.0 / 9007199254740992.0);
  }

  // ---------------------------------------------------------------------
  // Runs
  // ---------------------------------------------------------------------

  ghost predicate TrailShort(rd: Rounding, p: real, burst: int, b: Tokens, trail: Trail)
    requires p > 0.0
  {
    !Honoured(rd, Millis, p, burst, AfterAll(rd, Millis, p, burst, b, Moments(b.updated, trail)), Finish(b.updated, trail))
  }

  lemma TrailShortThen(rd: Rounding, p: real, burst: int, b: Tokens, v: Visit, rest: Trail, a: Tokens)
    requires p > 0.0 && a == Asked(rd, Millis, p, burst, b, b.updated + v.ms) && a.updated == b.updated + v.ms
    ensures TrailShort(rd, p, burst, b, Then(v, rest)) <==> TrailShort(rd, p, burst, a, rest)
  {
    assert Moments(b.updated, Then(v, rest))[1..] == Moments(a.updated, rest);
  }

  lemma {:induction false} TrailIsShort(rd: Rounding, p: real, rate: int, burst: int, b: Tokens, units: int, trail: Trail)
    requires Standard(rd) && p > 0.0 && Is(p, rate) && 1 <= burst && Is(b.held, units)
    requires 0 <= b.updated && Trailed(burst, rate, units, b.updated, trail)
    ensures TrailShort(rd, p, burst, b, trail)
    decreases trail
  {
    match trail
    case Missed(h, lack, quot, gain) => MissedIsShort(rd, p, rate, burst, b, units, h, lack, quot, gain);
    case Then(v, rest) =>
      AskedVisit(rd, p, rate, burst, b, units, v);
      var a := Asked(rd, Millis, p, burst, b, b.updated + v.ms);
      TrailIsShort(rd, p, rate, burst, a, v.left.Units(), rest);
      TrailShortThen(rd, p, burst, b, v, rest, a);
  }

  lemma {:induction false} MomentsInOrder(burst: int, rate: int, units: int, from: int, trail: Trail)
    requires Trailed(burst, rate, units, from, trail) && 0 <= from
    ensures Between(from, Moments(from, trail), Finish(from, trail))
    decreases trail
  {
    if trail.Then? { MomentsInOrder(burst, rate, trail.visit.left.Units(), from + trail.visit.ms, trail.rest); }
  }
}
