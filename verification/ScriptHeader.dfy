/** The header over the shared script, whose wait is already rounded up to a
    millisecond: at which rates h seconds are enough for every level that is told h
    seconds. Ties go to even. */
module ScriptHeader {
  import opened Float64
  import opened RateLimit
  import opened RetryAfter
  import opened RetryTiming
  import opened RetryShort

  /** The rounding that the service runs on. */
  ghost predicate Standard(rd: Rounding) { Nearest(rd) && TiesToEven(rd) }

  /** If the wait comes to at most h seconds, h seconds fill the bucket up. */
  ghost predicate Fills(rd: Rounding, p: real, h: int, t: real)
    requires p > 0.0
  {
    RawWait(rd, p, t, 1000.0) <= 1000.0 * h as real ==> 1.0 <= Plus(rd, t, Times(rd, h as real, p))
  }

  /** From whatever level. */
  ghost predicate Enough(rd: Rounding, p: real, h: int)
    requires p > 0.0
  {
    forall t: real :: 0.0 <= t < 1.0 ==> Fills(rd, p, h, t)
  }

  /** A token's worth or more is always enough. */
  lemma EnoughWhole(rd: Rounding, p: real, h: int)
    requires Nearest(rd) && p > 0.0 && 1.0 <= Times(rd, h as real, p)
    ensures Enough(rd, p, h)
  {
    forall t: real | 0.0 <= t < 1.0 ensures Fills(rd, p, h, t) {
      AtLeastOne(rd, t + Times(rd, h as real, p));
    }
  }

  /** Up to half a unit below one rounds to one. */
  lemma AlmostOne(rd: Rounding, x: real)
    requires Standard(rd) && 18014398509481983.0 / 18014398509481984.0 <= x
    ensures 1.0 <= rd(x)
  {
    HalfBelowOne(rd);
    InOrder(rd, 18014398509481983.0 / 18014398509481984.0, x);
  }

  /** What lies past the middle goes to the next number or further. */
  lemma BeyondMiddle(rd: Rounding, x: real, s: real, m: int)
    requires Nearest(rd) && Scale(s) && HALF <= m < FULL && m as real + 0.5 < x * s
    ensures m as real + 1.0 <= rd(x) * s
  {
    ScaleAtLeastOne(s);
    var y := Fraction(m + 1, s);
    GridFloat(m + 1, s, y);
    NearestBound(rd, x, y);
    PastLower(x, rd(x), y, s, m);
    RoundedIsFloat(rd, x);
    GridPast(rd(x), s, m);
  }

  lemma GridPast(z: real, s: real, m: int)
    requires Float(z) && Scale(s) && HALF <= m && m as real < z * s
    ensures m as real + 1.0 <= z * s
  {
    var n := Grid(z, s);
    NextInteger(n, m);
  }

  lemma PastLower(x: real, z: real, y: real, s: real, m: int)
    requires s >= 1.0 && y * s == m as real + 1.0 && Closer(x, z, y) && m as real + 0.5 < x * s
    ensures m as real < z * s
  {
    assert (x - (y - x)) * s == 2.0 * (x * s) - y * s;
    if x <= y {
      MulMono(x - (y - x), z, s);
    } else {
      MulMono(y, z, s);
    }
  }

  /** h is m times 1/s, and 1000 h + 1024/s is a representable number. */
  ghost predicate Spelled(h: int, s: real, m: int) {
    && 1 <= h <= 60 && HALF <= m < FULL && Scale(s) && h as real * s == m as real
    && Float(1000.0 * h as real + 1024.0 / s)
  }

  /** A quotient past the middle above h makes a wait above h seconds. */
  lemma WaitAbove(rd: Rounding, q: real, h: int, s: real, m: int)
    requires Nearest(rd) && Spelled(h, s, m) && m as real + 1.0 <= q * s
    ensures 1000.0 * h as real < Times(rd, q, 1000.0)
  {
    ScaleAtLeastOne(s);
    var x, y := Product(q, 1000.0), 1000.0 * h as real + 1024.0 / s;
    NearestBound(rd, x, y);
    ThousandTimes(q, h as real, s, m as real, x, y);
  }

  lemma ThousandTimes(q: real, h: real, s: real, m: real, x: real, y: real)
    requires s >= 1.0 && h * s == m && m + 1.0 <= q * s && x == q * 1000.0 && y == 1000.0 * h + 1024.0 / s
    ensures 1000.0 * h < y && 1000.0 * h < x - (y - x)
  {
    var u := 1.0 / s;
    assert u * s == 1.0;
    if u <= 0.0 { NotNegativeProduct(-u, s); }
    if q < h + u {
      PositiveProduct(h + u - q, s);
      assert (h + u - q) * s == h * s + u * s - q * s;
    }
  }

  /** A lack that exceeds h seconds' worth by half a unit of h is a wait above h
      seconds. */
  lemma QuotientTold(rd: Rounding, p: real, d: real, h: int, s: real, m: int)
    requires Nearest(rd) && p > 0.0 && Spelled(h, s, m) && (m as real + 0.5) * p < d * s
    ensures 1000.0 * h as real < Times(rd, Over(rd, d, p), 1000.0)
  {
    var u := Quotient(d, p);
    QuotientPast(u, d, p, s, m as real + 0.5);
    BeyondMiddle(rd, u, s, m);
    WaitAbove(rd, Over(rd, d, p), h, s, m);
  }

  lemma QuotientPast(u: real, d: real, p: real, s: real, k: real)
    requires p > 0.0 && u * p == d && k * p < d * s
    ensures k < u * s
  {
    assert d * s == (u * s) * p;
    if u * s <= k { MulMono(u * s, k, p); }
  }

  /** The lack 1 - t lies past the middle above the gain g, which is n times 1/e. */
  lemma LackIsTold(rd: Rounding, p: real, t: real, h: int, s: real, m: int, e: real, n: int)
    requires Nearest(rd) && p > 0.0 && Spelled(h, s, m) && HALF <= n < FULL && Scale(e)
    requires n as real + 0.5 < (1.0 - t) * e && (m as real + 0.5) * p * e < (n as real + 1.0) * s
    ensures 1000.0 * h as real < RawWait(rd, p, t, 1000.0)
  {
    BeyondMiddle(rd, 1.0 - t, e, n);
    ScaleAtLeastOne(s);
    ScaleAtLeastOne(e);
    var d := Minus(rd, 1.0, t);
    LackPast(d, (m as real + 0.5) * p, e, s, n as real + 1.0);
    QuotientTold(rd, p, d, h, s, m);
  }

  lemma LackPast(d: real, k: real, e: real, s: real, n: real)
    requires e >= 1.0 && s >= 1.0 && n <= d * e && k * e < n * s
    ensures k < d * s
  {
    MulMono(n, d * e, s);
    assert (d * e) * s == (d * s) * e;
    if d * s <= k { MulMono(d * s, k, e); }
  }

  /** A level that h seconds leave below one lacks more than the gain and half a unit. */
  lemma Lacks(rd: Rounding, t: real, g: real)
    requires Standard(rd) && Plus(rd, t, g) < 1.0
    ensures 1.0 - t > g + 1.0 / 18014398509481984.0
  {
    if t + g >= 18014398509481983.0 / 18014398509481984.0 { AlmostOne(rd, t + g); }
  }

  /** Enough, when the gain is n times 1/e and exceeds h seconds' worth, with one unit
      more, by half a unit of h. */
  lemma EnoughBy(rd: Rounding, p: real, h: int, s: real, m: int, e: real, n: int)
    requires Standard(rd) && p > 0.0 && Spelled(h, s, m) && HALF <= n < FULL && Scale(e) && e >= 9007199254740992.0
    requires Times(rd, h as real, p) * e == n as real && (m as real + 0.5) * p * e < (n as real + 1.0) * s
    ensures Enough(rd, p, h)
  {
    var g := Times(rd, h as real, p);
    forall t: real | 0.0 <= t < 1.0 ensures Fills(rd, p, h, t) {
      if Plus(rd, t, g) < 1.0 {
        Lacks(rd, t, g);
        PastGain(t, g, e, n as real);
        LackIsTold(rd, p, t, h, s, m, e, n);
      }
    }
  }

  lemma PastGain(t: real, g: real, e: real, n: real)
    requires e >= 9007199254740992.0 && g * e == n && 1.0 - t > g + 1.0 / 18014398509481984.0
    ensures n + 0.5 < (1.0 - t) * e
  {
    PositiveProduct(1.0 - t - g - 1.0 / 18014398509481984.0, e);
    assert (1.0 - t - g - 1.0 / 18014398509481984.0) * e == (1.0 - t) * e - g * e - e / 18014398509481984.0;
  }

  // ---------------------------------------------------------------------
  // Less than a quarter of a token
  // ---------------------------------------------------------------------

  /** Rounding to nearest errs by at most half a unit. */
  lemma CloseHalf(rd: Rounding, x: real, s: real)
    requires Nearest(rd) && Scale(s) && 0.0 <= x && x * s < FULL as real
    ensures -0.5 <= (rd(x) - x) * s <= 0.5
  {
    ScaleAtLeastOne(s);
    NotNegative(x, s);
    var m := (x * s).Floor;
    if x * s - m as real <= 0.5 {
      CloseTo(rd, x, s, m);
    } else {
      CloseTo(rd, x, s, m + 1);
    }
  }

  lemma CloseTo(rd: Rounding, x: real, s: real, m: int)
    requires Nearest(rd) && Scale(s) && 0 <= m <= FULL && -0.5 <= x * s - m as real <= 0.5
    ensures -0.5 <= (rd(x) - x) * s <= 0.5
  {
    ScaleAtLeastOne(s);
    var y := Fraction(m, s);
    GridFloat(m, s, y);
    NearestBound(rd, x, y);
    CloserScaled(x, rd(x), y, s, m as real);
  }

  lemma CloserScaled(x: real, z: real, y: real, s: real, m: real)
    requires s >= 1.0 && y * s == m && Closer(x, z, y) && -0.5 <= x * s - m <= 0.5
    ensures -0.5 <= (z - x) * s <= 0.5
  {
    var b := if x <= y then y - x else x - y;
    assert b * s <= 0.5 by {
      assert (x - y) * s == x * s - m && (y - x) * s == m - x * s;
    }
    HalfScaled(z - x, b, s);
  }

  lemma HalfScaled(v: real, b: real, s: real)
    requires -b <= v <= b && 0.0 <= s && b * s <= 0.5
    ensures -0.5 <= v * s <= 0.5
  {
    MulMono(v, b, s);
    MulMono(-v, b, s);
    assert (-v) * s == -(v * s);
  }

  /** Below a quarter: 2^-56. */
  lemma CloseSmall(rd: Rounding, x: real)
    requires Nearest(rd) && 0.0 <= x < 0.25
    ensures x - 1.0 / 72057594037927936.0 <= rd(x) <= x + 1.0 / 72057594037927936.0
  {
    FineScale();
    CloseHalf(rd, x, 36028797018963968.0);
  }

  /** The lack that is left exceeds the exact gain by 2^-55. */
  lemma SmallLack(rd: Rounding, p: real, h: real, t: real)
    requires Standard(rd) && 0.0 <= Product(h, p) <= 0.2499 && Plus(rd, t, Times(rd, h, p)) < 1.0
    ensures Minus(rd, 1.0, t) >= Product(h, p) + 1.0 / 36028797018963968.0
  {
    var g := Times(rd, h, p);
    CloseSmall(rd, Product(h, p));
    NotNegativeRounded(rd, Product(h, p));
    Lacks(rd, t, g);
    var x := g + 1.0 / 18014398509481984.0;
    CloseSmall(rd, x);
    InOrder(rd, x, 1.0 - t);
  }

  lemma EnoughSmall(rd: Rounding, p: real, h: int, s: real, m: int)
    requires Standard(rd) && p > 0.0 && Spelled(h, s, m) && Product(h as real, p) <= 0.2499
    ensures Enough(rd, p, h)
  {
    NotNegativeProduct(h as real, p);
    forall t: real | 0.0 <= t < 1.0 ensures Fills(rd, p, h, t) {
      if Plus(rd, t, Times(rd, h as real, p)) < 1.0 {
        SmallLack(rd, p, h as real, t);
        SmallPast(Minus(rd, 1.0, t), h as real, p, s, m as real);
        QuotientTold(rd, p, Minus(rd, 1.0, t), h, s, m);
      }
    }
  }

  /** 2^55. */
  lemma FineScale()
    ensures Scale(36028797018963968.0)
  {
    SmallScales();
    assert Pow(1) == 2.0;
    ScaleProduct(65536.0, 4294967296.0);
    ScaleProduct(281474976710656.0, 16.0);
    ScaleProduct(4503599627370496.0, 2.0);
    ScaleProduct(9007199254740992.0, 2.0);
    ScaleProduct(18014398509481984.0, 2.0);
  }

  lemma SmallPast(d: real, h: real, p: real, s: real, m: real)
    requires p > 0.0 && h * s == m && m >= HALF as real && h > 0.0 && h * p <= 0.2499
    requires d >= h * p + 1.0 / 36028797018963968.0
    ensures (m + 0.5) * p < d * s
  {
    var u := 1.0 / 36028797018963968.0;
    if s <= 0.0 { NotNegativeProduct(h, -s); }
    MulMono(h * p + u, d, s);
    assert (h * p + u) * s == m * p + u * s;
    MulMono(HALF as real, m, p);
    assert h * (u * s) == u * m;
    MoreThanHalf(h, p, s, m, u);
  }

  lemma MoreThanHalf(h: real, p: real, s: real, m: real, u: real)
    requires h > 0.0 && h * s == m && m >= HALF as real && h * p <= 0.2499 && u == 1.0 / 36028797018963968.0
    ensures 0.5 * p < u * s
  {
    assert h * (u * s - 0.5 * p) == u * m - 0.5 * (h * p);
    if u * s - 0.5 * p <= 0.0 { NotNegativeProduct(h, 0.5 * p - u * s); }
  }

  // ---------------------------------------------------------------------
  // Between a quarter of a token and a token: checked on integers
  // ---------------------------------------------------------------------

  /** 2^52. */
  const TOP: int := 4503599627370496

  predicate Lead(h: int, lead: int) {
    (lead == 1 || lead == 2 || lead == 4 || lead == 8 || lead == 16 || lead == 32) && lead <= h < 2 * lead
  }

  lemma LowScales()
    ensures Scale(137438953472.0) && Scale(274877906944.0) && Scale(549755813888.0) && Scale(1099511627776.0) && Scale(2199023255552.0) && Scale(4398046511104.0)
  {
    SmallScales();
    assert Pow(1) == 2.0;
    ScaleProduct(4294967296.0, 16.0);
    ScaleProduct(68719476736.0, 2.0);
    ScaleProduct(137438953472.0, 2.0);
    ScaleProduct(274877906944.0, 2.0);
    ScaleProduct(549755813888.0, 2.0);
    ScaleProduct(1099511627776.0, 2.0);
    ScaleProduct(2199023255552.0, 2.0);
  }

  lemma HighScales()
    ensures Scale(140737488355328.0) && Scale(281474976710656.0) && Scale(562949953421312.0) && Scale(1125899906842624.0) && Scale(2251799813685248.0) && Scale(4503599627370496.0)
  {
    LowScales();
    SmallScales();
    assert Pow(1) == 2.0;
    ScaleProduct(4398046511104.0, 16.0);
    ScaleProduct(70368744177664.0, 2.0);
    ScaleProduct(140737488355328.0, 2.0);
    ScaleProduct(281474976710656.0, 2.0);
    ScaleProduct(562949953421312.0, 2.0);
    ScaleProduct(1125899906842624.0, 2.0);
    ScaleProduct(2251799813685248.0, 2.0);
  }

  lemma LeadScales(h: int, lead: int) returns (s: real, k: real)
    requires Lead(h, lead)
    ensures Scale(s) && Scale(k) && s * lead as real == TOP as real && s == 1024.0 * k
  {
    LowScales();
    HighScales();
    match lead
    case 1 => s, k := 4503599627370496.0, 4398046511104.0;
    case 2 => s, k := 2251799813685248.0, 2199023255552.0;
    case 4 => s, k := 1125899906842624.0, 1099511627776.0;
    case 8 => s, k := 562949953421312.0, 549755813888.0;
    case 16 => s, k := 281474976710656.0, 274877906944.0;
    case 32 => s, k := 140737488355328.0, 137438953472.0;
  }

  lemma SpelledBy(h: int, lead: int) returns (s: real, m: int)
    requires Lead(h, lead) && h <= 60
    ensures Spelled(h, s, m) && s * lead as real == TOP as real
  {
    var t, k := LeadScales(h, lead);
    var n := ScaleWhole(k);
    ScaleAtLeastOne(k);
    WholeLead(n, k, lead);
    TopBounds(h, lead, n);
    s, m := t, 1024 * (h * n);
    Spell(h, n, k, s);
  }

  lemma WholeLead(n: int, k: real, lead: int)
    requires k == n as real && 1024.0 * k * lead as real == TOP as real
    ensures n * lead == TOP / 1024
  {
    ProductReal(n, lead);
  }

  lemma Spell(h: int, n: int, k: real, s: real)
    requires 1 <= h <= 60 && Scale(k) && Scale(s) && k == n as real && s == 1024.0 * k && k >= 1.0
    requires TOP / 1024 <= h * n < TOP / 512
    ensures Spelled(h, s, 1024 * (h * n))
  {
    ProductReal(h, n);
    assert 1024.0 / s * k == 1.0;
    ThousandFloat(h, n, k, 1024.0 / s);
  }

  lemma TopBounds(h: int, lead: int, n: int)
    requires lead <= h < 2 * lead && n * lead == TOP / 1024 && n >= 1
    ensures TOP / 1024 <= h * n < TOP / 512
  {
    MulMonotone(n, lead, h);
    MulMonotone(n, h + 1, 2 * lead);
  }

  lemma ThousandFloat(h: int, n: int, k: real, u: real)
    requires Scale(k) && k == n as real && u * k == 1.0 && 0 <= h * n < TOP / 512
    ensures Float(1000.0 * h as real + u)
  {
    ProductReal(h, n);
    assert (1000.0 * h as real + u) * k == 1000.0 * (h as real * k) + u * k;
    GridFloat(1000 * (h * n) + 1, k, 1000.0 * h as real + u);
  }

  /** num/den units, exactly between two numbers, go to the even one. */
  ghost predicate Tied(num: int, den: int, result: Num) {
    && 0 < den && Grain(result.grain) && HALF < result.count <= FULL && result.count % 2 == 0
    && ((2 * (num - result.Units() * den) == result.grain * den && result.count < FULL)
        || 2 * (result.Units() * den - num) == result.grain * den)
  }

  lemma TiedIs(rd: Rounding, x: real, num: int, den: int, result: Num)
    requires Standard(rd) && Tied(num, den, result) && x * UNIT as real * den as real == num as real
    ensures rd(x) * UNIT as real == result.Units() as real
  {
    var s: real :| Scale(s) && s * result.grain as real == UNIT as real;
    ProductReal(result.count, result.grain);
    HalfGrains(x, s, UNIT as real, result.grain as real, den as real, num as real, result.count as real);
    var m := if x * s == result.count as real + 0.5 then result.count else result.count - 1;
    assert Halfway(x, s, m);
    assert EvenTo(x, rd(x));
    assert rd(x) * (s * result.grain as real) == (rd(x) * s) * result.grain as real;
  }

  lemma HalfGrains(x: real, s: real, unit: real, grain: real, den: real, num: real, count: real)
    requires 1.0 <= grain && 1.0 <= den && s * grain == unit && x * unit * den == num
    requires 2.0 * (num - count * grain * den) == grain * den || 2.0 * (count * grain * den - num) == grain * den
    ensures x * s == count + 0.5 || x * s == count - 0.5
  {
    MulMono(1.0, grain, den);
    Regroup(x, s, grain, den);
    var y, g := x * s, grain * den;
    assert count * grain * den == count * g;
    if 2.0 * (num - count * grain * den) == grain * den {
      assert (count + 0.5) * g == count * g + 0.5 * g;
      CancelScale(y, count + 0.5, g);
    } else {
      assert (count - 0.5) * g == count * g - 0.5 * g;
      CancelScale(y, count - 0.5, g);
    }
  }

  /** h seconds gain `gain` units, `cell.count` cells, and one cell more exceeds h seconds'
      worth by half a unit of h. */
  ghost predicate Covers(rate: int, h: int, lead: int, gain: Num, cell: Num) {
    && 1 <= h <= 60 && Lead(h, lead) && (Rounded(h * rate, 1, gain) || Tied(h * rate, 1, gain))
    && cell.Units() == gain.Units() && HALF <= cell.count < FULL && (cell.grain == 65536 || cell.grain == 131072)
    && (2 * h * TOP + lead) * rate < 2 * TOP * (cell.Units() + cell.grain)
  }

  lemma GainIs(rd: Rounding, p: real, rate: int, h: int, gain: Num)
    requires Standard(rd) && Is(p, rate) && (Rounded(h * rate, 1, gain) || Tied(h * rate, 1, gain))
    ensures Is(Times(rd, h as real, p), gain.Units())
  {
    ProductReal(h, rate);
    assert Product(h as real, p) * UNIT as real * 1.0 == (h * rate) as real;
    if Rounded(h * rate, 1, gain) {
      RoundedIs(rd, Product(h as real, p), h * rate, 1, gain);
    } else {
      TiedIs(rd, Product(h as real, p), h * rate, 1, gain);
    }
  }

  lemma CoversEnough(rd: Rounding, p: real, rate: int, h: int, lead: int, gain: Num, cell: Num)
    requires Standard(rd) && p > 0.0 && Is(p, rate) && Covers(rate, h, lead, gain, cell)
    ensures Enough(rd, p, h)
  {
    GainIs(rd, p, rate, h, gain);
    var s, m := SpelledBy(h, lead);
    var e := CellScale(cell.grain);
    ProductReal(cell.count, cell.grain);
    InCells(Times(rd, h as real, p), e, UNIT as real, cell.grain as real, cell.count as real);
    CoversReal(p, h, s, m, e, lead, rate, cell);
    EnoughBy(rd, p, h, s, m, e, cell.count);
  }

  lemma CellScale(grain: int) returns (e: real)
    requires grain == 65536 || grain == 131072
    ensures Scale(e) && e >= 9007199254740992.0 && e * grain as real == UNIT as real
  {
    FineScale();
    HighScales();
    assert Pow(1) == 2.0;
    ScaleProduct(4503599627370496.0, 2.0);
    ScaleProduct(9007199254740992.0, 2.0);
    e := if grain == 65536 then 18014398509481984.0 else 9007199254740992.0;
  }

  lemma InCells(g: real, e: real, unit: real, grain: real, count: real)
    requires e * grain == unit && g * unit == count * grain && grain >= 1.0
    ensures g * e == count
  {
    assert g * unit == (g * e) * grain;
    CancelScale(g * e, count, grain);
  }

  lemma CoversReal(p: real, h: int, s: real, m: int, e: real, lead: int, rate: int, cell: Num)
    requires Is(p, rate) && h as real * s == m as real && s * lead as real == TOP as real && s >= 1.0 && lead >= 1
    requires e * cell.grain as real == UNIT as real && cell.grain >= 1 && e >= 1.0
    requires (2 * h * TOP + lead) * rate < 2 * TOP * (cell.Units() + cell.grain)
    ensures (m as real + 0.5) * p * e < (cell.count as real + 1.0) * s
  {
    ProductReal(2 * h * TOP + lead, rate);
    ProductReal(cell.count, cell.grain);
    CoversScaled(p, h as real, s, m as real, e, lead as real, rate as real, cell.grain as real, cell.count as real,
                 TOP as real, UNIT as real);
  }

  lemma CoversScaled(p: real, h: real, s: real, m: real, e: real, lead: real, rate: real, grain: real, count: real,
                     top: real, unit: real)
    requires p * unit == rate && h * s == m && s * lead == top && e * grain == unit && s >= 1.0 && lead >= 1.0 && grain >= 1.0
    requires (2.0 * h * top + lead) * rate < 2.0 * top * (count * grain + grain)
    ensures (m + 0.5) * p * e < (count + 1.0) * s
  {
    var x, y := (m + 0.5) * p * e, (count + 1.0) * s;
    var f := 2.0 * lead * grain;
    assert 2.0 * h * top + lead == lead * (2.0 * m + 1.0);
    assert rate == p * e * grain;
    assert lead * (2.0 * m + 1.0) * (p * e * grain) == x * f;
    assert 2.0 * top * (count * grain + grain) == y * f;
    PositiveProduct(lead, grain);
    if x >= y { MulMono(y, x, f); }
  }

  // ---------------------------------------------------------------------
  // Headers that are powers of two
  // ---------------------------------------------------------------------

  predicate Power(h: int) { h == 1 || h == 2 || h == 4 || h == 8 || h == 16 || h == 32 }

  lemma {:induction false} PowerFloat(p: real, h: int)
    requires Float(p) && Power(h)
    ensures Float(Product(h as real, p))
    decreases h
  {
    if h == 1 {
      assert Product(1.0, p) == p;
    } else {
      PowerFloat(p, h / 2);
      Doubled(Product((h / 2) as real, p));
      assert Product(h as real, p) == 2.0 * Product((h / 2) as real, p);
    }
  }

  lemma GainCells(g: real) returns (e: real, n: int)
    requires Float(g) && 0.25 <= g < 1.0
    ensures Scale(e) && e >= 9007199254740992.0 && HALF <= n < FULL && g * e == n as real
  {
    e := CellScale(if g < 0.5 then 65536 else 131072);
    if g == 0.25 || g == 0.5 {
      n := HALF;
    } else {
      n := Grid(g, e);
    }
  }

  lemma PowerCovered(p: real, h: real, s: real, e: real, n: real, top: real)
    requires h >= 1.0 && h * s == top && (h * p) * e == n && n < 2.0 * top && s >= 1.0
    ensures (top + 0.5) * p * e < (n + 1.0) * s
  {
    var x, y := (top + 0.5) * p * e, (n + 1.0) * s;
    assert x * h == (top + 0.5) * n;
    assert y * h == (n + 1.0) * top;
    if x >= y { MulMono(y, x, h); }
  }

  lemma EnoughPower(rd: Rounding, p: real, h: int)
    requires Standard(rd) && p > 0.0 && Float(p) && Power(h) && 0.25 <= Product(h as real, p)
    ensures Enough(rd, p, h)
  {
    var g := Product(h as real, p);
    PowerFloat(p, h);
    Fixed(rd, g);
    if g >= 1.0 {
      EnoughWhole(rd, p, h);
    } else {
      var s, m := SpelledBy(h, h);
      var e, n := GainCells(g);
      PowerCovered(p, h as real, s, e, n as real, TOP as real);
      EnoughBy(rd, p, h, s, m, e, n);
    }
  }

  /** A token's worth up to half a unit. */
  lemma WholeEnough(rd: Rounding, p: real, rate: int, h: int)
    requires Standard(rd) && p > 0.0 && Is(p, rate) && UNIT - 0x1_0000 <= h * rate
    ensures Enough(rd, p, h)
  {
    ProductReal(h, rate);
    assert (h as real * p) * UNIT as real == (h * rate) as real;
    AlmostOne(rd, Product(h as real, p));
    EnoughWhole(rd, p, h);
  }

  /** From a quarter of a token up to a token, other than powers of two. */
  ghost predicate Middle(rd: Rounding, p: real, rpm: int)
    requires p > 0.0
  {
    forall h: int :: 15 <= h * rpm <= 60 && !Power(h) ==> Enough(rd, p, h)
  }

  lemma QuarterGain(rd: Rounding, rpm: int, h: int)
    requires Nearest(rd) && 0 < rpm < 60 && Power(h) && 15 <= h * rpm
    ensures 0.25 <= Product(h as real, PerSecond(rd, rpm))
  {
    FixedInteger(rd, rpm);
    CloseToOne(rd, rpm as real / 60.0);
    ProductReal(h, rpm);
    if h * rpm == 15 {
      SmallScales();
      GridFloat(4, 16.0, 0.25);
      Fixed(rd, 0.25);
    } else {
      SixteenGain(PerSecond(rd, rpm), rpm as real, h as real);
    }
  }

  lemma SixteenGain(p: real, rpm: real, h: real)
    requires 1.0 <= h <= 32.0 && 16.0 <= h * rpm && rpm / 60.0 - 0.00000000000000023 <= p
    ensures 0.25 <= Product(h, p)
  {
    var c := 0.00000000000000023;
    NotNegativeProduct(60.0 * p - rpm + 60.0 * c, h);
    assert (60.0 * p - rpm + 60.0 * c) * h == 60.0 * Product(h, p) - h * rpm + 60.0 * c * h;
  }

  lemma SomeLead(h: int) returns (lead: int)
    requires 1 <= h <= 60
    ensures Lead(h, lead)
  {
    lead := if h < 2 then 1 else if h < 4 then 2 else if h < 8 then 4 else if h < 16 then 8 else if h < 32 then 16 else 32;
  }

  lemma RateIs(rd: Rounding, rpm: int, rate: Num)
    requires Nearest(rd) && 0 < rpm < 60 && Rounded(rpm * UNIT, 60, rate)
    ensures Is(PerSecond(rd, rpm), rate.Units())
  {
    FixedInteger(rd, rpm);
    ProductReal(rpm, UNIT);
    RoundedIs(rd, rpm as real / 60.0, rpm * UNIT, 60, rate);
  }

  /** At a checked rate every header is enough. */
  lemma AllEnough(rd: Rounding, p: real, rpm: int, h: int)
    requires Standard(rd) && 0 < rpm < 60 && p == PerSecond(rd, rpm) && p > 0.0 && 1 <= h && Middle(rd, p, rpm)
    ensures Enough(rd, p, h)
  {
    FixedInteger(rd, rpm);
    CloseToOne(rd, rpm as real / 60.0);
    if 15 <= h * rpm && Power(h) {
      RoundedIsFloat(rd, rd(rpm as real) / 60.0);
      QuarterGain(rd, rpm, h);
      EnoughPower(rd, p, h);
    } else if 15 <= h * rpm <= 60 {
      assert Enough(rd, p, h);
    } else if h * rpm < 15 {
      MulMonotone(h, 1, rpm);
      SmallGain(p, rpm, h);
      var lead := SomeLead(h);
      var s, m := SpelledBy(h, lead);
      EnoughSmall(rd, p, h, s, m);
    } else {
      LargeGain(p, rpm, h);
      AtLeastOne(rd, Product(h as real, p));
      EnoughWhole(rd, p, h);
    }
  }

  lemma SmallGain(p: real, rpm: int, h: int)
    requires 0 < rpm && 1 <= h <= 14 && h * rpm <= 14 && p <= rpm as real / 60.0 + 0.00000000000000023
    ensures Product(h as real, p) <= 0.2499
  {
    ProductReal(h, rpm);
    MulMono(p, rpm as real / 60.0 + 0.00000000000000023, h as real);
    assert (rpm as real / 60.0 + 0.00000000000000023) * h as real
        == (h as real * rpm as real) / 60.0 + 0.00000000000000023 * h as real;
  }

  lemma LargeGain(p: real, rpm: int, h: int)
    requires 0 < rpm && 1 <= h && 61 <= h * rpm && rpm as real / 60.0 - 0.00000000000000023 <= p && 0.016 <= p
    ensures 1.0 <= Product(h as real, p)
  {
    ProductReal(h, rpm);
    MulMono(rpm as real - 0.000000000000014, 60.0 * p, h as real);
    MulMono(1.0, rpm as real, h as real);
    assert (rpm as real - 0.000000000000014) * h as real == h as real * rpm as real - 0.000000000000014 * h as real;
  }
}
