/** Binary floating point with 53 significant bits, as a rounding of exact results:
    every operation rounds its exact result to a nearest representable number. The
    rule for ties is left open unless said otherwise. Overflow and underflow are not
    modelled. */
module Float64 {

  /** 2 to the 52nd and 53rd. */
  const HALF: int := 4503599627370496
  const FULL: int := 9007199254740992

  function Pow(k: nat): (p: real)
    ensures p >= 1.0
  {
    if k == 0 then 1.0 else 2.0 * Pow(k - 1)
  }

  /** A power of two that is at least one. */
  ghost predicate Scale(s: real) {
    exists k: nat :: Pow(k) == s
  }

  /** y is m times a power of two, up or down. */
  ghost predicate FloatAs(y: real, m: int, up: real, down: real) {
    -FULL <= m <= FULL && Scale(up) && Scale(down) && y * down == m as real * up
  }

  ghost predicate Float(y: real) {
    exists m: int, up: real, down: real :: FloatAs(y, m, up, down)
  }

  type Rounding = real -> real

  ghost predicate Closer(x: real, z: real, y: real) {
    // |x - z| <= |x - y|, without absolute values
    (x <= y ==> x - (y - x) <= z <= y) && (y <= x ==> y <= z <= x + (x - y))
  }

  ghost predicate NearestTo(rd: Rounding, x: real) {
    Float(rd(x)) && forall y: real :: Float(y) ==> Closer(x, rd(x), y)
  }

  /** A rounding to a nearest representable number. */
  ghost predicate Nearest(rd: Rounding) {
    forall x: real :: NearestTo(rd, x)
  }

  /** x is halfway between two neighbours that are m and m + 1 times 1/s. */
  ghost predicate Halfway(x: real, s: real, m: int) {
    Scale(s) && HALF <= m < FULL && x * s == m as real + 0.5
  }

  ghost predicate EvenTo(x: real, y: real) {
    forall s: real, m: int :: Halfway(x, s, m) ==> y * s == (m + m % 2) as real
  }

  /** Ties go to the even neighbour; said of numbers below 2^53. */
  ghost predicate TiesToEven(rd: Rounding) {
    forall x: real :: EvenTo(x, rd(x))
  }

  /** The four operations. */
  function Plus(rd: Rounding, a: real, b: real): real { rd(a + b) }

  function Minus(rd: Rounding, a: real, b: real): real { rd(a - b) }

  function Times(rd: Rounding, a: real, b: real): real { rd(Product(a, b)) }

  function Over(rd: Rounding, a: real, b: real): real
    requires b > 0.0
  {
    rd(Quotient(a, b))
  }

  /** The exact product and quotient, before rounding. */
  function Product(a: real, b: real): real { a * b }

  function Quotient(a: real, b: real): (u: real)
    requires b > 0.0
    ensures u * b == a
  {
    a / b
  }

  lemma NearestBound(rd: Rounding, x: real, y: real)
    requires Nearest(rd) && Float(y)
    ensures Closer(x, rd(x), y)
  {
    assert NearestTo(rd, x);
  }

  lemma RoundedIsFloat(rd: Rounding, x: real)
    requires Nearest(rd)
    ensures Float(rd(x))
  {
    assert NearestTo(rd, x);
  }

  /** Representable numbers are left alone. */
  lemma Fixed(rd: Rounding, y: real)
    requires Nearest(rd) && Float(y)
    ensures rd(y) == y
  {
    NearestBound(rd, y, y);
  }

  /** And bound what is rounded: rounding never crosses one. */
  lemma AtLeast(rd: Rounding, x: real, y: real)
    requires Nearest(rd) && Float(y) && y <= x
    ensures y <= rd(x)
  {
    NearestBound(rd, x, y);
  }

  lemma AtMost(rd: Rounding, x: real, y: real)
    requires Nearest(rd) && Float(y) && x <= y
    ensures rd(x) <= y
  {
    NearestBound(rd, x, y);
  }

  /** Rounding keeps order. */
  lemma InOrder(rd: Rounding, x: real, y: real)
    requires Nearest(rd) && x <= y
    ensures rd(x) <= rd(y)
  {
    RoundedIsFloat(rd, x);
    RoundedIsFloat(rd, y);
    NearestBound(rd, x, rd(y));
    NearestBound(rd, y, rd(x));
  }

  lemma ScaleOne()
    ensures Scale(1.0)
  {
    assert Pow(0) == 1.0;
  }

  lemma ScaleAtLeastOne(s: real)
    requires Scale(s)
    ensures s >= 1.0
  {
  }

  lemma FloatWitness(y: real, m: int, up: real, down: real)
    requires FloatAs(y, m, up, down)
    ensures Float(y)
  {
  }

  /** Fractions with a power of two below. */
  lemma GridFloat(m: int, s: real, y: real)
    requires -FULL <= m <= FULL && Scale(s) && y * s == m as real
    ensures Float(y)
  {
    ScaleOne();
    FloatWitness(y, m, 1.0, s);
  }

  lemma IntegerFloat(n: int)
    requires -FULL <= n <= FULL
    ensures Float(n as real)
  {
    ScaleOne();
    GridFloat(n, 1.0, n as real);
  }

  lemma FixedInteger(rd: Rounding, n: int)
    requires Nearest(rd) && -FULL <= n <= FULL
    ensures rd(n as real) == n as real
  {
    IntegerFloat(n);
    Fixed(rd, n as real);
  }

  /** The point of the grid 1/s at or below x. */
  function Below(x: real, s: real): (y: real)
    requires s >= 1.0
    ensures y * s == (x * s).Floor as real && y <= x
    ensures x * s - 1.0 < y * s
  {
    var y := (x * s).Floor as real / s;
    assert y * s == (x * s).Floor as real;
    NotAbove(y, x, s);
    y
  }

  lemma NotAbove(y: real, x: real, s: real)
    requires s >= 1.0 && y * s <= x * s
    ensures y <= x
  {
    assert (y - x) * s == y * s - x * s;
    if y > x { PositiveProduct(y - x, s); }
  }

  lemma PositiveProduct(a: real, b: real)
    requires 0.0 < a && 0.0 < b
    ensures 0.0 < a * b
  {
  }

  /** The error in units of the last place: up to 2^53/s it is at most 1/s. */
  lemma Close(rd: Rounding, x: real, s: real)
    requires Nearest(rd) && Scale(s) && 0.0 <= x && x * s <= FULL as real
    ensures -1.0 <= (rd(x) - x) * s <= 1.0
  {
    ScaleAtLeastOne(s);
    var y := Below(x, s);
    NotNegative(x, s);
    GridFloat((x * s).Floor, s, y);
    NearestBound(rd, x, y);
    CloseBy(x, rd(x), y, s);
  }

  lemma NotNegative(x: real, s: real)
    requires 0.0 <= x && 1.0 <= s
    ensures 0.0 <= x * s
  {
  }

  lemma CloseBy(x: real, z: real, y: real, s: real)
    requires s >= 1.0 && y <= x && x * s - 1.0 < y * s && y <= z <= x + (x - y)
    ensures -1.0 <= (z - x) * s <= 1.0
  {
    MulMono(y - x, z - x, s);
    MulMono(z - x, x - y, s);
    assert (x - y) * s == x * s - y * s;
    assert (y - x) * s == y * s - x * s;
  }

  lemma MulMono(a: real, b: real, s: real)
    requires a <= b && 0.0 <= s
    ensures a * s <= b * s
  {
    NotNegativeProduct(b - a, s);
    assert (b - a) * s == b * s - a * s;
  }

  lemma NotNegativeProduct(a: real, b: real)
    requires 0.0 <= a && 0.0 <= b
    ensures 0.0 <= a * b
  {
  }
  // ---------------------------------------------------------------------
  // Exact results
  // ---------------------------------------------------------------------

  lemma {:induction false} PowAdd(a: nat, b: nat)
    ensures Pow(a + b) == Pow(a) * Pow(b)
  {
    if a > 0 { PowAdd(a - 1, b); }
  }

  lemma ScaleOf(k: nat)
    ensures Scale(Pow(k))
  {
  }

  lemma Exponent(s: real) returns (k: nat)
    requires Scale(s)
    ensures Pow(k) == s
  {
    k :| Pow(k) == s;
  }

  lemma PowAboveOne(k: nat)
    requires k > 0
    ensures Pow(k) >= 2.0
  {
  }

  lemma PowSum(i: nat, j: nat, a: real, b: real)
    requires Pow(i) == a && Pow(j) == b
    ensures Pow(i + j) == a * b
  {
    PowAdd(i, j);
  }

  lemma ScaleProduct(a: real, b: real)
    requires Scale(a) && Scale(b)
    ensures Scale(a * b)
  {
    var i := Exponent(a);
    var j := Exponent(b);
    PowSum(i, j, a, b);
    ScaleOf(i + j);
  }

  ghost predicate Multiple(a: real, b: real, c: real) { a == b * c }

  lemma PowMultiple(i: nat, j: nat, a: real, b: real) returns (c: real)
    requires Pow(i) == a && Pow(j) == b && i <= j
    ensures Scale(c) && Multiple(b, a, c) && (i < j ==> c >= 2.0)
  {
    c := Pow(j - i);
    ScaleOf(j - i);
    PowSum(i, j - i, a, c);
    if i < j { PowAboveOne(j - i); }
  }

  /** Of two powers of two one divides the other. */
  lemma ScaleDivides(a: real, b: real) returns (c: real)
    requires Scale(a) && Scale(b)
    ensures Scale(c) && (Multiple(a, b, c) || (Multiple(b, a, c) && c >= 2.0))
  {
    var i := Exponent(a);
    var j := Exponent(b);
    if i < j {
      c := PowMultiple(i, j, a, b);
    } else {
      c := PowMultiple(j, i, b, a);
    }
  }

  lemma {:induction false} PowWhole(k: nat) returns (n: int)
    ensures n as real == Pow(k)
  {
    if k == 0 {
      n := 1;
    } else {
      n := PowWhole(k - 1);
      n := 2 * n;
    }
  }

  lemma ProductReal(m: int, n: int)
    ensures m as real * n as real == (m * n) as real
  {
  }

  lemma ScaleWhole(c: real) returns (n: int)
    requires Scale(c)
    ensures n as real == c
  {
    var k := Exponent(c);
    n := PowWhole(k);
  }

  /** Above 2^52/s representable numbers are multiples of 1/s. */
  lemma Grid(z: real, s: real) returns (n: int)
    requires Float(z) && Scale(s) && z * s > HALF as real
    ensures z * s == n as real
  {
    var m: int, up: real, down: real :| FloatAs(z, m, up, down);
    ScaleProduct(up, s);
    var c := ScaleDivides(up * s, down);
    ScaleAtLeastOne(up);
    ScaleAtLeastOne(down);
    var k := ScaleWhole(c);
    n := GridBy(z, s, m, up, down, c, k);
  }

  lemma GridBy(z: real, s: real, m: int, up: real, down: real, c: real, k: int) returns (n: int)
    requires z * down == m as real * up && m <= FULL && up >= 1.0 && down >= 1.0 && z * s > HALF as real
    requires c == k as real && (Multiple(up * s, down, c) || (Multiple(down, up * s, c) && c >= 2.0))
    ensures z * s == n as real
  {
    n := m * k;
    ProductReal(m, k);
    if Multiple(up * s, down, c) {
      CoarseGrid(z, m as real, s, up, down, c);
    } else {
      FineGrid(z, m, s, up, down, c);
    }
  }

  lemma CoarseGrid(z: real, m: real, s: real, up: real, down: real, c: real)
    requires z * down == m * up && up * s == down * c && down >= 1.0
    ensures z * s == m * c
  {
    assert (z * s) * down == (z * down) * s;
    assert (m * c) * down == m * (down * c);
    assert m * (up * s) == (m * up) * s;
    CancelScale(z * s, m * c, down);
  }

  lemma FineGrid(z: real, m: int, s: real, up: real, down: real, c: real)
    requires z * down == m as real * up && down == up * s * c && up >= 1.0 && c >= 2.0 && m <= FULL && z * s > 0.0
    ensures z * s <= HALF as real
  {
    assert z * (up * s * c) == ((z * s) * c) * up;
    CancelScale((z * s) * c, m as real, up);
    MulMono(2.0, c, z * s);
  }

  lemma CancelScale(a: real, b: real, s: real)
    requires a * s == b * s && s >= 1.0
    ensures a == b
  {
    NotAbove(a, b, s);
    NotAbove(b, a, s);
  }

  /** A result strictly within half a unit of a 53-bit number rounds to it. */
  lemma RoundsTo(rd: Rounding, x: real, s: real, m: int)
    requires Nearest(rd) && Scale(s) && HALF < m <= FULL && m as real - 0.5 < x * s < m as real + 0.5
    ensures rd(x) * s == m as real
  {
    ScaleAtLeastOne(s);
    Settles(rd, x, s, m, Fraction(m, s));
  }

  function Fraction(m: int, s: real): (y: real)
    requires s >= 1.0
    ensures y * s == m as real
  {
    m as real / s
  }

  lemma Settles(rd: Rounding, x: real, s: real, m: int, y: real)
    requires Nearest(rd) && Scale(s) && s >= 1.0 && HALF < m <= FULL && m as real - 0.5 < x * s < m as real + 0.5
    requires y * s == m as real
    ensures rd(x) * s == m as real
  {
    GridFloat(m, s, y);
    NearestBound(rd, x, y);
    NearGrid(x, y, rd(x), s, m);
    RoundedIsFloat(rd, x);
    OnGrid(rd(x), s, m);
  }

  lemma OnGrid(z: real, s: real, m: int)
    requires Float(z) && Scale(s) && HALF < m && m as real - 1.0 < z * s < m as real + 1.0
    ensures z * s == m as real
  {
    var n := Grid(z, s);
    SameInteger(n, m);
  }

  lemma SameInteger(n: int, m: int)
    requires m as real - 1.0 < n as real < m as real + 1.0
    ensures n == m
  {
  }

  lemma NearGrid(x: real, y: real, z: real, s: real, m: int)
    requires s >= 1.0 && y * s == m as real && Closer(x, z, y) && m as real - 0.5 < x * s < m as real + 0.5
    ensures m as real - 1.0 < z * s < m as real + 1.0
  {
    assert (x - (y - x)) * s == 2.0 * (x * s) - y * s;
    if x <= y {
      MulMono(x - (y - x), z, s);
      MulMono(z, y, s);
    } else {
      MulMono(y, z, s);
      MulMono(z, x - (y - x), s);
    }
  }

  // ---------------------------------------------------------------------
  // Error bounds for numbers up to a given size
  // ---------------------------------------------------------------------

  lemma SmallScales()
    ensures Scale(16.0) && Scale(256.0) && Scale(65536.0) && Scale(4294967296.0)
  {
    assert Pow(1) == 2.0;
    assert Pow(2) == 4.0;
    assert Pow(4) == 16.0 by { PowSum(2, 2, 4.0, 4.0); }
    ScaleOf(4);
    ScaleProduct(16.0, 16.0);
    ScaleProduct(256.0, 256.0);
    ScaleProduct(65536.0, 65536.0);
  }

  lemma CloseWithin(rd: Rounding, x: real, bound: real, s: real, error: real)
    requires Nearest(rd) && Scale(s) && 0.0 <= x <= bound && bound * s <= FULL as real && 1.0 <= error * s
    ensures x - error <= rd(x) <= x + error
  {
    ScaleAtLeastOne(s);
    MulMono(x, bound, s);
    Close(rd, x, s);
    Unscale(rd(x) - x, error, s);
  }

  lemma Unscale(d: real, error: real, s: real)
    requires s >= 1.0 && -1.0 <= d * s <= 1.0 && 1.0 <= error * s
    ensures -error <= d <= error
  {
    NotAbove(d, error, s);
    assert (-error) * s == -(error * s);
    NotAbove(-error, d, s);
  }

  /** Up to 1: 2^-52. */
  lemma CloseToOne(rd: Rounding, x: real)
    requires Nearest(rd) && 0.0 <= x <= 1.0
    ensures x - 0.00000000000000023 <= rd(x) <= x + 0.00000000000000023
  {
    SmallScales();
    ScaleProduct(65536.0, 4294967296.0);
    ScaleProduct(281474976710656.0, 16.0);
    CloseWithin(rd, x, 1.0, 4503599627370496.0, 0.00000000000000023);
  }

  /** Up to 16: 2^-48. */
  lemma CloseToTen(rd: Rounding, x: real)
    requires Nearest(rd) && 0.0 <= x <= 16.0
    ensures x - 0.0000000000000036 <= rd(x) <= x + 0.0000000000000036
  {
    SmallScales();
    ScaleProduct(65536.0, 4294967296.0);
    CloseWithin(rd, x, 16.0, 281474976710656.0, 0.0000000000000036);
  }

  /** Up to 512: 2^-44. */
  lemma CloseToHundreds(rd: Rounding, x: real)
    requires Nearest(rd) && 0.0 <= x <= 512.0
    ensures x - 0.00000000000006 <= rd(x) <= x + 0.00000000000006
  {
    SmallScales();
    ScaleProduct(256.0, 16.0);
    ScaleProduct(4096.0, 4294967296.0);
    CloseWithin(rd, x, 512.0, 17592186044416.0, 0.00000000000006);
  }

  /** Up to 2^37: 2^-16. */
  lemma CloseToBillions(rd: Rounding, x: real)
    requires Nearest(rd) && 0.0 <= x <= 137438953472.0
    ensures x - 0.000016 <= rd(x) <= x + 0.000016
  {
    SmallScales();
    CloseWithin(rd, x, 137438953472.0, 65536.0, 0.000016);
  }

  // ---------------------------------------------------------------------
  // There is such a rounding
  // ---------------------------------------------------------------------

  ghost predicate NearestFloat(x: real, y: real) {
    Float(y) && forall z: real :: Float(z) ==> Closer(x, y, z)
  }

  lemma Doubled(z: real)
    requires Float(z)
    ensures Float(2.0 * z)
  {
    var m: int, up: real, down: real :| FloatAs(z, m, up, down);
    assert Pow(1) == 2.0;
    ScaleProduct(2.0, up);
    FloatWitness(2.0 * z, m, 2.0 * up, down);
  }

  lemma Halved(z: real)
    requires Float(z)
    ensures Float(z / 2.0)
  {
    var m: int, up: real, down: real :| FloatAs(z, m, up, down);
    assert Pow(1) == 2.0;
    ScaleProduct(2.0, down);
    FloatWitness(z / 2.0, m, up, 2.0 * down);
  }

  lemma Negated(z: real)
    requires Float(z)
    ensures Float(-z)
  {
    var m: int, up: real, down: real :| FloatAs(z, m, up, down);
    FloatWitness(-z, -m, up, down);
  }

  /** From 2^52 on the representable numbers are integers. */
  lemma IntegerAbove(z: real) returns (n: int)
    requires Float(z) && z > HALF as real
    ensures z == n as real
  {
    ScaleOne();
    n := Grid(z, 1.0);
  }

  lemma NextInteger(n: int, m: int)
    ensures n as real <= m as real || m as real + 1.0 <= n as real
  {
    if n > m { assert (m + 1) as real <= n as real; }
  }

  lemma NoneBetween(z: real, m: int)
    requires Float(z) && HALF <= m
    ensures z <= m as real || m as real + 1.0 <= z
  {
    if z > m as real {
      var n := IntegerAbove(z);
      NextInteger(n, m);
    }
  }

  ghost predicate NearestEven(x: real, y: real) {
    NearestFloat(x, y) && EvenTo(x, y)
  }

  lemma OnlyOne(s: real)
    requires Scale(s) && s < 2.0
    ensures s == 1.0
  {
    var k := Exponent(s);
    if k > 0 { PowAboveOne(k); }
  }

  /** Between 2^52 and 2^53 halfway is halfway between integers. */
  lemma HalfwayInteger(x: real, s: real, m: int)
    requires HALF as real < x && Halfway(x, s, m)
    ensures s == 1.0
  {
    if s >= 2.0 { MulMono(2.0, s, x); }
    OnlyOne(s);
  }

  lemma NearestInteger(x: real) returns (y: real)
    requires HALF as real < x <= FULL as real
    ensures NearestEven(x, y)
  {
    var m := x.Floor;
    var up := x - m as real > 0.5 || (x - m as real == 0.5 && m % 2 == 1);
    y := if up then (m + 1) as real else m as real;
    IntegerFloat(m);
    if m < FULL { IntegerFloat(m + 1); }
    forall z: real | Float(z) ensures Closer(x, y, z) {
      NoneBetween(z, m);
    }
    forall s: real, n: int | Halfway(x, s, n) ensures y * s == (n + n % 2) as real {
      HalfwayInteger(x, s, n);
      SameFloor(x, m, n);
    }
  }

  lemma SameFloor(x: real, m: int, n: int)
    requires m == x.Floor && x == n as real + 0.5
    ensures m == n
  {
  }

  lemma EvenHalved(x: real, y: real, s: real, m: int)
    requires EvenTo(2.0 * x, y) && x <= HALF as real && Halfway(x, s, m)
    ensures y / 2.0 * s == (m + m % 2) as real
  {
    var k := Exponent(s);
    if k == 0 { assert false; }
    ScaleOf(k - 1);
    assert 2.0 * x * Pow(k - 1) == x * s;
    assert Halfway(2.0 * x, Pow(k - 1), m);
  }

  lemma NearestHalved(x: real, y: real)
    requires NearestEven(2.0 * x, y) && x <= HALF as real
    ensures NearestEven(x, y / 2.0)
  {
    Halved(y);
    forall s: real, m: int | Halfway(x, s, m) ensures y / 2.0 * s == (m + m % 2) as real {
      EvenHalved(x, y, s, m);
    }
    forall z: real | Float(z) ensures Closer(x, y / 2.0, z) {
      Doubled(z);
      assert Closer(2.0 * x, y, 2.0 * z);
    }
  }

  /** Above 2^53 no number is halfway in this sense. */
  lemma NotHalfway(x: real, s: real, m: int)
    requires x > FULL as real
    ensures !Halfway(x, s, m)
  {
    if Halfway(x, s, m) {
      ScaleAtLeastOne(s);
      MulMono(1.0, s, x);
      assert false;
    }
  }

  lemma NearestDoubled(x: real, y: real)
    requires NearestEven(x / 2.0, y) && x > FULL as real
    ensures NearestEven(x, 2.0 * y)
  {
    Doubled(y);
    forall s: real, m: int ensures !Halfway(x, s, m) {
      NotHalfway(x, s, m);
    }
    forall z: real | Float(z) ensures Closer(x, 2.0 * y, z) {
      Halved(z);
      assert Closer(x / 2.0, y, z / 2.0);
    }
  }

  lemma NotPositive(x: real, s: real, m: int)
    requires x <= 0.0
    ensures !Halfway(x, s, m)
  {
    if Halfway(x, s, m) {
      ScaleAtLeastOne(s);
      NotNegativeProduct(-x, s);
      assert false;
    }
  }

  lemma NearestNegated(x: real, y: real)
    requires NearestFloat(-x, y) && x <= 0.0
    ensures NearestEven(x, -y)
  {
    Negated(y);
    forall z: real | Float(z) ensures Closer(x, -y, z) {
      Negated(z);
      assert Closer(-x, y, -z);
    }
    forall s: real, m: int ensures !Halfway(x, s, m) {
      NotPositive(x, s, m);
    }
  }

  lemma {:induction false} NearestOfSmall(x: real, k: nat) returns (y: real)
    requires x <= FULL as real && HALF as real < Product(x, Pow(k))
    ensures NearestEven(x, y)
    decreases k
  {
    if x > HALF as real {
      y := NearestInteger(x);
    } else {
      assert Product(x, Pow(k)) == Product(2.0 * x, Pow(k - 1));
      y := NearestOfSmall(2.0 * x, k - 1);
      NearestHalved(x, y);
      y := y / 2.0;
    }
  }

  lemma {:induction false} NearestOfLarge(x: real, k: nat) returns (y: real)
    requires HALF as real < x <= FULL as real * Pow(k)
    ensures NearestEven(x, y)
    decreases k
  {
    if x <= FULL as real {
      y := NearestInteger(x);
    } else {
      y := NearestOfLarge(x / 2.0, k - 1);
      NearestDoubled(x, y);
      y := 2.0 * y;
    }
  }

  lemma {:induction false} PowAbove(k: nat)
    ensures Pow(k) > k as real
  {
    if k > 0 { PowAbove(k - 1); }
  }

  lemma Raised(n: real, p: real, x: real)
    requires n < p && 0.0 < x
    ensures n * x < Product(x, p)
  {
    PositiveProduct(p - n, x);
    assert (p - n) * x == x * p - n * x;
  }

  lemma NearestOfPositive(x: real) returns (y: real)
    requires 0.0 < x
    ensures NearestEven(x, y)
  {
    if x <= HALF as real {
      var n := Quotient(HALF as real, x);
      if n < 0.0 { PositiveProduct(-n, x); }
      var k := n.Floor + 1;
      PowAbove(k);
      Raised(n, Pow(k), x);
      y := NearestOfSmall(x, k);
    } else {
      var k := x.Floor + 1;
      PowAbove(k);
      y := NearestOfLarge(x, k);
    }
  }

  lemma HasNearest(x: real)
    ensures exists y: real :: NearestEven(x, y)
  {
    var y := 0.0;
    if x > 0.0 {
      y := NearestOfPositive(x);
    } else if x < 0.0 {
      var z := NearestOfPositive(-x);
      NearestNegated(x, z);
      y := -z;
    } else {
      IntegerFloat(0);
      NearestNegated(0.0, 0.0);
      y := -0.0;
    }
    assert NearestEven(x, y);
  }

  ghost function PickNearest(x: real): (y: real)
    ensures NearestEven(x, y)
  {
    HasNearest(x);
    var y: real :| NearestEven(x, y);
    y
  }

  /** So what is proved of every rounding to nearest, ties to even or not, is not
      empty. */
  lemma SomeRounding() returns (rd: Rounding)
    ensures Nearest(rd) && TiesToEven(rd)
  {
    rd := (x: real) => PickNearest(x);
    forall x: real ensures NearestTo(rd, x) && EvenTo(x, rd(x)) {
      assert NearestEven(x, rd(x));
    }
  }

  /** The middle between one and the number below it goes to one. */
  lemma HalfBelowOne(rd: Rounding)
    requires TiesToEven(rd)
    ensures rd(18014398509481983.0 / 18014398509481984.0) == 1.0
  {
    var x, s := 18014398509481983.0 / 18014398509481984.0, 9007199254740992.0;
    SmallScales();
    ScaleProduct(65536.0, 4294967296.0);
    ScaleProduct(281474976710656.0, 16.0);
    assert Pow(1) == 2.0;
    ScaleProduct(4503599627370496.0, 2.0);
    assert Halfway(x, s, 9007199254740991);
    assert EvenTo(x, rd(x));
  }
}
