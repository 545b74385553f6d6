/** The values of one cron item: the loop that walks them adds its step in 64 bits. */
module CronSpan {
  import opened Arithmetic

  const INT_MAX := 0x7FFF_FFFF_FFFF_FFFF

  datatype Span = Span(lo: int, hi: int, step: int)

  /** A field's bounds are small: none of the five goes beyond 59. */
  predicate Bounds(min: int, max: int) {
    0 <= min <= max < 0x1000_0000_0000_0000
  }

  predicate ValidSpan(s: Span) {
    Bounds(s.lo, s.hi) && 1 <= s.step <= INT_MAX
  }

  /** The documented values: every step-th one from lo up to hi. */
  predicate InSpan(s: Span, v: int) {
    s.lo <= v <= s.hi && 1 <= s.step && (v - s.lo) % s.step == 0
  }

  /** The sum of two ints, the second one positive. */
  function Add64(a: int, b: int): int {
    if a + b <= INT_MAX then a + b else a + b - 0x1_0000_0000_0000_0000
  }

  /** The loop variable after n additions. */
  function Nth(s: Span, n: nat): int {
    if n == 0 then s.lo else Add64(Nth(s, n - 1), s.step)
  }

  ghost predicate Goes(s: Span, n: nat) {
    forall k: nat :: k <= n ==> Nth(s, k) <= s.hi
  }

  /** The values the loop adds before its variable first passes hi. */
  ghost predicate Reached(s: Span, v: int) {
    exists n: nat :: Goes(s, n) && Nth(s, n) == v
  }

  /** The first addition does not wrap. */
  predicate Fits(s: Span) { s.lo + s.step <= INT_MAX }

  lemma StepForward(k: int, step: int)
    requires 1 <= step && k % step == 0
    ensures (k + step) % step == 0 && (k - step) % step == 0
  {
    assert k + step == step * (k / step + 1) && k - step == step * (k / step - 1);
    DivModUnique(k + step, step, k / step + 1, 0);
    DivModUnique(k - step, step, k / step - 1, 0);
  }

  lemma NextStepped(s: Span, v: int)
    requires InSpan(s, v) && v + s.step <= s.hi
    ensures InSpan(s, v + s.step)
  {
    StepForward(v - s.lo, s.step);
  }

  lemma {:induction false} ReachedIsStepped(s: Span, n: nat)
    requires ValidSpan(s) && Fits(s) && Goes(s, n)
    ensures InSpan(s, Nth(s, n)) && (n > 0 ==> s.lo + s.step <= Nth(s, n))
  {
    if n == 0 {
      assert Nth(s, 0) == s.lo;
      assert InSpan(s, s.lo);
    } else {
      var v := Nth(s, n - 1);
      ReachedIsStepped(s, n - 1);
      assert Nth(s, n) == v + s.step <= s.hi by {
        assert Nth(s, n) == Add64(v, s.step) <= s.hi;
        assert n - 1 == 0 ==> v == s.lo;
      }
      NextStepped(s, v);
    }
  }

  lemma {:induction false} SteppedIsReached(s: Span, v: int) returns (n: nat)
    requires ValidSpan(s) && InSpan(s, v)
    ensures Goes(s, n) && Nth(s, n) == v
    decreases v
  {
    if v == s.lo {
      n := 0;
    } else {
      StepForward(v - s.lo, s.step);
      NoSmaller(v - s.lo, s.step);
      n := SteppedIsReached(s, v - s.step);
      n := n + 1;
    }
  }

  lemma NoSmaller(k: int, step: int)
    requires 1 <= step && k > 0 && k % step == 0
    ensures step <= k
  {
  }

  /** A wrapping first addition leaves a negative value among those the loop adds. */
  lemma WrapsBelow(s: Span)
    requires ValidSpan(s) && !Fits(s)
    ensures Reached(s, s.lo + s.step - 0x1_0000_0000_0000_0000) && s.lo + s.step - 0x1_0000_0000_0000_0000 < 0
  {
    assert Nth(s, 0) == s.lo;
    assert Nth(s, 1) == s.lo + s.step - 0x1_0000_0000_0000_0000;
    assert Goes(s, 1);
  }

  /** The loop adds exactly the documented values if and only if its first addition
      does not wrap; any step up to INT_MAX - hi is small enough. */
  lemma SpanRightIff(s: Span)
    requires ValidSpan(s)
    ensures (forall v :: Reached(s, v) <==> InSpan(s, v)) <==> Fits(s)
    ensures s.step <= INT_MAX - s.hi ==> Fits(s)
  {
    if Fits(s) {
      forall v ensures Reached(s, v) <==> InSpan(s, v) {
        if Reached(s, v) {
          var n: nat :| Goes(s, n) && Nth(s, n) == v;
          ReachedIsStepped(s, n);
        }
        if InSpan(s, v) {
          var n := SteppedIsReached(s, v);
        }
      }
    } else {
      WrapsBelow(s);
      assert !InSpan(s, s.lo + s.step - 0x1_0000_0000_0000_0000);
    }
  }

  // ---------------------------------------------------------------------
  // The loop ends
  // ---------------------------------------------------------------------

  const NEAR := -0x2000_0000_0000_0000

  /** Below NEAR the variable has just wrapped, and the next addition brings it back
      below the value it wrapped from. */
  predicate OnCourse(s: Span, v: int) {
    v <= INT_MAX && (v <= s.hi && v <= NEAR ==> NEAR < v + s.step <= s.hi)
  }

  function Left(s: Span, v: int): int {
    if v > s.hi then 0
    else if s.step < -2 * NEAR then s.hi - v + 1
    else if NEAR < v then 2 * (v - NEAR) + 1
    else 2 * (v + s.step - NEAR) + 2
  }

  lemma LeftFalls(s: Span, v: int)
    requires ValidSpan(s) && OnCourse(s, v) && v <= s.hi
    ensures OnCourse(s, Add64(v, s.step)) && 0 <= Left(s, Add64(v, s.step)) < Left(s, v)
  {
  }
}
