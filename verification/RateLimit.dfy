/** Token buckets: the gateway's in-process limiter, the shared Redis script and
    the websocket limiter. Amounts are whole numbers: a limit says how many units
    make a token and how many units one clock tick refills, so a rate of rpm/60
    tokens per second on a nanosecond clock is exact. */
module RateLimit {
  datatype Option<T> = None | Some(value: T)

  /** `refill` units per tick, `token` units per request, `burst` tokens at most. */
  datatype Limit = Limit(refill: int, token: int, burst: int) {
    predicate Valid() { refill > 0 && token > 0 && burst > 0 }

    function Cap(): int { burst * token }
  }

  const SECOND := 1_000_000_000
  /** bucketIdleTTL in nanoseconds. */
  const IDLE_TTL := 600 * SECOND
  const MINUTE := 60 * SECOND

  const DEFAULT_RPM := 100
  const DEFAULT_BURST := 20

  function OrDefault(n: int, default: int): int { if n <= 0 then default else n }

  /** The gateway's limit on a nanosecond clock. */
  function GatewayLimit(rpm: int, burst: int): (l: Limit)
    ensures l.Valid()
  {
    Limit(OrDefault(rpm, DEFAULT_RPM), MINUTE, OrDefault(burst, DEFAULT_BURST))
  }

  /** The same rate on the script's millisecond clock. */
  function ScriptLimit(rpm: int, burst: int): (l: Limit)
    ensures l.Valid()
  {
    Limit(OrDefault(rpm, DEFAULT_RPM), 60_000, OrDefault(burst, DEFAULT_BURST))
  }

  /** Twenty messages per second with a burst of forty. */
  const SOCKET_LIMIT := Limit(20, SECOND, 40)

  datatype Bucket = Bucket(units: int, updated: int, seen: int)

  datatype Answer = Allowed | Denied(wait: int)

  function Min(a: int, b: int): int { if a < b then a else b }
  function Max(a: int, b: int): int { if a < b then b else a }

  predicate Fits(l: Limit, b: Bucket) {
    0 <= b.units <= l.Cap()
  }

  function Full(l: Limit, now: int): Bucket { Bucket(l.Cap(), now, now) }

  /** The units available at a moment. */
  function Level(l: Limit, b: Bucket, now: int): int {
    Min(l.Cap(), b.units + l.refill * Max(0, now - b.updated))
  }

  /** The gateway keeps its refill mark when the clock stands behind it; the script
      and the websocket bucket move theirs to every reading. */
  datatype Kind = Gateway | Script | Socket

  function Mark(kind: Kind, updated: int, now: int): int {
    if kind.Gateway? then Max(updated, now) else now
  }

  /** One request against a bucket. */
  function Spent(kind: Kind, l: Limit, b: Bucket, now: int): Bucket {
    var level := Level(l, b, now);
    Bucket(if level >= l.token then level - l.token else level, Mark(kind, b.updated, now), now)
  }

  predicate Admits(l: Limit, b: Bucket, now: int) {
    Level(l, b, now) >= l.token
  }

  function CeilDiv(a: int, b: int): int
    requires b > 0
  {
    (a + b - 1) / b
  }

  /** The wait in ticks: truncated by the gateway, rounded up by the script. */
  function Reply(kind: Kind, l: Limit, b: Bucket, now: int): Answer
    requires l.Valid()
  {
    if Admits(l, b, now) then Allowed
    else if kind.Script? then Denied(Max(1, CeilDiv(l.token - Level(l, b, now), l.refill)))
    else Denied((l.token - Level(l, b, now)) / l.refill)
  }

  // ---------------------------------------------------------------------
  // The window bound, for any clock readings
  // ---------------------------------------------------------------------

  function Admitted(kind: Kind, l: Limit, b: Bucket, times: seq<int>): nat
    decreases |times|
  {
    if times == [] then 0
    else (if Admits(l, b, times[0]) then 1 else 0) + Admitted(kind, l, Spent(kind, l, b, times[0]), times[1..])
  }

  /** How far the clock moved forward past the refill mark over the readings. */
  function Forward(kind: Kind, updated: int, times: seq<int>): nat
    decreases |times|
  {
    if times == [] then 0
    else Max(0, times[0] - updated) + Forward(kind, Mark(kind, updated, times[0]), times[1..])
  }

  /** Whatever the clock does, a bucket admits at most its level plus the refill
      for the forward motion of its clock. */
  lemma {:induction false} AdmittedWithinForward(kind: Kind, l: Limit, b: Bucket, times: seq<int>)
    requires l.Valid() && Fits(l, b)
    ensures l.token * Admitted(kind, l, b, times) <= b.units + l.refill * Forward(kind, b.updated, times)
    decreases |times|
  {
    if times != [] {
      var step := Max(0, times[0] - b.updated);
      var rest := Forward(kind, Mark(kind, b.updated, times[0]), times[1..]);
      var after := Spent(kind, l, b, times[0]);
      AdmittedWithinForward(kind, l, after, times[1..]);
      Distribute(l.refill, step, rest);
      Distribute(l.token, 1, Admitted(kind, l, after, times[1..]));
    }
  }

  lemma Distribute(a: int, x: int, y: int)
    ensures a * (x + y) == a * x + a * y
  {
  }

  predicate Monotone(times: seq<int>) {
    forall i, j :: 0 <= i < j < |times| ==> times[i] <= times[j]
  }

  predicate Within(times: seq<int>, from: int, to: int) {
    forall i :: 0 <= i < |times| ==> from <= times[i] <= to
  }

  /** Readings up to `end` move the mark forward no further than `end`; the
      gateway's mark does so whatever their order. */
  lemma {:induction false} ForwardWithinWindow(kind: Kind, updated: int, times: seq<int>, end: int)
    requires forall i :: 0 <= i < |times| ==> times[i] <= end
    requires kind.Gateway? || (Monotone(times) && forall i :: 0 <= i < |times| ==> updated <= times[i])
    ensures Forward(kind, updated, times) <= Max(0, end - updated)
    decreases |times|
  {
    if times != [] {
      ForwardWithinWindow(kind, Mark(kind, updated, times[0]), times[1..], end);
    }
  }

  /** The promise of the rate: in any window of any run, at most the burst plus the
      rate times the window's length. The gateway bucket keeps it under clock
      readings in any order, the other two under a monotone clock. */
  lemma WindowBound(kind: Kind, l: Limit, b: Bucket, times: seq<int>, from: int, end: int)
    requires l.Valid() && Fits(l, b) && from <= end && Within(times, from, end)
    requires kind.Gateway? || Monotone(times)
    ensures l.token * Admitted(kind, l, b, times) <= l.token * l.burst + l.refill * (end - from)
  {
    if times == [] {
      MulMonotone(l.refill, 0, end - from);
      MulMonotone(l.token, 0, l.burst);
    } else {
      var after := Spent(kind, l, b, times[0]);
      var rest := Admitted(kind, l, after, times[1..]);
      LevelFits(l, b, times[0]);
      AdmittedWithinForward(kind, l, after, times[1..]);
      ForwardWithinWindow(kind, after.updated, times[1..], end);
      MulMonotone(l.refill, Forward(kind, after.updated, times[1..]), end - from);
      Distribute(l.token, 1, rest);
    }
  }

  lemma LevelFits(l: Limit, b: Bucket, now: int)
    requires l.Valid() && Fits(l, b)
    ensures 0 <= b.units <= Level(l, b, now) <= l.Cap()
  {
    MulMonotone(l.refill, 0, Max(0, now - b.updated));
  }

  lemma MulMonotone(a: int, x: int, y: int)
    requires 0 <= a && x <= y
    ensures a * x <= a * y
  {
  }

  /** The clock goes forward by `tick` and back again, n times. */
  function BackAndForth(tick: int, n: nat): seq<int> {
    if n == 0 then [] else [tick, 0] + BackAndForth(tick, n - 1)
  }

  /** Under a clock that steps back the script keeps no bound: at any limit, from any
      bucket, it refills the same stretch of time over and over. */
  lemma {:induction false} ScriptRefillsAgain(l: Limit, b: Bucket, tick: int, n: nat)
    requires l.Valid() && Fits(l, b) && b.updated <= 0 && l.token <= l.refill * tick && 0 <= tick
    ensures Within(BackAndForth(tick, n), 0, tick) && Admitted(Script, l, b, BackAndForth(tick, n)) >= n
    decreases n
  {
    if n > 0 {
      var there := Spent(Script, l, b, tick);
      var back := Spent(Script, l, there, 0);
      MulMonotone(l.refill, tick, tick - b.updated);
      MulMonotone(l.token, 1, l.burst);
      LevelFits(l, b, tick);
      LevelFits(l, there, 0);
      assert Admits(l, b, tick);
      ScriptRefillsAgain(l, back, tick, n - 1);
      var rest := BackAndForth(tick, n - 1);
      assert BackAndForth(tick, n) == [tick] + ([0] + rest);
      assert ([tick] + ([0] + rest))[1..] == [0] + rest && ([0] + rest)[1..] == rest;
      assert Admitted(Script, l, there, [0] + rest) >= n - 1;
    }
  }

  /** So no allowance holds for every run in a window. */
  lemma ScriptBoundIsLost(l: Limit, tick: int, allowance: nat) returns (times: seq<int>)
    requires l.Valid() && l.token <= l.refill * tick && 0 <= tick
    ensures Within(times, 0, tick) && Admitted(Script, l, Full(l, 0), times) > allowance
  {
    MulMonotone(l.token, 0, l.burst);
    times := BackAndForth(tick, allowance + 1);
    ScriptRefillsAgain(l, Full(l, 0), tick, allowance + 1);
  }
}
