/** Gateway replicas in front of one shared Redis bucket: Redis first, and the
    replica's own bucket while Redis fails or the circuit is open. One key, with
    the janitors of the replicas and the expiry of the Redis key. */
module RateFleet {
  import opened RateLimit
  import opened RateLimiter

  /** rateLimitRedisCooldown in nanoseconds. */
  const COOLDOWN := 30 * SECOND
  const MILLISECOND := 1_000_000

  /** What a script call comes to; on a timeout the script may still have run. */
  datatype Redis = Up | ReplyLost | Down

  /** `redisClock` and `clocks` are the last readings of each machine's clock, in
      milliseconds and nanoseconds. Clocks of different machines need not agree. */
  datatype Fleet = Fleet(shared: Option<Bucket>, locals: seq<Option<Bucket>>, openUntil: seq<int>,
                         redisClock: int, clocks: seq<int>)

  /** One request: the replica, its clock when it checks the circuit, Redis's state
      and clock, and its clock when the call has failed and when its own bucket
      answers. */
  datatype Arrival = Arrival(replica: nat, checked: int, redis: Redis, redisNow: int, failedAt: int, localNow: int)

  datatype FleetEvent = Ask(q: Arrival) | SweepLocal(replica: nat, now: int) | Expire(redisNow: int)

  datatype Rates = Rates(rpm: int, burst: int) {
    predicate Valid() { rpm > 0 && burst > 0 }
    function Local(): (k: Keeper)
      ensures k.Valid()
    { GatewayKeeper(rpm, burst) }
    function Shared(): (k: Keeper)
      ensures k.Valid()
    { RedisKeeper(rpm, burst) }
  }

  predicate Shaped(f: Fleet, n: nat) {
    |f.locals| == |f.openUntil| == |f.clocks| == n
  }

  predicate CircuitOpen(f: Fleet, q: Arrival)
    requires q.replica < |f.openUntil|
  {
    q.checked < f.openUntil[q.replica]
  }

  /** The script runs, and its answer arrives. */
  predicate AsksRedis(f: Fleet, q: Arrival)
    requires q.replica < |f.openUntil|
  {
    !CircuitOpen(f, q) && !q.redis.Down?
  }

  predicate SharedAnswers(f: Fleet, q: Arrival)
    requires q.replica < |f.openUntil|
  {
    !CircuitOpen(f, q) && q.redis.Up?
  }

  /** The clocks do not step back. */
  predicate InTime(f: Fleet, e: FleetEvent) {
    && Shaped(f, |f.locals|)
    && match e
       case Ask(q) => q.replica < |f.locals| && f.redisClock <= q.redisNow && f.clocks[q.replica] <= q.localNow
       case SweepLocal(i, now) => i < |f.locals| && f.clocks[i] <= now
       case Expire(now) => f.redisClock <= now
  }

  function StepShared(r: Rates, f: Fleet, e: KeyEvent): Fleet {
    f.(shared := Step(r.Shared(), f.shared, e), redisClock := e.now)
  }

  function StepLocal(r: Rates, f: Fleet, i: nat, e: KeyEvent): Fleet
    requires i < |f.locals| == |f.clocks|
  {
    f.(locals := f.locals[i := Step(r.Local(), f.locals[i], e)], clocks := f.clocks[i := e.now])
  }

  function StepFleet(r: Rates, f: Fleet, e: FleetEvent): (g: Fleet)
    requires InTime(f, e)
    ensures Shaped(g, |f.locals|)
  {
    match e
    case Ask(q) =>
      var asked := if AsksRedis(f, q) then StepShared(r, f, Call(q.redisNow)) else f;
      if SharedAnswers(f, q) then asked
      else StepLocal(r, if CircuitOpen(f, q) then asked
                        else asked.(openUntil := f.openUntil[q.replica := q.failedAt + COOLDOWN]),
                     q.replica, Call(q.localNow))
    case SweepLocal(i, now) => StepLocal(r, f, i, Sweep(now))
    case Expire(now) => StepShared(r, f, Sweep(now))
  }

  /** Whether the event is a request that passes. */
  function PassedNow(r: Rates, f: Fleet, e: FleetEvent): nat
    requires InTime(f, e)
  {
    if !e.Ask? then 0
    else if SharedAnswers(f, e.q) then AdmittedNow(r.Shared(), f.shared, Call(e.q.redisNow))
    else AdmittedNow(r.Local(), f.locals[e.q.replica], Call(e.q.localNow))
  }

  ghost predicate Runs(r: Rates, f: Fleet, es: seq<FleetEvent>, g: Fleet)
    decreases |es|
  {
    if es == [] then g == f else InTime(f, es[0]) && Runs(r, StepFleet(r, f, es[0]), es[1..], g)
  }

  ghost function Passed(r: Rates, f: Fleet, es: seq<FleetEvent>, g: Fleet): nat
    requires Runs(r, f, es, g)
    decreases |es|
  {
    if es == [] then 0 else PassedNow(r, f, es[0]) + Passed(r, StepFleet(r, f, es[0]), es[1..], g)
  }

  // ---------------------------------------------------------------------
  // The total bound
  // ---------------------------------------------------------------------

  function Sum(s: seq<int>): int {
    if s == [] then 0 else Sum(s[..|s| - 1]) + s[|s| - 1]
  }

  lemma {:induction false} SumUpdate(s: seq<int>, i: nat, v: int)
    requires i < |s|
    ensures Sum(s[i := v]) == Sum(s) - s[i] + v
    decreases |s|
  {
    var n := |s| - 1;
    if i < n {
      SumUpdate(s[..n], i, v);
      assert s[i := v][..n] == s[..n][i := v];
    } else {
      assert s[i := v][..n] == s[..n];
    }
  }

  lemma {:induction false} SumSpan(s: seq<int>, t: seq<int>, each: int)
    requires |s| == |t| && forall i :: 0 <= i < |s| ==> s[i] - t[i] <= each
    ensures Sum(s) - Sum(t) <= each * |s|
    decreases |s|
  {
    if s != [] {
      SumSpan(s[..|s| - 1], t[..|t| - 1], each);
      Distribute(each, |s| - 1, 1);
    }
  }

  function Potentials(k: Keeper, locals: seq<Option<Bucket>>, clocks: seq<int>): (s: seq<int>)
    requires |locals| == |clocks|
    ensures |s| == |locals| && forall i :: 0 <= i < |s| ==> s[i] == Potential(k, locals[i], clocks[i])
  {
    seq(|locals|, i requires 0 <= i < |locals| => Potential(k, locals[i], clocks[i]))
  }

  /** The whole fleet's potential, in nanosecond units. */
  function Total(r: Rates, f: Fleet): int
    requires Shaped(f, |f.locals|)
  {
    MILLISECOND * Potential(r.Shared(), f.shared, f.redisClock) + Sum(Potentials(r.Local(), f.locals, f.clocks))
  }

  predicate FleetOk(r: Rates, f: Fleet) {
    && Shaped(f, |f.locals|)
    && Settled(r.Shared().limit, f.shared, f.redisClock)
    && forall i :: 0 <= i < |f.locals| ==> Settled(r.Local().limit, f.locals[i], f.clocks[i])
  }

  /** A burst that refills before a replica's bucket may be dropped refills before the
      key may expire. */
  lemma SharedRefills(r: Rates)
    requires r.Valid() && r.Local().Refills()
    ensures r.Shared().Refills()
  {
    assert MINUTE * r.burst <= r.rpm * (IDLE_TTL + 1);
    MulMonotone(r.rpm, IDLE_TTL + 1, MILLISECOND * (KEY_TTL + 1));
    assert MILLISECOND * (60_000 * r.burst) <= MILLISECOND * (r.rpm * (KEY_TTL + 1));
  }

  lemma SharedStep(r: Rates, f: Fleet, e: KeyEvent)
    requires FleetOk(r, f) && f.redisClock <= e.now && (e.Sweep? ==> r.Shared().Refills())
    ensures FleetOk(r, StepShared(r, f, e))
    ensures Total(r, StepShared(r, f, e)) + MINUTE * AdmittedNow(r.Shared(), f.shared, e) <= Total(r, f)
  {
    PotentialFalls(r.Shared(), f.shared, f.redisClock, e);
  }

  lemma LocalStep(r: Rates, f: Fleet, i: nat, e: KeyEvent)
    requires FleetOk(r, f) && i < |f.locals| && f.clocks[i] <= e.now && (e.Sweep? ==> r.Local().Refills())
    ensures FleetOk(r, StepLocal(r, f, i, e))
    ensures Total(r, StepLocal(r, f, i, e)) + MINUTE * AdmittedNow(r.Local(), f.locals[i], e) <= Total(r, f)
  {
    var k := r.Local();
    var o := Step(k, f.locals[i], e);
    PotentialFalls(k, f.locals[i], f.clocks[i], e);
    var s := Potentials(k, f.locals, f.clocks);
    assert Potentials(k, f.locals[i := o], f.clocks[i := e.now]) == s[i := Potential(k, o, e.now)];
    SumUpdate(s, i, Potential(k, o, e.now));
  }

  /** No event adds to the total, and a request that passes takes a token from it. */
  lemma StepLowersTotal(r: Rates, f: Fleet, e: FleetEvent)
    requires FleetOk(r, f) && InTime(f, e) && (e.Ask? || (r.Valid() && r.Local().Refills()))
    ensures FleetOk(r, StepFleet(r, f, e))
    ensures Total(r, StepFleet(r, f, e)) + MINUTE * PassedNow(r, f, e) <= Total(r, f)
  {
    match e
    case Ask(q) =>
      var asked := if AsksRedis(f, q) then StepShared(r, f, Call(q.redisNow)) else f;
      SharedStep(r, f, Call(q.redisNow));
      assert asked.locals == f.locals && asked.clocks == f.clocks;
      if !SharedAnswers(f, q) {
        var tripped := if CircuitOpen(f, q) then asked else asked.(openUntil := f.openUntil[q.replica := q.failedAt + COOLDOWN]);
        assert Total(r, tripped) == Total(r, asked) <= Total(r, f);
        LocalStep(r, tripped, q.replica, Call(q.localNow));
      }
    case SweepLocal(i, now) => LocalStep(r, f, i, Sweep(now));
    case Expire(now) =>
      SharedRefills(r);
      SharedStep(r, f, Sweep(now));
  }

  lemma {:induction false} RunLowersTotal(r: Rates, f: Fleet, es: seq<FleetEvent>, g: Fleet)
    requires r.Valid() && r.Local().Refills() && FleetOk(r, f) && Runs(r, f, es, g)
    ensures FleetOk(r, g) && |g.locals| == |f.locals|
    ensures Total(r, g) + MINUTE * Passed(r, f, es, g) <= Total(r, f)
    decreases |es|
  {
    if es != [] {
      var next := StepFleet(r, f, es[0]);
      StepLowersTotal(r, f, es[0]);
      RunLowersTotal(r, next, es[1..], g);
      Distribute(MINUTE, PassedNow(r, f, es[0]), Passed(r, next, es[1..], g));
    }
  }

  /** Between two states of a run no clock has moved further than the window, whose
      length is in milliseconds. */
  predicate Within(f: Fleet, g: Fleet, length: nat) {
    && Shaped(f, |f.locals|) && Shaped(g, |f.locals|)
    && f.redisClock <= g.redisClock <= f.redisClock + length
    && forall i :: 0 <= i < |f.locals| ==> f.clocks[i] <= g.clocks[i] <= f.clocks[i] + MILLISECOND * length
  }

  /** One bucket's allowance in a window, in nanosecond units. */
  function Allowance(r: Rates, length: nat): int {
    MINUTE * r.burst + r.rpm * (MILLISECOND * length)
  }

  lemma PotentialSpan(k: Keeper, o: Option<Bucket>, from: int, p: Option<Bucket>, end: int, length: int)
    requires k.Valid() && Settled(k.limit, o, from) && Settled(k.limit, p, end) && end - from <= length
    ensures Potential(k, o, from) - Potential(k, p, end) <= k.limit.token * k.limit.burst + k.limit.refill * length
  {
    CallTakesOne(k, o, from);
    CallTakesOne(k, p, end);
    Elapsed(k.limit.refill, from, end, length);
  }

  lemma Elapsed(refill: int, from: int, end: int, length: int)
    requires 0 <= refill && end - from <= length
    ensures refill * end - refill * from <= refill * length
  {
    Distribute(refill, end, -from);
    MulMonotone(refill, end - from, length);
  }

  lemma LocalsSpan(r: Rates, f: Fleet, g: Fleet, length: nat)
    requires r.Valid() && FleetOk(r, f) && FleetOk(r, g) && Within(f, g, length)
    ensures Sum(Potentials(r.Local(), f.locals, f.clocks)) - Sum(Potentials(r.Local(), g.locals, g.clocks))
            <= Allowance(r, length) * |f.locals|
  {
    var k := r.Local();
    var s, t := Potentials(k, f.locals, f.clocks), Potentials(k, g.locals, g.clocks);
    forall i | 0 <= i < |s| ensures s[i] - t[i] <= Allowance(r, length) {
      PotentialSpan(k, f.locals[i], f.clocks[i], g.locals[i], g.clocks[i], MILLISECOND * length);
    }
    SumSpan(s, t, Allowance(r, length));
  }

  lemma SharedSpan(r: Rates, f: Fleet, g: Fleet, length: nat)
    requires r.Valid() && FleetOk(r, f) && FleetOk(r, g) && Within(f, g, length)
    ensures MILLISECOND * (Potential(r.Shared(), f.shared, f.redisClock) - Potential(r.Shared(), g.shared, g.redisClock))
            <= Allowance(r, length)
  {
    var x, y := Potential(r.Shared(), f.shared, f.redisClock), Potential(r.Shared(), g.shared, g.redisClock);
    PotentialSpan(r.Shared(), f.shared, f.redisClock, g.shared, g.redisClock, length);
    MulMonotone(MILLISECOND, x - y, 60_000 * r.burst + r.rpm * length);
    assert MILLISECOND * (60_000 * r.burst + r.rpm * length) == Allowance(r, length);
  }

  lemma AddSpans(a: int, b: int, each: int, n: nat)
    requires a <= each && b <= each * n
    ensures a + b <= (n + 1) * each
  {
  }

  /** Between any two states of a window the whole potential falls by at most one
      allowance per bucket. */
  lemma TotalSpan(r: Rates, f: Fleet, g: Fleet, length: nat)
    requires r.Valid() && FleetOk(r, f) && FleetOk(r, g) && Within(f, g, length)
    ensures Total(r, f) - Total(r, g) <= (|f.locals| + 1) * Allowance(r, length)
  {
    LocalsSpan(r, f, g, length);
    SharedSpan(r, f, g, length);
    var x, y := Potential(r.Shared(), f.shared, f.redisClock), Potential(r.Shared(), g.shared, g.redisClock);
    var s, t := Sum(Potentials(r.Local(), f.locals, f.clocks)), Sum(Potentials(r.Local(), g.locals, g.clocks));
    AddSpans(MILLISECOND * (x - y), s - t, Allowance(r, length), |f.locals|);
  }

  /** N replicas failing open around one Redis bucket let at most N+1 times one
      bucket's allowance through in any window, however Redis fails, whatever the
      circuits do and whenever idle buckets are dropped. */
  lemma FailOpenBound(r: Rates, f: Fleet, es: seq<FleetEvent>, g: Fleet, length: nat)
    requires r.Valid() && r.Local().Refills() && FleetOk(r, f) && Runs(r, f, es, g) && Within(f, g, length)
    ensures MINUTE * Passed(r, f, es, g) <= (|f.locals| + 1) * Allowance(r, length)
  {
    RunLowersTotal(r, f, es, g);
    TotalSpan(r, f, g, length);
  }
  // ---------------------------------------------------------------------
  // The bound is reached, and broken when buckets are dropped too early
  // ---------------------------------------------------------------------

  lemma {:induction false} RunsConcat(r: Rates, f: Fleet, a: seq<FleetEvent>, g: Fleet, b: seq<FleetEvent>, h: Fleet)
    requires Runs(r, f, a, g) && Runs(r, g, b, h)
    ensures Runs(r, f, a + b, h) && Passed(r, f, a + b, h) == Passed(r, f, a, g) + Passed(r, g, b, h)
    decreases |a|
  {
    if a == [] {
      assert a + b == b;
    } else {
      RunsConcat(r, StepFleet(r, f, a[0]), a[1..], g, b, h);
      assert (a + b)[0] == a[0] && (a + b)[1..] == a[1..] + b;
    }
  }

  /** A request at replica i when every clock shows `now` nanoseconds. */
  function At(i: nat, redis: Redis, now: nat): FleetEvent {
    Ask(Arrival(i, now, redis, now / MILLISECOND, now, now))
  }

  function Times(e: FleetEvent, n: nat): (es: seq<FleetEvent>)
    ensures |es| == n && forall k :: 0 <= k < n ==> es[k] == e
  {
    seq(n, _ => e)
  }

  lemma TimesTail(e: FleetEvent, n: nat)
    requires n > 0
    ensures Times(e, n)[0] == e && Times(e, n)[1..] == Times(e, n - 1)
  {
  }

  /** A bucket with n tokens at a moment: a fresh one has a full burst. */
  predicate Holds(k: Keeper, o: Option<Bucket>, n: int, now: int) {
    o == Some(Bucket(n * k.limit.token, now, now)) || (o == None && n == k.limit.burst)
  }

  lemma TakeOne(k: Keeper, o: Option<Bucket>, n: nat, now: int)
    requires k.Valid() && 0 < n <= k.limit.burst && Holds(k, o, n, now)
    ensures AdmittedNow(k, o, Call(now)) == 1 && Holds(k, Step(k, o, Call(now)), n - 1, now) && Step(k, o, Call(now)).Some?
  {
    MulMonotone(k.limit.token, n, k.limit.burst);
    MulMonotone(k.limit.token, 1, n);
    assert Level(k.limit, Found(k.limit, o, now), now) == n * k.limit.token;
    assert n * k.limit.token - k.limit.token == (n - 1) * k.limit.token;
  }

  /** What a burst at replica i leaves, with Redis down: only its own bucket, clock
      and circuit have changed. */
  ghost predicate LocalSpent(f: Fleet, g: Fleet, i: nat, now: int) {
    && Shaped(f, |f.locals|) && Shaped(g, |f.locals|) && i < |f.locals|
    && g.shared == f.shared && g.redisClock == f.redisClock
    && g.locals == f.locals[i := Some(Bucket(0, now, now))] && g.clocks == f.clocks[i := now]
    && g.openUntil == f.openUntil[i := g.openUntil[i]]
    && (g.openUntil[i] <= f.openUntil[i] || g.openUntil[i] <= now + COOLDOWN)
  }

  lemma LocalOne(r: Rates, f: Fleet, i: nat, n: nat, now: nat) returns (g: Fleet)
    requires r.Valid() && Shaped(f, |f.locals|) && i < |f.locals| && 0 < n <= r.burst
    requires f.clocks[i] <= now && f.redisClock <= now / MILLISECOND && Holds(r.Local(), f.locals[i], n, now)
    ensures var e := At(i, Down, now); InTime(f, e) && g == StepFleet(r, f, e) && PassedNow(r, f, e) == 1
    ensures Holds(r.Local(), g.locals[i], n - 1, now) && g.locals[i].Some?
    ensures g.shared == f.shared && g.redisClock == f.redisClock
    ensures g.locals == f.locals[i := g.locals[i]] && g.clocks == f.clocks[i := now]
    ensures g.openUntil == f.openUntil || g.openUntil == f.openUntil[i := now + COOLDOWN]
  {
    g := StepFleet(r, f, At(i, Down, now));
    TakeOne(r.Local(), f.locals[i], n, now);
  }

  /** The run lets that many requests through. */
  ghost predicate Lets(r: Rates, f: Fleet, es: seq<FleetEvent>, g: Fleet, count: int) {
    Runs(r, f, es, g) && Passed(r, f, es, g) == count
  }

  lemma LetsNone(r: Rates, f: Fleet)
    ensures Lets(r, f, [], f, 0)
  {
  }

  lemma LetsFirst(r: Rates, f: Fleet, e: FleetEvent, es: seq<FleetEvent>, g: Fleet, count: int)
    requires InTime(f, e) && Lets(r, StepFleet(r, f, e), es, g, count)
    ensures Lets(r, f, [e] + es, g, PassedNow(r, f, e) + count)
  {
    assert ([e] + es)[1..] == es;
  }

  lemma LetsBoth(r: Rates, f: Fleet, a: seq<FleetEvent>, g: Fleet, b: seq<FleetEvent>, h: Fleet, x: int, y: int)
    requires Lets(r, f, a, g, x) && Lets(r, g, b, h, y)
    ensures Lets(r, f, a + b, h, x + y)
  {
    RunsConcat(r, f, a, g, b, h);
  }

  lemma {:induction false} LocalBurst(r: Rates, f: Fleet, i: nat, n: nat, now: nat) returns (g: Fleet)
    requires r.Valid() && Shaped(f, |f.locals|) && i < |f.locals| && 0 < n <= r.burst
    requires f.clocks[i] <= now && f.redisClock <= now / MILLISECOND && Holds(r.Local(), f.locals[i], n, now)
    ensures Lets(r, f, Times(At(i, Down, now), n), g, n) && LocalSpent(f, g, i, now)
    decreases n
  {
    var e := At(i, Down, now);
    TimesTail(e, n);
    var next := LocalOne(r, f, i, n, now);
    if n == 1 {
      g := next;
      assert Times(e, 0) == [];
    } else {
      g := LocalBurst(r, next, i, n - 1, now);
      assert g.locals == f.locals[i := Some(Bucket(0, now, now))] && g.clocks == f.clocks[i := now];
    }
    assert Times(e, n) == [e] + Times(e, n - 1);
    LetsFirst(r, f, e, Times(e, n - 1), g, n - 1);
  }

  /** Redis answers n requests at replica 0, one token each. */
  lemma {:induction false} SharedTake(r: Rates, f: Fleet, n: nat, now: nat) returns (g: Fleet)
    requires r.Valid() && Shaped(f, |f.locals|) && 0 < |f.locals|
    requires f.clocks[0] <= now && f.openUntil[0] <= now && f.redisClock == now / MILLISECOND
    requires f.shared.Some? && f.shared.value.updated == f.shared.value.seen == f.redisClock
    requires 60_000 * n <= f.shared.value.units <= r.Shared().limit.Cap()
    ensures Lets(r, f, Times(At(0, Up, now), n), g, n)
    ensures g == f.(shared := Some(Bucket(f.shared.value.units - 60_000 * n, f.redisClock, f.redisClock)))
    decreases n
  {
    var e := At(0, Up, now);
    if n == 0 {
      g := f;
      assert Times(e, 0) == [];
      LetsNone(r, f);
    } else {
      TimesTail(e, n);
      var next := StepFleet(r, f, e);
      assert next == f.(shared := Some(Bucket(f.shared.value.units - 60_000, f.redisClock, f.redisClock)));
      g := SharedTake(r, next, n - 1, now);
      assert Times(e, n) == [e] + Times(e, n - 1);
      LetsFirst(r, f, e, Times(e, n - 1), g, n - 1);
    }
  }

  lemma SharedBurst(r: Rates, f: Fleet, now: nat) returns (g: Fleet)
    requires r.Valid() && Shaped(f, |f.locals|) && 0 < |f.locals| && f.shared == None
    requires f.clocks[0] <= now && f.openUntil[0] <= now && f.redisClock <= now / MILLISECOND
    ensures Lets(r, f, Times(At(0, Up, now), r.burst), g, r.burst)
    ensures g == f.(shared := Some(Bucket(0, now / MILLISECOND, now / MILLISECOND)), redisClock := now / MILLISECOND)
  {
    var e := At(0, Up, now);
    TimesTail(e, r.burst);
    TakeOne(r.Shared(), None, r.burst, now / MILLISECOND);
    var next := StepFleet(r, f, e);
    g := SharedTake(r, next, r.burst - 1, now);
    assert Times(e, r.burst) == [e] + Times(e, r.burst - 1);
    LetsFirst(r, f, e, Times(e, r.burst - 1), g, r.burst - 1);
  }

  /** Redis has answered all it could at c milliseconds and holds u units; the first n
      replicas have let a whole burst through at `now`, the others at `last`. */
  predicate Spent(f: Fleet, size: nat, n: nat, last: int, now: int, u: int, c: int) {
    && Shaped(f, size) && f.shared == Some(Bucket(u, c, c)) && f.redisClock == c
    && (forall i :: 0 <= i < n && i < size ==>
          f.locals[i] == Some(Bucket(0, now, now)) && f.clocks[i] == now && f.openUntil[i] <= now + COOLDOWN)
    && (forall i :: n <= i < size ==>
          f.locals[i] == Some(Bucket(0, last, last)) && f.clocks[i] == last && f.openUntil[i] <= last + COOLDOWN)
  }

  /** Nothing stored, every circuit closed, no clock past `now`. */
  predicate Clean(f: Fleet, size: nat, now: nat) {
    && Shaped(f, size) && f.shared == None && f.redisClock <= now / MILLISECOND
    && forall i :: 0 <= i < size ==> f.locals[i] == None && f.openUntil[i] <= now && f.clocks[i] <= now
  }

  /** The first n replicas have let a burst through, the others are untouched. */
  predicate Opening(f: Fleet, size: nat, n: nat, now: nat) {
    && Shaped(f, size) && f.redisClock == now / MILLISECOND && f.shared == Some(Bucket(0, f.redisClock, f.redisClock))
    && (forall i :: 0 <= i < n && i < size ==>
          f.locals[i] == Some(Bucket(0, now, now)) && f.clocks[i] == now && f.openUntil[i] <= now + COOLDOWN)
    && (forall i :: n <= i < size ==> f.locals[i] == None && f.clocks[i] <= now && f.openUntil[i] <= now)
  }

  function Onslaught(burst: nat, n: nat, now: nat): seq<FleetEvent> {
    if n == 0 then Times(At(0, Up, now), burst) else Onslaught(burst, n - 1, now) + Times(At(n - 1, Down, now), burst)
  }

  lemma NextBurst(r: Rates, f: Fleet, size: nat, n: nat, now: nat) returns (g: Fleet)
    requires r.Valid() && n < size && Opening(f, size, n, now)
    ensures Lets(r, f, Times(At(n, Down, now), r.burst), g, r.burst) && Opening(g, size, n + 1, now)
  {
    g := LocalBurst(r, f, n, r.burst, now);
  }

  /** From a clean start, N replicas do let N+1 bursts through at one instant, so
      the factor cannot be lowered. */
  lemma {:induction false} FailOpenReachesBound(r: Rates, f: Fleet, size: nat, n: nat, now: nat) returns (g: Fleet)
    requires r.Valid() && n <= size && 0 < size && Clean(f, size, now)
    ensures Lets(r, f, Onslaught(r.burst, n, now), g, r.burst * (n + 1)) && Opening(g, size, n, now)
    decreases n
  {
    if n == 0 {
      g := SharedBurst(r, f, now);
    } else {
      var mid := FailOpenReachesBound(r, f, size, n - 1, now);
      g := NextBurst(r, mid, size, n - 1, now);
      LetsBoth(r, f, Onslaught(r.burst, n - 1, now), mid, Times(At(n - 1, Down, now), r.burst), g, r.burst * n, r.burst);
      OneMore(r.burst, n);
    }
  }

  lemma OneMore(burst: int, n: int)
    ensures burst * n + burst == burst * (n + 1)
  {
  }

  /** Redis answers everything it can. */
  lemma DrainShared(r: Rates, f: Fleet, now: nat) returns (es: seq<FleetEvent>, g: Fleet, n: nat)
    requires r.Valid() && Shaped(f, |f.locals|) && 0 < |f.locals|
    requires f.clocks[0] <= now && f.openUntil[0] <= now
    requires f.shared.Some? && f.shared.value.updated == f.shared.value.seen == f.redisClock <= now / MILLISECOND
    requires var level := f.shared.value.units + r.rpm * (now / MILLISECOND - f.redisClock);
             60_000 <= level <= r.Shared().limit.Cap()
    ensures Lets(r, f, es, g, n)
    ensures var c := now / MILLISECOND; var level := f.shared.value.units + r.rpm * (c - f.redisClock);
            && 0 <= level - 60_000 * n < 60_000
            && g == f.(shared := Some(Bucket(level - 60_000 * n, c, c)), redisClock := c)
  {
    var c := now / MILLISECOND;
    var level := f.shared.value.units + r.rpm * (c - f.redisClock);
    n := level / 60_000;
    var e := At(0, Up, now);
    var next := StepFleet(r, f, e);
    assert next == f.(shared := Some(Bucket(level - 60_000, c, c)), redisClock := c);
    g := SharedTake(r, next, n - 1, now);
    es := [e] + Times(e, n - 1);
    LetsFirst(r, f, e, Times(e, n - 1), g, n - 1);
  }

  /** The janitor drops a replica's bucket, and a burst passes again. */
  lemma DropAndBurst(r: Rates, f: Fleet, size: nat, n: nat, last: nat, now: nat, u: int, c: int)
    returns (es: seq<FleetEvent>, g: Fleet)
    requires r.Valid() && n < size && Spent(f, size, n, last, now, u, c) && now == last + IDLE_TTL + 1 && c <= now / MILLISECOND
    ensures Lets(r, f, es, g, r.burst) && Spent(g, size, n + 1, last, now, u, c)
  {
    var e := SweepLocal(n, now);
    var mid := StepFleet(r, f, e);
    assert mid.locals == f.locals[n := None] && mid.clocks == f.clocks[n := now];
    g := LocalBurst(r, mid, n, r.burst, now);
    es := [e] + Times(At(n, Down, now), r.burst);
    LetsFirst(r, f, e, Times(At(n, Down, now), r.burst), g, r.burst);
  }

  lemma {:induction false} DropAll(r: Rates, f: Fleet, size: nat, n: nat, last: nat, now: nat, u: int, c: int)
    returns (es: seq<FleetEvent>, g: Fleet)
    requires r.Valid() && n <= size && Spent(f, size, 0, last, now, u, c) && now == last + IDLE_TTL + 1 && c <= now / MILLISECOND
    ensures Lets(r, f, es, g, r.burst * n) && Spent(g, size, n, last, now, u, c)
    decreases n
  {
    if n == 0 {
      es, g := [], f;
      LetsNone(r, f);
    } else {
      var before, mid := DropAll(r, f, size, n - 1, last, now, u, c);
      var more, end := DropAndBurst(r, mid, size, n - 1, last, now, u, c);
      LetsBoth(r, f, before, mid, more, end, r.burst * (n - 1), r.burst);
      OneMore(r.burst, n - 1);
      es, g := before + more, end;
    }
  }

  /** Everything has been spent at `last`, and Redis has less than a token left. */
  predicate Rested(f: Fleet, size: nat, last: nat, u: int) {
    Spent(f, size, 0, last, last, u, last / MILLISECOND) && 0 <= u < 60_000
  }

  /** The burst does not refill before the janitor may drop a bucket. */
  lemma SlowRefill(r: Rates)
    requires r.Valid() && !r.Local().Refills()
    ensures 10 * r.rpm < r.burst && r.rpm * (IDLE_TTL + 1) < MINUTE * r.burst
  {
  }

  /** Between two drops the shared bucket is emptied twice, so it never overflows. */
  lemma TwoDrains(r: Rates, f: Fleet, size: nat, last: nat, u: int) returns (es: seq<FleetEvent>, g: Fleet, n: nat, v: int)
    requires r.Valid() && !r.Local().Refills() && 0 < size && Rested(f, size, last, u)
    ensures var now := last + IDLE_TTL + 1;
            && Lets(r, f, es, g, n) && Spent(g, size, 0, last, now, v, now / MILLISECOND) && 0 <= v < 60_000
            && 60_000 * n + v == u + r.rpm * (now / MILLISECOND - last / MILLISECOND)
  {
    SlowRefill(r);
    var now := last + IDLE_TTL + 1;
    var c, d := last / MILLISECOND, now / MILLISECOND;
    var half := MILLISECOND * (c + 300_000);
    assert half / MILLISECOND == c + 300_000 && last <= half <= now && d - c - 300_000 <= 300_001;
    MulMonotone(r.rpm, d - c - 300_000, 300_001);
    MulMonotone(r.rpm, 300_000, d - c - 300_000);
    var es1, mid, n1 := DrainShared(r, f, half);
    var es2, end, n2 := DrainShared(r, mid, now);
    LetsBoth(r, f, es1, mid, es2, end, n1, n2);
    es, g, n, v := es1 + es2, end, n1 + n2, end.shared.value.units;
    Distribute(r.rpm, 300_000, d - c - 300_000);
  }

  /** One idle time: Redis gives what it refills, every replica gives a whole burst. */
  lemma OneCycle(r: Rates, f: Fleet, size: nat, last: nat, u: int) returns (es: seq<FleetEvent>, g: Fleet, n: nat, v: int)
    requires r.Valid() && !r.Local().Refills() && 0 < size && Rested(f, size, last, u)
    ensures var now := last + IDLE_TTL + 1;
            && Lets(r, f, es, g, n + r.burst * size) && Rested(g, size, now, v)
            && 60_000 * n + v == u + r.rpm * (now / MILLISECOND - last / MILLISECOND)
  {
    var now := last + IDLE_TTL + 1;
    var es1, mid, k, w := TwoDrains(r, f, size, last, u);
    var es2, end := DropAll(r, mid, size, size, last, now, w, now / MILLISECOND);
    LetsBoth(r, f, es1, mid, es2, end, k, r.burst * size);
    es, g, n, v := es1 + es2, end, k, w;
  }

  /** The moment of the k-th drop. */
  function Drop(k: nat): nat { k * (IDLE_TTL + 1) }

  lemma {:induction false} Cycles(r: Rates, f: Fleet, size: nat, k: nat) returns (es: seq<FleetEvent>, g: Fleet, n: nat, v: int)
    requires r.Valid() && !r.Local().Refills() && 0 < size && Rested(f, size, 0, 0)
    ensures Lets(r, f, es, g, n + k * (r.burst * size)) && Rested(g, size, Drop(k), v)
    ensures 60_000 * n + v == r.rpm * (Drop(k) / MILLISECOND)
    decreases k
  {
    if k == 0 {
      es, g, n, v := [], f, 0, 0;
      LetsNone(r, f);
    } else {
      var es1, mid, n1, u := Cycles(r, f, size, k - 1);
      assert Drop(k) == Drop(k - 1) + IDLE_TTL + 1;
      var es2, end, n2, w := OneCycle(r, mid, size, Drop(k - 1), u);
      LetsBoth(r, f, es1, mid, es2, end, n1 + (k - 1) * (r.burst * size), n2 + r.burst * size);
      Distribute(r.rpm, Drop(k - 1) / MILLISECOND, Drop(k) / MILLISECOND - Drop(k - 1) / MILLISECOND);
      OneMore(r.burst * size, k - 1);
      es, g, n, v := es1 + es2, end, n1 + n2, w;
    }
  }

  function Fresh(size: nat): Fleet {
    Fleet(None, seq(size, _ => None), seq(size, _ => 0), 0, seq(size, _ => 0))
  }

  /** A window of that many milliseconds holds a minute's nanoseconds of drops. */
  const WINDOW: nat := 60_000 * (IDLE_TTL + 1)

  ghost predicate Bounded(r: Rates, f: Fleet, es: seq<FleetEvent>, g: Fleet, length: nat) {
    Runs(r, f, es, g) ==> MINUTE * Passed(r, f, es, g) <= (|f.locals| + 1) * Allowance(r, length)
  }

  /** What the drops gain outweighs the token that Redis may have left. */
  lemma TooMuch(r: Rates, size: nat, n: nat, v: int)
    requires r.Valid() && !r.Local().Refills() && 0 < size && 0 <= v < 60_000 && 60_000 * n + v == r.rpm * WINDOW
    ensures MINUTE * (r.burst * (size + 1) + (n + MINUTE * (r.burst * size))) > (size + 1) * Allowance(r, WINDOW)
  {
    SlowRefill(r);
    var gain := MINUTE * r.burst - r.rpm * (IDLE_TTL + 1);
    MulMonotone(gain, 1, size);
    Gained(r.burst, size, n, v, r.rpm, gain);
  }

  lemma Gained(burst: int, size: int, n: int, v: int, rpm: int, gain: int)
    requires gain == MINUTE * burst - rpm * (IDLE_TTL + 1) && gain * size >= 1 && v < 60_000
    requires 60_000 * n + v == rpm * WINDOW
    ensures MINUTE * (burst * (size + 1) + (n + MINUTE * (burst * size)))
            > (size + 1) * (MINUTE * burst + rpm * (MILLISECOND * WINDOW))
  {
    assert MINUTE * n == MILLISECOND * (rpm * WINDOW) - MILLISECOND * v;
    assert MINUTE * (MINUTE * (burst * size)) - size * (rpm * (MILLISECOND * WINDOW)) == MINUTE * (gain * size);
  }

  lemma BrokenWhenDropped(r: Rates, size: nat) returns (es: seq<FleetEvent>, g: Fleet)
    requires r.Valid() && !r.Local().Refills() && 0 < size
    ensures FleetOk(r, Fresh(size)) && Within(Fresh(size), g, WINDOW) && !Bounded(r, Fresh(size), es, g, WINDOW)
  {
    var f := Fresh(size);
    var mid := FailOpenReachesBound(r, f, size, size, 0);
    var es2, end, n, v := Cycles(r, mid, size, MINUTE);
    assert Drop(MINUTE) == MILLISECOND * WINDOW;
    LetsBoth(r, f, Onslaught(r.burst, size, 0), mid, es2, end, r.burst * (size + 1), n + MINUTE * (r.burst * size));
    es, g := Onslaught(r.burst, size, 0) + es2, end;
    TooMuch(r, size, n, v);
  }

  /** Every run of that many replicas keeps the bound in every window. */
  ghost predicate AlwaysBounded(r: Rates, size: nat) {
    forall f: Fleet, es: seq<FleetEvent>, g: Fleet, length: nat ::
      |f.locals| == size && FleetOk(r, f) && Within(f, g, length) ==> Bounded(r, f, es, g, length)
  }

  /** The N+1 bound holds in every run and every window exactly when a burst refills
      before a replica's janitor may drop a bucket; at any rate that a nanosecond
      clock resolves, that is a burst of at most ten minutes' requests. */
  lemma FailOpenBoundIff(r: Rates, size: nat)
    requires r.Valid() && 0 < size
    ensures AlwaysBounded(r, size) <==> r.Local().Refills()
    ensures r.rpm < MINUTE ==> (AlwaysBounded(r, size) <==> r.burst <= 10 * r.rpm)
  {
    TenMinutesOfRequests(r.rpm, r.burst);
    if r.Local().Refills() {
      forall f: Fleet, es: seq<FleetEvent>, g: Fleet, length: nat
        | |f.locals| == size && FleetOk(r, f) && Within(f, g, length)
        ensures Bounded(r, f, es, g, length)
      {
        if Runs(r, f, es, g) { FailOpenBound(r, f, es, g, length); }
      }
    } else {
      var es, g := BrokenWhenDropped(r, size);
    }
  }

  // ---------------------------------------------------------------------
  // fallbackLimiter
  // ---------------------------------------------------------------------

  class FallbackLimiter {
    const fallback: Limiter
    var openUntil: int

    constructor (fallback: Limiter)
      ensures this.fallback == fallback && openUntil == 0
    {
      this.fallback, openUntil := fallback, 0;
    }

    /** `primary` is the key's bucket in Redis. */
    method AllowRequest(key: string, primary: SharedBucket, q: Arrival) returns (a: Answer)
      requires fallback.Valid() && primary.Valid()
      modifies this`openUntil, fallback`buckets, primary`stored
      ensures fallback.Valid() && primary.Valid()
      ensures var open := q.checked < old(openUntil); var l := fallback.limit; var s := primary.limit;
              && (primary.stored == if open || q.redis.Down? then old(primary.stored)
                                    else Some(RateLimit.Spent(Script, s, Found(s, old(primary.stored), q.redisNow), q.redisNow)))
              && (if !open && q.redis.Up?
                  then a == Reply(Script, s, Found(s, old(primary.stored), q.redisNow), q.redisNow)
                       && fallback.buckets == old(fallback.buckets)
                  else a == Reply(Gateway, l, Found(l, Get(old(fallback.buckets), key), q.localNow), q.localNow)
                       && fallback.buckets == StepMap(l, old(fallback.buckets), Request(key, q.localNow)))
              && openUntil == if open || q.redis.Up? then old(openUntil) else q.failedAt + COOLDOWN
    {
      if q.checked < openUntil {
        a := fallback.Allow(key, q.localNow);
        return;
      }
      if !q.redis.Down? {
        a := primary.Eval(q.redisNow);
        if q.redis.Up? {
          return;
        }
      }
      openUntil := q.failedAt + COOLDOWN;
      a := fallback.Allow(key, q.localNow);
    }
  }
}
