/** The gateway's map of buckets with its janitor, and the three places that hold
    a bucket: the in-process limiter, the Redis key and the websocket connection. */
module RateLimiter {
  import opened RateLimit

  // ---------------------------------------------------------------------
  // One key under calls and evictions
  // ---------------------------------------------------------------------

  /** A bucket that is kept under a key and dropped when idle: by the gateway's
      janitor, or by the expiry that the script sets on the Redis key. */
  datatype Keeper = Keeper(kind: Kind, limit: Limit, ttl: int) {
    predicate Valid() { limit.Valid() && 0 <= ttl }

    /** A full burst refills before an idle bucket may be dropped. */
    predicate Refills() { limit.Cap() <= limit.refill * (ttl + 1) }
  }

  /** The expiry in milliseconds, as passed to the script. */
  const KEY_TTL := 600_000

  function GatewayKeeper(rpm: int, burst: int): (k: Keeper)
    ensures k.Valid()
  {
    Keeper(Gateway, GatewayLimit(rpm, burst), IDLE_TTL)
  }

  function RedisKeeper(rpm: int, burst: int): (k: Keeper)
    ensures k.Valid()
  {
    Keeper(Script, ScriptLimit(rpm, burst), KEY_TTL)
  }

  datatype KeyEvent = Call(now: int) | Sweep(now: int)

  function Found(l: Limit, o: Option<Bucket>, now: int): Bucket {
    if o.Some? then o.value else Full(l, now)
  }

  predicate Idle(b: Bucket, now: int, ttl: int) {
    b.seen < now - ttl
  }

  function Step(k: Keeper, o: Option<Bucket>, e: KeyEvent): Option<Bucket> {
    match e
    case Call(now) => Some(Spent(k.kind, k.limit, Found(k.limit, o, now), now))
    case Sweep(now) => if o.Some? && Idle(o.value, now, k.ttl) then None else o
  }

  function Run(k: Keeper, o: Option<Bucket>, es: seq<KeyEvent>): Option<Bucket>
    decreases |es|
  {
    if es == [] then o else Run(k, Step(k, o, es[0]), es[1..])
  }

  function Answers(k: Keeper, o: Option<Bucket>, es: seq<KeyEvent>): seq<Answer>
    requires k.Valid()
    decreases |es|
  {
    if es == [] then []
    else
      (if es[0].Call? then [Reply(k.kind, k.limit, Found(k.limit, o, es[0].now), es[0].now)] else [])
      + Answers(k, Step(k, o, es[0]), es[1..])
  }

  function CallsOnly(es: seq<KeyEvent>): seq<KeyEvent> {
    if es == [] then [] else (if es[0].Call? then [es[0]] else []) + CallsOnly(es[1..])
  }

  predicate InOrder(es: seq<KeyEvent>, from: int) {
    && (forall i :: 0 <= i < |es| ==> from <= es[i].now)
    && (forall i, j :: 0 <= i < j < |es| ==> es[i].now <= es[j].now)
  }

  /** The units the key has at a moment; an absent bucket is a full one. */
  function Available(l: Limit, o: Option<Bucket>, now: int): int {
    Level(l, Found(l, o, now), now)
  }

  predicate Settled(l: Limit, o: Option<Bucket>, t: int) {
    o.Some? ==> Fits(l, o.value) && o.value.updated == o.value.seen <= t
  }

  /** Two histories of a key that no later call can tell apart. */
  predicate Alike(l: Limit, o: Option<Bucket>, p: Option<Bucket>, t: int) {
    Settled(l, o, t) && Settled(l, p, t) && Available(l, o, t) == Available(l, p, t)
  }

  lemma AvailableLater(l: Limit, o: Option<Bucket>, t: int, u: int)
    requires l.Valid() && Settled(l, o, t) && t <= u
    ensures Available(l, o, u) == Min(l.Cap(), Available(l, o, t) + l.refill * (u - t))
  {
    MulMonotone(l.refill, 0, u - t);
    if o.Some? {
      Distribute(l.refill, t - o.value.updated, u - t);
    }
  }

  lemma AlikeLater(l: Limit, o: Option<Bucket>, p: Option<Bucket>, t: int, u: int)
    requires l.Valid() && Alike(l, o, p, t) && t <= u
    ensures Alike(l, o, p, u)
  {
    AvailableLater(l, o, t, u);
    AvailableLater(l, p, t, u);
  }

  /** A call gets the same answer from both and leaves both alike. */
  lemma CallKeepsAlike(k: Keeper, o: Option<Bucket>, p: Option<Bucket>, now: int)
    requires k.Valid() && Alike(k.limit, o, p, now)
    ensures Reply(k.kind, k.limit, Found(k.limit, o, now), now) == Reply(k.kind, k.limit, Found(k.limit, p, now), now)
    ensures Alike(k.limit, Step(k, o, Call(now)), Step(k, p, Call(now)), now)
  {
    MulMonotone(k.limit.token, 0, k.limit.burst);
    LevelFits(k.limit, Found(k.limit, o, now), now);
    LevelFits(k.limit, Found(k.limit, p, now), now);
  }

  /** Idling past the time limit fills the bucket whenever the burst is no more
      than the refill of that time. */
  lemma SweepKeepsAlike(k: Keeper, o: Option<Bucket>, p: Option<Bucket>, now: int)
    requires k.Valid() && Alike(k.limit, o, p, now) && k.Refills()
    ensures Alike(k.limit, Step(k, o, Sweep(now)), p, now)
  {
    if o.Some? && Idle(o.value, now, k.ttl) {
      MulMonotone(k.limit.refill, k.ttl + 1, now - o.value.updated);
    }
  }

  lemma {:induction false} SweepsUnobservable(k: Keeper, o: Option<Bucket>, p: Option<Bucket>, t: int, es: seq<KeyEvent>)
    requires k.Valid() && Alike(k.limit, o, p, t) && InOrder(es, t) && k.Refills()
    ensures Answers(k, o, es) == Answers(k, p, CallsOnly(es))
    decreases |es|
  {
    if es != [] {
      var e := es[0];
      AlikeLater(k.limit, o, p, t, e.now);
      if e.Call? {
        CallKeepsAlike(k, o, p, e.now);
        SweepsUnobservable(k, Step(k, o, e), Step(k, p, e), e.now, es[1..]);
        assert CallsOnly(es)[0] == e && CallsOnly(es)[1..] == CallsOnly(es[1..]);
      } else {
        SweepKeepsAlike(k, o, p, e.now);
        SweepsUnobservable(k, Step(k, o, e), p, e.now, es[1..]);
        assert CallsOnly(es) == CallsOnly(es[1..]);
      }
    }
  }

  // The converse: drain a key, let it be dropped, and ask for a full burst.

  function Calls(t: int, n: nat): (r: seq<KeyEvent>)
    ensures |r| == n && forall i :: 0 <= i < n ==> r[i] == Call(t)
  {
    seq(n, _ => Call(t))
  }

  ghost predicate AllAllowed(answers: seq<Answer>) {
    forall i :: 0 <= i < |answers| ==> answers[i] == Allowed
  }

  lemma CallsTail(t: int, n: nat)
    requires n > 0
    ensures Calls(t, n)[1..] == Calls(t, n - 1)
  {
  }

  /** A call takes a token from what is available, if there is one. */
  lemma CallTakesOne(k: Keeper, o: Option<Bucket>, t: int)
    requires k.Valid() && Settled(k.limit, o, t)
    ensures Settled(k.limit, Step(k, o, Call(t)), t)
    ensures var have := Available(k.limit, o, t);
            && 0 <= have <= k.limit.Cap()
            && (Reply(k.kind, k.limit, Found(k.limit, o, t), t) == Allowed <==> k.limit.token <= have)
            && Available(k.limit, Step(k, o, Call(t)), t) == if k.limit.token <= have then have - k.limit.token else have
  {
    MulMonotone(k.limit.token, 0, k.limit.burst);
    LevelFits(k.limit, Found(k.limit, o, t), t);
  }

  /** Calls at one moment are all admitted exactly when the units suffice. */
  lemma {:induction false} BurstAdmittedIff(k: Keeper, o: Option<Bucket>, t: int, n: nat)
    requires k.Valid() && Settled(k.limit, o, t)
    ensures |Answers(k, o, Calls(t, n))| == n
    ensures AllAllowed(Answers(k, o, Calls(t, n))) <==> n == 0 || n * k.limit.token <= Available(k.limit, o, t)
    decreases n
  {
    if n > 0 {
      var next := Step(k, o, Call(t));
      CallsTail(t, n);
      CallTakesOne(k, o, t);
      BurstAdmittedIff(k, next, t, n - 1);
      var first := Reply(k.kind, k.limit, Found(k.limit, o, t), t);
      var rest := Answers(k, next, Calls(t, n - 1));
      assert Answers(k, o, Calls(t, n)) == [first] + rest;
      AllAllowedCons(first, rest);
      OneMoreToken(k.limit.token, n, Available(k.limit, o, t));
    }
  }

  lemma AllAllowedCons(first: Answer, rest: seq<Answer>)
    ensures AllAllowed([first] + rest) <==> first == Allowed && AllAllowed(rest)
  {
    var all := [first] + rest;
    assert all[0] == first;
    forall i | 0 <= i < |rest| ensures AllAllowed(all) ==> rest[i] == Allowed {
      assert all[i + 1] == rest[i];
    }
  }

  lemma OneMoreToken(token: int, n: nat, have: int)
    requires token > 0 && n > 0
    ensures n * token <= have <==> token <= have && (n == 1 || (n - 1) * token <= have - token)
  {
    assert n * token == (n - 1) * token + token;
    MulMonotone(token, 0, n - 1);
  }

  lemma {:induction false} BurstDrains(k: Keeper, o: Option<Bucket>, t: int, n: nat)
    requires k.Valid() && Settled(k.limit, o, t) && Available(k.limit, o, t) == n * k.limit.token && n > 0
    ensures Run(k, o, Calls(t, n)) == Some(Bucket(0, t, t))
    decreases n
  {
    var next := Step(k, o, Call(t));
    CallTakesOne(k, o, t);
    MulMonotone(k.limit.token, 1, n);
    CallsTail(t, n);
    assert n * k.limit.token - k.limit.token == (n - 1) * k.limit.token;
    if n > 1 {
      BurstDrains(k, next, t, n - 1);
    } else {
      assert Calls(t, 0) == [];
    }
  }

  lemma {:induction false} AnswersConcat(k: Keeper, o: Option<Bucket>, a: seq<KeyEvent>, b: seq<KeyEvent>)
    requires k.Valid()
    ensures Answers(k, o, a + b) == Answers(k, o, a) + Answers(k, Run(k, o, a), b)
    decreases |a|
  {
    if a == [] {
      assert a + b == b;
    } else {
      AnswersConcat(k, Step(k, o, a[0]), a[1..], b);
      assert (a + b)[1..] == a[1..] + b;
    }
  }

  lemma {:induction false} CallsOnlyConcat(a: seq<KeyEvent>, b: seq<KeyEvent>)
    ensures CallsOnly(a + b) == CallsOnly(a) + CallsOnly(b)
    decreases |a|
  {
    if a == [] {
      assert a + b == b;
    } else {
      CallsOnlyConcat(a[1..], b);
      assert (a + b)[0] == a[0] && (a + b)[1..] == a[1..] + b;
      var head := if a[0].Call? then [a[0]] else [];
      assert CallsOnly(a + b) == head + (CallsOnly(a[1..]) + CallsOnly(b));
    }
  }

  lemma {:induction false} CallsAreCalls(t: int, n: nat)
    ensures CallsOnly(Calls(t, n)) == Calls(t, n)
    decreases n
  {
    if n > 0 {
      CallsTail(t, n);
      CallsAreCalls(t, n - 1);
    }
  }

  /** A drained bucket an instant past the time limit, asked for a full burst,
      answers differently from the fresh one that replaces it. */
  lemma DroppedAnswersDiffer(k: Keeper)
    requires k.Valid() && !k.Refills()
    ensures var t := k.ttl + 1; var drained := Some(Bucket(0, 0, 0)); var last := Calls(t, k.limit.burst);
            && Step(k, drained, Sweep(t)) == None
            && AllAllowed(Answers(k, None, last)) && Answers(k, drained, last) != Answers(k, None, last)
  {
    var t := k.ttl + 1;
    MulMonotone(k.limit.token, 0, k.limit.burst);
    MulMonotone(k.limit.refill, 0, t);
    BurstAdmittedIff(k, None, t, k.limit.burst);
    BurstAdmittedIff(k, Some(Bucket(0, 0, 0)), t, k.limit.burst);
  }

  function DroppedBurst(k: Keeper): seq<KeyEvent>
    requires k.Valid()
  {
    Calls(0, k.limit.burst) + ([Sweep(k.ttl + 1)] + Calls(k.ttl + 1, k.limit.burst))
  }

  lemma DroppedBurstCalls(k: Keeper)
    requires k.Valid()
    ensures CallsOnly(DroppedBurst(k)) == Calls(0, k.limit.burst) + Calls(k.ttl + 1, k.limit.burst)
  {
    var t := k.ttl + 1;
    var last := Calls(t, k.limit.burst);
    CallsOnlyConcat(Calls(0, k.limit.burst), [Sweep(t)] + last);
    CallsAreCalls(0, k.limit.burst);
    CallsAreCalls(t, k.limit.burst);
    assert ([Sweep(t)] + last)[1..] == last;
  }

  /** The answers to a burst, a drop and another burst. */
  lemma DroppedBurstAnswers(k: Keeper)
    requires k.Valid()
    ensures InOrder(DroppedBurst(k), 0)
    ensures Answers(k, None, DroppedBurst(k))
            == Answers(k, None, Calls(0, k.limit.burst)) + Answers(k, None, Calls(k.ttl + 1, k.limit.burst))
    ensures AllAllowed(Answers(k, None, Calls(0, k.limit.burst))) && |Answers(k, None, Calls(0, k.limit.burst))| == k.limit.burst
  {
    var t := k.ttl + 1;
    var first, last := Calls(0, k.limit.burst), Calls(t, k.limit.burst);
    MulMonotone(k.limit.token, 0, k.limit.burst);
    BurstDrains(k, None, 0, k.limit.burst);
    BurstAdmittedIff(k, None, 0, k.limit.burst);
    AnswersConcat(k, None, first, [Sweep(t)] + last);
    assert ([Sweep(t)] + last)[1..] == last;
  }

  lemma SweepObserved(k: Keeper)
    requires k.Valid() && !k.Refills()
    ensures Answers(k, None, DroppedBurst(k)) != Answers(k, None, CallsOnly(DroppedBurst(k)))
  {
    var t := k.ttl + 1;
    var first, last := Calls(0, k.limit.burst), Calls(t, k.limit.burst);
    var drained := Some(Bucket(0, 0, 0));
    DroppedBurstCalls(k);
    DroppedBurstAnswers(k);
    BurstDrains(k, None, 0, k.limit.burst);
    AnswersConcat(k, None, first, last);
    DroppedAnswersDiffer(k);
    Cancel(Answers(k, None, first), Answers(k, None, last), Answers(k, drained, last));
  }

  lemma Cancel(a: seq<Answer>, b: seq<Answer>, c: seq<Answer>)
    ensures a + b == a + c ==> b == c
  {
    assert (a + b)[|a|..] == b && (a + c)[|a|..] == c;
  }

  /** Dropping idle buckets is invisible to every caller exactly when a full burst
      refills before a bucket may be dropped. */
  lemma SweepsUnobservableIff(k: Keeper)
    requires k.Valid()
    ensures (forall es: seq<KeyEvent>, t: int :: InOrder(es, t) ==> Answers(k, None, es) == Answers(k, None, CallsOnly(es)))
            <==> k.Refills()
  {
    if k.Refills() {
      forall es: seq<KeyEvent>, t: int | InOrder(es, t) ensures Answers(k, None, es) == Answers(k, None, CallsOnly(es)) {
        SweepsUnobservable(k, None, None, t, es);
      }
    } else {
      DroppedBurstAnswers(k);
      SweepObserved(k);
    }
  }

  /** For the gateway's rates and for the script's that is a burst of at most ten
      minutes' requests. */
  lemma TenMinutesOfRequests(rpm: int, burst: int)
    requires 0 < rpm && 0 < burst
    ensures rpm < MINUTE ==> (GatewayKeeper(rpm, burst).Refills() <==> burst <= 10 * rpm)
    ensures rpm < 60_000 ==> (RedisKeeper(rpm, burst).Refills() <==> burst <= 10 * rpm)
  {
    if burst <= 10 * rpm {
      MulMonotone(MINUTE, burst, 10 * rpm);
      MulMonotone(60_000, burst, 10 * rpm);
    } else {
      MulMonotone(MINUTE, 10 * rpm + 1, burst);
      MulMonotone(60_000, 10 * rpm + 1, burst);
    }
  }

  // ---------------------------------------------------------------------
  // The window bound with evictions
  // ---------------------------------------------------------------------

  function CountAllowed(answers: seq<Answer>): nat {
    if answers == [] then 0 else (if answers[0].Allowed? then 1 else 0) + CountAllowed(answers[1..])
  }

  /** What the key can still admit, counted against a clock that keeps refilling. */
  function Potential(k: Keeper, o: Option<Bucket>, t: int): int {
    Available(k.limit, o, t) - k.limit.refill * t
  }

  lemma PotentialWaits(k: Keeper, o: Option<Bucket>, t: int, u: int)
    requires k.Valid() && Settled(k.limit, o, t) && t <= u
    ensures Settled(k.limit, o, u) && Potential(k, o, u) <= Potential(k, o, t)
  {
    AvailableLater(k.limit, o, t, u);
    Distribute(k.limit.refill, u, -t);
  }

  lemma CallPotential(k: Keeper, o: Option<Bucket>, now: int)
    requires k.Valid() && Settled(k.limit, o, now)
    ensures Settled(k.limit, Step(k, o, Call(now)), now)
    ensures Potential(k, Step(k, o, Call(now)), now) + k.limit.token * AdmittedNow(k, o, Call(now)) == Potential(k, o, now)
  {
    CallTakesOne(k, o, now);
  }

  /** A call that is admitted takes a token from the potential; time, calls and
      evictions never add to it, as long as a dropped bucket would have been full. */
  lemma PotentialFalls(k: Keeper, o: Option<Bucket>, t: int, e: KeyEvent)
    requires k.Valid() && Settled(k.limit, o, t) && t <= e.now && (e.Sweep? ==> k.Refills())
    ensures Settled(k.limit, Step(k, o, e), e.now)
    ensures Potential(k, Step(k, o, e), e.now) + k.limit.token * AdmittedNow(k, o, e) <= Potential(k, o, t)
  {
    PotentialWaits(k, o, t, e.now);
    if e.Call? {
      CallPotential(k, o, e.now);
    } else {
      SweepKeepsAlike(k, o, o, e.now);
    }
  }

  predicate Before(es: seq<KeyEvent>, end: int) {
    forall i :: 0 <= i < |es| ==> es[i].now <= end
  }

  lemma {:induction false} AdmittedWithinPotential(k: Keeper, o: Option<Bucket>, t: int, es: seq<KeyEvent>, end: int)
    requires k.Valid() && Settled(k.limit, o, t) && k.Refills() && InOrder(es, t) && t <= end && Before(es, end)
    ensures k.limit.token * CountAllowed(Answers(k, o, es)) <= Potential(k, o, t) + k.limit.refill * end
    decreases |es|
  {
    if es == [] {
      CallTakesOne(k, o, t);
      MulMonotone(k.limit.refill, t, end);
    } else {
      var e := es[0];
      PotentialFalls(k, o, t, e);
      AdmittedWithinPotential(k, Step(k, o, e), e.now, es[1..], end);
      CountStep(k, o, es);
      Chain(k.limit.token, AdmittedNow(k, o, e), CountAllowed(Answers(k, Step(k, o, e), es[1..])),
            Potential(k, o, t), Potential(k, Step(k, o, e), e.now), k.limit.refill * end);
    }
  }

  function AdmittedNow(k: Keeper, o: Option<Bucket>, e: KeyEvent): nat {
    if e.Call? && Admits(k.limit, Found(k.limit, o, e.now), e.now) then 1 else 0
  }

  lemma CountStep(k: Keeper, o: Option<Bucket>, es: seq<KeyEvent>)
    requires k.Valid() && es != []
    ensures CountAllowed(Answers(k, o, es)) == AdmittedNow(k, o, es[0]) + CountAllowed(Answers(k, Step(k, o, es[0]), es[1..]))
  {
    var rest := Answers(k, Step(k, o, es[0]), es[1..]);
    if es[0].Call? {
      assert Answers(k, o, es)[1..] == rest;
    } else {
      assert Answers(k, o, es) == rest;
    }
  }

  lemma Chain(token: int, now: nat, rest: nat, before: int, after: int, more: int)
    requires after + token * now <= before && token * rest <= after + more
    ensures token * (now + rest) <= before + more
  {
    Distribute(token, now, rest);
  }

  /** In any window of any run, with evictions: the burst plus the rate times the
      window's length. */
  lemma SweptWindowBound(k: Keeper, o: Option<Bucket>, from: int, es: seq<KeyEvent>, end: int)
    requires k.Valid() && Settled(k.limit, o, from) && k.Refills() && InOrder(es, from) && from <= end && Before(es, end)
    ensures k.limit.token * CountAllowed(Answers(k, o, es)) <= k.limit.token * k.limit.burst + k.limit.refill * (end - from)
  {
    AdmittedWithinPotential(k, o, from, es, end);
    CallTakesOne(k, o, from);
    Distribute(k.limit.refill, end, -from);
  }

  ghost predicate Bounded(k: Keeper, o: Option<Bucket>, from: int, es: seq<KeyEvent>, end: int)
    requires k.Valid()
  {
    k.limit.token * CountAllowed(Answers(k, o, es)) <= k.limit.token * k.limit.burst + k.limit.refill * (end - from)
  }

  lemma {:induction false} AllAllowedCount(answers: seq<Answer>)
    requires AllAllowed(answers)
    ensures CountAllowed(answers) == |answers|
    decreases |answers|
  {
    if answers != [] { AllAllowedCount(answers[1..]); }
  }

  /** Otherwise a drop between two bursts breaks the bound. */
  lemma DroppedBurstExceeds(k: Keeper)
    requires k.Valid() && !k.Refills()
    ensures InOrder(DroppedBurst(k), 0) && Before(DroppedBurst(k), k.ttl + 1) && Settled(k.limit, None, 0)
    ensures !Bounded(k, None, 0, DroppedBurst(k), k.ttl + 1)
  {
    var t, n := k.ttl + 1, k.limit.burst;
    var first, last := Answers(k, None, Calls(0, n)), Answers(k, None, Calls(t, n));
    DroppedBurstAnswers(k);
    DroppedAnswersDiffer(k);
    BurstAdmittedIff(k, None, t, n);
    assert AllAllowed(first + last);
    AllAllowedCount(first + last);
    Distribute(k.limit.token, n, n);
  }

  /** The window bound holds in every run in time order exactly when a full burst
      refills before a bucket may be dropped. */
  lemma WindowBoundIff(k: Keeper)
    requires k.Valid()
    ensures (forall o: Option<Bucket>, from: int, es: seq<KeyEvent>, end: int ::
               Settled(k.limit, o, from) && InOrder(es, from) && from <= end && Before(es, end) ==> Bounded(k, o, from, es, end))
            <==> k.Refills()
  {
    if k.Refills() {
      forall o: Option<Bucket>, from: int, es: seq<KeyEvent>, end: int
        | Settled(k.limit, o, from) && InOrder(es, from) && from <= end && Before(es, end)
        ensures Bounded(k, o, from, es, end)
      {
        SweptWindowBound(k, o, from, es, end);
      }
    } else {
      DroppedBurstExceeds(k);
    }
  }

  // ---------------------------------------------------------------------
  // The map of buckets
  // ---------------------------------------------------------------------

  datatype Event = Request(key: string, now: int) | Janitor(now: int)

  function Get(m: map<string, Bucket>, key: string): Option<Bucket> {
    if key in m then Some(m[key]) else None
  }

  function Swept(m: map<string, Bucket>, now: int): map<string, Bucket> {
    map key | key in m && !Idle(m[key], now, IDLE_TTL) :: m[key]
  }

  function StepMap(l: Limit, m: map<string, Bucket>, e: Event): map<string, Bucket> {
    match e
    case Request(key, now) => m[key := Spent(Gateway, l, Found(l, Get(m, key), now), now)]
    case Janitor(now) => Swept(m, now)
  }

  /** The answers one key's requests get in a run of the whole limiter. */
  function AnswersFor(l: Limit, m: map<string, Bucket>, es: seq<Event>, key: string): seq<Answer>
    requires l.Valid()
    decreases |es|
  {
    if es == [] then []
    else
      (if es[0].Request? && es[0].key == key then [Reply(Gateway, l, Found(l, Get(m, key), es[0].now), es[0].now)] else [])
      + AnswersFor(l, StepMap(l, m, es[0]), es[1..], key)
  }

  function Project(es: seq<Event>, key: string): seq<KeyEvent> {
    if es == [] then []
    else
      (match es[0]
       case Request(k, now) => if k == key then [Call(now)] else []
       case Janitor(now) => [Sweep(now)])
      + Project(es[1..], key)
  }

  function RequestsOnly(es: seq<Event>): seq<Event> {
    if es == [] then [] else (if es[0].Request? then [es[0]] else []) + RequestsOnly(es[1..])
  }

  /** Keys do not share tokens: a key's answers depend only on its own requests and
      the janitor. */
  lemma {:induction false} KeysAreIndependent(l: Limit, m: map<string, Bucket>, es: seq<Event>, key: string)
    requires l.Valid()
    ensures AnswersFor(l, m, es, key) == Answers(Keeper(Gateway, l, IDLE_TTL), Get(m, key), Project(es, key))
    decreases |es|
  {
    if es != [] {
      KeysAreIndependent(l, StepMap(l, m, es[0]), es[1..], key);
      var rest := Project(es[1..], key);
      if es[0].Janitor? || es[0].key == key {
        assert Project(es, key)[1..] == rest;
      } else {
        assert Project(es, key) == rest;
      }
    }
  }

  lemma {:induction false} ProjectRequests(es: seq<Event>, key: string)
    ensures Project(RequestsOnly(es), key) == CallsOnly(Project(es, key))
    decreases |es|
  {
    if es != [] {
      ProjectRequests(es[1..], key);
      var rest := Project(es[1..], key);
      match es[0]
      case Request(k, now) =>
        assert RequestsOnly(es)[0] == es[0] && RequestsOnly(es)[1..] == RequestsOnly(es[1..]);
        if k == key {
          assert Project(es, key)[1..] == rest;
        } else {
          assert Project(es, key) == rest;
        }
      case Janitor(now) =>
        assert Project(es, key)[1..] == rest;
        assert RequestsOnly(es) == RequestsOnly(es[1..]);
    }
  }

  predicate EventsInOrder(es: seq<Event>, from: int) {
    && (forall i :: 0 <= i < |es| ==> from <= es[i].now)
    && (forall i, j :: 0 <= i < j < |es| ==> es[i].now <= es[j].now)
  }

  lemma {:induction false} ProjectInOrder(es: seq<Event>, key: string, from: int)
    requires EventsInOrder(es, from)
    ensures InOrder(Project(es, key), from)
    decreases |es|
  {
    if es != [] {
      ProjectInOrder(es[1..], key, es[0].now);
    }
  }

  /** So no key of the limiter sees the janitor either. */
  lemma JanitorUnobservable(rpm: int, burst: int, es: seq<Event>, from: int, key: string)
    requires 0 < rpm < MINUTE && 0 < burst <= 10 * rpm && EventsInOrder(es, from)
    ensures var l := GatewayLimit(rpm, burst); AnswersFor(l, map[], es, key) == AnswersFor(l, map[], RequestsOnly(es), key)
  {
    var k := GatewayKeeper(rpm, burst);
    var l := k.limit;
    TenMinutesOfRequests(rpm, burst);
    KeysAreIndependent(l, map[], es, key);
    KeysAreIndependent(l, map[], RequestsOnly(es), key);
    ProjectRequests(es, key);
    ProjectInOrder(es, key, from);
    SweepsUnobservable(k, None, None, from, Project(es, key));
  }

  // ---------------------------------------------------------------------
  // The objects
  // ---------------------------------------------------------------------

  class Limiter {
    const limit: Limit
    var buckets: map<string, Bucket>

    constructor (rpm: int, burst: int)
      ensures limit == GatewayLimit(rpm, burst) && buckets == map[]
    {
      limit, buckets := GatewayLimit(rpm, burst), map[];
    }

    ghost predicate Valid()
      reads this
    {
      limit.Valid() && forall key :: key in buckets ==> Fits(limit, buckets[key])
    }

    method Allow(key: string, now: int) returns (a: Answer)
      requires Valid()
      modifies `buckets
      ensures Valid()
      ensures buckets == StepMap(limit, old(buckets), Request(key, now))
      ensures a == Reply(Gateway, limit, Found(limit, Get(old(buckets), key), now), now)
    {
      ghost var before := Found(limit, Get(buckets, key), now);
      MulMonotone(limit.token, 0, limit.burst);
      LevelFits(limit, before, now);
      if key !in buckets {
        buckets := buckets[key := Bucket(limit.burst * limit.token, now, now)];
      }
      var b := buckets[key];
      var elapsed := now - b.updated;
      if elapsed > 0 {
        b := b.(units := Min(limit.burst * limit.token, b.units + limit.refill * elapsed), updated := now);
      }
      b := b.(seen := now);
      if b.units >= limit.token {
        b := b.(units := b.units - limit.token);
        a := Allowed;
      } else {
        a := Denied((limit.token - b.units) / limit.refill);
      }
      buckets := buckets[key := b];
    }

    /** `order` is the order in which the map is walked. */
    method SweepOnce(now: int, order: seq<string>)
      requires forall key :: key in buckets ==> key in order
      modifies `buckets
      ensures buckets == StepMap(limit, old(buckets), Janitor(now))
    {
      for k := 0 to |order|
        invariant forall key :: key in buckets ==> key in old(buckets) && buckets[key] == old(buckets)[key]
        invariant forall key :: key in old(buckets) && key !in buckets ==> Idle(old(buckets)[key], now, IDLE_TTL)
        invariant forall key :: key in buckets && key in order[..k] ==> !Idle(buckets[key], now, IDLE_TTL)
      {
        if order[k] in buckets && buckets[order[k]].seen < now - IDLE_TTL {
          buckets := buckets - {order[k]};
        }
        assert order[..k + 1] == order[..k] + [order[k]];
      }
      assert order[..|order|] == order;
    }
  }

  /** The Redis hash of one key, as the script updates it. */
  class SharedBucket {
    const limit: Limit
    var stored: Option<Bucket>

    constructor (rpm: int, burst: int)
      ensures limit == ScriptLimit(rpm, burst) && stored == None
    {
      limit, stored := ScriptLimit(rpm, burst), None;
    }

    ghost predicate Valid()
      reads this
    {
      limit.Valid() && (stored.Some? ==> Fits(limit, stored.value))
    }

    method Eval(now: int) returns (a: Answer)
      requires Valid()
      modifies `stored
      ensures Valid()
      ensures stored == Some(Spent(Script, limit, Found(limit, old(stored), now), now))
      ensures a == Reply(Script, limit, Found(limit, old(stored), now), now)
    {
      MulMonotone(limit.token, 0, limit.burst);
      LevelFits(limit, Found(limit, stored, now), now);
      var units, updated := limit.burst * limit.token, now;
      if stored.Some? {
        units, updated := stored.value.units, stored.value.updated;
      }
      var elapsed := Max(0, now - updated);
      units := Min(limit.burst * limit.token, units + limit.refill * elapsed);
      updated := now;
      if units >= limit.token {
        units := units - limit.token;
        a := Allowed;
      } else {
        var retry := CeilDiv(limit.token - units, limit.refill);
        if retry < 1 { retry := 1; }
        a := Denied(retry);
      }
      stored := Some(Bucket(units, updated, now));
    }
  }

  /** The bucket of one websocket connection. */
  class TokenBucket {
    const limit: Limit
    var units: int
    var last: int

    constructor (now: int)
      ensures limit == SOCKET_LIMIT && Content() == Full(limit, now)
    {
      limit, units, last := SOCKET_LIMIT, SOCKET_LIMIT.Cap(), now;
    }

    ghost function Content(): Bucket
      reads this
    {
      Bucket(units, last, last)
    }

    method Allow(now: int) returns (ok: bool)
      requires limit.Valid() && Fits(limit, Content())
      modifies `units, `last
      ensures Fits(limit, Content())
      ensures Content() == Spent(Socket, limit, old(Content()), now)
      ensures ok <==> Admits(limit, old(Content()), now)
    {
      LevelFits(limit, Content(), now);
      var elapsed := now - last;
      if elapsed > 0 {
        units := units + limit.refill * elapsed;
        if units > limit.Cap() { units := limit.Cap(); }
      }
      last := now;
      if units < limit.token {
        return false;
      }
      units := units - limit.token;
      ok := true;
    }
  }
}
