/** The lease and generation-fencing protocol of one job.

    Workers, the sweeper, users and the dispatcher race on the row through the
    guarded statements of `JobRows`. The broker is left completely free: a
    delivery may carry any generation at any time, so duplicates, reordering,
    stale messages and pre-lease messages (generation 0) are all runs of this
    machine. Times are unconstrained too, except where a lemma says otherwise. */
module LeaseProtocol {
  import opened JobRows

  /** What a worker goroutine keeps between its claim and its single finish
      write. `open` turns false once it has written, crashed or given up. */
  datatype Claim = Claim(worker: string, generation: int, attempts: int, maxAttempts: int, open: bool)

  /** The row, every claim ever made on it, and two histories: accepted finish
      writes since the insert or the last requeue, and the generations in which
      the row entered DEAD. */
  datatype Cell = Cell(row: Row, claims: seq<Claim>, finishes: int, deaths: seq<int>)

  datatype Event =
    | Dispatch(now: int)
    | UserCancel
    | ProduceFailed
    | Deliver(worker: string, msgGeneration: int, lease: int, now: int)
    | RenewTick(claim: nat, lease: int, now: int)
    | Succeed(claim: nat)
    | FailRetryable(claim: nat, lease: int, now: int)
    | FailPermanent(claim: nat)
    | Crash(claim: nat)
    | Sweep(now: int)
    | UserRequeue
    | RevertRequeue

  predicate OpenClaim(c: Cell, i: nat) {
    i < |c.claims| && c.claims[i].open
  }

  function Close(c: Cell, i: nat): Cell
    requires i < |c.claims|
  {
    c.(claims := c.claims[i := c.claims[i].(open := false)])
  }

  /** The row an event writes, or `None` when it writes nothing. */
  function Write(c: Cell, e: Event): Option<Row> {
    match e
    case Dispatch(now) => Release(c.row, now)
    case UserCancel => Cancel(c.row)
    case ProduceFailed => MarkQueuedFailed(c.row)
    case Deliver(w, g, lease, now) => StartFence(c.row, w, g, lease, now)
    case RenewTick(i, lease, now) =>
      if OpenClaim(c, i) then Renew(c.row, c.claims[i].generation, lease, now) else None
    case Succeed(i) =>
      if OpenClaim(c, i) then FinishSuccess(c.row, c.claims[i].generation, c.claims[i].attempts + 1) else None
    case FailRetryable(i, lease, now) =>
      if OpenClaim(c, i) then
        var k := c.claims[i];
        var attempt := k.attempts + 1;
        FinishFailure(c.row, k.generation, attempt, attempt >= k.maxAttempts, RetryBackoff(attempt) + lease, now)
      else None
    case FailPermanent(i) =>
      if OpenClaim(c, i) then
        FinishFailure(c.row, c.claims[i].generation, c.claims[i].attempts + 1, true, 0, 0)
      else None
    case Crash(_) => None
    case Sweep(now) => Recover(c.row, now)
    case UserRequeue => Requeue(c.row)
    case RevertRequeue => RequeueRevert(c.row)
  }

  predicate IsFinish(e: Event) {
    e.Succeed? || e.FailRetryable? || e.FailPermanent?
  }

  /** The claim on whose behalf a worker acts. */
  predicate ActsFor(e: Event, i: nat) {
    (e.RenewTick? || IsFinish(e) || e.Crash?) && e.claim == i
  }

  /** Claims after an event: a delivery that wins the fence opens one; a finish
      or a crash closes its claim; so does a renewal that finds the lease lost. */
  function ClaimsAfter(c: Cell, e: Event): seq<Claim> {
    var w := Write(c, e);
    if e.Deliver? then
      if w.Some? then
        c.claims + [Claim(e.worker, w.value.generation, w.value.attempts, w.value.maxAttempts, true)]
      else c.claims
    else if (IsFinish(e) || e.Crash? || (e.RenewTick? && w.None?)) && e.claim < |c.claims| then
      Close(c, e.claim).claims
    else c.claims
  }

  function Step(c: Cell, e: Event): Cell {
    var w := Write(c, e);
    if w.None? then c.(claims := ClaimsAfter(c, e))
    else
      Cell(w.value,
           ClaimsAfter(c, e),
           if e.UserRequeue? then 0 else if IsFinish(e) then c.finishes + 1 else c.finishes,
           if w.value.status == Dead then c.deaths + [w.value.generation] else c.deaths)
  }

  function Init(maxAttempts: int, scheduledAt: Option<int>): Cell {
    Cell(Inserted(maxAttempts, scheduledAt), [], 0, [])
  }

  /** State after a whole run. */
  function Run(c: Cell, es: seq<Event>): Cell {
    if es == [] then c else Step(Run(c, es[..|es| - 1]), es[|es| - 1])
  }

  lemma {:induction false} RunConcat(c: Cell, es: seq<Event>, fs: seq<Event>)
    ensures Run(c, es + fs) == Run(Run(c, es), fs)
  {
    if fs == [] {
      assert es + fs == es;
    } else {
      var n := |fs| - 1;
      RunConcat(c, es, fs[..n]);
      assert (es + fs)[..|es + fs| - 1] == es + fs[..n];
    }
  }

  // ---------------------------------------------------------------------
  // The inductive invariant
  // ---------------------------------------------------------------------

  predicate RowInv(r: Row) {
    && 0 <= r.attempts <= r.maxAttempts
    && 1 <= r.maxAttempts
    && 1 <= r.generation
    && (r.status in {Queued, Scheduled, Processing, Retrying} ==> r.attempts < r.maxAttempts)
    && (r.status in {Processing, Retrying} ==> r.lease.Some?)
    && (r.status in {Queued, Scheduled} ==> r.lease.None?)
  }

  /** A claim holding the row's current generation is the running one: the row
      is PROCESSING for that worker and has not changed its attempts since. */
  predicate ClaimInv(r: Row, k: Claim) {
    && k.generation <= r.generation
    && (k.open && k.generation == r.generation ==>
          r.status == Processing && k.worker == r.worker
          && k.attempts == r.attempts && k.maxAttempts == r.maxAttempts)
  }

  ghost predicate ClaimsInv(c: Cell) {
    && (forall i :: 0 <= i < |c.claims| ==> ClaimInv(c.row, c.claims[i]))
    && (forall i, j :: 0 <= i < j < |c.claims| && c.claims[i].open && c.claims[j].open ==>
          c.claims[i].generation < c.claims[j].generation)
  }

  ghost predicate DeathsInv(c: Cell) {
    && (forall i, j :: 0 <= i < j < |c.deaths| ==> c.deaths[i] < c.deaths[j])
    && (forall i :: 0 <= i < |c.deaths| ==>
          c.deaths[i] <= c.row.generation && (c.row.status != Dead ==> c.deaths[i] < c.row.generation))
  }

  ghost predicate Inv(c: Cell) {
    RowInv(c.row) && ClaimsInv(c) && DeathsInv(c) && c.finishes == c.row.attempts
  }

  /** The one open claim of the current generation, whenever a claim writes. */
  lemma WriterHoldsRow(c: Cell, e: Event)
    requires Inv(c) && (e.RenewTick? || IsFinish(e)) && Write(c, e).Some?
    ensures OpenClaim(c, e.claim)
    ensures c.claims[e.claim].generation == c.row.generation && c.claims[e.claim].worker == c.row.worker
    ensures c.claims[e.claim].attempts == c.row.attempts && c.claims[e.claim].maxAttempts == c.row.maxAttempts
    ensures forall j: nat :: OpenClaim(c, j) && c.claims[j].generation == c.row.generation ==> j == e.claim
  {
    assert ClaimInv(c.row, c.claims[e.claim]);
  }

  lemma StepKeepsRow(c: Cell, e: Event)
    requires Inv(c)
    ensures RowInv(Step(c, e).row) && Step(c, e).finishes == Step(c, e).row.attempts
    ensures c.row.generation <= Step(c, e).row.generation
    ensures c.row.maxAttempts == Step(c, e).row.maxAttempts
  {
    if (e.RenewTick? || IsFinish(e)) && Write(c, e).Some? {
      WriterHoldsRow(c, e);
    }
  }

  lemma StepKeepsEachClaim(c: Cell, e: Event, i: nat)
    requires Inv(c) && i < |Step(c, e).claims|
    ensures ClaimInv(Step(c, e).row, Step(c, e).claims[i])
  {
    if (e.RenewTick? || IsFinish(e)) && Write(c, e).Some? {
      WriterHoldsRow(c, e);
    }
    if i < |c.claims| { assert ClaimInv(c.row, c.claims[i]); }
  }

  lemma StepKeepsClaimOrder(c: Cell, e: Event, i: nat, j: nat)
    requires Inv(c) && i < j < |Step(c, e).claims| && Step(c, e).claims[i].open && Step(c, e).claims[j].open
    ensures Step(c, e).claims[i].generation < Step(c, e).claims[j].generation
  {
    assert ClaimInv(c.row, c.claims[i]);
  }

  lemma StepKeepsClaims(c: Cell, e: Event)
    requires Inv(c)
    ensures ClaimsInv(Step(c, e))
  {
    var d := Step(c, e);
    forall i | 0 <= i < |d.claims| ensures ClaimInv(d.row, d.claims[i]) {
      StepKeepsEachClaim(c, e, i);
    }
    forall i, j | 0 <= i < j < |d.claims| && d.claims[i].open && d.claims[j].open
      ensures d.claims[i].generation < d.claims[j].generation
    {
      StepKeepsClaimOrder(c, e, i, j);
    }
  }

  lemma StepKeepsDeaths(c: Cell, e: Event)
    requires Inv(c)
    ensures DeathsInv(Step(c, e))
  {
    StepKeepsRow(c, e);
  }

  lemma StepKeepsInv(c: Cell, e: Event)
    requires Inv(c)
    ensures Inv(Step(c, e))
  {
    StepKeepsRow(c, e);
    StepKeepsClaims(c, e);
    StepKeepsDeaths(c, e);
  }

  lemma {:induction false} RunKeepsInv(c: Cell, es: seq<Event>)
    requires Inv(c)
    ensures Inv(Run(c, es))
  {
    if es != [] {
      var n := |es| - 1;
      RunKeepsInv(c, es[..n]);
      StepKeepsInv(Run(c, es[..n]), es[n]);
    }
  }

  lemma ReachableInv(max: int, at: Option<int>, es: seq<Event>)
    requires 1 <= max
    ensures Inv(Run(Init(max, at), es))
  {
    RunKeepsInv(Init(max, at), es);
  }

  // ---------------------------------------------------------------------
  // Exclusivity and fencing
  // ---------------------------------------------------------------------

  /** In every reachable state a renewal or finish that is accepted comes from
      the worker named in the row, although no statement checks worker_id, and
      from the only unfinished claim of the row's generation. */
  lemma AcceptedWriteIsExclusive(max: int, at: Option<int>, es: seq<Event>, e: Event)
    requires 1 <= max && (e.RenewTick? || IsFinish(e))
    requires Write(Run(Init(max, at), es), e).Some?
    ensures var c := Run(Init(max, at), es);
            && c.row.status == Processing
            && OpenClaim(c, e.claim)
            && c.claims[e.claim].worker == c.row.worker
            && c.claims[e.claim].generation == c.row.generation
            && forall j: nat :: OpenClaim(c, j) && c.claims[j].generation == c.row.generation ==> j == e.claim
  {
    ReachableInv(max, at, es);
    WriterHoldsRow(Run(Init(max, at), es), e);
  }

  /** No two unfinished claims ever share a generation, and a claim of the
      current generation is unfinished only while the row is PROCESSING. */
  lemma OpenClaimsNeverShareGeneration(max: int, at: Option<int>, es: seq<Event>, i: nat, j: nat)
    requires 1 <= max
    requires OpenClaim(Run(Init(max, at), es), i) && OpenClaim(Run(Init(max, at), es), j)
    ensures var c := Run(Init(max, at), es);
            && (i != j ==> c.claims[i].generation != c.claims[j].generation)
            && c.claims[i].generation <= c.row.generation
            && (c.claims[i].generation == c.row.generation ==> c.row.status == Processing)
  {
    ReachableInv(max, at, es);
    var c := Run(Init(max, at), es);
    assert ClaimInv(c.row, c.claims[i]);
    if i < j { assert c.claims[i].generation < c.claims[j].generation; }
    if j < i { assert c.claims[j].generation < c.claims[i].generation; }
  }

  /** Identity of a claim never changes and a closed claim never reopens. */
  lemma {:induction false} ClaimsPersist(c: Cell, es: seq<Event>, i: nat)
    requires i < |c.claims|
    ensures var d := Run(c, es);
            && i < |d.claims|
            && d.claims[i].(open := true) == c.claims[i].(open := true)
            && (d.claims[i].open ==> c.claims[i].open)
  {
    if es != [] {
      ClaimsPersist(c, es[..|es| - 1], i);
    }
  }

  lemma {:induction false} GenerationNeverFalls(c: Cell, es: seq<Event>)
    requires Inv(c)
    ensures c.row.generation <= Run(c, es).row.generation
  {
    if es != [] {
      var n := |es| - 1;
      GenerationNeverFalls(c, es[..n]);
      RunKeepsInv(c, es[..n]);
      StepKeepsRow(Run(c, es[..n]), es[n]);
    }
  }

  /** Once the generation has moved past a claim, nothing that claim does in any
      continuation of the run changes the row again. */
  lemma StaleClaimIsInert(max: int, at: Option<int>, es: seq<Event>, fs: seq<Event>, i: nat, e: Event)
    requires 1 <= max && ActsFor(e, i)
    requires i < |Run(Init(max, at), es).claims|
    requires Run(Init(max, at), es).claims[i].generation < Run(Init(max, at), es).row.generation
    ensures Step(Run(Init(max, at), es + fs), e).row == Run(Init(max, at), es + fs).row
  {
    var c := Run(Init(max, at), es);
    ReachableInv(max, at, es);
    RunConcat(Init(max, at), es, fs);
    ClaimsPersist(c, fs, i);
    GenerationNeverFalls(c, fs);
  }

  /** A message whose non-zero generation the row has left behind never starts
      the job again, however often the broker redelivers it. */
  lemma StaleMessageNeverStarts(max: int, at: Option<int>, es: seq<Event>, fs: seq<Event>, e: Event)
    requires 1 <= max && e.Deliver?
    requires 0 < e.msgGeneration < Run(Init(max, at), es).row.generation
    ensures Step(Run(Init(max, at), es + fs), e) == Run(Init(max, at), es + fs)
  {
    ReachableInv(max, at, es);
    RunConcat(Init(max, at), es, fs);
    GenerationNeverFalls(Run(Init(max, at), es), fs);
  }

  /** A claim writes at most one result: after its finish it never writes. */
  lemma FinishIsLast(c: Cell, e: Event, fs: seq<Event>, f: Event)
    requires IsFinish(e) && OpenClaim(c, e.claim) && ActsFor(f, e.claim)
    ensures Write(Run(Step(c, e), fs), f).None?
  {
    ClaimsPersist(Step(c, e), fs, e.claim);
  }

  // ---------------------------------------------------------------------
  // Attempts
  // ---------------------------------------------------------------------

  /** attempts counts the accepted finish writes since the insert or the last
      requeue, stays within max_attempts, and leaves room for one more attempt
      in every row that may still run; so the sweeper never finds a row whose
      attempts are exhausted and never writes DEAD. */
  lemma AttemptsCountFinishes(max: int, at: Option<int>, es: seq<Event>, now: int)
    requires 1 <= max
    ensures var c := Run(Init(max, at), es);
            && c.row.attempts == FinishesSinceRequeue(Init(max, at), es)
            && c.row.maxAttempts == max
            && 0 <= c.row.attempts <= max
            && (c.row.status in {Queued, Scheduled, Processing, Retrying} ==> c.row.attempts < max)
            && (Recover(c.row, now).Some? ==> Recover(c.row, now).value.status == Retrying)
  {
    ReachableInv(max, at, es);
    FinishesAgree(Init(max, at), es);
    MaxAttemptsFixed(max, at, es);
  }

  /** Independent count over the events of a run. */
  function FinishesSinceRequeue(c: Cell, es: seq<Event>): int {
    if es == [] then 0
    else
      var n := |es| - 1;
      var before := FinishesSinceRequeue(c, es[..n]);
      if Write(Run(c, es[..n]), es[n]).None? then before
      else if es[n].UserRequeue? then 0
      else if IsFinish(es[n]) then before + 1
      else before
  }

  lemma {:induction false} FinishesAgree(c: Cell, es: seq<Event>)
    requires c.finishes == 0
    ensures Run(c, es).finishes == FinishesSinceRequeue(c, es)
  {
    if es != [] {
      FinishesAgree(c, es[..|es| - 1]);
    }
  }

  lemma {:induction false} MaxAttemptsFixed(max: int, at: Option<int>, es: seq<Event>)
    requires 1 <= max
    ensures Run(Init(max, at), es).row.maxAttempts == max
  {
    if es != [] {
      var n := |es| - 1;
      MaxAttemptsFixed(max, at, es[..n]);
      ReachableInv(max, at, es[..n]);
      StepKeepsRow(Run(Init(max, at), es[..n]), es[n]);
    }
  }

  predicate CrashLoopEvent(e: Event) {
    e.Deliver? || e.RenewTick? || e.Crash? || e.Sweep?
  }

  /** Workers that die on every delivery burn no attempt and never kill the job,
      for a loop of any length. */
  lemma {:induction false} CrashLoopBurnsNothing(c: Cell, es: seq<Event>)
    requires Inv(c) && c.row.status != Dead
    requires forall k :: 0 <= k < |es| ==> CrashLoopEvent(es[k])
    ensures Run(c, es).row.attempts == c.row.attempts && Run(c, es).row.status != Dead
  {
    if es != [] {
      var n := |es| - 1;
      CrashLoopBurnsNothing(c, es[..n]);
      RunKeepsInv(c, es[..n]);
      assert CrashLoopEvent(es[n]);
    }
  }

  // ---------------------------------------------------------------------
  // The status machine over whole runs
  // ---------------------------------------------------------------------

  /** Edges that runs take: the documented table, the sweeper's RETRYING
      self-loop, and the revert of a requeue that could not be published. */
  predicate TakenEdge(from: Status, to: Status) {
    LegalTransition(from, to) || (from == Retrying && to == Retrying) || (from == Queued && to == Dead)
  }

  lemma EveryStatusChangeIsTaken(max: int, at: Option<int>, es: seq<Event>, e: Event)
    requires 1 <= max
    ensures var c := Run(Init(max, at), es);
            Write(c, e).Some? && !e.RenewTick? ==> TakenEdge(c.row.status, Step(c, e).row.status)
    ensures var c := Run(Init(max, at), es);
            Write(c, e).None? || e.RenewTick? ==> Step(c, e).row.status == c.row.status
  {
    ReachableInv(max, at, es);
  }

  lemma RunOne(c: Cell, a: Event)
    ensures Run(c, [a]) == Step(c, a)
  {
    assert [a][..0] == [];
  }

  lemma RunTwo(c: Cell, a: Event, b: Event)
    ensures Run(c, [a, b]) == Step(Step(c, a), b)
  {
    assert [a, b][..1] == [a];
    RunOne(c, a);
  }

  /** A short run that brings a fresh job to where it can take an edge. A revert
      needs a requeue before it, hence a job that had died. */
  function RunTo(from: Status, to: Status): seq<Event> {
    match from
    case Processing => [Deliver("w", 1, 10, 0)]
    case Retrying => [Deliver("w", 1, 10, 0), FailRetryable(0, 10, 0)]
    case Dead => [Deliver("w", 1, 10, 0), FailPermanent(0)]
    case Queued => if to == Dead then [Deliver("w", 1, 10, 0), FailPermanent(0), UserRequeue] else []
    case _ => []
  }

  /** The job that `RunTo` starts from. */
  function Fresh(from: Status): Cell {
    Init(4, if from == Scheduled then Some(0) else None)
  }

  /** What `RunTo` leaves behind, status by status. */
  predicate Ready(c: Cell, from: Status, to: Status) {
    && c.row.status == from && (c.row.generation == 1 || to == Dead)
    && (from == Scheduled ==> c.row.scheduledAt == Some(0))
    && (from == Processing ==> c.row.generation == 1 && c.claims == [Claim("w", 1, 0, 4, true)])
    && (from == Retrying ==> c.row.lease == Some(110) && c.row.attempts == 1 && c.row.maxAttempts == 4)
  }

  lemma RunThree(c: Cell, a: Event, b: Event, d: Event)
    ensures Run(c, [a, b, d]) == Step(Step(Step(c, a), b), d)
  {
    assert [a, b, d][..2] == [a, b];
    RunTwo(c, a, b);
  }

  lemma RunToReaches(from: Status, to: Status)
    requires TakenEdge(from, to)
    ensures Ready(Run(Fresh(from), RunTo(from, to)), from, to)
  {
    var c, start := Fresh(from), Deliver("w", 1, 10, 0);
    Started(c);
    match from
    case Processing => RunOne(c, start);
    case Retrying => RunTwo(c, start, FailRetryable(0, 10, 0));
    case Dead => RunTwo(c, start, FailPermanent(0));
    case Queued => if to == Dead { RunThree(c, start, FailPermanent(0), UserRequeue); }
    case Scheduled =>
  }

  /** The first steps of a fresh job, and how it can go on. */
  lemma Started(c: Cell)
    requires c == Init(4, None) || c == Init(4, Some(0))
    ensures c == Init(4, None) ==>
              var run := Step(c, Deliver("w", 1, 10, 0));
              && run.row == Row(Processing, 0, 4, 1, "w", Some(10), None) && run.claims == [Claim("w", 1, 0, 4, true)]
              && Step(run, FailRetryable(0, 10, 0)).row == Row(Retrying, 1, 4, 1, "w", Some(110), None)
              && Step(run, FailPermanent(0)).row == Row(Dead, 1, 4, 1, "w", None, None)
              && Step(Step(run, FailPermanent(0)), UserRequeue).row == Row(Queued, 0, 4, 2, "", None, None)
  {
  }

  function EdgeEvent(from: Status, to: Status): Event
    requires TakenEdge(from, to)
  {
    match to
    case Processing => Deliver("w", 1, 10, 0)
    case Cancelled => UserCancel
    case Failed => ProduceFailed
    case Success => Succeed(0)
    case Retrying => if from == Retrying then Sweep(1_000_000) else FailRetryable(0, 10, 0)
    case Dead => if from == Queued then RevertRequeue else FailPermanent(0)
    case Queued => if from == Dead then UserRequeue else Dispatch(0)
  }

  lemma ReadyTakesEdge(c: Cell, from: Status, to: Status)
    requires TakenEdge(from, to) && Ready(c, from, to)
    ensures Write(c, EdgeEvent(from, to)).Some? && Step(c, EdgeEvent(from, to)).row.status == to
  {
  }

  /** The converse: every edge in the list is taken by some run, so the list is
      exactly the set of status changes the service makes. */
  lemma EveryTakenEdgeHappens(from: Status, to: Status)
    requires TakenEdge(from, to)
    ensures var c := Run(Fresh(from), RunTo(from, to));
            && c.row.status == from
            && Write(c, EdgeEvent(from, to)).Some?
            && Step(c, EdgeEvent(from, to)).row.status == to
  {
    RunToReaches(from, to);
    ReadyTakesEdge(Run(Fresh(from), RunTo(from, to)), from, to);
  }

  predicate Absorbing(s: Status) {
    s == Success || s == Failed || s == Cancelled
  }

  /** SUCCESS, FAILED and CANCELLED rows never change again. DEAD, which the
      service also calls terminal, is left out: a requeue resurrects it. */
  lemma {:induction false} AbsorbingForever(c: Cell, es: seq<Event>)
    requires Inv(c) && Absorbing(c.row.status)
    ensures Run(c, es).row == c.row
  {
    if es != [] {
      AbsorbingForever(c, es[..|es| - 1]);
    }
  }

  /** A job succeeds at most once: after an accepted success write, no later
      event of any run writes the row at all. */
  lemma SuccessIsFinal(max: int, at: Option<int>, es: seq<Event>, i: nat, fs: seq<Event>, e: Event)
    requires 1 <= max && Write(Run(Init(max, at), es), Succeed(i)).Some?
    ensures Write(Run(Step(Run(Init(max, at), es), Succeed(i)), fs), e).None?
  {
    var c := Run(Init(max, at), es);
    ReachableInv(max, at, es);
    RunKeepsInv(c, [Succeed(i)]);
    RunOne(c, Succeed(i));
    AbsorbingForever(Step(c, Succeed(i)), fs);
  }

  /** DEAD is entered at most once per generation, and never at a generation
      below an earlier death. */
  lemma DeadOncePerGeneration(max: int, at: Option<int>, es: seq<Event>, i: nat, j: nat)
    requires 1 <= max && i < j < |Run(Init(max, at), es).deaths|
    ensures Run(Init(max, at), es).deaths[i] < Run(Init(max, at), es).deaths[j]
  {
    ReachableInv(max, at, es);
  }

  // ---------------------------------------------------------------------
  // No stranding
  // ---------------------------------------------------------------------

  /** A PROCESSING or RETRYING row always carries a lease, so the moment the
      clock passes it the sweep is enabled; the takeover then keeps the job
      runnable, outdates every existing claim and message, and gives the
      republished message a fresh lease in which no second sweep can fire. */
  lemma StrandedJobIsRecovered(max: int, at: Option<int>, es: seq<Event>, now: int)
    requires 1 <= max
    requires Run(Init(max, at), es).row.status in {Processing, Retrying}
    ensures var c := Run(Init(max, at), es);
            && c.row.lease.Some?
            && (Write(c, Sweep(now)).Some? <==> c.row.lease.value < now)
            && (c.row.lease.value < now ==>
                  var d := Step(c, Sweep(now));
                  && d.row.status == Retrying && d.row.attempts == c.row.attempts
                  && d.row.generation == c.row.generation + 1
                  && (forall k :: 0 <= k < |d.claims| ==> d.claims[k].generation < d.row.generation)
                  && (forall t :: t <= now + RECOVER_LEASE_MS ==> !Sweepable(d.row, t)))
  {
    ReachableInv(max, at, es);
    var c := Run(Init(max, at), es);
    forall k | 0 <= k < |c.claims| ensures c.claims[k].generation <= c.row.generation {
      assert ClaimInv(c.row, c.claims[k]);
    }
  }

  /** The lease written with a retry outlives the backoff: while the worker's
      own retry timer is pending the sweeper cannot take the job over. */
  lemma RetryLeaseCoversBackoff(c: Cell, i: nat, lease: int, now: int, t: int)
    requires Inv(c) && 0 <= lease && Write(c, FailRetryable(i, lease, now)).Some?
    requires Step(c, FailRetryable(i, lease, now)).row.status == Retrying
    requires t <= now + RetryBackoff(c.row.attempts + 1)
    ensures !Sweepable(Step(c, FailRetryable(i, lease, now)).row, t)
  {
    WriterHoldsRow(c, FailRetryable(i, lease, now));
  }
}
