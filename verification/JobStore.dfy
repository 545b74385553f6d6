/** The jobs table as the store functions update it, plus the two passes that
    loop over it: the sweeper and the delayed-job dispatcher. Each method is one
    statement or transaction. A ghost cell per job records its history, and every
    method keeps the table an image of protocol runs: whatever sequence of
    operations is called, each row is the row of a run of `LeaseProtocol`. */
module JobStore {
  import opened JobRows
  import opened LeaseProtocol

  datatype Attempt = Attempt(job: string, number: int, worker: string)
  datatype Outcome = Updated(row: Row) | NotFound | Conflict(status: Status)

  const DISPATCHER_BATCH_SIZE := 100
  const SWEEPER_BATCH_SIZE := 100

  // ---------------------------------------------------------------------
  // Jobs as protocol runs
  // ---------------------------------------------------------------------

  /** What happens to the table: a job is inserted, or takes a protocol event. */
  datatype Entry = New(id: string, max: int, at: Option<int>) | Job(id: string, e: Event)

  function Applied(cells: map<string, Cell>, x: Entry): map<string, Cell> {
    match x
    case New(id, max, at) => if id in cells || max < 1 then cells else cells[id := Init(max, at)]
    case Job(id, e) => Took(cells, id, e)
  }

  /** The jobs after a log of entries. */
  function Replay(log: seq<Entry>): map<string, Cell> {
    if log == [] then map[] else Applied(Replay(log[..|log| - 1]), log[|log| - 1])
  }

  /** The entries that concern one job, and the limits it was inserted with. */
  function EventsOf(log: seq<Entry>, id: string): seq<Event> {
    if log == [] then []
    else
      var x, before := log[|log| - 1], EventsOf(log[..|log| - 1], id);
      if x.Job? && x.id == id && id in Replay(log[..|log| - 1]) then before + [x.e] else before
  }

  function LimitOf(log: seq<Entry>, id: string): (int, Option<int>) {
    if log == [] then (1, None)
    else
      var x := log[|log| - 1];
      if x.New? && x.id == id && id !in Replay(log[..|log| - 1]) && 1 <= x.max then (x.max, x.at)
      else LimitOf(log[..|log| - 1], id)
  }

  /** Jobs share no state: whatever happens to the whole table, each job goes
      through a run of the protocol, made of its own events alone. */
  lemma {:induction false} JobIsProtocolRun(log: seq<Entry>, id: string)
    requires id in Replay(log)
    ensures 1 <= LimitOf(log, id).0
    ensures Replay(log)[id] == Run(Init(LimitOf(log, id).0, LimitOf(log, id).1), EventsOf(log, id))
    decreases |log|
  {
    var n := |log| - 1;
    var before, x := Replay(log[..n]), log[n];
    if id in before {
      JobIsProtocolRun(log[..n], id);
      if x.Job? && x.id == id {
        RunSnoc(Init(LimitOf(log, id).0, LimitOf(log, id).1), EventsOf(log[..n], id), x.e);
      }
    } else {
      NoEventsYet(log[..n], id);
    }
  }

  lemma {:induction false} NoEventsYet(log: seq<Entry>, id: string)
    requires id !in Replay(log)
    ensures EventsOf(log, id) == []
    decreases |log|
  {
    if log != [] { NoEventsYet(log[..|log| - 1], id); }
  }

  lemma RunSnoc(c: Cell, es: seq<Event>, e: Event)
    ensures Run(c, es + [e]) == Step(Run(c, es), e)
  {
    assert (es + [e])[..|es + [e]| - 1] == es;
  }

  lemma JobInv(log: seq<Entry>, id: string)
    requires id in Replay(log)
    ensures Inv(Replay(log)[id])
  {
    JobIsProtocolRun(log, id);
    ReachableInv(LimitOf(log, id).0, LimitOf(log, id).1, EventsOf(log, id));
  }

  function RowsOf(cells: map<string, Cell>): map<string, Row> {
    map id | id in cells :: cells[id].row
  }

  /** One job takes an event; every other job keeps its history. */
  function Took(cells: map<string, Cell>, id: string, e: Event): map<string, Cell> {
    if id in cells then cells[id := Step(cells[id], e)] else cells
  }

  /** A live claim presents the generation and the attempt it was handed. */
  ghost predicate Presents(cells: map<string, Cell>, id: string, claim: nat, generation: int, attempt: int, worker: string) {
    id in cells ==>
      && OpenClaim(cells[id], claim)
      && cells[id].claims[claim].generation == generation
      && cells[id].claims[claim].attempts + 1 == attempt
      && cells[id].claims[claim].worker == worker
  }

  /** The fence of a live claim: its write is accepted exactly while the row still
      carries its generation. The status guard adds nothing, and a row in that
      state belongs to the claim's worker and has not changed its attempts. */
  lemma LiveClaimFence(c: Cell, i: nat)
    requires Inv(c) && OpenClaim(c, i)
    ensures c.claims[i].generation <= c.row.generation
    ensures c.claims[i].generation == c.row.generation ==>
              && c.row.status == Processing && c.row.worker == c.claims[i].worker
              && c.row.attempts == c.claims[i].attempts < c.row.maxAttempts == c.claims[i].maxAttempts
              && forall j: nat :: OpenClaim(c, j) && c.claims[j].generation == c.row.generation ==> j == i
  {
    assert ClaimInv(c.row, c.claims[i]);
  }

  /** The worker's decision on a failed run: a permanent error, or a retryable one,
      which is dead exactly when it used up the last attempt. */
  ghost predicate Decides(e: Event, claim: nat, attempt: int, max: int, dead: bool, retryLease: int, now: int) {
    if e == FailPermanent(claim) then dead
    else e.FailRetryable? && e.claim == claim && e.now == now && 0 <= e.lease
         && retryLease == RetryBackoff(attempt) + e.lease && (dead <==> attempt >= max)
  }

  /** What such a failure does to the job. */
  lemma FailureEffect(c: Cell, e: Event, claim: nat, dead: bool, retryLease: int, now: int)
    requires Inv(c) && OpenClaim(c, claim)
    requires Decides(e, claim, c.claims[claim].attempts + 1, c.claims[claim].maxAttempts, dead, retryLease, now)
    ensures !OpenClaim(Step(c, e), claim)
    ensures c.claims[claim].generation != c.row.generation ==> Step(c, e).row == c.row
    ensures c.claims[claim].generation == c.row.generation ==>
              && (dead ==> Step(c, e).row == c.row.(status := Dead, attempts := c.row.attempts + 1, lease := None))
              && (!dead ==> Step(c, e).row
                            == c.row.(status := Retrying, attempts := c.row.attempts + 1, lease := Some(now + retryLease)))
              && (!dead ==> c.row.attempts + 1 < c.row.maxAttempts)
  {
    LiveClaimFence(c, claim);
  }

  /** Only a PROCESSING row has a live claim of its generation. */
  lemma IdleRowHasNoClaim(c: Cell, i: nat)
    requires Inv(c) && c.row.status != Processing && OpenClaim(c, i)
    ensures c.claims[i].generation < c.row.generation
  {
    LiveClaimFence(c, i);
  }

  /** A claim just opened is the only live one of its generation. */
  lemma StartIsExclusive(c: Cell, e: Event)
    requires Inv(c) && e.Deliver? && Write(c, e).Some?
    ensures var d := Step(c, e);
            && OpenClaim(d, |c.claims|) && d.claims[|c.claims|].worker == e.worker
            && d.claims[|c.claims|].generation == d.row.generation
            && forall j: nat :: OpenClaim(d, j) && d.claims[j].generation == d.row.generation ==> j == |c.claims|
  {
    StepKeepsInv(c, e);
    LiveClaimFence(Step(c, e), |c.claims|);
  }

  /** A requeue outdates every claim ever made. */
  lemma RequeueOutdatesClaims(c: Cell, i: nat)
    requires Inv(c) && Write(c, UserRequeue).Some? && i < |c.claims|
    ensures c.claims[i].generation < Step(c, UserRequeue).row.generation
  {
    assert ClaimInv(c.row, c.claims[i]);
  }

  // ---------------------------------------------------------------------
  // What a sweep pass computes
  // ---------------------------------------------------------------------

  /** What recoverJob does to the table. */
  function SweepRow(rows: map<string, Row>, id: string, now: int): map<string, Row> {
    if id in rows && Sweepable(rows[id], now) then rows[id := Recover(rows[id], now).value] else rows
  }

  function SweepAll(rows: map<string, Row>, ids: seq<string>, now: int): map<string, Row> {
    if ids == [] then rows else SweepRow(SweepAll(rows, ids[..|ids| - 1], now), ids[|ids| - 1], now)
  }

  lemma SweepAllSnoc(rows: map<string, Row>, ids: seq<string>, k: nat, now: int)
    requires k < |ids|
    ensures SweepAll(rows, ids[..k + 1], now) == SweepRow(SweepAll(rows, ids[..k], now), ids[k], now)
  {
    assert ids[..k + 1][..k] == ids[..k];
  }

  /** One pass over a scan that lists every expired row recovers each of them
      exactly once, even if the scan names a row twice, leaves all other rows
      alone, and leaves nothing to sweep until the recovery lease runs out. */
  lemma {:induction false} SweepRecoversEachOnce(rows: map<string, Row>, ids: seq<string>, now: int)
    ensures SweepAll(rows, ids, now).Keys == rows.Keys
    ensures forall id :: id in rows ==>
              SweepAll(rows, ids, now)[id] ==
                if id in ids && Sweepable(rows[id], now) then Recover(rows[id], now).value else rows[id]
  {
    if ids != [] {
      SweepRecoversEachOnce(rows, ids[..|ids| - 1], now);
    }
  }

  /** The candidate scan: expired rows in scan order, at most `limit`. */
  function Candidates(rows: map<string, Row>, scan: seq<string>, now: int, limit: nat): (ids: seq<string>)
    ensures |ids| <= limit
    ensures forall k :: 0 <= k < |ids| ==> ids[k] in rows && Sweepable(rows[ids[k]], now) && ids[k] in scan
  {
    if scan == [] || limit == 0 then []
    else if scan[0] in rows && Sweepable(rows[scan[0]], now) then
      [scan[0]] + Candidates(rows, scan[1..], now, limit - 1)
    else Candidates(rows, scan[1..], now, limit)
  }

  /** Rows a sweep would take over now. */
  ghost function Expired(rows: map<string, Row>, now: int): set<string> {
    set id | id in rows && Sweepable(rows[id], now)
  }

  ghost predicate Distinct(ids: seq<string>) {
    forall i, j :: 0 <= i < j < |ids| ==> ids[i] != ids[j]
  }

  lemma {:induction false} CandidatesDistinct(rows: map<string, Row>, scan: seq<string>, now: int, limit: nat)
    requires Distinct(scan)
    ensures Distinct(Candidates(rows, scan, now, limit))
  {
    if scan != [] && limit > 0 {
      if scan[0] in rows && Sweepable(rows[scan[0]], now) {
        CandidatesDistinct(rows, scan[1..], now, limit - 1);
      } else {
        CandidatesDistinct(rows, scan[1..], now, limit);
      }
    }
  }

  /** Below the limit, no expired row is missed. */
  lemma {:induction false} CandidatesComplete(rows: map<string, Row>, scan: seq<string>, now: int, limit: nat, id: string)
    requires |Candidates(rows, scan, now, limit)| < limit
    requires id in scan && id in rows && Sweepable(rows[id], now)
    ensures id in Candidates(rows, scan, now, limit)
  {
    if id != scan[0] {
      if scan[0] in rows && Sweepable(rows[scan[0]], now) {
        CandidatesComplete(rows, scan[1..], now, limit - 1, id);
      } else {
        CandidatesComplete(rows, scan[1..], now, limit, id);
      }
    }
  }

  lemma {:induction false} DistinctCount(ids: seq<string>)
    requires Distinct(ids)
    ensures |set id | id in ids| == |ids|
  {
    if ids != [] {
      var n := |ids| - 1;
      DistinctCount(ids[..n]);
      assert (set id | id in ids) == (set id | id in ids[..n]) + {ids[n]};
    }
  }

  /** A pass takes exactly its candidates out of the expired rows. */
  lemma SweepShrinksExpired(rows: map<string, Row>, ids: seq<string>, now: int)
    ensures Expired(SweepAll(rows, ids, now), now) == Expired(rows, now) - set id | id in ids
  {
    SweepRecoversEachOnce(rows, ids, now);
    var after := SweepAll(rows, ids, now);
    forall id | id in rows ensures Sweepable(after[id], now) <==> Sweepable(rows[id], now) && id !in ids {
    }
  }

  /** One pass with a batch limit, over a scan that lists every row. */
  lemma PassShrinksBacklog(rows: map<string, Row>, scan: seq<string>, now: int, limit: nat)
    requires Distinct(scan) && forall id :: id in rows ==> id in scan
    ensures var after := SweepAll(rows, Candidates(rows, scan, now, limit), now);
            && after.Keys == rows.Keys
            && Expired(after, now) <= Expired(rows, now)
            && |Expired(after, now)| == if |Expired(rows, now)| <= limit then 0 else |Expired(rows, now)| - limit
  {
    var ids, all := Candidates(rows, scan, now, limit), Expired(rows, now);
    var taken := set id | id in ids;
    CandidatesDistinct(rows, scan, now, limit);
    DistinctCount(ids);
    SweepShrinksExpired(rows, ids, now);
    SweepRecoversEachOnce(rows, ids, now);
    assert taken <= all;
    assert |all - taken| == |all| - |taken|;
    if |ids| < limit {
      forall id | id in all ensures id in taken {
        CandidatesComplete(rows, scan, now, limit, id);
      }
      assert all - taken == {};
    }
  }

  /** The rows after n passes at one moment, each limited to a batch. */
  function Passes(rows: map<string, Row>, scan: seq<string>, now: int, limit: nat, n: nat): map<string, Row> {
    if n == 0 then rows
    else
      var before := Passes(rows, scan, now, limit, n - 1);
      SweepAll(before, Candidates(before, scan, now, limit), now)
  }

  /** Batch-limited passes drain any backlog, a batch at a time. */
  lemma {:induction false} SweepDrains(rows: map<string, Row>, scan: seq<string>, now: int, limit: nat, n: nat)
    requires Distinct(scan) && forall id :: id in rows ==> id in scan
    ensures Passes(rows, scan, now, limit, n).Keys == rows.Keys
    ensures |Expired(Passes(rows, scan, now, limit, n), now)|
            == if |Expired(rows, now)| <= limit * n then 0 else |Expired(rows, now)| - limit * n
    decreases n
  {
    if n > 0 {
      SweepDrains(rows, scan, now, limit, n - 1);
      PassShrinksBacklog(Passes(rows, scan, now, limit, n - 1), scan, now, limit);
      assert limit * n == limit * (n - 1) + limit;
    }
  }

  // ---------------------------------------------------------------------
  // What a dispatch pass computes
  // ---------------------------------------------------------------------

  /** The due rows of a scan, in scan order, at most `limit` of them. */
  function Due(rows: map<string, Row>, scan: seq<string>, now: int, limit: nat): (due: seq<string>)
    ensures |due| <= limit
    ensures forall k :: 0 <= k < |due| ==> due[k] in rows && Release(rows[due[k]], now).Some?
  {
    if scan == [] || limit == 0 then []
    else if scan[0] in rows && Release(rows[scan[0]], now).Some? then [scan[0]] + Due(rows, scan[1..], now, limit - 1)
    else Due(rows, scan[1..], now, limit)
  }

  /** Below the limit, nothing that is due is left behind. */
  lemma {:induction false} DueIsComplete(rows: map<string, Row>, scan: seq<string>, now: int, limit: nat, id: string)
    requires |Due(rows, scan, now, limit)| < limit
    requires id in scan && id in rows && Release(rows[id], now).Some?
    ensures id in Due(rows, scan, now, limit)
  {
    if id != scan[0] {
      if scan[0] in rows && Release(rows[scan[0]], now).Some? {
        DueIsComplete(rows, scan[1..], now, limit - 1, id);
      } else {
        DueIsComplete(rows, scan[1..], now, limit, id);
      }
    }
  }

  ghost predicate Released(before: map<string, Row>, after: map<string, Row>, due: seq<string>, now: int) {
    && after.Keys == before.Keys
    && forall id :: id in before ==>
         after[id] == if id in due then before[id].(status := Queued) else before[id]
  }

  /** Messages that carry their row's current generation, for rows no sweep takes
      over at this moment. */
  ghost predicate FencedMessages(sent: seq<(string, int)>, rows: map<string, Row>, now: int) {
    forall k :: 0 <= k < |sent| ==>
      sent[k].0 in rows && rows[sent[k].0].generation == sent[k].1 && !Sweepable(rows[sent[k].0], now)
  }

  /** A sweep recovers, in the protocol, exactly when it writes. */
  lemma SweptCell(c: Cell, now: int)
    requires Inv(c)
    ensures Step(c, Sweep(now)).row == if Sweepable(c.row, now) then Recover(c.row, now).value else c.row
    ensures Sweepable(c.row, now) ==> Recover(c.row, now).value.status == Retrying
    ensures !Sweepable(c.row, now) ==> Step(c, Sweep(now)) == c
  {
  }

  lemma DispatchedCell(c: Cell, now: int)
    ensures Step(c, Dispatch(now)).row == if Release(c.row, now).Some? then c.row.(status := Queued) else c.row
    ensures Release(c.row, now).None? ==> Step(c, Dispatch(now)) == c
  {
  }

  class Store {
    var rows: map<string, Row>
    var attempts: seq<Attempt>
    /** Execution messages on the broker: job id and generation. */
    var published: seq<(string, int)>
    /** Every job as the protocol sees it, and what has happened to the table. */
    ghost var cells: map<string, Cell>
    ghost var log: seq<Entry>

    /** The table shows the jobs that the log of its operations leads to. */
    ghost predicate Valid()
      reads this
    {
      rows == RowsOf(cells) && cells == Replay(log)
    }

    constructor ()
      ensures Valid() && rows == map[] && attempts == [] && published == []
    {
      rows, attempts, published, cells, log := map[], [], [], map[], [];
    }

    /** Records an entry whose rows have been written. */
    ghost method Record(x: Entry)
      requires cells == Replay(log) && rows == RowsOf(Applied(cells, x))
      modifies `cells, `log
      ensures Valid() && cells == Applied(old(cells), x) && log == old(log) + [x]
    {
      assert (log + [x])[..|log + [x]| - 1] == log;
      cells, log := Applied(cells, x), log + [x];
    }

    /** A new job has all its attempts, no lease for a sweeper to find, and can be
        started by its first message unless it waits for its time. */
    method InsertJob(id: string, maxAttempts: int, scheduledAt: Option<int>) returns (inserted: bool)
      requires Valid() && 1 <= maxAttempts
      modifies `rows, `cells, `log
      ensures Valid()
      ensures inserted <==> id !in old(rows)
      ensures cells == if inserted then old(cells)[id := Init(maxAttempts, scheduledAt)] else old(cells)
      ensures inserted ==>
                && (scheduledAt.None? <==> Startable(rows[id].status))
                && (scheduledAt.Some? ==> forall t :: Release(rows[id], t).Some? <==> scheduledAt.value <= t)
                && forall t :: !Sweepable(rows[id], t)
    {
      inserted := id !in rows;
      if inserted {
        var status := Queued;
        if scheduledAt.Some? { status := Scheduled; }
        rows := rows[id := Row(status, 0, maxAttempts, 1, "", None, scheduledAt)];
      }
      Record(New(id, maxAttempts, scheduledAt));
    }

    /** A claim is won by at most one worker: it is then the only live claim of the
        row's generation, and no sweep can take the job until the lease ends. */
    method StartJobFence(id: string, worker: string, msgGeneration: int, lease: int, now: int)
      returns (job: Option<Row>)
      requires Valid()
      modifies `rows, `cells, `log
      ensures Valid() && cells == Took(old(cells), id, Deliver(worker, msgGeneration, lease, now))
      ensures job.None? ==> rows == old(rows)
      ensures job.Some? <==> id in old(rows) && Startable(old(rows)[id].status)
                             && (msgGeneration == 0 || msgGeneration == old(rows)[id].generation)
      ensures job.Some? ==>
                && rows[id] == job.value && job.value.worker == worker
                && job.value.attempts == old(rows)[id].attempts < job.value.maxAttempts
                && (forall j: nat :: OpenClaim(cells[id], j) && cells[id].claims[j].generation == job.value.generation
                      ==> j == |old(cells)[id].claims|)
                && forall t :: t <= now + lease ==> !Sweepable(rows[id], t)
    {
      job := None;
      ghost var e := Deliver(worker, msgGeneration, lease, now);
      if id in rows {
        JobInv(log, id);
        if Write(cells[id], e).Some? { StartIsExclusive(cells[id], e); }
        var r := rows[id];
        if r.status == Queued || r.status == Retrying {
          if msgGeneration == 0 || r.generation == msgGeneration {
            r := r.(status := Processing, worker := worker, lease := Some(now + lease));
            rows := rows[id := r];
            job := Some(r);
          }
        }
      }
      Record(Job(id, e));
    }

    /** A live claim keeps its lease exactly while the row carries its generation,
        and then nobody else holds the row; otherwise the claim is over. */
    method RenewJobLease(id: string, generation: int, lease: int, now: int, ghost claim: nat, ghost worker: string)
      returns (held: bool)
      requires Valid() && (id in cells ==> OpenClaim(cells[id], claim)
                                           && cells[id].claims[claim].generation == generation
                                           && cells[id].claims[claim].worker == worker)
      modifies `rows, `cells, `log
      ensures Valid() && cells == Took(old(cells), id, RenewTick(claim, lease, now))
      ensures held <==> id in old(rows) && old(rows)[id].generation == generation
      ensures held ==> old(rows)[id].worker == worker && forall t :: t <= now + lease ==> !Sweepable(rows[id], t)
      ensures !held ==> rows == old(rows) && (id in rows ==> !OpenClaim(cells[id], claim))
    {
      if id in rows { JobInv(log, id); LiveClaimFence(cells[id], claim); }
      held := id in rows && rows[id].generation == generation && rows[id].status == Processing;
      if held {
        rows := rows[id := rows[id].(lease := Some(now + lease))];
      }
      Record(Job(id, RenewTick(claim, lease, now)));
    }

    /** A live claim's success counts exactly while the row carries its generation:
        then it is the row's own worker, the next attempt in order, and the last
        write the row sees. The attempt is recorded first, even when the result is
        rejected; without a job row its foreign key fails the transaction. */
    method FinishJobSuccess(id: string, generation: int, attempt: int, worker: string, ghost claim: nat)
      returns (ok: bool, job: Option<Row>)
      requires Valid() && Presents(cells, id, claim, generation, attempt, worker)
      modifies `rows, `attempts, `cells, `log
      ensures Valid() && cells == Took(old(cells), id, Succeed(claim))
      ensures ok <==> id in old(rows)
      ensures attempts == if ok then old(attempts) + [Attempt(id, attempt, worker)] else old(attempts)
      ensures job.Some? <==> ok && old(rows)[id].generation == generation
      ensures job.Some? ==>
                && rows[id] == job.value && Absorbing(job.value.status)
                && old(rows)[id].worker == worker && job.value.attempts == old(rows)[id].attempts + 1 <= job.value.maxAttempts
      ensures job.None? ==> rows == old(rows) && (ok ==> generation < rows[id].generation)
      ensures ok ==> !OpenClaim(cells[id], claim)
    {
      ok, job := id in rows, None;
      if ok {
        JobInv(log, id);
        LiveClaimFence(cells[id], claim);
        attempts := attempts + [Attempt(id, attempt, worker)];
        var r := rows[id];
        if r.status == Processing && r.generation == generation {
          r := r.(status := Success, attempts := attempt, lease := None);
          rows := rows[id := r];
          job := Some(r);
        }
      }
      Record(Job(id, Succeed(claim)));
    }

    /** The UPDATE of a failed run. */
    method WriteFailure(id: string, generation: int, attempt: int, dead: bool, retryLease: int, now: int)
      returns (job: Option<Row>)
      requires id in rows
      modifies `rows
      ensures job == FinishFailure(old(rows)[id], generation, attempt, dead, retryLease, now)
      ensures rows == if job.Some? then old(rows)[id := job.value] else old(rows)
    {
      var r := rows[id];
      job := None;
      if r.status == Processing && r.generation == generation {
        r := r.(attempts := attempt);
        if dead {
          r := r.(status := Dead, lease := None);
        } else {
          r := r.(status := Retrying, lease := Some(now + retryLease));
        }
        rows := rows[id := r];
        job := Some(r);
      }
    }

    /** A live claim's failure counts under the same fence. A retry keeps an attempt
        in hand, and no sweep can race its backoff. */
    method FinishJobFailure(id: string, generation: int, attempt: int, worker: string, dead: bool,
                            retryLease: int, now: int, ghost claim: nat, ghost e: Event)
      returns (ok: bool, job: Option<Row>)
      requires Valid() && Presents(cells, id, claim, generation, attempt, worker)
      requires id in cells ==> Decides(e, claim, attempt, cells[id].claims[claim].maxAttempts, dead, retryLease, now)
      modifies `rows, `attempts, `cells, `log
      ensures Valid() && cells == Took(old(cells), id, e)
      ensures ok <==> id in old(rows)
      ensures attempts == if ok then old(attempts) + [Attempt(id, attempt, worker)] else old(attempts)
      ensures job.Some? <==> ok && old(rows)[id].generation == generation
      ensures job.Some? ==>
                && rows[id] == job.value && job.value.status == (if dead then Dead else Retrying)
                && old(rows)[id].worker == worker && job.value.attempts == old(rows)[id].attempts + 1
                && (!dead ==> job.value.attempts < job.value.maxAttempts
                              && forall t :: t <= now + RetryBackoff(attempt) ==> !Sweepable(rows[id], t))
      ensures job.None? ==> rows == old(rows) && (ok ==> generation < rows[id].generation)
      ensures ok ==> !OpenClaim(cells[id], claim)
    {
      ok, job := id in rows, None;
      if ok {
        JobInv(log, id);
        LiveClaimFence(cells[id], claim);
        FailureEffect(cells[id], e, claim, dead, retryLease, now);
        attempts := attempts + [Attempt(id, attempt, worker)];
        job := WriteFailure(id, generation, attempt, dead, retryLease, now);
      }
      Record(Job(id, e));
    }

    /** A cancel is final, and it never hits a job that a live claim is running. */
    method CancelJob(id: string) returns (out: Outcome)
      requires Valid()
      modifies `rows, `cells, `log
      ensures Valid() && cells == Took(old(cells), id, UserCancel)
      ensures out.NotFound? <==> id !in old(rows)
      ensures out.Conflict? ==> rows == old(rows) && out.status == rows[id].status && !Cancellable(out.status)
      ensures out.Updated? ==>
                && rows[id] == out.row && Absorbing(out.row.status) && !Absorbing(old(rows)[id].status)
                && forall j: nat :: OpenClaim(cells[id], j) ==> cells[id].claims[j].generation < out.row.generation
    {
      if id !in rows { return NotFound; }
      var r := rows[id];
      ghost var c := cells[id];
      JobInv(log, id);
      match r.status {
        case Queued | Retrying | Scheduled =>
          forall j: nat | OpenClaim(c, j) ensures c.claims[j].generation < c.row.generation {
            IdleRowHasNoClaim(c, j);
          }
          r := r.(status := Cancelled);
          rows := rows[id := r];
          out := Updated(r);
        case _ =>
          out := Conflict(r.status);
      }
      Record(Job(id, UserCancel));
    }

    /** A requeue gives a DEAD job its attempts back and outdates every claim and
        message it ever had. */
    method RequeueJob(id: string) returns (out: Outcome)
      requires Valid()
      modifies `rows, `cells, `log
      ensures Valid() && cells == Took(old(cells), id, UserRequeue)
      ensures out.NotFound? <==> id !in old(rows)
      ensures out.Conflict? ==> rows == old(rows) && out.status == rows[id].status != Dead
      ensures out.Updated? ==>
                && rows[id] == out.row && Startable(out.row.status) && out.row.attempts == 0 < out.row.maxAttempts
                && (forall j :: 0 <= j < |cells[id].claims| ==> cells[id].claims[j].generation < out.row.generation)
                && forall g: int, w: string, lease: int, now: int :: 0 < g <= old(rows)[id].generation ==>
                     StartFence(out.row, w, g, lease, now).None?
    {
      if id !in rows { return NotFound; }
      var r := rows[id];
      ghost var c := cells[id];
      JobInv(log, id);
      if r.status == Dead {
        forall j | 0 <= j < |c.claims| ensures c.claims[j].generation < r.generation + 1 {
          RequeueOutdatesClaims(c, j);
        }
        r := Row(Queued, 0, r.maxAttempts, r.generation + 1, "", None, r.scheduledAt);
        rows := rows[id := r];
        out := Updated(r);
      } else {
        out := Conflict(r.status);
      }
      Record(Job(id, UserRequeue));
    }

    /** The two writes after a failed publish: a new job is FAILED for good, a
        requeued one is DEAD again; neither touches a job that has moved on. */
    method AfterFailedPublish(id: string, requeue: bool)
      requires Valid()
      modifies `rows, `cells, `log
      ensures Valid() && cells == Took(old(cells), id, if requeue then RevertRequeue else ProduceFailed)
      ensures id in rows && old(rows)[id].status != Queued ==> rows == old(rows)
      ensures id in rows && old(rows)[id].status == Queued ==>
                rows[id].status != Queued && (Absorbing(rows[id].status) <==> !requeue)
    {
      if id in rows && rows[id].status == Queued {
        rows := rows[id := rows[id].(status := if requeue then Dead else Failed)];
      }
      Record(Job(id, if requeue then RevertRequeue else ProduceFailed));
    }

    /** The UPDATE of a takeover. A job taken over always has an attempt left, so
        its DEAD branch is never used. */
    method TakeOver(id: string, now: int) returns (job: Option<Row>)
      requires Valid()
      modifies `rows, `cells, `log
      ensures Valid() && cells == Took(old(cells), id, Sweep(now))
      ensures job.Some? <==> id in old(rows) && Sweepable(old(rows)[id], now)
      ensures rows == SweepRow(old(rows), id, now)
      ensures job.Some? ==> rows[id] == job.value && job.value.status == Retrying && !Sweepable(job.value, now)
    {
      job := None;
      if id in rows {
        JobInv(log, id);
        SweptCell(cells[id], now);
        var r := rows[id];
        if (r.status == Processing || r.status == Retrying) && r.lease.Some? && r.lease.value < now {
          r := r.(generation := r.generation + 1, worker := "");
          if r.attempts >= r.maxAttempts {
            r := r.(status := Dead, lease := None);
          } else {
            r := r.(status := Retrying, lease := Some(now + 30_000));
          }
          rows := rows[id := r];
          job := Some(r);
        }
      }
      Record(Job(id, Sweep(now)));
    }

    /** recoverJob: lock, take over, audit the interrupted attempt, commit; then
        republish outside the transaction, which may fail on its own. */
    method RecoverJob(id: string, now: int, publishOk: bool) returns (recovered: bool)
      requires Valid()
      modifies this
      ensures Valid() && cells == Took(old(cells), id, Sweep(now))
      ensures recovered <==> id in old(rows) && Sweepable(old(rows)[id], now)
      ensures rows == SweepRow(old(rows), id, now)
      ensures recovered ==>
                && rows[id].status == Retrying && !Sweepable(rows[id], now)
                && attempts == old(attempts) + [Attempt(id, old(rows)[id].attempts + 1, old(rows)[id].worker)]
                && published == if publishOk then old(published) + [(id, rows[id].generation)] else old(published)
      ensures !recovered ==> attempts == old(attempts) && published == old(published)
    {
      var prevWorker, interrupted := "", 0;
      if id in rows {
        prevWorker, interrupted := rows[id].worker, rows[id].attempts + 1;
      }
      var job := TakeOver(id, now);
      recovered := job.Some?;
      if recovered {
        attempts := attempts + [Attempt(id, interrupted, prevWorker)];
        if job.value.status == Retrying && publishOk {
          published := published + [(id, job.value.generation)];
        }
      }
    }

    /** One pass: the candidate scan with its batch limit, then the loop. `scan` is
        the order of the table by lease. */
    method SweepOnce(scan: seq<string>, now: int, publishOk: string -> bool) returns (recovered: nat)
      requires Valid()
      modifies this
      ensures Valid()
      ensures rows == SweepAll(old(rows), Candidates(old(rows), scan, now, SWEEPER_BATCH_SIZE), now)
      ensures recovered == |attempts| - |old(attempts)|
      ensures old(published) <= published && FencedMessages(published[|old(published)|..], rows, now)
    {
      var ids := Candidates(rows, scan, now, SWEEPER_BATCH_SIZE);
      recovered := 0;
      ghost var sent := [];
      for k := 0 to |ids|
        invariant Valid() && rows == SweepAll(old(rows), ids[..k], now)
        invariant recovered == |attempts| - |old(attempts)|
        invariant published == old(published) + sent && FencedMessages(sent, rows, now)
      {
        SweepAllSnoc(old(rows), ids, k, now);
        var ok;
        ok, sent := SweepTurn(ids[k], now, publishOk(ids[k]), old(published), sent);
        if ok { recovered := recovered + 1; }
      }
      assert ids[..|ids|] == ids;
    }

    /** One turn of a pass that has sent these messages. */
    method SweepTurn(id: string, now: int, publishOk: bool, ghost before: seq<(string, int)>, ghost sent: seq<(string, int)>)
      returns (ok: bool, ghost more: seq<(string, int)>)
      requires Valid() && published == before + sent && FencedMessages(sent, rows, now)
      modifies this
      ensures Valid() && published == before + more && FencedMessages(more, rows, now)
      ensures rows == SweepRow(old(rows), id, now)
      ensures |attempts| == |old(attempts)| + if ok then 1 else 0
    {
      ok := RecoverJob(id, now, publishOk);
      more := if ok && publishOk then sent + [(id, rows[id].generation)] else sent;
    }

    method FlipOne(id: string, now: int)
      requires Valid() && id in rows && (rows[id].status == Queued || Release(rows[id], now).Some?)
      modifies `rows, `cells, `log
      ensures Valid() && rows == old(rows)[id := old(rows)[id].(status := Queued)]
    {
      DispatchedCell(cells[id], now);
      rows := rows[id := rows[id].(status := Queued)];
      Record(Job(id, Dispatch(now)));
    }

    /** The claiming UPDATE: every due row turns QUEUED. */
    method FlipDue(due: seq<string>, now: int)
      requires Valid() && forall k :: 0 <= k < |due| ==> due[k] in rows && Release(rows[due[k]], now).Some?
      modifies `rows, `cells, `log
      ensures Valid() && Released(old(rows), rows, due, now)
    {
      for k := 0 to |due|
        invariant Valid() && Released(old(rows), rows, due[..k], now)
      {
        FlipOne(due[k], now);
        assert due[..k + 1] == due[..k] + [due[k]];
      }
      assert due[..|due|] == due;
    }

    /** Publishes the due jobs in order until the broker refuses one. */
    method PublishDue(due: seq<string>, accepted: nat) returns (ok: bool)
      requires forall k :: 0 <= k < |due| ==> due[k] in rows
      modifies `published
      ensures ok <==> |due| <= accepted
      ensures |published| == |old(published)| + (if ok then |due| else accepted) && old(published) <= published
      ensures forall k :: 0 <= k < |published| - |old(published)| ==>
                published[|old(published)| + k] == (due[k], rows[due[k]].generation)
    {
      for k := 0 to |due|
        invariant k <= accepted
        invariant |published| == |old(published)| + k && old(published) <= published
        invariant forall j :: 0 <= j < k ==> published[|old(published)| + j] == (due[j], rows[due[j]].generation)
      {
        if k >= accepted {
          return false;
        }
        published := published + [(due[k], rows[due[k]].generation)];
      }
      ok := true;
    }

    /** DispatchOnce: flip the due batch, publish each job inside the same
        transaction, commit only if every publish went through. `accepted` is
        how many publishes the broker takes before it starts refusing. */
    method DispatchOnce(scan: seq<string>, now: int, accepted: nat) returns (released: Option<seq<string>>)
      requires Valid()
      modifies this
      ensures Valid() && attempts == old(attempts)
      ensures var due := Due(old(rows), scan, now, DISPATCHER_BATCH_SIZE);
              && (released.Some? <==> |due| <= accepted)
              && (released.Some? ==> released.value == due && Released(old(rows), rows, due, now))
              && (released.None? ==> rows == old(rows))
              && |published| == |old(published)| + (if |due| <= accepted then |due| else accepted)
              && old(published) <= published
              && forall k :: 0 <= k < |published| - |old(published)| ==>
                   published[|old(published)| + k] == (due[k], old(rows)[due[k]].generation)
    {
      var due := Due(rows, scan, now, DISPATCHER_BATCH_SIZE);
      var snapshot := rows;
      ghost var history, before := cells, log;
      FlipDue(due, now);
      var ok := PublishDue(due, accepted);
      if !ok {
        rows, cells, log := snapshot, history, before;
        return None;
      }
      released := Some(due);
    }
  }
}
