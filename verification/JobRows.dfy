/** One row of the jobs table and the guarded UPDATE statements that touch it.
    Every function below is one SQL statement: `None` means that the WHERE
    clause matched no row, `Some(r)` is the row the statement RETURNs.
    Times are milliseconds on the database clock. */
module JobRows {

  datatype Option<+T> = None | Some(value: T)

  datatype Status =
    | Queued | Processing | Success | Failed
    | Retrying | Cancelled | Dead | Scheduled

  datatype Row = Row(
    status: Status,
    attempts: int,
    maxAttempts: int,
    generation: int,
    worker: string,
    lease: Option<int>,
    scheduledAt: Option<int>
  )

  const INITIAL_GENERATION := 1
  const RECOVER_LEASE_MS := 30_000

  /** The status table the service documents. */
  predicate LegalTransition(from: Status, to: Status) {
    match from
    case Queued => to == Processing || to == Cancelled || to == Failed
    case Processing => to == Success || to == Retrying || to == Dead
    case Retrying => to == Processing || to == Cancelled
    case Dead => to == Queued
    case Scheduled => to == Queued || to == Cancelled
    case _ => false
  }

  predicate Startable(s: Status) {
    s == Queued || s == Retrying
  }

  predicate Cancellable(s: Status) {
    s == Queued || s == Retrying || s == Scheduled
  }

  /** The sweeper's WHERE clause. A NULL lease never compares as expired. */
  predicate Sweepable(r: Row, now: int) {
    (r.status == Processing || r.status == Retrying) && r.lease.Some? && r.lease.value < now
  }

  /** insertJob: a fresh row, parked in SCHEDULED when it carries a time. */
  function Inserted(maxAttempts: int, scheduledAt: Option<int>): Row {
    Row(if scheduledAt.Some? then Scheduled else Queued, 0, maxAttempts, INITIAL_GENERATION, "", None, scheduledAt)
  }

  function StartFence(r: Row, worker: string, msgGeneration: int, lease: int, now: int): Option<Row> {
    if Startable(r.status) && (msgGeneration == 0 || msgGeneration == r.generation) then
      Some(r.(status := Processing, worker := worker, lease := Some(now + lease)))
    else None
  }

  function Renew(r: Row, generation: int, lease: int, now: int): Option<Row> {
    if r.generation == generation && r.status == Processing then
      Some(r.(lease := Some(now + lease)))
    else None
  }

  function FinishSuccess(r: Row, generation: int, attempt: int): Option<Row> {
    if r.status == Processing && r.generation == generation then
      Some(r.(status := Success, attempts := attempt, lease := None))
    else None
  }

  function FinishFailure(r: Row, generation: int, attempt: int, dead: bool, retryLease: int, now: int): Option<Row> {
    if r.status == Processing && r.generation == generation then
      if dead then Some(r.(status := Dead, attempts := attempt, lease := None))
      else Some(r.(status := Retrying, attempts := attempt, lease := Some(now + retryLease)))
    else None
  }

  function Recover(r: Row, now: int): Option<Row> {
    if Sweepable(r, now) then
      var exhausted := r.attempts >= r.maxAttempts;
      Some(r.(generation := r.generation + 1,
              status := if exhausted then Dead else Retrying,
              worker := "",
              lease := if exhausted then None else Some(now + RECOVER_LEASE_MS)))
    else None
  }

  function Cancel(r: Row): Option<Row> {
    if Cancellable(r.status) then Some(r.(status := Cancelled)) else None
  }

  function Requeue(r: Row): Option<Row> {
    if r.status == Dead then
      Some(r.(status := Queued, attempts := 0, worker := "", lease := None, generation := r.generation + 1))
    else None
  }

  function RequeueRevert(r: Row): Option<Row> {
    if r.status == Queued then Some(r.(status := Dead)) else None
  }

  function MarkQueuedFailed(r: Row): Option<Row> {
    if r.status == Queued then Some(r.(status := Failed)) else None
  }

  function Release(r: Row, now: int): Option<Row> {
    if r.status == Scheduled && r.scheduledAt.Some? && r.scheduledAt.value <= now then
      Some(r.(status := Queued))
    else None
  }

  /** Delay before the n-th retry is republished, in milliseconds. */
  function RetryBackoff(failures: int): (d: int)
    ensures 100 <= d <= 5000
  {
    if failures <= 1 then 100
    else if failures == 2 then 250
    else if failures == 3 then 500
    else if failures == 4 then 1000
    else if failures == 5 then 2000
    else if failures == 6 then 4000
    else 5000
  }

  /** retryBackoff's schedule never shrinks from one failure to the next. */
  lemma RetryBackoffGrows(m: int, n: int)
    requires m <= n
    ensures RetryBackoff(m) <= RetryBackoff(n)
  {
  }
}
