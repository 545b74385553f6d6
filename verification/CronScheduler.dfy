/** The cron loop: lock due schedules, spawn a job, advance next_run_at and
    publish, all in one transaction. Clock readings are seconds since the epoch;
    next_run_at is a minute. */
module CronScheduler {
  import opened CronNext

  /** A cron_schedules row. `schedule` is what the stored expression parses to. */
  datatype Cron = Cron(schedule: Option<Schedule>, enabled: bool, nextRun: nat, lastRun: Option<nat>)

  /** A spawned job: the minute it stands for and the moment it was fired. */
  datatype Fire = Fire(slot: nat, at: nat)

  const DUE_BATCH_SIZE := 100

  predicate Due(r: Cron, dbNow: nat) {
    r.enabled && 60 * r.nextRun <= dbNow
  }

  /** The slot that follows a fire; none when the expression does not parse or
      nothing matches. */
  ghost function NextSlot(r: Cron, now: nat): Option<nat> {
    if r.schedule.Some? then NextFire(r.schedule.value, now) else None
  }

  /** A fired row: advanced to its next slot, or disabled when there is none. */
  function Moved(r: Cron, now: nat, next: Option<nat>): Cron {
    if next.Some? then r.(nextRun := next.value, lastRun := Some(now)) else r.(enabled := false)
  }

  ghost function Advanced(r: Cron, now: nat): Cron {
    Moved(r, now, NextSlot(r, now))
  }

  ghost predicate Spawns(r: Cron, now: nat) {
    NextSlot(r, now).Some?
  }

  // ---------------------------------------------------------------------
  // One schedule over a whole run
  // ---------------------------------------------------------------------

  datatype State = State(row: Cron, fires: seq<Fire>)

  /** A pass that reaches the row: it finds it due on the database clock, fires on
      the process clock, and commits or rolls back. */
  datatype Pass = Pass(dbNow: nat, procNow: nat, commits: bool)

  ghost function Step(s: State, p: Pass): State {
    if !Due(s.row, p.dbNow) || !p.commits then s
    else State(Advanced(s.row, p.procNow),
               if Spawns(s.row, p.procNow) then s.fires + [Fire(s.row.nextRun, p.procNow)] else s.fires)
  }

  ghost function Run(s: State, ps: seq<Pass>): State {
    if ps == [] then s else Step(Run(s, ps[..|ps| - 1]), ps[|ps| - 1])
  }

  /** CreateCron: the first slot is computed when the schedule is stored. */
  ghost predicate Created(s: State, c: Schedule, now: nat) {
    s.row.schedule == Some(c) && NextFire(c, now) == Some(s.row.nextRun) && s.fires == []
  }

  /** Slots and fire times alternate: every slot matches, fires no earlier than
      its minute, and the next slot lies after the fire. */
  ghost predicate Alternates(c: Schedule, fires: seq<Fire>, nextSlot: nat) {
    && (forall k :: 0 <= k < |fires| ==> Matches(c, fires[k].slot) && 60 * fires[k].slot <= fires[k].at)
    && (forall j, k :: 0 <= j < k < |fires| ==> fires[j].at < 60 * fires[k].slot)
    && (forall k :: 0 <= k < |fires| ==> fires[k].at < 60 * nextSlot)
    && Matches(c, nextSlot)
  }

  /** The database and the processes read one clock, so a pass fires no earlier
      than the moment its scan compared against. */
  ghost predicate OneClock(ps: seq<Pass>) {
    forall k :: 0 <= k < |ps| ==> ps[k].dbNow <= ps[k].procNow
  }

  /** Across any rollbacks, restarts, racing replicas and outages the committed
      jobs alternate with strictly increasing matching minutes. */
  lemma {:induction false} FiresAlternate(s: State, c: Schedule, now: nat, ps: seq<Pass>)
    requires Created(s, c, now) && OneClock(ps)
    ensures Run(s, ps).row.schedule == Some(c)
    ensures Alternates(c, Run(s, ps).fires, Run(s, ps).row.nextRun)
  {
    if ps != [] {
      FiresAlternate(s, c, now, ps[..|ps| - 1]);
    }
  }

  /** A schedule never fires twice for one minute, its fires follow the minutes'
      order, and each comes at or after its minute. */
  lemma NeverTwiceForOneMinute(s: State, c: Schedule, now: nat, ps: seq<Pass>, j: nat, k: nat)
    requires Created(s, c, now) && OneClock(ps) && j < k < |Run(s, ps).fires|
    ensures var f := Run(s, ps).fires; f[j].slot < f[k].slot && f[j].at < f[k].at && Matches(c, f[j].slot)
  {
    FiresAlternate(s, c, now, ps);
    var f := Run(s, ps).fires;
    assert 60 * f[j].slot <= f[j].at < 60 * f[k].slot <= f[k].at;
  }

  /** No backfill: once the schedule has fired at or after a moment, every later
      fire is for a minute after that moment, however many minutes were missed. */
  lemma NeverBackfills(s: State, c: Schedule, now: nat, ps: seq<Pass>, j: nat, k: nat, moment: nat)
    requires Created(s, c, now) && OneClock(ps) && j < k < |Run(s, ps).fires|
    requires moment <= Run(s, ps).fires[j].at
    ensures moment < 60 * Run(s, ps).fires[k].slot
  {
    FiresAlternate(s, c, now, ps);
  }

  // ---------------------------------------------------------------------
  // What the one-clock assumption buys
  // ---------------------------------------------------------------------

  /** After a fire the slot moves forward exactly when the firing process's clock
      is not behind the slot's minute. */
  lemma SlotAdvancesIff(r: Cron, c: Schedule, procNow: nat)
    requires r.schedule == Some(c) && Matches(c, r.nextRun) && Spawns(r, procNow)
    ensures r.nextRun < Advanced(r, procNow).nextRun <==> 60 * r.nextRun <= procNow
  {
    var t := NextFire(c, procNow).value;
    assert IsNext(c, procNow, t);
    if procNow < 60 * r.nextRun {
      assert Earliest(procNow) <= r.nextRun;
    }
  }

  /** A process one second behind the database fires the same minute again. */
  lemma SkewRepeatsSlot(r: Cron, c: Schedule)
    requires r.schedule == Some(c) && Matches(c, r.nextRun) && 0 < r.nextRun
    ensures Spawns(r, 60 * r.nextRun - 1) && Advanced(r, 60 * r.nextRun - 1).nextRun == r.nextRun
  {
    var from := 60 * r.nextRun - 1;
    assert Earliest(from) == r.nextRun;
    assert r.nextRun < Horizon(from) by {
      assert r.nextRun < (r.nextRun / DAY + 1) * DAY;
    }
    FoundIsNext(c, from, r.nextRun);
  }

  /** So two passes a second behind the database spawn two jobs for one minute. */
  lemma SkewFiresTwice(s: State, c: Schedule, now: nat)
    requires Created(s, c, now) && s.row.enabled && 0 < s.row.nextRun
    ensures var slot := s.row.nextRun;
            var behind := Pass(60 * slot, 60 * slot - 1, true);
            Run(s, [behind, behind]).fires == [Fire(slot, 60 * slot - 1), Fire(slot, 60 * slot - 1)]
  {
    var slot := s.row.nextRun;
    var behind := Pass(60 * slot, 60 * slot - 1, true);
    SkewRepeatsSlot(s.row, c);
    assert [behind][..0] == [] && [behind, behind][..1] == [behind];
    var once := Step(s, behind);
    assert Run(s, []) == s && Run(s, [behind]) == once;
    SkewRepeatsSlot(once.row, c);
    assert Run(s, [behind, behind]) == Step(once, behind);
  }

  // ---------------------------------------------------------------------
  // TickOnce
  // ---------------------------------------------------------------------

  /** Due rows of a scan in scan order, at most `limit`. */
  function DueIds(rows: map<string, Cron>, scan: seq<string>, dbNow: nat, limit: nat): (due: seq<string>)
    ensures |due| <= limit
    ensures forall k :: 0 <= k < |due| ==> due[k] in rows && Due(rows[due[k]], dbNow) && due[k] in scan
  {
    if scan == [] || limit == 0 then []
    else if scan[0] in rows && Due(rows[scan[0]], dbNow) then [scan[0]] + DueIds(rows, scan[1..], dbNow, limit - 1)
    else DueIds(rows, scan[1..], dbNow, limit)
  }

  ghost predicate DistinctIds(ids: seq<string>) {
    forall i, j :: 0 <= i < j < |ids| ==> ids[i] != ids[j]
  }

  lemma {:induction false} DueIdsDistinct(rows: map<string, Cron>, scan: seq<string>, dbNow: nat, limit: nat)
    requires DistinctIds(scan)
    ensures DistinctIds(DueIds(rows, scan, dbNow, limit))
  {
    if scan != [] && limit > 0 {
      if scan[0] in rows && Due(rows[scan[0]], dbNow) {
        DueIdsDistinct(rows, scan[1..], dbNow, limit - 1);
      } else {
        DueIdsDistinct(rows, scan[1..], dbNow, limit);
      }
    }
  }

  datatype Spawn = Spawn(cron: string, fire: Fire)

  /** The process clock when each row fires. */
  type Clock = string -> nat

  /** The job that firing one row spawns, if any. */
  ghost function SpawnOf(rows: map<string, Cron>, id: string, now: nat): (r: seq<Spawn>)
    ensures |r| <= 1
  {
    if id in rows && Spawns(rows[id], now) then [Spawn(id, Fire(rows[id].nextRun, now))] else []
  }

  /** What firing the given rows spawns, in order. */
  ghost function SpawnsOf(rows: map<string, Cron>, due: seq<string>, clock: Clock): seq<Spawn> {
    if due == [] then []
    else SpawnsOf(rows, due[..|due| - 1], clock) + SpawnOf(rows, due[|due| - 1], clock(due[|due| - 1]))
  }

  /** Each turn adds its row's job to a growing prefix of the pass's jobs. */
  lemma {:induction false} SpawnsGrow(rows: map<string, Cron>, due: seq<string>, clock: Clock, k: nat)
    requires k < |due|
    ensures SpawnsOf(rows, due[..k + 1], clock) == SpawnsOf(rows, due[..k], clock) + SpawnOf(rows, due[k], clock(due[k]))
    ensures SpawnsOf(rows, due[..k + 1], clock) <= SpawnsOf(rows, due, clock)
  {
    assert due[..k + 1][..k] == due[..k];
    if k + 1 < |due| {
      SpawnsGrow(rows, due[..|due| - 1], clock, k);
      assert due[..|due| - 1][..k + 1] == due[..k + 1];
    } else {
      assert due[..k + 1] == due;
    }
  }

  /** What a broker that takes at most `n` messages holds of them. */
  function Taken(s: seq<Spawn>, n: nat): seq<Spawn> {
    if |s| <= n then s else s[..n]
  }

  /** A refusal at turn `fired` leaves the broker with what it would take. */
  lemma TakenAtRefusal(rows: map<string, Cron>, due: seq<string>, clock: Clock, fired: nat)
    requires fired < |due| && SpawnOf(rows, due[fired], clock(due[fired])) != []
    ensures var all := SpawnsOf(rows, due, clock); var done := SpawnsOf(rows, due[..fired], clock);
            |done| < |all| && Taken(all, |done|) == done
  {
    SpawnsGrow(rows, due, clock, fired);
  }

  lemma Regroup(a: seq<Spawn>, b: seq<Spawn>, c: seq<Spawn>)
    ensures (a + b) + c == a + (b + c)
  {
  }

  /** The due rows have moved on from what they were; all others stand. */
  ghost predicate MovedRows(before: map<string, Cron>, after: map<string, Cron>, due: seq<string>, clock: Clock) {
    && after.Keys == before.Keys
    && forall id :: id in before ==> after[id] == if id in due then Advanced(before[id], clock(id)) else before[id]
  }

  /** A row not yet fired is still the row the pass began with. */
  lemma MoveOne(before: map<string, Cron>, mid: map<string, Cron>, due: seq<string>, clock: Clock, k: nat)
    requires k < |due| && DistinctIds(due) && due[k] in before && MovedRows(before, mid, due[..k], clock)
    ensures due[k] in mid && mid[due[k]] == before[due[k]]
    ensures MovedRows(before, mid[due[k] := Advanced(before[due[k]], clock(due[k]))], due[..k + 1], clock)
  {
    assert due[k] !in due[..k];
    assert due[..k + 1] == due[..k] + [due[k]];
  }

  datatype CronState = CronState(rows: map<string, Cron>, jobs: seq<Spawn>, published: seq<Spawn>)

  ghost predicate Known(rows: map<string, Cron>, due: seq<string>) {
    forall k :: 0 <= k < |due| ==> due[k] in rows
  }

  class CronTable {
    var rows: map<string, Cron>
    var jobs: seq<Spawn>
    /** Messages on the broker, which a rollback does not take back. */
    var published: seq<Spawn>

    /** Rows hold schedules that the parser compiled. */
    ghost predicate Valid()
      reads this
    {
      forall id :: id in rows && rows[id].schedule.Some? ==> Compiled(rows[id].schedule.value)
    }

    constructor ()
      ensures rows == map[] && jobs == [] && published == [] && Valid()
    {
      rows, jobs, published := map[], [], [];
    }

    method FireCron(id: string, now: nat)
      requires id in rows && Valid()
      modifies `rows, `jobs
      ensures Valid() && rows == old(rows)[id := Advanced(old(rows)[id], now)]
      ensures jobs == old(jobs) + SpawnOf(old(rows), id, now)
    {
      var r := rows[id];
      if r.schedule.None? {
        rows := rows[id := r.(enabled := false)];
        return;
      }
      var next := Next(r.schedule.value, now);
      if next.None? {
        rows := rows[id := r.(enabled := false)];
        return;
      }
      jobs := jobs + [Spawn(id, Fire(r.nextRun, now))];
      rows := rows[id := r.(nextRun := next.value, lastRun := Some(now))];
    }

    /** The pass that began in `t` has fired its first k rows and published their jobs. */
    ghost predicate At(t: CronState, due: seq<string>, clock: Clock, k: nat)
      requires k <= |due|
      reads this
    {
      && Valid() && MovedRows(t.rows, rows, due[..k], clock)
      && jobs == t.jobs + SpawnsOf(t.rows, due[..k], clock)
      && published == t.published + SpawnsOf(t.rows, due[..k], clock)
    }

    /** Fires one row, then publishes its job if the broker accepts it. */
    method FireAndPublish(id: string, now: nat, accepts: bool) returns (ok: bool)
      requires Valid() && id in rows
      modifies this
      ensures Valid() && rows == old(rows)[id := Advanced(old(rows)[id], now)]
      ensures jobs == old(jobs) + SpawnOf(old(rows), id, now)
      ensures ok <==> accepts || SpawnOf(old(rows), id, now) == []
      ensures published == if ok then old(published) + SpawnOf(old(rows), id, now) else old(published)
    {
      var n := |jobs|;
      FireCron(id, now);
      ok := |jobs| == n || accepts;
      if |jobs| > n && accepts {
        published := published + [jobs[n]];
      }
    }

    method FireTurn(due: seq<string>, k: nat, clock: Clock, accepts: bool, ghost t: CronState) returns (ok: bool)
      requires k < |due| && DistinctIds(due) && due[k] in t.rows && At(t, due, clock, k)
      modifies this
      ensures ok <==> accepts || SpawnOf(t.rows, due[k], clock(due[k])) == []
      ensures ok ==> At(t, due, clock, k + 1)
      ensures !ok ==> published == old(published)
    {
      MoveOne(t.rows, rows, due, clock, k);
      ghost var done, next := SpawnsOf(t.rows, due[..k], clock), SpawnOf(t.rows, due[k], clock(due[k]));
      ok := FireAndPublish(due[k], clock(due[k]), accepts);
      SpawnsGrow(t.rows, due, clock, k);
      Regroup(t.jobs, done, next);
      Regroup(t.published, done, next);
    }

    /** Fires the due rows in order; a refused publish ends the pass at `fired`. */
    method FireAll(due: seq<string>, clock: Clock, accepted: nat, ghost t: CronState) returns (ok: bool, ghost fired: nat)
      requires DistinctIds(due) && Known(t.rows, due) && At(t, due, clock, 0)
      modifies this
      ensures fired <= |due| && published == t.published + SpawnsOf(t.rows, due[..fired], clock)
      ensures ok ==> fired == |due| && |SpawnsOf(t.rows, due, clock)| <= accepted && At(t, due, clock, |due|)
      ensures !ok ==> fired < |due| && |SpawnsOf(t.rows, due[..fired], clock)| == accepted
      ensures !ok ==> SpawnOf(t.rows, due[fired], clock(due[fired])) != []
    {
      var k, sent := 0, |published|;
      while k < |due|
        invariant k <= |due| && At(t, due, clock, k) && |SpawnsOf(t.rows, due[..k], clock)| <= accepted
      {
        SpawnsGrow(t.rows, due, clock, k);
        var went := FireTurn(due, k, clock, |published| - sent < accepted, t);
        if !went {
          return false, k;
        }
        k := k + 1;
      }
      assert due[..|due|] == due;
      return true, |due|;
    }

    /** One pass over the rows no other replica has locked, in one transaction.
        `accepted` is how many publishes the broker takes before it refuses one. */
    method TickOnce(scan: seq<string>, dbNow: nat, clock: Clock, accepted: nat) returns (ok: bool)
      requires Valid() && DistinctIds(scan)
      modifies this
      ensures Valid()
      ensures var due := DueIds(old(rows), scan, dbNow, DUE_BATCH_SIZE);
              && (ok <==> |SpawnsOf(old(rows), due, clock)| <= accepted)
              && (ok ==> MovedRows(old(rows), rows, due, clock) && jobs == old(jobs) + SpawnsOf(old(rows), due, clock))
              && (!ok ==> rows == old(rows) && jobs == old(jobs))
              && published == old(published) + Taken(SpawnsOf(old(rows), due, clock), accepted)
    {
      var due := DueIds(rows, scan, dbNow, DUE_BATCH_SIZE);
      DueIdsDistinct(rows, scan, dbNow, DUE_BATCH_SIZE);
      var savedRows, savedJobs := rows, jobs;
      ghost var fired: nat;
      ok, fired := FireAll(due, clock, accepted, CronState(rows, jobs, published));
      if ok {
        assert due[..|due|] == due;
      } else {
        TakenAtRefusal(savedRows, due, clock, fired);
        rows, jobs := savedRows, savedJobs;
      }
    }
  }
}
