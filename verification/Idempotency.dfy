/** Idempotent create: any number of CreateJob calls run at once, each a sequence
    of Redis commands and SQL statements, over a Redis that may lose anything at
    any time and a jobs table with a unique index on the key. */
module Idempotency {
  datatype Option<T> = None | Some(value: T)

  /** A jobs row: its key and whether the create marked it FAILED. */
  datatype Row = Row(key: Option<string>, failed: bool)

  /** Where a call stands. */
  datatype Pc =
    | Claiming
    | Reading
    | Loading(existing: string)
    | Releasing
    | Inserting
    | Resolving
    | Publishing
    | Returned(job: string)
    | Errored

  /** A call: the id it drew for its job, its key, and where it stands. */
  datatype Create = Create(id: string, key: Option<string>, pc: Pc)

  /** `issued` records every id ever drawn and the key it was drawn for. */
  datatype State = State(rows: map<string, Row>, redis: map<string, string>, calls: seq<Create>, issued: map<string, Option<string>>)

  /** How a remote command ends: done, done with the reply lost, or not done. */
  datatype Fate = Done | ReplyLost | NotDone

  /** Proceed: the call's next command and its fate; `cleanup` and `marked` are the
      fates of the release and of the FAILED mark that follow a failure. A create
      without a broker configured ends as a publish that is not done, with no mark and
      no release. */
  datatype Event =
    | Begin(id: string, newKey: Option<string>)
    | Proceed(call: nat, fate: Fate, cleanup: Fate, marked: bool, mayAccess: bool, scheduled: bool)
    | Evict(key: string)

  // ---------------------------------------------------------------------
  // Redis
  // ---------------------------------------------------------------------

  function SetNx(redis: map<string, string>, key: string, id: string): map<string, string> {
    if key in redis then redis else redis[key := id]
  }

  function Deleted(redis: map<string, string>, key: Option<string>, fate: Fate): map<string, string> {
    if key.Some? && !fate.NotDone? then redis - {key.value} else redis
  }

  // ---------------------------------------------------------------------
  // The jobs table
  // ---------------------------------------------------------------------

  ghost predicate Holds(rows: map<string, Row>, id: string, key: string) {
    id in rows && rows[id].key == Some(key)
  }

  ghost predicate Taken(rows: map<string, Row>, key: Option<string>) {
    key.Some? && exists id :: Holds(rows, id, key.value)
  }

  // ---------------------------------------------------------------------
  // One command of one call
  // ---------------------------------------------------------------------

  /** What a step leaves behind: rows, Redis and the call's new place. */
  datatype Effect = Effect(rows: map<string, Row>, redis: map<string, string>, pc: Pc)

  ghost function Advance(s: State, c: Create, e: Event): Effect
    requires e.Proceed?
  {
    match c.pc
    case Claiming =>
      if c.key.None? || e.fate.NotDone? then Effect(s.rows, s.redis, Inserting)
      else
        Effect(s.rows, SetNx(s.redis, c.key.value, c.id),
               if e.fate.Done? && c.key.value in s.redis then Reading else Inserting)
    case Reading =>
      if e.fate.Done? && c.key.Some? && c.key.value in s.redis
      then Effect(s.rows, s.redis, Loading(s.redis[c.key.value]))
      else Effect(s.rows, s.redis, Inserting)
    case Loading(existing) =>
      if !e.fate.Done? then Effect(s.rows, s.redis, Errored)
      else if existing !in s.rows then Effect(s.rows, s.redis, Releasing)
      else Effect(s.rows, s.redis, if e.mayAccess then Returned(existing) else Errored)
    case Releasing =>
      Effect(s.rows, Deleted(s.redis, c.key, e.fate), Inserting)
    case Inserting =>
      if e.fate.NotDone? then Effect(s.rows, Deleted(s.redis, c.key, e.cleanup), Errored)
      else if Taken(s.rows, c.key) then
        if e.fate.Done? then Effect(s.rows, s.redis, Resolving)
        else Effect(s.rows, Deleted(s.redis, c.key, e.cleanup), Errored)
      else
        var rows := s.rows[c.id := Row(c.key, false)];
        if e.fate.ReplyLost? then Effect(rows, Deleted(s.redis, c.key, e.cleanup), Errored)
        else Effect(rows, s.redis, if e.scheduled then Returned(c.id) else Publishing)
    case Resolving =>
      if e.fate.Done? && Taken(s.rows, c.key) then
        var found :| Holds(s.rows, found, c.key.value);
        Effect(s.rows, s.redis, if e.mayAccess then Returned(found) else Errored)
      else Effect(s.rows, Deleted(s.redis, c.key, e.cleanup), Errored)
    case Publishing =>
      if e.fate.Done? then Effect(s.rows, s.redis, Returned(c.id))
      else Effect(if c.id in s.rows then s.rows[c.id := s.rows[c.id].(failed := e.marked)] else s.rows,
                  Deleted(s.redis, c.key, e.cleanup), Errored)
    case Returned(_) => Effect(s.rows, s.redis, c.pc)
    case Errored => Effect(s.rows, s.redis, c.pc)
  }

  ghost function Step(s: State, e: Event): State {
    match e
    case Begin(id, key) =>
      if id in s.issued then s
      else s.(calls := s.calls + [Create(id, key, Claiming)], issued := s.issued[id := key])
    case Evict(key) => s.(redis := s.redis - {key})
    case Proceed(k, _, _, _, _, _) =>
      if k >= |s.calls| then s
      else
        var eff := Advance(s, s.calls[k], e);
        State(eff.rows, eff.redis, s.calls[k := s.calls[k].(pc := eff.pc)], s.issued)
  }

  ghost function Run(s: State, es: seq<Event>): State {
    if es == [] then s else Step(Run(s, es[..|es| - 1]), es[|es| - 1])
  }

  const START := State(map[], map[], [], map[])

  // ---------------------------------------------------------------------
  // What every step keeps
  // ---------------------------------------------------------------------

  predicate BeforeInsert(pc: Pc) {
    pc.Claiming? || pc.Reading? || pc.Loading? || pc.Releasing? || pc.Inserting?
  }

  /** Rows carry the key their id was drawn for. */
  ghost predicate RowsInv(rows: map<string, Row>, issued: map<string, Option<string>>) {
    forall id :: id in rows ==> id in issued && rows[id].key == issued[id]
  }

  /** So do cached claims. */
  ghost predicate RedisInv(redis: map<string, string>, issued: map<string, Option<string>>) {
    forall key :: key in redis ==> redis[key] in issued && issued[redis[key]] == Some(key)
  }

  /** No two rows share a key. */
  ghost predicate UniqueKeys(rows: map<string, Row>) {
    forall a, b, key :: Holds(rows, a, key) && Holds(rows, b, key) ==> a == b
  }

  ghost predicate CallInv(s: State, c: Create) {
    && c.id in s.issued && s.issued[c.id] == c.key
    && (BeforeInsert(c.pc) ==> c.id !in s.rows)
    && (c.pc.Loading? ==> c.pc.existing in s.issued && c.key.Some? && s.issued[c.pc.existing] == c.key)
    && (c.pc.Publishing? ==> c.id in s.rows)
    && (c.pc.Returned? ==> c.pc.job in s.rows && s.rows[c.pc.job].key == c.key)
  }

  ghost predicate Inv(s: State) {
    && RowsInv(s.rows, s.issued) && RedisInv(s.redis, s.issued) && UniqueKeys(s.rows)
    && (forall k :: 0 <= k < |s.calls| ==> CallInv(s, s.calls[k]))
    && (forall j, k :: 0 <= j < k < |s.calls| ==> s.calls[j].id != s.calls[k].id)
  }

  /** A row enters the table only under a key that no row holds. */
  lemma RowsStayUnique(s: State, k: nat, e: Event, a: string, b: string, key: string)
    requires Inv(s) && k < |s.calls| && e.Proceed?
    requires var rows := Advance(s, s.calls[k], e).rows; Holds(rows, a, key) && Holds(rows, b, key)
    ensures a == b
  {
    var c := s.calls[k];
    assert CallInv(s, c);
    assert Holds(s.rows, a, key) || (a == c.id && c.key == Some(key) && !Taken(s.rows, c.key));
    assert Holds(s.rows, b, key) || (b == c.id && c.key == Some(key) && !Taken(s.rows, c.key));
  }

  lemma AdvanceKeepsStore(s: State, k: nat, e: Event)
    requires Inv(s) && k < |s.calls| && e.Proceed?
    ensures var eff := Advance(s, s.calls[k], e);
            RowsInv(eff.rows, s.issued) && RedisInv(eff.redis, s.issued) && UniqueKeys(eff.rows)
  {
    var c := s.calls[k];
    assert CallInv(s, c);
    var eff := Advance(s, c, e);
    forall a, b, key | Holds(eff.rows, a, key) && Holds(eff.rows, b, key) ensures a == b {
      RowsStayUnique(s, k, e, a, b, key);
    }
  }

  /** What a call knows of its own stays true as it moves on. */
  lemma AdvanceKeepsCall(s: State, k: nat, e: Event)
    requires Inv(s) && k < |s.calls| && e.Proceed?
    ensures var eff := Advance(s, s.calls[k], e);
            CallInv(s.(rows := eff.rows), s.calls[k].(pc := eff.pc))
  {
    assert CallInv(s, s.calls[k]);
  }

  /** Rows are only added, under the caller's own id, and never change their key. */
  lemma AdvanceAddsOwnRow(s: State, k: nat, e: Event)
    requires Inv(s) && k < |s.calls| && e.Proceed?
    ensures var eff := Advance(s, s.calls[k], e);
            && (forall id :: id in s.rows ==> id in eff.rows && eff.rows[id].key == s.rows[id].key)
            && (forall id :: id in eff.rows ==> id in s.rows || id == s.calls[k].id)
  {
    assert CallInv(s, s.calls[k]);
  }

  lemma StepKeepsInv(s: State, e: Event)
    requires Inv(s)
    ensures Inv(Step(s, e))
  {
    if e.Proceed? && e.call < |s.calls| {
      AdvanceKeepsStore(s, e.call, e);
      AdvanceKeepsCall(s, e.call, e);
      AdvanceAddsOwnRow(s, e.call, e);
      var t := Step(s, e);
      forall j | 0 <= j < |t.calls| ensures CallInv(t, t.calls[j]) {
        assert CallInv(s, s.calls[j]);
      }
    }
  }

  lemma {:induction false} ReachableInv(es: seq<Event>)
    ensures Inv(Run(START, es))
  {
    if es != [] {
      ReachableInv(es[..|es| - 1]);
      StepKeepsInv(Run(START, es[..|es| - 1]), es[|es| - 1]);
    }
  }

  /** There is never a second row for a key. */
  lemma OneRowPerKey(es: seq<Event>, a: string, b: string, key: string)
    requires var s := Run(START, es); Holds(s.rows, a, key) && Holds(s.rows, b, key)
    ensures a == b
  {
    ReachableInv(es);
  }

  /** Every create with a key that returns a job returns the row holding the key. */
  lemma ReturnsTheKeysRow(es: seq<Event>, k: nat)
    requires var s := Run(START, es); k < |s.calls| && s.calls[k].pc.Returned? && s.calls[k].key.Some?
    ensures var s := Run(START, es); Holds(s.rows, s.calls[k].pc.job, s.calls[k].key.value)
  {
    ReachableInv(es);
    assert CallInv(Run(START, es), Run(START, es).calls[k]);
  }

  lemma StepKeepsRows(s: State, e: Event, id: string)
    requires Inv(s) && id in s.rows
    ensures id in Step(s, e).rows && Step(s, e).rows[id].key == s.rows[id].key
  {
    if e.Proceed? && e.call < |s.calls| {
      AdvanceAddsOwnRow(s, e.call, e);
    }
  }

  /** Rows keep their key for the rest of any run. */
  lemma {:induction false} RowsPersist(es: seq<Event>, more: seq<Event>, id: string)
    requires id in Run(START, es).rows
    ensures id in Run(START, es + more).rows && Run(START, es + more).rows[id].key == Run(START, es).rows[id].key
    decreases |more|
  {
    if more == [] {
      assert es + more == es;
    } else {
      var n := |more| - 1;
      var before := es + more[..n];
      RowsPersist(es, more[..n], id);
      ReachableInv(before);
      RunLast(before, more[n]);
      assert es + more == before + [more[n]];
      StepKeepsRows(Run(START, before), more[n], id);
    }
  }

  /** All creates for one key agree for ever: whatever row holds the key now is the
      job that any create of the key returns, now or at any later time. */
  lemma CreatesAgree(es: seq<Event>, more: seq<Event>, id: string, key: string, k: nat)
    requires Holds(Run(START, es).rows, id, key)
    requires var s := Run(START, es + more);
             k < |s.calls| && s.calls[k].pc.Returned? && s.calls[k].key == Some(key)
    ensures Run(START, es + more).calls[k].pc.job == id
  {
    RowsPersist(es, more, id);
    ReturnsTheKeysRow(es + more, k);
    OneRowPerKey(es + more, id, Run(START, es + more).calls[k].pc.job, key);
  }

  /** That includes a job whose publish failed: the claim is released so that a
      retry can make a new job, but the FAILED row keeps the key, so every later
      create of the key that returns at all returns that failed job. */
  lemma FailedPublishKeepsKey(es: seq<Event>, e: Event, more: seq<Event>, j: nat)
    requires var s := Run(START, es);
             && e.Proceed? && !e.fate.Done? && e.marked && e.call < |s.calls|
             && s.calls[e.call].pc.Publishing? && s.calls[e.call].key.Some?
    requires var s := Run(START, es + [e] + more);
             j < |s.calls| && s.calls[j].pc.Returned? && s.calls[j].key == Run(START, es).calls[e.call].key
    ensures var id := Run(START, es).calls[e.call].id; var failed := Run(START, es + [e]);
            && id in failed.rows && failed.rows[id].failed
            && Run(START, es + [e] + more).calls[j].pc.job == id
  {
    var s := Run(START, es);
    var c := s.calls[e.call];
    ReachableInv(es);
    assert CallInv(s, c);
    assert (es + [e])[..|es + [e]| - 1] == es;
    assert Run(START, es + [e]) == Step(s, e);
    CreatesAgree(es + [e], more, c.id, c.key.value, j);
  }

  lemma RunLast(es: seq<Event>, e: Event)
    ensures Run(START, es + [e]) == Step(Run(START, es), e)
  {
    assert (es + [e])[..|es + [e]| - 1] == es;
  }

  function Next(call: nat, fate: Fate): Event { Proceed(call, fate, Done, true, true, false) }

  /** A first create claims the key, inserts its row and fails to publish. */
  lemma PublishFails(id: string, key: string) returns (es: seq<Event>)
    ensures var s := Run(START, es);
            && |s.calls| == 1 && s.calls[0] == Create(id, Some(key), Publishing)
            && s.rows == map[id := Row(Some(key), false)] && s.issued == map[id := Some(key)]
  {
    RunLast([], Begin(id, Some(key)));
    var claimed := [Begin(id, Some(key))] + [Next(0, Done)];
    assert [] + [Begin(id, Some(key))] == [Begin(id, Some(key))];
    RunLast([Begin(id, Some(key))], Next(0, Done));
    RunLast(claimed, Next(0, Done));
    assert !Taken(Run(START, claimed).rows, Some(key));
    es := claimed + [Next(0, Done)];
  }

  /** Such a run exists for every key: the second create gets the first one's FAILED job. */
  lemma FailedPublishIsReturned(id: string, other: string, key: string) returns (es: seq<Event>, e: Event, more: seq<Event>)
    requires id != other
    ensures var s := Run(START, es);
            e.Proceed? && !e.fate.Done? && e.marked && e.call < |s.calls| && s.calls[e.call] == Create(id, Some(key), Publishing)
    ensures var s := Run(START, es + [e] + more);
            && |s.calls| == 2 && s.calls[1] == Create(other, Some(key), Returned(id))
            && s.rows == map[id := Row(Some(key), true)]
  {
    es := PublishFails(id, key);
    e := Next(0, NotDone);
    RunLast(es, e);
    var failed := es + [e];
    more := SecondCreate(failed, id, other, key);
  }

  /** One row, FAILED, and a second call that stands at `pc`. */
  ghost predicate SecondAt(s: State, id: string, other: string, key: string, pc: Pc) {
    s.rows == map[id := Row(Some(key), true)] && |s.calls| == 2 && s.calls[1] == Create(other, Some(key), pc)
  }

  /** It claims the released key, loses to the row's key and looks the row up. */
  lemma SecondSteps(s: State, id: string, other: string, key: string)
    ensures SecondAt(s, id, other, key, Claiming) && key !in s.redis ==>
              SecondAt(Step(s, Next(1, Done)), id, other, key, Inserting)
    ensures SecondAt(s, id, other, key, Inserting) ==> SecondAt(Step(s, Next(1, Done)), id, other, key, Resolving)
    ensures SecondAt(s, id, other, key, Resolving) ==> SecondAt(Step(s, Next(1, Done)), id, other, key, Returned(id))
  {
    assert Holds(map[id := Row(Some(key), true)], id, key);
  }

  lemma SecondCreate(failed: seq<Event>, id: string, other: string, key: string) returns (more: seq<Event>)
    requires var s := Run(START, failed);
             && s.rows == map[id := Row(Some(key), true)] && key !in s.redis && |s.calls| == 1 && other !in s.issued
    ensures SecondAt(Run(START, failed + more), id, other, key, Returned(id))
  {
    var begin, next := Begin(other, Some(key)), Next(1, Done);
    RunLast(failed, begin);
    SecondSteps(Run(START, failed + [begin]), id, other, key);
    RunLast(failed + [begin], next);
    SecondSteps(Run(START, failed + [begin] + [next]), id, other, key);
    RunLast(failed + [begin] + [next], next);
    SecondSteps(Run(START, failed + [begin] + [next] + [next]), id, other, key);
    RunLast(failed + [begin] + [next] + [next], next);
    more := [begin, next, next, next];
    assert failed + more == failed + [begin] + [next] + [next] + [next];
  }
}
