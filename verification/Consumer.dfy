/** The group consumer's at-least-once loop. First one partition under any number
    of members, rebalances, failures and stray commits; then the loop itself. */
module Consumer {
  datatype Option<T> = None | Some(value: T)

  // ---------------------------------------------------------------------
  // One partition of the group
  // ---------------------------------------------------------------------

  /** A member's view: where it reads, and the rest of the batch it is working on. */
  datatype Member = Member(pos: nat, batch: Option<seq<nat>>, next: nat)

  /** `live` are the offsets still on the broker; `handled` those whose handler has
      returned nil at least once; `inFlight` the commits sent and not yet applied,
      which may be applied late, twice or never. */
  datatype Group = Group(end: nat, live: set<nat>, handled: set<nat>, committed: nat,
                         inFlight: set<nat>, members: map<string, Member>)

  /** A commit's reply may be lost whether or not the commit is applied: the member
      then fetches its old position again. */
  datatype Event =
    | Append
    | Retain(dropped: set<nat>)
    | Join(member: string)
    | Fetch(member: string, batch: seq<nat>)
    | Handle(member: string, ok: bool)
    | SendCommit(member: string)
    | ApplyCommit(offset: nat)
    | Acked(member: string)
    | CommitLost(member: string)
    | Leave(member: string)

  /** What a fetch from `pos` may return: live records in order, none skipped. */
  ghost predicate Answers(g: Group, pos: nat, batch: seq<nat>) {
    && (forall i :: 0 <= i < |batch| ==> pos <= batch[i] && batch[i] in g.live)
    && (forall i, j :: 0 <= i < j < |batch| ==> batch[i] < batch[j])
    && (forall off :: off in g.live && pos <= off && batch != [] && off <= batch[|batch| - 1] ==> off in batch)
  }

  ghost function Step(g: Group, e: Event): Group {
    match e
    case Append => g.(end := g.end + 1, live := g.live + {g.end})
    case Retain(dropped) => g.(live := g.live - dropped)
    case Join(m) => g.(members := g.members[m := Member(g.committed, None, g.committed)])
    case Fetch(m, batch) =>
      if m in g.members && g.members[m].batch.None? && Answers(g, g.members[m].pos, batch) && batch != []
      then g.(members := g.members[m := g.members[m].(batch := Some(batch), next := batch[|batch| - 1] + 1)])
      else g
    case Handle(m, ok) =>
      if m in g.members && g.members[m].batch.Some? && g.members[m].batch.value != [] then
        var b := g.members[m].batch.value;
        if ok then g.(handled := g.handled + {b[0]}, members := g.members[m := g.members[m].(batch := Some(b[1..]))])
        else g.(members := g.members[m := g.members[m].(batch := None)])
      else g
    case SendCommit(m) =>
      if m in g.members && g.members[m].batch == Some([]) then g.(inFlight := g.inFlight + {g.members[m].next}) else g
    case ApplyCommit(offset) =>
      if offset in g.inFlight then g.(committed := offset) else g
    case Acked(m) =>
      if m in g.members && g.members[m].batch == Some([]) && g.members[m].next in g.inFlight
      then g.(members := g.members[m := Member(g.members[m].next, None, g.members[m].next)])
      else g
    case CommitLost(m) =>
      if m in g.members && g.members[m].batch == Some([]) then g.(members := g.members[m := g.members[m].(batch := None)])
      else g
    case Leave(m) => g.(members := g.members - {m})
  }

  ghost function Run(g: Group, es: seq<Event>): Group {
    if es == [] then g else Step(Run(g, es[..|es| - 1]), es[|es| - 1])
  }

  const START := Group(0, {}, {}, 0, {}, map[])

  /** Everything below `offset` that is still on the broker has been handled. */
  ghost predicate Covered(g: Group, offset: nat) {
    offset <= g.end && forall off :: off in g.live && off < offset ==> off in g.handled
  }

  /** What is left of a member's batch is all of the live, unhandled records below
      the offset it will commit. */
  ghost predicate MemberInv(g: Group, m: Member) {
    && Covered(g, m.pos)
    && (m.batch.Some? ==>
          && m.next <= g.end
          && forall off :: off in g.live && off < m.next ==> off in g.handled || off in m.batch.value)
  }

  ghost predicate Inv(g: Group) {
    && (forall off :: off in g.live ==> off < g.end)
    && Covered(g, g.committed)
    && (forall offset :: offset in g.inFlight ==> Covered(g, offset))
    && (forall m :: m in g.members ==> MemberInv(g, g.members[m]))
  }

  /** Offsets covered stay covered: records are only appended above them, dropped
      or handled. */
  lemma StepKeepsCovered(g: Group, e: Event, offset: nat)
    requires Inv(g) && Covered(g, offset)
    ensures Covered(Step(g, e), offset)
  {
  }

  lemma StepKeepsOther(g: Group, e: Event, m: Member)
    requires Inv(g) && MemberInv(g, m)
    ensures MemberInv(Step(g, e), m)
  {
    StepKeepsCovered(g, e, m.pos);
  }

  /** A fetch leaves exactly the batch between the member and the offset it will commit. */
  lemma FetchKeepsMember(g: Group, m: string, batch: seq<nat>)
    requires Inv(g) && m in g.members
    ensures var h := Step(g, Fetch(m, batch)); m in h.members && MemberInv(h, h.members[m])
  {
    assert MemberInv(g, g.members[m]);
    StepKeepsOther(g, Fetch(m, batch), g.members[m]);
    if batch != [] {
      assert batch[|batch| - 1] in batch;
    }
  }

  lemma HandleKeepsMember(g: Group, m: string, ok: bool)
    requires Inv(g) && m in g.members
    ensures var h := Step(g, Handle(m, ok)); m in h.members && MemberInv(h, h.members[m])
  {
    var v := g.members[m];
    assert MemberInv(g, v);
    StepKeepsOther(g, Handle(m, ok), v);
    if v.batch.Some? && v.batch.value != [] {
      var b := v.batch.value;
      assert b == [b[0]] + b[1..];
    }
  }

  lemma StepKeepsMember(g: Group, e: Event, m: string)
    requires Inv(g) && m in Step(g, e).members
    ensures MemberInv(Step(g, e), Step(g, e).members[m])
  {
    if m in g.members {
      assert MemberInv(g, g.members[m]);
      StepKeepsOther(g, e, g.members[m]);
      match e
      case Fetch(n, batch) => if n == m { FetchKeepsMember(g, m, batch); }
      case Handle(n, ok) => if n == m { HandleKeepsMember(g, m, ok); }
      case _ =>
    }
  }

  lemma StepKeepsInv(g: Group, e: Event)
    requires Inv(g)
    ensures Inv(Step(g, e))
  {
    var h := Step(g, e);
    StepKeepsCovered(g, e, g.committed);
    forall offset | offset in h.inFlight ensures Covered(h, offset) {
      if offset in g.inFlight { StepKeepsCovered(g, e, offset); }
      else { assert MemberInv(g, g.members[e.member]); }
    }
    if e.ApplyCommit? && e.offset in g.inFlight { StepKeepsCovered(g, e, e.offset); }
    forall m | m in h.members ensures MemberInv(h, h.members[m]) {
      StepKeepsMember(g, e, m);
    }
  }

  /** At least once: in every run, everything below the committed group offset that
      is still on the broker has had its handler return nil. */
  lemma {:induction false} CommittedIsHandled(es: seq<Event>)
    ensures Inv(Run(START, es))
    ensures Covered(Run(START, es), Run(START, es).committed)
  {
    if es != [] {
      CommittedIsHandled(es[..|es| - 1]);
      StepKeepsInv(Run(START, es[..|es| - 1]), es[|es| - 1]);
    }
  }

  /** Redelivery is a run: after a commit whose reply is lost, applied or not, the
      member can fetch and handle the same batch again. */
  lemma LostReplyRedelivers(g: Group, m: string, batch: seq<nat>)
    requires Inv(g) && m in g.members && g.members[m].batch == Some([]) && batch != []
    requires Answers(g, g.members[m].pos, batch)
    ensures var sent := Step(g, SendCommit(m));
            var applied := Step(sent, ApplyCommit(g.members[m].next));
            && applied.committed == g.members[m].next
            && Step(Step(applied, CommitLost(m)), Fetch(m, batch)).members[m].batch == Some(batch)
            && Step(Step(sent, CommitLost(m)), Fetch(m, batch)).members[m].batch == Some(batch)
  {
    var sent := Step(g, SendCommit(m));
    assert Answers(Step(sent, CommitLost(m)), g.members[m].pos, batch);
    assert Answers(Step(Step(sent, ApplyCommit(g.members[m].next)), CommitLost(m)), g.members[m].pos, batch);
  }

  lemma {:induction false} NothingDropped(es: seq<Event>)
    requires forall k :: 0 <= k < |es| ==> !es[k].Retain?
    ensures forall off :: 0 <= off < Run(START, es).end ==> off in Run(START, es).live
  {
    if es != [] {
      NothingDropped(es[..|es| - 1]);
    }
  }

  /** Without retention that is every offset below the committed one. */
  lemma EveryCommittedOffsetIsHandled(es: seq<Event>, off: nat)
    requires forall k :: 0 <= k < |es| ==> !es[k].Retain?
    requires off < Run(START, es).committed
    ensures off in Run(START, es).handled
  {
    CommittedIsHandled(es);
    NothingDropped(es);
  }
  // ---------------------------------------------------------------------
  // The loop of one generation
  // ---------------------------------------------------------------------

  datatype Partition = Partition(topic: string, index: int)

  datatype CommitReply = Accepted | Rebalance | Lost

  /** How polling one partition goes: the fetch fails, or it brings records, of
      which the handler accepts a first few, and the commit gets a reply. */
  datatype Poll =
    | FetchRebalance
    | FetchFailed
    | Records(offsets: seq<nat>, accepts: nat, reply: CommitReply)

  datatype Commit = Commit(partition: Partition, offset: nat)

  datatype Verdict = Idle | Worked | Failed | Rejoin

  predicate AllAccepted(p: Poll) {
    p.Records? && p.offsets != [] && |p.offsets| <= p.accepts
  }

  function NextOffset(p: Poll): nat
    requires AllAccepted(p)
  {
    p.offsets[|p.offsets| - 1] + 1
  }

  function VerdictOf(p: Poll): Verdict {
    match p
    case FetchRebalance => Rejoin
    case FetchFailed => Failed
    case Records(offsets, accepts, reply) =>
      if offsets == [] then Idle
      else if accepts < |offsets| then Failed
      else if reply.Rebalance? then Rejoin
      else Worked
  }

  /** The records of a poll whose handler returns nil. */
  function Done(p: Poll): seq<nat> {
    if !p.Records? then [] else if p.accepts < |p.offsets| then p.offsets[..p.accepts] else p.offsets
  }

  class Session {
    var pos: map<Partition, nat>
    /** Records whose handler returned nil, in order. */
    var handled: seq<Commit>
    var commits: seq<Commit>

    constructor (start: map<Partition, nat>)
      ensures pos == start && handled == [] && commits == []
    {
      pos, handled, commits := start, [], [];
    }

    /** Runs the handler over a batch until it fails. */
    method HandleBatch(tp: Partition, offsets: seq<nat>, accepts: nat) returns (allOk: bool)
      modifies `handled
      ensures allOk <==> |offsets| <= accepts
      ensures old(handled) <= handled
      ensures |handled| == |old(handled)| + if allOk then |offsets| else accepts
      ensures forall k :: |old(handled)| <= k < |handled| ==> handled[k] == Commit(tp, offsets[k - |old(handled)|])
    {
      for i := 0 to |offsets|
        invariant i <= accepts && old(handled) <= handled && |handled| == |old(handled)| + i
        invariant forall k :: |old(handled)| <= k < |handled| ==> handled[k] == Commit(tp, offsets[k - |old(handled)|])
      {
        if i == accepts {
          return false;
        }
        handled := handled + [Commit(tp, offsets[i])];
      }
      allOk := true;
    }

    /** One partition's turn: a commit goes out only for a batch handled to the end,
        and the position moves only on an accepted commit. */
    method PollPartition(tp: Partition, p: Poll) returns (v: Verdict)
      requires tp in pos
      modifies this
      ensures v == VerdictOf(p)
      ensures old(handled) <= handled && |handled| == |old(handled)| + |Done(p)|
      ensures forall k :: 0 <= k < |Done(p)| ==> handled[|old(handled)| + k] == Commit(tp, Done(p)[k])
      ensures commits == old(commits) + if AllAccepted(p) then [Commit(tp, NextOffset(p))] else []
      ensures pos == if AllAccepted(p) && p.reply.Accepted? then old(pos)[tp := NextOffset(p)] else old(pos)
      ensures AllAccepted(p) ==> forall i :: 0 <= i < |p.offsets| ==> Commit(tp, p.offsets[i]) in handled
    {
      match p
      case FetchRebalance => v := Rejoin;
      case FetchFailed => v := Failed;
      case Records(offsets, accepts, reply) =>
        if offsets == [] {
          return Idle;
        }
        var allOk := HandleBatch(tp, offsets, accepts);
        if !allOk {
          return Failed;
        }
        forall i | 0 <= i < |offsets| ensures Commit(tp, offsets[i]) in handled {
          assert handled[|old(handled)| + i] == Commit(tp, offsets[i]);
        }
        var next := offsets[|offsets| - 1] + 1;
        commits := commits + [Commit(tp, next)];
        match reply {
          case Rebalance => v := Rejoin;
          case Lost => v := Worked;
          case Accepted =>
            pos := pos[tp := next];
            v := Worked;
        }
    }

    /** A round that began in `t` has had its first k turns and sent these commits. */
    ghost predicate After(t: Snapshot, order: seq<Partition>, polls: Polls, k: nat, sent: seq<Commit>)
      requires k <= |order| && Assigned(order, t.pos)
      reads this
    {
      && t.handled <= handled && commits == t.commits + sent
      && (forall c :: c in sent ==> Earned(c, polls, t.pos, handled))
      && MovedOnto(t.pos, pos, sent)
      && forall j :: 0 <= j < |order| ==> pos[order[j]] == if j < k then Position(order, polls, t.pos, j) else t.pos[order[j]]
    }

    method Turn(order: seq<Partition>, polls: Polls, k: nat, ghost t: Snapshot, ghost before: seq<Commit>)
      returns (v: Verdict, brought: bool, ghost sent: seq<Commit>)
      requires k < |order| && Assigned(order, t.pos) && After(t, order, polls, k, before)
      modifies this
      ensures v == VerdictOf(PollOf(order, polls, t.pos, k)) && brought == Brings(PollOf(order, polls, t.pos, k))
      ensures After(t, order, polls, k + 1, sent)
    {
      var p := polls(order[k], pos[order[k]]);
      v := PollPartition(order[k], p);
      brought := p.Records? && p.offsets != [];
      sent := before + if AllAccepted(p) then [Commit(order[k], NextOffset(p))] else [];
    }

    /** One round over the assigned partitions, in the order the map is walked,
        ended early by a rebalance. Each is fetched from its position. Every commit
        of the round is for a batch whose records were all handled and points right
        behind it, and a position moves only onto such a commit. */
    method Round(order: seq<Partition>, polls: Polls)
      returns (work: bool, failed: bool, rejoin: bool, ghost turns: nat, ghost sent: seq<Commit>)
      requires Assigned(order, pos)
      modifies this
      ensures turns <= |order| && After(old(Snap()), order, polls, turns, sent)
      ensures rejoin ==> 0 < turns && VerdictOf(PollOf(order, polls, old(pos), turns - 1)).Rejoin?
      ensures !rejoin ==> turns == |order| && Flags(order, polls, old(pos), turns, work, failed)
    {
      work, failed, rejoin, turns, sent := false, false, false, 0, [];
      for k := 0 to |order|
        invariant turns == k && Flags(order, polls, old(pos), k, work, failed)
        invariant After(old(Snap()), order, polls, k, sent)
      {
        FlagsStep(order, polls, old(pos), k, work, failed);
        var v, brought;
        v, brought, sent := Turn(order, polls, k, old(Snap()), sent);
        turns := k + 1;
        if v.Rejoin? {
          rejoin := true;
          return;
        }
        work := work || brought;
        failed := failed || v.Failed?;
      }
    }

    ghost function Snap(): Snapshot
      reads this
    {
      Snapshot(pos, handled, commits)
    }
  }

  datatype Snapshot = Snapshot(pos: map<Partition, nat>, handled: seq<Commit>, commits: seq<Commit>)

  /** How a fetch from a partition at a position goes. */
  type Polls = (Partition, nat) -> Poll

  ghost predicate Assigned(order: seq<Partition>, pos: map<Partition, nat>) {
    && (forall k :: 0 <= k < |order| ==> order[k] in pos)
    && (forall j, k :: 0 <= j < k < |order| ==> order[j] != order[k])
  }

  function PollOf(order: seq<Partition>, polls: Polls, start: map<Partition, nat>, k: nat): Poll
    requires k < |order| && order[k] in start
  {
    polls(order[k], start[order[k]])
  }

  /** Where a round leaves the k-th partition. */
  function Position(order: seq<Partition>, polls: Polls, start: map<Partition, nat>, k: nat): nat
    requires k < |order| && order[k] in start
  {
    var p := PollOf(order, polls, start, k);
    if AllAccepted(p) && p.reply.Accepted? then NextOffset(p) else start[order[k]]
  }

  predicate Brings(p: Poll) {
    p.Records? && p.offsets != []
  }

  /** The round's flags after k partitions without a rebalance. */
  ghost predicate Flags(order: seq<Partition>, polls: Polls, start: map<Partition, nat>, k: nat, work: bool, failed: bool)
    requires k <= |order| && Assigned(order, start)
  {
    && (forall j :: 0 <= j < k ==> !VerdictOf(PollOf(order, polls, start, j)).Rejoin?)
    && (failed <==> exists j :: 0 <= j < k && VerdictOf(PollOf(order, polls, start, j)).Failed?)
    && (work <==> exists j :: 0 <= j < k && Brings(PollOf(order, polls, start, j)))
  }

  lemma FlagsStep(order: seq<Partition>, polls: Polls, start: map<Partition, nat>, k: nat, work: bool, failed: bool)
    requires k < |order| && Assigned(order, start) && Flags(order, polls, start, k, work, failed)
    ensures var p := PollOf(order, polls, start, k);
            !VerdictOf(p).Rejoin? ==> Flags(order, polls, start, k + 1, work || Brings(p), failed || VerdictOf(p).Failed?)
  {
  }

  ghost predicate MovedOnto(before: map<Partition, nat>, after: map<Partition, nat>, sent: seq<Commit>) {
    after.Keys == before.Keys && forall tp :: tp in before ==> after[tp] == before[tp] || Commit(tp, after[tp]) in sent
  }

  /** The commit's batch was handled whole and the commit points right behind it. */
  ghost predicate Earned(c: Commit, polls: Polls, start: map<Partition, nat>, handled: seq<Commit>) {
    && c.partition in start
    && var p := polls(c.partition, start[c.partition]);
    && AllAccepted(p) && c.offset == NextOffset(p)
    && forall i :: 0 <= i < |p.offsets| ==> Commit(c.partition, p.offsets[i]) in handled
  }

  // ---------------------------------------------------------------------
  // A turn of the loop is a run of the group
  // ---------------------------------------------------------------------

  function Handles(m: string, n: nat): seq<Event> {
    if n == 0 then [] else Handles(m, n - 1) + [Handle(m, true)]
  }

  /** What the group sees of a poll; after a rebalance or a lost reply the batch is
      dropped and the position stays. */
  function TurnEvents(m: string, p: Poll): seq<Event> {
    if Brings(p) then Opening(m, p) + Closing(m, p) else []
  }

  function Opening(m: string, p: Poll): seq<Event>
    requires p.Records?
  {
    [Fetch(m, p.offsets)] + Handles(m, |Done(p)|)
  }

  function Closing(m: string, p: Poll): seq<Event>
    requires p.Records?
  {
    if p.accepts < |p.offsets| then [Handle(m, false)]
    else [SendCommit(m)] + [if p.reply.Accepted? then Acked(m) else CommitLost(m)]
  }

  lemma {:induction false} RunBoth(g: Group, a: seq<Event>, b: seq<Event>)
    ensures Run(g, a + b) == Run(Run(g, a), b)
    decreases |b|
  {
    if b == [] {
      assert a + b == a;
    } else {
      var n := |b| - 1;
      RunBoth(g, a, b[..n]);
      assert (a + b)[..|a + b| - 1] == a + b[..n] && (a + b)[|a + b| - 1] == b[n];
    }
  }

  lemma RunOne(g: Group, e: Event)
    ensures Run(g, [e]) == Step(g, e)
  {
    assert [e][..0] == [];
    assert Run(g, []) == g;
  }

  ghost predicate Working(g: Group, m: string, pos: nat, left: seq<nat>, next: nat) {
    m in g.members && g.members[m] == Member(pos, Some(left), next)
  }

  function AllOf(s: seq<nat>): set<nat> { set x | x in s }

  /** The group after the first n records of a batch. */
  function Handled(g: Group, m: string, pos: nat, batch: seq<nat>, next: nat, n: nat): Group
    requires n <= |batch|
  {
    g.(handled := g.handled + AllOf(batch[..n]), members := g.members[m := Member(pos, Some(batch[n..]), next)])
  }

  lemma HandlesOne(g: Group, m: string, pos: nat, batch: seq<nat>, next: nat, n: nat)
    requires 0 < n <= |batch|
    ensures Step(Handled(g, m, pos, batch, next, n - 1), Handle(m, true)) == Handled(g, m, pos, batch, next, n)
  {
    assert batch[n - 1..][1..] == batch[n..] && batch[n - 1..][0] == batch[n - 1];
    assert batch[..n] == batch[..n - 1] + [batch[n - 1]];
    assert AllOf(batch[..n]) == AllOf(batch[..n - 1]) + {batch[n - 1]};
  }

  lemma {:induction false} HandlesRun(g: Group, m: string, pos: nat, batch: seq<nat>, next: nat, n: nat)
    requires Working(g, m, pos, batch, next) && n <= |batch|
    ensures Run(g, Handles(m, n)) == Handled(g, m, pos, batch, next, n)
    decreases n
  {
    if n == 0 {
      assert batch[..0] == [] && batch[0..] == batch;
      assert g.members[m := Member(pos, Some(batch), next)] == g.members;
    } else {
      HandlesRun(g, m, pos, batch, next, n - 1);
      RunBoth(g, Handles(m, n - 1), [Handle(m, true)]);
      RunOne(Handled(g, m, pos, batch, next, n - 1), Handle(m, true));
      HandlesOne(g, m, pos, batch, next, n);
    }
  }

  /** A fetch and the first n records of what it brought. */
  lemma FetchHandles(g: Group, m: string, b: seq<nat>, n: nat)
    requires m in g.members && g.members[m].batch == None && b != [] && Answers(g, g.members[m].pos, b) && n <= |b|
    ensures Run(g, [Fetch(m, b)] + Handles(m, n)) == Handled(g, m, g.members[m].pos, b, b[|b| - 1] + 1, n)
  {
    var pos, next := g.members[m].pos, b[|b| - 1] + 1;
    var fetched := Step(g, Fetch(m, b));
    RunOne(g, Fetch(m, b));
    RunBoth(g, [Fetch(m, b)], Handles(m, n));
    HandlesRun(fetched, m, pos, b, next, n);
    assert fetched.members[m := Member(pos, Some(b[n..]), next)] == g.members[m := Member(pos, Some(b[n..]), next)];
  }

  /** What a turn leaves in the group: its records handled, its commit sent if the whole
      batch was, its position moved if that was acknowledged. */
  function AfterTurn(g: Group, m: string, p: Poll): Group
    requires m in g.members
  {
    var v := g.members[m];
    if !Brings(p) then g
    else
      g.(handled := g.handled + AllOf(Done(p)),
         inFlight := g.inFlight + (if AllAccepted(p) then {NextOffset(p)} else {}),
         members := g.members[m := Member(if AllAccepted(p) && p.reply.Accepted? then NextOffset(p) else v.pos, None,
                                          p.offsets[|p.offsets| - 1] + 1)])
  }

  /** The position, the handled records and the commits that PollPartition leaves are
      those of a run of the group, so what holds of every run holds of the loop. */
  lemma TurnIsRun(g: Group, m: string, p: Poll)
    requires m in g.members && g.members[m].batch == None
    requires Brings(p) ==> Answers(g, g.members[m].pos, p.offsets)
    ensures Run(g, TurnEvents(m, p)) == AfterTurn(g, m, p)
  {
    if Brings(p) {
      var h := Handled(g, m, g.members[m].pos, p.offsets, p.offsets[|p.offsets| - 1] + 1, |Done(p)|);
      assert Run(g, Opening(m, p)) == h by { FetchHandles(g, m, p.offsets, |Done(p)|); }
      assert Run(h, Closing(m, p)) == AfterTurn(g, m, p) by { TurnCloses(g, m, p); }
      RunOn(g, Opening(m, p), h, Closing(m, p), AfterTurn(g, m, p));
    }
  }

  lemma RunOn(g: Group, a: seq<Event>, h: Group, b: seq<Event>, k: Group)
    requires Run(g, a) == h && Run(h, b) == k
    ensures Run(g, a + b) == k
  {
    RunBoth(g, a, b);
  }

  lemma TurnCloses(g: Group, m: string, p: Poll)
    requires m in g.members && g.members[m].batch == None && Brings(p)
    ensures Run(Handled(g, m, g.members[m].pos, p.offsets, p.offsets[|p.offsets| - 1] + 1, |Done(p)|), Closing(m, p))
            == AfterTurn(g, m, p)
  {
    var b := p.offsets;
    var worked := Handled(g, m, g.members[m].pos, b, b[|b| - 1] + 1, |Done(p)|);
    assert b[..|Done(p)|] == Done(p);
    if p.accepts < |b| {
      RunOne(worked, Handle(m, false));
    } else {
      var last := if p.reply.Accepted? then Acked(m) else CommitLost(m);
      assert b[|b|..] == [];
      RunOne(worked, SendCommit(m));
      RunOne(Step(worked, SendCommit(m)), last);
      RunBoth(worked, [SendCommit(m)], [last]);
    }
  }
}
