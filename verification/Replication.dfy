/** Leader/follower pull replication of one partition under a fixed leader and
    without retention, with the quorum commit mark and the capped reads. */
module Replication {

  type NodeId = string
  type Rec = string

  datatype Option<+T> = None | Some(value: T)

  /** A log whose first record has offset `base`, and the committed mark this
      node knows. `pending` is the correlation id of the call in flight. */
  datatype Replica = Replica(base: nat, recs: seq<Rec>, committed: nat, pending: Option<nat>)

  /** A REPLICATE call; `asked` is history, the leader's end when it was sent. */
  datatype Request = Request(from: NodeId, corr: nat, offset: nat, asked: nat)

  /** A REPLICATE answer: either records starting at the requested offset, or
      the instruction to truncate. */
  datatype Response = Response(req: Request, truncate: bool, recs: seq<Rec>, first: nat, hwm: nat, committed: nat)

  function Min(a: nat, b: nat): nat { if a < b then a else b }
  function Max(a: nat, b: nat): nat { if a < b then b else a }

  /** One past the last record: the local high-water mark. */
  function End(r: Replica): nat { r.base + |r.recs| }

  /** uint64 subtraction. */
  function Sub64(a: nat, b: nat): nat { (a - b) % 0x1_0000_0000_0000_0000 }

  // ---------------------------------------------------------------------
  // Log operations
  // ---------------------------------------------------------------------

  /** Cut the tail, jump forward to an empty log, or do nothing. */
  function TruncateTo(r: Replica, target: nat): Replica {
    if target == End(r) then r
    else if target > End(r) || target < r.base then r.(base := target, recs := [])
    else r.(recs := r.recs[..target - r.base])
  }

  function TruncateTarget(localEnd: nat, resp: Response): nat {
    if localEnd <= resp.hwm && resp.first > localEnd then resp.first else resp.hwm
  }

  function Learn(r: Replica, committed: nat): Replica {
    r.(committed := Max(r.committed, Min(committed, End(r))))
  }

  function ApplyTruncate(r: Replica, resp: Response): Replica {
    Learn(TruncateTo(r, TruncateTarget(End(r), resp)), resp.committed)
  }

  /** followOnce after the call returned: append contiguous records, otherwise
      truncate as told or as the divergence guard demands. */
  function Apply(r: Replica, resp: Response): Replica {
    if resp.truncate || (resp.recs != [] && resp.req.offset != End(r)) then ApplyTruncate(r, resp)
    else Learn(r.(recs := r.recs + resp.recs), resp.committed)
  }

  /** Consumer read: records from `offset`, capped at the committed mark. */
  function Fetch(r: Replica, offset: nat, max: nat): Option<seq<Rec>> {
    if offset > End(r) || offset < r.base then None
    else
      var limit := Min(r.committed, End(r));
      var stop := Min(offset + max, limit);
      Some(if stop <= offset then [] else r.recs[offset - r.base..stop - r.base])
  }

  // ---------------------------------------------------------------------
  // The quorum rule
  // ---------------------------------------------------------------------

  predicate InSync(progress: map<NodeId, nat>, alive: set<NodeId>, hwm: nat, lagMax: nat, id: NodeId) {
    id in progress && id in alive && Sub64(hwm, progress[id]) <= lagMax
  }

  ghost function InSyncFollowers(replicas: set<NodeId>, leader: NodeId, progress: map<NodeId, nat>,
                                 alive: set<NodeId>, hwm: nat, lagMax: nat): set<NodeId>
  {
    set id | id in replicas && id != leader && InSync(progress, alive, hwm, lagMax, id)
  }

  /** m is the least offset among the leader's own end and the in-sync ones. */
  ghost predicate IsIsrMin(m: nat, hwm: nat, progress: map<NodeId, nat>, isr: set<NodeId>)
    requires forall id :: id in isr ==> id in progress
  {
    && m <= hwm
    && (forall id :: id in isr ==> m <= progress[id])
    && (m == hwm || exists id :: id in isr && progress[id] == m)
  }

  /** What one maybeAdvanceCommit may ask setCommitted for. */
  ghost predicate Proposes(c: Config, progress: map<NodeId, nat>, alive: set<NodeId>, hwm: nat, m: nat) {
    var isr := InSyncFollowers(c.replicas, c.leader, progress, alive, hwm, c.lagMax);
    |isr| + 1 >= |c.replicas| / 2 + 1 && IsIsrMin(m, hwm, progress, isr)
  }

  // ---------------------------------------------------------------------
  // The protocol
  // ---------------------------------------------------------------------

  datatype Config = Config(leader: NodeId, replicas: set<NodeId>, lagMax: nat)

  /** `served` is history: how far each follower has been served. `proposals`
      are commit values computed but not yet stored, since reading the log end,
      copying the progress table and raising the mark are separate moments. */
  datatype State = State(
    log: seq<Rec>,
    committed: nat,
    progress: map<NodeId, nat>,
    proposals: set<nat>,
    followers: map<NodeId, Replica>,
    requests: set<Request>,
    responses: set<Response>,
    nextCorr: nat,
    served: map<NodeId, nat>
  )

  datatype Event =
    | Append(batch: seq<Rec>)
    | Ask(f: NodeId)
    | Serve(req: Request, hwm: nat, n: nat, committed: nat)
    | Receive(resp: Response)
    | Restart(f: NodeId, keep: nat)
    | Propose(alive: set<NodeId>, hwm: nat, m: nat)
    | Raise(m: nat)

  ghost predicate Enabled(c: Config, s: State, e: Event) {
    match e
    case Append(_) => true
    case Ask(f) => f in s.followers
    // any request ever sent may be served, late or again; the log end and the
    // committed mark in the answer were read some time after it was sent
    case Serve(req, hwm, n, committed) =>
      && req in s.requests && req.from in s.served && req.asked <= hwm <= |s.log| && committed <= s.committed
      && req.offset + n <= |s.log|
    // the caller accepts only the answer to the call it is waiting in
    case Receive(resp) =>
      && resp in s.responses && resp.req.from in s.followers
      && s.followers[resp.req.from].pending == Some(resp.req.corr)
    // what was not yet synced to disk may be gone
    case Restart(f, keep) => f in s.followers && keep <= |s.followers[f].recs|
    case Propose(alive, hwm, m) => hwm <= |s.log| && Proposes(c, s.progress, alive, hwm, m)
    case Raise(m) => m in s.proposals
  }

  /** The answer to a served request: beyond the log end it is the truncate
      instruction, which records no progress. First offset 0: no retention. */
  function Answer(s: State, e: Event): Response
    requires e.Serve? && e.req.offset + e.n <= |s.log|
  {
    if e.req.offset > e.hwm then Response(e.req, true, [], 0, e.hwm, e.committed)
    else Response(e.req, false, s.log[e.req.offset..e.req.offset + e.n], 0, e.hwm, e.committed)
  }

  ghost function Step(c: Config, s: State, e: Event): State
    requires Enabled(c, s, e)
  {
    match e
    case Append(batch) => s.(log := s.log + batch)
    case Ask(f) =>
      s.(followers := s.followers[f := s.followers[f].(pending := Some(s.nextCorr))],
         requests := s.requests + {Request(f, s.nextCorr, End(s.followers[f]), |s.log|)},
         nextCorr := s.nextCorr + 1)
    case Serve(req, hwm, n, _) =>
      var answered := s.(responses := s.responses + {Answer(s, e)});
      if req.offset > hwm then answered
      else answered.(progress := s.progress[req.from := req.offset + n],
                     served := s.served[req.from := Max(s.served[req.from], req.offset + n)])
    case Receive(resp) =>
      var f := resp.req.from;
      s.(followers := s.followers[f := Apply(s.followers[f], resp).(pending := None)])
    case Restart(f, keep) =>
      var r := s.followers[f];
      s.(followers := s.followers[f := r.(recs := r.recs[..keep], committed := 0, pending := None)])
    case Propose(_, _, m) => s.(proposals := s.proposals + {m})
    case Raise(m) => s.(committed := Max(s.committed, m))
  }

  // ---------------------------------------------------------------------
  // The inductive invariant
  // ---------------------------------------------------------------------

  /** Every offset below m has been served to all of M, a majority. */
  ghost predicate ServedTo(c: Config, s: State, M: set<NodeId>, m: nat) {
    && c.leader in M && M <= c.replicas && 2 * |M| > |c.replicas|
    && forall id :: id in M && id != c.leader ==> id in s.served && m <= s.served[id]
  }

  ghost predicate ServedToMajority(c: Config, s: State, m: nat) {
    exists M :: ServedTo(c, s, M, m)
  }

  ghost predicate FollowerInv(s: State, f: NodeId)
    requires f in s.followers
  {
    var r := s.followers[f];
    && f in s.served
    && r.base == 0 && r.recs <= s.log
    && |r.recs| <= s.served[f] <= |s.log|
    && r.committed <= s.committed && r.committed <= |r.recs|
  }

  /** A request quotes an offset its sender held; the pending one quotes the
      sender's current end. */
  ghost predicate RequestInv(s: State, q: Request) {
    && q.from in s.followers && q.from in s.served
    && q.corr < s.nextCorr
    && q.offset <= s.served[q.from] && q.offset <= q.asked <= |s.log|
    && (s.followers[q.from].pending == Some(q.corr) ==> q.offset == End(s.followers[q.from]))
  }

  ghost predicate ResponseInv(s: State, a: Response) {
    && a.req in s.requests
    && a.committed <= s.committed
    && !a.truncate
    && a.req.offset + |a.recs| <= |s.log|
    && a.recs == s.log[a.req.offset..a.req.offset + |a.recs|]
    && a.req.from in s.served && a.req.offset + |a.recs| <= s.served[a.req.from]
  }

  ghost predicate Inv(c: Config, s: State) {
    && c.leader in c.replicas
    && c.replicas - {c.leader} == s.followers.Keys
    && (forall f :: f in s.followers ==> FollowerInv(s, f))
    && (forall q :: q in s.requests ==> RequestInv(s, q))
    && (forall a :: a in s.responses ==> ResponseInv(s, a))
    && (forall id :: id in s.progress ==> id in s.followers && id in s.served && s.progress[id] <= s.served[id])
    && (forall m :: m in s.proposals ==> m <= |s.log| && ServedToMajority(c, s, m))
    && s.committed <= |s.log| && ServedToMajority(c, s, s.committed)
  }

  function Start(c: Config): State {
    State([], 0, map[], {}, map f | f in c.replicas - {c.leader} :: Replica(0, [], 0, None), {}, {}, 0,
          map f | f in c.replicas - {c.leader} :: 0)
  }

  lemma StartInv(c: Config)
    requires c.leader in c.replicas
    ensures Inv(c, Start(c))
  {
    assert ServedTo(c, Start(c), c.replicas, 0);
  }

  /** Serving more never takes a majority away. */
  lemma MajorityPersists(c: Config, s: State, t: State, m: nat)
    requires ServedToMajority(c, s, m)
    requires forall id :: id in s.served ==> id in t.served && s.served[id] <= t.served[id]
    ensures ServedToMajority(c, t, m)
  {
    var M :| ServedTo(c, s, M, m);
    assert ServedTo(c, t, M, m);
  }

  /** The in-sync followers and the leader are a majority that was served m. */
  lemma ProposalIsServed(c: Config, s: State, alive: set<NodeId>, hwm: nat, m: nat)
    requires Inv(c, s) && Proposes(c, s.progress, alive, hwm, m)
    ensures ServedToMajority(c, s, m)
  {
    var isr := InSyncFollowers(c.replicas, c.leader, s.progress, alive, hwm, c.lagMax);
    assert |isr + {c.leader}| == |isr| + 1;
    assert ServedTo(c, s, isr + {c.leader}, m);
  }

  lemma StepKeepsMarks(c: Config, s: State, e: Event)
    requires Inv(c, s) && Enabled(c, s, e)
    ensures var t := Step(c, s, e);
            && (forall m :: m in t.proposals ==> m <= |t.log| && ServedToMajority(c, t, m))
            && t.committed <= |t.log| && ServedToMajority(c, t, t.committed)
            && s.committed <= t.committed && s.log <= t.log
  {
    var t := Step(c, s, e);
    if e.Propose? { ProposalIsServed(c, s, e.alive, e.hwm, e.m); }
    forall m | ServedToMajority(c, s, m) ensures ServedToMajority(c, t, m) {
      MajorityPersists(c, s, t, m);
    }
  }

  lemma StepKeepsFollowers(c: Config, s: State, e: Event)
    requires Inv(c, s) && Enabled(c, s, e)
    ensures var t := Step(c, s, e);
            && c.replicas - {c.leader} == t.followers.Keys
            && (forall f :: f in t.followers ==> FollowerInv(t, f))
  {
    var t := Step(c, s, e);
    if e.Receive? {
      var r := s.followers[e.resp.req.from];
      assert FollowerInv(s, e.resp.req.from) && ResponseInv(s, e.resp) && RequestInv(s, e.resp.req);
      assert r.recs + e.resp.recs <= s.log;
    }
    forall f | f in t.followers ensures FollowerInv(t, f) {
      assert FollowerInv(s, f);
    }
  }

  lemma StepKeepsRequests(c: Config, s: State, e: Event)
    requires Inv(c, s) && Enabled(c, s, e)
    ensures forall q :: q in Step(c, s, e).requests ==> RequestInv(Step(c, s, e), q)
  {
    var t := Step(c, s, e);
    forall q | q in t.requests ensures RequestInv(t, q) {
      if q in s.requests { assert RequestInv(s, q); } else { assert FollowerInv(s, q.from); }
    }
  }

  lemma StepKeepsResponses(c: Config, s: State, e: Event)
    requires Inv(c, s) && Enabled(c, s, e)
    ensures forall a :: a in Step(c, s, e).responses ==> ResponseInv(Step(c, s, e), a)
  {
    var t := Step(c, s, e);
    if e.Serve? { assert RequestInv(s, e.req); }
    forall a | a in t.responses ensures ResponseInv(t, a) {
      if a in s.responses { assert ResponseInv(s, a); }
    }
  }

  lemma StepKeepsProgress(c: Config, s: State, e: Event)
    requires Inv(c, s) && Enabled(c, s, e)
    ensures var t := Step(c, s, e);
            forall id :: id in t.progress ==> id in t.followers && id in t.served && t.progress[id] <= t.served[id]
  {
    if e.Serve? { assert RequestInv(s, e.req); }
  }

  lemma StepKeepsInv(c: Config, s: State, e: Event)
    requires Inv(c, s) && Enabled(c, s, e)
    ensures Inv(c, Step(c, s, e))
  {
    StepKeepsMarks(c, s, e);
    StepKeepsFollowers(c, s, e);
    StepKeepsRequests(c, s, e);
    StepKeepsResponses(c, s, e);
    StepKeepsProgress(c, s, e);
  }

  /** es is a run from s that ends in t. */
  ghost predicate Runs(c: Config, s: State, es: seq<Event>, t: State)
    decreases es
  {
    if es == [] then t == s
    else Enabled(c, s, es[0]) && Runs(c, Step(c, s, es[0]), es[1..], t)
  }

  /** Along every run the invariant holds, the leader's log only grows and the
      committed mark never falls. */
  lemma {:induction false} RunKeepsInv(c: Config, s: State, es: seq<Event>, t: State)
    requires Inv(c, s) && Runs(c, s, es, t)
    ensures Inv(c, t) && s.log <= t.log && s.committed <= t.committed
    decreases es
  {
    if es != [] {
      StepKeepsInv(c, s, es[0]);
      StepKeepsMarks(c, s, es[0]);
      RunKeepsInv(c, Step(c, s, es[0]), es[1..], t);
    }
  }

  // ---------------------------------------------------------------------
  // Log matching
  // ---------------------------------------------------------------------

  /** A node's log as consumers see it. */
  function NodeView(c: Config, s: State, id: NodeId): Replica
    requires id == c.leader || id in s.followers
  {
    if id == c.leader then Replica(0, s.log, s.committed, None) else s.followers[id]
  }

  /** Under lost, late and repeated messages and follower restarts every
      follower's log is a prefix of the leader's, no answer ever tells a follower
      to truncate, and an answer a follower accepts always continues its log. */
  lemma FollowersArePrefixes(c: Config, es: seq<Event>, t: State, f: NodeId)
    requires c.leader in c.replicas && Runs(c, Start(c), es, t) && f in t.followers
    ensures t.followers[f].base == 0 && t.followers[f].recs <= t.log
    ensures forall a :: a in t.responses ==> !a.truncate
    ensures forall a :: a in t.responses && a.req.from == f && Enabled(c, t, Receive(a)) ==>
              a.req.offset == End(t.followers[f])
  {
    StartInv(c);
    RunKeepsInv(c, Start(c), es, t);
    assert FollowerInv(t, f);
    forall a | a in t.responses
      ensures !a.truncate && (a.req.from == f && Enabled(c, t, Receive(a)) ==> a.req.offset == End(t.followers[f]))
    {
      assert ResponseInv(t, a) && RequestInv(t, a.req);
    }
  }

  lemma NodeIsPrefix(c: Config, s: State, id: NodeId)
    requires Inv(c, s) && (id == c.leader || id in s.followers)
    ensures NodeView(c, s, id).base == 0 && NodeView(c, s, id).recs <= s.log
  {
    assert id != c.leader ==> FollowerInv(s, id);
  }

  ghost predicate Shows(r: Replica, offset: nat, x: Rec) {
    Fetch(r, offset, 1) == Some([x])
  }

  lemma ShownIsStored(r: Replica, offset: nat, x: Rec)
    requires r.base == 0 && Shows(r, offset, x)
    ensures offset < |r.recs| && r.recs[offset] == x
  {
    var limit := Min(r.committed, End(r));
    assert offset < limit;
    assert [x][0] == r.recs[offset..offset + 1][0];
  }

  /** Consumers that read the same offset from any two replicas at any two
      moments of a run see the same record. */
  lemma ReplicasAgree(c: Config, s: State, es: seq<Event>, t: State, a: NodeId, b: NodeId, offset: nat, x: Rec, y: Rec)
    requires Inv(c, s) && Runs(c, s, es, t)
    requires (a == c.leader || a in s.followers) && Shows(NodeView(c, s, a), offset, x)
    requires (b == c.leader || b in t.followers) && Shows(NodeView(c, t, b), offset, y)
    ensures x == y
  {
    RunKeepsInv(c, s, es, t);
    NodeIsPrefix(c, s, a);
    NodeIsPrefix(c, t, b);
    ShownIsStored(NodeView(c, s, a), offset, x);
    ShownIsStored(NodeView(c, t, b), offset, y);
  }

  // ---------------------------------------------------------------------
  // The commit mark
  // ---------------------------------------------------------------------

  /** The committed mark stays within the leader's log, everything below it has
      been served to a majority, and no follower knows a higher mark or one above
      its own log. */
  lemma CommitIsServedToMajority(c: Config, es: seq<Event>, t: State)
    requires c.leader in c.replicas && Runs(c, Start(c), es, t)
    ensures t.committed <= |t.log| && ServedToMajority(c, t, t.committed)
    ensures forall f :: f in t.followers ==>
              t.followers[f].committed <= t.committed && t.followers[f].committed <= End(t.followers[f])
  {
    StartInv(c);
    RunKeepsInv(c, Start(c), es, t);
    forall f | f in t.followers ensures t.followers[f].committed <= t.committed && t.followers[f].committed <= End(t.followers[f]) {
      assert FollowerInv(t, f);
    }
  }

  /** acks=all: once waitCommitted has seen the mark reach the end of a batch,
      every later leader fetch at an offset of the batch returns its record. */
  lemma AckedBatchStaysVisible(c: Config, s: State, es: seq<Event>, t: State, base: nat, batch: seq<Rec>, i: nat, max: nat)
    requires Inv(c, s) && Runs(c, s, es, t)
    requires base + |batch| <= Min(s.committed, |s.log|) && s.log[base..base + |batch|] == batch
    requires i < |batch| && 1 <= max
    ensures Fetch(NodeView(c, t, c.leader), base + i, max).Some?
    ensures var out := Fetch(NodeView(c, t, c.leader), base + i, max).value;
            |out| > 0 && out[0] == batch[i]
  {
    RunKeepsInv(c, s, es, t);
    assert s.log[base..base + |batch|][i] == s.log[base + i] == t.log[base + i];
  }

  // ---------------------------------------------------------------------
  // Answers to other calls
  // ---------------------------------------------------------------------

  /** Why the correlation check matters: an answer to some other call keeps a
      follower's log a prefix from offset 0 exactly when it carries nothing,
      happens to continue the log, or quotes a log end not above it. Otherwise
      the divergence guard jumps the log forward and drops what it held. */
  lemma UncorrelatedAnswer(s: State, r: Replica, a: Response)
    requires ResponseInv(s, a) && a.first == 0
    requires r.base == 0 && r.recs <= s.log
    ensures Apply(r, a).base == 0 && Apply(r, a).recs <= s.log
            <==> a.recs == [] || a.req.offset == End(r) || a.hwm <= End(r)
  {
    if a.recs != [] && a.req.offset == End(r) {
      assert r.recs + a.recs <= s.log;
    }
  }
}
