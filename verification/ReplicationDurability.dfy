/** What the commit mark says about the followers' logs. It is raised by progress
    that is recorded when a batch is served, and the answer can still be lost. */
module ReplicationDurability {
  import opened Replication

  /** The leader and enough followers hold everything below m. */
  ghost predicate HeldBy(c: Config, s: State, majority: set<NodeId>, m: nat) {
    && c.leader in majority && majority <= c.replicas && 2 * |majority| > |c.replicas|
    && forall id :: id in majority && id != c.leader ==> id in s.followers && m <= End(s.followers[id])
  }

  ghost predicate HeldByMajority(c: Config, s: State, m: nat) {
    exists majority: set<NodeId> :: HeldBy(c, s, majority, m)
  }

  // ---------------------------------------------------------------------
  // A committed record that only the leader holds
  // ---------------------------------------------------------------------

  lemma {:induction false} RunsSnoc(c: Config, s: State, es: seq<Event>, t: State, e: Event)
    requires Runs(c, s, es, t) && Enabled(c, t, e)
    ensures Runs(c, s, es + [e], Step(c, t, e))
    decreases es
  {
    if es == [] {
      assert [] + [e] == [e];
      assert [e][1..] == [];
    } else {
      RunsSnoc(c, Step(c, s, es[0]), es[1..], t, e);
      assert (es + [e])[1..] == es[1..] + [e];
    }
  }

  /** One record in the leader's log, served to each of `got`, received by nobody. */
  ghost predicate ServedOnly(c: Config, s: State, x: Rec, got: set<NodeId>) {
    && Inv(c, s) && s.log == [x] && s.committed == 0
    && (forall f :: f in s.followers ==> f in s.served && s.followers[f].base == 0 && s.followers[f].recs == [])
    && s.progress.Keys == got && forall f :: f in got ==> s.progress[f] == 1
  }

  /** f has asked for the record. */
  ghost predicate Asking(s: State, q: Request) {
    q in s.requests && q.from in s.followers && q.offset == 0 && q.asked == 1
  }

  lemma AskOne(c: Config, s: State, x: Rec, got: set<NodeId>, f: NodeId) returns (q: Request)
    requires ServedOnly(c, s, x, got) && f in s.followers
    ensures Enabled(c, s, Ask(f))
    ensures ServedOnly(c, Step(c, s, Ask(f)), x, got) && q.from == f && Asking(Step(c, s, Ask(f)), q)
  {
    q := Request(f, s.nextCorr, 0, 1);
    StepKeepsInv(c, s, Ask(f));
    assert q in Step(c, s, Ask(f)).requests;
  }

  lemma AnswerOne(c: Config, s: State, x: Rec, got: set<NodeId>, q: Request)
    requires ServedOnly(c, s, x, got) && Asking(s, q)
    ensures Enabled(c, s, Serve(q, 1, 1, 0)) && ServedOnly(c, Step(c, s, Serve(q, 1, 1, 0)), x, got + {q.from})
  {
    assert Enabled(c, s, Serve(q, 1, 1, 0));
    StepKeepsInv(c, s, Serve(q, 1, 1, 0));
  }

  lemma ServeOne(c: Config, s: State, x: Rec, got: set<NodeId>, f: NodeId, es: seq<Event>) returns (fs: seq<Event>, t: State)
    requires ServedOnly(c, s, x, got) && f in s.followers && Runs(c, Start(c), es, s)
    ensures ServedOnly(c, t, x, got + {f}) && Runs(c, Start(c), fs, t)
  {
    var q := AskOne(c, s, x, got, f);
    RunsSnoc(c, Start(c), es, s, Ask(f));
    var asked := Step(c, s, Ask(f));
    AnswerOne(c, asked, x, got, q);
    RunsSnoc(c, Start(c), es + [Ask(f)], asked, Serve(q, 1, 1, 0));
    fs, t := es + [Ask(f)] + [Serve(q, 1, 1, 0)], Step(c, asked, Serve(q, 1, 1, 0));
  }

  lemma {:induction false} ServeAll(c: Config, x: Rec, got: set<NodeId>) returns (es: seq<Event>, t: State)
    requires c.leader in c.replicas && got <= c.replicas - {c.leader}
    ensures ServedOnly(c, t, x, got) && Runs(c, Start(c), es, t)
    decreases got
  {
    if f :| f in got {
      var fs, s := ServeAll(c, x, got - {f});
      es, t := ServeOne(c, s, x, got - {f}, f, fs);
      assert got - {f} + {f} == got;
    } else {
      StartInv(c);
      StepKeepsInv(c, Start(c), Append([x]));
      assert Runs(c, Start(c), [], Start(c));
      RunsSnoc(c, Start(c), [], Start(c), Append([x]));
      es, t := [] + [Append([x])], Step(c, Start(c), Append([x]));
      assert t.progress.Keys == got;
    }
  }

  /** A majority of two or more replicas has a follower in it. */
  lemma HeldNeedsFollower(c: Config, s: State, m: nat)
    requires |c.replicas| >= 2 && HeldByMajority(c, s, m)
    ensures exists f :: f in s.followers && m <= End(s.followers[f])
  {
    var majority: set<NodeId> :| HeldBy(c, s, majority, m);
    assert (forall id :: id in majority ==> id == c.leader) ==> majority == {c.leader};
    var id :| id in majority && id != c.leader;
    assert id in s.followers;
  }

  /** In every cluster of two or more replicas a record can be committed, hence
      confirmed to an acks=all producer, while no follower holds it. */
  lemma CommittedMayBeHeldByLeaderOnly(c: Config, x: Rec) returns (es: seq<Event>, t: State)
    requires c.leader in c.replicas && |c.replicas| >= 2
    ensures Runs(c, Start(c), es, t) && t.committed == 1 == |t.log|
    ensures forall f :: f in t.followers ==> t.followers[f].recs == []
    ensures !HeldByMajority(c, t, t.committed)
  {
    var all := c.replicas - {c.leader};
    var fs, s := ServeAll(c, x, all);
    var isr := InSyncFollowers(c.replicas, c.leader, s.progress, all, 1, c.lagMax);
    assert isr == all;
    assert |all| == |c.replicas| - 1;
    var propose := Propose(all, 1, 1);
    assert Enabled(c, s, propose);
    RunsSnoc(c, Start(c), fs, s, propose);
    var s' := Step(c, s, propose);
    RunsSnoc(c, Start(c), fs + [propose], s', Raise(1));
    es, t := fs + [propose] + [Raise(1)], Step(c, s', Raise(1));
    if HeldByMajority(c, t, 1) { HeldNeedsFollower(c, t, 1); }
  }

  /** es is a run of a new partition that ends in t. */
  ghost predicate Reaches(c: Config, es: seq<Event>, t: State) {
    Runs(c, Start(c), es, t)
  }

  /** The mark is held by a majority in every run exactly when the leader is the
      only replica. */
  lemma CommitIsHeldIff(c: Config)
    requires c.leader in c.replicas
    ensures (forall es: seq<Event>, t: State :: Reaches(c, es, t) ==> HeldByMajority(c, t, t.committed))
            <==> |c.replicas| == 1
  {
    if |c.replicas| == 1 {
      forall es: seq<Event>, t: State | Reaches(c, es, t) ensures HeldByMajority(c, t, t.committed) {
        assert HeldBy(c, t, {c.leader}, t.committed);
      }
    } else {
      assert |{c.leader}| <= |c.replicas| by { assert |c.replicas - {c.leader}| + 1 == |c.replicas|; }
      var es, t := CommittedMayBeHeldByLeaderOnly(c, "");
      assert Reaches(c, es, t);
    }
  }

  // ---------------------------------------------------------------------
  // When the mark does mean held
  // ---------------------------------------------------------------------

  /** Every entry of the progress table is an offset the follower really holds. */
  ghost predicate Backed(s: State) {
    forall id :: id in s.progress && id in s.followers ==> s.progress[id] <= End(s.followers[id])
  }

  /** Serving the request a follower is waiting in keeps the table backed exactly
      when the served batch is empty, that is when the request alone confirms
      what the follower holds. */
  lemma BackedExactlyForEmptyBatches(c: Config, s: State, e: Event)
    requires Inv(c, s) && Backed(s) && Enabled(c, s, e) && e.Serve?
    requires s.followers[e.req.from].pending == Some(e.req.corr)
    ensures Backed(Step(c, s, e)) <==> e.n == 0
  {
    var t := Step(c, s, e);
    assert RequestInv(s, e.req);
    assert t.progress[e.req.from] == End(t.followers[e.req.from]) + e.n;
  }

  /** Receiving what was served makes an entry true again. */
  lemma ReceivedIsBacked(c: Config, s: State, a: Response)
    requires Inv(c, s) && Enabled(c, s, Receive(a))
    requires a.req.from in s.progress && s.progress[a.req.from] == a.req.offset + |a.recs|
    ensures s.progress[a.req.from] <= End(Step(c, s, Receive(a)).followers[a.req.from])
  {
    assert ResponseInv(s, a) && RequestInv(s, a.req);
  }

  lemma BackedFollowerHolds(c: Config, s: State, alive: set<NodeId>, hwm: nat, m: nat, id: NodeId)
    requires Inv(c, s) && Backed(s) && Proposes(c, s.progress, alive, hwm, m)
    requires id in InSyncFollowers(c.replicas, c.leader, s.progress, alive, hwm, c.lagMax)
    ensures id in s.followers && m <= End(s.followers[id])
  {
  }

  /** While the table is backed, what a commit proposes is held by a majority. */
  lemma BackedProposalIsHeld(c: Config, s: State, alive: set<NodeId>, hwm: nat, m: nat)
    requires Inv(c, s) && Backed(s) && Proposes(c, s.progress, alive, hwm, m)
    ensures HeldByMajority(c, s, m)
  {
    var isr := InSyncFollowers(c.replicas, c.leader, s.progress, alive, hwm, c.lagMax);
    forall id | id in isr ensures id in s.followers && m <= End(s.followers[id]) {
      BackedFollowerHolds(c, s, alive, hwm, m, id);
    }
    assert |isr + {c.leader}| == |isr| + 1;
    assert HeldBy(c, s, isr + {c.leader}, m);
  }

  /** A restart loses nothing below m that was there. */
  ghost predicate Spares(s: State, e: Event, m: nat) {
    e.Restart? && e.f in s.followers && m <= |s.followers[e.f].recs| ==> m <= e.keep
  }

  /** What a follower holds below m it keeps, unless a restart loses it. */
  lemma HoldPersists(c: Config, s: State, e: Event, f: NodeId, m: nat)
    requires Inv(c, s) && Enabled(c, s, e) && f in s.followers && m <= End(s.followers[f]) && Spares(s, e, m)
    ensures f in Step(c, s, e).followers && m <= End(Step(c, s, e).followers[f])
  {
    assert FollowerInv(s, f);
    if e.Receive? {
      assert ResponseInv(s, e.resp) && RequestInv(s, e.resp.req);
    }
  }

  lemma HeldPersists(c: Config, s: State, e: Event, m: nat)
    requires Inv(c, s) && Enabled(c, s, e) && HeldByMajority(c, s, m) && Spares(s, e, m)
    ensures HeldByMajority(c, Step(c, s, e), m)
  {
    var majority: set<NodeId> :| HeldBy(c, s, majority, m);
    forall id | id in majority && id != c.leader
      ensures id in Step(c, s, e).followers && m <= End(Step(c, s, e).followers[id])
    {
      HoldPersists(c, s, e, id, m);
    }
    assert HeldBy(c, Step(c, s, e), majority, m);
  }

  /** With two replicas a restart that loses a record below a mark undoes the mark. */
  lemma LostTailUndoesMark(c: Config, s: State, e: Event, m: nat)
    requires Inv(c, s) && Enabled(c, s, e) && |c.replicas| == 2 && e.Restart? && !Spares(s, e, m)
    ensures !HeldByMajority(c, Step(c, s, e), m)
  {
    var t := Step(c, s, e);
    assert FollowerInv(s, e.f);
    OnlyFollower(c, e.f);
    if HeldByMajority(c, t, m) { HeldNeedsFollower(c, t, m); }
  }

  lemma OnlyFollower(c: Config, f: NodeId)
    requires c.leader in c.replicas && |c.replicas| == 2 && f in c.replicas - {c.leader}
    ensures c.replicas - {c.leader} == {f}
  {
    var rest := c.replicas - {c.leader} - {f};
    assert |c.replicas - {c.leader}| == 1;
    assert |rest| == 0;
    assert c.replicas - {c.leader} == rest + {f};
  }

  /** Every mark, proposed or stored, is held by a majority. */
  ghost predicate MarksHeld(c: Config, s: State) {
    HeldByMajority(c, s, s.committed) && forall m :: m in s.proposals ==> HeldByMajority(c, s, m)
  }

  /** A proposal is made while the table is backed; a restart spares what is marked. */
  ghost predicate Careful(s: State, e: Event) {
    && (e.Propose? ==> Backed(s))
    && Spares(s, e, s.committed) && forall m :: m in s.proposals ==> Spares(s, e, m)
  }

  ghost predicate CarefulRun(c: Config, s: State, es: seq<Event>)
    decreases es
  {
    es == [] || (Enabled(c, s, es[0]) && Careful(s, es[0]) && CarefulRun(c, Step(c, s, es[0]), es[1..]))
  }

  lemma StepKeepsMarksHeld(c: Config, s: State, e: Event)
    requires Inv(c, s) && MarksHeld(c, s) && Enabled(c, s, e) && Careful(s, e)
    ensures MarksHeld(c, Step(c, s, e))
  {
    HeldPersists(c, s, e, s.committed);
    if e.Propose? {
      BackedProposalIsHeld(c, s, e.alive, e.hwm, e.m);
      HeldPersists(c, s, e, e.m);
    }
    forall m | m in s.proposals ensures HeldByMajority(c, Step(c, s, e), m) {
      HeldPersists(c, s, e, m);
    }
  }

  lemma {:induction false} RunKeepsMarksHeld(c: Config, s: State, es: seq<Event>, t: State)
    requires Inv(c, s) && MarksHeld(c, s) && Runs(c, s, es, t) && CarefulRun(c, s, es)
    ensures MarksHeld(c, t)
    decreases es
  {
    if es != [] {
      StepKeepsInv(c, s, es[0]);
      StepKeepsMarksHeld(c, s, es[0]);
      RunKeepsMarksHeld(c, Step(c, s, es[0]), es[1..], t);
    }
  }

  /** If every proposal of a run is made while the table is backed and no restart loses
      a record below a mark, the committed mark is held by a majority in every state
      of it. */
  lemma BackedRunsCommitWhatIsHeld(c: Config, es: seq<Event>, t: State)
    requires c.leader in c.replicas && Runs(c, Start(c), es, t) && CarefulRun(c, Start(c), es)
    ensures HeldByMajority(c, t, t.committed)
  {
    StartInv(c);
    assert HeldBy(c, Start(c), c.replicas, 0);
    RunKeepsMarksHeld(c, Start(c), es, t);
  }
}
