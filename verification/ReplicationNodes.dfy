/** The replication runtime of one partition as the broker updates it: the
    leader's progress table and commit mark, and the follower's apply step. */
module ReplicationNodes {
  import opened Replication

  class Leader {
    const self: NodeId
    const replicas: seq<NodeId>
    const lagMax: nat
    var log: seq<Rec>
    var committed: nat
    var followerOffsets: map<NodeId, nat>

    ghost function Conf(): Config {
      Config(self, (set id | id in replicas), lagMax)
    }

    /** Placement hands out pairwise distinct replicas that include the leader. */
    ghost predicate Placed() {
      self in replicas && forall i, j :: 0 <= i < j < |replicas| ==> replicas[i] != replicas[j]
    }

    constructor (self: NodeId, replicas: seq<NodeId>, lagMax: nat)
      ensures this.self == self && this.replicas == replicas && this.lagMax == lagMax
      ensures log == [] && committed == 0 && followerOffsets == map[]
    {
      this.self, this.replicas, this.lagMax := self, replicas, lagMax;
      log, committed, followerOffsets := [], 0, map[];
    }

    method SetCommitted(off: nat)
      modifies `committed
      ensures committed == Max(old(committed), off)
    {
      if off <= committed { return; }
      committed := off;
    }

    method CommittedFor() returns (c: nat)
      ensures c == Min(committed, |log|)
    {
      c := committed;
      if c > |log| { c := |log|; }
    }

    /** The in-sync followers, counted with the leader, and their lowest offset. */
    method CountInSync(alive: set<NodeId>) returns (isrMin: nat, isrSize: nat)
      requires Placed()
      ensures var isr := InSyncFollowers(Conf().replicas, self, followerOffsets, alive, |log|, lagMax);
              isrSize == |isr| + 1 && IsIsrMin(isrMin, |log|, followerOffsets, isr)
    {
      var hwm := |log|;
      isrMin, isrSize := hwm, 1;
      ghost var isr: set<NodeId> := {};
      for i := 0 to |replicas|
        invariant isr == set k | 0 <= k < i && replicas[k] != self
                                 && InSync(followerOffsets, alive, hwm, lagMax, replicas[k]) :: replicas[k]
        invariant isrSize == |isr| + 1
        invariant IsIsrMin(isrMin, hwm, followerOffsets, isr)
      {
        var id := replicas[i];
        if id == self || id !in followerOffsets || id !in alive { continue; }
        var off := followerOffsets[id];
        if Sub64(hwm, off) > lagMax { continue; }
        assert id !in isr;
        isr := isr + {id};
        isrSize := isrSize + 1;
        if off < isrMin { isrMin := off; }
      }
      assert isr == InSyncFollowers(Conf().replicas, self, followerOffsets, alive, hwm, lagMax);
    }

    /** The mark rises to what the quorum rule proposes, or stays while the
        in-sync replicas are only a minority. */
    method MaybeAdvanceCommit(alive: set<NodeId>)
      requires Placed()
      modifies `committed
      ensures var isr := InSyncFollowers(Conf().replicas, self, followerOffsets, alive, |log|, lagMax);
              if |isr| + 1 < |replicas| / 2 + 1 then committed == old(committed)
              else exists m :: Proposes(Conf(), followerOffsets, alive, |log|, m) && committed == Max(old(committed), m)
    {
      var hwm := |log|;
      var quorum := |replicas| / 2 + 1;
      var isrMin, isrSize := CountInSync(alive);
      ReplicaCount(replicas);
      if isrSize < quorum { return; }
      assert Proposes(Conf(), followerOffsets, alive, hwm, isrMin);
      SetCommitted(isrMin);
    }

    /** handleReplicate on the leader. `fit` is how many records the byte limit
        lets through; one always passes. A caller without a name, or the node
        itself, is served but leaves no progress. */
    method HandleReplicate(req: Request, maxRecords: int, fit: nat, alive: set<NodeId>) returns (resp: Response)
      requires Placed()
      modifies this
      ensures log == old(log)
      ensures resp.req == req && resp.hwm == |log| && resp.committed == Min(old(committed), |log|)
      ensures resp.truncate <==> req.offset > |log|
      ensures resp.truncate ==> followerOffsets == old(followerOffsets) && committed == old(committed) && resp.recs == []
      ensures !resp.truncate ==>
                && resp.recs <= log[req.offset..] && |resp.recs| <= 10_000
                && (req.offset < |log| ==> 1 <= |resp.recs|)
                && followerOffsets ==
                     if req.from == "" || req.from == self then old(followerOffsets)
                     else old(followerOffsets)[req.from := req.offset + |resp.recs|]
      ensures committed == old(committed)
              || exists m :: Proposes(Conf(), followerOffsets, alive, |log|, m) && committed == Max(old(committed), m)
      ensures Handled(Conf(), log, Marks(old(committed), old(followerOffsets)), Marks(committed, followerOffsets), req, resp, alive)
    {
      var hwm := |log|;
      var known := CommittedFor();
      if req.offset > hwm {
        return Response(req, true, [], 0, hwm, known);
      }
      var limit := maxRecords;
      if limit <= 0 || limit > 10_000 { limit := 1000; }
      var n := Min(limit, Max(1, fit));
      n := Min(n, hwm - req.offset);
      var recs := log[req.offset..req.offset + n];
      if req.from != "" && req.from != self {
        followerOffsets := followerOffsets[req.from := req.offset + |recs|];
        MaybeAdvanceCommit(alive);
      }
      resp := Response(req, false, recs, 0, hwm, known);
    }
  }

  lemma {:induction false} ReplicaCount(ids: seq<NodeId>)
    requires forall i, j :: 0 <= i < j < |ids| ==> ids[i] != ids[j]
    ensures |set id | id in ids| == |ids|
  {
    if ids != [] {
      var n := |ids| - 1;
      ReplicaCount(ids[..n]);
      assert (set id | id in ids) == (set id | id in ids[..n]) + {ids[n]};
    }
  }

  /** The leader's mark and progress table. */
  datatype Marks = Marks(committed: nat, progress: map<NodeId, nat>)

  /** What handling a request does to the leader, and its answer. */
  ghost predicate Handled(c: Config, log: seq<Rec>, before: Marks, after: Marks, req: Request, resp: Response, alive: set<NodeId>) {
    if req.offset > |log| then resp == Response(req, true, [], 0, |log|, Min(before.committed, |log|)) && after == before
    else
      && req.offset + |resp.recs| <= |log|
      && resp == Response(req, false, log[req.offset..req.offset + |resp.recs|], 0, |log|, Min(before.committed, |log|))
      && after.progress == (if req.from == "" || req.from == c.leader then before.progress
                            else before.progress[req.from := req.offset + |resp.recs|])
      && (after.committed == before.committed
          || exists m :: Proposes(c, after.progress, alive, |log|, m) && after.committed == Max(before.committed, m))
  }

  lemma RunsFirst(c: Config, s: State, e: Event, es: seq<Event>, t: State)
    requires Enabled(c, s, e) && Runs(c, Step(c, s, e), es, t)
    ensures Runs(c, s, [e] + es, t)
  {
    assert ([e] + es)[1..] == es;
  }

  lemma Serves(c: Config, s: State, after: Marks, req: Request, resp: Response, alive: set<NodeId>) returns (serve: Event)
    requires Inv(c, s) && req in s.requests && req.from != ""
    requires Handled(c, s.log, Marks(s.committed, s.progress), after, req, resp, alive)
    ensures Enabled(c, s, serve)
    ensures var t := Step(c, s, serve);
            && resp in t.responses && t.log == s.log && t.committed == s.committed && t.progress == after.progress
            && t.followers == s.followers
  {
    assert RequestInv(s, req);
    serve := Serve(req, |s.log|, |resp.recs|, Min(s.committed, |s.log|));
    assert resp == Answer(s, serve);
  }

  /** The mark goes up to what the quorum rule proposes. */
  lemma Advances(c: Config, s: State, alive: set<NodeId>, m: nat) returns (es: seq<Event>, t: State)
    requires Proposes(c, s.progress, alive, |s.log|, m)
    ensures Runs(c, s, es, t)
    ensures t == s.(proposals := s.proposals + {m}, committed := Max(s.committed, m))
  {
    var propose, raise := Propose(alive, |s.log|, m), Raise(m);
    var mid := Step(c, s, propose);
    t := Step(c, mid, raise);
    RunsFirst(c, mid, raise, [], t);
    RunsFirst(c, s, propose, [raise], t);
    es := [propose] + [raise];
  }

  /** To the leader of a run that handling is the protocol's own steps: it serves, and
      then may propose and raise the mark. */
  lemma HandledIsRun(c: Config, s: State, after: Marks, req: Request, resp: Response, alive: set<NodeId>)
    returns (es: seq<Event>, t: State)
    requires Inv(c, s) && req in s.requests && req.from != ""
    requires Handled(c, s.log, Marks(s.committed, s.progress), after, req, resp, alive)
    ensures Runs(c, s, es, t) && resp in t.responses
    ensures t.log == s.log && t.committed == after.committed && t.progress == after.progress && t.followers == s.followers
  {
    var serve := Serves(c, s, after, req, resp, alive);
    assert RequestInv(s, req);
    t := Step(c, s, serve);
    es := [];
    if after.committed != s.committed {
      var m :| Proposes(c, after.progress, alive, |s.log|, m) && after.committed == Max(s.committed, m);
      es, t := Advances(c, t, alive, m);
    }
    RunsFirst(c, s, serve, es, t);
    es := [serve] + es;
  }

  class Follower {
    var base: nat
    var recs: seq<Rec>
    var committed: nat

    ghost function View(): Replica
      reads this
    {
      Replica(base, recs, committed, None)
    }

    constructor ()
      ensures View() == Replica(0, [], 0, None)
    {
      base, recs, committed := 0, [], 0;
    }

    method AppendReplica(offset: nat, batch: seq<Rec>) returns (ok: bool)
      modifies `recs
      ensures ok <==> batch == [] || offset == old(End(View()))
      ensures recs == if ok then old(recs) + batch else old(recs)
    {
      ok := |batch| == 0 || offset == base + |recs|;
      if ok { recs := recs + batch; }
    }

    method CutTo(target: nat)
      modifies `base, `recs
      ensures View() == TruncateTo(old(View()), target)
    {
      var end := base + |recs|;
      if target == end { return; }
      if base <= target < end {
        recs := recs[..target - base];
      } else {
        base, recs := target, [];
      }
    }

    method LearnCommitted(leaderCommitted: nat)
      modifies `committed
      ensures View() == Learn(old(View()), leaderCommitted)
    {
      var c := leaderCommitted;
      if c > base + |recs| { c := base + |recs|; }
      if c > committed { committed := c; }
    }

    method FollowTruncate(localEnd: nat, resp: Response)
      requires localEnd == End(View())
      modifies this
      ensures View() == ApplyTruncate(old(View()), resp)
    {
      var target := resp.hwm;
      if localEnd <= resp.hwm {
        target := resp.first;
        if target <= localEnd { target := resp.hwm; }
      }
      CutTo(target);
      LearnCommitted(resp.committed);
    }

    /** followOnce once the leader has answered. */
    method FollowOnce(resp: Response) returns (progressed: bool)
      modifies this
      ensures View() == Apply(old(View()), resp)
    {
      var localEnd := base + |recs|;
      if resp.truncate {
        FollowTruncate(localEnd, resp);
        return true;
      }
      if |resp.recs| > 0 {
        var ok := AppendReplica(resp.req.offset, resp.recs);
        if !ok {
          FollowTruncate(localEnd, resp);
          return true;
        }
      }
      LearnCommitted(resp.committed);
      progressed := |resp.recs| > 0 && base + |recs| < resp.hwm;
    }

    /** Fetch's capped read on this node. */
    method ReadCapped(offset: nat, max: nat) returns (out: Option<seq<Rec>>)
      ensures out == Fetch(View(), offset, max)
    {
      var end := base + |recs|;
      if offset > end || offset < base { return None; }
      var limit := end;
      if committed < limit { limit := committed; }
      var batch: seq<Rec> := [];
      var at := offset;
      while at < end && |batch| < max && at < limit
        invariant offset <= at <= end && at - offset == |batch| <= max
        invariant at <= Max(limit, offset)
        invariant batch == recs[offset - base..at - base]
        decreases end - at
      {
        batch := batch + [recs[at - base]];
        at := at + 1;
      }
      out := Some(batch);
    }
  }
}
