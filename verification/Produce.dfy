/** The produce path: a batch is scattered over partitions, each partition's
    share is appended as one contiguous batch by that partition's writer, and
    the offsets are gathered back into request order. Other producers append
    between any two of these steps. */
module Produce {

  type Rec = string

  datatype Error = EmptyBatch | PartitionOutOfRange | NotLeader | BadAcks | AppendFailed
  datatype Result = Ok(results: seq<(nat, nat)>) | Err(error: Error)

  /** How one partition's share fared. A failed share may still have reached the
      log: the writer answers a caller that has stopped waiting, and acks=all can
      time out on a batch that is already appended. */
  datatype Outcome = Done | Failed(appended: bool)

  // ---------------------------------------------------------------------
  // What goes where
  // ---------------------------------------------------------------------

  /** Positions below n that go to partition p, in request order. */
  function Indices(parts: seq<nat>, p: nat, n: nat): (ix: seq<nat>)
    requires n <= |parts|
    ensures forall k :: 0 <= k < |ix| ==> ix[k] < n && parts[ix[k]] == p
    ensures forall j, k :: 0 <= j < k < |ix| ==> ix[j] < ix[k]
  {
    if n == 0 then []
    else if parts[n - 1] == p then Indices(parts, p, n - 1) + [n - 1]
    else Indices(parts, p, n - 1)
  }

  lemma {:induction false} IndicesComplete(parts: seq<nat>, p: nat, n: nat, i: nat)
    requires n <= |parts| && i < n && parts[i] == p
    ensures i in Indices(parts, p, n)
  {
    if i < n - 1 { IndicesComplete(parts, p, n - 1, i); }
  }

  function Pick(records: seq<Rec>, ix: seq<nat>): (rs: seq<Rec>)
    requires forall k :: 0 <= k < |ix| ==> ix[k] < |records|
    ensures |rs| == |ix| && forall k :: 0 <= k < |ix| ==> rs[k] == records[ix[k]]
  {
    seq(|ix|, k requires 0 <= k < |ix| => records[ix[k]])
  }

  /** Partition p's share of the request. */
  function Share(records: seq<Rec>, parts: seq<nat>, p: nat): seq<Rec>
    requires |parts| == |records|
  {
    Pick(records, Indices(parts, p, |parts|))
  }

  ghost predicate DistinctNats(xs: seq<nat>) {
    forall i, j :: 0 <= i < j < |xs| ==> xs[i] != xs[j]
  }

  /** Everything others append to partition p in rounds a .. b - 1. */
  function Between(others: seq<seq<seq<Rec>>>, p: nat, a: nat, b: nat): seq<Rec>
    requires a <= b <= |others| && forall k :: 0 <= k < |others| ==> p < |others[k]|
    decreases b
  {
    if a == b then [] else Between(others, p, a, b - 1) + others[b - 1][p]
  }

  /** Partition p's log after k rounds: others append, then order[k]'s share. */
  function LogAfter(log: seq<Rec>, others: seq<seq<seq<Rec>>>, order: seq<nat>, share: seq<Rec>, p: nat, k: nat): seq<Rec>
    requires k <= |order| <= |others| && forall j :: 0 <= j < |others| ==> p < |others[j]|
  {
    if k == 0 then log
    else LogAfter(log, others, order, share, p, k - 1) + others[k - 1][p] + if order[k - 1] == p then share else []
  }

  ghost function IndexOf(xs: seq<nat>, x: nat): (i: nat)
    requires x in xs
    ensures i < |xs| && xs[i] == x
  {
    var i :| 0 <= i < |xs| && xs[i] == x; i
  }

  /** Each share lands exactly once, as one contiguous block, among what others
      append before and after it; partitions without a share get only that. */
  lemma {:induction false} ShareLandsOnce(log: seq<Rec>, others: seq<seq<seq<Rec>>>, order: seq<nat>, share: seq<Rec>, p: nat, k: nat)
    requires k <= |order| <= |others| && DistinctNats(order)
    requires forall j :: 0 <= j < |others| ==> p < |others[j]|
    ensures p !in order[..k] ==> LogAfter(log, others, order, share, p, k) == log + Between(others, p, 0, k)
    ensures p in order[..k] ==>
              && IndexOf(order, p) < k
              && LogAfter(log, others, order, share, p, k) ==
                   log + Between(others, p, 0, IndexOf(order, p) + 1) + share + Between(others, p, IndexOf(order, p) + 1, k)
  {
    if k > 0 {
      ShareLandsOnce(log, others, order, share, p, k - 1);
      assert order[..k] == order[..k - 1] + [order[k - 1]];
      if order[k - 1] == p {
        assert IndexOf(order, p) == k - 1;
        assert p !in order[..k - 1];
        assert Between(others, p, k, k) == [];
      }
    }
  }

  class Topic {
    var logs: seq<seq<Rec>>

    constructor (partitions: nat)
      ensures logs == seq(partitions, _ => [])
    {
      logs := seq(partitions, _ => []);
    }

    /** One round: other producers get in first, then the partition's writer
        appends the share as one batch, unless it is refused. */
    method AppendShare(p: nat, recs: seq<Rec>, other: seq<seq<Rec>>, outcome: Outcome) returns (base: nat)
      requires p < |logs| == |other|
      modifies this
      ensures |logs| == |old(logs)| && base == |old(logs)[p] + other[p]|
      ensures forall q :: 0 <= q < |logs| ==>
                logs[q] == old(logs)[q] + other[q] + if q == p && Appended(outcome) then recs else []
    {
      logs := seq(|logs|, q requires 0 <= q < |logs| && |other| == |logs| reads this => logs[q] + other[q]);
      base := |logs[p]|;
      if outcome.Done? || outcome.appended {
        logs := logs[p := logs[p] + recs];
      }
    }

    /** Round k of the append loop, with the offsets it hands out. */
    method Round(ghost start: seq<seq<Rec>>, records: seq<Rec>, where: seq<nat>, ix: seq<nat>, order: seq<nat>, k: nat,
                 other: seq<seq<Rec>>, ghost others: seq<seq<seq<Rec>>>, outcome: Outcome, results: seq<(nat, nat)>)
      returns (out: seq<(nat, nat)>)
      requires Shaped(start, others, order, records, where) && k < |order| && |results| == |records|
      requires ix == Indices(where, order[k], |where|) && other == others[k]
      requires ShareLogs(start, logs, others, order, records, where, k)
      requires AllReported(start, others, order, records, where, results, k)
      modifies this
      ensures RoundLogs(start, logs, others, order, records, where, k, Appended(outcome)) && |out| == |records|
      ensures outcome.Done? ==> AllReported(start, others, order, records, where, out, k + 1)
    {
      var base := AppendShare(order[k], Pick(records, ix), other, outcome);
      out := results;
      if outcome.Done? {
        out := Scatter(results, ix, order[k], base);
        ReportedStep(start, others, order, records, where, results, out, k, base);
      }
    }

    /** Append the shares one partition at a time and gather the offsets. */
    method AppendShares(records: seq<Rec>, where: seq<nat>, outcomes: seq<Outcome>, others: seq<seq<seq<Rec>>>)
      returns (ok: bool, results: seq<(nat, nat)>, ghost order: seq<nat>, ghost at: nat)
      requires |where| == |records| == |outcomes| == |others|
      requires forall i :: 0 <= i < |where| ==> where[i] < |logs|
      requires forall k :: 0 <= k < |others| ==> |others[k]| == |logs|
      modifies this
      ensures Shaped(old(logs), others, order, records, where) && |results| == |records|
      ensures forall i :: 0 <= i < |where| ==> where[i] in order
      ensures at <= |order| && AllDone(outcomes, at)
      ensures ok ==> at == |order|
                     && ShareLogs(old(logs), logs, others, order, records, where, at)
                     && AllReported(old(logs), others, order, records, where, results, at)
      ensures !ok ==> at < |order| && outcomes[at].Failed?
                      && RoundLogs(old(logs), logs, others, order, records, where, at, outcomes[at].appended)
    {
      var batches, turn := Group(where);
      ghost var start := logs;
      order, at := turn, 0;
      assert Shaped(start, others, turn, records, where);
      results := seq(|records|, _ => (0, 0));
      for k := 0 to |turn|
        invariant |results| == |records| && at == k
        invariant AllDone(outcomes, k)
        invariant ShareLogs(start, logs, others, turn, records, where, k)
        invariant AllReported(start, others, turn, records, where, results, k)
      {
        results := Round(start, records, where, batches[turn[k]], turn, k, others[k], others, outcomes[k], results);
        if outcomes[k].Failed? {
          return false, results, order, at;
        }
        DoneStep(outcomes, k);
        RoundIsStep(start, logs, others, turn, records, where, k);
        at := at + 1;
      }
      ok := true;
    }

    /** Produce. `partition` is the request's explicit partition, negative for
        "pick one"; `picks` are the routing decisions; `leads` the partitions
        this node leads (all of them when standalone); `others[k]` is what other
        producers append before the k-th share. */
    method ProduceBatch(records: seq<Rec>, partition: int, picks: seq<nat>, leads: set<nat>, acks: int,
                        outcomes: seq<Outcome>, others: seq<seq<seq<Rec>>>) returns (res: Result, ghost rounds: nat)
      requires |picks| == |records| && forall i :: 0 <= i < |picks| ==> picks[i] < |logs|
      requires |outcomes| == |others| == |records|
      requires forall k :: 0 <= k < |others| ==> |others[k]| == |logs|
      modifies this
      ensures res == Err(EmptyBatch) <==> records == []
      ensures res == Err(PartitionOutOfRange) <==> records != [] && partition >= |old(logs)|
      ensures res == Err(NotLeader) <==>
                records != [] && partition < |old(logs)| && !LeadsAll(partition, picks, leads, |records|)
      ensures res == Err(BadAcks) <==>
                records != [] && partition < |old(logs)| && LeadsAll(partition, picks, leads, |records|) && acks !in {0, 1, 2}
      ensures res.Err? && res.error != AppendFailed ==> logs == old(logs)
      ensures res.Ok? ==> Exact(old(logs), logs, records, partition, picks, res.results)
      ensures rounds <= |others| && |logs| == |old(logs)|
      ensures res.Ok? ==> forall p :: 0 <= p < |logs| ==>
                LandsOnce(old(logs)[p], logs[p], others, Share(records, Routes(partition, picks), p), p, rounds)
      ensures res == Err(AppendFailed) ==> forall p :: 0 <= p < |logs| ==>
                LandsAtMostOnce(old(logs)[p], logs[p], others, Share(records, Routes(partition, picks), p), p, rounds)
    {
      rounds := 0;
      if |records| == 0 { res := Err(EmptyBatch); return; }
      if partition >= |logs| { res := Err(PartitionOutOfRange); return; }
      var where := RouteAll(partition, picks, |logs|);
      var led := LedAll(where, leads);
      if !led { res := Err(NotLeader); return; }
      if acks != 0 && acks != 1 && acks != 2 { res := Err(BadAcks); return; }
      ghost var before := logs;
      var ok, results, order, at := AppendShares(records, where, outcomes, others);
      if !ok {
        rounds := at + 1;
        FailedLandsAtMostOnce(before, logs, others, order, records, where, at, outcomes[at].appended);
        res := Err(AppendFailed);
        return;
      }
      rounds := |order|;
      AllLandOnce(before, logs, others, order, records, where);
      AllExact(before, logs, others, order, records, partition, picks, results);
      res := Ok(results);
    }
  }

  method RouteAll(partition: int, picks: seq<nat>, n: nat) returns (where: seq<nat>)
    requires partition < n && forall i :: 0 <= i < |picks| ==> picks[i] < n
    ensures where == Routes(partition, picks) && forall i :: 0 <= i < |where| ==> where[i] < n
  {
    where := [];
    for i := 0 to |picks|
      invariant |where| == i && forall k :: 0 <= k < i ==> where[k] == Route(partition, picks, k) < n
    {
      var p := partition;
      if p < 0 { p := picks[i]; }
      where := where + [p];
    }
  }

  method LedAll(where: seq<nat>, leads: set<nat>) returns (led: bool)
    ensures led <==> forall i :: 0 <= i < |where| ==> where[i] in leads
  {
    for i := 0 to |where|
      invariant forall k :: 0 <= k < i ==> where[k] in leads
    {
      if where[i] !in leads { return false; }
    }
    led := true;
  }

  function Routes(partition: int, picks: seq<nat>): (where: seq<nat>)
    ensures |where| == |picks| && forall i :: 0 <= i < |picks| ==> where[i] == Route(partition, picks, i)
  {
    seq(|picks|, i requires 0 <= i < |picks| => Route(partition, picks, i))
  }

  ghost predicate LeadsAll(partition: int, picks: seq<nat>, leads: set<nat>, n: nat)
    requires n <= |picks|
  {
    forall i :: 0 <= i < n ==> Route(partition, picks, i) in leads
  }

  /** The log is what it was, what others appended, and the share once, as one
      block somewhere among it. */
  ghost predicate LandsOnce(log: seq<Rec>, after: seq<Rec>, others: seq<seq<seq<Rec>>>, share: seq<Rec>, p: nat, rounds: nat)
    requires rounds <= |others| && forall k :: 0 <= k < |others| ==> p < |others[k]|
  {
    exists j :: 0 <= j <= rounds && after == log + Between(others, p, 0, j) + share + Between(others, p, j, rounds)
  }

  ghost predicate LandsAtMostOnce(log: seq<Rec>, after: seq<Rec>, others: seq<seq<seq<Rec>>>, share: seq<Rec>, p: nat, rounds: nat)
    requires rounds <= |others| && forall k :: 0 <= k < |others| ==> p < |others[k]|
  {
    LandsOnce(log, after, others, share, p, rounds) || LandsOnce(log, after, others, [], p, rounds)
  }

  /** Partitions that no record goes to have an empty share. */
  lemma NoShare(records: seq<Rec>, parts: seq<nat>, p: nat)
    requires |parts| == |records| && p !in parts
    ensures Share(records, parts, p) == []
  {
    NoIndices(parts, p, |parts|);
  }

  lemma {:induction false} NoIndices(parts: seq<nat>, p: nat, n: nat)
    requires n <= |parts| && p !in parts
    ensures Indices(parts, p, n) == []
  {
    if n > 0 { NoIndices(parts, p, n - 1); }
  }

  lemma ShareLands(log: seq<Rec>, others: seq<seq<seq<Rec>>>, order: seq<nat>, share: seq<Rec>, p: nat, k: nat)
    requires k <= |order| <= |others| && DistinctNats(order) && forall j :: 0 <= j < |others| ==> p < |others[j]|
    ensures p in order[..k] ==> LandsOnce(log, LogAfter(log, others, order, share, p, k), others, share, p, k)
    ensures p !in order[..k] ==> LandsOnce(log, LogAfter(log, others, order, share, p, k), others, [], p, k)
  {
    ShareLandsOnce(log, others, order, share, p, k);
    var after := LogAfter(log, others, order, share, p, k);
    if p in order[..k] {
      var j := IndexOf(order, p) + 1;
      assert after == log + Between(others, p, 0, j) + share + Between(others, p, j, k);
    } else {
      assert after == log + Between(others, p, 0, k) + [] + Between(others, p, k, k);
    }
  }

  lemma AllLandOnce(before: seq<seq<Rec>>, after: seq<seq<Rec>>, others: seq<seq<seq<Rec>>>, order: seq<nat>,
                    records: seq<Rec>, parts: seq<nat>)
    requires Shaped(before, others, order, records, parts) && forall i :: 0 <= i < |parts| ==> parts[i] in order
    requires ShareLogs(before, after, others, order, records, parts, |order|)
    ensures forall p :: 0 <= p < |after| ==> LandsOnce(before[p], after[p], others, Share(records, parts, p), p, |order|)
  {
    assert order[..|order|] == order;
    forall p | 0 <= p < |after| ensures LandsOnce(before[p], after[p], others, Share(records, parts, p), p, |order|) {
      ShareLands(before[p], others, order, Share(records, parts, p), p, |order|);
      if p !in order { NoShare(records, parts, p); }
    }
  }

  /** One more round of the others', with or without a block behind it. */
  lemma LandsNext(log: seq<Rec>, mid: seq<Rec>, others: seq<seq<seq<Rec>>>, share: seq<Rec>, p: nat, k: nat)
    requires k < |others| && (forall j :: 0 <= j < |others| ==> p < |others[j]|) && LandsOnce(log, mid, others, share, p, k)
    ensures LandsOnce(log, mid + others[k][p], others, share, p, k + 1)
    ensures share == [] ==> forall block :: LandsOnce(log, mid + others[k][p] + block, others, block, p, k + 1)
  {
    var j :| 0 <= j <= k && mid == log + Between(others, p, 0, j) + share + Between(others, p, j, k);
    assert mid + others[k][p] == log + Between(others, p, 0, j) + share + Between(others, p, j, k + 1);
    if share == [] {
      BetweenJoins(others, p, 0, j, k + 1);
      forall block ensures LandsOnce(log, mid + others[k][p] + block, others, block, p, k + 1) {
        assert mid + others[k][p] + block == log + Between(others, p, 0, k + 1) + block + Between(others, p, k + 1, k + 1);
      }
    }
  }

  lemma {:induction false} BetweenJoins(others: seq<seq<seq<Rec>>>, p: nat, a: nat, b: nat, c: nat)
    requires a <= b <= c <= |others| && forall k :: 0 <= k < |others| ==> p < |others[k]|
    ensures Between(others, p, a, b) + Between(others, p, b, c) == Between(others, p, a, c)
    decreases c
  {
    if b < c { BetweenJoins(others, p, a, b, c - 1); }
  }

  /** A failed produce has put each share in at most once. */
  lemma FailedLandsAtMostOnce(before: seq<seq<Rec>>, after: seq<seq<Rec>>, others: seq<seq<seq<Rec>>>, order: seq<nat>,
                              records: seq<Rec>, parts: seq<nat>, k: nat, appended: bool)
    requires Shaped(before, others, order, records, parts) && k < |order|
    requires RoundLogs(before, after, others, order, records, parts, k, appended)
    ensures forall p :: 0 <= p < |after| ==>
              LandsAtMostOnce(before[p], after[p], others, Share(records, parts, p), p, k + 1)
  {
    forall p | 0 <= p < |after| ensures LandsAtMostOnce(before[p], after[p], others, Share(records, parts, p), p, k + 1) {
      var share := Share(records, parts, p);
      var mid := LogAfter(before[p], others, order, share, p, k);
      ShareLands(before[p], others, order, share, p, k);
      if p in order[..k] {
        LandsNext(before[p], mid, others, share, p, k);
        assert p != order[k];
        assert after[p] == mid + others[k][p];
      } else {
        LandsNext(before[p], mid, others, [], p, k);
        assert after[p] == mid + others[k][p] || after[p] == mid + others[k][p] + share;
      }
    }
  }

  /** Every result is exact once all shares are in. */
  lemma AllExact(before: seq<seq<Rec>>, after: seq<seq<Rec>>, others: seq<seq<seq<Rec>>>, order: seq<nat>, records: seq<Rec>,
                 partition: int, picks: seq<nat>, results: seq<(nat, nat)>)
    requires |picks| == |records| == |results| && Shaped(before, others, order, records, Routes(partition, picks))
    requires forall i :: 0 <= i < |picks| ==> Route(partition, picks, i) in order
    requires ShareLogs(before, after, others, order, records, Routes(partition, picks), |order|)
    requires AllReported(before, others, order, records, Routes(partition, picks), results, |order|)
    ensures Exact(before, after, records, partition, picks, results)
  {
    var where := Routes(partition, picks);
    forall i | 0 <= i < |records| ensures Placed(before, after, records, partition, picks, results, i) {
      ProduceIsExact(before, after, others, order, records, where, results, i);
    }
    forall i, j | 0 <= i < j < |records| ensures InOrder(partition, picks, results, i, j) {
      ProduceKeepsOrder(before, others, order, records, where, results, i, j);
    }
  }

  function Route(partition: int, picks: seq<nat>, i: nat): nat
    requires i < |picks|
  {
    if partition < 0 then picks[i] else partition
  }

  ghost predicate Placed(before: seq<seq<Rec>>, after: seq<seq<Rec>>, records: seq<Rec>, partition: int, picks: seq<nat>,
                         results: seq<(nat, nat)>, i: nat)
    requires i < |records| == |results| == |picks|
  {
    var p := Route(partition, picks, i);
    && p < |before| == |after|
    && results[i].0 == p
    && |before[p]| <= results[i].1 < |after[p]|
    && after[p][results[i].1] == records[i]
  }

  predicate InOrder(partition: int, picks: seq<nat>, results: seq<(nat, nat)>, i: nat, j: nat)
    requires i < |results| == |picks| && j < |results|
  {
    results[i] != results[j]
    && (Route(partition, picks, i) == Route(partition, picks, j) ==> results[i].1 < results[j].1)
  }

  ghost predicate Exact(before: seq<seq<Rec>>, after: seq<seq<Rec>>, records: seq<Rec>, partition: int, picks: seq<nat>,
                        results: seq<(nat, nat)>)
  {
    && |records| == |results| == |picks|
    && (forall i :: 0 <= i < |records| ==> Placed(before, after, records, partition, picks, results, i))
    && (forall i, j :: 0 <= i < j < |records| ==> InOrder(partition, picks, results, i, j))
  }

  /** A successful produce: result i names the partition chosen for record i and
      the offset at which the log now holds it; records of one partition keep
      their request order; no two records share a slot. */
  lemma ProduceIsExact(before: seq<seq<Rec>>, after: seq<seq<Rec>>, others: seq<seq<seq<Rec>>>, order: seq<nat>,
                       records: seq<Rec>, parts: seq<nat>, results: seq<(nat, nat)>, i: nat)
    requires Shaped(before, others, order, records, parts) && |results| == |records| && i < |records|
    requires ShareLogs(before, after, others, order, records, parts, |order|)
    requires AllReported(before, others, order, records, parts, results, |order|) && parts[i] in order
    ensures results[i].0 == parts[i] && results[i].1 < |after[parts[i]]|
    ensures after[parts[i]][results[i].1] == records[i]
    ensures |before[parts[i]]| <= results[i].1
  {
    var p := parts[i];
    var share, at := Share(records, parts, p), IndexOf(order, p);
    assert order[..|order|] == order;
    assert Reported(before, others, order, records, parts, results, i);
    ShareLandsOnce(before[p], others, order, share, p, |order|);
    ShareLandsOnce(before[p], others, order, share, p, at);
    assert p !in order[..at];
    var head := before[p] + Between(others, p, 0, at + 1);
    var r :| 0 <= r < |Indices(parts, p, |parts|)| && Indices(parts, p, |parts|)[r] == i && results[i].1 == |head| + r;
    assert after[p] == head + share + Between(others, p, at + 1, |order|);
    assert after[p][|head| + r] == share[r];
  }

  lemma ProduceKeepsOrder(before: seq<seq<Rec>>, others: seq<seq<seq<Rec>>>, order: seq<nat>,
                          records: seq<Rec>, parts: seq<nat>, results: seq<(nat, nat)>, i: nat, j: nat)
    requires Shaped(before, others, order, records, parts) && |results| == |records| && i < j < |records|
    requires AllReported(before, others, order, records, parts, results, |order|)
    requires parts[i] in order && parts[j] in order
    ensures results[i] != results[j]
    ensures parts[i] == parts[j] ==> results[i].1 < results[j].1
  {
    assert order[..|order|] == order;
    assert Reported(before, others, order, records, parts, results, i);
    assert Reported(before, others, order, records, parts, results, j);
  }

  predicate Appended(o: Outcome) {
    o.Done? || o.appended
  }

  ghost predicate AllDone(outcomes: seq<Outcome>, k: nat)
    requires k <= |outcomes|
  {
    forall j :: 0 <= j < k ==> outcomes[j].Done?
  }

  lemma DoneStep(outcomes: seq<Outcome>, k: nat)
    requires k < |outcomes| && AllDone(outcomes, k) && outcomes[k].Done?
    ensures AllDone(outcomes, k + 1)
  {
  }

  ghost predicate Shaped(logs: seq<seq<Rec>>, others: seq<seq<seq<Rec>>>, order: seq<nat>, records: seq<Rec>, parts: seq<nat>) {
    && |parts| == |records| && |order| <= |others| && DistinctNats(order)
    && (forall k :: 0 <= k < |others| ==> |others[k]| == |logs|)
    && (forall k :: 0 <= k < |order| ==> order[k] < |logs|)
  }

  /** The logs once the shares of order[..k] are in. */
  ghost predicate ShareLogs(old_: seq<seq<Rec>>, new_: seq<seq<Rec>>, others: seq<seq<seq<Rec>>>, order: seq<nat>,
                            records: seq<Rec>, parts: seq<nat>, k: nat)
    requires Shaped(old_, others, order, records, parts) && k <= |order|
  {
    |new_| == |old_| && forall p :: 0 <= p < |old_| ==>
      new_[p] == LogAfter(old_[p], others, order, Share(records, parts, p), p, k)
  }

  /** The logs after round k, with or without its share. */
  ghost predicate RoundLogs(old_: seq<seq<Rec>>, new_: seq<seq<Rec>>, others: seq<seq<seq<Rec>>>, order: seq<nat>,
                            records: seq<Rec>, parts: seq<nat>, k: nat, appended: bool)
    requires Shaped(old_, others, order, records, parts) && k < |order|
  {
    |new_| == |old_| && forall p :: 0 <= p < |old_| ==>
      new_[p] == LogAfter(old_[p], others, order, Share(records, parts, p), p, k) + others[k][p]
                 + if p == order[k] && appended then Share(records, parts, p) else []
  }

  lemma RoundIsStep(old_: seq<seq<Rec>>, new_: seq<seq<Rec>>, others: seq<seq<seq<Rec>>>, order: seq<nat>,
                    records: seq<Rec>, parts: seq<nat>, k: nat)
    requires Shaped(old_, others, order, records, parts) && k < |order|
    requires RoundLogs(old_, new_, others, order, records, parts, k, true)
    ensures ShareLogs(old_, new_, others, order, records, parts, k + 1)
  {
  }

  /** Scattering round k's offsets reports its records and keeps the others. */
  lemma ReportedStep(logs: seq<seq<Rec>>, others: seq<seq<seq<Rec>>>, order: seq<nat>, records: seq<Rec>,
                     parts: seq<nat>, was: seq<(nat, nat)>, now: seq<(nat, nat)>, k: nat, base: nat)
    requires Shaped(logs, others, order, records, parts) && k < |order| && |was| == |now| == |records|
    requires base == |LogAfter(logs[order[k]], others, order, Share(records, parts, order[k]), order[k], k)|
                     + |others[k][order[k]]|
    requires var ix := Indices(parts, order[k], |parts|);
             && (forall r :: 0 <= r < |ix| ==> now[ix[r]] == (order[k], base + r))
             && (forall i :: 0 <= i < |records| && i !in ix ==> now[i] == was[i])
    requires AllReported(logs, others, order, records, parts, was, k)
    ensures AllReported(logs, others, order, records, parts, now, k + 1)
  {
    var ix := Indices(parts, order[k], |parts|);
    forall i | 0 <= i < |records| && parts[i] in order[..k + 1]
      ensures Reported(logs, others, order, records, parts, now, i)
    {
      if parts[i] == order[k] {
        assert IndexOf(order, order[k]) == k;
        IndicesComplete(parts, order[k], |parts|, i);
        var r :| 0 <= r < |ix| && ix[r] == i;
        assert now[ix[r]] == (order[k], base + r);
      } else {
        assert parts[i] in order[..k];
        assert Reported(logs, others, order, records, parts, was, i);
      }
    }
  }

  /** Result i names record i's partition and an offset: the length of the log
      when the share went in, plus the record's place in the share. */
  ghost predicate Reported(logs: seq<seq<Rec>>, others: seq<seq<seq<Rec>>>, order: seq<nat>, records: seq<Rec>,
                           parts: seq<nat>, results: seq<(nat, nat)>, i: nat)
    requires Shaped(logs, others, order, records, parts) && i < |records| == |results|
  {
    var p := parts[i];
    && p in order
    && results[i].0 == p
    && exists r :: 0 <= r < |Indices(parts, p, |parts|)| && Indices(parts, p, |parts|)[r] == i
         && results[i].1 == |LogAfter(logs[p], others, order, Share(records, parts, p), p, IndexOf(order, p))|
                            + |others[IndexOf(order, p)][p]| + r
  }

  ghost predicate AllReported(logs: seq<seq<Rec>>, others: seq<seq<seq<Rec>>>, order: seq<nat>, records: seq<Rec>,
                              parts: seq<nat>, results: seq<(nat, nat)>, k: nat)
    requires Shaped(logs, others, order, records, parts) && k <= |order| && |records| == |results|
  {
    forall i :: 0 <= i < |records| && parts[i] in order[..k] ==>
      Reported(logs, others, order, records, parts, results, i)
  }

  /** The batches hold the first n positions, each under its own partition. */
  ghost predicate Batched(parts: seq<nat>, batches: map<nat, seq<nat>>, n: nat)
    requires n <= |parts|
  {
    && (forall p :: p in batches ==> batches[p] == Indices(parts, p, n))
    && (forall p: nat :: p !in batches ==> Indices(parts, p, n) == [])
  }

  /** The partitions that appear. */
  ghost predicate Ordered(parts: seq<nat>, batches: map<nat, seq<nat>>, order: seq<nat>) {
    && DistinctNats(order)
    && (forall p :: p in batches <==> p in order)
    && (forall p :: p in order ==> p in parts)
  }

  /** Where a partition appears first among the first n positions. */
  function First(parts: seq<nat>, p: nat, n: nat): int
    requires n <= |parts|
  {
    var ix := Indices(parts, p, n);
    if ix == [] then n else ix[0]
  }

  /** Partitions come in order of first appearance. */
  ghost predicate FirstsAscend(parts: seq<nat>, order: seq<nat>, n: nat)
    requires n <= |parts|
  {
    forall a, b {:trigger First(parts, order[a], n), First(parts, order[b], n)} ::
      0 <= a < b < |order| ==> First(parts, order[a], n) < First(parts, order[b], n)
  }

  /** Position i joins partition p's batch. */
  function Joined(batches: map<nat, seq<nat>>, p: nat, i: nat): map<nat, seq<nat>> {
    batches[p := (if p in batches then batches[p] else []) + [i]]
  }

  function OrderWith(order: seq<nat>, batches: map<nat, seq<nat>>, p: nat): seq<nat> {
    if p in batches then order else order + [p]
  }

  lemma BatchedStep(parts: seq<nat>, batches: map<nat, seq<nat>>, i: nat)
    requires i < |parts| && Batched(parts, batches, i)
    ensures Batched(parts, Joined(batches, parts[i], i), i + 1)
  {
  }

  lemma OrderedStep(parts: seq<nat>, batches: map<nat, seq<nat>>, order: seq<nat>, i: nat)
    requires i < |parts| && Ordered(parts, batches, order)
    ensures Ordered(parts, Joined(batches, parts[i], i), OrderWith(order, batches, parts[i]))
  {
  }

  lemma FirstStays(parts: seq<nat>, p: nat, i: nat)
    requires i < |parts| && Indices(parts, p, i) != []
    ensures First(parts, p, i + 1) == First(parts, p, i) < i
  {
  }

  lemma {:induction false} AppearsSoFar(parts: seq<nat>, p: nat, n: nat)
    requires n <= |parts| && p in parts[..n]
    ensures Indices(parts, p, n) != []
  {
    if parts[n - 1] != p {
      assert parts[..n] == parts[..n - 1] + [parts[n - 1]];
      AppearsSoFar(parts, p, n - 1);
    }
  }

  lemma FirstsStep(parts: seq<nat>, batches: map<nat, seq<nat>>, order: seq<nat>, i: nat)
    requires i < |parts| && Batched(parts, batches, i) && FirstsAscend(parts, order, i)
    requires forall k :: 0 <= k < |order| ==> order[k] in parts[..i]
    ensures FirstsAscend(parts, OrderWith(order, batches, parts[i]), i + 1)
  {
    var p := parts[i];
    var more := OrderWith(order, batches, p);
    forall k | 0 <= k < |order| ensures First(parts, order[k], i + 1) == First(parts, order[k], i) < i {
      AppearsSoFar(parts, order[k], i);
      FirstStays(parts, order[k], i);
    }
    if p !in batches { assert First(parts, p, i + 1) == i; }
  }

  /** The grouping of the first n positions. */
  ghost predicate Grouped(parts: seq<nat>, batches: map<nat, seq<nat>>, order: seq<nat>, n: nat)
    requires n <= |parts|
  {
    && Ordered(parts, batches, order) && Batched(parts, batches, n) && FirstsAscend(parts, order, n)
    && |order| <= n && Covers(parts, order, n)
  }

  /** The partitions of the first n positions, and no others. */
  ghost predicate Covers(parts: seq<nat>, order: seq<nat>, n: nat)
    requires n <= |parts|
  {
    && (forall j :: 0 <= j < n ==> parts[j] in order)
    && (forall k :: 0 <= k < |order| ==> order[k] in parts[..n])
  }

  lemma CoversStep(parts: seq<nat>, batches: map<nat, seq<nat>>, order: seq<nat>, i: nat)
    requires i < |parts| && Ordered(parts, batches, order) && Covers(parts, order, i)
    ensures Covers(parts, OrderWith(order, batches, parts[i]), i + 1)
  {
    assert parts[..i + 1] == parts[..i] + [parts[i]];
  }

  lemma GroupedStep(parts: seq<nat>, batches: map<nat, seq<nat>>, order: seq<nat>, i: nat)
    requires i < |parts| && Grouped(parts, batches, order, i)
    ensures Grouped(parts, Joined(batches, parts[i], i), OrderWith(order, batches, parts[i]), i + 1)
  {
    BatchedStep(parts, batches, i);
    OrderedStep(parts, batches, order, i);
    FirstsStep(parts, batches, order, i);
    CoversStep(parts, batches, order, i);
  }

  /** Group positions by partition, in order of first appearance. */
  method Group(parts: seq<nat>) returns (batches: map<nat, seq<nat>>, order: seq<nat>)
    ensures DistinctNats(order) && |order| <= |parts|
    ensures forall i :: 0 <= i < |parts| ==> parts[i] in order
    ensures forall k :: 0 <= k < |order| ==> order[k] in parts
    ensures forall k :: 0 <= k < |order| ==>
              order[k] in batches && batches[order[k]] == Indices(parts, order[k], |parts|)
    ensures FirstsAscend(parts, order, |parts|)
  {
    batches, order := map[], [];
    NothingGrouped(parts);
    for i := 0 to |parts|
      invariant Grouped(parts, batches, order, i)
    {
      GroupedStep(parts, batches, order, i);
      batches, order := GroupOne(batches, order, parts[i], i);
    }
    AllGrouped(parts, batches, order);
  }

  lemma NothingGrouped(parts: seq<nat>)
    ensures Grouped(parts, map[], [], 0)
  {
  }

  lemma AllGrouped(parts: seq<nat>, batches: map<nat, seq<nat>>, order: seq<nat>)
    requires Grouped(parts, batches, order, |parts|)
    ensures DistinctNats(order) && |order| <= |parts|
    ensures forall i :: 0 <= i < |parts| ==> parts[i] in order
    ensures forall k :: 0 <= k < |order| ==> order[k] in parts
    ensures forall k :: 0 <= k < |order| ==>
              order[k] in batches && batches[order[k]] == Indices(parts, order[k], |parts|)
    ensures FirstsAscend(parts, order, |parts|)
  {
  }

  /** The loop body: append position i to its partition's batch. */
  method GroupOne(batches: map<nat, seq<nat>>, order: seq<nat>, p: nat, i: nat)
    returns (newBatches: map<nat, seq<nat>>, newOrder: seq<nat>)
    ensures newBatches == Joined(batches, p, i) && newOrder == OrderWith(order, batches, p)
  {
    newBatches, newOrder := batches, order;
    if p !in newBatches {
      newOrder := newOrder + [p];
      newBatches := newBatches[p := []];
    }
    newBatches := newBatches[p := newBatches[p] + [i]];
  }

  /** Write the offsets of one share to the result slots it came from. */
  method Scatter(results: seq<(nat, nat)>, ix: seq<nat>, p: nat, base: nat) returns (out: seq<(nat, nat)>)
    requires forall k :: 0 <= k < |ix| ==> ix[k] < |results|
    requires forall j, k :: 0 <= j < k < |ix| ==> ix[j] < ix[k]
    ensures |out| == |results|
    ensures forall k :: 0 <= k < |ix| ==> out[ix[k]] == (p, base + k)
    ensures forall i :: 0 <= i < |results| && i !in ix ==> out[i] == results[i]
  {
    out := results;
    for j := 0 to |ix|
      invariant |out| == |results|
      invariant forall k :: 0 <= k < j ==> out[ix[k]] == (p, base + k)
      invariant forall i :: 0 <= i < |results| && i !in ix[..j] ==> out[i] == results[i]
    {
      out := out[ix[j] := (p, base + j)];
    }
  }
}
