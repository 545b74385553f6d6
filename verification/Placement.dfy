/** Deterministic ring placement: every node sorts the configured ids and walks
    the ring from hash(topic) + partition. */
module Placement {
  import opened Arithmetic

  type NodeId = string

  // ---------------------------------------------------------------------
  // The order of node ids
  // ---------------------------------------------------------------------

  /** Go's `<` on strings. */
  predicate Less(a: NodeId, b: NodeId) {
    b != [] && (a == [] || a[0] < b[0] || (a[0] == b[0] && Less(a[1..], b[1..])))
  }

  lemma {:induction false} LessIsTotal(a: NodeId, b: NodeId)
    ensures a == b || Less(a, b) || Less(b, a)
    decreases a
  {
    if a != [] && b != [] && a[0] == b[0] {
      LessIsTotal(a[1..], b[1..]);
      assert a == [a[0]] + a[1..] && b == [b[0]] + b[1..];
    }
  }

  lemma {:induction false} LessIsTransitive(a: NodeId, b: NodeId, c: NodeId)
    requires Less(a, b) && Less(b, c)
    ensures Less(a, c)
    decreases a
  {
    if a != [] && a[0] == b[0] == c[0] {
      LessIsTransitive(a[1..], b[1..], c[1..]);
    }
  }

  lemma {:induction false} LessIsIrreflexive(a: NodeId)
    ensures !Less(a, a)
  {
    if a != [] { LessIsIrreflexive(a[1..]); }
  }

  ghost predicate Ascending(ids: seq<NodeId>) {
    forall i, j :: 0 <= i < j < |ids| ==> !Less(ids[j], ids[i])
  }

  ghost predicate Distinct(ids: seq<NodeId>) {
    forall i, j :: 0 <= i < j < |ids| ==> ids[i] != ids[j]
  }

  /** The head of an ascending listing is below everything listed. */
  lemma HeadIsLeast(xs: seq<NodeId>, id: NodeId)
    requires Ascending(xs) && id in multiset(xs)
    ensures !Less(id, xs[0])
  {
    var m :| 0 <= m < |xs| && xs[m] == id;
    if m == 0 { LessIsIrreflexive(id); }
  }

  lemma TailMultiset(xs: seq<NodeId>)
    requires xs != []
    ensures multiset(xs[1..]) == multiset(xs) - multiset{xs[0]}
  {
    assert xs == [xs[0]] + xs[1..];
  }

  /** There is only one ascending listing of given ids. */
  lemma {:induction false} AscendingIsUnique(xs: seq<NodeId>, ys: seq<NodeId>)
    requires Ascending(xs) && Ascending(ys) && multiset(xs) == multiset(ys)
    ensures xs == ys
    decreases |xs|
  {
    assert |xs| == |multiset(xs)| == |multiset(ys)| == |ys|;
    if xs != [] {
      assert xs[0] in multiset(ys) && ys[0] in multiset(xs);
      HeadIsLeast(ys, xs[0]);
      HeadIsLeast(xs, ys[0]);
      LessIsTotal(xs[0], ys[0]);
      TailMultiset(xs);
      TailMultiset(ys);
      AscendingIsUnique(xs[1..], ys[1..]);
      assert xs == [xs[0]] + xs[1..] && ys == [ys[0]] + ys[1..];
    }
  }

  /** An arrangement of distinct ids has each of them once. */
  lemma {:induction false} DistinctOnce(xs: seq<NodeId>, x: NodeId)
    requires Distinct(xs)
    ensures multiset(xs)[x] == if x in xs then 1 else 0
  {
    if xs != [] {
      var n := |xs| - 1;
      DistinctOnce(xs[..n], x);
      assert xs == xs[..n] + [xs[n]];
      assert x == xs[n] ==> x !in multiset(xs[..n]);
    }
  }

  // ---------------------------------------------------------------------
  // The ring
  // ---------------------------------------------------------------------

  /** k modulo the ring size, by going round. */
  function Ring(n: nat, k: nat): (v: nat)
    requires 0 < n
    ensures v < n
    decreases k
  {
    if k < n then k else Ring(n, k - n)
  }

  lemma {:induction false} RingIsMod(n: nat, k: nat)
    requires 0 < n
    ensures Ring(n, k) == k % n
    decreases k
  {
    if k >= n {
      RingIsMod(n, k - n);
      var q, r := (k - n) / n, (k - n) % n;
      assert k - n == n * q + r;
      assert k == n * (q + 1) + r;
      DivModUnique(k, n, q + 1, r);
    }
  }

  lemma {:induction false} RingInjective(n: nat, a: nat, b: nat)
    requires 0 < n && a < b < a + n
    ensures Ring(n, a) != Ring(n, b)
    decreases a
  {
    if a >= n {
      RingInjective(n, a - n, b - n);
    } else if b >= n {
      assert Ring(n, b) == b - n;
    }
  }

  lemma {:induction false} RingReaches(n: nat, k: nat, v: nat) returns (back: nat)
    requires v < n
    ensures back < n && Ring(n, k + back) == v
    decreases k
  {
    if k >= n {
      back := RingReaches(n, k - n, v);
    } else if v >= k {
      back := v - k;
    } else {
      back := v + n - k;
      assert Ring(n, v + n) == Ring(n, v);
    }
  }

  /** Replicas of a partition: rf consecutive ring positions. */
  function Replicas(ids: seq<NodeId>, hash: nat, partition: nat, rf: nat): (rs: seq<NodeId>)
    requires 0 < |ids|
    ensures |rs| == rf
    ensures forall i :: 0 <= i < rf ==> rs[i] == ids[Ring(|ids|, hash + partition + i)]
  {
    seq(rf, i requires 0 <= i => ids[Ring(|ids|, hash + partition + i)])
  }

  /** Nodes configured with the same distinct members, in whatever order each
      lists them, compute the same replicas and the same leader. */
  lemma NodesAgree(xs: seq<NodeId>, ys: seq<NodeId>, sortedXs: seq<NodeId>, sortedYs: seq<NodeId>,
                   hash: nat, partition: nat, rf: nat)
    requires Distinct(xs) && Distinct(ys) && xs != [] && (forall id :: id in xs <==> id in ys)
    requires Ascending(sortedXs) && multiset(sortedXs) == multiset(xs)
    requires Ascending(sortedYs) && multiset(sortedYs) == multiset(ys)
    ensures sortedXs != [] && sortedYs != []
    ensures Replicas(sortedXs, hash, partition, rf) == Replicas(sortedYs, hash, partition, rf)
  {
    forall id ensures multiset(xs)[id] == multiset(ys)[id] {
      DistinctOnce(xs, id);
      DistinctOnce(ys, id);
    }
    assert multiset(xs) == multiset(ys);
    assert xs[0] in multiset(sortedXs) && xs[0] in multiset(sortedYs);
    AscendingIsUnique(sortedXs, sortedYs);
  }

  /** The replicas of a partition are pairwise distinct configured nodes. */
  lemma ReplicasAreDistinct(ids: seq<NodeId>, hash: nat, partition: nat, rf: nat)
    requires 0 < |ids| && Distinct(ids) && rf <= |ids|
    ensures Distinct(Replicas(ids, hash, partition, rf))
    ensures forall id :: id in Replicas(ids, hash, partition, rf) ==> id in ids
  {
    var rs, n, s := Replicas(ids, hash, partition, rf), |ids|, hash + partition;
    forall i, j | 0 <= i < j < rf ensures rs[i] != rs[j] {
      RingInjective(n, s + i, s + j);
    }
  }

  ghost predicate IsIth(ids: seq<NodeId>, hash: nat, i: nat, id: NodeId, p: nat)
    requires 0 < |ids|
  {
    ids[Ring(|ids|, hash + p + i)] == id
  }

  /** In any n consecutive partitions a node is the i-th replica exactly once. */
  lemma IthReplicaOnce(ids: seq<NodeId>, hash: nat, first: nat, i: nat, v: nat) returns (p: nat)
    requires v < |ids| && Distinct(ids)
    ensures forall q: nat :: first <= q < first + |ids| ==> (IsIth(ids, hash, i, ids[v], q) <==> q == p)
    ensures first <= p < first + |ids|
  {
    var n := |ids|;
    var back := RingReaches(n, hash + first + i, v);
    p := first + back;
    assert hash + first + i + back == hash + p + i;
    forall q: nat | first <= q < first + n && q != p ensures !IsIth(ids, hash, i, ids[v], q) {
      if q < p { RingInjective(n, hash + q + i, hash + p + i); }
      else { RingInjective(n, hash + p + i, hash + q + i); }
    }
  }

  /** Partitions first .. first + n - 1 that put a replica on the node. */
  ghost function HostedBy(ids: seq<NodeId>, hash: nat, first: nat, rf: nat, id: NodeId): set<nat>
    requires 0 < |ids|
  {
    set p: nat | first <= p < first + |ids| && id in Replicas(ids, hash, p, rf)
  }

  /** Partitions first .. first + n - 1 whose leader is the node. */
  ghost function LedBy(ids: seq<NodeId>, hash: nat, first: nat, id: NodeId): set<nat>
    requires 0 < |ids|
  {
    set p: nat | first <= p < first + |ids| && Replicas(ids, hash, p, 1)[0] == id
  }

  lemma OneMoreReplica(ids: seq<NodeId>, hash: nat, p: nat, rf: nat, id: NodeId)
    requires 0 < rf <= |ids| && Distinct(ids)
    ensures id in Replicas(ids, hash, p, rf) <==>
              id in Replicas(ids, hash, p, rf - 1) || IsIth(ids, hash, rf - 1, id, p)
    ensures !(id in Replicas(ids, hash, p, rf - 1) && IsIth(ids, hash, rf - 1, id, p))
  {
    var longer, shorter := Replicas(ids, hash, p, rf), Replicas(ids, hash, p, rf - 1);
    assert longer == shorter + [longer[rf - 1]];
    ReplicasAreDistinct(ids, hash, p, rf);
    if id in shorter {
      var k :| 0 <= k < rf - 1 && shorter[k] == id;
      assert longer[k] != longer[rf - 1];
    }
  }

  /** Over any n consecutive partitions of a topic, each node appears in exactly
      rf replica sets. */
  lemma {:induction false} LoadIsEven(ids: seq<NodeId>, hash: nat, first: nat, rf: nat, v: nat)
    requires v < |ids| && Distinct(ids) && rf <= |ids|
    ensures |HostedBy(ids, hash, first, rf, ids[v])| == rf
    decreases rf
  {
    var id := ids[v];
    if rf == 0 {
      assert HostedBy(ids, hash, first, 0, id) == {};
    } else {
      LoadIsEven(ids, hash, first, rf - 1, v);
      HostedGrowsByOne(ids, hash, first, rf, v);
    }
  }

  lemma HostedGrowsByOne(ids: seq<NodeId>, hash: nat, first: nat, rf: nat, v: nat)
    requires v < |ids| && Distinct(ids) && 0 < rf <= |ids|
    ensures |HostedBy(ids, hash, first, rf, ids[v])| == |HostedBy(ids, hash, first, rf - 1, ids[v])| + 1
  {
    var id := ids[v];
    var p := IthReplicaOnce(ids, hash, first, rf - 1, v);
    var before, after := HostedBy(ids, hash, first, rf - 1, id), HostedBy(ids, hash, first, rf, id);
    forall q: nat | first <= q < first + |ids|
      ensures (q in after <==> q in before || q == p) && !(q in before && q == p)
    {
      OneMoreReplica(ids, hash, q, rf, id);
    }
    assert after == before + {p};
  }

  /** Over any n consecutive partitions each node leads exactly one. */
  lemma LeadershipIsEven(ids: seq<NodeId>, hash: nat, first: nat, v: nat)
    requires v < |ids| && Distinct(ids)
    ensures |LedBy(ids, hash, first, ids[v])| == 1
  {
    LoadIsEven(ids, hash, first, 1, v);
    var a, b := LedBy(ids, hash, first, ids[v]), HostedBy(ids, hash, first, 1, ids[v]);
    forall p: nat ensures p in a <==> p in b {
      var rs := Replicas(ids, hash, p, 1);
      assert rs == [rs[0]];
    }
    assert a == b;
  }

  // ---------------------------------------------------------------------
  // The code
  // ---------------------------------------------------------------------

  /** sortedIDs: in-place insertion sort of the configured ids. */
  method SortedIds(nodes: seq<NodeId>) returns (ids: seq<NodeId>)
    ensures Ascending(ids) && multiset(ids) == multiset(nodes)
  {
    var a := new NodeId[|nodes|](i requires 0 <= i < |nodes| => nodes[i]);
    assert a[..] == nodes;
    if a.Length == 0 { return []; }
    for i := 1 to a.Length
      invariant a.Length == |nodes|
      invariant Ascending(a[..i]) && multiset(a[..]) == multiset(nodes)
    {
      SinkInto(a, i);
    }
    ids := a[..];
    assert a[..a.Length] == a[..];
  }

  /** AssignmentFor without the operator overlay. */
  method AssignmentFor(nodes: seq<NodeId>, hash: nat, partition: nat, replicationFactor: nat)
    returns (leader: NodeId, replicas: seq<NodeId>)
    requires nodes != [] && 0 < replicationFactor
    ensures exists ids :: Ascending(ids) && multiset(ids) == multiset(nodes) && |ids| == |nodes|
              && replicas == Replicas(ids, hash, partition,
                                      if replicationFactor > |nodes| then |nodes| else replicationFactor)
    ensures replicas != [] && leader == replicas[0]
  {
    var ids := SortedIds(nodes);
    assert |multiset(ids)| == |multiset(nodes)|;
    var n := |ids|;
    var start := (hash + partition) % n;
    var rf := replicationFactor;
    if rf > n { rf := n; }
    replicas := [];
    for i := 0 to rf
      invariant |replicas| == i
      invariant forall k :: 0 <= k < i ==> replicas[k] == ids[Ring(n, hash + partition + k)]
    {
      RingStep(n, hash + partition, i);
      replicas := replicas + [ids[(start + i) % n]];
    }
    leader := replicas[0];
    assert replicas == Replicas(ids, hash, partition, rf);
  }

  lemma {:induction false} RingAbsorbs(n: nat, k: nat, i: nat)
    requires 0 < n
    ensures Ring(n, Ring(n, k) + i) == Ring(n, k + i)
    decreases k
  {
    if k >= n { RingAbsorbs(n, k - n, i); }
  }

  /** Reducing the start first does not change the walk. */
  lemma RingStep(n: nat, k: nat, i: nat)
    requires 0 < n
    ensures (k % n + i) % n == Ring(n, k + i)
  {
    RingIsMod(n, k);
    RingIsMod(n, Ring(n, k) + i);
    RingAbsorbs(n, k, i);
  }

  /** All of a[..i] is ascending except possibly at j. */
  ghost predicate AscendingBut(a: seq<NodeId>, i: nat, j: nat)
    requires i < |a|
  {
    && (forall x, y :: 0 <= x < y <= i && x != j && y != j ==> !Less(a[y], a[x]))
    && (forall y :: j < y <= i ==> !Less(a[y], a[j]))
  }

  function Swapped(s: seq<NodeId>, j: nat): seq<NodeId>
    requires 0 < j < |s|
  {
    s[j := s[j - 1]][j - 1 := s[j]]
  }

  lemma SwapKeepsOrder(s: seq<NodeId>, i: nat, j: nat)
    requires 0 < j <= i < |s| && AscendingBut(s, i, j) && Less(s[j], s[j - 1])
    ensures AscendingBut(Swapped(s, j), i, j - 1)
  {
    var t := Swapped(s, j);
    forall x, y | 0 <= x < y <= i && x != j - 1 && y != j - 1 ensures !Less(t[y], t[x]) {
      if x == j { assert t[x] == s[j - 1] && t[y] == s[y]; }
      if y == j { assert t[y] == s[j - 1] && t[x] == s[x]; }
    }
    forall y | j - 1 < y <= i ensures !Less(t[y], t[j - 1]) {
      if y == j { LessIsAsymmetric(s[j], s[j - 1]); } else { assert t[y] == s[y]; }
    }
  }

  lemma SunkIsAscending(s: seq<NodeId>, i: nat, j: nat)
    requires j <= i < |s| && AscendingBut(s, i, j) && (j == 0 || !Less(s[j], s[j - 1]))
    ensures Ascending(s[..i + 1])
  {
    forall x | 0 <= x < j ensures !Less(s[j], s[x]) {
      if x < j - 1 { NotLessTransitive(s[x], s[j - 1], s[j]); }
    }
  }

  /** The inner loop: swap element i down to its place. */
  method SinkInto(a: array<NodeId>, i: nat)
    requires 0 < i < a.Length && Ascending(a[..i])
    modifies a
    ensures Ascending(a[..i + 1]) && multiset(a[..]) == multiset(old(a[..]))
  {
    var j := i;
    AscendingAllBut(a[..], i);
    while j > 0 && Less(a[j], a[j - 1])
      invariant j <= i
      invariant multiset(a[..]) == multiset(old(a[..]))
      invariant AscendingBut(a[..], i, j)
    {
      ghost var s := a[..];
      SwapKeepsOrder(s, i, j);
      a[j], a[j - 1] := a[j - 1], a[j];
      assert a[..] == Swapped(s, j);
      j := j - 1;
    }
    SunkIsAscending(a[..], i, j);
    assert a[..][..i + 1] == a[..i + 1];
  }

  lemma AscendingAllBut(s: seq<NodeId>, i: nat)
    requires i < |s| && Ascending(s[..i])
    ensures AscendingBut(s, i, i)
  {
    forall x, y | 0 <= x < y < i ensures !Less(s[y], s[x]) {
      assert s[..i][x] == s[x] && s[..i][y] == s[y];
    }
  }

  lemma LessIsAsymmetric(a: NodeId, b: NodeId)
    requires Less(a, b)
    ensures !Less(b, a)
  {
    if Less(b, a) {
      LessIsTransitive(a, b, a);
      LessIsIrreflexive(a);
    }
  }

  lemma NotLessTransitive(a: NodeId, b: NodeId, c: NodeId)
    requires !Less(b, a) && !Less(c, b)
    ensures !Less(c, a)
  {
    LessIsTotal(a, b);
    LessIsTotal(b, c);
    if Less(c, a) {
      if Less(a, b) { LessIsTransitive(c, a, b); }
    }
  }
}
