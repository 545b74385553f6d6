/** How often a worker renews and what that guarantees. Durations are
    nanoseconds here, as in the worker. */
module LeaseTiming {
  import opened JobRows

  const FLOOR := 50_000_000

  function RenewInterval(lease: int): int
    requires 0 < lease
  {
    if lease / 3 > FLOOR then lease / 3 else FLOOR
  }

  /** The row after a worker's renewal ticks. Tick k fires at start + k * d and
      either reaches the database or fails with an error. */
  function AfterTicks(r: Row, start: int, lease: int, oks: seq<bool>): Row
    requires 0 < lease
  {
    if oks == [] then r
    else
      var n := |oks|;
      var before := AfterTicks(r, start, lease, oks[..n - 1]);
      var w := Renew(before, r.generation, lease, start + n * RenewInterval(lease));
      if oks[n - 1] && w.Some? then w.value else before
  }

  /** No three renewals in a row fail. */
  predicate OneOfThree(oks: seq<bool>) {
    forall k :: 0 <= k && k + 2 < |oks| ==> oks[k] || oks[k + 1] || oks[k + 2]
  }

  /** At no instant between the claim and the tick after the last one does the
      sweeper's guard hold. */
  ghost predicate NeverSweepable(r: Row, start: int, lease: int, oks: seq<bool>)
    requires 0 < lease
  {
    forall k, t :: 0 <= k <= |oks| && t <= start + (k + 1) * RenewInterval(lease) ==>
                     !Sweepable(AfterTicks(r, start, lease, oks[..k]), t)
  }

  ghost predicate JustClaimed(r: Row, start: int, lease: int) {
    r.status == Processing && r.lease == Some(start + lease)
  }

  lemma RenewalKeepsClaim(r: Row, start: int, lease: int, oks: seq<bool>)
    requires 0 < lease && JustClaimed(r, start, lease)
    ensures var a := AfterTicks(r, start, lease, oks);
            a.status == Processing && a.generation == r.generation && a.lease.Some?
  {
  }

  /** Two failed renewals cost at most two intervals of lease. */
  lemma {:induction false} LeaseLagsTwoTicks(r: Row, start: int, lease: int, oks: seq<bool>)
    requires 0 < lease && JustClaimed(r, start, lease) && OneOfThree(oks)
    ensures AfterTicks(r, start, lease, oks).lease.Some?
    ensures AfterTicks(r, start, lease, oks).lease.value >= start + (|oks| - 2) * RenewInterval(lease) + lease
  {
    var n, d := |oks|, RenewInterval(lease);
    RenewalKeepsClaim(r, start, lease, oks);
    if n > 0 { RenewalKeepsClaim(r, start, lease, oks[..n - 1]); }
    if n > 1 { RenewalKeepsClaim(r, start, lease, oks[..n - 2]); }
    if n > 2 { RenewalKeepsClaim(r, start, lease, oks[..n - 3]); }
    assert n > 1 ==> oks[..n - 1][..n - 2] == oks[..n - 2];
    assert n > 2 ==> oks[..n - 2][..n - 3] == oks[..n - 3];
    assert n >= 2 ==> (n - 2) * d <= (n - 1) * d <= n * d;
    assert n < 2 ==> (n - 2) * d <= 0;
  }

  /** The worker's promise that two renewals may fail back to back holds for
      every run exactly when the lease is at least 150 ms; below that the 50 ms
      floor on the interval outruns the lease. */
  lemma TwoFailuresTolerated(r: Row, start: int, lease: int)
    requires 0 < lease && JustClaimed(r, start, lease)
    ensures (forall oks :: OneOfThree(oks) ==> NeverSweepable(r, start, lease, oks)) <==> lease >= 150_000_000
  {
    var d := RenewInterval(lease);
    if lease >= 150_000_000 {
      forall oks | OneOfThree(oks) ensures NeverSweepable(r, start, lease, oks) {
        forall k, t | 0 <= k <= |oks| && t <= start + (k + 1) * d
          ensures !Sweepable(AfterTicks(r, start, lease, oks[..k]), t)
        {
          LeaseLagsTwoTicks(r, start, lease, oks[..k]);
          assert (k + 1) * d == (k - 2) * d + 3 * d;
        }
      }
    } else {
      var oks := [false, false, true];
      assert OneOfThree(oks);
      assert oks[..2] == [false, false] && [false, false][..1] == [false] && [false][..0] == [];
      assert AfterTicks(r, start, lease, [false]) == r;
      assert AfterTicks(r, start, lease, [false, false]) == r;
      assert Sweepable(AfterTicks(r, start, lease, oks[..2]), start + (2 + 1) * d);
    }
  }
}
