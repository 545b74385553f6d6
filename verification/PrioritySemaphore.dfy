/** The worker's priority semaphore: permits are handed to waiters in
    (effective rank, arrival) order and ranks improve with waiting time. */
module PrioritySemaphore {

  datatype Waiter = Waiter(rank: int, ticket: nat, enqueued: int)

  /** Go's duration division truncates toward zero. */
  function TruncDiv(a: int, b: int): int
    requires 0 < b
  {
    if a >= 0 then a / b else -((-a) / b)
  }

  function EffRank(aging: int, w: Waiter, now: int): int {
    if aging <= 0 then w.rank
    else
      var r := w.rank - TruncDiv(now - w.enqueued, aging);
      if r > 0 then r else 0
  }

  /** Waiter b is the one to serve. The clock is read once per waiter during the
      scan, so each waiter has its own reading. */
  ghost predicate Best(aging: int, ws: seq<Waiter>, clock: seq<int>, b: nat)
    requires |clock| == |ws|
  {
    b < |ws| && forall i :: 0 <= i < |ws| ==> NoWorse(aging, ws, clock, b, i)
  }

  predicate NoWorse(aging: int, ws: seq<Waiter>, clock: seq<int>, b: nat, i: nat)
    requires |clock| == |ws| && b < |ws| && i < |ws|
  {
    var eb, ei := EffRank(aging, ws[b], clock[b]), EffRank(aging, ws[i], clock[i]);
    eb < ei || (eb == ei && ws[b].ticket <= ws[i].ticket)
  }

  // ---------------------------------------------------------------------
  // The semaphore with its callers, as a state machine
  // ---------------------------------------------------------------------

  /** `handed` are tickets whose permit was handed over but whose Acquire has
      not returned; `holders` are callers between Acquire and Release. */
  datatype Sem = Sem(free: int, waiters: seq<Waiter>, nextTicket: nat, handed: set<nat>, holders: int)

  datatype Event =
    | Acquire(rank: int, now: int)
    | PickUp(ticket: nat)
    | CancelWaiting(ticket: nat)
    | CancelGranted(ticket: nat, clock: seq<int>, best: nat)
    | Release(clock: seq<int>, best: nat)

  predicate Waiting(ws: seq<Waiter>, ticket: nat) {
    exists i :: 0 <= i < |ws| && ws[i].ticket == ticket
  }

  function Without(ws: seq<Waiter>, i: nat): seq<Waiter>
    requires i < |ws|
  {
    ws[..i] + ws[i + 1..]
  }

  function Drop(ws: seq<Waiter>, ticket: nat): seq<Waiter> {
    if ws == [] then [] else if ws[0].ticket == ticket then ws[1..] else [ws[0]] + Drop(ws[1..], ticket)
  }

  /** Hand one permit on: to the chosen waiter, or to the pool. */
  function Grant(s: Sem, best: nat): Sem
    requires s.waiters != [] ==> best < |s.waiters|
  {
    if s.waiters == [] then s.(free := s.free + 1)
    else s.(waiters := Without(s.waiters, best), handed := s.handed + {s.waiters[best].ticket})
  }

  ghost predicate GrantOk(aging: int, s: Sem, clock: seq<int>, best: nat) {
    |clock| == |s.waiters| && (s.waiters != [] ==> Best(aging, s.waiters, clock, best))
  }

  ghost predicate Enabled(aging: int, s: Sem, e: Event) {
    match e
    case Acquire(_, _) => true
    case PickUp(q) => q in s.handed
    case CancelWaiting(q) => Waiting(s.waiters, q)
    case CancelGranted(q, clock, b) => q in s.handed && GrantOk(aging, s, clock, b)
    case Release(clock, b) => s.holders > 0 && GrantOk(aging, s, clock, b)
  }

  ghost function Step(aging: int, s: Sem, e: Event): Sem
    requires Enabled(aging, s, e)
  {
    match e
    case Acquire(rank, now) =>
      if s.free > 0 && s.waiters == [] then s.(free := s.free - 1, holders := s.holders + 1)
      else s.(waiters := s.waiters + [Waiter(rank, s.nextTicket, now)], nextTicket := s.nextTicket + 1)
    case PickUp(q) => s.(handed := s.handed - {q}, holders := s.holders + 1)
    case CancelWaiting(q) => s.(waiters := Drop(s.waiters, q))
    case CancelGranted(q, _, b) => Grant(s.(handed := s.handed - {q}), b)
    case Release(_, b) => Grant(s.(holders := s.holders - 1), b)
  }

  function New(cap: nat): Sem {
    Sem(cap, [], 0, {}, 0)
  }

  /** es is a run from s that ends in t. */
  ghost predicate Runs(aging: int, s: Sem, es: seq<Event>, t: Sem)
    decreases es
  {
    if es == [] then t == s
    else Enabled(aging, s, es[0]) && Runs(aging, Step(aging, s, es[0]), es[1..], t)
  }

  // ---------------------------------------------------------------------
  // Conservation of permits
  // ---------------------------------------------------------------------

  ghost predicate Ordered(ws: seq<Waiter>) {
    forall i, j :: 0 <= i < j < |ws| ==> ws[i].ticket < ws[j].ticket
  }

  ghost predicate Inv(s: Sem, cap: int) {
    && 0 <= s.free && 0 <= s.holders
    && s.free + s.holders + |s.handed| == cap
    && (s.free > 0 ==> s.waiters == [])
    && Ordered(s.waiters)
    && (forall i :: 0 <= i < |s.waiters| ==> s.waiters[i].ticket < s.nextTicket && s.waiters[i].ticket !in s.handed)
    && (forall q :: q in s.handed ==> q < s.nextTicket)
  }

  /** Dropping a ticket removes exactly its waiter. */
  lemma {:induction false} DropIsWithout(ws: seq<Waiter>, i: nat)
    requires Ordered(ws) && i < |ws|
    ensures Drop(ws, ws[i].ticket) == Without(ws, i)
  {
    if i > 0 {
      assert ws[0].ticket < ws[i].ticket;
      DropIsWithout(ws[1..], i - 1);
      assert [ws[0]] + Without(ws[1..], i - 1) == Without(ws, i);
    }
  }

  lemma WithoutIsOrdered(ws: seq<Waiter>, i: nat)
    requires Ordered(ws) && i < |ws|
    ensures Ordered(Without(ws, i))
    ensures forall k :: 0 <= k < |ws| - 1 ==> Without(ws, i)[k] == if k < i then ws[k] else ws[k + 1]
    ensures forall k :: 0 <= k < |ws| - 1 ==> Without(ws, i)[k].ticket != ws[i].ticket
  {
    var vs := Without(ws, i);
    forall k | 0 <= k < |ws| - 1 ensures vs[k] == (if k < i then ws[k] else ws[k + 1]) && vs[k].ticket != ws[i].ticket {
      if k < i { assert ws[k].ticket < ws[i].ticket; } else { assert ws[i].ticket < ws[k + 1].ticket; }
    }
  }

  /** Handing on a permit that is missing from the count restores the count. */
  lemma GrantKeepsInv(s: Sem, best: nat, cap: int)
    requires Inv(s, cap - 1) && (s.waiters != [] ==> best < |s.waiters|)
    ensures Inv(Grant(s, best), cap)
  {
    if s.waiters != [] {
      WithoutIsOrdered(s.waiters, best);
    }
  }

  lemma StepKeepsInv(aging: int, s: Sem, e: Event, cap: int)
    requires Inv(s, cap) && Enabled(aging, s, e)
    ensures Inv(Step(aging, s, e), cap)
  {
    if e.CancelWaiting? {
      var i :| 0 <= i < |s.waiters| && s.waiters[i].ticket == e.ticket;
      DropIsWithout(s.waiters, i);
      WithoutIsOrdered(s.waiters, i);
    } else if e.CancelGranted? {
      GrantKeepsInv(s.(handed := s.handed - {e.ticket}), e.best, cap);
    } else if e.Release? {
      GrantKeepsInv(s.(holders := s.holders - 1), e.best, cap);
    }
  }

  /** free permits, holders and handed-over permits add up to the capacity after
      every interleaving of acquires, pick-ups, cancellations (including one
      that races a hand-over) and releases; and a free permit never coexists
      with a waiter. */
  lemma {:induction false} PermitsConserved(aging: int, s: Sem, es: seq<Event>, t: Sem, cap: int)
    requires Inv(s, cap) && Runs(aging, s, es, t)
    ensures Inv(t, cap)
    decreases es
  {
    if es != [] {
      StepKeepsInv(aging, s, es[0], cap);
      PermitsConserved(aging, Step(aging, s, es[0]), es[1..], t, cap);
    }
  }

  lemma PermitsConservedFromNew(aging: int, cap: nat, es: seq<Event>, t: Sem)
    requires Runs(aging, New(cap), es, t)
    ensures t.free + t.holders + |t.handed| == cap && 0 <= t.free && 0 <= t.holders <= cap
    ensures t.free > 0 ==> t.waiters == []
  {
    PermitsConserved(aging, New(cap), es, t, cap);
  }

  // ---------------------------------------------------------------------
  // The anti-starvation budget
  // ---------------------------------------------------------------------

  /** The ticket an event hands a permit to. */
  ghost predicate HandsTo(s: Sem, e: Event, ticket: nat) {
    && (e.Release? || e.CancelGranted?)
    && e.best < |s.waiters| && s.waiters[e.best].ticket == ticket
  }

  ghost predicate HandsOver(s: Sem, e: Event) {
    (e.Release? || e.CancelGranted?) && s.waiters != []
  }

  ghost function HandOvers(aging: int, s: Sem, es: seq<Event>): nat
    decreases es
  {
    if es == [] || !Enabled(aging, s, es[0]) then 0
    else (if HandsOver(s, es[0]) then 1 else 0) + HandOvers(aging, Step(aging, s, es[0]), es[1..])
  }

  /** Somewhere in the run the ticket is handed a permit. */
  ghost predicate ServedIn(aging: int, s: Sem, es: seq<Event>, ticket: nat)
    decreases es
  {
    es != [] && Enabled(aging, s, es[0])
    && (HandsTo(s, es[0], ticket) || ServedIn(aging, Step(aging, s, es[0]), es[1..], ticket))
  }

  predicate AgedBy(aging: int, w: Waiter, time: int) {
    0 < aging && 0 <= w.rank && w.rank * aging <= time - w.enqueued
  }

  /** Every clock reading of the event is at or after `time`. */
  predicate ReadsFrom(e: Event, time: int) {
    e.Release? || e.CancelGranted? ==> forall k :: 0 <= k < |e.clock| ==> time <= e.clock[k]
  }

  lemma DivAtLeast(a: int, r: int, b: int)
    requires 0 < b && r * b <= a
    ensures r <= a / b
  {
    assert (a / b + 1) * b > a;
  }

  lemma AgedRanksZero(aging: int, w: Waiter, time: int, now: int)
    requires AgedBy(aging, w, time) && time <= now
    ensures EffRank(aging, w, now) == 0
  {
    var a := now - w.enqueued;
    assert 0 <= w.rank * aging <= a;
    DivAtLeast(a, w.rank, aging);
  }

  /** Once a waiter has spent its aging budget, nobody who queued after it is
      chosen before it, whatever the readings for the others. */
  lemma AgedIsNotOvertaken(aging: int, ws: seq<Waiter>, clock: seq<int>, b: nat, i: nat, time: int)
    requires |clock| == |ws| && Ordered(ws) && Best(aging, ws, clock, b) && i < |ws|
    requires AgedBy(aging, ws[i], time) && time <= clock[i]
    ensures b <= i
  {
    AgedRanksZero(aging, ws[i], time, clock[i]);
    assert NoWorse(aging, ws, clock, b, i);
  }

  /** How one event moves an aged waiter: it is handed a permit, or keeps its
      place, or moves up because someone older left; every hand-over to somebody
      else moves it up. */
  lemma AgedMovesUp(aging: int, s: Sem, e: Event, i: nat, time: int, cap: int) returns (j: nat)
    requires Inv(s, cap) && Enabled(aging, s, e) && i < |s.waiters|
    requires AgedBy(aging, s.waiters[i], time) && ReadsFrom(e, time)
    requires e != CancelWaiting(s.waiters[i].ticket) && !HandsTo(s, e, s.waiters[i].ticket)
    ensures var t := Step(aging, s, e);
            && j < |t.waiters| && t.waiters[j] == s.waiters[i]
            && (if HandsOver(s, e) then j + 1 == i else j <= i)
  {
    j := i;
    if (e.Release? || e.CancelGranted?) && s.waiters != [] {
      AgedIsNotOvertaken(aging, s.waiters, e.clock, e.best, i, time);
      j := i - 1;
    } else if e.CancelWaiting? {
      var k :| 0 <= k < |s.waiters| && s.waiters[k].ticket == e.ticket;
      DropIsWithout(s.waiters, k);
      j := if k < i then i - 1 else i;
    }
  }

  /** A waiter whose budget is spent is served within (older waiters + 1)
      hand-overs, for every arrival pattern, unless its own caller gives up. */
  lemma {:induction false} ServedWithinOlderPlusOne(aging: int, s: Sem, es: seq<Event>, t: Sem, i: nat, time: int, cap: int)
    requires Inv(s, cap) && Runs(aging, s, es, t) && i < |s.waiters|
    requires AgedBy(aging, s.waiters[i], time)
    requires forall k :: 0 <= k < |es| ==> ReadsFrom(es[k], time) && es[k] != CancelWaiting(s.waiters[i].ticket)
    requires HandOvers(aging, s, es) >= i + 1
    ensures ServedIn(aging, s, es, s.waiters[i].ticket)
    decreases es
  {
    assert es != [];
    assert ReadsFrom(es[0], time);
    if !HandsTo(s, es[0], s.waiters[i].ticket) {
      var s' := Step(aging, s, es[0]);
      var j := AgedMovesUp(aging, s, es[0], i, time, cap);
      StepKeepsInv(aging, s, es[0], cap);
      forall k | 0 <= k < |es[1..]|
        ensures ReadsFrom(es[1..][k], time) && es[1..][k] != CancelWaiting(s'.waiters[j].ticket)
      {
        assert es[1..][k] == es[k + 1];
      }
      ServedWithinOlderPlusOne(aging, s', es[1..], t, j, time, cap);
    }
  }

  /** One holder, one waiter of rank 2 at the head of the queue. */
  function Starving(n: nat): Sem {
    Sem(0, [Waiter(2, 0, 0)], n + 1, {}, 1)
  }

  /** A flood of n rank-1 jobs, each arriving just before a release. */
  function Flood(n: nat, m: nat): seq<Event>
    decreases m
  {
    if m == 0 then [] else [Acquire(1, 0), Release([0, 0], 1), PickUp(n + 1)] + Flood(n + 1, m - 1)
  }

  /** Without aging the bound fails for every length: with no older waiter at
      all, m hand-overs may pass the head of the queue by. */
  lemma {:induction false} StrictPriorityStarves(aging: int, n: nat, m: nat)
    requires aging <= 0
    ensures Runs(aging, Starving(n), Flood(n, m), Starving(n + m))
    ensures HandOvers(aging, Starving(n), Flood(n, m)) == m
    ensures !ServedIn(aging, Starving(n), Flood(n, m), 0)
    decreases m
  {
    if m > 0 {
      var s, es := Starving(n), Flood(n, m);
      var s1 := Step(aging, s, es[0]);
      assert s1.waiters == [Waiter(2, 0, 0), Waiter(1, n + 1, 0)];
      assert Best(aging, s1.waiters, [0, 0], 1);
      var s2 := Step(aging, s1, es[1]);
      assert s2.waiters == [Waiter(2, 0, 0)];
      assert s2.handed == {n + 1};
      var s3 := Step(aging, s2, es[2]);
      assert s3 == Starving(n + 1);
      assert es[1..][1..][1..] == Flood(n + 1, m - 1);
      StrictPriorityStarves(aging, n + 1, m - 1);
      assert HandOvers(aging, s2, es[1..][1..]) == m - 1;
      assert HandOvers(aging, s1, es[1..]) == m;
      assert !ServedIn(aging, s2, es[1..][1..], 0);
      assert !ServedIn(aging, s1, es[1..], 0);
      assert Runs(aging, s1, es[1..], Starving(n + m));
    }
  }

  // ---------------------------------------------------------------------
  // The semaphore itself
  // ---------------------------------------------------------------------

  class PrioSem {
    const aging: int
    var free: int
    var waiters: seq<Waiter>
    var nextTicket: nat
    /** Tickets whose granted flag is set and whose Acquire has not returned. */
    var granted: set<nat>
    /** Callers between a successful Acquire and their Release. */
    ghost var holders: int

    ghost function View(): Sem
      reads this
    {
      Sem(free, waiters, nextTicket, granted, holders)
    }

    constructor (cap: nat, aging: int)
      ensures View() == New(cap) && this.aging == aging
    {
      this.aging := aging;
      free, waiters, nextTicket, granted, holders := cap, [], 0, {}, 0;
    }

    /** The locked part of Acquire: take a free permit or join the queue. */
    method Acquire(rank: int, now: int) returns (immediate: bool, ticket: nat)
      modifies this
      ensures View() == Step(aging, old(View()), Event.Acquire(rank, now))
      ensures immediate <==> old(free) > 0 && old(waiters) == []
      ensures ticket == old(nextTicket)
    {
      immediate, ticket := false, nextTicket;
      if free > 0 && |waiters| == 0 {
        free := free - 1;
        holders := holders + 1;
        immediate := true;
        return;
      }
      waiters := waiters + [Waiter(rank, nextTicket, now)];
      nextTicket := nextTicket + 1;
    }

    /** The receive branch of Acquire's select. */
    method PickUp(ticket: nat)
      requires ticket in granted
      modifies this
      ensures View() == Step(aging, old(View()), Event.PickUp(ticket))
    {
      granted := granted - {ticket};
      holders := holders + 1;
    }

    /** The ctx.Done branch: pass a granted permit on, or leave the queue. */
    method CancelWait(ticket: nat, clock: seq<int>) returns (ghost best: nat)
      requires |clock| == |waiters|
      requires ticket in granted || Waiting(waiters, ticket)
      modifies this
      ensures old(ticket in granted) ==>
                Enabled(aging, old(View()), CancelGranted(ticket, clock, best))
                && View() == Step(aging, old(View()), CancelGranted(ticket, clock, best))
      ensures old(ticket !in granted) ==>
                View() == Step(aging, old(View()), CancelWaiting(ticket))
    {
      best := 0;
      if ticket in granted {
        granted := granted - {ticket};
        best := GrantNextLocked(clock);
      } else {
        LeaveQueue(ticket);
      }
    }

    method LeaveQueue(ticket: nat)
      modifies `waiters
      ensures waiters == Drop(old(waiters), ticket)
    {
      for i := 0 to |waiters|
        invariant waiters == old(waiters)
        invariant Drop(waiters, ticket) == waiters[..i] + Drop(waiters[i..], ticket)
      {
        assert waiters[i..][1..] == waiters[i + 1..];
        if waiters[i].ticket == ticket {
          waiters := waiters[..i] + waiters[i + 1..];
          return;
        }
        assert waiters[..i] + [waiters[i]] == waiters[..i + 1];
      }
      assert waiters[|waiters|..] == [];
    }

    method Release(clock: seq<int>) returns (ghost best: nat)
      requires |clock| == |waiters| && holders > 0
      modifies this
      ensures Enabled(aging, old(View()), Event.Release(clock, best))
      ensures View() == Step(aging, old(View()), Event.Release(clock, best))
    {
      holders := holders - 1;
      best := GrantNextLocked(clock);
    }

    method GrantNextLocked(clock: seq<int>) returns (ghost chosen: nat)
      requires |clock| == |waiters|
      modifies this
      ensures GrantOk(aging, old(View()), clock, chosen)
      ensures View() == Grant(old(View()), chosen)
    {
      chosen := 0;
      if |waiters| == 0 {
        free := free + 1;
        return;
      }
      var best := 0;
      var bestEff := EffRank(aging, waiters[0], clock[0]);
      for i := 1 to |waiters|
        invariant best < i && bestEff == EffRank(aging, waiters[best], clock[best])
        invariant forall k :: 0 <= k < i ==> NoWorse(aging, waiters, clock, best, k)
        invariant View() == old(View())
      {
        var eff := EffRank(aging, waiters[i], clock[i]);
        if eff < bestEff || (eff == bestEff && waiters[i].ticket < waiters[best].ticket) {
          forall k | 0 <= k < i ensures NoWorse(aging, waiters, clock, i, k) {
            assert NoWorse(aging, waiters, clock, best, k);
          }
          best, bestEff := i, eff;
        }
      }
      chosen := best;
      var w := waiters[best];
      waiters := waiters[..best] + waiters[best + 1..];
      granted := granted + {w.ticket};
    }
  }
}
