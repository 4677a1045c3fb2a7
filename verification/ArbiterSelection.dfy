/** Which transport the arbiter selects, who may overtake whom, and exactly when re-checking
    waiters one by one cannot leave an available transport to nobody. */
module ArbiterSelection {
  import opened Wrappers
  import opened ArbiterModel

  /** Position i is the one to grant: the oldest aged eligible non-AKA request of the ungated
      prefix; failing that its oldest eligible AKA; failing that its oldest eligible request. */
  predicate IsSelection(o: Options, c: Sched, now: int, i: nat) {
    && i < WindowEnd(o, c, 0)
    && exists p :: IsPick(o, c, now, p, i)
  }

  predicate IsPick(o: Options, c: Sched, now: int, p: Pick, i: nat)
    requires i < WindowEnd(o, c, 0)
  {
    && Fits(o, c, now, p, c.queue[i])
    && (forall j :: 0 <= j < i ==> !Fits(o, c, now, p, c.queue[j]))
    && (!p.AgedOther? ==> forall j :: 0 <= j < WindowEnd(o, c, 0) ==> !Fits(o, c, now, AgedOther, c.queue[j]))
    && (p.Any? ==> forall j :: 0 <= j < WindowEnd(o, c, 0) ==> !Fits(o, c, now, Aka, c.queue[j]))
  }

  lemma SelectedMeansPicked(o: Options, c: Sched, now: int)
    ensures SelectedIndex(o, c, now) < |c.queue| ==> IsSelection(o, c, now, SelectedIndex(o, c, now))
    ensures SelectedIndex(o, c, now) == |c.queue| ==> forall j :: 0 <= j < WindowEnd(o, c, 0) ==> !Eligible(o, c, c.queue[j])
  {
    var k := SelectedIndex(o, c, now);
    if k == |c.queue| {
      forall j | 0 <= j < WindowEnd(o, c, 0) ensures !Eligible(o, c, c.queue[j]) {
        assert !Fits(o, c, now, Any, c.queue[j]);
      }
    } else if FirstFit(o, c, now, AgedOther, 0) < |c.queue| {
      assert IsPick(o, c, now, AgedOther, k);
    } else if FirstFit(o, c, now, Aka, 0) < |c.queue| {
      assert IsPick(o, c, now, Aka, k);
    } else {
      assert IsPick(o, c, now, Any, k);
    }
  }

  lemma PickedIsUnique(o: Options, c: Sched, now: int, i: nat, j: nat)
    requires IsSelection(o, c, now, i) && IsSelection(o, c, now, j)
    ensures i == j
  {
    var p :| IsPick(o, c, now, p, i);
    var q :| IsPick(o, c, now, q, j);
  }

  /** The scan selects a ticket exactly when that ticket is the one to grant. */
  lemma SelectionExact(o: Options, c: Sched, now: int, i: nat)
    requires i < |c.queue| && Distinct(c.queue)
    requires forall k :: 0 <= k < |c.queue| ==> c.queue[k].id > 0
    ensures SelectedTransport(o, c, now) == c.queue[i].id <==> IsSelection(o, c, now, i)
  {
    SelectedMeansPicked(o, c, now);
    var k := SelectedIndex(o, c, now);
    if IsSelection(o, c, now, i) {
      var p :| IsPick(o, c, now, p, i);
      assert Eligible(o, c, c.queue[i]);
      assert k < |c.queue|;
      PickedIsUnique(o, c, now, i, k);
    }
  }

  /** No lease is granted while any barrier, whatever classes it blocks, is queued ahead of it. */
  lemma NoLeaseOvertakesABarrier(o: Options, c: Sched, i: nat, j: nat, now: int)
    requires Distinct(c.queue) && forall k :: 0 <= k < |c.queue| ==> c.queue[k].id > 0
    requires j < i < |c.queue| && c.queue[j].kind.Barrier?
    ensures !CanAcquireLease(o, c, c.queue[i], now)
  {
    if c.queue[i].IsTransport() {
      SelectionExact(o, c, now, i);
      assert Stops(o, c, c.queue[j]);
    }
  }

  /** Only these overtakings are possible: an AKA request passes an eligible one that has waited
      less than the aging time and is not AKA itself, or an aged request passes one that is not. */
  lemma OvertakingIsBounded(o: Options, c: Sched, i: nat, j: nat, now: int)
    requires Distinct(c.queue) && forall k :: 0 <= k < |c.queue| ==> c.queue[k].id > 0
    requires j < i < |c.queue| && j < WindowEnd(o, c, 0) && Eligible(o, c, c.queue[j])
    requires CanAcquireLease(o, c, c.queue[i], now)
    ensures c.queue[i].IsTransport()
    ensures c.queue[i].cls == USIM_AKA ==> c.queue[j].cls != USIM_AKA && now - c.queue[j].enqueued < TRANSPORT_PRIORITY_AGING
    ensures c.queue[i].cls != USIM_AKA ==>
      now - c.queue[i].enqueued >= TRANSPORT_PRIORITY_AGING
      && (c.queue[j].cls == USIM_AKA || now - c.queue[j].enqueued < TRANSPORT_PRIORITY_AGING)
  {
    assert c.queue[0].id != c.queue[i].id;
    SelectionExact(o, c, now, i);
    var p :| IsPick(o, c, now, p, i);
    assert !Fits(o, c, now, p, c.queue[j]);
    assert !p.Any?;
  }

  /** Once it has aged, an eligible non-AKA request is passed by nothing queued behind it. */
  lemma AgedIsNotOvertaken(o: Options, c: Sched, i: nat, j: nat, now: int)
    requires Distinct(c.queue) && forall k :: 0 <= k < |c.queue| ==> c.queue[k].id > 0
    requires j < i < |c.queue| && j < WindowEnd(o, c, 0)
    requires Fits(o, c, now, AgedOther, c.queue[j])
    ensures !CanAcquireLease(o, c, c.queue[i], now)
  {
    if CanAcquireLease(o, c, c.queue[i], now) {
      OvertakingIsBounded(o, c, i, j, now);
    }
  }

  /** While any transport is active, an unblocked exclusive request holds back everything behind it. */
  lemma ExclusiveIsNotOvertaken(o: Options, c: Sched, i: nat, j: nat, now: int)
    requires Distinct(c.queue) && forall k :: 0 <= k < |c.queue| ==> c.queue[k].id > 0
    requires c.transports != [] && j < i < |c.queue|
    requires c.queue[j].IsTransport() && c.queue[j].scope.Exclusive? && !ClassBlocked(c.barriers, c.queue[j].cls)
    ensures !CanAcquire(o, c, c.queue[i], now)
  {
    assert Stops(o, c, c.queue[j]);
    if CanAcquireLease(o, c, c.queue[i], now) {
      assert c.queue[i].IsTransport();
      SelectionExact(o, c, now, i);
    }
  }

  /** Whenever nothing is active, the queue's oldest barrier, or failing that some ticket of the
      queue's front, is grantable. */
  lemma SomeoneIsGrantable(o: Options, c: Sched, now: int)
    requires o.Normal() && c.NoLease() && c.barriers == [] && c.queue != []
    requires Distinct(c.queue) && forall k :: 0 <= k < |c.queue| ==> c.queue[k].WellFormed()
    ensures exists i :: 0 <= i < |c.queue| && CanAcquire(o, c, c.queue[i], now)
    ensures FirstBarrier(c.queue) == |c.queue| && c.queue[0].IsTransport() ==>
      SelectedIndex(o, c, now) < |c.queue| && CanAcquireLease(o, c, c.queue[SelectedIndex(o, c, now)], now)
  {
    var b := FirstBarrier(c.queue);
    if b < |c.queue| {
      assert CanAcquireBarrier(c, c.queue[b]);
    } else {
      assert forall k, cl :: 0 <= k < |c.queue| ==> !c.queue[k].Blocks(cl);
      if c.queue[0].IsTransport() {
        assert Eligible(o, c, c.queue[0]) && !Stops(o, c, c.queue[0]);
        SelectedMeansPicked(o, c, now);
        var k := SelectedIndex(o, c, now);
        assert k < |c.queue|;
        assert CanAcquireLease(o, c, c.queue[k], now);
      } else {
        assert CanAcquireLease(o, c, c.queue[0], now);
      }
    }
  }

  // ---- Who is granted, in terms of the active leases alone

  /** An exclusive transport needs the arbiter's transports to itself; one on a channel runs beside
      others on other channels, as long as there are fewer than the options allow. */
  predicate Room(o: Options, active: seq<Ticket>, t: Ticket) {
    if t.scope.Exclusive? then active == []
    else |active| < o.maxQmiTransports && forall a :: a in active ==> a.scope.QmiChannel? && a.channel != t.channel
  }

  /** No arrival on another channel could start either. */
  predicate NoRoomForAny(o: Options, active: seq<Ticket>) {
    |active| >= o.maxQmiTransports || exists a :: a in active && a.scope.Exclusive?
  }

  predicate Unblocked(c: Sched, t: Ticket) { forall b :: b in c.barriers && b.kind.Barrier? ==> t.cls !in b.kind.blocked }

  lemma RoomExactly(o: Options, active: seq<Ticket>, t: Ticket)
    ensures TransportFits(o, active, t) <==> Room(o, active, t)
    ensures Gates(o, active, t) <==> t.scope.Exclusive? || NoRoomForAny(o, active)
  {
    if forall a :: a in active ==> a.scope.QmiChannel? { AllOnChannels(active); }
    hide QmiCount;
    assert forall i :: 0 <= i < |active| ==> active[i] in active;
  }

  lemma {:induction false} AllOnChannels(active: seq<Ticket>)
    requires forall a :: a in active ==> a.scope.QmiChannel?
    ensures QmiCount(active) == |active|
  {
    if active != [] { AllOnChannels(active[..|active| - 1]); }
  }

  lemma UnblockedExactly(c: Sched, t: Ticket)
    ensures ClassBlocked(c.barriers, t.cls) <==> !Unblocked(c, t)
  {
    assert forall i :: 0 <= i < |c.barriers| ==> c.barriers[i] in c.barriers;
  }

  /** A transport that could start now, but for the queue. */
  predicate Free(o: Options, c: Sched, t: Ticket) { t.kind == Lease(Transport) && Unblocked(c, t) && Room(o, c.transports, t) }

  /** A transport that others may pass: its class is blocked, or it starts itself, or only its own channel
      is taken. */
  predicate Passable(o: Options, c: Sched, t: Ticket) {
    && t.kind == Lease(Transport)
    && (Unblocked(c, t) && !Room(o, c.transports, t) ==> t.scope.QmiChannel? && !NoRoomForAny(o, c.transports))
  }

  /** Position i is free, and everything ahead of it may be passed. */
  predicate InReach(o: Options, c: Sched, i: nat)
    requires i < |c.queue|
  {
    Free(o, c, c.queue[i]) && forall j :: 0 <= j < i ==> Passable(o, c, c.queue[j])
  }

  predicate Old(c: Sched, i: nat, now: int)
    requires i < |c.queue|
  {
    c.queue[i].cls != USIM_AKA && now - c.queue[i].enqueued >= 500_000_000
  }

  /** The oldest in reach among those that have aged and are not AKA; if none has, among the AKA ones; if
      there is none of these either, among all. */
  predicate IsNext(o: Options, c: Sched, i: nat, now: int)
    requires i < |c.queue|
  {
    && InReach(o, c, i)
    && (if Old(c, i, now) then forall j :: 0 <= j < i && InReach(o, c, j) ==> !Old(c, j, now)
        else
          && (forall j :: 0 <= j < |c.queue| && InReach(o, c, j) ==> !Old(c, j, now))
          && (if c.queue[i].cls == USIM_AKA then forall j :: 0 <= j < i && InReach(o, c, j) ==> c.queue[j].cls != USIM_AKA
              else
                && (forall j :: 0 <= j < |c.queue| && InReach(o, c, j) ==> c.queue[j].cls != USIM_AKA)
                && forall j :: 0 <= j < i ==> !InReach(o, c, j)))
  }

  lemma ReachExactly(o: Options, c: Sched, i: nat)
    requires i < |c.queue|
    ensures InReach(o, c, i) <==> i < WindowEnd(o, c, 0) && Eligible(o, c, c.queue[i])
  {
    forall j | 0 <= j < |c.queue|
      ensures Stops(o, c, c.queue[j]) <==> !Passable(o, c, c.queue[j])
      ensures Eligible(o, c, c.queue[j]) <==> Free(o, c, c.queue[j])
    {
      RoomExactly(o, c.transports, c.queue[j]);
      UnblockedExactly(c, c.queue[j]);
    }
    hide Stops, Eligible, Unblocked, Room, NoRoomForAny;
  }

  lemma NextExactly(o: Options, c: Sched, i: nat, now: int)
    requires i < |c.queue|
    ensures IsSelection(o, c, now, i) <==> IsNext(o, c, i, now)
  {
    forall j | 0 <= j < |c.queue| ensures InReach(o, c, j) <==> j < WindowEnd(o, c, 0) && Eligible(o, c, c.queue[j]) {
      ReachExactly(o, c, j);
    }
    hide InReach, Eligible, WindowEnd;
    if IsNext(o, c, i, now) {
      assert IsPick(o, c, now, if Old(c, i, now) then AgedOther else if c.queue[i].cls == USIM_AKA then Aka else Any, i);
    }
  }

  /** On every queue and whatever is active, exactly these requests are granted: the head session with
      room, the head one-shot and the oldest barrier with nothing active, and the next transport. */
  lemma GrantedExactly(o: Options, c: Sched, i: nat, now: int)
    requires Distinct(c.queue) && (forall k :: 0 <= k < |c.queue| ==> c.queue[k].id > 0) && i < |c.queue|
    ensures CanAcquire(o, c, c.queue[i], now) <==>
      match c.queue[i].kind
      case Barrier(_) =>
        c.sessions == [] && c.oneshot.None? && c.transports == [] && forall j :: 0 <= j < i ==> c.queue[j].kind.Lease?
      case Lease(Session) =>
        i == 0 && Unblocked(c, c.queue[0]) && c.oneshot.None? && c.transports == [] && |c.sessions| < o.maxSessions
      case Lease(OneShot) =>
        i == 0 && Unblocked(c, c.queue[0]) && c.sessions == [] && c.oneshot.None? && c.transports == []
      case Lease(Transport) =>
        c.sessions == [] && c.oneshot.None? && IsNext(o, c, i, now)
  {
    var t := c.queue[i];
    UnblockedExactly(c, t);
    NextExactly(o, c, i, now);
    SelectionExact(o, c, now, i);
    if t.kind.Barrier? { OldestBarrier(c.queue, i); }
    hide SelectedTransport, IsSelection, Unblocked, SelectedBarrier;
    if t.IsTransport() && IsNext(o, c, i, now) { assert InReach(o, c, i); }
    hide IsNext, Free;
  }

  lemma OldestBarrier(queue: seq<Ticket>, i: nat)
    requires Distinct(queue) && i < |queue| && queue[i].kind.Barrier? && (forall k :: 0 <= k < |queue| ==> queue[k].id > 0)
    ensures SelectedBarrier(queue) == queue[i].id <==> forall j :: 0 <= j < i ==> queue[j].kind.Lease?
  {
  }

  /** As long as there are fewer transports than the options allow, no exclusive one and no session or
      one-shot, a channel request does not wait for others: not for one whose channel is taken, nor for
      one whose class a barrier blocks. Some transport from there on is granted, and it is this one if it
      has aged and is not AKA, or if nothing is queued behind it. */
  lemma FreeChannelIsServed(o: Options, c: Sched, i: nat, now: int)
    requires Distinct(c.queue) && (forall k :: 0 <= k < |c.queue| ==> c.queue[k].id > 0) && i < |c.queue|
    requires c.sessions == [] && c.oneshot.None? && |c.transports| < o.maxQmiTransports
    requires forall a :: a in c.transports ==> a.scope.QmiChannel? && a.channel != c.queue[i].channel
    requires c.queue[i].kind == Lease(Transport) && c.queue[i].scope.QmiChannel?
    requires forall b :: b in c.barriers && b.kind.Barrier? ==> c.queue[i].cls !in b.kind.blocked
    requires forall j :: 0 <= j < i ==>
      && c.queue[j].kind == Lease(Transport)
      && ((c.queue[j].scope.QmiChannel? && exists a :: a in c.transports && a.channel == c.queue[j].channel)
          || exists b :: b in c.barriers && b.kind.Barrier? && c.queue[j].cls in b.kind.blocked)
    ensures exists k :: i <= k < |c.queue| && CanAcquire(o, c, c.queue[k], now)
    ensures i + 1 == |c.queue| || (c.queue[i].cls != USIM_AKA && now - c.queue[i].enqueued >= TRANSPORT_PRIORITY_AGING) ==>
      CanAcquire(o, c, c.queue[i], now)
  {
    assert InReach(o, c, i);
    assert forall j :: 0 <= j < i ==> !Free(o, c, c.queue[j]);
    FirstFreeIsServed(o, c, i, now);
    hide CanAcquire, Free, Passable, InReach;
  }

  lemma FirstFreeIsServed(o: Options, c: Sched, i: nat, now: int)
    requires Distinct(c.queue) && (forall k :: 0 <= k < |c.queue| ==> c.queue[k].id > 0) && i < |c.queue|
    requires c.sessions == [] && c.oneshot.None? && InReach(o, c, i) && forall j :: 0 <= j < i ==> !Free(o, c, c.queue[j])
    ensures exists k :: i <= k < |c.queue| && CanAcquire(o, c, c.queue[k], now)
    ensures i + 1 == |c.queue| || Old(c, i, now) ==> CanAcquire(o, c, c.queue[i], now)
  {
    hide CanAcquire, Free, Passable, SelectedIndex, IsSelection, WindowEnd, Eligible;
    ReachExactly(o, c, i);
    SelectedMeansPicked(o, c, now);
    var k := SelectedIndex(o, c, now);
    assert IsSelection(o, c, now, k);
    NextExactly(o, c, k, now);
    GrantedExactly(o, c, k, now);
    GrantedExactly(o, c, i, now);
  }

  // Re-checking under a moving clock. A wake-up makes every waiter re-check the same queue, but
  // each at its own time within some interval; crossing the aging mark wakes nobody.

  /** One checking time for every position of the queue. */
  predicate Within(at: seq<int>, n: nat, lo: int, hi: int) {
    |at| == n && forall i :: 0 <= i < n ==> lo <= at[i] <= hi
  }

  /** Some waiter finds itself selected when it checks. */
  predicate SomeoneTakes(o: Options, c: Sched, at: seq<int>)
    requires |at| == |c.queue|
  {
    exists i :: 0 <= i < |c.queue| && SelectedIndex(o, c, at[i]) == i
  }

  /** Every way of spreading the waiters' checks over the interval grants some transport. */
  ghost predicate NoLostWakeup(o: Options, c: Sched, lo: int, hi: int) {
    forall at: seq<int> :: Within(at, |c.queue|, lo, hi) ==> SomeoneTakes(o, c, at)
  }

  /** No request crosses the aging mark during the interval in a way that moves the selection.
      Either some eligible non-AKA request was aged before the interval and none ahead of it ages
      during it; or none was, and either an AKA request is waiting and none ages during it, or
      none is and whichever ages during it, the oldest eligible one has aged by then as well. */
  predicate Steady(o: Options, c: Sched, lo: int, hi: int) {
    var aged := FirstFit(o, c, lo, AgedOther, 0);
    if aged < |c.queue| then
      forall j :: 0 <= j < aged ==> !Fits(o, c, hi, AgedOther, c.queue[j])
    else if FirstFit(o, c, lo, Aka, 0) < |c.queue| then
      forall j :: 0 <= j < WindowEnd(o, c, 0) ==> !Fits(o, c, hi, AgedOther, c.queue[j])
    else
      var first := FirstFit(o, c, lo, Any, 0);
      forall j :: 0 <= j < WindowEnd(o, c, 0) && Fits(o, c, hi, AgedOther, c.queue[j]) ==>
        c.queue[first].enqueued <= c.queue[j].enqueued
  }

  lemma SteadyMeansConstant(o: Options, c: Sched, lo: int, hi: int, t: int)
    requires SelectedIndex(o, c, lo) < |c.queue|
    requires lo <= t <= hi && Steady(o, c, lo, hi)
    ensures SelectedIndex(o, c, t) == SelectedIndex(o, c, lo)
  {
    SelectedMeansPicked(o, c, lo);
    SelectedMeansPicked(o, c, t);
    var i, k := SelectedIndex(o, c, lo), SelectedIndex(o, c, t);
    assert Eligible(o, c, c.queue[i]);
    assert k < |c.queue|;
    forall p, j | 0 <= j < |c.queue| && Fits(o, c, t, p, c.queue[j]) ensures Fits(o, c, hi, p, c.queue[j]) {}
    forall p, j | 0 <= j < |c.queue| && Fits(o, c, lo, p, c.queue[j]) ensures Fits(o, c, t, p, c.queue[j]) {}
    var aged := FirstFit(o, c, lo, AgedOther, 0);
    if aged < |c.queue| {
      assert IsPick(o, c, t, AgedOther, i);
    } else if FirstFit(o, c, lo, Aka, 0) < |c.queue| {
      assert IsPick(o, c, t, Aka, i);
    } else {
      assert forall j :: 0 <= j < WindowEnd(o, c, 0) && Fits(o, c, t, AgedOther, c.queue[j]) ==> Fits(o, c, t, AgedOther, c.queue[i]);
      if Fits(o, c, t, AgedOther, c.queue[i]) {
        assert IsPick(o, c, t, AgedOther, i);
      } else {
        assert IsPick(o, c, t, Any, i);
      }
    }
    PickedIsUnique(o, c, t, i, k);
  }

  lemma UnsteadyMeansItMoves(o: Options, c: Sched, lo: int, hi: int) returns (t: int)
    requires SelectedIndex(o, c, lo) < |c.queue|
    requires lo <= hi && !Steady(o, c, lo, hi)
    ensures lo <= t <= hi && SelectedIndex(o, c, t) != SelectedIndex(o, c, lo)
  {
    var i := SelectedIndex(o, c, lo);
    SelectedMeansPicked(o, c, lo);
    t := hi;
    var aged := FirstFit(o, c, lo, AgedOther, 0);
    if aged == |c.queue| && FirstFit(o, c, lo, Aka, 0) == |c.queue| {
      var j :| 0 <= j < WindowEnd(o, c, 0) && Fits(o, c, hi, AgedOther, c.queue[j]) && c.queue[i].enqueued > c.queue[j].enqueued;
      assert !Fits(o, c, lo, AgedOther, c.queue[j]);
      t := c.queue[j].enqueued + TRANSPORT_PRIORITY_AGING;
      assert Fits(o, c, t, AgedOther, c.queue[j]) && !Fits(o, c, t, AgedOther, c.queue[i]);
      SelectedMeansPicked(o, c, t);
    }
  }

  /** The exact condition for re-checking without a lost wake-up, on every queue and interval
      with something to grant. */
  lemma WakeupIsKeptExactlyWhenSteady(o: Options, c: Sched, lo: int, hi: int)
    requires lo <= hi && SelectedIndex(o, c, lo) < |c.queue|
    ensures NoLostWakeup(o, c, lo, hi) <==> Steady(o, c, lo, hi)
  {
    var k := SelectedIndex(o, c, lo);
    if Steady(o, c, lo, hi) {
      forall at: seq<int> | Within(at, |c.queue|, lo, hi) ensures SomeoneTakes(o, c, at) {
        SteadyMeansConstant(o, c, lo, hi, at[k]);
      }
    } else {
      var t := UnsteadyMeansItMoves(o, c, lo, hi);
      // Whoever is selected at lo looks at t, everybody else at lo.
      var at := seq(|c.queue|, i => if i == k then t else lo);
      assert Within(at, |c.queue|, lo, hi) && !SomeoneTakes(o, c, at);
    }
  }
}
