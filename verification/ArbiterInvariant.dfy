/** Every step of the arbiter keeps its invariant. */
module ArbiterInvariant {
  import opened ArbiterModel
  import opened ArbiterRuns
  import Selection = ArbiterSelection

  /** NobodyMissed for everyone but the waiter that is in its critical section right now. */
  predicate OthersNotMissed(o: Options, s: State, id: nat) {
    && s.parked.Keys + {id} == Ids(s.c.queue)
    && forall i :: 0 <= i < |s.c.queue| && s.c.queue[i].id != id ==> NotMissed(o, s, s.c.queue[i])
  }

  predicate Apart(o: Options, s: State) {
    o.Normal() && Exclusion(o, s.c) && IdsApart(s) && Shaped(s) && Watched(s) && Balanced(s)
  }

  // ---- The shape of the active leases

  lemma OneKind(o: Options, c: Sched, t: LeaseType)
    requires Exclusion(o, c) && Active(c, t) != []
    ensures c.Leases() == Active(c, t)
    ensures forall u :: u != t ==> Active(c, u) == []
  {
    match t
    case Session => assert c.Leases() == c.sessions;
    case OneShot => assert c.Leases() == c.OneshotSeq();
    case Transport => assert c.Leases() == c.transports;
  }

  lemma GrantShape(o: Options, c: Sched, t: Ticket, now: int)
    requires Exclusion(o, c) && CanAcquireLease(o, c, t, now)
    ensures Active(c, t.kind.leaseType) == c.Leases()
    ensures AddLease(c, t).Leases() == c.Leases() + [t] == Active(AddLease(c, t), t.kind.leaseType)
  {
    var r := AddLease(c, t);
    match t.kind.leaseType
    case Session => assert c.Leases() == c.sessions && r.Leases() == r.sessions;
    case OneShot => assert c.Leases() == [] && r.Leases() == [t];
    case Transport => assert c.Leases() == c.transports && r.Leases() == r.transports;
  }

  lemma RemoveShape(o: Options, c: Sched, id: nat, t: LeaseType)
    requires Exclusion(o, c) && id in Ids(Active(c, t))
    ensures Active(c, t) == c.Leases()
    ensures RemoveLease(c, id, t).Leases() == Without(c.Leases(), id) == Active(RemoveLease(c, id, t), t)
  {
    hide Ids, Exclusion;
    NonemptyIds(Active(c, t), id);
    OneKind(o, c, t);
    assert Active(c, Session) == c.sessions && Active(c, Transport) == c.transports && Active(c, OneShot) == c.OneshotSeq();
    var r := RemoveLease(c, id, t);
    match t
    case Session => assert r.Leases() == r.sessions;
    case OneShot =>
      assert Find(c.OneshotSeq(), id) == 0;
      assert Without(c.OneshotSeq(), id) == [] && r.Leases() == [];
    case Transport => assert r.Leases() == r.transports;
  }

  // ---- Exclusion

  lemma GrantedIsEligible(o: Options, c: Sched, i: nat, now: int)
    requires i < |c.queue| && Distinct(c.queue) && AllWellFormed(c.queue)
    requires c.queue[i].IsTransport() && CanAcquireLease(o, c, c.queue[i], now)
    ensures Eligible(o, c, c.queue[i])
  {
    assert forall k :: 0 <= k < |c.queue| ==> c.queue[k] in c.queue;
    Selection.SelectionExact(o, c, now, i);
    var p :| Selection.IsPick(o, c, now, p, i);
  }

  lemma RoomForTransport(o: Options, c: Sched, t: Ticket)
    requires o.Normal() && Exclusion(o, c) && Eligible(o, c, t) && t.WellFormed()
    ensures HasExclusive(c.transports + [t]) ==> |c.transports + [t]| == 1
    ensures QmiCount(c.transports + [t]) <= o.maxQmiTransports
    ensures DistinctChannels(c.transports + [t])
  {
    QmiCountSplit(c.transports, [t]);
    assert [t][..0] == [];
    assert QmiCount([t]) <= 1;
  }

  lemma GrantLeaseExcludes(o: Options, c: Sched, i: nat, now: int)
    requires o.Normal() && Exclusion(o, c) && i < |c.queue|
    requires Distinct(c.queue) && AllWellFormed(c.queue) && CanAcquireLease(o, c, c.queue[i], now)
    ensures Exclusion(o, AddLease(c, c.queue[i]))
  {
    hide Ids, QmiCount, HasExclusive, DistinctChannels, ClassBlocked, PendingBarrierAhead, SelectedTransport, IsHead;
    var t := c.queue[i];
    var r := AddLease(c, t);
    GrantShape(o, c, t, now);
    forall x | x in r.Leases() ensures !ClassBlocked(r.barriers, x.cls) {
      assert x in c.Leases() || x == t;
    }
    if t.IsTransport() {
      GrantedIsEligible(o, c, i, now);
      RoomForTransport(o, c, t);
    }
  }

  lemma ExclusionIgnoresQueue(o: Options, c: Sched, queue: seq<Ticket>)
    requires Exclusion(o, c)
    ensures Exclusion(o, c.(queue := queue)) && c.(queue := queue).Leases() == c.Leases()
  {
  }

  lemma FewerTransports(o: Options, ts: seq<Ticket>, id: nat)
    requires Distinct(ts) && DistinctChannels(ts) && (HasExclusive(ts) ==> |ts| == 1)
    ensures DistinctChannels(Without(ts, id))
    ensures HasExclusive(Without(ts, id)) ==> |Without(ts, id)| == 1
  {
    hide Ids, Distinct;
    var k, r := Find(ts, id), Without(ts, id);
    assert forall i :: 0 <= i < |r| ==> r[i] == ts[if i < k then i else i + 1];
  }

  lemma FewerOfAKind(ts: seq<Ticket>, id: nat, t: LeaseType)
    requires AllKind(ts, t)
    ensures AllKind(Without(ts, id), t)
  {
    hide Ids;
    var k, r := Find(ts, id), Without(ts, id);
    assert forall i :: 0 <= i < |r| ==> r[i] == ts[if i < k then i else i + 1];
  }

  lemma RemoveExcludes(o: Options, c: Sched, id: nat, t: LeaseType)
    requires Exclusion(o, c) && id in Ids(Active(c, t)) && Distinct(c.Leases())
    ensures Exclusion(o, RemoveLease(c, id, t))
  {
    hide Find, Without, Ids, QmiCount, Distinct, DistinctChannels, HasExclusive, AllKind, ClassBlocked;
    RemoveShape(o, c, id, t);
    var ts, r := Active(c, t), RemoveLease(c, id, t);
    WithoutMembers(ts, id);
    WithoutDistinct(ts, id);
    FewerOfAKind(ts, id, t);
    if t.Transport? {
      FewerTransports(o, ts, id);
      QmiCountWithout(ts, id);
    } else if t.OneShot? {
      assert r.OneshotSeq() == [];
    }
    forall x | x in r.Leases() ensures !ClassBlocked(r.barriers, x.cls) {
      assert x in c.Leases();
    }
  }

  // ---- Grants

  lemma QueueIrrelevant(c: Sched, queue: seq<Ticket>)
    ensures c.(queue := queue).Leases() == c.Leases()
    ensures forall t :: Active(c.(queue := queue), t) == Active(c, t)
  {
  }

  lemma GrantedLeases(o: Options, s: State, t: Ticket, now: int)
    requires Exclusion(o, s.c) && CanAcquireLease(o, s.c, t, now)
    ensures t.kind.Lease?
    ensures Grant(o, s, t, now).c.Leases() == s.c.Leases() + [t] == Active(Grant(o, s, t, now).c, t.kind.leaseType)
    ensures Ids(Grant(o, s, t, now).c.Leases()) == Ids(s.c.Leases()) + {t.id}
  {
    hide Ids, Find, Without, Exclusion, AddLease, Active;
    GrantShape(o, s.c, t, now);
    QueueIrrelevant(AddLease(s.c, t), Without(s.c.queue, t.id));
    AppendFacts(s.c.Leases(), t);
  }

  lemma WatchedAfterGrant(o: Options, s: State, t: Ticket, now: int)
    requires Watched(s) && Exclusion(o, s.c) && o.Normal() && CanAcquireLease(o, s.c, t, now)
    ensures Watched(Grant(o, s, t, now))
  {
    hide Ids, Find, Without, CanAcquireLease, Exclusion, AddLease, Guarded, Active;
    GrantedLeases(o, s, t, now);
    var r := Grant(o, s, t, now);
    forall id | id in r.holds ensures Guarded(r.c, id, r.holds[id], r.callbacks) {
      if id == t.id {
        NewlyGuarded(o, r, t, now);
      } else {
        StillGuarded(o, s, r, t, id, now);
      }
    }
  }

  lemma StillGuarded(o: Options, s: State, r: State, t: Ticket, id: nat, now: int)
    requires Exclusion(o, s.c) && CanAcquireLease(o, s.c, t, now) && id in s.holds && id in r.holds
    requires Guarded(s.c, id, s.holds[id], s.callbacks)
    requires r.holds[id] == s.holds[id] && r.callbacks == s.callbacks && t.kind.Lease?
    requires Ids(s.c.Leases()) <= Ids(Active(r.c, t.kind.leaseType))
    ensures Guarded(r.c, id, r.holds[id], r.callbacks)
  {
    hide Ids, CanAcquireLease, Exclusion;
    NonemptyIds(Active(s.c, s.holds[id].leaseType), id);
    OneKind(o, s.c, s.holds[id].leaseType);
    SameKind(o, s.c, s.holds[id].leaseType, t, now);
  }

  lemma NewlyGuarded(o: Options, r: State, t: Ticket, now: int)
    requires t.kind.Lease? && t.id in Ids(Active(r.c, t.kind.leaseType))
    ensures Guarded(r.c, t.id, Hold(t.kind.leaseType, now, now + o.maxLeaseHold, true), r.callbacks)
  {
  }

  lemma NonemptyIds(ts: seq<Ticket>, id: nat)
    requires id in Ids(ts)
    ensures ts != []
  {
  }

  lemma SameKind(o: Options, c: Sched, u: LeaseType, t: Ticket, now: int)
    requires Exclusion(o, c) && CanAcquireLease(o, c, t, now) && Active(c, u) != []
    ensures u == t.kind.leaseType
  {
    OneKind(o, c, u);
    GrantShape(o, c, t, now);
  }

  lemma GrantLeaseKeepsApart(o: Options, s: State, i: nat, now: int)
    requires Apart(o, s) && i < |s.c.queue| && CanAcquireLease(o, s.c, s.c.queue[i], now)
    ensures Apart(o, Grant(o, s, s.c.queue[i], now))
  {
    hide Ids, Find, Without, Distinct, Exclusion, Watched, CanAcquireLease, AddLease;
    var t := s.c.queue[i];
    var r := Grant(o, s, t, now);
    assert t in s.c.queue;
    IdsOf(s.c.queue);
    WithoutFacts(s.c.queue, t.id);
    WithoutMembers(s.c.queue, t.id);
    GrantLeaseExcludes(o, s.c, i, now);
    assert t.kind.Lease? by { LeaseGranted(o, s.c, t, now); }
    ExclusionIgnoresQueue(o, AddLease(s.c, t), r.c.queue);
    GrantShape(o, s.c, t, now);
    AppendFacts(s.c.Leases(), t);
    WatchedAfterGrant(o, s, t, now);
    assert r.c.Leases() == s.c.Leases() + [t];
  }

  lemma LeaseGranted(o: Options, c: Sched, t: Ticket, now: int)
    requires CanAcquireLease(o, c, t, now)
    ensures t.kind.Lease?
  {
  }

  lemma GrantBarrierKeepsApart(o: Options, s: State, i: nat, now: int)
    requires Apart(o, s) && i < |s.c.queue| && CanAcquireBarrier(s.c, s.c.queue[i])
    ensures Apart(o, Grant(o, s, s.c.queue[i], now))
  {
    hide Ids, Find, Without, Distinct, QmiCount;
    var t := s.c.queue[i];
    var r := Grant(o, s, t, now);
    assert t in s.c.queue;
    IdsOf(s.c.queue);
    WithoutFacts(s.c.queue, t.id);
    WithoutMembers(s.c.queue, t.id);
    AppendFacts(s.c.barriers, t);
    assert r.c.Leases() == s.c.Leases() == [];
  }

  lemma GrantKeepsApart(o: Options, s: State, i: nat, now: int)
    requires Apart(o, s) && i < |s.c.queue| && CanAcquire(o, s.c, s.c.queue[i], now)
    ensures Apart(o, Grant(o, s, s.c.queue[i], now))
  {
    hide Apart, CanAcquireLease, CanAcquireBarrier, Grant;
    if CanAcquireLease(o, s.c, s.c.queue[i], now) {
      GrantLeaseKeepsApart(o, s, i, now);
    } else {
      GrantBarrierKeepsApart(o, s, i, now);
    }
  }

  /** After a signal nobody is parked on the current epoch. */
  lemma Rested(o: Options, s: State, r: State, id: nat)
    requires OthersNotMissed(o, s, id) && r.epoch == s.epoch + 1 && Distinct(s.c.queue)
    requires r.c.queue == Without(s.c.queue, id) && r.parked == s.parked - {id}
    ensures NobodyMissed(o, r)
  {
    hide Ids, Distinct, Without, CanAcquire;
    WithoutMembers(s.c.queue, id);
    WithoutFacts(s.c.queue, id);
    forall i | 0 <= i < |r.c.queue| ensures NotMissed(o, r, r.c.queue[i]) {
      var t := r.c.queue[i];
      assert t in r.c.queue;
      assert t in s.c.queue && t.id != id;
    }
  }

  lemma ParkedKeeps(o: Options, s: State, i: nat, now: int)
    requires i < |s.c.queue| && OthersNotMissed(o, s, s.c.queue[i].id) && Distinct(s.c.queue)
    requires !CanAcquire(o, s.c, s.c.queue[i], now)
    ensures NobodyMissed(o, Check(o, s, s.c.queue[i], now))
  {
    hide Ids, CanAcquire;
    var r := Check(o, s, s.c.queue[i], now);
    forall j | 0 <= j < |r.c.queue| ensures NotMissed(o, r, r.c.queue[j]) {
      assert j != i ==> r.c.queue[j].id != s.c.queue[i].id;
      assert j != i ==> NotMissed(o, s, s.c.queue[j]);
    }
  }

  lemma CheckKeeps(o: Options, s: State, i: nat, now: int)
    requires Apart(o, s) && i < |s.c.queue| && OthersNotMissed(o, s, s.c.queue[i].id)
    ensures Inv(o, Check(o, s, s.c.queue[i], now))
  {
    hide Ids, Distinct, SetsApart, Exclusion, NobodyMissed, OthersNotMissed, CanAcquire, Without, AddLease;
    var t := s.c.queue[i];
    var r := Check(o, s, t, now);
    if CanAcquire(o, s.c, t, now) {
      GrantKeepsApart(o, s, i, now);
      Rested(o, s, r, t.id);
    } else {
      ParkedKeeps(o, s, i, now);
    }
  }

  // ---- The other steps

  lemma EnqueueKeeps(o: Options, s: State, t: Ticket)
    requires Inv(o, s) && t.id in s.drawn && t.WellFormed()
    ensures Apart(o, Enqueue(s, t)) && OthersNotMissed(o, Enqueue(s, t), t.id)
    ensures Enqueue(s, t).c.queue[|s.c.queue|] == t
  {
    AppendFacts(s.c.queue, t);
    var r := Enqueue(s, t);
    hide Ids, Distinct, Exclusion, CanAcquire;
    ExclusionIgnoresQueue(o, s.c, r.c.queue);
    forall i | 0 <= i < |r.c.queue| && r.c.queue[i].id != t.id ensures NotMissed(o, r, r.c.queue[i]) {
      assert r.c.queue[i] == s.c.queue[i];
    }
  }

  lemma WithdrawKeeps(o: Options, s: State, id: nat)
    requires Inv(o, s)
    ensures Inv(o, Withdraw(s, id))
  {
    hide Ids, Distinct, Exclusion, NotMissed, Find, Without, Guarded;
    if id in Ids(s.c.queue) {
      var r := Withdraw(s, id);
      WithoutFacts(s.c.queue, id);
      WithoutMembers(s.c.queue, id);
      ExclusionIgnoresQueue(o, s.c, r.c.queue);
      forall x | x in r.holds ensures Guarded(r.c, x, r.holds[x], r.callbacks) {
        GuardedIgnoresQueue(o, s, r, x);
      }
      Rested(o, s, r, id);
    }
  }

  lemma GuardedIgnoresQueue(o: Options, s: State, r: State, x: nat)
    requires x in s.holds && Guarded(s.c, x, s.holds[x], s.callbacks)
    requires r.holds == s.holds && r.callbacks == s.callbacks && forall t :: Active(r.c, t) == Active(s.c, t)
    ensures Guarded(r.c, x, r.holds[x], r.callbacks)
  {
  }

  lemma QuietSignal(o: Options, s: State, r: State)
    requires NobodyMissed(o, s) && r.c.queue == s.c.queue && r.parked == s.parked && r.epoch == s.epoch + 1
    ensures NobodyMissed(o, r)
  {
    hide Ids, CanAcquire;
    forall i | 0 <= i < |r.c.queue| ensures NotMissed(o, r, r.c.queue[i]) {
      assert NotMissed(o, s, s.c.queue[i]);
    }
  }

  lemma WatchedAfterEnd(o: Options, s: State, id: nat, t: LeaseType)
    requires Watched(s) && Exclusion(o, s.c) && Distinct(s.c.Leases()) && id in Ids(Active(s.c, t))
    ensures Watched(EndLease(s, id, t))
  {
    hide Ids, Find, Without, Exclusion, Active, RemoveLease, Guarded;
    var r := EndLease(s, id, t);
    RemoveShape(o, s.c, id, t);
    WithoutFacts(s.c.Leases(), id);
    NonemptyIds(Active(s.c, t), id);
    forall x | x in r.holds ensures Guarded(r.c, x, r.holds[x], r.callbacks) {
      GuardedWhenOtherEnds(o, s, r, t, x);
    }
  }

  lemma GuardedWhenOtherEnds(o: Options, s: State, r: State, t: LeaseType, x: nat)
    requires Exclusion(o, s.c) && Active(s.c, t) != [] && x in s.holds && x in r.holds
    requires Guarded(s.c, x, s.holds[x], s.callbacks)
    requires r.holds[x] == s.holds[x] && r.callbacks == s.callbacks && x in Ids(Active(r.c, t))
    ensures Guarded(r.c, x, r.holds[x], r.callbacks)
  {
    hide Ids, Exclusion, Active;
    NonemptyIds(Active(s.c, s.holds[x].leaseType), x);
    OneKind(o, s.c, t);
  }

  lemma EndLeaseKeeps(o: Options, s: State, id: nat, t: LeaseType)
    requires Inv(o, s) && id in Ids(Active(s.c, t))
    ensures Inv(o, EndLease(s, id, t))
  {
    hide Ids, Distinct, Exclusion, NobodyMissed, Find, Without, Watched, Active, RemoveLease;
    var r := EndLease(s, id, t);
    RemoveShape(o, s.c, id, t);
    RemoveExcludes(o, s.c, id, t);
    WithoutFacts(s.c.Leases(), id);
    WithoutMembers(s.c.Leases(), id);
    WatchedAfterEnd(o, s, id, t);
    QuietSignal(o, s, r);
  }

  lemma FewerBarriersExclude(o: Options, c: Sched, id: nat)
    requires Exclusion(o, c) && Distinct(c.barriers)
    ensures Exclusion(o, c.(barriers := Without(c.barriers, id)))
  {
    var r := c.(barriers := Without(c.barriers, id));
    WithoutMembers(c.barriers, id);
    assert r.Leases() == c.Leases();
    forall i | 0 <= i < |r.barriers| ensures r.barriers[i].kind.Barrier? {
      assert r.barriers[i] in r.barriers;
      assert r.barriers[i] in c.barriers;
    }
    forall t | t in r.Leases() ensures !ClassBlocked(r.barriers, t.cls) {
      forall i | 0 <= i < |r.barriers| ensures !r.barriers[i].Blocks(t.cls) {
        assert r.barriers[i] in r.barriers;
        assert r.barriers[i] in c.barriers;
      }
    }
  }

  lemma LeaveBarrierKeeps(o: Options, s: State, id: nat)
    requires Inv(o, s)
    ensures Inv(o, DoLeaveBarrier(s, id))
  {
    hide Ids, Distinct, Exclusion, NobodyMissed, Find, Without, Guarded;
    if id in Ids(s.c.barriers) {
      var r := DoLeaveBarrier(s, id);
      WithoutFacts(s.c.barriers, id);
      FewerBarriersExclude(o, s.c, id);
      assert r.c.Leases() == s.c.Leases();
      forall x | x in r.holds ensures Guarded(r.c, x, r.holds[x], r.callbacks) {
        GuardedIgnoresQueue(o, s, r, x);
      }
      QuietSignal(o, s, r);
    }
  }

  lemma ClockKeeps(o: Options, s: State, r: State)
    requires Inv(o, s) && Watched(r)
    requires r.c == s.c && r.drawn == s.drawn && r.seqNo == s.seqNo && r.epoch == s.epoch && r.parked == s.parked
    requires r.stats == s.stats.(forcedReleases := r.stats.forcedReleases)
    ensures Inv(o, r)
  {
    hide Ids, Distinct, SetsApart, CanAcquire, Exclusion, Watched, AllWellFormed;
    forall i | 0 <= i < |r.c.queue| ensures NotMissed(o, r, r.c.queue[i]) {
      assert NotMissed(o, s, s.c.queue[i]);
    }
  }

  lemma TouchKeeps(o: Options, s: State, id: nat, t: LeaseType, now: int)
    requires Inv(o, s)
    ensures Inv(o, DoTouch(o, s, id, t, now))
  {
    hide Ids, IdsApart, NobodyMissed, Shaped, Exclusion;
    var r := DoTouch(o, s, id, t, now);
    forall x | x in r.holds ensures Guarded(r.c, x, r.holds[x], r.callbacks) {
      assert Guarded(s.c, x, s.holds[x], s.callbacks);
    }
    ClockKeeps(o, s, r);
  }

  lemma FireKeeps(o: Options, s: State, id: nat, now: int)
    requires Inv(o, s) && Enabled(s, Fire(id), now)
    ensures Inv(o, Step(o, s, Fire(id), now))
  {
    hide Ids, IdsApart, NobodyMissed, Shaped, Exclusion;
    var r := Step(o, s, Fire(id), now);
    forall x | x in r.holds ensures Guarded(r.c, x, r.holds[x], r.callbacks) {
      assert Guarded(s.c, x, s.holds[x], s.callbacks);
    }
    ClockKeeps(o, s, r);
  }

  /** A callback that runs leaves every other lease's watchdog as it was. */
  lemma CallbackSpent(o: Options, s: State, id: nat, t: LeaseType, x: nat)
    requires Watched(s) && Exclusion(o, s.c) && x in s.holds
    requires x != id || id !in Ids(Active(s.c, t))
    ensures Guarded(s.c, x, s.holds[x], s.callbacks - multiset{(id, t)})
  {
    assert Guarded(s.c, x, s.holds[x], s.callbacks);
    assert (x, s.holds[x].leaseType) != (id, t);
  }

  lemma IdleCallbackKeeps(o: Options, s: State, id: nat, t: LeaseType, r: State)
    requires Inv(o, s) && id !in Ids(Active(s.c, t)) && r == s.(callbacks := s.callbacks - multiset{(id, t)})
    ensures Inv(o, r)
  {
    hide Ids, IdsApart, NobodyMissed, Shaped, Exclusion, Guarded, Active;
    forall x | x in s.holds ensures Guarded(r.c, x, r.holds[x], r.callbacks) {
      CallbackSpent(o, s, id, t, x);
    }
    ClockKeeps(o, s, r);
  }

  lemma RearmKeeps(o: Options, s: State, id: nat, t: LeaseType, r: State)
    requires Inv(o, s) && id in Ids(Active(s.c, t)) && id in s.holds
    requires r == s.(callbacks := s.callbacks - multiset{(id, t)}, holds := s.holds[id := s.holds[id].(armed := true)])
    ensures Inv(o, r)
  {
    hide Ids, IdsApart, NobodyMissed, Shaped, Exclusion, Active;
    forall x | x in r.holds ensures Guarded(r.c, x, r.holds[x], r.callbacks) {
      if x != id {
        CallbackSpent(o, s, id, t, x);
      } else {
        assert Guarded(s.c, id, s.holds[id], s.callbacks);
      }
    }
    ClockKeeps(o, s, r);
  }

  lemma ExpireKeeps(o: Options, s: State, id: nat, t: LeaseType, now: int)
    requires Inv(o, s)
    ensures Inv(o, DoExpire(s, id, t, now))
  {
    hide Ids, IdsApart, NobodyMissed, Shaped, Exclusion, Active, Guarded;
    var r := DoExpire(s, id, t, now);
    if id !in Ids(Active(s.c, t)) {
      IdleCallbackKeeps(o, s, id, t, r);
    } else {
      NonemptyIds(Active(s.c, t), id);
      OneKind(o, s.c, t);
      if s.holds[id].expiresAt - now > 0 {
        RearmKeeps(o, s, id, t, r);
      } else {
        ForcedEndKeeps(o, s, id, t, r);
      }
    }
  }

  lemma ForcedEndKeeps(o: Options, s: State, id: nat, t: LeaseType, r: State)
    requires Inv(o, s) && id in Ids(Active(s.c, t))
    requires var e := EndLease(s, id, t);
      r == e.(callbacks := s.callbacks - multiset{(id, t)}, stats := e.stats.(forcedReleases := e.stats.forcedReleases + 1))
    ensures Inv(o, r)
  {
    hide Ids, IdsApart, NobodyMissed, Shaped, Exclusion, Active, RemoveLease;
    EndLeaseKeeps(o, s, id, t);
    var e := EndLease(s, id, t);
    forall x | x in r.holds ensures Guarded(r.c, x, r.holds[x], r.callbacks) {
      assert Guarded(e.c, x, e.holds[x], e.callbacks);
      assert (x, e.holds[x].leaseType) != (id, t);
    }
    ClockKeeps(o, e, r);
  }

  lemma DrawKeeps(o: Options, s: State)
    requires Inv(o, s)
    ensures Inv(o, s.(seqNo := s.seqNo + 1, drawn := s.drawn + {s.seqNo + 1}))
  {
    hide Ids, Distinct, Exclusion, CanAcquire, Guarded, AllWellFormed;
    var r := s.(seqNo := s.seqNo + 1, drawn := s.drawn + {s.seqNo + 1});
    forall i | 0 <= i < |r.c.queue| ensures NotMissed(o, r, r.c.queue[i]) {
      assert NotMissed(o, s, s.c.queue[i]);
    }
  }

  lemma WakeKeeps(o: Options, s: State, id: nat, now: int)
    requires Inv(o, s) && Enabled(s, Wake(id), now)
    ensures Inv(o, Step(o, s, Wake(id), now))
  {
    hide CanAcquire, Exclusion, IdsApart, Shaped, Watched, Balanced, NotMissed, Ids, Check;
    CheckKeeps(o, s, Find(s.c.queue, id), now);
  }

  /** Every enabled step keeps the invariant. */
  lemma StepKeeps(o: Options, s: State, e: Event, now: int)
    requires Inv(o, s) && Enabled(s, e, now)
    ensures Inv(o, Step(o, s, e, now))
  {
    hide CanAcquire, Exclusion, IdsApart, Shaped, Watched, Balanced, NotMissed, Ids, Grant, EndLease, Without;
    match e
    case Draw => DrawKeeps(o, s);
    case Arrive(t) =>
      EnqueueKeeps(o, s, t);
      CheckKeeps(o, Enqueue(s, t), |s.c.queue|, now);
    case Wake(id) => WakeKeeps(o, s, id, now);
    case GiveUp(id) => WithdrawKeeps(o, s, id);
    case Touch(id, t) => TouchKeeps(o, s, id, t, now);
    case Release(id, t) => if id in Ids(Active(s.c, t)) { EndLeaseKeeps(o, s, id, t); }
    case Fire(id) => FireKeeps(o, s, id, now);
    case Expire(id, t) => ExpireKeeps(o, s, id, t, now);
    case LeaveBarrier(id) => LeaveBarrierKeeps(o, s, id);
  }
}
