/** What holds over whole runs of the arbiter, whoever goes next and however long it runs. */
module ArbiterTheorems {
  import opened Wrappers
  import opened ArbiterModel
  import opened ArbiterRuns
  import Invariant = ArbiterInvariant
  import Selection = ArbiterSelection

  datatype Run = Run(states: seq<State>, events: seq<Event>, times: seq<int>)

  predicate Follows(o: Options, r: Run, i: nat)
    requires |r.states| == |r.events| + 1 == |r.times| + 1 && i < |r.events|
  {
    Enabled(r.states[i], r.events[i], r.times[i]) && r.states[i + 1] == Step(o, r.states[i], r.events[i], r.times[i])
  }

  /** A run from the empty arbiter, under a clock that does not go back. */
  predicate IsRun(o: Options, r: Run) {
    && o.Normal()
    && |r.states| == |r.events| + 1 == |r.times| + 1
    && r.states[0] == INIT
    && (forall i :: 0 <= i < |r.events| ==> Follows(o, r, i))
    && (forall i, j :: 0 <= i <= j < |r.times| ==> r.times[i] <= r.times[j])
  }

  lemma InitHolds(o: Options)
    requires o.Normal()
    ensures Inv(o, INIT)
  {
  }

  lemma {:induction false} Always(o: Options, r: Run, i: nat)
    requires IsRun(o, r) && i < |r.states|
    ensures Inv(o, r.states[i])
  {
    hide Inv, Step, Enabled;
    if i == 0 {
      InitHolds(o);
    } else {
      Always(o, r, i - 1);
      assert Follows(o, r, i - 1);
      Invariant.StepKeeps(o, r.states[i - 1], r.events[i - 1], r.times[i - 1]);
    }
  }

  // ---- Exclusion

  lemma {:induction false} AllQmi(ts: seq<Ticket>)
    requires !HasExclusive(ts)
    ensures QmiCount(ts) == |ts|
  {
    if ts != [] {
      AllQmi(ts[..|ts| - 1]);
    }
  }

  /** What exclusion means for the active leases, the transports and the barriers. */
  predicate LeasesExclude(o: Options, c: Sched) {
    && (c.oneshot.Some? ==> c.Leases() == [c.oneshot.value])
    && (c.sessions != [] ==> c.Leases() == c.sessions && |c.sessions| <= o.maxSessions)
    && (c.transports != [] ==> c.Leases() == c.transports)
  }

  predicate TransportsExclude(o: Options, ts: seq<Ticket>) {
    && (HasExclusive(ts) ==> |ts| == 1)
    && (!HasExclusive(ts) ==>
         && |ts| <= o.maxQmiTransports
         && (forall k :: 0 <= k < |ts| ==> ts[k].channel > 0)
         && (forall k, l :: 0 <= k < l < |ts| ==> ts[k].channel != ts[l].channel))
  }

  lemma TransportsApart(o: Options, c: Sched)
    requires Exclusion(o, c) && AllWellFormed(c.Leases())
    ensures TransportsExclude(o, c.transports)
  {
    if !HasExclusive(c.transports) {
      AllQmi(c.transports);
      hide ClassBlocked, QmiCount, AllKind;
      forall k | 0 <= k < |c.transports| ensures c.transports[k].channel > 0 && c.transports[k].scope.QmiChannel? {
        assert c.transports[k] in c.Leases();
      }
    }
  }

  lemma BarriersApart(o: Options, c: Sched, t: Ticket, b: Ticket)
    requires Exclusion(o, c) && t in c.Leases() && b in c.barriers
    ensures !b.Blocks(t.cls)
  {
    var k :| 0 <= k < |c.barriers| && c.barriers[k] == b;
    assert !ClassBlocked(c.barriers, t.cls);
  }

  /** In every reachable state the active leases are one one-shot, or at most MaxSessions sessions,
      or one exclusive transport, or at most MaxQMITransports channel transports on different
      positive channels; and no active barrier blocks the class of an active lease. */
  lemma ExclusionInEveryState(o: Options, r: Run, i: nat)
    requires IsRun(o, r) && i < |r.states|
    ensures LeasesExclude(o, r.states[i].c) && TransportsExclude(o, r.states[i].c.transports)
    ensures forall t, b :: t in r.states[i].c.Leases() && b in r.states[i].c.barriers ==> !b.Blocks(t.cls)
  {
    Always(o, r, i);
    var c := r.states[i].c;
    hide Exclusion, IdsApart, NobodyMissed, Watched, Balanced, AllWellFormed, TransportsExclude;
    assert Active(c, Session) == c.sessions && Active(c, Transport) == c.transports && Active(c, OneShot) == c.OneshotSeq();
    if c.oneshot.Some? { Invariant.OneKind(o, c, OneShot); }
    if c.sessions != [] { Invariant.OneKind(o, c, Session); }
    if c.transports != [] { Invariant.OneKind(o, c, Transport); }
    assert |c.sessions| <= o.maxSessions by { SessionLimit(o, c); }
    TransportsApart(o, c);
    forall t, b | t in c.Leases() && b in c.barriers ensures !b.Blocks(t.cls) {
      BarriersApart(o, c, t, b);
    }
  }

  lemma SessionLimit(o: Options, c: Sched)
    requires Exclusion(o, c)
    ensures |c.sessions| <= o.maxSessions
  {
  }

  /** Every request ever queued was granted, gave up, or is still queued. */
  lemma EveryRequestIsAccountedFor(o: Options, r: Run, i: nat)
    requires IsRun(o, r) && i < |r.states|
    ensures var s := r.states[i]; s.stats.waitRequests == s.stats.acquires + s.stats.waitTimeouts + |s.c.queue|
  {
    Always(o, r, i);
  }

  // ---- The life of one request

  /** Where the request with this id stands: 0 not drawn, 1 drawn, 2 queued, 3 active, 4 over. */
  function Stage(s: State, id: nat): nat {
    if id == 0 || id > s.seqNo then 0
    else if id in s.drawn then 1
    else if id in Ids(s.c.queue) then 2
    else if id in Ids(s.c.Leases()) || id in Ids(s.c.barriers) then 3
    else 4
  }

  /** What one step does to the places ids can be in. */
  lemma CheckMoves(o: Options, s: State, i: nat, now: int)
    requires Invariant.Apart(o, s) && i < |s.c.queue|
    ensures var t, n := s.c.queue[i], Check(o, s, s.c.queue[i], now).c;
      if !CanAcquire(o, s.c, t, now) then n == s.c
      else
        && n.queue == Without(s.c.queue, t.id)
        && Ids(n.queue) == Ids(s.c.queue) - {t.id}
        && (CanAcquireLease(o, s.c, t, now) ==>
             n.Leases() == s.c.Leases() + [t] && Ids(n.Leases()) == Ids(s.c.Leases()) + {t.id} && n.barriers == s.c.barriers)
        && (!CanAcquireLease(o, s.c, t, now) ==>
             n.Leases() == s.c.Leases() && Ids(n.barriers) == Ids(s.c.barriers) + {t.id})
  {
    hide Ids, Find, Without, Distinct, Exclusion, CanAcquireLease, CanAcquireBarrier, AddLease;
    var t := s.c.queue[i];
    if CanAcquire(o, s.c, t, now) {
      WithoutFacts(s.c.queue, t.id);
      if CanAcquireLease(o, s.c, t, now) {
        Invariant.GrantedLeases(o, s, t, now);
      } else {
        BarrierGranted(s.c, t);
        AppendFacts(s.c.barriers, t);
      }
    }
  }

  lemma BarrierGranted(c: Sched, t: Ticket)
    requires CanAcquireBarrier(c, t)
    ensures t.kind.Barrier?
  {
  }

  lemma EndMoves(o: Options, s: State, id: nat, t: LeaseType)
    requires Inv(o, s) && id in Ids(Active(s.c, t))
    ensures var n := EndLease(s, id, t).c;
      && n.queue == s.c.queue && n.barriers == s.c.barriers
      && id in Ids(s.c.Leases()) && Ids(n.Leases()) == Ids(s.c.Leases()) - {id} && |n.Leases()| == |s.c.Leases()| - 1
  {
    hide Ids, Find, Without, Distinct, Exclusion, Active, RemoveLease;
    Invariant.RemoveShape(o, s.c, id, t);
    WithoutFacts(s.c.Leases(), id);
  }

  /** What a step may do to the places: draw, queue, grant, or end one id, or nothing. */
  datatype Move = Nothing | Drew | Queued(id: nat) | QueuedAndGranted(id: nat) | Granted(id: nat) | Ended(id: nat)

  predicate Moved(s: State, n: State, m: Move) {
    var q, a, d := Ids(s.c.queue), Ids(s.c.Leases()) + Ids(s.c.barriers), s.drawn;
    var q', a', d' := Ids(n.c.queue), Ids(n.c.Leases()) + Ids(n.c.barriers), n.drawn;
    match m
    case Nothing => q' == q && a' == a && d' == d && n.seqNo == s.seqNo
    case Drew => q' == q && a' == a && d' == d + {s.seqNo + 1} && n.seqNo == s.seqNo + 1
    case Queued(id) => id in d && q' == q + {id} && a' == a && d' == d - {id} && n.seqNo == s.seqNo
    case QueuedAndGranted(id) => id in d && q' == q && a' == a + {id} && d' == d - {id} && n.seqNo == s.seqNo
    case Granted(id) => id in q && q' == q - {id} && a' == a + {id} && d' == d && n.seqNo == s.seqNo
    case Ended(id) => (id in q || id in a) && q' == q - {id} && a' == a - {id} && d' == d && n.seqNo == s.seqNo
  }

  function MoveOf(o: Options, s: State, e: Event, now: int): Move {
    match e
    case Draw => Drew
    case Arrive(t) => if CanAcquire(o, Enqueue(s, t).c, t, now) then QueuedAndGranted(t.id) else Queued(t.id)
    case Wake(id) =>
      var k := Find(s.c.queue, id);
      if k < |s.c.queue| && CanAcquire(o, s.c, s.c.queue[k], now) then Granted(id) else Nothing
    case GiveUp(id) => if id in Ids(s.c.queue) then Ended(id) else Nothing
    case Release(id, t) => if id in Ids(Active(s.c, t)) then Ended(id) else Nothing
    case Expire(id, t) =>
      if id in Ids(Active(s.c, t)) && id in s.holds && s.holds[id].expiresAt <= now then Ended(id) else Nothing
    case LeaveBarrier(id) => if id in Ids(s.c.barriers) then Ended(id) else Nothing
    case _ => Nothing
  }

  lemma ArriveMoves(o: Options, s: State, t: Ticket, now: int)
    requires Inv(o, s) && t.id in s.drawn && t.WellFormed()
    ensures Moved(s, Check(o, Enqueue(s, t), t, now), MoveOf(o, s, Arrive(t), now))
  {
    hide Ids, Find, Distinct, Exclusion, CanAcquire, CanAcquireLease, Grant, Without;
    Invariant.EnqueueKeeps(o, s, t);
    AppendFacts(s.c.queue, t);
    CheckMoves(o, Enqueue(s, t), |s.c.queue|, now);
    assert t.id !in Ids(s.c.queue);
    Invariant.QueueIrrelevant(s.c, Enqueue(s, t).c.queue);
    CheckKeepsDraws(o, Enqueue(s, t), t, now);
  }

  lemma CheckKeepsDraws(o: Options, s: State, t: Ticket, now: int)
    ensures Check(o, s, t, now).drawn == s.drawn && Check(o, s, t, now).seqNo == s.seqNo
  {
  }

  lemma WakeMoves(o: Options, s: State, id: nat, now: int)
    requires Inv(o, s)
    ensures Moved(s, Step(o, s, Wake(id), now), MoveOf(o, s, Wake(id), now))
  {
    hide Ids, Distinct, Exclusion, CanAcquire, CanAcquireLease, Grant, Without;
    var k := Find(s.c.queue, id);
    if k < |s.c.queue| {
      CheckMoves(o, s, k, now);
      CheckKeepsDraws(o, s, s.c.queue[k], now);
    }
  }

  lemma ExpireMoves(o: Options, s: State, id: nat, t: LeaseType, now: int)
    requires Inv(o, s)
    ensures Moved(s, DoExpire(s, id, t, now), MoveOf(o, s, Expire(id, t), now))
  {
    hide Ids, IdsApart, Exclusion, NobodyMissed, Shaped, Active, RemoveLease, Watched, Balanced;
    var called := s.(callbacks := s.callbacks - multiset{(id, t)});
    var n := DoExpire(s, id, t, now);
    if id in Ids(Active(s.c, t)) && id in s.holds && s.holds[id].expiresAt <= now {
      EndMoves(o, s, id, t);
      EndKeepsApart(o, s, id, t);
      assert n.c == EndLease(s, id, t).c;
    } else {
      assert n.c == s.c;
    }
  }

  /** The id of an ended lease was nowhere else. */
  lemma EndKeepsApart(o: Options, s: State, id: nat, t: LeaseType)
    requires Inv(o, s) && id in Ids(Active(s.c, t))
    ensures id !in Ids(s.c.queue) && id !in Ids(s.c.barriers) && id in Ids(s.c.Leases())
  {
    hide Ids, Distinct, Exclusion, Active;
    Invariant.RemoveShape(o, s.c, id, t);
  }

  lemma GiveUpMoves(o: Options, s: State, id: nat)
    requires Inv(o, s)
    ensures Moved(s, Withdraw(s, id), MoveOf(o, s, GiveUp(id), 0))
  {
    hide Ids, Distinct, Exclusion, Without, NobodyMissed;
    WithoutFacts(s.c.queue, id);
    Invariant.QueueIrrelevant(s.c, Without(s.c.queue, id));
  }

  lemma LeaveMoves(o: Options, s: State, id: nat)
    requires Inv(o, s)
    ensures Moved(s, DoLeaveBarrier(s, id), MoveOf(o, s, LeaveBarrier(id), 0))
  {
    hide Ids, Distinct, Exclusion, Without, NobodyMissed;
    WithoutFacts(s.c.barriers, id);
    assert DoLeaveBarrier(s, id).c.Leases() == s.c.Leases();
  }

  lemma ReleaseMoves(o: Options, s: State, id: nat, t: LeaseType)
    requires Inv(o, s)
    ensures Moved(s, DoRelease(s, id, t), MoveOf(o, s, Release(id, t), 0))
  {
    hide Ids, Exclusion, IdsApart, NobodyMissed, Active, RemoveLease;
    if id in Ids(Active(s.c, t)) {
      EndMoves(o, s, id, t);
      EndKeepsApart(o, s, id, t);
    }
  }

  lemma StepMoves(o: Options, s: State, e: Event, now: int)
    requires Inv(o, s) && Enabled(s, e, now)
    ensures Moved(s, Step(o, s, e, now), MoveOf(o, s, e, now))
  {
    hide Ids, Inv, CanAcquire, DoExpire, DoRelease, Withdraw, DoLeaveBarrier, Check, Enqueue;
    match e
    case Arrive(t) => ArriveMoves(o, s, t, now);
    case Wake(id) => WakeMoves(o, s, id, now);
    case GiveUp(id) => GiveUpMoves(o, s, id);
    case Release(id, t) => ReleaseMoves(o, s, id, t);
    case Expire(id, t) => ExpireMoves(o, s, id, t, now);
    case LeaveBarrier(id) => LeaveMoves(o, s, id);
    case _ =>
  }

  lemma StageOfMove(o: Options, s: State, n: State, m: Move, id: nat)
    requires IdsApart(s) && Moved(s, n, m)
    ensures Stage(s, id) <= Stage(n, id)
    ensures Stage(s, id) == 3 && Stage(n, id) == 4 ==> m == Ended(id)
  {
    hide Ids, Distinct;
    assert id in Ids(s.c.Leases()) + Ids(s.c.barriers) <==> id in Ids(s.c.Leases()) || id in Ids(s.c.barriers);
    assert id in Ids(n.c.Leases()) + Ids(n.c.barriers) <==> id in Ids(n.c.Leases()) || id in Ids(n.c.barriers);
  }

  lemma StageRises(o: Options, s: State, e: Event, now: int, id: nat)
    requires Inv(o, s) && Enabled(s, e, now)
    ensures Stage(s, id) <= Stage(Step(o, s, e, now), id)
    ensures Stage(s, id) == 3 && Stage(Step(o, s, e, now), id) == 4 ==> MoveOf(o, s, e, now) == Ended(id)
  {
    hide Ids, Step, MoveOf, Distinct, Exclusion, NobodyMissed, Watched, Shaped;
    StepMoves(o, s, e, now);
    StageOfMove(o, s, Step(o, s, e, now), MoveOf(o, s, e, now), id);
  }

  /** A request only ever moves forward, so what has been granted leaves the active set at most once. */
  lemma {:induction false} StagesOnlyRise(o: Options, r: Run, i: nat, j: nat, id: nat)
    requires IsRun(o, r) && i <= j < |r.states|
    ensures Stage(r.states[i], id) <= Stage(r.states[j], id)
    decreases j
  {
    hide Stage, Step, Enabled, Inv;
    if i < j {
      StagesOnlyRise(o, r, i, j - 1, id);
      Always(o, r, j - 1);
      assert Follows(o, r, j - 1);
      StageRises(o, r.states[j - 1], r.events[j - 1], r.times[j - 1], id);
    }
  }

  /** The call ends the active lease or barrier that it names: the lease's own release, the barrier's own
      release, or the lease's own watchdog callback at or past the deadline. */
  predicate EndsIt(s: State, e: Event, now: int, id: nat) {
    match e
    case Release(i, t) => i == id && exists l :: l in s.c.Leases() && l.id == id && l.kind == Lease(t)
    case Expire(i, t) =>
      && i == id && (exists l :: l in s.c.Leases() && l.id == id && l.kind == Lease(t))
      && id in s.holds && s.holds[id].expiresAt <= now
    case LeaveBarrier(i) => i == id && exists b :: b in s.c.barriers && b.id == id
    case _ => false
  }

  /** An active lease or barrier is ended by exactly these calls, whatever else happens. */
  lemma OnlyItsOwnCallsEndIt(o: Options, s: State, e: Event, now: int, id: nat)
    requires Inv(o, s) && Enabled(s, e, now) && Stage(s, id) == 3
    ensures Stage(Step(o, s, e, now), id) != 3 <==> EndsIt(s, e, now, id)
  {
    hide Stage, Step, Inv, Enabled, MoveOf;
    StepMoves(o, s, e, now);
    EndsExactly(o, s, e, now, id);
    StageExactly(o, s, Step(o, s, e, now), MoveOf(o, s, e, now), id);
  }

  lemma StageExactly(o: Options, s: State, n: State, m: Move, id: nat)
    requires Inv(o, s) && Moved(s, n, m) && Stage(s, id) == 3
    ensures Stage(n, id) != 3 <==> m == Ended(id)
  {
    hide Ids, Distinct, Exclusion, NobodyMissed, Watched, Shaped, Balanced;
    assert id in Ids(s.c.Leases()) + Ids(s.c.barriers) <==> id in Ids(s.c.Leases()) || id in Ids(s.c.barriers);
    assert id in Ids(n.c.Leases()) + Ids(n.c.barriers) <==> id in Ids(n.c.Leases()) || id in Ids(n.c.barriers);
  }

  lemma EndsExactly(o: Options, s: State, e: Event, now: int, id: nat)
    requires Inv(o, s) && Stage(s, id) == 3
    ensures MoveOf(o, s, e, now) == Ended(id) <==> EndsIt(s, e, now, id)
  {
    hide Ids, Inv, Stage, CanAcquire, Enqueue, Find, Active;
    QueuedIsNotActive(o, s, id);
    IdsOf(s.c.barriers);
    if e.Release? || e.Expire? { ActiveByKind(o, s, id, e.leaseType); }
  }

  lemma ActiveByKind(o: Options, s: State, id: nat, t: LeaseType)
    requires Inv(o, s)
    ensures id in Ids(Active(s.c, t)) <==> exists l :: l in s.c.Leases() && l.id == id && l.kind == Lease(t)
  {
    assert Exclusion(o, s.c);
    IdsOf(Active(s.c, t));
    hide Ids, IdsApart, NobodyMissed, Watched, Shaped, Balanced, QmiCount, DistinctChannels, ClassBlocked;
    forall l | l in s.c.Leases() ensures l.kind == Lease(t) <==> l in Active(s.c, t) {
      assert l in s.c.sessions || l in s.c.OneshotSeq() || l in s.c.transports;
    }
  }

  lemma StageAtMost4(s: State, id: nat)
    ensures Stage(s, id) <= 4
  {
  }

  lemma QueuedIsNotActive(o: Options, s: State, id: nat)
    requires Inv(o, s) && Stage(s, id) == 3
    ensures id !in Ids(s.c.queue)
  {
  }

  /** Queued, active, or a barrier. */
  predicate Present(c: Sched, t: Ticket) { t in c.queue || t in c.Leases() || t in c.barriers }

  lemma WithoutIsPart(ts: seq<Ticket>, id: nat, t: Ticket)
    requires t in Without(ts, id)
    ensures t in ts
  {
  }

  lemma RemovedIsPart(c: Sched, id: nat, k: LeaseType, t: Ticket)
    requires t in RemoveLease(c, id, k).Leases()
    ensures t in c.Leases()
  {
    hide Without;
    if t in Without(c.sessions, id) { WithoutIsPart(c.sessions, id, t); }
    if t in Without(c.transports, id) { WithoutIsPart(c.transports, id, t); }
  }

  lemma CheckPresents(o: Options, s: State, u: Ticket, now: int, t: Ticket)
    requires Present(Check(o, s, u, now).c, t)
    ensures Present(s.c, t) || t == u
  {
    if t in Without(s.c.queue, u.id) { WithoutIsPart(s.c.queue, u.id, t); }
    hide CanAcquire, Without;
  }

  lemma StepPresents(o: Options, s: State, e: Event, now: int, t: Ticket)
    requires Present(Step(o, s, e, now).c, t)
    ensures Present(s.c, t) || e == Arrive(t)
  {
    match e
    case Arrive(u) => CheckPresents(o, Enqueue(s, u), u, now, t);
    case Wake(id) =>
      var k := Find(s.c.queue, id);
      if k < |s.c.queue| { CheckPresents(o, s, s.c.queue[k], now, t); }
    case GiveUp(id) => if t in Without(s.c.queue, id) { WithoutIsPart(s.c.queue, id, t); }
    case Release(id, k) => if t in RemoveLease(s.c, id, k).Leases() { RemovedIsPart(s.c, id, k, t); }
    case Expire(id, k) => if t in RemoveLease(s.c, id, k).Leases() { RemovedIsPart(s.c, id, k, t); }
    case LeaveBarrier(id) => if t in Without(s.c.barriers, id) { WithoutIsPart(s.c.barriers, id, t); }
    case _ =>
    hide Without, Check, RemoveLease;
  }

  /** Whatever is queued or active is, unchanged, a request that arrived. */
  lemma {:induction false} TicketsAreKept(o: Options, r: Run, j: nat, t: Ticket) returns (i: nat)
    requires IsRun(o, r) && j < |r.states| && Present(r.states[j].c, t)
    ensures i < j && r.events[i] == Arrive(t)
  {
    hide Present, Step, Enabled;
    if j == 0 {
      NothingAtFirst(t);
      assert false;
    }
    assert Follows(o, r, j - 1);
    StepPresents(o, r.states[j - 1], r.events[j - 1], r.times[j - 1], t);
    if r.events[j - 1] == Arrive(t) { return j - 1; }
    i := TicketsAreKept(o, r, j - 1, t);
  }

  lemma NothingAtFirst(t: Ticket)
    ensures !Present(INIT.c, t)
  {
  }

  // ---- The watchdog

  lemma CheckKeepsClock(o: Options, s: State, t: Ticket, now: int, id: nat)
    requires id in s.holds && id != t.id
    ensures var n := Check(o, s, t, now); id in n.holds && n.holds[id] == s.holds[id]
  {
    hide CanAcquire, AddLease, Without;
  }

  lemma QueuedHasNoClock(o: Options, s: State, k: nat)
    requires Inv(o, s) && k < |s.c.queue|
    ensures s.c.queue[k].id !in s.holds
  {
    hide Exclusion, NobodyMissed, Shaped, Distinct, Ids;
    IdsOf(s.c.queue);
    assert s.c.queue[k] in s.c.queue;
  }

  lemma DrawnHasNoClock(o: Options, s: State, id: nat)
    requires Inv(o, s) && id in s.drawn
    ensures id !in s.holds
  {
    hide Exclusion, NobodyMissed, Shaped, Distinct, Ids;
  }

  /** Steps leave other clocks alone, and only a touch moves a deadline. */
  lemma ClockSteps(o: Options, s: State, e: Event, now: int, id: nat)
    requires Inv(o, s) && Enabled(s, e, now) && id in s.holds && id in Step(o, s, e, now).holds
    ensures var h, h' := s.holds[id], Step(o, s, e, now).holds[id];
      h'.expiresAt == h.expiresAt || (e.Touch? && e.id == id && h'.expiresAt == now + o.maxLeaseHold)
  {
    hide Inv, Ids, CanAcquire, RemoveLease, Check, Without, Active;
    match e
    case Arrive(t) =>
      DrawnHasNoClock(o, s, t.id);
      CheckKeepsClock(o, Enqueue(s, t), t, now, id);
    case Wake(w) =>
      var k := Find(s.c.queue, w);
      if k < |s.c.queue| {
        QueuedHasNoClock(o, s, k);
        CheckKeepsClock(o, s, s.c.queue[k], now, id);
      }
    case _ =>
  }

  /** Event i granted lease id, or touched it while it was active. */
  predicate Progress(r: Run, i: nat, id: nat)
    requires |r.states| == |r.events| + 1 && i < |r.events|
  {
    && id in r.states[i + 1].holds
    && (id !in r.states[i].holds || (r.events[i].Touch? && r.events[i].id == id && id in Ids(Active(r.states[i].c, r.events[i].leaseType))))
  }

  lemma ProgressSetsDeadline(o: Options, s: State, e: Event, now: int, id: nat)
    requires Inv(o, s) && Enabled(s, e, now) && id in Step(o, s, e, now).holds
    requires id !in s.holds || (e.Touch? && e.id == id && id in Ids(Active(s.c, e.leaseType)))
    ensures Step(o, s, e, now).holds[id].expiresAt == now + o.maxLeaseHold
  {
    hide Ids, CanAcquire, Exclusion, NobodyMissed, Shaped, IdsApart, RemoveLease, AddLease, Without, Active;
  }

  lemma HeldIsActive(o: Options, s: State, id: nat)
    requires Inv(o, s) && id in s.holds
    ensures Stage(s, id) == 3
  {
    hide Ids, Exclusion, Distinct, NobodyMissed, Shaped;
  }

  lemma BarrierIsNotHeld(o: Options, s: State, id: nat)
    requires Inv(o, s) && Stage(s, id) == 3 && id !in s.holds
    ensures id in Ids(s.c.barriers) && id !in Ids(s.c.Leases())
  {
    hide Exclusion, Distinct, NobodyMissed, Shaped;
  }

  /** A granted lease's clock is kept for exactly as long as the lease is active. */
  lemma HeldUntilEnded(o: Options, s: State, e: Event, now: int, id: nat)
    requires Inv(o, s) && Enabled(s, e, now) && id in s.holds && Stage(Step(o, s, e, now), id) == 3
    ensures id in Step(o, s, e, now).holds
  {
    hide Ids, Step, MoveOf, CanAcquire, Stage;
    Invariant.StepKeeps(o, s, e, now);
    if id !in Step(o, s, e, now).holds {
      BarrierIsNotHeld(o, Step(o, s, e, now), id);
      HeldIsActive(o, s, id);
      LeaseIsNotBarrier(o, s, e, now, id);
    }
  }

  lemma LeaseIsNotBarrier(o: Options, s: State, e: Event, now: int, id: nat)
    requires Inv(o, s) && Enabled(s, e, now) && id in s.holds
    ensures id !in Ids(Step(o, s, e, now).c.barriers)
  {
    hide Ids, Exclusion, NobodyMissed, Shaped, CanAcquire, Without, Active;
    match e
    case Arrive(t) =>
      assert t.id !in s.holds;
      AppendFacts(s.c.barriers, t);
    case Wake(w) =>
      var k := Find(s.c.queue, w);
      if k < |s.c.queue| {
        IdsOf(s.c.queue);
        assert s.c.queue[k] in s.c.queue;
        assert s.c.queue[k].id !in s.holds;
        AppendFacts(s.c.barriers, s.c.queue[k]);
      }
    case LeaveBarrier(b) => WithoutFacts(s.c.barriers, b);
    case _ =>
  }

  lemma {:induction false} DeadlineHolds(o: Options, r: Run, i: nat, k: nat, id: nat)
    requires IsRun(o, r) && i < k < |r.states| && Progress(r, i, id) && id in r.states[k].holds
    ensures r.states[k].holds[id].expiresAt >= r.times[i] + o.maxLeaseHold
    decreases k
  {
    hide Stage, Step, Enabled, Inv, Ids, Active;
    Always(o, r, k - 1);
    assert Follows(o, r, k - 1);
    if k == i + 1 {
      assert Follows(o, r, i);
      ProgressSetsDeadline(o, r.states[i], r.events[i], r.times[i], id);
    } else {
      Always(o, r, i + 1);
      Always(o, r, k);
      HeldIsActive(o, r.states[i + 1], id);
      HeldIsActive(o, r.states[k], id);
      StayedHeld(o, r, i + 1, k - 1, k, id);
      DeadlineHolds(o, r, i, k - 1, id);
      ClockSteps(o, r.states[k - 1], r.events[k - 1], r.times[k - 1], id);
    }
  }

  /** Held at i and active at j: held all the way in between. */
  lemma {:induction false} StayedHeld(o: Options, r: Run, i: nat, k: nat, j: nat, id: nat)
    requires IsRun(o, r) && i <= k <= j < |r.states|
    requires id in r.states[i].holds && Stage(r.states[j], id) == 3
    ensures id in r.states[k].holds
    decreases k
  {
    hide Stage, Step, Enabled, Inv;
    if i < k {
      StayedHeld(o, r, i, k - 1, j, id);
      Always(o, r, i);
      HeldIsActive(o, r.states[i], id);
      StagesOnlyRise(o, r, i, k, id);
      StagesOnlyRise(o, r, k, j, id);
      Always(o, r, k - 1);
      assert Follows(o, r, k - 1);
      HeldUntilEnded(o, r.states[k - 1], r.events[k - 1], r.times[k - 1], id);
    }
  }

  /** The watchdog never ends a lease before MaxLeaseHold has passed since it was granted and
      since it was last touched, however its timer callbacks are delayed. */
  lemma ForcedReleaseIsNeverEarly(o: Options, r: Run, i: nat, j: nat, id: nat)
    requires IsRun(o, r) && i < j < |r.events| && Progress(r, i, id)
    requires r.events[j].Expire? && id in r.states[j].holds && id !in r.states[j + 1].holds
    ensures r.times[j] >= r.times[i] + o.maxLeaseHold
  {
    hide Ids, Active, Inv, Stage, RemoveLease;
    DeadlineHolds(o, r, i, j, id);
    assert Follows(o, r, j);
  }

  /** No active lease is ever without a watchdog: its timer is set, or a fired callback of its own
      type is waiting to look at it, and that callback ends it once the deadline has passed. */
  lemma WatchdogIsNeverLost(o: Options, r: Run, i: nat, id: nat, now: int)
    requires IsRun(o, r) && i < |r.states| && id in Ids(r.states[i].c.Leases())
    ensures HasWatchdog(o, r.states[i], id, now)
  {
    hide Inv, HasWatchdog, Ids, Step, Enabled;
    Always(o, r, i);
    LeaseHasWatchdog(o, r.states[i], id, now);
  }

  predicate HasWatchdog(o: Options, s: State, id: nat, now: int) {
    && id in s.holds
    && (s.holds[id].armed || (id, s.holds[id].leaseType) in s.callbacks)
    && (s.holds[id].armed && s.holds[id].expiresAt <= now ==> Enabled(s, Fire(id), now))
    && (s.holds[id].expiresAt <= now ==> id !in Ids(DoExpire(s, id, s.holds[id].leaseType, now).c.Leases()))
  }

  lemma LeaseHasWatchdog(o: Options, s: State, id: nat, now: int)
    requires Inv(o, s) && id in Ids(s.c.Leases())
    ensures HasWatchdog(o, s, id, now)
  {
    hide Ids, IdsApart, Exclusion, NobodyMissed, Shaped, Active, Balanced, DoExpire;
    assert Guarded(s.c, id, s.holds[id], s.callbacks);
    if s.holds[id].expiresAt <= now { CallbackEnds(o, s, id, s.holds[id].leaseType, now); }
  }

  lemma CallbackEnds(o: Options, s: State, id: nat, t: LeaseType, now: int)
    requires Inv(o, s) && id in s.holds && id in Ids(Active(s.c, t)) && s.holds[id].expiresAt <= now
    ensures id !in Ids(DoExpire(s, id, t, now).c.Leases())
  {
    hide Ids, Inv, Active, RemoveLease;
    EndMoves(o, s, id, t);
  }

  // ---- Barriers

  /** What stands between the oldest pending barrier and its grant. */
  function Pressure(c: Sched): nat { 2 * FirstBarrier(c.queue) + |c.Leases()| }

  lemma {:induction false} FirstBarrierSplit(q: seq<Ticket>, r: seq<Ticket>)
    ensures FirstBarrier(q) < |q| ==> FirstBarrier(q + r) == FirstBarrier(q)
    ensures FirstBarrier(q) == |q| ==> FirstBarrier(q + r) == |q| + FirstBarrier(r)
  {
    if q == [] {
      assert q + r == r;
    } else {
      assert (q + r)[1..] == q[1..] + r;
      FirstBarrierSplit(q[1..], r);
    }
  }

  /** Taking one ticket out of the queue keeps the oldest barrier the oldest, unless it is the one. */
  lemma FirstBarrierWithout(q: seq<Ticket>, id: nat)
    requires Distinct(q) && FirstBarrier(q) < |q| && q[FirstBarrier(q)].id != id
    ensures var k, b, w := Find(q, id), FirstBarrier(q), Without(q, id);
      FirstBarrier(w) == (if k < b then b - 1 else b) && FirstBarrier(w) < |w| && w[FirstBarrier(w)] == q[b]
  {
    hide Ids, Distinct, FirstBarrier;
    var k, b := Find(q, id), FirstBarrier(q);
    if k < |q| {
      CutOut(q, k);
      assert Without(q, id) == q[..k] + q[k + 1..];
    }
  }

  lemma CutOut(q: seq<Ticket>, k: nat)
    requires k < |q| && FirstBarrier(q) < |q| && FirstBarrier(q) != k
    ensures var b, w := FirstBarrier(q), q[..k] + q[k + 1..];
      FirstBarrier(w) == (if k < b then b - 1 else b) && FirstBarrier(w) < |w| && w[FirstBarrier(w)] == q[b]
  {
    hide FirstBarrier;
    var before, after := q[..k], q[k + 1..];
    assert q == before + ([q[k]] + after);
    FirstBarrierSplit(before, [q[k]] + after);
    FirstBarrierSplit([q[k]], after);
    FirstBarrierSplit(before, after);
    LoneBarrier(q[k]);
    assert FirstBarrier(before) == k ==> FirstBarrier(q) == k + 1 + FirstBarrier(after);
  }

  lemma LoneBarrier(t: Ticket)
    ensures FirstBarrier([t]) == if t.kind.Barrier? then 0 else 1
  {
    assert [t][1..] == [];
  }

  /** The id of the oldest pending barrier, 0 when there is none. */
  function Oldest(c: Sched): nat { SelectedBarrier(c.queue) }

  lemma CheckDrains(o: Options, s: State, i: nat, now: int)
    requires Invariant.Apart(o, s) && i < |s.c.queue| && FirstBarrier(s.c.queue) < |s.c.queue|
    requires Oldest(s.c) in Ids(Check(o, s, s.c.queue[i], now).c.queue)
    ensures var n := Check(o, s, s.c.queue[i], now).c;
      && FirstBarrier(n.queue) < |n.queue| && Oldest(n) == Oldest(s.c)
      && Pressure(n) <= Pressure(s.c)
      && (CanAcquire(o, s.c, s.c.queue[i], now) ==> Pressure(n) < Pressure(s.c))
  {
    hide Ids, Exclusion, Find, Without, CanAcquireLease, AllWellFormed, Grant, SetsApart, Watched;
    CheckMoves(o, s, i, now);
    var t, b := s.c.queue[i], FirstBarrier(s.c.queue);
    if CanAcquire(o, s.c, t, now) {
      FirstBarrierWithout(s.c.queue, t.id);
      if CanAcquireLease(o, s.c, t, now) {
        if b < i {
          assert forall k :: 0 <= k < |s.c.queue| ==> s.c.queue[k] in s.c.queue;
          PositiveIds(s.c.queue);
          Selection.NoLeaseOvertakesABarrier(o, s.c, i, b, now);
        }
        FindAt(s.c.queue, i);
        LeaseOrBarrier(o, s.c, t, now);
      }
    }
  }

  lemma LeaseOrBarrier(o: Options, c: Sched, t: Ticket, now: int)
    requires CanAcquireLease(o, c, t, now)
    ensures t.kind.Lease?
  {
  }

  lemma PositiveIds(q: seq<Ticket>)
    requires AllWellFormed(q)
    ensures forall k :: 0 <= k < |q| ==> q[k].id > 0
  {
    forall k | 0 <= k < |q| ensures q[k].id > 0 {
      assert q[k] in q;
    }
  }

  lemma FindAt(q: seq<Ticket>, i: nat)
    requires Distinct(q) && i < |q|
    ensures Find(q, q[i].id) == i
  {
    hide Ids;
    var k := Find(q, q[i].id);
    assert k <= i;
  }

  /** The step was a grant, a release, a watchdog expiry, or the withdrawal of a ticket ahead. */
  predicate Drains(o: Options, s: State, e: Event, now: int) {
    match MoveOf(o, s, e, now)
    case Granted(id) => true
    case QueuedAndGranted(id) => true
    case Ended(id) => id in Ids(s.c.Leases()) || id in Ids(s.c.queue[..FirstBarrier(s.c.queue)])
    case _ => false
  }

  lemma EnqueueDrains(s: State, t: Ticket)
    requires FirstBarrier(s.c.queue) < |s.c.queue|
    ensures FirstBarrier(Enqueue(s, t).c.queue) == FirstBarrier(s.c.queue)
    ensures Oldest(Enqueue(s, t).c) == Oldest(s.c) && Pressure(Enqueue(s, t).c) == Pressure(s.c)
  {
    FirstBarrierSplit(s.c.queue, [t]);
    Invariant.QueueIrrelevant(s.c, Enqueue(s, t).c.queue);
  }

  lemma GiveUpDrains(o: Options, s: State, id: nat)
    requires Inv(o, s) && FirstBarrier(s.c.queue) < |s.c.queue| && Oldest(s.c) in Ids(Withdraw(s, id).c.queue)
    ensures var n := Withdraw(s, id).c;
      && FirstBarrier(n.queue) < |n.queue| && Oldest(n) == Oldest(s.c) && Pressure(n) <= Pressure(s.c)
      && (id in Ids(s.c.queue[..FirstBarrier(s.c.queue)]) ==> Pressure(n) < Pressure(s.c))
  {
    hide Exclusion, Shaped, NobodyMissed, Watched, SetsApart, Without;
    var q, b := s.c.queue, FirstBarrier(s.c.queue);
    if id in Ids(q) {
      WithoutFacts(q, id);
      FirstBarrierWithout(q, id);
      Invariant.QueueIrrelevant(s.c, Without(q, id));
    }
    if id in Ids(q[..b]) {
      var k :| 0 <= k < |q[..b]| && q[..b][k].id == id;
      FindAt(q, k);
    }
  }

  /** While the oldest pending barrier waits, the pressure on it never rises, and every lease grant,
      release, expiry and every withdrawal ahead of it lowers it. */
  lemma BarrierPressureFalls(o: Options, s: State, e: Event, now: int)
    requires Inv(o, s) && Enabled(s, e, now) && FirstBarrier(s.c.queue) < |s.c.queue|
    requires Oldest(s.c) in Ids(Step(o, s, e, now).c.queue)
    ensures var n := Step(o, s, e, now).c;
      && FirstBarrier(n.queue) < |n.queue| && Oldest(n) == Oldest(s.c)
      && Pressure(n) <= Pressure(s.c)
      && (Drains(o, s, e, now) ==> Pressure(n) < Pressure(s.c))
  {
    hide Ids, Exclusion, CanAcquire, Without, NobodyMissed, Watched, Shaped, SetsApart, Active, Check, Pressure, RemoveLease;
    match e
    case Arrive(t) =>
      Invariant.EnqueueKeeps(o, s, t);
      EnqueueDrains(s, t);
      CheckDrains(o, Enqueue(s, t), |s.c.queue|, now);
    case Wake(id) => CheckDrains(o, s, Find(s.c.queue, id), now);
    case GiveUp(id) =>
      GiveUpDrains(o, s, id);
      if id in Ids(s.c.queue) { QueuedIsNotALease(o, s, id); }
    case Release(id, t) => if id in Ids(Active(s.c, t)) { EndDrains(o, s, id, t); }
    case Expire(id, t) => if id in Ids(Active(s.c, t)) { EndDrains(o, s, id, t); }
    case LeaveBarrier(id) =>
      LeaveDrains(o, s, id);
      PrefixIds(s.c.queue, FirstBarrier(s.c.queue));
    case _ => SameSched(s.c, Step(o, s, e, now).c);
  }

  lemma PrefixIds(q: seq<Ticket>, n: nat)
    requires n <= |q|
    ensures Ids(q[..n]) <= Ids(q)
  {
    forall id | id in Ids(q[..n]) ensures id in Ids(q) {
      var k :| 0 <= k < n && q[..n][k].id == id;
      assert q[k].id == id;
    }
  }

  lemma SameSched(c: Sched, n: Sched)
    requires n == c
    ensures Pressure(n) == Pressure(c)
  {
  }

  lemma QueuedIsNotALease(o: Options, s: State, id: nat)
    requires Inv(o, s) && id in Ids(s.c.queue)
    ensures id !in Ids(s.c.Leases())
  {
    hide Exclusion, NobodyMissed, Watched, Shaped, Ids, Distinct;
  }

  lemma EndDrains(o: Options, s: State, id: nat, t: LeaseType)
    requires Inv(o, s) && id in Ids(Active(s.c, t))
    ensures EndLease(s, id, t).c.queue == s.c.queue && Pressure(EndLease(s, id, t).c) < Pressure(s.c)
  {
    hide Ids, Inv, Active, RemoveLease;
    EndMoves(o, s, id, t);
  }

  lemma LeaveDrains(o: Options, s: State, id: nat)
    requires Inv(o, s)
    ensures DoLeaveBarrier(s, id).c.queue == s.c.queue && Pressure(DoLeaveBarrier(s, id).c) == Pressure(s.c)
    ensures id in Ids(s.c.barriers) ==> id !in Ids(s.c.Leases()) && id !in Ids(s.c.queue)
  {
    hide Ids, Exclusion, NobodyMissed, Watched, Shaped, Distinct, Without;
    assert DoLeaveBarrier(s, id).c.Leases() == s.c.Leases();
  }

  /** The number of draining steps between two points of a run. */
  function Drainings(o: Options, r: Run, i: nat, j: nat): nat
    requires |r.states| == |r.events| + 1 == |r.times| + 1 && i <= j < |r.states|
    decreases j
  {
    if i == j then 0
    else Drainings(o, r, i, j - 1) + (if Drains(o, r.states[j - 1], r.events[j - 1], r.times[j - 1]) then 1 else 0)
  }

  /** The oldest pending barrier is still pending, and still the oldest, after at most as many
      grants, releases, expiries and withdrawals as its pressure when it became the oldest. */
  lemma {:induction false} BarrierWaitIsBounded(o: Options, r: Run, i: nat, j: nat)
    requires IsRun(o, r) && i <= j < |r.states| && FirstBarrier(r.states[i].c.queue) < |r.states[i].c.queue|
    requires forall k :: i <= k <= j ==> Oldest(r.states[i].c) in Ids(r.states[k].c.queue)
    ensures Oldest(r.states[j].c) == Oldest(r.states[i].c) && FirstBarrier(r.states[j].c.queue) < |r.states[j].c.queue|
    ensures Drainings(o, r, i, j) + Pressure(r.states[j].c) <= Pressure(r.states[i].c)
    decreases j
  {
    hide Step, Enabled, Inv, Ids, Pressure, Oldest, Drains;
    if i < j {
      BarrierWaitIsBounded(o, r, i, j - 1);
      Always(o, r, j - 1);
      assert Follows(o, r, j - 1);
      BarrierPressureFalls(o, r.states[j - 1], r.events[j - 1], r.times[j - 1]);
    }
  }

  /** With no active lease the oldest pending barrier is grantable, whatever is queued ahead of it. */
  lemma BarrierThenEnters(o: Options, s: State)
    requires Inv(o, s) && s.c.NoLease() && FirstBarrier(s.c.queue) < |s.c.queue|
    ensures CanAcquireBarrier(s.c, s.c.queue[FirstBarrier(s.c.queue)])
  {
  }
}
