/** The arbiter as a state machine. Every critical section under the arbiter's mutex is one step,
    taken at one reading of the clock; between steps any goroutine may go next. */
module ArbiterRuns {
  import opened Wrappers
  import opened ArbiterModel

  /** A waiter parked on the notification channel of an epoch, with the time of its last check.
      Closing and replacing the channel starts the next epoch and so wakes it. */
  datatype Park = Park(epoch: nat, at: int)

  /** A lease's clock: the watchdog deadline, and whether its timer is set for that deadline. */
  datatype Hold = Hold(leaseType: LeaseType, acquiredAt: int, expiresAt: int, armed: bool)

  datatype Stats = Stats(waitRequests: nat, acquires: nat, waitTimeouts: nat, forcedReleases: nat)

  /** drawn holds the ids of requests that have a ticket but have not reached the queue yet;
      callbacks the fired watchdog timers whose callbacks have not run yet. */
  datatype State = State(
    c: Sched, seqNo: nat, drawn: set<nat>, epoch: nat, parked: map<nat, Park>,
    holds: map<nat, Hold>, callbacks: multiset<(nat, LeaseType)>, stats: Stats)

  const INIT: State := State(Sched([], [], None, [], []), 0, {}, 0, map[], map[], multiset{}, Stats(0, 0, 0, 0))

  datatype Event =
    | Draw
    | Arrive(t: Ticket)
    | Wake(id: nat)
    | GiveUp(id: nat)
    | Touch(id: nat, leaseType: LeaseType)
    | Release(id: nat, leaseType: LeaseType)
    | Fire(id: nat)
    | Expire(id: nat, leaseType: LeaseType)
    | LeaveBarrier(id: nat)

  // ---- The critical sections

  function Active(c: Sched, t: LeaseType): seq<Ticket> {
    match t case Session => c.sessions case OneShot => c.OneshotSeq() case Transport => c.transports
  }

  function AddLease(c: Sched, t: Ticket): (r: Sched)
    requires t.kind.Lease?
    ensures r.queue == c.queue && r.barriers == c.barriers
  {
    match t.kind.leaseType
    case Session => c.(sessions := c.sessions + [t])
    case OneShot => c.(oneshot := Some(t))
    case Transport => c.(transports := c.transports + [t])
  }

  function RemoveLease(c: Sched, id: nat, t: LeaseType): (r: Sched)
    ensures r.queue == c.queue && r.barriers == c.barriers
  {
    match t
    case Session => c.(sessions := Without(c.sessions, id))
    case OneShot => if id in Ids(c.OneshotSeq()) then c.(oneshot := None) else c
    case Transport => c.(transports := Without(c.transports, id))
  }

  function Enqueue(s: State, t: Ticket): State {
    s.(c := s.c.(queue := s.c.queue + [t]), drawn := s.drawn - {t.id}, epoch := s.epoch + 1,
       stats := s.stats.(waitRequests := s.stats.waitRequests + 1))
  }

  function Grant(o: Options, s: State, t: Ticket, now: int): State {
    var c := if t.kind.Lease? then AddLease(s.c, t) else s.c.(barriers := s.c.barriers + [t]);
    s.(c := c.(queue := Without(s.c.queue, t.id)),
       holds := if t.kind.Lease? then s.holds[t.id := Hold(t.kind.leaseType, now, now + o.maxLeaseHold, true)] else s.holds,
       parked := s.parked - {t.id},
       epoch := s.epoch + 1,
       stats := s.stats.(acquires := s.stats.acquires + 1))
  }

  /** A waiter's check: it takes its grant, or parks on the current epoch. */
  function Check(o: Options, s: State, t: Ticket, now: int): State {
    if CanAcquire(o, s.c, t, now) then Grant(o, s, t, now)
    else s.(parked := s.parked[t.id := Park(s.epoch, now)])
  }

  function Withdraw(s: State, id: nat): State {
    if id in Ids(s.c.queue) then
      s.(c := s.c.(queue := Without(s.c.queue, id)), parked := s.parked - {id}, epoch := s.epoch + 1,
         stats := s.stats.(waitTimeouts := s.stats.waitTimeouts + 1))
    else s
  }

  /** A removed lease takes its clock with it: stopping the timer leaves only fired callbacks. */
  function EndLease(s: State, id: nat, t: LeaseType): State {
    s.(c := RemoveLease(s.c, id, t), holds := s.holds - {id}, epoch := s.epoch + 1)
  }

  function DoTouch(o: Options, s: State, id: nat, t: LeaseType, now: int): State {
    if id in Ids(Active(s.c, t)) && id in s.holds
    then s.(holds := s.holds[id := s.holds[id].(expiresAt := now + o.maxLeaseHold, armed := true)]) else s
  }

  function DoRelease(s: State, id: nat, t: LeaseType): State {
    if id in Ids(Active(s.c, t)) then EndLease(s, id, t) else s
  }

  /** The watchdog callback: it re-arms the timer when progress moved the deadline. */
  function DoExpire(s: State, id: nat, t: LeaseType, now: int): State {
    var s := s.(callbacks := s.callbacks - multiset{(id, t)});
    if id !in Ids(Active(s.c, t)) || id !in s.holds then s
    else if s.holds[id].expiresAt - now > 0 then s.(holds := s.holds[id := s.holds[id].(armed := true)])
    else
      var e := EndLease(s, id, t);
      e.(stats := e.stats.(forcedReleases := e.stats.forcedReleases + 1))
  }

  function DoLeaveBarrier(s: State, id: nat): State {
    if id in Ids(s.c.barriers)
    then s.(c := s.c.(barriers := Without(s.c.barriers, id)), epoch := s.epoch + 1) else s
  }

  /** What may happen next. Leases and barriers may be released, touched or timed out under any
      id at any moment; a watchdog timer fires once per arming, not before its deadline. */
  predicate Enabled(s: State, e: Event, now: int) {
    match e
    case Arrive(t) => t.id in s.drawn && t.WellFormed()
    case Wake(id) => id in s.parked && id in Ids(s.c.queue) && s.parked[id].epoch < s.epoch
    case Fire(id) => id in s.holds && s.holds[id].armed && s.holds[id].expiresAt <= now
    case Expire(id, t) => (id, t) in s.callbacks
    case _ => true
  }

  function Step(o: Options, s: State, e: Event, now: int): State {
    match e
    case Draw => s.(seqNo := s.seqNo + 1, drawn := s.drawn + {s.seqNo + 1})
    case Arrive(t) => Check(o, Enqueue(s, t), t, now)
    case Wake(id) =>
      var k := Find(s.c.queue, id);
      if k < |s.c.queue| then Check(o, s, s.c.queue[k], now) else s
    case GiveUp(id) => Withdraw(s, id)
    case Touch(id, t) => DoTouch(o, s, id, t, now)
    case Release(id, t) => DoRelease(s, id, t)
    case Fire(id) =>
      if id in s.holds
      then s.(holds := s.holds[id := s.holds[id].(armed := false)], callbacks := s.callbacks + multiset{(id, s.holds[id].leaseType)}) else s
    case Expire(id, t) => DoExpire(s, id, t, now)
    case LeaveBarrier(id) => DoLeaveBarrier(s, id)
  }

  // ---- The invariant

  predicate AllKind(ts: seq<Ticket>, t: LeaseType) {
    forall i :: 0 <= i < |ts| ==> ts[i].kind == Lease(t)
  }

  predicate DistinctChannels(ts: seq<Ticket>) {
    forall i, j :: 0 <= i < j < |ts| && ts[i].scope.QmiChannel? && ts[j].scope.QmiChannel? ==> ts[i].channel != ts[j].channel
  }

  /** Active leases are all of one kind, within their limits, and clear of every active barrier. */
  predicate Exclusion(o: Options, c: Sched) {
    && (c.oneshot.Some? ==> c.sessions == [] && c.transports == [])
    && (c.sessions != [] ==> c.transports == [])
    && |c.sessions| <= o.maxSessions
    && (HasExclusive(c.transports) ==> |c.transports| == 1)
    && QmiCount(c.transports) <= o.maxQmiTransports
    && DistinctChannels(c.transports)
    && AllKind(c.sessions, Session) && AllKind(c.OneshotSeq(), OneShot) && AllKind(c.transports, Transport)
    && (forall t :: t in c.Leases() ==> !ClassBlocked(c.barriers, t.cls))
    && (forall i :: 0 <= i < |c.barriers| ==> c.barriers[i].kind.Barrier?)
  }

  predicate AllWellFormed(ts: seq<Ticket>) {
    forall t :: t in ts ==> t.WellFormed()
  }

  /** Every id is in at most one of the queue, the leases, the barriers and the undelivered draws. */
  predicate SetsApart(q: set<nat>, l: set<nat>, b: set<nat>, d: set<nat>, n: nat) {
    && (forall id :: id in q ==> 0 < id <= n && id !in l && id !in b && id !in d)
    && (forall id :: id in l ==> 0 < id <= n && id !in b && id !in d)
    && (forall id :: id in b ==> 0 < id <= n && id !in d)
    && (forall id :: id in d ==> 0 < id <= n)
  }

  predicate IdsApart(s: State) {
    && Distinct(s.c.queue) && Distinct(s.c.Leases()) && Distinct(s.c.barriers)
    && SetsApart(Ids(s.c.queue), Ids(s.c.Leases()), Ids(s.c.barriers), s.drawn, s.seqNo)
  }

  predicate Shaped(s: State) {
    AllWellFormed(s.c.queue) && AllWellFormed(s.c.Leases())
  }

  /** A waiter that has checked since the last signal cannot be granted in the state as it is. */
  predicate NobodyMissed(o: Options, s: State) {
    && s.parked.Keys == Ids(s.c.queue)
    && forall i :: 0 <= i < |s.c.queue| ==> NotMissed(o, s, s.c.queue[i])
  }

  predicate NotMissed(o: Options, s: State, t: Ticket) {
    && t.id in s.parked
    && s.parked[t.id].epoch <= s.epoch
    && (s.parked[t.id].epoch == s.epoch ==> !CanAcquire(o, s.c, t, s.parked[t.id].at))
  }

  /** Every active lease, and nothing else, has a clock; its watchdog is set or about to run. */
  predicate Watched(s: State) {
    && s.holds.Keys == Ids(s.c.Leases())
    && forall id :: id in s.holds ==> Guarded(s.c, id, s.holds[id], s.callbacks)
  }

  predicate Guarded(c: Sched, id: nat, h: Hold, callbacks: multiset<(nat, LeaseType)>) {
    && id in Ids(Active(c, h.leaseType))
    && (h.armed || (id, h.leaseType) in callbacks)
  }

  predicate Balanced(s: State) {
    s.stats.waitRequests == s.stats.acquires + s.stats.waitTimeouts + |s.c.queue|
  }

  predicate Inv(o: Options, s: State) {
    o.Normal() && Exclusion(o, s.c) && IdsApart(s) && Shaped(s) && NobodyMissed(o, s) && Watched(s) && Balanced(s)
  }

  // ---- Facts about sequences of tickets

  lemma AppendFacts(ts: seq<Ticket>, t: Ticket)
    ensures Ids(ts + [t]) == Ids(ts) + {t.id}
    ensures Distinct(ts) && t.id !in Ids(ts) ==> Distinct(ts + [t])
  {
    var r := ts + [t];
    assert r[|ts|] == t;
    forall id | id in Ids(ts) ensures id in Ids(r) {
      var i :| 0 <= i < |ts| && ts[i].id == id;
      assert r[i].id == id;
    }
  }

  lemma WithoutMembers(ts: seq<Ticket>, id: nat)
    requires Distinct(ts)
    ensures forall t :: t in Without(ts, id) <==> t in ts && t.id != id
  {
    var k, r := Find(ts, id), Without(ts, id);
    if k < |ts| {
      assert forall i :: 0 <= i < k ==> r[i] == ts[i];
      assert forall i :: k <= i < |r| ==> r[i] == ts[i + 1];
      forall i | 0 <= i < |ts| && i != k ensures ts[i] in r {
        assert r[if i < k then i else i - 1] == ts[i];
      }
    } else {
      forall t | t in ts ensures t.id != id {
        assert t.id in Ids(ts);
      }
    }
  }

  lemma WithoutDistinct(ts: seq<Ticket>, id: nat)
    requires Distinct(ts)
    ensures Distinct(Without(ts, id))
    ensures |Without(ts, id)| == |ts| - (if id in Ids(ts) then 1 else 0)
  {
    hide Ids;
    var k, r := Find(ts, id), Without(ts, id);
    if k < |ts| {
      assert forall i :: 0 <= i < |r| ==> r[i] == ts[if i < k then i else i + 1];
    }
  }

  lemma WithoutFacts(ts: seq<Ticket>, id: nat)
    requires Distinct(ts)
    ensures Distinct(Without(ts, id))
    ensures Ids(Without(ts, id)) == Ids(ts) - {id}
    ensures |Without(ts, id)| == |ts| - (if id in Ids(ts) then 1 else 0)
  {
    WithoutDistinct(ts, id);
    WithoutMembers(ts, id);
    IdsOf(ts);
    IdsOf(Without(ts, id));
    hide Ids, Find, Without, Distinct;
    forall x | x in Ids(ts) && x != id ensures x in Ids(Without(ts, id)) {
      var t :| t in ts && t.id == x;
      assert t in Without(ts, id);
    }
    forall x | x in Ids(Without(ts, id)) ensures x in Ids(ts) - {id} {
      var t :| t in Without(ts, id) && t.id == x;
      assert t in ts;
    }
  }

  lemma IdsOf(ts: seq<Ticket>)
    ensures forall t :: t in ts ==> t.id in Ids(ts)
    ensures forall id :: id in Ids(ts) ==> exists t :: t in ts && t.id == id
  {
    forall id | id in Ids(ts) ensures exists t :: t in ts && t.id == id {
      var i :| 0 <= i < |ts| && ts[i].id == id;
      assert ts[i] in ts;
    }
  }

  lemma {:induction false} QmiCountSplit(a: seq<Ticket>, b: seq<Ticket>)
    ensures QmiCount(a + b) == QmiCount(a) + QmiCount(b)
  {
    if b == [] {
      assert a + b == a;
    } else {
      assert (a + b)[..|a + b| - 1] == a + b[..|b| - 1];
      QmiCountSplit(a, b[..|b| - 1]);
    }
  }

  lemma QmiCountWithout(ts: seq<Ticket>, id: nat)
    ensures QmiCount(Without(ts, id)) <= QmiCount(ts)
  {
    hide QmiCount, Ids;
    var k := Find(ts, id);
    if k < |ts| {
      var a, b := ts[..k], ts[k + 1..];
      assert ts == (a + [ts[k]]) + b;
      QmiCountSplit(a + [ts[k]], b);
      QmiCountSplit(a, [ts[k]]);
      QmiCountSplit(a, b);
    }
  }
}
