/** The arbiter object: its fields are updated in place, one critical section per method, and each
    method does exactly the corresponding step of the state machine. */
module Arbiter {
  import opened Wrappers
  import opened ArbiterModel
  import opened ArbiterRuns
  import Invariant = ArbiterInvariant
  import Text
  import Theorems = ArbiterTheorems

  datatype ActiveLease = ActiveLease(ticket: Ticket, acquiredAt: int, expiresAt: int, armed: bool)

  function Tickets(ls: seq<ActiveLease>): (r: seq<Ticket>)
    ensures |r| == |ls| && forall i :: 0 <= i < |ls| ==> r[i] == ls[i].ticket
  {
    seq(|ls|, i requires 0 <= i < |ls| => ls[i].ticket)
  }

  function HoldOf(l: ActiveLease): Hold {
    Hold(if l.ticket.kind.Lease? then l.ticket.kind.leaseType else Session, l.acquiredAt, l.expiresAt, l.armed)
  }

  /** The clocks of a list of active leases, by id. */
  function Clocks(ls: seq<ActiveLease>): (m: map<nat, Hold>)
    ensures m.Keys == Ids(Tickets(ls))
  {
    if ls == [] then map[]
    else
      var rest, last := ls[..|ls| - 1], ls[|ls| - 1];
      assert Tickets(ls) == Tickets(rest) + [last.ticket];
      AppendFacts(Tickets(rest), last.ticket);
      Clocks(rest)[last.ticket.id := HoldOf(last)]
  }

  lemma {:induction false} ClockAt(ls: seq<ActiveLease>, i: nat)
    requires i < |ls| && Distinct(Tickets(ls))
    ensures ls[i].ticket.id in Clocks(ls) && Clocks(ls)[ls[i].ticket.id] == HoldOf(ls[i])
  {
    var rest, last := ls[..|ls| - 1], ls[|ls| - 1];
    if i < |ls| - 1 {
      assert Tickets(ls)[i].id != Tickets(ls)[|ls| - 1].id;
      assert forall j :: 0 <= j < |rest| ==> Tickets(rest)[j] == Tickets(ls)[j];
      ClockAt(rest, i);
    }
  }

  /** Two lists with the same ids have the same clocks when they agree lease by lease. */
  lemma {:induction false} SameClocks(ls: seq<ActiveLease>, m: map<nat, Hold>)
    requires Distinct(Tickets(ls)) && m.Keys == Ids(Tickets(ls))
    requires forall i :: 0 <= i < |ls| ==> ls[i].ticket.id in m && m[ls[i].ticket.id] == HoldOf(ls[i])
    ensures Clocks(ls) == m
  {
    hide Clocks, Ids, Distinct;
    forall id | id in m {
      ClockAt(ls, Find(Tickets(ls), id));
    }
  }

  function FindLease(ls: seq<ActiveLease>, id: nat): nat { Find(Tickets(ls), id) }

  /** ls without the lease with this id. */
  function Cut(ls: seq<ActiveLease>, id: nat): seq<ActiveLease> {
    var k := FindLease(ls, id);
    if k < |ls| then ls[..k] + ls[k + 1..] else ls
  }

  lemma {:induction false} CutTickets(ls: seq<ActiveLease>, id: nat)
    ensures Tickets(Cut(ls, id)) == Without(Tickets(ls), id)
  {
    hide Ids;
  }

  lemma {:induction false} CutClocks(ls: seq<ActiveLease>, id: nat)
    requires Distinct(Tickets(ls))
    ensures Clocks(Cut(ls, id)) == Clocks(ls) - {id}
  {
    hide Ids, Clocks;
    var k, r := FindLease(ls, id), Cut(ls, id);
    CutTickets(ls, id);
    WithoutFacts(Tickets(ls), id);
    forall i | 0 <= i < |r|
      ensures r[i].ticket.id in Clocks(ls) - {id} && (Clocks(ls) - {id})[r[i].ticket.id] == HoldOf(r[i])
    {
      var j := if i < k then i else i + 1;
      ClockAt(ls, j);
      assert k < |ls| ==> Tickets(ls)[j].id != Tickets(ls)[k].id;
    }
    SameClocks(r, Clocks(ls) - {id});
  }

  lemma {:induction false} ClocksAppend(ls: seq<ActiveLease>, l: ActiveLease)
    ensures Clocks(ls + [l]) == Clocks(ls)[l.ticket.id := HoldOf(l)]
  {
    assert (ls + [l])[..|ls|] == ls;
  }

  function Rearmed(ls: seq<ActiveLease>, k: nat, expiresAt: int, armed: bool): (r: seq<ActiveLease>)
    requires k < |ls|
    ensures Tickets(r) == Tickets(ls)
  {
    ls[k := ls[k].(expiresAt := expiresAt, armed := armed)]
  }

  lemma {:induction false} ClocksUpdate(ls: seq<ActiveLease>, k: nat, expiresAt: int, armed: bool)
    requires k < |ls| && Distinct(Tickets(ls))
    ensures ls[k].ticket.id in Clocks(ls)
    ensures Clocks(Rearmed(ls, k, expiresAt, armed)) ==
      Clocks(ls)[ls[k].ticket.id := Clocks(ls)[ls[k].ticket.id].(expiresAt := expiresAt, armed := armed)]
  {
    hide Ids, Clocks;
    ClockAt(ls, k);
    var r, id := Rearmed(ls, k, expiresAt, armed), ls[k].ticket.id;
    var m := Clocks(ls)[id := Clocks(ls)[id].(expiresAt := expiresAt, armed := armed)];
    forall i | 0 <= i < |r| ensures r[i].ticket.id in m && m[r[i].ticket.id] == HoldOf(r[i]) {
      ClockAt(ls, i);
      assert i != k ==> Tickets(ls)[i].id != Tickets(ls)[k].id;
    }
    SameClocks(r, m);
  }

  lemma ValidParts(o: Options, s: State)
    requires Inv(o, s)
    ensures Invariant.Apart(o, s) && Exclusion(o, s.c) && Distinct(s.c.queue) && Distinct(s.c.Leases())
  {
    hide Distinct, Exclusion, SetsApart;
  }

  /** A lease is only granted beside leases of its own type. */
  lemma GrantAlone(o: Options, c: Sched, t: Ticket, now: int)
    requires Exclusion(o, c) && CanAcquireLease(o, c, t, now)
    ensures t.kind.Lease?
    ensures forall u :: u != t.kind.leaseType || u.OneShot? ==> Active(c, u) == []
  {
    hide Exclusion, PendingBarrierAhead, ClassBlocked, SelectedTransport, IsHead;
  }

  lemma RemovalKeepsOthers(o: Options, c: Sched, id: nat, t: LeaseType)
    requires Exclusion(o, c) && id in Ids(Active(c, t))
    ensures forall u :: u != t ==> Active(RemoveLease(c, id, t), u) == []
  {
    hide Exclusion, Ids, Without;
    Invariant.NonemptyIds(Active(c, t), id);
    Invariant.OneKind(o, c, t);
    forall u | u != t ensures Active(RemoveLease(c, id, t), u) == [] {
      assert Active(c, u) == [];
    }
  }

  lemma NothingToRemove(c: Sched, id: nat, t: LeaseType)
    requires id !in Ids(Active(c, t))
    ensures RemoveLease(c, id, t) == c
  {
    hide Ids;
  }

  lemma NotQueued(ts: seq<Ticket>, id: nat)
    requires id !in Ids(ts)
    ensures Without(ts, id) == ts
  {
    hide Ids;
  }

  /** The three outcomes of a watchdog callback. */
  lemma ExpireCases(o: Options, s: State, id: nat, t: LeaseType, now: int)
    ensures var n, b := DoExpire(s, id, t, now), s.callbacks - multiset{(id, t)};
      && (id !in Ids(Active(s.c, t)) || id !in s.holds ==> n == s.(callbacks := b))
      && (id in Ids(Active(s.c, t)) && id in s.holds && s.holds[id].expiresAt > now ==>
           n == s.(callbacks := b, holds := s.holds[id := s.holds[id].(armed := true)]))
      && (id in Ids(Active(s.c, t)) && id in s.holds && s.holds[id].expiresAt <= now ==>
           n == s.(callbacks := b, c := RemoveLease(s.c, id, t), holds := s.holds - {id}, epoch := s.epoch + 1,
                   stats := s.stats.(forcedReleases := s.stats.forcedReleases + 1)))
  {
    hide Ids, Active, RemoveLease;
  }

  lemma HeldIsListed(o: Options, s: State, id: nat)
    requires Inv(o, s) && id in s.holds
    ensures id in Ids(Active(s.c, s.holds[id].leaseType))
  {
    hide Ids, Exclusion, IdsApart, NobodyMissed, Shaped, Active;
    assert Guarded(s.c, id, s.holds[id], s.callbacks);
  }

  /** A check grants exactly by taking the ticket out of the queue. */
  lemma GrantedLeavesQueue(o: Options, s: State, i: nat, now: int)
    requires Invariant.Apart(o, s) && i < |s.c.queue|
    ensures CanAcquire(o, s.c, s.c.queue[i], now) <==>
      s.c.queue[i].id !in Ids(Check(o, s, s.c.queue[i], now).c.queue)
    ensures s.c.queue[i].kind.Lease? ==> !CanAcquireBarrier(s.c, s.c.queue[i])
    ensures s.c.queue[i].kind.Barrier? ==> !CanAcquireLease(o, s.c, s.c.queue[i], now)
  {
    hide Exclusion, SetsApart, Without, Distinct;
    WithoutFacts(s.c.queue, s.c.queue[i].id);
    assert s.c.queue[i].id in Ids(s.c.queue);
  }

  // ---- The scan's bookkeeping

  /** r is the first of the n scanned positions that fits p; the queue's length stands for none. */
  predicate Found(o: Options, c: Sched, now: int, p: Pick, n: nat, r: nat) {
    && n <= |c.queue| && r <= |c.queue|
    && (r < |c.queue| ==> r < n && Fits(o, c, now, p, c.queue[r]))
    && forall j :: 0 <= j < n && j < r ==> !Fits(o, c, now, p, c.queue[j])
  }

  lemma NothingFound(o: Options, c: Sched, now: int)
    ensures forall p :: Found(o, c, now, p, 0, |c.queue|)
  {
  }

  lemma FoundNext(o: Options, c: Sched, now: int, p: Pick, n: nat, r: nat)
    requires n < |c.queue| && Found(o, c, now, p, n, r)
    ensures Found(o, c, now, p, n + 1, if r == |c.queue| && Fits(o, c, now, p, c.queue[n]) then n else r)
  {
    hide Fits;
  }

  lemma EligibleMeans(o: Options, c: Sched, t: Ticket)
    ensures Eligible(o, c, t) == (t.IsTransport() && !ClassBlocked(c.barriers, t.cls) && TransportFits(o, c.transports, t))
  {
    hide TransportFits, ClassBlocked;
  }

  lemma WindowEndsAt(o: Options, c: Sched, i: nat)
    requires i <= |c.queue| && (forall j :: 0 <= j < i ==> !Stops(o, c, c.queue[j]))
    requires i == |c.queue| || Stops(o, c, c.queue[i])
    ensures WindowEnd(o, c, 0) == i
  {
    hide Stops;
    var w := WindowEnd(o, c, 0);
    assert w < |c.queue| ==> Stops(o, c, c.queue[w]);
  }

  lemma FoundIsFirst(o: Options, c: Sched, now: int, p: Pick, r: nat)
    requires Found(o, c, now, p, WindowEnd(o, c, 0), r)
    ensures r == FirstFit(o, c, now, p, 0)
  {
    hide Fits, WindowEnd;
    var f := FirstFit(o, c, now, p, 0);
    assert f < |c.queue| ==> Fits(o, c, now, p, c.queue[f]);
    assert r < |c.queue| ==> Fits(o, c, now, p, c.queue[r]);
  }

  lemma SelectedFrom(o: Options, c: Sched, now: int)
    ensures var a, k, e := FirstFit(o, c, now, AgedOther, 0), FirstFit(o, c, now, Aka, 0), FirstFit(o, c, now, Any, 0);
      SelectedTransport(o, c, now) ==
        if a < |c.queue| then c.queue[a].id else if k < |c.queue| then c.queue[k].id
        else if e < |c.queue| then c.queue[e].id else 0
  {
    hide FirstFit;
  }

  lemma DrawnIsPositive(o: Options, s: State, id: nat)
    requires Inv(o, s) && id in s.drawn
    ensures id > 0
  {
  }

  /** A barrier blocks the classes it names, an empty one meaning AKA; without any, AKA and SMSC. */
  lemma BlockedExactly(id: nat, req: Request, classes: seq<ApduClass>, enqueued: int)
    requires id > 0
    ensures forall c :: c in BarrierTicket(id, req, classes, enqueued).kind.blocked <==>
      if classes == [] then c in {"USIMAKA", "SMSC"}
      else (c != "" && c in classes) || (c == "USIMAKA" && "" in classes)
  {
    var named := set i | 0 <= i < |classes| :: NormalizeClass(classes[i], OneShot);
    forall c | c in classes ensures NormalizeClass(c, OneShot) in named {
      var i :| 0 <= i < |classes| && classes[i] == c;
    }
    if classes != [] { assert NormalizeClass(classes[0], OneShot) in named; }
  }

  class Arbiter {
    const opts: Options
    var seqNo: nat
    var queue: seq<Ticket>
    var activeSessions: seq<ActiveLease>
    var activeOneshot: Option<ActiveLease>
    var activeTransports: seq<ActiveLease>
    var activeBarriers: seq<Ticket>
    // The notification channel: every close-and-replace starts a new epoch.
    var epoch: nat
    var waitRequests: nat
    var acquires: nat
    var waitTimeouts: nat
    var forcedReleases: nat
    // What the goroutines around the arbiter hold: undelivered tickets, the channel each waiter
    // selects on, and the watchdog callbacks that have fired.
    ghost var drawn: set<nat>
    ghost var parked: map<nat, Park>
    ghost var callbacks: multiset<(nat, LeaseType)>

    ghost function Oneshot(): seq<ActiveLease>
      reads this`activeOneshot
    {
      if activeOneshot.Some? then [activeOneshot.value] else []
    }

    ghost function Leases(): seq<ActiveLease>
      reads this`activeSessions, this`activeOneshot, this`activeTransports
    {
      activeSessions + Oneshot() + activeTransports
    }

    ghost function View(): Sched
      reads this`queue, this`activeSessions, this`activeOneshot, this`activeTransports, this`activeBarriers
    {
      Sched(queue, Tickets(activeSessions),
            if activeOneshot.Some? then Some(activeOneshot.value.ticket) else None,
            Tickets(activeTransports), activeBarriers)
    }

    ghost function Abs(): State
      reads this
    {
      State(View(), seqNo, drawn, epoch, parked, Clocks(Leases()), callbacks,
            Stats(waitRequests, acquires, waitTimeouts, forcedReleases))
    }

    ghost predicate Valid()
      reads this
    {
      Inv(opts, Abs())
    }

    lemma LeasesMatch()
      ensures View().Leases() == Tickets(Leases())
    {
    }

    constructor (o: Options)
      ensures opts == o.Normalize() && Abs() == INIT && Valid()
      ensures opts.maxLeaseHold == if o.maxLeaseHold > 0 then o.maxLeaseHold else 120_000_000_000
      ensures opts.maxSessions == if o.maxSessions > 0 then o.maxSessions else 1
      ensures opts.maxQmiTransports == if o.maxQmiTransports > 0 then o.maxQmiTransports else 1
    {
      opts := o.Normalize();
      seqNo, queue, activeSessions, activeOneshot, activeTransports, activeBarriers := 0, [], [], None, [], [];
      epoch, waitRequests, acquires, waitTimeouts, forcedReleases := 0, 0, 0, 0, 0;
      drawn, parked, callbacks := {}, map[], multiset{};
      new;
      assert Clocks(Leases()) == map[];
      Theorems.InitHolds(opts);
    }

    // ---- Reading

    method IsBlockedByActiveBarrier(cls: ApduClass) returns (b: bool)
      ensures b == ClassBlocked(activeBarriers, cls)
    {
      for i := 0 to |activeBarriers|
        invariant forall j :: 0 <= j < i ==> !activeBarriers[j].Blocks(cls)
      {
        if activeBarriers[i].Blocks(cls) { return true; }
      }
      return false;
    }

    method HasPendingBarrierAhead(t: Ticket) returns (b: bool)
      ensures b == PendingBarrierAhead(queue, t.id, t.cls)
    {
      for i := 0 to |queue|
        invariant forall j :: 0 <= j < i ==> queue[j].id != t.id && !queue[j].Blocks(t.cls)
      {
        if queue[i].id == t.id { return false; }
        if queue[i].Blocks(t.cls) { return true; }
      }
      return false;
    }

    method HasActiveExclusiveTransport() returns (b: bool)
      ensures b == HasExclusive(Tickets(activeTransports))
    {
      for i := 0 to |activeTransports|
        invariant forall j :: 0 <= j < i ==> Tickets(activeTransports)[j].scope.QmiChannel?
      {
        if activeTransports[i].ticket.scope.Exclusive? {
          assert Tickets(activeTransports)[i].scope.Exclusive?;
          return true;
        }
      }
      return false;
    }

    method ActiveQmiTransportCount() returns (count: nat)
      ensures count == QmiCount(Tickets(activeTransports))
    {
      count := 0;
      ghost var ts := Tickets(activeTransports);
      for i := 0 to |activeTransports|
        invariant count == QmiCount(ts[..i])
      {
        assert ts[..i + 1][..i] == ts[..i];
        if activeTransports[i].ticket.scope.QmiChannel? {
          count := count + 1;
        }
      }
      assert ts[..|ts|] == ts;
    }

    method HasActiveTransportOnChannel(channel: int) returns (b: bool)
      ensures b == ChannelBusy(Tickets(activeTransports), channel)
    {
      ghost var ts := Tickets(activeTransports);
      for i := 0 to |activeTransports|
        invariant forall j :: 0 <= j < i ==> !(ts[j].scope.QmiChannel? && ts[j].channel == channel)
      {
        if activeTransports[i].ticket.scope.QmiChannel? && activeTransports[i].ticket.channel == channel {
          assert ts[i].scope.QmiChannel? && ts[i].channel == channel;
          return true;
        }
      }
      return false;
    }

    method CanAcquireTransportNow(t: Ticket) returns (b: bool)
      ensures b == (t.IsTransport() && TransportFits(opts, Tickets(activeTransports), t))
    {
      if !t.IsTransport() { return false; }
      if t.scope.Exclusive? { return activeTransports == []; }
      var exclusive := HasActiveExclusiveTransport();
      if exclusive { return false; }
      var count := ActiveQmiTransportCount();
      if count >= opts.maxQmiTransports { return false; }
      var busy := HasActiveTransportOnChannel(t.channel);
      return !busy;
    }

    method TransportWaitGatesQueue(t: Ticket) returns (b: bool)
      ensures b == (!t.IsTransport() || Gates(opts, Tickets(activeTransports), t))
    {
      if !t.IsTransport() || t.scope.Exclusive? { return true; }
      var exclusive := HasActiveExclusiveTransport();
      var count := ActiveQmiTransportCount();
      return exclusive || count >= opts.maxQmiTransports;
    }

    method SelectedBarrierTicket() returns (id: nat)
      ensures id == SelectedBarrier(queue)
    {
      for i := 0 to |queue|
        invariant forall j :: 0 <= j < i ==> queue[j].kind.Lease?
      {
        if queue[i].kind.Barrier? {
          assert FirstBarrier(queue) == i;
          return queue[i].id;
        }
      }
      assert FirstBarrier(queue) == |queue|;
      return 0;
    }

    /** One pass over the queue that keeps the best candidate of each kind. */
    method SelectedTransportTicket(now: int) returns (id: nat)
      ensures id == SelectedTransport(opts, View(), now)
    {
      hide Found, Eligible, TransportFits, Gates, ClassBlocked, SelectedTransport, SelectedIndex, View, WindowEnd, FirstFit;
      ghost var c := View();
      assert c.queue == queue && c.barriers == activeBarriers && c.transports == Tickets(activeTransports) by { ViewFields(); }
      var oldestEligible: nat, oldestAgedNonAka: nat, oldestAka: nat := |queue|, |queue|, |queue|;
      NothingFound(opts, c, now);
      var i := 0;
      while i < |queue|
        invariant i <= |queue|
        invariant forall j :: 0 <= j < i ==> !Stops(opts, c, c.queue[j])
        invariant Found(opts, c, now, Any, i, oldestEligible)
        invariant Found(opts, c, now, AgedOther, i, oldestAgedNonAka)
        invariant Found(opts, c, now, Aka, i, oldestAka)
      {
        var t := queue[i];
        if !t.IsTransport() { break; }
        FoundNext(opts, c, now, Any, i, oldestEligible);
        FoundNext(opts, c, now, AgedOther, i, oldestAgedNonAka);
        FoundNext(opts, c, now, Aka, i, oldestAka);
        EligibleMeans(opts, c, t);
        var blocked := IsBlockedByActiveBarrier(t.cls);
        if blocked { i := i + 1; continue; }
        var fits := CanAcquireTransportNow(t);
        if !fits {
          var gates := TransportWaitGatesQueue(t);
          if gates { break; }
          i := i + 1;
          continue;
        }
        if oldestEligible == |queue| { oldestEligible := i; }
        if t.cls == USIM_AKA {
          if oldestAka == |queue| { oldestAka := i; }
        } else if oldestAgedNonAka == |queue| && now - t.enqueued >= TRANSPORT_PRIORITY_AGING {
          oldestAgedNonAka := i;
        }
        i := i + 1;
      }
      WindowEndsAt(opts, c, i);
      FoundIsFirst(opts, c, now, Any, oldestEligible);
      FoundIsFirst(opts, c, now, AgedOther, oldestAgedNonAka);
      FoundIsFirst(opts, c, now, Aka, oldestAka);
      SelectedFrom(opts, c, now);
      if oldestAgedNonAka < |queue| { return queue[oldestAgedNonAka].id; }
      if oldestAka < |queue| { return queue[oldestAka].id; }
      if oldestEligible < |queue| { return queue[oldestEligible].id; }
      return 0;
    }

    lemma ViewFields()
      ensures View().queue == queue && View().barriers == activeBarriers && View().transports == Tickets(activeTransports)
    {
    }

    method CanAcquireLeaseNow(t: Ticket, now: int) returns (b: bool)
      ensures b == CanAcquireLease(opts, View(), t, now)
    {
      if t.kind.Barrier? { return false; }
      var blocked := IsBlockedByActiveBarrier(t.cls);
      if blocked { return false; }
      var behind := HasPendingBarrierAhead(t);
      if behind { return false; }
      var head := |queue| > 0 && queue[0].id == t.id;
      match t.kind.leaseType {
        case Session =>
          return head && activeOneshot.None? && activeTransports == [] && |activeSessions| < opts.maxSessions;
        case OneShot =>
          return head && activeSessions == [] && activeOneshot.None? && activeTransports == [];
        case Transport =>
          if activeSessions != [] || activeOneshot.Some? { return false; }
          var selected := SelectedTransportTicket(now);
          return selected == t.id;
      }
    }

    method CanAcquireBarrierNow(t: Ticket) returns (b: bool)
      ensures b == CanAcquireBarrier(View(), t)
    {
      if t.kind.Lease? { return false; }
      if activeTransports != [] || activeSessions != [] || activeOneshot.Some? { return false; }
      var selected := SelectedBarrierTicket();
      return selected == t.id;
    }

    method FindTicket(id: nat) returns (k: nat)
      ensures k == Find(queue, id)
    {
      k := 0;
      while k < |queue| && queue[k].id != id
        invariant k <= |queue| && forall j :: 0 <= j < k ==> queue[j].id != id
      {
        k := k + 1;
      }
    }

    static method FindActiveIn(ls: seq<ActiveLease>, id: nat) returns (k: nat)
      ensures k == FindLease(ls, id)
    {
      k := 0;
      while k < |ls| && ls[k].ticket.id != id
        invariant k <= |ls| && forall j :: 0 <= j < k ==> Tickets(ls)[j].id != id
      {
        k := k + 1;
      }
    }

    method IsIdle() returns (b: bool)
      ensures b == View().Idle()
    {
      return activeOneshot.None? && activeTransports == [] && activeSessions == [] && activeBarriers == [] && queue == [];
    }

    // ---- Changing the parts

    ghost function ListOf(t: LeaseType): seq<ActiveLease>
      reads this`activeSessions, this`activeOneshot, this`activeTransports
    {
      match t case Session => activeSessions case OneShot => Oneshot() case Transport => activeTransports
    }

    lemma ListTickets(t: LeaseType)
      ensures Tickets(ListOf(t)) == Active(View(), t)
    {
    }

    /** While leases of one type are active there are no others. */
    lemma OnlyThese(t: LeaseType)
      requires Exclusion(opts, View()) && ListOf(t) != []
      ensures Leases() == ListOf(t)
    {
      hide Exclusion;
      ListTickets(t);
      Invariant.OneKind(opts, View(), t);
      forall u | u != t ensures ListOf(u) == [] {
        ListTickets(u);
      }
      assert ListOf(Session) == activeSessions && ListOf(OneShot) == Oneshot() && ListOf(Transport) == activeTransports;
    }

    method RemoveTicket(id: nat) returns (removed: bool)
      modifies this`queue
      ensures queue == Without(old(queue), id)
      ensures removed == (id in Ids(old(queue)))
    {
      var k := FindTicket(id);
      removed := k < |queue|;
      if removed {
        queue := queue[..k] + queue[k + 1..];
      }
    }

    method AddActive(l: ActiveLease, ghost now: int)
      requires Exclusion(opts, View()) && CanAcquireLease(opts, View(), l.ticket, now)
      modifies this`activeSessions, this`activeOneshot, this`activeTransports
      ensures View() == AddLease(old(View()), l.ticket)
      ensures Leases() == old(Leases()) + [l]
    {
      hide Exclusion, CanAcquireLease;
      GrantAlone(opts, View(), l.ticket, now);
      FromLists();
      forall u | Active(View(), u) == [] ensures ListOf(u) == [] {
        ListTickets(u);
      }
      match l.ticket.kind.leaseType {
        case Session =>
          activeSessions := activeSessions + [l];
          assert Tickets(activeSessions) == Tickets(old(activeSessions)) + [l.ticket];
        case OneShot =>
          activeOneshot := Some(l);
        case Transport =>
          activeTransports := activeTransports + [l];
          assert Tickets(activeTransports) == Tickets(old(activeTransports)) + [l.ticket];
      }
      FromLists();
    }

    /** Removes the lease from its list and reports whether it was there. */
    method RemoveActive(id: nat, t: LeaseType) returns (removed: bool)
      modifies this`activeSessions, this`activeOneshot, this`activeTransports
      ensures View() == RemoveLease(old(View()), id, t)
      ensures removed == (id in Ids(Active(old(View()), t)))
      ensures removed ==> ListOf(t) == Cut(old(ListOf(t)), id)
      ensures !removed ==> Leases() == old(Leases())
    {
      removed := false;
      match t {
        case Session =>
          var k := FindActiveIn(activeSessions, id);
          if k < |activeSessions| {
            CutTickets(activeSessions, id);
            activeSessions := activeSessions[..k] + activeSessions[k + 1..];
            removed := true;
          }
        case OneShot =>
          if activeOneshot.Some? {
            assert Active(View(), OneShot)[0].id == activeOneshot.value.ticket.id;
            if activeOneshot.value.ticket.id == id {
              assert Find(Tickets(Oneshot()), id) == 0;
              activeOneshot := None;
              removed := true;
            }
          }
        case Transport =>
          var k := FindActiveIn(activeTransports, id);
          if k < |activeTransports| {
            CutTickets(activeTransports, id);
            activeTransports := activeTransports[..k] + activeTransports[k + 1..];
            removed := true;
          }
      }
    }

    // ---- The critical sections

    /** The ticket number handed to a new request, before it takes the lock. */
    method Draw() returns (id: nat)
      requires Valid()
      modifies this
      ensures Valid() && Abs() == Step(opts, old(Abs()), Event.Draw, 0)
      ensures id == old(seqNo) + 1 && id in drawn
    {
      hide Inv, Ids, Clocks;
      Invariant.StepKeeps(opts, Abs(), Event.Draw, 0);
      seqNo := seqNo + 1;
      drawn := drawn + {seqNo};
      return seqNo;
    }

    /** A lease request's turn in the waiting loop: take the grant, or note the channel to wait on. */
    method CheckLease(t: Ticket, now: int) returns (granted: bool)
      requires Invariant.Apart(opts, Abs()) && t in queue && t.kind.Lease?
      modifies this
      ensures granted == CanAcquireLease(opts, old(View()), t, now)
      ensures Abs() == Check(opts, old(Abs()), t, now)
    {
      hide Inv, Ids, Clocks, Exclusion, IdsApart, Watched, Shaped, CanAcquireLease, Without, AddLease;
      granted := CanAcquireLeaseNow(t, now);
      if granted {
        ghost var s, c := Abs(), View();
        var l := ActiveLease(t, now, now + opts.maxLeaseHold, true);
        AddActive(l, now);
        ClocksAppend(old(Leases()), l);
        assert View() == AddLease(c, t) && Clocks(Leases()) == s.holds[t.id := HoldOf(l)];
        TakeFromQueue(t, s, c, now);
      } else {
        assert !CanAcquireBarrier(View(), t);
        parked := parked[t.id := Park(epoch, now)];
      }
    }

    /** The bookkeeping of a grant, once the lease has been added. */
    method TakeFromQueue(t: Ticket, ghost s: State, ghost c: Sched, ghost now: int)
      requires t.kind.Lease? && CanAcquireLease(opts, c, t, now) && s.c == c && s.c.queue == queue
      requires Abs() == s.(c := AddLease(c, t), holds := s.holds[t.id := Hold(t.kind.leaseType, now, now + opts.maxLeaseHold, true)])
      modifies this`queue, this`acquires, this`parked, this`epoch
      ensures Abs() == Check(opts, s, t, now)
    {
      hide Ids, Clocks, CanAcquireLease, Without, AddLease;
      var removed := RemoveTicket(t.id);
      acquires := acquires + 1;
      parked := parked - {t.id};
      epoch := epoch + 1;
      assert View() == AddLease(c, t).(queue := Without(c.queue, t.id));
    }

    method CheckBarrier(t: Ticket, now: int) returns (granted: bool)
      requires Invariant.Apart(opts, Abs()) && t in queue && t.kind.Barrier?
      modifies this
      ensures granted == CanAcquireBarrier(old(View()), t)
      ensures Abs() == Check(opts, old(Abs()), t, now)
    {
      hide Inv, Ids, Clocks, Exclusion, IdsApart, Watched, Shaped, CanAcquireBarrier, Without;
      granted := CanAcquireBarrierNow(t);
      if granted {
        var removed := RemoveTicket(t.id);
        activeBarriers := activeBarriers + [t];
        acquires := acquires + 1;
        parked := parked - {t.id};
        epoch := epoch + 1;
      } else {
        parked := parked[t.id := Park(epoch, now)];
      }
    }

    /** Joining the queue and checking for the first time happen under one hold of the lock. */
    method Arrive(t: Ticket, now: int) returns (granted: bool)
      requires Valid() && t.id in drawn && t.WellFormed()
      modifies this
      ensures Valid() && Abs() == Step(opts, old(Abs()), Event.Arrive(t), now)
      ensures granted <==> t.id !in Ids(queue)
    {
      hide Inv, Check, Invariant.Apart, Invariant.OthersNotMissed;
      ghost var s := Abs();
      Invariant.StepKeeps(opts, s, Event.Arrive(t), now);
      Invariant.EnqueueKeeps(opts, s, t);
      queue := queue + [t];
      drawn := drawn - {t.id};
      waitRequests := waitRequests + 1;
      epoch := epoch + 1;
      assert Abs() == Enqueue(s, t);
      assert queue[|s.c.queue|] == t;
      if t.kind.Lease? {
        granted := CheckLease(t, now);
      } else {
        granted := CheckBarrier(t, now);
      }
      GrantedLeavesQueue(opts, Enqueue(s, t), |s.c.queue|, now);
    }

    /** A lease request, under the number it has drawn: its class, mode and scope are normalised, and it
        joins the queue. */
    method Acquire(id: nat, req: Request, leaseType: LeaseType, enqueued: int, now: int) returns (granted: bool)
      requires Valid() && id in drawn
      modifies this
      ensures id > 0 && Valid()
      ensures Abs() == Step(opts, old(Abs()), Event.Arrive(LeaseTicket(id, req, leaseType, enqueued)), now)
      ensures var t := LeaseTicket(id, req, leaseType, enqueued);
        && t.cls == (if req.cls != "" then req.cls else if leaseType == OneShot then "USIMAKA" else "EUICCWrite")
        && t.channel == req.channel
        && (t.scope.QmiChannel? <==>
              leaseType == Transport && req.scope == QmiChannel && req.channel > 0 && Text.ToUpper(Text.Trim(req.mode)) == "QMI")
      ensures granted <==> id !in Ids(queue)
    {
      DrawnIsPositive(opts, Abs(), id);
      hide Inv, Step, Ids;
      granted := Arrive(LeaseTicket(id, req, leaseType, enqueued), now);
    }

    /** A barrier request, likewise. */
    method BeginBarrier(id: nat, req: Request, blockedClasses: seq<ApduClass>, enqueued: int, now: int) returns (granted: bool)
      requires Valid() && id in drawn
      modifies this
      ensures id > 0 && Valid()
      ensures Abs() == Step(opts, old(Abs()), Event.Arrive(BarrierTicket(id, req, blockedClasses, enqueued)), now)
      ensures forall c :: c in BarrierTicket(id, req, blockedClasses, enqueued).kind.blocked <==>
        if blockedClasses == [] then c in {"USIMAKA", "SMSC"}
        else (c != "" && c in blockedClasses) || (c == "USIMAKA" && "" in blockedClasses)
      ensures granted <==> id !in Ids(queue)
    {
      DrawnIsPositive(opts, Abs(), id);
      BlockedExactly(id, req, blockedClasses, enqueued);
      hide Inv, Step, Ids;
      granted := Arrive(BarrierTicket(id, req, blockedClasses, enqueued), now);
    }

    /** A waiter woken by a signal checks again. */
    method Recheck(t: Ticket, now: int) returns (granted: bool)
      requires Valid() && t in queue && t.id in parked && parked[t.id].epoch < epoch
      modifies this
      ensures Valid() && Abs() == Step(opts, old(Abs()), Event.Wake(t.id), now)
      ensures granted <==> t.id !in Ids(queue)
    {
      hide Inv, Check, Invariant.OthersNotMissed;
      ghost var s := Abs();
      ghost var i :| 0 <= i < |queue| && queue[i] == t;
      assert Distinct(queue) && Invariant.Apart(opts, s) by { ValidParts(opts, s); }
      IdsOf(queue);
      Theorems.FindAt(queue, i);
      Invariant.StepKeeps(opts, s, Event.Wake(t.id), now);
      if t.kind.Lease? {
        granted := CheckLease(t, now);
      } else {
        granted := CheckBarrier(t, now);
      }
      GrantedLeavesQueue(opts, s, i, now);
    }

    /** A waiter whose context ended leaves the queue. */
    method GiveUp(id: nat)
      requires Valid()
      modifies this
      ensures Valid() && Abs() == Step(opts, old(Abs()), Event.GiveUp(id), 0)
    {
      hide Inv, Ids, Clocks, Without;
      Invariant.StepKeeps(opts, Abs(), Event.GiveUp(id), 0);
      var removed := RemoveTicket(id);
      if removed {
        waitTimeouts := waitTimeouts + 1;
        parked := parked - {id};
        epoch := epoch + 1;
      } else {
        assert queue == old(queue) by { NotQueued(old(queue), id); }
      }
    }

    /** Sets the deadline of the lease at position k of its list, and its timer. */
    method SetClock(t: LeaseType, k: nat, expiresAt: int, armed: bool)
      requires k < |ListOf(t)|
      modifies this`activeSessions, this`activeOneshot, this`activeTransports
      ensures ListOf(t) == Rearmed(old(ListOf(t)), k, expiresAt, armed)
      ensures forall u :: u != t ==> ListOf(u) == old(ListOf(u))
    {
      match t {
        case Session => activeSessions := activeSessions[k := activeSessions[k].(expiresAt := expiresAt, armed := armed)];
        case OneShot => activeOneshot := Some(activeOneshot.value.(expiresAt := expiresAt, armed := armed));
        case Transport => activeTransports := activeTransports[k := activeTransports[k].(expiresAt := expiresAt, armed := armed)];
      }
    }

    lemma FromLists()
      ensures Leases() == ListOf(Session) + ListOf(OneShot) + ListOf(Transport)
      ensures View().queue == queue && View().barriers == activeBarriers
      ensures View().sessions == Tickets(ListOf(Session)) && View().transports == Tickets(ListOf(Transport))
      ensures View().oneshot == if ListOf(OneShot) == [] then None else Some(Tickets(ListOf(OneShot))[0])
    {
    }

    method FindActive(id: nat, t: LeaseType) returns (found: bool, k: nat)
      ensures k == FindLease(ListOf(t), id) && found == (k < |ListOf(t)|)
    {
      match t {
        case Session =>
          k := FindActiveIn(activeSessions, id);
          found := k < |activeSessions|;
        case OneShot =>
          var ls := if activeOneshot.Some? then [activeOneshot.value] else [];
          k := FindActiveIn(ls, id);
          found := k < |ls|;
        case Transport =>
          k := FindActiveIn(activeTransports, id);
          found := k < |activeTransports|;
      }
    }

    /** Restarting a watchdog changes that lease's clock and nothing else. */
    method Rearm(t: LeaseType, k: nat, expiresAt: int, armed: bool)
      requires k < |ListOf(t)| && Exclusion(opts, View()) && Distinct(View().Leases())
      modifies this`activeSessions, this`activeOneshot, this`activeTransports
      ensures View() == old(View())
      ensures var id := old(ListOf(t))[k].ticket.id;
        id in old(Clocks(Leases())) &&
        Clocks(Leases()) == old(Clocks(Leases()))[id := old(Clocks(Leases()))[id].(expiresAt := expiresAt, armed := armed)]
    {
      hide Ids, Clocks, Exclusion, Distinct, Rearmed, View, Leases, ListOf, Oneshot;
      LeasesMatch();
      OnlyThese(t);
      FromLists();
      ghost var was := ListOf(t);
      ClocksUpdate(was, k, expiresAt, armed);
      SetClock(t, k, expiresAt, armed);
      FromLists();
      assert View() == old(View());
      OnlyThese(t);
    }

    method Touch(id: nat, t: LeaseType, now: int) returns (active: bool)
      requires Valid()
      modifies this
      ensures Valid() && Abs() == Step(opts, old(Abs()), Event.Touch(id, t), now)
      ensures active == (id in Ids(Active(old(View()), t)))
    {
      hide Inv, Ids, Clocks, Exclusion, Distinct, Active;
      ghost var s := Abs();
      ValidParts(opts, s);
      Invariant.StepKeeps(opts, s, Event.Touch(id, t), now);
      ListTickets(t);
      var found, k := FindActive(id, t);
      active := found;
      if found {
        Rearm(t, k, now + opts.maxLeaseHold, true);
      }
    }

    /** Ends an active lease, if it is still there; its clock goes with it. */
    method EndActive(id: nat, t: LeaseType) returns (removed: bool)
      requires Exclusion(opts, View()) && Distinct(View().Leases())
      modifies this`activeSessions, this`activeOneshot, this`activeTransports
      ensures removed == (id in Ids(Active(old(View()), t)))
      ensures View() == if removed then RemoveLease(old(View()), id, t) else old(View())
      ensures Clocks(Leases()) == if removed then old(Clocks(Leases())) - {id} else old(Clocks(Leases()))
    {
      hide Clocks, Exclusion, Distinct, RemoveLease, Ids, Active, Cut, Find;
      LeasesMatch();
      FromLists();
      ListTickets(t);
      ghost var was, view := ListOf(t), View();
      ghost var k := FindLease(was, id);
      if k < |was| {
        OnlyThese(t);
        CutClocks(was, id);
        CutTickets(was, id);
        RemovalKeepsOthers(opts, view, id, t);
      }
      removed := RemoveActive(id, t);
      if removed {
        assert Leases() == ListOf(t) by { OnlyTheseLeft(t); }
      } else {
        assert View() == view by { NothingToRemove(view, id, t); }
      }
    }

    /** Where all leases are of one kind, its list is all of them. */
    lemma OnlyTheseLeft(t: LeaseType)
      requires forall u :: u != t ==> Active(View(), u) == []
      ensures Leases() == ListOf(t)
    {
      hide Active;
      FromLists();
      forall u | u != t ensures ListOf(u) == [] {
        ListTickets(u);
      }
    }

    method Release(id: nat, t: LeaseType)
      requires Valid()
      modifies this
      ensures Valid() && Abs() == Step(opts, old(Abs()), Event.Release(id, t), 0)
    {
      hide Inv, Ids, Clocks, Exclusion, Distinct, Active, RemoveLease;
      ghost var s := Abs();
      ValidParts(opts, s);
      Invariant.StepKeeps(opts, s, Event.Release(id, t), 0);
      var removed := EndActive(id, t);
      if removed {
        epoch := epoch + 1;
      }
    }

    /** The runtime fires a watchdog timer: its callback is now on its way to the lock. */
    method Fire(id: nat, t: LeaseType, now: int)
      requires Valid() && Enabled(Abs(), Event.Fire(id), now) && Abs().holds[id].leaseType == t
      modifies this
      ensures Valid() && Abs() == Step(opts, old(Abs()), Event.Fire(id), now)
    {
      hide Inv, Ids, Clocks, Exclusion, Distinct, Active, Shaped, Balanced, NobodyMissed, Find;
      ghost var s := Abs();
      ValidParts(opts, s);
      Invariant.StepKeeps(opts, s, Event.Fire(id), now);
      ListTickets(t);
      HeldIsListed(opts, s, id);
      var found, k := FindActive(id, t);
      if found {
        var l := LeaseAt(t, k);
        ClockOfListed(t, k);
        Rearm(t, k, l.expiresAt, false);
        callbacks := callbacks + multiset{(id, t)};
      }
    }

    method LeaseAt(t: LeaseType, k: nat) returns (l: ActiveLease)
      requires k < |ListOf(t)|
      ensures l == ListOf(t)[k]
    {
      match t {
        case Session => l := activeSessions[k];
        case OneShot => l := activeOneshot.value;
        case Transport => l := activeTransports[k];
      }
    }

    lemma ClockOfListed(t: LeaseType, k: nat)
      requires Exclusion(opts, View()) && Distinct(View().Leases()) && k < |ListOf(t)|
      ensures ListOf(t)[k].ticket.id in Clocks(Leases())
      ensures Clocks(Leases())[ListOf(t)[k].ticket.id] == HoldOf(ListOf(t)[k])
    {
      hide Clocks, Exclusion, Distinct;
      LeasesMatch();
      OnlyThese(t);
      ClockAt(Leases(), k);
    }

    /** What a watchdog callback does to the lease it finds. */
    method Reclaim(id: nat, t: LeaseType, now: int)
      requires Exclusion(opts, View()) && Distinct(View().Leases())
      modifies this`activeSessions, this`activeOneshot, this`activeTransports, this`epoch, this`forcedReleases
      ensures
        var found := id in Ids(Active(old(View()), t));
        var clocks, clocks' := old(Clocks(Leases())), Clocks(Leases());
        && (found ==> id in clocks)
        && (!found ==> View() == old(View()) && clocks' == clocks && epoch == old(epoch) && forcedReleases == old(forcedReleases))
        && (found && clocks[id].expiresAt > now ==>
             View() == old(View()) && clocks' == clocks[id := clocks[id].(armed := true)]
             && epoch == old(epoch) && forcedReleases == old(forcedReleases))
        && (found && clocks[id].expiresAt <= now ==>
             View() == RemoveLease(old(View()), id, t) && clocks' == clocks - {id}
             && epoch == old(epoch) + 1 && forcedReleases == old(forcedReleases) + 1)
    {
      hide Ids, Clocks, Exclusion, Distinct, Active, RemoveLease, View, Leases;
      ListTickets(t);
      var found, k := FindActive(id, t);
      if !found {
        return;
      }
      ClockOfListed(t, k);
      var l := LeaseAt(t, k);
      if l.expiresAt - now > 0 {
        Rearm(t, k, l.expiresAt, true);
      } else {
        var removed := EndActive(id, t);
        forcedReleases := forcedReleases + 1;
        epoch := epoch + 1;
      }
    }

    /** The watchdog callback of one lease. */
    method ReleaseExpired(id: nat, t: LeaseType, now: int)
      requires Valid() && (id, t) in callbacks
      modifies this
      ensures Valid() && Abs() == Step(opts, old(Abs()), Event.Expire(id, t), now)
    {
      hide Inv, Ids, Clocks, Exclusion, Distinct, Active, RemoveLease, DoExpire, View, Leases;
      ghost var s := Abs();
      ValidParts(opts, s);
      Invariant.StepKeeps(opts, s, Event.Expire(id, t), now);
      ExpireCases(opts, s, id, t, now);
      callbacks := callbacks - multiset{(id, t)};
      Reclaim(id, t, now);
    }

    method ReleaseBarrier(id: nat)
      requires Valid()
      modifies this
      ensures Valid() && Abs() == Step(opts, old(Abs()), Event.LeaveBarrier(id), 0)
    {
      hide Inv, Ids, Clocks;
      Invariant.StepKeeps(opts, Abs(), Event.LeaveBarrier(id), 0);
      var k := 0;
      while k < |activeBarriers| && activeBarriers[k].id != id
        invariant k <= |activeBarriers| && forall j :: 0 <= j < k ==> activeBarriers[j].id != id
      {
        k := k + 1;
      }
      assert k == Find(activeBarriers, id);
      if k < |activeBarriers| {
        activeBarriers := activeBarriers[..k] + activeBarriers[k + 1..];
        epoch := epoch + 1;
      }
    }
  }
}
