/** Wake-ups: no change of state is missed, yet a request crossing the aging mark wakes nobody.
    A set of waiters that have all re-checked an idle arbiter is empty unless that happened. */
module ArbiterWakeup {
  import opened Wrappers
  import opened ArbiterModel
  import opened ArbiterRuns
  import opened ArbiterTheorems
  import Invariant = ArbiterInvariant
  import opened Selection = ArbiterSelection

  /** Every waiter has re-checked since the last signal, at some time between lo and hi. */
  predicate AllRechecked(s: State, lo: int, hi: int) {
    forall i :: 0 <= i < |s.c.queue| ==>
      var id := s.c.queue[i].id; id in s.parked && s.parked[id].epoch == s.epoch && lo <= s.parked[id].at <= hi
  }

  /** Nothing is active, requests wait, and no waiter will look again unless someone comes or leaves. */
  predicate Stuck(s: State) {
    && s.c.NoLease() && s.c.barriers == [] && s.c.queue != []
    && forall i :: 0 <= i < |s.c.queue| ==> s.c.queue[i].id in s.parked && s.parked[s.c.queue[i].id].epoch == s.epoch
  }

  lemma RefusedMeansNoWork(o: Options, s: State, lo: int, hi: int)
    requires Inv(o, s) && s.c.NoLease() && s.c.barriers == [] && s.c.queue != []
    requires AllRechecked(s, lo, hi) && lo <= hi
    ensures s.c.queue[0].IsTransport() && SelectedIndex(o, s.c, lo) < |s.c.queue|
    ensures FirstBarrier(s.c.queue) == |s.c.queue|
  {
    hide Ids, Exclusion, Watched, CanAcquireLease, SetsApart;
    forall k | 0 <= k < |s.c.queue| ensures s.c.queue[k].WellFormed() && NotMissed(o, s, s.c.queue[k]) {
      assert s.c.queue[k] in s.c.queue;
    }
    SomeoneIsGrantable(o, s.c, lo);
    var b := FirstBarrier(s.c.queue);
    if b < |s.c.queue| {
      BarrierThenEnters(o, s);
    } else if !s.c.queue[0].IsTransport() {
      HeadIsGrantable(o, s.c, s.parked[s.c.queue[0].id].at);
    }
  }

  /** A session or one-shot request at the head of an idle arbiter's queue is grantable. */
  lemma HeadIsGrantable(o: Options, c: Sched, now: int)
    requires o.Normal() && c.NoLease() && c.barriers == [] && c.queue != []
    requires FirstBarrier(c.queue) == |c.queue| && !c.queue[0].IsTransport()
    ensures CanAcquireLease(o, c, c.queue[0], now)
  {
    assert forall k, cl :: 0 <= k < |c.queue| ==> !c.queue[k].Blocks(cl);
  }

  /** When every waiter has re-checked since the last signal and nothing is active, the queue is
      empty, unless some request crossed the aging mark between the first check and the last. */
  lemma IdleMeansEmptyUnlessOneAged(o: Options, r: Run, n: nat, lo: int, hi: int)
    requires IsRun(o, r) && n < |r.states| && lo <= hi
    requires r.states[n].c.NoLease() && r.states[n].c.barriers == [] && AllRechecked(r.states[n], lo, hi)
    ensures r.states[n].c.queue == [] || !Steady(o, r.states[n].c, lo, hi)
  {
    hide Inv, Step, Enabled, Steady, AllRechecked, FirstBarrier;
    Always(o, r, n);
    if r.states[n].c.queue != [] {
      RefusedMeansUnsteady(o, r.states[n], lo, hi);
    }
  }

  lemma RefusedMeansUnsteady(o: Options, s: State, lo: int, hi: int)
    requires Inv(o, s) && s.c.NoLease() && s.c.barriers == [] && s.c.queue != []
    requires AllRechecked(s, lo, hi) && lo <= hi
    ensures !Steady(o, s.c, lo, hi)
  {
    hide Ids, Exclusion, Watched, CanAcquireLease, SetsApart, Steady, SelectedIndex;
    RefusedMeansNoWork(o, s, lo, hi);
    forall k | 0 <= k < |s.c.queue| ensures s.c.queue[k].WellFormed() && NotMissed(o, s, s.c.queue[k]) {
      assert s.c.queue[k] in s.c.queue;
    }
    var k := SelectedIndex(o, s.c, lo);
    var at := s.parked[s.c.queue[k].id].at;
    SomeoneIsGrantable(o, s.c, at);
    if Steady(o, s.c, lo, hi) {
      SteadyMeansConstant(o, s.c, lo, hi, at);
    }
  }

  /** Once stuck, the arbiter's queue stays as it is until a request arrives or gives up. */
  lemma StuckStays(o: Options, s: State, e: Event, now: int)
    requires Inv(o, s) && Stuck(s) && Enabled(s, e, now) && !e.Arrive? && !e.GiveUp?
    ensures Stuck(Step(o, s, e, now)) && Step(o, s, e, now).c == s.c
  {
    hide Exclusion, Watched, CanAcquire, SetsApart, Distinct, Shaped;
    match e
    case Release(id, t) => assert Active(s.c, t) == [];
    case Expire(id, t) => assert Active(s.c, t) == [];
    case Touch(id, t) => assert Active(s.c, t) == [];
    case _ =>
  }

  // ---- A run that gets stuck

  const DEFAULTS: Options := Options(0, 0, 0).Normalize()
  const HOLDER: Ticket := Ticket(1, EUICC_WRITE, 0, Exclusive, Lease(Transport), 0)
  const READER: Ticket := Ticket(2, "EUICCRead", 0, Exclusive, Lease(Transport), 0)
  const AKA: Ticket := Ticket(3, USIM_AKA, 0, Exclusive, Lease(Transport), 0)

  const MARK: int := TRANSPORT_PRIORITY_AGING

  /** A lease is held while a read and an AKA request arrive; it is released just before the read
      has waited 500 ms. The read looks first and yields to the AKA request; by the time the AKA
      request looks, the read has aged and goes first. Both wait for good. */
  const ENDING: seq<(Event, int)> :=
    [(Release(1, Transport), MARK - 1)] + ([(Wake(2), MARK - 1)] + ([(Wake(3), MARK)] + []))
  const MIDDLE: seq<(Event, int)> :=
    [(Arrive(HOLDER), 0)] + ([(Arrive(READER), 0)] + ([(Arrive(AKA), 0)] + ENDING))
  const STORY: seq<(Event, int)> := [(Draw, 0)] + ([(Draw, 0)] + ([(Draw, 0)] + MIDDLE))

  lemma TwoWaiting(c: Sched, now: int)
    requires c == Sched([READER, AKA], [], None, [], [])
    ensures WindowEnd(DEFAULTS, c, 0) == 2
    ensures SelectedTransport(DEFAULTS, c, now) == if now >= MARK then 2 else 3
    ensures !PendingBarrierAhead(c.queue, 2, READER.cls) && !PendingBarrierAhead(c.queue, 3, AKA.cls)
  {
    assert Eligible(DEFAULTS, c, READER) && Eligible(DEFAULTS, c, AKA);
    assert WindowEnd(DEFAULTS, c, 2) == 2 && WindowEnd(DEFAULTS, c, 1) == 2;
    var a := FirstFit(DEFAULTS, c, now, AgedOther, 0);
    if now >= MARK {
      assert Fits(DEFAULTS, c, now, AgedOther, c.queue[0]);
    } else {
      assert !Fits(DEFAULTS, c, now, AgedOther, c.queue[0]) && !Fits(DEFAULTS, c, now, AgedOther, c.queue[1]);
      assert a == 2;
      assert !Fits(DEFAULTS, c, now, Aka, c.queue[0]) && Fits(DEFAULTS, c, now, Aka, c.queue[1]);
      assert FirstFit(DEFAULTS, c, now, Aka, 0) == 1;
    }
  }

  /** The state of the story before the holder's release. */
  function Held(s: State): bool {
    && s.c == Sched([READER, AKA], [], None, [HOLDER], [])
    && s.seqNo == 3 && s.drawn == {}
    && s.parked.Keys == {2, 3} && s.parked[2].epoch < s.epoch + 1 && s.parked[3].epoch < s.epoch + 1
  }

  lemma HolderEnters(s: State)
    requires s.c == Sched([], [], None, [], []) && s.parked == map[] && s.drawn == {1, 2, 3} && s.seqNo == 3
    ensures var n := Step(DEFAULTS, s, Arrive(HOLDER), 0);
      n.c == Sched([], [], None, [HOLDER], []) && n.parked == map[] && n.drawn == {2, 3} && n.seqNo == 3
  {
    var q := Enqueue(s, HOLDER);
    assert q.c == Sched([HOLDER], [], None, [], []);
    assert Eligible(DEFAULTS, q.c, HOLDER) && !Stops(DEFAULTS, q.c, HOLDER);
    SelectedMeansPicked(DEFAULTS, q.c, 0);
    assert SelectedIndex(DEFAULTS, q.c, 0) == 0;
    assert Find(q.c.queue, 1) == 0;
  }

  lemma LaterOnesWait(s: State, t: Ticket)
    requires t in {READER, AKA} && t.id in s.drawn
    requires s.c == Sched(if t == READER then [] else [READER], [], None, [HOLDER], [])
    ensures Step(DEFAULTS, s, Arrive(t), 0) == Enqueue(s, t).(parked := s.parked[t.id := Park(s.epoch + 1, 0)])
    ensures Enqueue(s, t).c.queue == s.c.queue + [t]
  {
    var q := Enqueue(s, t);
    assert Stops(DEFAULTS, q.c, READER) && Stops(DEFAULTS, q.c, AKA);
    assert q.c.queue[0] in {READER, AKA};
    assert WindowEnd(DEFAULTS, q.c, 0) == 0;
    SelectedMeansPicked(DEFAULTS, q.c, 0);
  }

  /** The states passed through when the steps es are taken from s. */
  function Trace(s: State, es: seq<(Event, int)>): (r: seq<State>)
    ensures |r| == |es| + 1 && r[0] == s
    decreases |es|
  {
    if es == [] then [s] else [s] + Trace(Step(DEFAULTS, s, es[0].0, es[0].1), es[1..])
  }

  predicate Allowed(s: State, es: seq<(Event, int)>)
    decreases |es|
  {
    es == [] || (Enabled(s, es[0].0, es[0].1) && Allowed(Step(DEFAULTS, s, es[0].0, es[0].1), es[1..]))
  }

  function Last(s: State, es: seq<(Event, int)>): State { Trace(s, es)[|es|] }

  /** One step at a time. */
  lemma OneMore(s: State, e: Event, now: int, es: seq<(Event, int)>)
    requires Enabled(s, e, now) && Allowed(Step(DEFAULTS, s, e, now), es)
    ensures Allowed(s, [(e, now)] + es) && Last(s, [(e, now)] + es) == Last(Step(DEFAULTS, s, e, now), es)
  {
    hide Step, Enabled;
    assert ([(e, now)] + es)[1..] == es;
  }

  lemma {:induction false} TraceFollows(s: State, es: seq<(Event, int)>, i: nat)
    requires Allowed(s, es) && i < |es|
    ensures Enabled(Trace(s, es)[i], es[i].0, es[i].1)
    ensures Trace(s, es)[i + 1] == Step(DEFAULTS, Trace(s, es)[i], es[i].0, es[i].1)
    decreases |es|
  {
    hide Step, Enabled;
    if i > 0 {
      TraceFollows(Step(DEFAULTS, s, es[0].0, es[0].1), es[1..], i - 1);
    }
  }

  lemma HolderLeaves(s: State)
    requires Held(s)
    ensures var n := Step(DEFAULTS, s, Release(1, Transport), MARK - 1);
      n.c == Sched([READER, AKA], [], None, [], []) && n.parked == s.parked && n.epoch == s.epoch + 1
  {
    assert HOLDER.id in Ids(s.c.transports) by { assert s.c.transports[0].id == 1; }
    assert Find(s.c.transports, 1) == 0;
  }

  lemma EachYieldsToTheOther(s: State)
    requires s.c == Sched([READER, AKA], [], None, [], [])
    ensures Step(DEFAULTS, s, Wake(2), MARK - 1) == s.(parked := s.parked[2 := Park(s.epoch, MARK - 1)])
    ensures Step(DEFAULTS, s, Wake(3), MARK) == s.(parked := s.parked[3 := Park(s.epoch, MARK)])
  {
    hide SelectedTransport, PendingBarrierAhead, Ids, Grant;
    TwoWaiting(s.c, MARK - 1);
    TwoWaiting(s.c, MARK);
    assert s.c.queue[0].id == 2 && s.c.queue[1].id == 3;
    assert Find(s.c.queue, 2) == 0 && Find(s.c.queue, 3) == 1;
  }

  lemma ReleasedThenStuck(s: State)
    requires Held(s)
    ensures Allowed(s, ENDING) && Stuck(Last(s, ENDING))
  {
    hide Allowed, Last, Trace, Step;
    HolderLeaves(s);
    var s1 := Step(DEFAULTS, s, Release(1, Transport), MARK - 1);
    EachYieldsToTheOther(s1);
    var s2 := Step(DEFAULTS, s1, Wake(2), MARK - 1);
    EachYieldsToTheOther(s2);
    var s3 := Step(DEFAULTS, s2, Wake(3), MARK);
    assert s3.c.queue == [READER, AKA];
    assert s2.c.queue[1].id in Ids(s2.c.queue) && s1.c.queue[0].id in Ids(s1.c.queue);
    NoMore(s3);
    OneMore(s2, Wake(3), MARK, []);
    OneMore(s1, Wake(2), MARK - 1, [(Wake(3), MARK)] + []);
    OneMore(s, Release(1, Transport), MARK - 1, [(Wake(2), MARK - 1)] + ([(Wake(3), MARK)] + []));
  }

  lemma NoMore(s: State)
    ensures Allowed(s, []) && Last(s, []) == s
  {
  }

  lemma ArrivalsThen(s: State)
    requires s.c == Sched([], [], None, [], []) && s.parked == map[] && s.drawn == {1, 2, 3} && s.seqNo == 3
    ensures Allowed(s, MIDDLE) && Stuck(Last(s, MIDDLE))
  {
    hide Stuck, Allowed, Last, Trace, Check, Step;
    HolderEnters(s);
    var s1 := Step(DEFAULTS, s, Arrive(HOLDER), 0);
    LaterOnesWait(s1, READER);
    var s2 := Step(DEFAULTS, s1, Arrive(READER), 0);
    assert s2.c == Sched([READER], [], None, [HOLDER], []) && s2.drawn == {3};
    LaterOnesWait(s2, AKA);
    var s3 := Step(DEFAULTS, s2, Arrive(AKA), 0);
    assert s3.c.queue == [READER, AKA];
    assert Held(s3);
    ReleasedThenStuck(s3);
    OneMore(s2, Arrive(AKA), 0, ENDING);
    OneMore(s1, Arrive(READER), 0, [(Arrive(AKA), 0)] + ENDING);
    OneMore(s, Arrive(HOLDER), 0, [(Arrive(READER), 0)] + ([(Arrive(AKA), 0)] + ENDING));
  }

  lemma StoryStrands()
    ensures Allowed(INIT, STORY) && Stuck(Last(INIT, STORY))
  {
    hide Stuck, Allowed, Last, Trace;
    var s1 := Step(DEFAULTS, INIT, Draw, 0);
    var s2 := Step(DEFAULTS, s1, Draw, 0);
    var s3 := Step(DEFAULTS, s2, Draw, 0);
    assert s3.drawn == {1, 2, 3};
    ArrivalsThen(s3);
    OneMore(s2, Draw, 0, MIDDLE);
    OneMore(s1, Draw, 0, [(Draw, 0)] + MIDDLE);
    OneMore(INIT, Draw, 0, [(Draw, 0)] + ([(Draw, 0)] + MIDDLE));
  }

  /** Waiters can be stranded: a run ends with nothing active, two requests waiting, each parked on
      the current channel, so that nobody will check again until another request comes or one
      gives up. */
  lemma AgingCanStrandWaiters() returns (r: Run)
    ensures IsRun(DEFAULTS, r) && Stuck(r.states[|r.events|])
  {
    hide Stuck, Step, Enabled;
    StoryStrands();
    var es := STORY;
    r := Run(Trace(INIT, es), seq(|es|, i requires 0 <= i < |es| => es[i].0), seq(|es|, i requires 0 <= i < |es| => es[i].1));
    forall i | 0 <= i < |es| ensures Follows(DEFAULTS, r, i) {
      TraceFollows(INIT, es, i);
    }
  }
}
