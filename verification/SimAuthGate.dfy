/** The SIMAuth readiness gate: callers share one probe at a time, and a generation number makes a
    probe that was overtaken by an invalidation worthless. */
module SimAuthGate {
  import opened Wrappers
  import opened ArbiterModel

  /** The gate's fields. A wait channel is known by its number. */
  datatype Fields = Fields(generation: nat, ready: bool, probing: bool, waitC: Option<nat>)

  /** Where a caller of WaitSIMAuthReady is. */
  datatype Pc = Looking | Waiting(c: nat) | Probing(generation: nat, c: nat) | Returned(ok: bool)

  /** madeC counts the channels made so far; discards the successful probes thrown away as stale. */
  datatype State = State(g: Fields, madeC: nat, closed: set<nat>, pcs: map<nat, Pc>, discards: nat)

  const INIT: State := State(Fields(0, false, false, None), 0, {}, map[], 0)

  datatype Event =
    | Call(caller: nat)
    | Look(caller: nat)
    | Resume(caller: nat)
    | Abandon(caller: nat)
    | EndProbe(caller: nat, ok: bool)
    | Invalidate

  predicate Enabled(s: State, e: Event) {
    match e
    case Call(k) => k !in s.pcs
    case Look(k) => k in s.pcs && s.pcs[k].Looking?
    case Resume(k) => k in s.pcs && s.pcs[k].Waiting? && s.pcs[k].c in s.closed
    case Abandon(k) => k in s.pcs && (s.pcs[k].Looking? || s.pcs[k].Waiting?)
    case EndProbe(k, _) => k in s.pcs && s.pcs[k].Probing?
    case Invalidate => true
  }

  /** The locked section at the top of the loop. */
  function DoLook(s: State, k: nat): State {
    if s.g.ready then s.(pcs := s.pcs[k := Returned(true)])
    else if s.g.probing then
      match s.g.waitC
      case Some(c) => s.(pcs := s.pcs[k := Waiting(c)])
      case None => s.(g := s.g.(waitC := Some(s.madeC)), madeC := s.madeC + 1, pcs := s.pcs[k := Waiting(s.madeC)])
    else
      s.(g := s.g.(probing := true, waitC := Some(s.madeC)), madeC := s.madeC + 1,
         pcs := s.pcs[k := Probing(s.g.generation, s.madeC)])
  }

  /** The locked section after the probe. */
  function DoEndProbe(s: State, k: nat, ok: bool, generation: nat, c: nat): State {
    var stale := s.g.generation != generation;
    var mine := s.g.waitC == Some(c);
    s.(g := Fields(s.g.generation, if stale then s.g.ready else ok, false, if mine then None else s.g.waitC),
       closed := if mine then s.closed + {c} else s.closed,
       pcs := s.pcs[k := if !ok then Returned(false) else if stale then Looking else Returned(true)],
       discards := s.discards + (if ok && stale then 1 else 0))
  }

  function Step(s: State, e: Event): State {
    match e
    case Call(k) => s.(pcs := s.pcs[k := Looking])
    case Look(k) => DoLook(s, k)
    case Resume(k) => s.(pcs := s.pcs[k := Looking])
    case Abandon(k) => s.(pcs := s.pcs[k := Returned(false)])
    case EndProbe(k, ok) =>
      if k in s.pcs && s.pcs[k].Probing? then DoEndProbe(s, k, ok, s.pcs[k].generation, s.pcs[k].c) else s
    case Invalidate => s.(g := s.g.(generation := s.g.generation + 1, ready := false))
  }

  predicate IsProbing(s: State, k: nat) { k in s.pcs && s.pcs[k].Probing? }

  ghost predicate Inv(s: State) {
    // At most one probe runs, the flag says whether one does, and its channel is the open one.
    && (forall k, l :: IsProbing(s, k) && IsProbing(s, l) ==> k == l)
    && (s.g.probing <==> exists k :: IsProbing(s, k))
    && (s.g.probing <==> s.g.waitC.Some?)
    && (forall k :: IsProbing(s, k) ==> s.g.waitC == Some(s.pcs[k].c) && s.pcs[k].generation <= s.g.generation)
    // Of the channels made, exactly the current one is open.
    && (forall c :: c in s.closed ==> c < s.madeC)
    && (forall c :: 0 <= c < s.madeC ==> (c in s.closed <==> s.g.waitC != Some(c)))
    && (s.g.waitC.Some? ==> s.g.waitC.value < s.madeC)
    // Everybody waits on a channel that was made.
    && (forall k :: k in s.pcs && s.pcs[k].Waiting? ==> s.pcs[k].c < s.madeC)
    && (s.g.ready ==> !s.g.probing)
    // Every discarded success was paid for by an invalidation before the current probe.
    && s.discards <= s.g.generation
    && (forall k :: IsProbing(s, k) ==> s.discards <= s.pcs[k].generation)
  }

  lemma StepKeeps(s: State, e: Event)
    requires Inv(s) && Enabled(s, e)
    ensures Inv(Step(s, e))
  {
    var n := Step(s, e);
    match e
    case Look(k) =>
      if !s.g.ready && !s.g.probing {
        assert IsProbing(n, k);
        assert forall l :: l != k ==> (IsProbing(n, l) <==> IsProbing(s, l));
      } else {
        assert forall l :: IsProbing(n, l) <==> IsProbing(s, l);
      }
    case EndProbe(k, ok) =>
      assert IsProbing(s, k);
      assert forall l :: IsProbing(n, l) ==> IsProbing(s, l) && l != k;
    case _ => assert forall l :: IsProbing(n, l) <==> IsProbing(s, l);
  }

  datatype Run = Run(states: seq<State>, events: seq<Event>)

  predicate IsRun(r: Run) {
    && |r.states| == |r.events| + 1 && r.states[0] == INIT
    && forall i :: 0 <= i < |r.events| ==> Enabled(r.states[i], r.events[i]) && r.states[i + 1] == Step(r.states[i], r.events[i])
  }

  lemma {:induction false} Always(r: Run, n: nat)
    requires IsRun(r) && n < |r.states|
    ensures Inv(r.states[n])
  {
    if n > 0 {
      Always(r, n - 1);
      StepKeeps(r.states[n - 1], r.events[n - 1]);
    }
  }

  /** In every reachable state at most one probe runs, and the probing flag is up exactly while the
      current wait channel is open. */
  lemma OneProbeAtATime(r: Run, n: nat)
    requires IsRun(r) && n < |r.states|
    ensures var s := r.states[n];
      && (forall k, l :: IsProbing(s, k) && IsProbing(s, l) ==> k == l)
      && (s.g.probing <==> s.g.waitC.Some? && s.g.waitC.value !in s.closed)
      && (s.g.waitC.Some? ==> s.g.probing)
  {
    Always(r, n);
  }

  /** Nobody waits in vain: a waiter's channel is closed already, or a running probe will close it. */
  lemma WaitersAreServed(r: Run, n: nat, k: nat)
    requires IsRun(r) && n < |r.states| && k in r.states[n].pcs && r.states[n].pcs[k].Waiting?
    ensures Enabled(r.states[n], Resume(k)) || exists p ::
      IsProbing(r.states[n], p) && forall ok :: Enabled(Step(r.states[n], EndProbe(p, ok)), Resume(k))
  {
    Always(r, n);
    var s := r.states[n];
    if s.pcs[k].c !in s.closed {
      var p :| IsProbing(s, p);
      assert forall ok :: Enabled(Step(s, EndProbe(p, ok)), Resume(k));
    }
  }

  /** Caller k started a probe at event i and nothing was invalidated from then until n. */
  predicate StartedSince(r: Run, i: nat, k: nat, n: nat)
    requires IsRun(r)
  {
    && i < n < |r.states|
    && r.events[i] == Look(k) && !IsProbing(r.states[i], k) && IsProbing(r.states[i + 1], k)
    && forall x :: i <= x < n ==> !r.events[x].Invalidate?
  }

  /** A running probe of the current generation was started after the latest invalidation. */
  lemma {:induction false} ProbeIsFresh(r: Run, n: nat, k: nat) returns (i: nat)
    requires IsRun(r) && n < |r.states| && IsProbing(r.states[n], k)
    requires r.states[n].pcs[k].generation == r.states[n].g.generation
    ensures StartedSince(r, i, k, n) && forall x :: i < x <= n ==> IsProbing(r.states[x], k)
  {
    var p, e := r.states[n - 1], r.events[n - 1];
    Always(r, n - 1);
    if IsProbing(p, k) {
      assert e.Invalidate? ==> p.pcs[k].generation <= p.g.generation;
      i := ProbeIsFresh(r, n - 1, k);
    } else {
      i := n - 1;
    }
  }

  /** Whenever the gate is ready, some probe that started after the latest invalidation succeeded. */
  lemma {:induction false} ReadyMeansProbed(r: Run, n: nat) returns (i: nat, j: nat, k: nat)
    requires IsRun(r) && n < |r.states| && r.states[n].g.ready
    ensures i < j < n && StartedSince(r, i, k, n) && r.events[j] == EndProbe(k, true)
    ensures IsProbing(r.states[j], k) && forall x :: i < x <= j ==> IsProbing(r.states[x], k)
  {
    var p, e := r.states[n - 1], r.events[n - 1];
    Always(r, n - 1);
    if p.g.ready && !(e.EndProbe? && IsProbing(p, e.caller)) {
      i, j, k := ReadyMeansProbed(r, n - 1);
    } else {
      k, j := e.caller, n - 1;
      i := ProbeIsFresh(r, n - 1, k);
    }
  }

  /** How many invalidations the first n events hold. */
  function Invalidations(es: seq<Event>, n: nat): nat
    requires n <= |es|
  {
    if n == 0 then 0 else Invalidations(es, n - 1) + (if es[n - 1].Invalidate? then 1 else 0)
  }

  lemma {:induction false} GenerationCounts(r: Run, n: nat)
    requires IsRun(r) && n < |r.states|
    ensures r.states[n].g.generation == Invalidations(r.events, n)
  {
    if n > 0 {
      GenerationCounts(r, n - 1);
    }
  }

  /** All callers together throw away at most as many successful probes as there were invalidations. */
  lemma DiscardsAreBounded(r: Run, n: nat)
    requires IsRun(r) && n < |r.states|
    ensures r.states[n].discards <= Invalidations(r.events, n)
  {
    Always(r, n);
    GenerationCounts(r, n);
  }

  /** A stale success never makes the gate ready, and a caller returns success only through the flag
      or through its own probe of the current generation. */
  lemma SuccessIsCurrent(s: State, e: Event, k: nat)
    requires Inv(s) && Enabled(s, e) && k in Step(s, e).pcs && Step(s, e).pcs[k] == Returned(true)
    requires k !in s.pcs || s.pcs[k] != Returned(true)
    ensures Step(s, e).g.ready
    ensures e == Look(k) || (e == EndProbe(k, true) && s.pcs[k].generation == s.g.generation)
  {
  }

  lemma {:induction false} ProbeKeepsItsStart(r: Run, i: nat, j: nat, k: nat)
    requires IsRun(r) && i < j < |r.states| && r.events[i] == Look(k)
    requires forall x :: i < x <= j ==> IsProbing(r.states[x], k)
    ensures IsProbing(r.states[i + 1], k) && IsProbing(r.states[j], k) && r.states[j].pcs[k] == r.states[i + 1].pcs[k]
    ensures r.states[j].pcs[k].generation == r.states[i].g.generation
  {
    if i + 1 < j {
      ProbeKeepsItsStart(r, i, j - 1, k);
      assert r.states[j] == Step(r.states[j - 1], r.events[j - 1]);
    }
  }

  lemma {:induction false} NoneBetween(es: seq<Event>, i: nat, j: nat)
    requires i <= j <= |es|
    ensures Invalidations(es, i) <= Invalidations(es, j)
    ensures Invalidations(es, i) == Invalidations(es, j) <==> forall x :: i <= x < j ==> !es[x].Invalidate?
  {
    if i < j { NoneBetween(es, i, j - 1); }
  }

  /** The caller whose probe ends is answered by it: an error is returned; a success is returned, and makes
      the gate ready, exactly when nothing was invalidated while the probe ran; otherwise the caller looks
      again instead of returning, and the gate stays as the invalidation left it. */
  lemma ProbeAnswers(r: Run, i: nat, j: nat, k: nat, ok: bool)
    requires IsRun(r) && i < j < |r.events| && r.events[i] == Look(k) && r.events[j] == EndProbe(k, ok)
    requires forall x :: i < x <= j ==> IsProbing(r.states[x], k)
    ensures var quiet, n := (forall x :: i <= x < j ==> !r.events[x].Invalidate?), r.states[j + 1];
      && k in n.pcs && n.pcs[k] == (if !ok then Returned(false) else if quiet then Returned(true) else Looking)
      && n.g.ready == (if quiet then ok else r.states[j].g.ready)
      && n.discards == r.states[j].discards + if ok && !quiet then 1 else 0
  {
    ProbeKeepsItsStart(r, i, j, k);
    GenerationCounts(r, i);
    GenerationCounts(r, j);
    NoneBetween(r.events, i, j);
    assert r.states[j + 1] == Step(r.states[j], r.events[j]);
    hide Inv, Invalidations;
  }

  /** A caller that looks returns at once where the gate is ready, waits for the running probe where there
      is one, and otherwise runs the probe itself; nobody else's place changes. */
  lemma LookAnswers(r: Run, i: nat, k: nat)
    requires IsRun(r) && i < |r.events| && r.events[i] == Look(k)
    ensures var s, n := r.states[i], r.states[i + 1];
      && (n.pcs[k] == Returned(true) <==> s.g.ready)
      && (n.pcs[k].Waiting? <==> exists p :: IsProbing(s, p))
      && (n.pcs[k].Waiting? ==> forall p :: IsProbing(s, p) ==> n.pcs[k].c == s.pcs[p].c)
      && (n.pcs[k].Probing? <==> !s.g.ready && forall p :: !IsProbing(s, p))
      && (n.pcs[k].Probing? ==> n.pcs[k].generation == Invalidations(r.events, i))
      && forall p :: p != k ==> (p in n.pcs <==> p in s.pcs) && (p in s.pcs ==> n.pcs[p] == s.pcs[p])
  {
    Always(r, i);
    GenerationCounts(r, i);
    assert r.states[i + 1] == Step(r.states[i], r.events[i]);
    hide Invalidations;
  }

  /** What a look at the gate tells a caller to do. */
  datatype Verdict = Ready | WaitOn(c: nat) | RunProbe(generation: nat, c: nat)

  /** The gate object. Its channels are numbered in the order they are made. */
  class Gate {
    var generation: nat
    var ready: bool
    var probing: bool
    var waitC: Option<nat>
    var madeC: nat
    var closed: set<nat>
    // What the callers around the gate are doing.
    ghost var pcs: map<nat, Pc>
    ghost var discards: nat

    ghost function Abs(): State
      reads this
    {
      State(Fields(generation, ready, probing, waitC), madeC, closed, pcs, discards)
    }

    constructor ()
      ensures Abs() == INIT && Inv(Abs())
    {
      generation, ready, probing, waitC, madeC, closed := 0, false, false, None, 0, {};
      pcs, discards := map[], 0;
    }

    method InvalidateReady()
      requires Inv(Abs())
      modifies this
      ensures Inv(Abs()) && Abs() == Step(old(Abs()), Invalidate)
    {
      StepKeeps(Abs(), Invalidate);
      generation := generation + 1;
      ready := false;
    }

    /** One pass through the top of the waiting loop. */
    method LookIn(caller: nat) returns (v: Verdict)
      requires Inv(Abs()) && Enabled(Abs(), Look(caller))
      modifies this
      ensures Inv(Abs()) && Abs() == Step(old(Abs()), Look(caller))
      ensures v.Ready? <==> old(ready)
      ensures v.WaitOn? ==> pcs[caller] == Waiting(v.c) && v.c !in closed
      ensures v.RunProbe? ==> pcs[caller] == Probing(v.generation, v.c) && v.generation == generation
    {
      StepKeeps(Abs(), Look(caller));
      if ready {
        pcs := pcs[caller := Returned(true)];
        return Ready;
      }
      if probing {
        // The program would make a channel here if there were none, which cannot be.
        if waitC.None? {
          assert false;
        }
        pcs := pcs[caller := Waiting(waitC.value)];
        return WaitOn(waitC.value);
      }
      probing, waitC, madeC := true, Some(madeC), madeC + 1;
      pcs := pcs[caller := Probing(generation, waitC.value)];
      return RunProbe(generation, waitC.value);
    }

    /** The probe has answered. True is returned when the caller must look again. */
    method FinishProbe(caller: nat, startGeneration: nat, c: nat, ok: bool) returns (again: bool)
      requires Inv(Abs()) && caller in pcs && pcs[caller] == Probing(startGeneration, c)
      modifies this
      ensures Inv(Abs()) && Abs() == Step(old(Abs()), EndProbe(caller, ok))
      ensures again <==> pcs[caller].Looking?
      ensures !probing && c in closed
    {
      StepKeeps(Abs(), EndProbe(caller, ok));
      assert IsProbing(Abs(), caller);
      var stale := generation != startGeneration;
      if !stale {
        ready := ok;
      }
      if waitC == Some(c) {
        closed := closed + {c};
        waitC := None;
      }
      probing := false;
      again := ok && stale;
      pcs := pcs[caller := if !ok then Returned(false) else if stale then Looking else Returned(true)];
      discards := discards + (if again then 1 else 0);
    }
  }
}
