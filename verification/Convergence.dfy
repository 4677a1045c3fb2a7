/** The bounded loop that waits, after a card switch, until the new card answers: when it reports
    success, when it asks for a core recovery, and how often it touches the card's power. */
module Convergence {
  import opened Wrappers
  import opened Text
  import opened SimIdentity

  /** An error, reduced to whether its kind or text says that a modem service stalled. */
  datatype Error = Error(stalls: bool)

  datatype Readiness = Readiness(
    transportReady: bool, controlReady: bool, uimReady: bool, iccid: string, imsi: string,
    slotKnown: bool, activeSlot: nat, reason: string, err: Option<Error>)

  datatype Action = WaitControl | WaitSim | WaitIdentity | RestoreRuntime

  datatype Decision = Decision(action: Action, reason: string)

  const TRANSPORT_FATAL := "transport_fatal"

  function Classify(r: Readiness, targetIccid: string): Decision {
    var target := Key(targetIccid);
    var reason := if r.reason == "" then "unknown" else r.reason;
    if !r.transportReady || !r.controlReady then Decision(WaitControl, reason)
    else if !r.uimReady then Decision(WaitSim, reason)
    else if Trim(target) != "" && Key(r.iccid) != target then Decision(WaitIdentity, "target_iccid_not_active")
    else if Trim(r.iccid) == "" && Trim(r.imsi) == "" then Decision(WaitIdentity, "identity_empty")
    else Decision(RestoreRuntime, reason)
  }

  /** The modem is ready and the card that answers is the target, or any card where there is none. */
  predicate Answers(r: Readiness, target: string) {
    && r.transportReady && r.controlReady && r.uimReady
    && (if Trim(Key(target)) != "" then Key(r.iccid) == Key(target) else Trim(r.iccid) != "" || Trim(r.imsi) != "")
  }

  /** With a target the switch counts as done exactly when transport, control and card are ready and the
      target's ICCID answers; without one, when they are ready and the card shows any identity. */
  lemma DoneExactly(r: Readiness, target: string)
    ensures Classify(r, target).action.RestoreRuntime? <==> Answers(r, target)
  {
    if Trim(r.iccid) == "" {
      assert ToUpper("") == "";
      assert Key(r.iccid) == "";
    }
    assert Trim("") == "";
    hide Trim, Key;
  }

  /** What the back end can do, each found out by a type assertion. */
  datatype Caps = Caps(modeProbe: bool, signalProbe: bool, recovery: bool, coreWait: bool, reload: bool, power: bool)

  datatype Options = Options(target: string, identityAttempts: int, reloadAfter: int, stallThreshold: int, reinitWindow: int)

  /** Non-positive counts mean the defaults. */
  function WithDefaults(o: Options): (r: Options)
    ensures r.identityAttempts > 0 && r.reloadAfter > 0 && r.stallThreshold > 0
    ensures r.target == o.target && r.reinitWindow == o.reinitWindow
  {
    o.(identityAttempts := if o.identityAttempts <= 0 then 20 else o.identityAttempts,
       reloadAfter := if o.reloadAfter <= 0 then 6 else o.reloadAfter,
       stallThreshold := if o.stallThreshold <= 0 then 2 else o.stallThreshold)
  }

  /** The answers the modem would give in one round, to whatever the round asks. */
  datatype Round = Round(
    readiness: Readiness, err: Option<Error>, mode: Option<Error>, signal: Option<Error>, accepted: bool,
    reloadOk: bool, reloadSlot: nat, cycle: Cycle)

  /** A power cycle: whether switching off and on succeed, and whether the context ends in between. */
  datatype Cycle = Cycle(offOk: bool, onOk: bool, ended: bool)

  /** Rounds are numbered from 1; clock(k) is the time round k reads after its probes. */
  datatype Env = Env(round: nat -> Round, clock: nat -> int, start: int, caps: Caps, opts: Options)

  ghost predicate Sane(e: Env) { e.opts == WithDefaults(e.opts) }

  datatype Effect =
    | RequestRecovery(attempt: nat, accepted: bool)
    | AwaitCore(attempt: nat)
    | BackOff(attempt: nat)
    | Reload(attempt: nat)
    | PowerOff(slot: nat)
    | PowerOn(slot: nat)

  datatype Result = Result(ready: bool, degraded: bool, reason: string, slot: nat)

  // ---- What one round sees

  predicate Stalls(e: Option<Error>) { e.Some? && e.value.stalls }

  function FirstError(a: Option<Error>, b: Option<Error>): Option<Error> { if a.Some? then a else b }

  /** The readiness as the loop keeps it: a failed read's error replaces the one inside. */
  function Seen(r: Round): Readiness { r.readiness.(err := FirstError(r.err, r.readiness.err)) }

  predicate Stalled(e: Env, k: nat) {
    var r := e.round(k);
    || r.readiness.reason == TRANSPORT_FATAL
    || Stalls(Seen(r).err)
    || (e.caps.modeProbe && Stalls(r.mode))
    || (e.caps.signalProbe && Stalls(r.signal))
  }

  predicate InWindow(e: Env, k: nat) { e.opts.reinitWindow > 0 && e.clock(k) < e.start + e.opts.reinitWindow }

  /** A stall that counts: the card is not expected to be re-initialising. */
  predicate Counted(e: Env, k: nat) { Stalled(e, k) && !InWindow(e, k) }

  predicate Done(e: Env, k: nat) { Classify(Seen(e.round(k)), e.opts.target).action.RestoreRuntime? }

  /** The loop's stall counter after round k. */
  function Streak(e: Env, k: nat): nat {
    if k == 0 || !Counted(e, k) then 0
    else if e.caps.recovery && Streak(e, k - 1) + 1 >= e.opts.stallThreshold then 0
    else Streak(e, k - 1) + 1
  }

  predicate Requests(e: Env, k: nat) {
    k > 0 && Counted(e, k) && e.caps.recovery && Streak(e, k - 1) + 1 >= e.opts.stallThreshold
  }

  predicate Reloads(e: Env, k: nat) {
    var r := e.round(k).readiness;
    && k == e.opts.reloadAfter && !Requests(e, k) && r.transportReady && r.controlReady
    && (e.caps.reload || e.caps.power)
  }

  predicate CycleFails(c: Cycle) { !c.offOk || !c.onOk || c.ended }

  predicate ReloadFails(e: Env, k: nat) {
    Reloads(e, k) && (if e.caps.reload then !e.round(k).reloadOk else CycleFails(e.round(k).cycle))
  }

  function SlotFor(r: Readiness): nat { if r.slotKnown && r.activeSlot != 0 then r.activeSlot else 1 }

  /** Switching on follows switching off unless the context ends first. */
  function CycleEffects(slot: nat, c: Cycle): seq<Effect> { [PowerOff(slot)] + (if c.ended then [] else [PowerOn(slot)]) }

  function Effects(e: Env, k: nat): seq<Effect> {
    if Requests(e, k) then
      [RequestRecovery(k, e.round(k).accepted)]
      + (if e.caps.coreWait then [AwaitCore(k)] else if e.round(k).accepted then [BackOff(k)] else [])
    else if Reloads(e, k) then
      if e.caps.reload then [Reload(k)] else CycleEffects(SlotFor(e.round(k).readiness), e.round(k).cycle)
    else []
  }

  /** The side effects of rounds 1 to k. */
  function Log(e: Env, k: nat): seq<Effect> { if k == 0 then [] else Log(e, k - 1) + Effects(e, k) }

  predicate Stops(e: Env, k: nat) { Done(e, k) || ReloadFails(e, k) || k >= e.opts.identityAttempts }

  function Outcome(e: Env, k: nat): Result {
    var r := Seen(e.round(k));
    if Done(e, k) then Result(true, false, Classify(r, e.opts.target).reason, r.activeSlot)
    else if ReloadFails(e, k) then
      Result(false, true, "reload_degraded", if e.caps.reload then e.round(k).reloadSlot else SlotFor(r))
    else if r.activeSlot != 0 then Result(false, true, "identity_convergence_timeout", r.activeSlot)
    else Result(false, true, Classify(r, e.opts.target).reason, 0)
  }

  // ---- The loop

  /** Whatever the modem answers, the loop ends after the first round that is done, whose reload fails
      or that is the last allowed; it reports exactly one of ready and degraded, and ready exactly when
      that round is done. */
  method Converge(e: Env) returns (result: Result, attempts: nat, log: seq<Effect>)
    requires Sane(e)
    ensures 1 <= attempts <= e.opts.identityAttempts && Stops(e, attempts)
    ensures forall k :: 1 <= k < attempts ==> !Stops(e, k)
    ensures result == Outcome(e, attempts) && result.ready != result.degraded
    ensures result.ready <==> Done(e, attempts)
    ensures log == if result.ready then Log(e, attempts - 1) else Log(e, attempts)
  {
    hide Classify, Log, Streak, Stops, Requests, Counted;
    log := [];
    StartFacts(e);
    var consecutiveStalls := 0;
    attempts := 1;
    while true
      invariant 1 <= attempts <= e.opts.identityAttempts
      invariant forall k :: 1 <= k < attempts ==> !Stops(e, k)
      invariant consecutiveStalls == Streak(e, attempts - 1)
      invariant log == Log(e, attempts - 1)
      decreases e.opts.identityAttempts - attempts
    {
      RoundFacts(e, attempts);
      StreakFacts(e, attempts);
      var answer := e.round(attempts);
      var r := answer.readiness;
      if answer.err.Some? { r := r.(err := answer.err); }
      var last := Classify(r, e.opts.target);
      assert r == Seen(answer);
      if last.action == RestoreRuntime {
        return Result(true, false, last.reason, r.activeSlot), attempts, log;
      }
      var counted := CountsAsStall(e, attempts, r, answer);
      var requested := false;
      if counted {
        consecutiveStalls := consecutiveStalls + 1;
        if consecutiveStalls >= e.opts.stallThreshold && e.caps.recovery {
          consecutiveStalls := 0;
          requested := true;
          log := log + [RequestRecovery(attempts, answer.accepted)];
          if e.caps.coreWait {
            log := log + [AwaitCore(attempts)];
          } else if answer.accepted {
            log := log + [BackOff(attempts)];
          }
        }
      } else {
        consecutiveStalls := 0;
      }
      assert requested == Requests(e, attempts);
      if !requested && attempts == e.opts.reloadAfter && r.transportReady && r.controlReady {
        if e.caps.reload {
          log := log + [Reload(attempts)];
          if !answer.reloadOk {
            return Result(false, true, "reload_degraded", answer.reloadSlot), attempts, log;
          }
        } else if e.caps.power {
          var slot := if r.slotKnown && r.activeSlot != 0 then r.activeSlot else 1;
          var failed, cycled := PowerCycle(slot, answer.cycle);
          log := log + cycled;
          if failed {
            return Result(false, true, "reload_degraded", slot), attempts, log;
          }
        }
      }
      if attempts == e.opts.identityAttempts {
        if r.activeSlot != 0 {
          return Result(false, true, "identity_convergence_timeout", r.activeSlot), attempts, log;
        }
        return Result(false, true, last.reason, 0), attempts, log;
      }
      attempts := attempts + 1;
    }
  }

  function Normal(e: Env): Env { e.(opts := WithDefaults(e.opts)) }

  /** The loop as it is called, with options of any value. */
  method ConvergePostSwitch(e: Env) returns (result: Result, attempts: nat, log: seq<Effect>)
    ensures var n := Normal(e);
      && 1 <= attempts <= n.opts.identityAttempts && (forall k :: 1 <= k < attempts ==> !Stops(n, k))
      && result == Outcome(n, attempts) && result.ready != result.degraded
      && CountRequests(log) * n.opts.stallThreshold <= attempts && CountReloads(log) <= 1
    ensures var o := e.opts;
      Normal(e).opts == Options(o.target, if o.identityAttempts > 0 then o.identityAttempts else 20,
                                if o.reloadAfter > 0 then o.reloadAfter else 6,
                                if o.stallThreshold > 0 then o.stallThreshold else 2, o.reinitWindow)
  {
    hide Stops, Outcome, Log, CountRequests, CountReloads, Streak;
    result, attempts, log := Converge(Normal(e));
    var made := if result.ready then attempts - 1 else attempts;
    RequestsAreBudgeted(Normal(e), made);
    AtMostOneReload(Normal(e), made);
  }

  lemma StartFacts(e: Env)
    ensures Log(e, 0) == [] && Streak(e, 0) == 0
  {
  }

  /** What the definitions say of one round. */
  lemma RoundFacts(e: Env, k: nat)
    requires k > 0
    ensures Log(e, k) == Log(e, k - 1) + Effects(e, k)
    ensures Stops(e, k) <==> Done(e, k) || ReloadFails(e, k) || k >= e.opts.identityAttempts
  {
  }

  lemma StreakFacts(e: Env, k: nat)
    requires k > 0
    ensures Streak(e, k) == if !Counted(e, k) || Requests(e, k) then 0 else Streak(e, k - 1) + 1
    ensures Requests(e, k) <==> Counted(e, k) && e.caps.recovery && Streak(e, k - 1) + 1 >= e.opts.stallThreshold
  {
    hide Counted;
  }

  method CountsAsStall(e: Env, k: nat, r: Readiness, answer: Round) returns (counted: bool)
    requires answer == e.round(k) && r == Seen(answer)
    ensures counted == Counted(e, k)
  {
    var stall := ServiceStall(r, answer.err);
    if !stall {
      stall := ProbeStall(e.caps, answer);
    }
    var inWindow := e.opts.reinitWindow > 0 && e.clock(k) < e.start + e.opts.reinitWindow;
    return stall && !inWindow;
  }

  /** Each case of the source's test reduces to: a fatal transport, or a stall error. */
  method ServiceStall(r: Readiness, readErr: Option<Error>) returns (stall: bool)
    ensures stall <==> r.reason == TRANSPORT_FATAL || Stalls(FirstError(readErr, r.err))
  {
    var err := if readErr.Some? then readErr else r.err;
    if r.reason == TRANSPORT_FATAL { return true; }
    return Stalls(err);
  }

  method ProbeStall(caps: Caps, answer: Round) returns (stall: bool)
    ensures stall <==> (caps.modeProbe && Stalls(answer.mode)) || (caps.signalProbe && Stalls(answer.signal))
  {
    if caps.modeProbe && Stalls(answer.mode) { return true; }
    if caps.signalProbe && Stalls(answer.signal) { return true; }
    return false;
  }

  /** The card is switched off once, and on again unless the context ends. */
  method PowerCycle(slot: nat, c: Cycle) returns (failed: bool, done: seq<Effect>)
    ensures done == CycleEffects(slot, c) && failed == CycleFails(c)
  {
    done := [PowerOff(slot)];
    var firstFailed := !c.offOk;
    if c.ended { return true, done; }
    done := done + [PowerOn(slot)];
    return firstFailed || !c.onOk, done;
  }

  // ---- When a recovery is requested

  /** How many rounds, ending with round k, stalled in a row. */
  function RunLength(e: Env, k: nat): nat { if k == 0 || !Counted(e, k) then 0 else RunLength(e, k - 1) + 1 }

  lemma {:induction false} RunLengthMeaning(e: Env, k: nat)
    ensures var n := RunLength(e, k);
      n <= k && (forall i :: k - n < i <= k ==> Counted(e, i)) && (n < k ==> !Counted(e, k - n))
  {
    hide Counted;
    if k > 0 && Counted(e, k) {
      RunLengthMeaning(e, k - 1);
    }
  }

  function Remainder(n: nat, t: int): int
    requires t > 0
  {
    n % t
  }

  /** A core recovery is requested exactly when the counted stalls in a row, up to this round, have
      reached a multiple of the threshold; a stall inside the reinit window breaks the row. */
  lemma RequestedExactly(e: Env, k: nat)
    requires Sane(e) && k > 0 && e.caps.recovery
    ensures Requests(e, k) <==> RunLength(e, k) > 0 && RunLength(e, k) % e.opts.stallThreshold == 0
  {
    hide Counted, Streak, Requests;
    StreakFacts(e, k);
    StreakIsRemainder(e, k - 1);
    NextRemainder(RunLength(e, k - 1), e.opts.stallThreshold);
    RunStep(e, k);
    if Counted(e, k) {
      assert Remainder(RunLength(e, k), e.opts.stallThreshold) == RunLength(e, k) % e.opts.stallThreshold;
    }
  }

  lemma RunStep(e: Env, k: nat)
    requires k > 0
    ensures RunLength(e, k) == if Counted(e, k) then RunLength(e, k - 1) + 1 else 0
  {
    hide Counted;
  }

  lemma {:induction false} StreakIsRemainder(e: Env, k: nat)
    requires Sane(e) && e.caps.recovery
    ensures Streak(e, k) == Remainder(RunLength(e, k), e.opts.stallThreshold)
  {
    hide Remainder, Counted, Requests, Streak, WithDefaults;
    if k == 0 {
      ZeroRemainder(e.opts.stallThreshold);
      StartFacts(e);
    } else {
      StreakIsRemainder(e, k - 1);
      NextRemainder(RunLength(e, k - 1), e.opts.stallThreshold);
      StreakFacts(e, k);
      RunStep(e, k);
      ZeroRemainder(e.opts.stallThreshold);
    }
  }

  lemma ZeroRemainder(t: int)
    requires t > 0
    ensures Remainder(0, t) == 0
  {
  }

  lemma NextRemainder(n: nat, t: int)
    requires t > 0
    ensures Remainder(n + 1, t) == if Remainder(n, t) + 1 >= t then 0 else Remainder(n, t) + 1
    ensures 0 <= Remainder(n, t) < t
  {
    var q, m := n / t, n % t;
    assert n + 1 == q * t + (m + 1);
    if m + 1 >= t {
      assert n + 1 == (q + 1) * t + 0;
      RemainderIsUnique(n + 1, t, q + 1, 0);
    } else {
      RemainderIsUnique(n + 1, t, q, m + 1);
    }
  }

  lemma RemainderIsUnique(x: int, t: int, q: int, m: int)
    requires t > 0 && 0 <= m < t && x == q * t + m
    ensures x % t == m
  {
    var d, r := q - x / t, x % t;
    assert x == x / t * t + r;
    assert d * t == r - m;
    if d >= 1 {
      assert d * t == (d - 1) * t + t;
    } else if d <= -1 {
      assert d * t == (d + 1) * t - t;
    }
  }

  function CountRequests(log: seq<Effect>): nat {
    if log == [] then 0 else CountRequests(log[..|log| - 1]) + (if log[|log| - 1].RequestRecovery? then 1 else 0)
  }

  /** How often the log interferes with the card: whole reloads, and switching its power off. */
  function CountReloads(log: seq<Effect>): nat {
    if log == [] then 0
    else CountReloads(log[..|log| - 1]) + (if log[|log| - 1].Reload? || log[|log| - 1].PowerOff? then 1 else 0)
  }

  lemma {:induction false} CountsAppend(a: seq<Effect>, b: seq<Effect>)
    ensures CountRequests(a + b) == CountRequests(a) + CountRequests(b)
    ensures CountReloads(a + b) == CountReloads(a) + CountReloads(b)
    decreases |b|
  {
    if b == [] {
      assert a + b == a;
    } else {
      assert (a + b)[..|a + b| - 1] == a + b[..|b| - 1];
      CountsAppend(a, b[..|b| - 1]);
    }
  }

  lemma CountsOfOne(x: Effect)
    ensures CountRequests([x]) == if x.RequestRecovery? then 1 else 0
    ensures CountReloads([x]) == if x.Reload? || x.PowerOff? then 1 else 0
    ensures CountRequests([]) == CountReloads([]) == 0
  {
    assert [x][..0] == [];
  }

  lemma CountsOfTwo(x: Effect, more: seq<Effect>)
    requires |more| <= 1 && forall y :: y in more ==> !y.RequestRecovery? && !y.Reload? && !y.PowerOff?
    ensures CountRequests([x] + more) == if x.RequestRecovery? then 1 else 0
    ensures CountReloads([x] + more) == if x.Reload? || x.PowerOff? then 1 else 0
  {
    CountsAppend([x], more);
    CountsOfOne(x);
    if |more| == 1 {
      CountsOfOne(more[0]);
      assert more == [more[0]];
    }
  }

  lemma EffectCounts(e: Env, k: nat)
    ensures CountRequests(Effects(e, k)) == if Requests(e, k) then 1 else 0
    ensures CountReloads(Effects(e, k)) == if Reloads(e, k) then 1 else 0
  {
    var r := e.round(k);
    if Requests(e, k) {
      hide Requests, CountRequests, CountReloads;
      CountsOfTwo(RequestRecovery(k, r.accepted), Effects(e, k)[1..]);
      assert Effects(e, k) == [RequestRecovery(k, r.accepted)] + Effects(e, k)[1..];
    } else if Reloads(e, k) && e.caps.reload {
      hide Requests, CountRequests, CountReloads;
      CountsOfOne(Reload(k));
    } else if Reloads(e, k) {
      hide Requests, CountRequests, CountReloads;
      var slot := SlotFor(r.readiness);
      CountsOfTwo(PowerOff(slot), CycleEffects(slot, r.cycle)[1..]);
      assert CycleEffects(slot, r.cycle) == [PowerOff(slot)] + CycleEffects(slot, r.cycle)[1..];
    }
  }

  /** Core recovery is never requested more often than one time per threshold of attempts: requests
      times the threshold, plus the stalls counted towards the next, never exceed the attempts. */
  lemma {:induction false} RequestsAreBudgeted(e: Env, k: nat)
    requires Sane(e)
    ensures CountRequests(Log(e, k)) * e.opts.stallThreshold + Streak(e, k) <= k
  {
    if k == 0 {
      StartFacts(e);
      CountsOfOne(AwaitCore(0));
    } else {
      hide Requests, Counted, Effects, Log, Streak, CountRequests;
      RequestsAreBudgeted(e, k - 1);
      StreakFacts(e, k);
      assert Log(e, k) == Log(e, k - 1) + Effects(e, k) by { RoundFacts(e, k); }
      EffectCounts(e, k);
      CountsAppend(Log(e, k - 1), Effects(e, k));
      StreakBelowThreshold(e, k - 1);
      BudgetStep(CountRequests(Log(e, k - 1)), Requests(e, k), e.opts.stallThreshold, Streak(e, k - 1), Streak(e, k), k);
    }
  }

  lemma BudgetStep(c: nat, requested: bool, t: int, before: nat, after: nat, k: nat)
    requires k > 0 && c * t + before <= k - 1
    requires after == 0 || (!requested && after == before + 1)
    requires requested ==> before + 1 == t
    ensures (c + if requested then 1 else 0) * t + after <= k
  {
    if requested {
      assert (c + 1) * t == c * t + t;
    }
  }

  lemma {:induction false} StreakBelowThreshold(e: Env, k: nat)
    requires Sane(e)
    ensures e.caps.recovery ==> Streak(e, k) < e.opts.stallThreshold
  {
    if k > 0 {
      StreakBelowThreshold(e, k - 1);
    }
  }

  /** The card is reloaded, or its power cycled, at most once, and only in the round the options name,
      with transport and control ready. */
  lemma {:induction false} AtMostOneReload(e: Env, k: nat)
    requires Sane(e)
    ensures CountReloads(Log(e, k)) == if k >= e.opts.reloadAfter && Reloads(e, e.opts.reloadAfter) then 1 else 0
    ensures CountReloads(Log(e, k)) == 1 ==>
      var r := e.round(e.opts.reloadAfter).readiness; r.transportReady && r.controlReady
  {
    hide Requests, Effects;
    if k > 0 {
      AtMostOneReload(e, k - 1);
      EffectCounts(e, k);
      CountsAppend(Log(e, k - 1), Effects(e, k));
    }
  }

  /** The card is not left without power: whatever the answers, every switching off in the log is that of
      the active slot, or of slot 1 where none is known, and is followed at once by switching the same slot
      on again, unless the context ended in that cycle. */
  lemma {:induction false} PowerComesBack(e: Env, k: nat, p: nat)
    requires Sane(e) && p < |Log(e, k)| && Log(e, k)[p].PowerOff?
    ensures e.round(e.opts.reloadAfter).cycle.ended || (p + 1 < |Log(e, k)| && Log(e, k)[p + 1] == PowerOn(Log(e, k)[p].slot))
    ensures var r := e.round(e.opts.reloadAfter).readiness;
      Log(e, k)[p].slot == if r.slotKnown && r.activeSlot != 0 then r.activeSlot else 1
  {
    hide Requests;
    if p < |Log(e, k - 1)| {
      PowerComesBack(e, k - 1, p);
    } else {
      assert Effects(e, k)[p - |Log(e, k - 1)|].PowerOff?;
    }
  }

  /** A back end that can reload the card does so, in the round of the reload; only one that cannot has
      its power cycled. */
  lemma {:induction false} ReloadGoesFirst(e: Env, k: nat, p: nat)
    requires p < |Log(e, k)|
    ensures Log(e, k)[p].Reload? ==> e.caps.reload && Log(e, k)[p].attempt == e.opts.reloadAfter
    ensures Log(e, k)[p].PowerOff? || Log(e, k)[p].PowerOn? ==> e.caps.power && !e.caps.reload
  {
    hide Requests;
    if p < |Log(e, k - 1)| {
      ReloadGoesFirst(e, k - 1, p);
    } else {
      assert Log(e, k)[p] == Effects(e, k)[p - |Log(e, k - 1)|];
    }
  }

  /** A requested recovery is waited for: where the core can be waited for, always; otherwise by backing
      off, if the request was accepted. Nothing else is waited for. */
  lemma {:induction false} RequestsAreAwaited(e: Env, k: nat, p: nat)
    requires p < |Log(e, k)|
    ensures Log(e, k)[p].RequestRecovery? ==>
      var i := Log(e, k)[p].attempt;
      && 0 < i <= k && Log(e, k)[p].accepted == e.round(i).accepted
      && (e.caps.coreWait ==> p + 1 < |Log(e, k)| && Log(e, k)[p + 1] == AwaitCore(i))
      && (!e.caps.coreWait && e.round(i).accepted ==> p + 1 < |Log(e, k)| && Log(e, k)[p + 1] == BackOff(i))
    ensures Log(e, k)[p].AwaitCore? || Log(e, k)[p].BackOff? ==>
      p > 0 && Log(e, k)[p - 1].RequestRecovery? && Log(e, k)[p - 1].attempt == Log(e, k)[p].attempt
  {
    hide Requests, Reloads;
    if p < |Log(e, k - 1)| {
      RequestsAreAwaited(e, k - 1, p);
    } else {
      RoundFacts(e, k);
      hide Log;
      var i := p - |Log(e, k - 1)|;
      assert Log(e, k)[p] == Effects(e, k)[i];
      assert i + 1 < |Effects(e, k)| ==> Log(e, k)[p + 1] == Effects(e, k)[i + 1];
      assert i > 0 ==> Log(e, k)[p - 1] == Effects(e, k)[i - 1];
      assert k > 0 by { if Requests(e, k) { RequestIsARound(e, k); } }
    }
  }

  lemma RequestIsARound(e: Env, k: nat)
    requires Requests(e, k)
    ensures k > 0
  {
  }

  /** A round counts as stalled when its reading, or one of the probes the back end has, shows a stalled
      service, and the time in which the card may be re-initialising is over. */
  lemma CountedExactly(e: Env, k: nat)
    ensures Counted(e, k) <==>
      && (e.opts.reinitWindow <= 0 || e.clock(k) >= e.start + e.opts.reinitWindow)
      && (|| e.round(k).readiness.reason == "transport_fatal"
          || (e.round(k).err.Some? && e.round(k).err.value.stalls)
          || (e.round(k).err.None? && e.round(k).readiness.err.Some? && e.round(k).readiness.err.value.stalls)
          || (e.caps.modeProbe && e.round(k).mode.Some? && e.round(k).mode.value.stalls)
          || (e.caps.signalProbe && e.round(k).signal.Some? && e.round(k).signal.value.stalls))
  {
  }

  /** The round is the one for a reload, no recovery was requested in it, and reloading or else cycling
      the power, whichever the back end can do, fails. */
  predicate CardStaysDown(e: Env, k: nat) {
    var q := e.round(k);
    && k == e.opts.reloadAfter && !Requests(e, k) && q.readiness.transportReady && q.readiness.controlReady
    && (if e.caps.reload then !q.reloadOk else e.caps.power && !(q.cycle.offOk && q.cycle.onOk && !q.cycle.ended))
  }

  /** How the loop explains its end, and the slot it reports: the active one, the one a failed reload
      names, or none. */
  lemma OutcomeTells(e: Env, k: nat)
    requires Stops(e, k)
    ensures var r, o := e.round(k).readiness, Outcome(e, k);
      var slot := if r.slotKnown && r.activeSlot != 0 then r.activeSlot else 1;
      var said := if r.reason == "" then "unknown" else r.reason;
      && (o.ready ==> o == Result(true, false, said, r.activeSlot))
      && (!o.ready && CardStaysDown(e, k) ==>
            o == Result(false, true, "reload_degraded", if e.caps.reload then e.round(k).reloadSlot else slot))
      && (!o.ready && !CardStaysDown(e, k) ==> k >= e.opts.identityAttempts)
      && (!o.ready && !CardStaysDown(e, k) && r.activeSlot != 0 ==>
            o == Result(false, true, "identity_convergence_timeout", r.activeSlot))
      && (!o.ready && !CardStaysDown(e, k) && r.activeSlot == 0 ==>
            && o.degraded && o.slot == 0
            && (if r.transportReady && r.controlReady && r.uimReady then o.reason in {"target_iccid_not_active", "identity_empty"}
                else o.reason == said))
  {
    hide Key, Trim, Requests;
  }

  // ---- The whole convergence of a switch

  /** An event of the switch's event source, and the readiness the modem would then report. */
  datatype Event = Event(slotStatus: bool, refreshStage: Option<nat>, readiness: Readiness)

  const REFRESH_END_OK := 2

  predicate Signals(v: Event) { v.slotStatus || (v.refreshStage.Some? && v.refreshStage.value == REFRESH_END_OK) }

  /** A slot status, or a refresh that ended with success, after which the card answers. */
  predicate Confirms(v: Event, target: string) { (v.slotStatus || v.refreshStage == Some(2)) && Answers(v.readiness, target) }

  /** events are those that arrive before the window ends or the source closes. */
  method AwaitReinit(events: seq<Event>, target: string, window: int) returns (converged: bool)
    ensures converged <==> window > 0 && exists i :: 0 <= i < |events| && Confirms(events[i], target)
  {
    hide Classify, Answers;
    if window <= 0 { return false; }
    for i := 0 to |events|
      invariant forall j :: 0 <= j < i ==> !Confirms(events[j], target)
    {
      DoneExactly(events[i].readiness, target);
      if Signals(events[i]) && Classify(events[i].readiness, target).action == RestoreRuntime {
        assert Confirms(events[i], target);
        return true;
      }
    }
    return false;
  }

  /** The whole convergence: it interferes with the card at most twice, never after an early success,
      and reports ready exactly when an event was confirmed in time or the loop's last round was done.
      After a gate that no event passed it first cycles the power of the active slot. */
  method RunConvergence(e: Env, gated: bool, window: int, events: seq<Event>, before: Readiness, beforeOk: bool, first: Cycle)
    returns (result: Result, log: seq<Effect>, ghost early: bool, ghost attempts: nat)
    requires e.opts == Options(e.opts.target, 20, 6, 2, if !gated then 0 else if window > 0 then window else 5_000_000_000)
    ensures result.ready != result.degraded
    ensures early <==> gated && exists i :: 0 <= i < |events| && Confirms(events[i], e.opts.target)
    ensures early ==> result.ready && log == []
    ensures !early ==> 1 <= attempts <= 20 && (result.ready <==> Done(e, attempts))
    ensures CountReloads(log) <= 2 && CountRequests(log) <= 10
    ensures CountReloads(log) == 2 ==> gated && e.caps.power
    ensures early ==> result == Result(true, false, "ready", 0)
    ensures !early ==> result == Outcome(e, attempts) && forall k :: 1 <= k < attempts ==> !Stops(e, k)
    ensures !early ==>
      var slot := if beforeOk && before.slotKnown && before.activeSlot != 0 then before.activeSlot else 1;
      var cycled := if gated && e.caps.power then [PowerOff(slot)] + (if first.ended then [] else [PowerOn(slot)]) else [];
      log == cycled + Log(e, if result.ready then attempts - 1 else attempts)
  {
    hide Classify, Log, Requests, Effects, Stops, Outcome;
    early, attempts, log := false, 0, [];
    if gated {
      var converged := AwaitReinit(events, e.opts.target, e.opts.reinitWindow);
      if converged {
        early := true;
        return Result(true, false, "ready", 0), log, early, attempts;
      }
      if e.caps.power {
        var slot := if beforeOk then SlotFor(before) else 1;
        var _, cycled := PowerCycle(slot, first);
        log := cycled;
        OneCycle(slot, first);
      }
    }
    var tail: seq<Effect>;
    result, attempts, tail := Converge(e);
    var made := if result.ready then attempts - 1 else attempts;
    RequestsAreBudgeted(e, made);
    AtMostOneReload(e, made);
    CountsAppend(log, tail);
    log := log + tail;
  }

  lemma OneCycle(slot: nat, c: Cycle)
    ensures CountRequests(CycleEffects(slot, c)) == 0 && CountReloads(CycleEffects(slot, c)) == 1
  {
    CountsOfTwo(PowerOff(slot), CycleEffects(slot, c)[1..]);
    assert CycleEffects(slot, c) == [PowerOff(slot)] + CycleEffects(slot, c)[1..];
  }
}
