/** The loop that brings a QMI modem from whatever state it is in to a registered and attached one. */
module QmiRegistration {
  import opened Wrappers
  import opened ModemLog
  import Plmn

  /** hook: the caller can suppress radio cycles. canProvision: the SIM source can also provision. */
  datatype Options = Options(maxAttempts: int, hook: bool, canProvision: bool)

  datatype Config = Config(mode: string, plmn: string, rat: string)

  const FORCE_SEARCH_AFTER := 2
  const RADIO_CYCLE_AFTER := 30
  const UNSUPPORTED_RADIO_CYCLE_AFTER := 3

  function Attempts(o: Options): nat { if o.maxAttempts <= 0 then 45 else o.maxAttempts }

  /** A manual selection with a valid code; an invalid one degrades to automatic. */
  predicate Manual(cfg: Config) { cfg.mode == "manual" && cfg.plmn != "" && Plmn.WellFormed(cfg.plmn) }

  function RulesOf(o: Options, cfg: Config): Rules {
    Rules(o.hook, Some(FORCE_SEARCH_AFTER), RADIO_CYCLE_AFTER, Some(UNSUPPORTED_RADIO_CYCLE_AFTER), false, !Manual(cfg),
          true, o.canProvision, Attempts(o))
  }

  predicate SearchDue(attempt: nat, registered: bool, issued: bool, unsupported: bool) {
    registered && !issued && !unsupported && attempt >= FORCE_SEARCH_AFTER
  }

  predicate RadioCycleDue(attempt: nat, registered: bool, issued: bool, unsupported: bool, restored: bool) {
    && registered && !issued
    && attempt >= if unsupported && !restored then UNSUPPORTED_RADIO_CYCLE_AFTER else RADIO_CYCLE_AFTER
  }

  /** What a finished attempt has cost at most. */
  predicate Frugal(d: Digest, opts: Options) {
    && d.servings <= Attempts(opts) && d.sims <= Attempts(opts)
    && d.cycles <= 1 && d.searches <= 1 && d.registers <= 1 + d.cycles && d.attaches <= 1 + d.cycles
  }

  /** What the outcome says about how the attempt ended. */
  predicate Tells(d: Digest, opts: Options, cfg: Config, outcome: Outcome) {
    && (outcome.Registered? <==> Success(d)) && (outcome.Denied? <==> Denial(d))
    && (outcome.TimedOut? ==> d.servings == Attempts(opts) && Was(d.last, Pause, true))
    && (outcome.SimNotReady? ==> d.sims == Attempts(opts) && d.servings == 0)
    && (outcome.ContextEnded? ==> Was(d.last, Pause, false))
    && (outcome.StillOffline? ==> Was(d.last, ReadMode, true) && d.last.value.answer.flight)
    && (outcome.Failed? ==>
          && outcome.call in {ReadMode, GoOnline, ReadSim, ReadServing, Attach, Register}
          && LastIs(d, {outcome.call}) && !JustRead(d) && (d.last.value.answer.ok ==> outcome.call.ReadServing?)
          && (outcome.call.GoOnline? ==> d.cycles == 0)
          && (outcome.call.Register? ==> Manual(cfg) || !d.last.value.answer.tolerated))
  }

  lemma OverTells(d: Digest, opts: Options, cfg: Config, outcome: Outcome)
    requires Over(d, RulesOf(opts, cfg)) == Some(outcome)
    ensures Tells(d, opts, cfg, outcome)
  {
    hide Manual;
  }

  /** How the attempt may end. */
  predicate Finished(modem: Modem, log: seq<Entry>, opts: Options, rules: Rules, outcome: Outcome) {
    Good(modem, log, rules) && !Dark(DigestOf(log)) && Frugal(DigestOf(log), opts) && Over(DigestOf(log), rules) == Some(outcome)
  }

  /** One submission: a manual registration, or an automatic one, whose failure may be tolerated and is
      then answered by selecting automatic mode again if that had failed as well. */
  method Initiate(modem: Modem, cfg: Config, log: seq<Entry>, ghost rules: Rules) returns (ok: bool, out: seq<Entry>)
    requires Good(modem, log, rules) && rules.twoStep == !Manual(cfg)
    requires JustRead(DigestOf(log)) && WantsRegister(DigestOf(log), rules)
    requires DigestOf(log).servings > 0 && Over(DigestOf(log), rules).None?
    ensures Good(modem, out, rules)
    ensures var d := DigestOf(log); var n := DigestOf(out);
      n == d.(registers := d.registers + 1, registersSince := d.registersSince + 1, last := n.last, previous := n.previous)
    ensures LastIs(DigestOf(out), {Register, SelectAutomatic})
    ensures ok ==> Settled(DigestOf(out), rules)
    ensures !ok ==> Over(DigestOf(out), rules) == Some(Failed(Register))
    ensures Manual(cfg) ==> out == log + [Entry(Register, modem(|log|))] && ok == modem(|log|).ok
    ensures !Manual(cfg) ==>
      var n := |log|;
      && ok == (modem(n + 1).ok || modem(n + 1).tolerated)
      && out == log + [Entry(SelectAutomatic, modem(n)), Entry(Register, modem(n + 1))]
                + if ok && !modem(n + 1).ok && !modem(n).ok then [Entry(SelectAutomatic, modem(n + 2))] else []
  {
    hide Good, DigestOf, Manual, CycleDue;
    var a: Answer;
    out := log;
    if Manual(cfg) {
      a, out := Do(modem, out, Register, rules);
      return a.ok, out;
    }
    var selected, again: Answer;
    selected, out := Do(modem, out, SelectAutomatic, rules);
    a, out := Do(modem, out, Register, rules);
    if a.ok { return true, out; }
    if !a.tolerated { return false, out; }
    if selected.ok { return true, out; }
    again, out := Do(modem, out, SelectAutomatic, rules);
    return true, out;
  }

  /** The radio is on, or the attempt is over. */
  method SwitchOn(modem: Modem, opts: Options, cfg: Config) returns (stop: Option<Outcome>, restored: bool, log: seq<Entry>)
    ensures Good(modem, log, RulesOf(opts, cfg)) && Untouched(DigestOf(log)) && DigestOf(log).sims == 0
    ensures stop.None? ==> (restored <==> DigestOf(log).onlines > 0)
    ensures stop.None? ==> Was(DigestOf(log).last, ReadMode, true) && !DigestOf(log).last.value.answer.flight
    ensures stop.Some? ==> Finished(modem, log, opts, RulesOf(opts, cfg), stop.value)
  {
    hide Good, DigestOf, Manual, CycleDue, OwesRegister, OwesAttach, OwesSearch;
    ghost var rules := RulesOf(opts, cfg);
    log, restored := [], false;
    EmptyLog(modem, rules);
    var a: Answer;
    a, log := Prepare(modem, log, ReadMode, rules);
    if !a.ok { return Some(Failed(ReadMode)), restored, log; }
    if a.flight {
      a, log := Prepare(modem, log, GoOnline, rules);
      if !a.ok { return Some(Failed(GoOnline)), restored, log; }
      restored := true;
      a, log := Prepare(modem, log, Pause, rules);
      if !a.ok { return Some(ContextEnded), restored, log; }
      a, log := Prepare(modem, log, ReadMode, rules);
      if !a.ok { return Some(Failed(ReadMode)), restored, log; }
      if a.flight { return Some(StillOffline), restored, log; }
    }
    stop := None;
  }

  /** Before the loop: switch the radio on where it is off, provision, and wait for the SIM. */
  method Ready(modem: Modem, opts: Options, cfg: Config) returns (stop: Option<Outcome>, restored: bool, log: seq<Entry>)
    ensures Good(modem, log, RulesOf(opts, cfg)) && Untouched(DigestOf(log)) && DigestOf(log).sims <= Attempts(opts)
    ensures stop.None? ==> (restored <==> DigestOf(log).onlines > 0) && SimReady(DigestOf(log))
    ensures stop.Some? ==> Finished(modem, log, opts, RulesOf(opts, cfg), stop.value)
  {
    hide Good, DigestOf, Manual, CycleDue, OwesRegister, OwesAttach, OwesSearch;
    stop, restored, log := SwitchOn(modem, opts, cfg);
    if stop.Some? { return stop, restored, log; }
    if opts.canProvision {
      var a: Answer;
      a, log := Prepare(modem, log, Provision, RulesOf(opts, cfg));
    }
    stop, log := WaitSim(modem, opts, cfg, log, restored);
  }

  method WaitSim(modem: Modem, opts: Options, cfg: Config, before: seq<Entry>, ghost restored: bool)
    returns (stop: Option<Outcome>, log: seq<Entry>)
    requires Good(modem, before, RulesOf(opts, cfg)) && Untouched(DigestOf(before)) && DigestOf(before).sims == 0
    requires Next(DigestOf(before), ReadSim, RulesOf(opts, cfg))
    requires restored <==> DigestOf(before).onlines > 0
    ensures Good(modem, log, RulesOf(opts, cfg)) && Untouched(DigestOf(log)) && DigestOf(log).sims <= Attempts(opts)
    ensures stop.None? ==> (restored <==> DigestOf(log).onlines > 0) && SimReady(DigestOf(log))
    ensures stop.Some? ==> Finished(modem, log, opts, RulesOf(opts, cfg), stop.value)
  {
    hide Good, DigestOf, Manual, CycleDue, OwesRegister, OwesAttach, OwesSearch;
    ghost var rules := RulesOf(opts, cfg);
    log := before;
    for attempt := 1 to Attempts(opts) + 1
      invariant Good(modem, log, rules) && Untouched(DigestOf(log)) && DigestOf(log).sims == attempt - 1
      invariant if attempt <= Attempts(opts) then Next(DigestOf(log), ReadSim, rules) else Over(DigestOf(log), rules) == Some(SimNotReady)
      invariant restored <==> DigestOf(log).onlines > 0
    {
      var a: Answer;
      a, log := Prepare(modem, log, ReadSim, rules);
      if !a.ok { return Some(Failed(ReadSim)), log; }
      if a.ready { return None, log; }
      a, log := Prepare(modem, log, Pause, rules);
      if !a.ok { return Some(ContextEnded), log; }
    }
    return Some(SimNotReady), log;
  }

  datatype Flags = Flags(registered: bool, attached: bool, searched: bool, unsupported: bool, cycled: bool)

  /** The loop's flags say what it has done so far and what it still owes. */
  predicate Fits(d: Digest, rules: Rules, f: Flags, restored: bool) {
    && d.registers <= Bit(f.registered) + Bit(f.cycled) && d.attaches <= Bit(f.attached) + Bit(f.cycled)
    && d.searches == Bit(f.searched) && d.cycles == Bit(f.cycled) && (d.cycleDone ==> f.cycled)
    && (f.registered <==> !OwesRegister(d, rules)) && (f.attached <==> !OwesAttach(d, rules))
    && (d.unsupported > 0 <==> f.unsupported) && (f.unsupported ==> f.searched) && (!f.cycled ==> (restored <==> d.onlines > 0))
  }

  /** Where the loop stands in round n. */
  predicate Underway(modem: Modem, log: seq<Entry>, opts: Options, rules: Rules, n: nat, f: Flags, restored: bool) {
    && Good(modem, log, rules) && Fits(DigestOf(log), rules, f, restored)
    && DigestOf(log).servings == n <= Attempts(opts) && DigestOf(log).sims <= Attempts(opts)
  }

  /** After n rounds: there is another one, or the attempt is over. */
  predicate Goes(d: Digest, opts: Options, cfg: Config, n: nat) {
    if n < Attempts(opts) then Next(d, ReadServing, RulesOf(opts, cfg)) else Over(d, RulesOf(opts, cfg)) == Some(TimedOut)
  }

  method Wake(modem: Modem, opts: Options, cfg: Config, before: seq<Entry>, n: nat, restored: bool, f0: Flags)
    returns (ok: bool, f: Flags, log: seq<Entry>)
    requires Underway(modem, before, opts, RulesOf(opts, cfg), n, f0, restored) && n > 0
    requires JustRead(DigestOf(before)) && DigestOf(before).reading.value.reg !in {1, 3, 5}
    ensures Underway(modem, log, opts, RulesOf(opts, cfg), n, f, restored) && f.registered
    ensures DigestOf(log).reading == DigestOf(before).reading
    ensures ok ==> Settled(DigestOf(log), RulesOf(opts, cfg)) && !LastIs(DigestOf(log), {AskSuppress})
    ensures !ok ==> Finished(modem, log, opts, RulesOf(opts, cfg), Failed(Register))
  {
    hide Good, DigestOf, Manual, CycleDue;
    ok, f, log := true, f0, before;
    if !f.registered {
      ok, log := Initiate(modem, cfg, log, RulesOf(opts, cfg));
      f := f.(registered := true);
    }
  }

  method TryAttach(modem: Modem, opts: Options, cfg: Config, before: seq<Entry>, n: nat, restored: bool, f0: Flags)
    returns (ok: bool, f: Flags, log: seq<Entry>)
    requires Underway(modem, before, opts, RulesOf(opts, cfg), n, f0, restored) && n > 0
    requires var d := DigestOf(before); JustRead(d) && Home(d.reading.value.reg) && !d.reading.value.psAttached
    ensures Underway(modem, log, opts, RulesOf(opts, cfg), n, f, restored)
    ensures ok ==> MayRest(DigestOf(log), RulesOf(opts, cfg))
    ensures !ok ==> Finished(modem, log, opts, RulesOf(opts, cfg), Failed(Attach))
  {
    hide Good, DigestOf, Manual, CycleDue;
    ok, f, log := true, f0, before;
    if !f.attached {
      var a: Answer;
      a, log := Do(modem, log, Attach, RulesOf(opts, cfg));
      f := f.(attached := true);
      ok := a.ok;
    }
  }

  method TrySearch(modem: Modem, opts: Options, cfg: Config, before: seq<Entry>, attempt: nat, restored: bool, f0: Flags)
    returns (f: Flags, log: seq<Entry>)
    requires Underway(modem, before, opts, RulesOf(opts, cfg), attempt, f0, restored) && f0.registered && attempt > 0
    requires Searching(DigestOf(before)) && Settled(DigestOf(before), RulesOf(opts, cfg)) && !LastIs(DigestOf(before), {AskSuppress})
    ensures Underway(modem, log, opts, RulesOf(opts, cfg), attempt, f, restored) && f.registered
    ensures Searching(DigestOf(log)) && Settled(DigestOf(log), RulesOf(opts, cfg)) && !LastIs(DigestOf(log), {AskSuppress})
    ensures !OwesSearch(DigestOf(log), RulesOf(opts, cfg))
  {
    hide Good, DigestOf, Manual, CycleDue;
    f, log := f0, before;
    if SearchDue(attempt, f.registered, f.searched, f.unsupported) {
      var a: Answer;
      a, log := Do(modem, log, ForceSearch, RulesOf(opts, cfg));
      f := f.(searched := true, unsupported := !a.ok && a.tolerated);
    }
  }

  /** Whether the caller lets a radio cycle that is due go ahead. */
  method Permit(modem: Modem, opts: Options, cfg: Config, before: seq<Entry>, attempt: nat, restored: bool, f: Flags)
    returns (granted: bool, log: seq<Entry>)
    requires Underway(modem, before, opts, RulesOf(opts, cfg), attempt, f, restored) && f.registered && attempt > 0
    requires RadioCycleDue(attempt, f.registered, f.cycled, f.unsupported, restored)
    requires Searching(DigestOf(before)) && Settled(DigestOf(before), RulesOf(opts, cfg)) && !LastIs(DigestOf(before), {AskSuppress})
    requires !OwesSearch(DigestOf(before), RulesOf(opts, cfg))
    ensures Underway(modem, log, opts, RulesOf(opts, cfg), attempt, f, restored)
    ensures granted ==> Next(DigestOf(log), GoRFOff, RulesOf(opts, cfg)) && Searching(DigestOf(log))
    ensures !granted ==> MayRest(DigestOf(log), RulesOf(opts, cfg))
  {
    hide Good, DigestOf, Manual;
    log := before;
    if opts.hook {
      var a: Answer;
      a, log := Do(modem, log, AskSuppress, RulesOf(opts, cfg));
      return !a.suppress, log;
    }
    granted := true;
  }

  method TryCycle(modem: Modem, opts: Options, cfg: Config, before: seq<Entry>, attempt: nat, restored: bool, f0: Flags)
    returns (f: Flags, log: seq<Entry>)
    requires Underway(modem, before, opts, RulesOf(opts, cfg), attempt, f0, restored) && f0.registered && attempt > 0
    requires Searching(DigestOf(before)) && Settled(DigestOf(before), RulesOf(opts, cfg)) && !LastIs(DigestOf(before), {AskSuppress})
    requires !OwesSearch(DigestOf(before), RulesOf(opts, cfg))
    ensures Underway(modem, log, opts, RulesOf(opts, cfg), attempt, f, restored)
    ensures MayRest(DigestOf(log), RulesOf(opts, cfg))
  {
    hide Good, DigestOf, Manual;
    f, log := f0, before;
    if RadioCycleDue(attempt, f.registered, f.cycled, f.unsupported, restored) {
      var granted: bool;
      granted, log := Permit(modem, opts, cfg, log, attempt, restored, f);
      if granted {
        f, log := Cycle(modem, opts, cfg, log, attempt, restored, f);
      }
    }
  }

  method Cycle(modem: Modem, opts: Options, cfg: Config, before: seq<Entry>, attempt: nat, restored: bool, f0: Flags)
    returns (f: Flags, log: seq<Entry>)
    requires Underway(modem, before, opts, RulesOf(opts, cfg), attempt, f0, restored) && f0.registered && attempt > 0 && !f0.cycled
    requires Next(DigestOf(before), GoRFOff, RulesOf(opts, cfg))
    ensures Underway(modem, log, opts, RulesOf(opts, cfg), attempt, f, restored)
    ensures MayRest(DigestOf(log), RulesOf(opts, cfg))
  {
    hide Good, DigestOf, Manual, CycleDue;
    var ok: bool;
    ok, log := RadioCycle(modem, before, RulesOf(opts, cfg));
    f := f0.(cycled := true);
    if ok { f := f.(registered := false, attached := false); }
  }

  method Rest(modem: Modem, opts: Options, cfg: Config, before: seq<Entry>, n: nat, restored: bool, ghost f: Flags)
    returns (ok: bool, log: seq<Entry>)
    requires Underway(modem, before, opts, RulesOf(opts, cfg), n, f, restored) && 0 < n <= Attempts(opts)
    requires MayRest(DigestOf(before), RulesOf(opts, cfg))
    ensures Underway(modem, log, opts, RulesOf(opts, cfg), n, f, restored)
    ensures ok ==> Goes(DigestOf(log), opts, cfg, n)
    ensures ok ==> !Dark(DigestOf(log))
    ensures !ok ==> Finished(modem, log, opts, RulesOf(opts, cfg), ContextEnded)
  {
    hide Good, DigestOf, Manual, CycleDue;
    var a: Answer;
    a, log := Do(modem, before, Pause, RulesOf(opts, cfg));
    ok := a.ok;
  }

  method Read(modem: Modem, opts: Options, cfg: Config, before: seq<Entry>, n: nat, restored: bool, ghost f: Flags)
    returns (a: Answer, log: seq<Entry>)
    requires Underway(modem, before, opts, RulesOf(opts, cfg), n, f, restored) && n < Attempts(opts)
    requires Next(DigestOf(before), ReadServing, RulesOf(opts, cfg))
    ensures Underway(modem, log, opts, RulesOf(opts, cfg), n + 1, f, restored)
    ensures DigestOf(log).last == Some(Entry(ReadServing, a))
    ensures DigestOf(log).reading == if a.ok then a.serving else None
  {
    hide Good, DigestOf, Manual, CycleDue;
    a, log := Do(modem, before, ReadServing, RulesOf(opts, cfg));
  }

  /** What a reading that is neither final nor registered calls for. */
  method Respond(modem: Modem, opts: Options, cfg: Config, before: seq<Entry>, attempt: nat, restored: bool, f0: Flags, reg: int)
    returns (ok: bool, f: Flags, log: seq<Entry>)
    requires Underway(modem, before, opts, RulesOf(opts, cfg), attempt, f0, restored) && attempt > 0
    requires JustRead(DigestOf(before)) && DigestOf(before).reading.value.reg == reg && reg !in {1, 3, 5}
    ensures Underway(modem, log, opts, RulesOf(opts, cfg), attempt, f, restored)
    ensures ok ==> MayRest(DigestOf(log), RulesOf(opts, cfg))
    ensures !ok ==> Finished(modem, log, opts, RulesOf(opts, cfg), Failed(Register))
  {
    hide Good, DigestOf, Manual, CycleDue;
    ok, f, log := Wake(modem, opts, cfg, before, attempt, restored, f0);
    if ok && reg == 2 {
      f, log := TrySearch(modem, opts, cfg, log, attempt, restored, f);
      f, log := TryCycle(modem, opts, cfg, log, attempt, restored, f);
    }
  }

  /** One round: a reading, what it calls for, and a pause. */
  method Round(modem: Modem, opts: Options, cfg: Config, before: seq<Entry>, attempt: nat, restored: bool, f0: Flags)
    returns (stop: Option<Outcome>, f: Flags, log: seq<Entry>)
    requires 1 <= attempt <= Attempts(opts) && Underway(modem, before, opts, RulesOf(opts, cfg), attempt - 1, f0, restored)
    requires Next(DigestOf(before), ReadServing, RulesOf(opts, cfg))
    ensures stop.None? ==> Underway(modem, log, opts, RulesOf(opts, cfg), attempt, f, restored) && !Dark(DigestOf(log))
    ensures stop.None? ==> Goes(DigestOf(log), opts, cfg, attempt)
    ensures stop.Some? ==> Finished(modem, log, opts, RulesOf(opts, cfg), stop.value)
  {
    hide Good, DigestOf, Manual, CycleDue, Settled;
    var a: Answer;
    f := f0;
    a, log := Read(modem, opts, cfg, before, attempt - 1, restored, f);
    if !a.ok || a.serving.None? { return Some(Failed(ReadServing)), f, log; }
    var ss := a.serving.value;
    var ok: bool;
    if Home(ss.reg) {
      if ss.psAttached { return Some(Registered), f, log; }
      ok, f, log := TryAttach(modem, opts, cfg, log, attempt, restored, f);
      if !ok { return Some(Failed(Attach)), f, log; }
    } else if ss.reg == 3 {
      return Some(Denied), f, log;
    } else {
      ok, f, log := Respond(modem, opts, cfg, log, attempt, restored, f, ss.reg);
      if !ok { return Some(Failed(Register)), f, log; }
    }
    ok, log := Rest(modem, opts, cfg, log, attempt, restored, f);
    stop := if ok then None else Some(ContextEnded);
  }

  /** For every sequence of modem answers the attempt makes exactly the calls the rules determine, until
      it is over, and ends as they say. It takes no more than the allowed readings, one radio cycle, one
      forced search, and one registration and one attach besides those a completed cycle makes necessary;
      it reports success exactly when its last act is a reading that says registered and attached, and
      denial exactly when that reading says denied. */
  method EnsureRegistration(modem: Modem, opts: Options, cfg: Config) returns (outcome: Outcome, log: seq<Entry>)
    ensures Good(modem, log, RulesOf(opts, cfg)) && Over(DigestOf(log), RulesOf(opts, cfg)) == Some(outcome)
    ensures !Dark(DigestOf(log)) && Frugal(DigestOf(log), opts) && Tells(DigestOf(log), opts, cfg, outcome)
    ensures RulesOf(opts, cfg) ==
      Rules(opts.hook, Some(2), 30, Some(3), false, !(cfg.mode == "manual" && cfg.plmn != "" && Plmn.WellFormed(cfg.plmn)),
            true, opts.canProvision, if opts.maxAttempts > 0 then opts.maxAttempts else 45)
  {
    hide Good, DigestOf, CycleDue, Plmn.WellFormed;
    var stop, restored;
    stop, restored, log := Ready(modem, opts, cfg);
    if stop.Some? {
      OverTells(DigestOf(log), opts, cfg, stop.value);
      return stop.value, log;
    }
    var flags := Flags(false, false, false, false, false);
    for attempt := 1 to Attempts(opts) + 1
      invariant Underway(modem, log, opts, RulesOf(opts, cfg), attempt - 1, flags, restored) && !Dark(DigestOf(log))
      invariant Goes(DigestOf(log), opts, cfg, attempt - 1)
    {
      stop, flags, log := Round(modem, opts, cfg, log, attempt, restored, flags);
      if stop.Some? {
        OverTells(DigestOf(log), opts, cfg, stop.value);
        return stop.value, log;
      }
    }
    OverTells(DigestOf(log), opts, cfg, TimedOut);
    return TimedOut, log;
  }
}
