/** The same task for an MBIM modem. It knows no forced search, and it forgets its registration after a
    radio cycle whether or not the cycle succeeded. */
module MbimRegistration {
  import opened Wrappers
  import opened ModemLog

  datatype Options = Options(maxAttempts: int, radioCycleAfter: int, hook: bool)

  function Attempts(o: Options): nat { if o.maxAttempts <= 0 then 45 else o.maxAttempts }

  function CycleAfter(o: Options): nat { if o.radioCycleAfter <= 0 then 30 else o.radioCycleAfter }

  function RulesOf(o: Options): Rules { Rules(o.hook, None, CycleAfter(o), None, true, false, false, false, Attempts(o)) }

  /** What a finished attempt has cost at most. */
  predicate Frugal(d: Digest, opts: Options) {
    && d.servings <= Attempts(opts) && d.sims <= Attempts(opts) && d.searches == 0
    && d.cycles <= 1 && d.registers <= 1 + d.cycles && d.attaches <= 1 + d.cycles
  }

  /** What the outcome says about how the attempt ended. */
  predicate Tells(d: Digest, opts: Options, outcome: Outcome) {
    && (outcome.Registered? <==> Success(d)) && (outcome.Denied? <==> Denial(d))
    && (outcome.TimedOut? ==> d.servings == Attempts(opts) && Was(d.last, Pause, true))
    && (outcome.SimNotReady? ==> d.sims == Attempts(opts) && d.servings == 0)
    && (outcome.ContextEnded? ==> Was(d.last, Pause, false))
    && (outcome.Failed? ==>
          && outcome.call in {ReadMode, GoOnline, ReadSim, ReadServing, Attach, Register}
          && LastIs(d, {outcome.call}) && !JustRead(d) && (d.last.value.answer.ok ==> outcome.call.ReadServing?)
          && (outcome.call.GoOnline? ==> d.cycles == 0))
  }

  lemma OverTells(d: Digest, opts: Options, outcome: Outcome)
    requires Over(d, RulesOf(opts)) == Some(outcome)
    ensures Tells(d, opts, outcome)
  {
  }

  /** How the attempt may end. */
  predicate Finished(modem: Modem, log: seq<Entry>, opts: Options, outcome: Outcome) {
    && Good(modem, log, RulesOf(opts)) && !Dark(DigestOf(log))
    && Frugal(DigestOf(log), opts) && Over(DigestOf(log), RulesOf(opts)) == Some(outcome)
  }

  /** Before the loop: switch the radio on where it is off, and wait for the SIM. */
  method Ready(modem: Modem, opts: Options) returns (stop: Option<Outcome>, log: seq<Entry>)
    ensures Good(modem, log, RulesOf(opts)) && Untouched(DigestOf(log)) && DigestOf(log).sims <= Attempts(opts)
    ensures stop.None? ==> SimReady(DigestOf(log))
    ensures stop.Some? ==> Finished(modem, log, opts, stop.value)
  {
    hide Good, DigestOf, CycleDue, OwesRegister, OwesAttach, OwesSearch;
    ghost var rules := RulesOf(opts);
    log := [];
    EmptyLog(modem, rules);
    var a: Answer;
    a, log := Prepare(modem, log, ReadMode, rules);
    if !a.ok { return Some(Failed(ReadMode)), log; }
    if a.flight {
      a, log := Prepare(modem, log, GoOnline, rules);
      if !a.ok { return Some(Failed(GoOnline)), log; }
      a, log := Prepare(modem, log, Pause, rules);
      if !a.ok { return Some(ContextEnded), log; }
    }
    for attempt := 1 to Attempts(opts) + 1
      invariant Good(modem, log, rules) && Untouched(DigestOf(log)) && DigestOf(log).sims == attempt - 1
      invariant if attempt <= Attempts(opts) then Next(DigestOf(log), ReadSim, rules) else Over(DigestOf(log), rules) == Some(SimNotReady)
    {
      a, log := Prepare(modem, log, ReadSim, rules);
      if !a.ok { return Some(Failed(ReadSim)), log; }
      if a.ready { return None, log; }
      a, log := Prepare(modem, log, Pause, rules);
      if !a.ok { return Some(ContextEnded), log; }
    }
    return Some(SimNotReady), log;
  }

  datatype Flags = Flags(registered: bool, attached: bool, cycled: bool)

  /** The loop's flags say what it has done so far and what it still owes. */
  predicate Fits(d: Digest, rules: Rules, f: Flags) {
    && d.registers <= Bit(f.registered) + Bit(f.cycled) && d.attaches <= Bit(f.attached) + Bit(f.cycled)
    && d.searches == 0 && d.cycles == Bit(f.cycled) && (d.cycleDone ==> f.cycled)
    && (f.registered <==> !OwesRegister(d, rules)) && (f.attached <==> !OwesAttach(d, rules))
  }

  /** Where the loop stands in round n. */
  predicate Underway(modem: Modem, log: seq<Entry>, opts: Options, n: nat, f: Flags) {
    && Good(modem, log, RulesOf(opts)) && Fits(DigestOf(log), RulesOf(opts), f)
    && DigestOf(log).servings == n <= Attempts(opts) && DigestOf(log).sims <= Attempts(opts)
  }

  /** After n rounds: there is another one, or the attempt is over. */
  predicate Goes(d: Digest, opts: Options, n: nat) {
    if n < Attempts(opts) then Next(d, ReadServing, RulesOf(opts)) else Over(d, RulesOf(opts)) == Some(TimedOut)
  }

  method Wake(modem: Modem, opts: Options, before: seq<Entry>, n: nat, f0: Flags) returns (ok: bool, f: Flags, log: seq<Entry>)
    requires Underway(modem, before, opts, n, f0) && n > 0
    requires JustRead(DigestOf(before)) && DigestOf(before).reading.value.reg !in {1, 3, 5}
    ensures Underway(modem, log, opts, n, f) && f.registered && DigestOf(log).reading == DigestOf(before).reading
    ensures ok ==> Settled(DigestOf(log), RulesOf(opts)) && !LastIs(DigestOf(log), {AskSuppress})
    ensures !ok ==> Finished(modem, log, opts, Failed(Register))
  {
    hide Good, DigestOf, CycleDue;
    ok, f, log := true, f0, before;
    if !f.registered {
      var a: Answer;
      a, log := Do(modem, log, Register, RulesOf(opts));
      f := f.(registered := true);
      ok := a.ok;
    }
  }

  method TryAttach(modem: Modem, opts: Options, before: seq<Entry>, n: nat, f0: Flags) returns (ok: bool, f: Flags, log: seq<Entry>)
    requires Underway(modem, before, opts, n, f0) && n > 0
    requires var d := DigestOf(before); JustRead(d) && Home(d.reading.value.reg) && !d.reading.value.psAttached
    ensures Underway(modem, log, opts, n, f)
    ensures ok ==> MayRest(DigestOf(log), RulesOf(opts))
    ensures !ok ==> Finished(modem, log, opts, Failed(Attach))
  {
    hide Good, DigestOf, CycleDue;
    ok, f, log := true, f0, before;
    if !f.attached {
      var a: Answer;
      a, log := Do(modem, log, Attach, RulesOf(opts));
      f := f.(attached := true);
      ok := a.ok;
    }
  }

  method TryCycle(modem: Modem, opts: Options, before: seq<Entry>, attempt: nat, f0: Flags) returns (f: Flags, log: seq<Entry>)
    requires Underway(modem, before, opts, attempt, f0) && f0.registered && attempt > 0
    requires Searching(DigestOf(before)) && Settled(DigestOf(before), RulesOf(opts)) && !LastIs(DigestOf(before), {AskSuppress})
    ensures Underway(modem, log, opts, attempt, f) && MayRest(DigestOf(log), RulesOf(opts))
  {
    hide Good, DigestOf;
    f, log := f0, before;
    if f.registered && !f.cycled && attempt >= CycleAfter(opts) {
      if opts.hook {
        var a: Answer;
        a, log := Do(modem, log, AskSuppress, RulesOf(opts));
        if a.suppress { return f, log; }
      }
      var _, after := RadioCycle(modem, log, RulesOf(opts));
      return Flags(false, false, true), after;
    }
  }

  method Read(modem: Modem, opts: Options, before: seq<Entry>, n: nat, ghost f: Flags) returns (a: Answer, log: seq<Entry>)
    requires Underway(modem, before, opts, n, f) && Next(DigestOf(before), ReadServing, RulesOf(opts)) && n < Attempts(opts)
    ensures Underway(modem, log, opts, n + 1, f)
    ensures DigestOf(log).last == Some(Entry(ReadServing, a))
    ensures DigestOf(log).reading == if a.ok then a.serving else None
  {
    hide Good, DigestOf, CycleDue;
    a, log := Do(modem, before, ReadServing, RulesOf(opts));
  }

  method Rest(modem: Modem, opts: Options, before: seq<Entry>, n: nat, ghost f: Flags) returns (ok: bool, log: seq<Entry>)
    requires Underway(modem, before, opts, n, f) && n > 0 && MayRest(DigestOf(before), RulesOf(opts))
    ensures Underway(modem, log, opts, n, f)
    ensures ok ==> Goes(DigestOf(log), opts, n) && !Dark(DigestOf(log))
    ensures !ok ==> Finished(modem, log, opts, ContextEnded)
  {
    hide Good, DigestOf, CycleDue;
    var a: Answer;
    a, log := Do(modem, before, Pause, RulesOf(opts));
    ok := a.ok;
  }

  /** One round: a reading, what it calls for, and a pause. */
  method Round(modem: Modem, opts: Options, before: seq<Entry>, attempt: nat, f0: Flags)
    returns (stop: Option<Outcome>, f: Flags, log: seq<Entry>)
    requires 1 <= attempt <= Attempts(opts) && Underway(modem, before, opts, attempt - 1, f0)
    requires Next(DigestOf(before), ReadServing, RulesOf(opts))
    ensures stop.None? ==> Underway(modem, log, opts, attempt, f) && Goes(DigestOf(log), opts, attempt) && !Dark(DigestOf(log))
    ensures stop.Some? ==> Finished(modem, log, opts, stop.value)
  {
    hide Good, DigestOf, CycleDue, Settled;
    var a: Answer;
    f := f0;
    a, log := Read(modem, opts, before, attempt - 1, f);
    if !a.ok || a.serving.None? { return Some(Failed(ReadServing)), f, log; }
    var ss := a.serving.value;
    var ok: bool;
    if Home(ss.reg) {
      if ss.psAttached { return Some(Registered), f, log; }
      ok, f, log := TryAttach(modem, opts, log, attempt, f);
      if !ok { return Some(Failed(Attach)), f, log; }
    } else if ss.reg == 3 {
      return Some(Denied), f, log;
    } else {
      ok, f, log := Respond(modem, opts, log, attempt, f, ss.reg);
      if !ok { return Some(Failed(Register)), f, log; }
    }
    ok, log := Rest(modem, opts, log, attempt, f);
    stop := if ok then None else Some(ContextEnded);
  }

  /** What a reading that is neither final nor registered calls for. */
  method Respond(modem: Modem, opts: Options, before: seq<Entry>, attempt: nat, f0: Flags, reg: int)
    returns (ok: bool, f: Flags, log: seq<Entry>)
    requires Underway(modem, before, opts, attempt, f0) && attempt > 0
    requires JustRead(DigestOf(before)) && DigestOf(before).reading.value.reg == reg && reg !in {1, 3, 5}
    ensures Underway(modem, log, opts, attempt, f)
    ensures ok ==> MayRest(DigestOf(log), RulesOf(opts))
    ensures !ok ==> Finished(modem, log, opts, Failed(Register))
  {
    hide Good, DigestOf, CycleDue;
    ok, f, log := Wake(modem, opts, before, attempt, f0);
    if ok && reg == 2 {
      f, log := TryCycle(modem, opts, log, attempt, f);
    }
  }

  /** For every sequence of modem answers the attempt makes exactly the calls the rules determine, until
      it is over, and ends as they say. It takes no more than the allowed readings, one radio cycle, and
      one registration and one attach besides those a cycle makes necessary; it reports success exactly
      when its last act is a reading that says registered and attached, and denial exactly when that
      reading says denied. */
  method EnsureRegistration(modem: Modem, opts: Options) returns (outcome: Outcome, log: seq<Entry>)
    ensures Good(modem, log, RulesOf(opts)) && Over(DigestOf(log), RulesOf(opts)) == Some(outcome)
    ensures !Dark(DigestOf(log)) && Frugal(DigestOf(log), opts) && Tells(DigestOf(log), opts, outcome)
    ensures RulesOf(opts) ==
      Rules(opts.hook, None, if opts.radioCycleAfter > 0 then opts.radioCycleAfter else 30, None, true, false,
            false, false, if opts.maxAttempts > 0 then opts.maxAttempts else 45)
  {
    hide Good, DigestOf, CycleDue;
    var stop;
    stop, log := Ready(modem, opts);
    if stop.Some? {
      OverTells(DigestOf(log), opts, stop.value);
      return stop.value, log;
    }
    var flags := Flags(false, false, false);
    for attempt := 1 to Attempts(opts) + 1
      invariant Underway(modem, log, opts, attempt - 1, flags) && Goes(DigestOf(log), opts, attempt - 1) && !Dark(DigestOf(log))
    {
      stop, flags, log := Round(modem, opts, log, attempt, flags);
      if stop.Some? {
        OverTells(DigestOf(log), opts, stop.value);
        return stop.value, log;
      }
    }
    OverTells(DigestOf(log), opts, TimedOut);
    return TimedOut, log;
  }
}
