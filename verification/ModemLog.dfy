/** What a registration loop asks of a modem, as a log. The modem is any function from the position in
    the log to an answer, so a claim for all of them is a claim for every way it can behave. The rules
    below say, call by call, what a loop must and must not ask next. */
module ModemLog {
  import opened Wrappers

  datatype Call =
    | ReadMode | GoOnline | GoRFOff | Provision | ReadSim | ReadServing | SelectAutomatic | Register
    | ForceSearch | Attach | AskSuppress | Pause

  datatype Serving = Serving(reg: int, psAttached: bool)

  /** ok: the call succeeded, or the context outlived the pause. tolerated: a failure is of the kind the
      caller tolerates. The others answer the call that asks for them. */
  datatype Answer = Answer(ok: bool, tolerated: bool, flight: bool, ready: bool, serving: Option<Serving>, suppress: bool)

  datatype Entry = Entry(call: Call, answer: Answer)

  type Modem = nat -> Answer

  /** What the rules look at: how often each call was made, the registrations and attaches since the
      radio was last switched off, whether a radio cycle ran to its end, the last reading of the serving
      system, and the last two entries. */
  datatype Digest = Digest(
    servings: nat, sims: nat, onlines: nat, cycles: nat, registers: nat, attaches: nat, searches: nat,
    unsupported: nat, registersSince: nat, attachesSince: nat, cycleDone: bool,
    reading: Option<Serving>, last: Option<Entry>, previous: Option<Entry>)

  const NOTHING := Digest(0, 0, 0, 0, 0, 0, 0, 0, 0, 0, false, None, None, None)

  predicate Was(e: Option<Entry>, call: Call, ok: bool) { e.Some? && e.value.call == call && e.value.answer.ok == ok }

  function Add(d0: Digest, e: Entry): Digest {
    var d := d0.(last := Some(e), previous := d0.last);
    match e.call
    case ReadServing => d.(servings := d.servings + 1, reading := if e.answer.ok then e.answer.serving else None)
    case ReadSim => d.(sims := d.sims + 1)
    case GoOnline => d.(onlines := d.onlines + 1)
    case GoRFOff => d.(cycles := d.cycles + 1, registersSince := 0, attachesSince := 0)
    case Register => d.(registers := d.registers + 1, registersSince := d.registersSince + 1)
    case Attach => d.(attaches := d.attaches + 1, attachesSince := d.attachesSince + 1)
    case ForceSearch =>
      d.(searches := d.searches + 1,
         unsupported := d.unsupported + if !e.answer.ok && e.answer.tolerated then 1 else 0)
    case Pause => if d0.cycles > 0 && Was(d0.last, GoOnline, true) then d.(cycleDone := e.answer.ok) else d
    case _ => d
  }

  function DigestOf(log: seq<Entry>): Digest {
    if log == [] then NOTHING else Add(DigestOf(log[..|log| - 1]), log[|log| - 1])
  }

  predicate Home(reg: int) { reg == 1 || reg == 5 }

  /** The last entry is a reading of the serving system, and it succeeded. */
  predicate JustRead(d: Digest) { Was(d.last, ReadServing, true) && d.reading.Some? }

  /** ... and says registered and attached. */
  predicate Success(d: Digest) { JustRead(d) && Home(d.reading.value.reg) && d.reading.value.psAttached }

  predicate Denial(d: Digest) { JustRead(d) && d.reading.value.reg == 3 }

  /** hook: the caller can suppress radio cycles. searchAfter, cycleAfter: the readings that must come
      before a forced search, and before a radio cycle. earlyAfter: fewer suffice for a cycle where a
      forced search turned out unsupported and the radio was on all along. forgets: any radio cycle
      calls for a new registration and attach, not only a completed one. twoStep: a submission first
      selects automatic mode and then registers. rechecks: a radio that was switched on is looked at once
      more. provision: the SIM is provisioned before it is asked for. attempts: how often at most the SIM
      is asked, and the serving system read. */
  datatype Rules = Rules(
    hook: bool, searchAfter: Option<int>, cycleAfter: int, earlyAfter: Option<int>, forgets: bool, twoStep: bool,
    rechecks: bool, provision: bool, attempts: nat)

  datatype Outcome = Registered | Denied | TimedOut | SimNotReady | StillOffline | ContextEnded | Failed(call: Call)

  predicate CycleDue(d: Digest, rules: Rules) {
    || d.servings >= rules.cycleAfter
    || (rules.earlyAfter.Some? && d.servings >= rules.earlyAfter.value && d.unsupported > 0 && d.onlines == 0)
  }

  predicate Forgotten(d: Digest, rules: Rules) { if rules.forgets then d.cycles > 0 else d.cycleDone }

  /** A registration is owed until one is submitted, and again after a radio cycle; so is an attach. */
  predicate OwesRegister(d: Digest, rules: Rules) { d.registers == 0 || (Forgotten(d, rules) && d.registersSince == 0) }

  predicate OwesAttach(d: Digest, rules: Rules) { d.attaches == 0 || (Forgotten(d, rules) && d.attachesSince == 0) }

  predicate Searching(d: Digest) { d.reading.Some? && d.reading.value.reg == 2 }

  predicate JustAsked(d: Digest, suppress: bool) {
    d.last.Some? && d.last.value.call.AskSuppress? && d.last.value.answer.suppress == suppress
  }

  /** The first half of a two-step submission. */
  predicate HalfSubmitted(d: Digest) {
    d.last.Some? && d.last.value.call.SelectAutomatic? && !(d.previous.Some? && d.previous.value.call.Register?)
  }

  /** Both halves failed, the second in a way that is tolerated: the first is tried once more. */
  predicate Reselects(d: Digest, rules: Rules) {
    rules.twoStep && Was(d.last, Register, false) && d.last.value.answer.tolerated && Was(d.previous, SelectAutomatic, false)
  }

  /** The radio was switched off, and has not been asked to come back although the context lives. */
  predicate Dark(d: Digest) { Was(d.last, GoRFOff, true) || (Was(d.previous, GoRFOff, true) && Was(d.last, Pause, true)) }

  predicate WantsRegister(d: Digest, rules: Rules) {
    d.reading.Some? && d.reading.value.reg !in {1, 3, 5} && OwesRegister(d, rules)
  }

  predicate WantsAttach(d: Digest, rules: Rules) { JustRead(d) && Home(d.reading.value.reg) && OwesAttach(d, rules) }

  predicate LastIs(d: Digest, calls: set<Call>) { d.last.Some? && d.last.value.call in calls }

  /** The last pause belongs to a radio cycle. */
  predicate Cycling(d: Digest) {
    LastIs(d, {Pause}) && (Was(d.previous, GoRFOff, true) || (Was(d.previous, GoOnline, true) && d.cycles > 0))
  }

  /** When the attempt is over, and how it ended. What fails inside a radio cycle, a provisioning, a
      forced search, the choice of automatic mode, and a tolerated registration do not end it. */
  function Over(d: Digest, rules: Rules): Option<Outcome> {
    if d.last.None? then None
    else
      var a := d.last.value.answer;
      match d.last.value.call
      case ReadMode => if !a.ok then Some(Failed(ReadMode)) else if a.flight && d.onlines > 0 then Some(StillOffline) else None
      case GoOnline => if !a.ok && d.cycles == 0 then Some(Failed(GoOnline)) else None
      case ReadSim => if a.ok then None else Some(Failed(ReadSim))
      case ReadServing =>
        if !JustRead(d) then Some(Failed(ReadServing))
        else if Success(d) then Some(Registered)
        else if Denial(d) then Some(Denied)
        else None
      case Attach => if a.ok then None else Some(Failed(Attach))
      case Register => if a.ok || (rules.twoStep && a.tolerated) then None else Some(Failed(Register))
      case Pause =>
        if Cycling(d) then None
        else if !a.ok then Some(ContextEnded)
        else if d.servings == 0 && d.sims == rules.attempts then Some(SimNotReady)
        else if d.servings == rules.attempts then Some(TimedOut)
        else None
      case _ => None
  }

  predicate SimReady(d: Digest) { Was(d.last, ReadSim, true) && d.last.value.answer.ready }

  /** A radio found off was switched on, and the pause after it is over. */
  predicate Restored(d: Digest) { d.servings == d.cycles == 0 && Was(d.last, Pause, true) && Was(d.previous, GoOnline, true) }

  predicate RadioOn(d: Digest, rules: Rules) {
    (Was(d.last, ReadMode, true) && !d.last.value.answer.flight) || (!rules.rechecks && Restored(d))
  }

  /** In a round, after its reading and before its pause, and not in a radio cycle. */
  predicate Acting(d: Digest) {
    d.servings > 0 && LastIs(d, {ReadServing, SelectAutomatic, Register, ForceSearch, Attach, AskSuppress})
  }

  /** A radio cycle ran to its end, or failed. */
  predicate CycleOver(d: Digest) {
    || Was(d.last, GoRFOff, false) || (d.cycles > 0 && Was(d.last, GoOnline, false))
    || (Cycling(d) && (!d.last.value.answer.ok || Was(d.previous, GoOnline, true)))
  }

  predicate OwesSearch(d: Digest, rules: Rules) {
    rules.searchAfter.Some? && d.servings >= rules.searchAfter.value && d.searches == 0
  }

  /** What may come next. */
  predicate MayDo(d: Digest, call: Call, rules: Rules) {
    match call
    case ReadMode => d.last.None? || (rules.rechecks && Restored(d))
    case GoOnline =>
      || (Was(d.last, ReadMode, true) && d.last.value.answer.flight && d.onlines == 0)
      || (Dark(d) && Was(d.last, Pause, true))
    case Provision => rules.provision && RadioOn(d, rules)
    case ReadSim =>
      || (if rules.provision then LastIs(d, {Provision}) else RadioOn(d, rules))
      || (Was(d.last, Pause, true) && d.previous.Some? && d.previous.value.call.ReadSim? && d.servings == 0)
    case ReadServing => SimReady(d) || (Was(d.last, Pause, true) && d.servings > 0 && !Cycling(d))
    case GoRFOff =>
      && d.cycles == 0 && CycleDue(d, rules) && Searching(d) && !OwesRegister(d, rules) && !OwesSearch(d, rules)
      && (if rules.hook then JustAsked(d, false) else Acting(d) && !LastIs(d, {AskSuppress}))
    case AskSuppress =>
      && rules.hook && d.cycles == 0 && CycleDue(d, rules) && Searching(d)
      && !OwesRegister(d, rules) && !OwesSearch(d, rules) && Acting(d) && !LastIs(d, {AskSuppress})
    case ForceSearch => OwesSearch(d, rules) && Searching(d) && !OwesRegister(d, rules) && Acting(d)
    case SelectAutomatic => rules.twoStep && ((JustRead(d) && WantsRegister(d, rules)) || Reselects(d, rules))
    case Register => if rules.twoStep then HalfSubmitted(d) else JustRead(d) && WantsRegister(d, rules)
    case Attach => WantsAttach(d, rules)
    case Pause =>
      || Was(d.last, GoOnline, true) || Was(d.last, GoRFOff, true) || (Was(d.last, ReadSim, true) && !SimReady(d))
      || (d.servings > 0 && (Acting(d) || CycleOver(d)))
  }

  /** What has to come next. */
  predicate MustDo(d: Digest, call: Call, rules: Rules) {
    && (WantsAttach(d, rules) ==> call.Attach?)
    && (JustRead(d) && WantsRegister(d, rules) ==> call == if rules.twoStep then SelectAutomatic else Register)
    && (rules.twoStep && HalfSubmitted(d) ==> call.Register?)
    && (Reselects(d, rules) ==> call.SelectAutomatic?)
    && (call.Pause? && Searching(d) ==>
          !OwesSearch(d, rules) && (CycleDue(d, rules) ==> d.cycles > 0 || JustAsked(d, true)))
  }

  /** No step is owed because of the last two entries. */
  predicate Settled(d: Digest, rules: Rules) {
    && Acting(d) && Over(d, rules).None? && !HalfSubmitted(d) && !Reselects(d, rules)
    && !WantsAttach(d, rules) && !(JustRead(d) && WantsRegister(d, rules))
  }

  /** Between rounds. */
  predicate Rested(d: Digest) { SimReady(d) || (Was(d.last, Pause, true) && d.servings > 0 && !Cycling(d)) }

  predicate Next(d: Digest, call: Call, rules: Rules) { Over(d, rules).None? && MayDo(d, call, rules) && MustDo(d, call, rules) }

  /** A round may end here with its pause. */
  predicate MayRest(d: Digest, rules: Rules) { Next(d, Pause, rules) && (Acting(d) || CycleOver(d)) }

  /** The rules leave no choice. */
  lemma NextIsUnique(d: Digest, one: Call, other: Call, rules: Rules)
    requires Next(d, one, rules) && Next(d, other, rules)
    ensures one == other
  {
    hide CycleDue;
  }

  /** Every entry is the next call, with the modem's answer. */
  predicate Good(modem: Modem, log: seq<Entry>, rules: Rules) {
    forall i :: 0 <= i < |log| ==> Next(DigestOf(log[..i]), log[i].call, rules) && log[i].answer == modem(i)
  }

  /** With the same modem only one log keeps to the rules until the attempt is over. */
  lemma TheLogIsDetermined(modem: Modem, a: seq<Entry>, b: seq<Entry>, rules: Rules)
    requires Good(modem, a, rules) && Good(modem, b, rules)
    requires Over(DigestOf(a), rules).Some? && Over(DigestOf(b), rules).Some?
    ensures a == b
  {
    hide Next, DigestOf, Over;
    assert a[..|a|] == a && b[..|b|] == b;
    if |a| <= |b| {
      IsPrefix(modem, a, b, |a|, rules);
      NoLonger(modem, a, b, rules);
    } else {
      IsPrefix(modem, a, b, |b|, rules);
      NoLonger(modem, b, a, rules);
    }
  }

  lemma NoLonger(modem: Modem, a: seq<Entry>, b: seq<Entry>, rules: Rules)
    requires Good(modem, b, rules) && a <= b && Over(DigestOf(a), rules).Some?
    ensures |a| == |b|
  {
    hide Next, DigestOf, Over;
    if |a| < |b| {
      assert b[..|a|] == a;
      NotOver(modem, b, |a|, rules);
    }
  }

  lemma NotOver(modem: Modem, log: seq<Entry>, i: nat, rules: Rules)
    requires Good(modem, log, rules) && i < |log|
    ensures Over(DigestOf(log[..i]), rules).None?
  {
    NextAt(modem, log, rules, i);
    hide MayDo, MustDo, Over, DigestOf;
  }

  lemma {:induction false} IsPrefix(modem: Modem, a: seq<Entry>, b: seq<Entry>, n: nat, rules: Rules)
    requires Good(modem, a, rules) && Good(modem, b, rules) && n <= |a| && n <= |b|
    ensures a[..n] == b[..n]
  {
    hide Next, DigestOf;
    if n > 0 {
      IsPrefix(modem, a, b, n - 1, rules);
      NextAt(modem, a, rules, n - 1);
      NextAt(modem, b, rules, n - 1);
      NextIsUnique(DigestOf(a[..n - 1]), a[n - 1].call, b[n - 1].call, rules);
      assert a[..n] == a[..n - 1] + [a[n - 1]] && b[..n] == b[..n - 1] + [b[n - 1]];
    }
  }

  method Do(modem: Modem, log: seq<Entry>, call: Call, ghost rules: Rules) returns (a: Answer, out: seq<Entry>)
    requires Good(modem, log, rules) && Next(DigestOf(log), call, rules)
    ensures a == modem(|log|) && out == log + [Entry(call, a)]
    ensures Good(modem, out, rules) && DigestOf(out) == Add(DigestOf(log), Entry(call, a))
  {
    hide Next, Add;
    a := modem(|log|);
    out := log + [Entry(call, a)];
    assert out[..|log|] == log;
    forall i | 0 <= i < |out| ensures Next(DigestOf(out[..i]), out[i].call, rules) && out[i].answer == modem(i) {
      if i < |log| { assert out[..i] == log[..i]; }
    }
  }

  lemma EmptyLog(modem: Modem, rules: Rules)
    ensures Good(modem, [], rules) && DigestOf([]) == NOTHING
  {
  }

  /** Off, a pause, on, a pause; it stops at the first failure. */
  method RadioCycle(modem: Modem, log: seq<Entry>, ghost rules: Rules) returns (ok: bool, out: seq<Entry>)
    requires Good(modem, log, rules) && Next(DigestOf(log), GoRFOff, rules) && !DigestOf(log).cycleDone
    ensures Good(modem, out, rules)
    ensures var d := DigestOf(log); var n := DigestOf(out);
      && n.cycles == 1 && n.registersSince == n.attachesSince == 0 && n.cycleDone == ok
      && n.servings == d.servings && n.sims == d.sims && n.registers == d.registers && n.attaches == d.attaches
      && n.searches == d.searches && n.unsupported == d.unsupported && n.reading == d.reading
      && CycleOver(n) && !Dark(n) && Over(n, rules).None? && !Acting(n)
  {
    hide Good, DigestOf, OwesRegister, OwesAttach, CycleDue;
    var a: Answer;
    a, out := Do(modem, log, GoRFOff, rules);
    if !a.ok { return false, out; }
    a, out := Do(modem, out, Pause, rules);
    if !a.ok { return false, out; }
    a, out := Do(modem, out, GoOnline, rules);
    if !a.ok { return false, out; }
    a, out := Do(modem, out, Pause, rules);
    return a.ok, out;
  }

  /** Before the loop nothing but the mode and the SIM has been asked for. */
  predicate Untouched(d: Digest) {
    && d.servings == d.cycles == d.registers == d.attaches == d.searches == d.unsupported == 0
    && d.registersSince == d.attachesSince == 0 && !d.cycleDone && d.reading.None?
    && (d.last.Some? ==> d.last.value.call in {ReadMode, GoOnline, Provision, ReadSim, Pause})
    && (d.previous.Some? ==> d.previous.value.call in {ReadMode, GoOnline, Provision, ReadSim, Pause})
  }

  /** One of the preparations. */
  method Prepare(modem: Modem, log: seq<Entry>, call: Call, ghost rules: Rules) returns (a: Answer, out: seq<Entry>)
    requires Good(modem, log, rules) && Untouched(DigestOf(log)) && call in {ReadMode, GoOnline, Provision, ReadSim, Pause}
    requires Next(DigestOf(log), call, rules)
    ensures a == modem(|log|) && Good(modem, out, rules) && Untouched(DigestOf(out))
    ensures DigestOf(out).last == Some(Entry(call, a)) && DigestOf(out).previous == DigestOf(log).last
    ensures DigestOf(out).sims == DigestOf(log).sims + Bit(call.ReadSim?)
    ensures DigestOf(out).onlines == DigestOf(log).onlines + Bit(call.GoOnline?)
  {
    hide Good, DigestOf, Next;
    a, out := Do(modem, log, call, rules);
  }

  function Bit(b: bool): nat { if b then 1 else 0 }

  function Count(log: seq<Entry>, call: Call): nat {
    if log == [] then 0 else Count(log[..|log| - 1], call) + Bit(log[|log| - 1].call == call)
  }

  /** The digest counts the calls. */
  lemma {:induction false} CountsAreCounts(log: seq<Entry>)
    ensures var d := DigestOf(log);
      && d.servings == Count(log, ReadServing) && d.sims == Count(log, ReadSim) && d.onlines == Count(log, GoOnline)
      && d.cycles == Count(log, GoRFOff) && d.registers == Count(log, Register) && d.attaches == Count(log, Attach)
      && d.searches == Count(log, ForceSearch)
  {
    if log != [] {
      var before, e := log[..|log| - 1], log[|log| - 1];
      CountsAreCounts(before);
      AddCounts(DigestOf(before), e);
      hide Add;
      assert DigestOf(log) == Add(DigestOf(before), e);
    }
  }

  lemma AddCounts(d: Digest, e: Entry)
    ensures var n := Add(d, e);
      && n.servings == d.servings + Bit(e.call == ReadServing) && n.sims == d.sims + Bit(e.call == ReadSim)
      && n.onlines == d.onlines + Bit(e.call == GoOnline) && n.cycles == d.cycles + Bit(e.call == GoRFOff)
      && n.registers == d.registers + Bit(e.call == Register) && n.attaches == d.attaches + Bit(e.call == Attach)
      && n.searches == d.searches + Bit(e.call == ForceSearch)
  {
  }

  // ---- What the rules mean for a finished log

  lemma AddTells(d: Digest, e: Entry)
    ensures Add(d, e).last == Some(e) && Add(d, e).previous == d.last
  {
  }

  lemma LastTwo(log: seq<Entry>, i: nat)
    requires i < |log|
    ensures DigestOf(log[..i + 1]) == Add(DigestOf(log[..i]), log[i])
    ensures DigestOf(log[..i + 1]).last == Some(log[i])
    ensures DigestOf(log[..i + 1]).previous == if i == 0 then None else Some(log[i - 1])
  {
    hide Add;
    assert log[..i + 1][..i] == log[..i];
    AddTells(DigestOf(log[..i]), log[i]);
    if i > 0 {
      assert log[..i][..i - 1] == log[..i - 1];
      AddTells(DigestOf(log[..i - 1]), log[i - 1]);
    }
  }

  lemma NextAt(modem: Modem, log: seq<Entry>, rules: Rules, i: nat)
    requires Good(modem, log, rules) && i < |log|
    ensures Next(DigestOf(log[..i]), log[i].call, rules)
  {
  }

  lemma AfterOff(d: Digest, call: Call, rules: Rules)
    requires Next(d, call, rules)
    ensures Was(d.last, GoRFOff, true) ==> call.Pause?
    ensures Was(d.previous, GoRFOff, true) && Was(d.last, Pause, true) ==> call.GoOnline?
  {
  }

  /** The radio is only ever switched off where the caller, if it has a say, has just declined to
      suppress it, while searching, and after the readings the rules ask for. */
  lemma CyclesAreAllowed(modem: Modem, log: seq<Entry>, rules: Rules, i: nat)
    requires Good(modem, log, rules) && i < |log| && log[i].call.GoRFOff?
    ensures rules.hook ==> i > 0 && log[i - 1].call.AskSuppress? && !log[i - 1].answer.suppress
    ensures Searching(DigestOf(log[..i])) && CycleDue(DigestOf(log[..i]), rules)
  {
    NextAt(modem, log, rules, i);
    if i > 0 { LastTwo(log, i - 1); }
  }

  /** Every successful switching off is followed by a pause and then by switching on, unless the context
      ends in the pause. */
  lemma CyclesEndOnline(modem: Modem, log: seq<Entry>, rules: Rules, i: nat)
    requires Good(modem, log, rules) && !Dark(DigestOf(log)) && i < |log| && log[i].call.GoRFOff? && log[i].answer.ok
    ensures i + 1 < |log| && log[i + 1].call.Pause?
    ensures log[i + 1].answer.ok ==> i + 2 < |log| && log[i + 2].call.GoOnline?
  {
    hide DigestOf, Next, Good, Add;
    LastTwo(log, i);
    assert log[..|log|] == log;
    if i + 1 < |log| {
      NextAt(modem, log, rules, i + 1);
      AfterOff(DigestOf(log[..i + 1]), log[i + 1].call, rules);
      LastTwo(log, i + 1);
    }
    if i + 2 < |log| {
      NextAt(modem, log, rules, i + 2);
      AfterOff(DigestOf(log[..i + 2]), log[i + 2].call, rules);
    }
  }

  /** A reading that says registered but not attached is answered by an attach at once, unless one was
      made and no radio cycle since has undone it; nothing follows one that says attached. */
  lemma AttachIsPrompt(modem: Modem, log: seq<Entry>, rules: Rules, i: nat)
    requires Good(modem, log, rules) && i + 1 < |log| && log[i].call.ReadServing? && log[i].answer.ok
    requires log[i].answer.serving.Some? && Home(log[i].answer.serving.value.reg)
    ensures !log[i].answer.serving.value.psAttached
    ensures OwesAttach(DigestOf(log[..i]), rules) <==> log[i + 1].call.Attach?
  {
    hide DigestOf, Good;
    LastTwo(log, i);
    NextAt(modem, log, rules, i + 1);
  }

  /** A reading that says neither registered nor denied is answered by a submission at once, exactly
      when one is owed. */
  lemma RegisterIsPrompt(modem: Modem, log: seq<Entry>, rules: Rules, i: nat)
    requires Good(modem, log, rules) && i + 1 < |log| && log[i].call.ReadServing? && log[i].answer.ok
    requires log[i].answer.serving.Some? && log[i].answer.serving.value.reg !in {1, 3, 5}
    ensures OwesRegister(DigestOf(log[..i]), rules) <==>
      log[i + 1].call == if rules.twoStep then SelectAutomatic else Register
  {
    hide DigestOf, Good;
    LastTwo(log, i);
    NextAt(modem, log, rules, i + 1);
  }

  /** While searching no pause passes a forced search that is due, nor a radio cycle that is due and not
      being suppressed. */
  lemma SearchIsPrompt(modem: Modem, log: seq<Entry>, rules: Rules, i: nat)
    requires Good(modem, log, rules) && 0 < i < |log| && log[i].call.Pause? && Searching(DigestOf(log[..i]))
    ensures var d := DigestOf(log[..i]);
      && (rules.searchAfter.Some? && d.servings >= rules.searchAfter.value ==> d.searches > 0)
      && (CycleDue(d, rules) ==> d.cycles > 0 || (log[i - 1].call.AskSuppress? && log[i - 1].answer.suppress))
  {
    hide DigestOf, Good;
    NextAt(modem, log, rules, i);
    LastTwo(log, i - 1);
  }
}
