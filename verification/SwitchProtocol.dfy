/** A card switch as a whole, on one device: the critical sections of its start, of the finaliser with
    all its token checks, and of the refreshes scheduled after it, on the switch tables and the SIM
    identity together. Whatever may run at the same time may run between any two of them. */
module SwitchProtocol {
  import opened SimIdentity
  import opened Wrappers
  import ST = SwitchTables
  import Text

  /** A switch starts in three sections, and the device's eSIM lock lets one switch start at a time: its
      entry in the tables, its identity transition, and the transition's generation in its entry. */
  datatype Starter = Idle | BeforeIdentity(token: nat, target: string) | BeforeGeneration(token: nat, generation: nat)

  /** The next section of a finaliser; the checks compare its token with the current one. */
  datatype Pc =
    | Resolve | EnsureTransition | StoreGeneration(generation: nat) | CoreCheck | Converge | RadioCheck | MarkRefresh
    | Refresh | Poll | GiveUp | IdentityCheck(ok: bool) | MarkRestore(ok: bool) | RuntimeCheck(ok: bool)
    | MarkEnd(phase: ST.Phase) | Gate | GateCheck(open: bool) | LastCheck(open: bool) | Restore(open: bool)
    | MarkDone | ClearEntry
    | Match(generation: nat) // where a scheduled refresh begins
    | Ended

  /** checked is the number of the step with its last passed check, 0 before the first; ensured that of
      the step that last saw to its transition. A retry is a refresh that a finaliser scheduled. */
  datatype Finaliser = Finaliser(token: nat, own: string, radioCycle: bool, retry: bool, pc: Pc, checked: nat, ensured: nat)

  datatype Who = Nobody | TheSwitch | Refresher(id: nat)

  /** The identity's latest transition: its step, its target and who started it. */
  datatype Transition = Transition(at: nat, target: string, who: Who)

  /** n numbers the steps; begun is the step that entered the latest switch in the tables; targets are
      the targets of the device's switches by token. */
  datatype State = State(
    tables: ST.Tables, identity: Identity, starter: Starter, fins: map<nat, Finaliser>,
    n: nat, begun: nat, transition: Transition, targets: map<nat, string>)

  const FAILED: ST.Phase := "failed"

  const START := State(ST.EMPTY, FRESH, Idle, map[], 1, 0, Transition(0, "", Nobody), map[])

  /** What a section of a finaliser meets: whether the worker is there or its wait or probe succeeds,
      what it reads last, and the clock. */
  datatype Input = Input(ok: bool, iccid: Reading, imsi: Reading, now: int)

  datatype Step =
    | StartTables(before: ST.Before, target: string, capturedAt: int, now: int)
    | StartIdentity
    | StartGeneration
    | StartWithoutWorker
    | Launch(id: nat, token: nat, radioCycle: bool)
    | Schedule(id: nat, own: string, generation: nat)
    | Advance(id: nat, input: Input)
    | LiveRefresh(iccid: string, imsi: string, more: bool)
    | OtherTable(op: ST.Op)

  /** Table updates from elsewhere: of other devices, and this device's phases, failures and timeouts. */
  predicate FromElsewhere(op: ST.Op, dev: string) {
    ST.KeyOf(op) != dev || op.TimeOut? || ((op.Mark? || op.Fail? || op.ClearIf?) && op.token != 0)
  }

  predicate Enabled(s: State, dev: string, e: Step) {
    match e
    case StartTables(_, _, _, _) => s.starter.Idle?
    case StartIdentity => s.starter.BeforeIdentity?
    case StartGeneration => s.starter.BeforeGeneration?
    case StartWithoutWorker => s.starter.BeforeIdentity?
    case Launch(id, token, _) => id !in s.fins && token in s.targets
    case Schedule(id, _, _) => id !in s.fins
    case Advance(id, _) => id in s.fins
    case LiveRefresh(_, _, _) => true
    case OtherTable(op) => FromElsewhere(op, dev)
  }

  predicate Current(s: State, dev: string, f: Finaliser) { ST.TokenOf(s.tables, dev) == f.token }

  function Check(s: State, dev: string, f: Finaliser, next: Pc): Finaliser {
    if Current(s, dev, f) then f.(pc := next, checked := s.n) else f.(pc := ClearEntry)
  }

  /** Where a refresh goes on: only a finaliser has more to do. */
  function Refreshed(f: Finaliser, ok: bool): Finaliser { f.(pc := if f.retry then Ended else IdentityCheck(ok)) }

  /** What a section does to the finaliser itself. */
  function NextOf(s: State, dev: string, f: Finaliser, i: Input): Finaliser {
    match f.pc
    case Resolve =>
      if Current(s, dev, f) && dev in s.tables.contexts then
        f.(own := s.tables.contexts[dev].target, pc := EnsureTransition, checked := s.n)
      else f.(pc := Ended)
    case EnsureTransition =>
      if !i.ok then f.(pc := MarkEnd(FAILED)) // the worker is gone
      else f.(pc := StoreGeneration(Apply(s.identity, Ensure(f.own)).generation), ensured := s.n)
    case StoreGeneration(_) => f.(pc := CoreCheck)
    case CoreCheck => Check(s, dev, f, Converge)
    case Converge => f.(pc := if !i.ok then MarkEnd(ST.DEGRADED) else if f.radioCycle then RadioCheck else MarkRefresh)
    case RadioCheck => Check(s, dev, f, MarkRefresh)
    case MarkRefresh => f.(pc := Refresh)
    case Refresh => f.(pc := if i.ok then Poll else GiveUp, ensured := s.n)
    case Poll =>
      if Rejects(f.own, i.iccid) then Refreshed(f, false)
      else if Text.Trim(i.iccid.text) == "" then f.(pc := GiveUp)
      else Refreshed(f, true)
    case GiveUp => Refreshed(f, false)
    case IdentityCheck(ok) => Check(s, dev, f, MarkRestore(ok))
    case MarkRestore(ok) => f.(pc := RuntimeCheck(ok))
    case RuntimeCheck(ok) => Check(s, dev, f, if ok then Gate else MarkEnd(ST.DEGRADED))
    case MarkEnd(_) => f.(pc := ClearEntry)
    case Gate => f.(pc := GateCheck(i.ok))
    case GateCheck(open) => Check(s, dev, f, LastCheck(open))
    case LastCheck(open) => Check(s, dev, f, Restore(open))
    case Restore(_) => f.(pc := MarkDone)
    case MarkDone => f.(pc := ClearEntry)
    case ClearEntry => f.(pc := Ended)
    case Match(generation) => f.(pc := if i.ok && ConvergenceMatches(s.identity, f.own, generation) then Refresh else Ended)
    case Ended => f
  }

  /** ... to the tables, where it touches them ... */
  function TableOp(f: Finaliser, dev: string, i: Input): Option<ST.Op> {
    match f.pc
    case StoreGeneration(generation) => Some(ST.SetGeneration(dev, f.token, generation))
    case MarkRefresh => Some(ST.Mark(dev, f.token, "identity_refresh", i.now))
    case MarkRestore(_) => Some(ST.Mark(dev, f.token, "runtime_restore", i.now))
    case MarkEnd(phase) => Some(ST.Mark(dev, f.token, phase, i.now))
    // The update after a gate that did not open passes no token.
    case Restore(open) => if open then None else Some(ST.Mark(dev, 0, ST.DEGRADED, i.now))
    case MarkDone => Some(ST.Mark(dev, f.token, "done", i.now))
    case ClearEntry => Some(ST.ClearIf(dev, f.token))
    case _ => None
  }

  /** ... and to the identity. */
  function IdentityOp(f: Finaliser, i: Input): Option<Op> {
    match f.pc
    case EnsureTransition => if i.ok then Some(Ensure(f.own)) else None
    case Refresh => Some(Ensure(f.own))
    case Poll => Some(Final(f.own, i.iccid, i.imsi))
    case GiveUp => Some(Degrade)
    case _ => None
  }

  function TableStep(s: State, dev: string, e: Step): Option<ST.Op>
    requires Enabled(s, dev, e)
  {
    match e
    case StartTables(before, target, capturedAt, now) => Some(ST.Begin(dev, before, target, capturedAt, now))
    case StartGeneration => Some(ST.SetGeneration(dev, s.starter.token, s.starter.generation))
    case Advance(id, i) => TableOp(s.fins[id], dev, i)
    case OtherTable(op) => Some(op)
    case _ => None
  }

  function IdentityStep(s: State, dev: string, e: Step): Option<Op>
    requires Enabled(s, dev, e)
  {
    match e
    case StartIdentity => Some(Begin(s.starter.target))
    case Advance(id, i) => IdentityOp(s.fins[id], i)
    case LiveRefresh(iccid, imsi, more) => Some(Live(iccid, imsi, more))
    case _ => None
  }

  function NextStarter(s: State, e: Step): Starter {
    match e
    case StartTables(_, target, _, _) => BeforeIdentity(s.tables.switchSeq + 1, Text.Trim(target))
    case StartIdentity =>
      if s.starter.BeforeIdentity? then BeforeGeneration(s.starter.token, s.identity.generation + 1) else s.starter
    case StartGeneration => Idle
    case StartWithoutWorker => Idle
    case _ => s.starter
  }

  function NextFins(s: State, dev: string, e: Step): map<nat, Finaliser>
    requires Enabled(s, dev, e)
  {
    match e
    case Launch(id, token, radioCycle) => s.fins[id := Finaliser(token, "", radioCycle, false, Resolve, 0, 0)]
    case Schedule(id, own, generation) => s.fins[id := Finaliser(0, own, false, true, Match(generation), 0, 0)]
    case Advance(id, i) => s.fins[id := NextOf(s, dev, s.fins[id], i)]
    case _ => s.fins
  }

  function NextTransition(s: State, dev: string, e: Step): Transition
    requires Enabled(s, dev, e)
  {
    var op := IdentityStep(s, dev, e);
    if op.Some? && Starts(s.identity, op.value) then
      Transition(s.n, op.value.target, if e.Advance? then Refresher(e.id) else TheSwitch)
    else s.transition
  }

  function Do(s: State, dev: string, e: Step): State
    requires Enabled(s, dev, e)
  {
    var table, identity := TableStep(s, dev, e), IdentityStep(s, dev, e);
    State(
      if table.Some? then ST.Apply(s.tables, table.value) else s.tables,
      if identity.Some? then Apply(s.identity, identity.value) else s.identity,
      NextStarter(s, e),
      NextFins(s, dev, e),
      s.n + 1,
      if e.StartTables? then s.n else s.begun,
      NextTransition(s, dev, e),
      if e.StartTables? then s.targets[s.tables.switchSeq + 1 := Text.Trim(e.target)] else s.targets)
  }

  // ---- Invariants

  predicate Parts(s: State) { ST.Inv(s.tables) && Inv(s.identity) }

  /** A finaliser that has found its switch. */
  predicate Resolved(f: Finaliser) { f.checked > 0 }

  /** Which sections a retry has, and that a finaliser past its first has found its switch. */
  predicate Placed(f: Finaliser) {
    if f.retry then f.checked == 0 && (f.pc.Match? || f.pc.Refresh? || f.pc.Poll? || f.pc.GiveUp? || f.pc.Ended?)
    else !f.pc.Match? && (f.pc.Resolve? || f.pc.Ended? || Resolved(f)) && (f.pc.Resolve? ==> !Resolved(f))
         && (f.pc.RadioCheck? ==> f.radioCycle)
  }

  /** What a finaliser knows of itself, and that what it recorded lies in the past. */
  predicate FinaliserFits(f: Finaliser, n: nat, targets: map<nat, string>) {
    && f.checked < n && f.ensured < n && Placed(f)
    && (!f.retry ==> f.token in targets)
    && (!f.retry && Resolved(f) ==> f.own == targets[f.token])
  }

  predicate IsEntry(c: ST.Context, targets: map<nat, string>) { c.token in targets && c.target == targets[c.token] }

  /** The entry in the tables is one of the device's switches, with its target, and no other is. */
  predicate EntryFits(s: State, dev: string) {
    && (forall t :: t in s.targets ==> 0 < t <= s.tables.switchSeq)
    && (dev in s.tables.contexts ==> IsEntry(s.tables.contexts[dev], s.targets))
    && (forall d :: d in s.tables.tokens && d != dev ==> s.tables.tokens[d] !in s.targets)
  }

  /** While a switch starts, its token is the only one the device can have. */
  predicate StarterFits(s: State, dev: string) {
    && (!s.starter.Idle? ==> ST.TokenOf(s.tables, dev) == 0 || ST.TokenOf(s.tables, dev) == s.starter.token)
    && (s.starter.BeforeIdentity? ==> s.starter.token in s.targets && s.targets[s.starter.token] == s.starter.target)
    && s.begun < s.n
  }

  /** A finaliser whose token has been replaced was last checked before the latest switch began. */
  predicate CheckFits(current: nat, starter: Starter, begun: nat, f: Finaliser) {
    Resolved(f) ==>
      && (current != 0 && current != f.token ==> begun > f.checked)
      && (!starter.Idle? && f.token != starter.token ==> begun > f.checked)
  }

  /** Of two finalisers of different switches one was last checked before the latest switch began. */
  predicate PairFits(begun: nat, f: Finaliser, g: Finaliser) {
    Resolved(f) && Resolved(g) && f.token != g.token ==> begun > f.checked || begun > g.checked
  }

  predicate Apart(pending: string, own: string) { Key(pending) != "" && Key(pending) != Key(own) }

  /** What is known of the pending target, and who set it. */
  predicate TransitionFits(s: State) {
    && s.transition.at < s.n
    && (s.identity.target != "" ==> s.identity.target == Text.Trim(s.transition.target))
    && (s.transition.who.Refresher? ==> s.transition.who.id in s.fins && SetBy(s.transition, s.fins[s.transition.who.id]))
  }

  predicate SetBy(t: Transition, g: Finaliser) {
    t.at <= g.ensured && t.target == g.own && (!g.retry ==> Resolved(g))
  }

  /** A pending target that is not the one a refresh is about to publish for was set after the refresh
      saw to its own; and if by a switch, then by one that began after the finaliser's last check. */
  predicate PollFits(pending: string, t: Transition, begun: nat, f: Finaliser) {
    f.pc.Poll? && Apart(pending, f.own) ==>
      && t.at > f.ensured
      && (t.who.TheSwitch? && !f.retry ==> begun > f.checked)
  }

  predicate Good(s: State, dev: string) {
    && Parts(s) && EntryFits(s, dev) && StarterFits(s, dev) && TransitionFits(s)
    && (forall id :: id in s.fins ==> FinaliserFits(s.fins[id], s.n, s.targets))
    && (forall id :: id in s.fins ==> CheckFits(ST.TokenOf(s.tables, dev), s.starter, s.begun, s.fins[id]))
    && (forall id, jd :: id in s.fins && jd in s.fins ==> PairFits(s.begun, s.fins[id], s.fins[jd]))
    && (forall id :: id in s.fins ==> PollFits(s.identity.target, s.transition, s.begun, s.fins[id]))
  }

  // ---- Every step keeps them

  lemma PartsKept(s: State, dev: string, e: Step)
    requires Parts(s) && Enabled(s, dev, e)
    ensures Parts(Do(s, dev, e)) && s.tables.switchSeq <= Do(s, dev, e).tables.switchSeq
  {
    hide ST.Inv, Inv, ST.Apply, Apply, NextFins, NextStarter, NextTransition, TableStep, IdentityStep;
    if TableStep(s, dev, e).Some? { ST.ApplyKeeps(s.tables, TableStep(s, dev, e).value); }
    if IdentityStep(s, dev, e).Some? { ApplyKeeps(s.identity, IdentityStep(s, dev, e).value); }
  }

  /** Only the start of a switch gives the device a token. */
  lemma TokenMoves(s: State, dev: string, e: Step)
    requires Enabled(s, dev, e)
    ensures var t := ST.TokenOf(Do(s, dev, e).tables, dev);
      if e.StartTables? then t == s.tables.switchSeq + 1 else t == ST.TokenOf(s.tables, dev) || t == 0
  {
    var op := TableStep(s, dev, e);
    hide ST.Apply, Apply, NextFins, NextStarter, NextTransition, Text.Trim;
    if op.Some? {
      ST.TokenMoves(s.tables, op.value, dev);
      if e.StartTables? { ST.BeginSets(s.tables, op.value); TokenAfterBegin(s.tables, op.value); }
    }
  }

  lemma TokenAfterBegin(s: ST.Tables, op: ST.Op)
    requires op.Begin?
    ensures ST.TokenOf(ST.Apply(s, op), op.dev) == s.switchSeq + 1
  {
    hide Text.Trim;
  }

  lemma EntryMoves(s: ST.Tables, op: ST.Op, dev: string)
    requires dev in ST.Apply(s, op).contexts
    ensures var c := ST.Apply(s, op).contexts[dev];
      if op.Begin? && op.dev == dev then c.token == s.switchSeq + 1 && c.target == Text.Trim(op.target)
      else dev in s.contexts && c.token == s.contexts[dev].token && c.target == s.contexts[dev].target
  {
    hide Text.Trim;
  }

  lemma OwnEntryKept(s: State, dev: string, e: Step)
    requires Parts(s) && EntryFits(s, dev) && Enabled(s, dev, e) && dev in Do(s, dev, e).tables.contexts
    ensures IsEntry(Do(s, dev, e).tables.contexts[dev], Do(s, dev, e).targets)
  {
    var op := TableStep(s, dev, e);
    assert forall t :: t in s.targets ==> t <= s.tables.switchSeq;
    if op.Some? { EntryMoves(s.tables, op.value, dev); }
    hide Parts, ST.Apply, Apply, NextFins, NextStarter, NextTransition, IdentityStep, Text.Trim;
  }

  lemma EntryKept(s: State, dev: string, e: Step)
    requires Parts(s) && EntryFits(s, dev) && Enabled(s, dev, e)
    ensures EntryFits(Do(s, dev, e), dev)
  {
    PartsKept(s, dev, e);
    var op, n := TableStep(s, dev, e), Do(s, dev, e);
    if e.StartTables? { ST.BeginSets(s.tables, op.value); }
    if dev in n.tables.contexts { OwnEntryKept(s, dev, e); }
    forall d | d in n.tables.tokens && d != dev ensures n.tables.tokens[d] !in n.targets {
      OthersKept(s, dev, e, d);
    }
    hide Parts, IsEntry, ST.Apply, Apply, NextFins, NextStarter, NextTransition, IdentityStep, Text.Trim;
  }

  /** Another device never holds one of this device's tokens. */
  lemma OthersKept(s: State, dev: string, e: Step, d: string)
    requires Parts(s) && EntryFits(s, dev) && Enabled(s, dev, e) && d in Do(s, dev, e).tables.tokens && d != dev
    ensures Do(s, dev, e).tables.tokens[d] !in Do(s, dev, e).targets
  {
    var op, n := TableStep(s, dev, e), Do(s, dev, e);
    PartsKept(s, dev, e);
    assert n.tables.tokens[d] == ST.TokenOf(n.tables, d) > 0;
    ST.TokenIsOld(s.tables, d);
    if op.Some? { ST.TokenMoves(s.tables, op.value, d); }
    if e.StartTables? { ST.BeginSets(s.tables, op.value); }
    hide Parts, ST.Apply, Apply, NextFins, NextStarter, NextTransition, Text.Trim;
  }

  lemma StarterKept(s: State, dev: string, e: Step)
    requires StarterFits(s, dev) && Enabled(s, dev, e)
    ensures StarterFits(Do(s, dev, e), dev)
  {
    TokenMoves(s, dev, e);
    hide ST.Apply, Apply, NextFins, NextTransition, TableStep, IdentityStep, Text.Trim, ST.TokenOf;
  }

  lemma EntryTarget(s: State, dev: string, f: Finaliser)
    requires Parts(s) && EntryFits(s, dev) && Current(s, dev, f) && dev in s.tables.contexts
    ensures f.token in s.targets && s.targets[f.token] == s.tables.contexts[dev].target
  {
    assert IsEntry(s.tables.contexts[dev], s.targets);
  }

  /** g is what f becomes in one step: its last check stays, or is made now, with the current token. */
  predicate Follows(s: State, dev: string, f: Finaliser, g: Finaliser) {
    && g.token == f.token && g.retry == f.retry
    && (g.checked == f.checked || (g.checked == s.n && Current(s, dev, f) && !f.retry))
    && (g.ensured == f.ensured || g.ensured == s.n)
    && (g.own == f.own || f.pc.Resolve?)
    && (g.pc.Poll? ==> f.pc.Refresh? && g.checked == f.checked)
  }

  lemma SectionFollows(s: State, dev: string, f: Finaliser, i: Input)
    requires Placed(f)
    ensures Follows(s, dev, f, NextOf(s, dev, f, i))
  {
    hide Apply, Rejects, ConvergenceMatches, Text.Trim, ST.TokenOf;
  }

  lemma StaysPlaced(s: State, dev: string, f: Finaliser, i: Input)
    requires s.n > 0 && Placed(f)
    ensures Placed(NextOf(s, dev, f, i))
  {
    hide Current, Apply, Rejects, ConvergenceMatches, Text.Trim;
  }

  /** The target of a finaliser is read from the tables in its first section, and kept. */
  lemma TargetOnlyFound(s: State, dev: string, f: Finaliser, i: Input)
    ensures var g := NextOf(s, dev, f, i);
      && (f.pc.Resolve? || g.own == f.own)
      && (f.pc.Resolve? && g.checked != f.checked ==>
            Current(s, dev, f) && dev in s.tables.contexts && g.own == s.tables.contexts[dev].target)
  {
    hide Current, Apply, Rejects, ConvergenceMatches, Text.Trim;
  }

  lemma OwnSection(s: State, dev: string, f: Finaliser, i: Input)
    requires Parts(s) && EntryFits(s, dev) && s.n > 0 && FinaliserFits(f, s.n, s.targets)
    ensures FinaliserFits(NextOf(s, dev, f, i), s.n + 1, s.targets)
  {
    StaysPlaced(s, dev, f, i);
    SectionFollows(s, dev, f, i);
    TargetOnlyFound(s, dev, f, i);
    if dev in s.tables.contexts && Current(s, dev, f) { EntryTarget(s, dev, f); }
    hide Parts, EntryFits, Current, NextOf;
  }

  lemma FinaliserKept(s: State, dev: string, e: Step, id: nat)
    requires Good(s, dev) && Enabled(s, dev, e) && id in Do(s, dev, e).fins
    ensures FinaliserFits(Do(s, dev, e).fins[id], s.n + 1, Do(s, dev, e).targets)
  {
    hide Parts, StarterFits, TransitionFits, CheckFits, PairFits, PollFits, FinaliserFits;
    hide NextStarter, NextTransition, ST.Apply, Apply, NextOf, Text.Trim;
    var f := Do(s, dev, e).fins[id];
    if e.Advance? && e.id == id {
      assert s.n > 0 by { assert StarterFits(s, dev); Numbered(s, dev); }
      OwnSection(s, dev, s.fins[id], e.input);
    } else if id in s.fins && s.fins[id] == f {
      Later(f, s.n, s.targets, Do(s, dev, e).targets);
    } else {
      Fresh(f, s.n, Do(s, dev, e).targets);
    }
  }

  lemma Numbered(s: State, dev: string)
    requires StarterFits(s, dev)
    ensures s.n > 0
  {
  }

  lemma Later(f: Finaliser, n: nat, targets: map<nat, string>, more: map<nat, string>)
    requires FinaliserFits(f, n, targets)
    requires forall t :: t in targets ==> t in more && more[t] == targets[t]
    ensures FinaliserFits(f, n + 1, more)
  {
  }

  lemma Fresh(f: Finaliser, n: nat, targets: map<nat, string>)
    requires f.checked == f.ensured == 0 && (if f.retry then f.pc.Match? else f.pc.Resolve? && f.token in targets)
    ensures FinaliserFits(f, n + 1, targets)
  {
  }

  /** A finaliser after a step is a new one, the one that made the step, or as it was. */
  lemma FinaliserMoves(s: State, dev: string, e: Step, id: nat)
    requires Good(s, dev) && Enabled(s, dev, e) && id in Do(s, dev, e).fins
    ensures IsMove(s, dev, e, id, Do(s, dev, e).fins[id])
  {
    if e.Advance? {
      assert FinaliserFits(s.fins[e.id], s.n, s.targets);
      SectionFollows(s, dev, s.fins[e.id], e.input);
    }
    hide Good, TableStep, IdentityStep, NextStarter, NextTransition, ST.Apply, Apply, NextOf, Text.Trim, Follows, FromElsewhere;
  }

  predicate IsMove(s: State, dev: string, e: Step, id: nat, g: Finaliser) {
    || (id !in s.fins && g.checked == 0 && !g.pc.Poll?)
    || (id in s.fins && e.Advance? && e.id == id && Follows(s, dev, s.fins[id], g))
    || (id in s.fins && s.fins[id] == g)
  }

  lemma KnowsItself(s: State, dev: string, id: nat)
    requires Good(s, dev) && id in s.fins
    ensures var f := s.fins[id];
      && FinaliserFits(f, s.n, s.targets) && CheckFits(ST.TokenOf(s.tables, dev), s.starter, s.begun, f)
      && PollFits(s.identity.target, s.transition, s.begun, f)
      && f.checked < s.n && (if f.retry then !Resolved(f) else f.token > 0)
  {
    hide Parts, StarterFits, TransitionFits, CheckFits, PairFits, PollFits;
  }

  lemma CheckKept(s: State, dev: string, e: Step, id: nat)
    requires Good(s, dev) && Enabled(s, dev, e) && id in Do(s, dev, e).fins
    ensures var n := Do(s, dev, e); CheckFits(ST.TokenOf(n.tables, dev), n.starter, n.begun, n.fins[id])
  {
    TokenMoves(s, dev, e);
    FinaliserMoves(s, dev, e, id);
    assert StarterFits(s, dev);
    if id in s.fins { KnowsItself(s, dev, id); }
    hide Good, NextFins, NextTransition, TableStep, IdentityStep, ST.Apply, Apply, ST.TokenOf, Text.Trim;
  }

  lemma BegunMoves(s: State, dev: string, e: Step)
    requires StarterFits(s, dev) && Enabled(s, dev, e)
    ensures s.begun < s.n && Do(s, dev, e).begun == if e.StartTables? then s.n else s.begun
  {
  }

  lemma PairAfterCheck(s: State, dev: string, id: nat, jd: nat, g: Finaliser)
    requires Good(s, dev) && id in s.fins && jd in s.fins && Follows(s, dev, s.fins[id], g)
    ensures PairFits(s.begun, g, s.fins[jd])
  {
    assert PairFits(s.begun, s.fins[id], s.fins[jd]);
    hide Good, FinaliserFits, PollFits, ST.TokenOf;
    KnowsItself(s, dev, id);
    KnowsItself(s, dev, jd);
  }

  lemma PairLater(begun: nat, now: nat, f: Finaliser, g: Finaliser)
    requires PairFits(begun, f, g) && begun <= now
    ensures PairFits(now, f, g) && PairFits(now, g, f)
  {
  }

  lemma PairKept(s: State, dev: string, e: Step, id: nat, jd: nat)
    requires Good(s, dev) && Enabled(s, dev, e) && id in Do(s, dev, e).fins && jd in Do(s, dev, e).fins
    ensures var n := Do(s, dev, e); PairFits(n.begun, n.fins[id], n.fins[jd])
  {
    assert StarterFits(s, dev);
    assert id in s.fins && jd in s.fins ==> PairFits(s.begun, s.fins[id], s.fins[jd]);
    hide Good, Do, Enabled, StarterFits, PairFits, Follows;
    var f, g, begun := Do(s, dev, e).fins[id], Do(s, dev, e).fins[jd], Do(s, dev, e).begun;
    BegunMoves(s, dev, e);
    FinaliserMoves(s, dev, e, id);
    FinaliserMoves(s, dev, e, jd);
    if id == jd || !Resolved(f) || !Resolved(g) {
      PairTrivially(begun, f, g);
    } else if s.fins[id] == f && s.fins[jd] == g {
      PairLater(s.begun, begun, f, g);
    } else if s.fins[jd] == g {
      PairAfterCheck(s, dev, id, jd, f);
      PairLater(s.begun, begun, f, g);
    } else {
      PairAfterCheck(s, dev, jd, id, g);
      PairLater(s.begun, begun, g, f);
    }
  }

  lemma PairTrivially(begun: nat, f: Finaliser, g: Finaliser)
    requires f == g || !Resolved(f) || !Resolved(g)
    ensures PairFits(begun, f, g)
  {
  }

  /** A pending target is set by a new transition, and otherwise stays or is given up. */
  lemma TargetMoves(s: Identity, op: Op)
    ensures var t := Apply(s, op).target;
      if Starts(s, op) then t == Text.Trim(op.target) else t == s.target || t == ""
  {
    hide Text.Trim, Key;
  }

  /** Of the sections of a finaliser only those that see to its transition can start one. */
  lemma OnlyEnsuring(s: Identity, f: Finaliser, i: Input)
    requires IdentityOp(f, i).Some? && Starts(s, IdentityOp(f, i).value)
    ensures (f.pc.EnsureTransition? || f.pc.Refresh?) && IdentityOp(f, i).value == Ensure(f.own)
  {
    hide Text.Trim;
  }

  lemma TransitionKept(s: State, dev: string, e: Step)
    requires Good(s, dev) && Enabled(s, dev, e)
    ensures TransitionFits(Do(s, dev, e))
  {
    var op, n := IdentityStep(s, dev, e), Do(s, dev, e);
    assert TransitionFits(s);
    if op.Some? { TargetMoves(s.identity, op.value); }
    if e.Advance? {
      KnowsItself(s, dev, e.id);
      SectionFollows(s, dev, s.fins[e.id], e.input);
      if op.Some? && Starts(s.identity, op.value) { OnlyEnsuring(s.identity, s.fins[e.id], e.input); }
    }
    if n.transition.who.Refresher? && n.transition == s.transition {
      FinaliserMoves(s, dev, e, n.transition.who.id);
      KnowsItself(s, dev, n.transition.who.id);
    }
    hide Good, NextStarter, TableStep, ST.Apply, Apply, ST.TokenOf, Text.Trim, Starts, CheckFits, PollFits;
  }

  /** A refresh that goes to its poll loop leaves its own target pending. */
  lemma EnsuredIsOwn(s: Identity, own: string)
    ensures !Apart(Apply(s, Ensure(own)).target, own)
  {
    KeyOfTrimmed(own);
    KeyOfTrimmed(s.target);
    hide Text.Trim, Key;
  }

  /** A new transition of another target than the finaliser's is that of a switch that began after the
      finaliser's last check. */
  lemma StartIsLater(s: State, dev: string, id: nat)
    requires Good(s, dev) && s.starter.BeforeIdentity? && id in s.fins && !s.fins[id].retry && Resolved(s.fins[id])
    requires Apart(Text.Trim(s.starter.target), s.fins[id].own)
    ensures s.begun > s.fins[id].checked
  {
    KnowsItself(s, dev, id);
    KeyOfTrimmed(s.starter.target);
    assert StarterFits(s, dev);
    hide Good, Text.Trim, Key, ST.TokenOf;
  }

  lemma PollKeptByOthers(s: State, dev: string, e: Step, id: nat)
    requires Good(s, dev) && Enabled(s, dev, e) && id in s.fins && Do(s, dev, e).fins[id] == s.fins[id]
    ensures var n := Do(s, dev, e); PollFits(n.identity.target, n.transition, n.begun, n.fins[id])
  {
    var op, f := IdentityStep(s, dev, e), s.fins[id];
    if op.Some? { TargetMoves(s.identity, op.value); }
    KnowsItself(s, dev, id);
    EmptyKey();
    assert s.begun < s.n by { assert StarterFits(s, dev); }
    assert f.ensured < s.n && (f.retry || f.pc.Resolve? || f.pc.Ended? || Resolved(f));
    if e.StartIdentity? && !f.retry && Resolved(f) && Apart(Text.Trim(s.starter.target), f.own) { StartIsLater(s, dev, id); }
    hide Good, CheckFits, FinaliserFits, FromElsewhere, NextStarter, NextFins, TableStep, IdentityOp;
    hide ST.Apply, Apply, ST.TokenOf, Text.Trim, Key;
  }

  lemma PollBegins(s: State, dev: string, e: Step)
    requires Enabled(s, dev, e) && e.Advance? && Follows(s, dev, s.fins[e.id], NextOf(s, dev, s.fins[e.id], e.input))
    ensures var n := Do(s, dev, e); PollFits(n.identity.target, n.transition, n.begun, n.fins[e.id])
  {
    EnsuredIsOwn(s.identity, s.fins[e.id].own);
    hide NextStarter, NextOf, NextTransition, TableStep, ST.Apply, Apply, Text.Trim, Apart;
  }

  lemma PollKept(s: State, dev: string, e: Step, id: nat)
    requires Good(s, dev) && Enabled(s, dev, e) && id in Do(s, dev, e).fins
    ensures var n := Do(s, dev, e); PollFits(n.identity.target, n.transition, n.begun, n.fins[id])
  {
    FinaliserMoves(s, dev, e, id);
    if e.Advance? && e.id == id {
      SectionFollows(s, dev, s.fins[id], e.input);
      PollBegins(s, dev, e);
    } else if id in s.fins {
      PollKeptByOthers(s, dev, e, id);
    }
    hide Good, Do, Follows;
  }

  lemma StepKeeps(s: State, dev: string, e: Step)
    requires Good(s, dev) && Enabled(s, dev, e)
    ensures Good(Do(s, dev, e), dev)
  {
    var n := Do(s, dev, e);
    PartsKept(s, dev, e);
    EntryKept(s, dev, e);
    StarterKept(s, dev, e);
    TransitionKept(s, dev, e);
    forall id | id in n.fins
      ensures FinaliserFits(n.fins[id], n.n, n.targets)
      ensures CheckFits(ST.TokenOf(n.tables, dev), n.starter, n.begun, n.fins[id])
      ensures PollFits(n.identity.target, n.transition, n.begun, n.fins[id])
    {
      FinaliserKept(s, dev, e, id);
      CheckKept(s, dev, e, id);
      PollKept(s, dev, e, id);
    }
    forall id, jd | id in n.fins && jd in n.fins ensures PairFits(n.begun, n.fins[id], n.fins[jd]) {
      PairKept(s, dev, e, id, jd);
    }
    hide Parts, EntryFits, StarterFits, TransitionFits, FinaliserFits, CheckFits, PairFits, PollFits, ST.TokenOf;
    assert n.n == s.n + 1;
  }

  // ---- Runs

  datatype Run = Run(states: seq<State>, steps: seq<Step>)

  predicate IsRun(r: Run, dev: string) {
    && |r.states| == |r.steps| + 1 && r.states[0] == START
    && forall i :: 0 <= i < |r.steps| ==>
         Enabled(r.states[i], dev, r.steps[i]) && r.states[i + 1] == Do(r.states[i], dev, r.steps[i])
  }

  lemma {:induction false} Always(r: Run, dev: string, k: nat)
    requires IsRun(r, dev) && k < |r.states|
    ensures Good(r.states[k], dev) && r.states[k].n == k + 1
  {
    hide Good, Enabled, Do;
    if k == 0 {
      StartIsGood(dev);
    } else {
      Always(r, dev, k - 1);
      StepKeeps(r.states[k - 1], dev, r.steps[k - 1]);
      Counted(r.states[k - 1], dev, r.steps[k - 1]);
    }
  }

  lemma StartIsGood(dev: string)
    ensures Good(START, dev)
  {
    assert Text.Trim("") == "";
  }

  lemma Counted(s: State, dev: string, e: Step)
    requires Enabled(s, dev, e)
    ensures Do(s, dev, e).n == s.n + 1
  {
  }

  /** begun names the step that entered the latest switch. */
  lemma {:induction false} BegunAt(r: Run, dev: string, k: nat)
    requires IsRun(r, dev) && k < |r.states| && r.states[k].begun > 0
    ensures r.states[k].begun <= k && r.steps[r.states[k].begun - 1].StartTables?
  {
    hide Good, Enabled, ST.Apply, Apply, NextFins, NextStarter, NextTransition, TableStep, IdentityStep;
    Always(r, dev, k - 1);
    assert r.states[k] == Do(r.states[k - 1], dev, r.steps[k - 1]);
    if !r.steps[k - 1].StartTables? { BegunAt(r, dev, k - 1); }
  }

  /** Where a finaliser is about to restore, its last passed check was the very last one. */
  lemma {:induction false} LastCheckAt(r: Run, dev: string, k: nat, id: nat)
    requires IsRun(r, dev) && k < |r.states| && id in r.states[k].fins && r.states[k].fins[id].pc.Restore?
    ensures var f := r.states[k].fins[id];
      && 0 < f.checked <= k && r.steps[f.checked - 1].Advance? && r.steps[f.checked - 1].id == id
      && id in r.states[f.checked - 1].fins && r.states[f.checked - 1].fins[id].pc == LastCheck(f.pc.open)
  {
    hide Good, ST.Apply, Apply, NextOf, NextStarter, NextTransition, TableStep, IdentityStep;
    Always(r, dev, k - 1);
    var s, e := r.states[k - 1], r.steps[k - 1];
    assert r.states[k] == Do(s, dev, e);
    if e.Advance? && e.id == id {
      OnlyFromLastCheck(s, dev, s.fins[id], e.input);
    } else {
      LastCheckAt(r, dev, k - 1, id);
    }
  }

  lemma OnlyFromLastCheck(s: State, dev: string, f: Finaliser, i: Input)
    requires NextOf(s, dev, f, i).pc.Restore?
    ensures f.pc == LastCheck(NextOf(s, dev, f, i).pc.open) && NextOf(s, dev, f, i).checked == s.n
  {
    hide Apply, Rejects, ConvergenceMatches, Text.Trim, ST.TokenOf;
  }

  // ---- What a finaliser's progress means

  /** The token checks in the order they come. */
  function CheckNo(pc: Pc): nat {
    match pc
    case Resolve => 1
    case CoreCheck => 2
    case RadioCheck => 3
    case IdentityCheck(_) => 4
    case RuntimeCheck(_) => 5
    case GateCheck(_) => 6
    case LastCheck(_) => 7
    case _ => 0
  }

  /** The check that has to come before a section; 0 where none has. */
  function CheckBefore(f: Finaliser): nat {
    match f.pc
    case EnsureTransition => 1
    case StoreGeneration(_) => 1
    case CoreCheck => 1
    case Converge => 2
    case RadioCheck => 2
    case MarkRefresh => if f.radioCycle then 3 else 2
    case Refresh => if f.radioCycle then 3 else 2
    case Poll => if f.radioCycle then 3 else 2
    case GiveUp => if f.radioCycle then 3 else 2
    case IdentityCheck(_) => if f.radioCycle then 3 else 2
    case MarkRestore(_) => 4
    case RuntimeCheck(_) => 4
    case Gate => 5
    case GateCheck(_) => 5
    case LastCheck(_) => 6
    case Restore(_) => 7
    case MarkDone => 7
    case _ => 0
  }

  lemma ChecksInOrder(s: State, dev: string, f: Finaliser, i: Input)
    requires !f.retry && Placed(f)
    ensures var g := NextOf(s, dev, f, i);
      CheckBefore(g) > 0 ==>
        || (g.checked == s.n && Current(s, dev, f) && CheckNo(f.pc) == CheckBefore(g))
        || (g.checked == f.checked && CheckBefore(f) == CheckBefore(g))
  {
    hide Current, Apply, Rejects, ConvergenceMatches, Text.Trim;
  }

  /** In every run, wherever a finaliser stands, the last check it made is the one that belongs before
      that section, and it was made with the then current token. */
  lemma {:induction false} EveryStageIsChecked(r: Run, dev: string, k: nat, id: nat)
    requires IsRun(r, dev) && k < |r.states| && id in r.states[k].fins && !r.states[k].fins[id].retry
    requires CheckBefore(r.states[k].fins[id]) > 0
    ensures var f := r.states[k].fins[id];
      && 0 < f.checked <= k && r.steps[f.checked - 1].Advance? && r.steps[f.checked - 1].id == id
      && var s := r.states[f.checked - 1];
      id in s.fins && CheckNo(s.fins[id].pc) == CheckBefore(f) && ST.TokenOf(s.tables, dev) == f.token
  {
    hide Good, ST.Apply, Apply, NextOf, NextStarter, NextTransition, TableStep, IdentityStep, CheckNo, CheckBefore;
    NothingIsFresh();
    Always(r, dev, k - 1);
    var s, e := r.states[k - 1], r.steps[k - 1];
    assert r.states[k] == Do(s, dev, e);
    if e.Advance? && e.id == id {
      KnowsItself(s, dev, id);
      SectionFollows(s, dev, s.fins[id], e.input);
      ChecksInOrder(s, dev, s.fins[id], e.input);
      if r.states[k].fins[id].checked != k { EveryStageIsChecked(r, dev, k - 1, id); }
    } else {
      EveryStageIsChecked(r, dev, k - 1, id);
    }
  }

  lemma NothingIsFresh()
    ensures forall f: Finaliser :: f.pc.Resolve? || f.pc.Match? ==> CheckBefore(f) == 0
  {
  }

  /** On the way to the end of a switch that succeeds. */
  predicate Succeeding(pc: Pc) {
    match pc
    case IdentityCheck(ok) => ok
    case MarkRestore(ok) => ok
    case RuntimeCheck(ok) => ok
    case _ => pc.Gate? || pc.GateCheck? || pc.LastCheck? || pc.Restore? || pc.MarkDone?
  }

  lemma SucceedsByReport(s: State, dev: string, f: Finaliser, i: Input)
    requires !f.retry && Succeeding(NextOf(s, dev, f, i).pc)
    ensures Succeeding(f.pc) || (f.pc.Poll? && Reported(f.own, Round(i.iccid, i.imsi)))
    ensures NextOf(s, dev, f, i).own == f.own
  {
    hide Current, Apply, Rejects, ConvergenceMatches, Text.Trim;
  }

  /** In every run a finaliser gets to the gate, and so marks its switch done, only after its refresh
      reported an ICCID, the target's where it has one; and it never passes the gate after a failure. */
  lemma {:induction false} DoneMeansReported(r: Run, dev: string, k: nat, id: nat) returns (j: nat)
    requires IsRun(r, dev) && k < |r.states| && id in r.states[k].fins
    requires !r.states[k].fins[id].retry && Succeeding(r.states[k].fins[id].pc)
    ensures j < k && r.steps[j].Advance? && r.steps[j].id == id && id in r.states[j].fins && r.states[j].fins[id].pc.Poll?
    ensures Reported(r.states[k].fins[id].own, Round(r.steps[j].input.iccid, r.steps[j].input.imsi))
  {
    hide Good, ST.Apply, Apply, NextOf, NextStarter, NextTransition, TableStep, IdentityStep, Reported;
    var s, e := r.states[k - 1], r.steps[k - 1];
    assert r.states[k] == Do(s, dev, e);
    if e.Advance? && e.id == id {
      Always(r, dev, k - 1);
      KnowsItself(s, dev, id);
      SectionFollows(s, dev, s.fins[id], e.input);
      SucceedsByReport(s, dev, s.fins[id], e.input);
      if !Succeeding(s.fins[id].pc) { return k - 1; }
    }
    j := DoneMeansReported(r, dev, k - 1, id);
  }

  /** What the device's entry shows of a finaliser whose token is current: its phases, and its end. */
  lemma ProgressShows(s: State, dev: string, id: nat, i: Input)
    requires id in s.fins && s.fins[id].token > 0 && Current(s, dev, s.fins[id])
    requires Text.Trim(dev) == dev != "" && dev in s.tables.contexts
    ensures var f, n := s.fins[id], Do(s, dev, Advance(id, i)).tables.contexts;
      && (f.pc.ClearEntry? <==> dev !in n)
      && (f.pc.MarkRefresh? ==> n[dev].phase == "identity_refresh")
      && (f.pc.MarkRestore? ==> n[dev].phase == "runtime_restore")
      && (f.pc.MarkDone? ==> n[dev].phase == "done")
      && (f.pc == Restore(false) ==> n[dev].phase == "degraded")
      && (f.pc.MarkEnd? && f.pc.phase != "" ==> n[dev].phase == f.pc.phase)
      && (f.pc == Restore(true) ==> n[dev] == s.tables.contexts[dev])
  {
    hide Apply, NextFins, NextTransition, IdentityOp, Text.Trim, ST.Apply;
    if TableOp(s.fins[id], dev, i).Some? { OwnOp(s.tables, dev, s.fins[id], i); }
  }

  lemma OwnOp(s: ST.Tables, dev: string, f: Finaliser, i: Input)
    requires Text.Trim(dev) == dev != "" && dev in s.contexts && f.token > 0 && ST.TokenOf(s, dev) == f.token
    requires TableOp(f, dev, i).Some?
    ensures var op, n := TableOp(f, dev, i).value, ST.Apply(s, TableOp(f, dev, i).value).contexts;
      && (dev !in n <==> op.ClearIf?)
      && (op.Mark? && op.phase != "" ==> n[dev].phase == op.phase)
  {
    hide Text.Trim;
  }

  /** A finaliser sees to a transition to its own target; one whose worker is gone leaves the identity
      alone and goes to mark the switch failed, and one whose convergence or refresh failed, degraded. */
  lemma FailureShows(s: State, dev: string, f: Finaliser, i: Input)
    ensures var g := NextOf(s, dev, f, i);
      && (f.pc.EnsureTransition? && !i.ok ==> IdentityOp(f, i) == None && g.pc == MarkEnd("failed"))
      && (f.pc.EnsureTransition? && i.ok ==>
            && IdentityOp(f, i).Some?
            && var n := Apply(s.identity, IdentityOp(f, i).value);
            && Switching(n) && !Apart(n.target, f.own) && g.pc == StoreGeneration(n.generation))
      && (f.pc.Converge? && !i.ok ==> g.pc == MarkEnd("degraded"))
      && (f.pc == RuntimeCheck(false) ==> g.pc == MarkEnd("degraded") || !Current(s, dev, f))
  {
    EnsuredIsOwn(s.identity, f.own);
    hide Apart, Current, Rejects, ConvergenceMatches, Text.Trim;
  }

  /** The start of a switch makes its target the pending one, and stores the generation of its transition
      in its entry as long as that is the current one. */
  lemma StartIsRecorded(s: State, dev: string)
    requires Good(s, dev)
    ensures s.starter.BeforeIdentity? ==>
      var n := Do(s, dev, StartIdentity);
      && n.identity == Started(s.identity, s.starter.target)
      && n.starter == BeforeGeneration(s.starter.token, n.identity.generation)
    ensures s.starter.BeforeGeneration? && s.starter.generation > 0 && Text.Trim(dev) == dev != "" && dev in s.tables.contexts
            && ST.TokenOf(s.tables, dev) == s.starter.token ==>
      var n := Do(s, dev, StartGeneration);
      dev in n.tables.contexts && n.tables.contexts[dev].identityGeneration == s.starter.generation && n.starter == Idle
  {
    hide Good, NextTransition, Text.Trim, Key;
  }

  // ---- What a superseded finaliser can still do

  /** The update after a gate that did not open would change the device's entry. */
  predicate WouldDegrade(s: ST.Tables, dev: string, now: int) {
    dev in s.contexts && (s.contexts[dev].phase != ST.DEGRADED || s.contexts[dev].phaseUpdatedAt != now)
  }

  function DegradedAt(s: ST.Tables, dev: string, now: int): ST.Tables
    requires dev in s.contexts
  {
    ST.SetContext(s, dev, s.contexts[dev].(phase := ST.DEGRADED, phaseUpdatedAt := now))
  }

  lemma StaleOp(s: ST.Tables, dev: string, f: Finaliser, i: Input)
    requires f.token > 0 && ST.TokenOf(s, dev) != f.token && ST.TokenOf(s, Text.Trim(dev)) != f.token
    requires TableOp(f, dev, i).Some?
    ensures var n, key := ST.Apply(s, TableOp(f, dev, i).value), Text.Trim(dev);
      if f.pc == Restore(false) && key != "" && key in s.contexts then n == DegradedAt(s, key, i.now) else n == s
  {
    hide Text.Trim;
  }

  lemma DegradedDiffers(s: ST.Tables, dev: string, now: int)
    requires dev in s.contexts
    ensures DegradedAt(s, dev, now) != s <==> WouldDegrade(s, dev, now)
  {
    if !WouldDegrade(s, dev, now) {
      assert s.contexts[dev := s.contexts[dev]] == s.contexts;
    } else {
      assert DegradedAt(s, dev, now).contexts[dev] != s.contexts[dev];
    }
  }

  /** In every run, a section of a superseded finaliser changes the tables exactly when it is the update
      after a gate that did not open and its trimmed device name has an entry to change. That entry then
      becomes degraded. If it is the device's own, it is that of a switch that began after the very last
      of the finaliser's token checks. */
  lemma SupersededFinaliser(r: Run, dev: string, k: nat, id: nat, i: Input)
    requires IsRun(r, dev) && k < |r.steps| && r.steps[k] == Advance(id, i)
    requires id in r.states[k].fins && !r.states[k].fins[id].retry && !Current(r.states[k], dev, r.states[k].fins[id])
    ensures var s, n, key := r.states[k].tables, r.states[k + 1].tables, Text.Trim(dev);
      var f := r.states[k].fins[id];
      && (n != s <==> f.pc == Restore(false) && key != "" && WouldDegrade(s, key, i.now))
      && (n != s ==> key in s.contexts && n == DegradedAt(s, key, i.now))
      && (n != s && key == dev ==>
            && 0 < f.checked < r.states[k].begun <= k && r.steps[r.states[k].begun - 1].StartTables?
            && id in r.states[f.checked - 1].fins && r.states[f.checked - 1].fins[id].pc == LastCheck(false))
  {
    var s, f, key := r.states[k], r.states[k].fins[id], Text.Trim(dev);
    Always(r, dev, k);
    KnowsItself(s, dev, id);
    NoOtherToken(s, dev, f.token, key);
    assert r.states[k + 1] == Do(s, dev, r.steps[k]);
    if TableOp(f, dev, i).Some? { StaleOp(s.tables, dev, f, i); }
    if key in s.tables.contexts {
      DegradedDiffers(s.tables, key, i.now);
      if f.pc == Restore(false) && key == dev {
        LastCheckAt(r, dev, k, id);
        EntryHasToken(s, dev);
        BegunAt(r, dev, k);
      }
    }
    hide Good, ST.Apply, Apply, NextFins, NextStarter, NextTransition, IdentityStep, Text.Trim, WouldDegrade, DegradedAt;
  }

  lemma NoOtherToken(s: State, dev: string, token: nat, key: string)
    requires Good(s, dev) && token in s.targets && ST.TokenOf(s.tables, dev) != token
    ensures token > 0 && ST.TokenOf(s.tables, key) != token
  {
    assert EntryFits(s, dev);
    hide Parts, StarterFits, TransitionFits, FinaliserFits, CheckFits, PairFits, PollFits;
  }

  lemma EntryHasToken(s: State, dev: string)
    requires Good(s, dev) && dev in s.tables.contexts
    ensures ST.TokenOf(s.tables, dev) > 0
  {
    assert Parts(s);
    hide StarterFits, TransitionFits, FinaliserFits, CheckFits, PairFits, PollFits;
  }

  // ---- What a refresh can publish

  /** In every run, a refresh publishes another card than the pending target's only when the pending
      transition is newer than its own look at the transition, and not its own. Where no retry is
      involved, a switch then began after the last token check of this finaliser or of the one that
      started the transition. */
  lemma WrongCardMeansOverlap(r: Run, dev: string, k: nat, id: nat, i: Input)
    requires IsRun(r, dev) && k < |r.steps| && r.steps[k] == Advance(id, i)
    requires id in r.states[k].fins && r.states[k].fins[id].pc.Poll?
    requires Key(r.states[k].identity.target) != "" && r.states[k + 1].identity.iccid != ""
    requires Key(r.states[k + 1].identity.iccid) != Key(r.states[k].identity.target)
    ensures var s, f, t := r.states[k], r.states[k].fins[id], r.states[k].transition;
      && t.at > f.ensured && t.who != Refresher(id)
      && (!f.retry && t.who.TheSwitch? ==> f.checked < s.begun <= k && r.steps[s.begun - 1].StartTables?)
      && (!f.retry && t.who.Refresher? ==>
            && t.who.id in s.fins
            && (s.fins[t.who.id].retry
                || ((f.checked < s.begun || s.fins[t.who.id].checked < s.begun)
                    && s.begun <= k && r.steps[s.begun - 1].StartTables?)))
  {
    hide Good, Do, Key;
    var s, f := r.states[k], r.states[k].fins[id];
    Always(r, dev, k);
    Publication(s, dev, id, i);
    assert r.states[k + 1] == Do(s, dev, r.steps[k]);
    WrongCardIsApart(s.identity, f.own, i.iccid, i.imsi);
    ApartMeansOverlap(s, dev, id);
    if s.begun > 0 { BegunAt(r, dev, k); }
  }

  lemma Publication(s: State, dev: string, id: nat, i: Input)
    requires Good(s, dev) && id in s.fins && s.fins[id].pc.Poll?
    ensures Inv(s.identity) && Do(s, dev, Advance(id, i)).identity == Apply(s.identity, Final(s.fins[id].own, i.iccid, i.imsi))
  {
    assert Parts(s);
    hide Good, Apply;
  }

  lemma ApartMeansOverlap(s: State, dev: string, id: nat)
    requires Good(s, dev) && id in s.fins && s.fins[id].pc.Poll? && Apart(s.identity.target, s.fins[id].own)
    ensures var f, t := s.fins[id], s.transition;
      && t.at > f.ensured && t.who != Refresher(id)
      && (!f.retry && t.who.TheSwitch? ==> f.checked < s.begun)
      && (!f.retry && t.who.Refresher? ==>
            t.who.id in s.fins
            && (s.fins[t.who.id].retry || f.checked < s.begun || s.fins[t.who.id].checked < s.begun))
  {
    var f, t := s.fins[id], s.transition;
    KnowsItself(s, dev, id);
    assert TransitionFits(s);
    assert !f.retry ==> Resolved(f);
    if t.who.Refresher? {
      KnowsItself(s, dev, t.who.id);
      assert PairFits(s.begun, f, s.fins[t.who.id]);
    }
    KeyOfTrimmed(t.target);
    hide Good, Key, Text.Trim, CheckFits;
  }

  lemma WrongCardIsApart(s: Identity, own: string, iccid: Reading, imsi: Reading)
    requires Inv(s) && Key(s.target) != ""
    requires var n := Apply(s, Final(own, iccid, imsi)); n.iccid != "" && Key(n.iccid) != Key(s.target)
    ensures Apart(s.target, own)
  {
    FinaliserPublishes(s, own, iccid, imsi);
    EmptyKey();
    KeyOfTrimmed(iccid.text);
    hide Text.Trim, Key;
  }

  // ---- Two runs in which the old finaliser meets the new switch

  /** The way of a finaliser whose card answers and whose gate does not open. */
  function Rank(pc: Pc): nat {
    match pc
    case Resolve => 0
    case EnsureTransition => 1
    case StoreGeneration(_) => 2
    case CoreCheck => 3
    case Converge => 4
    case MarkRefresh => 5
    case Refresh => 6
    case Poll => 7
    case IdentityCheck(ok) => if ok then 8 else 15
    case MarkRestore(ok) => if ok then 9 else 15
    case RuntimeCheck(ok) => if ok then 10 else 15
    case Gate => 11
    case GateCheck(open) => if open then 15 else 12
    case LastCheck(open) => if open then 15 else 13
    case Restore(open) => if open then 15 else 14
    case _ => 15
  }

  function Meets(card: string, rank: nat): Input { Input(rank != 11, Reading(card, true), Reading("", false), 0) }

  predicate FirstFits(f: Finaliser, card: string, rank: nat) {
    f.token == 1 && !f.retry && !f.radioCycle && Rank(f.pc) == rank && (rank > 0 ==> f.own == Text.Trim(card))
  }

  /** The first switch of the device, for this card, has started, and its finaliser has come this far. */
  predicate FirstAt(s: State, dev: string, card: string, rank: nat) {
    && s.starter.Idle? && s.tables.switchSeq == 1 && ST.TokenOf(s.tables, dev) == 1
    && dev in s.tables.contexts && s.tables.contexts[dev].target == Text.Trim(card)
    && 0 in s.fins && FirstFits(s.fins[0], card, rank)
  }

  predicate Reaches(r: Run, dev: string, card: string, rank: nat) {
    IsRun(r, dev) && FirstAt(r.states[|r.steps|], dev, card, rank)
  }

  function Then(r: Run, dev: string, e: Step): Run
    requires IsRun(r, dev) && Enabled(r.states[|r.steps|], dev, e)
  {
    Run.Run(r.states + [Do(r.states[|r.steps|], dev, e)], r.steps + [e])
  }

  lemma ThenIsRun(r: Run, dev: string, e: Step)
    requires IsRun(r, dev) && Enabled(r.states[|r.steps|], dev, e)
    ensures var m := Then(r, dev, e);
      IsRun(m, dev) && m.states[|m.steps|] == Do(r.states[|r.steps|], dev, e) && m.states[|r.steps|] == r.states[|r.steps|]
      && m.steps[|r.steps|] == e && |m.steps| == |r.steps| + 1
  {
    hide Enabled, Do;
  }

  lemma EntryStays(s: ST.Tables, op: ST.Op, dev: string)
    requires (op.Mark? || op.SetGeneration?) && dev in s.contexts
    ensures var n := ST.Apply(s, op);
      && n.switchSeq == s.switchSeq && ST.TokenOf(n, dev) == ST.TokenOf(s, dev)
      && dev in n.contexts && n.contexts[dev].target == s.contexts[dev].target && n.contexts[dev].token == s.contexts[dev].token
  {
    hide Text.Trim;
  }

  /** Before it clears the entry a finaliser only updates it. */
  lemma OnlyUpdates(f: Finaliser, dev: string, i: Input)
    requires Rank(f.pc) < 15 && TableOp(f, dev, i).Some?
    ensures TableOp(f, dev, i).value.Mark? || TableOp(f, dev, i).value.SetGeneration?
  {
  }

  lemma CardAnswers(card: string)
    ensures !Rejects(Text.Trim(card), Reading(card, true))
  {
    KeyOfTrimmed(card);
  }

  lemma NextSection(s: State, dev: string, card: string, rank: nat)
    requires FirstAt(s, dev, card, rank) && rank < 14 && Text.Trim(card) != ""
    ensures FirstFits(NextOf(s, dev, s.fins[0], Meets(card, rank)), card, rank + 1)
  {
    CardAnswers(card);
    hide Apply, ConvergenceMatches, Text.Trim, Key, Rejects, ST.TokenOf;
  }

  lemma OneSection(s: State, dev: string, card: string, rank: nat)
    requires FirstAt(s, dev, card, rank) && rank < 14 && Text.Trim(card) != ""
    ensures FirstAt(Do(s, dev, Advance(0, Meets(card, rank))), dev, card, rank + 1)
  {
    var i := Meets(card, rank);
    if TableOp(s.fins[0], dev, i).Some? {
      OnlyUpdates(s.fins[0], dev, i);
      EntryStays(s.tables, TableOp(s.fins[0], dev, i).value, dev);
    }
    NextSection(s, dev, card, rank);
    hide ST.Apply, Apply, NextTransition, NextOf, Text.Trim, ST.TokenOf, TableOp, IdentityOp, Rank;
  }

  lemma {:induction false} Walk(r: Run, dev: string, card: string, rank: nat, goal: nat) returns (m: Run)
    requires Reaches(r, dev, card, rank) && rank <= goal <= 14 && Text.Trim(card) != ""
    ensures Reaches(m, dev, card, goal)
    decreases goal - rank
  {
    if rank == goal { return r; }
    var e := Advance(0, Meets(card, rank));
    OneSection(r.states[|r.steps|], dev, card, rank);
    hide Do, FirstAt;
    assert Enabled(r.states[|r.steps|], dev, e) by { assert 0 in r.states[|r.steps|].fins by { HasFirst(r, dev, card, rank); } }
    ThenIsRun(r, dev, e);
    m := Walk(Then(r, dev, e), dev, card, rank + 1, goal);
  }

  lemma HasFirst(r: Run, dev: string, card: string, rank: nat)
    requires Reaches(r, dev, card, rank)
    ensures 0 in r.states[|r.steps|].fins
  {
  }

  lemma ThreeMore(r: Run, dev: string, a: Step, b: Step, c: Step) returns (m: Run)
    requires IsRun(r, dev) && Enabled(r.states[|r.steps|], dev, a)
    requires var s := Do(r.states[|r.steps|], dev, a); Enabled(s, dev, b) && Enabled(Do(s, dev, b), dev, c)
    ensures var k := |r.steps|;
      && IsRun(m, dev) && |m.steps| == k + 3 && m.steps[k] == a && m.steps[k + 1] == b && m.steps[k + 2] == c
      && m.states[k] == r.states[k]
      && m.states[k + 1] == Do(m.states[k], dev, a) && m.states[k + 2] == Do(m.states[k + 1], dev, b)
      && m.states[k + 3] == Do(m.states[k + 2], dev, c)
  {
    hide Do, Enabled;
    var s0 := r.states[|r.steps|];
    var s1 := Do(s0, dev, a);
    var s2 := Do(s1, dev, b);
    m := Run.Run(r.states + [s1, s2, Do(s2, dev, c)], r.steps + [a, b, c]);
  }

  lemma FirstStartsAt(dev: string, before: ST.Before, card: string)
    ensures var a, b := StartTables(before, card, 0, 0), Launch(0, 1, false);
      && Enabled(START, dev, a)
      && var s := Do(START, dev, a);
      && Enabled(s, dev, StartIdentity)
      && var t := Do(s, dev, StartIdentity);
      && Enabled(t, dev, StartGeneration)
      && Enabled(Do(t, dev, StartGeneration), dev, b)
      && FirstAt(Do(Do(t, dev, StartGeneration), dev, b), dev, card, 0)
  {
    hide Text.Trim, Apply;
  }

  lemma FirstStarts(dev: string, before: ST.Before, card: string) returns (r: Run)
    ensures Reaches(r, dev, card, 0)
  {
    hide Do, Enabled, FirstAt;
    FirstStartsAt(dev, before, card);
    var none: Run := Run.Run([START], []);
    r := ThreeMore(none, dev, StartTables(before, card, 0, 0), StartIdentity, StartGeneration);
    ThenIsRun(r, dev, Launch(0, 1, false));
    r := Then(r, dev, Launch(0, 1, false));
  }

  /** A second switch begins right after the first finaliser's very last token check: the update that
      passes no token then degrades the second switch. */
  lemma OldFinaliserDegradesNewSwitch(dev: string, before: ST.Before, first: string, second: string) returns (r: Run)
    requires Text.Trim(dev) == dev != "" && Text.Trim(first) != ""
    ensures IsRun(r, dev) && |r.steps| >= 3
    ensures var k := |r.steps| - 2;
      && 0 in r.states[k - 1].fins && r.states[k - 1].fins[0].pc == LastCheck(false)
      && r.steps[k - 1].Advance? && r.steps[k - 1].id == 0
      && r.steps[k] == StartTables(before, second, 1, 1)
      && r.steps[k + 1].Advance? && r.steps[k + 1].id == 0
    ensures var s, n := r.states[|r.steps| - 1].tables, r.states[|r.steps|].tables;
      && dev in s.contexts && s.contexts[dev].token == 2 && s.contexts[dev].phase == ST.PREPARE
      && dev in n.contexts && n.contexts[dev].token == 2 && n.contexts[dev].phase == ST.DEGRADED && ST.TokenOf(n, dev) == 2
  {
    hide Do, Enabled, FirstAt, Text.Trim;
    var r0 := FirstStarts(dev, before, first);
    var r1 := Walk(r0, dev, first, 0, 13);
    var e, s := Advance(0, Meets(first, 13)), r1.states[|r1.steps|];
    OneSection(s, dev, first, 13);
    AtLastCheck(s, dev, first);
    SecondIsDegraded(Do(s, dev, e), dev, before, first, second);
    r := ThreeMore(r1, dev, e, StartTables(before, second, 1, 1), Advance(0, Meets(first, 14)));
  }

  lemma AtLastCheck(s: State, dev: string, card: string)
    requires FirstAt(s, dev, card, 13)
    ensures 0 in s.fins && s.fins[0].pc == LastCheck(false) && Enabled(s, dev, Advance(0, Meets(card, 13)))
  {
  }

  lemma SecondIsDegraded(s: State, dev: string, before: ST.Before, first: string, second: string)
    requires FirstAt(s, dev, first, 14) && Text.Trim(dev) == dev != ""
    ensures var a, c := StartTables(before, second, 1, 1), Advance(0, Meets(first, 14));
      && Enabled(s, dev, a)
      && var m := Do(s, dev, a);
      && Enabled(m, dev, c)
      && var n := Do(m, dev, c);
      && dev in m.tables.contexts && m.tables.contexts[dev].token == 2 && m.tables.contexts[dev].phase == ST.PREPARE
      && dev in n.tables.contexts && n.tables.contexts[dev].token == 2 && n.tables.contexts[dev].phase == ST.DEGRADED
      && ST.TokenOf(n.tables, dev) == 2
  {
    hide Text.Trim;
  }

  /** A second switch begins while the first finaliser polls: the finaliser publishes the first card,
      although the second is pending and the second switch's token is the current one. */
  lemma OldFinaliserPublishesOldCard(dev: string, before: ST.Before, first: string, second: string) returns (r: Run)
    requires Key(first) != "" && Key(second) != "" && Key(first) != Key(second)
    ensures IsRun(r, dev) && |r.steps| >= 3
    ensures var k := |r.steps| - 3;
      && 0 in r.states[k].fins && r.states[k].fins[0].pc == Poll
      && r.steps[k] == StartTables(before, second, 1, 1) && r.steps[k + 1] == StartIdentity
      && r.steps[k + 2].Advance? && r.steps[k + 2].id == 0
    ensures var s, n := r.states[|r.steps| - 1], r.states[|r.steps|];
      && ST.TokenOf(s.tables, dev) == ST.TokenOf(n.tables, dev) == 2 && s.identity.target == Text.Trim(second)
      && n.identity.ready && n.identity.target == "" && n.identity.iccid == Text.Trim(first)
  {
    hide Do, Enabled, FirstAt, Text.Trim, Key;
    var r0 := FirstStarts(dev, before, first);
    assert Text.Trim(first) != "" by { KeyOfTrimmed(first); EmptyKey(); }
    var r1 := Walk(r0, dev, first, 0, 7);
    FirstIsPublished(r1.states[|r1.steps|], dev, before, first, second);
    r := ThreeMore(r1, dev, StartTables(before, second, 1, 1), StartIdentity, Advance(0, Meets(first, 7)));
  }

  lemma FirstIsPublished(s: State, dev: string, before: ST.Before, first: string, second: string)
    requires FirstAt(s, dev, first, 7) && Text.Trim(first) != ""
    ensures var a, c := StartTables(before, second, 1, 1), Advance(0, Meets(first, 7));
      && Enabled(s, dev, a) && 0 in s.fins && s.fins[0].pc == Poll
      && Enabled(Do(s, dev, a), dev, StartIdentity)
      && var m := Do(Do(s, dev, a), dev, StartIdentity);
      && Enabled(m, dev, c)
      && var n := Do(m, dev, c);
      && ST.TokenOf(m.tables, dev) == ST.TokenOf(n.tables, dev) == 2 && m.identity.target == Text.Trim(second)
      && n.identity.ready && n.identity.target == "" && n.identity.iccid == Text.Trim(first)
  {
    CardAnswers(first);
    TrimsAgain(first);
    TrimsAgain(second);
    hide Text.Trim, Key, Rejects;
  }
}
