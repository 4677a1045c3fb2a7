/** Recovery of a modem that rebooted or lost its transport: several triggers may schedule one, each in
    its own goroutine, and two marks keep them apart — the recovering mark of the pool and the active
    event of the transport recovery controller. Every step below is one critical section. */
module RecoveryFlight {
  import opened Wrappers
  import opened Text

  /** starts: the event's kind is one that begins a recovery. */
  datatype Event = Event(dev: string, generation: nat, starts: bool)

  /** Where a recovery goroutine stands. */
  datatype Stage =
    | Scheduled
    | Marked     // holds the recovering mark, has yet to observe its event
    | Refused    // its event was refused, has yet to give the mark back
    | Running    // the recovery body
    | Unmarked   // the mark is given back, the event not yet finished
    | Skipped    // another one runs; the event observed when scheduling is not yet finished

  datatype Flight = Flight(dev: string, event: Option<Event>, observed: bool, stage: Stage)

  /** owner says which flight's event an active entry is; the program does not keep it. */
  datatype State = State(
    marks: set<string>, active: map<string, Event>, generations: map<string, nat>,
    flights: map<nat, Flight>, next: nat, owner: map<string, nat>)

  const INITIAL := State({}, map[], map[], map[], 0, map[])

  function GenerationOf(s: State, dev: string): nat { if dev in s.generations then s.generations[dev] else 0 }

  /** Whether the controller takes up an event. */
  predicate Observes(s: State, e: Event) {
    var dev := Trim(e.dev);
    var current := GenerationOf(s, dev);
    && dev != "" && e.starts && dev !in s.active
    && !(current != 0 && e.generation != 0 && e.generation != current)
  }

  function Observed(s: State, e: Event, id: nat): State {
    s.(active := s.active[Trim(e.dev) := e.(dev := Trim(e.dev))], owner := s.owner[Trim(e.dev) := id])
  }

  function Finished(s: State, dev: string): State {
    s.(active := s.active - {Trim(dev)}, owner := s.owner - {Trim(dev)})
  }

  function Put(s: State, id: nat, f: Flight): State { s.(flights := s.flights[id := f]) }

  function Gone(s: State, id: nat): State { s.(flights := s.flights - {id}) }

  function Launch(s: State, f: Flight): State { Put(s, s.next, f).(next := s.next + 1) }

  datatype Step =
    | ScheduleManual(dev: string)
    | ScheduleAT(dev: string)
    | ScheduleEvent(dev: string, event: Event)
    | ScheduleBare(dev: string, event: Event) // an event that is to be observed by the goroutine itself
    | Enter(id: nat)
    | LateObserve(id: nat)
    | GiveBack(id: nat)
    | Unmark(id: nat)
    | FinishEvent(id: nat)
    | SetGeneration(dev: string, generation: nat)

  /** An event that names no device gets the one it is scheduled for. */
  function Named(e: Event, dev: string): Event { if e.dev == "" then e.(dev := dev) else e }

  function EnterFlight(s: State, id: nat, f: Flight): State {
    if f.dev == "" then Gone(s, id)
    else if f.dev in s.marks then
      if f.observed then Put(s, id, f.(stage := Skipped)) else Gone(s, id)
    else
      Put(s, id, f.(stage := if f.event.Some? && !f.observed then Marked else Running)).(marks := s.marks + {f.dev})
  }

  /** Steps of a flight that is not at that stage change nothing. */
  function Apply(s: State, e: Step): State {
    match e
    case ScheduleManual(dev) => Launch(s, Flight(dev, None, false, Scheduled))
    case ScheduleAT(dev) => if Trim(dev) == "" then s else Launch(s, Flight(Trim(dev), None, false, Scheduled))
    case ScheduleEvent(dev, event) =>
      var ev := Named(event, Trim(dev));
      if Trim(dev) == "" || !Observes(s, ev) then s
      else Launch(Observed(s, ev, s.next), Flight(Trim(dev), Some(ev), true, Scheduled))
    case ScheduleBare(dev, event) => Launch(s, Flight(dev, Some(event), false, Scheduled))
    case Enter(id) => if id in s.flights && s.flights[id].stage.Scheduled? then EnterFlight(s, id, s.flights[id]) else s
    case LateObserve(id) =>
      if id !in s.flights || !s.flights[id].stage.Marked? || s.flights[id].event.None? then s
      else if Observes(s, s.flights[id].event.value) then
        Put(Observed(s, s.flights[id].event.value, id), id, s.flights[id].(stage := Running))
      else Put(s, id, s.flights[id].(stage := Refused))
    case GiveBack(id) =>
      if id in s.flights && s.flights[id].stage.Refused? then Gone(s.(marks := s.marks - {s.flights[id].dev}), id) else s
    case Unmark(id) =>
      if id in s.flights && s.flights[id].stage.Running? then
        Put(s.(marks := s.marks - {s.flights[id].dev}), id, s.flights[id].(stage := Unmarked))
      else s
    case FinishEvent(id) =>
      if id in s.flights && (s.flights[id].stage.Unmarked? || s.flights[id].stage.Skipped?) then
        Gone(Finished(s, s.flights[id].dev), id)
      else s
    case SetGeneration(dev, g) => if Trim(dev) == "" then s else s.(generations := s.generations[Trim(dev) := g])
  }

  // ---- Invariants

  predicate Holds(f: Flight) { f.stage.Marked? || f.stage.Refused? || f.stage.Running? }

  /** The mark stands exactly while one flight of that name holds it, and no two hold the same. */
  predicate MarksFit(s: State) {
    && (forall id :: id in s.flights && Holds(s.flights[id]) ==> s.flights[id].dev in s.marks)
    && (forall d :: d in s.marks ==> exists id :: id in s.flights && Holds(s.flights[id]) && s.flights[id].dev == d)
    && (forall i, j :: i in s.flights && j in s.flights && i != j && Holds(s.flights[i]) && Holds(s.flights[j]) ==>
          s.flights[i].dev != s.flights[j].dev)
  }

  predicate IdsFit(s: State) {
    forall id :: id in s.flights ==> id < s.next && (s.flights[id].stage.Marked? ==> s.flights[id].event.Some?)
  }

  /** A flight that may own an active entry, and that will still finish it. */
  predicate WillFinish(f: Flight) {
    && f.event.Some?
    && (f.stage.Running? || f.stage.Unmarked? || (f.observed && (f.stage.Scheduled? || f.stage.Skipped?)))
  }

  predicate Owned(s: State, d: string)
    requires d in s.owner
  {
    var o := s.owner[d];
    && o in s.flights && WillFinish(s.flights[o]) && Trim(s.flights[o].event.value.dev) == d
  }

  predicate ActiveFits(s: State) {
    && s.active.Keys == s.owner.Keys
    && (forall d :: d in s.owner ==> d != "" && Owned(s, d))
  }

  /** Observed flights carry a trimmed name, and every event names the device of its flight. */
  predicate OwnDevice(f: Flight) {
    && (f.observed ==> f.dev != "" && f.event.Some?)
    && (f.event.Some? ==> Trim(f.event.value.dev) == Trim(f.dev))
  }

  predicate NamesFit(s: State) { forall id :: id in s.flights ==> OwnDevice(s.flights[id]) }

  predicate Inv(s: State) { MarksFit(s) && IdsFit(s) && ActiveFits(s) && NamesFit(s) }

  /** The triggers of the program name the same device twice: in the call and in the event. */
  predicate NamesItself(e: Step) {
    match e
    case ScheduleEvent(dev, event) => event.dev == "" || Trim(event.dev) == Trim(dev)
    case ScheduleBare(dev, event) => Trim(event.dev) == Trim(dev)
    case _ => true
  }

  lemma IdsKept(s: State, e: Step)
    requires IdsFit(s)
    ensures IdsFit(Apply(s, e))
  {
    hide Trim, Observes;
  }

  lemma MarksKept(s: State, e: Step)
    requires MarksFit(s) && IdsFit(s)
    ensures MarksFit(Apply(s, e)) && IdsFit(Apply(s, e))
  {
    hide Trim, Observes, MarksFit;
    IdsKept(s, e);
    assert s.next !in s.flights;
    hide IdsFit;
    var n := Apply(s, e);
    if n != s {
      match e
      case Enter(id) => EnterKeepsMarks(s, id);
      case LateObserve(id) => SameHolderKeepsMarks(s, n, id);
      case GiveBack(id) => ReleaseKeepsMarks(s, n, id);
      case Unmark(id) => ReleaseKeepsMarks(s, n, id);
      case FinishEvent(id) => BystanderKeepsMarks(s, n, id);
      case _ => BystanderKeepsMarks(s, n, s.next);
    }
  }

  /** A flight that holds nothing, before or after, appears, changes or goes. */
  lemma BystanderKeepsMarks(s: State, n: State, id: nat)
    requires MarksFit(s) && n.marks == s.marks
    requires forall i :: i != id ==> (i in n.flights <==> i in s.flights) && (i in s.flights ==> n.flights[i] == s.flights[i])
    requires (id in s.flights ==> !Holds(s.flights[id])) && (id in n.flights ==> !Holds(n.flights[id]))
    ensures MarksFit(n)
  {
    forall d | d in n.marks ensures exists i :: i in n.flights && Holds(n.flights[i]) && n.flights[i].dev == d {
      var i :| i in s.flights && Holds(s.flights[i]) && s.flights[i].dev == d;
      assert i in n.flights && n.flights[i] == s.flights[i];
    }
  }

  lemma SameHolderKeepsMarks(s: State, n: State, id: nat)
    requires MarksFit(s) && n.marks == s.marks && n.flights.Keys == s.flights.Keys && id in s.flights
    requires forall i :: i != id && i in s.flights ==> n.flights[i] == s.flights[i]
    requires Holds(s.flights[id]) && Holds(n.flights[id]) && n.flights[id].dev == s.flights[id].dev
    ensures MarksFit(n)
  {
    forall d | d in n.marks ensures exists i :: i in n.flights && Holds(n.flights[i]) && n.flights[i].dev == d {
      var i :| i in s.flights && Holds(s.flights[i]) && s.flights[i].dev == d;
      assert Holds(n.flights[i]) && n.flights[i].dev == d;
    }
  }

  lemma ReleaseKeepsMarks(s: State, n: State, id: nat)
    requires MarksFit(s) && id in s.flights && Holds(s.flights[id]) && n.marks == s.marks - {s.flights[id].dev}
    requires forall i :: i != id ==> (i in n.flights <==> i in s.flights) && (i in s.flights ==> n.flights[i] == s.flights[i])
    requires id in n.flights ==> !Holds(n.flights[id])
    ensures MarksFit(n)
  {
    forall d | d in n.marks ensures exists i :: i in n.flights && Holds(n.flights[i]) && n.flights[i].dev == d {
      var i :| i in s.flights && Holds(s.flights[i]) && s.flights[i].dev == d;
      assert i in n.flights && n.flights[i] == s.flights[i];
    }
  }

  lemma EnterKeepsMarks(s: State, id: nat)
    requires MarksFit(s) && id in s.flights && s.flights[id].stage.Scheduled?
    ensures MarksFit(EnterFlight(s, id, s.flights[id]))
  {
    hide MarksFit;
    var f := s.flights[id];
    var n := EnterFlight(s, id, f);
    if f.dev == "" || f.dev in s.marks {
      BystanderKeepsMarks(s, n, id);
    } else {
      TakingKeepsMarks(s, n, id);
    }
  }

  lemma TakingKeepsMarks(s: State, n: State, id: nat)
    requires MarksFit(s) && id in s.flights && !Holds(s.flights[id]) && s.flights[id].dev !in s.marks
    requires n.flights.Keys == s.flights.Keys && n.marks == s.marks + {s.flights[id].dev}
    requires Holds(n.flights[id]) && n.flights[id].dev == s.flights[id].dev
    requires forall i :: i != id && i in s.flights ==> n.flights[i] == s.flights[i]
    ensures MarksFit(n)
  {
    hide Holds;
    forall d | d in n.marks ensures exists i :: i in n.flights && Holds(n.flights[i]) && n.flights[i].dev == d {
      if d == s.flights[id].dev {
        assert Holds(n.flights[id]);
      } else {
        var i :| i in s.flights && Holds(s.flights[i]) && s.flights[i].dev == d;
        assert i in n.flights && n.flights[i] == s.flights[i];
      }
    }
  }

  lemma OneFlightKeepsNames(s: State, n: State, id: nat)
    requires NamesFit(s) && forall i :: i != id && i in n.flights ==> i in s.flights && n.flights[i] == s.flights[i]
    requires id in n.flights ==> OwnDevice(n.flights[id])
    ensures NamesFit(n)
  {
    hide OwnDevice;
  }

  lemma LaunchedNames(s: State, e: Step)
    requires NamesFit(s) && NamesItself(e) && FlightOf(e).None?
    ensures NamesFit(Apply(s, e))
  {
    hide Trim, Observes, NamesFit;
    if s.next in s.flights { FlightNamed(s, s.next); }
    match e
    case ScheduleAT(dev) =>
      TrimIdempotent(dev);
      OneFlightKeepsNames(s, Apply(s, e), s.next);
    case ScheduleEvent(dev, _) =>
      TrimIdempotent(dev);
      OneFlightKeepsNames(s, Apply(s, e), s.next);
    case _ => OneFlightKeepsNames(s, Apply(s, e), s.next);
  }

  lemma MovedNames(s: State, e: Step, id: nat)
    requires NamesFit(s) && FlightOf(e) == Some(id)
    ensures NamesFit(Apply(s, e))
  {
    hide Trim, Observes, NamesFit;
    if id in s.flights { FlightNamed(s, id); }
    StageOnly(s, e, id);
    hide Apply;
    OneFlightKeepsNames(s, Apply(s, e), id);
  }

  /** A flight's own steps change its stage and nothing else of it. */
  lemma StageOnly(s: State, e: Step, id: nat)
    requires FlightOf(e) == Some(id)
    ensures var n := Apply(s, e);
      && (forall i :: i != id && i in n.flights ==> i in s.flights && n.flights[i] == s.flights[i])
      && (id in n.flights ==> id in s.flights && n.flights[id] == s.flights[id].(stage := n.flights[id].stage))
  {
    hide Trim, Observes;
  }

  lemma FlightNamed(s: State, id: nat)
    requires NamesFit(s) && id in s.flights
    ensures OwnDevice(s.flights[id])
  {
  }

  lemma NamesKept(s: State, e: Step)
    requires NamesFit(s) && NamesItself(e)
    ensures NamesFit(Apply(s, e))
  {
    hide NamesFit, NamesItself, Apply;
    if FlightOf(e).None? {
      LaunchedNames(s, e);
    } else {
      MovedNames(s, e, FlightOf(e).value);
    }
  }

  /** The active entries that one step leaves alone stay owned, as long as it leaves their owners able
      to finish them. */
  lemma OwnersKept(s: State, n: State)
    requires ActiveFits(s) && n.active.Keys == n.owner.Keys
    requires forall d :: d in n.owner ==> d in s.owner && n.owner[d] == s.owner[d]
    requires forall d :: d in n.owner ==> var o := s.owner[d];
      o in n.flights && WillFinish(n.flights[o]) && n.flights[o].event == s.flights[o].event
    ensures ActiveFits(n)
  {
    hide WillFinish, Trim;
    forall d | d in n.owner ensures d != "" && Owned(n, d) {
      assert Owned(s, d);
    }
  }

  lemma ActiveKept(s: State, e: Step)
    requires Inv(s) && NamesItself(e)
    ensures ActiveFits(Apply(s, e))
  {
    var n := Apply(s, e);
    hide Trim, Observes, MarksFit, NamesFit, ActiveFits;
    if n != s {
      match e
      case ScheduleEvent(dev, event) => TakenUp(s, n, Named(event, Trim(dev)), s.next);
      case LateObserve(id) =>
        var ev := s.flights[id].event.value;
        if Observes(s, ev) { TakenUp(s, n, ev, id); } else { UntouchedKept(s, n, id); }
      case FinishEvent(id) => FinishKeepsActive(s, id);
      case SetGeneration(_, _) => UntouchedKept(s, n, s.next);
      case Enter(id) => EnterKeepsActive(s, id);
      case GiveBack(id) => UntouchedKept(s, n, id);
      case Unmark(id) => UntouchedKept(s, n, id);
      case _ => UntouchedKept(s, n, s.next);
    }
  }

  /** The entries stay as they are and one flight moves on. */
  lemma UntouchedKept(s: State, n: State, id: nat)
    requires ActiveFits(s) && n.active == s.active && n.owner == s.owner
    requires forall i :: i != id ==> (i in n.flights <==> i in s.flights) && (i in s.flights ==> n.flights[i] == s.flights[i])
    requires id in s.flights && WillFinish(s.flights[id]) ==>
      id in n.flights && WillFinish(n.flights[id]) && n.flights[id].event == s.flights[id].event
    ensures ActiveFits(n)
  {
    hide WillFinish, Trim;
    forall d | d in n.owner ensures s.owner[d] in s.flights && WillFinish(s.flights[s.owner[d]]) {
      assert Owned(s, d);
    }
    OwnersKept(s, n);
  }

  lemma EnterKeepsActive(s: State, id: nat)
    requires ActiveFits(s) && NamesFit(s) && id in s.flights && s.flights[id].stage.Scheduled?
    ensures ActiveFits(EnterFlight(s, id, s.flights[id]))
  {
    hide ActiveFits, Trim;
    assert OwnDevice(s.flights[id]);
    UntouchedKept(s, EnterFlight(s, id, s.flights[id]), id);
  }

  /** A new entry, owned by flight id. */
  lemma TakenUp(s: State, n: State, ev: Event, id: nat)
    requires ActiveFits(s) && Observes(s, ev) && n.active == Observed(s, ev, id).active && n.owner == Observed(s, ev, id).owner
    requires forall i :: i != id && i in s.flights ==> i in n.flights && n.flights[i] == s.flights[i]
    requires id in n.flights && WillFinish(n.flights[id]) && n.flights[id].event == Some(ev)
    requires id in s.flights ==> !WillFinish(s.flights[id])
    ensures ActiveFits(n)
  {
    hide WillFinish, Trim;
    forall d | d in n.owner ensures d != "" && Owned(n, d) {
      if d != Trim(ev.dev) { assert Owned(s, d); }
    }
  }

  lemma FinishKeepsActive(s: State, id: nat)
    requires ActiveFits(s) && NamesFit(s) && id in s.flights
    ensures ActiveFits(Gone(Finished(s, s.flights[id].dev), id))
  {
    hide Trim;
    var n := Gone(Finished(s, s.flights[id].dev), id);
    assert OwnDevice(s.flights[id]);
    forall d | d in n.owner ensures d != "" && Owned(n, d) {
      assert Owned(s, d);
    }
  }

  lemma ApplyKeeps(s: State, e: Step)
    requires Inv(s) && NamesItself(e)
    ensures Inv(Apply(s, e))
  {
    hide MarksFit, IdsFit, ActiveFits, NamesFit, Apply;
    MarksKept(s, e);
    NamesKept(s, e);
    ActiveKept(s, e);
  }

  // ---- Runs

  datatype Run = Run(states: seq<State>, steps: seq<Step>)

  predicate IsRun(r: Run) {
    && |r.states| == |r.steps| + 1 && r.states[0] == INITIAL
    && forall i :: 0 <= i < |r.steps| ==> r.states[i + 1] == Apply(r.states[i], r.steps[i])
  }

  predicate AllNameThemselves(r: Run) { forall i :: 0 <= i < |r.steps| ==> NamesItself(r.steps[i]) }

  lemma {:induction false} Always(r: Run, n: nat)
    requires IsRun(r) && AllNameThemselves(r) && n < |r.states|
    ensures Inv(r.states[n])
  {
    hide Apply, NamesItself, Inv;
    if n == 0 {
      StartFits();
    } else {
      Always(r, n - 1);
      ApplyKeeps(r.states[n - 1], r.steps[n - 1]);
    }
  }

  lemma StartFits()
    ensures Inv(INITIAL)
  {
  }

  lemma {:induction false} MarksAlways(r: Run, n: nat)
    requires IsRun(r) && n < |r.states|
    ensures MarksFit(r.states[n]) && IdsFit(r.states[n])
  {
    hide Apply, MarksFit, IdsFit;
    if n == 0 {
      StartFits();
      assert MarksFit(INITIAL) && IdsFit(INITIAL) by { StartFitsMarks(); }
    } else {
      MarksAlways(r, n - 1);
      MarksKept(r.states[n - 1], r.steps[n - 1]);
    }
  }

  lemma StartFitsMarks()
    ensures MarksFit(INITIAL) && IdsFit(INITIAL)
  {
  }

  predicate RunsBody(s: State, id: nat, d: string) {
    id in s.flights && s.flights[id].stage.Running? && s.flights[id].dev == d
  }

  /** Under any interleaving of any triggers at most one recovery body runs per device name, and the
      recovering mark stands exactly while a flight of that name holds it. */
  lemma SingleFlight(r: Run, n: nat, d: string)
    requires IsRun(r) && n < |r.states|
    ensures forall i, j :: RunsBody(r.states[n], i, d) && RunsBody(r.states[n], j, d) ==> i == j
    ensures d in r.states[n].marks <==>
      exists i :: i in r.states[n].flights && Holds(r.states[n].flights[i]) && r.states[n].flights[i].dev == d
  {
    hide Apply;
    MarksAlways(r, n);
  }

  /** An active transport event always has its recovery scheduled or under way, for the same device,
      and that recovery has yet to finish it. */
  lemma ActiveHasItsRecovery(r: Run, n: nat, d: string) returns (id: nat)
    requires IsRun(r) && AllNameThemselves(r) && n < |r.states| && d in r.states[n].active
    ensures id in r.states[n].flights
    ensures WillFinish(r.states[n].flights[id]) && Trim(r.states[n].flights[id].dev) == d
  {
    hide Apply, NamesItself, Trim, MarksFit;
    Always(r, n);
    var s := r.states[n];
    assert d in s.owner && Owned(s, d);
    id := s.owner[d];
    assert OwnDevice(s.flights[id]);
  }

  /** Once no recovery of a device is left, neither mark of it is left. */
  lemma NothingLeaks(r: Run, n: nat, d: string)
    requires IsRun(r) && AllNameThemselves(r) && n < |r.states|
    requires forall id :: id in r.states[n].flights ==> Trim(r.states[n].flights[id].dev) != Trim(d)
    ensures d !in r.states[n].marks && Trim(d) !in r.states[n].active
  {
    hide Apply, NamesItself, Trim;
    MarksAlways(r, n);
    if Trim(d) in r.states[n].active {
      var id := ActiveHasItsRecovery(r, n, Trim(d));
    }
  }

  // ---- Flights end

  function Rank(s: State, id: nat): nat {
    if id !in s.flights then 0
    else match s.flights[id].stage
      case Scheduled => 5 case Marked => 4 case Running => 3 case Refused => 2 case Unmarked => 1 case Skipped => 1
  }

  function FlightOf(e: Step): Option<nat> {
    match e
    case Enter(id) => Some(id)
    case LateObserve(id) => Some(id)
    case GiveBack(id) => Some(id)
    case Unmark(id) => Some(id)
    case FinishEvent(id) => Some(id)
    case _ => None
  }

  /** The step a flight would take next; one exists at every stage. */
  function NextStep(s: State, id: nat): Step
    requires id in s.flights
  {
    match s.flights[id].stage
    case Scheduled => Enter(id)
    case Marked => LateObserve(id)
    case Refused => GiveBack(id)
    case Running => Unmark(id)
    case Unmarked => FinishEvent(id)
    case Skipped => FinishEvent(id)
  }

  /** No flight ever waits for another: its next step always moves it on, and no step of anyone else
      moves it back. So every flight ends after at most five steps of its own. */
  lemma FlightsEnd(s: State, id: nat, e: Step)
    requires IdsFit(s) && id in s.flights
    ensures Rank(Apply(s, NextStep(s, id)), id) < Rank(s, id)
    ensures FlightOf(e) != Some(id) ==> Rank(Apply(s, e), id) == Rank(s, id)
  {
    hide Trim, Observes;
    NextStepAdvances(s, id);
    if FlightOf(e).Some? && FlightOf(e).value != id {
      StageOnly(s, e, FlightOf(e).value);
      OthersRemain(s, e, id);
    }
  }

  lemma NextStepAdvances(s: State, id: nat)
    requires IdsFit(s) && id in s.flights
    ensures Rank(Apply(s, NextStep(s, id)), id) < Rank(s, id)
  {
    hide Trim, Observes;
  }

  lemma OthersRemain(s: State, e: Step, id: nat)
    requires id in s.flights && FlightOf(e).Some? && FlightOf(e).value != id
    ensures id in Apply(s, e).flights
  {
    hide Trim, Observes;
  }

  /** An event of another generation than the device's worker has, where both are known, is never taken
      up; one of the same generation, or of an unknown one, is taken up exactly when its kind starts
      recoveries and none is active, and then it is active and its recovery scheduled. */
  lemma EventIsTakenExactly(s: State, dev: string, event: Event)
    ensures var name := if event.dev == "" then Trim(dev) else Trim(event.dev);
      var current := if name in s.generations then s.generations[name] else 0;
      var n := Apply(s, ScheduleEvent(dev, event));
      if Trim(dev) != "" && name != "" && event.starts && name !in s.active
         && (event.generation == 0 || current == 0 || event.generation == current)
      then
        && n.active == s.active[name := Event(name, event.generation, true)] && n.marks == s.marks
        && n.flights.Keys == s.flights.Keys + {s.next} && n.next == s.next + 1
        && n.flights[s.next].dev == Trim(dev) && n.flights[s.next].observed && n.flights[s.next].stage == Scheduled
      else n == s
  {
    TrimIdempotent(dev);
    hide Trim;
  }

  /** The triggers without an event always schedule a recovery: a manual one under the name as given, one
      after a disconnect under the trimmed name, and none if that is empty. */
  lemma TriggersSchedule(s: State, dev: string)
    ensures var n := Apply(s, ScheduleManual(dev));
      n == s.(flights := s.flights[s.next := Flight(dev, None, false, Scheduled)], next := s.next + 1)
    ensures var n, name := Apply(s, ScheduleAT(dev)), Trim(dev);
      n == if name == "" then s else s.(flights := s.flights[s.next := Flight(name, None, false, Scheduled)], next := s.next + 1)
  {
    hide Trim;
  }

  /** In every run, the body of a recovery that was scheduled with an event not yet observed runs only after
      the controller took that event up. */
  lemma {:induction false} BodyHasItsEvent(r: Run, j: nat, id: nat) returns (k: nat)
    requires IsRun(r) && j < |r.states| && id in r.states[j].flights
    requires r.states[j].flights[id].stage.Running? && r.states[j].flights[id].event.Some? && !r.states[j].flights[id].observed
    ensures k < j && r.steps[k] == LateObserve(id) && Observes(r.states[k], r.states[j].flights[id].event.value)
    decreases j
  {
    hide Trim, Observes;
    assert r.states[j] == Apply(r.states[j - 1], r.steps[j - 1]);
    if r.steps[j - 1] == LateObserve(id) && r.states[j - 1].flights != r.states[j].flights { return j - 1; }
    k := BodyHasItsEvent(r, j - 1, id);
  }

  /** The generation an event is compared with is the last one set for its device. */
  lemma {:induction false} GenerationIsTheLast(r: Run, j: nat, d: string) returns (k: nat)
    requires IsRun(r) && j < |r.states| && d in r.states[j].generations
    ensures k < j && r.steps[k].SetGeneration? && Trim(r.steps[k].dev) == d && r.steps[k].generation == r.states[j].generations[d]
    ensures forall m :: k < m < j ==> !(r.steps[m].SetGeneration? && Trim(r.steps[m].dev) == d)
    decreases j
  {
    hide Trim, Observes;
    assert r.states[j] == Apply(r.states[j - 1], r.steps[j - 1]);
    if r.steps[j - 1].SetGeneration? && Trim(r.steps[j - 1].dev) == d {
      NotEmpty(r, j, d);
      return j - 1;
    }
    k := GenerationIsTheLast(r, j - 1, d);
  }

  lemma {:induction false} NotEmpty(r: Run, j: nat, d: string)
    requires IsRun(r) && j < |r.states| && d in r.states[j].generations
    ensures d != ""
    decreases j
  {
    hide Trim, Observes;
    assert r.states[j] == Apply(r.states[j - 1], r.steps[j - 1]);
    if d in r.states[j - 1].generations { NotEmpty(r, j - 1, d); }
  }

  // ---- Where the controller's mark falls short

  /** The step ends the part of some flight in the controller's mark of device d. */
  predicate Ends(s: State, e: Step, d: string) {
    && e.FinishEvent? && e.id in s.flights && Trim(s.flights[e.id].dev) == d
    && (s.flights[e.id].stage.Unmarked? || s.flights[e.id].stage.Skipped?)
  }

  predicate Owns(s: State, d: string, id: nat) { d in s.owner && s.owner[d] == id }

  /** The flight has observed its event and not finished it. */
  predicate Live(s: State, id: nat) { id in s.flights && WillFinish(s.flights[id]) }

  lemma LiveStays(s: State, e: Step, d: string, id: nat)
    requires IdsFit(s) && NamesFit(s) && Live(s, id) && Trim(s.flights[id].dev) == d
    requires !(e == FinishEvent(id) && Ends(s, e, d))
    ensures Live(Apply(s, e), id) && Trim(Apply(s, e).flights[id].dev) == d
  {
    hide Trim, Observes;
    FlightNamed(s, id);
    hide NamesFit;
  }

  /** While a flight lives, its event is not taken up again, and only a finish of the device drops it. */
  lemma OwnerMoves(s: State, e: Step, d: string, id: nat)
    requires IdsFit(s) && s.active.Keys == s.owner.Keys && Live(s, id) && Trim(s.flights[id].dev) == d
    ensures Owns(Apply(s, e), d, id) <==> Owns(s, d, id) && !Ends(s, e, d)
  {
    hide Trim;
  }

  /** An observed event stays active until its own recovery finishes exactly when no other recovery of
      the device finishes first. */
  lemma {:induction false} EventKeepsItsMark(r: Run, i: nat, j: nat, d: string, id: nat)
    requires IsRun(r) && AllNameThemselves(r) && i <= j < |r.states| && Owns(r.states[i], d, id)
    requires forall k :: i <= k < j ==> !(r.steps[k] == FinishEvent(id) && Ends(r.states[k], r.steps[k], d))
    ensures Owns(r.states[j], d, id) <==> forall k :: i <= k < j ==> !Ends(r.states[k], r.steps[k], d)
    ensures Live(r.states[j], id) && Trim(r.states[j].flights[id].dev) == d
    decreases j
  {
    hide Apply, NamesItself, Ends, Trim, MarksFit;
    if i == j {
      Always(r, i);
      OwnerIsLive(r.states[i], d, id);
    } else {
      EventKeepsItsMark(r, i, j - 1, d, id);
      Always(r, j - 1);
      assert r.states[j - 1].active.Keys == r.states[j - 1].owner.Keys;
      hide ActiveFits, IdsFit, NamesFit, Live, Owns;
      LiveStays(r.states[j - 1], r.steps[j - 1], d, id);
      OwnerMoves(r.states[j - 1], r.steps[j - 1], d, id);
      assert r.states[j] == Apply(r.states[j - 1], r.steps[j - 1]);
    }
  }

  lemma OwnerIsLive(s: State, d: string, id: nat)
    requires ActiveFits(s) && NamesFit(s) && Owns(s, d, id)
    ensures Live(s, id) && Trim(s.flights[id].dev) == d
  {
    hide Trim;
    assert Owned(s, d);
    FlightNamed(s, id);
  }

  /** So an event can lose its mark before its recovery has begun, and a second event of the device is
      then taken up beside it: a manual recovery runs; an event is observed; the manual one ends. */
  lemma EventLosesItsMark(dev: string, e1: Event, e2: Event) returns (r: Run)
    requires Trim(dev) == dev != "" && e1.dev == e2.dev == dev && e1.starts && e2.starts
    ensures IsRun(r) && AllNameThemselves(r)
    ensures r.steps == [ScheduleManual(dev), Enter(0), ScheduleEvent(dev, e1), Unmark(0), FinishEvent(0), ScheduleEvent(dev, e2)]
    ensures r.states[5].active == map[] && 1 in r.states[5].flights
    ensures r.states[5].flights[1] == Flight(dev, Some(e1), true, Scheduled)
    ensures r.states[6].flights.Keys == {1, 2} && r.states[6].owner == map[dev := 2]
    ensures r.states[6].flights[1].observed && r.states[6].flights[2].observed
  {
    hide Trim;
    var steps := [ScheduleManual(dev), Enter(0), ScheduleEvent(dev, e1), Unmark(0), FinishEvent(0), ScheduleEvent(dev, e2)];
    var manual := Flight(dev, None, false, Running);
    var f1, f2 := Flight(dev, Some(e1), true, Scheduled), Flight(dev, Some(e2), true, Scheduled);
    var s1 := State({}, map[], map[], map[0 := manual.(stage := Scheduled)], 1, map[]);
    var s2 := State({dev}, map[], map[], map[0 := manual], 1, map[]);
    var s3 := State({dev}, map[dev := e1], map[], map[0 := manual, 1 := f1], 2, map[dev := 1]);
    var s4 := State({}, map[dev := e1], map[], map[0 := manual.(stage := Unmarked), 1 := f1], 2, map[dev := 1]);
    var s5 := State({}, map[], map[], map[1 := f1], 2, map[]);
    var s6 := State({}, map[dev := e2], map[], map[1 := f1, 2 := f2], 3, map[dev := 2]);
    assert Apply(INITIAL, steps[0]) == s1;
    assert Apply(s1, steps[1]) == s2;
    Observing(s2, dev, e1);
    Ending(s3, dev, s4, s5);
    Observing(s5, dev, e2);
    hide Apply;
    r := Run([INITIAL, s1, s2, s3, s4, s5, s6], steps);
  }

  lemma Ending(s3: State, dev: string, s4: State, s5: State)
    requires Trim(dev) == dev && 0 in s3.flights && s3.flights[0] == Flight(dev, None, false, Running)
    requires s4 == s3.(marks := s3.marks - {dev}, flights := s3.flights[0 := Flight(dev, None, false, Unmarked)])
    requires s5 == s4.(flights := s3.flights - {0}, active := s3.active - {dev}, owner := s3.owner - {dev})
    ensures Apply(s3, Unmark(0)) == s4 && Apply(s4, FinishEvent(0)) == s5
  {
    hide Trim;
    assert s4.flights - {0} == s3.flights - {0};
  }

  lemma Observing(s: State, dev: string, e: Event)
    requires Trim(dev) == dev == e.dev != "" && e.starts && dev !in s.active && s.generations == map[]
    ensures Apply(s, ScheduleEvent(dev, e)) == State(
      s.marks, s.active[dev := e], s.generations, s.flights[s.next := Flight(dev, Some(e), true, Scheduled)],
      s.next + 1, s.owner[dev := s.next])
  {
    hide Trim;
  }

  /** A single event-driven recovery, run from start to end. */
  function Lone(dev: string, e: Event): State {
    Apply(Apply(Apply(Apply(INITIAL, ScheduleEvent(dev, e)), Enter(0)), Unmark(0)), FinishEvent(0))
  }

  /** Left to itself it leaves no mark behind exactly when its event names the device it is scheduled
      for, or none; otherwise the event stays active with no recovery left to finish it. */
  lemma LoneRecoveryCleansUp(dev: string, e: Event)
    requires Trim(dev) != "" && e.starts && Trim(Named(e, Trim(dev)).dev) != ""
    ensures Lone(dev, e).flights == map[] && Lone(dev, e).marks == {}
    ensures Lone(dev, e).active == map[] <==> NamesItself(ScheduleEvent(dev, e))
  {
    TrimIdempotent(dev);
    hide Trim;
    var ev := Named(e, Trim(dev));
    var s1 := Apply(INITIAL, ScheduleEvent(dev, e));
    assert s1.active.Keys == {Trim(ev.dev)} && s1.flights == map[0 := Flight(Trim(dev), Some(ev), true, Scheduled)];
    var s2 := Apply(s1, Enter(0));
    assert s2.marks == {Trim(dev)} && s2.flights == map[0 := Flight(Trim(dev), Some(ev), true, Running)];
    var s3 := Apply(s2, Unmark(0));
    assert s3.marks == {} && s3.flights == map[0 := Flight(Trim(dev), Some(ev), true, Unmarked)];
    var s4 := Apply(s3, FinishEvent(0));
    assert s4.active.Keys == {Trim(ev.dev)} - {Trim(dev)};
  }

  // ---- The marks as objects

  /** The controller's part: active events and worker generations, behind its own lock. */
  class TransportRecovery {
    var active: map<string, Event>
    var workerGenerations: map<string, nat>

    constructor ()
      ensures active == map[] && workerGenerations == map[]
    {
      active, workerGenerations := map[], map[];
    }

    /** Whether this state of the object is the controller's part of s. */
    predicate Shows(s: State)
      reads this
    {
      active == s.active && workerGenerations == s.generations
    }

    method Observe(event: Event, ghost s: State, ghost id: nat) returns (taken: bool)
      requires Shows(s)
      modifies this`active
      ensures taken <==> Observes(s, event)
      ensures Shows(if taken then Observed(s, event, id) else s)
    {
      hide Trim;
      var dev := Trim(event.dev);
      if dev == "" || !event.starts { return false; }
      var current := if dev in workerGenerations then workerGenerations[dev] else 0;
      if current != 0 && event.generation != 0 && event.generation != current { return false; }
      if dev in active { return false; }
      active := active[dev := event.(dev := dev)];
      return true;
    }

    method Finish(name: string, ghost s: State)
      requires Shows(s) && "" !in s.active
      modifies this`active
      ensures Shows(Finished(s, name))
    {
      hide Trim;
      var dev := Trim(name);
      if dev == "" { return; }
      active := active - {dev};
    }
  }

  /** The pool's part: the recovering marks, behind the pool's lock. */
  class RecoveringMarks {
    var modemRebootRecovering: map<string, bool>

    function Marks(): set<string>
      reads this
    {
      set d | d in modemRebootRecovering && modemRebootRecovering[d]
    }

    constructor ()
      ensures Marks() == {}
    {
      modemRebootRecovering := map[];
    }

    method Begin(dev: string) returns (begun: bool)
      modifies this
      ensures begun <==> dev != "" && dev !in old(Marks())
      ensures Marks() == if begun then old(Marks()) + {dev} else old(Marks())
    {
      if dev == "" { return false; }
      if dev in modemRebootRecovering && modemRebootRecovering[dev] { return false; }
      modemRebootRecovering := modemRebootRecovering[dev := true];
      return true;
    }

    method Finish(dev: string)
      modifies this
      ensures Marks() == if dev == "" then old(Marks()) else old(Marks()) - {dev}
    {
      if dev == "" { return; }
      modemRebootRecovering := modemRebootRecovering - {dev};
    }
  }
}
