/** The eSIM switch bookkeeping: three maps per device behind one lock, and the tokens that keep a
    finished or superseded switch from touching the one that replaced it. */
module SwitchTables {
  import opened Wrappers
  import Text

  type Phase = string

  const PREPARE: Phase := "prepare"
  const DEGRADED: Phase := "degraded"

  /** What is recorded of the device before a switch, to be restored after it. */
  datatype Before = Before(vowifiActive: bool, flightMode: bool, connected: bool, networkEnabled: bool, iccid: string, imsi: string)

  datatype Context = Context(
    before: Before, target: string, token: nat, identityGeneration: nat,
    capturedAt: int, phase: Phase, phaseUpdatedAt: int)

  datatype Tables = Tables(
    switchSeq: nat, switching: set<string>, contexts: map<string, Context>, tokens: map<string, nat>)

  const EMPTY: Tables := Tables(0, {}, map[], map[])

  /** The token a device's entry holds; 0 when it has none, as a Go map lookup gives. */
  function TokenOf(s: Tables, dev: string): nat { if dev in s.tokens then s.tokens[dev] else 0 }

  datatype Op =
    | Begin(dev: string, before: Before, target: string, capturedAt: int, now: int)
    | Mark(dev: string, token: nat, phase: Phase, now: int)
    | SetGeneration(dev: string, token: nat, generation: nat)
    | ClearIf(dev: string, token: nat)
    | Clear(dev: string)
    | Fail(dev: string, token: nat)
    | TimeOut(dev: string, capturedAt: int)

  function Drop(s: Tables, dev: string): Tables {
    s.(contexts := s.contexts - {dev}, switching := s.switching - {dev}, tokens := s.tokens - {dev})
  }

  function SetContext(s: Tables, dev: string, c: Context): Tables { s.(contexts := s.contexts[dev := c]) }

  /** A new switch of dev, under the next token. */
  function Start(s: Tables, dev: string, c: Context): Tables {
    Tables(s.switchSeq + 1, s.switching + {dev}, s.contexts[dev := c], s.tokens[dev := s.switchSeq + 1])
  }

  /** The device names that phase and generation updates look up are trimmed; the others are not. */
  function KeyOf(op: Op): string {
    match op
    case Mark(dev, _, _, _) => Text.Trim(dev)
    case SetGeneration(dev, _, _) => Text.Trim(dev)
    case _ => op.dev
  }

  function Apply(s: Tables, op: Op): Tables {
    match op
    case Begin(dev, before, target, capturedAt, now) =>
      Start(s, dev, Context(before, Text.Trim(target), s.switchSeq + 1, 0, capturedAt, PREPARE, now))
    case Mark(_, token, phase, now) =>
      var dev := KeyOf(op);
      if dev == "" || phase == "" || (token != 0 && TokenOf(s, dev) != token) || dev !in s.contexts then s
      else SetContext(s, dev, s.contexts[dev].(phase := phase, phaseUpdatedAt := now))
    case SetGeneration(_, token, generation) =>
      var dev := KeyOf(op);
      if dev == "" || generation == 0 || (token != 0 && TokenOf(s, dev) != token) || dev !in s.contexts then s
      else SetContext(s, dev, s.contexts[dev].(identityGeneration := generation))
    case ClearIf(dev, token) => if token == 0 || TokenOf(s, dev) != token then s else Drop(s, dev)
    case Clear(dev) => Drop(s, dev)
    case Fail(dev, token) => if TokenOf(s, dev) != token || dev !in s.contexts then s else Drop(s, dev)
    case TimeOut(dev, capturedAt) =>
      if dev in s.contexts && s.contexts[dev].capturedAt == capturedAt then Drop(s, dev) else s
  }

  /** Whether a phase update found its switch. */
  function MarkFound(s: Tables, dev: string, token: nat, phase: Phase): bool {
    var key := Text.Trim(dev);
    key != "" && phase != "" && (token == 0 || TokenOf(s, key) == token) && key in s.contexts
  }

  /** The three maps speak of the same devices and the same tokens, and no token is used twice. */
  predicate Inv(s: Tables) {
    && s.contexts.Keys == s.tokens.Keys == s.switching
    && (forall d :: d in s.contexts ==> s.contexts[d].token == s.tokens[d])
    && (forall d :: d in s.tokens ==> 1 <= s.tokens[d] <= s.switchSeq)
    && (forall d, e :: d in s.tokens && e in s.tokens && d != e ==> s.tokens[d] != s.tokens[e])
  }

  lemma DropKeeps(s: Tables, dev: string)
    requires Inv(s)
    ensures Inv(Drop(s, dev))
  {
    var n := Drop(s, dev);
    assert n.contexts.Keys == s.contexts.Keys - {dev} && n.tokens.Keys == s.tokens.Keys - {dev};
  }

  lemma SetContextKeeps(s: Tables, dev: string, c: Context)
    requires Inv(s) && dev in s.contexts && c.token == s.contexts[dev].token
    ensures Inv(SetContext(s, dev, c))
  {
    assert SetContext(s, dev, c).contexts.Keys == s.contexts.Keys;
  }

  lemma StartKeeps(s: Tables, dev: string, c: Context)
    requires Inv(s) && c.token == s.switchSeq + 1
    ensures Inv(Start(s, dev, c))
  {
    var n := Start(s, dev, c);
    assert n.contexts.Keys == s.contexts.Keys + {dev} && n.tokens.Keys == s.tokens.Keys + {dev};
  }

  lemma ApplyKeeps(s: Tables, op: Op)
    requires Inv(s)
    ensures Inv(Apply(s, op)) && s.switchSeq <= Apply(s, op).switchSeq
  {
    hide Inv, Text.Trim;
    match op
    case Begin(dev, before, target, capturedAt, now) =>
      StartKeeps(s, dev, Context(before, Text.Trim(target), s.switchSeq + 1, 0, capturedAt, PREPARE, now));
    case Mark(_, _, phase, now) =>
      if KeyOf(op) in s.contexts {
        SetContextKeeps(s, KeyOf(op), s.contexts[KeyOf(op)].(phase := phase, phaseUpdatedAt := now));
      }
    case SetGeneration(_, _, generation) =>
      if KeyOf(op) in s.contexts {
        SetContextKeeps(s, KeyOf(op), s.contexts[KeyOf(op)].(identityGeneration := generation));
      }
    case _ => DropKeeps(s, op.dev);
  }

  /** One operation leaves a device's token, removes it, or issues the next one. */
  lemma TokenMoves(s: Tables, op: Op, key: string)
    ensures var t := TokenOf(Apply(s, op), key);
      t == TokenOf(s, key) || t == 0 || (op.Begin? && key == op.dev && t == s.switchSeq + 1)
    ensures s.switchSeq <= Apply(s, op).switchSeq
  {
    hide Text.Trim;
  }

  datatype Run = Run(states: seq<Tables>, ops: seq<Op>)

  predicate IsRun(r: Run) {
    && |r.states| == |r.ops| + 1 && r.states[0] == EMPTY
    && forall i :: 0 <= i < |r.ops| ==> r.states[i + 1] == Apply(r.states[i], r.ops[i])
  }

  /** In every reachable state the three maps agree. */
  lemma {:induction false} Always(r: Run, n: nat)
    requires IsRun(r) && n < |r.states|
    ensures Inv(r.states[n])
  {
    if n > 0 {
      Always(r, n - 1);
      ApplyKeeps(r.states[n - 1], r.ops[n - 1]);
    }
  }

  /** The token that event i handed out, to the device it began a switch for. */
  predicate Issued(r: Run, i: nat, dev: string, token: nat)
    requires IsRun(r)
  {
    i < |r.ops| && r.ops[i].Begin? && r.ops[i].dev == dev && token == r.states[i + 1].switchSeq
  }

  lemma {:induction false} SeqRises(r: Run, i: nat, j: nat)
    requires IsRun(r) && i <= j < |r.states|
    ensures r.states[i].switchSeq <= r.states[j].switchSeq
  {
    hide Apply;
    if i < j {
      SeqRises(r, i, j - 1);
      TokenMoves(r.states[j - 1], r.ops[j - 1], "");
      assert r.states[j] == Apply(r.states[j - 1], r.ops[j - 1]);
    }
  }

  lemma IssuedIsNext(r: Run, i: nat, dev: string, token: nat)
    requires IsRun(r) && Issued(r, i, dev, token)
    ensures token == r.states[i].switchSeq + 1 && TokenOf(r.states[i + 1], dev) == token
  {
    hide Text.Trim;
    assert r.states[i + 1] == Apply(r.states[i], r.ops[i]);
  }

  /** No state holds a token that has not been issued yet. */
  lemma TokenIsOld(s: Tables, key: string)
    requires Inv(s)
    ensures TokenOf(s, key) <= s.switchSeq
  {
  }

  /** A token is only ever found under the device it was issued to. */
  lemma {:induction false} TokenStaysHome(r: Run, i: nat, j: nat, dev: string, token: nat, key: string)
    requires IsRun(r) && Issued(r, i, dev, token) && i < j < |r.states|
    requires TokenOf(r.states[j], key) == token
    ensures key == dev
    decreases j
  {
    hide Inv, Apply, TokenOf;
    IssuedIsNext(r, i, dev, token);
    TokenMoves(r.states[j - 1], r.ops[j - 1], key);
    assert r.states[j] == Apply(r.states[j - 1], r.ops[j - 1]);
    if j == i + 1 {
      Always(r, i);
      TokenIsOld(r.states[i], key);
    } else {
      SeqRises(r, i + 1, j - 1);
      TokenStaysHome(r, i, j - 1, dev, token, key);
    }
  }

  /** Once another token, or none, stands in its place, a token never comes back. */
  lemma {:induction false} TokenNeverReturns(r: Run, i: nat, k: nat, j: nat, dev: string, token: nat)
    requires IsRun(r) && Issued(r, i, dev, token) && i < k <= j < |r.states|
    requires TokenOf(r.states[k], dev) != token
    ensures TokenOf(r.states[j], dev) != token
    decreases j
  {
    hide Inv, Apply, TokenOf;
    if k < j {
      IssuedIsNext(r, i, dev, token);
      TokenMoves(r.states[j - 1], r.ops[j - 1], dev);
      assert r.states[j] == Apply(r.states[j - 1], r.ops[j - 1]);
      TokenNeverReturns(r, i, k, j - 1, dev, token);
      SeqRises(r, i + 1, j - 1);
    }
  }

  /** The non-zero token an operation carries, if it carries one. */
  function Carries(op: Op): nat {
    match op
    case Mark(_, token, _, _) => token
    case SetGeneration(_, token, _) => token
    case ClearIf(_, token) => token
    case Fail(_, token) => token
    case _ => 0
  }

  /** From the moment a newer switch begins on the device, whatever carries the older switch's token
      leaves all three maps exactly as they are, under every device name. */
  lemma StaleTokenIsInert(r: Run, i: nat, k: nat, j: nat, dev: string, token: nat, op: Op)
    requires IsRun(r) && Issued(r, i, dev, token)
    requires i < k < j < |r.states| && r.ops[k].Begin? && r.ops[k].dev == dev
    requires Carries(op) == token
    ensures Apply(r.states[j], op) == r.states[j]
  {
    hide Inv, Text.Trim;
    IssuedIsNext(r, i, dev, token);
    SeqRises(r, i + 1, k);
    IssuedIsNext(r, k, dev, r.states[k + 1].switchSeq);
    TokenNeverReturns(r, i, k + 1, j, dev, token);
    if TokenOf(r.states[j], KeyOf(op)) == token {
      TokenStaysHome(r, i, j, dev, token, KeyOf(op));
    }
  }

  /** An operation with a non-zero token changes no device but the one that holds the token. */
  lemma OthersUntouched(s: Tables, op: Op, other: string)
    requires Inv(s) && Carries(op) != 0 && TokenOf(s, other) != Carries(op)
    ensures TokenOf(Apply(s, op), other) == TokenOf(s, other)
    ensures (other in Apply(s, op).contexts <==> other in s.contexts)
    ensures other in s.contexts ==> Apply(s, op).contexts[other] == s.contexts[other]
  {
    hide Text.Trim;
    var dev := KeyOf(op);
    assert dev == other ==> Apply(s, op) == s;
  }

  /** A phase update with its own switch's token takes effect exactly when the device name carries
      no surrounding space: the switch is stored under the name as given, and looked up trimmed. */
  lemma MarkReachesItsSwitch(s: Tables, begin: Op, phase: Phase)
    requires Inv(s) && begin.Begin? && begin.dev != "" && phase != ""
    ensures var n := Apply(s, begin);
      MarkFound(n, begin.dev, n.switchSeq, phase) <==> Text.Trim(begin.dev) == begin.dev
  {
    hide Inv, Text.Trim;
    TokenIsOld(s, Text.Trim(begin.dev));
  }

  /** The entry holds what was captured for this start of a switch, under the token it was given. */
  predicate CapturedBy(c: Context, begin: Op, token: nat) {
    && begin.Begin? && c.token == token
    && c.before == begin.before && c.target == Text.Trim(begin.target) && c.capturedAt == begin.capturedAt
  }

  lemma EntryMoves(s: Tables, op: Op, dev: string)
    requires dev in Apply(s, op).contexts
    ensures var c := Apply(s, op).contexts[dev];
      if op.Begin? && op.dev == dev then CapturedBy(c, op, Apply(s, op).switchSeq)
      else dev in s.contexts && c.(identityGeneration := 0, phase := "", phaseUpdatedAt := 0)
             == s.contexts[dev].(identityGeneration := 0, phase := "", phaseUpdatedAt := 0)
  {
    hide Text.Trim;
  }

  /** Every entry stems from the start of a switch of its device, and to the end holds what was captured
      then: the state to restore, the target and the time. */
  lemma {:induction false} EntryOrigin(r: Run, j: nat, dev: string) returns (i: nat)
    requires IsRun(r) && j < |r.states| && dev in r.states[j].contexts
    ensures i < j && Issued(r, i, dev, r.states[j].contexts[dev].token)
    ensures CapturedBy(r.states[j].contexts[dev], r.ops[i], r.states[j].contexts[dev].token)
    decreases j
  {
    hide Apply, Text.Trim;
    assert r.states[j] == Apply(r.states[j - 1], r.ops[j - 1]);
    EntryMoves(r.states[j - 1], r.ops[j - 1], dev);
    if r.ops[j - 1].Begin? && r.ops[j - 1].dev == dev {
      i := j - 1;
    } else {
      i := EntryOrigin(r, j - 1, dev);
    }
  }

  /** What a finaliser or a failed switch is given: the entry under its token; without a token whatever
      entry there is, or else the state captured now. */
  function Snapshot(s: Tables, dev: string, token: nat, captured: Context): Option<Context> {
    if token == 0 then Some(if dev in s.contexts then s.contexts[dev] else captured)
    else if TokenOf(s, dev) == token && dev in s.contexts then Some(s.contexts[dev]) else None
  }

  /** In every run, whoever comes with the token of a switch is given what was captured when that switch
      began, exactly as long as it is the device's current one; whoever comes without a token is given what
      the current token would get, or the state of now. */
  lemma SnapshotIsTheCaptured(r: Run, i: nat, j: nat, dev: string, token: nat, now: Context)
    requires IsRun(r) && Issued(r, i, dev, token) && i < j < |r.states|
    ensures var c := Snapshot(r.states[j], dev, token, now);
      (c.Some? <==> TokenOf(r.states[j], dev) == token) && (c.Some? ==> CapturedBy(c.value, r.ops[i], token))
    ensures var s := r.states[j];
      Snapshot(s, dev, 0, now) == if TokenOf(s, dev) == 0 then Some(now) else Snapshot(s, dev, TokenOf(s, dev), now)
  {
    hide Text.Trim, Apply;
    Always(r, j);
    IssuedIsNext(r, i, dev, token);
    if dev in r.states[j].contexts && TokenOf(r.states[j], dev) == token {
      var k := EntryOrigin(r, j, dev);
      IssuedIsNext(r, k, dev, token);
      if k < i { SeqRises(r, k + 1, i); } else if i < k { SeqRises(r, i + 1, k); }
    }
  }

  /** Step k of the run is a phase update that finds the device's entry. */
  predicate Marks(r: Run, k: nat, dev: string)
    requires IsRun(r)
  {
    && k < |r.ops| && r.ops[k].Mark? && Text.Trim(r.ops[k].dev) == dev && dev != "" && r.ops[k].phase != ""
    && (r.ops[k].token == 0 || TokenOf(r.states[k], dev) == r.ops[k].token)
  }

  predicate SetsGeneration(r: Run, k: nat, dev: string)
    requires IsRun(r)
  {
    && k < |r.ops| && r.ops[k].SetGeneration? && Text.Trim(r.ops[k].dev) == dev && dev != "" && r.ops[k].generation != 0
    && (r.ops[k].token == 0 || TokenOf(r.states[k], dev) == r.ops[k].token)
  }

  predicate Starts(r: Run, k: nat, dev: string)
    requires IsRun(r)
  {
    k < |r.ops| && r.ops[k].Begin? && r.ops[k].dev == dev
  }

  lemma PhaseMoves(r: Run, k: nat, dev: string)
    requires IsRun(r) && k < |r.ops| && dev in r.states[k + 1].contexts
    ensures var c := r.states[k + 1].contexts[dev];
      && (Starts(r, k, dev) ==> c.phase == "prepare" && c.phaseUpdatedAt == r.ops[k].now && c.identityGeneration == 0)
      && (!Starts(r, k, dev) ==> dev in r.states[k].contexts)
      && (Marks(r, k, dev) ==> c.phase == r.ops[k].phase && c.phaseUpdatedAt == r.ops[k].now)
      && (!Starts(r, k, dev) && !Marks(r, k, dev) ==>
            c.phase == r.states[k].contexts[dev].phase && c.phaseUpdatedAt == r.states[k].contexts[dev].phaseUpdatedAt)
      && (SetsGeneration(r, k, dev) ==> c.identityGeneration == r.ops[k].generation)
      && (!Starts(r, k, dev) && !SetsGeneration(r, k, dev) ==> c.identityGeneration == r.states[k].contexts[dev].identityGeneration)
  {
    hide Text.Trim;
    assert r.states[k + 1] == Apply(r.states[k], r.ops[k]);
  }

  /** The phase of an entry is that of the last update that found it, or that of its start. */
  lemma {:induction false} PhaseIsTheLast(r: Run, j: nat, dev: string) returns (k: nat)
    requires IsRun(r) && j < |r.states| && dev in r.states[j].contexts
    ensures k < j && (Starts(r, k, dev) || Marks(r, k, dev)) && forall m :: k < m < j ==> !Starts(r, m, dev) && !Marks(r, m, dev)
    ensures r.states[j].contexts[dev].phase == if Starts(r, k, dev) then "prepare" else r.ops[k].phase
    ensures r.states[j].contexts[dev].phaseUpdatedAt == r.ops[k].now
    decreases j
  {
    hide Apply, Text.Trim;
    PhaseMoves(r, j - 1, dev);
    if Starts(r, j - 1, dev) || Marks(r, j - 1, dev) { return j - 1; }
    k := PhaseIsTheLast(r, j - 1, dev);
  }

  /** Its generation is that of the last update since its start, and 0 before the first. */
  lemma {:induction false} GenerationIsTheLast(r: Run, j: nat, dev: string) returns (k: nat)
    requires IsRun(r) && j < |r.states| && dev in r.states[j].contexts
    ensures k < j && (Starts(r, k, dev) || SetsGeneration(r, k, dev))
    ensures forall m :: k < m < j ==> !Starts(r, m, dev) && !SetsGeneration(r, m, dev)
    ensures r.states[j].contexts[dev].identityGeneration == if Starts(r, k, dev) then 0 else r.ops[k].generation
    decreases j
  {
    hide Apply, Text.Trim;
    PhaseMoves(r, j - 1, dev);
    if Starts(r, j - 1, dev) || SetsGeneration(r, j - 1, dev) { return j - 1; }
    k := GenerationIsTheLast(r, j - 1, dev);
  }

  /** Exactly these operations end a switch: a clean-up or a failure under its token, a clean-up of its
      device, and the time-out of its capture; the start of another replaces it. */
  lemma EntryEndsExactly(s: Tables, op: Op, dev: string)
    requires Inv(s) && dev in s.contexts
    ensures var n, c := Apply(s, op), s.contexts[dev];
      && (dev !in n.contexts <==>
            || op == ClearIf(dev, c.token) || op == Fail(dev, c.token) || op == Clear(dev) || op == TimeOut(dev, c.capturedAt))
      && (dev in n.contexts && n.contexts[dev].token != c.token <==> op.Begin? && op.dev == dev)
  {
    hide Text.Trim;
  }

  /** With distinct capture times per device, the two-minute timeout of a switch acts at any later
      moment exactly while that very switch is the device's current one: it never ends a newer one. */
  lemma TimeoutHitsItsOwnSwitch(r: Run, i: nat, j: nat, dev: string)
    requires IsRun(r) && i < j < |r.states| && r.ops[i].Begin? && r.ops[i].dev == dev
    requires forall k :: 0 <= k < j && k != i && r.ops[k].Begin? && r.ops[k].dev == dev ==> r.ops[k].capturedAt != r.ops[i].capturedAt
    ensures Apply(r.states[j], TimeOut(dev, r.ops[i].capturedAt)) != r.states[j] <==>
      TokenOf(r.states[j], dev) == r.states[i + 1].switchSeq
  {
    Always(r, j);
    var s := r.states[j];
    IssuedIsNext(r, i, dev, r.states[i + 1].switchSeq);
    if dev in s.contexts {
      var k := EntryOrigin(r, j, dev);
      IssuedIsNext(r, k, dev, s.contexts[dev].token);
      if k < i { SeqRises(r, k + 1, i); } else if i < k { SeqRises(r, i + 1, k); }
      assert dev !in Drop(s, dev).contexts;
    }
  }

  // ---- Failure without a token

  /** The second critical section of a token-less failure, given what the first one found. */
  function FailSecond(s: Tables, dev: string, found: Option<Context>): Tables {
    if found.Some? && found.value.token != 0 then Apply(s, ClearIf(dev, found.value.token)) else Apply(s, Clear(dev))
  }

  /** Between the two sections a new switch may begin. It survives exactly when the first section
      found a switch: otherwise the clean-up clears whatever is there by then. */
  lemma TokenlessFailureSpares(s: Tables, dev: string, begin: Op)
    requires Inv(s) && begin.Begin? && begin.dev == dev
    ensures var found := if dev in s.contexts then Some(s.contexts[dev]) else None;
      var n := Apply(s, begin);
      FailSecond(n, dev, found) == n <==> dev in s.contexts
  {
    hide Text.Trim;
    var n := Apply(s, begin);
    assert dev in s.contexts ==> n.tokens[dev] != s.contexts[dev].token;
    assert dev in n.contexts && dev !in Drop(n, dev).contexts;
  }

  lemma BeginSets(s: Tables, op: Op)
    requires op.Begin?
    ensures var n := Apply(s, op);
      && n.switchSeq == s.switchSeq + 1 && op.dev in n.contexts
      && n.contexts[op.dev].token == n.switchSeq && n.contexts[op.dev].phase == PREPARE
  {
    hide Text.Trim;
  }

  // ---- The tables as an object

  class SwitchBoard {
    var switchSeq: nat
    var switchingDevices: set<string>
    var switchContexts: map<string, Context>
    var switchTokens: map<string, nat>

    function Abs(): Tables
      reads this
    {
      Tables(switchSeq, switchingDevices, switchContexts, switchTokens)
    }

    constructor ()
      ensures Abs() == EMPTY
    {
      switchSeq, switchingDevices, switchContexts, switchTokens := 0, {}, map[], map[];
    }

    method Forget(dev: string)
      modifies this
      ensures Abs() == Drop(old(Abs()), dev)
    {
      switchContexts := switchContexts - {dev};
      switchingDevices := switchingDevices - {dev};
      switchTokens := switchTokens - {dev};
    }

    method BeginSwitch(dev: string, before: Before, target: string, capturedAt: int, now: int) returns (c: Context)
      requires Inv(Abs())
      modifies this
      ensures Inv(Abs()) && Abs() == Apply(old(Abs()), Begin(dev, before, target, capturedAt, now))
      ensures c == switchContexts[dev] && c.token == switchSeq
      ensures c.before == before && c.target == Text.Trim(target) && c.capturedAt == capturedAt && c.phase == "prepare"
    {
      hide Inv, Text.Trim;
      ApplyKeeps(Abs(), Begin(dev, before, target, capturedAt, now));
      switchSeq := switchSeq + 1;
      c := Context(before, Text.Trim(target), switchSeq, 0, capturedAt, PREPARE, now);
      switchingDevices := switchingDevices + {dev};
      switchContexts := switchContexts[dev := c];
      switchTokens := switchTokens[dev := c.token];
    }

    method MarkPhaseIfToken(name: string, token: nat, phase: Phase, now: int) returns (found: bool)
      requires Inv(Abs())
      modifies this
      ensures Inv(Abs()) && Abs() == Apply(old(Abs()), Mark(name, token, phase, now))
      ensures found == MarkFound(old(Abs()), name, token, phase)
    {
      hide Inv, Text.Trim;
      ApplyKeeps(Abs(), Mark(name, token, phase, now));
      var dev := Text.Trim(name);
      if dev == "" || phase == "" { return false; }
      var current := if dev in switchTokens then switchTokens[dev] else 0;
      if token != 0 && current != token { return false; }
      found := dev in switchContexts;
      if found {
        switchContexts := switchContexts[dev := switchContexts[dev].(phase := phase, phaseUpdatedAt := now)];
      }
    }

    method UpdateIdentityGeneration(name: string, token: nat, generation: nat)
      requires Inv(Abs())
      modifies this
      ensures Inv(Abs()) && Abs() == Apply(old(Abs()), SetGeneration(name, token, generation))
    {
      hide Inv, Text.Trim;
      ApplyKeeps(Abs(), SetGeneration(name, token, generation));
      var dev := Text.Trim(name);
      if dev == "" || generation == 0 { return; }
      var current := if dev in switchTokens then switchTokens[dev] else 0;
      if token != 0 && current != token { return; }
      if dev in switchContexts {
        switchContexts := switchContexts[dev := switchContexts[dev].(identityGeneration := generation)];
      }
    }

    method ClearIfToken(dev: string, token: nat)
      requires Inv(Abs())
      modifies this
      ensures Inv(Abs()) && Abs() == Apply(old(Abs()), ClearIf(dev, token))
    {
      hide Inv, Text.Trim;
      ApplyKeeps(Abs(), ClearIf(dev, token));
      if token == 0 { return; }
      if dev !in switchTokens || switchTokens[dev] != token { return; }
      Forget(dev);
    }

    /** The end of a failed switch. With token 0 it ends whatever switch there is, looking in one
        section and clearing in the next; captured is the state to restore where there is none. */
    method FinishForFailure(dev: string, token: nat, captured: Context) returns (c: Option<Context>)
      requires Inv(Abs())
      modifies this
      ensures Inv(Abs())
      ensures token != 0 ==> Abs() == Apply(old(Abs()), Fail(dev, token))
      ensures token == 0 ==> Abs() == Drop(old(Abs()), dev)
      ensures c == Snapshot(old(Abs()), dev, token, captured)
    {
      hide Text.Trim;
      if token == 0 {
        DropKeeps(Abs(), dev);
        var found := dev in switchContexts;
        c := Some(captured);
        if found { c := Some(switchContexts[dev]); }
        if found && c.value.token != 0 {
          ClearIfToken(dev, c.value.token);
        } else {
          Forget(dev);
        }
        return c;
      }
      ApplyKeeps(Abs(), Fail(dev, token));
      var current := if dev in switchTokens then switchTokens[dev] else 0;
      if current != token { return None; }
      if dev !in switchContexts { return None; }
      c := Some(switchContexts[dev]);
      Forget(dev);
    }

    method TimeoutFires(dev: string, capturedAt: int)
      requires Inv(Abs())
      modifies this
      ensures Inv(Abs()) && Abs() == Apply(old(Abs()), TimeOut(dev, capturedAt))
    {
      hide Inv, Text.Trim;
      ApplyKeeps(Abs(), TimeOut(dev, capturedAt));
      if dev !in switchContexts || switchContexts[dev].capturedAt != capturedAt { return; }
      Forget(dev);
    }

    /** The snapshot a finaliser works from; nothing when its token has been superseded. With token 0
        it is whatever switch there is, or else the state captured now. */
    method ResolveIfToken(dev: string, token: nat, captured: Context) returns (c: Option<Context>)
      requires Inv(Abs())
      ensures c == Snapshot(Abs(), dev, token, captured)
      ensures token != 0 && c.Some? ==> c.value.token == token
    {
      if token == 0 {
        return Some(if dev in switchContexts then switchContexts[dev] else captured);
      }
      var current := if dev in switchTokens then switchTokens[dev] else 0;
      if current != token || dev !in switchContexts { return None; }
      return Some(switchContexts[dev]);
    }
  }
}
