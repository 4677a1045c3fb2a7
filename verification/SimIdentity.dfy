/** A worker's SIM identity: the phase, target and generation that a card switch moves through, and
    the two writers that may publish an ICCID and IMSI while it does. */
module SimIdentity {
  import opened Text

  // ---- Comparing ICCIDs

  function DropSpaces(s: string): string {
    if s == "" then ""
    else if s[0] == ' ' then DropSpaces(s[1..])
    else [s[0]] + DropSpaces(s[1..])
  }

  /** Card identities are padded to whole bytes with a trailing F. */
  function DropPadding(s: string): string {
    if s == "" || s[|s| - 1] != 'F' then s else DropPadding(s[..|s| - 1])
  }

  lemma {:induction false} PaddingIsDropped(s: string)
    ensures var r := DropPadding(s); r <= s && AllPadding(s[|r|..]) && (r == "" || r[|r| - 1] != 'F')
  {
    if s != "" && s[|s| - 1] == 'F' {
      PaddingIsDropped(s[..|s| - 1]);
      var r := DropPadding(s);
      assert s[|r|..] == s[..|s| - 1][|r|..] + [s[|s| - 1]];
    }
  }

  predicate AllPadding(s: string) { forall i :: 0 <= i < |s| ==> s[i] == 'F' }

  function Unpadded(v: string): string { DropSpaces(ToUpper(Trim(v))) }

  function Key(v: string): string { DropPadding(Unpadded(v)) }

  /** One is the other with more trailing padding. */
  predicate SameButPadding(x: string, y: string) {
    (x <= y && AllPadding(y[|x|..])) || (y <= x && AllPadding(x[|y|..]))
  }

  lemma {:induction false} PaddingIsIrrelevant(x: string, y: string)
    requires x <= y && AllPadding(y[|x|..])
    ensures DropPadding(x) == DropPadding(y)
    decreases |y|
  {
    if |x| < |y| {
      var z := y[..|y| - 1];
      assert y[|y| - 1] == y[|x|..][|y| - 1 - |x|] == 'F';
      assert z[|x|..] == y[|x|..][..|z| - |x|];
      PaddingIsIrrelevant(x, z);
    } else {
      assert x == y;
    }
  }

  lemma PaddedTail(x: string, y: string)
    requires DropPadding(x) == DropPadding(y) && |x| <= |y|
    ensures x <= y && AllPadding(y[|x|..])
  {
    PaddingIsDropped(x);
    PaddingIsDropped(y);
    var k := DropPadding(x);
    hide DropPadding;
    forall i | 0 <= i < |x| ensures x[i] == y[i] {
      if i >= |k| { assert x[i] == x[|k|..][i - |k|] && y[i] == y[|k|..][i - |k|]; }
    }
    forall i | 0 <= i < |y| - |x| ensures y[|x|..][i] == 'F' {
      assert y[|x|..][i] == y[|k|..][i + |x| - |k|];
    }
  }

  /** Two identities have the same comparison key exactly when they differ in padding only. */
  lemma SameKey(a: string, b: string)
    ensures Key(a) == Key(b) <==> SameButPadding(Unpadded(a), Unpadded(b))
  {
    var x, y := Unpadded(a), Unpadded(b);
    hide Unpadded, DropPadding;
    if Key(a) == Key(b) {
      if |x| <= |y| { PaddedTail(x, y); } else { PaddedTail(y, x); }
    } else if x <= y && AllPadding(y[|x|..]) {
      PaddingIsIrrelevant(x, y);
    } else if y <= x && AllPadding(x[|y|..]) {
      PaddingIsIrrelevant(y, x);
    }
  }

  predicate Increasing(at: seq<nat>, n: nat) {
    (forall k :: 0 <= k < |at| ==> at[k] < n) && forall k, l :: 0 <= k < l < |at| ==> at[k] < at[l]
  }

  lemma {:induction false} DropSpacesAppend(s: string, c: char)
    ensures DropSpaces(s + [c]) == DropSpaces(s) + (if c == ' ' then "" else [c])
  {
    if s == "" {
      assert s + [c] == [c] && [c][1..] == "";
    } else {
      assert (s + [c])[1..] == s[1..] + [c];
      DropSpacesAppend(s[1..], c);
    }
  }

  predicate PicksNonBlanks(at: seq<nat>, s: string, r: string) {
    && Increasing(at, |s|) && |r| == |at|
    && (forall i :: 0 <= i < |s| ==> (i in at <==> s[i] != ' '))
    && forall k :: 0 <= k < |at| ==> r[k] == s[at[k]]
  }

  lemma PicksMore(at: seq<nat>, s: string, r: string, c: char)
    requires PicksNonBlanks(at, s, r)
    ensures c == ' ' ==> PicksNonBlanks(at, s + [c], r)
    ensures c != ' ' ==> PicksNonBlanks(at + [|s|], s + [c], r + [c])
  {
    var t := s + [c];
    assert forall i :: 0 <= i < |s| ==> t[i] == s[i];
    assert forall k :: 0 <= k < |at| ==> at[k] < |s|;
    assert |s| !in at;
    if c != ' ' {
      var more := at + [|s|];
      forall i | 0 <= i < |t| ensures i in more <==> t[i] != ' ' {
        assert i in more <==> i in at || i == |s|;
      }
    }
  }

  lemma {:induction false} DropSpacesExactly(s: string) returns (at: seq<nat>)
    ensures PicksNonBlanks(at, s, DropSpaces(s))
  {
    if s == "" { return []; }
    hide PicksNonBlanks, DropSpaces;
    var n := |s| - 1;
    at := DropSpacesExactly(s[..n]);
    assert s[..n] + [s[n]] == s;
    DropSpacesAppend(s[..n], s[n]);
    PicksMore(at, s[..n], DropSpaces(s[..n]), s[n]);
    if s[n] != ' ' { at := at + [n]; } else { assert DropSpaces(s[..n]) + "" == DropSpaces(s[..n]); }
  }

  /** What is compared is the upper case of the trimmed text's characters other than the blank, in order
      and none missing: at says where each comes from. */
  lemma UnpaddedExactly(v: string) returns (at: seq<nat>)
    ensures Increasing(at, |Trim(v)|) && |Unpadded(v)| == |at|
    ensures forall i :: 0 <= i < |Trim(v)| ==> (i in at <==> Trim(v)[i] != ' ')
    ensures forall k :: 0 <= k < |at| ==> Unpadded(v)[k] == UpperChar(Trim(v)[at[k]])
  {
    at := DropSpacesExactly(ToUpper(Trim(v)));
    hide DropSpaces, Trim;
  }

  /** No space and no lower case: as a modem prints an ICCID. */
  predicate Plain(v: string) { forall i :: 0 <= i < |v| ==> !IsSpace(v[i]) && UpperChar(v[i]) == v[i] }

  lemma PlainIsUnpadded(v: string)
    requires Plain(v)
    ensures Unpadded(v) == v
  {
    TrimLeaves(v);
    assert ToUpper(v) == v;
    NoSpaces(v);
  }

  lemma {:induction false} NoSpaces(s: string)
    requires forall i :: 0 <= i < |s| ==> s[i] != ' '
    ensures DropSpaces(s) == s
  {
    if s != "" {
      assert forall i :: 0 <= i < |s[1..]| ==> s[1..][i] == s[i + 1];
      NoSpaces(s[1..]);
    }
  }

  /** Plain texts have the same key exactly when they differ in trailing F only; one that does not end in
      F is its own key, so without padding they must be equal. */
  lemma SamePlainKey(a: string, b: string)
    requires Plain(a) && Plain(b)
    ensures Key(a) == Key(b) <==> SameButPadding(a, b)
    ensures a == "" || a[|a| - 1] != 'F' ==> Key(a) == a
    ensures (a == "" || a[|a| - 1] != 'F') && (b == "" || b[|b| - 1] != 'F') ==> (Key(a) == Key(b) <==> a == b)
  {
    PlainIsUnpadded(a);
    PlainIsUnpadded(b);
    SameKey(a, b);
    hide Unpadded, Plain;
  }

  lemma KeyOfTrimmed(v: string)
    ensures Key(Trim(v)) == Key(v)
  {
    TrimIdempotent(v);
  }

  // ---- The identity and its critical sections

  datatype Phase = Unset | Ready | Transitioning | Degraded

  datatype Identity = Identity(iccid: string, imsi: string, ready: bool, phase: Phase, target: string, generation: nat)

  const FRESH := Identity("", "", false, Unset, "", 0)

  /** A value read from the card, or an error; Go hands back a string either way. */
  datatype Reading = Reading(text: string, ok: bool)

  /** One critical section on the identity. */
  datatype Op =
    | Begin(target: string)
    | Ensure(target: string)
    | Degrade
    /** A live refresh: what it read, empty where a read failed, and whether it read anything else. */
    | Live(iccid: string, imsi: string, more: bool)
    /** The post-switch finaliser that was started for target own, with its last readings. */
    | Final(own: string, newIccid: Reading, newImsi: Reading)

  predicate Switching(s: Identity) { s.phase.Transitioning? || s.phase.Degraded? }

  /** Whether the operation starts a new transition. */
  predicate Starts(s: Identity, op: Op) {
    op.Begin? || (op.Ensure? && !(Switching(s) && Trim(s.target) == Trim(op.target)))
  }

  function Started(s: Identity, target: string): Identity {
    Identity("", "", false, Transitioning, Trim(target), s.generation + 1)
  }

  function Degrading(s: Identity): Identity { s.(ready := false, phase := Degraded) }

  /** The target a refresh has to honour; "" when it is free to publish anything. */
  function Demanded(s: Identity): string { if Switching(s) then Key(s.target) else "" }

  function Publish(s: Identity, iccid: string, imsi: string): Identity {
    s.(iccid := if iccid != "" then iccid else s.iccid, imsi := if imsi != "" then imsi else s.imsi,
       ready := true, phase := Ready, target := "")
  }

  /** The write section of the finaliser; it looks at neither the pending target nor the generation. */
  function Write(s: Identity, newIccid: Reading, newImsi: Reading): Identity {
    var iccid := if newIccid.ok then Trim(newIccid.text) else s.iccid;
    var imsi := if newImsi.ok then Trim(newImsi.text) else s.imsi;
    var ready := if newIccid.ok || newImsi.ok then Trim(iccid) != "" || Trim(imsi) != "" else s.ready;
    var n := s.(iccid := iccid, imsi := imsi, ready := ready);
    if ready then n.(phase := Ready, target := "") else n
  }

  predicate Rejects(own: string, newIccid: Reading) { Key(own) != "" && Key(newIccid.text) != Key(own) }

  function Apply(s: Identity, op: Op): Identity {
    match op
    case Begin(target) => Started(s, target)
    case Ensure(target) => if Starts(s, op) then Started(s, target) else s
    case Degrade => Degrading(s)
    case Live(iccid, imsi, more) =>
      if Trim(iccid) == "" && Trim(imsi) == "" && !more then s
      else if Demanded(s) != "" && Key(iccid) != Demanded(s) then s
      else Publish(s, Trim(iccid), Trim(imsi))
    case Final(own, newIccid, newImsi) =>
      if Rejects(own, newIccid) then Degrading(s) else Write(s, newIccid, newImsi)
  }

  /** While a target is pending nothing of any card is published. */
  predicate Inv(s: Identity) {
    && Trim(s.target) == s.target && Trim(s.iccid) == s.iccid && Trim(s.imsi) == s.imsi
    && (s.target != "" ==> s.iccid == "" && s.imsi == "" && !s.ready && Switching(s))
    && (s.ready ==> s.phase.Ready?)
  }

  lemma TrimsAgain(v: string)
    ensures Trim(Trim(v)) == Trim(v) && Trim("") == ""
  {
    TrimIdempotent(v);
  }

  lemma ApplyKeeps(s: Identity, op: Op)
    requires Inv(s)
    ensures Inv(Apply(s, op))
  {
    hide Trim, Key;
    match op
    case Begin(target) => TrimsAgain(target);
    case Ensure(target) => TrimsAgain(target);
    case Degrade =>
    case Live(iccid, imsi, _) =>
      TrimsAgain(iccid);
      TrimsAgain(imsi);
    case Final(_, newIccid, newImsi) =>
      TrimsAgain(newIccid.text);
      TrimsAgain(newImsi.text);
  }

  // ---- Runs

  datatype Run = Run(states: seq<Identity>, ops: seq<Op>)

  predicate IsRun(r: Run) {
    && |r.states| == |r.ops| + 1 && r.states[0] == FRESH
    && forall i :: 0 <= i < |r.ops| ==> r.states[i + 1] == Apply(r.states[i], r.ops[i])
  }

  /** In every reachable state, while a target is pending no ICCID or IMSI is published and the
      identity is not ready. */
  lemma {:induction false} Always(r: Run, n: nat)
    requires IsRun(r) && n < |r.states|
    ensures Inv(r.states[n])
  {
    hide Trim, Key, Apply;
    if n == 0 {
      TrimsAgain("");
    } else {
      Always(r, n - 1);
      ApplyKeeps(r.states[n - 1], r.ops[n - 1]);
    }
  }

  /** How many transitions the events i to j - 1 start. */
  function StartsBetween(r: Run, i: nat, j: nat): nat
    requires IsRun(r) && i <= j < |r.states|
  {
    if i == j then 0
    else StartsBetween(r, i, j - 1) + (if Starts(r.states[j - 1], r.ops[j - 1]) then 1 else 0)
  }

  /** The generation counts the transitions: it never falls, and it rises by one with each new one
      and with nothing else. */
  lemma {:induction false} GenerationCounts(r: Run, i: nat, j: nat)
    requires IsRun(r) && i <= j < |r.states|
    ensures r.states[j].generation == r.states[i].generation + StartsBetween(r, i, j)
    decreases j
  {
    hide Trim, Key;
    if i < j {
      GenerationCounts(r, i, j - 1);
      assert r.states[j] == Apply(r.states[j - 1], r.ops[j - 1]);
    }
  }

  // ---- What a live refresh may publish

  /** With a target pending, a live refresh makes the identity ready exactly when the ICCID it read is
      the target's, up to padding; it then publishes that ICCID, and otherwise nothing changes. */
  lemma LiveHonoursTheTarget(s: Identity, iccid: string, imsi: string, more: bool)
    requires Inv(s) && Key(s.target) != ""
    ensures var n := Apply(s, Live(iccid, imsi, more));
      && (n.phase.Ready? <==> Key(iccid) == Key(s.target))
      && (n.phase.Ready? ==> n.ready && n.target == "" && n.iccid == Trim(iccid) && n.iccid != "" && n.imsi == Trim(imsi))
      && (!n.phase.Ready? ==> n == s)
  {
    EmptyKey();
    KeyOfTrimmed(iccid);
    hide Trim, Key;
  }

  /** With no target pending a live refresh that read anything makes the identity ready, with what it read
      in place of what was known; one that read nothing changes nothing. */
  lemma LiveIsFreeOtherwise(s: Identity, iccid: string, imsi: string, more: bool)
    requires Inv(s) && (Key(s.target) == "" || !Switching(s))
    ensures var n := Apply(s, Live(iccid, imsi, more));
      if Trim(iccid) != "" || Trim(imsi) != "" || more then
        && n.ready && n.phase.Ready? && n.target == "" && n.generation == s.generation
        && n.iccid == (if Trim(iccid) != "" then Trim(iccid) else s.iccid)
        && n.imsi == if Trim(imsi) != "" then Trim(imsi) else s.imsi
      else n == s
  {
    hide Trim, Key;
  }

  lemma EmptyKey()
    ensures Key("") == ""
  {
    assert Trim("") == "" && ToUpper("") == "";
  }

  // ---- What the finaliser may publish

  /** Whatever the finaliser's own target and its readings: it degrades the identity if it has a target
      and another ICCID answers. Otherwise any value it read makes the identity ready and ends the
      switch, and the card it publishes is the pending target's exactly when it read that ICCID. */
  lemma FinaliserPublishes(s: Identity, own: string, newIccid: Reading, newImsi: Reading)
    requires Inv(s) && Key(s.target) != ""
    ensures var n := Apply(s, Final(own, newIccid, newImsi));
      if Rejects(own, newIccid) then n == Degrading(s)
      else
        && (n.phase.Ready? <==> (newIccid.ok && Trim(newIccid.text) != "") || (newImsi.ok && Trim(newImsi.text) != ""))
        && (n.phase.Ready? ==> n.ready && n.target == "")
        && (n.iccid != "" <==> newIccid.ok && Trim(newIccid.text) != "")
        && (Key(n.iccid) == Key(s.target) <==> newIccid.ok && Key(newIccid.text) == Key(s.target))
  {
    EmptyKey();
    KeyOfTrimmed(newIccid.text);
    TrimsAgain(newIccid.text);
    TrimsAgain(newImsi.text);
    hide Trim, Key;
  }

  /** Whatever it reads, the finaliser publishes no ICCID but the pending target's. */
  ghost predicate PublishesOnlyTheTarget(s: Identity, own: string) {
    forall a: Reading, b: Reading :: PublishesTarget(s, Final(own, a, b))
  }

  predicate PublishesTarget(s: Identity, op: Op) {
    Apply(s, op).iccid != "" ==> Key(Apply(s, op).iccid) == Key(s.target)
  }

  /** The finaliser can be trusted with every reading exactly when the pending target is its own, up to
      padding. A finaliser without a target never can. */
  lemma FinaliserIsSafeExactly(s: Identity, own: string)
    requires Inv(s) && Key(s.target) != ""
    ensures PublishesOnlyTheTarget(s, own) <==> Key(own) == Key(s.target)
  {
    if Key(own) == Key(s.target) {
      forall a: Reading, b: Reading ensures PublishesTarget(s, Final(own, a, b)) {
        FinaliserPublishes(s, own, a, b);
      }
    } else {
      var other := OtherCard(own, s.target);
      var a := Reading(other, true);
      FinaliserPublishes(s, own, a, a);
      EmptyKey();
      hide Trim, Key;
      assert Trim(other) != "" by { KeyOfTrimmed(other); }
      assert !PublishesTarget(s, Final(own, a, a));
    }
  }

  /** A card that a finaliser for own would publish, and that is not the target. */
  lemma OtherCard(own: string, target: string) returns (other: string)
    requires Key(own) != Key(target) && Key(target) != ""
    ensures Key(other) != "" && Key(other) != Key(target) && !Rejects(own, Reading(other, true))
  {
    if Key(own) != "" {
      other := own;
    } else {
      OneDigitKey('0');
      OneDigitKey('1');
      hide Key;
      other := if Key(target) == "0" then "1" else "0";
    }
  }

  lemma OneDigitKey(c: char)
    requires c == '0' || c == '1'
    ensures Key([c]) == [c]
  {
    assert [c][1..] == "" && [c][..0] == "";
    assert TrimLeft([c]) == [c] && TrimRight([c]) == [c];
    assert ToUpper([c]) == [c];
    assert DropSpaces([c]) == [c];
  }

  /** A switch to one card, its finaliser, a second switch to another card, and then the write of the
      first finaliser: the identity ends ready, on the first card, and the second target is forgotten. */
  lemma StaleFinaliserPublishesOldCard(first: string, second: string, imsi: Reading) returns (r: Run)
    requires Key(first) != "" && Key(second) != "" && Key(first) != Key(second)
    ensures IsRun(r) && |r.ops| == 4
    ensures r.ops == [Begin(first), Ensure(first), Begin(second), Final(first, Reading(first, true), imsi)]
    ensures r.states[3].target == Trim(second) && r.states[3].generation == 2
    ensures var n := r.states[4];
      n.ready && n.phase.Ready? && n.target == "" && n.generation == 2 && n.iccid == Trim(first) && Key(n.iccid) != Key(second)
  {
    EmptyKey();
    TrimsAgain(first);
    KeyOfTrimmed(first);
    hide Trim, Key;
    r := FourSteps(Begin(first), Ensure(first), Begin(second), Final(first, Reading(first, true), imsi));
  }

  /** The end of a profile that was only disabled has no target: when a switch to a card has begun in
      between, its finaliser publishes whatever answers, and the target is forgotten. */
  lemma TargetlessFinaliserPublishesAnyCard(first: string, second: string, imsi: Reading) returns (r: Run)
    requires Trim(first) != "" && Key(second) != "" && Key(first) != Key(second)
    ensures IsRun(r) && r.ops == [Begin(""), Ensure(""), Begin(second), Final("", Reading(first, true), imsi)]
    ensures r.states[3].target == Trim(second)
    ensures var n := r.states[4]; n.ready && n.phase.Ready? && n.target == "" && n.iccid == Trim(first) && Key(n.iccid) != Key(second)
  {
    EmptyKey();
    TrimsAgain(first);
    KeyOfTrimmed(first);
    hide Trim, Key;
    r := FourSteps(Begin(""), Ensure(""), Begin(second), Final("", Reading(first, true), imsi));
  }

  /** ... and where its ICCID read fails, an IMSI alone ends the switch: ready, with no ICCID at all. */
  lemma FailedReadForgetsTarget(second: string, imsi: string) returns (r: Run)
    requires Key(second) != "" && Trim(imsi) != ""
    ensures IsRun(r) && r.ops == [Begin(""), Ensure(""), Begin(second), Final("", Reading("", false), Reading(imsi, true))]
    ensures r.states[3].target == Trim(second)
    ensures var n := r.states[4]; n.ready && n.phase.Ready? && n.target == "" && n.iccid == "" && n.imsi == Trim(imsi)
  {
    EmptyKey();
    TrimsAgain(imsi);
    hide Trim, Key;
    r := FourSteps(Begin(""), Ensure(""), Begin(second), Final("", Reading("", false), Reading(imsi, true)));
  }

  lemma FourSteps(a: Op, b: Op, c: Op, d: Op) returns (r: Run)
    ensures IsRun(r) && r.ops == [a, b, c, d]
    ensures r.states[3] == Apply(Apply(Apply(FRESH, a), b), c) && r.states[4] == Apply(r.states[3], d)
  {
    hide Apply;
    var s1 := Apply(FRESH, a);
    var s2 := Apply(s1, b);
    var s3 := Apply(s2, c);
    r := Run([FRESH, s1, s2, s3, Apply(s3, d)], [a, b, c, d]);
  }

  /** A finaliser of another target than the pending one. */
  predicate Foreign(s: Identity, op: Op) { op.Final? && Key(op.own) != Key(s.target) }

  /** From the start of a transition to a target, the first ICCID that is published is the target's,
      up to padding, unless the publisher is the finaliser of another target. */
  lemma {:induction false} FirstPublication(r: Run, i: nat, j: nat)
    requires IsRun(r) && i < j < |r.states| && Starts(r.states[i], r.ops[i]) && Key(r.states[i + 1].target) != ""
    requires forall k :: i < k < j ==> !Starts(r.states[k], r.ops[k]) && !Foreign(r.states[k], r.ops[k])
    requires forall k :: i < k < j ==> r.states[k].iccid == "" && !r.states[k].ready
    requires r.states[j].iccid != ""
    ensures Key(r.states[j].iccid) == Key(r.states[i + 1].target)
  {
    hide Trim, Key, Inv;
    if i + 1 < j {
      TargetStays(r, i, j - 1);
    } else {
      NothingAtTheStart(r, i);
    }
    Always(r, j - 1);
    PublicationIsTheTarget(r.states[j - 1], r.ops[j - 1]);
  }

  lemma NothingAtTheStart(r: Run, i: nat)
    requires IsRun(r) && i < |r.ops| && Starts(r.states[i], r.ops[i])
    ensures r.states[i + 1].iccid == "" && !r.states[i + 1].ready
  {
    hide Trim, Key;
    assert r.states[i + 1] == Apply(r.states[i], r.ops[i]);
  }

  /** Until something is published, the target stays as the transition set it. */
  lemma {:induction false} TargetStays(r: Run, i: nat, j: nat)
    requires IsRun(r) && i < j < |r.states| && Starts(r.states[i], r.ops[i])
    requires forall k :: i < k < j ==> !Starts(r.states[k], r.ops[k])
    requires forall k :: i < k <= j ==> r.states[k].iccid == "" && !r.states[k].ready
    ensures r.states[j].target == r.states[i + 1].target
    decreases j
  {
    hide Trim, Key, Inv;
    if i + 1 < j {
      TargetStays(r, i, j - 1);
      assert r.states[j] == Apply(r.states[j - 1], r.ops[j - 1]);
    }
  }

  lemma WritePublishes(s: Identity, newIccid: Reading, newImsi: Reading)
    requires Inv(s) && s.iccid == "" && Write(s, newIccid, newImsi).iccid != ""
    ensures Write(s, newIccid, newImsi).iccid == Trim(newIccid.text)
  {
    hide Trim;
  }

  lemma PublicationIsTheTarget(s: Identity, op: Op)
    requires Inv(s) && !Starts(s, op) && !Foreign(s, op) && Key(s.target) != "" && Apply(s, op).iccid != ""
    ensures Key(Apply(s, op).iccid) == Key(s.target)
  {
    hide Trim, Key, Write;
    EmptyKey();
    assert s.target != "" && s.iccid == "";
    if op.Live? {
      LiveHonoursTheTarget(s, op.iccid, op.imsi, op.more);
      KeyOfTrimmed(op.iccid);
    } else if op.Final? {
      KeyOfTrimmed(op.newIccid.text);
      WritePublishes(s, op.newIccid, op.newImsi);
    }
  }

  // ---- What others see of it

  function CurrentICCID(s: Identity): string { if s.target != "" then s.target else s.iccid }

  /** From the start of a transition until something is published or the next one starts, the current
      ICCID is the new target or nothing, never the card that is being replaced. */
  lemma {:induction false} OldCardIsGone(r: Run, i: nat, j: nat)
    requires IsRun(r) && i < j < |r.states| && Starts(r.states[i], r.ops[i])
    requires forall k :: i < k < j ==> !Starts(r.states[k], r.ops[k])
    requires forall k :: i < k <= j ==> r.states[k].iccid == "" && !r.states[k].ready
    ensures CurrentICCID(r.states[j]) == Trim(r.ops[i].target)
  {
    hide Trim, Key;
    TargetStays(r, i, j);
    assert r.states[i + 1] == Apply(r.states[i], r.ops[i]);
  }

  /** Whether a refresh scheduled for a target and generation should still run. */
  predicate ConvergenceMatches(s: Identity, target: string, generation: nat) {
    && (generation == 0 || s.generation == generation)
    && !s.phase.Ready?
    && (if Key(s.target) != "" || Key(target) != "" then Key(s.target) == Key(target)
        else Switching(s) || !s.ready)
  }

  /** A scheduled refresh is still wanted exactly if its transition, where it names one, is the newest, the
      identity is not ready, and what is pending is its target; without one, if nothing is pending. */
  lemma MatchesExactly(s: Identity, target: string, generation: nat)
    requires Inv(s)
    ensures ConvergenceMatches(s, target, generation) <==>
      (generation == 0 || generation == s.generation) && s.phase != Ready && Key(s.target) == Key(target)
  {
    hide Trim, Key;
  }

  /** A refresh that was scheduled for a transition runs exactly while that transition is the newest and
      its target is still pending. */
  lemma ScheduledRefreshRuns(r: Run, i: nat, j: nat)
    requires IsRun(r) && i < j < |r.states| && Starts(r.states[i], r.ops[i]) && Key(r.ops[i].target) != ""
    ensures ConvergenceMatches(r.states[j], r.ops[i].target, r.states[i + 1].generation) <==>
      StartsBetween(r, i + 1, j) == 0 && r.states[j].target == r.states[i + 1].target
  {
    hide Trim, Key, Inv;
    GenerationCounts(r, i + 1, j);
    GenerationCounts(r, 0, i + 1);
    Always(r, j);
    if StartsBetween(r, i + 1, j) == 0 {
      TargetOnlyLeaves(r, i, j);
      PendingMatches(r.states[j], r.ops[i].target);
    }
  }

  lemma PendingMatches(s: Identity, target: string)
    requires Inv(s) && Key(target) != "" && (s.target == Trim(target) || s.target == "")
    ensures !s.phase.Ready? && Key(s.target) == Key(target) <==> s.target == Trim(target)
  {
    EmptyKey();
    KeyOfTrimmed(target);
    hide Trim, Key;
  }

  /** With no new transition a target can only be given up. */
  lemma {:induction false} TargetOnlyLeaves(r: Run, i: nat, j: nat)
    requires IsRun(r) && i < j < |r.states| && Starts(r.states[i], r.ops[i]) && StartsBetween(r, i + 1, j) == 0
    ensures r.states[i + 1].target == Trim(r.ops[i].target)
    ensures r.states[j].target == r.states[i + 1].target || r.states[j].target == ""
    decreases j
  {
    hide Trim, Key, Inv;
    assert r.states[i + 1] == Apply(r.states[i], r.ops[i]);
    if i + 1 < j {
      TargetOnlyLeaves(r, i, j - 1);
      assert r.states[j] == Apply(r.states[j - 1], r.ops[j - 1]);
    }
  }

  // ---- The finaliser's poll loop

  /** What one round of the loop reads from the card. */
  datatype Round = Round(iccid: Reading, imsi: Reading)

  /** The loop may stop: the target's ICCID is active and its IMSI was read; or there is no target, and
      there was no card before or a different one answers. */
  predicate Settled(own: string, before: string, r: Round) {
    if Key(own) != "" then Key(r.iccid.text) == Key(own) && Trim(r.imsi.text) != "" && r.imsi.ok
    else Key(before) == "" || (Key(r.iccid.text) != "" && Key(r.iccid.text) != Key(before))
  }

  /** For ICCIDs as a modem prints them: with a target the loop is done when that very ICCID answers and an
      IMSI was read; without one, when there was no card before or another one answers. */
  lemma SettledExactly(own: string, before: string, r: Round)
    requires Bare(own) && Bare(before) && Bare(r.iccid.text)
    ensures Settled(own, before, r) <==>
      if own != "" then r.iccid.text == own && r.imsi.ok && Trim(r.imsi.text) != ""
      else before == "" || (r.iccid.text != "" && r.iccid.text != before)
  {
    SamePlainKey(own, r.iccid.text);
    SamePlainKey(before, r.iccid.text);
    hide Key, Trim, Plain;
  }

  /** Plain, and without padding. */
  predicate Bare(v: string) { Plain(v) && (v == "" || v[|v| - 1] != 'F') }

  /** Between two looks at the clock the loop sleeps at least pause. */
  ghost predicate Paced(clock: nat -> int, start: int, pause: int) {
    && start <= clock(0)
    && forall j: nat, k: nat :: k == j + 1 ==> clock(j) + pause <= clock(k)
  }

  /** The loop stops at the first round that settles or that ends past the deadline, whatever the card
      answers, and the deadline bounds the number of rounds. */
  method PollIdentity(own: string, before: string, card: nat -> Round, ghost start: int, clock: nat -> int,
                      timeout: int, interval: int, deadline: int)
    returns (last: Round, rounds: nat)
    requires deadline == start + (if timeout > 0 then timeout else 10_000_000_000)
    requires Paced(clock, start, (if interval > 0 then interval else 500_000_000))
    ensures rounds > 0 && last == card(rounds - 1)
    ensures Settled(own, before, last) || clock(rounds - 1) > deadline
    ensures forall k: nat :: k < rounds - 1 ==> !Settled(own, before, card(k)) && clock(k) <= deadline
    ensures var pause, wait := if interval > 0 then interval else 500_000_000, if timeout > 0 then timeout else 10_000_000_000;
      (rounds - 1) * pause <= wait + pause
  {
    hide Trim, Key;
    ghost var pause := (if interval > 0 then interval else 500_000_000);
    rounds := 0;
    while true
      invariant forall k: nat :: k < rounds ==> !Settled(own, before, card(k)) && clock(k) <= deadline
      invariant start + rounds * pause <= clock(rounds)
      invariant rounds > 0 ==> start + (rounds - 1) * pause <= deadline
      decreases deadline - start - (rounds - 1) * pause
    {
      last := card(rounds);
      rounds := rounds + 1;
      if Key(own) != "" && Key(last.iccid.text) == Key(own) {
        if Trim(last.imsi.text) != "" && last.imsi.ok { break; }
      }
      if Key(own) == "" && (Key(before) == "" || (Key(last.iccid.text) != "" && Key(last.iccid.text) != Key(before))) { break; }
      if clock(rounds - 1) > deadline { break; }
      assert clock(rounds - 1) + pause <= clock(rounds);
      assert rounds * pause == (rounds - 1) * pause + pause;
    }
  }

  /** Whether the refresh reports the identity as ready. */
  predicate Reported(own: string, last: Round) { !Rejects(own, last.iccid) && Trim(last.iccid.text) != "" }

  /** What the refresh leaves behind when nothing else touches the identity: a reported success stands
      for a published ICCID that is the target's if there was one, unless the card gave a text along
      with an error; a reported failure leaves the identity degraded and not ready. */
  lemma ReportIsTrue(s: Identity, own: string, last: Round)
    requires Inv(s)
    ensures var n := Apply(s, Final(own, last.iccid, last.imsi));
      if !Reported(own, last) then
        var m := Apply(n, Degrade); !m.ready && m.phase.Degraded? && (s.iccid == "" ==> m.iccid == "")
      else if last.iccid.ok then
        n.ready && n.phase.Ready? && n.target == "" && n.iccid == Trim(last.iccid.text) != "" && (Key(own) != "" ==> Key(n.iccid) == Key(own))
      else n.iccid == s.iccid
  {
    KeyOfTrimmed(last.iccid.text);
    TrimsAgain(last.iccid.text);
    hide Trim, Key;
  }

  // ---- The identity as an object

  class WorkerIdentity {
    var iccid: string
    var imsi: string
    var ready: bool
    var phase: Phase
    var target: string
    var generation: nat

    function Abs(): Identity
      reads this
    {
      Identity(iccid, imsi, ready, phase, target, generation)
    }

    constructor ()
      ensures Abs() == FRESH
    {
      iccid, imsi, ready, phase, target, generation := "", "", false, Unset, "", 0;
    }

    method BeginLocked(targetICCID: string)
      modifies this
      ensures Abs() == Started(old(Abs()), targetICCID)
    {
      hide Trim;
      iccid, imsi := "", "";
      ready := false;
      phase := Transitioning;
      target := Trim(targetICCID);
      generation := generation + 1;
    }

    method BeginTransition(targetICCID: string) returns (g: nat)
      modifies this
      ensures Abs() == Apply(old(Abs()), Begin(targetICCID)) && g == generation
    {
      hide Trim;
      BeginLocked(targetICCID);
      return generation;
    }

    method EnsureTransition(targetICCID: string) returns (g: nat)
      modifies this
      ensures Abs() == Apply(old(Abs()), Ensure(targetICCID)) && g == generation
    {
      TrimIdempotent(targetICCID);
      hide Trim;
      var wanted := Trim(targetICCID);
      if (phase.Transitioning? || phase.Degraded?) && Trim(target) == wanted {
        return generation;
      }
      BeginLocked(wanted);
      return generation;
    }

    method MarkDegraded()
      modifies this
      ensures Abs() == Apply(old(Abs()), Degrade)
    {
      ready := false;
      phase := Degraded;
    }

    /** The end of a live refresh, with what it read. */
    method ApplyLive(readIccid: string, readImsi: string, more: bool) returns (ok: bool)
      modifies this
      ensures Abs() == Apply(old(Abs()), Live(readIccid, readImsi, more))
      ensures ok ==> phase.Ready? && ready
      ensures !ok ==> Abs() == old(Abs())
    {
      hide Key;
      KeyOfTrimmed(readIccid);
      var newIccid, newImsi := Trim(readIccid), Trim(readImsi);
      hide Trim;
      if newIccid == "" && newImsi == "" && !more { return false; }
      var wanted := Key(target);
      if wanted != "" && (phase.Transitioning? || phase.Degraded?) && Key(newIccid) != wanted { return false; }
      if newIccid != "" { iccid := newIccid; }
      if newImsi != "" { imsi := newImsi; }
      ready := true;
      phase := Ready;
      target := "";
      return true;
    }

    /** The end of the finaliser's refresh, with what its poll loop read last. */
    method ApplyFinal(own: string, last: Round) returns (rejected: bool)
      modifies this
      ensures Abs() == Apply(old(Abs()), Final(own, last.iccid, last.imsi))
      ensures rejected == Rejects(own, last.iccid)
    {
      hide Key, Trim;
      if Key(own) != "" && Key(last.iccid.text) != Key(own) {
        MarkDegraded();
        return true;
      }
      if last.iccid.ok { iccid := Trim(last.iccid.text); }
      if last.imsi.ok { imsi := Trim(last.imsi.text); }
      if last.iccid.ok || last.imsi.ok { ready := Trim(iccid) != "" || Trim(imsi) != ""; }
      if ready {
        phase := Ready;
        target := "";
      }
      return false;
    }

    method ReadCurrentICCID() returns (current: string)
      ensures current == CurrentICCID(Abs())
    {
      if target != "" { return target; }
      return iccid;
    }
  }
}
