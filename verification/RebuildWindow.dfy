/** The cap on worker rebuilds: at most five in any thirty minutes, kept as a list of times per device
    that is filtered in place. */
module RebuildWindow {
  import opened Text

  const SECOND: int := 1_000_000_000
  const WINDOW: int := 30 * 60 * SECOND
  const MAX_IN_WINDOW: nat := 5

  // ---- One attempt

  /** The times after the cutoff, in order. */
  function Pruned(times: seq<int>, cutoff: int): (r: seq<int>)
    ensures |r| <= |times|
  {
    if times == [] then []
    else Pruned(times[..|times| - 1], cutoff) + (if times[|times| - 1] > cutoff then [times[|times| - 1]] else [])
  }

  predicate Accepts(times: seq<int>, now: int) { |Pruned(times, now - WINDOW)| < MAX_IN_WINDOW }

  function After(times: seq<int>, now: int): seq<int> {
    Pruned(times, now - WINDOW) + (if Accepts(times, now) then [now] else [])
  }

  // ---- A sequence of attempts, one after another, with whatever clock readings

  /** The list after the first m attempts. */
  function List(clocks: seq<int>, m: nat): (r: seq<int>)
    requires m <= |clocks|
    ensures |r| <= MAX_IN_WINDOW
  {
    if m == 0 then [] else After(List(clocks, m - 1), clocks[m - 1])
  }

  predicate Accepted(clocks: seq<int>, i: nat)
    requires i < |clocks|
  {
    Accepts(List(clocks, i), clocks[i])
  }

  /** No attempt after i and before m reads a clock that makes attempt i too old. */
  predicate Survives(clocks: seq<int>, i: nat, m: nat)
    requires i < m <= |clocks|
  {
    forall j :: i < j < m ==> clocks[i] > clocks[j] - WINDOW
  }

  predicate Stays(clocks: seq<int>, i: nat, m: nat)
    requires i < m <= |clocks|
  {
    Accepted(clocks, i) && Survives(clocks, i, m)
  }

  /** The accepted attempts among the first k that survive until m. */
  function Kept(clocks: seq<int>, k: nat, m: nat): seq<int>
    requires k <= m <= |clocks|
  {
    if k == 0 then []
    else Kept(clocks, k - 1, m) + (if Stays(clocks, k - 1, m) then [clocks[k - 1]] else [])
  }

  lemma FirstList(clocks: seq<int>)
    ensures List(clocks, 0) == []
  {
  }

  lemma ListStep(clocks: seq<int>, m: nat)
    requires m < |clocks|
    ensures List(clocks, m + 1)
         == Pruned(List(clocks, m), clocks[m] - WINDOW) + (if Accepted(clocks, m) then [clocks[m]] else [])
    ensures Accepted(clocks, m) <==> |Pruned(List(clocks, m), clocks[m] - WINDOW)| < MAX_IN_WINDOW
    ensures Stays(clocks, m, m + 1) <==> Accepted(clocks, m)
  {
    hide Pruned;
  }

  lemma PrunedAppend(a: seq<int>, b: seq<int>, cutoff: int)
    requires |b| <= 1
    ensures Pruned(a + b, cutoff) == Pruned(a, cutoff) + (if b != [] && b[0] > cutoff then b else [])
  {
    if b == [] {
      assert a + b == a;
    } else {
      assert (a + b)[..|a + b| - 1] == a && b == [b[0]];
    }
  }

  lemma {:induction false} KeptIsPruned(clocks: seq<int>, k: nat, m: nat)
    requires k <= m < |clocks|
    ensures Pruned(Kept(clocks, k, m), clocks[m] - WINDOW) == Kept(clocks, k, m + 1)
  {
    hide Stays, Pruned;
    if k == 0 {
      assert Pruned([], clocks[m] - WINDOW) == [] by { PrunedEmpty(clocks[m] - WINDOW); }
    } else {
      KeptIsPruned(clocks, k - 1, m);
      var i := k - 1;
      PrunedAppend(Kept(clocks, i, m), if Stays(clocks, i, m) then [clocks[i]] else [], clocks[m] - WINDOW);
      StaysStep(clocks, i, m);
    }
  }

  lemma PrunedEmpty(cutoff: int)
    ensures Pruned([], cutoff) == []
  {
  }

  lemma StaysStep(clocks: seq<int>, i: nat, m: nat)
    requires i < m < |clocks|
    ensures Stays(clocks, i, m + 1) <==> Stays(clocks, i, m) && clocks[i] > clocks[m] - WINDOW
  {
    hide Accepted;
  }

  /** Whatever the clocks read, the list holds exactly the accepted attempts that no later attempt's
      clock has made too old, in the order of acceptance. */
  lemma {:induction false} ListIsExact(clocks: seq<int>, m: nat)
    requires m <= |clocks|
    ensures List(clocks, m) == Kept(clocks, m, m)
  {
    hide Pruned, Accepted, List, Stays;
    if m == 0 {
      assert List(clocks, 0) == [] by { FirstList(clocks); }
    } else {
      ListIsExact(clocks, m - 1);
      ListStep(clocks, m - 1);
      KeptIsPruned(clocks, m - 1, m - 1);
    }
  }

  /** Whatever the clocks read, an attempt is refused exactly when five accepted ones have survived all
      clocks since, its own included. */
  lemma RefusedExactly(clocks: seq<int>, m: nat)
    requires m < |clocks|
    ensures !Accepted(clocks, m) <==> |Kept(clocks, m, m + 1)| == MAX_IN_WINDOW
    ensures |Kept(clocks, m, m + 1)| <= MAX_IN_WINDOW
  {
    hide Accepted, List, Kept;
    ListStep(clocks, m);
    ListIsExact(clocks, m);
    KeptIsPruned(clocks, m, m);
  }

  lemma {:induction false} KeptGrows(clocks: seq<int>, i: nat, k: nat, m: nat)
    requires i < k <= m <= |clocks| && Stays(clocks, i, m)
    ensures |Kept(clocks, k, m)| >= |Kept(clocks, i, m)| + 1
    decreases k
  {
    hide Stays;
    if i + 1 < k {
      KeptGrows(clocks, i, k - 1, m);
    }
  }

  lemma FiveStayersBlock(clocks: seq<int>, a: nat, b: nat, c: nat, d: nat, e: nat, last: nat)
    requires a < b < c < d < e < last < |clocks|
    requires Stays(clocks, a, last + 1) && Stays(clocks, b, last + 1) && Stays(clocks, c, last + 1)
    requires Stays(clocks, d, last + 1) && Stays(clocks, e, last + 1)
    ensures !Accepted(clocks, last)
  {
    hide Accepted, Stays, Kept, List;
    RefusedExactly(clocks, last);
    KeptGrows(clocks, a, b, last + 1);
    KeptGrows(clocks, b, c, last + 1);
    KeptGrows(clocks, c, d, last + 1);
    KeptGrows(clocks, d, e, last + 1);
    KeptGrows(clocks, e, last, last + 1);
  }

  /** Of any six accepted attempts, one of the first five was too old for a clock read after it and no
      later than at the sixth. */
  lemma SixAreSpread(clocks: seq<int>, a: nat, b: nat, c: nat, d: nat, e: nat, f: nat) returns (i: nat, j: nat)
    requires a < b < c < d < e < f < |clocks|
    requires Accepted(clocks, a) && Accepted(clocks, b) && Accepted(clocks, c)
    requires Accepted(clocks, d) && Accepted(clocks, e) && Accepted(clocks, f)
    ensures i in {a, b, c, d, e} && i < j <= f && clocks[i] <= clocks[j] - WINDOW
  {
    hide Accepted;
    var n := f + 1;
    i := if !Survives(clocks, a, n) then a else if !Survives(clocks, b, n) then b
         else if !Survives(clocks, c, n) then c else if !Survives(clocks, d, n) then d else e;
    if Survives(clocks, i, n) {
      FiveStayersBlock(clocks, a, b, c, d, e, f);
      assert false;
    } else {
      j :| i < j < n && clocks[i] <= clocks[j] - WINDOW;
    }
  }

  // ---- Clocks that do not run backwards

  predicate Nondecreasing(clocks: seq<int>) { forall i, j :: 0 <= i < j < |clocks| ==> clocks[i] <= clocks[j] }

  /** The accepted attempts among the first k that lie after the cutoff. */
  function AcceptedAfter(clocks: seq<int>, k: nat, cutoff: int): seq<int>
    requires k <= |clocks|
  {
    if k == 0 then []
    else AcceptedAfter(clocks, k - 1, cutoff) + (if Accepted(clocks, k - 1) && clocks[k - 1] > cutoff then [clocks[k - 1]] else [])
  }

  lemma {:induction false} KeptIsTheWindow(clocks: seq<int>, k: nat, m: nat)
    requires Nondecreasing(clocks) && k < m <= |clocks|
    ensures Kept(clocks, k, m) == AcceptedAfter(clocks, k, clocks[m - 1] - WINDOW)
  {
    hide Accepted;
    if k > 0 {
      KeptIsTheWindow(clocks, k - 1, m);
      assert Survives(clocks, k - 1, m) <==> clocks[k - 1] > clocks[m - 1] - WINDOW;
      hide Survives;
    }
  }

  /** With clocks that do not run backwards: an attempt is refused exactly when five accepted ones lie
      strictly inside the thirty minutes before it, and the list is then those five; otherwise the list
      is the accepted ones inside and the new one. */
  lemma SlidingWindow(clocks: seq<int>, m: nat)
    requires Nondecreasing(clocks) && m < |clocks|
    ensures var inside := AcceptedAfter(clocks, m, clocks[m] - WINDOW);
      && |inside| <= MAX_IN_WINDOW
      && (!Accepted(clocks, m) <==> |inside| == MAX_IN_WINDOW)
      && List(clocks, m + 1) == inside + (if Accepted(clocks, m) then [clocks[m]] else [])
  {
    hide Accepted, List, Kept, AcceptedAfter, Pruned;
    ListStep(clocks, m);
    RefusedExactly(clocks, m);
    KeptIsTheWindow(clocks, m, m + 1);
    ListIsExact(clocks, m);
    KeptIsPruned(clocks, m, m);
  }

  /** ... and any six accepted attempts span at least thirty minutes. */
  lemma SixSpanTheWindow(clocks: seq<int>, a: nat, b: nat, c: nat, d: nat, e: nat, f: nat)
    requires Nondecreasing(clocks) && a < b < c < d < e < f < |clocks|
    requires Accepted(clocks, a) && Accepted(clocks, b) && Accepted(clocks, c)
    requires Accepted(clocks, d) && Accepted(clocks, e) && Accepted(clocks, f)
    ensures clocks[f] - clocks[a] >= 1_800_000_000_000
  {
    hide Accepted, Nondecreasing;
    var i, j := SixAreSpread(clocks, a, b, c, d, e, f);
    InOrder(clocks, a, i);
    InOrder(clocks, j, f);
  }

  lemma InOrder(clocks: seq<int>, i: nat, j: nat)
    requires Nondecreasing(clocks) && i <= j < |clocks|
    ensures clocks[i] <= clocks[j]
  {
  }

  // ---- Clocks that may

  /** No accepted attempt that lies in the window of attempt m has been forgotten for a later clock. */
  predicate NoneForgotten(clocks: seq<int>, k: nat, m: nat)
    requires k <= m < |clocks|
  {
    forall i :: 0 <= i < k && Accepted(clocks, i) && clocks[i] > clocks[m] - WINDOW ==> Survives(clocks, i, m + 1)
  }

  lemma {:induction false} ForgettingShortens(clocks: seq<int>, k: nat, m: nat)
    requires k <= m < |clocks|
    ensures |Kept(clocks, k, m + 1)| <= |AcceptedAfter(clocks, k, clocks[m] - WINDOW)|
    ensures NoneForgotten(clocks, k, m) <==> Kept(clocks, k, m + 1) == AcceptedAfter(clocks, k, clocks[m] - WINDOW)
    ensures NoneForgotten(clocks, k, m) <==> |Kept(clocks, k, m + 1)| == |AcceptedAfter(clocks, k, clocks[m] - WINDOW)|
  {
    hide Accepted;
    if k > 0 {
      ForgettingShortens(clocks, k - 1, m);
      assert Survives(clocks, k - 1, m + 1) ==> clocks[k - 1] > clocks[m] - WINDOW;
      hide Survives;
    }
  }

  /** Whatever the clocks read, an attempt is judged by exactly the accepted attempts in its window if
      and only if none of those has been forgotten; a nondecreasing clock forgets none. */
  lemma JudgedByItsWindow(clocks: seq<int>, m: nat)
    requires m < |clocks|
    ensures Pruned(List(clocks, m), clocks[m] - WINDOW) == AcceptedAfter(clocks, m, clocks[m] - WINDOW) <==> NoneForgotten(clocks, m, m)
    ensures NoneForgotten(clocks, m, m) ==>
      (!Accepted(clocks, m) <==> |AcceptedAfter(clocks, m, clocks[m] - WINDOW)| == MAX_IN_WINDOW)
    ensures Nondecreasing(clocks) ==> NoneForgotten(clocks, m, m)
  {
    hide Accepted, Kept, List, Pruned, AcceptedAfter, NoneForgotten, Nondecreasing;
    ForgettingShortens(clocks, m, m);
    ListIsExact(clocks, m);
    KeptIsPruned(clocks, m, m);
    RefusedExactly(clocks, m);
    if Nondecreasing(clocks) { NondecreasingForgetsNone(clocks, m); }
  }

  lemma NondecreasingForgetsNone(clocks: seq<int>, m: nat)
    requires m < |clocks| && Nondecreasing(clocks)
    ensures NoneForgotten(clocks, m, m)
  {
    hide Accepted;
  }

  /** No reading lies more than skew behind an earlier one. */
  predicate Skewed(clocks: seq<int>, skew: int) { forall i, j :: 0 <= i < j < |clocks| ==> clocks[i] <= clocks[j] + skew }

  /** Clocks that run behind by a bounded skew give up no more than that: the sixth of six accepted
      attempts comes thirty minutes less the skew after one of the first five. */
  lemma SixSpanLessTheSkew(clocks: seq<int>, skew: nat, a: nat, b: nat, c: nat, d: nat, e: nat, f: nat) returns (i: nat)
    requires Skewed(clocks, skew) && a < b < c < d < e < f < |clocks|
    requires Accepted(clocks, a) && Accepted(clocks, b) && Accepted(clocks, c)
    requires Accepted(clocks, d) && Accepted(clocks, e) && Accepted(clocks, f)
    ensures i in {a, b, c, d, e} && clocks[f] - clocks[i] >= WINDOW - skew
    ensures clocks[f] - clocks[a] >= WINDOW - 2 * skew
  {
    hide Accepted, Skewed;
    var j: nat;
    i, j := SixAreSpread(clocks, a, b, c, d, e, f);
    SkewedBetween(clocks, skew, a, i);
    SkewedBetween(clocks, skew, j, f);
  }

  lemma SkewedBetween(clocks: seq<int>, skew: nat, i: nat, j: nat)
    requires Skewed(clocks, skew) && i <= j < |clocks|
    ensures clocks[i] <= clocks[j] + skew
  {
  }

  /** The clock is read before the lock is taken, so two attempts can enter in the other order. One
      nanosecond out of order suffices to accept six attempts in less than thirty minutes. */
  lemma RunningAheadForgets() returns (clocks: seq<int>)
    ensures clocks == Zeros(5) + [WINDOW, WINDOW - 1]
    ensures forall i :: 0 <= i < 7 ==> Accepted(clocks, i)
    ensures clocks[6] - clocks[0] < WINDOW && Skewed(clocks, 1)
  {
    hide Accepted, List, Pruned;
    clocks := Zeros(5) + [WINDOW, WINDOW - 1];
    forall i | 0 <= i < 5 ensures Accepted(clocks, i) {
      ZerosAreKept(clocks, i);
      PrunedZeros(i);
      ListStep(clocks, i);
    }
    ZerosAreKept(clocks, 5);
    PrunedZeros(5);
    ListStep(clocks, 5);
    assert clocks[5] == WINDOW && clocks[6] == WINDOW - 1;
    assert Accepted(clocks, 5) && List(clocks, 6) == [WINDOW];
    ListStep(clocks, 6);
  }

  lemma {:induction false} ZerosAreKept(clocks: seq<int>, m: nat)
    requires m <= 5 && |clocks| == 7 && forall i :: 0 <= i < 5 ==> clocks[i] == 0
    ensures List(clocks, m) == Zeros(m)
  {
    if m > 0 {
      ZerosAreKept(clocks, m - 1);
      ListStep(clocks, m - 1);
      PrunedZeros(m - 1);
      assert Zeros(m) == Zeros(m - 1) + [0];
    }
  }

  function Zeros(n: nat): seq<int> { seq(n, _ => 0) }

  lemma {:induction false} PrunedZeros(n: nat)
    ensures Pruned(Zeros(n), -WINDOW) == Zeros(n) && Pruned(Zeros(n), 0) == []
  {
    hide Pruned;
    PrunedEmpty(-WINDOW);
    PrunedEmpty(0);
    if n == 0 {
      assert Zeros(0) == [];
    } else {
      PrunedZeros(n - 1);
      assert Zeros(n) == Zeros(n - 1) + [0];
      PrunedAppend(Zeros(n - 1), [0], -WINDOW);
      PrunedAppend(Zeros(n - 1), [0], 0);
    }
  }

  // ---- With worker generations

  datatype Event = Attempt(now: int) | NewGeneration(generation: nat)

  /** One device's list and the worker generation it belongs to; 0 is none. */
  datatype Device = Device(times: seq<int>, generation: nat)

  function Step(d: Device, e: Event): Device {
    match e
    case Attempt(now) => d.(times := After(d.times, now))
    case NewGeneration(g) => if d.generation != g then Device([], g) else d
  }

  function Play(events: seq<Event>): Device {
    if events == [] then Device([], 0) else Step(Play(events[..|events| - 1]), events[|events| - 1])
  }

  /** The generation set last; 0 before the first. */
  function LastGeneration(events: seq<Event>): nat {
    if events == [] then 0
    else if events[|events| - 1].NewGeneration? then events[|events| - 1].generation
    else LastGeneration(events[..|events| - 1])
  }

  /** The clocks of the attempts made since the generation last changed. */
  function SinceChange(events: seq<Event>): seq<int> {
    if events == [] then []
    else
      var before := events[..|events| - 1];
      match events[|events| - 1]
      case Attempt(now) => SinceChange(before) + [now]
      case NewGeneration(g) => if LastGeneration(before) != g then [] else SinceChange(before)
  }

  lemma {:induction false} ListOfPrefix(a: seq<int>, b: seq<int>, m: nat)
    requires m <= |a|
    ensures List(a + b, m) == List(a, m)
  {
    hide After;
    if m > 0 {
      ListOfPrefix(a, b, m - 1);
    }
  }

  /** The list is that of the attempts since the last change of generation: earlier ones count no more. */
  lemma {:induction false} CapIsPerGeneration(events: seq<Event>)
    ensures var c := SinceChange(events); Play(events) == Device(List(c, |c|), LastGeneration(events))
  {
    hide After;
    if events != [] {
      var before := events[..|events| - 1];
      CapIsPerGeneration(before);
      if events[|events| - 1].Attempt? {
        ListOfPrefix(SinceChange(before), [events[|events| - 1].now], |SinceChange(before)|);
      }
    }
  }

  // ---- The lists as slices of shared arrays

  /** A Go slice: the first len cells of an array with room for more. */
  datatype Slice = Slice(buf: array<int>, len: nat)

  /** Keeps the times after the cutoff, in order, in the front of the same array. */
  method FilterInPlace(buf: array<int>, len: nat, cutoff: int) returns (kept: nat)
    requires len <= buf.Length
    modifies buf
    ensures kept <= len && buf[..kept] == Pruned(old(buf[..len]), cutoff)
  {
    ghost var was := buf[..len];
    kept := 0;
    for i := 0 to len
      invariant kept <= i
      invariant buf[..kept] == Pruned(was[..i], cutoff)
      invariant forall j :: i <= j < len ==> buf[j] == was[j]
    {
      assert was[..i + 1][..i] == was[..i];
      if buf[i] > cutoff {
        buf[kept] := buf[i];
        kept := kept + 1;
        assert buf[..kept] == buf[..kept - 1] + [was[i]];
      }
    }
    assert was[..len] == was;
  }

  class Controller {
    var workerGenerations: map<string, nat>
    var rebuildTimes: map<string, Slice>

    ghost function Arrays(): set<object>
      reads this
    {
      set d | d in rebuildTimes :: rebuildTimes[d].buf
    }

    /** Each device's list fits its array, and no two devices share one. */
    ghost predicate Valid()
      reads this
    {
      && (forall d :: d in rebuildTimes ==> rebuildTimes[d].len <= rebuildTimes[d].buf.Length)
      && (forall d, e :: d in rebuildTimes && e in rebuildTimes && d != e ==> rebuildTimes[d].buf != rebuildTimes[e].buf)
    }

    ghost function Of(dev: string): Device
      requires Valid()
      reads this, Arrays()
    {
      Device(
        if dev in rebuildTimes then rebuildTimes[dev].buf[..rebuildTimes[dev].len] else [],
        if dev in workerGenerations then workerGenerations[dev] else 0)
    }

    constructor ()
      ensures Valid() && fresh(Arrays())
      ensures forall d :: Of(d) == Device([], 0)
    {
      workerGenerations, rebuildTimes := map[], map[];
    }

    /** An attempt at a time read earlier; no other device's list changes. */
    method AllowRebuildAt(dev: string, now: int) returns (allowed: bool)
      requires Valid()
      modifies this, Arrays()
      ensures Valid() && fresh(Arrays() - old(Arrays()))
      ensures allowed <==> dev != "" && Accepts(old(Of(dev)).times, now)
      ensures dev == "" ==> Of(dev) == old(Of(dev))
      ensures dev != "" ==> Of(dev) == Step(old(Of(dev)), Attempt(now))
      ensures forall d :: d != dev ==> Of(d) == old(Of(d))
    {
      hide After, Accepts;
      if dev == "" { return false; }
      var times: Slice;
      if dev in rebuildTimes {
        times := rebuildTimes[dev];
      } else {
        var none := new int[0];
        times := Slice(none, 0);
      }
      var updated: Slice;
      allowed, updated := AllowIn(times, now);
      rebuildTimes := rebuildTimes[dev := updated];
    }

    /** The list afterwards lives in the same array or in a fresh one. */
    static method AllowIn(times: Slice, now: int) returns (allowed: bool, r: Slice)
      requires times.len <= times.buf.Length
      modifies times.buf
      ensures r.len <= r.buf.Length && (r.buf == times.buf || fresh(r.buf))
      ensures r.buf[..r.len] == After(old(times.buf[..times.len]), now)
      ensures allowed == Accepts(old(times.buf[..times.len]), now)
    {
      hide Pruned;
      var kept := FilterInPlace(times.buf, times.len, now - WINDOW);
      if kept >= MAX_IN_WINDOW { return false, Slice(times.buf, kept); }
      r := Append(Slice(times.buf, kept), now);
      return true, r;
    }

    /** Appending writes into the same array while it has room, and into a larger copy otherwise. */
    static method Append(s: Slice, t: int) returns (r: Slice)
      requires s.len <= s.buf.Length
      modifies s.buf
      ensures r.len <= r.buf.Length && r.buf[..r.len] == old(s.buf[..s.len]) + [t]
      ensures r.buf == s.buf || fresh(r.buf)
    {
      if s.len < s.buf.Length {
        s.buf[s.len] := t;
        return Slice(s.buf, s.len + 1);
      }
      var larger := new int[2 * s.len + 1];
      for i := 0 to s.len
        invariant larger[..i] == s.buf[..i]
        invariant s.buf[..s.len] == old(s.buf[..s.len])
      {
        larger[i] := s.buf[i];
      }
      larger[s.len] := t;
      return Slice(larger, s.len + 1);
    }

    method AllowRebuild(name: string, now: int) returns (allowed: bool)
      requires Valid()
      modifies this, Arrays()
      ensures Valid() && fresh(Arrays() - old(Arrays()))
      ensures Trim(name) == "" ==> !allowed && forall d :: Of(d) == old(Of(d))
      ensures Trim(name) != "" ==> (allowed <==> Accepts(old(Of(Trim(name))).times, now))
      ensures Trim(name) != "" ==> Of(Trim(name)) == Step(old(Of(Trim(name))), Attempt(now))
      ensures forall d :: d != Trim(name) ==> Of(d) == old(Of(d))
    {
      hide Trim, After, Accepts;
      allowed := AllowRebuildAt(Trim(name), now);
    }

    method SetWorkerGeneration(name: string, generation: nat)
      requires Valid()
      modifies this
      ensures Valid() && Arrays() <= old(Arrays())
      ensures Trim(name) != "" ==> Of(Trim(name)) == Step(old(Of(Trim(name))), NewGeneration(generation))
      ensures forall d :: d != Trim(name) || d == "" ==> Of(d) == old(Of(d))
    {
      hide Trim;
      var dev := Trim(name);
      if dev == "" { return; }
      var current := if dev in workerGenerations then workerGenerations[dev] else 0;
      if current != generation {
        rebuildTimes := rebuildTimes - {dev};
      }
      workerGenerations := workerGenerations[dev := generation];
    }
  }
}
