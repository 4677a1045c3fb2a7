/** Which configured device is which piece of hardware: by the IMEI key where there is one, and by stable
    paths only for configurations that have none yet. */
module IdentityResolver {
  import opened Wrappers
  import opened Text

  datatype Hardware = Hardware(imei: string, mode: string, usbPath: string, controlPath: string, netInterface: string)

  datatype Config = Config(id: string, imei: string, usbPath: string, controlDevice: string, netInterface: string)

  // ---- The identity key

  const KEY_DIGITS := 14

  /** The first fourteen digits of an IMEI in whatever notation; "" when there are fewer. */
  function Key(imei: string): (k: string)
    ensures k == "" || |k| == KEY_DIGITS
  {
    if |Digits(imei)| < KEY_DIGITS then "" else Digits(imei)[..KEY_DIGITS]
  }

  method NormalizeIMEI(raw: string) returns (k: string)
    ensures k == Key(raw)
  {
    var digits := "";
    for i := 0 to |raw|
      invariant digits == Digits(raw[..i])
    {
      DigitsAppend(raw[..i], raw[i]);
      assert raw[..i + 1] == raw[..i] + [raw[i]];
      if '0' <= raw[i] <= '9' {
        digits := digits + [raw[i]];
      }
    }
    assert raw[..|raw|] == raw;
    if |digits| < KEY_DIGITS { return ""; }
    return digits[..KEY_DIGITS];
  }

  predicate IMEIMatches(a: string, b: string) { Key(a) != "" && Key(a) == Key(b) }

  /** Matching is an equivalence on the IMEIs that have a key, and blind to everything after it. */
  lemma MatchingIsByPrefix(a: string, b: string, rest: string)
    ensures IMEIMatches(a, a) <==> |Digits(a)| >= KEY_DIGITS
    ensures IMEIMatches(a, b) <==> IMEIMatches(b, a)
    ensures IMEIMatches(a, a) ==> IMEIMatches(a, a + rest)
  {
    DigitsExtend(a, rest);
  }

  lemma {:induction false} DigitsExtend(a: string, rest: string)
    ensures Digits(a) <= Digits(a + rest)
    decreases |rest|
  {
    if rest == "" {
      assert a + rest == a;
    } else {
      var shorter := rest[..|rest| - 1];
      DigitsExtend(a, shorter);
      DigitsAppend(a + shorter, rest[|rest| - 1]);
      assert a + rest == (a + shorter) + [rest[|rest| - 1]];
    }
  }

  /** The key of an IMEI written in digits is its first fourteen, and what stands between the digits does
      not matter. */
  lemma KeyExactly(a: string, x: string, b: string)
    requires forall i :: 0 <= i < |a| ==> '0' <= a[i] <= '9'
    requires forall i :: 0 <= i < |b| ==> '0' <= b[i] <= '9'
    requires forall i :: 0 <= i < |x| ==> !('0' <= x[i] <= '9')
    ensures Key(a + x + b) == if |a + b| < 14 then "" else (a + b)[..14]
  {
    DigitsOfParts(a + x, b);
    DigitsOfParts(a, x);
    DigitsOfDigits(a);
    DigitsOfDigits(b);
    NoDigits(x);
    hide Digits;
    assert a + "" == a;
  }

  lemma {:induction false} NoDigits(x: string)
    requires forall i :: 0 <= i < |x| ==> !('0' <= x[i] <= '9')
    ensures Digits(x) == ""
  {
    if x != "" {
      assert forall i :: 0 <= i < |x[1..]| ==> x[1..][i] == x[i + 1];
      NoDigits(x[1..]);
    }
  }

  // ---- Several compositions of one modem

  function Rank(mode: string): nat {
    var m := ToLower(Trim(mode));
    if m == "qmi" then 5 else if m == "mbim" then 4 else if m == "ncm" then 3
    else if m == "ecm" then 2 else if m == "rndis" then 1 else 0
  }

  /** No earlier entry has the same key; without a key, no entry is the same modem as another. */
  predicate IsFirst(hw: seq<Hardware>, i: nat)
    requires i < |hw|
  {
    Key(hw[i].imei) == "" || forall j :: 0 <= j < i ==> Key(hw[j].imei) != Key(hw[i].imei)
  }

  /** Where the modems among the first n entries appear first. */
  function FirstSeen(hw: seq<Hardware>, n: nat): (r: seq<nat>)
    requires n <= |hw|
    ensures forall k :: 0 <= k < |r| ==> r[k] < n
  {
    if n == 0 then [] else FirstSeen(hw, n - 1) + (if IsFirst(hw, n - 1) then [n - 1] else [])
  }

  /** i is the earliest of the highest-ranked among the first n entries with its key. */
  predicate IsBest(hw: seq<Hardware>, n: nat, i: nat)
    requires i < n <= |hw|
  {
    forall j :: 0 <= j < n && Key(hw[j].imei) == Key(hw[i].imei) ==>
      Rank(hw[j].mode) < Rank(hw[i].mode) || (Rank(hw[j].mode) == Rank(hw[i].mode) && i <= j)
  }

  /** out holds one entry per modem of the first n entries, in the order they were first seen, and each
      is the best of its modem. */
  ghost predicate IsDeduped(hw: seq<Hardware>, n: nat, out: seq<Hardware>)
    requires n <= |hw|
  {
    var f := FirstSeen(hw, n);
    && |out| == |f|
    && forall k :: 0 <= k < |out| ==> IsPrimary(hw, n, f[k], out[k])
  }

  /** h stands for the modem first seen at i. */
  ghost predicate IsPrimary(hw: seq<Hardware>, n: nat, i: nat, h: Hardware)
    requires i < n <= |hw|
  {
    if Key(hw[i].imei) == "" then h == hw[i]
    else exists b: nat :: b < n && Key(hw[b].imei) == Key(hw[i].imei) && IsBest(hw, n, b) && h == hw[b]
  }

  lemma PrimaryKey(hw: seq<Hardware>, n: nat, i: nat, h: Hardware)
    requires i < n <= |hw| && IsPrimary(hw, n, i, h)
    ensures Key(h.imei) == Key(hw[i].imei)
  {
  }

  /** A further entry that is not a better composition of the same modem changes nothing for it. */
  lemma PrimaryStays(hw: seq<Hardware>, n: nat, i: nat, h: Hardware)
    requires i < n < |hw| && IsPrimary(hw, n, i, h)
    requires Key(hw[n].imei) == "" || Key(hw[n].imei) != Key(hw[i].imei) || Rank(hw[n].mode) <= Rank(h.mode)
    ensures IsPrimary(hw, n + 1, i, h)
  {
    hide Key, Rank;
    if Key(hw[i].imei) != "" {
      var b: nat :| b < n && Key(hw[b].imei) == Key(hw[i].imei) && IsBest(hw, n, b) && h == hw[b];
      BestStays(hw, n, b);
      hide IsBest;
      assert b < n + 1;
    }
  }

  lemma BestStays(hw: seq<Hardware>, n: nat, b: nat)
    requires b < n < |hw| && IsBest(hw, n, b)
    requires Key(hw[n].imei) != Key(hw[b].imei) || Rank(hw[n].mode) <= Rank(hw[b].mode)
    ensures IsBest(hw, n + 1, b)
  {
    hide Key, Rank;
  }

  lemma PrimaryReplaced(hw: seq<Hardware>, n: nat, i: nat, h: Hardware)
    requires i < n < |hw| && IsPrimary(hw, n, i, h)
    requires Key(hw[n].imei) != "" && Key(hw[n].imei) == Key(hw[i].imei) && Rank(hw[n].mode) > Rank(h.mode)
    ensures IsPrimary(hw, n + 1, i, hw[n])
  {
    hide Key, Rank;
    var b: nat :| b < n && Key(hw[b].imei) == Key(hw[i].imei) && IsBest(hw, n, b) && h == hw[b];
    assert IsBest(hw, n + 1, n);
  }

  lemma PrimaryNew(hw: seq<Hardware>, n: nat)
    requires n < |hw| && IsFirst(hw, n)
    ensures IsPrimary(hw, n + 1, n, hw[n])
  {
    hide Key, Rank;
    if Key(hw[n].imei) != "" { assert IsBest(hw, n + 1, n); }
  }

  lemma FirstSeenKeys(hw: seq<Hardware>, n: nat, j: nat)
    requires j < n <= |hw|
    ensures exists k :: 0 <= k < |FirstSeen(hw, n)| && Key(hw[FirstSeen(hw, n)[k]].imei) == Key(hw[j].imei)
    decreases n
  {
    hide Key;
    if j < n - 1 {
      FirstSeenKeys(hw, n - 1, j);
      var k :| 0 <= k < |FirstSeen(hw, n - 1)| && Key(hw[FirstSeen(hw, n - 1)[k]].imei) == Key(hw[j].imei);
      assert FirstSeen(hw, n)[k] == FirstSeen(hw, n - 1)[k];
    } else if IsFirst(hw, j) {
      assert FirstSeen(hw, n)[|FirstSeen(hw, n - 1)|] == j;
    } else {
      var i :| 0 <= i < j && Key(hw[i].imei) == Key(hw[j].imei);
      FirstSeenKeys(hw, n - 1, i);
      var k :| 0 <= k < |FirstSeen(hw, n - 1)| && Key(hw[FirstSeen(hw, n - 1)[k]].imei) == Key(hw[i].imei);
      assert FirstSeen(hw, n)[k] == FirstSeen(hw, n - 1)[k];
    }
  }

  /** The first-seen positions rise, so no key is seen first twice. */
  lemma {:induction false} FirstSeenRises(hw: seq<Hardware>, n: nat)
    requires n <= |hw|
    ensures var f := FirstSeen(hw, n); forall a, b :: 0 <= a < b < |f| ==> f[a] < f[b]
    ensures var f := FirstSeen(hw, n); forall a :: 0 <= a < |f| ==> IsFirst(hw, f[a])
  {
    hide IsFirst;
    if n > 0 {
      FirstSeenRises(hw, n - 1);
      assert FirstSeen(hw, n) == FirstSeen(hw, n - 1) + (if IsFirst(hw, n - 1) then [n - 1] else []);
    }
  }

  method DedupeCompositions(hw: seq<Hardware>) returns (out: seq<Hardware>)
    ensures IsDeduped(hw, |hw|, out)
  {
    hide Key, Rank, IsDeduped, IsFirst;
    var primaryIdx: map<string, nat> := map[];
    out := [];
    NothingToDedupe(hw);
    for n := 0 to |hw|
      invariant IsDeduped(hw, n, out)
      invariant forall k :: k in primaryIdx ==> k != "" && primaryIdx[k] < |out| && Key(out[primaryIdx[k]].imei) == k
      invariant forall i :: 0 <= i < |out| && Key(out[i].imei) != "" ==>
        Key(out[i].imei) in primaryIdx && primaryIdx[Key(out[i].imei)] == i
    {
      var key := NormalizeIMEI(hw[n].imei);
      if key == "" {
        KeylessIsFirst(hw, n);
        DedupeAppends(hw, n, out);
        out := out + [hw[n]];
      } else if key in primaryIdx {
        var idx := primaryIdx[key];
        SeenBefore(hw, n, out, idx);
        if Rank(hw[n].mode) > Rank(out[idx].mode) {
          DedupeReplaces(hw, n, out, idx);
          out := out[idx := hw[n]];
        } else {
          DedupeSkips(hw, n, out, idx);
        }
      } else {
        NotSeenBefore(hw, n, out);
        DedupeAppends(hw, n, out);
        primaryIdx := primaryIdx[key := |out|];
        out := out + [hw[n]];
      }
    }
  }

  lemma NothingToDedupe(hw: seq<Hardware>)
    ensures IsDeduped(hw, 0, [])
  {
  }

  lemma KeylessIsFirst(hw: seq<Hardware>, n: nat)
    requires n < |hw| && Key(hw[n].imei) == ""
    ensures IsFirst(hw, n)
  {
  }

  lemma KeysMatch(hw: seq<Hardware>, n: nat, out: seq<Hardware>, k: nat)
    requires n <= |hw| && IsDeduped(hw, n, out) && k < |out|
    ensures Key(out[k].imei) == Key(hw[FirstSeen(hw, n)[k]].imei)
  {
    hide Key, IsPrimary, FirstSeen;
    PrimaryKey(hw, n, FirstSeen(hw, n)[k], out[k]);
  }

  lemma SeenBefore(hw: seq<Hardware>, n: nat, out: seq<Hardware>, idx: nat)
    requires n < |hw| && IsDeduped(hw, n, out) && idx < |out| && Key(hw[n].imei) != "" && Key(out[idx].imei) == Key(hw[n].imei)
    ensures !IsFirst(hw, n)
  {
    hide Key, FirstSeen, IsDeduped;
    DedupedLength(hw, n, out);
    KeysMatch(hw, n, out, idx);
    var j := FirstSeen(hw, n)[idx];
    assert j < n && Key(hw[j].imei) == Key(hw[n].imei);
  }

  lemma NotSeenBefore(hw: seq<Hardware>, n: nat, out: seq<Hardware>)
    requires n < |hw| && IsDeduped(hw, n, out)
    requires forall k :: 0 <= k < |out| ==> Key(out[k].imei) != Key(hw[n].imei)
    ensures IsFirst(hw, n)
  {
    hide Key, FirstSeen, IsDeduped;
    forall j | 0 <= j < n ensures Key(hw[j].imei) != Key(hw[n].imei) {
      FirstSeenKeys(hw, n, j);
      var k :| 0 <= k < |FirstSeen(hw, n)| && Key(hw[FirstSeen(hw, n)[k]].imei) == Key(hw[j].imei);
      DedupedLength(hw, n, out);
      KeysMatch(hw, n, out, k);
    }
  }

  lemma DedupedLength(hw: seq<Hardware>, n: nat, out: seq<Hardware>)
    requires n <= |hw| && IsDeduped(hw, n, out)
    ensures |out| == |FirstSeen(hw, n)|
  {
    hide IsPrimary;
  }

  lemma DedupeAppends(hw: seq<Hardware>, n: nat, out: seq<Hardware>)
    requires n < |hw| && IsDeduped(hw, n, out) && IsFirst(hw, n)
    ensures IsDeduped(hw, n + 1, out + [hw[n]])
  {
    hide Key, Rank, IsPrimary;
    var f := FirstSeen(hw, n);
    FirstSeenRises(hw, n);
    PrimaryNew(hw, n);
    forall k | 0 <= k < |out| ensures IsPrimary(hw, n + 1, f[k], out[k]) {
      PrimaryStays(hw, n, f[k], out[k]);
    }
  }

  lemma DedupeSkips(hw: seq<Hardware>, n: nat, out: seq<Hardware>, idx: nat)
    requires n < |hw| && IsDeduped(hw, n, out) && !IsFirst(hw, n) && idx < |out|
    requires Key(out[idx].imei) == Key(hw[n].imei) && Rank(hw[n].mode) <= Rank(out[idx].mode)
    requires forall k :: 0 <= k < |out| && Key(out[k].imei) == Key(hw[n].imei) ==> k == idx
    ensures IsDeduped(hw, n + 1, out)
  {
    hide Key, Rank, IsPrimary;
    var f := FirstSeen(hw, n);
    forall k | 0 <= k < |out| ensures IsPrimary(hw, n + 1, f[k], out[k]) {
      KeysMatch(hw, n, out, k);
      PrimaryStays(hw, n, f[k], out[k]);
    }
  }

  lemma DedupeReplaces(hw: seq<Hardware>, n: nat, out: seq<Hardware>, idx: nat)
    requires n < |hw| && IsDeduped(hw, n, out) && !IsFirst(hw, n) && idx < |out|
    requires Key(hw[n].imei) != "" && Key(out[idx].imei) == Key(hw[n].imei) && Rank(hw[n].mode) > Rank(out[idx].mode)
    requires forall k :: 0 <= k < |out| && Key(out[k].imei) == Key(hw[n].imei) ==> k == idx
    ensures IsDeduped(hw, n + 1, out[idx := hw[n]])
  {
    hide Key, Rank, IsPrimary;
    var f := FirstSeen(hw, n);
    KeysMatch(hw, n, out, idx);
    forall k | 0 <= k < |out| ensures IsPrimary(hw, n + 1, f[k], out[idx := hw[n]][k]) {
      KeysMatch(hw, n, out, k);
      if k == idx {
        PrimaryReplaced(hw, n, f[k], out[k]);
      } else {
        PrimaryStays(hw, n, f[k], out[k]);
      }
    }
  }

  predicate DistinctKeys(hw: seq<Hardware>) {
    forall i, j :: 0 <= i < j < |hw| && Key(hw[i].imei) != "" ==> Key(hw[i].imei) != Key(hw[j].imei)
  }

  /** After de-duplication no two entries share a key. */
  lemma DedupedIsDistinct(hw: seq<Hardware>, out: seq<Hardware>)
    requires IsDeduped(hw, |hw|, out)
    ensures DistinctKeys(out)
  {
    hide Key, Rank, IsPrimary;
    var f := FirstSeen(hw, |hw|);
    FirstSeenRises(hw, |hw|);
    forall i, j | 0 <= i < j < |out| && Key(out[i].imei) != "" ensures Key(out[i].imei) != Key(out[j].imei) {
      KeysMatch(hw, |hw|, out, i);
      KeysMatch(hw, |hw|, out, j);
      assert IsFirst(hw, f[j]) && f[i] < f[j];
    }
  }

  lemma {:induction false} AllFirst(hw: seq<Hardware>, n: nat)
    requires DistinctKeys(hw) && n <= |hw|
    ensures FirstSeen(hw, n) == seq(n, i => i)
  {
    hide Key;
    if n > 0 {
      AllFirst(hw, n - 1);
      assert IsFirst(hw, n - 1);
    }
  }

  /** De-duplication is idempotent: it leaves exactly the lists without shared keys alone, and what it
      returns is such a list. */
  lemma DedupeIsIdempotent(hw: seq<Hardware>, once: seq<Hardware>, twice: seq<Hardware>)
    requires IsDeduped(hw, |hw|, once) && IsDeduped(once, |once|, twice)
    ensures twice == once
  {
    hide Key, Rank;
    DedupedIsDistinct(hw, once);
    AllFirst(once, |once|);
    forall k | 0 <= k < |once| ensures twice[k] == once[k] {
      assert IsPrimary(once, |once|, k, twice[k]);
      if Key(once[k].imei) != "" {
        var b: nat :| b < |once| && Key(once[b].imei) == Key(once[k].imei) && twice[k] == once[b];
        assert b == k;
      }
    }
  }

  /** What the program prefers, best first; anything else comes last. */
  const PREFERENCE := ["qmi", "mbim", "ncm", "ecm", "rndis"]

  /** The composition is at least as good as the one at this place of the preference. */
  predicate AsGoodAs(mode: string, place: nat)
    requires place <= |PREFERENCE|
  {
    place == |PREFERENCE| || exists i :: 0 <= i <= place && ToLower(Trim(mode)) == PREFERENCE[i]
  }

  lemma RankIsPreference(a: string, b: string)
    ensures Rank(a) >= Rank(b) <==> forall place :: 0 <= place <= |PREFERENCE| && AsGoodAs(b, place) ==> AsGoodAs(a, place)
  {
    hide Rank, AsGoodAs;
    RankPlace(a);
    RankPlace(b);
    if Rank(a) < Rank(b) { assert AsGoodAs(b, 5 - Rank(b)) && !AsGoodAs(a, 5 - Rank(b)); }
  }

  lemma RankPlace(a: string)
    ensures Rank(a) <= 5 && forall place :: 0 <= place <= 5 ==> (AsGoodAs(a, place) <==> Rank(a) >= 5 - place)
  {
    hide Trim, ToLower;
    var m := ToLower(Trim(a));
    assert PREFERENCE[0] == "qmi" && PREFERENCE[1] == "mbim" && PREFERENCE[2] == "ncm";
    assert PREFERENCE[3] == "ecm" && PREFERENCE[4] == "rndis";
  }

  /** Of each modem with a key the best composition is kept: the kept entry is as good as any other entry
      of that modem, qmi before mbim before ncm before ecm before rndis before anything else. */
  lemma BestIsKept(hw: seq<Hardware>, out: seq<Hardware>, h: Hardware) returns (kept: Hardware)
    requires IsDeduped(hw, |hw|, out) && h in hw && Key(h.imei) != ""
    ensures kept in out && Key(kept.imei) == Key(h.imei)
    ensures forall place :: 0 <= place <= |PREFERENCE| && AsGoodAs(h.mode, place) ==> AsGoodAs(kept.mode, place)
  {
    hide Key, Rank;
    var j :| 0 <= j < |hw| && hw[j] == h;
    var i := SeenFirst(hw, j);
    var f := FirstSeen(hw, |hw|);
    var k :| 0 <= k < |f| && f[k] == i;
    kept := out[k];
    assert IsPrimary(hw, |hw|, i, kept);
    var b: nat :| b < |hw| && Key(hw[b].imei) == Key(hw[i].imei) && IsBest(hw, |hw|, b) && kept == hw[b];
    assert Rank(kept.mode) >= Rank(h.mode);
    RankIsPreference(kept.mode, h.mode);
  }

  lemma {:induction false} SeenFirst(hw: seq<Hardware>, j: nat) returns (i: nat)
    requires j < |hw| && Key(hw[j].imei) != ""
    ensures i <= j && Key(hw[i].imei) == Key(hw[j].imei) && i in FirstSeen(hw, |hw|)
  {
    hide Key;
    if IsFirst(hw, j) {
      SeenIn(hw, |hw|, j);
      return j;
    }
    var k :| 0 <= k < j && Key(hw[k].imei) == Key(hw[j].imei);
    i := SeenFirst(hw, k);
  }

  lemma {:induction false} SeenIn(hw: seq<Hardware>, n: nat, j: nat)
    requires j < n <= |hw| && IsFirst(hw, j)
    ensures j in FirstSeen(hw, n)
  {
    hide IsFirst;
    if j < n - 1 { SeenIn(hw, n - 1, j); }
  }

  /** The result is determined: whatever is de-duplicated satisfies exactly one list. */
  lemma DedupedIsUnique(hw: seq<Hardware>, a: seq<Hardware>, b: seq<Hardware>)
    requires IsDeduped(hw, |hw|, a) && IsDeduped(hw, |hw|, b)
    ensures a == b
  {
    hide Key, Rank;
    var f := FirstSeen(hw, |hw|);
    forall k | 0 <= k < |a| ensures a[k] == b[k] {
      assert IsPrimary(hw, |hw|, f[k], a[k]) && IsPrimary(hw, |hw|, f[k], b[k]);
    }
  }

  // ---- Pairing

  datatype Pair = Pair(config: Config, hardware: Hardware, backfill: string)

  /** The USB path decides alone where both sides have one; otherwise the control device or the
      interface may. */
  predicate PathMatch(c: Config, h: Hardware) {
    if Trim(c.usbPath) != "" && Trim(h.usbPath) != "" then Trim(c.usbPath) == Trim(h.usbPath)
    else
      || (Trim(c.controlDevice) != "" && Trim(c.controlDevice) == Trim(h.controlPath))
      || (Trim(c.netInterface) != "" && Trim(c.netInterface) == Trim(h.netInterface))
  }

  /** The first configuration with this key. */
  function WithKey(configs: seq<Config>, key: string): (r: Option<Config>)
    ensures r.Some? ==> r.value in configs && Key(r.value.imei) == key
    ensures r.None? ==> forall c :: c in configs ==> Key(c.imei) != key
  {
    if configs == [] then None
    else
      var before := WithKey(configs[..|configs| - 1], key);
      assert configs == configs[..|configs| - 1] + [configs[|configs| - 1]];
      if before.Some? then before
      else if Key(configs[|configs| - 1].imei) == key then Some(configs[|configs| - 1])
      else None
  }

  /** The configurations without a key, in order. */
  function Legacy(configs: seq<Config>): (r: seq<Config>)
    ensures forall c :: c in r <==> c in configs && Key(c.imei) == ""
  {
    if configs == [] then []
    else
      assert configs == configs[..|configs| - 1] + [configs[|configs| - 1]];
      Legacy(configs[..|configs| - 1]) + (if Key(configs[|configs| - 1].imei) == "" then [configs[|configs| - 1]] else [])
  }

  predicate Free(c: Config, used: set<string>, h: Hardware) { c.id !in used && PathMatch(c, h) }

  /** The first configuration that is not used yet and whose paths match. */
  function Take(legacy: seq<Config>, used: set<string>, h: Hardware): (r: Option<Config>)
    ensures r.Some? ==> r.value in legacy && Free(r.value, used, h)
    ensures r.None? ==> forall c :: c in legacy ==> !Free(c, used, h)
  {
    if legacy == [] then None
    else if Free(legacy[0], used, h) then Some(legacy[0])
    else Take(legacy[1..], used, h)
  }

  /** They share a path, and have no different USB paths. */
  predicate SharesPath(c: Config, h: Hardware) {
    && (Trim(c.usbPath) != "" && Trim(h.usbPath) != "" ==> Trim(c.usbPath) == Trim(h.usbPath))
    && (|| (Trim(c.usbPath) == Trim(h.usbPath) != "")
        || (Trim(c.controlDevice) == Trim(h.controlPath) != "")
        || (Trim(c.netInterface) == Trim(h.netInterface) != ""))
  }

  lemma SharesExactly(c: Config, h: Hardware)
    ensures PathMatch(c, h) <==> SharesPath(c, h)
  {
    hide Trim;
  }

  predicate IsFirstFree(legacy: seq<Config>, used: set<string>, h: Hardware, i: nat)
    requires i < |legacy|
  {
    && legacy[i].id !in used && SharesPath(legacy[i], h)
    && forall j :: 0 <= j < i ==> legacy[j].id in used || !SharesPath(legacy[j], h)
  }

  datatype Matching = Matching(matched: seq<Pair>, left: seq<Hardware>, used: set<string>)

  /** The first round: by key. What has a key that no configuration has is left. */
  function ByKey(hw: seq<Hardware>, configs: seq<Config>): Matching {
    if hw == [] then Matching([], [], {})
    else
      var m := ByKey(hw[..|hw| - 1], configs);
      var h := hw[|hw| - 1];
      if Key(h.imei) == "" then m
      else match WithKey(configs, Key(h.imei))
        case Some(c) => m.(matched := m.matched + [Pair(c, h, "")], used := m.used + {c.id})
        case None => m.(left := m.left + [h])
  }

  function WithoutKey(hw: seq<Hardware>): (r: seq<Hardware>)
    ensures forall h :: h in r ==> Key(h.imei) == ""
  {
    if hw == [] then []
    else WithoutKey(hw[..|hw| - 1]) + (if Key(hw[|hw| - 1].imei) == "" then [hw[|hw| - 1]] else [])
  }

  /** The later rounds: by paths, from the state a round before has reached. fill: the IMEI is given
      back for the configuration to keep. */
  function ByPath(start: Matching, hw: seq<Hardware>, legacy: seq<Config>, fill: bool): Matching {
    if hw == [] then start.(left := [])
    else
      var m := ByPath(start, hw[..|hw| - 1], legacy, fill);
      var h := hw[|hw| - 1];
      match Take(legacy, m.used, h)
      case Some(c) => m.(matched := m.matched + [Pair(c, h, if fill then Trim(h.imei) else "")], used := m.used + {c.id})
      case None => m.(left := m.left + [h])
  }

  datatype Resolution = Resolution(matched: seq<Pair>, unmatched: seq<Hardware>, offline: seq<Config>, degraded: seq<Hardware>)

  function Unused(configs: seq<Config>, used: set<string>): seq<Config> {
    if configs == [] then []
    else Unused(configs[..|configs| - 1], used) + (if configs[|configs| - 1].id !in used then [configs[|configs| - 1]] else [])
  }

  function Round1(hw: seq<Hardware>, configs: seq<Config>): Matching { ByKey(hw, configs) }

  function Round2(hw: seq<Hardware>, configs: seq<Config>): Matching {
    var m := Round1(hw, configs);
    ByPath(m, m.left, Legacy(configs), true)
  }

  function Round3(hw: seq<Hardware>, configs: seq<Config>): Matching {
    ByPath(Round2(hw, configs), WithoutKey(hw), Legacy(configs), false)
  }

  /** The resolution of hardware that has been de-duplicated. */
  function Resolve(hw: seq<Hardware>, configs: seq<Config>): Resolution {
    var m := Round3(hw, configs);
    Resolution(m.matched, Round2(hw, configs).left, Unused(configs, m.used), m.left)
  }

  // ---- The program's loops

  method TakeLegacyConfig(legacy: seq<Config>, used: set<string>, h: Hardware) returns (r: Option<Config>, now: set<string>)
    ensures r == Take(legacy, used, h)
    ensures r.Some? ==> exists i :: 0 <= i < |legacy| && legacy[i] == r.value && IsFirstFree(legacy, used, h, i)
    ensures now == if r.Some? then used + {r.value.id} else used
  {
    hide PathMatch, SharesPath;
    for i := 0 to |legacy|
      invariant Take(legacy, used, h) == Take(legacy[i..], used, h)
      invariant forall j :: 0 <= j < i ==> legacy[j].id in used || !SharesPath(legacy[j], h)
    {
      assert legacy[i..][0] == legacy[i] && legacy[i..][1..] == legacy[i + 1..];
      SharesExactly(legacy[i], h);
      if legacy[i].id in used { continue; }
      if PathMatch(legacy[i], h) {
        assert IsFirstFree(legacy, used, h, i);
        return Some(legacy[i]), used + {legacy[i].id};
      }
    }
    return None, used;
  }

  method IndexConfigs(configs: seq<Config>) returns (byKey: map<string, Config>, legacy: seq<Config>)
    ensures legacy == Legacy(configs)
    ensures forall key :: key != "" ==> (key in byKey <==> WithKey(configs, key).Some?)
    ensures forall key :: key in byKey ==> key != "" && WithKey(configs, key) == Some(byKey[key])
  {
    hide Key;
    byKey, legacy := map[], [];
    for i := 0 to |configs|
      invariant legacy == Legacy(configs[..i])
      invariant forall key :: key != "" ==> (key in byKey <==> WithKey(configs[..i], key).Some?)
      invariant forall key :: key in byKey ==> key != "" && WithKey(configs[..i], key) == Some(byKey[key])
    {
      assert configs[..i + 1][..i] == configs[..i];
      var key := NormalizeIMEI(configs[i].imei);
      if key != "" {
        if key !in byKey { byKey := byKey[key := configs[i]]; }
      } else {
        legacy := legacy + [configs[i]];
      }
    }
    assert configs[..|configs|] == configs;
  }

  method MatchByKey(hw: seq<Hardware>, byKey: map<string, Config>, ghost configs: seq<Config>)
    returns (m: Matching, imeiless: seq<Hardware>)
    requires forall key :: key != "" ==> (key in byKey <==> WithKey(configs, key).Some?)
    requires forall key :: key in byKey ==> key != "" && WithKey(configs, key) == Some(byKey[key])
    ensures m == ByKey(hw, configs) && imeiless == WithoutKey(hw)
  {
    hide Key, WithKey;
    m, imeiless := Matching([], [], {}), [];
    for i := 0 to |hw|
      invariant m == ByKey(hw[..i], configs) && imeiless == WithoutKey(hw[..i])
    {
      assert hw[..i + 1][..i] == hw[..i];
      var key := NormalizeIMEI(hw[i].imei);
      if key == "" {
        imeiless := imeiless + [hw[i]];
      } else if key in byKey {
        var c := byKey[key];
        m := m.(matched := m.matched + [Pair(c, hw[i], "")], used := m.used + {c.id});
      } else {
        m := m.(left := m.left + [hw[i]]);
      }
    }
    assert hw[..|hw|] == hw;
  }

  method MatchByPath(start: Matching, hw: seq<Hardware>, legacy: seq<Config>, fill: bool) returns (m: Matching)
    ensures m == ByPath(start, hw, legacy, fill)
  {
    hide Take;
    m := start.(left := []);
    for i := 0 to |hw|
      invariant m == ByPath(start, hw[..i], legacy, fill)
    {
      assert hw[..i + 1][..i] == hw[..i];
      var c, now := TakeLegacyConfig(legacy, m.used, hw[i]);
      if c.Some? {
        m := m.(matched := m.matched + [Pair(c.value, hw[i], if fill then Trim(hw[i].imei) else "")], used := now);
      } else {
        m := m.(left := m.left + [hw[i]]);
      }
    }
    assert hw[..|hw|] == hw;
  }

  method ResolveDeviceIdentities(hardware: seq<Hardware>, configs: seq<Config>) returns (r: Resolution)
    ensures exists hw :: IsDeduped(hardware, |hardware|, hw) && r == Resolve(hw, configs)
  {
    hide IsDeduped, Legacy, WithKey, ByKey, WithoutKey, ByPath, Unused;
    var primary := DedupeCompositions(hardware);
    var byKey, legacy := IndexConfigs(configs);
    var first, imeiless := MatchByKey(primary, byKey, configs);
    var second := MatchByPath(first, first.left, legacy, true);
    var third := MatchByPath(second, imeiless, legacy, false);
    var offline := Offline(configs, third.used);
    r := Resolution(third.matched, second.left, offline, third.left);
  }

  method Offline(configs: seq<Config>, used: set<string>) returns (r: seq<Config>)
    ensures r == Unused(configs, used)
  {
    r := [];
    for i := 0 to |configs|
      invariant r == Unused(configs[..i], used)
    {
      assert configs[..i + 1][..i] == configs[..i];
      if configs[i].id !in used { r := r + [configs[i]]; }
    }
    assert configs[..|configs|] == configs;
  }

  // ---- What the resolution guarantees

  function HardwareOf(pairs: seq<Pair>): seq<Hardware> { seq(|pairs|, i requires 0 <= i < |pairs| => pairs[i].hardware) }

  function IdsOf(pairs: seq<Pair>): set<string> { set p | p in pairs :: p.config.id }

  lemma PairAppended(pairs: seq<Pair>, p: Pair)
    ensures HardwareOf(pairs + [p]) == HardwareOf(pairs) + [p.hardware]
    ensures IdsOf(pairs + [p]) == IdsOf(pairs) + {p.config.id}
  {
    assert p in pairs + [p];
    forall id ensures id in IdsOf(pairs + [p]) <==> id in IdsOf(pairs) + {p.config.id} {
      assert forall q :: q in pairs + [p] <==> q in pairs || q == p;
    }
  }

  /** Appending to a list adds one to its multiset. */
  lemma OneMore(hw: seq<Hardware>, h: Hardware)
    ensures multiset(hw + [h]) == multiset(hw) + multiset{h}
  {
  }

  lemma OneMoreEachSide(a: multiset<Hardware>, b: multiset<Hardware>, c: multiset<Hardware>, h: Hardware)
    ensures a + (b + multiset{h}) == (a + b) + multiset{h} && (a + multiset{h}) + b == (a + b) + multiset{h}
    ensures (a + multiset{h}) + b + c == (a + b + c) + multiset{h} && a + (b + multiset{h}) + c == (a + b + c) + multiset{h}
    ensures a + b + (c + multiset{h}) == (a + b + c) + multiset{h}
  {
  }

  /** Where the hardware of a matching is. */
  ghost function Placed(m: Matching): multiset<Hardware> { multiset(HardwareOf(m.matched)) + multiset(m.left) }

  lemma PlacedOne(m: Matching, p: Pair)
    ensures Placed(m.(matched := m.matched + [p], used := m.used + {p.config.id})) == Placed(m) + multiset{p.hardware}
    ensures Placed(m.(left := m.left + [p.hardware])) == Placed(m) + multiset{p.hardware}
    ensures IdsOf(m.matched + [p]) == IdsOf(m.matched) + {p.config.id}
  {
    PairAppended(m.matched, p);
    OneMore(HardwareOf(m.matched), p.hardware);
    OneMore(m.left, p.hardware);
    hide HardwareOf, IdsOf;
    OneMoreEachSide(multiset(HardwareOf(m.matched)), multiset(m.left), multiset{}, p.hardware);
  }

  lemma {:induction false} ByKeyPartitions(hw: seq<Hardware>, configs: seq<Config>)
    ensures var m := ByKey(hw, configs); multiset(hw) == Placed(m) + multiset(WithoutKey(hw)) && m.used == IdsOf(m.matched)
  {
    hide Key, WithKey, Placed, IdsOf;
    if hw == [] {
      assert Placed(ByKey([], configs)) == multiset{} && IdsOf([]) == {} by { NothingPlaced(); }
    } else {
      var before, h := hw[..|hw| - 1], hw[|hw| - 1];
      ByKeyPartitions(before, configs);
      var m := ByKey(before, configs);
      var c := WithKey(configs, Key(h.imei));
      PlacedOne(m, Pair(if c.Some? then c.value else Config("", "", "", "", ""), h, ""));
      OneMore(before, h);
      OneMore(WithoutKey(before), h);
      assert hw == before + [h];
      OneMoreEachSide(Placed(m), multiset(WithoutKey(before)), multiset{}, h);
    }
  }

  lemma NothingPlaced()
    ensures Placed(Matching([], [], {})) == multiset{} && IdsOf([]) == {}
  {
    assert HardwareOf([]) == [];
  }

  lemma {:induction false} ByPathPartitions(start: Matching, hw: seq<Hardware>, legacy: seq<Config>, fill: bool)
    requires start.used == IdsOf(start.matched)
    ensures var m := ByPath(start, hw, legacy, fill); multiset(HardwareOf(start.matched)) + multiset(hw) == Placed(m) && m.used == IdsOf(m.matched)
  {
    hide Take, IdsOf, Trim, Placed, HardwareOf;
    if hw == [] {
      NothingLeft(start);
    } else {
      var before, h := hw[..|hw| - 1], hw[|hw| - 1];
      ByPathPartitions(start, before, legacy, fill);
      var m := ByPath(start, before, legacy, fill);
      var c := Take(legacy, m.used, h);
      PlacedOne(m, Pair(if c.Some? then c.value else Config("", "", "", "", ""), h, if fill then Trim(h.imei) else ""));
      OneMore(before, h);
      assert hw == before + [h];
      OneMoreEachSide(multiset(HardwareOf(start.matched)), multiset(before), multiset{}, h);
    }
  }

  lemma NothingLeft(m: Matching)
    ensures Placed(m.(left := [])) == multiset(HardwareOf(m.matched)) + multiset([])
  {
  }

  /** Matched, unmatched and degraded hardware partition the de-duplicated hardware. */
  lemma HardwareIsPartitioned(hw: seq<Hardware>, configs: seq<Config>)
    ensures var r := Resolve(hw, configs);
      multiset(hw) == multiset(HardwareOf(r.matched)) + multiset(r.unmatched) + multiset(r.degraded)
    ensures Round3(hw, configs).used == IdsOf(Resolve(hw, configs).matched)
  {
    hide ByKey, ByPath, WithoutKey, Legacy, HardwareOf, IdsOf;
    var m1, m2, m3 := Round1(hw, configs), Round2(hw, configs), Round3(hw, configs);
    ByKeyPartitions(hw, configs);
    ByPathPartitions(m1, m1.left, Legacy(configs), true);
    ByPathPartitions(m2, WithoutKey(hw), Legacy(configs), false);
    SumOfRounds(multiset(HardwareOf(m1.matched)), multiset(m1.left), multiset(WithoutKey(hw)),
                multiset(HardwareOf(m2.matched)), multiset(m2.left), multiset(HardwareOf(m3.matched)), multiset(m3.left));
  }

  lemma SumOfRounds(a: multiset<Hardware>, b: multiset<Hardware>, c: multiset<Hardware>,
                    d: multiset<Hardware>, e: multiset<Hardware>, f: multiset<Hardware>, g: multiset<Hardware>)
    requires a + b == d + e && d + c == f + g
    ensures a + b + c == f + e + g
  {
    forall h ensures (a + b + c)[h] == (f + e + g)[h] {
      assert (a + b)[h] == (d + e)[h] && (d + c)[h] == (f + g)[h];
    }
  }

  /** What makes a pair right: the same key; or a configuration without one whose paths match, with the
      IMEI given back exactly where the hardware has a key. */
  predicate PairIsRight(p: Pair, configs: seq<Config>) {
    && p.config in configs
    && (if Key(p.config.imei) != "" then Key(p.hardware.imei) == Key(p.config.imei) && p.backfill == ""
        else PathMatch(p.config, p.hardware) && p.backfill == if Key(p.hardware.imei) != "" then Trim(p.hardware.imei) else "")
  }

  lemma {:induction false} ByKeyIsRight(hw: seq<Hardware>, configs: seq<Config>)
    ensures var m := ByKey(hw, configs);
      && (forall p :: p in m.matched ==> PairIsRight(p, configs) && Key(p.config.imei) != "")
      && (forall h :: h in m.left ==> Key(h.imei) != "" && WithKey(configs, Key(h.imei)).None?)
  {
    hide Key, PathMatch;
    if hw != [] { ByKeyIsRight(hw[..|hw| - 1], configs); }
  }

  lemma {:induction false} ByPathIsRight(start: Matching, hw: seq<Hardware>, configs: seq<Config>, fill: bool)
    requires forall p :: p in start.matched ==> PairIsRight(p, configs)
    requires forall h :: h in hw ==> (Key(h.imei) != "" <==> fill)
    ensures var m := ByPath(start, hw, Legacy(configs), fill);
      && (forall p :: p in m.matched ==> PairIsRight(p, configs))
      && (forall h :: h in m.left ==> h in hw && (forall c :: c in Legacy(configs) ==> !Free(c, m.used, h)))
      && start.used <= m.used
  {
    hide Key, PathMatch;
    if hw != [] {
      var before := hw[..|hw| - 1];
      assert forall h :: h in before ==> h in hw;
      assert hw[|hw| - 1] in hw;
      ByPathIsRight(start, before, configs, fill);
    }
  }

  /** Every pair is right: a configuration with a valid IMEI is only ever paired with hardware of the
      same key, and one without only by its paths. Nothing that could be matched is left: the unmatched
      hardware has a key that no configuration has, the degraded has none, and every configuration
      without a key whose paths match theirs is taken. */
  lemma PairsAreRight(hw: seq<Hardware>, configs: seq<Config>)
    ensures var r := Resolve(hw, configs);
      && (forall p :: p in r.matched ==> PairIsRight(p, configs))
      && (forall h :: h in r.unmatched ==> Key(h.imei) != "" && WithKey(configs, Key(h.imei)).None?)
      && (forall h :: h in r.degraded ==> Key(h.imei) == "")
      && (forall h, c :: h in r.unmatched + r.degraded && c in configs && Key(c.imei) == "" && PathMatch(c, h) ==> c.id in IdsOf(r.matched))
  {
    hide Key, PathMatch, ByKey, ByPath, WithoutKey, WithKey;
    ByKeyIsRight(hw, configs);
    var m := Round1(hw, configs);
    ByPathIsRight(m, m.left, configs, true);
    ByPathIsRight(Round2(hw, configs), WithoutKey(hw), configs, false);
    HardwareIsPartitioned(hw, configs);
  }

  /** A pairing without identity rests on a shared path: the USB path where both sides have one, and two
      different ones forbid it; otherwise the control device or the interface. Conversely a configuration
      without IMEI is only left where no hardware left over shares a path with it. */
  lemma PathsDecide(hw: seq<Hardware>, configs: seq<Config>)
    ensures forall p :: p in Resolve(hw, configs).matched && Key(p.config.imei) == "" ==> SharesPath(p.config, p.hardware)
    ensures var r := Resolve(hw, configs);
      forall h, c :: h in r.unmatched + r.degraded && c in configs && Key(c.imei) == "" && SharesPath(c, h) ==>
        exists p :: p in r.matched && p.config.id == c.id
  {
    PairsAreRight(hw, configs);
    hide Key, Resolve, Trim, PathMatch, SharesPath;
    forall c: Config, h: Hardware ensures PathMatch(c, h) <==> SharesPath(c, h) { SharesExactly(c, h); }
  }

  /** Hardware with an IMEI comes first: where it is left over, no configuration that shares a path with
      it went to hardware without one. */
  lemma ImeilessComesLast(hw: seq<Hardware>, configs: seq<Config>, h: Hardware, c: Config)
    requires h in Resolve(hw, configs).unmatched && c in configs && Key(c.imei) == "" && SharesPath(c, h)
    ensures exists p :: p in Resolve(hw, configs).matched && p.config.id == c.id && Key(p.hardware.imei) != ""
  {
    SharesExactly(c, h);
    hide Key, PathMatch, ByKey, ByPath, WithoutKey, WithKey;
    ByKeyIsRight(hw, configs);
    var m1, m2 := Round1(hw, configs), Round2(hw, configs);
    ByPathIsRight(m1, m1.left, configs, true);
    ByKeyPartitions(hw, configs);
    ByPathPartitions(m1, m1.left, Legacy(configs), true);
    assert c in Legacy(configs) && !Free(c, m2.used, h);
    var p :| p in m2.matched && p.config.id == c.id;
    KeyedRounds(hw, configs);
    ByPathExtends(m2, WithoutKey(hw), Legacy(configs), false);
    assert p in Resolve(hw, configs).matched;
  }

  /** The first two rounds pair hardware with a key only. */
  lemma KeyedRounds(hw: seq<Hardware>, configs: seq<Config>)
    ensures forall p :: p in Round2(hw, configs).matched ==> Key(p.hardware.imei) != ""
  {
    ByKeyIsRight(hw, configs);
    var m := Round1(hw, configs);
    hide Key, ByKey, WithKey, PathMatch;
    assert forall p :: p in m.matched ==> PairIsRight(p, configs) && Key(p.hardware.imei) != "";
    ByPathKeyed(m, m.left, Legacy(configs), true);
  }

  lemma {:induction false} ByPathKeyed(start: Matching, hw: seq<Hardware>, legacy: seq<Config>, fill: bool)
    requires forall p :: p in start.matched ==> Key(p.hardware.imei) != ""
    requires forall h :: h in hw ==> Key(h.imei) != ""
    ensures forall p :: p in ByPath(start, hw, legacy, fill).matched ==> Key(p.hardware.imei) != ""
  {
    hide Key, Take, Trim;
    if hw != [] {
      var before := hw[..|hw| - 1];
      assert forall h :: h in before ==> h in hw;
      assert hw[|hw| - 1] in hw;
      ByPathKeyed(start, before, legacy, fill);
    }
  }

  lemma {:induction false} ByPathExtends(start: Matching, hw: seq<Hardware>, legacy: seq<Config>, fill: bool)
    ensures start.matched <= ByPath(start, hw, legacy, fill).matched
  {
    hide Key, Take, Trim;
    if hw != [] { ByPathExtends(start, hw[..|hw| - 1], legacy, fill); }
  }

  /** The identity goes first: hardware whose key some configuration has is paired with the first of
      them, whatever the paths say. */
  lemma {:induction false} IdentityGoesFirst(hw: seq<Hardware>, configs: seq<Config>, h: Hardware)
    requires h in hw && Key(h.imei) != "" && WithKey(configs, Key(h.imei)).Some?
    ensures Pair(WithKey(configs, Key(h.imei)).value, h, "") in Resolve(hw, configs).matched
  {
    hide Key, WithKey, Take;
    FoundByKey(hw, configs, h);
    var m := Round1(hw, configs);
    MatchedStays(m, m.left, Legacy(configs), true);
    MatchedStays(Round2(hw, configs), WithoutKey(hw), Legacy(configs), false);
  }

  lemma {:induction false} FoundByKey(hw: seq<Hardware>, configs: seq<Config>, h: Hardware)
    requires h in hw && Key(h.imei) != "" && WithKey(configs, Key(h.imei)).Some?
    ensures Pair(WithKey(configs, Key(h.imei)).value, h, "") in ByKey(hw, configs).matched
  {
    hide Key, WithKey;
    if h in hw[..|hw| - 1] { FoundByKey(hw[..|hw| - 1], configs, h); }
  }

  lemma {:induction false} MatchedStays(start: Matching, hw: seq<Hardware>, legacy: seq<Config>, fill: bool)
    ensures start.matched <= ByPath(start, hw, legacy, fill).matched
  {
    hide Take;
    if hw != [] { MatchedStays(start, hw[..|hw| - 1], legacy, fill); }
  }

  predicate DistinctIds(configs: seq<Config>) {
    forall i, j :: 0 <= i < j < |configs| ==> configs[i].id != configs[j].id
  }

  predicate NoneTwice(pairs: seq<Pair>) { forall i, j :: 0 <= i < j < |pairs| ==> pairs[i].config.id != pairs[j].config.id }

  lemma {:induction false} ByKeyNoneTwice(hw: seq<Hardware>, configs: seq<Config>)
    requires DistinctIds(configs) && DistinctKeys(hw)
    ensures NoneTwice(ByKey(hw, configs).matched)
    ensures forall p :: p in ByKey(hw, configs).matched ==> p.hardware in hw && p.config in configs && Key(p.config.imei) == Key(p.hardware.imei)
  {
    hide Key;
    if hw != [] {
      var before := hw[..|hw| - 1];
      var h := hw[|hw| - 1];
      ByKeyNoneTwice(before, configs);
      assert forall p :: p in ByKey(before, configs).matched ==> Key(p.config.imei) != Key(h.imei) || Key(h.imei) == "";
    }
  }

  lemma {:induction false} ByPathNoneTwice(start: Matching, hw: seq<Hardware>, legacy: seq<Config>, fill: bool)
    requires NoneTwice(start.matched) && start.used == IdsOf(start.matched)
    ensures NoneTwice(ByPath(start, hw, legacy, fill).matched)
  {
    hide Take;
    if hw != [] {
      var before := hw[..|hw| - 1];
      ByPathNoneTwice(start, before, legacy, fill);
      ByPathPartitions(start, before, legacy, fill);
      var m := ByPath(start, before, legacy, fill);
      assert forall p :: p in m.matched ==> p.config.id in IdsOf(m.matched);
    }
  }

  /** With distinct configuration IDs no configuration is matched twice. */
  lemma NoConfigTwice(hw: seq<Hardware>, configs: seq<Config>)
    requires DistinctIds(configs) && DistinctKeys(hw)
    ensures NoneTwice(Resolve(hw, configs).matched)
  {
    hide ByKey, ByPath, WithoutKey, NoneTwice, Key;
    ByKeyNoneTwice(hw, configs);
    ByKeyPartitions(hw, configs);
    var m := Round1(hw, configs);
    ByPathNoneTwice(m, m.left, Legacy(configs), true);
    ByPathPartitions(m, m.left, Legacy(configs), true);
    ByPathNoneTwice(Round2(hw, configs), WithoutKey(hw), Legacy(configs), false);
  }

  lemma {:induction false} UnusedMembers(configs: seq<Config>, used: set<string>)
    ensures forall c :: c in Unused(configs, used) <==> c in configs && c.id !in used
  {
    if configs != [] {
      UnusedMembers(configs[..|configs| - 1], used);
      assert configs == configs[..|configs| - 1] + [configs[|configs| - 1]];
    }
  }

  predicate IsMatched(c: Config, pairs: seq<Pair>) { exists p :: p in pairs && p.config == c }

  /** Offline are the configurations whose ID no matched one has. They are exactly the configurations
      that were not matched themselves, unless an unmatched one shares its ID with a matched one. */
  lemma OfflineExactly(hw: seq<Hardware>, configs: seq<Config>)
    ensures var r := Resolve(hw, configs);
      && (forall c :: c in r.offline <==> c in configs && c.id !in IdsOf(r.matched))
      && ((forall c :: c in configs ==> (c in r.offline <==> !IsMatched(c, r.matched))) <==>
          forall c, d :: c in configs && d in configs && c.id == d.id && IsMatched(d, r.matched) ==> IsMatched(c, r.matched))
  {
    hide Key, PathMatch, PairIsRight;
    var r := Resolve(hw, configs);
    HardwareIsPartitioned(hw, configs);
    PairsAreRight(hw, configs);
    hide Resolve;
    UnusedMembers(configs, Round3(hw, configs).used);
    assert r.offline == Unused(configs, Round3(hw, configs).used) by { OfflineIsUnused(hw, configs); }
    MatchedAreConfigs(hw, configs);
    forall c | c in configs ensures c.id in IdsOf(r.matched) <==> exists d :: d in configs && d.id == c.id && IsMatched(d, r.matched) {
      if c.id in IdsOf(r.matched) {
        var p :| p in r.matched && p.config.id == c.id;
        assert IsMatched(p.config, r.matched) && p.config in configs;
      }
    }
  }

  lemma OfflineIsUnused(hw: seq<Hardware>, configs: seq<Config>)
    ensures Resolve(hw, configs).offline == Unused(configs, Round3(hw, configs).used)
  {
  }

  lemma MatchedAreConfigs(hw: seq<Hardware>, configs: seq<Config>)
    ensures forall p :: p in Resolve(hw, configs).matched ==> p.config in configs
  {
    PairsAreRight(hw, configs);
  }

  /** With distinct IDs, then, offline and unmatched are the same. */
  lemma OfflineIsUnmatched(hw: seq<Hardware>, configs: seq<Config>, c: Config)
    requires DistinctIds(configs) && c in configs
    ensures c in Resolve(hw, configs).offline <==> !IsMatched(c, Resolve(hw, configs).matched)
  {
    OfflineExactly(hw, configs);
    hide Resolve;
    assert forall a, b :: a in configs && b in configs && a.id == b.id ==> a == b;
  }
}
