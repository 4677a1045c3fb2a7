/** Operator codes (the PLMN identifier of section 12.1 of 3GPP TS 23.003) between their text form and
    the numbers of a network registration request. */
module Plmn {
  import opened Text

  datatype Result<+T> = Ok(value: T) | Err

  datatype Mode = Automatic | Manual

  /** MNCLength is omitted: it is the length of mnc. */
  datatype Selection = Selection(mode: Mode, plmn: string, mcc: string, mnc: string, includesPcs: bool, rat: string)

  /** The numbers are 16 bits wide. */
  datatype Request = Request(mcc: nat, mnc: nat, includesPcs: bool)

  const MAX_UINT16: nat := 65535

  predicate AllDigits(s: string) { forall i :: 0 <= i < |s| ==> IsDigit(s[i]) }

  predicate WellFormed(plmn: string) { (|plmn| == 5 || |plmn| == 6) && AllDigits(plmn) }

  function Normalize(plmn: string): Result<Selection> {
    if !WellFormed(plmn) then Err
    else Ok(Selection(Automatic, plmn, plmn[..3], plmn[3..], |plmn[3..]| == 3, ""))
  }

  /** pcs, when given, overrides the length of the network code. */
  function NormalizeManual(plmn: string, rat: string, pcs: Result<bool>): Result<Selection> {
    match Normalize(plmn)
    case Err => Err
    case Ok(s) => Ok(s.(mode := Manual, rat := rat, includesPcs := if pcs.Ok? then pcs.value else s.includesPcs))
  }

  function Digit(c: char): nat
    requires IsDigit(c)
  {
    (c - '0') as nat
  }

  function DigitChar(d: nat): (c: char)
    requires d < 10
    ensures IsDigit(c) && Digit(c) == d
  {
    '0' + d as char
  }

  function Value(s: string): nat
    requires AllDigits(s)
  {
    if s == "" then 0 else Value(s[..|s| - 1]) * 10 + Digit(s[|s| - 1])
  }

  /** strconv.ParseUint, base 10, 16 bits. */
  function ParseUint16(s: string): Result<nat> {
    if s == "" || !AllDigits(s) || Value(s) > MAX_UINT16 then Err else Ok(Value(s))
  }

  function Build(s: Selection): Result<Request> {
    if !s.mode.Manual? then Err
    else
      var mcc := ParseUint16(s.mcc);
      var mnc := ParseUint16(s.mnc);
      if mcc.Err? || mnc.Err? then Err else Ok(Request(mcc.value, mnc.value, s.includesPcs))
  }

  function Decimal(n: nat): string { if n < 10 then [DigitChar(n)] else Decimal(n / 10) + [DigitChar(n % 10)] }

  function Zeros(n: nat): string { seq(n, _ => '0') }

  /** The %0wd format. */
  function Padded(n: nat, w: nat): string {
    var d := Decimal(n);
    if |d| >= w then d else Zeros(w - |d|) + d
  }

  /** The text that is printed back for a manual selection. */
  function Print(r: Request): string { Padded(r.mcc, 3) + Padded(r.mnc, if r.includesPcs then 3 else 2) }

  // ---- Digits

  function Pow10(w: nat): nat { if w == 0 then 1 else 10 * Pow10(w - 1) }

  /** The last w digits of n. */
  function Fixed(n: nat, w: nat): (r: string)
    ensures |r| == w && AllDigits(r)
  {
    if w == 0 then "" else Fixed(n / 10, w - 1) + [DigitChar(n % 10)]
  }

  lemma {:induction false} FixedOfZero(w: nat)
    ensures Fixed(0, w) == Zeros(w)
  {
    if w > 0 {
      FixedOfZero(w - 1);
      assert Zeros(w) == Zeros(w - 1) + ['0'];
      assert DigitChar(0) == '0';
    }
  }

  lemma {:induction false} DecimalIsFixed(n: nat)
    ensures |Decimal(n)| >= 1 && Decimal(n) == Fixed(n, |Decimal(n)|)
    ensures n < Pow10(|Decimal(n)|) && (n >= 10 ==> n >= Pow10(|Decimal(n)| - 1))
  {
    if n < 10 {
      assert Fixed(n, 1) == Fixed(n / 10, 0) + [DigitChar(n % 10)];
      assert Pow10(1) == 10 * Pow10(0);
    } else {
      DecimalIsFixed(n / 10);
    }
  }

  lemma {:induction false} PaddedIsFixed(n: nat, w: nat)
    requires w > 0 && n < Pow10(w)
    ensures Padded(n, w) == Fixed(n, w)
  {
    assert Pow10(1) == 10 * Pow10(0) == 10;
    if n < 10 {
      FixedOfZero(w - 1);
      assert Fixed(n, w) == Fixed(0, w - 1) + [DigitChar(n)];
    } else {
      PaddedIsFixed(n / 10, w - 1);
      assert Decimal(n) == Decimal(n / 10) + [DigitChar(n % 10)];
      if |Decimal(n)| < w {
        assert Padded(n, w) == Padded(n / 10, w - 1) + [DigitChar(n % 10)];
      }
    }
  }

  lemma {:induction false} FixedOfValue(s: string)
    requires AllDigits(s)
    ensures Fixed(Value(s), |s|) == s && Value(s) < Pow10(|s|)
  {
    if s != "" {
      FixedOfValue(s[..|s| - 1]);
      assert s == s[..|s| - 1] + [s[|s| - 1]];
    }
  }

  lemma {:induction false} ValueOfFixed(n: nat, w: nat)
    requires n < Pow10(w)
    ensures Value(Fixed(n, w)) == n
  {
    if w > 0 {
      ValueOfFixed(n / 10, w - 1);
      assert Fixed(n, w)[..w - 1] == Fixed(n / 10, w - 1);
    }
  }

  lemma Pow10Small()
    ensures Pow10(2) == 100 && Pow10(3) == 1000
  {
    assert Pow10(1) == 10 * Pow10(0) && Pow10(2) == 10 * Pow10(1) && Pow10(3) == 10 * Pow10(2);
  }

  lemma PaddedLength(n: nat, w: nat)
    requires w == 2 || w == 3
    ensures AllDigits(Padded(n, w))
    ensures |Padded(n, w)| == if n < 100 then w else if n < 1000 then 3 else |Decimal(n)|
    ensures n >= 1000 ==> |Padded(n, w)| > 3
    ensures n < 1000 ==> Padded(n, w) == Fixed(n, |Padded(n, w)|) && n < Pow10(|Padded(n, w)|)
  {
    Pow10Small();
    DecimalIsFixed(n);
    if n < Pow10(w) {
      PaddedIsFixed(n, w);
    } else {
      MoreDigits(n, w);
      if n < 1000 { PaddedIsFixed(n, 3); }
      if n >= 1000 { MoreDigits(n, 3); }
    }
    if |Decimal(n)| < w { assert Padded(n, w) == Fixed(n, w); }
  }

  lemma {:induction false} MoreDigits(n: nat, w: nat)
    requires n >= Pow10(w)
    ensures |Decimal(n)| > w
  {
    DecimalIsFixed(n);
    if |Decimal(n)| <= w { Pow10Grows(|Decimal(n)|, w); }
  }

  lemma {:induction false} Pow10Grows(a: nat, b: nat)
    requires a <= b
    ensures Pow10(a) <= Pow10(b)
  {
    if a < b { Pow10Grows(a, b - 1); }
  }

  // ---- Round trips

  /** Every 5- or 6-digit code becomes a registration request whose numbers fit 16 bits, with or without
      an override; anything else is refused. */
  lemma EveryCodeRegisters(plmn: string, rat: string, pcs: Result<bool>)
    ensures NormalizeManual(plmn, rat, pcs).Ok? <==> WellFormed(plmn)
    ensures WellFormed(plmn) ==>
      var b := Build(NormalizeManual(plmn, rat, pcs).value);
      b.Ok? && b.value.mcc <= 999 && b.value.mnc <= 999 && Fixed(b.value.mcc, 3) + Fixed(b.value.mnc, |plmn| - 3) == plmn
  {
    if WellFormed(plmn) {
      hide ParseUint16, Fixed;
      PartFits(plmn[..3]);
      PartFits(plmn[3..]);
      assert plmn == plmn[..3] + plmn[3..];
    }
  }

  lemma PartFits(s: string)
    requires AllDigits(s) && (|s| == 2 || |s| == 3)
    ensures ParseUint16(s).Ok? && ParseUint16(s).value <= 999 && Fixed(ParseUint16(s).value, |s|) == s
  {
    Pow10Small();
    FixedOfValue(s);
    hide Value, Fixed, Pow10;
  }

  /** A manual selection keeps the code and the radio technology; the marker is the override's, or else set
      for six-digit codes. */
  lemma SelectionKeeps(plmn: string, rat: string, pcs: Result<bool>)
    requires WellFormed(plmn)
    ensures var s := NormalizeManual(plmn, rat, pcs);
      s.Ok? && s.value.mode.Manual? && s.value.plmn == plmn && s.value.mcc + s.value.mnc == plmn && s.value.rat == rat
      && s.value.includesPcs == if pcs.Ok? then pcs.value else |plmn| == 6
  {
    assert plmn[..3] + plmn[3..] == plmn;
  }

  /** The request that registering a code sends. */
  function Registered(plmn: string, rat: string, pcs: Result<bool>): Request
    requires WellFormed(plmn)
  {
    EveryCodeRegisters(plmn, rat, pcs);
    Build(NormalizeManual(plmn, rat, pcs).value).value
  }

  /** A code that was registered is printed back as it was given exactly when the override, if any, is
      the one its own length implies, or drops the marker of a six-digit code whose network code needs
      three digits anyway. */
  lemma PrintedBack(plmn: string, rat: string, pcs: Result<bool>)
    requires WellFormed(plmn)
    ensures var r := Registered(plmn, rat, pcs);
      Print(r) == plmn <==> pcs.Err? || pcs.value == (|plmn| == 6) || (|plmn| == 6 && r.mnc >= 100)
  {
    EveryCodeRegisters(plmn, rat, pcs);
    var r := Registered(plmn, rat, pcs);
    var w := if r.includesPcs then 3 else 2;
    PaddedLength(r.mcc, 3);
    PaddedLength(r.mnc, w);
    Pow10Small();
    FixedOfValue(plmn[3..]);
    assert plmn == plmn[..3] + plmn[3..];
    if Print(r) == plmn {
      assert |Padded(r.mnc, w)| == |plmn| - 3;
    } else {
      assert Padded(r.mnc, w) != Fixed(r.mnc, |plmn| - 3);
    }
  }

  /** What the modem holds is understood again exactly when both numbers have at most three digits; the
      marker is kept exactly when it is set or the network code is below 100. */
  lemma ReadBack(r: Request)
    requires r.mcc <= MAX_UINT16 && r.mnc <= MAX_UINT16
    ensures var s := NormalizeManual(Print(r), "", Err);
      && (s.Ok? && Build(s.value).Ok? && Build(s.value).value.(includesPcs := r.includesPcs) == r <==> r.mcc <= 999 && r.mnc <= 999)
      && (r.mcc <= 999 && r.mnc <= 999 ==> (Build(s.value).value == r <==> r.includesPcs || r.mnc < 100))
  {
    var w := if r.includesPcs then 3 else 2;
    PaddedLength(r.mcc, 3);
    PaddedLength(r.mnc, w);
    var p := Print(r);
    EveryCodeRegisters(p, "", Err);
    if r.mcc <= 999 && r.mnc <= 999 {
      assert p[..3] == Padded(r.mcc, 3) && p[3..] == Padded(r.mnc, w);
      ValueOfFixed(r.mcc, 3);
      ValueOfFixed(r.mnc, |Padded(r.mnc, w)|);
      assert AllDigits(p);
    }
  }
}
