/** The string helpers the modelled code shares: trimming, case mapping and the
    comparison form of SIM identities. Strings are sequences of code points. */
module Text {

  /** The code points that Go's unicode.IsSpace accepts. */
  predicate IsSpace(c: char) {
    || '\U{0009}' <= c <= '\U{000D}'
    || c in {' ', '\U{0085}', '\U{00A0}', '\U{1680}', '\U{2028}', '\U{2029}', '\U{202F}', '\U{205F}', '\U{3000}'}
    || '\U{2000}' <= c <= '\U{200A}'
  }

  function TrimLeft(s: string): string { if s == "" || !IsSpace(s[0]) then s else TrimLeft(s[1..]) }

  function TrimRight(s: string): string { if s == "" || !IsSpace(s[|s| - 1]) then s else TrimRight(s[..|s| - 1]) }

  /** strings.TrimSpace */
  function Trim(s: string): string { TrimRight(TrimLeft(s)) }

  lemma {:induction false} LeftEnd(s: string)
    ensures TrimLeft(s) == "" || !IsSpace(TrimLeft(s)[0])
  {
    hide IsSpace;
    if s != "" && IsSpace(s[0]) { LeftEnd(s[1..]); }
  }

  lemma {:induction false} RightEnd(s: string)
    ensures TrimRight(s) <= s && (TrimRight(s) == "" || !IsSpace(TrimRight(s)[|TrimRight(s)| - 1]))
  {
    hide IsSpace;
    if s != "" && IsSpace(s[|s| - 1]) { RightEnd(s[..|s| - 1]); }
  }

  /** What is trimmed has no space at either end, so trimming it again changes nothing. */
  lemma TrimIdempotent(s: string)
    ensures Trim(Trim(s)) == Trim(s)
    ensures Trim(s) == "" || (!IsSpace(Trim(s)[0]) && !IsSpace(Trim(s)[|Trim(s)| - 1]))
  {
    hide IsSpace;
    LeftEnd(s);
    RightEnd(TrimLeft(s));
    var r := Trim(s);
    assert r != "" ==> r[0] == TrimLeft(s)[0];
    assert TrimLeft(r) == r && TrimRight(r) == r;
  }

  predicate AllSpace(s: string) { forall i :: 0 <= i < |s| ==> IsSpace(s[i]) }

  lemma {:induction false} LeftSplits(s: string) returns (a: string)
    ensures s == a + TrimLeft(s) && AllSpace(a)
  {
    hide IsSpace;
    if s == "" || !IsSpace(s[0]) { return ""; }
    a := LeftSplits(s[1..]);
    a := [s[0]] + a;
  }

  lemma {:induction false} RightSplits(s: string) returns (b: string)
    ensures s == TrimRight(s) + b && AllSpace(b)
  {
    hide IsSpace;
    if s == "" || !IsSpace(s[|s| - 1]) { return ""; }
    b := RightSplits(s[..|s| - 1]);
    b := b + [s[|s| - 1]];
  }

  /** Trimming removes only space, and only at the ends. */
  lemma TrimExactly(s: string) returns (a: string, b: string)
    ensures s == a + Trim(s) + b && AllSpace(a) && AllSpace(b)
    ensures Trim(s) == "" || (!IsSpace(Trim(s)[0]) && !IsSpace(Trim(s)[|Trim(s)| - 1]))
  {
    hide IsSpace, AllSpace, TrimLeft, TrimRight;
    a := LeftSplits(s);
    b := RightSplits(TrimLeft(s));
    TrimIdempotent(s);
    assert a + (Trim(s) + b) == a + Trim(s) + b;
  }

  /** A text without space at its ends is left as it is. */
  lemma TrimLeaves(s: string)
    requires s == "" || (!IsSpace(s[0]) && !IsSpace(s[|s| - 1]))
    ensures Trim(s) == s
  {
    hide IsSpace;
  }

  /** unicode.ToUpper on ASCII, with the two other code points it maps into ASCII. */
  function UpperChar(c: char): char {
    if 'a' <= c <= 'z' then c - 'a' + 'A'
    else if c == '\U{0131}' then 'I'
    else if c == '\U{017F}' then 'S'
    else c
  }

  /** unicode.ToLower on ASCII, with the two other code points it maps into ASCII. */
  function LowerChar(c: char): char {
    if 'A' <= c <= 'Z' then c - 'A' + 'a'
    else if c == '\U{0130}' then 'i'
    else if c == '\U{212A}' then 'k'
    else c
  }

  function ToUpper(s: string): (r: string)
    ensures |r| == |s|
    ensures forall i :: 0 <= i < |s| ==> r[i] == UpperChar(s[i])
  {
    seq(|s|, i requires 0 <= i < |s| => UpperChar(s[i]))
  }

  function ToLower(s: string): (r: string)
    ensures |r| == |s|
    ensures forall i :: 0 <= i < |s| ==> r[i] == LowerChar(s[i])
  {
    seq(|s|, i requires 0 <= i < |s| => LowerChar(s[i]))
  }

  predicate IsDigit(c: char) { '0' <= c <= '9' }

  /** The digits of s, in order. */
  function Digits(s: string): (r: string)
    ensures forall i :: 0 <= i < |r| ==> IsDigit(r[i])
    ensures |r| <= |s|
  {
    if s == "" then ""
    else if IsDigit(s[0]) then [s[0]] + Digits(s[1..])
    else Digits(s[1..])
  }

  lemma {:induction false} DigitsAppend(s: string, c: char)
    ensures Digits(s + [c]) == Digits(s) + (if IsDigit(c) then [c] else "")
  {
    if s == "" {
      assert s + [c] == [c] && [c][1..] == "";
    } else {
      assert (s + [c])[1..] == s[1..] + [c];
      DigitsAppend(s[1..], c);
    }
  }

  /** The digits of a text are those of its parts, in order. */
  lemma {:induction false} DigitsOfParts(s: string, t: string)
    ensures Digits(s + t) == Digits(s) + Digits(t)
  {
    if s == "" {
      assert s + t == t;
    } else {
      assert (s + t)[1..] == s[1..] + t;
      DigitsOfParts(s[1..], t);
    }
  }

  /** A text of digits is its own digits. */
  lemma {:induction false} DigitsOfDigits(s: string)
    requires forall i :: 0 <= i < |s| ==> '0' <= s[i] <= '9'
    ensures Digits(s) == s
  {
    if s != "" {
      assert forall i :: 0 <= i < |s[1..]| ==> s[1..][i] == s[i + 1];
      DigitsOfDigits(s[1..]);
    }
  }
}
