/**
 * Textual forms the modelled code writes and parses: decimal numbers (Int32.ToString / Int32.TryParse,
 * and the integer stand-ins for Guid and DateTime text), Boolean.ToString / Boolean.TryParse, and the
 * String.Split / String.Contains / String.StartsWith helpers the cookie code uses.
 */
module Text {
  import opened Wrappers

  predicate IsDigit(c: char) { '0' <= c <= '9' }

  predicate AllDigits(s: string) { forall i | 0 <= i < |s| :: IsDigit(s[i]) }

  function DigitChar(d: nat): (c: char)
    requires d < 10
    ensures IsDigit(c) && DigitValue(c) == d
  {
    ('0' as int + d) as char
  }

  function DigitValue(c: char): nat
    requires IsDigit(c)
  {
    c as int - '0' as int
  }

  /** Decimal rendering of a natural number, most significant digit first, no leading zeros. */
  function NatText(n: nat): string
    decreases n
  {
    if n < 10 then [DigitChar(n)] else NatText(n / 10) + [DigitChar(n % 10)]
  }

  /** The value of a non-empty run of decimal digits. */
  function DigitsValue(s: string): nat
    requires AllDigits(s)
    decreases |s|
  {
    if s == [] then 0 else 10 * DigitsValue(s[..|s| - 1]) + DigitValue(s[|s| - 1])
  }

  /** Parses a non-empty run of decimal digits (leading zeros allowed). */
  function ParseNat(s: string): Option<nat>
  {
    if s != [] && AllDigits(s) then Some(DigitsValue(s)) else None
  }

  lemma {:induction false} NatTextDigits(n: nat)
    ensures |NatText(n)| > 0 && AllDigits(NatText(n))
    ensures DigitsValue(NatText(n)) == n
    decreases n
  {
    if n >= 10 {
      NatTextDigits(n / 10);
      var s := NatText(n);
      assert s[..|s| - 1] == NatText(n / 10);
    }
  }

  /** Parsing the rendering of a number gives the number back. */
  lemma ParseNatText(n: nat)
    ensures ParseNat(NatText(n)) == Some(n)
  {
    NatTextDigits(n);
  }

  lemma NatTextInjective(m: nat, n: nat)
    requires NatText(m) == NatText(n)
    ensures m == n
  {
    ParseNatText(m);
    ParseNatText(n);
  }

  /** Int32.ToString / Int64.ToString in the invariant culture. */
  function IntText(i: int): string
  {
    if i < 0 then "-" + NatText(-i) else NatText(i)
  }

  /** An optional sign followed by decimal digits, with no range limit. */
  function ParseInteger(s: string): Option<int>
  {
    if |s| > 0 && (s[0] == '-' || s[0] == '+') then
      match ParseNat(s[1..])
      case None => None
      case Some(n) => Some(if s[0] == '-' then -(n as int) else n as int)
    else
      match ParseNat(s)
      case None => None
      case Some(n) => Some(n)
  }

  lemma ParseIntegerText(i: int)
    ensures ParseInteger(IntText(i)) == Some(i)
  {
    if i < 0 {
      ParseNatText(-i);
      assert IntText(i)[1..] == NatText(-i);
    } else {
      NatTextDigits(i);
      ParseNatText(i);
      assert IsDigit(IntText(i)[0]);
    }
  }

  lemma IntTextInjective(i: int, j: int)
    requires IntText(i) == IntText(j)
    ensures i == j
  {
    ParseIntegerText(i);
    ParseIntegerText(j);
  }

  predicate IsInt32(i: int) { -0x8000_0000 <= i < 0x8000_0000 }

  /** Int32.TryParse: fails on malformed text and on values outside the Int32 range. */
  function ParseInt32(s: string): Option<int>
  {
    match ParseInteger(s)
    case Some(v) => if IsInt32(v) then Some(v) else None
    case None => None
  }

  lemma ParseInt32Text(i: int)
    requires IsInt32(i)
    ensures ParseInt32(IntText(i)) == Some(i)
  {
    ParseIntegerText(i);
  }

  /** Boolean.ToString. */
  function BoolText(b: bool): string
  {
    if b then "True" else "False"
  }

  function LowerChar(c: char): char
  {
    if 'A' <= c <= 'Z' then (c as int + 32) as char else c
  }

  function AsciiLower(s: string): (r: string)
    ensures |r| == |s|
  {
    seq(|s|, i requires 0 <= i < |s| => LowerChar(s[i]))
  }

  /** Boolean.TryParse: "true" or "false" in any letter case. */
  function ParseBool(s: string): Option<bool>
  {
    var l := AsciiLower(s);
    if l == "true" then Some(true) else if l == "false" then Some(false) else None
  }

  lemma ParseBoolText(b: bool)
    ensures ParseBool(BoolText(b)) == Some(b)
  {
    if b {
      assert AsciiLower("True") == "true";
    } else {
      assert AsciiLower("False") == "false";
    }
  }

  /** The flag value `bool.TryParse(text, out v) ? v : false` gives for an optional text. */
  function FlagValue(text: Option<string>): bool
  {
    text.Some? && ParseBool(text.value) == Some(true)
  }

  /** String.Split(c)[0]: the text before the first occurrence of c, or all of it. */
  function FirstSegment(s: string, c: char): (r: string)
    ensures |r| <= |s| && r == s[..|r|]
  {
    if s == [] || s[0] == c then [] else [s[0]] + FirstSegment(s[1..], c)
  }

  lemma {:induction false} FirstSegmentBefore(a: string, c: char, b: string)
    requires c !in a
    ensures FirstSegment(a + [c] + b, c) == a
  {
    if a != [] {
      assert (a + [c] + b)[1..] == a[1..] + [c] + b;
      FirstSegmentBefore(a[1..], c, b);
    }
  }

  /** The text after the first occurrence of c (String.Split(c) from index 1 on, rejoined). */
  function AfterFirst(s: string, c: char): string
    requires c in s
  {
    if s[0] == c then s[1..] else AfterFirst(s[1..], c)
  }

  predicate StartsWith(s: string, p: string)
  {
    |p| <= |s| && s[..|p|] == p
  }

  /** String.Contains. */
  predicate Contains(s: string, sub: string)
    decreases |s|
  {
    StartsWith(s, sub) || (|s| > 0 && Contains(s[1..], sub))
  }
}
