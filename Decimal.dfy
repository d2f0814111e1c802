/** Decimal rendering of integers as JavaScript prints them in a template
    literal (`${n}`) or with String(n), and `padStart(2, "0")` on that text.
    ParseNat and ParseInt read the text back; they are the inverse against
    which the rendering is proved injective. */
module Decimal {

  predicate IsDigit(c: char) { '0' <= c <= '9' }

  function DigitValue(c: char): int { c as int - '0' as int }

  function DigitChar(n: nat): (c: char)
    requires n < 10
    ensures IsDigit(c) && DigitValue(c) == n
  {
    (n + '0' as int) as char
  }

  /** Decimal digits of `n`, most significant first, without leading zeros. */
  function NatToString(n: nat): (s: string)
    ensures 1 <= |s|
    ensures |s| == 1 <==> n < 10
    ensures forall i :: 0 <= i < |s| ==> IsDigit(s[i])
  {
    if n < 10 then [DigitChar(n)] else NatToString(n / 10) + [DigitChar(n % 10)]
  }

  /** A minus sign in front of the digits of a negative number. */
  function IntToString(i: int): (s: string)
    ensures 1 <= |s|
    ensures s[0] == '-' <==> i < 0
  {
    if i < 0 then "-" + NatToString(-i) else NatToString(i)
  }

  /** `String(n).padStart(2, "0")`: one leading zero for a single digit. */
  function PadStart2(n: nat): (s: string)
    ensures n < 100 ==> |s| == 2 && ParseNat(s) == n
    ensures forall i :: 0 <= i < |s| ==> IsDigit(s[i])
    ensures 100 <= n ==> s == NatToString(n)
  {
    NatToStringRoundTrip(n);
    if n < 10 then
      assert ("0" + NatToString(n))[..1] == "0";
      "0" + NatToString(n)
    else
      NatToString(n)
  }

  /** The value of a string of digits read in base ten. */
  function ParseNat(s: string): int
  {
    if s == [] then 0 else 10 * ParseNat(s[..|s| - 1]) + DigitValue(s[|s| - 1])
  }

  /** The value of an optional minus sign followed by digits. */
  function ParseInt(s: string): int
  {
    if s != [] && s[0] == '-' then -ParseNat(s[1..]) else ParseNat(s)
  }

  lemma {:induction false} NatToStringRoundTrip(n: nat)
    ensures ParseNat(NatToString(n)) == n
  {
    if n >= 10 {
      var s := NatToString(n);
      assert s[..|s| - 1] == NatToString(n / 10);
      NatToStringRoundTrip(n / 10);
    }
  }

  lemma {:induction false} IntToStringRoundTrip(i: int)
    ensures ParseInt(IntToString(i)) == i
  {
    if i < 0 {
      assert IntToString(i)[1..] == NatToString(-i);
      NatToStringRoundTrip(-i);
    } else {
      NatToStringRoundTrip(i);
    }
  }

  /** Distinct integers print as distinct strings. */
  lemma {:induction false} IntToStringInjective(a: int, b: int)
    requires IntToString(a) == IntToString(b)
    ensures a == b
  {
    IntToStringRoundTrip(a);
    IntToStringRoundTrip(b);
  }

  /** Distinct two-digit numbers pad to distinct strings. */
  lemma PadStart2Injective(a: nat, b: nat)
    requires a < 100 && b < 100
    requires PadStart2(a) == PadStart2(b)
    ensures a == b
  {
  }
}
