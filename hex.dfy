/** Hexadecimal text as JavaScript writes it with Number.prototype.toString(16)
    and as the controller's `_numHex` pads it to an even number of digits. */
module Hex {

  predicate IsLowerHexDigit(c: char) {
    '0' <= c <= '9' || 'a' <= c <= 'f'
  }

  predicate IsHexDigit(c: char) {
    IsLowerHexDigit(c) || 'A' <= c <= 'F'
  }

  predicate AllHex(s: string) {
    forall i :: 0 <= i < |s| ==> IsHexDigit(s[i])
  }

  predicate AllLowerHex(s: string) {
    forall i :: 0 <= i < |s| ==> IsLowerHexDigit(s[i])
  }

  function DigitValue(c: char): (d: nat)
    requires IsHexDigit(c)
    ensures d < 16
  {
    if '0' <= c <= '9' then c as int - '0' as int
    else if 'a' <= c <= 'f' then c as int - 'a' as int + 10
    else c as int - 'A' as int + 10
  }

  /** The lower-case digit for d. */
  function Digit(d: nat): (c: char)
    requires d < 16
    ensures IsLowerHexDigit(c) && DigitValue(c) == d
  {
    if d < 10 then ('0' as int + d) as char else ('a' as int + d - 10) as char
  }

  /** The value of a string of hex digits, most significant digit first
      (what parseInt(s, 16) gives for such a string). */
  function ParseHex(s: string): nat
    requires AllHex(s)
  {
    if s == [] then 0 else 16 * ParseHex(s[..|s| - 1]) + DigitValue(s[|s| - 1])
  }

  /** n.toString(16) for a non-negative integer n: no leading zeros, "0" for zero. */
  function ToHex(n: nat): (s: string)
    ensures |s| >= 1
  {
    if n < 16 then [Digit(n)] else ToHex(n / 16) + [Digit(n % 16)]
  }

  /** n.toString(16) for any integer n: a minus sign before the digits of |n|. */
  function JsHex(n: int): string {
    if n < 0 then "-" + ToHex(-n) else ToHex(n)
  }

  /** A leading "0" when the text has an odd number of characters. */
  function Pad(a: string): (r: string)
    ensures |r| % 2 == 0
    ensures r == a || r == "0" + a
  {
    if |a| % 2 > 0 then "0" + a else a
  }

  /** `_numHex(n)` for an integer n. */
  function NumHex(n: int): (r: string)
    ensures |r| % 2 == 0
  {
    Pad(JsHex(n))
  }

  /** toString(16) writes lower-case digits only. */
  lemma {:induction false} ToHexLower(n: nat)
    ensures AllLowerHex(ToHex(n))
  {
    if n >= 16 {
      ToHexLower(n / 16);
      var s, d := ToHex(n / 16), Digit(n % 16);
      assert forall i :: 0 <= i < |s| ==> (s + [d])[i] == s[i];
    }
  }

  lemma {:induction false} ParseToHex(n: nat)
    ensures AllHex(ToHex(n))
    ensures ParseHex(ToHex(n)) == n
  {
    ToHexLower(n);
    if n >= 16 {
      ParseToHex(n / 16);
      var s := ToHex(n);
      assert s[..|s| - 1] == ToHex(n / 16);
    }
  }

  /** A "0" in front does not change the value. */
  lemma {:induction false} ParseLeadingZero(s: string)
    requires AllHex(s)
    ensures AllHex("0" + s) && ParseHex("0" + s) == ParseHex(s)
  {
    if s != [] {
      ParseLeadingZero(s[..|s| - 1]);
      assert ("0" + s)[..|"0" + s| - 1] == "0" + s[..|s| - 1];
    }
  }

  /** ToHex writes no superfluous leading zero. */
  lemma {:induction false} ToHexCanonical(n: nat)
    ensures ToHex(n)[0] == '0' <==> n == 0
  {
    if n >= 16 {
      ToHexCanonical(n / 16);
    }
  }

  /** One digit below 16, two below 256, at least three from 256 on. */
  lemma {:induction false} ToHexLength(n: nat)
    ensures |ToHex(n)| == 1 <==> n < 16
    ensures |ToHex(n)| == 2 <==> 16 <= n < 256
    ensures |ToHex(n)| >= 3 <==> n >= 256
  {
    if n >= 16 {
      ToHexLength(n / 16);
    }
  }

  /** `_numHex` of a non-negative integer: an even number of lower-case hex
      digits denoting n, exactly two up to 255 and four or more from 256 on. */
  lemma NumHexSpec(n: nat)
    ensures AllLowerHex(NumHex(n)) && |NumHex(n)| % 2 == 0
    ensures ParseHex(NumHex(n)) == n
    ensures |NumHex(n)| == 2 <==> n <= 255
    ensures |NumHex(n)| >= 4 <==> n >= 256
  {
    var a := ToHex(n);
    ToHexLower(n);
    ToHexLength(n);
    ParseToHex(n);
    if |a| % 2 > 0 {
      ParseLeadingZero(a);
      assert NumHex(n) == "0" + a;
      assert forall i :: 1 <= i < |"0" + a| ==> ("0" + a)[i] == a[i - 1];
    }
  }

  /** A negative argument keeps JavaScript's minus sign: the result is the sign,
      possibly preceded by a padding "0", followed by the digits of -n. */
  lemma NumHexNegative(n: int)
    requires n < 0
    ensures NumHex(n) == "-" + ToHex(-n) || NumHex(n) == "0-" + ToHex(-n)
    ensures |NumHex(n)| % 2 == 0
  {
  }
}
