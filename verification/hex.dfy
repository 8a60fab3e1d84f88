/**
 Text of an unsigned value written to a stream after std::hex: lowercase hexadecimal digits,
 no prefix, no padding, and a single "0" for zero.
 */
module HexText {

  const Digits := "0123456789abcdef"

  predicate IsHexDigit(c: char)
  {
    c in Digits
  }

  function Digit(d: nat): (c: char)
    requires d < 16
    ensures IsHexDigit(c)
  {
    Digits[d]
  }

  /** The value of a lowercase hexadecimal digit. */
  function DigitValue(c: char): (d: nat)
    requires IsHexDigit(c)
    ensures d < 16 && Digit(d) == c
  {
    if c <= '9' then c as nat - '0' as nat else c as nat - 'a' as nat + 10
  }

  function ToHex(n: nat): (s: string)
    ensures |s| > 0
    ensures forall i :: 0 <= i < |s| ==> IsHexDigit(s[i])
    decreases n
  {
    if n < 16 then [Digit(n)] else ToHex(n / 16) + [Digit(n % 16)]
  }

  /** Reading a string of hexadecimal digits back as a number. */
  function ParseHex(s: string): nat
    requires forall i :: 0 <= i < |s| ==> IsHexDigit(s[i])
  {
    if |s| == 0 then 0 else ParseHex(s[..|s| - 1]) * 16 + DigitValue(s[|s| - 1])
  }

  lemma DigitValueOfDigit(d: nat)
    requires d < 16
    ensures DigitValue(Digit(d)) == d
  {
  }

  /** The text denotes the value, so no two values share a text. */
  lemma {:induction false} ParseToHex(n: nat)
    ensures ParseHex(ToHex(n)) == n
    decreases n
  {
    var s := ToHex(n);
    DigitValueOfDigit(n % 16);
    if n >= 16 {
      ParseToHex(n / 16);
      assert s[..|s| - 1] == ToHex(n / 16);
    }
  }

  /** No leading zero, and at most three digits for a 12-bit value. */
  lemma {:induction false} ToHexShape(n: nat)
    ensures |ToHex(n)| > 1 ==> ToHex(n)[0] != '0'
    ensures n < 0x10 ==> |ToHex(n)| == 1
    ensures n < 0x1000 ==> |ToHex(n)| <= 3
    decreases n
  {
    if n >= 16 {
      ToHexShape(n / 16);
    }
  }
}
