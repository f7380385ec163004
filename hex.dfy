// bytes.hex(): two lowercase hexadecimal digits per byte, high nibble first.

module Hex {

  newtype byte = x: int | 0 <= x < 256

  /** A character `bytes.hex()` writes: `0`-`9` or `a`-`f`. */
  predicate IsHexDigit(c: char) {
    '0' <= c <= '9' || 'a' <= c <= 'f'
  }

  predicate IsLowerHex(s: string) {
    forall i :: 0 <= i < |s| ==> IsHexDigit(s[i])
  }

  /** The digit of a value below 16, as in `"0123456789abcdef"[v]`. */
  function Digit(v: nat): (c: char)
    requires v < 16
    ensures IsHexDigit(c)
  {
    if v < 10 then ('0' as int + v) as char else ('a' as int + v - 10) as char
  }

  /** The value of one hexadecimal digit. */
  function DigitValue(c: char): (v: nat)
    requires IsHexDigit(c)
    ensures v < 16 && Digit(v) == c
  {
    if c <= '9' then c as int - '0' as int else c as int - 'a' as int + 10
  }

  lemma DigitValueOf(v: nat)
    requires v < 16
    ensures DigitValue(Digit(v)) == v
  {
  }

  /** `bytes.hex()` */
  function ToHex(bytes: seq<byte>): (s: string)
    ensures |s| == 2 * |bytes|
    ensures IsLowerHex(s)
  {
    if |bytes| == 0 then ""
    else
      var b := bytes[0] as int;
      [Digit(b / 16), Digit(b % 16)] + ToHex(bytes[1..])
  }

  /** `bytes.fromhex(s)` on the texts `ToHex` produces: each pair of
    * digits gives one byte. */
  function FromHex(s: string): seq<byte>
    requires IsLowerHex(s)
  {
    if |s| < 2 then []
    else [(DigitValue(s[0]) * 16 + DigitValue(s[1])) as byte] + FromHex(s[2..])
  }

  /** The first two digits of the text of a byte string decode to its
    * first byte, and the rest of the text is that of the other bytes. */
  lemma FirstByte(bytes: seq<byte>)
    requires |bytes| > 0
    ensures var s := ToHex(bytes);
      s[2..] == ToHex(bytes[1..]) &&
      (DigitValue(s[0]) * 16 + DigitValue(s[1])) as byte == bytes[0]
  {
    var b := bytes[0] as int;
    var s := ToHex(bytes);
    assert s[0] == Digit(b / 16) && s[1] == Digit(b % 16);
    DigitValueOf(b / 16);
    DigitValueOf(b % 16);
  }

  /** The digits spell out the bytes: decoding gives them back, so two
    * different byte strings never share a hex text. */
  lemma {:induction false} FromToHex(bytes: seq<byte>)
    ensures FromHex(ToHex(bytes)) == bytes
    decreases |bytes|
  {
    if |bytes| > 0 {
      FirstByte(bytes);
      FromToHex(bytes[1..]);
      assert bytes == [bytes[0]] + bytes[1..];
    }
  }

  lemma ToHexInjective(a: seq<byte>, b: seq<byte>)
    requires ToHex(a) == ToHex(b)
    ensures a == b
  {
    FromToHex(a);
    FromToHex(b);
  }
}
