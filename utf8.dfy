/**
 * UTF-8, the character encoding that `URLEncoder.encode(s, "UTF-8")` applies
 * to a Java string before it escapes the bytes (RFC 3629, section 3).
 * Dafny's `char` is a Unicode scalar value, so every character has exactly one
 * encoding of one to four bytes.
 */
module Utf8 {

  newtype byte = x: int | 0 <= x < 256

  /** The bytes of one character, most significant bits first. */
  function EncodeChar(c: char): (r: seq<byte>)
    ensures 1 <= |r| <= 4
    ensures c < '\U{80}' <==> |r| == 1
    ensures c < '\U{80}' ==> r == [c as int as byte]
    ensures c >= '\U{80}' ==> forall i :: 0 <= i < |r| ==> r[i] >= 0x80
  {
    var n := c as int;
    if n < 0x80 then
      [n as byte]
    else if n < 0x800 then
      [(0xC0 + n / 0x40) as byte, (0x80 + n % 0x40) as byte]
    else if n < 0x1_0000 then
      [(0xE0 + n / 0x1000) as byte, (0x80 + n / 0x40 % 0x40) as byte, (0x80 + n % 0x40) as byte]
    else
      [(0xF0 + n / 0x4_0000) as byte, (0x80 + n / 0x1000 % 0x40) as byte,
       (0x80 + n / 0x40 % 0x40) as byte, (0x80 + n % 0x40) as byte]
  }

  /** The UTF-8 bytes of a whole string: the encodings of its characters, in order. */
  function Encode(s: string): (r: seq<byte>)
    ensures |r| >= |s|
    ensures (forall i :: 0 <= i < |s| ==> s[i] < '\U{80}') ==> |r| == |s|
  {
    if s == [] then [] else EncodeChar(s[0]) + Encode(s[1..])
  }
}
