/**
 * `URLComponentEncoder.encode`: Java's `URLEncoder.encode(s, "UTF-8")`, which is
 * the application/x-www-form-urlencoded byte serializer of the WHATWG URL
 * Standard, section 5.2. ASCII letters, digits and `*-._` stand for themselves,
 * the space byte becomes `+`, and every other byte of the UTF-8 encoding becomes
 * `%` followed by two upper-case hexadecimal digits.
 *
 * `Decode` is the matching form-decoder (the inverse direction); it is not part
 * of the source and serves to state that encoding loses nothing.
 */
module UrlComponent {
  import opened Basics
  import Utf8

  type byte = Utf8.byte

  /** The bytes the serializer keeps as they are. */
  predicate IsKept(b: byte) {
    || (0x30 <= b <= 0x39)   // 0-9
    || (0x41 <= b <= 0x5A)   // A-Z
    || (0x61 <= b <= 0x7A)   // a-z
    || b == 0x2A || b == 0x2D || b == 0x2E || b == 0x5F   // * - . _
  }

  /** The characters an encoded component can contain: `[A-Za-z0-9*._+%-]`. */
  predicate IsEncodedChar(c: char) {
    || ('0' <= c <= '9') || ('A' <= c <= 'Z') || ('a' <= c <= 'z')
    || c == '*' || c == '-' || c == '.' || c == '_' || c == '+' || c == '%'
  }

  /** An upper-case hexadecimal digit. */
  function HexDigit(d: int): (c: char)
    requires 0 <= d < 16
    ensures IsEncodedChar(c) && c != '%' && c != '+'
    ensures HexValue(c) == Some(d)
  {
    if d < 10 then ('0' as int + d) as char else ('A' as int + d - 10) as char
  }

  /** The value of a hexadecimal digit of either case. */
  function HexValue(c: char): (r: Option<int>)
    ensures r.Some? ==> 0 <= r.value < 16
  {
    if '0' <= c <= '9' then Some(c as int - '0' as int)
    else if 'A' <= c <= 'F' then Some(c as int - 'A' as int + 10)
    else if 'a' <= c <= 'f' then Some(c as int - 'a' as int + 10)
    else None
  }

  /** The serialization of one byte. */
  function EncodeByte(b: byte): (r: string)
    ensures forall i :: 0 <= i < |r| ==> IsEncodedChar(r[i])
    ensures IsKept(b) ==> r == [b as int as char]
    ensures b == 0x20 ==> r == "+"
    ensures !IsKept(b) && b != 0x20 ==> |r| == 3 && r[0] == '%'
  {
    if IsKept(b) then [b as int as char]
    else if b == 0x20 then "+"
    else ['%', HexDigit(b as int / 16), HexDigit(b as int % 16)]
  }

  /** The serialization of a byte string, byte by byte. */
  function EncodeBytes(bs: seq<byte>): (r: string)
    ensures forall i :: 0 <= i < |r| ==> IsEncodedChar(r[i])
  {
    if bs == [] then "" else EncodeByte(bs[0]) + EncodeBytes(bs[1..])
  }

  /** `URLComponentEncoder.encode(source)`: serialize the UTF-8 bytes of `source`. */
  function Encode(source: string): (r: string)
    ensures forall i :: 0 <= i < |r| ==> IsEncodedChar(r[i])
    ensures '&' !in r && '=' !in r && ' ' !in r
  {
    EncodeBytes(Utf8.Encode(source))
  }

  function Cons(b: byte, rest: Option<seq<byte>>): Option<seq<byte>> {
    match rest
    case None => None
    case Some(t) => Some([b] + t)
  }

  /**
   * Form-decoding of one component: `+` is a space, `%XY` the byte with
   * hexadecimal value XY, any other ASCII character its own byte. A `%` without
   * two hexadecimal digits, or a non-ASCII character, makes the input malformed.
   */
  function Decode(s: string): Option<seq<byte>>
    decreases |s|
  {
    if s == [] then Some([])
    else if s[0] == '+' then Cons(0x20, Decode(s[1..]))
    else if s[0] == '%' then
      if |s| >= 3 && HexValue(s[1]).Some? && HexValue(s[2]).Some? then
        Cons((HexValue(s[1]).value * 16 + HexValue(s[2]).value) as byte, Decode(s[3..]))
      else None
    else if s[0] < '\U{80}' then Cons(s[0] as int as byte, Decode(s[1..]))
    else None
  }

  /** Decoding the serialization of one byte in front of anything yields that byte in front. */
  lemma DecodeEncodeByte(b: byte, rest: string)
    ensures Decode(EncodeByte(b) + rest) == Cons(b, Decode(rest))
  {
    var s := EncodeByte(b) + rest;
    if IsKept(b) {
      assert s[0] == b as int as char && s[1..] == rest;
    } else if b == 0x20 {
      assert s[0] == '+' && s[1..] == rest;
    } else {
      assert s[0] == '%' && s[1] == HexDigit(b as int / 16) && s[2] == HexDigit(b as int % 16);
      assert s[3..] == rest;
    }
  }

  /** Form-decoding recovers every byte string from its serialization. */
  lemma {:induction false} DecodeEncodeBytes(bs: seq<byte>)
    ensures Decode(EncodeBytes(bs)) == Some(bs)
  {
    if bs != [] {
      DecodeEncodeByte(bs[0], EncodeBytes(bs[1..]));
      DecodeEncodeBytes(bs[1..]);
      assert [bs[0]] + bs[1..] == bs;
    }
  }

  /** Form-decoding an encoded component gives back the UTF-8 bytes of the original string. */
  lemma DecodeEncode(source: string)
    ensures Decode(Encode(source)) == Some(Utf8.Encode(source))
  {
    DecodeEncodeBytes(Utf8.Encode(source));
  }

  /** Serialization is injective: two byte sequences serialize alike exactly when they are equal. */
  lemma EncodeInjectiveOnBytes(a: seq<byte>, b: seq<byte>)
    ensures EncodeBytes(a) == EncodeBytes(b) <==> a == b
  {
    DecodeEncodeBytes(a);
    DecodeEncodeBytes(b);
  }
}
