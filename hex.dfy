/** Hexadecimal text: `str.upper(b.hex())`, which the decoder applies to every
    byte field, and a strict `bytes.fromhex`, which turns the trace's hex
    column into bytes. */
module Hex {
  import opened Python

  /** The upper-case hex digit of a value below 16. */
  function HexDigit(d: nat): (c: char)
    requires d < 16
    ensures '0' <= c <= '9' || 'A' <= c <= 'F'
  {
    if d < 10 then ('0' as int + d) as char else ('A' as int + d - 10) as char
  }

  /** The value of one hex digit, either case; None for any other char. */
  function DigitValue(c: char): (r: Option<nat>)
    ensures r.Some? ==> r.value < 16
    ensures r.Some? <==> '0' <= c <= '9' || 'a' <= c <= 'f' || 'A' <= c <= 'F'
  {
    if '0' <= c <= '9' then Some(c as int - '0' as int)
    else if 'a' <= c <= 'f' then Some(c as int - 'a' as int + 10)
    else if 'A' <= c <= 'F' then Some(c as int - 'A' as int + 10)
    else None
  }

  lemma DigitValueOfHexDigit(d: nat)
    requires d < 16
    ensures DigitValue(HexDigit(d)) == Some(d)
  {
  }

  /** The two upper-case digits of one byte, high nibble first. */
  function HexByte(b: byte): (r: string)
    ensures |r| == 2
  {
    [HexDigit(b / 16), HexDigit(b % 16)]
  }

  /** `str.upper(s.hex())`: two upper-case digits per byte, in order, high
      nibble first. */
  function ToHex(s: seq<byte>): (r: string)
    ensures |r| == 2 * |s|
    ensures forall k :: 0 <= k < |r| ==> '0' <= r[k] <= '9' || 'A' <= r[k] <= 'F'
  {
    seq(2 * |s|, k requires 0 <= k < 2 * |s| =>
      if k % 2 == 0 then HexDigit(s[k / 2] / 16) else HexDigit(s[k / 2] % 16))
  }

  /** The hex of a non-empty sequence is the hex of its first byte followed by
      the hex of the rest. */
  lemma ToHexCons(s: seq<byte>)
    requires s != []
    ensures ToHex(s) == HexByte(s[0]) + ToHex(s[1..])
  {
  }

  /** `bytes.fromhex(s)` for text made only of hex-digit pairs: ValueError
      (None) on an odd length or a non-digit. */
  function FromHex(s: string): (r: Option<seq<byte>>)
    ensures r.Some? ==> 2 * |r.value| == |s|
  {
    if s == [] then Some([])
    else if |s| == 1 then None
    else
      match (DigitValue(s[0]), DigitValue(s[1]), FromHex(s[2..]))
      case (Some(hi), Some(lo), Some(rest)) => Some([hi * 16 + lo] + rest)
      case _ => None
  }

  /** Decoding the upper-case hex of any bytes gives those bytes back. */
  lemma {:induction false} FromHexToHex(s: seq<byte>)
    ensures FromHex(ToHex(s)) == Some(s)
  {
    if s != [] {
      var h := ToHex(s);
      ToHexCons(s);
      assert h[2..] == ToHex(s[1..]);
      FromHexToHex(s[1..]);
      DigitValueOfHexDigit(s[0] / 16);
      DigitValueOfHexDigit(s[0] % 16);
      assert [s[0]] + s[1..] == s;
    }
  }

  /** Hex text determines the bytes it was made from. */
  lemma ToHexInjective(a: seq<byte>, b: seq<byte>)
    ensures ToHex(a) == ToHex(b) <==> a == b
  {
    if ToHex(a) == ToHex(b) {
      FromHexToHex(a);
      FromHexToHex(b);
    }
  }

  lemma HexByteInjective(x: byte, y: byte)
    ensures HexByte(x) == HexByte(y) <==> x == y
  {
  }
}
