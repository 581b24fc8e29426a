/** UTF-8, the byte encoding that both `URLSearchParams` and
    `encodeURIComponent` apply to a string before percent-encoding it. */
module Utf8 {
  import opened Js

  type Byte = b: int | 0 <= b < 256

  predicate IsContinuation(b: Byte) {
    0x80 <= b < 0xC0
  }

  /** The UTF-8 bytes of one Unicode scalar value: one byte below U+0080,
      otherwise a lead byte followed by continuation bytes. */
  function EncodeScalar(c: char): (bs: seq<Byte>)
    ensures 1 <= |bs| <= 4
    ensures (c as int < 0x80) <==> |bs| == 1
    ensures |bs| == 1 ==> bs[0] == c as int
    ensures forall i :: 1 <= i < |bs| ==> IsContinuation(bs[i])
    ensures !IsContinuation(bs[0])
  {
    var n := c as int;
    if n < 0x80 then [n]
    else if n < 0x800 then [0xC0 + n / 64, 0x80 + n % 64]
    else if n < 0x10000 then
      var q := n / 64;
      [0xE0 + q / 64, 0x80 + q % 64, 0x80 + n % 64]
    else
      var q := n / 64;
      var p := q / 64;
      [0xF0 + p / 64, 0x80 + p % 64, 0x80 + q % 64, 0x80 + n % 64]
  }

  /** The UTF-8 encoding of a string. */
  function Encode(s: string): seq<Byte> {
    if s == [] then [] else EncodeScalar(s[0]) + Encode(s[1..])
  }

  /** Reads one well-formed UTF-8 sequence (Table 3-7 of the Unicode
      Standard) off the front of `bs`: the scalar value and the number of
      bytes it took, or None when the front is not well-formed. */
  function DecodeFirst(bs: seq<Byte>): (r: Option<(char, nat)>)
    requires |bs| > 0
    ensures r.Some? ==> 1 <= r.value.1 <= |bs|
  {
    var b0 := bs[0] as int;
    if b0 < 0x80 then Some((b0 as char, 1))
    else if 0xC2 <= b0 < 0xE0 && |bs| >= 2 && IsContinuation(bs[1]) then
      Some((((b0 - 0xC0) * 64 + (bs[1] as int - 0x80)) as char, 2))
    else if 0xE0 <= b0 < 0xF0 && |bs| >= 3 && IsContinuation(bs[1]) && IsContinuation(bs[2]) then
      var cp := ((b0 - 0xE0) * 64 + (bs[1] as int - 0x80)) * 64 + (bs[2] as int - 0x80);
      if 0x800 <= cp && !(0xD800 <= cp < 0xE000) then Some((cp as char, 3)) else None
    else if 0xF0 <= b0 < 0xF5 && |bs| >= 4
            && IsContinuation(bs[1]) && IsContinuation(bs[2]) && IsContinuation(bs[3]) then
      var cp := (((b0 - 0xF0) * 64 + (bs[1] as int - 0x80)) * 64 + (bs[2] as int - 0x80)) * 64 + (bs[3] as int - 0x80);
      if 0x10000 <= cp < 0x110000 then Some((cp as char, 4)) else None
    else None
  }

  /** UTF-8 decoding that fails on any ill-formed sequence. */
  function Decode(bs: seq<Byte>): Option<string>
    decreases |bs|
  {
    if bs == [] then Some([])
    else
      match DecodeFirst(bs)
      case None => None
      case Some((c, k)) =>
        match Decode(bs[k..])
        case None => None
        case Some(rest) => Some([c] + rest)
  }

  /** The decoder reads back exactly the scalar value that was encoded,
      whatever follows it. */
  lemma DecodeFirstOfEncoded(c: char, rest: seq<Byte>)
    ensures DecodeFirst(EncodeScalar(c) + rest) == Some((c, |EncodeScalar(c)|))
  {
    var n := c as int;
    var bs := EncodeScalar(c) + rest;
    if n < 0x80 {
    } else if n < 0x800 {
      assert bs[0] == 0xC0 + n / 64 && bs[1] == 0x80 + n % 64;
    } else if n < 0x10000 {
      var q := n / 64;
      assert bs[0] == 0xE0 + q / 64 && bs[1] == 0x80 + q % 64 && bs[2] == 0x80 + n % 64;
      assert (q / 64 * 64 + q % 64) * 64 + n % 64 == n;
    } else {
      var q := n / 64;
      var p := q / 64;
      assert bs[0] == 0xF0 + p / 64 && bs[1] == 0x80 + p % 64;
      assert bs[2] == 0x80 + q % 64 && bs[3] == 0x80 + n % 64;
      assert ((p / 64 * 64 + p % 64) * 64 + q % 64) * 64 + n % 64 == n;
    }
  }

  /** Decoding undoes encoding, for every string. */
  lemma {:induction false} DecodeEncode(s: string)
    ensures Decode(Encode(s)) == Some(s)
  {
    if s != [] {
      var head, bs := EncodeScalar(s[0]), Encode(s);
      DecodeFirstOfEncoded(s[0], Encode(s[1..]));
      assert bs == head + Encode(s[1..]) && bs[|head|..] == Encode(s[1..]);
      DecodeEncode(s[1..]);
      assert s == [s[0]] + s[1..];
    }
  }
}
