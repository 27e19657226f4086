/**
 * `std::str::from_utf8` / `String::from_utf8`: a byte string is accepted
 * only when it is well-formed UTF-8 (no overlong forms, no surrogates,
 * nothing above U+10FFFF), and then decodes to a string of Unicode scalar
 * values.  `Encode` is the inverse direction, used to state the round trip.
 */
module Utf8 {
  import opened Wrappers

  newtype byte = b: int | 0 <= b < 256

  predicate IsContinuation(b: byte) {
    0x80 <= b < 0xC0
  }

  predicate IsScalar(cp: int) {
    (0 <= cp < 0xD800) || (0xE000 <= cp < 0x11_0000)
  }

  /** The number of bytes of the well-formed sequence that starts `bs`, or 0
      when `bs` does not start with one. */
  function LeadLength(bs: seq<byte>): (n: nat)
    ensures n <= 4 && n <= |bs|
  {
    if |bs| == 0 then 0
    else
      var b0 := bs[0];
      if b0 < 0x80 then 1
      else if 0xC2 <= b0 <= 0xDF then
        if |bs| >= 2 && IsContinuation(bs[1]) then 2 else 0
      else if 0xE0 <= b0 <= 0xEF then
        if |bs| >= 3 && IsContinuation(bs[1]) && IsContinuation(bs[2])
           && (b0 != 0xE0 || bs[1] >= 0xA0) && (b0 != 0xED || bs[1] <= 0x9F)
        then 3 else 0
      else if 0xF0 <= b0 <= 0xF4 then
        if |bs| >= 4 && IsContinuation(bs[1]) && IsContinuation(bs[2]) && IsContinuation(bs[3])
           && (b0 != 0xF0 || bs[1] >= 0x90) && (b0 != 0xF4 || bs[1] <= 0x8F)
        then 4 else 0
      else 0
  }

  /** The scalar value of the well-formed sequence of length `n` at the
      start of `bs`. */
  function LeadValue(bs: seq<byte>, n: nat): (cp: int)
    requires 0 < n && n == LeadLength(bs)
    ensures IsScalar(cp)
  {
    if n == 1 then bs[0] as int
    else if n == 2 then (bs[0] as int - 0xC0) * 64 + (bs[1] as int - 0x80)
    else if n == 3 then
      (bs[0] as int - 0xE0) * 4096 + (bs[1] as int - 0x80) * 64 + (bs[2] as int - 0x80)
    else
      (bs[0] as int - 0xF0) * 262144 + (bs[1] as int - 0x80) * 4096
        + (bs[2] as int - 0x80) * 64 + (bs[3] as int - 0x80)
  }

  /** `from_utf8(bs).ok()`. */
  function Decode(bs: seq<byte>): (r: Option<string>)
    ensures r.Some? ==> Encode(r.value) == bs
    decreases |bs|
  {
    if |bs| == 0 then Some("")
    else
      var n := LeadLength(bs);
      if n == 0 then None
      else
        match Decode(bs[n..])
        case None => None
        case Some(rest) =>
          var c := LeadValue(bs, n) as char;
          LeadIsEncoding(bs);
          assert Encode([c] + rest) == EncodeChar(c) + Encode(rest) by {
            assert ([c] + rest)[0] == c && ([c] + rest)[1..] == rest;
          }
          assert bs == bs[..n] + bs[n..];
          Some([c] + rest)
  }

  /** The UTF-8 encoding of one character. */
  function EncodeChar(c: char): (bs: seq<byte>)
    ensures 1 <= |bs| <= 4
  {
    var cp := c as int;
    if cp < 0x80 then [cp as byte]
    else if cp < 0x800 then [(0xC0 + cp / 64) as byte, (0x80 + cp % 64) as byte]
    else if cp < 0x1_0000 then
      [(0xE0 + cp / 4096) as byte, (0x80 + (cp / 64) % 64) as byte, (0x80 + cp % 64) as byte]
    else
      [(0xF0 + cp / 262144) as byte, (0x80 + (cp / 4096) % 64) as byte,
       (0x80 + (cp / 64) % 64) as byte, (0x80 + cp % 64) as byte]
  }

  /** `s.as_bytes()`. */
  function Encode(s: string): (bs: seq<byte>)
    ensures |s| <= |bs| <= 4 * |s|
  {
    if |s| == 0 then [] else EncodeChar(s[0]) + Encode(s[1..])
  }

  lemma Split64(cp: int)
    requires cp >= 0
    ensures cp == (cp / 64) * 64 + cp % 64
    ensures cp / 4096 == (cp / 64) / 64
    ensures cp / 262144 == (cp / 4096) / 64
    ensures cp / 64 == (cp / 4096) * 64 + (cp / 64) % 64
    ensures cp / 4096 == (cp / 262144) * 64 + (cp / 4096) % 64
  {
  }

  /** One encoded character is recognised as a well-formed sequence of its
      own length and decodes back to that character, whatever follows. */
  lemma EncodeCharDecodes(c: char, rest: seq<byte>)
    ensures LeadLength(EncodeChar(c) + rest) == |EncodeChar(c)|
    ensures LeadValue(EncodeChar(c) + rest, |EncodeChar(c)|) == c as int
  {
    var cp := c as int;
    Split64(cp);
    var bs := EncodeChar(c) + rest;
    if cp < 0x80 {
    } else if cp < 0x800 {
      assert bs[0] as int == 0xC0 + cp / 64 && bs[1] as int == 0x80 + cp % 64;
    } else if cp < 0x1_0000 {
      assert bs[0] as int == 0xE0 + cp / 4096;
      assert bs[1] as int == 0x80 + (cp / 64) % 64;
      assert bs[2] as int == 0x80 + cp % 64;
    } else {
      assert bs[0] as int == 0xF0 + cp / 262144;
      assert bs[1] as int == 0x80 + (cp / 4096) % 64;
      assert bs[2] as int == 0x80 + (cp / 64) % 64;
      assert bs[3] as int == 0x80 + cp % 64;
    }
  }

  /** Every string survives encoding and decoding: `from_utf8(s.as_bytes())`
      is `Ok(s)`. */
  lemma {:induction false} DecodeEncode(s: string)
    ensures Decode(Encode(s)) == Some(s)
  {
    if |s| > 0 {
      var e := EncodeChar(s[0]);
      EncodeCharDecodes(s[0], Encode(s[1..]));
      assert (e + Encode(s[1..]))[|e|..] == Encode(s[1..]);
      DecodeEncode(s[1..]);
      assert [s[0]] + s[1..] == s;
    }
  }

  /** Bytes of the ASCII range decode to the characters of the same codes. */
  lemma {:induction false} AsciiDecodes(bs: seq<byte>)
    requires forall i :: 0 <= i < |bs| ==> bs[i] < 0x80
    ensures Decode(bs).Some? && |Decode(bs).value| == |bs|
    ensures forall i :: 0 <= i < |bs| ==> Decode(bs).value[i] as int == bs[i] as int
  {
    if |bs| > 0 {
      AsciiDecodes(bs[1..]);
    }
  }

  /** A byte that can never appear in UTF-8 (0xC0, 0xC1, 0xF5 to 0xFF) or a
      stray continuation byte makes the whole decoding fail. */
  lemma {:induction false} InvalidByteRejected(prefix: seq<byte>, b: byte, suffix: seq<byte>)
    requires Decode(prefix).Some?
    requires b == 0xC0 || b == 0xC1 || b >= 0xF5 || IsContinuation(b)
    ensures Decode(prefix + [b] + suffix) == None
    decreases |prefix|
  {
    var bs := prefix + [b] + suffix;
    if |prefix| == 0 {
      assert bs[0] == b;
    } else {
      var n := LeadLength(prefix);
      assert prefix[..n] == bs[..n];
      LeadLengthExtends(prefix, bs, n);
      assert bs[n..] == prefix[n..] + [b] + suffix;
      InvalidByteRejected(prefix[n..], b, suffix);
    }
  }

  /** The sequences `LeadLength` accepts are exactly encodings: the bytes
      it accepts are the encoding of the character they decode to. */
  lemma LeadIsEncoding(bs: seq<byte>)
    requires 0 < LeadLength(bs)
    ensures var n := LeadLength(bs);
      EncodeChar(LeadValue(bs, n) as char) == bs[..n]
  {
    var n := LeadLength(bs);
    var cp := LeadValue(bs, n);
    if n == 2 {
      var a, b := bs[0] as int - 0xC0, bs[1] as int - 0x80;
      DivMod64(a, b);
      assert cp == a * 64 + b && 0x80 <= cp < 0x800;
    } else if n == 3 {
      var a, b, c := bs[0] as int - 0xE0, bs[1] as int - 0x80, bs[2] as int - 0x80;
      DivMod64(a * 64 + b, c);
      DivMod64(a, b);
      assert cp == (a * 64 + b) * 64 + c && 0x800 <= cp < 0x1_0000;
      assert cp / 4096 == (cp / 64) / 64 by { Split64(cp); }
    } else if n == 4 {
      var a, b, c, d := bs[0] as int - 0xF0, bs[1] as int - 0x80, bs[2] as int - 0x80, bs[3] as int - 0x80;
      DivMod64((a * 64 + b) * 64 + c, d);
      DivMod64(a * 64 + b, c);
      DivMod64(a, b);
      assert cp == ((a * 64 + b) * 64 + c) * 64 + d && 0x1_0000 <= cp;
      assert cp / 4096 == (cp / 64) / 64 && cp / 262144 == (cp / 4096) / 64 by { Split64(cp); }
    }
  }

  lemma DivMod64(q: int, r: int)
    requires 0 <= q && 0 <= r < 64
    ensures (q * 64 + r) / 64 == q && (q * 64 + r) % 64 == r
  {
  }

  /** A well-formed lead sequence stays well-formed when bytes are appended. */
  lemma LeadLengthExtends(short: seq<byte>, long: seq<byte>, n: nat)
    requires 0 < n == LeadLength(short) && n <= |long| && short[..n] == long[..n]
    ensures LeadLength(long) == n
  {
    assert short[0] == short[..n][0] == long[..n][0] == long[0];
    if n >= 2 { assert short[1] == short[..n][1] == long[..n][1] == long[1]; }
    if n >= 3 { assert short[2] == short[..n][2] == long[..n][2] == long[2]; }
    if n >= 4 { assert short[3] == short[..n][3] == long[..n][3] == long[3]; }
  }
}
