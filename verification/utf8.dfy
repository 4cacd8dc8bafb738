/** UTF-8 as RFC 3629 defines it: the encoding `str.encode('utf-8')` applies
    to a response body, and the strict decoding `bytes.decode('utf-8')`
    applies to the ping command's output, which fails on malformed input. */
module Utf8 {
  import opened Options

  newtype byte = x: int | 0 <= x < 256

  /** A byte of the form 10xxxxxx, which continues a multi-byte sequence. */
  predicate IsContinuation(b: byte) {
    0x80 <= b < 0xC0
  }

  /** The one to four bytes that encode `c` (section 3 of RFC 3629). */
  function EncodeChar(c: char): (bs: seq<byte>)
    ensures 1 <= |bs| <= 4
    ensures |bs| == 1 <==> c as int < 0x80
  {
    var cp := c as int;
    if cp < 0x80 then
      [cp as byte]
    else if cp < 0x800 then
      [(0xC0 + cp / 64) as byte, (0x80 + cp % 64) as byte]
    else if cp < 0x10000 then
      [(0xE0 + cp / 4096) as byte, (0x80 + cp / 64 % 64) as byte, (0x80 + cp % 64) as byte]
    else
      [(0xF0 + cp / 262144) as byte, (0x80 + cp / 4096 % 64) as byte,
       (0x80 + cp / 64 % 64) as byte, (0x80 + cp % 64) as byte]
  }

  /** `s.encode('utf-8')`. */
  function Encode(s: string): seq<byte>
  {
    if s == [] then [] else EncodeChar(s[0]) + Encode(s[1..])
  }

  /** The character a well-formed sequence at the start of `bs` denotes and the
      number of bytes it takes; None when `bs` does not start with one: a
      stray continuation byte, a lead byte 0xC0, 0xC1 or above 0xF4, a
      missing continuation, an over-long form, or a surrogate. */
  function DecodeFirst(bs: seq<byte>): (r: Option<(char, nat)>)
    requires bs != []
    ensures r.Some? ==> 1 <= r.value.1 <= |bs|
  {
    var b0 := bs[0] as int;
    if b0 < 0x80 then
      Some((b0 as char, 1))
    else if 0xC2 <= b0 < 0xE0 then
      if |bs| >= 2 && IsContinuation(bs[1]) then
        var cp := (b0 - 0xC0) * 64 + (bs[1] as int - 0x80);
        Some((cp as char, 2))
      else None
    else if 0xE0 <= b0 < 0xF0 then
      if |bs| >= 3 && IsContinuation(bs[1]) && IsContinuation(bs[2]) then
        var cp := (b0 - 0xE0) * 4096 + (bs[1] as int - 0x80) * 64 + (bs[2] as int - 0x80);
        if 0x800 <= cp && !(0xD800 <= cp < 0xE000) then Some((cp as char, 3)) else None
      else None
    else if 0xF0 <= b0 < 0xF5 then
      if |bs| >= 4 && IsContinuation(bs[1]) && IsContinuation(bs[2]) && IsContinuation(bs[3]) then
        var cp := (b0 - 0xF0) * 262144 + (bs[1] as int - 0x80) * 4096
                  + (bs[2] as int - 0x80) * 64 + (bs[3] as int - 0x80);
        if 0x10000 <= cp < 0x110000 then Some((cp as char, 4)) else None
      else None
    else
      None
  }

  /** `bs.decode('utf-8')`: the text, or None where Python raises
      `UnicodeDecodeError`. */
  function Decode(bs: seq<byte>): Option<string>
    decreases |bs|
  {
    if bs == [] then Some([])
    else match DecodeFirst(bs)
      case None => None
      case Some((c, n)) =>
        match Decode(bs[n..])
        case None => None
        case Some(rest) => Some([c] + rest)
  }

  lemma DecodeFirstOfEncodeChar(c: char, rest: seq<byte>)
    ensures DecodeFirst(EncodeChar(c) + rest) == Some((c, |EncodeChar(c)|))
  {
    var cp := c as int;
    var bs := EncodeChar(c) + rest;
    if cp < 0x80 {
    } else if cp < 0x800 {
      assert (cp / 64) * 64 + cp % 64 == cp;
    } else if cp < 0x10000 {
      assert (cp / 4096) * 64 + cp / 64 % 64 == cp / 64;
      assert (cp / 4096) * 4096 + (cp / 64 % 64) * 64 + cp % 64 == cp;
    } else {
      assert (cp / 262144) * 64 + cp / 4096 % 64 == cp / 4096;
      assert (cp / 4096) * 64 + cp / 64 % 64 == cp / 64;
      assert (cp / 262144) * 262144 + (cp / 4096 % 64) * 4096 + (cp / 64 % 64) * 64 + cp % 64 == cp;
    }
  }

  /** Decoding undoes encoding: every string survives the round trip. */
  lemma {:induction false} DecodeEncode(s: string)
    ensures Decode(Encode(s)) == Some(s)
  {
    if s != [] {
      var e := EncodeChar(s[0]);
      DecodeFirstOfEncodeChar(s[0], Encode(s[1..]));
      assert (e + Encode(s[1..]))[|e|..] == Encode(s[1..]);
      DecodeEncode(s[1..]);
      assert [s[0]] + s[1..] == s;
    }
  }

  /** A code point assembled from 6-bit groups splits back into them. */
  lemma SixBitGroups(hi: int, mid: int, lo: int, cp: int)
    requires 0 <= mid < 64 && 0 <= lo < 64 && 0 <= hi
    requires cp == (hi * 64 + mid) * 64 + lo
    ensures cp % 64 == lo && cp / 64 % 64 == mid && cp / 4096 == hi
  {
    assert cp / 64 == hi * 64 + mid;
  }

  lemma EncodeCharOfDecodeFirst(bs: seq<byte>)
    requires bs != [] && DecodeFirst(bs).Some?
    ensures EncodeChar(DecodeFirst(bs).value.0) == bs[..DecodeFirst(bs).value.1]
  {
    var b0 := bs[0] as int;
    var cp := DecodeFirst(bs).value.0 as int;
    if b0 < 0x80 {
    } else if b0 < 0xE0 {
      SixBitGroups(0, b0 - 0xC0, bs[1] as int - 0x80, cp);
    } else if b0 < 0xF0 {
      SixBitGroups(b0 - 0xE0, bs[1] as int - 0x80, bs[2] as int - 0x80, cp);
    } else {
      var c1, c2, c3 := bs[1] as int - 0x80, bs[2] as int - 0x80, bs[3] as int - 0x80;
      SixBitGroups((b0 - 0xF0) * 64 + c1, c2, c3, cp);
      SixBitGroups(b0 - 0xF0, c1, c2, cp / 64);
    }
  }

  /** Encoding undoes decoding: bytes that decode at all are exactly the
      encoding of what they decode to, so the decoded text determines them. */
  lemma {:induction false} EncodeDecode(bs: seq<byte>)
    requires Decode(bs).Some?
    ensures Encode(Decode(bs).value) == bs
    decreases |bs|
  {
    if bs != [] {
      var c := DecodeFirst(bs).value.0;
      var n := DecodeFirst(bs).value.1;
      EncodeCharOfDecodeFirst(bs);
      EncodeDecode(bs[n..]);
      var s := Decode(bs).value;
      assert s == [c] + Decode(bs[n..]).value;
      assert s[0] == c && s[1..] == Decode(bs[n..]).value;
      assert bs == bs[..n] + bs[n..];
    }
  }

  /** Text made of ASCII characters encodes to one byte per character, the
      byte being the character's code. */
  lemma {:induction false} EncodeAscii(s: string)
    requires forall i :: 0 <= i < |s| ==> s[i] as int < 0x80
    ensures |Encode(s)| == |s|
    ensures forall i :: 0 <= i < |s| ==> Encode(s)[i] as int == s[i] as int
  {
    if s != [] {
      EncodeAscii(s[1..]);
      assert Encode(s) == [s[0] as int as byte] + Encode(s[1..]);
    }
  }
}
