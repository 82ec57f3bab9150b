/**
 * Strict UTF-8, as Python's `str.encode()` and `bytes.decode()` apply it with their
 * default codec: the ASGI wrapper encodes its header values, and one Valkey bridge
 * decodes the payloads it receives (a malformed payload raises there).
 */
module Utf8 {
  import opened Wrappers

  type Byte = b: int | 0 <= b < 256
  type Bytes = seq<Byte>

  predicate IsAscii(s: string) {
    forall k | 0 <= k < |s| :: s[k] as int < 0x80
  }

  predicate IsContinuation(b: Byte) {
    0x80 <= b < 0xC0
  }

  /** The one to four bytes of one character. */
  function EncodeChar(c: char): (bs: Bytes)
    ensures 1 <= |bs| <= 4
    ensures |bs| == 1 <==> c as int < 0x80
  {
    var cp := c as int;
    if cp < 0x80 then [cp]
    else if cp < 0x800 then [0xC0 + cp / 64, 0x80 + cp % 64]
    else if cp < 0x1_0000 then [0xE0 + cp / 4096, 0x80 + (cp / 64) % 64, 0x80 + cp % 64]
    else [0xF0 + cp / 262144, 0x80 + (cp / 4096) % 64, 0x80 + (cp / 64) % 64, 0x80 + cp % 64]
  }

  /** `s.encode()`; ASCII text is carried byte for byte. */
  function Encode(s: string): (bs: Bytes)
    ensures |bs| >= |s|
    ensures IsAscii(s) ==> |bs| == |s| && forall k | 0 <= k < |s| :: bs[k] == s[k] as int
    decreases |s|
  {
    if |s| == 0 then [] else EncodeChar(s[0]) + Encode(s[1..])
  }

  /** A byte literal such as `b"text/plain"`: one byte per ASCII character. */
  function Ascii(s: string): (bs: Bytes)
    requires IsAscii(s)
    ensures |bs| == |s|
  {
    seq(|s|, k requires 0 <= k < |s| => s[k] as int)
  }

  /** An ASCII byte literal is the UTF-8 encoding of its text. */
  lemma AsciiIsEncode(s: string)
    requires IsAscii(s)
    ensures Ascii(s) == Encode(s)
  {
  }

  /**
   * Reads one character from the front of `bs`: the character and the number of bytes
   * it took, or None when the bytes there are not a well-formed UTF-8 sequence
   * (a stray continuation byte, a truncated sequence, an overlong form, a surrogate,
   * or a value past U+10FFFF).
   */
  function DecodeChar(bs: Bytes): (r: Option<(char, nat)>)
    requires |bs| > 0
    ensures r.Some? ==> 1 <= r.value.1 <= |bs| && r.value.1 <= 4
  {
    var b0: int := bs[0];
    if b0 < 0x80 then Some((b0 as char, 1))
    else if b0 < 0xC0 then None
    else if b0 < 0xE0 then
      if |bs| < 2 || !IsContinuation(bs[1]) then None
      else
        var cp := (b0 - 0xC0) * 64 + (bs[1] as int - 0x80);
        if cp < 0x80 then None else Some((cp as char, 2))
    else if b0 < 0xF0 then
      if |bs| < 3 || !IsContinuation(bs[1]) || !IsContinuation(bs[2]) then None
      else
        var cp := (b0 - 0xE0) * 4096 + (bs[1] as int - 0x80) * 64 + (bs[2] as int - 0x80);
        if cp < 0x800 || (0xD800 <= cp < 0xE000) then None else Some((cp as char, 3))
    else if b0 < 0xF8 then
      if |bs| < 4 || !IsContinuation(bs[1]) || !IsContinuation(bs[2]) || !IsContinuation(bs[3]) then None
      else
        var cp := (b0 - 0xF0) * 262144 + (bs[1] as int - 0x80) * 4096 + (bs[2] as int - 0x80) * 64 + (bs[3] as int - 0x80);
        if cp < 0x1_0000 || cp >= 0x11_0000 then None else Some((cp as char, 4))
    else None
  }

  /** `bs.decode()`: the text, or None where Python raises UnicodeDecodeError. */
  function Decode(bs: Bytes): (r: Option<string>)
    decreases |bs|
  {
    if |bs| == 0 then Some("")
    else match DecodeChar(bs)
      case None => None
      case Some((c, n)) =>
        match Decode(bs[n..])
        case None => None
        case Some(rest) => Some([c] + rest)
  }

  lemma DecodeEncodeTwo(c: char, rest: Bytes)
    requires 0x80 <= c as int < 0x800
    ensures DecodeChar(EncodeChar(c) + rest) == Some((c, 2))
  {
    var cp := c as int;
    var bs := EncodeChar(c) + rest;
    assert bs[0] == 0xC0 + cp / 64 && bs[1] == 0x80 + cp % 64;
    assert (bs[0] as int - 0xC0) * 64 + (bs[1] as int - 0x80) == cp;
  }

  lemma DecodeEncodeThree(c: char, rest: Bytes)
    requires 0x800 <= c as int < 0x1_0000
    ensures DecodeChar(EncodeChar(c) + rest) == Some((c, 3))
  {
    var cp := c as int;
    var bs := EncodeChar(c) + rest;
    assert bs[0] == 0xE0 + cp / 4096;
    assert bs[1] == 0x80 + (cp / 64) % 64;
    assert bs[2] == 0x80 + cp % 64;
    assert (cp / 4096) * 64 + (cp / 64) % 64 == cp / 64;
    assert (bs[0] as int - 0xE0) * 4096 + (bs[1] as int - 0x80) * 64 + (bs[2] as int - 0x80) == cp;
  }

  lemma DecodeEncodeFour(c: char, rest: Bytes)
    requires 0x1_0000 <= c as int
    ensures DecodeChar(EncodeChar(c) + rest) == Some((c, 4))
  {
    var cp := c as int;
    var bs := EncodeChar(c) + rest;
    assert bs[0] == 0xF0 + cp / 262144;
    assert bs[1] == 0x80 + (cp / 4096) % 64;
    assert bs[2] == 0x80 + (cp / 64) % 64;
    assert bs[3] == 0x80 + cp % 64;
    assert (cp / 262144) * 64 + (cp / 4096) % 64 == cp / 4096;
    assert (cp / 4096) * 64 + (cp / 64) % 64 == cp / 64;
    assert (bs[0] as int - 0xF0) * 262144 + (bs[1] as int - 0x80) * 4096 + (bs[2] as int - 0x80) * 64 + (bs[3] as int - 0x80) == cp;
  }

  /** The decoder reads back exactly what the encoder wrote for one character. */
  lemma DecodeEncodeChar(c: char, rest: Bytes)
    ensures var bs := EncodeChar(c) + rest;
            DecodeChar(bs) == Some((c, |EncodeChar(c)|))
  {
    var cp := c as int;
    if cp < 0x80 {
    } else if cp < 0x800 {
      DecodeEncodeTwo(c, rest);
    } else if cp < 0x1_0000 {
      DecodeEncodeThree(c, rest);
    } else {
      DecodeEncodeFour(c, rest);
    }
  }

  /** Every string survives a trip through its UTF-8 bytes. */
  lemma {:induction false} DecodeEncode(s: string)
    ensures Decode(Encode(s)) == Some(s)
    decreases |s|
  {
    if |s| > 0 {
      var head := EncodeChar(s[0]);
      var rest := Encode(s[1..]);
      DecodeEncodeChar(s[0], rest);
      assert (head + rest)[|head|..] == rest;
      DecodeEncode(s[1..]);
      assert [s[0]] + s[1..] == s;
    }
  }

  /** An ASCII byte literal decodes to its text. */
  lemma DecodeAscii(s: string)
    requires IsAscii(s)
    ensures Decode(Ascii(s)) == Some(s)
  {
    AsciiIsEncode(s);
    DecodeEncode(s);
  }

  /** Appending a six-bit group to `q` is undone by division and remainder by 64. */
  lemma SixBits(q: int, r: int)
    requires 0 <= r < 64
    ensures (q * 64 + r) / 64 == q && (q * 64 + r) % 64 == r
  {
  }

  lemma ReencodeTwo(bs: Bytes)
    requires |bs| > 0 && 0xC0 <= bs[0] < 0xE0 && DecodeChar(bs).Some?
    ensures EncodeChar(DecodeChar(bs).value.0) == bs[..2]
  {
    SixBits(bs[0] as int - 0xC0, bs[1] as int - 0x80);
  }

  lemma ReencodeThree(bs: Bytes)
    requires |bs| > 0 && 0xE0 <= bs[0] < 0xF0 && DecodeChar(bs).Some?
    ensures EncodeChar(DecodeChar(bs).value.0) == bs[..3]
  {
    var b0: int := bs[0];
    var x1, x2 := bs[1] as int - 0x80, bs[2] as int - 0x80;
    var hi := (b0 - 0xE0) * 64 + x1;
    SixBits(hi, x2);
    SixBits(b0 - 0xE0, x1);
    assert (hi * 64 + x2) / 4096 == b0 - 0xE0 by {
      assert hi * 64 + x2 == (b0 - 0xE0) * 4096 + (x1 * 64 + x2);
    }
  }

  lemma ReencodeFour(bs: Bytes)
    requires |bs| > 0 && 0xF0 <= bs[0] && DecodeChar(bs).Some?
    ensures EncodeChar(DecodeChar(bs).value.0) == bs[..4]
  {
    var b0: int := bs[0];
    var x1, x2, x3 := bs[1] as int - 0x80, bs[2] as int - 0x80, bs[3] as int - 0x80;
    var top := (b0 - 0xF0) * 64 + x1;
    var mid := top * 64 + x2;
    SixBits(mid, x3);
    SixBits(top, x2);
    SixBits(b0 - 0xF0, x1);
    assert (mid * 64 + x3) / 4096 == top by {
      assert mid * 64 + x3 == top * 4096 + (x2 * 64 + x3);
    }
    assert (mid * 64 + x3) / 262144 == b0 - 0xF0 by {
      assert mid * 64 + x3 == (b0 - 0xF0) * 262144 + (x1 * 4096 + x2 * 64 + x3);
    }
  }

  /** A character the decoder accepts is re-encoded to exactly the bytes it was read from. */
  lemma EncodeDecodeChar(bs: Bytes)
    requires |bs| > 0 && DecodeChar(bs).Some?
    ensures EncodeChar(DecodeChar(bs).value.0) == bs[..DecodeChar(bs).value.1]
  {
    var b0: int := bs[0];
    if 0xC0 <= b0 < 0xE0 {
      ReencodeTwo(bs);
    } else if 0xE0 <= b0 < 0xF0 {
      ReencodeThree(bs);
    } else if 0xF0 <= b0 {
      ReencodeFour(bs);
    }
  }

  /** The decoder is strict: whatever it accepts is the canonical encoding of its result. */
  lemma {:induction false} EncodeDecode(bs: Bytes)
    requires Decode(bs).Some?
    ensures Encode(Decode(bs).value) == bs
    decreases |bs|
  {
    if |bs| > 0 {
      var (c, n) := DecodeChar(bs).value;
      var tail := bs[n..];
      var t := Decode(tail).value;
      assert Decode(bs) == Some([c] + t);
      EncodeDecodeChar(bs);
      EncodeDecode(tail);
      assert Encode([c] + t) == EncodeChar(c) + Encode(t) by {
        assert ([c] + t)[0] == c && ([c] + t)[1..] == t;
      }
      assert bs == bs[..n] + tail;
    }
  }
}
