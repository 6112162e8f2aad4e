/**
 * UTF-8, as `Buffer.from(string)` applies it to the credentials before they are base 64 encoded.
 * A `char` here is a Unicode scalar value, so every string has exactly one encoding. The decoder
 * is the strict one of RFC 3629: no overlong forms, no surrogates, nothing above U+10FFFF.
 */
module Utf8 {
  import opened Wrappers

  /** An octet, as held in a Node.js `Buffer`. */
  type Byte = x: int | 0 <= x < 256

  /** A continuation byte, `10xxxxxx`. */
  predicate IsContinuation(b: Byte)
  {
    0x80 <= b < 0xC0
  }

  /** The one to four bytes encoding a scalar value. */
  function EncodeChar(c: char): (bs: seq<Byte>)
    ensures 1 <= |bs| <= 4
  {
    var cp := c as int;
    if cp < 0x80 then [cp]
    else if cp < 0x800 then [0xC0 + cp / 64, 0x80 + cp % 64]
    else if cp < 0x10000 then [0xE0 + cp / 4096, 0x80 + (cp / 64) % 64, 0x80 + cp % 64]
    else [0xF0 + cp / 0x40000, 0x80 + (cp / 4096) % 64, 0x80 + (cp / 64) % 64, 0x80 + cp % 64]
  }

  function Encode(s: string): seq<Byte>
  {
    if s == [] then [] else EncodeChar(s[0]) + Encode(s[1..])
  }

  predicate IsScalarValue(cp: int)
  {
    0 <= cp < 0xD800 || 0xE000 <= cp < 0x11_0000
  }

  /** The first character of a byte sequence and the number of bytes it takes, or None if malformed. */
  function DecodeChar(bs: seq<Byte>): (r: Option<(char, nat)>)
    requires |bs| > 0
    ensures r.Some? ==> 1 <= r.value.1 <= |bs|
  {
    var b0: int := bs[0];
    if b0 < 0x80 then Some((b0 as char, 1))
    else if 0xC0 <= b0 < 0xE0 then
      if |bs| < 2 || !IsContinuation(bs[1]) then None
      else
        var cp: int := (b0 - 0xC0) * 64 + (bs[1] as int - 0x80);
        if cp < 0x80 then None else Some((cp as char, 2))
    else if 0xE0 <= b0 < 0xF0 then
      if |bs| < 3 || !IsContinuation(bs[1]) || !IsContinuation(bs[2]) then None
      else
        var cp: int := (b0 - 0xE0) * 4096 + (bs[1] as int - 0x80) * 64 + (bs[2] as int - 0x80);
        if cp < 0x800 || !IsScalarValue(cp) then None else Some((cp as char, 3))
    else if 0xF0 <= b0 < 0xF8 then
      if |bs| < 4 || !IsContinuation(bs[1]) || !IsContinuation(bs[2]) || !IsContinuation(bs[3]) then None
      else
        var cp: int := (b0 - 0xF0) * 0x40000 + (bs[1] as int - 0x80) * 4096 + (bs[2] as int - 0x80) * 64 + (bs[3] as int - 0x80);
        if cp < 0x10000 || !IsScalarValue(cp) then None else Some((cp as char, 4))
    else None
  }

  function Decode(bs: seq<Byte>): Option<string>
    decreases |bs|
  {
    if bs == [] then Some([])
    else
      match DecodeChar(bs)
      case None => None
      case Some((c, n)) =>
        match Decode(bs[n..])
        case None => None
        case Some(rest) => Some([c] + rest)
  }

  // The arithmetic of the multi-byte forms: a code point split into 6-bit groups, and back.

  /** Division by 64 undoes `q * 64 + r` for a remainder in range. */
  lemma Div64(q: int, r: int)
    requires 0 <= r < 64
    ensures (q * 64 + r) / 64 == q && (q * 64 + r) % 64 == r
  {
  }

  lemma Div4096(q: int, r: int)
    requires 0 <= r < 4096
    ensures (q * 4096 + r) / 4096 == q && (q * 4096 + r) % 4096 == r
  {
  }

  lemma Groups2(cp: int)
    requires 0x80 <= cp < 0x800
    ensures (cp / 64) * 64 + cp % 64 == cp
  {
  }

  /** Below 0x40000, the three low 6-bit groups rebuild the number. */
  lemma Groups3Below(x: int)
    requires 0 <= x < 0x40000
    ensures (x / 4096) * 4096 + ((x / 64) % 64) * 64 + x % 64 == x
  {
    var hi, lo := x / 4096, x % 4096;
    assert x == (hi * 64 + lo / 64) * 64 + lo % 64;
    Div64(hi * 64 + lo / 64, lo % 64);
    Div64(hi, lo / 64);
  }

  lemma Groups3(cp: int)
    requires 0x800 <= cp < 0x10000
    ensures (cp / 4096) * 4096 + ((cp / 64) % 64) * 64 + cp % 64 == cp
  {
    Groups3Below(cp);
  }

  lemma Peel4096(cp: int)
    requires 0 <= cp
    ensures (cp / 4096) % 64 == (cp % 0x40000) / 4096
  {
    var top, rest := cp / 0x40000, cp % 0x40000;
    assert cp == (top * 64 + rest / 4096) * 4096 + rest % 4096;
    Div4096(top * 64 + rest / 4096, rest % 4096);
    Div64(top, rest / 4096);
  }

  lemma Peel64(cp: int)
    requires 0 <= cp
    ensures (cp / 64) % 64 == ((cp % 0x40000) / 64) % 64 && cp % 64 == (cp % 0x40000) % 64
  {
    var top, rest := cp / 0x40000, cp % 0x40000;
    assert cp == (top * 4096 + rest / 64) * 64 + rest % 64;
    Div64(top * 4096 + rest / 64, rest % 64);
    assert top * 4096 + rest / 64 == (top * 64 + rest / 4096) * 64 + (rest / 64) % 64;
    Div64(top * 64 + rest / 4096, (rest / 64) % 64);
  }

  lemma Groups4(cp: int)
    requires 0x10000 <= cp < 0x11_0000
    ensures (cp / 0x40000) * 0x40000 + ((cp / 4096) % 64) * 4096 + ((cp / 64) % 64) * 64 + cp % 64 == cp
  {
    Peel4096(cp);
    Peel64(cp);
    Groups3Below(cp % 0x40000);
  }

  lemma Join3(x: int, y: int, z: int)
    requires 0 <= x && 0 <= y < 64 && 0 <= z < 64
    ensures var cp := x * 4096 + y * 64 + z;
      cp / 4096 == x && (cp / 64) % 64 == y && cp % 64 == z
  {
    Div4096(x, y * 64 + z);
    Div64(x * 64 + y, z);
    Div64(x, y);
  }

  lemma Join4(w: int, x: int, y: int, z: int)
    requires 0 <= w && 0 <= x < 64 && 0 <= y < 64 && 0 <= z < 64
    ensures var cp := w * 0x40000 + x * 4096 + y * 64 + z;
      cp / 0x40000 == w && (cp / 4096) % 64 == x && (cp / 64) % 64 == y && cp % 64 == z
  {
    var cp := w * 0x40000 + x * 4096 + y * 64 + z;
    Div4096(w * 64 + x, y * 64 + z);
    Div64(w, x);
    Div64(w * 4096 + x * 64 + y, z);
    Div64(w * 64 + x, y);
  }

  lemma DecodeEncode2(c: char, rest: seq<Byte>)
    requires 0x80 <= c as int < 0x800
    ensures DecodeChar(EncodeChar(c) + rest) == Some((c, 2))
  {
    var cp := c as int;
    var bs := EncodeChar(c) + rest;
    Groups2(cp);
    assert bs[0] == 0xC0 + cp / 64 && bs[1] == 0x80 + cp % 64;
  }

  lemma DecodeEncode3(c: char, rest: seq<Byte>)
    requires 0x800 <= c as int < 0x10000
    ensures DecodeChar(EncodeChar(c) + rest) == Some((c, 3))
  {
    var cp := c as int;
    var bs := EncodeChar(c) + rest;
    Groups3(cp);
    assert bs[0] == 0xE0 + cp / 4096 && bs[1] == 0x80 + (cp / 64) % 64 && bs[2] == 0x80 + cp % 64;
  }

  lemma DecodeEncode4(c: char, rest: seq<Byte>)
    requires 0x10000 <= c as int
    ensures DecodeChar(EncodeChar(c) + rest) == Some((c, 4))
  {
    var cp := c as int;
    var bs := EncodeChar(c) + rest;
    Groups4(cp);
    assert bs[0] == 0xF0 + cp / 0x40000 && bs[1] == 0x80 + (cp / 4096) % 64;
    assert bs[2] == 0x80 + (cp / 64) % 64 && bs[3] == 0x80 + cp % 64;
  }

  /** The encoding of one character, followed by anything, decodes to that character. */
  lemma DecodeEncodeChar(c: char, rest: seq<Byte>)
    ensures DecodeChar(EncodeChar(c) + rest) == Some((c, |EncodeChar(c)|))
  {
    var cp := c as int;
    if cp < 0x80 {
      assert (EncodeChar(c) + rest)[0] == cp;
    } else if cp < 0x800 {
      DecodeEncode2(c, rest);
    } else if cp < 0x10000 {
      DecodeEncode3(c, rest);
    } else {
      DecodeEncode4(c, rest);
    }
  }

  /** Decoding the encoding of a string gives the string back. */
  lemma {:induction false} DecodeEncode(s: string)
    ensures Decode(Encode(s)) == Some(s)
  {
    if s != [] {
      var head := EncodeChar(s[0]);
      var rest := Encode(s[1..]);
      DecodeEncodeChar(s[0], rest);
      assert (head + rest)[|head|..] == rest;
      DecodeEncode(s[1..]);
      assert s == [s[0]] + s[1..];
    }
  }

  lemma EncodeDecode2(bs: seq<Byte>)
    requires |bs| > 0 && 0xC0 <= bs[0] < 0xE0 && DecodeChar(bs).Some?
    ensures EncodeChar(DecodeChar(bs).value.0) == bs[..2]
  {
    Div64(bs[0] as int - 0xC0, bs[1] as int - 0x80);
  }

  lemma EncodeDecode3(bs: seq<Byte>)
    requires |bs| > 0 && 0xE0 <= bs[0] < 0xF0 && DecodeChar(bs).Some?
    ensures EncodeChar(DecodeChar(bs).value.0) == bs[..3]
  {
    Join3(bs[0] as int - 0xE0, bs[1] as int - 0x80, bs[2] as int - 0x80);
  }

  lemma EncodeDecode4(bs: seq<Byte>)
    requires |bs| > 0 && 0xF0 <= bs[0] && DecodeChar(bs).Some?
    ensures EncodeChar(DecodeChar(bs).value.0) == bs[..4]
  {
    Join4(bs[0] as int - 0xF0, bs[1] as int - 0x80, bs[2] as int - 0x80, bs[3] as int - 0x80);
  }

  /** A character the strict decoder reads is encoded by exactly the bytes it read. */
  lemma EncodeDecodeChar(bs: seq<Byte>)
    requires |bs| > 0 && DecodeChar(bs).Some?
    ensures EncodeChar(DecodeChar(bs).value.0) == bs[..DecodeChar(bs).value.1]
  {
    var b0: int := bs[0];
    if b0 < 0x80 {
    } else if b0 < 0xE0 {
      EncodeDecode2(bs);
    } else if b0 < 0xF0 {
      EncodeDecode3(bs);
    } else {
      EncodeDecode4(bs);
    }
  }

  /** Every byte sequence the strict decoder accepts is the encoding of what it decodes to. */
  lemma {:induction false} EncodeDecode(bs: seq<Byte>)
    requires Decode(bs).Some?
    ensures Encode(Decode(bs).value) == bs
    decreases |bs|
  {
    if bs != [] {
      var c, n := DecodeChar(bs).value.0, DecodeChar(bs).value.1;
      var tail := Decode(bs[n..]).value;
      assert Decode(bs).value == [c] + tail;
      EncodeDecodeChar(bs);
      EncodeDecode(bs[n..]);
      assert ([c] + tail)[1..] == tail;
      assert Encode([c] + tail) == EncodeChar(c) + Encode(tail);
      assert bs == bs[..n] + bs[n..];
    }
  }
}
