/**
 * The base 64 encoding of section 4 of RFC 4648 (`Buffer.prototype.toString('base64')`): the
 * standard alphabet of Table 1, `=` padding, no line breaks. The decoder is the strict one of the
 * same section: it accepts exactly the canonical encodings, so that encoding and decoding are
 * inverse in both directions.
 */
module Base64 {
  import opened Wrappers
  import opened Utf8

  /** A 6-bit group. */
  type Sextet = x: int | 0 <= x < 64

  /** One of the 64 characters of the alphabet (Table 1 of RFC 4648). */
  predicate IsAlphabetChar(c: char)
  {
    'A' <= c <= 'Z' || 'a' <= c <= 'z' || '0' <= c <= '9' || c == '+' || c == '/'
  }

  /** The character encoding a 6-bit group. */
  function CharOf(d: Sextet): (c: char)
    ensures IsAlphabetChar(c)
  {
    if d < 26 then ('A' as int + d) as char
    else if d < 52 then ('a' as int + d - 26) as char
    else if d < 62 then ('0' as int + d - 52) as char
    else if d == 62 then '+'
    else '/'
  }

  /** The 6-bit group a character encodes, or None for a character outside the alphabet. */
  function ValueOf(c: char): (r: Option<Sextet>)
    ensures r.Some? <==> IsAlphabetChar(c)
  {
    if 'A' <= c <= 'Z' then Some(c as int - 'A' as int)
    else if 'a' <= c <= 'z' then Some(c as int - 'a' as int + 26)
    else if '0' <= c <= '9' then Some(c as int - '0' as int + 52)
    else if c == '+' then Some(62)
    else if c == '/' then Some(63)
    else None
  }

  lemma ValueOfCharOf(d: Sextet)
    ensures ValueOf(CharOf(d)) == Some(d)
  {
  }

  lemma CharOfValueOf(c: char)
    requires IsAlphabetChar(c)
    ensures CharOf(ValueOf(c).value) == c
  {
    if 'A' <= c <= 'Z' {
    } else if 'a' <= c <= 'z' {
    } else if '0' <= c <= '9' {
    }
  }

  /** The four 6-bit groups of a 24-bit group of three octets, most significant first. */
  function Sextet0(b0: Byte): Sextet { b0 / 4 }
  function Sextet1(b0: Byte, b1: Byte): Sextet { (b0 % 4) * 16 + b1 / 16 }
  function Sextet2(b1: Byte, b2: Byte): Sextet { (b1 % 16) * 4 + b2 / 64 }
  function Sextet3(b2: Byte): Sextet { b2 % 64 }

  /** The three octets of a 24-bit group of four 6-bit groups. */
  function Octet0(s0: Sextet, s1: Sextet): Byte { s0 * 4 + s1 / 16 }
  function Octet1(s1: Sextet, s2: Sextet): Byte { (s1 % 16) * 16 + s2 / 4 }
  function Octet2(s2: Sextet, s3: Sextet): Byte { (s2 % 4) * 64 + s3 }

  /** Three octets become four characters (the 24-bit group of section 4). */
  function EncodeGroup(b0: Byte, b1: Byte, b2: Byte): string
  {
    [CharOf(Sextet0(b0)), CharOf(Sextet1(b0, b1)), CharOf(Sextet2(b1, b2)), CharOf(Sextet3(b2))]
  }

  /** Base 64 encoding of an octet sequence; a final group of one or two octets is padded with `=`. */
  function Encode(bytes: seq<Byte>): (s: string)
  {
    if |bytes| == 0 then ""
    else if |bytes| == 1 then
      [CharOf(Sextet0(bytes[0])), CharOf(Sextet1(bytes[0], 0)), '=', '=']
    else if |bytes| == 2 then
      [CharOf(Sextet0(bytes[0])), CharOf(Sextet1(bytes[0], bytes[1])), CharOf(Sextet2(bytes[1], 0)), '=']
    else
      EncodeGroup(bytes[0], bytes[1], bytes[2]) + Encode(bytes[3..])
  }

  /** The encoding is four characters per started group of three octets, all from the alphabet or `=`. */
  lemma {:induction false} EncodeShape(bytes: seq<Byte>)
    ensures |Encode(bytes)| == 4 * ((|bytes| + 2) / 3)
    ensures forall i :: 0 <= i < |Encode(bytes)| ==> IsAlphabetChar(Encode(bytes)[i]) || Encode(bytes)[i] == '='
    decreases |bytes|
  {
    if |bytes| >= 3 {
      EncodeShape(bytes[3..]);
      var g := EncodeGroup(bytes[0], bytes[1], bytes[2]);
      assert Encode(bytes) == g + Encode(bytes[3..]);
      assert (|bytes| + 2) / 3 == (|bytes[3..]| + 2) / 3 + 1;
    }
  }

  /** Four alphabet characters back to three octets. */
  function DecodeGroup(q: string): Option<seq<Byte>>
    requires |q| == 4
  {
    match (ValueOf(q[0]), ValueOf(q[1]), ValueOf(q[2]), ValueOf(q[3]))
    case (Some(s0), Some(s1), Some(s2), Some(s3)) => Some([Octet0(s0, s1), Octet1(s1, s2), Octet2(s2, s3)])
    case _ => None
  }

  /**
   * The last quantum: `xx==` holds one octet and `xxx=` two; the bits the padding leaves unused
   * must be zero, as section 3.5 of RFC 4648 asks of a canonical encoding.
   */
  function DecodeFinal(q: string): Option<seq<Byte>>
    requires |q| == 4
  {
    if q[2] == '=' && q[3] == '=' then
      match (ValueOf(q[0]), ValueOf(q[1]))
      case (Some(s0), Some(s1)) => if s1 % 16 == 0 then Some([Octet0(s0, s1)]) else None
      case _ => None
    else if q[3] == '=' then
      match (ValueOf(q[0]), ValueOf(q[1]), ValueOf(q[2]))
      case (Some(s0), Some(s1), Some(s2)) =>
        if s2 % 4 == 0 then Some([Octet0(s0, s1), Octet1(s1, s2)]) else None
      case _ => None
    else DecodeGroup(q)
  }

  /** Strict base 64 decoding: None for a wrong length, a foreign character or misplaced padding. */
  function Decode(s: string): Option<seq<Byte>>
    decreases |s|
  {
    if |s| == 0 then Some([])
    else if |s| < 4 then None
    else if |s| == 4 then DecodeFinal(s)
    else
      match (DecodeGroup(s[..4]), Decode(s[4..]))
      case (Some(head), Some(tail)) => Some(head + tail)
      case _ => None
  }

  lemma OctetsOfSextets(b0: Byte, b1: Byte, b2: Byte)
    ensures Octet0(Sextet0(b0), Sextet1(b0, b1)) == b0
    ensures Octet1(Sextet1(b0, b1), Sextet2(b1, b2)) == b1
    ensures Octet2(Sextet2(b1, b2), Sextet3(b2)) == b2
    ensures Sextet1(b0, 0) % 16 == 0 && Sextet2(b1, 0) % 4 == 0
  {
  }

  lemma SextetsOfOctets(s0: Sextet, s1: Sextet, s2: Sextet, s3: Sextet)
    ensures Sextet0(Octet0(s0, s1)) == s0
    ensures Sextet1(Octet0(s0, s1), Octet1(s1, s2)) == s1
    ensures Sextet2(Octet1(s1, s2), Octet2(s2, s3)) == s2
    ensures Sextet3(Octet2(s2, s3)) == s3
    ensures s1 % 16 == 0 ==> Sextet1(Octet0(s0, s1), 0) == s1
    ensures s2 % 4 == 0 ==> Sextet2(Octet1(s1, s2), 0) == s2
  {
  }

  lemma GroupRoundTrip(b0: Byte, b1: Byte, b2: Byte)
    ensures DecodeGroup(EncodeGroup(b0, b1, b2)) == Some([b0, b1, b2])
  {
    ValueOfCharOf(Sextet0(b0));
    ValueOfCharOf(Sextet1(b0, b1));
    ValueOfCharOf(Sextet2(b1, b2));
    ValueOfCharOf(Sextet3(b2));
    OctetsOfSextets(b0, b1, b2);
  }

  lemma OneOctetRoundTrip(b0: Byte)
    ensures Decode(Encode([b0])) == Some([b0])
  {
    ValueOfCharOf(Sextet0(b0));
    ValueOfCharOf(Sextet1(b0, 0));
    OctetsOfSextets(b0, 0, 0);
    FinalOneOctet(Sextet0(b0), Sextet1(b0, 0));
  }

  lemma FinalOneOctet(s0: Sextet, s1: Sextet)
    requires ValueOf(CharOf(s0)) == Some(s0) && ValueOf(CharOf(s1)) == Some(s1) && s1 % 16 == 0
    ensures DecodeFinal([CharOf(s0), CharOf(s1), '=', '=']) == Some([Octet0(s0, s1)])
  {
  }

  lemma TwoOctetsRoundTrip(b0: Byte, b1: Byte)
    ensures Decode(Encode([b0, b1])) == Some([b0, b1])
  {
    var s := Encode([b0, b1]);
    assert s == [CharOf(Sextet0(b0)), CharOf(Sextet1(b0, b1)), CharOf(Sextet2(b1, 0)), '='];
    ValueOfCharOf(Sextet0(b0));
    ValueOfCharOf(Sextet1(b0, b1));
    ValueOfCharOf(Sextet2(b1, 0));
    OctetsOfSextets(b0, b1, 0);
  }

  /** A full group followed by more text decodes group by group. */
  lemma DecodeAfterGroup(g: string, rest: string)
    requires |g| == 4 && DecodeGroup(g).Some? && Decode(rest).Some? && |rest| > 0
    ensures Decode(g + rest) == Some(DecodeGroup(g).value + Decode(rest).value)
  {
    var s := g + rest;
    assert s[..4] == g && s[4..] == rest;
  }

  lemma ThreeOctetsRoundTrip(b0: Byte, b1: Byte, b2: Byte)
    ensures Decode(Encode([b0, b1, b2])) == Some([b0, b1, b2])
  {
    var bytes := [b0, b1, b2];
    assert bytes[3..] == [];
    assert Encode(bytes) == EncodeGroup(b0, b1, b2);
    GroupRoundTrip(b0, b1, b2);
  }

  /** Decoding an encoding gives back the octets: `Decode(Encode(b)) == b`. */
  lemma {:induction false} DecodeEncode(bytes: seq<Byte>)
    ensures Decode(Encode(bytes)) == Some(bytes)
    decreases |bytes|
  {
    if |bytes| == 1 {
      assert bytes == [bytes[0]];
      OneOctetRoundTrip(bytes[0]);
    } else if |bytes| == 2 {
      assert bytes == [bytes[0], bytes[1]];
      TwoOctetsRoundTrip(bytes[0], bytes[1]);
    } else if |bytes| == 3 {
      assert bytes == [bytes[0], bytes[1], bytes[2]];
      ThreeOctetsRoundTrip(bytes[0], bytes[1], bytes[2]);
    } else if |bytes| > 3 {
      DecodeEncode(bytes[3..]);
      DecodeEncodeStep(bytes);
    }
  }

  /** The encoding of four or more octets: one full group, then the non-empty encoding of the rest. */
  lemma EncodeFront(bytes: seq<Byte>)
    requires |bytes| > 3
    ensures Encode(bytes) == EncodeGroup(bytes[0], bytes[1], bytes[2]) + Encode(bytes[3..])
    ensures |Encode(bytes[3..])| > 0
  {
    EncodeShape(bytes[3..]);
    assert (|bytes[3..]| + 2) / 3 >= 1;
  }

  lemma SplitFront(bytes: seq<Byte>)
    requires |bytes| >= 3
    ensures bytes == [bytes[0], bytes[1], bytes[2]] + bytes[3..]
  {
  }

  /** A full group in front of a tail that round-trips keeps the round trip. */
  lemma DecodeEncodeStep(bytes: seq<Byte>)
    requires |bytes| > 3 && Decode(Encode(bytes[3..])) == Some(bytes[3..])
    ensures Decode(Encode(bytes)) == Some(bytes)
  {
    EncodeFront(bytes);
    GroupRoundTrip(bytes[0], bytes[1], bytes[2]);
    DecodeAfterGroup(EncodeGroup(bytes[0], bytes[1], bytes[2]), Encode(bytes[3..]));
    SplitFront(bytes);
  }

  lemma GroupInverse(q: string)
    requires |q| == 4 && DecodeGroup(q).Some?
    ensures var b := DecodeGroup(q).value; |b| == 3 && EncodeGroup(b[0], b[1], b[2]) == q
  {
    CharOfValueOf(q[0]);
    CharOfValueOf(q[1]);
    CharOfValueOf(q[2]);
    CharOfValueOf(q[3]);
    SextetsOfOctets(ValueOf(q[0]).value, ValueOf(q[1]).value, ValueOf(q[2]).value, ValueOf(q[3]).value);
  }

  lemma FinalInverse(q: string)
    requires |q| == 4 && DecodeFinal(q).Some?
    ensures Encode(DecodeFinal(q).value) == q
  {
    var b := DecodeFinal(q).value;
    if q[2] == '=' && q[3] == '=' {
      CharOfValueOf(q[0]);
      CharOfValueOf(q[1]);
      SextetsOfOctets(ValueOf(q[0]).value, ValueOf(q[1]).value, 0, 0);
    } else if q[3] == '=' {
      CharOfValueOf(q[0]);
      CharOfValueOf(q[1]);
      CharOfValueOf(q[2]);
      SextetsOfOctets(ValueOf(q[0]).value, ValueOf(q[1]).value, ValueOf(q[2]).value, 0);
    } else {
      GroupInverse(q);
      assert b[3..] == [];
    }
  }

  /** Every string the strict decoder accepts is the encoding of what it decodes to. */
  lemma {:induction false} EncodeDecode(s: string)
    requires Decode(s).Some?
    ensures Encode(Decode(s).value) == s
    decreases |s|
  {
    if |s| == 4 {
      FinalInverse(s);
    } else if |s| > 4 {
      var head := DecodeGroup(s[..4]).value;
      var tail := Decode(s[4..]).value;
      GroupInverse(s[..4]);
      EncodeDecode(s[4..]);
      var b := head + tail;
      assert b[3..] == tail;
      assert s == s[..4] + s[4..];
    }
  }
}
