/**
 * The standard base64 encoding with padding (section 4 of RFC 4648),
 * as `general_purpose::STANDARD.encode` produces it, and its decoding.
 */
module Base64 {
  import opened Common

  /** A six-bit value, the unit one base64 character carries. */
  type sextet = x: int | 0 <= x < 0x40

  const Padding: char := '='

  /** The character of a sextet in the standard alphabet (Table 1 of RFC 4648). */
  function SextetChar(v: sextet): (c: char)
    ensures c != Padding
  {
    if v < 26 then ('A' as int + v) as char
    else if v < 52 then ('a' as int + (v - 26)) as char
    else if v < 62 then ('0' as int + (v - 52)) as char
    else if v == 62 then '+'
    else '/'
  }

  /** The sextet a character of the alphabet stands for; `None` for any other character. */
  function CharSextet(c: char): (r: Option<sextet>)
    ensures r.Some? ==> SextetChar(r.value) == c
  {
    if 'A' <= c <= 'Z' then Some(c as int - 'A' as int)
    else if 'a' <= c <= 'z' then Some(c as int - 'a' as int + 26)
    else if '0' <= c <= '9' then Some(c as int - '0' as int + 52)
    else if c == '+' then Some(62)
    else if c == '/' then Some(63)
    else None
  }

  /** Every sextet's character decodes back to it. */
  lemma SextetRoundTrip(v: sextet)
    ensures CharSextet(SextetChar(v)) == Some(v)
  {
  }

  /** Three bytes as four characters. */
  function EncodeTriple(a: byte, b: byte, c: byte): (s: string)
    ensures |s| == 4 && Padding !in s
  {
    [SextetChar(a / 4), SextetChar(a % 4 * 16 + b / 16), SextetChar(b % 16 * 4 + c / 64), SextetChar(c % 64)]
  }

  /** A last group of one or two bytes as four characters ending in padding. */
  function EncodeFinal(data: seq<byte>): (s: string)
    requires 1 <= |data| <= 2
    ensures |s| == 4 && s[3] == Padding
  {
    if |data| == 1 then
      [SextetChar(data[0] / 4), SextetChar(data[0] % 4 * 16), Padding, Padding]
    else
      [SextetChar(data[0] / 4), SextetChar(data[0] % 4 * 16 + data[1] / 16), SextetChar(data[1] % 16 * 4), Padding]
  }

  /**
   * The encoding of `data`: one group of four characters per three bytes, a last
   * group of one or two bytes padded with '='.
   */
  function Encode(data: seq<byte>): (s: string)
    ensures |s| % 4 == 0 && (|s| == 0 <==> data == [])
    decreases |data|
  {
    if |data| == 0 then ""
    else if |data| < 3 then EncodeFinal(data)
    else EncodeTriple(data[0], data[1], data[2]) + Encode(data[3..])
  }

  /** The first byte of a group: the six bits of `s0` and the high two of `s1`. */
  function Byte0(s0: sextet, s1: sextet): byte {
    (s0 as int) * 4 + (s1 as int) / 16
  }

  /** The second byte of a group: the low four bits of `s1` and the high four of `s2`. */
  function Byte1(s1: sextet, s2: sextet): byte {
    (s1 as int) % 16 * 16 + (s2 as int) / 4
  }

  /** The third byte of a group: the low two bits of `s2` and the six of `s3`. */
  function Byte2(s2: sextet, s3: sextet): byte {
    (s2 as int) % 4 * 64 + (s3 as int)
  }

  /** Four characters without padding as three bytes. */
  function DecodeQuad(q: string): (r: Option<seq<byte>>)
    requires |q| == 4
  {
    match (CharSextet(q[0]), CharSextet(q[1]), CharSextet(q[2]), CharSextet(q[3]))
    case (Some(s0), Some(s1), Some(s2), Some(s3)) =>
      Some([Byte0(s0, s1), Byte1(s1, s2), Byte2(s2, s3)])
    case _ => None
  }

  /** The last group of four characters, which may end in one or two '='. */
  function DecodeLastQuad(q: string): (r: Option<seq<byte>>)
    requires |q| == 4
  {
    if q[2] == Padding && q[3] == Padding then
      match (CharSextet(q[0]), CharSextet(q[1]))
      case (Some(s0), Some(s1)) => Some([Byte0(s0, s1)])
      case _ => None
    else if q[3] == Padding then
      match (CharSextet(q[0]), CharSextet(q[1]), CharSextet(q[2]))
      case (Some(s0), Some(s1), Some(s2)) => Some([Byte0(s0, s1), Byte1(s1, s2)])
      case _ => None
    else DecodeQuad(q)
  }

  /** Decoding: `None` for a length that is not a multiple of four or a character outside the alphabet. */
  function Decode(s: string): (r: Option<seq<byte>>)
    ensures r.Some? ==> |s| % 4 == 0
    ensures r.Some? ==> (|r.value| == 0 <==> |s| == 0)
    decreases |s|
  {
    if |s| == 0 then Some([])
    else if |s| < 4 then None
    else if |s| == 4 then DecodeLastQuad(s)
    else Join(DecodeQuad(s[..4]), Decode(s[4..]))
  }

  /** Both parts decoded, concatenated; `None` if either failed. */
  function Join(head: Option<seq<byte>>, rest: Option<seq<byte>>): Option<seq<byte>> {
    if head.Some? && rest.Some? then Some(head.value + rest.value) else None
  }

  /** Every started group of three bytes gives four characters. */
  lemma {:induction false} EncodedLength(data: seq<byte>)
    ensures |Encode(data)| == (|data| + 2) / 3 * 4
    decreases |data|
  {
    var n := |data|;
    if n > 3 {
      EncodedLength(data[3..]);
      assert |Encode(data)| == 4 + |Encode(data[3..])|;
      assert (n + 2) / 3 == (n - 1) / 3 + 1;
    } else if n > 0 {
      assert (n + 2) / 3 == 1;
    }
  }

  /** The three byte-assembly rules undo the split of bytes into sextets. */
  lemma BytesFromSextets(a: byte, b: byte, c: byte)
    ensures Byte0(a / 4, a % 4 * 16 + b / 16) == a
    ensures Byte1(a % 4 * 16 + b / 16, b % 16 * 4 + c / 64) == b
    ensures Byte2(b % 16 * 4 + c / 64, c % 64) == c
  {
  }

  /** A group of three bytes decodes back to those bytes. */
  lemma TripleRoundTrip(a: byte, b: byte, c: byte)
    ensures DecodeQuad(EncodeTriple(a, b, c)) == Some([a, b, c])
  {
    SextetRoundTrip(a / 4);
    SextetRoundTrip(a % 4 * 16 + b / 16);
    SextetRoundTrip(b % 16 * 4 + c / 64);
    SextetRoundTrip(c % 64);
    BytesFromSextets(a, b, c);
  }

  /** A last group of one byte decodes back to it. */
  lemma OneByteRoundTrip(a: byte)
    ensures Decode(Encode([a])) == Some([a])
  {
    assert Encode([a]) == EncodeFinal([a]);
    SextetRoundTrip(a / 4);
    SextetRoundTrip(a % 4 * 16);
    BytesFromSextets(a, 0, 0);
  }

  /** A last group of two bytes decodes back to them. */
  lemma TwoBytesRoundTrip(a: byte, b: byte)
    ensures Decode(Encode([a, b])) == Some([a, b])
  {
    assert Encode([a, b]) == EncodeFinal([a, b]);
    SextetRoundTrip(a / 4);
    SextetRoundTrip(a % 4 * 16 + b / 16);
    SextetRoundTrip(b % 16 * 4);
    BytesFromSextets(a, b, 0);
  }

  /** A last group of three bytes decodes back to them. */
  lemma ThreeBytesRoundTrip(a: byte, b: byte, c: byte)
    ensures Decode(Encode([a, b, c])) == Some([a, b, c])
  {
    var head := EncodeTriple(a, b, c);
    assert [a, b, c][3..] == [];
    assert Encode([a, b, c]) == head + "" == head;
    assert head[2] != Padding && head[3] != Padding;
    TripleRoundTrip(a, b, c);
  }

  /** Decoding a string of more than four characters decodes its first group and then the rest. */
  lemma DecodeLonger(head: string, tail: string, first: seq<byte>, rest: seq<byte>)
    requires |head| == 4 && |tail| > 0
    requires DecodeQuad(head) == Some(first) && Decode(tail) == Some(rest)
    ensures Decode(head + tail) == Some(first + rest)
  {
    var s := head + tail;
    assert s[..4] == head && s[4..] == tail;
  }

  /** A sequence of at least three elements is its first three followed by the rest. */
  lemma SplitThree<T>(s: seq<T>)
    requires |s| >= 3
    ensures [s[0], s[1], s[2]] + s[3..] == s
  {
  }

  /** With more than three bytes, the encoding is the first group's followed by the rest's. */
  lemma EncodeLonger(data: seq<byte>)
    requires |data| > 3
    ensures Encode(data) == EncodeTriple(data[0], data[1], data[2]) + Encode(data[3..])
  {
  }

  /** A full first group followed by the encoding of the rest decodes to the first three bytes and the rest. */
  lemma FirstGroupRoundTrip(data: seq<byte>)
    requires |data| > 3
    requires Decode(Encode(data[3..])) == Some(data[3..])
    ensures Decode(EncodeTriple(data[0], data[1], data[2]) + Encode(data[3..]))
         == Some([data[0], data[1], data[2]] + data[3..])
  {
    var head, tail := EncodeTriple(data[0], data[1], data[2]), Encode(data[3..]);
    TripleRoundTrip(data[0], data[1], data[2]);
    DecodeLonger(head, tail, [data[0], data[1], data[2]], data[3..]);
  }

  /** With more than three bytes, the first group decodes on its own and the rest follows it. */
  lemma LongerRoundTrip(data: seq<byte>)
    requires |data| > 3
    requires Decode(Encode(data[3..])) == Some(data[3..])
    ensures Decode(Encode(data)) == Some(data)
  {
    FirstGroupRoundTrip(data);
    EncodeLonger(data);
    SplitThree(data);
  }

  /** Decoding undoes encoding. */
  lemma {:induction false} DecodeEncode(data: seq<byte>)
    ensures Decode(Encode(data)) == Some(data)
    decreases |data|
  {
    if |data| == 1 {
      assert data == [data[0]];
      OneByteRoundTrip(data[0]);
    } else if |data| == 2 {
      assert data == [data[0], data[1]];
      TwoBytesRoundTrip(data[0], data[1]);
    } else if |data| == 3 {
      assert data == [data[0], data[1], data[2]];
      ThreeBytesRoundTrip(data[0], data[1], data[2]);
    } else if |data| > 3 {
      DecodeEncode(data[3..]);
      LongerRoundTrip(data);
    }
  }
}
