/**
 * UTF-8, the encoding Rust's `str::as_bytes` exposes: each Unicode scalar value
 * becomes one to four bytes (section 3 of RFC 3629).
 */
module Utf8 {
  import opened Common

  /** A byte of the form `10xxxxxx` carrying the low six bits of `n`. */
  function Continuation(n: nat): (b: byte)
    ensures b >= 0x80
  {
    0x80 + n % 0x40
  }

  /** A leading byte: the length marker `marker` plus the high bits `high`. */
  function Leading(marker: nat, high: nat): (b: byte)
    requires 0x80 <= marker && marker + high < 0x100
    ensures b >= 0x80
  {
    marker + high
  }

  /** The bytes of one scalar value. */
  function EncodeChar(c: char): (b: seq<byte>)
    ensures 1 <= |b| <= 4
    ensures |b| == 1 <==> c as int < 0x80
    ensures |b| == 1 ==> b[0] == c as int
    ensures |b| > 1 ==> forall i :: 0 <= i < |b| ==> b[i] >= 0x80
  {
    var n := c as int;
    assert n <= 0x10_FFFF;
    if n < 0x80 then
      [n]
    else if n < 0x800 then
      assert n / 0x40 < 0x20;
      [Leading(0xC0, n / 0x40), Continuation(n)]
    else if n < 0x1_0000 then
      assert n / 0x1000 < 0x10;
      [Leading(0xE0, n / 0x1000), Continuation(n / 0x40), Continuation(n)]
    else
      assert n / 0x4_0000 < 0x8;
      [Leading(0xF0, n / 0x4_0000), Continuation(n / 0x1000), Continuation(n / 0x40), Continuation(n)]
  }

  /** The bytes of a string, character by character. */
  function Encode(s: string): (b: seq<byte>)
    ensures |s| <= |b| <= 4 * |s|
    decreases |s|
  {
    if s == [] then [] else EncodeChar(s[0]) + Encode(s[1..])
  }

  /** Encoding distributes over concatenation. */
  lemma {:induction false} EncodeConcat(a: string, b: string)
    ensures Encode(a + b) == Encode(a) + Encode(b)
    decreases |a|
  {
    if a == [] {
      assert a + b == b;
    } else {
      assert (a + b)[0] == a[0] && (a + b)[1..] == a[1..] + b;
      EncodeConcat(a[1..], b);
    }
  }

  /** An ASCII character `c` occurs among the bytes of `s` only where `s` holds `c` itself. */
  lemma {:induction false} AsciiByteOnlyFromItself(s: string, c: char)
    requires c as int < 0x80
    requires forall i :: 0 <= i < |s| ==> s[i] != c
    ensures forall j :: 0 <= j < |Encode(s)| ==> Encode(s)[j] != c as int
    decreases |s|
  {
    if s != [] {
      AsciiByteOnlyFromItself(s[1..], c);
      var head, rest := EncodeChar(s[0]), Encode(s[1..]);
      assert Encode(s) == head + rest;
      forall j | 0 <= j < |Encode(s)|
        ensures Encode(s)[j] != c as int
      {
        if j >= |head| {
          assert Encode(s)[j] == rest[j - |head|];
        }
      }
    }
  }
}
