/**
 * UTF-8 (RFC 3629), the byte form in which Node hands strings to bcrypt and
 * in which jsonwebtoken serialises a token's payload before base64url.
 * Dafny's `char` is a Unicode scalar value, so every character has exactly
 * one encoding of one to four bytes.
 */
module Utf8 {
  type byte = b: int | 0 <= b < 256

  /** The encoding of one scalar value (the table of section 3 of RFC 3629). */
  function EncodeChar(c: char): (bs: seq<byte>)
    ensures 1 <= |bs| == Width(bs[0])
    ensures (c as int < 0x80) == (|bs| == 1)
  {
    var n := c as int;
    if n < 0x80 then [n]
    else if n < 0x800 then [0xC0 + n / 64, 0x80 + n % 64]
    else if n < 0x10000 then [0xE0 + n / 4096, 0x80 + n / 64 % 64, 0x80 + n % 64]
    else [0xF0 + n / 262144, 0x80 + n / 4096 % 64, 0x80 + n / 64 % 64, 0x80 + n % 64]
  }

  function Encode(s: string): (bs: seq<byte>)
    ensures |bs| >= |s|
  {
    if s == [] then [] else EncodeChar(s[0]) + Encode(s[1..])
  }

  /** How many bytes the sequence led by `b0` occupies. */
  function Width(b0: byte): (w: nat)
    ensures 1 <= w <= 4
  {
    if b0 < 0xC0 then 1 else if b0 < 0xE0 then 2 else if b0 < 0xF0 then 3 else 4
  }

  /** The scalar value of one encoded sequence; U+FFFD for anything that is not one. */
  function DecodeChar(bs: seq<byte>): char
    requires 1 <= |bs| <= 4
  {
    var b0, b1, b2, b3: int := bs[0], if |bs| > 1 then bs[1] else 0, if |bs| > 2 then bs[2] else 0,
                                if |bs| > 3 then bs[3] else 0;
    var n :=
      if |bs| == 1 then b0
      else if |bs| == 2 then (b0 - 0xC0) * 64 + (b1 - 0x80)
      else if |bs| == 3 then ((b0 - 0xE0) * 64 + (b1 - 0x80)) * 64 + (b2 - 0x80)
      else (((b0 - 0xF0) * 64 + (b1 - 0x80)) * 64 + (b2 - 0x80)) * 64 + (b3 - 0x80);
    if 0 <= n < 0xD800 || 0xE000 <= n < 0x11_0000 then n as char else 0xFFFD as char
  }

  function Decode(bs: seq<byte>): string
    decreases |bs|
  {
    if bs == [] then []
    else
      var w := if Width(bs[0]) <= |bs| then Width(bs[0]) else |bs|;
      [DecodeChar(bs[..w])] + Decode(bs[w..])
  }

  lemma DigitsOf64(n: nat)
    ensures n / 64 * 64 + n % 64 == n
    ensures n / 64 / 64 == n / 4096 && n / 4096 / 64 == n / 262144
  {
  }

  lemma DecodeEncodeChar(c: char)
    ensures DecodeChar(EncodeChar(c)) == c
  {
    var n := c as int;
    DigitsOf64(n);
    DigitsOf64(n / 64);
    DigitsOf64(n / 4096);
  }

  /** Decoding undoes encoding: a string is determined by its UTF-8 form. */
  lemma {:induction false} DecodeEncode(s: string)
    ensures Decode(Encode(s)) == s
  {
    if s != [] {
      var head, rest := EncodeChar(s[0]), Encode(s[1..]);
      var bs := head + rest;
      assert bs[0] == head[0];
      assert bs[..|head|] == head && bs[|head|..] == rest;
      DecodeEncodeChar(s[0]);
      DecodeEncode(s[1..]);
      assert s == [s[0]] + s[1..];
    }
  }

  lemma {:induction false} EncodeAppend(a: string, b: string)
    ensures Encode(a + b) == Encode(a) + Encode(b)
  {
    if a != [] {
      assert (a + b)[0] == a[0] && (a + b)[1..] == a[1..] + b;
      EncodeAppend(a[1..], b);
    } else {
      assert a + b == b;
    }
  }

  /** A string of characters below U+0080 takes one byte per character. */
  lemma {:induction false} AsciiLength(s: string)
    requires forall i :: 0 <= i < |s| ==> s[i] < 0x80 as char
    ensures |Encode(s)| == |s|
  {
    if s != [] {
      AsciiLength(s[1..]);
    }
  }

  /** Only U+0000 encodes to a zero byte: every other character's bytes are all non-zero. */
  lemma {:induction false} EncodeNonZero(s: string)
    requires forall i :: 0 <= i < |s| ==> s[i] != 0 as char
    ensures forall i :: 0 <= i < |Encode(s)| ==> Encode(s)[i] != 0
  {
    if s != [] {
      EncodeNonZero(s[1..]);
      var head := EncodeChar(s[0]);
      assert forall i :: 0 <= i < |head| ==> head[i] != 0;
    }
  }
}
