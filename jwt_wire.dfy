/**
 * The wire form of the tokens the backend issues, and what bcrypt reads of
 * it. `jwtService.signAsync({ sub })` produces the compact serialisation of
 * section 7.1 of RFC 7515: base64url (section 5 of RFC 4648, no padding) of
 * the header JSON, a dot, base64url of the UTF-8 payload JSON, a dot, and the
 * signature. bcrypt keys on the first 72 bytes only, and those never reach
 * the signature.
 */
module JwtWire {
  import opened Crypto
  import Utf8
  import Bcrypt

  type byte = Utf8.byte

  // ---------------------------------------------------------------------------
  // base64url
  // ---------------------------------------------------------------------------

  /** The base64url symbol for a 6-bit value. */
  function Symbol(v: nat): (c: char)
    requires v < 64
  {
    if v < 26 then ('A' as int + v) as char
    else if v < 52 then ('a' as int + v - 26) as char
    else if v < 62 then ('0' as int + v - 52) as char
    else if v == 62 then '-'
    else '_'
  }

  /** The 6-bit value of a base64url symbol (0 for any other character). */
  function ValueOf(c: char): (v: nat)
    ensures v < 64
  {
    if 'A' <= c <= 'Z' then c as int - 'A' as int
    else if 'a' <= c <= 'z' then c as int - 'a' as int + 26
    else if '0' <= c <= '9' then c as int - '0' as int + 52
    else if c == '-' then 62
    else if c == '_' then 63
    else 0
  }

  lemma ValueOfSymbol(v: nat)
    requires v < 64
    ensures ValueOf(Symbol(v)) == v
  {
  }

  /** Three bytes as four symbols. */
  function Group(b0: byte, b1: byte, b2: byte): (s: string)
    ensures |s| == 4
  {
    [Symbol(b0 / 4), Symbol(b0 % 4 * 16 + b1 / 16), Symbol(b1 % 16 * 4 + b2 / 64), Symbol(b2 % 64)]
  }

  /** Four symbols as three bytes. */
  function Ungroup(s: string): (bs: seq<byte>)
    requires |s| == 4
    ensures |bs| == 3
  {
    var v0, v1, v2, v3 := ValueOf(s[0]), ValueOf(s[1]), ValueOf(s[2]), ValueOf(s[3]);
    [v0 * 4 + v1 / 16, v1 % 16 * 16 + v2 / 4, v2 % 4 * 64 + v3]
  }

  /** A value written as a high part and a low part below `m` reads back as those parts. */
  lemma SplitDigits16(hi: nat, lo: nat)
    requires lo < 16
    ensures (hi * 16 + lo) / 16 == hi && (hi * 16 + lo) % 16 == lo
  {
  }

  lemma SplitDigits4(hi: nat, lo: nat)
    requires lo < 4
    ensures (hi * 4 + lo) / 4 == hi && (hi * 4 + lo) % 4 == lo
  {
  }

  lemma GroupRoundTrip(b0: byte, b1: byte, b2: byte)
    ensures Ungroup(Group(b0, b1, b2)) == [b0, b1, b2]
  {
    var v0, v1, v2, v3 := b0 / 4, b0 % 4 * 16 + b1 / 16, b1 % 16 * 4 + b2 / 64, b2 % 64;
    ValueOfSymbol(v0);
    ValueOfSymbol(v1);
    ValueOfSymbol(v2);
    ValueOfSymbol(v3);
    var g := Group(b0, b1, b2);
    assert ValueOf(g[0]) == v0 && ValueOf(g[1]) == v1 && ValueOf(g[2]) == v2 && ValueOf(g[3]) == v3;
    SplitDigits16(b0 % 4, b1 / 16);
    SplitDigits4(b1 % 16, b2 / 64);
    assert v0 * 4 + v1 / 16 == b0;
    assert v1 % 16 * 16 + v2 / 4 == b1;
    assert v2 % 4 * 64 + v3 == b2;
  }

  /**
   * base64url without padding: each 3 bytes become 4 symbols; a tail of 1 or
   * 2 bytes becomes the first 2 or 3 symbols of its group, zero-filled.
   */
  function Encode(bs: seq<byte>): (s: string)
    ensures |s| == (4 * |bs| + 2) / 3
  {
    if |bs| == 0 then ""
    else if |bs| == 1 then Group(bs[0], 0, 0)[..2]
    else if |bs| == 2 then Group(bs[0], bs[1], 0)[..3]
    else Group(bs[0], bs[1], bs[2]) + Encode(bs[3..])
  }

  /** The inverse reading: a short tail is completed with zero symbols (`A`) before it is read. */
  function Decode(s: string): seq<byte>
  {
    if |s| < 2 then []
    else if |s| == 2 then Ungroup(s + "AA")[..1]
    else if |s| == 3 then Ungroup(s + "A")[..2]
    else Ungroup(s[..4]) + Decode(s[4..])
  }

  /** A whole leading group decodes on its own. */
  lemma DecodeLeadingGroup(g: string, rest: string)
    requires |g| == 4
    ensures Decode(g + rest) == Ungroup(g) + Decode(rest)
  {
    assert (g + rest)[..4] == g && (g + rest)[4..] == rest;
  }

  /** A tail of one byte decodes back to itself. */
  lemma DecodeOneByte(b0: byte)
    ensures Decode(Encode([b0])) == [b0]
  {
    var g := Group(b0, 0, 0);
    assert g[2] == 'A' && g[3] == 'A';
    assert Encode([b0]) + "AA" == g;
    GroupRoundTrip(b0, 0, 0);
  }

  /** A tail of two bytes decodes back to itself. */
  lemma DecodeTwoBytes(b0: byte, b1: byte)
    ensures Decode(Encode([b0, b1])) == [b0, b1]
  {
    var g := Group(b0, b1, 0);
    assert g[3] == 'A';
    assert Encode([b0, b1]) + "A" == g;
    GroupRoundTrip(b0, b1, 0);
  }

  /** The first four symbols of an encoding of three or more bytes are the first group. */
  lemma EncodeLeadingGroup(bs: seq<byte>)
    requires |bs| >= 3
    ensures |Encode(bs)| >= 4 && Encode(bs)[4..] == Encode(bs[3..])
    ensures Ungroup(Encode(bs)[..4]) == bs[..3]
  {
    var g := Group(bs[0], bs[1], bs[2]);
    assert Encode(bs) == g + Encode(bs[3..]);
    assert Encode(bs)[..4] == g;
    GroupRoundTrip(bs[0], bs[1], bs[2]);
  }

  /** One whole group in front: decoding undoes encoding if it does for the rest. */
  lemma DecodeEncodeStep(bs: seq<byte>)
    requires |bs| >= 3 && Decode(Encode(bs[3..])) == bs[3..]
    ensures Decode(Encode(bs)) == bs
  {
    var t := Encode(bs);
    EncodeLeadingGroup(bs);
    DecodeLeadingGroup(t[..4], t[4..]);
    assert t == t[..4] + t[4..];
    assert bs == bs[..3] + bs[3..];
  }

  /** Decoding undoes encoding. */
  lemma {:induction false} DecodeEncode(bs: seq<byte>)
    ensures Decode(Encode(bs)) == bs
  {
    if |bs| == 1 {
      DecodeOneByte(bs[0]);
      assert bs == [bs[0]];
    } else if |bs| == 2 {
      DecodeTwoBytes(bs[0], bs[1]);
      assert bs == [bs[0], bs[1]];
    } else if |bs| >= 3 {
      DecodeEncode(bs[3..]);
      DecodeEncodeStep(bs);
    }
  }

  /** Encoding works group by group: a prefix of whole groups encodes on its own. */
  lemma {:induction false} EncodeAppend(a: seq<byte>, b: seq<byte>)
    requires |a| % 3 == 0
    ensures Encode(a + b) == Encode(a) + Encode(b)
  {
    if a == [] {
      assert a + b == b;
    } else {
      assert (a + b)[0] == a[0] && (a + b)[1] == a[1] && (a + b)[2] == a[2];
      assert (a + b)[3..] == a[3..] + b;
      EncodeAppend(a[3..], b);
    }
  }

  // ---------------------------------------------------------------------------
  // The compact serialisation
  // ---------------------------------------------------------------------------

  predicate IsAscii(s: string)
  {
    forall i :: 0 <= i < |s| ==> s[i] < 128 as char
  }

  /** UTF-8 of an ASCII string: one byte per character. */
  function AsciiBytes(s: string): (bs: seq<byte>)
    requires IsAscii(s)
    ensures |bs| == |s| && forall i :: 0 <= i < |s| ==> bs[i] == s[i] as int
  {
    seq(|s|, i requires 0 <= i < |s| => s[i] as int)
  }

  /** A number in JSON: its decimal digits. */
  function Decimal(n: nat): (s: string)
    ensures |s| >= 1 && forall i :: 0 <= i < |s| ==> '0' <= s[i] <= '9'
  {
    if n < 10 then [('0' as int + n) as char] else Decimal(n / 10) + [('0' as int + n % 10) as char]
  }

  /** The header jsonwebtoken writes for HS256. */
  const HeaderJson := "{\"alg\":\"HS256\",\"typ\":\"JWT\"}"

  /** The first segment of every token: base64url of the header's 27 bytes, 36 symbols. */
  const HeaderSegment: string := Encode(AsciiBytes(HeaderJson))

  /** The payload `{ sub }` after jsonwebtoken adds `iat` and then `exp`. */
  const SubjectPrefix := "{\"sub\":\""

  /** What follows the subject: the closing quote, `iat` and `exp`. */
  function PayloadTail(j: Jwt): (s: string)
    ensures |s| >= 18
  {
    "\",\"iat\":" + Decimal(j.iat) + ",\"exp\":" + Decimal(j.exp) + "}"
  }

  /** The payload JSON as bytes; the subject is written between the quotes as it is. */
  function PayloadBytes(j: Jwt): (bs: seq<byte>)
    ensures |bs| >= |SubjectPrefix| + |j.sub| + 18
  {
    Utf8.Encode(SubjectPrefix + j.sub + PayloadTail(j))
  }

  /**
   * The JWS Signing Input (section 5.1 of RFC 7515): header segment, a dot,
   * payload segment. The payload has at least 26 bytes, so 35 symbols.
   */
  function SigningInput(j: Jwt): (s: string)
    ensures |s| >= Bcrypt.MaxKeyBytes
  {
    HeaderSegment + "." + Encode(PayloadBytes(j))
  }

  /** The text of a signed token; `signature` is the base64url HMAC, left abstract. */
  function Compact(j: Jwt, signature: string): (s: string)
    ensures s == SigningInput(j) + ("." + signature)
  {
    SigningInput(j) + "." + signature
  }

  /**
   * The bytes bcrypt reads of a token as it travels: for a signed token the
   * first 72 bytes of its signing input, for any other text its first 72
   * UTF-8 bytes.
   */
  function TokenKey(t: TokenText): (k: seq<byte>)
    ensures |k| <= Bcrypt.MaxKeyBytes
  {
    match t
    case Signed(j) => Utf8.Encode(SigningInput(j))[..Bcrypt.MaxKeyBytes]
    case Raw(text) => Bcrypt.Key(Utf8.Encode(text))
  }

  /** What bcrypt reads of a token's full text is its TokenKey, whatever the signature. */
  lemma CompactKey(j: Jwt, signature: string)
    ensures Bcrypt.Key(Utf8.Encode(Compact(j, signature))) == TokenKey(Signed(j))
  {
    Utf8.EncodeAppend(SigningInput(j), "." + signature);
  }

  /** A text's first 72 bytes are those of its first 72 characters. */
  lemma LeadingBytes(s: string)
    requires |s| >= Bcrypt.MaxKeyBytes
    ensures |Utf8.Encode(s[..Bcrypt.MaxKeyBytes])| >= Bcrypt.MaxKeyBytes
    ensures Utf8.Encode(s)[..Bcrypt.MaxKeyBytes] == Utf8.Encode(s[..Bcrypt.MaxKeyBytes])[..Bcrypt.MaxKeyBytes]
  {
    assert s == s[..Bcrypt.MaxKeyBytes] + s[Bcrypt.MaxKeyBytes..];
    Utf8.EncodeAppend(s[..Bcrypt.MaxKeyBytes], s[Bcrypt.MaxKeyBytes..]);
  }

  /** The payload's bytes: those of `{"sub":"` and the subject, then those of the tail. */
  lemma PayloadFront(j: Jwt)
    ensures |Utf8.Encode(SubjectPrefix + j.sub)| == |SubjectPrefix| + |Utf8.Encode(j.sub)|
    ensures PayloadBytes(j) == Utf8.Encode(SubjectPrefix + j.sub) + Utf8.Encode(PayloadTail(j))
  {
    Utf8.EncodeAppend(SubjectPrefix, j.sub);
    Utf8.AsciiLength(SubjectPrefix);
    Utf8.EncodeAppend(SubjectPrefix + j.sub, PayloadTail(j));
  }

  /** The first 27 payload bytes are `{"sub":"` and the first 19 bytes of the subject. */
  lemma PayloadPrefix(j1: Jwt, j2: Jwt)
    requires j1.sub == j2.sub && |Utf8.Encode(j1.sub)| >= 19
    ensures |PayloadBytes(j1)| >= 27 && |PayloadBytes(j2)| >= 27
    ensures PayloadBytes(j1)[..27] == PayloadBytes(j2)[..27]
  {
    PayloadFront(j1);
    PayloadFront(j2);
    var a := Utf8.Encode(SubjectPrefix + j1.sub);
    assert PayloadBytes(j1)[..27] == a[..27] == PayloadBytes(j2)[..27];
  }

  /** The first 36 symbols of an encoding depend only on the first 27 bytes. */
  lemma EncodePrefix(p: seq<byte>)
    requires |p| >= 27
    ensures |Encode(p)| >= 36 && Encode(p)[..36] == Encode(p[..27])
  {
    EncodeAppend(p[..27], p[27..]);
    assert p == p[..27] + p[27..];
  }

  /** The first 72 characters of a signing input: header segment, dot, 35 payload symbols. */
  lemma SigningInputPrefix(j: Jwt)
    requires |PayloadBytes(j)| >= 27
    ensures SigningInput(j)[..72] == (HeaderSegment + "." + Encode(PayloadBytes(j)[..27]))[..72]
  {
    var p := PayloadBytes(j);
    EncodePrefix(p);
    var e := Encode(p);
    var t := SigningInput(j);
    var a := HeaderSegment + "." + e[..36];
    assert |HeaderSegment| == 36 && |a| == 73;
    forall i | 0 <= i < 72 ensures t[i] == a[i] {
      if i >= 37 {
        assert t[i] == e[i - 37] && a[i] == e[..36][i - 37];
      }
    }
    assert t[..72] == a[..72];
  }

  /**
   * Every token for the same subject has the same key once the subject has
   * 19 bytes or more (a uuid has 36): 36 symbols of header, a dot, and the 35
   * symbols that encode `{"sub":"` and the subject's first 19 bytes. Neither
   * `iat`, `exp` nor the signature reaches bcrypt.
   */
  lemma SameSubjectSameKey(j1: Jwt, j2: Jwt)
    requires j1.sub == j2.sub && |Utf8.Encode(j1.sub)| >= 19
    ensures TokenKey(Signed(j1)) == TokenKey(Signed(j2))
  {
    PayloadPrefix(j1, j2);
    SigningInputPrefix(j1);
    SigningInputPrefix(j2);
    LeadingBytes(SigningInput(j1));
    LeadingBytes(SigningInput(j2));
  }
}
