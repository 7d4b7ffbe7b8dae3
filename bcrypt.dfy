/**
 * bcrypt as the backend calls it: `bcrypt.hash(text, 10)` and
 * `bcrypt.compare(text, digest)`. Node passes the string as UTF-8, and
 * bcrypt keys its cipher with 72 bytes taken from it: the first 72 of a
 * longer text, a shorter one followed by a NUL and repeated. Two texts with
 * the same 72 key bytes are indistinguishable to it.
 */
module Bcrypt {
  import opened Utf8

  /** The work factor every `bcrypt.hash` call in the backend passes. */
  const Cost: nat := 10

  /** bcrypt reads at most this many bytes of its input. */
  const MaxKeyBytes: nat := 72

  /**
   * A bcrypt digest. The salt is the random part bcrypt draws; `input` stands
   * for the value that was hashed, so that a compare can be computed from it.
   */
  datatype Digest<T> = Digest(cost: nat, salt: nat, input: T)

  /** `bcrypt.hash(x, 10)`, with the random salt passed in. */
  function Hash<T>(x: T, salt: nat): Digest<T>
  {
    Digest(Cost, salt, x)
  }

  /**
   * `unit` repeated and cut to `n` bytes: it starts with `unit` and repeats
   * itself every `|unit|` bytes.
   */
  function Fill(unit: seq<byte>, n: nat): (r: seq<byte>)
    requires |unit| > 0
    ensures |r| == n
    ensures forall i :: 0 <= i < n && i < |unit| ==> r[i] == unit[i]
    ensures forall i :: |unit| <= i < n ==> r[i] == r[i - |unit|]
    decreases n
  {
    if n <= |unit| then unit[..n] else unit + Fill(unit, n - |unit|)
  }

  /**
   * The 72 key bytes bcrypt's key schedule reads (the `$2b$` variant): the
   * first 72 bytes of a longer input; a shorter input followed by its
   * terminating NUL, repeated until 72 bytes are filled.
   */
  function Key(bs: seq<byte>): (k: seq<byte>)
    ensures |k| == MaxKeyBytes
    ensures |bs| >= MaxKeyBytes ==> k == bs[..MaxKeyBytes]
    ensures |bs| < MaxKeyBytes ==> k[..|bs| + 1] == bs + [0]
    ensures |bs| < MaxKeyBytes ==> forall i :: |bs| < i < MaxKeyBytes ==> k[i] == k[i - |bs| - 1]
  {
    if |bs| >= MaxKeyBytes then bs[..MaxKeyBytes] else Fill(bs + [0], MaxKeyBytes)
  }

  /** No zero byte. */
  predicate NonZero(bs: seq<byte>)
  {
    forall i :: 0 <= i < |bs| ==> bs[i] != 0
  }

  /** A text without U+0000. */
  predicate NulFree(s: string)
  {
    forall i :: 0 <= i < |s| ==> s[i] != 0 as char
  }

  /** A key begins with an input of at most 72 bytes, and then a NUL if there is room. */
  lemma KeyStartsWithInput(bs: seq<byte>)
    requires |bs| <= MaxKeyBytes
    ensures forall i :: 0 <= i < |bs| ==> Key(bs)[i] == bs[i]
    ensures |bs| < MaxKeyBytes ==> Key(bs)[|bs|] == 0
  {
    if |bs| < MaxKeyBytes {
      assert Key(bs)[..|bs| + 1] == bs + [0];
      assert forall i :: 0 <= i <= |bs| ==> Key(bs)[i] == Key(bs)[..|bs| + 1][i];
    }
  }

  /**
   * For inputs of at most 72 bytes without a zero byte the key determines
   * the input: the first NUL of the key marks where the input ends.
   */
  lemma KeyDeterminesShortInput(a: seq<byte>, b: seq<byte>)
    requires |a| <= MaxKeyBytes && |b| <= MaxKeyBytes && NonZero(a) && NonZero(b)
    requires Key(a) == Key(b)
    ensures a == b
  {
    KeyStartsWithInput(a);
    KeyStartsWithInput(b);
    assert |a| == |b|;
  }

  /** `bcrypt.compare(text, d)` for a digest made from a string. */
  predicate Compare(text: string, d: Digest<string>)
  {
    Key(Encode(text)) == Key(Encode(d.input))
  }

  /**
   * A string passes the compare against the digest of `x` exactly when their
   * keys agree; when both are 72 bytes or shorter and neither contains
   * U+0000, exactly when the strings are equal.
   */
  lemma CompareHashed(x: string, y: string, salt: nat)
    ensures Compare(y, Hash(x, salt)) <==> Key(Encode(y)) == Key(Encode(x))
    ensures |Encode(x)| <= MaxKeyBytes && |Encode(y)| <= MaxKeyBytes && NulFree(x) && NulFree(y) ==>
              (Compare(y, Hash(x, salt)) <==> y == x)
  {
    if |Encode(x)| <= MaxKeyBytes && |Encode(y)| <= MaxKeyBytes && NulFree(x) && NulFree(y) && Compare(y, Hash(x, salt)) {
      EncodeNonZero(x);
      EncodeNonZero(y);
      KeyDeterminesShortInput(Encode(y), Encode(x));
      DecodeEncode(x);
      DecodeEncode(y);
    }
  }

  /** Whatever follows a shared first 72 bytes is ignored. */
  lemma SharedPrefixCompares(prefix: string, x: string, y: string, salt: nat)
    requires |Encode(prefix)| >= MaxKeyBytes
    ensures Compare(prefix + y, Hash(prefix + x, salt))
  {
    EncodeAppend(prefix, x);
    EncodeAppend(prefix, y);
    var p := Encode(prefix);
    assert (p + Encode(x))[..MaxKeyBytes] == p[..MaxKeyBytes] == (p + Encode(y))[..MaxKeyBytes];
  }

  /** `n` copies of `c`. */
  function Repeat(c: char, n: nat): (s: string)
    ensures |s| == n && forall i :: 0 <= i < n ==> s[i] == c
  {
    if n == 0 then [] else [c] + Repeat(c, n - 1)
  }

  lemma {:induction false} RepeatLength(c: char, n: nat)
    ensures |Encode(Repeat(c, n))| == n * |EncodeChar(c)|
  {
    if n > 0 {
      assert Repeat(c, n)[0] == c && Repeat(c, n)[1..] == Repeat(c, n - 1);
      RepeatLength(c, n - 1);
    }
  }

  /**
   * Two 19-character passwords, within the 25 characters signup allows, that
   * differ in their last character yet pass each other's compare: eighteen
   * four-byte characters fill the 72 bytes.
   */
  lemma LongPasswordsCollide(salt: nat)
    ensures var prefix := Repeat('\U{1F600}', 18);
            prefix + "A" != prefix + "B" && |prefix + "A"| == 19
            && Compare(prefix + "B", Hash(prefix + "A", salt))
  {
    var prefix := Repeat('\U{1F600}', 18);
    RepeatLength('\U{1F600}', 18);
    assert (prefix + "A")[18] != (prefix + "B")[18];
    SharedPrefixCompares(prefix, "A", "B", salt);
  }

  /** Repeating a unit twice over fills as repeating it once. */
  lemma {:induction false} FillDoubled(u: seq<byte>, n: nat)
    requires |u| > 0
    ensures Fill(u + u, n) == Fill(u, n)
    decreases n
  {
    if n > 2 * |u| {
      FillDoubled(u, n - 2 * |u|);
      assert Fill(u, n) == u + (u + Fill(u, n - 2 * |u|));
    } else if n > |u| {
      assert Fill(u, n) == u + u[..n - |u|];
      assert (u + u)[..n] == u + u[..n - |u|];
    } else {
      assert (u + u)[..n] == u[..n];
    }
  }

  /**
   * An input followed by a NUL and itself again keys the cipher exactly as
   * the input alone does: the repetition bcrypt performs is already there.
   */
  lemma NulRepeatSameKey(bs: seq<byte>)
    requires 2 * |bs| + 1 < MaxKeyBytes
    ensures Key(bs + [0] + bs) == Key(bs)
  {
    var u := bs + [0];
    assert (bs + [0] + bs) + [0] == u + u;
    FillDoubled(u, MaxKeyBytes);
  }

  /** A text repeated after a U+0000 passes the compare against the digest of the text. */
  lemma NulRepeatCompares(p: string, salt: nat)
    requires 2 * |Encode(p)| + 1 < MaxKeyBytes
    ensures Compare(p + "\0" + p, Hash(p, salt))
  {
    EncodeAppend(p, "\0");
    EncodeAppend(p + "\0", p);
    assert Encode("\0") == [0];
    NulRepeatSameKey(Encode(p));
  }

  /**
   * A login password that repeats the six-character signup password after a
   * U+0000 passes the compare against the signup digest.
   */
  lemma NulSuffixedPasswordAccepted(salt: nat)
    ensures "abcdef\0abcdef" != "abcdef" && Compare("abcdef\0abcdef", Hash("abcdef", salt))
  {
    AsciiLength("abcdef");
    assert "abcdef" + "\0" + "abcdef" == "abcdef\0abcdef";
    NulRepeatCompares("abcdef", salt);
  }
}
