/** Unpadded URL-safe base64 (section 5 of RFC 4648, without padding), which Go calls
    `base64.RawURLEncoding`: the encoding of the random object-key bytes. */
module Base64Url {

  type byte = x: int | 0 <= x < 256

  /** A character of the URL and filename safe alphabet. */
  predicate IsDigit(c: char) {
    ('A' <= c <= 'Z') || ('a' <= c <= 'z') || ('0' <= c <= '9') || c == '-' || c == '_'
  }

  /** The digit for a six-bit value: `A`-`Z`, `a`-`z`, `0`-`9`, `-`, `_` in that order. */
  function Digit(v: nat): (c: char)
    requires v < 64
    ensures IsDigit(c)
  {
    if v < 26 then ('A' as int + v) as char
    else if v < 52 then ('a' as int + (v - 26)) as char
    else if v < 62 then ('0' as int + (v - 52)) as char
    else if v == 62 then '-'
    else '_'
  }

  /** The six-bit value of a digit. */
  function Value(c: char): (v: nat)
    requires IsDigit(c)
    ensures v < 64 && Digit(v) == c
  {
    if 'A' <= c <= 'Z' then c as int - 'A' as int
    else if 'a' <= c <= 'z' then c as int - 'a' as int + 26
    else if '0' <= c <= '9' then c as int - '0' as int + 52
    else if c == '-' then 62
    else 63
  }

  /** The number of characters the unpadded encoding of `n` bytes takes. */
  function EncodedLength(n: nat): nat {
    4 * (n / 3) + (if n % 3 == 0 then 0 else n % 3 + 1)
  }

  /** The four digits of three bytes: their 24 bits, six at a time. */
  function EncodeGroup(b0: byte, b1: byte, b2: byte): string {
    [Digit(b0 / 4), Digit((b0 % 4) * 16 + b1 / 16), Digit((b1 % 16) * 4 + b2 / 64), Digit(b2 % 64)]
  }

  /** The unpadded URL-safe encoding: every three bytes become four digits, a final two
      bytes three digits, a final byte two digits. */
  function Encode(b: seq<byte>): (s: string)
    decreases |b|
  {
    if |b| == 0 then ""
    else if |b| == 1 then EncodeGroup(b[0], 0, 0)[..2]
    else if |b| == 2 then EncodeGroup(b[0], b[1], 0)[..3]
    else EncodeGroup(b[0], b[1], b[2]) + Encode(b[3..])
  }

  /** The encoding has the length RFC 4648 gives for unpadded output, and uses only the
      URL and filename safe alphabet. */
  lemma {:induction false} EncodeShape(b: seq<byte>)
    ensures |Encode(b)| == EncodedLength(|b|)
    ensures forall i :: 0 <= i < |Encode(b)| ==> IsDigit(Encode(b)[i])
    decreases |b|
  {
    if |b| >= 3 {
      EncodeShape(b[3..]);
      assert |b[3..]| / 3 == |b| / 3 - 1 && |b[3..]| % 3 == |b| % 3;
    }
  }

  /** A string decodable as unpadded base64: only alphabet digits, and no lone digit at
      the end. */
  predicate Decodable(s: string) {
    |s| % 4 != 1 && forall i :: 0 <= i < |s| ==> IsDigit(s[i])
  }

  /** The three bytes whose 24 bits four digits carry. */
  function DecodeGroup(c0: char, c1: char, c2: char, c3: char): seq<byte>
    requires IsDigit(c0) && IsDigit(c1) && IsDigit(c2) && IsDigit(c3)
  {
    [Value(c0) * 4 + Value(c1) / 16, (Value(c1) % 16) * 16 + Value(c2) / 4,
     (Value(c2) % 4) * 64 + Value(c3)]
  }

  /** The reference decoder: the inverse of `Encode`. A final group of two or three
      digits stands for one or two bytes. */
  function Decode(s: string): (b: seq<byte>)
    requires Decodable(s)
    decreases |s|
  {
    if |s| == 0 then []
    else if |s| == 2 then DecodeGroup(s[0], s[1], 'A', 'A')[..1]
    else if |s| == 3 then DecodeGroup(s[0], s[1], s[2], 'A')[..2]
    else DecodeGroup(s[0], s[1], s[2], s[3]) + Decode(s[4..])
  }

  /** Reading a digit back gives the six-bit value it was made from. */
  lemma ValueOfDigit(v: nat)
    requires v < 64
    ensures Value(Digit(v)) == v
  {
  }

  /** Six bits made of two low bits of one byte and four high bits of the next split
      back into those two parts. */
  lemma SplitSixBits(lo: nat, hi: nat, k: nat)
    requires k == 4 || k == 16
    requires lo < 64 / k && hi < k
    ensures (lo * k + hi) / k == lo && (lo * k + hi) % k == hi
  {
  }

  /** Decoding the digits of three bytes gives them back. */
  lemma GroupRoundTrip(b0: byte, b1: byte, b2: byte)
    ensures var g := EncodeGroup(b0, b1, b2);
      |g| == 4 && Decodable(g) && DecodeGroup(g[0], g[1], g[2], g[3]) == [b0, b1, b2]
  {
    var v0, v1, v2, v3 := b0 / 4, (b0 % 4) * 16 + b1 / 16, (b1 % 16) * 4 + b2 / 64, b2 % 64;
    SplitSixBits(b0 % 4, b1 / 16, 16);
    SplitSixBits(b1 % 16, b2 / 64, 4);
    ValueOfDigit(v0);
    ValueOfDigit(v1);
    ValueOfDigit(v2);
    ValueOfDigit(v3);
    var g := EncodeGroup(b0, b1, b2);
    assert g == [Digit(v0), Digit(v1), Digit(v2), Digit(v3)];
    assert v0 * 4 + v1 / 16 == b0;
    assert (v1 % 16) * 16 + v2 / 4 == b1;
    assert (v2 % 4) * 64 + v3 == b2;
  }

  /** Decoding the two digits of a final byte gives it back. */
  lemma DecodeEncodeOne(b: seq<byte>)
    requires |b| == 1
    ensures Decodable(Encode(b)) && Decode(Encode(b)) == b
  {
    var g := EncodeGroup(b[0], 0, 0);
    GroupRoundTrip(b[0], 0, 0);
    assert Encode(b) == [g[0], g[1]];
    ShortGroup(g, b[0], 0, 0);
    assert b == [b[0]];
  }

  /** Decoding the three digits of a final two bytes gives them back. */
  lemma DecodeEncodeTwo(b: seq<byte>)
    requires |b| == 2
    ensures Decodable(Encode(b)) && Decode(Encode(b)) == b
  {
    var g := EncodeGroup(b[0], b[1], 0);
    GroupRoundTrip(b[0], b[1], 0);
    assert Encode(b) == [g[0], g[1], g[2]];
    ShortGroup(g, b[0], b[1], 0);
    assert b == [b[0], b[1]];
  }

  /** The digits a short final group leaves out do not reach the bytes it stands for:
      the first byte needs two digits, the second three. */
  lemma ShortGroup(g: string, x: byte, y: byte, z: byte)
    requires |g| == 4 && Decodable(g) && DecodeGroup(g[0], g[1], g[2], g[3]) == [x, y, z]
    ensures Decodable([g[0], g[1]]) && Decode([g[0], g[1]]) == [x]
    ensures Decodable([g[0], g[1], g[2]]) && Decode([g[0], g[1], g[2]]) == [x, y]
  {
    assert IsDigit(g[0]) && IsDigit(g[1]) && IsDigit(g[2]) && IsDigit(g[3]);
  }

  /** Decoding a string of at least four digits decodes its first group, then the rest. */
  lemma DecodeFirstGroup(g: string, rest: string)
    requires |g| == 4 && Decodable(g) && Decodable(rest)
    ensures Decodable(g + rest)
    ensures Decode(g + rest) == DecodeGroup(g[0], g[1], g[2], g[3]) + Decode(rest)
  {
    var s := g + rest;
    assert s[4..] == rest;
    assert forall i :: 0 <= i < |s| ==> IsDigit(s[i]) by {
      forall i | 0 <= i < |s| ensures IsDigit(s[i]) {
        if i < 4 { assert s[i] == g[i]; } else { assert s[i] == rest[i - 4]; }
      }
    }
  }

  /** Decoding an encoding gives back the bytes, so `Encode` is injective. */
  lemma {:induction false} DecodeEncode(b: seq<byte>)
    ensures Decodable(Encode(b))
    ensures Decode(Encode(b)) == b
    decreases |b|
  {
    if |b| == 1 {
      DecodeEncodeOne(b);
    } else if |b| == 2 {
      DecodeEncodeTwo(b);
    } else if |b| >= 3 {
      DecodeEncode(b[3..]);
      DecodeEncodeStep(b);
    }
  }

  /** One step of `DecodeEncode`: a leading group of three bytes survives the round trip
      when the rest does. */
  lemma DecodeEncodeStep(b: seq<byte>)
    requires |b| >= 3
    requires Decodable(Encode(b[3..])) && Decode(Encode(b[3..])) == b[3..]
    ensures Decodable(Encode(b)) && Decode(Encode(b)) == b
  {
    HeadAndRest(b);
    var g, rest := EncodeGroup(b[0], b[1], b[2]), Encode(b[3..]);
    assert Encode(b) == g + rest;
    GroupRoundTrip(b[0], b[1], b[2]);
    DecodeFirstGroup(g, rest);
  }

  /** A byte string of three or more bytes is its first three, then the rest. */
  lemma HeadAndRest(b: seq<byte>)
    requires |b| >= 3
    ensures b == [b[0], b[1], b[2]] + b[3..]
  {
  }

  /** Two byte strings with the same encoding are equal. */
  lemma EncodeInjective(a: seq<byte>, b: seq<byte>)
    requires Encode(a) == Encode(b)
    ensures a == b
  {
    DecodeEncode(a);
    DecodeEncode(b);
  }
}
