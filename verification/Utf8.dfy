/**
 UTF-8 as VerifyUtf8String checks it (RFC 3629), byte by byte, and its meaning: the valid strings are exactly the
 encodings of sequences of code points.
 */
module Utf8 {
  import opened Wire

  // ---------- The check ----------

  predicate IsContinuation(b: Byte) { 0x80 <= b < 0xC0 }

  /**
   How many bytes the first character of s takes, or 0 if s does not start with a character (section 4 of RFC 3629).
   */
  function CharLength(s: Bytes): (n: nat)
    ensures n <= |s|
  {
    if |s| >= 1 && s[0] < 0x80 then 1
    else if |s| >= 2 && 0xC2 <= s[0] < 0xE0 && IsContinuation(s[1]) then 2
    else if |s| >= 3 && 0xE0 <= s[0] < 0xF0 && IsContinuation(s[1]) && IsContinuation(s[2])
            && (s[0] == 0xE0 ==> s[1] >= 0xA0) && (s[0] == 0xED ==> s[1] < 0xA0) then 3
    else if |s| >= 4 && 0xF0 <= s[0] < 0xF5 && IsContinuation(s[1]) && IsContinuation(s[2]) && IsContinuation(s[3])
            && (s[0] == 0xF0 ==> s[1] >= 0x90) && (s[0] == 0xF4 ==> s[1] < 0x90) then 4
    else 0
  }

  predicate ValidUtf8(s: Bytes)
    decreases |s|
  {
    s == [] || (CharLength(s) > 0 && ValidUtf8(s[CharLength(s)..]))
  }

  // ---------- The encoding ----------

  /** A code point that is no surrogate. */
  type Scalar = c: int | 0 <= c < 0x11_0000 && !(0xD800 <= c < 0xE000)

  /** The bytes of one code point, by arithmetic on it (section 3 of RFC 3629). */
  function Encoded(c: Scalar): Bytes {
    if c < 0x80 then [c]
    else if c < 0x800 then [0xC0 + c / 64, 0x80 + c % 64]
    else if c < 0x1_0000 then [0xE0 + c / 4096, 0x80 + c / 64 % 64, 0x80 + c % 64]
    else [0xF0 + c / 262144, 0x80 + c / 4096 % 64, 0x80 + c / 64 % 64, 0x80 + c % 64]
  }

  function EncodedAll(cs: seq<Scalar>): Bytes {
    if cs == [] then [] else Encoded(cs[0]) + EncodedAll(cs[1..])
  }

  /** A code point of four bytes, from its parts. */
  lemma Parts(c: int)
    requires 0 <= c
    ensures c == c / 64 * 64 + c % 64
    ensures c / 64 == c / 4096 * 64 + c / 64 % 64
    ensures c / 4096 == c / 262144 * 64 + c / 4096 % 64
  {
    assert c / 64 / 64 == c / 4096;
    assert c / 4096 / 64 == c / 262144;
  }

  /** Every encoded code point passes the check, whatever follows. */
  lemma EncodedPasses(c: Scalar, tail: Bytes)
    ensures CharLength(Encoded(c) + tail) == |Encoded(c)|
  {
    Parts(c);
  }

  lemma TwoBytes(a: Byte, b: Byte) returns (c: Scalar)
    requires 0xC2 <= a < 0xE0 && IsContinuation(b)
    ensures Encoded(c) == [a, b]
  {
    var k, x := a - 0xC0, b - 0x80;
    assert (k * 64 + x) / 64 == k && (k * 64 + x) % 64 == x;
    c := k * 64 + x;
  }

  lemma ThreeBytes(a: Byte, b: Byte, d: Byte) returns (c: Scalar)
    requires 0xE0 <= a < 0xF0 && IsContinuation(b) && IsContinuation(d)
    requires (a == 0xE0 ==> b >= 0xA0) && (a == 0xED ==> b < 0xA0)
    ensures Encoded(c) == [a, b, d]
  {
    var k, x, y := a - 0xE0, b - 0x80, d - 0x80;
    var n := (k * 64 + x) * 64 + y;
    assert n / 64 == k * 64 + x && n % 64 == y;
    assert n / 64 % 64 == x && n / 64 / 64 == k;
    Parts(n);
    c := n;
  }

  lemma FourBytes(a: Byte, b: Byte, d: Byte, e: Byte) returns (c: Scalar)
    requires 0xF0 <= a < 0xF5 && IsContinuation(b) && IsContinuation(d) && IsContinuation(e)
    requires (a == 0xF0 ==> b >= 0x90) && (a == 0xF4 ==> b < 0x90)
    ensures Encoded(c) == [a, b, d, e]
  {
    var k, x, y, z := a - 0xF0, b - 0x80, d - 0x80, e - 0x80;
    var n := ((k * 64 + x) * 64 + y) * 64 + z;
    assert n / 64 == (k * 64 + x) * 64 + y && n % 64 == z;
    assert n / 64 / 64 == k * 64 + x && n / 64 % 64 == y;
    assert n / 64 / 64 / 64 == k && n / 64 / 64 % 64 == x;
    Parts(n);
    c := n;
  }

  /** What passes the check is an encoded code point. */
  lemma PassesIsEncoded(s: Bytes) returns (c: Scalar)
    requires CharLength(s) > 0
    ensures Encoded(c) == s[..CharLength(s)]
  {
    if CharLength(s) == 1 {
      c := s[0];
    } else if CharLength(s) == 2 {
      c := TwoBytes(s[0], s[1]);
    } else if CharLength(s) == 3 {
      c := ThreeBytes(s[0], s[1], s[2]);
    } else {
      c := FourBytes(s[0], s[1], s[2], s[3]);
    }
  }

  lemma {:induction false} EncodedIsValid(cs: seq<Scalar>)
    ensures ValidUtf8(EncodedAll(cs))
    decreases |cs|
  {
    if cs == [] {
    } else {
      var tail := EncodedAll(cs[1..]);
      EncodedPasses(cs[0], tail);
      EncodedIsValid(cs[1..]);
      assert (Encoded(cs[0]) + tail)[|Encoded(cs[0])|..] == tail;
    }
  }

  lemma {:induction false} ValidIsEncoded(s: Bytes) returns (cs: seq<Scalar>)
    requires ValidUtf8(s)
    ensures EncodedAll(cs) == s
    decreases |s|
  {
    if s == [] {
      cs := [];
    } else {
      var n := CharLength(s);
      var c := PassesIsEncoded(s);
      var rest := ValidIsEncoded(s[n..]);
      cs := [c] + rest;
      assert cs[1..] == rest && s == s[..n] + s[n..];
    }
  }

  /** The valid strings are exactly the encodings of code points below 0x110000 without surrogates. */
  lemma ValidExactly(s: Bytes)
    ensures ValidUtf8(s) <==> exists cs: seq<Scalar> :: EncodedAll(cs) == s
  {
    if ValidUtf8(s) {
      var cs := ValidIsEncoded(s);
    }
    if cs: seq<Scalar> :| EncodedAll(cs) == s {
      EncodedIsValid(cs);
    }
  }

}
