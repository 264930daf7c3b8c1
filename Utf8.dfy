/**
 * UTF-8 as `System.Text.Encoding.UTF8` applies it (RFC 3629).
 *
 * A Dafny `char` is a Unicode scalar value, so every `string` here is a well-formed
 * string. Encoding is the standard one to four byte form. Decoding never fails: as in
 * .NET, each maximal subpart of an ill-formed sequence becomes one U+FFFD.
 */
module Utf8 {

  type Byte = x: int | 0 <= x < 0x100

  const Replacement: char := '�'

  predicate IsContinuation(b: Byte) {
    0x80 <= b < 0xC0
  }

  /** The bytes of one scalar value. */
  function EncodeChar(c: char): (r: seq<Byte>)
    ensures 1 <= |r| <= 4
    ensures (c as int < 0x80) <==> |r| == 1
    ensures forall k :: 1 <= k < |r| ==> IsContinuation(r[k])
  {
    var cp := c as int;
    if cp < 0x80 then [cp]
    else if cp < 0x800 then [0xC0 + cp / 0x40, 0x80 + cp % 0x40]
    else if cp < 0x1_0000 then [0xE0 + cp / 0x1000, 0x80 + (cp / 0x40) % 0x40, 0x80 + cp % 0x40]
    else [0xF0 + cp / 0x4_0000, 0x80 + (cp / 0x1000) % 0x40, 0x80 + (cp / 0x40) % 0x40, 0x80 + cp % 0x40]
  }

  /** `Encoding.UTF8.GetBytes`. */
  function Encode(s: string): seq<Byte> {
    if s == [] then [] else EncodeChar(s[0]) + Encode(s[1..])
  }

  /** The valid range of the second byte of a three-byte sequence led by `b0`. */
  predicate SecondOfThree(b0: Byte, b1: Byte)
    requires 0xE0 <= b0 <= 0xEF
  {
    if b0 == 0xE0 then 0xA0 <= b1 <= 0xBF
    else if b0 == 0xED then 0x80 <= b1 <= 0x9F
    else IsContinuation(b1)
  }

  /** The valid range of the second byte of a four-byte sequence led by `b0`. */
  predicate SecondOfFour(b0: Byte, b1: Byte)
    requires 0xF0 <= b0 <= 0xF4
  {
    if b0 == 0xF0 then 0x90 <= b1 <= 0xBF
    else if b0 == 0xF4 then 0x80 <= b1 <= 0x8F
    else IsContinuation(b1)
  }

  /**
   * Decodes the scalar value at the front of `bs`: the character and the number of
   * bytes it consumes. An ill-formed prefix yields U+FFFD and consumes its maximal
   * subpart (at least one byte).
   */
  function DecodeStep(bs: seq<Byte>): (r: (char, nat))
    requires |bs| > 0
    ensures 1 <= r.1 <= |bs| && r.1 <= 4
  {
    var b0: int := bs[0];
    if b0 < 0x80 then
      (b0 as char, 1)
    else if 0xC2 <= b0 <= 0xDF then
      if |bs| >= 2 && IsContinuation(bs[1]) then
        (((b0 - 0xC0) * 0x40 + (bs[1] as int - 0x80)) as char, 2)
      else (Replacement, 1)
    else if 0xE0 <= b0 <= 0xEF then
      if |bs| >= 2 && SecondOfThree(b0, bs[1]) then
        if |bs| >= 3 && IsContinuation(bs[2]) then
          (((b0 - 0xE0) * 0x1000 + (bs[1] as int - 0x80) * 0x40 + (bs[2] as int - 0x80)) as char, 3)
        else (Replacement, 2)
      else (Replacement, 1)
    else if 0xF0 <= b0 <= 0xF4 then
      if |bs| >= 2 && SecondOfFour(b0, bs[1]) then
        if |bs| >= 3 && IsContinuation(bs[2]) then
          if |bs| >= 4 && IsContinuation(bs[3]) then
            (((b0 - 0xF0) * 0x4_0000 + (bs[1] as int - 0x80) * 0x1000 + (bs[2] as int - 0x80) * 0x40 + (bs[3] as int - 0x80)) as char, 4)
          else (Replacement, 3)
        else (Replacement, 2)
      else (Replacement, 1)
    else
      (Replacement, 1)
  }

  /** `Encoding.UTF8.GetString`. */
  function Decode(bs: seq<Byte>): string
    decreases |bs|
  {
    if |bs| == 0 then []
    else
      var (c, n) := DecodeStep(bs);
      [c] + Decode(bs[n..])
  }

  lemma EncodeAppend(s: string, t: string)
    ensures Encode(s + t) == Encode(s) + Encode(t)
  {
    if s == [] {
      assert s + t == t;
    } else {
      assert (s + t)[1..] == s[1..] + t;
      EncodeAppend(s[1..], t);
    }
  }

  lemma SplitCodePoint(cp: nat)
    ensures cp == (cp / 0x40) * 0x40 + cp % 0x40
    ensures cp / 0x40 == (cp / 0x1000) * 0x40 + (cp / 0x40) % 0x40
    ensures cp / 0x1000 == (cp / 0x4_0000) * 0x40 + (cp / 0x1000) % 0x40
  {
  }

  lemma DecodeStepTwo(c: char, rest: seq<Byte>)
    requires 0x80 <= c as int < 0x800
    ensures DecodeStep(EncodeChar(c) + rest) == (c, 2)
  {
    var cp := c as int;
    var bs := EncodeChar(c) + rest;
    SplitCodePoint(cp);
    assert bs[0] == 0xC0 + cp / 0x40 && bs[1] == 0x80 + cp % 0x40;
    assert (bs[0] as int - 0xC0) * 0x40 + (bs[1] as int - 0x80) == cp;
  }

  lemma DecodeStepThree(c: char, rest: seq<Byte>)
    requires 0x800 <= c as int < 0x1_0000
    ensures DecodeStep(EncodeChar(c) + rest) == (c, 3)
  {
    var cp := c as int;
    var bs := EncodeChar(c) + rest;
    var hi, mid, lo := cp / 0x1000, (cp / 0x40) % 0x40, cp % 0x40;
    SplitCodePoint(cp);
    assert cp == hi * 0x1000 + mid * 0x40 + lo;
    assert bs[0] == 0xE0 + hi && bs[1] == 0x80 + mid && bs[2] == 0x80 + lo;
    assert SecondOfThree(bs[0], bs[1]);
  }

  lemma DecodeStepFour(c: char, rest: seq<Byte>)
    requires 0x1_0000 <= c as int
    ensures DecodeStep(EncodeChar(c) + rest) == (c, 4)
  {
    var cp := c as int;
    var bs := EncodeChar(c) + rest;
    var top, hi, mid, lo := cp / 0x4_0000, (cp / 0x1000) % 0x40, (cp / 0x40) % 0x40, cp % 0x40;
    SplitCodePoint(cp);
    assert cp == top * 0x4_0000 + hi * 0x1000 + mid * 0x40 + lo;
    assert bs[0] == 0xF0 + top && bs[1] == 0x80 + hi && bs[2] == 0x80 + mid && bs[3] == 0x80 + lo;
    assert SecondOfFour(bs[0], bs[1]);
  }

  /** The first scalar value of an encoding is decoded back, consuming exactly its bytes. */
  lemma DecodeStepEncodeChar(c: char, rest: seq<Byte>)
    ensures DecodeStep(EncodeChar(c) + rest) == (c, |EncodeChar(c)|)
  {
    var cp := c as int;
    if cp < 0x80 {
    } else if cp < 0x800 {
      DecodeStepTwo(c, rest);
    } else if cp < 0x1_0000 {
      DecodeStepThree(c, rest);
    } else {
      DecodeStepFour(c, rest);
    }
  }

  /** Decoding the UTF-8 bytes of a well-formed string gives the string back. */
  lemma {:induction false} DecodeEncode(s: string)
    ensures Decode(Encode(s)) == s
  {
    if s != [] {
      var e := EncodeChar(s[0]);
      var rest := Encode(s[1..]);
      DecodeStepEncodeChar(s[0], rest);
      assert (e + rest)[|e|..] == rest;
      DecodeEncode(s[1..]);
    }
  }
}
