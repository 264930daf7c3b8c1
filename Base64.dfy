/**
 * Base64 with the standard alphabet and `=` padding (sections 3.2 and 4 of RFC 4648),
 * as `System.Convert.ToBase64String` writes it and `System.Convert.FromBase64String`
 * reads it.
 */
module Base64 {
  import opened Wrappers
  import Utf8

  type Byte = Utf8.Byte

  const Pad: char := '='

  /** The characters of the alphabet of section 4 of RFC 4648. */
  predicate IsAlphabetChar(c: char) {
    ('A' <= c <= 'Z') || ('a' <= c <= 'z') || ('0' <= c <= '9') || c == '+' || c == '/'
  }

  /** The character encoding the six-bit value `v`. */
  function SextetChar(v: int): (c: char)
    requires 0 <= v < 64
    ensures IsAlphabetChar(c)
  {
    if v < 26 then ('A' as int + v) as char
    else if v < 52 then ('a' as int + (v - 26)) as char
    else if v < 62 then ('0' as int + (v - 52)) as char
    else if v == 62 then '+'
    else '/'
  }

  /** The six-bit value an alphabet character encodes. */
  function CharSextet(c: char): (v: int)
    requires IsAlphabetChar(c)
    ensures 0 <= v < 64 && SextetChar(v) == c
  {
    if 'A' <= c <= 'Z' then c as int - 'A' as int
    else if 'a' <= c <= 'z' then c as int - 'a' as int + 26
    else if '0' <= c <= '9' then c as int - '0' as int + 52
    else if c == '+' then 62
    else 63
  }

  lemma CharSextetOfSextetChar(v: int)
    requires 0 <= v < 64
    ensures CharSextet(SextetChar(v)) == v
  {
  }

  /** The four characters of a full three-byte group. */
  function EncodeGroup(b0: Byte, b1: Byte, b2: Byte): string {
    [ SextetChar(b0 / 4), SextetChar((b0 % 4) * 16 + b1 / 16),
      SextetChar((b1 % 16) * 4 + b2 / 64), SextetChar(b2 % 64) ]
  }

  /** The four characters of a final group of one or two bytes, padded with `=`. */
  function EncodeTail(bs: seq<Byte>): string
    requires 1 <= |bs| <= 2
  {
    if |bs| == 1 then [SextetChar(bs[0] / 4), SextetChar((bs[0] % 4) * 16), Pad, Pad]
    else [SextetChar(bs[0] / 4), SextetChar((bs[0] % 4) * 16 + bs[1] / 16), SextetChar((bs[1] % 16) * 4), Pad]
  }

  /** `Convert.ToBase64String` (no line breaks). */
  function Encode(bs: seq<Byte>): (r: string)
    ensures |r| == 4 * ((|bs| + 2) / 3)
    decreases |bs|
  {
    if |bs| == 0 then ""
    else if |bs| < 3 then EncodeTail(bs)
    else EncodeGroup(bs[0], bs[1], bs[2]) + Encode(bs[3..])
  }

  /** The number of `=` that end the encoding of `n` bytes. */
  function PadCount(n: nat): nat {
    (3 - n % 3) % 3
  }

  /**
   * Every character of an encoding is from the alphabet, except that the last
   * `PadCount` characters, and only they, are `=`.
   */
  lemma {:induction false} EncodeShape(bs: seq<Byte>)
    ensures forall k :: 0 <= k < |Encode(bs)| ==>
      (Encode(bs)[k] == Pad <==> k >= |Encode(bs)| - PadCount(|bs|)) &&
      (Encode(bs)[k] == Pad || IsAlphabetChar(Encode(bs)[k]))
    decreases |bs|
  {
    if |bs| >= 3 {
      var g := EncodeGroup(bs[0], bs[1], bs[2]);
      EncodeShape(bs[3..]);
      assert PadCount(|bs[3..]|) == PadCount(|bs|);
      assert Encode(bs) == g + Encode(bs[3..]);
      forall k | 0 <= k < |Encode(bs)|
        ensures (Encode(bs)[k] == Pad <==> k >= |Encode(bs)| - PadCount(|bs|))
        ensures Encode(bs)[k] == Pad || IsAlphabetChar(Encode(bs)[k])
      {
        if k >= 4 {
          assert Encode(bs)[k] == Encode(bs[3..])[k - 4];
        }
      }
    }
  }

  predicate IsWhitespace(c: char) {
    c == ' ' || c == '\t' || c == '\r' || c == '\n'
  }

  /** The input with the whitespace `FromBase64String` skips removed. */
  function StripWhitespace(s: string): (r: string)
    ensures |r| <= |s|
    ensures forall k :: 0 <= k < |r| ==> !IsWhitespace(r[k])
  {
    if s == [] then []
    else if IsWhitespace(s[0]) then StripWhitespace(s[1..])
    else [s[0]] + StripWhitespace(s[1..])
  }

  lemma {:induction false} StripWhitespaceNone(s: string)
    requires forall k :: 0 <= k < |s| ==> !IsWhitespace(s[k])
    ensures StripWhitespace(s) == s
  {
    if s != [] {
      StripWhitespaceNone(s[1..]);
    }
  }

  predicate AllAlphabet(s: string) {
    forall k :: 0 <= k < |s| ==> IsAlphabetChar(s[k])
  }

  /** The three bytes of a full group of four alphabet characters. */
  function DecodeFull(q: string): (r: seq<Byte>)
    requires |q| == 4 && AllAlphabet(q)
    ensures |r| == 3
  {
    var v0, v1, v2, v3 := CharSextet(q[0]), CharSextet(q[1]), CharSextet(q[2]), CharSextet(q[3]);
    [v0 * 4 + v1 / 16, (v1 % 16) * 16 + v2 / 4, (v2 % 4) * 64 + v3]
  }

  /**
   * The bytes of the last group: four alphabet characters, three and one `=`, or two
   * and two `=`. The bits a padded group does not use are ignored, as .NET does.
   */
  function DecodeFinal(q: string): Result<seq<Byte>>
    requires |q| == 4
  {
    if AllAlphabet(q) then Ok(DecodeFull(q))
    else if AllAlphabet(q[..3]) && q[3] == Pad then
      var v0, v1, v2 := CharSextet(q[0]), CharSextet(q[1]), CharSextet(q[2]);
      Ok([v0 * 4 + v1 / 16, (v1 % 16) * 16 + v2 / 4])
    else if AllAlphabet(q[..2]) && q[2] == Pad && q[3] == Pad then
      var v0, v1 := CharSextet(q[0]), CharSextet(q[1]);
      Ok([v0 * 4 + v1 / 16])
    else Err(FormatError)
  }

  /** Decodes whitespace-free text whose length is a multiple of four. */
  function DecodeGroups(t: string): Result<seq<Byte>>
    requires |t| % 4 == 0
    decreases |t|
  {
    if |t| == 0 then Ok([])
    else if |t| == 4 then DecodeFinal(t)
    else if AllAlphabet(t[..4]) then
      var rest :- DecodeGroups(t[4..]);
      Ok(DecodeFull(t[..4]) + rest)
    else Err(FormatError)
  }

  /** `Convert.FromBase64String`: a `FormatException` unless the text is valid Base64. */
  function Decode(s: string): Result<seq<Byte>> {
    var t := StripWhitespace(s);
    if |t| % 4 != 0 then Err(FormatError) else DecodeGroups(t)
  }

  lemma DecodeFullGroup(b0: Byte, b1: Byte, b2: Byte)
    ensures AllAlphabet(EncodeGroup(b0, b1, b2))
    ensures DecodeFull(EncodeGroup(b0, b1, b2)) == [b0, b1, b2]
  {
    var q := EncodeGroup(b0, b1, b2);
    var s0, s1, s2, s3 := b0 / 4, (b0 % 4) * 16 + b1 / 16, (b1 % 16) * 4 + b2 / 64, b2 % 64;
    CharSextetOfSextetChar(s0);
    CharSextetOfSextetChar(s1);
    CharSextetOfSextetChar(s2);
    CharSextetOfSextetChar(s3);
    assert s1 / 16 == b0 % 4 && s1 % 16 == b1 / 16;
    assert s2 / 4 == b1 % 16 && s2 % 4 == b2 / 64;
  }

  lemma DecodeFinalTail(bs: seq<Byte>)
    requires 1 <= |bs| <= 2
    ensures DecodeFinal(EncodeTail(bs)) == Ok(bs)
  {
    var q := EncodeTail(bs);
    var s0 := bs[0] / 4;
    CharSextetOfSextetChar(s0);
    if |bs| == 1 {
      var s1 := (bs[0] % 4) * 16;
      CharSextetOfSextetChar(s1);
      assert q[2] == Pad && !AllAlphabet(q);
      assert !AllAlphabet(q[..3]) by { assert q[..3][2] == Pad; }
      assert s1 / 16 == bs[0] % 4;
      assert AllAlphabet(q[..2]);
      assert CharSextet(q[0]) == s0 && CharSextet(q[1]) == s1;
      assert s0 * 4 + s1 / 16 == bs[0];
      assert [bs[0]] == bs;
    } else {
      var s1, s2 := (bs[0] % 4) * 16 + bs[1] / 16, (bs[1] % 16) * 4;
      CharSextetOfSextetChar(s1);
      CharSextetOfSextetChar(s2);
      assert !AllAlphabet(q) by { assert !IsAlphabetChar(q[3]); }
      assert s1 / 16 == bs[0] % 4 && s1 % 16 == bs[1] / 16;
      assert s2 / 4 == bs[1] % 16;
      assert AllAlphabet(q[..3]);
      assert CharSextet(q[0]) == s0 && CharSextet(q[1]) == s1 && CharSextet(q[2]) == s2;
      assert s0 * 4 + s1 / 16 == bs[0];
      assert (s1 % 16) * 16 + s2 / 4 == bs[1];
      assert [bs[0], bs[1]] == bs;
    }
  }

  lemma DecodeGroupsCons(g: string, rest: string, tail: seq<Byte>)
    requires |g| == 4 && AllAlphabet(g) && |rest| % 4 == 0 && |rest| > 0
    requires DecodeGroups(rest) == Ok(tail)
    ensures DecodeGroups(g + rest) == Ok(DecodeFull(g) + tail)
  {
    var t := g + rest;
    assert t[..4] == g && t[4..] == rest;
  }

  lemma EncodeLengthMultipleOfFour(bs: seq<Byte>)
    ensures |Encode(bs)| % 4 == 0
  {
    var q := (|bs| + 2) / 3;
    assert |Encode(bs)| == 4 * q;
  }

  lemma DecodeGroupsSingle(bs: seq<Byte>)
    requires 1 <= |bs| <= 3
    ensures |Encode(bs)| == 4
    ensures DecodeGroups(Encode(bs)) == Ok(bs)
  {
    if |bs| < 3 {
      DecodeFinalTail(bs);
    } else {
      DecodeFullGroup(bs[0], bs[1], bs[2]);
      assert Encode(bs[3..]) == "";
      assert Encode(bs) == EncodeGroup(bs[0], bs[1], bs[2]);
      assert [bs[0], bs[1], bs[2]] == bs;
    }
  }

  lemma {:induction false} DecodeGroupsEncode(bs: seq<Byte>)
    ensures |Encode(bs)| % 4 == 0
    ensures DecodeGroups(Encode(bs)) == Ok(bs)
    decreases |bs|
  {
    EncodeLengthMultipleOfFour(bs);
    if |bs| == 0 {
    } else if |bs| <= 3 {
      DecodeGroupsSingle(bs);
    } else {
      DecodeGroupsEncode(bs[3..]);
      DecodeGroupsStep(bs);
    }
  }

  lemma DecodeGroupsStep(bs: seq<Byte>)
    requires |bs| > 3
    requires |Encode(bs[3..])| % 4 == 0 && DecodeGroups(Encode(bs[3..])) == Ok(bs[3..])
    ensures |Encode(bs)| % 4 == 0 && DecodeGroups(Encode(bs)) == Ok(bs)
  {
    var g := EncodeGroup(bs[0], bs[1], bs[2]);
    var rest := Encode(bs[3..]);
    assert Encode(bs) == g + rest;
    assert AllAlphabet(g) && DecodeFull(g) == [bs[0], bs[1], bs[2]] by {
      DecodeFullGroup(bs[0], bs[1], bs[2]);
    }
    assert |rest| > 0 by {
      assert |bs[3..]| > 0;
    }
    DecodeGroupsCons(g, rest, bs[3..]);
    FirstThree(bs);
    assert |Encode(bs)| % 4 == 0 by {
      EncodeLengthMultipleOfFour(bs);
    }
  }

  lemma FirstThree(bs: seq<Byte>)
    requires |bs| >= 3
    ensures [bs[0], bs[1], bs[2]] + bs[3..] == bs
  {
  }

  /** `FromBase64String` inverts `ToBase64String`. */
  lemma DecodeEncode(bs: seq<Byte>)
    ensures Decode(Encode(bs)) == Ok(bs)
  {
    EncodeShape(bs);
    var t := Encode(bs);
    forall k | 0 <= k < |t| ensures !IsWhitespace(t[k]) {
    }
    StripWhitespaceNone(t);
    DecodeGroupsEncode(bs);
  }

  /** A character that is not whitespace survives `StripWhitespace`. */
  lemma {:induction false} StripWhitespaceKeeps(s: string, k: nat)
    requires k < |s| && !IsWhitespace(s[k])
    ensures exists j :: 0 <= j < |StripWhitespace(s)| && StripWhitespace(s)[j] == s[k]
  {
    if k == 0 {
      assert StripWhitespace(s)[0] == s[0];
    } else {
      StripWhitespaceKeeps(s[1..], k - 1);
      var j :| 0 <= j < |StripWhitespace(s[1..])| && StripWhitespace(s[1..])[j] == s[1..][k - 1];
      if IsWhitespace(s[0]) {
        assert StripWhitespace(s)[j] == s[k];
      } else {
        assert StripWhitespace(s)[j + 1] == s[k];
      }
    }
  }

  lemma {:induction false} DecodeGroupsRejects(t: string, j: nat)
    requires |t| % 4 == 0 && j < |t|
    requires !IsAlphabetChar(t[j]) && t[j] != Pad
    ensures DecodeGroups(t).Err?
    decreases |t|
  {
    if |t| == 4 {
      assert !AllAlphabet(t);
      if j < 3 {
        assert !AllAlphabet(t[..3]) by { assert t[..3][j] == t[j]; }
      }
      if j < 2 {
        assert !AllAlphabet(t[..2]) by { assert t[..2][j] == t[j]; }
      }
    } else if j < 4 {
      assert !AllAlphabet(t[..4]) by { assert t[..4][j] == t[j]; }
    } else {
      assert t[4..][j - 4] == t[j];
      DecodeGroupsRejects(t[4..], j - 4);
    }
  }

  /** Text holding a character that is neither Base64, `=` nor whitespace is rejected. */
  lemma DecodeRejectsForeignChar(s: string, k: nat)
    requires k < |s|
    requires !IsAlphabetChar(s[k]) && s[k] != Pad && !IsWhitespace(s[k])
    ensures Decode(s).Err?
  {
    StripWhitespaceKeeps(s, k);
    var t := StripWhitespace(s);
    var j :| 0 <= j < |t| && t[j] == s[k];
    if |t| % 4 == 0 {
      DecodeGroupsRejects(t, j);
    }
  }
}
