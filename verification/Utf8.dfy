/**
 * UTF-8 as Go decodes it, and what becomes of a string that is written to a JSON document and read back
 * (encoding/json): a byte that does not belong to a valid sequence turns into the replacement character.
 */
module Utf8 {
  import opened Text

  /** The encoding of U+FFFD. */
  const REPLACEMENT: Bytes := [0xEF, 0xBF, 0xBD]

  predicate Continues(s: Bytes, i: nat) {
    i < |s| && 0x80 <= s[i] <= 0xBF
  }

  /** The bytes that may follow a first byte; overlong forms, surrogates and values past U+10FFFF are excluded. */
  predicate SecondFits(first: byte, s: Bytes)
    requires |s| >= 1
  {
    && Continues(s, 1)
    && (first == 0xE0 ==> s[1] >= 0xA0) && (first == 0xED ==> s[1] <= 0x9F)
    && (first == 0xF0 ==> s[1] >= 0x90) && (first == 0xF4 ==> s[1] <= 0x8F)
  }

  /** The length of the character at the start of `s`, or 0 when there is no valid one. */
  function RuneWidth(s: Bytes): (w: nat)
    requires s != []
    ensures w <= |s|
  {
    var first := s[0];
    if first < 0x80 then 1
    else if 0xC2 <= first <= 0xDF then if SecondFits(first, s) then 2 else 0
    else if 0xE0 <= first <= 0xEF then if SecondFits(first, s) && Continues(s, 2) then 3 else 0
    else if 0xF0 <= first <= 0xF4 then
      if SecondFits(first, s) && Continues(s, 2) && Continues(s, 3) then 4 else 0
    else 0
  }

  /** A Unicode scalar value, and its encoding by section 3 of RFC 3629. */
  predicate Scalar(v: int) { 0 <= v <= 0xD7FF || 0xE000 <= v <= 0x10FFFF }

  function Encoded(v: int): Bytes
    requires Scalar(v)
  {
    if v < 0x80 then [v as byte]
    else if v < 0x800 then [(0xC0 + v / 64) as byte, Trail(v)]
    else if v < 0x10000 then [(0xE0 + v / 4096) as byte, Trail(v / 64), Trail(v)]
    else [(0xF0 + v / 262144) as byte, Trail(v / 4096), Trail(v / 64), Trail(v)]
  }

  function Trail(v: int): byte { (0x80 + v % 64) as byte }

  /** The scalar value a lead byte and its trailing bytes stand for. */
  function Decoded(s: Bytes, w: nat): int
    requires 1 <= w <= 4 && w <= |s|
  {
    if w == 1 then s[0] as int
    else if w == 2 then (s[0] as int - 0xC0) * 64 + (s[1] as int - 0x80)
    else if w == 3 then (s[0] as int - 0xE0) * 4096 + (s[1] as int - 0x80) * 64 + (s[2] as int - 0x80)
    else (s[0] as int - 0xF0) * 262144 + (s[1] as int - 0x80) * 4096 + (s[2] as int - 0x80) * 64 + (s[3] as int - 0x80)
  }

  lemma DecodedIsScalar(s: Bytes)
    requires s != [] && RuneWidth(s) > 0
    ensures RuneWidth(s) <= 4 && Scalar(Decoded(s, RuneWidth(s)))
    ensures Encoded(Decoded(s, RuneWidth(s))) == s[..RuneWidth(s)]
  {
    var w := RuneWidth(s);
    if w == 2 {
      TrailOf(s[0] as int - 0xC0, s[1] as int - 0x80);
    } else if w == 3 {
      DecodedThree(s[0], s[1], s[2], s);
    } else if w == 4 {
      DecodedFour(s[0], s[1], s[2], s[3], s);
    }
  }

  lemma DecodedThree(a: byte, b: byte, c: byte, s: Bytes)
    requires |s| >= 3 && s[..3] == [a, b, c] && s[0] == a && s[1] == b && s[2] == c && RuneWidth(s) == 3
    ensures Scalar(Decoded(s, 3)) && Encoded(Decoded(s, 3)) == [a, b, c]
  {
    var high := (a as int - 0xE0) * 64 + (b as int - 0x80);
    assert Decoded(s, 3) == high * 64 + (c as int - 0x80);
    TrailOf(high, c as int - 0x80);
    TrailOf(a as int - 0xE0, b as int - 0x80);
    assert Decoded(s, 3) / 4096 == high / 64;
  }

  lemma DecodedFour(a: byte, b: byte, c: byte, d: byte, s: Bytes)
    requires |s| >= 4 && s[..4] == [a, b, c, d] && s[0] == a && s[1] == b && s[2] == c && s[3] == d
    requires RuneWidth(s) == 4
    ensures Scalar(Decoded(s, 4)) && Encoded(Decoded(s, 4)) == [a, b, c, d]
  {
    var top := (a as int - 0xF0) * 64 + (b as int - 0x80);
    var high := top * 64 + (c as int - 0x80);
    assert Decoded(s, 4) == high * 64 + (d as int - 0x80);
    TrailOf(high, d as int - 0x80);
    TrailOf(top, c as int - 0x80);
    TrailOf(a as int - 0xF0, b as int - 0x80);
    assert Decoded(s, 4) / 4096 == high / 64 == top && Decoded(s, 4) / 262144 == top / 64;
  }

  lemma TrailOf(high: int, low: int)
    requires 0 <= low < 64
    ensures (high * 64 + low) / 64 == high && (high * 64 + low) % 64 == low
  {
  }

  lemma EncodedIsRune(v: int, rest: Bytes)
    requires Scalar(v)
    ensures RuneWidth(Encoded(v) + rest) == |Encoded(v)|
  {
    assert v % 64 < 64 && v / 64 % 64 < 64;
  }

  /** A string starts with a character exactly when it starts with the encoding of a scalar value, of that length. */
  lemma RuneWidthExactly(s: Bytes, w: nat)
    requires s != [] && w > 0
    ensures RuneWidth(s) == w <==> exists v :: Scalar(v) && Encoded(v) <= s && |Encoded(v)| == w
  {
    if RuneWidth(s) == w {
      DecodedIsScalar(s);
      assert Encoded(Decoded(s, w)) <= s;
    }
    if exists v :: Scalar(v) && Encoded(v) <= s && |Encoded(v)| == w {
      var v :| Scalar(v) && Encoded(v) <= s && |Encoded(v)| == w;
      EncodedIsRune(v, s[w..]);
      assert s == Encoded(v) + s[w..];
    }
  }

  /** White space, as far as trimming goes: the characters unicode.IsSpace knows. */
  lemma SpacesAreUnicode(v: int, rest: Bytes)
    requires Scalar(v)
    ensures SpaceWidthAt(Encoded(v) + rest, 0) ==
      if v in {0x09, 0x0A, 0x0B, 0x0C, 0x0D, 0x20, 0x85, 0xA0, 0x1680, 0x2028, 0x2029, 0x202F, 0x205F, 0x3000}
         || 0x2000 <= v <= 0x200A
      then |Encoded(v)| else 0
  {
  }

  predicate Valid(s: Bytes)
    decreases |s|
  {
    s == [] || (RuneWidth(s) > 0 && Valid(s[RuneWidth(s)..]))
  }

  /** `s` after json.Marshal and json.Unmarshal. */
  function ReadBack(s: Bytes): Bytes
    decreases |s|
  {
    if s == [] then []
    else
      var w := RuneWidth(s);
      if w == 0 then REPLACEMENT + ReadBack(s[1..]) else s[..w] + ReadBack(s[w..])
  }

  lemma {:induction false} ReadBackOfValid(s: Bytes)
    requires Valid(s)
    ensures ReadBack(s) == s
    decreases |s|
  {
    if s != [] {
      ReadBackOfValid(s[RuneWidth(s)..]);
    }
  }

  /** Every byte that is replaced makes the text longer. */
  lemma {:induction false} ReadBackGrows(s: Bytes)
    ensures |ReadBack(s)| >= |s|
    ensures !Valid(s) ==> |ReadBack(s)| > |s|
    decreases |s|
  {
    if s != [] {
      var w := RuneWidth(s);
      ReadBackGrows(s[if w == 0 then 1 else w..]);
    }
  }

  /** Text survives being stored as JSON exactly when it is valid UTF-8. */
  lemma ReadBackIsIdentity(s: Bytes)
    ensures ReadBack(s) == s <==> Valid(s)
  {
    ReadBackGrows(s);
    if Valid(s) {
      ReadBackOfValid(s);
    }
  }

  lemma RuneWidthOfPrefix(rune: Bytes, rest: Bytes)
    requires rune != [] && RuneWidth(rune) == |rune|
    ensures RuneWidth(rune + rest) == |rune|
  {
  }

  /** A character is a character wherever it stands. */
  lemma RuneStandsAlone(s: Bytes)
    requires s != [] && RuneWidth(s) > 0
    ensures RuneWidth(s[..RuneWidth(s)]) == RuneWidth(s)
  {
  }

  lemma ValidAfterRune(rune: Bytes, rest: Bytes)
    requires rune != [] && RuneWidth(rune) == |rune| && Valid(rest)
    ensures Valid(rune + rest)
  {
    RuneWidthOfPrefix(rune, rest);
    assert (rune + rest)[|rune|..] == rest;
  }

  /** What is read back is valid, so storing it again changes nothing. */
  lemma {:induction false} ReadBackIsValid(s: Bytes)
    ensures Valid(ReadBack(s))
    decreases |s|
  {
    if s != [] {
      var w := RuneWidth(s);
      if w == 0 {
        ReadBackIsValid(s[1..]);
        ValidAfterRune(REPLACEMENT, ReadBack(s[1..]));
      } else {
        ReadBackIsValid(s[w..]);
        RuneStandsAlone(s);
        ValidAfterRune(s[..w], ReadBack(s[w..]));
      }
    }
  }
}
