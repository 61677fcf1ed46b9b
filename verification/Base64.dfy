/**
 * The four base64 variants of sections 4 and 5 of RFC 4648, as Go's encoding/base64 reads them: carriage
 * returns and line feeds are skipped, and the unused low bits of a final group are not checked.
 */
module Base64 {
  import opened Common
  import opened Text

  type Sextet = x: int | 0 <= x < 64

  /** `url` selects the alphabet of section 5; `padded` asks for trailing `=`. */
  datatype Encoding = Encoding(url: bool, padded: bool)

  const StdEncoding := Encoding(false, true)
  const RawStdEncoding := Encoding(false, false)
  const URLEncoding := Encoding(true, true)
  const RawURLEncoding := Encoding(true, false)

  const PAD: byte := 0x3D

  /** The 6-bit digits of three consecutive bytes. */
  function Digit0(a: byte): Sextet { a as int / 4 }
  function Digit1(a: byte, b: byte): Sextet { a as int % 4 * 16 + b as int / 16 }
  function Digit2(b: byte, c: byte): Sextet { b as int % 16 * 4 + c as int / 64 }
  function Digit3(c: byte): Sextet { c as int % 64 }

  function Symbol(url: bool, v: Sextet): byte {
    if v < 26 then 0x41 + v as byte
    else if v < 52 then 0x61 + (v - 26) as byte
    else if v < 62 then 0x30 + (v - 52) as byte
    else if v == 62 then (if url then 0x2D else 0x2B)
    else (if url then 0x5F else 0x2F)
  }

  function Value(url: bool, b: byte): Option<Sextet> {
    if 0x41 <= b <= 0x5A then Some((b - 0x41) as int)
    else if 0x61 <= b <= 0x7A then Some((b - 0x61) as int + 26)
    else if 0x30 <= b <= 0x39 then Some((b - 0x30) as int + 52)
    else if b == (if url then 0x2D else 0x2B) then Some(62)
    else if b == (if url then 0x5F else 0x2F) then Some(63)
    else None
  }

  function Padding(e: Encoding, n: nat): Bytes {
    if e.padded then seq(n, _ => PAD) else []
  }

  /** Encoding.EncodeToString. */
  function Encode(e: Encoding, data: Bytes): Bytes {
    if |data| == 0 then []
    else if |data| == 1 then
      [Symbol(e.url, Digit0(data[0])), Symbol(e.url, Digit1(data[0], 0))] + Padding(e, 2)
    else if |data| == 2 then
      [Symbol(e.url, Digit0(data[0])), Symbol(e.url, Digit1(data[0], data[1])),
       Symbol(e.url, Digit2(data[1], 0))] + Padding(e, 1)
    else
      [Symbol(e.url, Digit0(data[0])), Symbol(e.url, Digit1(data[0], data[1])),
       Symbol(e.url, Digit2(data[1], data[2])), Symbol(e.url, Digit3(data[2]))] + Encode(e, data[3..])
  }

  function StripNewlines(s: Bytes): Bytes {
    if s == [] then []
    else if s[0] == LF || s[0] == CR then StripNewlines(s[1..])
    else [s[0]] + StripNewlines(s[1..])
  }

  predicate AllSymbols(url: bool, s: Bytes) {
    forall i | 0 <= i < |s| :: Value(url, s[i]).Some?
  }

  function First(a: Sextet, b: Sextet): byte { (a * 4 + b / 16) as byte }
  function Second(b: Sextet, c: Sextet): byte { (b % 16 * 16 + c / 4) as byte }
  function Third(c: Sextet, d: Sextet): byte { (c % 4 * 64 + d) as byte }

  /** The bytes held by the 2, 3 or 4 symbols of one group. */
  function Group(url: bool, s: Bytes): (data: Bytes)
    requires 2 <= |s| <= 4 && AllSymbols(url, s)
    ensures |data| == |s| - 1
  {
    var a, b := Value(url, s[0]).value, Value(url, s[1]).value;
    [First(a, b)]
    + (if |s| >= 3 then [Second(b, Value(url, s[2]).value)] else [])
    + (if |s| == 4 then [Third(Value(url, s[2]).value, Value(url, s[3]).value)] else [])
  }

  /** What may follow the last complete group: a padded group, or a short one when there is no padding. */
  function DecodeTail(e: Encoding, s: Bytes): Option<Bytes> {
    if e.padded then
      if |s| != 4 || s[3] != PAD then None
      else
        var symbols := if s[2] == PAD then s[..2] else s[..3];
        if AllSymbols(e.url, symbols) then Some(Group(e.url, symbols)) else None
    else if 2 <= |s| <= 3 && AllSymbols(e.url, s) then Some(Group(e.url, s))
    else None
  }

  function DecodeGroups(e: Encoding, s: Bytes): Option<Bytes> {
    if s == [] then Some([])
    else if |s| >= 4 && AllSymbols(e.url, s[..4]) then
      match DecodeGroups(e, s[4..])
      case Some(rest) => Some(Group(e.url, s[..4]) + rest)
      case None => None
    else DecodeTail(e, s)
  }

  /** Encoding.DecodeString. */
  function Decode(e: Encoding, s: Bytes): Option<Bytes> {
    DecodeGroups(e, StripNewlines(s))
  }

  // ----- decoding undoes encoding -----

  lemma ValueOfSymbol(url: bool, v: Sextet)
    ensures Value(url, Symbol(url, v)) == Some(v)
    ensures 0x21 <= Symbol(url, v) <= 0x7E && Symbol(url, v) != COMMA && Symbol(url, v) != PAD
  {
  }

  lemma GroupOfBytes(a: byte, b: byte, c: byte)
    ensures First(Digit0(a), Digit1(a, b)) == a
    ensures Second(Digit1(a, b), Digit2(b, c)) == b
    ensures Third(Digit2(b, c), Digit3(c)) == c
  {
  }

  lemma {:induction false} EncodeIsGraphic(e: Encoding, data: Bytes)
    ensures Graphic(Encode(e, data)) && COMMA !in Encode(e, data)
  {
    forall v: Sextet ensures 0x21 <= Symbol(e.url, v) <= 0x7E && Symbol(e.url, v) != COMMA {
      ValueOfSymbol(e.url, v);
    }
    if |data| > 2 {
      EncodeIsGraphic(e, data[3..]);
    }
  }

  lemma {:induction false} EncodedLength(e: Encoding, data: Bytes)
    requires e.padded
    ensures |Encode(e, data)| == (|data| + 2) / 3 * 4
  {
    if |data| > 2 {
      EncodedLength(e, data[3..]);
    }
  }

  lemma {:induction false} StripGraphic(s: Bytes)
    requires Graphic(s)
    ensures StripNewlines(s) == s
  {
    if s != [] {
      StripGraphic(s[1..]);
      assert s == [s[0]] + s[1..];
    }
  }

  lemma DecodePair(e: Encoding, p: Sextet, q: Sextet)
    ensures DecodeGroups(e, [Symbol(e.url, p), Symbol(e.url, q)] + Padding(e, 2)) == Some([First(p, q)])
  {
    var symbols := [Symbol(e.url, p), Symbol(e.url, q)];
    var s := symbols + Padding(e, 2);
    ValueOfSymbol(e.url, p);
    ValueOfSymbol(e.url, q);
    assert Group(e.url, symbols) == [First(p, q)];
    if e.padded {
      assert s[..4][2] == PAD && Value(e.url, PAD).None?;
      assert s[..2] == symbols;
    } else {
      assert s == symbols;
    }
  }

  lemma DecodeTriple(e: Encoding, p: Sextet, q: Sextet, r: Sextet)
    ensures DecodeGroups(e, [Symbol(e.url, p), Symbol(e.url, q), Symbol(e.url, r)] + Padding(e, 1))
         == Some([First(p, q), Second(q, r)])
  {
    var symbols := [Symbol(e.url, p), Symbol(e.url, q), Symbol(e.url, r)];
    var s := symbols + Padding(e, 1);
    ValueOfSymbol(e.url, p);
    ValueOfSymbol(e.url, q);
    ValueOfSymbol(e.url, r);
    assert Group(e.url, symbols) == [First(p, q), Second(q, r)];
    if e.padded {
      assert s[..4][3] == PAD && Value(e.url, PAD).None?;
      assert s[..3] == symbols;
    } else {
      assert s == symbols;
    }
  }

  lemma DecodeQuad(e: Encoding, p: Sextet, q: Sextet, r: Sextet, t: Sextet, rest: Bytes)
    requires DecodeGroups(e, rest).Some?
    ensures DecodeGroups(e, [Symbol(e.url, p), Symbol(e.url, q), Symbol(e.url, r), Symbol(e.url, t)] + rest)
         == Some([First(p, q), Second(q, r), Third(r, t)] + DecodeGroups(e, rest).value)
  {
    var symbols := [Symbol(e.url, p), Symbol(e.url, q), Symbol(e.url, r), Symbol(e.url, t)];
    var s := symbols + rest;
    ValueOfSymbol(e.url, p);
    ValueOfSymbol(e.url, q);
    ValueOfSymbol(e.url, r);
    ValueOfSymbol(e.url, t);
    assert Group(e.url, symbols) == [First(p, q), Second(q, r), Third(r, t)];
    assert s[..4] == symbols && s[4..] == rest;
  }

  lemma SplitOne(e: Encoding, data: Bytes) returns (p: Sextet, q: Sextet)
    requires |data| == 1
    ensures Encode(e, data) == [Symbol(e.url, p), Symbol(e.url, q)] + Padding(e, 2)
    ensures First(p, q) == data[0]
  {
    p, q := Digit0(data[0]), Digit1(data[0], 0);
    GroupOfBytes(data[0], 0, 0);
  }

  lemma SplitTwo(e: Encoding, data: Bytes) returns (p: Sextet, q: Sextet, r: Sextet)
    requires |data| == 2
    ensures Encode(e, data) == [Symbol(e.url, p), Symbol(e.url, q), Symbol(e.url, r)] + Padding(e, 1)
    ensures First(p, q) == data[0] && Second(q, r) == data[1]
  {
    p, q, r := Digit0(data[0]), Digit1(data[0], data[1]), Digit2(data[1], 0);
    GroupOfBytes(data[0], data[1], 0);
  }

  lemma SplitThree(e: Encoding, data: Bytes) returns (p: Sextet, q: Sextet, r: Sextet, t: Sextet)
    requires |data| > 2
    ensures Encode(e, data)
         == [Symbol(e.url, p), Symbol(e.url, q), Symbol(e.url, r), Symbol(e.url, t)] + Encode(e, data[3..])
    ensures First(p, q) == data[0] && Second(q, r) == data[1] && Third(r, t) == data[2]
  {
    p, q, r, t := Digit0(data[0]), Digit1(data[0], data[1]), Digit2(data[1], data[2]), Digit3(data[2]);
    GroupOfBytes(data[0], data[1], data[2]);
  }

  lemma {:induction false} DecodeGroupsOfEncode(e: Encoding, data: Bytes)
    ensures DecodeGroups(e, Encode(e, data)) == Some(data)
  {
    if |data| == 1 {
      var p, q := SplitOne(e, data);
      DecodePair(e, p, q);
      assert data == [data[0]];
    } else if |data| == 2 {
      var p, q, r := SplitTwo(e, data);
      DecodeTriple(e, p, q, r);
      assert data == [data[0], data[1]];
    } else if |data| > 2 {
      var p, q, r, t := SplitThree(e, data);
      DecodeGroupsOfEncode(e, data[3..]);
      DecodeQuad(e, p, q, r, t, Encode(e, data[3..]));
      assert data == [data[0], data[1], data[2]] + data[3..];
    }
  }

  /** Decoding undoes encoding, for every byte string and each of the four variants. */
  lemma DecodeOfEncode(e: Encoding, data: Bytes)
    ensures Decode(e, Encode(e, data)) == Some(data)
  {
    EncodeIsGraphic(e, data);
    StripGraphic(Encode(e, data));
    DecodeGroupsOfEncode(e, data);
  }

  // ----- the variants never disagree -----

  lemma GroupsAgree(u: bool, v: bool, s: Bytes)
    requires 2 <= |s| <= 4 && AllSymbols(u, s) && AllSymbols(v, s)
    ensures Group(u, s) == Group(v, s)
  {
  }

  lemma TailsAgree(e: Encoding, f: Encoding, s: Bytes)
    requires DecodeTail(e, s).Some? && DecodeTail(f, s).Some?
    ensures DecodeTail(e, s) == DecodeTail(f, s)
  {
    var symbols := if !e.padded then s else if s[2] == PAD then s[..2] else s[..3];
    GroupsAgree(e.url, f.url, symbols);
  }

  /** A tail accepted by one variant is not a string that starts with a complete group of another. */
  lemma TailIsNoGroup(e: Encoding, url: bool, s: Bytes)
    requires DecodeTail(e, s).Some? && |s| >= 4
    ensures !AllSymbols(url, s[..4])
  {
    assert s[..4][3] == PAD && Value(url, PAD).None?;
  }

  lemma {:induction false} DecodeGroupsAgree(e: Encoding, f: Encoding, s: Bytes)
    requires DecodeGroups(e, s).Some? && DecodeGroups(f, s).Some?
    ensures DecodeGroups(e, s) == DecodeGroups(f, s)
  {
    if s == [] {
    } else if |s| >= 4 && AllSymbols(e.url, s[..4]) {
      if !AllSymbols(f.url, s[..4]) {
        TailIsNoGroup(f, e.url, s);
      }
      GroupsAgree(e.url, f.url, s[..4]);
      DecodeGroupsAgree(e, f, s[4..]);
    } else {
      if |s| >= 4 {
        TailIsNoGroup(e, f.url, s);
      }
      TailsAgree(e, f, s);
    }
  }

  /** The answer of the first variant in `order` that accepts `s`. */
  function FirstAccepted(order: seq<Encoding>, s: Bytes): Option<Bytes> {
    if order == [] then None
    else if Decode(order[0], s).Some? then Decode(order[0], s)
    else FirstAccepted(order[1..], s)
  }

  /** Whichever variant answers first, its answer is the answer of every variant that accepts. */
  lemma {:induction false} FirstAcceptedIsAny(order: seq<Encoding>, s: Bytes, data: Bytes)
    ensures FirstAccepted(order, s) == Some(data) <==> exists e :: e in order && Decode(e, s) == Some(data)
  {
    if order != [] {
      FirstAcceptedIsAny(order[1..], s, data);
      assert order == [order[0]] + order[1..];
      forall e | e in order && Decode(e, s) == Some(data) && Decode(order[0], s).Some?
        ensures Decode(order[0], s) == Some(data)
      {
        DecodeGroupsAgree(e, order[0], StripNewlines(s));
      }
    }
  }

  /** The result of trying several variants in turn depends on which are tried, not on their order. */
  lemma DecodeOrderIsIrrelevant(order: seq<Encoding>, other: seq<Encoding>, s: Bytes)
    requires forall e :: e in order <==> e in other
    ensures FirstAccepted(order, s) == FirstAccepted(other, s)
  {
    forall data ensures FirstAccepted(order, s) == Some(data) <==> FirstAccepted(other, s) == Some(data) {
      FirstAcceptedIsAny(order, s, data);
      FirstAcceptedIsAny(other, s, data);
    }
    assert FirstAccepted(order, s).Some? ==> FirstAccepted(other, s) == Some(FirstAccepted(order, s).value);
    assert FirstAccepted(other, s).Some? ==> FirstAccepted(order, s) == Some(FirstAccepted(other, s).value);
  }

  /** The test vectors of section 10 of RFC 4648 for three, two and one bytes, and where the alphabets differ. */
  lemma TestVectors()
    ensures Encode(StdEncoding, [0x66, 0x6F, 0x6F]) == [0x5A, 0x6D, 0x39, 0x76]              // foo: Zm9v
    ensures Encode(StdEncoding, [0x66, 0x6F]) == [0x5A, 0x6D, 0x38, 0x3D]                    // fo: Zm8=
    ensures Encode(StdEncoding, [0x66]) == [0x5A, 0x67, 0x3D, 0x3D]                          // f: Zg==
    ensures Encode(RawStdEncoding, [0x66]) == [0x5A, 0x67]                                   // f: Zg
    ensures Encode(RawStdEncoding, [0xFB, 0xFF, 0xBF]) == [0x2B, 0x2F, 0x2B, 0x2F]           // +/+/
    ensures Encode(RawURLEncoding, [0xFB, 0xFF, 0xBF]) == [0x2D, 0x5F, 0x2D, 0x5F]           // -_-_
  {
    assert forall e: Encoding :: Encode(e, []) == [];
  }

  lemma {:induction false} StripConcat(a: Bytes, b: Bytes)
    ensures StripNewlines(a + b) == StripNewlines(a) + StripNewlines(b)
  {
    if a == [] {
      assert a + b == b;
    } else {
      StripConcat(a[1..], b);
      assert (a + b)[0] == a[0] && (a + b)[1..] == a[1..] + b;
      assert StripNewlines(a + b) == (if a[0] == LF || a[0] == CR then [] else [a[0]]) + StripNewlines(a[1..] + b);
    }
  }

  /** Line breaks are ignored wherever they stand. */
  lemma LineBreaksAreIgnored(e: Encoding, a: Bytes, b: Bytes, c: byte)
    requires c == CR || c == LF
    ensures Decode(e, a + [c] + b) == Decode(e, a + b)
  {
    hide DecodeGroups;
    StripConcat(a + [c], b);
    StripConcat(a, [c]);
    StripConcat(a, b);
    assert StripNewlines([c]) == [] by {
      assert [c][1..] == [];
    }
    assert StripNewlines(a) + [] == StripNewlines(a);
  }

  /** Unused trailing bits are ignored; missing, superfluous or misplaced padding is not. */
  lemma LenientAndStrict(s: Bytes)
    ensures |s| == 2 && s == [0x5A, 0x68] ==> DecodeGroups(RawStdEncoding, s) == Some([0x66]) // Zh
    ensures |s| == 2 && s == [0x5A, 0x67] ==> DecodeGroups(StdEncoding, s).None?              // Zg
    ensures |s| == 4 && s == [0x5A, 0x67, 0x3D, 0x3D] ==> DecodeGroups(RawStdEncoding, s).None? // Zg==
    ensures |s| == 4 && s == [0x5A, 0x3D, 0x3D, 0x3D] ==> DecodeGroups(StdEncoding, s).None?  // Z===
  {
    assert Value(false, 0x5A) == Some(25) && Value(false, 0x68) == Some(33) && Value(false, 0x67) == Some(32);
    if s == [0x5A, 0x68] {
      assert s[0] == 0x5A && s[1] == 0x68;
      assert DecodeTail(RawStdEncoding, s) == Some(Group(false, s));
      assert Group(false, s) == [First(25, 33)];
    }
  }

  /** Each symbol is the one of tables 1 and 2 of RFC 4648. */
  lemma Alphabets(url: bool, v: Sextet)
    ensures v < 26 ==> Symbol(url, v) == (0x41 + v) as byte
    ensures 26 <= v < 52 ==> Symbol(url, v) == (0x61 + v - 26) as byte
    ensures 52 <= v < 62 ==> Symbol(url, v) == (0x30 + v - 52) as byte
    ensures v == 62 ==> Symbol(url, v) == if url then 0x2D else 0x2B
    ensures v == 63 ==> Symbol(url, v) == if url then 0x5F else 0x2F
  {
  }

  const ATTEMPTED: seq<Encoding> := [RawStdEncoding, StdEncoding, RawURLEncoding, URLEncoding]

  /** decodeBase64 of standard.go: the first of the four variants that accepts. */
  method DecodeAny(value: Bytes) returns (r: Option<Bytes>)
    ensures r == FirstAccepted(ATTEMPTED, value)
  {
    for i := 0 to |ATTEMPTED|
      invariant FirstAccepted(ATTEMPTED, value) == FirstAccepted(ATTEMPTED[i..], value)
    {
      var decoded := Decode(ATTEMPTED[i], value);
      if decoded.Some? {
        return decoded;
      }
    }
    return None;
  }
}
