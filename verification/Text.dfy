/**
 * Go's byte strings and the parts of package strings and strconv that the signature format,
 * Retry-After and header handling lean on.
 */
module Text {
  import opened Common
  import opened GoTime

  newtype byte = x: int | 0 <= x < 256
  type Bytes = seq<byte>

  const LF: byte := 0x0A
  const CR: byte := 0x0D
  const SPACE: byte := 0x20
  const PLUS: byte := 0x2B
  const COMMA: byte := 0x2C
  const MINUS: byte := 0x2D
  const DOT: byte := 0x2E
  const ZERO: byte := 0x30
  const DEL: byte := 0x7F

  // ----- white space (unicode.IsSpace on the UTF-8 encoding) -----

  /** The length of the white-space character that starts at `s[i]`, or 0 when none does. */
  function SpaceWidthAt(s: Bytes, i: nat): (w: nat)
    requires i <= |s|
    ensures i + w <= |s|
  {
    if i < |s| && (0x09 <= s[i] <= 0x0D || s[i] == 0x20) then 1
    else if i + 1 < |s| && s[i] == 0xC2 && (s[i + 1] == 0x85 || s[i + 1] == 0xA0) then 2
    else if i + 2 < |s| && IsWideSpace(s[i], s[i + 1], s[i + 2]) then 3
    else 0
  }

  /** U+1680, U+2000 to U+200A, U+2028, U+2029, U+202F, U+205F and U+3000. */
  predicate IsWideSpace(a: byte, b: byte, c: byte) {
    || (a == 0xE1 && b == 0x9A && c == 0x80)
    || (a == 0xE2 && b == 0x80 && (0x80 <= c <= 0x8A || c == 0xA8 || c == 0xA9 || c == 0xAF))
    || (a == 0xE2 && b == 0x81 && c == 0x9F)
    || (a == 0xE3 && b == 0x80 && c == 0x80)
  }

  /** The length of the white-space character that ends just before `s[i]`, or 0 when none does. */
  function SpaceWidthBefore(s: Bytes, i: nat): (w: nat)
    requires i <= |s|
    ensures w <= i
  {
    if i >= 1 && SpaceWidthAt(s, i - 1) == 1 then 1
    else if i >= 2 && SpaceWidthAt(s, i - 2) == 2 then 2
    else if i >= 3 && SpaceWidthAt(s, i - 3) == 3 then 3
    else 0
  }

  function FirstText(s: Bytes, i: nat): (r: nat)
    requires i <= |s|
    ensures i <= r <= |s|
    decreases |s| - i
  {
    if SpaceWidthAt(s, i) == 0 then i else FirstText(s, i + SpaceWidthAt(s, i))
  }

  function LastText(s: Bytes, from: nat, i: nat): (r: nat)
    requires from <= i <= |s|
    ensures from <= r <= i
    decreases i
  {
    var w := SpaceWidthBefore(s, i);
    if w == 0 || i - w < from then i else LastText(s, from, i - w)
  }

  /** strings.TrimSpace. */
  function TrimSpace(s: Bytes): Bytes {
    var from := FirstText(s, 0);
    s[from..LastText(s, from, |s|)]
  }

  /** A string of graphic ASCII characters holds no white space at all. */
  predicate Graphic(s: Bytes) {
    forall i | 0 <= i < |s| :: 0x21 <= s[i] <= 0x7E
  }

  lemma NoSpaceInGraphic(s: Bytes, i: nat)
    requires i <= |s| && i < |s| ==> 0x21 <= s[i] <= 0x7E
    requires i <= |s|
    ensures SpaceWidthAt(s, i) == 0
  {
  }

  lemma TrimGraphic(s: Bytes)
    requires Graphic(s)
    ensures TrimSpace(s) == s
  {
    forall i | 0 <= i <= |s| ensures SpaceWidthAt(s, i) == 0 {
      NoSpaceInGraphic(s, i);
    }
  }

  // ----- strings.Fields, strings.Join, strings.Cut -----

  /** strings.Fields: the maximal runs without white space; `word` is the run read so far. */
  function FieldsFrom(word: Bytes, s: Bytes): seq<Bytes>
    decreases |s|
  {
    var done := if word == [] then [] else [word];
    if s == [] then done
    else if SpaceWidthAt(s, 0) > 0 then done + FieldsFrom([], s[SpaceWidthAt(s, 0)..])
    else FieldsFrom(word + [s[0]], s[1..])
  }

  function Fields(s: Bytes): seq<Bytes> {
    FieldsFrom([], s)
  }

  /** strings.Join with a one-byte separator. */
  function Join(parts: seq<Bytes>, separator: byte): Bytes {
    if |parts| == 0 then []
    else if |parts| == 1 then parts[0]
    else parts[0] + [separator] + Join(parts[1..], separator)
  }

  lemma {:induction false} FieldsOfWord(word: Bytes, rest: Bytes, tail: Bytes)
    requires Graphic(rest)
    ensures FieldsFrom(word, rest + tail) == FieldsFrom(word + rest, tail)
    decreases |rest|
  {
    if rest == [] {
      assert rest + tail == tail && word + rest == word;
    } else {
      var s := rest + tail;
      assert s[0] == rest[0] && rest[0] in rest;
      assert s[1..] == rest[1..] + tail;
      FieldsOfWord(word + [rest[0]], rest[1..], tail);
      assert word + [rest[0]] + rest[1..] == word + rest;
    }
  }

  lemma FieldsAfterSpace(word: Bytes, rest: Bytes)
    requires word != []
    ensures FieldsFrom(word, [SPACE] + rest) == [word] + FieldsFrom([], rest)
  {
    assert ([SPACE] + rest)[1..] == rest;
  }

  lemma FieldsOfLast(word: Bytes)
    ensures FieldsFrom(word, []) == if word == [] then [] else [word]
  {
  }

  /** Leading white space makes no field. */
  lemma FieldsSkipSpace(s: Bytes)
    ensures Fields([SPACE] + s) == Fields(s)
  {
    assert ([SPACE] + s)[1..] == s;
  }

  /** Splitting at white space undoes joining with spaces. */
  lemma {:induction false} FieldsOfJoin(parts: seq<Bytes>)
    requires forall i | 0 <= i < |parts| :: parts[i] != [] && Graphic(parts[i])
    ensures Fields(Join(parts, SPACE)) == parts
  {
    hide FieldsFrom, Graphic;
    FieldsOfLast([]);
    if |parts| == 1 {
      FieldsOfWord([], parts[0], []);
      FieldsOfLast(parts[0]);
      assert parts[0] + [] == parts[0] && [] + parts[0] == parts[0];
      assert parts == [parts[0]];
    } else if |parts| > 1 {
      var rest := Join(parts[1..], SPACE);
      assert Join(parts, SPACE) == parts[0] + ([SPACE] + rest);
      FieldsOfWord([], parts[0], [SPACE] + rest);
      assert [] + parts[0] == parts[0];
      FieldsAfterSpace(parts[0], rest);
      FieldsOfJoin(parts[1..]);
      assert parts == [parts[0]] + parts[1..];
    }
  }

  /** The first position of `b` in `s`, or |s|. */
  function IndexByte(s: Bytes, b: byte): (i: nat)
    ensures i <= |s|
    ensures i < |s| ==> s[i] == b
    ensures b !in s[..i]
  {
    if s == [] then 0
    else if s[0] == b then 0
    else
      var i := 1 + IndexByte(s[1..], b);
      assert s[..i] == [s[0]] + s[1..][..i - 1];
      i
  }

  lemma IndexByteOfPrefix(prefix: Bytes, b: byte, tail: Bytes)
    requires b !in prefix
    ensures IndexByte(prefix + [b] + tail, b) == |prefix|
  {
    var s := prefix + [b] + tail;
    var i := IndexByte(s, b);
    assert i >= |prefix| by {
      assert forall j | 0 <= j < |prefix| :: s[j] == prefix[j];
    }
    assert i <= |prefix| by {
      assert s[|prefix|] == b;
      assert forall j | 0 <= j < i :: s[j] in s[..i];
    }
  }

  /** strings.Cut around one byte: the two sides, or None when `b` is absent. */
  function Cut(s: Bytes, b: byte): Option<(Bytes, Bytes)> {
    var i := IndexByte(s, b);
    if i == |s| then None else Some((s[..i], s[i + 1..]))
  }

  lemma CutOfPair(left: Bytes, b: byte, right: Bytes)
    requires b !in left
    ensures Cut(left + [b] + right, b) == Some((left, right))
  {
    IndexByteOfPrefix(left, b, right);
    var s := left + [b] + right;
    assert s[..|left|] == left && s[|left| + 1..] == right;
  }

  // ----- strconv.FormatInt and strconv.ParseInt in base 10 -----

  predicate IsDigit(b: byte) {
    ZERO <= b <= 0x39
  }

  function FormatNat(n: nat): (s: Bytes)
    ensures s != [] && forall b | b in s :: IsDigit(b)
  {
    if n < 10 then [ZERO + n as byte] else FormatNat(n / 10) + [ZERO + (n % 10) as byte]
  }

  function Magnitude(n: int): nat {
    if n < 0 then -n else n
  }

  function FormatInt(n: int64): Bytes {
    if n < 0 then [MINUS] + FormatNat(Magnitude(n)) else FormatNat(n)
  }

  /** The value of a digit string, most significant digit first; None when some byte is no digit. */
  function ParseDigits(s: Bytes): Option<nat> {
    if s == [] then Some(0)
    else
      var last := s[|s| - 1];
      match ParseDigits(s[..|s| - 1])
      case Some(high) => if IsDigit(last) then Some(high * 10 + (last - ZERO) as int) else None
      case None => None
  }

  /** strconv.ParseInt(s, 10, 64); None stands for both a syntax and a range error. */
  function ParseInt(s: Bytes): Option<int64> {
    var negative := s != [] && s[0] == MINUS;
    var digits := if s != [] && (s[0] == MINUS || s[0] == PLUS) then s[1..] else s;
    if digits == [] then None
    else
      match ParseDigits(digits)
      case Some(n) =>
        if negative then (if -(n as int) >= MIN_INT64 then Some(-(n as int)) else None)
        else if n <= MAX_INT64 then Some(n) else None
      case None => None
  }

  lemma {:induction false} ParseFormatNat(n: nat)
    ensures ParseDigits(FormatNat(n)) == Some(n)
  {
    var s := FormatNat(n);
    if n < 10 {
      assert s[..|s| - 1] == [];
    } else {
      assert s[..|s| - 1] == FormatNat(n / 10);
      ParseFormatNat(n / 10);
    }
  }

  lemma ParseSigned(digits: Bytes, n: nat)
    requires digits != [] && IsDigit(digits[0]) && ParseDigits(digits) == Some(n)
    ensures n <= MAX_INT64 ==> ParseInt(digits) == Some(n)
    ensures n <= MAX_INT64 + 1 ==> ParseInt([MINUS] + digits) == Some(-(n as int))
  {
    assert ([MINUS] + digits)[1..] == digits;
  }

  lemma DigitsAreGraphic(s: Bytes)
    requires forall b | b in s :: IsDigit(b)
    ensures Graphic(s) && Graphic([MINUS] + s)
  {
    forall i | 0 <= i < |s| ensures 0x21 <= s[i] <= 0x7E {
      assert s[i] in s;
    }
  }

  /** Every int64 survives printing and parsing. */
  lemma ParseFormatInt(n: int64)
    ensures ParseInt(FormatInt(n)) == Some(n)
    ensures Graphic(FormatInt(n)) && FormatInt(n) != []
  {
    var digits := FormatNat(Magnitude(n));
    ParseFormatNat(Magnitude(n));
    assert digits[0] in digits;
    ParseSigned(digits, Magnitude(n));
    DigitsAreGraphic(digits);
  }

  lemma {:induction false} ParseDigitsOnly(s: Bytes)
    requires ParseDigits(s).Some?
    ensures forall b | b in s :: IsDigit(b)
  {
    if s != [] {
      ParseDigitsOnly(s[..|s| - 1]);
      assert s == s[..|s| - 1] + [s[|s| - 1]];
    }
  }

  /** What ParseInt accepts is a sign and digits, so it never holds a dot. */
  lemma ParseIntHasNoDot(s: Bytes)
    requires ParseInt(s).Some?
    ensures DOT !in s
  {
    var digits := if s[0] == MINUS || s[0] == PLUS then s[1..] else s;
    ParseDigitsOnly(digits);
    assert s == digits || s == [s[0]] + digits;
  }

  /** The value of decimal digits is that of the positional system. */
  lemma DigitsArePositional(s: Bytes, d: byte)
    requires ParseDigits(s).Some? && IsDigit(d)
    ensures ParseDigits(s + [d]) == Some(ParseDigits(s).value * 10 + (d - 0x30) as int)
  {
    assert (s + [d])[..|s|] == s;
  }

  /** Digits with at most one sign in front, for the integer `n`. */
  predicate IsIntegerText(s: Bytes, digits: Bytes, n: int) {
    && digits != [] && ParseDigits(digits).Some?
    && var m: int := ParseDigits(digits).value;
       (n == m && (s == digits || s == [PLUS] + digits)) || (n == -m && s == [MINUS] + digits)
  }

  /** What strconv accepts besides plain digits: one sign, and the range of an int64, no more. */
  lemma ParseIntExactly(s: Bytes, n: int64)
    ensures ParseInt(s) == Some(n) <==> exists digits :: IsIntegerText(s, digits, n)
  {
    if ParseInt(s) == Some(n) {
      var digits := if s[0] == MINUS || s[0] == PLUS then s[1..] else s;
      assert s == digits || s == [s[0]] + digits;
      assert IsIntegerText(s, digits, n);
    }
    if exists digits :: IsIntegerText(s, digits, n) {
      var digits :| IsIntegerText(s, digits, n);
      assert IsIntegerText(s, digits, n);
      ParseDigitsOnly(digits);
      assert IsDigit(digits[0]);
      assert s == digits || s[1..] == digits;
    }
  }
}
