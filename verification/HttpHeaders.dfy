/**
 * Header names and canonicalHeaders of postgres/store.go, and what a header map becomes in the jsonb column that
 * holds it. Header values are bytes: any byte from 0x20 on except DEL, and the tab, is allowed in them.
 */
module HttpHeaders {
  import opened Text
  import Utf8

  type Headers = map<string, seq<Bytes>>

  // ----- http.CanonicalHeaderKey -----

  predicate TokenChar(c: char) {
    'a' <= c <= 'z' || 'A' <= c <= 'Z' || '0' <= c <= '9' || c in "!#$%&'*+-.^_`|~"
  }

  function CanonicalChar(c: char, upper: bool): char {
    if upper && 'a' <= c <= 'z' then (c as int - 32) as char
    else if !upper && 'A' <= c <= 'Z' then (c as int + 32) as char
    else c
  }

  /** Upper case at the start and after each hyphen, lower case elsewhere. */
  function Recase(name: string, upper: bool): (r: string)
    ensures |r| == |name|
  {
    if name == [] then []
    else
      var c := CanonicalChar(name[0], upper);
      [c] + Recase(name[1..], c == '-')
  }

  function CanonicalName(name: string): string {
    if forall i | 0 <= i < |name| :: TokenChar(name[i]) then Recase(name, true) else name
  }

  lemma {:induction false} RecaseTwice(name: string, upper: bool)
    requires forall i | 0 <= i < |name| :: TokenChar(name[i])
    ensures Recase(Recase(name, upper), upper) == Recase(name, upper)
    ensures forall i | 0 <= i < |name| :: TokenChar(Recase(name, upper)[i])
  {
    if name != [] {
      var c := CanonicalChar(name[0], upper);
      RecaseTwice(name[1..], c == '-');
      assert Recase(name, upper)[1..] == Recase(name[1..], c == '-');
    }
  }

  /** A canonical name is its own canonical form. */
  lemma CanonicalNameTwice(name: string)
    ensures CanonicalName(CanonicalName(name)) == CanonicalName(name)
  {
    if forall i | 0 <= i < |name| :: TokenChar(name[i]) {
      RecaseTwice(name, true);
    }
  }

  /** The letters of a name without their case. */
  function Folded(name: string): string {
    if name == [] then [] else [CanonicalChar(name[0], false)] + Folded(name[1..])
  }

  lemma {:induction false} RecaseFolds(name: string, upper: bool)
    ensures Folded(Recase(name, upper)) == Folded(name)
  {
    if name != [] {
      var c := CanonicalChar(name[0], upper);
      RecaseFolds(name[1..], c == '-');
      assert Recase(name, upper)[1..] == Recase(name[1..], c == '-');
    }
  }

  lemma {:induction false} RecaseForgetsCase(a: string, b: string, upper: bool)
    requires Folded(a) == Folded(b)
    ensures Recase(a, upper) == Recase(b, upper)
  {
    if a != [] {
      assert Folded(a)[0] == Folded(b)[0] && Folded(a)[1..] == Folded(b)[1..];
      RecaseForgetsCase(a[1..], b[1..], CanonicalChar(a[0], upper) == '-');
    }
  }

  /** Two valid names have one canonical form exactly when they differ in letter case only, and that form is theirs. */
  lemma CanonicalNameForgetsCase(a: string, b: string)
    requires forall i | 0 <= i < |a| :: TokenChar(a[i])
    requires forall i | 0 <= i < |b| :: TokenChar(b[i])
    ensures Folded(CanonicalName(a)) == Folded(a)
    ensures CanonicalName(a) == CanonicalName(b) <==> Folded(a) == Folded(b)
  {
    RecaseFolds(a, true);
    RecaseFolds(b, true);
    if Folded(a) == Folded(b) {
      RecaseForgetsCase(a, b, true);
    }
  }

  lemma {:induction false} RecaseCapitals(name: string, upper: bool, i: nat)
    requires i < |name|
    ensures
      var r, first := Recase(name, upper), (if i == 0 then upper else name[i - 1] == '-');
      && (first ==> !('a' <= r[i] <= 'z')) && (!first ==> !('A' <= r[i] <= 'Z'))
  {
    if i > 0 {
      var c := CanonicalChar(name[0], upper);
      RecaseCapitals(name[1..], c == '-', i - 1);
      assert Recase(name, upper)[i] == Recase(name[1..], c == '-')[i - 1];
    }
  }

  /** A name with any other character is kept as it is. */
  lemma InvalidNamesAreKept(name: string, i: nat)
    requires i < |name| && (name[i] in " \t\r\n:;,\"/()<>@=?[]{}\\" || name[i] >= '\U{80}')
    ensures CanonicalName(name) == name
  {
  }

  /** Capitals stand at the start and after each hyphen of a canonical name, and nowhere else. */
  lemma CanonicalNameCapitals(name: string, i: nat)
    requires (forall j | 0 <= j < |name| :: TokenChar(name[j])) && i < |name|
    ensures
      var r, first := CanonicalName(name), i == 0 || name[i - 1] == '-';
      && |r| == |name| && (first ==> !('a' <= r[i] <= 'z')) && (!first ==> !('A' <= r[i] <= 'Z'))
  {
    RecaseCapitals(name, true, i);
  }

  // ----- slices.Sort on strings -----

  predicate Less(a: string, b: string) {
    b != [] && (a == [] || a[0] < b[0] || (a[0] == b[0] && Less(a[1..], b[1..])))
  }

  /** The order of bytes, first difference first; a prefix comes before its continuations. */
  lemma {:induction false} LessIsLexicographic(a: string, b: string)
    ensures Less(a, b) <==> exists k: nat :: FirstDifference(a, b, k) && k < |b| && (k == |a| || a[k] < b[k])
  {
    if a == [] && b != [] {
      assert FirstDifference(a, b, 0);
    } else if a != [] && b != [] && a[0] != b[0] {
      assert FirstDifference(a, b, 0);
      assert forall k: nat | FirstDifference(a, b, k) :: k == 0;
    } else if a != [] && b != [] {
      LessIsLexicographic(a[1..], b[1..]);
      if Less(a, b) {
        var k: nat :| FirstDifference(a[1..], b[1..], k) && k < |b[1..]| && (k == |a[1..]| || a[1..][k] < b[1..][k]);
        assert a[..k + 1] == [a[0]] + a[1..][..k] && b[..k + 1] == [b[0]] + b[1..][..k];
        assert FirstDifference(a, b, k + 1);
      }
      if exists k: nat :: FirstDifference(a, b, k) && k < |b| && (k == |a| || a[k] < b[k]) {
        var k: nat :| FirstDifference(a, b, k) && k < |b| && (k == |a| || a[k] < b[k]);
        assert k > 0;
        assert a[1..][..k - 1] == a[..k][1..] && b[1..][..k - 1] == b[..k][1..];
        assert FirstDifference(a[1..], b[1..], k - 1);
      }
    }
  }

  predicate FirstDifference(a: string, b: string, k: nat) {
    k <= |a| && k <= |b| && a[..k] == b[..k] && !(k < |a| && k < |b| && a[k] == b[k])
  }

  lemma {:induction false} LessIsTotal(a: string, b: string)
    ensures a == b || Less(a, b) || Less(b, a)
  {
    if a != [] && b != [] && a[0] == b[0] {
      LessIsTotal(a[1..], b[1..]);
      assert a == [a[0]] + a[1..] && b == [b[0]] + b[1..];
    }
  }

  lemma {:induction false} LessIsStrict(a: string, b: string)
    ensures !(Less(a, b) && Less(b, a)) && !Less(a, a)
  {
    if a != [] {
      LessIsStrict(a[1..], if b == [] then [] else b[1..]);
    }
  }

  lemma {:induction false} LessIsTransitive(a: string, b: string, c: string)
    requires Less(a, b) && Less(b, c)
    ensures Less(a, c)
  {
    if a != [] && a[0] == b[0] && b[0] == c[0] {
      LessIsTransitive(a[1..], b[1..], c[1..]);
    }
  }

  /** Strictly increasing: sorted and free of duplicates. */
  predicate Increasing(s: seq<string>) {
    forall i, j | 0 <= i < j < |s| :: Less(s[i], s[j])
  }

  function Elements(s: seq<string>): set<string> {
    set x | x in s
  }

  function Insert(x: string, s: seq<string>): seq<string> {
    if s == [] || Less(x, s[0]) then [x] + s else [s[0]] + Insert(x, s[1..])
  }

  function Sort(s: seq<string>): seq<string> {
    if s == [] then [] else Insert(s[0], Sort(s[1..]))
  }

  lemma {:induction false} InsertIncreasing(x: string, s: seq<string>)
    requires Increasing(s) && x !in s
    ensures Increasing(Insert(x, s)) && Elements(Insert(x, s)) == Elements(s) + {x}
  {
    if s == [] || Less(x, s[0]) {
      forall j | 0 <= j < |s| ensures Less(x, s[j]) {
        if j > 0 { LessIsTransitive(x, s[0], s[j]); }
      }
      assert Insert(x, s) == [x] + s;
    } else {
      LessIsTotal(x, s[0]);
      InsertIncreasing(x, s[1..]);
      var rest := Insert(x, s[1..]);
      forall y | y in rest ensures Less(s[0], y) {
        assert y in Elements(rest);
        assert y == x || y in s[1..];
      }
      assert s == [s[0]] + s[1..];
      assert Insert(x, s) == [s[0]] + rest;
      forall y | y in Elements(s) + {x} ensures y in Insert(x, s) {
        assert y == s[0] || y in Elements(s[1..]) + {x};
        assert y != s[0] ==> y in rest;
      }
      forall y | y in Insert(x, s) ensures y in Elements(s) + {x} {
        assert y == s[0] || y in Elements(rest);
      }
    }
  }

  predicate NoDuplicates(s: seq<string>) {
    forall i, j | 0 <= i < j < |s| :: s[i] != s[j]
  }

  lemma {:induction false} SortIncreasing(s: seq<string>)
    requires NoDuplicates(s)
    ensures Increasing(Sort(s)) && Elements(Sort(s)) == Elements(s)
  {
    if s != [] {
      SortIncreasing(s[1..]);
      assert s[0] !in Elements(s[1..]);
      InsertIncreasing(s[0], Sort(s[1..]));
      assert s == [s[0]] + s[1..];
      assert Elements(s) == {s[0]} + Elements(s[1..]);
    }
  }

  lemma SomeElement(s: seq<string>)
    ensures s != [] ==> Elements(s) != {}
  {
    if s != [] {
      assert s[0] in Elements(s);
    }
  }

  lemma {:induction false} IncreasingIsUnique(s: seq<string>, t: seq<string>)
    requires Increasing(s) && Increasing(t) && Elements(s) == Elements(t)
    ensures s == t
  {
    if s == [] {
      SomeElement(t);
    } else {
      assert s[0] in Elements(t);
      assert t[0] in Elements(s) by { assert t[0] in Elements(t); }
      LessIsStrict(s[0], t[0]);
      assert s[0] == t[0];
      IncreasingTail(s);
      IncreasingTail(t);
      IncreasingIsUnique(s[1..], t[1..]);
      assert s == [s[0]] + s[1..] && t == [t[0]] + t[1..];
    }
  }

  lemma IncreasingTail(s: seq<string>)
    requires Increasing(s) && s != []
    ensures Increasing(s[1..]) && Elements(s[1..]) == Elements(s) - {s[0]}
  {
    assert s == [s[0]] + s[1..];
    LessIsStrict(s[0], s[0]);
    forall x | x in Elements(s[1..]) ensures x != s[0] {
      var j :| 0 <= j < |s[1..]| && s[1..][j] == x;
      assert Less(s[0], s[j + 1]);
    }
  }

  // ----- canonicalHeaders -----

  function Gathered(h: Headers, name: string): seq<Bytes> {
    if name in h then h[name] else []
  }

  /** The grouping loop: each name's values are appended under its canonical name. */
  function Group(h: Headers, names: seq<string>): Headers {
    if names == [] then map[]
    else
      var before, last := Group(h, names[..|names| - 1]), names[|names| - 1];
      before[CanonicalName(last) := Gathered(before, CanonicalName(last)) + Gathered(h, last)]
  }

  /** `names` lists the keys of `h`, in whatever order Go's map iteration produces them. */
  predicate Enumerates(names: seq<string>, h: Headers) {
    NoDuplicates(names) && Elements(names) == h.Keys
  }

  ghost function Enumeration(keys: set<string>): (s: seq<string>)
    ensures NoDuplicates(s) && Elements(s) == keys
  {
    if keys == {} then []
    else
      var k :| k in keys;
      var rest := Enumeration(keys - {k});
      assert k !in rest by { assert k in rest ==> k in Elements(rest); }
      assert Elements([k] + rest) == {k} + Elements(rest);
      [k] + rest
  }

  ghost function CanonicalHeaders(h: Headers): Headers {
    Group(h, Sort(Enumeration(h.Keys)))
  }

  /** The order in which the map is iterated does not show in the result. */
  lemma IterationOrderIsIrrelevant(h: Headers, names: seq<string>)
    requires Enumerates(names, h)
    ensures Group(h, Sort(names)) == CanonicalHeaders(h)
  {
    SortIncreasing(names);
    SortIncreasing(Enumeration(h.Keys));
    IncreasingIsUnique(Sort(names), Sort(Enumeration(h.Keys)));
  }

  /** Ranging over the map collects its keys in some order. */
  method Names(h: Headers) returns (names: seq<string>)
    ensures Enumerates(names, h)
  {
    names := [];
    var remaining := h.Keys;
    while remaining != {}
      invariant NoDuplicates(names) && Elements(names) == h.Keys - remaining && remaining <= h.Keys
      decreases |remaining|
    {
      var name :| name in remaining;
      assert name !in Elements(names);
      assert Elements(names + [name]) == Elements(names) + {name};
      names := names + [name];
      remaining := remaining - {name};
    }
  }

  lemma GroupOneMore(h: Headers, names: seq<string>, i: nat)
    requires i < |names|
    ensures Group(h, names[..i + 1])
         == Group(h, names[..i])[CanonicalName(names[i]) :=
              Gathered(Group(h, names[..i]), CanonicalName(names[i])) + Gathered(h, names[i])]
  {
    hide CanonicalName;
    assert names[..i + 1][..i] == names[..i];
  }

  method Canonicalize(h: Headers) returns (canonical: Headers)
    ensures canonical == CanonicalHeaders(h)
  {
    hide CanonicalName, Sort, Group;
    var unsorted := Names(h);
    IterationOrderIsIrrelevant(h, unsorted);
    var names := Sort(unsorted);
    canonical := map[];
    assert canonical == Group(h, names[..0]) by {
      EmptyGroup(h, names[..0]);
    }
    for i := 0 to |names|
      invariant canonical == Group(h, names[..i])
    {
      var canonicalName := CanonicalName(names[i]);
      canonical := canonical[canonicalName := Gathered(canonical, canonicalName) + Gathered(h, names[i])];
      GroupOneMore(h, names, i);
    }
    assert names[..|names|] == names;
  }

  lemma EmptyGroup(h: Headers, names: seq<string>)
    requires names == []
    ensures Group(h, names) == map[]
  {
  }

  /** The values of all names with the given canonical form, name after name. */
  function Collected(h: Headers, names: seq<string>, canonical: string): seq<Bytes> {
    if names == [] then []
    else
      var n := |names| - 1;
      Collected(h, names[..n], canonical) + (if CanonicalName(names[n]) == canonical then Gathered(h, names[n]) else [])
  }

  lemma {:induction false} GroupCollects(h: Headers, names: seq<string>, canonical: string)
    ensures Gathered(Group(h, names), canonical) == Collected(h, names, canonical)
  {
    hide CanonicalName;
    if names != [] {
      GroupCollects(h, names[..|names| - 1], canonical);
    }
  }

  /**
   * No value is lost or moved: under each canonical name stand the values of all its spellings, those of one spelling
   * in their order and the spellings in the order of bytes.
   */
  lemma CanonicalHeadersCollect(h: Headers, names: seq<string>, canonical: string)
    requires Increasing(names) && Elements(names) == h.Keys
    ensures Gathered(CanonicalHeaders(h), canonical) == Collected(h, names, canonical)
  {
    SortIncreasing(Enumeration(h.Keys));
    IncreasingIsUnique(names, Sort(Enumeration(h.Keys)));
    GroupCollects(h, names, canonical);
  }

  lemma {:induction false} GroupKeysAreCanonical(h: Headers, names: seq<string>)
    ensures forall name | name in Group(h, names) :: CanonicalName(name) == name
  {
    if names != [] {
      GroupKeysAreCanonical(h, names[..|names| - 1]);
      CanonicalNameTwice(names[|names| - 1]);
    }
  }

  /** Headers whose names are canonical already are grouped into themselves. */
  lemma {:induction false} GroupOfCanonical(h: Headers, names: seq<string>)
    requires NoDuplicates(names) && Elements(names) <= h.Keys
    requires forall name | name in h :: CanonicalName(name) == name
    ensures Group(h, names).Keys == Elements(names)
    ensures forall name | name in Elements(names) :: Group(h, names)[name] == h[name]
  {
    hide CanonicalName;
    if names != [] {
      var init, last := names[..|names| - 1], names[|names| - 1];
      assert names == init + [last];
      assert Elements(names) == Elements(init) + {last};
      assert last !in Elements(init);
      GroupOfCanonical(h, init);
      assert Gathered(Group(h, init), last) + Gathered(h, last) == h[last];
    }
  }

  lemma IncreasingHasNoDuplicates(s: seq<string>)
    requires Increasing(s)
    ensures NoDuplicates(s)
  {
    forall i, j | 0 <= i < j < |s| ensures s[i] != s[j] {
      LessIsStrict(s[i], s[j]);
    }
  }

  predicate CanonicalNames(h: Headers) {
    forall name | name in h :: CanonicalName(name) == name
  }

  lemma CanonicalHeadersHaveCanonicalNames(h: Headers)
    ensures CanonicalNames(CanonicalHeaders(h))
  {
    GroupKeysAreCanonical(h, Sort(Enumeration(h.Keys)));
  }

  lemma CanonicalNamesAreFixed(h: Headers)
    requires CanonicalNames(h)
    ensures CanonicalHeaders(h) == h
  {
    var names := Sort(Enumeration(h.Keys));
    SortIncreasing(Enumeration(h.Keys));
    IncreasingHasNoDuplicates(names);
    GroupOfCanonical(h, names);
  }

  /** canonicalHeaders is idempotent, so comparing canonical forms again changes nothing. */
  lemma CanonicalHeadersTwice(h: Headers)
    ensures CanonicalHeaders(CanonicalHeaders(h)) == CanonicalHeaders(h)
  {
    CanonicalHeadersHaveCanonicalNames(h);
    CanonicalNamesAreFixed(CanonicalHeaders(h));
  }

  // ----- the jsonb column -----

  function ReadBackValues(values: seq<Bytes>): seq<Bytes> {
    seq(|values|, i requires 0 <= i < |values| => Utf8.ReadBack(values[i]))
  }

  /** The headers after json.Marshal into the column and json.Unmarshal out of it. */
  function ReadBackHeaders(h: Headers): Headers {
    map name | name in h :: ReadBackValues(h[name])
  }

  predicate TextValues(values: seq<Bytes>) {
    forall i | 0 <= i < |values| :: Utf8.Valid(values[i])
  }

  /** Every header value is valid UTF-8. */
  predicate IsText(h: Headers) {
    forall name | name in h :: TextValues(h[name])
  }

  lemma ReadBackValuesIsIdentity(values: seq<Bytes>)
    ensures ReadBackValues(values) == values <==> TextValues(values)
    ensures TextValues(ReadBackValues(values))
  {
    forall i | 0 <= i < |values|
      ensures ReadBackValues(values)[i] == values[i] <==> Utf8.Valid(values[i])
      ensures Utf8.Valid(ReadBackValues(values)[i])
    {
      Utf8.ReadBackIsIdentity(values[i]);
      Utf8.ReadBackIsValid(values[i]);
    }
  }

  /** Headers survive the column exactly when all their values are valid UTF-8; what was read back once survives. */
  lemma ReadBackHeadersIsIdentity(h: Headers)
    ensures ReadBackHeaders(h) == h <==> IsText(h)
    ensures ReadBackHeaders(ReadBackHeaders(h)) == ReadBackHeaders(h)
  {
    hide TextValues, ReadBackValues;
    var once := ReadBackHeaders(h);
    forall name | name in h
      ensures once[name] == h[name] <==> TextValues(h[name])
      ensures ReadBackValues(once[name]) == once[name]
    {
      ReadBackValuesIsIdentity(h[name]);
      ReadBackValuesIsIdentity(once[name]);
    }
  }

  lemma TextOfConcat(a: seq<Bytes>, b: seq<Bytes>)
    ensures TextValues(a + b) <==> TextValues(a) && TextValues(b)
    ensures TextValues([])
  {
    if TextValues(a + b) {
      assert forall i | 0 <= i < |a| :: a[i] == (a + b)[i];
      assert forall i | 0 <= i < |b| :: b[i] == (a + b)[|a| + i];
    }
  }

  lemma AppendIsText(h: Headers, name: string, values: seq<Bytes>)
    ensures IsText(h[name := Gathered(h, name) + values]) <==> IsText(h) && TextValues(values)
  {
    TextOfConcat(Gathered(h, name), values);
    hide TextValues;
    var g := h[name := Gathered(h, name) + values];
    if IsText(g) {
      assert TextValues(g[name]);
      assert forall other | other in h && other != name :: g[other] == h[other];
    }
  }

  lemma {:induction false} GroupIsText(h: Headers, names: seq<string>)
    ensures IsText(Group(h, names)) <==> forall name | name in names :: TextValues(Gathered(h, name))
  {
    hide CanonicalName, TextValues, IsText, Gathered;
    if names == [] {
      assert IsText(map[]) by {
        NothingIsText();
      }
    } else {
      var init, last := names[..|names| - 1], names[|names| - 1];
      GroupIsText(h, init);
      AppendIsText(Group(h, init), CanonicalName(last), Gathered(h, last));
      assert names == init + [last];
    }
  }

  lemma NothingIsText()
    ensures IsText(map[])
  {
  }

  /** Canonicalising moves values around and alters none. */
  lemma CanonicalHeadersAreText(h: Headers)
    ensures IsText(CanonicalHeaders(h)) <==> IsText(h)
  {
    var names := Sort(Enumeration(h.Keys));
    SortIncreasing(Enumeration(h.Keys));
    GroupIsText(h, names);
    assert forall name :: name in names <==> name in Elements(names);
    assert forall name | name in h :: Gathered(h, name) == h[name];
  }

  /** The column does not touch names, so what is read back of canonical headers is canonical. */
  lemma ReadBackOfCanonical(h: Headers)
    ensures CanonicalHeaders(ReadBackHeaders(CanonicalHeaders(h))) == ReadBackHeaders(CanonicalHeaders(h))
  {
    CanonicalHeadersHaveCanonicalNames(h);
    CanonicalNamesAreFixed(ReadBackHeaders(CanonicalHeaders(h)));
  }
}
