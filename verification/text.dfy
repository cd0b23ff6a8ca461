/** String helpers the forms and parsers share: Kotlin's `isBlank`, `trim`,
    `split(",")`, `joinToString(",")`, `toIntOrNull`/`toLongOrNull`, and the
    decimal rendering of numbers. */
module Text {
  import opened Domain
  import Lists

  /** Kotlin's `Char.isWhitespace`: the ASCII controls 9-13 and 28-31, and the
      Unicode space, line and paragraph separators. */
  predicate IsWhitespace(c: char)
  {
    var n := c as int;
    (9 <= n <= 13) || (28 <= n <= 32) || n == 0xA0 || n == 0x1680
    || (0x2000 <= n <= 0x200A) || n == 0x2028 || n == 0x2029 || n == 0x202F
    || n == 0x205F || n == 0x3000
  }

  /** `isBlank()`: empty or whitespace only. */
  predicate IsBlank(s: string)
  {
    forall i :: 0 <= i < |s| ==> IsWhitespace(s[i])
  }

  function TrimStart(s: string): (r: string)
    ensures |r| <= |s| && r == s[|s| - |r|..]
    ensures r == [] || !IsWhitespace(r[0])
    ensures forall i :: 0 <= i < |s| - |r| ==> IsWhitespace(s[i])
  {
    if |s| > 0 && IsWhitespace(s[0]) then TrimStart(s[1..]) else s
  }

  function TrimEnd(s: string): (r: string)
    ensures |r| <= |s| && r == s[..|r|]
    ensures r == [] || !IsWhitespace(r[|r| - 1])
    ensures forall i :: |r| <= i < |s| ==> IsWhitespace(s[i])
  {
    if |s| > 0 && IsWhitespace(s[|s| - 1]) then TrimEnd(s[..|s| - 1]) else s
  }

  /** `trim()`: drops leading and trailing whitespace. */
  function Trim(s: string): (r: string)
    ensures r == [] || (!IsWhitespace(r[0]) && !IsWhitespace(r[|r| - 1]))
    ensures |r| <= |s| && forall i :: 0 <= i < |r| ==> r[i] in s
  {
    TrimKeepsInside(s);
    TrimEnd(TrimStart(s))
  }

  /** What `trim()` keeps is a run of the input with no whitespace at
      either end. */
  lemma TrimKeepsInside(s: string)
    ensures var b := TrimEnd(TrimStart(s));
      (b == [] || (!IsWhitespace(b[0]) && !IsWhitespace(b[|b| - 1]))) &&
      forall i :: 0 <= i < |b| ==> b[i] in s
  {
    var a := TrimStart(s);
    var b := TrimEnd(a);
    if b != [] {
      assert b[0] == a[0];
    }
    TrimKeepsCharacters(s, a, b);
  }

  lemma TrimKeepsCharacters(s: string, a: string, b: string)
    requires |a| <= |s| && a == s[|s| - |a|..]
    requires |b| <= |a| && b == a[..|b|]
    ensures forall i :: 0 <= i < |b| ==> b[i] in s
  {
    var k := |s| - |a|;
    forall i | 0 <= i < |b|
      ensures b[i] in s
    {
      assert b[i] == s[k + i];
    }
  }

  /** A string that neither starts nor ends with whitespace. */
  predicate IsTrimmed(s: string)
  {
    s == [] || (!IsWhitespace(s[0]) && !IsWhitespace(s[|s| - 1]))
  }

  lemma TrimOfTrimmed(s: string)
    requires IsTrimmed(s)
    ensures Trim(s) == s
  {
  }

  lemma {:induction false} BlankIffTrimEmpty(s: string)
    ensures IsBlank(s) <==> Trim(s) == []
  {
    if Trim(s) == [] {
      var a := TrimStart(s);
      assert TrimEnd(a) == [];
      assert a == [];
    }
    if IsBlank(s) && |s| > 0 {
      assert TrimStart(s) == [] by { TrimStartOfBlank(s); }
    }
  }

  lemma {:induction false} TrimStartOfBlank(s: string)
    requires IsBlank(s)
    ensures TrimStart(s) == []
  {
    if |s| > 0 {
      assert IsBlank(s[1..]) by {
        forall i | 0 <= i < |s| - 1 ensures IsWhitespace(s[1..][i]) { assert s[1..][i] == s[i + 1]; }
      }
      TrimStartOfBlank(s[1..]);
    }
  }

  /** `split(",")`: the pieces between commas, empty ones included. */
  function Split(s: string): (r: seq<string>)
    ensures |r| >= 1
    ensures forall p :: p in r ==> ',' !in p
  {
    if |s| == 0 then [""]
    else if s[0] == ',' then [""] + Split(s[1..])
    else
      var rest := Split(s[1..]);
      [[s[0]] + rest[0]] + rest[1..]
  }

  /** `joinToString(",")`. */
  function Join(ps: seq<string>): string
  {
    if |ps| == 0 then ""
    else if |ps| == 1 then ps[0]
    else ps[0] + "," + Join(ps[1..])
  }

  lemma {:induction false} SplitNoComma(a: string)
    requires ',' !in a
    ensures Split(a) == [a]
  {
    if |a| > 0 {
      SplitNoComma(a[1..]);
      assert [a[0]] + a[1..] == a;
    }
  }

  lemma {:induction false} SplitAfterPiece(a: string, b: string)
    requires ',' !in a
    ensures Split(a + "," + b) == [a] + Split(b)
  {
    if |a| == 0 {
      assert a + "," + b == [','] + b;
      assert (a + "," + b)[1..] == b;
    } else {
      SplitAfterPiece(a[1..], b);
      assert (a + "," + b)[1..] == a[1..] + "," + b;
      assert [a[0]] + a[1..] == a;
    }
  }

  /** Splitting undoes joining when no piece holds a comma. */
  lemma {:induction false} SplitJoin(ps: seq<string>)
    requires |ps| >= 1
    requires forall p :: p in ps ==> ',' !in p
    ensures Split(Join(ps)) == ps
  {
    if |ps| == 1 {
      SplitNoComma(ps[0]);
    } else {
      SplitAfterPiece(ps[0], Join(ps[1..]));
      SplitJoin(ps[1..]);
      assert [ps[0]] + ps[1..] == ps;
    }
  }

  /** `map { it.trim() }`. */
  function TrimAll(ps: seq<string>): (r: seq<string>)
    ensures |r| == |ps| && forall i :: 0 <= i < |ps| ==> r[i] == Trim(ps[i])
  {
    if |ps| == 0 then [] else [Trim(ps[0])] + TrimAll(ps[1..])
  }

  /** `isNotEmpty()`. */
  predicate NotEmpty(t: string)
  {
    t != []
  }

  /** Trims every piece and drops the empty ones, keeping their order. */
  function TrimAndDropEmpty(ps: seq<string>): (r: seq<string>)
    ensures forall t :: t in r ==> t != [] && IsTrimmed(t)
    ensures |r| <= |ps|
  {
    if |ps| == 0 then []
    else
      var t := Trim(ps[0]);
      var rest := TrimAndDropEmpty(ps[1..]);
      if t == [] then rest
      else
        assert IsTrimmed(t) && forall u :: u in [t] + rest ==> u == t || u in rest;
        [t] + rest
  }

  /** `split(",").map { it.trim() }.filter { it.isNotEmpty() }`: the tag list
      of the create and edit forms. */
  function ParseTags(s: string): seq<string>
  {
    TrimAndDropEmpty(Split(s))
  }

  /** The pieces kept are exactly the trimmed pieces that `isNotEmpty`
      accepts, in their order. */
  lemma {:induction false} TrimAndDropEmptyIsFilter(ps: seq<string>)
    ensures TrimAndDropEmpty(ps) == Lists.Filter(TrimAll(ps), NotEmpty)
  {
    if |ps| > 0 {
      TrimAndDropEmptyIsFilter(ps[1..]);
      assert TrimAll(ps)[1..] == TrimAll(ps[1..]);
    }
  }

  /** A list of tags that the tag text field can represent faithfully. */
  predicate WellFormedTags(tags: seq<string>)
  {
    forall t :: t in tags ==> t != [] && IsTrimmed(t) && ',' !in t
  }

  lemma {:induction false} TrimAndDropEmptyKeeps(ps: seq<string>)
    requires forall p :: p in ps ==> p != [] && IsTrimmed(p)
    ensures TrimAndDropEmpty(ps) == ps
  {
    if |ps| > 0 {
      assert ps[0] in ps;
      KeepsTrimmedHead(ps);
      var rest := ps[1..];
      assert forall p :: p in rest ==> p in ps;
      TrimAndDropEmptyKeeps(rest);
      assert [ps[0]] + rest == ps;
    }
  }

  /** A non-empty trimmed first piece is kept as it is. */
  lemma KeepsTrimmedHead(ps: seq<string>)
    requires |ps| > 0 && ps[0] != [] && IsTrimmed(ps[0])
    ensures TrimAndDropEmpty(ps) == [ps[0]] + TrimAndDropEmpty(ps[1..])
  {
    TrimOfTrimmed(ps[0]);
  }

  /** Every parsed tag is non-empty, trimmed and comma-free. */
  lemma ParseTagsWellFormed(s: string)
    ensures WellFormedTags(ParseTags(s))
  {
    var ps := Split(s);
    forall t | t in TrimAndDropEmpty(ps) ensures ',' !in t {
      TrimmedPieceHasNoComma(ps, t);
    }
  }

  lemma {:induction false} TrimmedPieceHasNoComma(ps: seq<string>, t: string)
    requires forall p :: p in ps ==> ',' !in p
    requires t in TrimAndDropEmpty(ps)
    ensures ',' !in t
  {
    if |ps| > 0 {
      var u := Trim(ps[0]);
      if t == u && u != [] {
        assert ',' !in ps[0];
      } else {
        assert forall p :: p in ps[1..] ==> p in ps;
        TrimmedPieceHasNoComma(ps[1..], t);
      }
    }
  }

  /** The edit form shows `joinToString(",")` of the tags and saves its parse:
      an untouched field gives back exactly the tags it started from. */
  lemma ParseJoinedTags(tags: seq<string>)
    requires WellFormedTags(tags)
    ensures ParseTags(Join(tags)) == tags
  {
    if |tags| == 0 {
      assert Split("") == [""];
      assert Trim("") == [];
    } else {
      SplitJoin(tags);
      TrimAndDropEmptyKeeps(tags);
    }
  }

  // ----- decimal numbers -----

  /** The first code unit of the run of ten decimal digits (Unicode general
      category Nd) that `n` would belong to: the largest run start not above
      `n`. The runs are those of the Basic Multilingual Plane; a `Char` is one
      UTF-16 code unit, so the digits outside it are never single `Char`s. */
  function DigitRunStart(n: int): int
  {
    if n < 0x0660 then 0x0030
    else if n < 0x06F0 then 0x0660
    else if n < 0x07C0 then 0x06F0
    else if n < 0x0966 then 0x07C0
    else if n < 0x09E6 then 0x0966
    else if n < 0x0A66 then 0x09E6
    else if n < 0x0AE6 then 0x0A66
    else if n < 0x0B66 then 0x0AE6
    else if n < 0x0BE6 then 0x0B66
    else if n < 0x0C66 then 0x0BE6
    else if n < 0x0CE6 then 0x0C66
    else if n < 0x0D66 then 0x0CE6
    else if n < 0x0DE6 then 0x0D66
    else if n < 0x0E50 then 0x0DE6
    else if n < 0x0ED0 then 0x0E50
    else if n < 0x0F20 then 0x0ED0
    else if n < 0x1040 then 0x0F20
    else if n < 0x1090 then 0x1040
    else if n < 0x17E0 then 0x1090
    else if n < 0x1810 then 0x17E0
    else if n < 0x1946 then 0x1810
    else if n < 0x19D0 then 0x1946
    else if n < 0x1A80 then 0x19D0
    else if n < 0x1A90 then 0x1A80
    else if n < 0x1B50 then 0x1A90
    else if n < 0x1BB0 then 0x1B50
    else if n < 0x1C40 then 0x1BB0
    else if n < 0x1C50 then 0x1C40
    else if n < 0xA620 then 0x1C50
    else if n < 0xA8D0 then 0xA620
    else if n < 0xA900 then 0xA8D0
    else if n < 0xA9D0 then 0xA900
    else if n < 0xA9F0 then 0xA9D0
    else if n < 0xAA50 then 0xA9F0
    else if n < 0xABF0 then 0xAA50
    else if n < 0xFF10 then 0xABF0
    else 0xFF10
  }

  /** `Char.isDigit`, and the digits `toIntOrNull` accepts
      (`Character.digit(c, 10)`): a decimal digit of any script. */
  predicate IsDigit(c: char)
  {
    var z := DigitRunStart(c as int);
    z <= c as int < z + 10
  }

  /** An ASCII digit, as the number formatters write. */
  predicate IsAsciiDigit(c: char) { '0' <= c <= '9' }

  function DigitValue(c: char): (d: nat)
    requires IsDigit(c)
    ensures d < 10
    ensures IsAsciiDigit(c) ==> d == c as int - '0' as int
  {
    c as int - DigitRunStart(c as int)
  }

  function DigitChar(d: nat): (c: char)
    requires d < 10
    ensures IsAsciiDigit(c) && IsDigit(c) && DigitValue(c) == d
  {
    ('0' as int + d) as char
  }

  /** The value of a non-empty run of decimal digits of any script. */
  function DigitsValue(s: string): (r: Option<nat>)
    ensures r.Some? <==> |s| > 0 && forall i :: 0 <= i < |s| ==> IsDigit(s[i])
  {
    if |s| == 0 then None
    else if !IsDigit(s[|s| - 1]) then None
    else if |s| == 1 then Some(DigitValue(s[0]))
    else
      match DigitsValue(s[..|s| - 1])
      case None => None
      case Some(v) => Some(v * 10 + DigitValue(s[|s| - 1]))
  }

  /** The shortest decimal rendering of a natural number. */
  function ShowNat(n: nat): (s: string)
    ensures |s| >= 1 && forall i :: 0 <= i < |s| ==> IsAsciiDigit(s[i]) && IsDigit(s[i])
  {
    if n < 10 then [DigitChar(n)] else ShowNat(n / 10) + [DigitChar(n % 10)]
  }

  lemma {:induction false} DigitsOfShowNat(n: nat)
    ensures DigitsValue(ShowNat(n)) == Some(n)
  {
    if n >= 10 {
      DigitsOfShowNat(n / 10);
      var s := ShowNat(n);
      assert s[..|s| - 1] == ShowNat(n / 10);
    }
  }

  function ShowInt(n: int): string
  {
    if n < 0 then "-" + ShowNat(-n) else ShowNat(n)
  }

  const INT_MIN: int := -0x8000_0000
  const INT_MAX: int := 0x7FFF_FFFF
  const LONG_MIN: int := -0x8000_0000_0000_0000
  const LONG_MAX: int := 0x7FFF_FFFF_FFFF_FFFF
  const TWO_POW_32: int := 0x1_0000_0000

  /** Two's-complement wrap-around of `Int` arithmetic. */
  function Wrap32(x: int): (r: int)
    ensures INT_MIN <= r <= INT_MAX
    ensures (r - x) % TWO_POW_32 == 0
    ensures INT_MIN <= x <= INT_MAX ==> r == x
  {
    (x - INT_MIN) % TWO_POW_32 + INT_MIN
  }

  /** Numbers that agree modulo 2^32 wrap to the same `Int`. */
  lemma WrapCongruent(x: int, y: int)
    requires (x - y) % TWO_POW_32 == 0
    ensures Wrap32(x) == Wrap32(y)
  {
    var k := (x - y) / TWO_POW_32;
    assert x - INT_MIN == (y - INT_MIN) + k * TWO_POW_32;
    ModShift(y - INT_MIN, k);
  }

  lemma ModShift(a: int, k: int)
    ensures (a + k * TWO_POW_32) % TWO_POW_32 == a % TWO_POW_32
  {
  }

  /** Numbers less than 2^32 apart wrap to the same `Int` only if equal. */
  lemma WrapInjectiveOnWindow(a: int, b: int)
    requires 0 <= b - a < TWO_POW_32
    requires Wrap32(a) == Wrap32(b)
    ensures a == b
  {
    var x, y := a - INT_MIN, b - INT_MIN;
    var qx, qy := x / TWO_POW_32, y / TWO_POW_32;
    assert x == qx * TWO_POW_32 + x % TWO_POW_32;
    assert y == qy * TWO_POW_32 + y % TWO_POW_32;
    assert x % TWO_POW_32 == y % TWO_POW_32;
    assert y - x == (qy - qx) * TWO_POW_32;
  }


  /** Kotlin's `toIntOrNull`/`toLongOrNull`: an optional sign, at least one
      decimal digit of any script, and a value inside [lo, hi]; anything else
      is null. */
  function ParseInteger(s: string, lo: int, hi: int): (r: Option<int>)
    ensures r.Some? ==> lo <= r.value <= hi
  {
    if |s| == 0 then None
    else
      var signed := s[0] == '-' || s[0] == '+';
      var digits := if signed then s[1..] else s;
      match DigitsValue(digits)
      case None => None
      case Some(d) =>
        var v: int := if s[0] == '-' then 0 - d as int else d;
        if lo <= v <= hi then Some(v) else None
  }

  function ToIntOrNull(s: string): Option<int> { ParseInteger(s, INT_MIN, INT_MAX) }

  function ToLongOrNull(s: string): Option<int> { ParseInteger(s, LONG_MIN, LONG_MAX) }

  /** Parsing undoes rendering for every value in range. */
  lemma ParseShowInt(n: int, lo: int, hi: int)
    requires lo <= n <= hi
    ensures ParseInteger(ShowInt(n), lo, hi) == Some(n)
  {
    var s := ShowInt(n);
    if n < 0 {
      DigitsOfShowNat(-n);
      assert s[0] == '-' && s[1..] == ShowNat(-n);
      ParseNegative(s, lo, hi, -n);
    } else {
      DigitsOfShowNat(n);
      ParseUnsigned(s, lo, hi, n);
    }
  }

  lemma ParseNegative(s: string, lo: int, hi: int, d: nat)
    requires |s| > 0 && s[0] == '-' && DigitsValue(s[1..]) == Some(d) && lo <= -(d as int) <= hi
    ensures ParseInteger(s, lo, hi) == Some(-(d as int))
  {
  }

  lemma ParseUnsigned(s: string, lo: int, hi: int, d: nat)
    requires |s| > 0 && IsAsciiDigit(s[0]) && DigitsValue(s) == Some(d) && lo <= d <= hi
    ensures ParseInteger(s, lo, hi) == Some(d)
  {
  }

  /** A text with no digit at all never parses. */
  lemma NoDigitNoInteger(s: string, lo: int, hi: int)
    requires forall i :: 0 <= i < |s| ==> !IsDigit(s[i])
    ensures ParseInteger(s, lo, hi) == None
  {
    if |s| > 0 {
      assert |s[1..]| > 0 ==> !IsDigit(s[1..][0]);
    }
  }

  /** Digits of other scripts parse like ASCII ones: the Arabic-Indic digits
      four and two, the fullwidth digits four and two, and a mix of the
      Devanagari digit one with an ASCII zero. */
  lemma ScriptDigitsParse()
    ensures ToIntOrNull([0x0664 as char, 0x0662 as char]) == Some(42)
    ensures ToIntOrNull(['-', 0xFF14 as char, 0xFF12 as char]) == Some(-42)
    ensures ToLongOrNull([0x0967 as char, '0']) == Some(10)
  {
    var a := [0x0664 as char, 0x0662 as char];
    assert a[..1] == [0x0664 as char];
    assert DigitValue(a[0]) == 4 && DigitValue(a[1]) == 2;
    assert DigitsValue(a[..1]) == Some(4);
    assert DigitsValue(a) == Some(42);
    var b := [0xFF14 as char, 0xFF12 as char];
    assert ['-', 0xFF14 as char, 0xFF12 as char][1..] == b && b[..1] == [0xFF14 as char];
    assert DigitValue(b[0]) == 4 && DigitValue(b[1]) == 2;
    assert DigitsValue(b[..1]) == Some(4);
    assert DigitsValue(b) == Some(42);
    var c := [0x0967 as char, '0'];
    assert c[..1] == [0x0967 as char];
    assert DigitValue(c[0]) == 1 && DigitValue(c[1]) == 0;
    assert DigitsValue(c[..1]) == Some(1);
    assert DigitsValue(c) == Some(10);
  }

  /** `String.format("%02d", n)` in a locale whose digits are ASCII: at least
      two digits, zero-padded. */
  function Pad2(n: nat): (s: string)
    ensures |s| >= 2 && DigitsValue(s) == Some(n)
    ensures n < 100 ==> |s| == 2
    ensures forall i :: 0 <= i < |s| ==> IsAsciiDigit(s[i])
  {
    DigitsOfShowNat(n);
    if n < 10 then
      assert DigitsValue(['0']) == Some(0);
      ['0', DigitChar(n)]
    else ShowNat(n)
  }

  function StartsWith(s: string, prefix: string): bool
  {
    |prefix| <= |s| && s[..|prefix|] == prefix
  }
}
