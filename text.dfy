/** The string operations of JavaScript that the components rely on:
    `trim`, `toUpperCase`/`toLowerCase`, `String(n)` for integers,
    `Number(s)` and `parseInt(s)`. */
module Text {
  import opened Maybe

  // ---------------------------------------------------------------------------
  // Whitespace and trim
  // ---------------------------------------------------------------------------

  /** The characters `String.prototype.trim` strips: the WhiteSpace and
      LineTerminator productions of ECMA-262 (sections 12.2 and 12.3), i.e.
      tab, line feed, vertical tab, form feed, carriage return, space,
      no-break space, the Ogham space mark, U+2000 to U+200A, the line and
      paragraph separators, the narrow no-break space, the medium
      mathematical space, the ideographic space and the byte order mark. */
  predicate IsSpace(c: char) {
    || c == ' ' || '\t' <= c <= '\r'
    || c == '\U{00A0}' || c == '\U{1680}'
    || '\U{2000}' <= c <= '\U{200A}'
    || c == '\U{2028}' || c == '\U{2029}' || c == '\U{202F}' || c == '\U{205F}'
    || c == '\U{3000}' || c == '\U{FEFF}'
  }

  predicate AllSpace(s: string) {
    forall i :: 0 <= i < |s| ==> IsSpace(s[i])
  }

  /** Number of whitespace characters at the front of `s`: the longest
      all-whitespace prefix. */
  function LeadingSpaces(s: string): (k: nat)
    ensures k <= |s|
    ensures k < |s| ==> !IsSpace(s[k])
  {
    if s == [] || !IsSpace(s[0]) then 0 else 1 + LeadingSpaces(s[1..])
  }

  /** Everything before the count is whitespace. */
  lemma {:induction false} LeadingAllSpace(s: string)
    ensures AllSpace(s[..LeadingSpaces(s)])
  {
    var head := s[..LeadingSpaces(s)];
    forall i | 0 <= i < |head|
      ensures IsSpace(head[i])
    {
      LeadingSpaceAt(s, i);
    }
  }

  lemma {:induction false} LeadingSpaceAt(s: string, i: int)
    requires 0 <= i < LeadingSpaces(s)
    ensures IsSpace(s[i])
  {
    if i > 0 {
      assert LeadingSpaces(s) == 1 + LeadingSpaces(s[1..]);
      LeadingSpaceAt(s[1..], i - 1);
    }
  }

  /** Number of whitespace characters at the back of `s`: the longest
      all-whitespace suffix. */
  function TrailingSpaces(s: string): (k: nat)
    ensures k <= |s|
    ensures k < |s| ==> !IsSpace(s[|s| - k - 1])
  {
    if s == [] || !IsSpace(s[|s| - 1]) then 0 else 1 + TrailingSpaces(s[..|s| - 1])
  }

  /** Everything after the last non-whitespace character is whitespace. */
  lemma {:induction false} TrailingAllSpace(s: string)
    ensures AllSpace(s[|s| - TrailingSpaces(s)..])
  {
    var tail := s[|s| - TrailingSpaces(s)..];
    forall i | 0 <= i < |tail|
      ensures IsSpace(tail[i])
    {
      TrailingSpaceAt(s, |s| - TrailingSpaces(s) + i);
    }
  }

  lemma {:induction false} TrailingSpaceAt(s: string, i: int)
    requires |s| - TrailingSpaces(s) <= i < |s|
    ensures IsSpace(s[i])
  {
    if i < |s| - 1 {
      var init := s[..|s| - 1];
      assert TrailingSpaces(s) == 1 + TrailingSpaces(init);
      TrailingSpaceAt(init, i);
      assert init[i] == s[i];
    }
  }

  function TrimStart(s: string): string {
    s[LeadingSpaces(s)..]
  }

  function TrimEnd(s: string): string {
    s[..|s| - TrailingSpaces(s)]
  }

  /** `s.trim()`: the result neither starts nor ends with whitespace. */
  function Trim(s: string): (r: string)
    ensures r == "" || (!IsSpace(r[0]) && !IsSpace(r[|r| - 1]))
  {
    TrimEnd(TrimStart(s))
  }

  /** What trimming keeps is what lies between a whitespace prefix and a
      whitespace suffix of `s`. */
  lemma {:induction false} TrimBetweenSpaces(s: string)
    ensures exists i, j :: 0 <= i <= j <= |s| && Trim(s) == s[i..j] && AllSpace(s[..i]) && AllSpace(s[j..])
  {
    var t := TrimStart(s);
    var r := TrimEnd(t);
    var i := LeadingSpaces(s);
    var j := i + |r|;
    LeadingAllSpace(s);
    TrailingAllSpace(t);
    assert r == s[i..j];
    assert s[j..] == t[|r|..];
  }

  /** A string trims to "" exactly when it is made of whitespace only. */
  lemma {:induction false} TrimEmptyIffAllSpace(s: string)
    ensures Trim(s) == "" <==> AllSpace(s)
  {
    var t := TrimStart(s);
    if AllSpace(s) {
      AllSpaceLeading(s);
    } else {
      LeadingAllSpace(s);
      assert LeadingSpaces(s) < |s|;
      assert !IsSpace(t[0]);
      TrailingAllSpace(t);
      assert TrailingSpaces(t) < |t|;
    }
  }

  /** A string made of whitespace only is all leading whitespace. */
  lemma {:induction false} AllSpaceLeading(s: string)
    requires AllSpace(s)
    ensures LeadingSpaces(s) == |s|
  {
    if s != [] {
      AllSpaceLeading(s[1..]);
    }
  }

  /** The whitespace prefix ends at the first non-whitespace character. */
  lemma {:induction false} LeadingSpacesAt(s: string, k: nat)
    requires k < |s| && AllSpace(s[..k]) && !IsSpace(s[k])
    ensures LeadingSpaces(s) == k
  {
    if k > 0 {
      assert IsSpace(s[..k][0]);
      assert s[1..][..k - 1] == s[..k][1..];
      LeadingSpacesAt(s[1..], k - 1);
    }
  }

  /** The whitespace suffix starts after the last non-whitespace character. */
  lemma {:induction false} TrailingSpacesAt(s: string, k: nat)
    requires k < |s| && AllSpace(s[|s| - k..]) && !IsSpace(s[|s| - k - 1])
    ensures TrailingSpaces(s) == k
  {
    if k > 0 {
      var init := s[..|s| - 1];
      assert IsSpace(s[|s| - k..][k - 1]);
      assert init[|init| - (k - 1)..] == s[|s| - k..][..k - 1];
      assert init[|init| - (k - 1) - 1] == s[|s| - k - 1];
      TrailingSpacesAt(init, k - 1);
    }
  }

  /** Trim removes exactly the whitespace before the first and after the last
      non-whitespace character. */
  lemma {:induction false} TrimKeepsCore(s: string, i: nat, j: nat)
    requires i < j <= |s| && AllSpace(s[..i]) && AllSpace(s[j..])
    requires !IsSpace(s[i]) && !IsSpace(s[j - 1])
    ensures Trim(s) == s[i..j]
  {
    LeadingSpacesAt(s, i);
    var t := s[i..];
    assert t[|t| - (|s| - j)..] == s[j..];
    TrailingSpacesAt(t, |s| - j);
  }

  /** Trimming twice changes nothing more. */
  lemma {:induction false} TrimIdempotent(s: string)
    ensures Trim(Trim(s)) == Trim(s)
  {
    var r := Trim(s);
    if r != "" {
      assert LeadingSpaces(r) == 0;
      assert TrimStart(r) == r;
      assert TrailingSpaces(r) == 0;
    }
  }

  // ---------------------------------------------------------------------------
  // Case mapping
  // ---------------------------------------------------------------------------

  function UpperChar(c: char): char {
    if 'a' <= c <= 'z' then (c as int - 32) as char else c
  }

  function LowerChar(c: char): char {
    if 'A' <= c <= 'Z' then (c as int + 32) as char else c
  }

  /** `s.toUpperCase()` on the ASCII letters. */
  function ToUpper(s: string): (r: string)
    ensures |r| == |s|
    ensures forall i :: 0 <= i < |s| ==> r[i] == UpperChar(s[i])
  {
    seq(|s|, i requires 0 <= i < |s| => UpperChar(s[i]))
  }

  /** `s.toLowerCase()` on the ASCII letters. */
  function ToLower(s: string): (r: string)
    ensures |r| == |s|
    ensures forall i :: 0 <= i < |s| ==> r[i] == LowerChar(s[i])
  {
    seq(|s|, i requires 0 <= i < |s| => LowerChar(s[i]))
  }

  predicate NoLowerLetter(s: string) {
    forall i :: 0 <= i < |s| ==> !('a' <= s[i] <= 'z')
  }

  /** On text without lower-case letters, lower-casing loses nothing. */
  lemma {:induction false} LowerInjective(s: string, t: string)
    requires NoLowerLetter(s) && NoLowerLetter(t) && ToLower(s) == ToLower(t)
    ensures s == t
  {
    forall i | 0 <= i < |s|
      ensures s[i] == t[i]
    {
      assert ToLower(s)[i] == ToLower(t)[i];
    }
  }

  /** Lower-casing forgets any earlier upper-casing. */
  lemma {:induction false} LowerOfUpper(s: string)
    ensures ToLower(ToUpper(s)) == ToLower(s)
  {
  }

  /** Lower-casing twice is lower-casing once. */
  lemma {:induction false} LowerIdempotent(s: string)
    ensures ToLower(ToLower(s)) == ToLower(s)
  {
  }

  /** Case mapping works character by character, so it distributes over
      concatenation. */
  lemma {:induction false} LowerConcat(a: string, b: string)
    ensures ToLower(a + b) == ToLower(a) + ToLower(b)
  {
  }

  lemma {:induction false} TrimCommutesWithUpper(s: string)
    ensures Trim(ToUpper(s)) == ToUpper(Trim(s))
  {
    var u := ToUpper(s);
    UpperKeepsSpaces(s);
    SameSpacesTrimAlike(s, u);
    var L := LeadingSpaces(s);
    var e := |s| - TrailingSpaces(s[L..]);
    UpperSlice(s, L, e);
  }

  lemma {:induction false} UpperSlice(s: string, i: nat, j: nat)
    requires i <= j <= |s|
    ensures ToUpper(s[i..j]) == ToUpper(s)[i..j]
  {
    assert forall k :: 0 <= k < j - i ==> s[i..j][k] == s[i + k];
  }

  lemma {:induction false} TrimCommutesWithLower(s: string)
    ensures Trim(ToLower(s)) == ToLower(Trim(s))
  {
    var u := ToLower(s);
    LowerKeepsSpaces(s);
    SameSpacesTrimAlike(s, u);
    var L := LeadingSpaces(s);
    var e := |s| - TrailingSpaces(s[L..]);
    LowerSlice(s, L, e);
  }

  lemma {:induction false} LowerSlice(s: string, i: nat, j: nat)
    requires i <= j <= |s|
    ensures ToLower(s[i..j]) == ToLower(s)[i..j]
  {
    assert forall k :: 0 <= k < j - i ==> s[i..j][k] == s[i + k];
  }

  lemma {:induction false} UpperKeepsSpaces(s: string)
    ensures forall i :: 0 <= i < |s| ==> (IsSpace(s[i]) <==> IsSpace(ToUpper(s)[i]))
  {
    forall i | 0 <= i < |s|
      ensures IsSpace(s[i]) <==> IsSpace(ToUpper(s)[i])
    {
      SpaceCaseInvariant(s[i]);
    }
  }

  lemma {:induction false} LowerKeepsSpaces(s: string)
    ensures forall i :: 0 <= i < |s| ==> (IsSpace(s[i]) <==> IsSpace(ToLower(s)[i]))
  {
    forall i | 0 <= i < |s|
      ensures IsSpace(s[i]) <==> IsSpace(ToLower(s)[i])
    {
      SpaceCaseInvariant(s[i]);
    }
  }

  /** Two strings with whitespace at the same positions are trimmed to the
      same slice. */
  lemma {:induction false} SameSpacesTrimAlike(a: string, b: string)
    requires |a| == |b|
    requires forall i :: 0 <= i < |a| ==> (IsSpace(a[i]) <==> IsSpace(b[i]))
    ensures var L := LeadingSpaces(a); var e := |a| - TrailingSpaces(a[L..]);
      && L <= e <= |a| && Trim(a) == a[L..e] && Trim(b) == b[L..e]
  {
    SameSpacesSameTrim(a, b);
    TrimBounds(a);
    TrimBounds(b);
  }

  /** Trim keeps the characters between the leading and the trailing
      whitespace runs. */
  lemma {:induction false} TrimBounds(s: string)
    ensures var L := LeadingSpaces(s); var e := |s| - TrailingSpaces(s[L..]);
      L <= e <= |s| && Trim(s) == s[L..e]
  {
    var L := LeadingSpaces(s);
    var t := s[L..];
    var T := TrailingSpaces(t);
    assert TrimStart(s) == t;
    assert TrimEnd(t) == s[L..|s| - T];
  }

  lemma {:induction false} SpaceCaseInvariant(c: char)
    ensures IsSpace(UpperChar(c)) == IsSpace(c)
    ensures IsSpace(LowerChar(c)) == IsSpace(c)
  {
  }

  /** Two strings whose whitespace sits at the same positions are trimmed at
      the same positions. */
  lemma {:induction false} SameSpacesSameTrim(a: string, b: string)
    requires |a| == |b|
    requires forall i :: 0 <= i < |a| ==> (IsSpace(a[i]) <==> IsSpace(b[i]))
    ensures LeadingSpaces(a) == LeadingSpaces(b)
    ensures TrailingSpaces(a[LeadingSpaces(a)..]) == TrailingSpaces(b[LeadingSpaces(b)..])
  {
    SameSpacesSameLeading(a, b);
    SameSpacesSameTrailing(a[LeadingSpaces(a)..], b[LeadingSpaces(b)..]);
  }

  lemma {:induction false} SameSpacesSameLeading(a: string, b: string)
    requires |a| == |b|
    requires forall i :: 0 <= i < |a| ==> (IsSpace(a[i]) <==> IsSpace(b[i]))
    ensures LeadingSpaces(a) == LeadingSpaces(b)
  {
    if a != [] && IsSpace(a[0]) {
      SameSpacesSameLeading(a[1..], b[1..]);
    }
  }

  lemma {:induction false} SameSpacesSameTrailing(a: string, b: string)
    requires |a| == |b|
    requires forall i :: 0 <= i < |a| ==> (IsSpace(a[i]) <==> IsSpace(b[i]))
    ensures TrailingSpaces(a) == TrailingSpaces(b)
  {
    if a != [] && IsSpace(a[|a| - 1]) {
      SameSpacesSameTrailing(a[..|a| - 1], b[..|b| - 1]);
    }
  }

  // ---------------------------------------------------------------------------
  // Decimal digits: String(n), Number(s), parseInt(s)
  // ---------------------------------------------------------------------------

  predicate IsDigit(c: char) {
    '0' <= c <= '9'
  }

  predicate AllDigits(s: string) {
    forall i :: 0 <= i < |s| ==> IsDigit(s[i])
  }

  function DigitChar(d: nat): (c: char)
    requires d < 10
    ensures IsDigit(c)
  {
    ('0' as int + d) as char
  }

  function DigitValue(c: char): nat
    requires IsDigit(c)
  {
    c as int - '0' as int
  }

  /** Value of a run of decimal digits, most significant first. */
  function DigitsValue(s: string): nat
    requires AllDigits(s)
  {
    if s == [] then 0 else DigitsValue(s[..|s| - 1]) * 10 + DigitValue(s[|s| - 1])
  }

  /** A property key JavaScript treats as an array index: the canonical
      numeral (no leading zero) of an integer below 2^32 - 1. `Object.entries`
      lists such keys first, in ascending numeric order, and every other
      string key in the order it was first set. */
  predicate IsArrayIndexKey(s: string) {
    s != [] && AllDigits(s) && (|s| == 1 || s[0] != '0') && DigitsValue(s) < 0xFFFF_FFFF
  }

  /** `String(n)` for a non-negative integer: the shortest decimal numeral. */
  function NatToString(n: nat): (s: string)
    ensures 1 <= |s|
    ensures AllDigits(s)
    ensures n < 10 <==> |s| == 1
  {
    if n < 10 then [DigitChar(n)] else NatToString(n / 10) + [DigitChar(n % 10)]
  }

  /** `String(i)` for an integer. */
  function IntToString(i: int): (s: string)
    ensures s != ""
  {
    if i < 0 then "-" + NatToString(-i) else NatToString(i)
  }

  /** Reading back the numeral gives the number again. */
  lemma {:induction false} NatToStringRoundTrip(n: nat)
    ensures DigitsValue(NatToString(n)) == n
  {
    if n >= 10 {
      NatToStringRoundTrip(n / 10);
      var s := NatToString(n);
      assert s[..|s| - 1] == NatToString(n / 10);
    }
  }

  /** `Number(s)` on the strings a form field holds: surrounding whitespace is
      ignored, the empty string is 0, an optionally signed run of decimal
      digits is its value, and anything else is `NaN` (`None`). */
  function JsNumber(s: string): Option<int> {
    NumberOfTrimmed(Trim(s))
  }

  /** `Number` on a string without surrounding whitespace. */
  function NumberOfTrimmed(t: string): Option<int> {
    if t == "" then Some(0)
    else if (t[0] == '-' || t[0] == '+') && |t| > 1 && AllDigits(t[1..]) then
      var v: int := DigitsValue(t[1..]);
      Some(if t[0] == '-' then -v else v)
    else if AllDigits(t) then Some(DigitsValue(t))
    else None
  }

  /** Length of the run of digits at the front of `s`. */
  function DigitPrefix(s: string): (k: nat)
    ensures k <= |s|
    ensures AllDigits(s[..k])
    ensures k < |s| ==> !IsDigit(s[k])
  {
    if s == [] || !IsDigit(s[0]) then 0
    else
      var k := 1 + DigitPrefix(s[1..]);
      assert s[..k] == [s[0]] + s[1..][..k - 1];
      k
  }

  /** `parseInt(s)` with no radix: leading whitespace is skipped and an
      optional sign is read; then a `0x` or `0X` prefix selects base 16 and
      the longest run of hexadecimal digits after it is read, and otherwise
      the longest run of decimal digits is read. No digit at all gives `NaN`
      (`None`). */
  function JsParseInt(s: string): Option<int> {
    ParseIntFrom(TrimStart(s))
  }

  /** `parseInt` once the leading whitespace is skipped. */
  function ParseIntFrom(t: string): Option<int> {
    var negative := |t| > 0 && t[0] == '-';
    var rest := if |t| > 0 && (t[0] == '-' || t[0] == '+') then t[1..] else t;
    match UnsignedParse(rest)
    case None => None
    case Some(v) =>
      var m: int := v;
      Some(if negative then -m else m)
  }

  /** `parseInt` after the sign. */
  function UnsignedParse(s: string): Option<nat> {
    if HexPrefixed(s) then
      var k := HexPrefix(s[2..]);
      if k == 0 then None else Some(HexDigitsValue(s[2..][..k]))
    else
      var k := DigitPrefix(s);
      if k == 0 then None else Some(DigitsValue(s[..k]))
  }

  predicate HexPrefixed(s: string) {
    |s| >= 2 && s[0] == '0' && (s[1] == 'x' || s[1] == 'X')
  }

  predicate IsHexDigit(c: char) {
    IsDigit(c) || 'a' <= c <= 'f' || 'A' <= c <= 'F'
  }

  predicate AllHexDigits(s: string) {
    forall i :: 0 <= i < |s| ==> IsHexDigit(s[i])
  }

  function HexDigitValue(c: char): (v: nat)
    requires IsHexDigit(c)
    ensures v < 16
  {
    if IsDigit(c) then DigitValue(c)
    else if 'a' <= c <= 'f' then c as int - 'a' as int + 10
    else c as int - 'A' as int + 10
  }

  /** Value of a run of hexadecimal digits, most significant first. */
  function HexDigitsValue(s: string): nat
    requires AllHexDigits(s)
  {
    if s == [] then 0 else HexDigitsValue(s[..|s| - 1]) * 16 + HexDigitValue(s[|s| - 1])
  }

  /** Length of the run of hexadecimal digits at the front of `s`. */
  function HexPrefix(s: string): (k: nat)
    ensures k <= |s|
    ensures AllHexDigits(s[..k])
    ensures k < |s| ==> !IsHexDigit(s[k])
  {
    if s == [] || !IsHexDigit(s[0]) then 0
    else
      var k := 1 + HexPrefix(s[1..]);
      assert s[..k] == [s[0]] + s[1..][..k - 1];
      k
  }

  /** `parseInt` reads a `0x` numeral in base 16, sign first; a prefix with
      no hexadecimal digit after it is `NaN`. */
  lemma {:induction false} ParseIntReadsHex()
    ensures JsParseInt("0x1A") == Some(26)
    ensures JsParseInt(" -0X10") == Some(-16)
    ensures JsParseInt("0x") == None
    ensures JsParseInt("0xg1") == None
  {
    HexRunExample();
    SignedHexExample();
    BarePrefixExample("0x");
    BarePrefixExample("0xg1");
  }

  lemma {:induction false} HexRunExample()
    ensures JsParseInt("0x1A") == Some(26)
  {
    var s := "0x1A";
    assert LeadingSpaces(s) == 0;
    assert TrimStart(s) == s;
    assert UnsignedParse(s) == Some(26) by {
      var h := s[2..];
      assert h == "1A" && h[..2] == h;
      HexPrefixIsLongest(h, 2);
      assert h[..1] == "1";
      assert HexDigitsValue(h[..1]) == 1;
    }
  }

  lemma {:induction false} SignedHexExample()
    ensures JsParseInt(" -0X10") == Some(-16)
  {
    var s := " -0X10";
    var t := s[1..];
    assert LeadingSpaces(t) == 0;
    assert TrimStart(s) == t;
    assert UnsignedParse(t[1..]) == Some(16) by {
      var h := t[1..][2..];
      assert h == "10" && h[..2] == h;
      HexPrefixIsLongest(h, 2);
      assert h[..1] == "1";
      assert HexDigitsValue(h[..1]) == 1;
    }
  }

  lemma {:induction false} BarePrefixExample(s: string)
    requires s == "0x" || s == "0xg1"
    ensures JsParseInt(s) == None
  {
    assert LeadingSpaces(s) == 0;
    assert TrimStart(s) == s;
    assert HexPrefix(s[2..]) == 0;
  }

  /** A hexadecimal run that ends at a non-hexadecimal character (or at the
      end) is the run `parseInt` reads in base 16. */
  lemma {:induction false} HexPrefixIsLongest(s: string, n: nat)
    requires n <= |s| && AllHexDigits(s[..n])
    requires n < |s| ==> !IsHexDigit(s[n])
    ensures HexPrefix(s) == n
  {
    if n > 0 {
      assert IsHexDigit(s[..n][0]);
      assert s[1..][..n - 1] == s[..n][1..];
      HexPrefixIsLongest(s[1..], n - 1);
    }
  }

  /** `Number(String(i)) === i`: the numeral of an integer reads back as that
      integer. */
  lemma {:induction false} NumberOfNumeral(i: int)
    ensures JsNumber(IntToString(i)) == Some(i)
  {
    NumeralTrimsToItself(i);
    NumeralReadsBack(i);
  }

  lemma {:induction false} NumeralTrimsToItself(i: int)
    ensures Trim(IntToString(i)) == IntToString(i)
  {
    var s := IntToString(i);
    var digits := NatToString(if i < 0 then -i else i);
    assert s == (if i < 0 then "-" + digits else digits);
    DigitNotSpace(digits[|digits| - 1]);
    assert s[|s| - 1] == digits[|digits| - 1];
    if i < 0 {
      assert !IsSpace(s[0]);
    } else {
      DigitNotSpace(s[0]);
    }
    NoEdgeSpaceTrimsToItself(s);
  }

  lemma {:induction false} NumeralReadsBack(i: int)
    ensures NumberOfTrimmed(IntToString(i)) == Some(i)
  {
    var s := IntToString(i);
    var digits := NatToString(if i < 0 then -i else i);
    NatToStringRoundTrip(if i < 0 then -i else i);
    if i < 0 {
      assert s == "-" + digits && s[1..] == digits;
    } else {
      assert s == digits && !(s[0] == '-' || s[0] == '+');
    }
  }

  /** No decimal digit is whitespace. */
  lemma {:induction false} DigitNotSpace(c: char)
    ensures IsDigit(c) ==> !IsSpace(c)
  {
  }

  lemma {:induction false} NoEdgeSpaceTrimsToItself(s: string)
    requires s != [] && !IsSpace(s[0]) && !IsSpace(s[|s| - 1])
    ensures Trim(s) == s
  {
    assert LeadingSpaces(s) == 0;
    assert TrimStart(s) == s;
    assert TrailingSpaces(s) == 0;
  }

  /** Where `Number(s)` reads a value from a non-blank `s`, `parseInt(s)` reads
      the same value. */
  lemma {:induction false} ParseIntAgreesWithNumber(s: string, n: int)
    requires JsNumber(s) == Some(n)
    requires !AllSpace(s)
    ensures JsParseInt(s) == Some(n)
  {
    TrimEmptyIffAllSpace(s);
    var t := TrimStart(s);
    var u := Trim(s);
    assert u == t[..|u|];
    TrailingAllSpace(t);
    ParseAgreesOnCore(t, u, n);
  }

  /** The core of the above: `t` is a numeral `u` followed by whitespace. */
  lemma {:induction false} ParseAgreesOnCore(t: string, u: string, n: int)
    requires u != "" && |u| <= |t| && u == t[..|u|] && AllSpace(t[|u|..])
    requires NumberOfTrimmed(u) == Some(n)
    ensures ParseIntFrom(t) == Some(n)
  {
    var w := t[|u|..];
    var signed := u[0] == '-' || u[0] == '+';
    var digits := if signed then u[1..] else u;
    var v: int := DigitsValue(digits);
    assert AllDigits(digits) && digits != [] && n == (if u[0] == '-' then -v else v) by {
      if signed {
        assert !AllDigits(u) by {
          assert !IsDigit(u[0]);
        }
      }
    }
    var rest := if signed then t[1..] else t;
    assert t[0] == u[0];
    assert rest == digits + w;
    DigitsThenSpaceNotHex(digits, w);
    DigitPrefixOfDigitsThenSpace(digits, w);
    assert rest[..DigitPrefix(rest)] == digits;
  }

  /** Digits followed by whitespace never carry the `0x` prefix. */
  lemma {:induction false} DigitsThenSpaceNotHex(d: string, w: string)
    requires d != [] && AllDigits(d) && AllSpace(w)
    ensures !HexPrefixed(d + w)
  {
    var s := d + w;
    if |s| >= 2 {
      if |d| >= 2 {
        assert s[1] == d[1] && IsDigit(d[1]);
      } else {
        assert s[1] == w[0] && IsSpace(w[0]);
      }
    }
  }

  lemma {:induction false} DigitPrefixOfDigitsThenSpace(d: string, w: string)
    requires d != [] && AllDigits(d) && AllSpace(w)
    ensures DigitPrefix(d + w) == |d|
  {
    var s := d + w;
    assert s[..|d|] == d;
    if w != [] {
      DigitNotSpace(w[0]);
      assert s[|d|] == w[0];
    }
    DigitPrefixIsLongest(s, |d|);
  }

  /** A digit run that ends at a non-digit (or at the end) is the digit prefix. */
  lemma {:induction false} DigitPrefixIsLongest(s: string, n: nat)
    requires n <= |s| && AllDigits(s[..n])
    requires n < |s| ==> !IsDigit(s[n])
    ensures DigitPrefix(s) == n
  {
    if n > 0 {
      assert IsDigit(s[..n][0]);
      assert s[1..][..n - 1] == s[..n][1..];
      DigitPrefixIsLongest(s[1..], n - 1);
    }
  }
}
