/** String helpers of the auth code: `String.prototype.trim` and the `\s`
    class of JavaScript regular expressions, ASCII digits and lower-casing. */
module Text {
  import opened Wrappers

  /** ECMAScript WhiteSpace and LineTerminator code points. */
  predicate IsSpace(c: char) {
    ('\U{9}' <= c <= '\U{D}') || c == ' ' || c == '\U{A0}' || c == '\U{1680}' ||
    ('\U{2000}' <= c <= '\U{200A}') || c == '\U{2028}' || c == '\U{2029}' ||
    c == '\U{202F}' || c == '\U{205F}' || c == '\U{3000}' || c == '\U{FEFF}'
  }

  predicate AllSpace(s: string) {
    forall i :: 0 <= i < |s| ==> IsSpace(s[i])
  }

  lemma AllSpaceConcat(a: string, b: string)
    requires AllSpace(a) && AllSpace(b)
    ensures AllSpace(a + b)
  {
    forall k | 0 <= k < |a + b| ensures IsSpace((a + b)[k]) {
      if k < |a| {
        assert (a + b)[k] == a[k];
      } else {
        assert (a + b)[k] == b[k - |a|];
      }
    }
  }

  function TrimStart(s: string): (r: string)
    ensures |r| <= |s| && r == s[|s| - |r|..]
    ensures AllSpace(s[..|s| - |r|])
    ensures r != [] ==> !IsSpace(r[0])
  {
    if s != [] && IsSpace(s[0]) then
      var r := TrimStart(s[1..]);
      assert s[..|s| - |r|] == [s[0]] + s[1..][..|s[1..]| - |r|];
      AllSpaceConcat([s[0]], s[1..][..|s[1..]| - |r|]);
      r
    else s
  }

  function TrimEnd(s: string): (r: string)
    ensures |r| <= |s| && r == s[..|r|]
    ensures AllSpace(s[|r|..])
    ensures r != [] ==> !IsSpace(r[|r| - 1])
  {
    if s != [] && IsSpace(s[|s| - 1]) then
      var r := TrimEnd(s[..|s| - 1]);
      assert s[|r|..] == s[..|s| - 1][|r|..] + [s[|s| - 1]];
      AllSpaceConcat(s[..|s| - 1][|r|..], [s[|s| - 1]]);
      r
    else s
  }

  /** `trim`: drops leading and trailing white space. */
  function Trim(s: string): string {
    TrimEnd(TrimStart(s))
  }

  /** `Trim` keeps a contiguous middle of its input, bordered only by white
      space, and that middle neither starts nor ends with white space. */
  lemma TrimMeaning(s: string)
    ensures exists i, j :: 0 <= i <= j <= |s| && Trim(s) == s[i..j] && AllSpace(s[..i]) && AllSpace(s[j..])
    ensures Trim(s) != [] ==> !IsSpace(Trim(s)[0]) && !IsSpace(Trim(s)[|Trim(s)| - 1])
  {
    var i, j := TrimBounds(s);
    TrimEnds(s);
  }

  /** Where the trimmed middle sits in `s`. */
  lemma TrimBounds(s: string) returns (i: nat, j: nat)
    ensures 0 <= i <= j <= |s| && Trim(s) == s[i..j] && AllSpace(s[..i]) && AllSpace(s[j..])
  {
    var a := TrimStart(s);
    i := |s| - |a|;
    var r := TrimEnd(a);
    j := i + |r|;
    assert r == s[i..j] by {
      assert a == s[i..];
      assert r == a[..|r|];
    }
    assert s[j..] == a[|r|..];
  }

  lemma TrimEnds(s: string)
    ensures Trim(s) != [] ==> !IsSpace(Trim(s)[0]) && !IsSpace(Trim(s)[|Trim(s)| - 1])
  {
    var a := TrimStart(s);
    var r := TrimEnd(a);
    if r != [] {
      assert r[0] == a[0];
    }
  }

  /** Only an all-white-space string trims to the empty string. */
  lemma TrimEmptyIff(s: string)
    ensures Trim(s) == [] <==> AllSpace(s)
  {
    var a := TrimStart(s);
    var i := |s| - |a|;
    if Trim(s) == [] {
      assert AllSpace(a[0..]);
      forall k | 0 <= k < |s| ensures IsSpace(s[k]) {
        assert s[k] == s[..i][k];
      }
    }
  }

  /** Trimming twice is trimming once. */
  lemma TrimIdempotent(s: string)
    ensures Trim(Trim(s)) == Trim(s)
  {
    TrimMeaning(s);
    var t := Trim(s);
    if t != [] {
      assert TrimStart(t) == t;
      assert TrimEnd(t) == t;
    }
  }

  /** A string with no white space at either end is its own trim. */
  lemma TrimOfTrimmed(s: string)
    requires s != [] ==> !IsSpace(s[0]) && !IsSpace(s[|s| - 1])
    ensures Trim(s) == s
  {
  }

  predicate IsDigit(c: char) {
    '0' <= c <= '9'
  }

  predicate AllDigits(s: string) {
    forall i :: 0 <= i < |s| ==> IsDigit(s[i])
  }

  /** The number a string of decimal digits denotes (`Number(digits)`). */
  function DigitsValue(s: string): (n: nat)
    requires AllDigits(s)
    decreases |s|
  {
    if s == [] then 0
    else DigitsValue(s[..|s| - 1]) * 10 + (s[|s| - 1] as int - '0' as int)
  }

  /** The decimal digits of `n`, without leading zeros. */
  function DecimalOf(n: nat): (s: string)
    ensures s != [] && AllDigits(s)
    decreases n
  {
    var d := ['0' + (n % 10) as char];
    if n < 10 then d else DecimalOf(n / 10) + d
  }

  /** Writing a number in decimal and reading it back gives the number. */
  lemma {:induction false} DecimalOfValue(n: nat)
    ensures DigitsValue(DecimalOf(n)) == n
    decreases n
  {
    var s := DecimalOf(n);
    if n >= 10 {
      DecimalOfValue(n / 10);
      assert s[..|s| - 1] == DecimalOf(n / 10);
    }
  }

  /** The length of the leading run of digits. */
  function LeadingDigits(s: string): (k: nat)
    ensures k <= |s| && AllDigits(s[..k])
    ensures k < |s| ==> !IsDigit(s[k])
  {
    if s == [] || !IsDigit(s[0]) then 0
    else
      var k := LeadingDigits(s[1..]) + 1;
      assert s[..k] == [s[0]] + s[1..][..k - 1];
      k
  }

  /** Every all-digit prefix followed by a non-digit (or nothing) is the leading run. */
  lemma {:induction false} LeadingDigitsOfSplit(d: string, u: string)
    requires AllDigits(d)
    requires u != [] ==> !IsDigit(u[0])
    ensures LeadingDigits(d + u) == |d|
  {
    if d != [] {
      assert (d + u)[1..] == d[1..] + u;
      LeadingDigitsOfSplit(d[1..], u);
    }
  }

  predicate IsUpper(c: char) {
    'A' <= c <= 'Z'
  }

  /** `toLowerCase` on one character: ASCII capitals become small letters. */
  function LowerChar(c: char): (r: char)
    ensures !IsUpper(r)
    ensures IsSpace(r) <==> IsSpace(c)
  {
    if IsUpper(c) then c - 'A' + 'a' else c
  }

  /** `toLowerCase` on ASCII letters; every other character is kept. */
  function ToLower(s: string): (r: string)
    ensures |r| == |s|
    ensures forall i :: 0 <= i < |s| ==> r[i] == LowerChar(s[i])
  {
    seq(|s|, i requires 0 <= i < |s| => LowerChar(s[i]))
  }

  /** Lower-casing leaves no upper-case letter and is idempotent. */
  lemma ToLowerMeaning(s: string)
    ensures forall i :: 0 <= i < |s| ==> !IsUpper(ToLower(s)[i])
    ensures ToLower(ToLower(s)) == ToLower(s)
  {
  }

  /** The position of the first occurrence of `c`. */
  function FirstIndex(s: string, c: char): (r: Option<nat>)
    ensures r.Some? ==> r.value < |s| && s[r.value] == c && c !in s[..r.value]
    ensures r.None? <==> c !in s
    decreases |s|
  {
    if s == [] then None
    else if s[0] == c then Some(0)
    else
      match FirstIndex(s[1..], c)
      case None => None
      case Some(k) =>
        assert s[..k + 1] == [s[0]] + s[1..][..k];
        Some(k + 1)
  }

  // ---------------------------------------------------------------- UTF-16

  /** The UTF-16 code units JavaScript stores for a character: the code point
      itself below U+10000, otherwise a high and a low surrogate. */
  function CodeUnits(c: char): (r: seq<int>)
    ensures 1 <= |r| <= 2
    ensures |r| == 2 <==> c as int >= 0x10000
    ensures |r| == 1 ==> 0 <= r[0] < 0xD800 || 0xE000 <= r[0] < 0x10000
    ensures |r| == 2 ==> 0xD800 <= r[0] < 0xDC00 <= r[1] < 0xE000
  {
    if (c as int) < 0x10000 then [c as int]
    else
      var v := c as int - 0x10000;
      [0xD800 + v / 0x400, 0xDC00 + v % 0x400]
  }

  /** The code point that one or two code units stand for. */
  function CodePointOf(u: seq<int>): int
    requires 1 <= |u| <= 2
  {
    if |u| == 1 then u[0] else 0x10000 + (u[0] - 0xD800) * 0x400 + (u[1] - 0xDC00)
  }

  /** Reading the code units back gives the character. */
  lemma CodeUnitsRoundTrip(c: char)
    ensures CodePointOf(CodeUnits(c)) == c as int
  {
    if (c as int) >= 0x10000 {
      var v := c as int - 0x10000;
      assert v == (v / 0x400) * 0x400 + v % 0x400;
    }
  }

  /** A string as JavaScript stores it: its UTF-16 code units. */
  function Utf16(s: string): (r: seq<int>)
    ensures |s| <= |r| <= 2 * |s|
    decreases |s|
  {
    if s == [] then [] else CodeUnits(s[0]) + Utf16(s[1..])
  }

  /** A string with no character above U+FFFF is stored as its code points. */
  lemma {:induction false} Utf16OfBasicPlane(s: string)
    requires forall i :: 0 <= i < |s| ==> (s[i] as int) < 0x10000
    ensures Utf16(s) == seq(|s|, i requires 0 <= i < |s| => s[i] as int)
    decreases |s|
  {
    if s != [] {
      Utf16OfBasicPlane(s[1..]);
    }
  }
}
