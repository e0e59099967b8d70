/** Base64 as `Buffer.toString('base64')` produces it (section 4 of RFC 4648,
    with `=` padding) and the URL-safe, unpadded form the JWT code derives from
    it by deleting `=` and replacing `+` with `-` and `/` with `_` (section 5
    of RFC 4648). Bytes are `bv8`; each 6-bit group is a `bv8` below 64. */
module Base64 {
  import opened Wrappers

  type Byte = bv8

  predicate AllSextets(x: seq<bv8>) {
    forall i :: 0 <= i < |x| ==> x[i] < 64
  }

  /** The four six-bit groups of three bytes. */
  function Group3(p: Byte, q: Byte, r: Byte): (x: seq<bv8>)
    ensures |x| == 4 && AllSextets(x)
  {
    [p >> 2, ((p & 3) << 4) | (q >> 4), ((q & 15) << 2) | (r >> 6), r & 63]
  }

  /** The three groups of a final pair of bytes, zero-filled on the right. */
  function Group2(p: Byte, q: Byte): (x: seq<bv8>)
    ensures |x| == 3 && AllSextets(x)
  {
    [p >> 2, ((p & 3) << 4) | (q >> 4), (q & 15) << 2]
  }

  /** The two groups of a final single byte, zero-filled on the right. */
  function Group1(p: Byte): (x: seq<bv8>)
    ensures |x| == 2 && AllSextets(x)
  {
    [p >> 2, (p & 3) << 4]
  }

  /** The six-bit groups of the input, three bytes at a time; a final group of
      one or two bytes gives two or three groups, zero-filled on the right. */
  function Sextets(b: seq<Byte>): (x: seq<bv8>)
    ensures AllSextets(x)
    decreases |b|
  {
    if |b| >= 3 then Group3(b[0], b[1], b[2]) + Sextets(b[3..])
    else if |b| == 2 then Group2(b[0], b[1])
    else if |b| == 1 then Group1(b[0])
    else []
  }

  /** Reassembles bytes from six-bit groups; a dangling single group is dropped. */
  function BytesOf(x: seq<bv8>): seq<Byte>
    decreases |x|
  {
    if |x| >= 4 then
      [(x[0] << 2) | (x[1] >> 4), (x[1] << 4) | (x[2] >> 2), (x[2] << 6) | x[3]] + BytesOf(x[4..])
    else if |x| == 3 then
      [(x[0] << 2) | (x[1] >> 4), (x[1] << 4) | (x[2] >> 2)]
    else if |x| == 2 then
      [(x[0] << 2) | (x[1] >> 4)]
    else []
  }

  /** The bit identities behind reassembly: each byte is recovered from the
      two groups it was spread over. */
  lemma FirstByteBits(p: Byte, q: Byte)
    ensures ((p >> 2) << 2) | ((((p & 3) << 4) | (q >> 4)) >> 4) == p
  {
  }

  lemma SecondByteBits(p: Byte, q: Byte, r: Byte)
    ensures ((((p & 3) << 4) | (q >> 4)) << 4) | ((((q & 15) << 2) | (r >> 6)) >> 2) == q
  {
  }

  lemma ThirdByteBits(q: Byte, r: Byte)
    ensures ((((q & 15) << 2) | (r >> 6)) << 6) | (r & 63) == r
  {
  }

  /** Each group size survives the split into six-bit groups. */
  lemma Group3RoundTrip(p: Byte, q: Byte, r: Byte)
    ensures BytesOf(Group3(p, q, r)) == [p, q, r]
  {
    var x := Group3(p, q, r);
    assert x[4..] == [] && BytesOf(x[4..]) == [];
    var y := BytesOf(x);
    assert |y| == 3;
    assert y[0] == p by { FirstByteBits(p, q); }
    assert y[1] == q by { SecondByteBits(p, q, r); }
    assert y[2] == r by { ThirdByteBits(q, r); }
  }

  lemma Group2RoundTrip(p: Byte, q: Byte)
    ensures BytesOf(Group2(p, q)) == [p, q]
  {
    var y := BytesOf(Group2(p, q));
    assert |y| == 2;
    assert y[0] == p by { FirstByteBits(p, q); }
    assert y[1] == q by { SecondByteBits(p, q, 0); }
  }

  lemma Group1RoundTrip(p: Byte)
    ensures BytesOf(Group1(p)) == [p]
  {
    var y := BytesOf(Group1(p));
    assert |y| == 1;
    assert y[0] == p by { FirstByteBits(p, 0); }
  }

  /** Four leading groups are reassembled on their own. */
  lemma BytesOfFour(g: seq<bv8>, t: seq<bv8>)
    requires |g| == 4
    ensures BytesOf(g + t) == BytesOf(g) + BytesOf(t)
  {
    var x := g + t;
    assert x[..4] == g && x[4..] == t;
    assert g[4..] == [];
  }

  /** Regrouping the six-bit groups gives back the bytes. */
  lemma {:induction false} BytesOfSextets(b: seq<Byte>)
    ensures BytesOf(Sextets(b)) == b
    decreases |b|
  {
    if |b| >= 3 {
      var g, t := Group3(b[0], b[1], b[2]), Sextets(b[3..]);
      assert BytesOf(g + t) == BytesOf(g) + BytesOf(t) by { BytesOfFour(g, t); }
      assert BytesOf(g) == b[..3] by { Group3RoundTrip(b[0], b[1], b[2]); }
      assert BytesOf(t) == b[3..] by { BytesOfSextets(b[3..]); }
      assert b == b[..3] + b[3..];
    } else if |b| == 2 {
      Group2RoundTrip(b[0], b[1]);
    } else if |b| == 1 {
      Group1RoundTrip(b[0]);
    }
  }

  /** The letter for a six-bit value, shared by both alphabets below 62. */
  function Letter(v: bv8): char
    requires v < 62
  {
    if v < 26 then ('A' as int + v as int) as char
    else if v < 52 then ('a' as int + v as int - 26) as char
    else ('0' as int + v as int - 52) as char
  }

  predicate IsAlnum(c: char) {
    ('A' <= c <= 'Z') || ('a' <= c <= 'z') || ('0' <= c <= '9')
  }

  /** The standard alphabet: letters, digits, `+` and `/`. */
  function StdChar(v: bv8): (c: char)
    requires v < 64
    ensures IsAlnum(c) || c == '+' || c == '/'
  {
    if v < 62 then Letter(v) else if v == 62 then '+' else '/'
  }

  /** The URL-safe alphabet: letters, digits, `-` and `_`. */
  function UrlChar(v: bv8): (c: char)
    requires v < 64
    ensures IsAlnum(c) || c == '-' || c == '_'
  {
    if v < 62 then Letter(v) else if v == 62 then '-' else '_'
  }

  /** The six-bit value of a URL-safe character, if it is one. */
  function UrlValue(c: char): (r: Option<bv8>)
    ensures r.Some? ==> r.value < 64
  {
    if 'A' <= c <= 'Z' then Some((c as int - 'A' as int) as bv8)
    else if 'a' <= c <= 'z' then Some((c as int - 'a' as int + 26) as bv8)
    else if '0' <= c <= '9' then Some((c as int - '0' as int + 52) as bv8)
    else if c == '-' then Some(62)
    else if c == '_' then Some(63)
    else None
  }

  lemma UrlValueOfChar(v: bv8)
    requires v < 64
    ensures UrlValue(UrlChar(v)) == Some(v)
  {
  }

  function StdChars(x: seq<bv8>): (s: string)
    requires AllSextets(x)
    ensures |s| == |x|
  {
    seq(|x|, i requires 0 <= i < |x| => StdChar(x[i]))
  }

  function UrlChars(x: seq<bv8>): (s: string)
    requires AllSextets(x)
    ensures |s| == |x|
  {
    seq(|x|, i requires 0 <= i < |x| => UrlChar(x[i]))
  }

  /** `=` padding up to a multiple of four characters. */
  function Padding(n: nat): (p: string)
    ensures forall i :: 0 <= i < |p| ==> p[i] == '='
    ensures |p| == (3 - n % 3) % 3
  {
    if n % 3 == 1 then "==" else if n % 3 == 2 then "=" else ""
  }

  /** `Buffer.toString('base64')`. */
  function StdEncode(b: seq<Byte>): (r: string) {
    StdChars(Sextets(b)) + Padding(|b|)
  }

  /** Base64url without padding: the form every JWT segment takes. */
  function UrlEncode(b: seq<Byte>): string {
    UrlChars(Sextets(b))
  }

  lemma {:induction false} SextetsLength(b: seq<Byte>)
    ensures |Sextets(b)| == (4 * |b| + 2) / 3
    decreases |b|
  {
    if |b| >= 3 {
      SextetsLength(b[3..]);
    }
  }

  /** Standard base64 fills whole blocks of four characters; the URL-safe form
      has one character per six bits, rounded up. */
  lemma EncodedLengths(b: seq<Byte>)
    ensures |StdEncode(b)| % 4 == 0 && |StdEncode(b)| == 4 * ((|b| + 2) / 3)
    ensures |UrlEncode(b)| == (4 * |b| + 2) / 3
  {
    SextetsLength(b);
    PaddedLength(|b|);
  }

  lemma TimesFourMod(m: nat)
    ensures 4 * m % 4 == 0
  {
  }

  /** The characters plus the padding fill whole blocks of four. */
  lemma PaddedLength(n: nat)
    ensures (4 * n + 2) / 3 + (3 - n % 3) % 3 == 4 * ((n + 2) / 3)
    ensures 4 * ((n + 2) / 3) % 4 == 0
  {
    var q := n / 3;
    var r := n % 3;
    assert n == 3 * q + r;
    var m := (n + 2) / 3;
    assert 4 * m % 4 == 0 by { TimesFourMod(m); }
    if r == 0 {
      assert (4 * n + 2) / 3 == 4 * q;
      assert m == q;
      assert (3 - r) % 3 == 0;
    } else if r == 1 {
      assert (4 * n + 2) / 3 == 4 * q + 2;
      assert m == q + 1;
      assert (3 - r) % 3 == 2;
    } else {
      assert (4 * n + 2) / 3 == 4 * q + 3;
      assert m == q + 1;
      assert (3 - r) % 3 == 1;
    }
  }

  /** Every character of a base64url string is a letter, a digit, `-` or `_`,
      so none is `=`, `+`, `/` or the JWT separator `.`. */
  predicate IsUrlSafe(s: string) {
    forall i :: 0 <= i < |s| ==> IsAlnum(s[i]) || s[i] == '-' || s[i] == '_'
  }

  lemma UrlEncodeIsUrlSafe(b: seq<Byte>)
    ensures IsUrlSafe(UrlEncode(b))
    ensures forall c :: c in UrlEncode(b) ==> c != '=' && c != '+' && c != '/' && c != '.'
  {
  }

  /** The six-bit values of a URL-safe string, `None` on any other character. */
  function UrlValues(s: string): (r: Option<seq<bv8>>)
    ensures r.Some? ==> |r.value| == |s| && AllSextets(r.value)
    decreases |s|
  {
    if s == [] then Some([])
    else
      match (UrlValue(s[0]), UrlValues(s[1..]))
      case (Some(v), Some(rest)) => Some([v] + rest)
      case _ => None
  }

  /** Decodes unpadded base64url; a length of the form 4k + 1 is malformed. */
  function UrlDecode(s: string): Option<seq<Byte>> {
    if |s| % 4 == 1 then None
    else
      match UrlValues(s)
      case None => None
      case Some(x) => Some(BytesOf(x))
  }

  lemma {:induction false} UrlValuesOfChars(x: seq<bv8>)
    requires AllSextets(x)
    ensures UrlValues(UrlChars(x)) == Some(x)
    decreases |x|
  {
    if x != [] {
      var s := UrlChars(x);
      assert s[1..] == UrlChars(x[1..]);
      UrlValuesOfChars(x[1..]);
      UrlValueOfChar(x[0]);
      assert x == [x[0]] + x[1..];
    }
  }

  /** Decoding undoes encoding. */
  lemma UrlRoundTrip(b: seq<Byte>)
    ensures UrlDecode(UrlEncode(b)) == Some(b)
  {
    var s := UrlEncode(b);
    assert |s| % 4 != 1 by {
      EncodedLengths(b);
      UnpaddedLengthMod4(|b|);
    }
    UrlValuesOfChars(Sextets(b));
    BytesOfSextets(b);
  }

  /** An unpadded encoding never has a length of the form 4k + 1. */
  lemma UnpaddedLengthMod4(n: nat)
    ensures (4 * n + 2) / 3 % 4 != 1
  {
    var q := n / 3;
    var r := n % 3;
    assert n == 3 * q + r;
    assert 4 * n + 2 == 3 * (4 * q) + (4 * r + 2);
    if r == 0 {
      assert (4 * n + 2) / 3 == 4 * q;
    } else if r == 1 {
      assert (4 * n + 2) / 3 == 4 * q + 2;
    } else {
      assert (4 * n + 2) / 3 == 4 * q + 3;
    }
  }

  /** Encoding is injective: different byte strings give different segments. */
  lemma UrlEncodeInjective(a: seq<Byte>, b: seq<Byte>)
    requires UrlEncode(a) == UrlEncode(b)
    ensures a == b
  {
    UrlRoundTrip(a);
    UrlRoundTrip(b);
  }

  // ------------------------------------------------------------ the string edits

  /** `replace(/c/g, '')`. */
  function RemoveAll(s: string, c: char): (r: string)
    ensures c !in r
    decreases |s|
  {
    if s == [] then []
    else (if s[0] == c then [] else [s[0]]) + RemoveAll(s[1..], c)
  }

  lemma {:induction false} RemoveAllAppend(a: string, b: string, c: char)
    ensures RemoveAll(a + b, c) == RemoveAll(a, c) + RemoveAll(b, c)
    decreases |a|
  {
    if a != [] {
      assert (a + b)[0] == a[0];
      assert (a + b)[1..] == a[1..] + b;
      RemoveAllAppend(a[1..], b, c);
    } else {
      assert a + b == b;
    }
  }

  lemma {:induction false} RemoveAllAbsent(s: string, c: char)
    requires c !in s
    ensures RemoveAll(s, c) == s
    decreases |s|
  {
    if s != [] {
      RemoveAllAbsent(s[1..], c);
      assert s == [s[0]] + s[1..];
    }
  }

  /** `replace(/from/g, to)`. */
  function ReplaceAll(s: string, from: char, to: char): (r: string)
    ensures |r| == |s|
    ensures forall i :: 0 <= i < |s| ==> r[i] == if s[i] == from then to else s[i]
  {
    seq(|s|, i requires 0 <= i < |s| => if s[i] == from then to else s[i])
  }

  /** `replace(/=+$/, '')`: strips the trailing run of `=` only. */
  function StripTrailing(s: string, c: char): (r: string)
    ensures |r| <= |s| && r == s[..|r|]
    decreases |s|
  {
    if s != [] && s[|s| - 1] == c then StripTrailing(s[..|s| - 1], c) else s
  }

  /** The edit chain of `base64UrlEncode` in `jwt-sign.ts`. */
  function ToUrlSafe(s: string): string {
    ReplaceAll(ReplaceAll(RemoveAll(s, '='), '+', '-'), '/', '_')
  }

  /** The edit chain of the `AuthService` helpers, which strip only trailing `=`. */
  function ToUrlSafeTrailing(s: string): string {
    ReplaceAll(ReplaceAll(StripTrailing(s, '='), '+', '-'), '/', '_')
  }

  lemma {:induction false} StripPadding(body: string, n: nat)
    requires body == [] || body[|body| - 1] != '='
    ensures StripTrailing(body + Padding(n), '=') == body
  {
    var p := Padding(n);
    if |p| == 2 {
      assert (body + p)[..|body + p| - 1] == body + "=";
      assert (body + "=")[..|body|] == body;
      assert StripTrailing(body + "=", '=') == StripTrailing(body, '=') == body;
    } else if |p| == 1 {
      assert (body + p)[..|body + p| - 1] == body;
      assert StripTrailing(body, '=') == body;
    } else {
      assert body + p == body;
    }
  }

  /** Applied to standard base64, both edit chains give the unpadded URL-safe encoding. */
  lemma ToUrlSafeOfStd(b: seq<Byte>)
    ensures ToUrlSafe(StdEncode(b)) == UrlEncode(b)
    ensures ToUrlSafeTrailing(StdEncode(b)) == UrlEncode(b)
  {
    var x := Sextets(b);
    var body := StdChars(x);
    var p := Padding(|b|);
    assert RemoveAll(body + p, '=') == body by {
      StdCharsHasNoPad(x);
      RemoveAllAppend(body, p, '=');
      RemoveAllAbsent(body, '=');
      PaddingRemoved(|b|);
    }
    assert StripTrailing(body + p, '=') == body by {
      StdCharsHasNoPad(x);
      StripPadding(body, |b|);
    }
    StdToUrlChars(x);
  }

  lemma StdCharsHasNoPad(x: seq<bv8>)
    requires AllSextets(x)
    ensures '=' !in StdChars(x)
    ensures StdChars(x) != [] ==> StdChars(x)[|x| - 1] != '='
  {
  }

  lemma PaddingRemoved(n: nat)
    ensures RemoveAll(Padding(n), '=') == []
  {
    var p := Padding(n);
    if |p| == 2 {
      assert p == "==" && p[1..] == "=" && ("=")[1..] == [];
    } else if |p| == 1 {
      assert p == "=" && p[1..] == [];
    }
  }

  /** Swapping `+` and `/` for `-` and `_` turns the standard alphabet into the URL-safe one. */
  lemma StdToUrlChars(x: seq<bv8>)
    requires AllSextets(x)
    ensures ReplaceAll(ReplaceAll(StdChars(x), '+', '-'), '/', '_') == UrlChars(x)
  {
  }
}
