/** `signJwt`: assembles an HS256 JSON Web Token (RFC 7519, with HMAC SHA-256
    as in section 3.2 of RFC 7518) as `header.payload.signature`, each segment
    base64url-encoded without padding. UTF-8 encoding, `JSON.stringify` and
    HMAC-SHA256 are library calls and are passed in as functions. */
module JwtSign {
  import opened Wrappers
  import opened Base64
  import opened JsNumber
  import opened Text

  /** The serialised fixed header `{ alg: 'HS256', typ: 'JWT' }`. */
  const HeaderJson: string := "{\"alg\":\"HS256\",\"typ\":\"JWT\"}"

  /** The signed body: the caller's fields (already serialised values) with
      `iat` and `exp` added. */
  datatype Claims = Claims(fields: seq<(string, string)>, iat: int, exp: int)

  /** The library calls the signer relies on. */
  datatype Library = Library(
    utf8: string -> seq<Byte>,
    stringify: Claims -> string,
    hmacSha256: (string, string) -> seq<Byte>)

  datatype JwtError = MissingSecret | InvalidExpiration

  /** `base64UrlEncode`: standard base64, then the URL-safe edits. */
  function Base64UrlEncode(bytes: seq<Byte>): (r: string) {
    ToUrlSafe(StdEncode(bytes))
  }

  /** `Math.floor(Date.now() / 1000)`: whole seconds since the epoch. */
  function IssuedAt(nowMs: int): int {
    nowMs / 1000
  }

  /** The three segments of a signed token. */
  datatype Segments = Segments(header: string, payload: string, signature: string)

  function SegmentsOf(fields: seq<(string, string)>, secret: string, expiresInSeconds: real, nowMs: int, lib: Library): Segments {
    var iat := IssuedAt(nowMs);
    var claims := Claims(fields, iat, iat + Floor(expiresInSeconds));
    var h := Base64UrlEncode(lib.utf8(HeaderJson));
    var p := Base64UrlEncode(lib.utf8(lib.stringify(claims)));
    Segments(h, p, Base64UrlEncode(lib.hmacSha256(secret, h + "." + p)))
  }

  /** `signJwt`: an empty secret and a non-finite or non-positive lifetime are
      refused, in that order; otherwise the token is `header.payload.signature`. */
  function SignJwt(fields: seq<(string, string)>, secret: string, expiresInSeconds: Num, nowMs: int, lib: Library): (r: Result<string, JwtError>)
    ensures secret == "" ==> r == Failure(MissingSecret)
    ensures secret != "" && (!IsFinite(expiresInSeconds) || expiresInSeconds.value <= 0.0) ==> r == Failure(InvalidExpiration)
    ensures r.Success? <==> secret != "" && IsFinite(expiresInSeconds) && expiresInSeconds.value > 0.0
  {
    if secret == "" then Failure(MissingSecret)
    else if !IsFinite(expiresInSeconds) || expiresInSeconds.value <= 0.0 then Failure(InvalidExpiration)
    else
      var s := SegmentsOf(fields, secret, expiresInSeconds.value, nowMs, lib);
      Success(s.header + "." + s.payload + "." + s.signature)
  }

  // ------------------------------------------------------------ splitting a token

  /** `split(c)`: the pieces between the occurrences of `c`. */
  function SplitOn(s: string, c: char): (r: seq<string>)
    ensures |r| >= 1
    decreases |s|
  {
    match FirstIndex(s, c)
    case None => [s]
    case Some(k) => [s[..k]] + SplitOn(s[k + 1..], c)
  }

  lemma SplitAfterPiece(a: string, c: char, rest: string)
    requires c !in a
    ensures SplitOn(a + [c] + rest, c) == [a] + SplitOn(rest, c)
  {
    var s := a + [c] + rest;
    var k := FirstIndex(s, c);
    assert s[|a|] == c;
    assert s[..|a|] == a;
    assert s[|a| + 1..] == rest;
  }

  /** The number of occurrences of `c`. */
  function Count(s: string, c: char): nat
    decreases |s|
  {
    if s == [] then 0 else (if s[0] == c then 1 else 0) + Count(s[1..], c)
  }

  lemma {:induction false} CountAppend(a: string, b: string, c: char)
    ensures Count(a + b, c) == Count(a, c) + Count(b, c)
    decreases |a|
  {
    if a != [] {
      assert (a + b)[0] == a[0] && (a + b)[1..] == a[1..] + b;
      CountAppend(a[1..], b, c);
    } else {
      assert a + b == b;
    }
  }

  lemma {:induction false} CountAbsent(s: string, c: char)
    requires c !in s
    ensures Count(s, c) == 0
    decreases |s|
  {
    if s != [] {
      CountAbsent(s[1..], c);
    }
  }

  /** Base64url never contains `.`, so `a.b.c` splits back into its segments
      and holds exactly two separators. */
  lemma JoinSplit(a: string, b: string, d: string)
    requires IsUrlSafe(a) && IsUrlSafe(b) && IsUrlSafe(d)
    ensures SplitOn(a + "." + b + "." + d, '.') == [a, b, d]
    ensures Count(a + "." + b + "." + d, '.') == 2
  {
    assert '.' !in a && '.' !in b && '.' !in d;
    SplitJoined(a, b, d);
    CountJoined(a, b, d);
  }

  lemma SplitJoined(a: string, b: string, d: string)
    requires '.' !in a && '.' !in b && '.' !in d
    ensures SplitOn(a + "." + b + "." + d, '.') == [a, b, d]
  {
    assert a + "." + b + "." + d == a + ['.'] + (b + ['.'] + d);
    SplitAfterPiece(a, '.', b + ['.'] + d);
    SplitAfterPiece(b, '.', d);
    assert SplitOn(d, '.') == [d];
  }

  lemma CountJoined(a: string, b: string, d: string)
    requires '.' !in a && '.' !in b && '.' !in d
    ensures Count(a + "." + b + "." + d, '.') == 2
  {
    CountAppend(a + "." + b + ".", d, '.');
    CountAppend(a + "." + b, ".", '.');
    CountAppend(a + ".", b, '.');
    CountAppend(a, ".", '.');
    CountAbsent(a, '.');
    CountAbsent(b, '.');
    CountAbsent(d, '.');
  }

  /** Each segment is URL-safe and decodes back to the bytes it encodes. */
  lemma SegmentDecodes(bytes: seq<Byte>)
    ensures IsUrlSafe(Base64UrlEncode(bytes))
    ensures UrlDecode(Base64UrlEncode(bytes)) == Some(bytes)
  {
    ToUrlSafeOfStd(bytes);
    UrlEncodeIsUrlSafe(bytes);
    UrlRoundTrip(bytes);
  }

  /** A signed token splits into exactly three segments; the first decodes to
      the fixed header, the second to the claims with `iat` the current second
      and `exp` that plus the whole seconds of the lifetime, the third to the
      HMAC of the first two joined by `.` under the secret. */
  lemma SignedTokenShape(fields: seq<(string, string)>, secret: string, expiresInSeconds: Num, nowMs: int, lib: Library)
    requires SignJwt(fields, secret, expiresInSeconds, nowMs, lib).Success?
    ensures var token := SignJwt(fields, secret, expiresInSeconds, nowMs, lib).value;
      var parts := SplitOn(token, '.');
      var claims := Claims(fields, IssuedAt(nowMs), IssuedAt(nowMs) + Floor(expiresInSeconds.value));
      |parts| == 3 && Count(token, '.') == 2 &&
      UrlDecode(parts[0]) == Some(lib.utf8(HeaderJson)) &&
      UrlDecode(parts[1]) == Some(lib.utf8(lib.stringify(claims))) &&
      UrlDecode(parts[2]) == Some(lib.hmacSha256(secret, parts[0] + "." + parts[1])) &&
      claims.exp >= claims.iat
  {
    var s := SegmentsOf(fields, secret, expiresInSeconds.value, nowMs, lib);
    var token := SignJwt(fields, secret, expiresInSeconds, nowMs, lib).value;
    assert token == s.header + "." + s.payload + "." + s.signature;
    var iat := IssuedAt(nowMs);
    var claims := Claims(fields, iat, iat + Floor(expiresInSeconds.value));
    var hb := lib.utf8(HeaderJson);
    var pb := lib.utf8(lib.stringify(claims));
    var sb := lib.hmacSha256(secret, s.header + "." + s.payload);
    assert s.header == Base64UrlEncode(hb);
    assert s.payload == Base64UrlEncode(pb);
    assert s.signature == Base64UrlEncode(sb);
    SegmentDecodes(hb);
    SegmentDecodes(pb);
    SegmentDecodes(sb);
    JoinSplit(s.header, s.payload, s.signature);
  }

  /** A signed token segment by segment. */
  lemma SignJwtSegments(fields: seq<(string, string)>, secret: string, expiresInSeconds: real, nowMs: int, lib: Library)
    requires secret != "" && expiresInSeconds > 0.0
    ensures var iat := IssuedAt(nowMs);
      var data := Base64UrlEncode(lib.utf8(HeaderJson)) + "." +
        Base64UrlEncode(lib.utf8(lib.stringify(Claims(fields, iat, iat + Floor(expiresInSeconds)))));
      SignJwt(fields, secret, Finite(expiresInSeconds), nowMs, lib) == Success(data + "." + Base64UrlEncode(lib.hmacSha256(secret, data)))
  {
  }

  /** The token expires strictly after it is issued exactly when the lifetime
      is at least one second; a lifetime below one second yields `exp == iat`. */
  lemma ExpiryAfterIssue(expiresInSeconds: real, nowMs: int)
    requires expiresInSeconds > 0.0
    ensures IssuedAt(nowMs) + Floor(expiresInSeconds) > IssuedAt(nowMs) <==> expiresInSeconds >= 1.0
  {
  }
}
