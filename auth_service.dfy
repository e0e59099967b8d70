/** The checks and string handling of `AuthService`: duration parsing for the
    token lifetimes, the lifetime guards, login and registration input
    validation with `EMAIL_REGEX`, the login and registration decisions, token
    issuing, and the IP and user-agent normalisation of login records. The
    database is replaced by a user lookup and a password verifier passed in as
    functions; the clock and random bytes are parameters. */
module Auth {
  import opened Wrappers
  import opened Text
  import opened Base64
  import opened JsNumber
  import J = JwtSign
  import B = BcryptHasher

  // ------------------------------------------------------------ durations

  datatype DurationError = InvalidDurationFormat

  /** The milliseconds of a unit `ms`, `s`, `m`, `h` or `d` in any letter
      case; no unit means minutes. */
  function UnitMultiplier(unit: string): (r: Option<nat>)
    ensures r.Some? ==> r.value > 0
    ensures r.Some? && unit != [] ==> !IsDigit(unit[0]) && !IsSpace(unit[0]) && !IsSpace(unit[|unit| - 1])
  {
    if unit == [] then Some(60 * 1000)
    else if |unit| == 2 then
      if LowerChar(unit[0]) == 'm' && LowerChar(unit[1]) == 's' then Some(1) else None
    else if |unit| == 1 then
      var c := LowerChar(unit[0]);
      if c == 's' then Some(1000)
      else if c == 'm' then Some(60 * 1000)
      else if c == 'h' then Some(60 * 60 * 1000)
      else if c == 'd' then Some(24 * 60 * 60 * 1000)
      else None
    else None
  }

  /** `parseDurationToMilliseconds`: the trimmed text must be decimal digits and
      an optional unit `ms`, `s`, `m`, `h` or `d`. */
  function ParseDuration(value: string): (r: Result<nat, DurationError>) {
    ParseTrimmed(Trim(value))
  }

  function ParseTrimmed(trimmed: string): Result<nat, DurationError> {
    var k := LeadingDigits(trimmed);
    if k == 0 then Failure(InvalidDurationFormat)
    else
      match UnitMultiplier(trimmed[k..])
      case None => Failure(InvalidDurationFormat)
      case Some(m) => Success(DigitsValue(trimmed[..k]) * m)
  }

  /** Digits followed by a text that does not start with a digit are read
      as the number and the unit; the text is accepted exactly when the unit is. */
  lemma ParseDurationMeaning(value: string, digits: string, unit: string)
    requires Trim(value) == digits + unit && digits != [] && AllDigits(digits)
    requires unit == [] || !IsDigit(unit[0])
    ensures ParseDuration(value) ==
      match UnitMultiplier(unit)
      case None => Failure(InvalidDurationFormat)
      case Some(m) => Success(DigitsValue(digits) * m)
  {
    var t := digits + unit;
    LeadingDigitsOfSplit(digits, unit);
    assert t[..|digits|] == digits && t[|digits|..] == unit;
  }

  /** An accepted trimmed text is its leading digits followed by a known unit. */
  lemma ParseTrimmedForm(t: string)
    requires ParseTrimmed(t).Success?
    ensures var k := LeadingDigits(t);
      0 < k && UnitMultiplier(t[k..]).Some? && t == t[..k] + t[k..] &&
      ParseTrimmed(t).value == DigitsValue(t[..k]) * UnitMultiplier(t[k..]).value
  {
    var k := LeadingDigits(t);
    assert t == t[..k] + t[k..];
  }

  /** Every accepted text has that form. */
  lemma ParseDurationAcceptsOnlyDigitsAndUnit(value: string)
    requires ParseDuration(value).Success?
    ensures var t := Trim(value);
      var k := LeadingDigits(t);
      0 < k && UnitMultiplier(t[k..]).Some? && t == t[..k] + t[k..] &&
      ParseDuration(value).value == DigitsValue(t[..k]) * UnitMultiplier(t[k..]).value
  {
    ParseTrimmedForm(Trim(value));
  }

  /** Writing a number with a unit and parsing it back gives the number times
      the unit's milliseconds. */
  lemma DurationRoundTrip(n: nat, unit: string, m: nat)
    requires UnitMultiplier(unit) == Some(m)
    ensures ParseDuration(DecimalOf(n) + unit) == Success(n * m)
  {
    var s := DecimalOf(n) + unit;
    var d := DecimalOf(n);
    assert s[0] == d[0];
    if unit != [] {
      assert s[|s| - 1] == unit[|unit| - 1];
    } else {
      assert s == d;
    }
    TrimOfTrimmed(s);
    ParseDurationMeaning(s, d, unit);
    DecimalOfValue(n);
  }

  // ------------------------------------------------------------ token lifetimes

  datatype ConfigError = ExpiryUndefined | InvalidDuration | ExpiryNotPositive | SecretUndefined

  /** `generateRefreshToken`'s lifetime: must be defined, parse and exceed 0 ms. */
  function RefreshLifetimeMs(expiryEnv: string): (r: Result<nat, ConfigError>)
    ensures r.Success? ==> r.value > 0 && ParseDuration(expiryEnv) == Success(r.value)
    ensures r.Success? <==> expiryEnv != "" && ParseDuration(expiryEnv).Success? && ParseDuration(expiryEnv).value > 0
  {
    if expiryEnv == "" then Failure(ExpiryUndefined)
    else
      match ParseDuration(expiryEnv)
      case Failure(_) => Failure(InvalidDuration)
      case Success(ms) => if ms <= 0 then Failure(ExpiryNotPositive) else Success(ms)
  }

  /** `generateAccessToken`'s lifetime: whole seconds of the parsed duration,
      which must be at least one. */
  function AccessLifetimeSeconds(expiryEnv: string): (r: Result<nat, ConfigError>)
    ensures r.Success? ==> r.value > 0
    ensures r.Success? <==> expiryEnv != "" && ParseDuration(expiryEnv).Success? && ParseDuration(expiryEnv).value >= 1000
    ensures r.Success? ==> r.value * 1000 <= ParseDuration(expiryEnv).value < (r.value + 1) * 1000
  {
    if expiryEnv == "" then Failure(ExpiryUndefined)
    else
      match ParseDuration(expiryEnv)
      case Failure(_) => Failure(InvalidDuration)
      case Success(ms) =>
        var seconds := ms / 1000;
        if seconds <= 0 then Failure(ExpiryNotPositive) else Success(seconds)
  }

  /** A parsed duration above 0 ms is accepted as the refresh lifetime. */
  lemma RefreshLifetimeOfParsed(expiryEnv: string, ms: nat)
    requires expiryEnv != "" && ParseDuration(expiryEnv) == Success(ms) && ms > 0
    ensures RefreshLifetimeMs(expiryEnv) == Success(ms)
  {
  }

  /** A parsed duration below one second is refused as the access lifetime. */
  lemma AccessLifetimeOfShort(expiryEnv: string, ms: nat)
    requires expiryEnv != "" && ParseDuration(expiryEnv) == Success(ms) && ms < 1000
    ensures AccessLifetimeSeconds(expiryEnv) == Failure(ExpiryNotPositive)
  {
  }

  /** A lifetime below one second, such as "999ms", is a valid refresh
      lifetime but not a valid access lifetime. */
  lemma SubSecondLifetime(n: nat)
    requires 0 < n < 1000
    ensures RefreshLifetimeMs(DecimalOf(n) + "ms") == Success(n)
    ensures AccessLifetimeSeconds(DecimalOf(n) + "ms") == Failure(ExpiryNotPositive)
  {
    var text := DecimalOf(n) + "ms";
    assert UnitMultiplier("ms") == Some(1);
    DurationRoundTrip(n, "ms", 1);
    RefreshLifetimeOfParsed(text, n);
    AccessLifetimeOfShort(text, n);
  }

  /** A parsed duration of at least one second is accepted as its whole seconds. */
  lemma AccessLifetimeOfParsed(expiryEnv: string, ms: nat)
    requires expiryEnv != "" && ParseDuration(expiryEnv) == Success(ms) && ms >= 1000
    ensures AccessLifetimeSeconds(expiryEnv) == Success(ms / 1000)
  {
  }

  /** A lifetime of n minutes, such as "15m", gives 60n seconds. */
  lemma MinutesLifetime(n: nat)
    requires n > 0
    ensures AccessLifetimeSeconds(DecimalOf(n) + "m") == Success(60 * n)
  {
    assert UnitMultiplier("m") == Some(60000);
    DurationRoundTrip(n, "m", 60000);
    assert n * 60000 / 1000 == 60 * n;
    AccessLifetimeOfParsed(DecimalOf(n) + "m", n * 60000);
  }

  // ------------------------------------------------------------ input validation

  const MinPasswordLength := 8

  /** Neither white space nor `@`: the `[^\s@]` class of `EMAIL_REGEX`. */
  predicate EmailChar(c: char) {
    !IsSpace(c) && c != '@'
  }

  /** What `EMAIL_REGEX` (`^[^\s@]+@[^\s@]+\.[^\s@]+$`) matches: one `@` with a
      non-empty part before it, a `.` after it with at least one character on
      each side, and no white space or other `@` anywhere. */
  ghost predicate MatchesEmailRegex(s: string) {
    exists k, j :: 0 < k && k + 1 < j < |s| - 1 && s[k] == '@' && s[j] == '.' &&
      forall i :: 0 <= i < |s| && i != k ==> EmailChar(s[i])
  }

  /** The check the service runs for `EMAIL_REGEX.test`. */
  function IsEmail(s: string): (r: bool) {
    match FirstIndex(s, '@')
    case None => false
    case Some(k) =>
      0 < k && k + 2 < |s| &&
      (forall i :: 0 <= i < |s| && i != k ==> EmailChar(s[i])) &&
      '.' in s[k + 2..|s| - 1]
  }

  lemma IsEmailMeaning(s: string)
    ensures IsEmail(s) <==> MatchesEmailRegex(s)
  {
    if IsEmail(s) {
      var k := FirstIndex(s, '@').value;
      var m :| 0 <= m < |s[k + 2..|s| - 1]| && s[k + 2..|s| - 1][m] == '.';
      assert s[k + 2 + m] == '.';
    }
    if MatchesEmailRegex(s) {
      var k, j :| 0 < k && k + 1 < j < |s| - 1 && s[k] == '@' && s[j] == '.' &&
        forall i :: 0 <= i < |s| && i != k ==> EmailChar(s[i]);
      var f := FirstIndex(s, '@');
      assert f.Some? by {
        assert s[k] in s;
      }
      assert s[k + 2..|s| - 1][j - k - 2] == '.';
    }
  }

  /** A request body: `None` when it is missing or not an object; a field is
      `None` when it is not a string. */
  datatype Credentials = Credentials(email: Option<string>, password: Option<string>)

  datatype AuthError =
    | InvalidBody
    | MissingCredentials
    | InvalidEmailFormat
    | WeakPassword
    | InvalidCredentials
    | AccessDenied
    | RegistrationConflict

  /** The checked input: the e-mail trimmed and lower-cased, and the password as given. */
  datatype CheckedInput = CheckedInput(email: string, password: string)

  function EmailOf(c: Credentials): string {
    Trim(c.email.GetOr(""))
  }

  function PasswordOf(c: Credentials): string {
    c.password.GetOr("")
  }

  /** `login`'s input checks: a body, a non-empty trimmed e-mail and a password
      that is not only white space, then the e-mail format. */
  function CheckLoginInput(payload: Option<Credentials>): (r: Result<CheckedInput, AuthError>)
    ensures r == Failure(InvalidBody) <==> payload.None?
    ensures r == Failure(MissingCredentials) <==>
      payload.Some? && (EmailOf(payload.value) == "" || Trim(PasswordOf(payload.value)) == "")
    ensures r == Failure(InvalidEmailFormat) <==>
      payload.Some? && EmailOf(payload.value) != "" && Trim(PasswordOf(payload.value)) != "" &&
      !MatchesEmailRegex(EmailOf(payload.value))
    ensures r.Success? ==> r.value == CheckedInput(ToLower(EmailOf(payload.value)), PasswordOf(payload.value))
  {
    if payload.None? then Failure(InvalidBody)
    else
      var email := EmailOf(payload.value);
      var password := PasswordOf(payload.value);
      if email == "" || |Trim(password)| == 0 then Failure(MissingCredentials)
      else if !IsEmail(email) then (IsEmailMeaning(email); Failure(InvalidEmailFormat))
      else (IsEmailMeaning(email); Success(CheckedInput(ToLower(email), password)))
  }

  /** `register`'s input checks: a body, a non-empty trimmed e-mail and a
      non-empty password, the e-mail format, then a password of at least 8
      characters. */
  function CheckRegisterInput(payload: Option<Credentials>): (r: Result<CheckedInput, AuthError>)
    ensures r == Failure(InvalidBody) <==> payload.None?
    ensures r == Failure(MissingCredentials) <==>
      payload.Some? && (EmailOf(payload.value) == "" || PasswordOf(payload.value) == "")
    ensures r == Failure(InvalidEmailFormat) <==>
      payload.Some? && EmailOf(payload.value) != "" && PasswordOf(payload.value) != "" &&
      !MatchesEmailRegex(EmailOf(payload.value))
    ensures r == Failure(WeakPassword) <==>
      payload.Some? && EmailOf(payload.value) != "" && PasswordOf(payload.value) != "" &&
      MatchesEmailRegex(EmailOf(payload.value)) && |PasswordOf(payload.value)| < MinPasswordLength
    ensures r.Success? ==> r.value == CheckedInput(ToLower(EmailOf(payload.value)), PasswordOf(payload.value))
  {
    if payload.None? then Failure(InvalidBody)
    else
      var email := EmailOf(payload.value);
      var password := PasswordOf(payload.value);
      if email == "" || password == "" then Failure(MissingCredentials)
      else if !IsEmail(email) then (IsEmailMeaning(email); Failure(InvalidEmailFormat))
      else if |password| < MinPasswordLength then (IsEmailMeaning(email); Failure(WeakPassword))
      else (IsEmailMeaning(email); Success(CheckedInput(ToLower(email), password)))
  }

  /** The normalised e-mail has no surrounding white space and no upper-case letter. */
  lemma NormalizedEmail(raw: string)
    requires Trim(raw) != ""
    ensures var e := ToLower(Trim(raw));
      e != [] && !IsSpace(e[0]) && !IsSpace(e[|e| - 1]) && forall i :: 0 <= i < |e| ==> !IsUpper(e[i])
  {
    var a := TrimStart(raw);
    var t := TrimEnd(a);
    assert t[0] == a[0];
    var e := ToLower(t);
    var last := |t| - 1;
    assert |e| - 1 == last;
    assert e[0] == LowerChar(t[0]) && !IsSpace(e[0]);
    assert e[last] == LowerChar(t[last]) && !IsSpace(e[last]);
  }

  /** A password of eight or more white-space characters registers, but that
      account can never log in: login refuses a password that is only white space. */
  lemma BlankPasswordRegistersButCannotLogIn(email: string, password: string)
    requires Trim(email) != "" && MatchesEmailRegex(Trim(email))
    requires AllSpace(password) && |password| >= MinPasswordLength
    ensures CheckRegisterInput(Some(Credentials(Some(email), Some(password)))).Success?
    ensures CheckLoginInput(Some(Credentials(Some(email), Some(password)))) == Failure(MissingCredentials)
  {
    TrimEmptyIff(password);
  }

  // ------------------------------------------------------------ login records

  const MaxFieldLength := 255

  function Prefix(s: string, n: nat): (r: string)
    ensures |r| <= n && |r| <= |s| && r == s[..|r|]
    ensures |s| <= n ==> r == s
  {
    if |s| <= n then s else s[..n]
  }

  /** `normalizeIp`: the trimmed address, or `unknown` when it is absent or
      blank, cut to 255 characters. */
  function NormalizeIp(ip: Option<string>): (r: string)
    ensures r != "" && |r| <= MaxFieldLength
    ensures ip.Some? && Trim(ip.value) != "" ==> r == Prefix(Trim(ip.value), MaxFieldLength)
    ensures ip.None? || Trim(ip.value) == "" ==> r == "unknown"
  {
    var normalized := if ip.Some? && Trim(ip.value) != "" then Trim(ip.value) else "unknown";
    Prefix(normalized, MaxFieldLength)
  }

  /** `normalizeUserAgent`: `null` when absent or empty, otherwise cut to 255
      characters (white space is kept). */
  function NormalizeUserAgent(userAgent: Option<string>): (r: Option<string>)
    ensures r.None? <==> userAgent.None? || userAgent.value == ""
    ensures r.Some? ==> r.value != "" && |r.value| <= MaxFieldLength && |r.value| <= |userAgent.value|
    ensures r.Some? ==> r.value == userAgent.value[..|r.value|]
  {
    if userAgent.None? || userAgent.value == "" then None else Some(Prefix(userAgent.value, MaxFieldLength))
  }

  /** Normalising a stored user agent again changes nothing. */
  lemma NormalizeUserAgentIdempotent(userAgent: Option<string>)
    ensures NormalizeUserAgent(NormalizeUserAgent(userAgent)) == NormalizeUserAgent(userAgent)
  {
  }

  /** A blank address is recorded as `unknown`; a short address is recorded trimmed. */
  lemma NormalizeIpExamples(ip: string)
    requires Trim(ip) != "" && |Trim(ip)| <= MaxFieldLength
    ensures NormalizeIp(Some(ip)) == Trim(ip)
    ensures NormalizeIp(Some("  ")) == "unknown"
  {
    TrimEmptyIff("  ");
  }

  // ------------------------------------------------------------ login and register

  /** The stored user a lookup by e-mail yields (`deleted` is `deletedAt` being set). */
  datatype UserRecord = UserRecord(id: string, isActive: bool, deleted: bool, passwordHash: string)

  /** The login attempt row, as last updated. */
  datatype LoginAttempt = LoginAttempt(
    userId: Option<string>,
    emailAttempted: string,
    ipAddress: string,
    userAgent: Option<string>,
    success: bool)

  /** Why a login fails: a refused request, or a misconfigured token lifetime or secret. */
  datatype LoginError = Rejected(reason: AuthError) | Misconfigured(config: ConfigError)

  datatype LoginResult = LoginResult(accessToken: string, refreshToken: string, refreshTokenExpiresInMs: nat)

  /** The environment the token issuers read. */
  datatype TokenConfig = TokenConfig(accessExpiry: string, refreshExpiry: string, accessSecret: string)

  /** `base64UrlEncode` and `toBase64Url` of `AuthService`. */
  function EncodeSegment(bytes: seq<Byte>): (r: string) {
    ToUrlSafeTrailing(StdEncode(bytes))
  }

  /** `generateRefreshToken`: 64 random bytes in base64url and the lifetime. */
  function RefreshToken(config: TokenConfig, random: seq<Byte>): (r: Result<(string, nat), ConfigError>)
    ensures r.Success? <==> RefreshLifetimeMs(config.refreshExpiry).Success?
  {
    match RefreshLifetimeMs(config.refreshExpiry)
    case Failure(e) => Failure(e)
    case Success(ms) => Success((EncodeSegment(random), ms))
  }

  /** The refresh token is the URL-safe encoding of the random bytes: 86
      characters for 64 bytes, decoding back to them. */
  lemma RefreshTokenShape(config: TokenConfig, random: seq<Byte>)
    requires RefreshToken(config, random).Success? && |random| == 64
    ensures var token := RefreshToken(config, random).value.0;
      |token| == 86 && IsUrlSafe(token) && UrlDecode(token) == Some(random)
  {
    ToUrlSafeOfStd(random);
    EncodedLengths(random);
    UrlEncodeIsUrlSafe(random);
    UrlRoundTrip(random);
  }

  /** `generateAccessToken` with `AuthService`'s own `signJwt`: lifetime first,
      then the secret; the claims are `sub` and `email` with `iat`/`exp`. */
  function AccessToken(config: TokenConfig, userId: string, email: string, nowMs: int, lib: J.Library): (r: Result<string, ConfigError>)
    ensures r.Success? <==> AccessLifetimeSeconds(config.accessExpiry).Success? && config.accessSecret != ""
  {
    match AccessLifetimeSeconds(config.accessExpiry)
    case Failure(e) => Failure(e)
    case Success(seconds) =>
      if config.accessSecret == "" then Failure(SecretUndefined)
      else Success(ServiceSignJwt([("sub", userId), ("email", email)], seconds, config.accessSecret, nowMs, lib))
  }

  /** `AuthService.signJwt`: the lifetime is already in whole seconds and the
      encoder strips only trailing `=`. */
  function ServiceSignJwt(fields: seq<(string, string)>, seconds: nat, secret: string, nowMs: int, lib: J.Library): (r: string) {
    var iat := J.IssuedAt(nowMs);
    var claims := J.Claims(fields, iat, iat + seconds);
    var data := EncodeSegment(lib.utf8(J.HeaderJson)) + "." + EncodeSegment(lib.utf8(lib.stringify(claims)));
    data + "." + EncodeSegment(lib.hmacSha256(secret, data))
  }

  lemma EncodeSegmentIsUrlEncode(bytes: seq<Byte>)
    ensures EncodeSegment(bytes) == UrlEncode(bytes) == J.Base64UrlEncode(bytes)
  {
    ToUrlSafeOfStd(bytes);
  }

  /** `ServiceSignJwt` segment by segment. */
  lemma ServiceSignJwtSegments(fields: seq<(string, string)>, seconds: nat, secret: string, nowMs: int, lib: J.Library)
    ensures var iat := J.IssuedAt(nowMs);
      var data := EncodeSegment(lib.utf8(J.HeaderJson)) + "." + EncodeSegment(lib.utf8(lib.stringify(J.Claims(fields, iat, iat + seconds))));
      ServiceSignJwt(fields, seconds, secret, nowMs, lib) == data + "." + EncodeSegment(lib.hmacSha256(secret, data))
  {
  }

  /** Both encoders agree on each segment, hence on the signed data and the signature. */
  lemma EncodersAgreeOnToken(hb: seq<Byte>, pb: seq<Byte>, secret: string, mac: (string, string) -> seq<Byte>)
    ensures var d := EncodeSegment(hb) + "." + EncodeSegment(pb);
      var e := J.Base64UrlEncode(hb) + "." + J.Base64UrlEncode(pb);
      d == e && d + "." + EncodeSegment(mac(secret, d)) == e + "." + J.Base64UrlEncode(mac(secret, e))
  {
    EncodeSegmentIsUrlEncode(hb);
    EncodeSegmentIsUrlEncode(pb);
    EncodeSegmentIsUrlEncode(mac(secret, EncodeSegment(hb) + "." + EncodeSegment(pb)));
  }

  /** The token both signers build from the header and claims bytes. */
  function StandardToken(hb: seq<Byte>, pb: seq<Byte>, secret: string, lib: J.Library): string {
    var e := J.Base64UrlEncode(hb) + "." + J.Base64UrlEncode(pb);
    e + "." + J.Base64UrlEncode(lib.hmacSha256(secret, e))
  }

  function ClaimsBytes(fields: seq<(string, string)>, seconds: nat, nowMs: int, lib: J.Library): seq<Byte> {
    lib.utf8(lib.stringify(J.Claims(fields, J.IssuedAt(nowMs), J.IssuedAt(nowMs) + seconds)))
  }

  lemma ServiceSignJwtIsStandard(fields: seq<(string, string)>, seconds: nat, secret: string, nowMs: int, lib: J.Library)
    ensures ServiceSignJwt(fields, seconds, secret, nowMs, lib) ==
      StandardToken(lib.utf8(J.HeaderJson), ClaimsBytes(fields, seconds, nowMs, lib), secret, lib)
  {
    ServiceSignJwtSegments(fields, seconds, secret, nowMs, lib);
    EncodersAgreeOnToken(lib.utf8(J.HeaderJson), ClaimsBytes(fields, seconds, nowMs, lib), secret, lib.hmacSha256);
  }

  lemma SignJwtIsStandard(fields: seq<(string, string)>, seconds: nat, secret: string, nowMs: int, lib: J.Library)
    requires seconds > 0 && secret != ""
    ensures J.SignJwt(fields, secret, Finite(seconds as real), nowMs, lib) ==
      Success(StandardToken(lib.utf8(J.HeaderJson), ClaimsBytes(fields, seconds, nowMs, lib), secret, lib))
  {
    var iat := J.IssuedAt(nowMs);
    assert Floor(seconds as real) == seconds;
    assert J.Claims(fields, iat, iat + Floor(seconds as real)) == J.Claims(fields, iat, iat + seconds);
    J.SignJwtSegments(fields, secret, seconds as real, nowMs, lib);
  }

  /** The service's private signer and the stand-alone `signJwt` produce the
      same token for the same claims, secret and lifetime. */
  lemma SignersAgree(fields: seq<(string, string)>, seconds: nat, secret: string, nowMs: int, lib: J.Library)
    requires seconds > 0 && secret != ""
    ensures J.SignJwt(fields, secret, Finite(seconds as real), nowMs, lib) == Success(ServiceSignJwt(fields, seconds, secret, nowMs, lib))
  {
    ServiceSignJwtIsStandard(fields, seconds, secret, nowMs, lib);
    SignJwtIsStandard(fields, seconds, secret, nowMs, lib);
  }

  /** The outcome of `login`: the attempt row (absent when the input is
      refused before it is written) and the result. */
  datatype LoginOutcome = LoginOutcome(attempt: Option<LoginAttempt>, result: Result<LoginResult, LoginError>)

  /** `login`: checks the input, records an attempt, looks the user up, refuses
      an unknown user, an inactive or deleted one and a wrong password, then
      marks the attempt successful and issues the refresh and access tokens. */
  function Login(
    payload: Option<Credentials>, ipAddress: Option<string>, userAgent: Option<string>,
    findUser: string -> Option<UserRecord>, passwordMatches: (string, string) -> bool,
    config: TokenConfig, nowMs: int, random: seq<Byte>, lib: J.Library): (r: LoginOutcome)
  {
    match CheckLoginInput(payload)
    case Failure(e) => LoginOutcome(None, Failure(Rejected(e)))
    case Success(input) =>
      var attempt := LoginAttempt(None, input.email, NormalizeIp(ipAddress), NormalizeUserAgent(userAgent), false);
      match findUser(input.email)
      case None => LoginOutcome(Some(attempt), Failure(Rejected(InvalidCredentials)))
      case Some(user) =>
        if !user.isActive || user.deleted then
          LoginOutcome(Some(attempt.(userId := Some(user.id))), Failure(Rejected(AccessDenied)))
        else if !passwordMatches(input.password, user.passwordHash) then
          LoginOutcome(Some(attempt.(userId := Some(user.id))), Failure(Rejected(InvalidCredentials)))
        else
          var recorded := Some(attempt.(userId := Some(user.id), success := true));
          match RefreshToken(config, random)
          case Failure(e) => LoginOutcome(recorded, Failure(Misconfigured(e)))
          case Success((refresh, ms)) =>
            match AccessToken(config, user.id, input.email, nowMs, lib)
            case Failure(e) => LoginOutcome(recorded, Failure(Misconfigured(e)))
            case Success(access) => LoginOutcome(recorded, Success(LoginResult(access, refresh, ms)))
  }

  /** A login is refused for a reason exactly when the input is bad, the user
      is unknown, inactive or deleted, or the password does not match; the
      attempt is written exactly when the input passes, with the normalised
      e-mail, and is marked successful exactly when the credentials are
      accepted, even if issuing the tokens then fails. */
  lemma LoginMeaning(
    payload: Option<Credentials>, ipAddress: Option<string>, userAgent: Option<string>,
    findUser: string -> Option<UserRecord>, passwordMatches: (string, string) -> bool,
    config: TokenConfig, nowMs: int, random: seq<Byte>, lib: J.Library)
    ensures var o := Login(payload, ipAddress, userAgent, findUser, passwordMatches, config, nowMs, random, lib);
      var input := CheckLoginInput(payload);
      var accepted := input.Success? && findUser(input.value.email).Some? &&
        findUser(input.value.email).value.isActive && !findUser(input.value.email).value.deleted &&
        passwordMatches(input.value.password, findUser(input.value.email).value.passwordHash);
      (o.attempt.Some? <==> input.Success?) &&
      (o.attempt.Some? ==>
        o.attempt.value.emailAttempted == input.value.email &&
        o.attempt.value.ipAddress == NormalizeIp(ipAddress) && o.attempt.value.userAgent == NormalizeUserAgent(userAgent) &&
        o.attempt.value.success == accepted) &&
      (o.result.Failure? && o.result.error.Rejected? <==> !accepted) &&
      (o.result.Success? <==>
        accepted && RefreshLifetimeMs(config.refreshExpiry).Success? &&
        AccessLifetimeSeconds(config.accessExpiry).Success? && config.accessSecret != "")
  {
  }

  /** The outcome of `register`: the new user's e-mail and the hashing call. */
  datatype NewUser = NewUser(email: string, hash: B.HashCall)

  /** `register`: checks the input, refuses an e-mail held by a user who is
      active or not deleted, then hashes the password with the default cost. */
  function Register(payload: Option<Credentials>, findUser: string -> Option<UserRecord>): (r: Result<NewUser, AuthError>)
    ensures CheckRegisterInput(payload).Failure? ==> r == Failure(CheckRegisterInput(payload).error)
  {
    match CheckRegisterInput(payload)
    case Failure(e) => Failure(e)
    case Success(input) =>
      var existing := findUser(input.email);
      if existing.Some? && (existing.value.isActive || !existing.value.deleted) then Failure(RegistrationConflict)
      else
        match B.GenerateBcryptHash(input.password, None)
        case Failure(_) => Failure(WeakPassword)
        case Success(call) => Success(NewUser(input.email, call))
  }

  /** Valid input registers exactly when no user holds the e-mail or that user
      is both inactive and deleted; the password is then hashed with cost 12,
      which never fails since the password is not empty. */
  lemma RegisterMeaning(payload: Option<Credentials>, findUser: string -> Option<UserRecord>)
    requires CheckRegisterInput(payload).Success?
    ensures var input := CheckRegisterInput(payload).value;
      var existing := findUser(input.email);
      var r := Register(payload, findUser);
      (r == Failure(RegistrationConflict) <==> existing.Some? && (existing.value.isActive || !existing.value.deleted)) &&
      (r.Success? <==> existing.None? || (!existing.value.isActive && existing.value.deleted)) &&
      (r.Success? ==> r.value == NewUser(input.email, B.HashCall(input.password, B.DefaultCost)))
  {
    var input := CheckRegisterInput(payload).value;
    B.DefaultCostIsTwelve(input.password);
  }
}
