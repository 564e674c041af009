/**
 * The token service of the clean-architecture versions (Task_7 and Task_8):
 * issuing an HS256 access token whose expiry is `expiry` hours from now
 * (the same code in both), checking a token (Task_7's `IsAuthorized`
 * answers a boolean, Task_8's returns `jwt.Parse`'s outcome), and reading
 * id and role back.
 */
module AccessTokens {
  import opened Common
  import opened Jwt
  import opened Users

  const TwoTo63: int := 0x8000_0000_0000_0000
  const NanosPerSecond: int := 1_000_000_000
  /** `time.Hour`, a `time.Duration` in nanoseconds. */
  const NanosPerHour: int := 3_600_000_000_000

  /** The range of Go's `int` and `int64`. */
  predicate InInt64(x: int) { -TwoTo63 <= x < TwoTo63 }

  /** The int64 result of an arithmetic operation whose exact value is `x` (two's complement wrap-around). */
  function Wrap64(x: int): (r: int)
    ensures InInt64(r)
    ensures (x - r) % (2 * TwoTo63) == 0
    ensures InInt64(x) ==> r == x
  {
    (x + TwoTo63) % (2 * TwoTo63) - TwoTo63
  }

  /**
   * `time.Now().Add(time.Hour * time.Duration(expiry)).Unix()` for a clock
   * reading of `now` whole seconds: the product wraps at 64 bits (wrapping
   * `expiry` first would give the same result), and adding a negative duration
   * rounds the seconds down.
   */
  function ExpiresAt(now: int, expiry: int): (r: int)
    ensures now - 9_223_372_037 <= r <= now + 9_223_372_036
  {
    now + Wrap64(expiry * NanosPerHour) / NanosPerSecond
  }

  /** Up to 2562047 hours either way the product fits, and the expiry is exactly `expiry` hours away. */
  lemma ExpiresAtExact(now: int, expiry: int)
    requires -2562047 <= expiry <= 2562047
    ensures ExpiresAt(now, expiry) == now + expiry * 3600
  {
    assert expiry * NanosPerHour == (expiry * 3600) * NanosPerSecond;
    assert InInt64(expiry * NanosPerHour);
  }

  /** Within that range a positive expiry lies in the future and any other at or before now. */
  lemma ExpiresAtSign(now: int, expiry: int)
    requires -2562047 <= expiry <= 2562047
    ensures expiry > 0 <==> ExpiresAt(now, expiry) > now
  {
    ExpiresAtExact(now, expiry);
  }

  /** One hour more, 2562048, overflows the duration: the token expires about 292 years in the past. */
  lemma ExpiryOverflow(now: int)
    ensures ExpiresAt(now, 2562048) < now
    ensures ExpiresAt(now, 2562048) == now - 9223371274
  {
    assert 2562048 * NanosPerHour - 2 * TwoTo63 == -9223371273709551616;
    assert Wrap64(2562048 * NanosPerHour) == -9223371273709551616;
  }

  /**
   * The claims `JWTCustomClaims` serialises to: name, id and role, and the
   * standard "exp" claim only when it is not 0 (`omitempty`).
   */
  function AccessClaims(name: string, id: string, role: string, exp: int): (claims: Claims)
    ensures claims.Keys == {"name", "id", "role"} + (if exp != 0 then {"exp"} else {})
    ensures claims["name"] == Str(name) && claims["id"] == Str(id) && claims["role"] == Str(role)
    ensures exp != 0 ==> claims["exp"] == Num(exp)
  {
    var base := map["name" := Str(name), "id" := Str(id), "role" := Str(role)];
    if exp != 0 then base["exp" := Num(exp)] else base
  }

  /** The claims are valid exactly up to and including the second they expire at; with no "exp" they always are. */
  lemma AccessClaimsValid(name: string, id: string, role: string, exp: int, now: int)
    ensures ClaimsValid(AccessClaims(name, id, role, exp), now) <==> exp == 0 || now <= exp
  {
  }

  /** The token `CreateAccessToken` signs. The id is written with `Hex()`, without the `ObjectID(...)` wrapper. */
  function AccessToken(user: User, secret: string, expiry: int, now: int): Token
  {
    Token(HS256, AccessClaims(user.name, Hex(user.id), user.role, ExpiresAt(now, expiry)), secret)
  }

  /** `CreateAccessToken(user, secret, expiry)`: a signing error is returned as it is. */
  function CreateAccessToken(user: User, secret: string, expiry: int, now: int,
                             codec: Codec, signError: Option<string>): (r: Result<string>)
    ensures r.Ok? <==> signError.None?
    ensures r.Err? ==> r.error == signError.value
    ensures r.Ok? ==> r.value == codec.encode(AccessToken(user, secret, expiry, now))
  {
    SignedString(AccessToken(user, secret, expiry, now), codec, signError)
  }

  /**
   * The `jwt.Parse` call with the `unexpected signing method` callback that
   * both `IsAuthorized` and `ExtractInfoFromToken` make: valid exactly for a
   * well-formed HMAC token signed with `secret` whose claims hold at `now`.
   */
  function Authorize(tokenString: string, secret: string, decode: string -> TokenString, now: int): (r: ParseOutcome)
    ensures r.ParsedValid? <==>
      decode(tokenString).Encoded? && decode(tokenString).token.alg.IsHmac()
      && decode(tokenString).token.key == secret && ClaimsValid(decode(tokenString).token.claims, now)
    ensures r.Unparsed? <==> decode(tokenString).Malformed? && decode(tokenString).segments != 3
    ensures r.ParsedValid? ==> r.claims == decode(tokenString).token.claims
    ensures decode(tokenString).Encoded? && !decode(tokenString).token.alg.IsHmac() ==>
      r == ParsedInvalid(decode(tokenString).token.claims,
                         Unverifiable("unexpected signing method: " + decode(tokenString).token.alg.Name()))
  {
    Parse(decode(tokenString), ExpectHmac(secret), now)
  }

  /** Task_7's `IsAuthorized`: `(true, nil)` for a valid token, otherwise `false` and the parse error. */
  function IsAuthorized(tokenString: string, secret: string, decode: string -> TokenString, now: int): (r: (bool, Option<ParseError>))
    ensures r.0 <==> Authorize(tokenString, secret, decode, now).ParsedValid?
    ensures r.0 <==> r.1.None?
    ensures !r.0 ==> r.1 == Some(Authorize(tokenString, secret, decode, now).err)
  {
    match Authorize(tokenString, secret, decode, now)
    case ParsedValid(_) => (true, None)
    case ParsedInvalid(_, e) => (false, Some(e))
    case Unparsed(e) => (false, Some(e))
  }

  /** What `ExtractInfoFromToken` gives: id and role, the parse error, or a panic on a missing or non-string claim. */
  datatype Extracted = Info(id: string, role: string) | ExtractError(err: ParseError) | Panics(claim: string)

  /**
   * `ExtractInfoFromToken`: a parse error is returned; otherwise the token is
   * valid and its claims are a `jwt.MapClaims`, so the `invalid token` branch
   * cannot be taken, and the assertions `claims["id"].(string)` then
   * `claims["role"].(string)` panic on a claim that is missing or not a string.
   */
  function ExtractInfoFromToken(tokenString: string, secret: string, decode: string -> TokenString, now: int): (r: Extracted)
    ensures r.ExtractError? <==> !Authorize(tokenString, secret, decode, now).ParsedValid?
    ensures r.ExtractError? ==> r.err == Authorize(tokenString, secret, decode, now).err
    ensures r.Info? ==> var claims := Authorize(tokenString, secret, decode, now).claims;
      "id" in claims && claims["id"] == Str(r.id) && "role" in claims && claims["role"] == Str(r.role)
    ensures r.Panics? ==> r.claim in {"id", "role"}
  {
    match Authorize(tokenString, secret, decode, now)
    case Unparsed(e) => ExtractError(e)
    case ParsedInvalid(_, e) => ExtractError(e)
    case ParsedValid(claims) =>
      if "id" !in claims || !claims["id"].Str? then Panics("id")
      else if "role" !in claims || !claims["role"].Str? then Panics("role")
      else Info(claims["id"].s, claims["role"].s)
  }

  /**
   * An issued token, read back with the same secret at time `later`, yields the
   * user's hex id and role while it has not expired, and an error afterwards;
   * it never panics.
   */
  lemma IssuedTokenExtracts(user: User, secret: string, expiry: int, now: int, later: int, codec: Codec)
    requires Faithful(codec)
    ensures var exp := ExpiresAt(now, expiry);
      var token := CreateAccessToken(user, secret, expiry, now, codec, None).value;
      ExtractInfoFromToken(token, secret, codec.decode, later)
        == if exp == 0 || later <= exp then Info(Hex(user.id), user.role) else ExtractError(Invalid(true, false))
  {
    var t := AccessToken(user, secret, expiry, now);
    RoundTrip(t, codec, ExpectHmac(secret), later);
    AccessClaimsValid(user.name, Hex(user.id), user.role, ExpiresAt(now, expiry), later);
  }

  /** Read back with any other secret, an issued token is refused whatever the time. */
  lemma OtherSecretRefused(user: User, secret: string, other: string, expiry: int, now: int, later: int, codec: Codec)
    requires Faithful(codec) && other != secret
    ensures var token := CreateAccessToken(user, secret, expiry, now, codec, None).value;
      !IsAuthorized(token, other, codec.decode, later).0
      && ExtractInfoFromToken(token, other, codec.decode, later).ExtractError?
  {
  }

  /** A token issued with a non-positive expiry in range is refused from the next second on. */
  lemma NonPositiveExpiryRefused(user: User, secret: string, expiry: int, now: int, codec: Codec)
    requires -2562047 <= expiry <= 0 && Faithful(codec) && ExpiresAt(now, expiry) != 0
    ensures var token := CreateAccessToken(user, secret, expiry, now, codec, None).value;
      !IsAuthorized(token, secret, codec.decode, now + 1).0
  {
    ExpiresAtExact(now, expiry);
    AccessClaimsValid(user.name, Hex(user.id), user.role, ExpiresAt(now, expiry), now + 1);
  }
}
