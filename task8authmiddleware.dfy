/**
 * Task_8 middlewares: authentication that tells "token has expired" from
 * "unauthorized user" by whether `jwt.Parse` returned a token at all, and the
 * ADMIN gate on the "role" claim.
 */
module Task8AuthMiddleware {
  import opened Common
  import opened GoStrings
  import opened Gin
  import opened Jwt
  import opened Users
  import opened BearerAuth
  import opened AccessTokens

  const MsgHeaderRequired: string := "authorization header is required"
  const MsgInvalidHeader: string := "invalid authorization header"
  const MsgTokenExpired: string := "token has expired"

  /**
   * `JWTAuthMiddleware`'s decision: a token that was returned but is not
   * valid is checked first and answered "token has expired", whatever made it
   * invalid; only a token that could not be split into three segments reaches
   * the "unauthorized user" branch.
   */
  function Authenticate(header: string, secret: string, decode: string -> TokenString, now: int): (d: AuthDecision)
    ensures header == "" ==> d == Rejected(MsgHeaderRequired)
    ensures header != "" && BearerToken(header).None? ==> d == Rejected(MsgInvalidHeader)
    ensures header != "" && BearerToken(header).Some? ==>
      var outcome := Authorize(BearerToken(header).value, secret, decode, now);
      && (outcome.ParsedValid? <==> d.Accepted?)
      && (outcome.ParsedValid? ==> d == Accepted(outcome.claims))
      && (outcome.ParsedInvalid? <==> d == Rejected(MsgTokenExpired))
      && (outcome.Unparsed? <==> d == Rejected(MsgUnauthorizedUser))
  {
    if header == "" then Rejected(MsgHeaderRequired)
    else match BearerToken(header)
      case None => Rejected(MsgInvalidHeader)
      case Some(token) =>
        match Authorize(token, secret, decode, now)
        case ParsedInvalid(_, _) => Rejected(MsgTokenExpired)
        case Unparsed(_) => Rejected(MsgUnauthorizedUser)
        case ParsedValid(claims) => Accepted(claims)
  }

  /** `JWTAuthMiddleware`: the decision, answered with 401 and abort, or stored claims and `c.Next()`. */
  method JWTAuthMiddleware<P>(c: Context<P>, header: string, secret: string, decode: string -> TokenString, now: int)
    modifies c
    ensures var d := Authenticate(header, secret, decode, now);
      && (d.Rejected? ==>
            c.written == old(c.written) + [Response(401, ErrorMsg(d.message))] && c.aborted
            && c.keys == old(c.keys) && c.nextCalled == old(c.nextCalled))
      && (d.Accepted? ==>
            c.keys == old(c.keys)["claims" := MapClaimsValue(d.claims)] && c.nextCalled
            && c.written == old(c.written) && c.aborted == old(c.aborted))
  {
    var d := Authenticate(header, secret, decode, now);
    ApplyDecision(c, d);
  }

  /** An access token with a positive expiry (in range) is accepted when presented in the second it was issued. */
  lemma FreshTokenAccepted(user: User, secret: string, expiry: int, now: int, codec: Codec)
    requires Faithful(codec) && 0 < expiry <= 2562047
    ensures var token := CreateAccessToken(user, secret, expiry, now, codec, None).value;
      Authenticate("Bearer " + token, secret, codec.decode, now)
        == Accepted(AccessClaims(user.name, Hex(user.id), user.role, now + expiry * 3600))
  {
    var t := AccessToken(user, secret, expiry, now);
    ExpiresAtExact(now, expiry);
    BearerHeader(codec.encode(t));
    RoundTrip(t, codec, ExpectHmac(secret), now);
    AccessClaimsValid(user.name, Hex(user.id), user.role, ExpiresAt(now, expiry), now);
  }

  /** An access token made with expiry -1 is answered "token has expired" at once (unless its "exp" falls on 0). */
  lemma NegativeExpiryReportedExpired(user: User, secret: string, now: int, codec: Codec)
    requires Faithful(codec) && now != 3600
    ensures var token := CreateAccessToken(user, secret, -1, now, codec, None).value;
      Authenticate("Bearer " + token, secret, codec.decode, now) == Rejected(MsgTokenExpired)
  {
    var t := AccessToken(user, secret, -1, now);
    ExpiresAtExact(now, -1);
    BearerHeader(codec.encode(t));
    AccessClaimsValid(user.name, Hex(user.id), user.role, ExpiresAt(now, -1), now);
  }

  /** Because of the check order, a token signed with another secret is also answered "token has expired". */
  lemma OtherSecretReportedExpired(t: Token, secret: string, codec: Codec, now: int)
    requires Faithful(codec) && t.key != secret
    ensures Authenticate("Bearer " + codec.encode(t), secret, codec.decode, now) == Rejected(MsgTokenExpired)
  {
    BearerHeader(codec.encode(t));
  }

  /** A truncated token, one that does not split into three segments, is answered "unauthorized user". */
  lemma TruncatedTokenUnauthorized(token: string, secret: string, decode: string -> TokenString, now: int)
    requires ' ' !in token && decode(token).Malformed? && decode(token).segments != 3
    ensures Authenticate("Bearer " + token, secret, decode, now) == Rejected(MsgUnauthorizedUser)
  {
    BearerHeader(token);
  }

  /**
   * A header of two space-free parts whose scheme is not "bearer" in any case,
   * such as "invalid token", is answered "invalid authorization header".
   */
  lemma WrongSchemeRejected(scheme: string, token: string, secret: string, decode: string -> TokenString, now: int)
    requires ' ' !in scheme && ' ' !in token && ToLower(scheme) != "bearer"
    ensures Authenticate(scheme + " " + token, secret, decode, now) == Rejected(MsgInvalidHeader)
  {
    BearerTokenOfParts(scheme, token);
  }

  /** The admin gate compares exactly: a "role" claim of "admin" is refused, "ADMIN" let through. */
  lemma AdminComparisonExact(keys: map<string, CtxValue>, claims: Claims)
    requires "claims" in keys && keys["claims"] == MapClaimsValue(claims) && "role" in claims
    ensures claims["role"] == Str("admin") ==> RoleFromKeys(keys, "role") == Ok("admin") != Ok(RoleAdmin)
    ensures claims["role"] == Str(RoleAdmin) ==> RoleFromKeys(keys, "role") == Ok(RoleAdmin)
  {
  }
}
