/**
 * Task_7 authentication middleware: bearer header, `jwt.Parse` with an
 * HMAC-only callback, and one answer, "unauthorized user", for every token
 * that fails.
 */
module Task7AuthMiddleware {
  import opened Common
  import opened Gin
  import opened Jwt
  import opened Users
  import opened BearerAuth
  import opened AccessTokens

  const MsgHeaderRequired: string := "Authorization header is required"
  const MsgInvalidHeader: string := "invalid authorization header"
  const MsgInvalidSigningMethod: string := "invalid signing method"

  /** `JWTAuthMiddleware`'s decision for a request carrying `header` at time `now`. */
  function Authenticate(header: string, secret: string, decode: string -> TokenString, now: int): (d: AuthDecision)
    ensures header == "" ==> d == Rejected(MsgHeaderRequired)
    ensures header != "" && BearerToken(header).None? ==> d == Rejected(MsgInvalidHeader)
    ensures d.Accepted? <==>
      && BearerToken(header).Some?
      && decode(BearerToken(header).value).Encoded?
      && decode(BearerToken(header).value).token.alg.IsHmac()
      && decode(BearerToken(header).value).token.key == secret
      && ClaimsValid(decode(BearerToken(header).value).token.claims, now)
    ensures d.Accepted? ==> d.claims == decode(BearerToken(header).value).token.claims
    ensures header != "" && BearerToken(header).Some? && d.Rejected? ==> d.message == MsgUnauthorizedUser
  {
    if header == "" then Rejected(MsgHeaderRequired)
    else match BearerToken(header)
      case None => Rejected(MsgInvalidHeader)
      case Some(token) =>
        match Parse(decode(token), HmacKeyFunc(secret, MsgInvalidSigningMethod), now)
        case ParsedValid(claims) => Accepted(claims)
        case _ => Rejected(MsgUnauthorizedUser)
  }

  /** `JWTAuthMiddleware`: the decision, answered with 401 and abort, or stored claims and `c.Next()`. */
  method JWTAuthMiddleware<P>(c: Context<P>, header: string, secret: string, decode: string -> TokenString, now: int)
    modifies c
    ensures var d := Authenticate(header, secret, decode, now);
      && (d.Rejected? ==>
            c.written == old(c.written) + [Response(401, ErrorMsg(d.message))] && c.aborted
            && c.keys == old(c.keys) && c.nextCalled == old(c.nextCalled))
      && (d.Accepted? ==>
            c.keys == old(c.keys)["claims" := MapClaimsValue(d.claims)] && c.nextCalled
            && c.written == old(c.written) && c.aborted == old(c.aborted))
  {
    var d := Authenticate(header, secret, decode, now);
    ApplyDecision(c, d);
  }

  /**
   * An access token, sent as "Bearer <token>", is accepted until it expires
   * and then answered "unauthorized user"; once accepted, the "role" lookup of
   * the admin gate reads the user's role.
   */
  lemma IssuedTokenAccepted(user: User, secret: string, expiry: int, issuedAt: int, now: int, codec: Codec)
    requires Faithful(codec)
    ensures var token := CreateAccessToken(user, secret, expiry, issuedAt, codec, None).value;
      var exp := ExpiresAt(issuedAt, expiry);
      var claims := AccessClaims(user.name, Hex(user.id), user.role, exp);
      && Authenticate("Bearer " + token, secret, codec.decode, now)
         == (if exp == 0 || now <= exp then Accepted(claims) else Rejected(MsgUnauthorizedUser))
      && RoleFromKeys(map["claims" := MapClaimsValue(claims)], "role") == Ok(user.role)
  {
    var t := AccessToken(user, secret, expiry, issuedAt);
    BearerHeader(codec.encode(t));
    RoundTrip(t, codec, HmacKeyFunc(secret, MsgInvalidSigningMethod), now);
    AccessClaimsValid(user.name, Hex(user.id), user.role, ExpiresAt(issuedAt, expiry), now);
  }
}
