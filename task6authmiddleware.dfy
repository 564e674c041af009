/**
 * Task_6 authentication middleware: bearer header, `jwt.Parse` with the
 * HMAC-only `TokenParser`, then its own check of the "expiration" claim.
 */
module Task6AuthMiddleware {
  import opened Common
  import opened GoStrings
  import opened Gin
  import opened Jwt
  import opened BearerAuth
  import Task6AuthController

  const MsgHeaderRequired: string := "Authorization header is required"
  const MsgInvalidHeader: string := "invalid authorization header"
  const MsgInvalidJwt: string := "invalid JWT"
  const MsgJwtExpired: string := "JWT is expired"

  /** The "expiration" claim is a number no earlier than `now`. */
  predicate NotExpired(claims: Claims, now: int)
  {
    "expiration" in claims && claims["expiration"].Num? && now <= claims["expiration"].n
  }

  /**
   * `AuthenticateUser`'s decision for a request carrying `header` at time
   * `now`. The branch for claims that are not a `jwt.MapClaims` cannot be
   * taken: `jwt.Parse` always produces them.
   */
  function Authenticate(header: string, secret: string, decode: string -> TokenString, now: int): (d: AuthDecision)
    ensures header == "" ==> d == Rejected(MsgHeaderRequired)
    ensures header != "" && BearerToken(header).None? ==> d == Rejected(MsgInvalidHeader)
    ensures d.Accepted? <==>
      BearerToken(header).Some?
      && Parse(decode(BearerToken(header).value), ExpectHmac(secret), now).ParsedValid?
      && NotExpired(Parse(decode(BearerToken(header).value), ExpectHmac(secret), now).claims, now)
    ensures (header != "" && BearerToken(header).Some?
             && !Parse(decode(BearerToken(header).value), ExpectHmac(secret), now).ParsedValid?) ==>
      d == Rejected(MsgInvalidJwt)
    ensures (header != "" && BearerToken(header).Some?
             && Parse(decode(BearerToken(header).value), ExpectHmac(secret), now).ParsedValid?
             && !NotExpired(Parse(decode(BearerToken(header).value), ExpectHmac(secret), now).claims, now)) ==>
      d == Rejected(MsgJwtExpired)
    ensures d.Accepted? ==> d.claims == decode(BearerToken(header).value).token.claims
    ensures d.Rejected? ==> d.message in {MsgHeaderRequired, MsgInvalidHeader, MsgInvalidJwt, MsgJwtExpired}
  {
    if header == "" then Rejected(MsgHeaderRequired)
    else match BearerToken(header)
      case None => Rejected(MsgInvalidHeader)
      case Some(token) =>
        match Parse(decode(token), ExpectHmac(secret), now)
        case ParsedValid(claims) =>
          if NotExpired(claims, now) then Accepted(claims) else Rejected(MsgJwtExpired)
        case _ => Rejected(MsgInvalidJwt)
  }

  /** `AuthenticateUser`: the decision, answered with 401 and abort, or stored claims and `c.Next()`. */
  method AuthenticateUser<P>(c: Context<P>, header: string, secret: string, decode: string -> TokenString, now: int)
    modifies c
    ensures var d := Authenticate(header, secret, decode, now);
      && (d.Rejected? ==>
            c.written == old(c.written) + [Response(401, ErrorMsg(d.message))] && c.aborted
            && c.keys == old(c.keys) && c.nextCalled == old(c.nextCalled))
      && (d.Accepted? ==>
            c.keys == old(c.keys)["claims" := MapClaimsValue(d.claims)] && c.nextCalled
            && c.written == old(c.written) && c.aborted == old(c.aborted))
  {
    var d := Authenticate(header, secret, decode, now);
    ApplyDecision(c, d);
  }

  /**
   * The token login issues, sent as "Bearer <token>", is accepted for a day
   * (through second `issuedAt + 86400`) and then answered "JWT is expired";
   * the role check that follows reads the user's role.
   */
  lemma IssuedTokenAccepted(userId: string, email: string, role: string, secret: string,
                            issuedAt: int, now: int, codec: Codec)
    requires Faithful(codec)
    ensures var token := Task6AuthController.GenerateSignedToken(userId, email, role, secret, issuedAt, codec, None).value;
      var claims := Task6AuthController.TokenClaims(userId, email, role, issuedAt + Task6AuthController.TokenLifetime);
      && Authenticate("Bearer " + token, secret, codec.decode, now)
         == (if now <= issuedAt + Task6AuthController.TokenLifetime then Accepted(claims) else Rejected(MsgJwtExpired))
      && RoleFromKeys(map["claims" := MapClaimsValue(claims)], "user_role") == Ok(role)
  {
    var claims := Task6AuthController.TokenClaims(userId, email, role, issuedAt + Task6AuthController.TokenLifetime);
    var t := Token(HS256, claims, secret);
    var token := codec.encode(t);
    BearerHeader(token);
    RoundTrip(t, codec, ExpectHmac(secret), now);
    Task6AuthController.ParseIgnoresExpiration(userId, email, role, issuedAt + Task6AuthController.TokenLifetime, now);
  }

  /** A token without an "expiration" number, however valid for `jwt.Parse`, is always answered "JWT is expired". */
  lemma NoExpirationRejected(t: Token, secret: string, codec: Codec, now: int)
    requires Faithful(codec) && t.alg.IsHmac() && t.key == secret && ClaimsValid(t.claims, now)
    requires "expiration" !in t.claims || !t.claims["expiration"].Num?
    ensures Authenticate("Bearer " + codec.encode(t), secret, codec.decode, now) == Rejected(MsgJwtExpired)
  {
    BearerHeader(codec.encode(t));
  }

  /** Signed with another secret, or with a method that is not HMAC, a token is answered "invalid JWT". */
  lemma ForeignTokenRejected(t: Token, secret: string, codec: Codec, now: int)
    requires Faithful(codec) && (t.key != secret || !t.alg.IsHmac())
    ensures Authenticate("Bearer " + codec.encode(t), secret, codec.decode, now) == Rejected(MsgInvalidJwt)
  {
    BearerHeader(codec.encode(t));
  }
}
