/**
 * Task_6 controllers with authentication: registration adds the ADMIN
 * bootstrap rule, the login token carries a 24-hour "expiration" claim, and
 * promotion has no gate of its own (the router puts the middleware in front).
 */
module Task6AuthController {
  import opened Common
  import opened GoStrings
  import opened Gin
  import opened Jwt
  import opened Users
  import opened Directory
  import opened Accounts
  import opened BearerAuth
  import Task6Controller

  /** `24 * time.Hour`, in seconds. */
  const TokenLifetime: int := 86400

  /** The claims of `GenerateSignedToken`: user_id, email, user_role and "expiration" (not the standard "exp"). */
  function TokenClaims(userId: string, email: string, role: string, expiration: int): (claims: Claims)
    ensures claims.Keys == {"user_id", "email", "user_role", "expiration"}
    ensures claims["user_id"] == Str(userId) && claims["email"] == Str(email) && claims["user_role"] == Str(role)
    ensures claims["expiration"] == Num(expiration)
  {
    map["user_id" := Str(userId), "email" := Str(email), "user_role" := Str(role), "expiration" := Num(expiration)]
  }

  /** `GenerateSignedToken` at clock reading `now`: HS256 over `TokenClaims`, expiring a day later. */
  function GenerateSignedToken(userId: string, email: string, role: string, secret: string, now: int,
                               codec: Codec, signError: Option<string>): (r: Result<string>)
    ensures r.Ok? <==> signError.None?
    ensures r.Ok? ==> r.value == codec.encode(Token(HS256, TokenClaims(userId, email, role, now + TokenLifetime), secret))
  {
    SignedString(Token(HS256, TokenClaims(userId, email, role, now + TokenLifetime), secret), codec, signError)
  }

  /** `jwt.Parse` itself never rejects these tokens for their age: there is no "exp" claim. */
  lemma ParseIgnoresExpiration(userId: string, email: string, role: string, expiration: int, now: int)
    ensures ClaimsValid(TokenClaims(userId, email, role, expiration), now)
  {
  }

  function SignFor(secret: string, now: int, codec: Codec, signError: Option<string>): User -> Result<string>
  {
    (u: User) => GenerateSignedToken(IdString(u.id), u.email, u.role, secret, now, codec, signError)
  }

  /**
   * With a count that reports the collection truthfully, the first user may be
   * an ADMIN, and once anyone is registered an ADMIN request gets 406.
   */
  lemma BootstrapOnlyFirst(u: NewUser, docs: seq<User>, newId: ObjectId)
    requires u.role == RoleAdmin && LocalChecks(u.name, u.password, u.role).None?
    ensures docs == [] ==>
      Register(docs, Some(u), Validator(Ok(false)), NoFaults, newId)
        == Outcome(Response(200, Message(MsgRegistered)), [StoredUser(u, newId)])
    ensures docs != [] ==>
      Register(docs, Some(u), Validator(Ok(true)), NoFaults, newId)
        == Outcome(Response(406, ErrorMsg(MsgAdminBootstrap)), docs)
  {
  }

  /**
   * A successful login at time `now` answers with a token carrying the stored
   * user's `ObjectID("<hex>")` id, email and role, expiring a day later.
   */
  lemma LoginToken(docs: seq<User>, login: LoginData, secret: string, now: int, codec: Codec)
    requires Faithful(codec)
    requires LoggedIn(docs, login, None, Task6Controller.MsgLoginUnknown, Task6Controller.MsgIncorrectPassword,
                      SignFor(secret, now, codec, None)).status == 200
    ensures var u := ByEmail(docs, login.email).value;
      var reply := LoggedIn(docs, login, None, Task6Controller.MsgLoginUnknown, Task6Controller.MsgIncorrectPassword,
                            SignFor(secret, now, codec, None));
      && reply.body.MessageToken?
      && codec.decode(reply.body.token)
         == Encoded(Token(HS256, TokenClaims(IdString(u.id), u.email, u.role, now + TokenLifetime), secret))
  {
    LoginTokenFromStoredRecord(docs, login, None, Task6Controller.MsgLoginUnknown, Task6Controller.MsgIncorrectPassword,
                               SignFor(secret, now, codec, None));
  }
}
