/**
 * Task_7 user controller: the same register, login and promotion flows
 * over an abstract use-case layer, with its own messages, the bootstrap rule
 * that returns the count's error, and the access token of the token service.
 */
module Task7UserController {
  import opened Common
  import opened Gin
  import opened Jwt
  import opened Users
  import opened Directory
  import opened Accounts
  import opened AccessTokens

  const MsgLoginUnknown: string := "user doesnt't exists"
  const MsgIncorrectPassword: string := "incorrect password"

  /** The two settings of `bootstrap.Env` the login reads. */
  datatype Env = Env(accessTokenSecret: string, accessTokenExpiryHour: int)

  /** The token login issues at clock reading `now`: `CreateAccessToken` with the configured secret and expiry. */
  function SignFor(env: Env, now: int, codec: Codec, signError: Option<string>): User -> Result<string>
  {
    (u: User) => CreateAccessToken(u, env.accessTokenSecret, env.accessTokenExpiryHour, now, codec, signError)
  }

  /** An error from `AreThereAnyUsers` refuses every request that passed the local checks, with 406 and that error. */
  lemma CountErrorRefuses(docs: seq<User>, u: NewUser, e: string, faults: Faults, newId: ObjectId)
    requires LocalChecks(u.name, u.password, u.role).None?
    ensures Register(docs, Some(u), Validator(Err(e)), faults, newId) == Outcome(Response(406, ErrorMsg(e)), docs)
  {
  }

  /**
   * A successful login answers with a token that, read back with the
   * configured secret, yields the stored user's hex id and role until it
   * expires `accessTokenExpiryHour` hours after `now`.
   */
  lemma LoginTokenExtracts(docs: seq<User>, login: LoginData, env: Env, now: int, later: int, codec: Codec)
    requires Faithful(codec)
    requires LoggedIn(docs, login, None, MsgLoginUnknown, MsgIncorrectPassword, SignFor(env, now, codec, None)).status == 200
    ensures var u := ByEmail(docs, login.email).value;
      var reply := LoggedIn(docs, login, None, MsgLoginUnknown, MsgIncorrectPassword, SignFor(env, now, codec, None));
      var exp := ExpiresAt(now, env.accessTokenExpiryHour);
      && reply.body.MessageToken?
      && ExtractInfoFromToken(reply.body.token, env.accessTokenSecret, codec.decode, later)
         == (if exp == 0 || later <= exp then Info(Hex(u.id), u.role) else ExtractError(Invalid(true, false)))
  {
    LoginTokenFromStoredRecord(docs, login, None, MsgLoginUnknown, MsgIncorrectPassword, SignFor(env, now, codec, None));
    var u := ByEmail(docs, login.email).value;
    IssuedTokenExtracts(u, env.accessTokenSecret, env.accessTokenExpiryHour, now, later, codec);
  }
}
