/**
 * Task_6 controllers (MongoDB, no middleware): registration without the
 * ADMIN bootstrap rule, login with a token that never expires, and ADMIN
 * gates written inline at the top of the promotion and task handlers.
 */
module Task6Controller {
  import opened Common
  import opened Gin
  import opened Jwt
  import opened Users
  import opened Directory
  import opened PasswordHash
  import opened Accounts
  import opened BearerAuth
  import opened GoStrings

  const MsgLoginUnknown: string := "user doesn't exists"
  const MsgIncorrectPassword: string := "Incorrect password"
  const MsgInvalidBody: string := "invalid request body"
  const MsgTaskAdded: string := "task added successfully"
  const MsgTaskUpdated: string := "task updated successfully"
  const MsgTaskDeleted: string := "task deleted successfully"

  /** `ValidateUserInfo`: the three local checks and nothing else. */
  function ValidateUserInfo(u: NewUser): (err: Option<string>)
    ensures err.None? <==> Utf8Len(u.password) >= 6 && (u.role == RoleAdmin || u.role == RoleUser) && |u.name| > 0
    ensures err.Some? ==> err.value in {MsgShortPassword, MsgInvalidRole, MsgEmptyName}
    ensures Utf8Len(u.password) < 6 ==> err == Some(MsgShortPassword)
  {
    LocalChecks(u.name, u.password, u.role)
  }

  /** The claims of `GenerateSignedToken`: user_id, email and user_role, with no expiry of any kind. */
  function TokenClaims(userId: string, email: string, role: string): (claims: Claims)
    ensures claims.Keys == {"user_id", "email", "user_role"}
    ensures claims["user_id"] == Str(userId) && claims["email"] == Str(email) && claims["user_role"] == Str(role)
  {
    map["user_id" := Str(userId), "email" := Str(email), "user_role" := Str(role)]
  }

  /** `GenerateSignedToken`: an HS256 token over `TokenClaims`, signed with the secret. */
  function GenerateSignedToken(userId: string, email: string, role: string, secret: string,
                               codec: Codec, signError: Option<string>): (r: Result<string>)
    ensures r.Ok? <==> signError.None?
    ensures r.Ok? ==> r.value == codec.encode(Token(HS256, TokenClaims(userId, email, role), secret))
  {
    SignedString(Token(HS256, TokenClaims(userId, email, role), secret), codec, signError)
  }

  /**
   * A token read back with the secret is valid at every time, and the role
   * lookup on its claims gives the role it was made for.
   */
  lemma SignedTokenNeverExpires(userId: string, email: string, role: string, secret: string,
                                codec: Codec, keyFunc: SigningMethod -> KeyResult, now: int)
    requires Faithful(codec)
    requires keyFunc(HS256) == Key(secret)
    ensures var token := GenerateSignedToken(userId, email, role, secret, codec, None).value;
      && Parse(codec.decode(token), keyFunc, now) == ParsedValid(TokenClaims(userId, email, role))
      && RoleFromKeys(map["claims" := MapClaimsValue(TokenClaims(userId, email, role))], "user_role") == Ok(role)
  {
    RoundTrip(Token(HS256, TokenClaims(userId, email, role), secret), codec, keyFunc, now);
  }

  /** The token login issues for a stored user: its id is written with `String()`, as `ObjectID("<hex>")`. */
  function SignFor(secret: string, codec: Codec, signError: Option<string>): User -> Result<string>
  {
    (u: User) => GenerateSignedToken(IdString(u.id), u.email, u.role, secret, codec, signError)
  }

  /** With no bootstrap rule, a valid ADMIN request with a new email registers however many users exist. */
  lemma AdminRegistersAnyTime(docs: seq<User>, u: NewUser, newId: ObjectId)
    requires u.role == RoleAdmin && Utf8Len(u.password) >= 6 && |u.name| > 0
    requires forall i :: 0 <= i < |docs| ==> docs[i].email != u.email
    ensures Register(docs, Some(u), ValidateUserInfo, NoFaults, newId)
      == Outcome(Response(200, Message(MsgRegistered)), docs + [StoredUser(u, newId)])
  {
    assert forall v :: v in docs ==> v.email != u.email;
  }

  /**
   * A successful login answers with a token that reads back, with the same
   * secret, to the stored user's `ObjectID("<hex>")` id, email and role.
   */
  lemma LoginToken(docs: seq<User>, login: LoginData, secret: string, codec: Codec,
                   keyFunc: SigningMethod -> KeyResult, now: int)
    requires Faithful(codec) && keyFunc(HS256) == Key(secret)
    requires LoggedIn(docs, login, None, MsgLoginUnknown, MsgIncorrectPassword, SignFor(secret, codec, None)).status == 200
    ensures var u := ByEmail(docs, login.email).value;
      var reply := LoggedIn(docs, login, None, MsgLoginUnknown, MsgIncorrectPassword, SignFor(secret, codec, None));
      && reply.body.MessageToken?
      && Parse(codec.decode(reply.body.token), keyFunc, now) == ParsedValid(TokenClaims(IdString(u.id), u.email, u.role))
  {
    LoginTokenFromStoredRecord(docs, login, None, MsgLoginUnknown, MsgIncorrectPassword, SignFor(secret, codec, None));
    var u := ByEmail(docs, login.email).value;
    SignedTokenNeverExpires(IdString(u.id), u.email, u.role, secret, codec, keyFunc, now);
  }

  /**
   * `HandleUserPromotion`: the inline ADMIN gate, then the promotion by hex id
   * (an invalid id writes 400 and falls through).
   */
  method HandleUserPromotion(c: Context<()>, dir: UserDirectory, idParam: string, faults: Faults)
    modifies c, dir
    ensures RoleFromKeys(old(c.keys), "user_role") != Ok(RoleAdmin) ==> dir.docs == old(dir.docs) && c.aborted
    ensures RoleFromKeys(old(c.keys), "user_role").Err? ==>
      c.written == old(c.written) + [Response(500, ErrorMsg(RoleFromKeys(old(c.keys), "user_role").error))]
    ensures RoleFromKeys(old(c.keys), "user_role").Ok? && RoleFromKeys(old(c.keys), "user_role") != Ok(RoleAdmin) ==>
      c.written == old(c.written) + [Response(401, ErrorMsg(MsgUnauthorizedUser))]
    ensures RoleFromKeys(old(c.keys), "user_role") == Ok(RoleAdmin) ==>
      var (id, early) := PromotionId(idParam);
      var o := Promoted(old(dir.docs), LookupById(old(dir.docs), id, faults.find), faults.update);
      c.written == old(c.written) + early + [o.reply] && dir.docs == o.docs && c.aborted == old(c.aborted)
    ensures c.keys == old(c.keys) && c.nextCalled == old(c.nextCalled)
  {
    var allowed := AdminGate(c, "user_role");
    if !allowed {
      return;
    }
    PromoteByHex(c, dir, idParam, faults);
  }

  /**
   * `CreateTask`, `UpdateTask` and `DeleteTask` share the inline gate: a
   * lookup error answers 500, a role other than ADMIN answers 401, both abort,
   * and `storeCalled` is false; the store call itself is not part of this model.
   */
  method CreateTask(c: Context<()>, bindOk: bool, storeError: Option<string>) returns (storeCalled: bool)
    modifies c
    ensures storeCalled <==> RoleFromKeys(old(c.keys), "user_role") == Ok(RoleAdmin) && bindOk
    ensures RoleFromKeys(old(c.keys), "user_role") != Ok(RoleAdmin) ==> c.aborted
    ensures RoleFromKeys(old(c.keys), "user_role").Err? ==>
      c.written == old(c.written) + [Response(500, ErrorMsg(RoleFromKeys(old(c.keys), "user_role").error))]
    ensures RoleFromKeys(old(c.keys), "user_role").Ok? && RoleFromKeys(old(c.keys), "user_role") != Ok(RoleAdmin) ==>
      c.written == old(c.written) + [Response(401, ErrorMsg(MsgUnauthorizedUser))]
    ensures RoleFromKeys(old(c.keys), "user_role") == Ok(RoleAdmin) ==>
      c.written == old(c.written) +
        (if !bindOk then [Response(400, NoBody), Response(400, ErrorMsg(MsgInvalidBody))]
         else if storeError.Some? then [Response(406, ErrorMsg(storeError.value))]
         else [Response(200, Message(MsgTaskAdded))])
    ensures c.keys == old(c.keys) && c.nextCalled == old(c.nextCalled)
  {
    storeCalled := false;
    var allowed := AdminGate(c, "user_role");
    if !allowed {
      return;
    }
    if !bindOk {
      c.BindFailed();
      c.Json(400, ErrorMsg(MsgInvalidBody));
      return;
    }
    storeCalled := true;
    if storeError.Some? {
      c.Json(406, ErrorMsg(storeError.value));
      return;
    }
    c.Json(200, Message(MsgTaskAdded));
  }

  method UpdateTask(c: Context<()>, bindOk: bool, storeError: Option<string>) returns (storeCalled: bool)
    modifies c
    ensures storeCalled <==> RoleFromKeys(old(c.keys), "user_role") == Ok(RoleAdmin) && bindOk
    ensures RoleFromKeys(old(c.keys), "user_role") != Ok(RoleAdmin) ==> c.aborted
    ensures RoleFromKeys(old(c.keys), "user_role").Err? ==>
      c.written == old(c.written) + [Response(500, ErrorMsg(RoleFromKeys(old(c.keys), "user_role").error))]
    ensures RoleFromKeys(old(c.keys), "user_role").Ok? && RoleFromKeys(old(c.keys), "user_role") != Ok(RoleAdmin) ==>
      c.written == old(c.written) + [Response(401, ErrorMsg(MsgUnauthorizedUser))]
    ensures RoleFromKeys(old(c.keys), "user_role") == Ok(RoleAdmin) ==>
      c.written == old(c.written) +
        (if !bindOk then [Response(400, NoBody), Response(400, ErrorMsg(MsgInvalidBody))]
         else if storeError.Some? then [Response(404, ErrorMsg(storeError.value))]
         else [Response(200, Message(MsgTaskUpdated))])
    ensures c.keys == old(c.keys) && c.nextCalled == old(c.nextCalled)
  {
    storeCalled := false;
    var allowed := AdminGate(c, "user_role");
    if !allowed {
      return;
    }
    if !bindOk {
      c.BindFailed();
      c.Json(400, ErrorMsg(MsgInvalidBody));
      return;
    }
    storeCalled := true;
    if storeError.Some? {
      c.Json(404, ErrorMsg(storeError.value));
      return;
    }
    c.Json(200, Message(MsgTaskUpdated));
  }

  method DeleteTask(c: Context<()>, storeError: Option<string>) returns (storeCalled: bool)
    modifies c
    ensures storeCalled <==> RoleFromKeys(old(c.keys), "user_role") == Ok(RoleAdmin)
    ensures !storeCalled ==> c.aborted
    ensures RoleFromKeys(old(c.keys), "user_role").Err? ==>
      c.written == old(c.written) + [Response(500, ErrorMsg(RoleFromKeys(old(c.keys), "user_role").error))]
    ensures RoleFromKeys(old(c.keys), "user_role").Ok? && RoleFromKeys(old(c.keys), "user_role") != Ok(RoleAdmin) ==>
      c.written == old(c.written) + [Response(401, ErrorMsg(MsgUnauthorizedUser))]
    ensures storeCalled ==>
      c.written == old(c.written) +
        (if storeError.Some? then [Response(404, ErrorMsg(storeError.value))] else [Response(200, Message(MsgTaskDeleted))])
    ensures c.keys == old(c.keys) && c.nextCalled == old(c.nextCalled)
  {
    storeCalled := false;
    var allowed := AdminGate(c, "user_role");
    if !allowed {
      return;
    }
    storeCalled := true;
    if storeError.Some? {
      c.Json(404, ErrorMsg(storeError.value));
      return;
    }
    c.Json(200, Message(MsgTaskDeleted));
  }
}
