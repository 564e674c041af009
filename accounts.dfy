/**
 * The account flows every controller iteration runs after its own request
 * binding and validation: registering a validated request, logging in, and
 * promoting a user to ADMIN. Each is a method that calls the store step by
 * step and a function stating the reply and the new collection; iterations
 * differ only in the messages and token builder they pass in.
 */
module Accounts {
  import opened Common
  import opened Gin
  import opened Users
  import opened Directory
  import opened PasswordHash

  const MsgInvalidRequest: string := "invalid request"
  const MsgUserExists: string := "user already exists"
  const MsgInternalError: string := "internal server error"
  const MsgRegistered: string := "user registered successfully"
  const MsgLoggedIn: string := "user logged in successfully"
  const MsgUserNotFound: string := "user not found"
  const MsgAlreadyAdmin: string := "user is already an admin"
  const MsgPromoted: string := "user promoted to admin status"

  /** A reply and the user collection after a request. */
  datatype Outcome = Outcome(reply: Response<()>, docs: seq<User>)

  /** The record a registration stores: the request with its password replaced by the hash, under a fresh id. */
  function StoredUser(u: NewUser, newId: ObjectId): User
  {
    User(newId, u.name, u.email, Hash(u.password), u.role)
  }

  /**
   * Registration of a request that passed validation: the email lookup (an
   * error answers 500), the duplicate check (406), the hash (500), the insert
   * (500 with the store's text), then 200.
   */
  function Registered(docs: seq<User>, u: NewUser, faults: Faults, newId: ObjectId): Outcome
  {
    if faults.find.Some? then Outcome(Response(500, ErrorMsg(faults.find.value)), docs)
    else if ByEmail(docs, u.email).Some? then Outcome(Response(406, ErrorMsg(MsgUserExists)), docs)
    else if faults.hash.Some? then Outcome(Response(500, ErrorMsg(MsgInternalError)), docs)
    else if faults.insert.Some? then Outcome(Response(500, ErrorMsg(faults.insert.value)), docs)
    else Outcome(Response(200, Message(MsgRegistered)), docs + [StoredUser(u, newId)])
  }

  /**
   * Login: the email lookup (an error answers 500), an unknown email answers
   * 406 `notFound`, a password the stored hash does not accept answers 401
   * `wrongPassword`, a signing failure 500; otherwise 200 with the token
   * `sign` makes from the stored record.
   */
  function LoggedIn(docs: seq<User>, login: LoginData, findFault: Option<string>,
                    notFound: string, wrongPassword: string, sign: User -> Result<string>): Response<()>
  {
    if findFault.Some? then Response(500, ErrorMsg(findFault.value))
    else match ByEmail(docs, login.email)
      case None => Response(406, ErrorMsg(notFound))
      case Some(existing) =>
        if !Matches(existing.password, login.password) then Response(401, ErrorMsg(wrongPassword))
        else match sign(existing)
          case Err(_) => Response(500, ErrorMsg(MsgInternalError))
          case Ok(token) => Response(200, MessageToken(MsgLoggedIn, token))
  }

  /**
   * Promotion of the user a lookup returned: a lookup error answers 500, no
   * user 404, an ADMIN 200 with no update; otherwise the record with its role
   * set to ADMIN is written back and 200 follows; a failed update answers 500 and stores nothing.
   */
  function Promoted(docs: seq<User>, lookup: Result<Option<User>>, updateFault: Option<string>): Outcome
  {
    match lookup
    case Err(e) => Outcome(Response(500, ErrorMsg(e)), docs)
    case Ok(None) => Outcome(Response(404, ErrorMsg(MsgUserNotFound)), docs)
    case Ok(Some(existing)) =>
      if existing.role == RoleAdmin then Outcome(Response(200, Message(MsgAlreadyAdmin)), docs)
      else
        var promoted := SetById(docs, existing.(role := RoleAdmin));
        if updateFault.Some? then Outcome(Response(500, ErrorMsg(updateFault.value)), docs)
        else Outcome(Response(200, Message(MsgPromoted)), promoted)
  }

  /** The lookup by id Task_6 controllers make on the collection: a `FindOne` error, or the first match. */
  function LookupById(docs: seq<User>, id: ObjectId, findFault: Option<string>): (r: Result<Option<User>>)
    ensures findFault.Some? <==> r.Err?
    ensures r.Ok? ==> r.value == ById(docs, id)
  {
    if findFault.Some? then Err(findFault.value) else Ok(ById(docs, id))
  }

  /** The first match of an email appended after documents without it is the appended one. */
  lemma {:induction false} ByEmailAppended(docs: seq<User>, u: User)
    requires ByEmail(docs, u.email).None?
    ensures ByEmail(docs + [u], u.email) == Some(u)
  {
    if docs != [] {
      assert docs[0] in docs;
      assert (docs + [u])[1..] == docs[1..] + [u];
      ByEmailAppended(docs[1..], u);
      match FindEmail(docs[1..] + [u], u.email)
      case None =>
      case Some(k) => assert (docs[1..] + [u])[k] == (docs + [u])[k + 1];
    }
  }

  /**
   * A registration changes the collection only on success, and then appends
   * exactly one record, which holds the hash of the password and not the password.
   */
  lemma RegisteredStoresHash(docs: seq<User>, u: NewUser, faults: Faults, newId: ObjectId)
    ensures var o := Registered(docs, u, faults, newId);
      && (o.reply.status == 200 <==> o.docs != docs)
      && (o.reply.status == 200 ==> o.docs == docs + [StoredUser(u, newId)])
      && (o.reply.status == 200 ==> o.docs[|docs|].password == Hash(u.password) != u.password)
  {
    var o := Registered(docs, u, faults, newId);
    if o.reply.status == 200 {
      assert |o.docs| == |docs| + 1;
    }
  }

  /** An email that is already stored is refused with 406 whatever the request holds, and nothing is inserted. */
  lemma RegisteredDuplicate(docs: seq<User>, u: NewUser, faults: Faults, newId: ObjectId)
    requires faults.find.None?
    requires exists i :: 0 <= i < |docs| && docs[i].email == u.email
    ensures Registered(docs, u, faults, newId) == Outcome(Response(406, ErrorMsg(MsgUserExists)), docs)
  {
    var i :| 0 <= i < |docs| && docs[i].email == u.email;
    assert docs[i] in docs;
  }

  /** Registration keeps emails unique. */
  lemma RegisteredKeepsEmailsUnique(docs: seq<User>, u: NewUser, faults: Faults, newId: ObjectId)
    requires EmailsUnique(docs)
    ensures EmailsUnique(Registered(docs, u, faults, newId).docs)
  {
    if Registered(docs, u, faults, newId).reply.status == 200 {
      AppendNewEmail(docs, StoredUser(u, newId));
    }
  }

  /**
   * Logging in with the email and password just registered finds the new
   * record and answers with the token `sign` makes for it.
   */
  lemma RegisterThenLogin(docs: seq<User>, u: NewUser, faults: Faults, newId: ObjectId,
                          notFound: string, wrongPassword: string, sign: User -> Result<string>)
    requires Registered(docs, u, faults, newId).reply.status == 200
    ensures LoggedIn(Registered(docs, u, faults, newId).docs, LoginData(u.email, u.password), None, notFound, wrongPassword, sign)
      == match sign(StoredUser(u, newId))
         case Ok(token) => Response(200, MessageToken(MsgLoggedIn, token))
         case Err(_) => Response(500, ErrorMsg(MsgInternalError))
  {
    ByEmailAppended(docs, StoredUser(u, newId));
    MatchesExactly(u.password, u.password);
  }

  /** A password other than the registered one is refused with 401 and no token. */
  lemma LoginWrongPassword(docs: seq<User>, login: LoginData, password: string,
                           notFound: string, wrongPassword: string, sign: User -> Result<string>)
    requires ByEmail(docs, login.email).Some? && ByEmail(docs, login.email).value.password == Hash(password)
    requires login.password != password
    ensures LoggedIn(docs, login, None, notFound, wrongPassword, sign) == Response(401, ErrorMsg(wrongPassword))
  {
    MatchesExactly(password, login.password);
  }

  /** A token is only ever issued for the stored record of the email, after its password matched. */
  lemma LoginTokenFromStoredRecord(docs: seq<User>, login: LoginData, findFault: Option<string>,
                                   notFound: string, wrongPassword: string, sign: User -> Result<string>)
    requires LoggedIn(docs, login, findFault, notFound, wrongPassword, sign).status == 200
    ensures findFault.None? && ByEmail(docs, login.email).Some?
    ensures var existing := ByEmail(docs, login.email).value;
      && Matches(existing.password, login.password)
      && sign(existing).Ok?
      && LoggedIn(docs, login, findFault, notFound, wrongPassword, sign) == Response(200, MessageToken(MsgLoggedIn, sign(existing).value))
  {
  }

  /**
   * Promotion writes nothing for an ADMIN and otherwise overwrites the found
   * record with the same record whose role is ADMIN; no other field and no
   * other record changes.
   */
  lemma PromotedOnlyRole(docs: seq<User>, id: ObjectId, updateFault: Option<string>)
    requires FindId(docs, id).Some?
    ensures var i := FindId(docs, id).value;
      var o := Promoted(docs, Ok(ById(docs, id)), updateFault);
      && |o.docs| == |docs|
      && (docs[i].role == RoleAdmin ==> o.docs == docs && o.reply == Response(200, Message(MsgAlreadyAdmin)))
      && (docs[i].role != RoleAdmin && updateFault.None? ==>
            o.docs == docs[i := docs[i].(role := RoleAdmin)] && o.reply == Response(200, Message(MsgPromoted)))
      && (updateFault.Some? ==> o.docs == docs)
      && forall j :: 0 <= j < |docs| && j != i ==> o.docs[j] == docs[j]
  {
  }

  /**
   * Whatever record an abstract lookup returned, promotion leaves every
   * document alone except one with that record's id, which becomes the record
   * with its role set to ADMIN; a change is always answered 200.
   */
  lemma PromotedAnyLookup(docs: seq<User>, lookup: Result<Option<User>>, updateFault: Option<string>)
    ensures var o := Promoted(docs, lookup, updateFault);
      && |o.docs| == |docs|
      && (o.docs != docs ==> o.reply == Response(200, Message(MsgPromoted)) && lookup.Ok? && lookup.value.Some?)
      && forall j :: 0 <= j < |docs| ==>
           o.docs[j] == docs[j]
           || (lookup.Ok? && lookup.value.Some? && docs[j].id == lookup.value.value.id
               && o.docs[j] == lookup.value.value.(role := RoleAdmin))
  {
  }

  /** Promoting the same user twice: the second promotion finds an ADMIN and changes nothing. */
  lemma {:induction false} PromotedIdempotent(docs: seq<User>, id: ObjectId, f1: Option<string>, f2: Option<string>)
    requires FindId(docs, id).Some? && f1.None?
    ensures var once := Promoted(docs, Ok(ById(docs, id)), f1).docs;
      Promoted(once, Ok(ById(once, id)), f2) == Outcome(Response(200, Message(MsgAlreadyAdmin)), once)
  {
    var i := FindId(docs, id).value;
    var once := Promoted(docs, Ok(ById(docs, id)), f1).docs;
    if docs[i].role != RoleAdmin && f1.None? {
      assert once == docs[i := docs[i].(role := RoleAdmin)];
      FindIdSameIds(docs, i, docs[i].(role := RoleAdmin), id);
    }
  }

  /** The lookup by id only depends on ids. */
  lemma {:induction false} FindIdSameIds(docs: seq<User>, i: nat, u: User, id: ObjectId)
    requires i < |docs| && u.id == docs[i].id
    ensures FindId(docs[i := u], id) == FindId(docs, id)
  {
    if i > 0 {
      assert docs[i := u][1..] == docs[1..][i - 1 := u];
      FindIdSameIds(docs[1..], i - 1, u, id);
    }
  }

  /** The steps of `Registered`, calling the store one at a time. */
  method RegisterNewUser(c: Context<()>, dir: UserDirectory, u: NewUser, faults: Faults, newId: ObjectId)
    modifies c, dir
    ensures var o := Registered(old(dir.docs), u, faults, newId);
      c.written == old(c.written) + [o.reply] && dir.docs == o.docs
    ensures c.keys == old(c.keys) && c.aborted == old(c.aborted) && c.nextCalled == old(c.nextCalled)
  {
    if faults.find.Some? {
      c.Json(500, ErrorMsg(faults.find.value));
      return;
    }
    var existing := ByEmail(dir.docs, u.email);
    if existing.Some? {
      c.Json(406, ErrorMsg(MsgUserExists));
      return;
    }
    if faults.hash.Some? {
      c.Json(500, ErrorMsg(MsgInternalError));
      return;
    }
    var record := u.(password := Hash(u.password));
    if faults.insert.Some? {
      c.Json(500, ErrorMsg(faults.insert.value));
      return;
    }
    dir.Insert(User(newId, record.name, record.email, record.password, record.role));
    c.Json(200, Message(MsgRegistered));
  }

  /** The steps of `LoggedIn`. */
  method LogIn(c: Context<()>, dir: UserDirectory, login: LoginData, findFault: Option<string>,
               notFound: string, wrongPassword: string, sign: User -> Result<string>)
    modifies c
    ensures c.written == old(c.written) + [LoggedIn(dir.docs, login, findFault, notFound, wrongPassword, sign)]
    ensures c.keys == old(c.keys) && c.aborted == old(c.aborted) && c.nextCalled == old(c.nextCalled)
  {
    if findFault.Some? {
      c.Json(500, ErrorMsg(findFault.value));
      return;
    }
    var existing := ByEmail(dir.docs, login.email);
    if existing.None? {
      c.Json(406, ErrorMsg(notFound));
      return;
    }
    if !Matches(existing.value.password, login.password) {
      c.Json(401, ErrorMsg(wrongPassword));
      return;
    }
    var token := sign(existing.value);
    if token.Err? {
      c.Json(500, ErrorMsg(MsgInternalError));
      return;
    }
    c.Json(200, MessageToken(MsgLoggedIn, token.value));
  }

  /** The steps of `Promoted`. */
  method Promote(c: Context<()>, dir: UserDirectory, lookup: Result<Option<User>>, updateFault: Option<string>)
    modifies c, dir
    ensures var o := Promoted(old(dir.docs), lookup, updateFault);
      c.written == old(c.written) + [o.reply] && dir.docs == o.docs
    ensures c.keys == old(c.keys) && c.aborted == old(c.aborted) && c.nextCalled == old(c.nextCalled)
  {
    if lookup.Err? {
      c.Json(500, ErrorMsg(lookup.error));
      return;
    }
    if lookup.value.None? {
      c.Json(404, ErrorMsg(MsgUserNotFound));
      return;
    }
    var existing := lookup.value.value;
    if existing.role == RoleAdmin {
      c.Json(200, Message(MsgAlreadyAdmin));
      return;
    }
    existing := existing.(role := RoleAdmin);
    // a failed UpdateOne stores nothing
    if updateFault.Some? {
      c.Json(500, ErrorMsg(updateFault.value));
      return;
    }
    dir.Update(existing);
    c.Json(200, Message(MsgPromoted));
  }

  /**
   * `HandelUserRegister`: a body that does not bind answers 400, a request the
   * version's `validate` refuses answers 406 with its text, and the rest is `Registered`.
   */
  function Register(docs: seq<User>, bound: Option<NewUser>, validate: NewUser -> Option<string>,
                    faults: Faults, newId: ObjectId): Outcome
  {
    if bound.None? then Outcome(Response(400, ErrorMsg(MsgInvalidRequest)), docs)
    else if validate(bound.value).Some? then Outcome(Response(406, ErrorMsg(validate(bound.value).value)), docs)
    else Registered(docs, bound.value, faults, newId)
  }

  /** Whatever the request and however validation is written, registration stores only a request that passed it. */
  lemma RegisterOnlyValidated(docs: seq<User>, bound: Option<NewUser>, validate: NewUser -> Option<string>,
                              faults: Faults, newId: ObjectId)
    requires EmailsUnique(docs)
    ensures var o := Register(docs, bound, validate, faults, newId);
      && (o.docs != docs <==> o.reply.status == 200)
      && (o.reply.status == 200 ==>
            bound.Some? && validate(bound.value).None? && o.docs == docs + [StoredUser(bound.value, newId)])
      && EmailsUnique(o.docs)
  {
    if bound.Some? && validate(bound.value).None? {
      RegisteredStoresHash(docs, bound.value, faults, newId);
      RegisteredKeepsEmailsUnique(docs, bound.value, faults, newId);
    }
  }

  method HandleRegister(c: Context<()>, dir: UserDirectory, bound: Option<NewUser>, validate: NewUser -> Option<string>,
                        faults: Faults, newId: ObjectId)
    modifies c, dir
    ensures var o := Register(old(dir.docs), bound, validate, faults, newId);
      c.written == old(c.written) + [o.reply] && dir.docs == o.docs
    ensures c.keys == old(c.keys) && c.aborted == old(c.aborted) && c.nextCalled == old(c.nextCalled)
  {
    if bound.None? {
      c.Json(400, ErrorMsg(MsgInvalidRequest));
      return;
    }
    var err := validate(bound.value);
    if err.Some? {
      c.Json(406, ErrorMsg(err.value));
      return;
    }
    RegisterNewUser(c, dir, bound.value, faults, newId);
  }

  /** `HandelUserLogin`: a body that does not bind answers 400, the rest is `LoggedIn`. */
  method HandleLogin(c: Context<()>, dir: UserDirectory, bound: Option<LoginData>, findFault: Option<string>,
                     notFound: string, wrongPassword: string, sign: User -> Result<string>)
    modifies c
    ensures bound.None? ==> c.written == old(c.written) + [Response(400, ErrorMsg(MsgInvalidRequest))]
    ensures bound.Some? ==>
      c.written == old(c.written) + [LoggedIn(dir.docs, bound.value, findFault, notFound, wrongPassword, sign)]
    ensures c.keys == old(c.keys) && c.aborted == old(c.aborted) && c.nextCalled == old(c.nextCalled)
  {
    if bound.None? {
      c.Json(400, ErrorMsg(MsgInvalidRequest));
      return;
    }
    LogIn(c, dir, bound.value, findFault, notFound, wrongPassword, sign);
  }

  /**
   * The id Task_6 promotions look up: an invalid hex string writes 400
   * but does not return, so the lookup goes on with the nil id that the
   * failed conversion returns.
   */
  function PromotionId(idParam: string): (r: (ObjectId, seq<Response<()>>))
    ensures ObjectIdFromHex(idParam).Ok? ==> r == (ObjectIdFromHex(idParam).value, [])
    ensures ObjectIdFromHex(idParam).Err? ==> r == (NilObjectId, [Response(400, ErrorMsg(ObjectIdFromHex(idParam).error))])
  {
    match ObjectIdFromHex(idParam)
    case Ok(id) => (id, [])
    case Err(e) => (NilObjectId, [Response(400, ErrorMsg(e))])
  }

  /** An invalid id is answered twice: 400 first, which the client sees, then the lookup's answer for the nil id. */
  lemma InvalidIdAnsweredTwice(docs: seq<User>, idParam: string, findFault: Option<string>, updateFault: Option<string>)
    requires ObjectIdFromHex(idParam).Err?
    requires forall u :: u in docs ==> u.id != NilObjectId
    ensures var (id, early) := PromotionId(idParam);
      var o := Promoted(docs, LookupById(docs, id, findFault), updateFault);
      && early + [o.reply] == [Response(400, ErrorMsg(ObjectIdFromHex(idParam).error)), o.reply]
      && o.docs == docs
      && (findFault.None? ==> o.reply == Response(404, ErrorMsg(MsgUserNotFound)))
  {
    assert ById(docs, NilObjectId).None?;
  }

  /** The promotion of Task_6 versions: the id conversion, then the lookup in the collection, then `Promoted`. */
  method PromoteByHex(c: Context<()>, dir: UserDirectory, idParam: string, faults: Faults)
    modifies c, dir
    ensures var (id, early) := PromotionId(idParam);
      var o := Promoted(old(dir.docs), LookupById(old(dir.docs), id, faults.find), faults.update);
      c.written == old(c.written) + early + [o.reply] && dir.docs == o.docs
    ensures c.keys == old(c.keys) && c.aborted == old(c.aborted) && c.nextCalled == old(c.nextCalled)
  {
    var conv := ObjectIdFromHex(idParam);
    var objId := NilObjectId;
    if conv.Err? {
      c.Json(400, ErrorMsg(conv.error));
    } else {
      objId := conv.value;
    }
    Promote(c, dir, LookupById(dir.docs, objId, faults.find), faults.update);
  }
}
