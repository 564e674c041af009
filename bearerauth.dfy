/**
 * Pieces that every authentication middleware and every admin gate of the
 * repository repeats: reading the token out of an `Authorization` header, and
 * reading the caller's role out of the claims stored in the request context.
 */
module BearerAuth {
  import opened Common
  import opened GoStrings
  import opened Gin
  import Jwt

  /**
   * `parts := strings.Split(header, " ")`, accepted when `len(parts) == 2` and
   * `strings.ToLower(parts[0]) == "bearer"`; the token is `parts[1]`.
   */
  function BearerToken(header: string): (r: Option<string>)
    ensures Count(header, ' ') != 1 ==> r.None?
    ensures r.Some? ==> ' ' !in r.value
  {
    SplitJoin(header, ' ');
    var parts := Split(header, ' ');
    if |parts| != 2 || ToLower(parts[0]) != "bearer" then None else Some(parts[1])
  }

  /**
   * Reference description of an accepted header: a scheme that reads "bearer"
   * in any letter case, exactly one space, then the token; neither part holds a
   * space, and the token may be empty.
   */
  predicate IsBearerHeader(header: string, token: string)
  {
    && |token| < |header|
    && header[|header| - |token| - 1] == ' '
    && header[|header| - |token|..] == token
    && ' ' !in header[..|header| - |token| - 1]
    && ' ' !in token
    && ToLower(header[..|header| - |token| - 1]) == "bearer"
  }

  /** The split-based parse accepts exactly the headers of the reference description, and returns their token. */
  lemma BearerTokenCorrect(header: string, token: string)
    ensures BearerToken(header) == Some(token) <==> IsBearerHeader(header, token)
  {
    if BearerToken(header) == Some(token) {
      var parts := Split(header, ' ');
      SplitTwo(header, ' ', parts[0], parts[1]);
      assert header == parts[0] + [' '] + token;
      assert header[..|header| - |token| - 1] == parts[0];
      assert header[|header| - |token|..] == token;
    }
    if IsBearerHeader(header, token) {
      var scheme := header[..|header| - |token| - 1];
      assert header == scheme + [' '] + token;
      SplitTwo(header, ' ', scheme, token);
    }
  }

  /** A header built as scheme, one space, token is accepted exactly when the scheme reads "bearer". */
  lemma BearerTokenOfParts(scheme: string, token: string)
    requires ' ' !in scheme && ' ' !in token
    ensures BearerToken(scheme + " " + token) == if ToLower(scheme) == "bearer" then Some(token) else None
  {
    SplitTwo(scheme + " " + token, ' ', scheme, token);
  }

  /** "Bearer <token>" carries the token when the token holds no space. */
  lemma BearerHeader(token: string)
    requires ' ' !in token
    ensures "Bearer " + token != "" && BearerToken("Bearer " + token) == Some(token)
  {
    assert ToLower("Bearer") == "bearer";
    assert "Bearer " + token == "Bearer" + " " + token;
    BearerTokenOfParts("Bearer", token);
  }

  /** Two spaces (for instance "Bearer  tok" or "Bearer a b") are always rejected. */
  lemma TwoSpacesRejected(header: string, i: nat, j: nat)
    requires i < j < |header| && header[i] == ' ' && header[j] == ' '
    ensures BearerToken(header) == None
  {
    CountAtLeastTwo(header, ' ', i, j);
  }

  const MsgNoClaims: string := "no claims found"
  const MsgClaimsNotValid: string := "claims are not valid"
  const MsgNoRole: string := "no user_role found in claims"

  /**
   * Every `GetUserRoleFromContext`: the "claims" key must be present, hold a
   * `jwt.MapClaims`, and map `roleKey` to a string; each failure has its own message.
   */
  function RoleFromKeys(keys: map<string, CtxValue>, roleKey: string): (r: Result<string>)
    ensures "claims" !in keys <==> r == Err(MsgNoClaims)
    ensures "claims" in keys && !keys["claims"].MapClaimsValue? <==> r == Err(MsgClaimsNotValid)
    ensures r.Ok? <==>
      "claims" in keys && keys["claims"].MapClaimsValue?
      && roleKey in keys["claims"].claims && keys["claims"].claims[roleKey].Str?
    ensures r.Ok? ==> r.value == keys["claims"].claims[roleKey].s
    ensures r.Err? ==> r.error in {MsgNoClaims, MsgClaimsNotValid, MsgNoRole}
  {
    if "claims" !in keys then Err(MsgNoClaims)
    else match keys["claims"]
      case OtherValue(_) => Err(MsgClaimsNotValid)
      case MapClaimsValue(claims) =>
        if roleKey in claims && claims[roleKey].Str? then Ok(claims[roleKey].s) else Err(MsgNoRole)
  }

  const MsgUnauthorizedUser: string := "unauthorized user"

  /**
   * The ADMIN gate, as `AuthenticateAdmin` and the inline checks write it: a
   * lookup error answers 500 with its text, a role other than exactly "ADMIN"
   * answers 401, and in both cases the request is aborted; otherwise nothing is
   * written and the request goes on.
   */
  method AdminGate<P>(c: Context<P>, roleKey: string) returns (allowed: bool)
    modifies c
    ensures allowed <==> RoleFromKeys(old(c.keys), roleKey) == Ok("ADMIN")
    ensures c.keys == old(c.keys) && c.nextCalled == old(c.nextCalled)
    ensures allowed ==> c.written == old(c.written) && c.aborted == old(c.aborted)
    ensures !allowed ==> c.aborted
    ensures RoleFromKeys(old(c.keys), roleKey).Err? ==>
      c.written == old(c.written) + [Response(500, ErrorMsg(RoleFromKeys(old(c.keys), roleKey).error))]
    ensures RoleFromKeys(old(c.keys), roleKey).Ok? && !allowed ==>
      c.written == old(c.written) + [Response(401, ErrorMsg(MsgUnauthorizedUser))]
  {
    var role := RoleFromKeys(c.keys, roleKey);
    if role.Err? {
      c.Json(500, ErrorMsg(role.error));
      c.Abort();
      return false;
    }
    if role.value != "ADMIN" {
      c.Json(401, ErrorMsg(MsgUnauthorizedUser));
      c.Abort();
      return false;
    }
    return true;
  }

  /** What an authentication middleware decides: reject with a 401 message, or accept the token's claims. */
  datatype AuthDecision = Rejected(message: string) | Accepted(claims: Jwt.Claims)

  /**
   * How every authentication middleware carries out its decision: a rejection
   * answers 401 with the message and aborts; an acceptance stores the claims
   * under "claims" and calls `c.Next()`.
   */
  method ApplyDecision<P>(c: Context<P>, d: AuthDecision)
    modifies c
    ensures d.Rejected? ==>
      c.written == old(c.written) + [Response(401, ErrorMsg(d.message))] && c.aborted
      && c.keys == old(c.keys) && c.nextCalled == old(c.nextCalled)
    ensures d.Accepted? ==>
      c.keys == old(c.keys)["claims" := MapClaimsValue(d.claims)] && c.nextCalled
      && c.written == old(c.written) && c.aborted == old(c.aborted)
  {
    match d
    case Rejected(message) =>
      c.Json(401, ErrorMsg(message));
      c.Abort();
    case Accepted(claims) =>
      c.Set("claims", MapClaimsValue(claims));
      c.Next();
  }

  /** Once a middleware has stored claims, the role lookup reads the role from them. */
  lemma RoleAfterAccept(keys: map<string, CtxValue>, claims: Jwt.Claims, roleKey: string, role: string)
    requires roleKey in claims && claims[roleKey] == Jwt.Str(role)
    ensures RoleFromKeys(keys["claims" := MapClaimsValue(claims)], roleKey) == Ok(role)
  {
  }
}
