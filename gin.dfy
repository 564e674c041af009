/**
 * The part of a Gin request context the handlers and middleware touch: the
 * per-request key/value store (`c.Set`, `c.Get`), the responses written
 * (`c.JSON`, `c.IndentedJSON`), and the abort / next flags.
 */
module Gin {
  import opened Common
  import Jwt

  /** A value stored with `c.Set`; only `jwt.MapClaims` values are told apart. */
  datatype CtxValue = MapClaimsValue(claims: Jwt.Claims) | OtherValue(description: string)

  /** A JSON response body. `P` is the payload type of handlers that answer with data. */
  datatype Body<P> =
    | ErrorMsg(error: string)                     // {"error": ...}
    | Message(message: string)                    // {"message": ...}
    | MessageToken(message: string, token: string) // {"message": ..., "token": ...}
    | Payload(data: P)
    | NoBody                                       // status only

  datatype Response<P> = Response(status: int, body: Body<P>)

  class Context<P> {
    var keys: map<string, CtxValue>
    /** Every write, in order. The client sees the first status; later bodies are appended after it. */
    var written: seq<Response<P>>
    var aborted: bool
    var nextCalled: bool

    /** A fresh request context holding the given keys. */
    constructor (initial: map<string, CtxValue>)
      ensures keys == initial && written == [] && !aborted && !nextCalled
    {
      keys := initial;
      written := [];
      aborted := false;
      nextCalled := false;
    }

    /** `c.Get(key)`. */
    function Get(key: string): (r: Option<CtxValue>)
      reads this
      ensures r.Some? <==> key in keys
      ensures r.Some? ==> r.value == keys[key]
    {
      if key in keys then Some(keys[key]) else None
    }

    /** The status code the client receives: that of the first write, 200 if nothing was written. */
    function Status(): (s: int)
      reads this
      ensures written == [] ==> s == 200
      ensures written != [] ==> s == written[0].status
    {
      if written == [] then 200 else written[0].status
    }

    /** Whether the remaining handlers of the chain run. */
    predicate Proceeds()
      reads this
    {
      !aborted
    }

    /** `c.JSON(status, body)`. */
    method Json(status: int, body: Body<P>)
      modifies this
      ensures written == old(written) + [Response(status, body)]
      ensures keys == old(keys) && aborted == old(aborted) && nextCalled == old(nextCalled)
    {
      written := written + [Response(status, body)];
    }

    /** `c.Abort()`. */
    method Abort()
      modifies this
      ensures aborted
      ensures keys == old(keys) && written == old(written) && nextCalled == old(nextCalled)
    {
      aborted := true;
    }

    /**
     * A failed `c.BindJSON`: Gin aborts the request with status 400 and, in
     * this model, no body.
     */
    method BindFailed()
      modifies this
      ensures written == old(written) + [Response(400, NoBody)] && aborted
      ensures keys == old(keys) && nextCalled == old(nextCalled)
    {
      written := written + [Response(400, NoBody)];
      aborted := true;
    }

    /** `c.Set(key, value)`. */
    method Set(key: string, value: CtxValue)
      modifies this
      ensures keys == old(keys)[key := value]
      ensures written == old(written) && aborted == old(aborted) && nextCalled == old(nextCalled)
    {
      keys := keys[key := value];
    }

    /** `c.Next()`: the downstream handlers themselves are not part of this model. */
    method Next()
      modifies this
      ensures nextCalled
      ensures keys == old(keys) && written == old(written) && aborted == old(aborted)
    {
      nextCalled := true;
    }
  }
}
