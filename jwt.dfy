/**
 * Stand-in for the jwt-go library (v3): the claims of a token, the signing
 * methods, and what `jwt.Parse` reports for a token.  Cryptography is not
 * modelled: a signed token records the key it was signed with, and the
 * signature verifies exactly when the parser is given that key.
 */
module Jwt {
  import opened Common

  /** A decoded JSON value of a claim; JSON numbers are whole here. */
  datatype ClaimValue = Str(s: string) | Num(n: int) | Other

  /** `jwt.MapClaims`. */
  type Claims = map<string, ClaimValue>

  datatype SigningMethod = HS256 | HS384 | HS512 | RS256 | ES256 | NoSigning {
    /** The method is a `*jwt.SigningMethodHMAC`. */
    predicate IsHmac() { HS256? || HS384? || HS512? }

    /** The `alg` header the method writes. */
    function Name(): string
    {
      match this
      case HS256 => "HS256"
      case HS384 => "HS384"
      case HS512 => "HS512"
      case RS256 => "RS256"
      case ES256 => "ES256"
      case NoSigning => "none"
    }
  }

  /** A token as its signer produced it. */
  datatype Token = Token(alg: SigningMethod, claims: Claims, key: string)

  /** What the library reads out of a token string. */
  datatype TokenString =
    | Encoded(token: Token)
    | Malformed(segments: nat)   // not a token the signer produced; `segments` dot-separated parts

  /** The result of the key callback passed to `jwt.Parse`. */
  datatype KeyResult = Key(secret: string) | KeyRejected(message: string)

  /** The reasons `jwt.Parse` reports. */
  datatype ParseError =
    | MalformedToken
    | Unverifiable(message: string)
    | Invalid(claimsRejected: bool, signatureInvalid: bool)

  /**
   * The outcome of `token, err := jwt.Parse(...)`:
   * `Unparsed` is `token == nil, err != nil`; `ParsedInvalid` is `token != nil,
   * !token.Valid, err != nil`; `ParsedValid` is `token.Valid, err == nil`.
   */
  datatype ParseOutcome =
    | Unparsed(err: ParseError)
    | ParsedInvalid(claims: Claims, err: ParseError)
    | ParsedValid(claims: Claims)
  {
    /** `err == nil`. */
    predicate NoError() { ParsedValid? }
    /** `token != nil`. */
    predicate HasToken() { !Unparsed? }
  }

  /** A time claim `key` (exp, iat or nbf) is absent, not a number, 0, or satisfies `ok`. */
  predicate TimeClaimOk(claims: Claims, key: string, ok: int -> bool)
  {
    key !in claims || !claims[key].Num? || claims[key].n == 0 || ok(claims[key].n)
  }

  /** `MapClaims.Valid()`: not expired, not issued in the future, not used before `nbf`. */
  predicate ClaimsValid(claims: Claims, now: int)
  {
    && TimeClaimOk(claims, "exp", exp => now <= exp)
    && TimeClaimOk(claims, "iat", iat => now >= iat)
    && TimeClaimOk(claims, "nbf", nbf => now >= nbf)
  }

  /**
   * `jwt.Parse(tokenString, keyFunc)` at time `now`: a string that is not three
   * segments yields no token; any other malformed string, a key callback error,
   * rejected claims or a signature made with another key yield an invalid token.
   */
  function Parse(t: TokenString, keyFunc: SigningMethod -> KeyResult, now: int): (r: ParseOutcome)
    ensures r.ParsedValid? <==>
      t.Encoded? && keyFunc(t.token.alg) == Key(t.token.key) && ClaimsValid(t.token.claims, now)
    ensures r.Unparsed? <==> t.Malformed? && t.segments != 3
    ensures r.ParsedValid? ==> r.claims == t.token.claims
  {
    match t
    case Malformed(segments) =>
      if segments != 3 then Unparsed(MalformedToken) else ParsedInvalid(map[], MalformedToken)
    case Encoded(token) =>
      match keyFunc(token.alg)
      case KeyRejected(msg) => ParsedInvalid(token.claims, Unverifiable(msg))
      case Key(secret) =>
        var claimsOk := ClaimsValid(token.claims, now);
        var signatureOk := secret == token.key;
        if claimsOk && signatureOk then ParsedValid(token.claims)
        else ParsedInvalid(token.claims, Invalid(!claimsOk, !signatureOk))
  }

  /** A key callback that accepts HMAC methods only, rejecting the others with a fixed message. */
  function HmacKeyFunc(secret: string, rejection: string): SigningMethod -> KeyResult
  {
    (m: SigningMethod) => if m.IsHmac() then Key(secret) else KeyRejected(rejection)
  }

  /** A key callback that accepts HMAC methods only, rejecting the others with `unexpected signing method: <alg>`. */
  function ExpectHmac(secret: string): SigningMethod -> KeyResult
  {
    (m: SigningMethod) => if m.IsHmac() then Key(secret) else KeyRejected("unexpected signing method: " + m.Name())
  }

  /**
   * The serialisation the library uses: `encode` is `SignedString`'s output for a
   * token and `decode` what `Parse` reads back from a string.
   */
  datatype Codec = Codec(encode: Token -> string, decode: string -> TokenString)

  /** A codec that reads back what it wrote, and writes non-empty strings without spaces (base64url and dots). */
  ghost predicate Faithful(codec: Codec)
  {
    forall t: Token {:trigger codec.encode(t)} ::
      codec.decode(codec.encode(t)) == Encoded(t) && codec.encode(t) != "" && ' ' !in codec.encode(t)
  }

  /** `token.SignedString(key)`: the call fails with `signError` when one is given. */
  function SignedString(t: Token, codec: Codec, signError: Option<string>): (r: Result<string>)
    ensures r.Ok? <==> signError.None?
    ensures r.Ok? ==> r.value == codec.encode(t)
  {
    if signError.Some? then Err(signError.value) else Ok(codec.encode(t))
  }

  /**
   * A token read back by a callback that hands out the key it was signed with
   * parses as valid exactly while its claims are valid; otherwise only the
   * claims are reported as rejected.
   */
  lemma RoundTrip(t: Token, codec: Codec, keyFunc: SigningMethod -> KeyResult, now: int)
    requires Faithful(codec)
    requires keyFunc(t.alg) == Key(t.key)
    ensures Parse(codec.decode(codec.encode(t)), keyFunc, now)
      == if ClaimsValid(t.claims, now) then ParsedValid(t.claims)
         else ParsedInvalid(t.claims, Invalid(true, false))
  {
  }

  /** A token read back with any other key never parses as valid, though it is still read. */
  lemma WrongKeyRejected(t: Token, codec: Codec, keyFunc: SigningMethod -> KeyResult, now: int)
    requires Faithful(codec)
    requires keyFunc(t.alg) != Key(t.key)
    ensures Parse(codec.decode(codec.encode(t)), keyFunc, now).ParsedInvalid?
  {
  }

  /** Both HMAC-only callbacks hand out the secret exactly for HMAC methods. */
  lemma HmacOnly(secret: string, rejection: string, m: SigningMethod)
    ensures HmacKeyFunc(secret, rejection)(m) == Key(secret) <==> m.IsHmac()
    ensures ExpectHmac(secret)(m) == Key(secret) <==> m.IsHmac()
    ensures !m.IsHmac() ==> ExpectHmac(secret)(m) == KeyRejected("unexpected signing method: " + m.Name())
  {
  }
}
