/** JSON Web Tokens as jsonwebtoken issues and checks them, with the signature taken
    as given: a token records the claims, the secret that signed it and its `exp`
    claim (section 4.1.4 of RFC 7519). Times are seconds. */
module Jwt {
  import opened Wrappers

  /** A claim value: a JSON string, or an object with a single `value` field, which is
      what a value object serialises to. */
  datatype ClaimValue = Str(s: string) | Obj(value: string)

  type Claims = map<string, ClaimValue>

  datatype Token = Token(claims: Claims, secret: string, exp: int)

  /** The compact serialisation and its parser; `None` is a string that is not a token. */
  datatype Codec = Codec(encode: Token -> string, decode: string -> Option<Token>)

  /** Parsing inverts serialisation, and a serialised token is a non-empty string without
      spaces (base64url segments joined by dots). */
  ghost predicate Sound(c: Codec) {
    (forall t :: c.decode(c.encode(t)) == Some(t))
    && (forall t :: c.encode(t) != "" && ' ' !in c.encode(t))
  }

  /** The names of the errors `jwt.verify` throws. */
  datatype JwtError = TokenExpiredError | JsonWebTokenError

  function ErrorName(e: JwtError): string {
    match e
    case TokenExpiredError => "TokenExpiredError"
    case JsonWebTokenError => "JsonWebTokenError"
  }

  datatype Verification = Verified(claims: Claims) | Rejected(error: JwtError)

  /** `jwt.sign(claims, secret, { expiresIn })` at time `now`. */
  function Sign(c: Codec, claims: Claims, secret: string, now: int, lifetime: int)
    : (token: string)
    ensures Sound(c) ==> c.decode(token) == Some(Token(claims, secret, now + lifetime))
  {
    c.encode(Token(claims, secret, now + lifetime))
  }

  /** `jwt.verify(token, secret)` at time `now`: a string that does not parse or whose
      signature is not `secret`'s is a JsonWebTokenError; a token is expired from its
      `exp` on. */
  function VerifyToken(c: Codec, token: string, secret: string, now: int): (r: Verification)
    ensures r.Verified? <==> (c.decode(token).Some? && c.decode(token).value.secret == secret
      && now < c.decode(token).value.exp)
    ensures r.Verified? ==> r.claims == c.decode(token).value.claims
    ensures r == Rejected(TokenExpiredError) <==> (c.decode(token).Some?
      && c.decode(token).value.secret == secret && now >= c.decode(token).value.exp)
  {
    match c.decode(token)
    case None => Rejected(JsonWebTokenError)
    case Some(t) =>
      if t.secret != secret then Rejected(JsonWebTokenError)
      else if now >= t.exp then Rejected(TokenExpiredError)
      else Verified(t.claims)
  }

  /** A token verifies with its own secret, giving back its claims, exactly while it is
      younger than its lifetime. */
  lemma SignedTokenLifetime(c: Codec, claims: Claims, secret: string, issued: int,
      lifetime: int, now: int)
    requires Sound(c)
    ensures VerifyToken(c, Sign(c, claims, secret, issued, lifetime), secret, now)
      == if now < issued + lifetime then Verified(claims) else Rejected(TokenExpiredError)
  {
    assert c.decode(c.encode(Token(claims, secret, issued + lifetime)))
      == Some(Token(claims, secret, issued + lifetime));
  }

  /** A token signed with one secret never verifies with another. */
  lemma OtherSecretRejected(c: Codec, claims: Claims, signer: string, verifier: string,
      issued: int, lifetime: int, now: int)
    requires Sound(c) && signer != verifier
    ensures VerifyToken(c, Sign(c, claims, signer, issued, lifetime), verifier, now)
      == Rejected(JsonWebTokenError)
  {
    assert c.decode(c.encode(Token(claims, signer, issued + lifetime)))
      == Some(Token(claims, signer, issued + lifetime));
  }

  /** Lifetimes of the `expiresIn` strings used: "1h" and "15m". */
  const OneHour := 3600
  const FifteenMinutes := 900
}
