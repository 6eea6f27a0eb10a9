/** `JwtAuthHandler`: password login against the users table, and `verify` / `decode`
    of a token with the handler's own secret. */
module JwtAuthHandler {
  import opened Wrappers
  import opened ValueObjects
  import opened Entities
  import opened Store
  import opened Jwt
  import opened UserRepository

  const FallbackSecret := "your_secret_key"

  /** `process.env.JWT_SECRET || "your_secret_key"`. */
  function Secret(env: Option<string>): (secret: string)
    ensures Truthy(env) ==> secret == env.value
    ensures !Truthy(env) ==> secret == FallbackSecret
  {
    OrElse(env, FallbackSecret)
  }

  const InvalidCredentials := "Invalid username or password"

  /** The payload `login` signs: the id string and the Username and Role objects
      themselves, which serialise as objects rather than strings. */
  function IdentityClaims(u: UserData): Claims {
    map["id" := Str(u.id), "username" := Obj(u.username.value), "role" := Obj(u.role.value)]
  }

  /** `login`: the name is passed to `fetchByName` as given; an unknown name and a wrong
      password fail with the same message; otherwise a one-hour token is issued. */
  function Login(db: Database, c: Codec, h: Hasher, secret: string, username: string,
      password: string, now: int): (r: Result<string>)
    reads db
    ensures r.Err? ==> r.message == InvalidCredentials
    ensures r.Ok? <==> (FetchByName(db, username).Some?
      && Compare(FetchByName(db, username).value.password, password, h))
    ensures r.Ok? ==>
      r.value == Sign(c, IdentityClaims(FetchByName(db, username).value), secret, now, OneHour)
  {
    match FetchByName(db, username)
    case None => Err(InvalidCredentials)
    case Some(u) =>
      if !Compare(u.password, password, h) then Err(InvalidCredentials)
      else Ok(Sign(c, IdentityClaims(u), secret, now, OneHour))
  }

  /** `verify`: never throws; true iff the token parses, was signed with this secret and
      has not reached its expiry. */
  function Verify(c: Codec, secret: string, token: string, now: int): (r: bool)
    ensures r <==> (c.decode(token).Some? && c.decode(token).value.secret == secret
      && now < c.decode(token).value.exp)
  {
    VerifyToken(c, token, secret, now).Verified?
  }

  /** `decode`: the claims of a token that verifies; otherwise the error of
      `jwt.verify` is rethrown. */
  function Decode(c: Codec, secret: string, token: string, now: int): (r: Verification)
    ensures r.Verified? <==> Verify(c, secret, token, now)
    ensures r.Verified? ==> r.claims == c.decode(token).value.claims
    ensures r.Rejected? && r.error == TokenExpiredError <==>
      (c.decode(token).Some? && c.decode(token).value.secret == secret
        && now >= c.decode(token).value.exp)
  {
    VerifyToken(c, token, secret, now)
  }

  /** A token issued by `login` verifies with the same secret exactly during its hour,
      and decodes to the identity claims of the user whose name matched. */
  lemma LoginTokenVerifies(db: Database, c: Codec, h: Hasher, secret: string,
      username: string, password: string, issued: int, now: int)
    requires Sound(c)
    requires Login(db, c, h, secret, username, password, issued).Ok?
    ensures var token := Login(db, c, h, secret, username, password, issued).value;
      && (Verify(c, secret, token, now) <==> now < issued + OneHour)
      && (now < issued + OneHour ==>
            Decode(c, secret, token, now)
              == Verified(IdentityClaims(FetchByName(db, username).value)))
  {
    var u := FetchByName(db, username).value;
    SignedTokenLifetime(c, IdentityClaims(u), secret, issued, OneHour, now);
  }

  /** What verifies at some time still decodes at that time or earlier; decoding later
      can fail only by expiry. */
  lemma VerifyThenDecode(c: Codec, secret: string, token: string,
      verifiedAt: int, decodedAt: int)
    requires Verify(c, secret, token, verifiedAt)
    ensures decodedAt <= verifiedAt ==> Decode(c, secret, token, decodedAt).Verified?
    ensures Decode(c, secret, token, decodedAt).Rejected? ==>
      Decode(c, secret, token, decodedAt).error == TokenExpiredError
  {
  }

  /** A token signed with any other secret never verifies here. */
  lemma ForeignTokenRejected(c: Codec, claims: Claims, signer: string, env: Option<string>,
      issued: int, lifetime: int, now: int)
    requires Sound(c) && signer != Secret(env)
    ensures !Verify(c, Secret(env), Sign(c, claims, signer, issued, lifetime), now)
    ensures Decode(c, Secret(env), Sign(c, claims, signer, issued, lifetime), now)
      == Rejected(JsonWebTokenError)
  {
    OtherSecretRejected(c, claims, signer, Secret(env), issued, lifetime, now);
  }
}
