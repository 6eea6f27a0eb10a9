/** `AuthMiddleware.authenticate`: from the Authorization header to the user attached
    to the request. The checks are a pure decision over the header, the clock at the
    `verify` and `decode` calls and the users table; the middleware then writes the
    request and calls `next`. */
module AuthMiddleware {
  import opened Wrappers
  import opened Text
  import opened ValueObjects
  import opened Entities
  import opened Store
  import opened Jwt
  import opened JwtAuthHandler
  import opened UserRepository
  import opened UserMapper

  const NoToken := "No token provided"
  const TokenFormatInvalid := "Token format invalid"
  const InvalidToken := "Invalid token"
  const InvalidPayload := "Invalid token payload"
  const UserNotFound := "User not found"
  const AuthenticationError := "Authentication error"

  /** `authHeader.split(" ")[1]`: the second space-separated field, whatever the first. */
  function BearerToken(header: string): (token: Option<string>)
    ensures token.Some? <==> ' ' in header
    ensures token.Some? ==> ' ' !in token.value
  {
    SeparatorSplits(header, ' ');
    SplitFieldsAvoidSeparator(header, ' ');
    Field(Split(header, ' '), 1)
  }

  /** A header without a space, such as a bare token, has no second field. */
  lemma BearerTokenNeedsSpace(header: string)
    requires ' ' !in header
    ensures BearerToken(header).None?
  {
    SplitWithoutSeparator(header, ' ');
  }

  /** A header "scheme token" with no further space yields the token, for any scheme. */
  lemma BearerTokenOfHeader(scheme: string, token: string)
    requires ' ' !in scheme && ' ' !in token
    ensures BearerToken(scheme + " " + token) == Some(token)
  {
    SplitAtFirst(scheme, token, ' ');
    SplitWithoutSeparator(token, ' ');
  }

  /** `decodedToken.id` is truthy: present, and not the empty string. An object is
      truthy. */
  predicate IdTruthy(claims: Claims) {
    "id" in claims && (claims["id"].Str? ==> claims["id"].s != "")
  }

  /** `fetchById(decodedToken.id)`: a string id is looked up; an object id equals no
      stored id. */
  function UserById(db: Database, id: ClaimValue): (r: Option<UserRecord>)
    reads db
    ensures id.Obj? ==> r.None?
    ensures id.Str? ==> r == FetchById(db, id.s)
  {
    match id
    case Str(s) => FetchById(db, s)
    case Obj(_) => None
  }

  datatype Outcome = Attach(user: UserDTO) | Respond(status: int, message: string)

  /** The decision of `authenticate`. `verifiedAt` and `decodedAt` are the clock at the
      two `jwt.verify` calls, and `lookupRaised` says whether `fetchById` throws; a
      throw from `decode` or from the lookup is answered with 500. */
  function Decide(db: Database, c: Codec, secret: string, header: Option<string>,
      verifiedAt: int, decodedAt: int, lookupRaised: bool): (r: Outcome)
    reads db
    ensures !Truthy(header) ==> r == Respond(401, NoToken)
    ensures Truthy(header) && !Truthy(BearerToken(header.value)) ==>
      r == Respond(401, TokenFormatInvalid)
    ensures (Truthy(header) && Truthy(BearerToken(header.value))
      && !Verify(c, secret, BearerToken(header.value).value, verifiedAt)) ==>
      r == Respond(401, InvalidToken)
    ensures (Truthy(header) && Truthy(BearerToken(header.value))
      && Verify(c, secret, BearerToken(header.value).value, verifiedAt)) ==>
      var d := Decode(c, secret, BearerToken(header.value).value, decodedAt);
      && (d.Rejected? ==> r == Respond(500, AuthenticationError))
      && (d.Verified? && !IdTruthy(d.claims) ==> r == Respond(401, InvalidPayload))
      && (d.Verified? && IdTruthy(d.claims) && lookupRaised ==>
            r == Respond(500, AuthenticationError))
      && (d.Verified? && IdTruthy(d.claims) && !lookupRaised ==>
            (UserById(db, d.claims["id"]).None? ==> r == Respond(404, UserNotFound))
            && (UserById(db, d.claims["id"]).Some? ==>
                  r == Attach(ToDTO(UserById(db, d.claims["id"]).value))))
  {
    if !Truthy(header) then Respond(401, NoToken)
    else
      var token := BearerToken(header.value);
      if !Truthy(token) then Respond(401, TokenFormatInvalid)
      else if !Verify(c, secret, token.value, verifiedAt) then Respond(401, InvalidToken)
      else
        match Decode(c, secret, token.value, decodedAt)
        case Rejected(_) => Respond(500, AuthenticationError)
        case Verified(claims) =>
          if !IdTruthy(claims) then Respond(401, InvalidPayload)
          else if lookupRaised then Respond(500, AuthenticationError)
          else
            match UserById(db, claims["id"])
            case None => Respond(404, UserNotFound)
            case Some(u) => Attach(ToDTO(u))
  }

  /** A token that `login` issued, presented as "scheme token" within its hour,
      authenticates the first user carrying the id of the user whose name matched. */
  lemma LoginTokenAuthenticates(db: Database, c: Codec, h: Hasher, env: Option<string>,
      username: string, password: string, scheme: string, issued: int,
      verifiedAt: int, decodedAt: int)
    requires Sound(c) && ' ' !in scheme
    requires Login(db, c, h, Secret(env), username, password, issued).Ok?
    requires verifiedAt <= decodedAt < issued + OneHour
    ensures var token := Login(db, c, h, Secret(env), username, password, issued).value;
      var u := FetchByName(db, username).value;
      && FetchById(db, u.id).Some?
      && Decide(db, c, Secret(env), Some(scheme + " " + token), verifiedAt, decodedAt, false)
           == Attach(ToDTO(FetchById(db, u.id).value))
  {
    var u := FetchByName(db, username).value;
    assert IdentityClaims(u)["id"] == Str(u.id);
    assert FetchById(db, u.id).Some?;
    SignedIdentityAuthenticates(db, c, Secret(env), IdentityClaims(u), u.id, scheme, issued,
      OneHour, verifiedAt, decodedAt);
  }

  /** A token signed with the middleware's secret and presented as "scheme token"
      within its lifetime, whose payload names a stored user by a string id,
      authenticates that user. */
  lemma SignedIdentityAuthenticates(db: Database, c: Codec, secret: string, claims: Claims,
      id: string, scheme: string, issued: int, lifetime: int, verifiedAt: int, decodedAt: int)
    requires Sound(c) && ' ' !in scheme && IdTruthy(claims) && claims["id"] == Str(id)
    requires FetchById(db, id).Some?
    requires verifiedAt <= decodedAt < issued + lifetime
    ensures Decide(db, c, secret, Some(scheme + " " + Sign(c, claims, secret, issued, lifetime)),
      verifiedAt, decodedAt, false) == Attach(ToDTO(FetchById(db, id).value))
  {
    BearerTokenOfHeader(scheme, Sign(c, claims, secret, issued, lifetime));
    SignedTokenLifetime(c, claims, secret, issued, lifetime, verifiedAt);
    SignedTokenLifetime(c, claims, secret, issued, lifetime, decodedAt);
  }

  /** A verified payload without a truthy `id`, such as the `{fileId}` claims of a
      download link, is refused with 401 and no lookup. */
  lemma PayloadWithoutIdRefused(db: Database, c: Codec, secret: string, claims: Claims,
      scheme: string, issued: int, lifetime: int, verifiedAt: int, decodedAt: int,
      lookupRaised: bool)
    requires Sound(c) && ' ' !in scheme && !IdTruthy(claims)
    requires verifiedAt <= decodedAt < issued + lifetime
    ensures Decide(db, c, secret, Some(scheme + " " + Sign(c, claims, secret, issued, lifetime)),
      verifiedAt, decodedAt, lookupRaised) == Respond(401, InvalidPayload)
  {
    BearerTokenOfHeader(scheme, Sign(c, claims, secret, issued, lifetime));
    SignedTokenLifetime(c, claims, secret, issued, lifetime, verifiedAt);
    SignedTokenLifetime(c, claims, secret, issued, lifetime, decodedAt);
  }

  /** A token that expires between the `verify` and the `decode` call is answered
      with 500, not 401. */
  lemma ExpiryBetweenCalls(db: Database, c: Codec, secret: string, claims: Claims,
      scheme: string, issued: int, lifetime: int, verifiedAt: int, decodedAt: int,
      lookupRaised: bool)
    requires Sound(c) && ' ' !in scheme
    requires verifiedAt < issued + lifetime <= decodedAt
    ensures Decide(db, c, secret, Some(scheme + " " + Sign(c, claims, secret, issued, lifetime)),
      verifiedAt, decodedAt, lookupRaised) == Respond(500, AuthenticationError)
  {
    BearerTokenOfHeader(scheme, Sign(c, claims, secret, issued, lifetime));
    SignedTokenLifetime(c, claims, secret, issued, lifetime, verifiedAt);
    SignedTokenLifetime(c, claims, secret, issued, lifetime, decodedAt);
  }

  datatype Response = Response(status: int, message: string)

  /** The parts of the Express request and response that `authenticate` touches. */
  class Request {
    const authorization: Option<string>
    var user: Option<UserDTO>
    var response: Option<Response>
    /** How often `next` has been called. */
    var nextCalls: nat

    constructor (authorization: Option<string>)
      ensures this.authorization == authorization
      ensures user == None && response == None && nextCalls == 0
    {
      this.authorization := authorization;
      user := None;
      response := None;
      nextCalls := 0;
    }
  }

  /** `authenticate`: on success the user DTO is attached and `next` is called once; on
      every failure only the response is written and `next` is not called. */
  method Authenticate(req: Request, db: Database, c: Codec, secret: string,
      verifiedAt: int, decodedAt: int, lookupRaised: bool)
    modifies req`user, req`response, req`nextCalls
    ensures var d := Decide(db, c, secret, req.authorization, verifiedAt, decodedAt, lookupRaised);
      && (d.Attach? ==>
            req.user == Some(d.user) && req.response == old(req.response)
            && req.nextCalls == old(req.nextCalls) + 1)
      && (d.Respond? ==>
            req.user == old(req.user) && req.nextCalls == old(req.nextCalls)
            && req.response == Some(Response(d.status, d.message)))
  {
    var d := Decide(db, c, secret, req.authorization, verifiedAt, decodedAt, lookupRaised);
    match d
    case Attach(u) =>
      req.user := Some(u);
      req.nextCalls := req.nextCalls + 1;
    case Respond(status, message) =>
      req.response := Some(Response(status, message));
  }
}
