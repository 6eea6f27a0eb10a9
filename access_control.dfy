/** Properties of the access-control path as a whole: how the three token issuers, the
    authentication middleware, the download link check and the permission gates fit
    together. */
module AccessControl {
  import opened Wrappers
  import opened ValueObjects
  import opened Entities
  import opened Store
  import opened Jwt
  import opened UserRepository
  import opened UserMapper
  import JwtAuthHandler
  import AuthMiddleware
  import UserService
  import DownloadService
  import PermissionService
  import RoleMiddleware
  import Gate

  // ------------------------------------------------------------ the three secrets

  /** With no secret configured, each of the three modules signs and verifies with its
      own fallback, and no two fallbacks agree. */
  lemma FallbacksDiffer()
    ensures JwtAuthHandler.Secret(None) != UserService.Secret(None)
    ensures JwtAuthHandler.Secret(None) != DownloadService.Secret(None)
    ensures UserService.Secret(None) != DownloadService.Secret(None)
  {
  }

  /** A configured, non-empty secret is the one all three modules use. */
  lemma ConfiguredSecretShared(env: Option<string>)
    requires Truthy(env)
    ensures JwtAuthHandler.Secret(env) == UserService.Secret(env) == DownloadService.Secret(env)
      == env.value
  {
  }

  /** Without a configured secret, the token `UserService.login` issues is refused by the
      authentication middleware as an invalid token, however fresh it is. */
  lemma UserServiceTokenRefusedByDefault(db: Database, c: Codec, h: Hasher, username: string,
      password: string, scheme: string, issued: int, verifiedAt: int, decodedAt: int,
      lookupRaised: bool)
    requires Sound(c) && ' ' !in scheme
    requires UserService.Login(db, c, h, UserService.Secret(None), username, password, issued).Success?
    ensures var token := UserService.Login(db, c, h, UserService.Secret(None), username,
        password, issued).value.token;
      AuthMiddleware.Decide(db, c, JwtAuthHandler.Secret(None), Some(scheme + " " + token),
        verifiedAt, decodedAt, lookupRaised) == AuthMiddleware.Respond(401, AuthMiddleware.InvalidToken)
  {
    var u := FetchByName(db, username).value;
    var claims := UserService.StringClaims(u);
    var token := Sign(c, claims, UserService.Secret(None), issued, OneHour);
    AuthMiddleware.BearerTokenOfHeader(scheme, token);
    OtherSecretRejected(c, claims, UserService.Secret(None), JwtAuthHandler.Secret(None),
      issued, OneHour, verifiedAt);
  }

  /** With a configured secret, the token of `UserService.login` authenticates the same
      user as the one `JWTAuthHandler.login` issues: both carry the user's id as a string. */
  lemma UserServiceTokenAcceptedWhenShared(db: Database, c: Codec, h: Hasher,
      env: Option<string>, username: string, password: string, scheme: string, issued: int,
      verifiedAt: int, decodedAt: int)
    requires Sound(c) && ' ' !in scheme && Truthy(env)
    requires UserService.Login(db, c, h, UserService.Secret(env), username, password, issued).Success?
    requires verifiedAt <= decodedAt < issued + OneHour
    ensures var token := UserService.Login(db, c, h, UserService.Secret(env), username,
        password, issued).value.token;
      var u := FetchByName(db, username).value;
      && FetchById(db, u.id).Some?
      && AuthMiddleware.Decide(db, c, JwtAuthHandler.Secret(env), Some(scheme + " " + token),
           verifiedAt, decodedAt, false) == AuthMiddleware.Attach(ToDTO(FetchById(db, u.id).value))
  {
    var u := FetchByName(db, username).value;
    var claims := UserService.StringClaims(u);
    assert UserService.Secret(env) == env.value && JwtAuthHandler.Secret(env) == env.value;
    assert UserService.Login(db, c, h, env.value, username, password, issued).value.token
      == Sign(c, claims, env.value, issued, OneHour);
    assert claims["id"] == Str(u.id);
    FetchByIdFindsStored(db, u);
    AuthMiddleware.SignedIdentityAuthenticates(db, c, env.value, claims, u.id, scheme, issued,
      OneHour, verifiedAt, decodedAt);
  }

  /** A row the lookup by name found is also found by its id. */
  lemma FetchByIdFindsStored(db: Database, u: UserRecord)
    requires exists k :: 0 <= k < |db.users| && db.users[k] == u
    ensures FetchById(db, u.id).Some?
  {
    var k :| 0 <= k < |db.users| && db.users[k] == u;
    assert db.users[k].id == u.id;
  }

  /** Both logins accept exactly the same credentials; they differ in the secret and in
      the shape of the claims: `JWTAuthHandler` signs the value objects, `UserService`
      their strings. */
  lemma LoginsAgree(db: Database, c: Codec, h: Hasher, secret: string, otherSecret: string,
      username: string, password: string, now: int)
    ensures UserService.Login(db, c, h, otherSecret, username, password, now).Success?
      <==> JwtAuthHandler.Login(db, c, h, secret, username, password, now).Ok?
    ensures JwtAuthHandler.Login(db, c, h, secret, username, password, now).Ok? ==>
      var u := FetchByName(db, username).value;
      && JwtAuthHandler.IdentityClaims(u)["username"] == Obj(u.username.value)
      && UserService.StringClaims(u)["username"] == Str(u.username.value)
  {
  }

  // ------------------------------------------------------------ download capabilities

  /** Without a configured secret, a download token is refused by the authentication
      middleware. */
  lemma CapabilityRefusedByMiddlewareByDefault(db: Database, c: Codec, fileId: string,
      scheme: string, issued: int, lifetime: int, verifiedAt: int, decodedAt: int,
      lookupRaised: bool)
    requires Sound(c) && ' ' !in scheme
    ensures var token := Sign(c, DownloadService.CapabilityClaims(fileId),
        DownloadService.Secret(None), issued, lifetime);
      AuthMiddleware.Decide(db, c, JwtAuthHandler.Secret(None), Some(scheme + " " + token),
        verifiedAt, decodedAt, lookupRaised) == AuthMiddleware.Respond(401, AuthMiddleware.InvalidToken)
  {
    var claims := DownloadService.CapabilityClaims(fileId);
    var token := Sign(c, claims, DownloadService.Secret(None), issued, lifetime);
    AuthMiddleware.BearerTokenOfHeader(scheme, token);
    OtherSecretRejected(c, claims, DownloadService.Secret(None), JwtAuthHandler.Secret(None),
      issued, lifetime, verifiedAt);
  }

  /** With a configured secret, a fresh download token passes the signature check of the
      middleware but carries no identity, so it is refused with 401 before any lookup. */
  lemma CapabilityCarriesNoIdentity(db: Database, c: Codec, env: Option<string>,
      fileId: string, scheme: string, issued: int, lifetime: int, verifiedAt: int,
      decodedAt: int, lookupRaised: bool)
    requires Sound(c) && ' ' !in scheme && Truthy(env)
    requires verifiedAt <= decodedAt < issued + lifetime
    ensures var token := Sign(c, DownloadService.CapabilityClaims(fileId),
        DownloadService.Secret(env), issued, lifetime);
      AuthMiddleware.Decide(db, c, JwtAuthHandler.Secret(env), Some(scheme + " " + token),
        verifiedAt, decodedAt, lookupRaised) == AuthMiddleware.Respond(401, AuthMiddleware.InvalidPayload)
  {
    var claims := DownloadService.CapabilityClaims(fileId);
    assert "id" !in claims;
    AuthMiddleware.PayloadWithoutIdRefused(db, c, env.value, claims, scheme, issued, lifetime,
      verifiedAt, decodedAt, lookupRaised);
  }

  /** Without a configured secret, an identity token does not open a download link. */
  lemma IdentityRefusedAtDownloadByDefault(db: Database, c: Codec, h: Hasher,
      username: string, password: string, issued: int, now: int, cwd: string,
      lookupRaised: bool, fsRaised: bool)
    requires Sound(c)
    requires JwtAuthHandler.Login(db, c, h, JwtAuthHandler.Secret(None), username, password,
      issued).Ok?
    ensures var token := JwtAuthHandler.Login(db, c, h, JwtAuthHandler.Secret(None), username,
        password, issued).value;
      DownloadService.ServeFileByToken(db, c, DownloadService.Secret(None), token, now, cwd,
        lookupRaised, fsRaised) == Failure(DownloadService.InvalidDownloadToken)
  {
    var u := FetchByName(db, username).value;
    OtherSecretRejected(c, JwtAuthHandler.IdentityClaims(u), JwtAuthHandler.Secret(None),
      DownloadService.Secret(None), issued, OneHour, now);
  }

  /** With a configured secret, a fresh identity token verifies at the download route
      but names no file, so no file is served. */
  lemma IdentityNamesNoFile(db: Database, c: Codec, h: Hasher, env: Option<string>,
      username: string, password: string, issued: int, now: int, cwd: string, fsRaised: bool)
    requires Sound(c) && Truthy(env)
    requires JwtAuthHandler.Login(db, c, h, JwtAuthHandler.Secret(env), username, password,
      issued).Ok?
    requires now < issued + OneHour
    ensures var token := JwtAuthHandler.Login(db, c, h, JwtAuthHandler.Secret(env), username,
        password, issued).value;
      DownloadService.ServeFileByToken(db, c, DownloadService.Secret(env), token, now, cwd,
        false, fsRaised) == Failure(DownloadService.MetadataNotFound)
  {
    var u := FetchByName(db, username).value;
    var claims := JwtAuthHandler.IdentityClaims(u);
    SignedTokenLifetime(c, claims, env.value, issued, OneHour, now);
    assert "fileId" !in claims;
  }

  // ------------------------------------------------------------ permission levels

  /** While every stored level is one the application writes, the admin gate admits
      nobody: no code path writes "Admin" into the permissions table. */
  lemma {:induction false} AdminGateClosed(rows: seq<PermissionRow>, documentId: string,
      userId: Option<string>, lookupRaised: bool)
    requires KnownLevels(rows)
    ensures RoleMiddleware.AdminGate(rows, documentId, userId, lookupRaised) != Gate.Admit
  {
    if Truthy(userId) && !lookupRaised {
      var first := RoleMiddleware.FirstForPair(rows, documentId, userId.value);
      if first.Some? {
        var k :| 0 <= k < |rows| && rows[k] == first.value;
        assert IsKnownLevel(rows[k].permissionType);
      }
    }
  }

  /** The level check lives only in the controller: the service alone, asked for
      "Admin", makes the first row of the pair an admin row, and the admin gate then
      admits that user. */
  lemma ServiceAloneGrantsAdmin(rows: seq<PermissionRow>, documentId: string, userId: string)
    requires userId != ""
    requires exists k :: 0 <= k < |rows| && ForPair(rows[k], documentId, userId)
    ensures RoleMiddleware.AdminGate(PermissionService.SetLevel(rows, documentId, userId, "Admin"),
      documentId, Some(userId), false) == Gate.Admit
  {
    PermissionService.SetLevelFirstRow(rows, documentId, userId, "Admin");
  }

  /** Updating the levels of a pair to a known level keeps every level known. */
  lemma SetLevelKeepsLevelsKnown(rows: seq<PermissionRow>, documentId: string, userId: string,
      level: string)
    requires KnownLevels(rows) && IsKnownLevel(level)
    ensures KnownLevels(PermissionService.SetLevel(rows, documentId, userId, level))
  {
  }
}
