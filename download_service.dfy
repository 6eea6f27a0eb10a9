/** `DownloadService`: capability links carrying only a file id, and serving a file by
    such a link. The clock and the working directory are parameters; thrown lookup and
    file-system errors are the inputs `lookupRaised` and `fsRaised`. */
module DownloadService {
  import opened Wrappers
  import opened ValueObjects
  import opened Entities
  import opened Store
  import opened Jwt
  import opened DocumentRepository

  const FallbackSecret := "your_default_jwt_secret"

  /** `process.env.JWT_SECRET || "your_default_jwt_secret"`. */
  function Secret(env: Option<string>): (secret: string)
    ensures Truthy(env) ==> secret == env.value
    ensures !Truthy(env) ==> secret == FallbackSecret
  {
    OrElse(env, FallbackSecret)
  }

  /** `LINK_EXPIRATION || "15m"`, read as seconds: `None` is an unset variable. */
  function LinkLifetime(configured: Option<int>): (seconds: int)
    ensures configured.None? ==> seconds == FifteenMinutes
  {
    if configured.Some? then configured.value else FifteenMinutes
  }

  const FileIdRequired := "File ID is required to generate a download link."
  const FileNotFound := "File not found in DB."
  const LinkGenerated := "Download link generated successfully"
  const LinkExpired := "Download link has expired."
  const InvalidDownloadToken := "Invalid download token."
  const VerifyFailed := "Failed to verify the download token."
  const MetadataNotFound := "File metadata not found in DB."
  const FileServed := "File served successfully"

  datatype DownloadLinkDTO = DownloadLinkDTO(protocol: string, host: string, fileId: string)
  datatype DownloadLinkResponse = DownloadLinkResponse(link: string, message: string)
  datatype FilePathResponse = FilePathResponse(path: string, message: string)

  /** The capability payload: the file id and nothing else. */
  function CapabilityClaims(fileId: string): Claims {
    map["fileId" := Str(fileId)]
  }

  /** The link format, with the port fixed at 4000. */
  function Link(protocol: string, host: string, token: string): string {
    protocol + "://" + host + ":4000/api/download/" + token
  }

  /** `generateDownloadLink`: an empty id is refused before any lookup, an unknown one
      after it; otherwise the link carries a token for `{fileId}` alone. */
  function GenerateDownloadLink(db: Database, c: Codec, secret: string, lifetime: int,
      dto: DownloadLinkDTO, now: int): (r: Either<DownloadLinkResponse>)
    reads db
    ensures dto.fileId == "" ==> r == Failure(FileIdRequired)
    ensures dto.fileId != "" && FindDocumentById(db, dto.fileId).None? ==> r == Failure(FileNotFound)
    ensures r.Success? <==> dto.fileId != "" && FindDocumentById(db, dto.fileId).Some?
    ensures r.Success? ==> r.value == DownloadLinkResponse(
      Link(dto.protocol, dto.host,
        Sign(c, CapabilityClaims(dto.fileId), secret, now, lifetime)),
      LinkGenerated)
  {
    if dto.fileId == "" then Failure(FileIdRequired)
    else if FindDocumentById(db, dto.fileId).None? then Failure(FileNotFound)
    else
      var token := Sign(c, CapabilityClaims(dto.fileId), secret, now, lifetime);
      Success(DownloadLinkResponse(Link(dto.protocol, dto.host, token), LinkGenerated))
  }

  /** `findDocumentById(decoded.fileId)`: a payload without a string `fileId` matches
      no row. */
  function FileOf(db: Database, claims: Claims): (r: Option<DocumentRecord>)
    reads db
    ensures !("fileId" in claims && claims["fileId"].Str?) ==> r.None?
    ensures "fileId" in claims && claims["fileId"].Str? ==>
      r == FindDocumentById(db, claims["fileId"].s)
  {
    if "fileId" in claims && claims["fileId"].Str? then FindDocumentById(db, claims["fileId"].s)
    else None
  }

  /** The served path `${fileName}.${fileExtension}` under `downloads`: the two value
      objects are interpolated as objects, not through `getValue()`, so the document's
      values play no part and every document maps to the same file. */
  function ServedPath(cwd: string, d: DocumentData): string {
    cwd + "/downloads/" + ObjectText + "." + ObjectText
  }

  /** `serveFileByToken`: no caller identity or permission is consulted. The error of
      `jwt.verify` is told apart by its name; any other error gets the generic message. */
  function ServeFileByToken(db: Database, c: Codec, secret: string, token: string, now: int,
      cwd: string, lookupRaised: bool, fsRaised: bool): (r: Either<FilePathResponse>)
    reads db
    ensures VerifyToken(c, token, secret, now) == Rejected(TokenExpiredError) ==>
      r == Failure(LinkExpired)
    ensures VerifyToken(c, token, secret, now) == Rejected(JsonWebTokenError) ==>
      r == Failure(InvalidDownloadToken)
    ensures VerifyToken(c, token, secret, now).Verified? ==>
      var claims := VerifyToken(c, token, secret, now).claims;
      && (lookupRaised ==> r == Failure(VerifyFailed))
      && (!lookupRaised && FileOf(db, claims).None? ==> r == Failure(MetadataNotFound))
      && (!lookupRaised && FileOf(db, claims).Some? && fsRaised ==> r == Failure(VerifyFailed))
      && (!lookupRaised && FileOf(db, claims).Some? && !fsRaised ==>
            r == Success(FilePathResponse(cwd + "/downloads/" + ObjectText + "." + ObjectText,
              FileServed)))
  {
    match VerifyToken(c, token, secret, now)
    case Rejected(TokenExpiredError) => Failure(LinkExpired)
    case Rejected(JsonWebTokenError) => Failure(InvalidDownloadToken)
    case Verified(claims) =>
      if lookupRaised then Failure(VerifyFailed)
      else
        match FileOf(db, claims)
        case None => Failure(MetadataNotFound)
        case Some(file) =>
          if fsRaised then Failure(VerifyFailed)
          else Success(FilePathResponse(ServedPath(cwd, file), FileServed))
  }

  /** A link made now serves its file while it is younger than its lifetime, and
      reports expiry from then on, provided the document is still there. */
  lemma LinkServesUntilExpiry(db: Database, c: Codec, secret: string, lifetime: int,
      fileId: string, issued: int, now: int, cwd: string)
    requires Sound(c) && FindDocumentById(db, fileId).Some?
    ensures var token := Sign(c, CapabilityClaims(fileId), secret, issued, lifetime);
      ServeFileByToken(db, c, secret, token, now, cwd, false, false)
        == if now < issued + lifetime
           then Success(FilePathResponse(cwd + "/downloads/" + ObjectText + "." + ObjectText,
             FileServed))
           else Failure(LinkExpired)
  {
    SignedTokenLifetime(c, CapabilityClaims(fileId), secret, issued, lifetime, now);
  }
}
