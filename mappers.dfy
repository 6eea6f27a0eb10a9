/** `DocumentMapper`: Document entity to its DTO and back. */
module DocumentMapper {
  import opened Wrappers
  import opened ValueObjects
  import opened Entities

  datatype DocumentDTO = DocumentDTO(
    id: string,
    fileName: string,
    fileExtension: string,
    contentType: string,
    tags: seq<string>,
    createdAt: int,
    updatedAt: int,
    filePath: string)

  /** `toDTO`: the id, the tags, the timestamps and each value object's `getValue()`. */
  function ToDTO(d: DocumentData): (dto: DocumentDTO)
    ensures d.id != "" ==> FromDTO(dto) == Ok(d)
  {
    DocumentDTO(d.id, d.fileName.GetValue(), d.fileExtension.GetValue(),
      d.contentType.GetValue(), d.tags, d.createdAt, d.updatedAt, d.filePath.GetValue())
  }

  /** `documents.map(DocumentMapper.toDTO)`: one DTO per document, in order. */
  function ToDTOs(rows: seq<DocumentData>): (r: seq<DocumentDTO>)
    ensures |r| == |rows| && forall k :: 0 <= k < |rows| ==> r[k] == ToDTO(rows[k])
  {
    seq(|rows|, k requires 0 <= k < |rows| => ToDTO(rows[k]))
  }

  /** `fromDTO`: the value objects are built in argument order, then the id is checked. */
  function FromDTO(dto: DocumentDTO): (r: Result<DocumentRecord>)
    ensures r.Ok? <==> (dto.id != "" && dto.fileName != "" && dto.fileExtension != ""
      && dto.contentType != "" && dto.filePath != "")
    ensures dto.fileName == "" ==> r == Err(FileNameEmpty)
    ensures dto.fileName != "" && dto.fileExtension == "" ==> r == Err(FileExtensionEmpty)
    ensures dto.fileName != "" && dto.fileExtension != "" && dto.contentType == ""
      ==> r == Err(ContentTypeEmpty)
    ensures (dto.fileName != "" && dto.fileExtension != "" && dto.contentType != ""
      && dto.filePath == "") ==> r == Err(FilePathEmpty)
    ensures (dto.fileName != "" && dto.fileExtension != "" && dto.contentType != ""
      && dto.filePath != "" && dto.id == "") ==> r == Err(IdEmpty)
  {
    var n :- NewFileName(dto.fileName);
    var e :- NewFileExtension(dto.fileExtension);
    var c :- NewContentType(dto.contentType);
    var p :- NewFilePath(dto.filePath);
    ConstructDocument(dto.id, n, e, c, Some(dto.tags), Some(dto.createdAt),
      Some(dto.updatedAt), p, 0)
  }

  /** A document survives the trip to its DTO and back unchanged. */
  lemma FromDTOOfToDTO(d: DocumentRecord)
    ensures FromDTO(ToDTO(d)) == Ok(d)
  {
  }

  /** A DTO that `fromDTO` accepts comes back unchanged from `toDTO`. */
  lemma ToDTOOfFromDTO(dto: DocumentDTO)
    requires FromDTO(dto).Ok?
    ensures ToDTO(FromDTO(dto).value) == dto
  {
  }
}

/** `UserMapper`: User entity to its DTO, which has no password, and back. */
module UserMapper {
  import opened Wrappers
  import opened ValueObjects
  import opened Entities

  datatype UserDTO = UserDTO(id: string, username: string, email: string, role: string)

  /** The placeholder hash a user rebuilt from a DTO carries. */
  const DefaultHashedPassword := "defaultHashedPassword"

  /** `toDTO`: id, username, email and role strings, and nothing of the password. */
  function ToDTO(u: UserData): (dto: UserDTO)
    ensures u.id != "" ==> FromDTO(dto) == Ok(u.(password := FromHashed(DefaultHashedPassword)))
  {
    EmailCheckMatchesPattern(u.email.value);
    UserDTO(u.id, u.username.GetValue(), u.email.GetValue(), u.role.GetValue())
  }

  /** `users.map(UserMapper.toDTO)`: one DTO per user, in order. */
  function ToDTOs(rows: seq<UserData>): (r: seq<UserDTO>)
    ensures |r| == |rows| && forall k :: 0 <= k < |rows| ==> r[k] == ToDTO(rows[k])
  {
    seq(|rows|, k requires 0 <= k < |rows| => ToDTO(rows[k]))
  }

  /** `fromDTO`: username, email and role are checked in that order, then the id. */
  function FromDTO(dto: UserDTO): (r: Result<UserRecord>)
    ensures r.Ok? <==> (dto.id != "" && dto.username != "" && MatchesEmailPattern(dto.email)
      && (dto.role == "User" || dto.role == "Admin"))
    ensures dto.username == "" ==> r == Err(UsernameEmpty)
    ensures dto.username != "" && !MatchesEmailPattern(dto.email) ==> r == Err(EmailInvalid)
    ensures (dto.username != "" && MatchesEmailPattern(dto.email)
      && dto.role !in AllowedRoles) ==> r == Err(RoleInvalid)
    ensures (dto.username != "" && MatchesEmailPattern(dto.email)
      && dto.role in AllowedRoles && dto.id == "") ==> r == Err(IdEmpty)
    ensures r.Ok? ==> r.value.password == FromHashed(DefaultHashedPassword)
  {
    var n :- NewUsername(dto.username);
    var e :- NewEmail(dto.email);
    var ro :- NewRole(dto.role);
    ConstructUser(dto.id, n, e, FromHashed(DefaultHashedPassword), Some(ro))
  }

  /** A DTO that `fromDTO` accepts comes back unchanged from `toDTO`. */
  lemma ToDTOOfFromDTO(dto: UserDTO)
    requires FromDTO(dto).Ok?
    ensures ToDTO(FromDTO(dto).value) == dto
  {
  }

  /** A user survives the trip through its DTO except for the password, which becomes
      the placeholder. */
  lemma FromDTOOfToDTO(u: UserRecord)
    ensures FromDTO(ToDTO(u)) == Ok(u.(password := FromHashed(DefaultHashedPassword)))
  {
    EmailCheckMatchesPattern(u.email.value);
  }
}
