/** `UserFactory`: builds a User from raw strings. Arguments are evaluated left to right,
    so the value objects are checked in argument order and the User constructor's id
    check comes last. */
module UserFactory {
  import opened Wrappers
  import opened ValueObjects
  import opened Entities

  /** `create`: the role defaults to "User" and the id passed on is always "". */
  function Create(username: string, email: string, password: UserPassword,
      role: Option<string>): (r: Result<UserRecord>)
    ensures username == "" ==> r == Err(UsernameEmpty)
    ensures username != "" && !MatchesEmailPattern(email) ==> r == Err(EmailInvalid)
    ensures var roleText := if role.Some? then role.value else "User";
      username != "" && MatchesEmailPattern(email) && roleText !in AllowedRoles
      ==> r == Err(RoleInvalid)
    ensures var roleText := if role.Some? then role.value else "User";
      username != "" && MatchesEmailPattern(email) && roleText in AllowedRoles
      ==> r == Err(IdEmpty)
    ensures r.Err?
  {
    var n :- NewUsername(username);
    var e :- NewEmail(email);
    var ro :- NewRole(if role.Some? then role.value else "User");
    ConstructUser("", n, e, password, Some(ro))
  }

  /** `createExisting`: succeeds exactly on valid strings and a non-empty id, and the
      user then holds exactly those values. */
  function CreateExisting(id: string, username: string, email: string, password: UserPassword,
      role: string): (r: Result<UserRecord>)
    ensures r.Ok? <==> (id != "" && username != "" && MatchesEmailPattern(email)
      && (role == "User" || role == "Admin"))
    ensures username == "" ==> r == Err(UsernameEmpty)
    ensures username != "" && !MatchesEmailPattern(email) ==> r == Err(EmailInvalid)
    ensures username != "" && MatchesEmailPattern(email) && role !in AllowedRoles
      ==> r == Err(RoleInvalid)
    ensures username != "" && MatchesEmailPattern(email) && role in AllowedRoles && id == ""
      ==> r == Err(IdEmpty)
    ensures r.Ok? ==> (r.value.id == id && r.value.username.GetValue() == username
      && r.value.email.GetValue() == email && r.value.password == password
      && r.value.role.GetValue() == role)
  {
    var n :- NewUsername(username);
    var e :- NewEmail(email);
    var ro :- NewRole(role);
    ConstructUser(id, n, e, password, Some(ro))
  }

  /** A user read back through `createExisting` from its own values is the same user. */
  lemma CreateExistingOfRecord(u: UserRecord)
    ensures CreateExisting(u.id, u.username.GetValue(), u.email.GetValue(), u.password,
      u.role.GetValue()) == Ok(u)
  {
    EmailCheckMatchesPattern(u.email.value);
  }
}

/** `DocumentFactory`: builds a Document from raw strings; file name, extension,
    content type and path are checked in that order, then the id. */
module DocumentFactory {
  import opened Wrappers
  import opened ValueObjects
  import opened Entities

  /** `createDocument`: tags default to [], the path to "", both timestamps are `now`. */
  function CreateDocument(id: string, fileName: string, fileExtension: string,
      contentType: string, tags: Option<seq<string>>, filePath: Option<string>,
      now: int): (r: Result<DocumentRecord>)
    ensures fileName == "" ==> r == Err(FileNameEmpty)
    ensures fileName != "" && fileExtension == "" ==> r == Err(FileExtensionEmpty)
    ensures fileName != "" && fileExtension != "" && contentType == ""
      ==> r == Err(ContentTypeEmpty)
    ensures (fileName != "" && fileExtension != "" && contentType != ""
      && (filePath.None? || filePath.value == "")) ==> r == Err(FilePathEmpty)
    ensures filePath.None? ==> r.Err?
    ensures r.Ok? <==> (fileName != "" && fileExtension != "" && contentType != ""
      && filePath.Some? && filePath.value != "" && id != "")
    ensures r.Ok? ==> (r.value.id == id && r.value.fileName.GetValue() == fileName
      && r.value.fileExtension.GetValue() == fileExtension
      && r.value.contentType.GetValue() == contentType
      && r.value.filePath.GetValue() == filePath.value)
    ensures r.Ok? ==> r.value.tags == (if tags.Some? then tags.value else [])
    ensures r.Ok? ==> r.value.createdAt == now && r.value.updatedAt == now
  {
    var n :- NewFileName(fileName);
    var e :- NewFileExtension(fileExtension);
    var c :- NewContentType(contentType);
    var p :- NewFilePath(if filePath.Some? then filePath.value else "");
    ConstructDocument(id, n, e, c, Some(if tags.Some? then tags.value else []),
      Some(now), Some(now), p, now)
  }

  /** `createExistingDocument`: keeps the given fields and both timestamps. */
  function CreateExistingDocument(id: string, fileName: string, fileExtension: string,
      contentType: string, tags: seq<string>, createdAt: int, updatedAt: int,
      filePath: string): (r: Result<DocumentRecord>)
    ensures fileName == "" ==> r == Err(FileNameEmpty)
    ensures fileName != "" && fileExtension == "" ==> r == Err(FileExtensionEmpty)
    ensures fileName != "" && fileExtension != "" && contentType == ""
      ==> r == Err(ContentTypeEmpty)
    ensures fileName != "" && fileExtension != "" && contentType != "" && filePath == ""
      ==> r == Err(FilePathEmpty)
    ensures r.Ok? <==> (fileName != "" && fileExtension != "" && contentType != ""
      && filePath != "" && id != "")
    ensures r.Ok? ==> (r.value.id == id && r.value.fileName.GetValue() == fileName
      && r.value.fileExtension.GetValue() == fileExtension
      && r.value.contentType.GetValue() == contentType && r.value.tags == tags
      && r.value.createdAt == createdAt && r.value.updatedAt == updatedAt
      && r.value.filePath.GetValue() == filePath)
  {
    var n :- NewFileName(fileName);
    var e :- NewFileExtension(fileExtension);
    var c :- NewContentType(contentType);
    var p :- NewFilePath(filePath);
    ConstructDocument(id, n, e, c, Some(tags), Some(createdAt), Some(updatedAt), p, 0)
  }
}
