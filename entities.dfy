/** The two domain entities. Each is a class whose fields its update methods reassign;
    `Data()` is the entity's whole state as a value, which is also the shape of its
    row in the database and what the factories and mappers build. */
module Entities {
  import opened Wrappers
  import opened ValueObjects
  import opened Text

  const IdEmpty := "ID cannot be empty."

  // ---------------------------------------------------------------- Document

  /** Timestamps are seconds on the server clock. */
  datatype DocumentData = DocumentData(
    id: string,
    fileName: FileName,
    fileExtension: FileExtension,
    contentType: ContentType,
    tags: seq<string>,
    createdAt: int,
    updatedAt: int,
    filePath: FilePath)

  /** The states a constructed document can be in. */
  type DocumentRecord = d: DocumentData | d.id != ""
    witness DocumentData("doc", FileNameValue("file"), FileExtensionValue("txt"),
      ContentTypeValue("text/plain"), [], 0, 0, FilePathValue("uploads/file"))

  /** `new Document(...)`: the state it builds, or the error it throws. `None` is an
      omitted argument: omitted tags are empty and omitted timestamps are `now`. */
  function ConstructDocument(id: string, fileName: FileName, fileExtension: FileExtension,
      contentType: ContentType, tags: Option<seq<string>>, createdAt: Option<int>,
      updatedAt: Option<int>, filePath: FilePath, now: int): (r: Result<DocumentRecord>)
    ensures r.Ok? <==> id != ""
    ensures r.Err? ==> r.message == IdEmpty
    ensures r.Ok? ==> (r.value.id == id && r.value.fileName == fileName
      && r.value.fileExtension == fileExtension && r.value.contentType == contentType
      && r.value.filePath == filePath)
    ensures r.Ok? ==> r.value.tags == (if tags.Some? then tags.value else [])
    ensures r.Ok? ==> r.value.createdAt == (if createdAt.Some? then createdAt.value else now)
    ensures r.Ok? ==> r.value.updatedAt == (if updatedAt.Some? then updatedAt.value else now)
  {
    if id == "" then Err(IdEmpty)
    else
      Ok(DocumentData(id, fileName, fileExtension, contentType,
        if tags.Some? then tags.value else [],
        if createdAt.Some? then createdAt.value else now,
        if updatedAt.Some? then updatedAt.value else now,
        filePath))
  }

  class Document {
    var id: string
    var fileName: FileName
    var fileExtension: FileExtension
    var contentType: ContentType
    var tags: seq<string>
    var createdAt: int
    var updatedAt: int
    var filePath: FilePath

    /** The current field values, as the getters return them. */
    function Data(): DocumentData
      reads this
    {
      DocumentData(id, fileName, fileExtension, contentType, tags, createdAt, updatedAt, filePath)
    }

    predicate Valid()
      reads this
    {
      id != ""
    }

    /** A document built from a state the constructor accepts. */
    constructor (d: DocumentRecord)
      ensures Data() == d && Valid()
    {
      id := d.id;
      fileName := d.fileName;
      fileExtension := d.fileExtension;
      contentType := d.contentType;
      tags := d.tags;
      createdAt := d.createdAt;
      updatedAt := d.updatedAt;
      filePath := d.filePath;
    }

    method UpdateTimestamp(now: int)
      modifies this
      ensures Data() == old(Data()).(updatedAt := now)
    {
      updatedAt := now;
    }

    method UpdateFileName(newFileName: FileName, now: int)
      modifies this
      ensures Data() == old(Data()).(fileName := newFileName, updatedAt := now)
    {
      fileName := newFileName;
      UpdateTimestamp(now);
    }

    method UpdateFileExtension(newFileExtension: FileExtension, now: int)
      modifies this
      ensures Data() == old(Data()).(fileExtension := newFileExtension, updatedAt := now)
    {
      fileExtension := newFileExtension;
      UpdateTimestamp(now);
    }

    method UpdateContentType(newContentType: ContentType, now: int)
      modifies this
      ensures Data() == old(Data()).(contentType := newContentType, updatedAt := now)
    {
      contentType := newContentType;
      UpdateTimestamp(now);
    }

    method UpdateTags(newTags: seq<string>, now: int)
      modifies this
      ensures Data() == old(Data()).(tags := newTags, updatedAt := now)
    {
      tags := newTags;
      UpdateTimestamp(now);
    }

    method SetFilePath(newFilePath: FilePath, now: int)
      modifies this
      ensures Data() == old(Data()).(filePath := newFilePath, updatedAt := now)
    {
      filePath := newFilePath;
      UpdateTimestamp(now);
    }
  }

  /** `new Document(...)` with its check: a fresh document in the state
      `ConstructDocument` describes, or the error. */
  method NewDocument(id: string, fileName: FileName, fileExtension: FileExtension,
      contentType: ContentType, tags: Option<seq<string>>, createdAt: Option<int>,
      updatedAt: Option<int>, filePath: FilePath, now: int) returns (r: Result<Document>)
    ensures var c := ConstructDocument(id, fileName, fileExtension, contentType, tags,
      createdAt, updatedAt, filePath, now);
      (r.Err? <==> c.Err?) && (r.Err? ==> r.message == c.message)
      && (r.Ok? ==> fresh(r.value) && r.value.Valid() && r.value.Data() == c.value)
  {
    var c := ConstructDocument(id, fileName, fileExtension, contentType, tags,
      createdAt, updatedAt, filePath, now);
    if c.Err? {
      return Err(c.message);
    }
    var d := new Document(c.value);
    return Ok(d);
  }

  // -------------------------------------------------------------------- User

  datatype UserData = UserData(
    id: string,
    username: Username,
    email: Email,
    password: UserPassword,
    role: Role)

  type UserRecord = u: UserData | u.id != ""
    witness (EmailWitness(); UserData("user", UsernameValue("user"), EmailValue("a@b.c"),
      UserPassword("hash"), RoleValue("User")))

  /** `new User(...)`: an omitted role is "User". */
  function ConstructUser(id: string, username: Username, email: Email, password: UserPassword,
      role: Option<Role>): (r: Result<UserRecord>)
    ensures r.Ok? <==> id != ""
    ensures r.Err? ==> r.message == IdEmpty
    ensures r.Ok? ==> (r.value.id == id && r.value.username == username
      && r.value.email == email && r.value.password == password)
    ensures r.Ok? ==> r.value.role == (if role.Some? then role.value else UserRole)
  {
    if id == "" then Err(IdEmpty)
    else Ok(UserData(id, username, email, password, if role.Some? then role.value else UserRole))
  }

  class User {
    var id: string
    var username: Username
    var email: Email
    var password: UserPassword
    var role: Role

    function Data(): UserData
      reads this
    {
      UserData(id, username, email, password, role)
    }

    predicate Valid()
      reads this
    {
      id != ""
    }

    constructor (u: UserRecord)
      ensures Data() == u && Valid()
    {
      id := u.id;
      username := u.username;
      email := u.email;
      password := u.password;
      role := u.role;
    }

    /** Sets the id only while it is empty: on a constructed user it changes nothing. */
    method InitializeId(newId: string)
      modifies this
      ensures old(id) == "" ==> Data() == old(Data()).(id := newId)
      ensures old(id) != "" ==> Data() == old(Data())
    {
      if id == "" {
        id := newId;
      }
    }

    method UpdateUsername(newUsername: Username)
      modifies this
      ensures Data() == old(Data()).(username := newUsername)
    {
      username := newUsername;
    }

    method UpdateEmail(newEmail: Email)
      modifies this
      ensures Data() == old(Data()).(email := newEmail)
    {
      email := newEmail;
    }

    method UpdateRole(newRole: Role)
      modifies this
      ensures Data() == old(Data()).(role := newRole)
    {
      role := newRole;
    }

    /** Goes through `UserPassword.create`: a too-short password is rejected and the
        stored hash is kept. */
    method UpdatePassword(newPassword: string, h: Hasher) returns (r: Result<()>)
      modifies this
      ensures r.Ok? <==> Utf16Length(newPassword) >= 6
      ensures r.Err? ==> r.message == PasswordTooShort && Data() == old(Data())
      ensures r.Ok? ==> Data() == old(Data()).(password := UserPassword(h.hash(newPassword)))
    {
      var p := CreatePassword(newPassword, h);
      if p.Err? {
        return Err(p.message);
      }
      password := p.value;
      return Ok(());
    }
  }

  /** `new User(...)` with its check. */
  method NewUser(id: string, username: Username, email: Email, password: UserPassword,
      role: Option<Role>) returns (r: Result<User>)
    ensures var c := ConstructUser(id, username, email, password, role);
      (r.Err? <==> c.Err?) && (r.Err? ==> r.message == c.message)
      && (r.Ok? ==> fresh(r.value) && r.value.Valid() && r.value.Data() == c.value)
  {
    var c := ConstructUser(id, username, email, password, role);
    if c.Err? {
      return Err(c.message);
    }
    var u := new User(c.value);
    return Ok(u);
  }
}
