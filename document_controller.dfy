/** `DocumentController`: the HTTP layer over `DocumentService`. The caller is the user
    the authentication middleware attached (`None` when there is none); an error thrown
    outside any handler is an `Err` of the outcome. */
module DocumentController {
  import opened Wrappers
  import opened Text
  import opened ValueObjects
  import opened Entities
  import opened Store
  import opened Tables
  import opened DocumentRepository
  import opened DocumentMapper
  import UserMapper
  import DocumentService

  const NotAuthenticated := "User not authenticated"
  const Created := "Document created successfully"
  const UpdatedMessage := "Document updated successfully"
  const DeletedMessage := "Document deleted successfully"
  const NoFile := "No file uploaded"
  const Uploaded := "Document uploaded successfully"
  /** The `TypeError` of calling `split` on an absent `tags`. */
  const TagsUndefined := "Cannot read properties of undefined (reading 'split')"

  /** A JSON reply: the status, and the `message`, `error` and `document` fields when
      present. */
  datatype Reply = Reply(status: int, message: Option<string>, error: Option<string>,
    document: Option<DocumentDTO>)

  /** `req.user?.id` is truthy. */
  predicate Authenticated(user: Option<UserMapper.UserDTO>) {
    user.Some? && user.value.id != ""
  }

  // ------------------------------------------------------------ tags and file names

  /** The `tags` of a request body: an array, a string, or absent. */
  datatype TagsField = TagList(items: seq<string>) | TagText(text: string) | NoTags

  /** `Array.isArray(tags) ? tags : tags.split(",")`. */
  function TagsArray(tags: TagsField): (r: Result<seq<string>>)
    ensures tags.NoTags? ==> r == Err(TagsUndefined)
    ensures tags.TagList? ==> r == Ok(tags.items)
    ensures tags.TagText? ==>
      (r.Ok? && |r.value| >= 1 && Join(r.value, ',') == tags.text
       && forall k :: 0 <= k < |r.value| ==> ',' !in r.value[k])
  {
    match tags
    case TagList(items) => Ok(items)
    case TagText(text) =>
      SplitJoin(text, ',');
      SplitFieldsAvoidSeparator(text, ',');
      Ok(Split(text, ','))
    case NoTags => Err(TagsUndefined)
  }

  /** Tags sent as one comma-separated string arrive as the list that was joined. */
  lemma JoinedTagsArrive(tags: seq<string>)
    requires |tags| >= 1 && forall k :: 0 <= k < |tags| ==> ',' !in tags[k]
    ensures TagsArray(TagText(Join(tags, ','))) == Ok(tags)
  {
    JoinSplit(tags, ',');
  }

  /** `file.originalname.split(".").pop() || ""`: the text after the last dot, the whole
      name when there is none, and "" when the name ends in a dot. */
  function UploadExtension(name: string): (e: string)
    ensures '.' !in e && |e| <= |name| && name[|name| - |e|..] == e
    ensures '.' !in name ==> e == name
    ensures '.' in name ==> |e| < |name| && name[|name| - |e| - 1] == '.'
  {
    LastFieldIsSuffix(name, '.');
    Split(name, '.')[|Split(name, '.')| - 1]
  }

  /** A name followed by a dot and a dot-free suffix has that suffix as its extension. */
  lemma UploadExtensionOfSuffix(stem: string, extension: string)
    requires '.' !in extension
    ensures UploadExtension(stem + "." + extension) == extension
  {
    var name := stem + "." + extension;
    var e := UploadExtension(name);
    var n, m := |name| - |extension|, |name| - |e|;
    assert name[n - 1] == '.';
    assert forall i :: n <= i < |name| ==> name[i] == extension[i - n];
    assert forall i :: m <= i < |name| ==> name[i] == e[i - m];
    assert |e| == |extension|;
  }

  /** `uploads/${fileName}`: never empty. */
  function UploadPath(name: string): (p: string)
    ensures |p| == 8 + |name| && p[8..] == name
  {
    "uploads/" + name
  }

  /** `req.body.tags ? req.body.tags.split(",") : []`. */
  function UploadTags(tags: Option<string>): (r: seq<string>)
    ensures !Truthy(tags) ==> r == []
    ensures Truthy(tags) ==> |r| >= 1 && Join(r, ',') == tags.value
  {
    if Truthy(tags) then SplitJoin(tags.value, ','); Split(tags.value, ',') else []
  }

  // ------------------------------------------------------------ create

  datatype CreateBody = CreateBody(
    fileName: string,
    fileExtension: Option<string>,
    contentType: string,
    tags: TagsField)

  /** The message `createDocument` throws with for this body, in the order the value
      objects are built; the path is always empty. */
  function CreateRejection(body: CreateBody): string {
    if body.fileName == "" then FileNameEmpty
    else if OrElse(body.fileExtension, "") == "" then FileExtensionEmpty
    else if body.contentType == "" then ContentTypeEmpty
    else FilePathEmpty
  }

  /** `createNewDocument`: 401 without a caller, a crash without tags, and otherwise the
      service's throw reported as 500; no row is written. */
  method CreateNewDocument(db: Database, user: Option<UserMapper.UserDTO>, body: CreateBody,
      id: string, now: int) returns (r: Result<Reply>)
    ensures !Authenticated(user) ==> r == Ok(Reply(401, Some(NotAuthenticated), None, None))
    ensures Authenticated(user) && body.tags.NoTags? ==> r == Err(TagsUndefined)
    ensures Authenticated(user) && !body.tags.NoTags? ==>
      r == Ok(Reply(500, Some(DocumentService.CreateError), Some(CreateRejection(body)), None))
  {
    if !Authenticated(user) {
      return Ok(Reply(401, Some(NotAuthenticated), None, None));
    }
    var tags := TagsArray(body.tags);
    if tags.Err? {
      return Err(tags.message);
    }
    var dto := DocumentService.CreateDocumentDTO(user.value.id, body.fileName,
      OrElse(body.fileExtension, ""), body.contentType, Some(tags.value));
    var result := DocumentService.CreateDocument(db, dto, id, now);
    if result.Err? {
      r := Ok(Reply(500, Some(DocumentService.CreateError), Some(result.message), None));
    } else {
      r := Ok(Reply(201, Some(Created), None, None));
    }
  }

  // ------------------------------------------------------------ read, update, delete

  /** `getDocument`: 404 with the failure's text iff the id is unknown. */
  function GetDocument(db: Database, documentId: string): (r: Reply)
    reads db
    ensures r.status == 404 <==> FindDocumentById(db, documentId).None?
    ensures r.status == 404 ==> r == Reply(404, Some(DocumentNotFound), None, None)
    ensures r.status != 404 ==>
      r == Reply(200, None, None, Some(ToDTO(FindDocumentById(db, documentId).value)))
  {
    match DocumentService.GetDocument(db, documentId)
    case Failure(error) => Reply(404, Some(error), None, None)
    case Success(d) => Reply(200, None, None, Some(d))
  }

  datatype UpdateBody = UpdateBody(
    fileName: Option<string>,
    fileExtension: Option<string>,
    contentType: Option<string>,
    tags: TagsField,
    filePath: Option<string>)

  /** The update the controller sends: the tags are always present, so they are always
      replaced. */
  function UpdatesOf(body: UpdateBody): (u: DocumentUpdates)
    requires !body.tags.NoTags?
    ensures u.tags == Some(TagsArray(body.tags).value)
    ensures u.fileName == body.fileName && u.fileExtension == body.fileExtension
      && u.contentType == body.contentType && u.filePath == body.filePath
  {
    DocumentUpdates(body.fileName, body.fileExtension, body.contentType,
      Some(TagsArray(body.tags).value), body.filePath)
  }

  /** `updateDocument`: a crash without tags, 404 on any service failure, 200 with the
      updated document otherwise. */
  method UpdateDocument(db: Database, documentId: string, body: UpdateBody, now: int,
      updateRaised: bool) returns (r: Result<Reply>)
    modifies db`documents
    ensures body.tags.NoTags? ==> r == Err(TagsUndefined) && db.documents == old(db.documents)
    ensures !body.tags.NoTags? ==>
      var found := old(FindDocumentById(db, documentId));
      && (found.None? ==>
            r == Ok(Reply(404, Some(DocumentNotFound), None, None))
            && db.documents == old(db.documents))
      && (found.Some? && updateRaised ==>
            r == Ok(Reply(404, Some(DocumentService.UpdateError), None, None))
            && db.documents == old(db.documents))
      && (found.Some? && !updateRaised ==>
            var u := UpdatesOf(body);
            && db.documents == UpdateRows(old(db.documents), documentId,
                 DocumentService.Snapshot(ApplyUpdates(found.value, u)))
            && r == Ok(Reply(200, Some(UpdatedMessage), None,
                 Some(ToDTO(ApplyUpdates(found.value, u))))))
  {
    var tags := TagsArray(body.tags);
    if tags.Err? {
      return Err(tags.message);
    }
    var result := DocumentService.UpdateDocument(db, documentId, UpdatesOf(body), now,
      updateRaised);
    if result.Failure? {
      r := Ok(Reply(404, Some(result.error), None, None));
    } else {
      r := Ok(Reply(200, Some(UpdatedMessage), None, Some(result.value)));
    }
  }

  /** `deleteDocument`: 404 for an unknown id, otherwise the row is gone. */
  method DeleteDocument(db: Database, documentId: string) returns (r: Reply)
    modifies db`documents
    ensures old(FindDocumentById(db, documentId)).None? ==>
      r == Reply(404, Some(DocumentNotFound), None, None) && db.documents == old(db.documents)
    ensures old(FindDocumentById(db, documentId)).Some? ==>
      r == Reply(200, Some(DeletedMessage), None, None)
      && db.documents == RemoveWhere(old(db.documents), (d: DocumentRecord) => HasId(d, documentId))
    ensures forall k :: 0 <= k < |db.documents| ==> db.documents[k].id != documentId
  {
    var result := DocumentService.DeleteDocument(db, documentId);
    if result.Failure? {
      r := Reply(404, Some(result.error), None, None);
    } else {
      r := Reply(200, Some(DeletedMessage), None, None);
    }
  }

  // ------------------------------------------------------------ upload

  /** The uploaded file as the multipart parser describes it. */
  datatype UploadedFile = UploadedFile(originalname: string, mimetype: string)

  /** `uploadDocument`: 401 without a caller, 400 without a file, 500 for an unknown
      document; otherwise the stored path becomes `uploads/` and the original name. The
      path is never empty, so the service's own throw cannot happen here. */
  method UploadDocument(db: Database, user: Option<UserMapper.UserDTO>,
      file: Option<UploadedFile>, documentId: string, bodyTags: Option<string>, now: int)
    returns (r: Reply)
    modifies db`documents
    ensures !Authenticated(user) ==>
      r == Reply(401, Some(NotAuthenticated), None, None) && db.documents == old(db.documents)
    ensures Authenticated(user) && file.None? ==>
      r == Reply(400, Some(NoFile), None, None) && db.documents == old(db.documents)
    ensures Authenticated(user) && file.Some? ==>
      var found := old(FindDocumentById(db, documentId));
      var path := UploadPath(file.value.originalname);
      && (found.None? ==>
            r == Reply(500, Some(DocumentService.NotFoundForUpload), None, None)
            && db.documents == old(db.documents))
      && (found.Some? ==>
            && db.documents == UpdateRows(old(db.documents), documentId,
                 DocumentUpdates(None, None, None, None, Some(path)))
            && r == Reply(201, Some(Uploaded), None,
                 Some(ToDTO(found.value.(filePath := FilePathValue(path))))))
  {
    if !Authenticated(user) {
      return Reply(401, Some(NotAuthenticated), None, None);
    }
    if file.None? {
      return Reply(400, Some(NoFile), None, None);
    }
    var name := file.value.originalname;
    var dto := DocumentService.UploadDocumentDTO(documentId, user.value.id, name,
      UploadExtension(name), file.value.mimetype, UploadTags(bodyTags), UploadPath(name));
    var result := DocumentService.UploadDocument(db, dto, now);
    match result {
      case Err(_) =>
        r := Reply(500, None, None, None);
      case Ok(Failure(error)) =>
        r := Reply(500, Some(error), None, None);
      case Ok(Success(d)) =>
        r := Reply(201, Some(Uploaded), None, Some(d));
    }
  }
}
