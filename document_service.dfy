/** `DocumentService`: create, read, update, delete and upload of documents over the
    repository. The uuid and the clock are parameters; a thrown repository error is the
    input `updateRaised`. */
module DocumentService {
  import opened Wrappers
  import opened ValueObjects
  import opened Entities
  import opened Store
  import opened Tables
  import opened DocumentRepository
  import opened DocumentMapper

  const CreateError := "Error creating document"
  const UpdateFailed := "Failed to update document"
  const UpdateError := "Error updating document"
  const NotFoundForUpload := "Document not found for uploading"
  const UploadFailed := "Failed to upload document"

  // ------------------------------------------------------------ create

  datatype CreateDocumentDTO = CreateDocumentDTO(
    userId: string,
    fileName: string,
    fileExtension: string,
    contentType: string,
    tags: Option<seq<string>>)

  /** `createDocument`. The constructor arguments are built before the `try`, in order,
      and the last of them is `new FilePath("")`, which always throws: every call fails
      with the first rejected argument, and nothing is written. */
  method CreateDocument(db: Database, dto: CreateDocumentDTO, id: string, now: int)
    returns (r: Result<DocumentDTO>)
    ensures dto.fileName == "" ==> r == Err(FileNameEmpty)
    ensures dto.fileName != "" && dto.fileExtension == "" ==> r == Err(FileExtensionEmpty)
    ensures (dto.fileName != "" && dto.fileExtension != "" && dto.contentType == "")
      ==> r == Err(ContentTypeEmpty)
    ensures (dto.fileName != "" && dto.fileExtension != "" && dto.contentType != "")
      ==> r == Err(FilePathEmpty)
    ensures r.Err?
  {
    var name := NewFileName(dto.fileName);
    if name.Err? {
      return Err(name.message);
    }
    var extension := NewFileExtension(dto.fileExtension);
    if extension.Err? {
      return Err(extension.message);
    }
    var contentType := NewContentType(dto.contentType);
    if contentType.Err? {
      return Err(contentType.message);
    }
    var path := NewFilePath("");
    if path.Err? {
      r := Err(path.message);
    } else {
      r := Err(FilePathEmpty);
    }
  }

  /** The `try` block of `createDocument` for a document that passed construction: the
      insert, then an "Owner" row for the creator on the inserted id. A refused insert
      is reported as "Error creating document" and assigns no permission. */
  method PersistNewDocument(db: Database, doc: Document, userId: string, permissionId: string)
    returns (r: Result<DocumentDTO>)
    requires doc.Valid() && FreshPermissionId(db.permissions, permissionId)
    modifies db`documents, db`permissions
    ensures (exists k :: 0 <= k < |old(db.documents)| && old(db.documents)[k].id == doc.id) ==>
      r == Err(CreateError) && db.documents == old(db.documents)
      && db.permissions == old(db.permissions)
    ensures (forall k :: 0 <= k < |old(db.documents)| ==> old(db.documents)[k].id != doc.id) ==>
      r == Ok(ToDTO(doc.Data())) && db.documents == old(db.documents) + [doc.Data()]
      && db.permissions == old(db.permissions) + [PermissionRow(permissionId, doc.id, userId, "Owner")]
    ensures KnownLevels(old(db.permissions)) ==> KnownLevels(db.permissions)
  {
    var inserted := DocumentRepository.Create(db, doc);
    if inserted.Err? {
      return Err(CreateError);
    }
    AssignOwnerPermission(db, inserted.value.id, userId, permissionId);
    r := Ok(ToDTO(inserted.value));
  }

  // ------------------------------------------------------------ read

  /** `getDocument`: the DTO of the row, or "Document not found" iff there is none. */
  function GetDocument(db: Database, documentId: string): (r: Either<DocumentDTO>)
    reads db
    ensures r.Failure? <==> forall k :: 0 <= k < |db.documents| ==> db.documents[k].id != documentId
    ensures r.Failure? ==> r.error == DocumentNotFound
    ensures r.Success? ==> exists k :: (0 <= k < |db.documents| && db.documents[k].id == documentId
      && r.value == ToDTO(db.documents[k]))
  {
    match FindDocumentById(db, documentId)
    case None => Failure(DocumentNotFound)
    case Some(d) => Success(ToDTO(d))
  }

  // ------------------------------------------------------------ update

  /** Every field of a document, as the full update `updateDocument` sends. */
  function Snapshot(d: DocumentData): DocumentUpdates {
    DocumentUpdates(Some(d.fileName.GetValue()), Some(d.fileExtension.GetValue()),
      Some(d.contentType.GetValue()), Some(d.tags), Some(d.filePath.GetValue()))
  }

  /** Writing back all fields of an edited copy gives the edited copy, except that the
      stored timestamps stay as they were. */
  lemma SnapshotRestores(d: DocumentRecord, e: DocumentData)
    ensures ApplyUpdates(d, Snapshot(e)) ==
      e.(id := d.id, createdAt := d.createdAt, updatedAt := d.updatedAt)
  {
  }

  /** The entity after the conditional update calls of `updateDocument`: each truthy
      field (and supplied tags) replaced, and `updatedAt` stamped if anything was. */
  function Edited(d: DocumentData, u: DocumentUpdates, now: int): (e: DocumentData)
    ensures e.id == d.id && e.createdAt == d.createdAt
    ensures e.updatedAt == (if (Truthy(u.fileName) || Truthy(u.fileExtension)
      || Truthy(u.contentType) || u.tags.Some? || Truthy(u.filePath)) then now else d.updatedAt)
    ensures e.fileName.GetValue() == OrElse(u.fileName, d.fileName.GetValue())
    ensures e.fileExtension.GetValue() == OrElse(u.fileExtension, d.fileExtension.GetValue())
    ensures e.contentType.GetValue() == OrElse(u.contentType, d.contentType.GetValue())
    ensures e.tags == if u.tags.Some? then u.tags.value else d.tags
    ensures e.filePath.GetValue() == OrElse(u.filePath, d.filePath.GetValue())
  {
    var touched := Truthy(u.fileName) || Truthy(u.fileExtension) || Truthy(u.contentType)
      || u.tags.Some? || Truthy(u.filePath);
    d.(fileName := if Truthy(u.fileName) then FileNameValue(u.fileName.value) else d.fileName,
       fileExtension := if Truthy(u.fileExtension) then FileExtensionValue(u.fileExtension.value)
         else d.fileExtension,
       contentType := if Truthy(u.contentType) then ContentTypeValue(u.contentType.value)
         else d.contentType,
       tags := if u.tags.Some? then u.tags.value else d.tags,
       filePath := if Truthy(u.filePath) then FilePathValue(u.filePath.value) else d.filePath,
       updatedAt := if touched then now else d.updatedAt)
  }

  /** The entity's update methods, called for the truthy fields in source order. */
  method ApplyEdits(document: Document, updates: DocumentUpdates, now: int)
    modifies document
    ensures document.Data() == Edited(old(document.Data()), updates, now)
  {
    if Truthy(updates.fileName) {
      document.UpdateFileName(NewFileName(updates.fileName.value).value, now);
    }
    if Truthy(updates.fileExtension) {
      document.UpdateFileExtension(NewFileExtension(updates.fileExtension.value).value, now);
    }
    if Truthy(updates.contentType) {
      document.UpdateContentType(NewContentType(updates.contentType.value).value, now);
    }
    if updates.tags.Some? {
      document.UpdateTags(updates.tags.value, now);
    }
    if Truthy(updates.filePath) {
      document.SetFilePath(NewFilePath(updates.filePath.value).value, now);
    }
  }

  /** `updateDocument`: the truthy fields (and supplied tags) are applied to the entity,
      whose every field is then written back. The stored row therefore changes exactly
      in the supplied fields, and its `updatedAt` is not touched. */
  method UpdateDocument(db: Database, documentId: string, updates: DocumentUpdates, now: int,
      updateRaised: bool) returns (r: Either<DocumentDTO>)
    modifies db`documents
    ensures old(FindDocumentById(db, documentId)).None? ==>
      r == Failure(DocumentNotFound) && db.documents == old(db.documents)
    ensures old(FindDocumentById(db, documentId)).Some? && updateRaised ==>
      r == Failure(UpdateError) && db.documents == old(db.documents)
    ensures old(FindDocumentById(db, documentId)).Some? && !updateRaised ==>
      var d := old(FindDocumentById(db, documentId)).value;
      && db.documents == UpdateRows(old(db.documents), documentId,
           Snapshot(ApplyUpdates(d, updates)))
      && r == Success(ToDTO(ApplyUpdates(d, updates)))
  {
    var found := FindDocumentById(db, documentId);
    if found.None? {
      return Failure(DocumentNotFound);
    }
    var document := new Document(found.value);
    ApplyEdits(document, updates, now);
    assert Snapshot(document.Data()) == Snapshot(ApplyUpdates(found.value, updates));
    if updateRaised {
      return Failure(UpdateError);
    }
    SnapshotRestores(found.value, document.Data());
    var updated := DocumentRepository.Update(db, documentId, Snapshot(document.Data()));
    if updated.value.None? {
      r := Failure(UpdateFailed);
    } else {
      r := Success(ToDTO(updated.value.value));
    }
  }

  // ------------------------------------------------------------ delete

  /** `deleteDocument`: a missing document is a failure; otherwise the document is
      removed and its DTO from before the deletion returned. Permission rows stay. */
  method DeleteDocument(db: Database, documentId: string) returns (r: Either<DocumentDTO>)
    modifies db`documents
    ensures old(FindDocumentById(db, documentId)).None? ==>
      r == Failure(DocumentNotFound) && db.documents == old(db.documents)
    ensures old(FindDocumentById(db, documentId)).Some? ==>
      r == Success(ToDTO(old(FindDocumentById(db, documentId)).value))
      && db.documents == RemoveWhere(old(db.documents), (d: DocumentRecord) => HasId(d, documentId))
    ensures forall k :: 0 <= k < |db.documents| ==> db.documents[k].id != documentId
  {
    var toDelete := FindDocumentById(db, documentId);
    if toDelete.None? {
      return Failure(DocumentNotFound);
    }
    var _ := DocumentRepository.Delete(db, documentId);
    r := Success(ToDTO(toDelete.value));
  }

  // ------------------------------------------------------------ upload

  datatype UploadDocumentDTO = UploadDocumentDTO(
    documentId: string,
    userId: string,
    fileName: string,
    fileExtension: string,
    contentType: string,
    tags: seq<string>,
    filePath: string)

  /** `uploadDocument`: sets the path of an existing document and writes only that
      field. An empty path throws, outside any `try`. */
  method UploadDocument(db: Database, dto: UploadDocumentDTO, now: int)
    returns (r: Result<Either<DocumentDTO>>)
    modifies db`documents
    ensures old(FindDocumentById(db, dto.documentId)).None? ==>
      r == Ok(Failure(NotFoundForUpload)) && db.documents == old(db.documents)
    ensures old(FindDocumentById(db, dto.documentId)).Some? && dto.filePath == "" ==>
      r == Err(FilePathEmpty) && db.documents == old(db.documents)
    ensures old(FindDocumentById(db, dto.documentId)).Some? && dto.filePath != "" ==>
      var d := old(FindDocumentById(db, dto.documentId)).value;
      var only := DocumentUpdates(None, None, None, None, Some(dto.filePath));
      && db.documents == UpdateRows(old(db.documents), dto.documentId, only)
      && r == Ok(Success(ToDTO(d.(filePath := FilePathValue(dto.filePath)))))
  {
    var found := FindDocumentById(db, dto.documentId);
    if found.None? {
      return Ok(Failure(NotFoundForUpload));
    }
    var document := new Document(found.value);
    var path := NewFilePath(dto.filePath);
    if path.Err? {
      return Err(path.message);
    }
    document.SetFilePath(path.value, now);
    var only := DocumentUpdates(None, None, None, None, Some(document.filePath.GetValue()));
    var updated := DocumentRepository.Update(db, dto.documentId, only);
    if updated.value.None? {
      r := Ok(Failure(UploadFailed));
    } else {
      r := Ok(Success(ToDTO(updated.value.value)));
    }
  }
}
