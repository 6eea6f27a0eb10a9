/** `TagService`: builds the `Tag` value objects, delegates once to the repository and
    maps its outcome. The `Tag` class is not part of this model: `tagOf` stands for its
    constructor, giving the name `getName()` returns or the error it throws. */
module TagService {
  import opened Wrappers
  import opened Entities
  import opened Store
  import opened DocumentRepository

  const NotFound := "Document not found"
  const AddFailed := "Failed to add the tag to the document"
  const UpdateFailed := "Failed to update the tag on the document"
  const DeleteFailed := "Failed to delete the tag from the document"

  /** The repository's answer as the service reports it: a thrown error becomes the
      fixed failure of the operation, a null result "Document not found". */
  function Report(outcome: Result<Option<DocumentRecord>>, failed: string)
    : (r: Either<DocumentRecord>)
    ensures outcome.Err? ==> r == Failure(failed)
    ensures outcome == Ok(None) ==> r == Failure(NotFound)
    ensures outcome.Ok? && outcome.value.Some? ==> r == Success(outcome.value.value)
  {
    match outcome
    case Err(_) => Failure(failed)
    case Ok(None) => Failure(NotFound)
    case Ok(Some(d)) => Success(d)
  }

  /** `addNewTag`: a missing document and a duplicate tag both give the generic failure,
      since the repository reports them by throwing. */
  method AddNewTag(db: Database, tagOf: string -> Result<string>, documentId: string,
      tagName: string, now: int) returns (r: Result<Either<DocumentRecord>>)
    modifies db`documents
    ensures tagOf(tagName).Err? ==>
      r == Err(tagOf(tagName).message) && db.documents == old(db.documents)
    ensures tagOf(tagName).Ok? ==>
      var name := tagOf(tagName).value;
      var f := old(FindDocumentById(db, documentId));
      && (f.None? || name in f.value.tags ==>
            r == Ok(Failure(AddFailed)) && db.documents == old(db.documents))
      && (f.Some? && name !in f.value.tags ==>
            r == Ok(Success(f.value.(tags := f.value.tags + [name])))
            && db.documents == UpdateRows(old(db.documents), documentId,
                 TagsOnly(f.value.tags + [name])))
  {
    var tag := tagOf(tagName);
    if tag.Err? {
      return Err(tag.message);
    }
    var outcome := AddTag(db, documentId, tag.value, now);
    r := Ok(Report(outcome, AddFailed));
  }

  /** `updateTag`: the old tag's name, then the new one's, are built first; a missing
      document and a missing tag give the generic failure. */
  method UpdateTag(db: Database, tagOf: string -> Result<string>, documentId: string,
      oldTagName: string, newTagName: string, now: int) returns (r: Result<Either<DocumentRecord>>)
    modifies db`documents
    ensures tagOf(oldTagName).Err? ==>
      r == Err(tagOf(oldTagName).message) && db.documents == old(db.documents)
    ensures tagOf(oldTagName).Ok? && tagOf(newTagName).Err? ==>
      r == Err(tagOf(newTagName).message) && db.documents == old(db.documents)
    ensures tagOf(oldTagName).Ok? && tagOf(newTagName).Ok? ==>
      var oldName := tagOf(oldTagName).value;
      var f := old(FindDocumentById(db, documentId));
      && (f.None? || oldName !in f.value.tags ==>
            r == Ok(Failure(UpdateFailed)) && db.documents == old(db.documents))
      && (f.Some? && oldName in f.value.tags ==>
            var tags := ReplaceFirst(f.value.tags, oldName, tagOf(newTagName).value);
            && r == Ok(Success(f.value.(tags := tags)))
            && db.documents == UpdateRows(old(db.documents), documentId, TagsOnly(tags)))
  {
    var oldTag := tagOf(oldTagName);
    if oldTag.Err? {
      return Err(oldTag.message);
    }
    var newTag := tagOf(newTagName);
    if newTag.Err? {
      return Err(newTag.message);
    }
    var outcome := DocumentRepository.UpdateTag(db, documentId, oldTag.value, newTag.value, now);
    r := Ok(Report(outcome, UpdateFailed));
  }

  /** `deleteTag`: only a missing document fails; an absent tag is removed from nowhere. */
  method DeleteTag(db: Database, tagOf: string -> Result<string>, documentId: string,
      tagName: string, now: int) returns (r: Result<Either<DocumentRecord>>)
    modifies db`documents
    ensures tagOf(tagName).Err? ==>
      r == Err(tagOf(tagName).message) && db.documents == old(db.documents)
    ensures tagOf(tagName).Ok? ==>
      var f := old(FindDocumentById(db, documentId));
      && (f.None? ==> r == Ok(Failure(DeleteFailed)) && db.documents == old(db.documents))
      && (f.Some? ==>
            var tags := RemoveAll(f.value.tags, tagOf(tagName).value);
            && r == Ok(Success(f.value.(tags := tags)))
            && db.documents == UpdateRows(old(db.documents), documentId, TagsOnly(tags)))
  {
    var tag := tagOf(tagName);
    if tag.Err? {
      return Err(tag.message);
    }
    var outcome := DocumentRepository.DeleteTag(db, documentId, tag.value, now);
    r := Ok(Report(outcome, DeleteFailed));
  }
}
