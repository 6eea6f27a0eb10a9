/** `DocumentRepository` over the documents and permissions tables. A fetched document
    is given by its field values (each fetch builds a fresh entity from the row). */
module DocumentRepository {
  import opened Wrappers
  import opened Text
  import opened ValueObjects
  import opened Entities
  import opened Store
  import opened Tables

  const DocumentNotFound := "Document not found"
  const TagExists := "Tag already exists"
  const TagNotFound := "Tag not found"
  /** What the database reports for a second row under an existing primary key. */
  const DuplicateKey := "duplicate key value violates unique constraint"
  /** What the query builder throws for an update without any value to write. */
  const NoValuesToSet := "No values to set"

  /** `assignOwnerPermission`: one more "Owner" row for the pair, whatever rows exist. */
  method AssignOwnerPermission(db: Database, documentId: string, userId: string, id: string)
    requires FreshPermissionId(db.permissions, id)
    modifies db`permissions
    ensures db.permissions == old(db.permissions) + [PermissionRow(id, documentId, userId, "Owner")]
  {
    db.permissions := db.permissions + [PermissionRow(id, documentId, userId, "Owner")];
  }

  predicate HasId(d: DocumentData, id: string) { d.id == id }

  /** `findDocumentById`: the row with that id, or `None` iff there is none. */
  function FindDocumentById(db: Database, id: string): (r: Option<DocumentRecord>)
    reads db
    ensures r.None? <==> forall k :: 0 <= k < |db.documents| ==> db.documents[k].id != id
    ensures r.Some? ==> r.value.id == id && r.value in db.documents
  {
    First(db.documents, (d: DocumentRecord) => HasId(d, id))
  }

  /** `create`: inserts the document's values; an id already in the table is refused. */
  method Create(db: Database, doc: Document) returns (r: Result<DocumentRecord>)
    requires doc.Valid()
    modifies db`documents
    ensures (exists k :: 0 <= k < |old(db.documents)| && old(db.documents)[k].id == doc.id)
      ==> r == Err(DuplicateKey) && db.documents == old(db.documents)
    ensures (forall k :: 0 <= k < |old(db.documents)| ==> old(db.documents)[k].id != doc.id)
      ==> r == Ok(doc.Data()) && db.documents == old(db.documents) + [doc.Data()]
  {
    var existing := FindDocumentById(db, doc.id);
    if existing.Some? {
      r := Err(DuplicateKey);
    } else {
      var row: DocumentRecord := doc.Data();
      db.documents := db.documents + [row];
      r := Ok(row);
    }
  }

  /** The partial update `update` takes; `None` is an omitted field. */
  datatype DocumentUpdates = DocumentUpdates(
    fileName: Option<string>,
    fileExtension: Option<string>,
    contentType: Option<string>,
    tags: Option<seq<string>>,
    filePath: Option<string>)

  function TagsOnly(tags: seq<string>): DocumentUpdates {
    DocumentUpdates(None, None, None, Some(tags), None)
  }

  /** The `set(...)` of `update`: a string field changes only when given a non-empty
      value, the tags whenever given; id and both timestamps are never written. */
  function ApplyUpdates(d: DocumentRecord, u: DocumentUpdates): (r: DocumentRecord)
    ensures r.id == d.id && r.createdAt == d.createdAt && r.updatedAt == d.updatedAt
    ensures r.fileName.GetValue() == OrElse(u.fileName, d.fileName.GetValue())
    ensures r.fileExtension.GetValue() == OrElse(u.fileExtension, d.fileExtension.GetValue())
    ensures r.contentType.GetValue() == OrElse(u.contentType, d.contentType.GetValue())
    ensures r.tags == if u.tags.Some? then u.tags.value else d.tags
    ensures r.filePath.GetValue() == OrElse(u.filePath, d.filePath.GetValue())
  {
    d.(fileName := if Truthy(u.fileName) then FileNameValue(u.fileName.value) else d.fileName,
       fileExtension := if Truthy(u.fileExtension) then FileExtensionValue(u.fileExtension.value)
         else d.fileExtension,
       contentType := if Truthy(u.contentType) then ContentTypeValue(u.contentType.value)
         else d.contentType,
       tags := if u.tags.Some? then u.tags.value else d.tags,
       filePath := if Truthy(u.filePath) then FilePathValue(u.filePath.value) else d.filePath)
  }

  /** Every row with the id updated, all others kept. */
  function UpdateRows(rows: seq<DocumentRecord>, id: string, u: DocumentUpdates)
    : (r: seq<DocumentRecord>)
    ensures |r| == |rows|
    ensures forall k :: 0 <= k < |rows| && rows[k].id != id ==> r[k] == rows[k]
    ensures forall k :: 0 <= k < |rows| && rows[k].id == id ==> r[k] == ApplyUpdates(rows[k], u)
  {
    seq(|rows|, k requires 0 <= k < |rows| =>
      if rows[k].id == id then ApplyUpdates(rows[k], u) else rows[k])
  }

  /** The row `returning()` yields after the update is the first matching row, updated. */
  lemma {:induction false} FirstOfUpdateRows(rows: seq<DocumentRecord>, id: string,
      u: DocumentUpdates)
    ensures First(UpdateRows(rows, id, u), (d: DocumentRecord) => HasId(d, id))
      == match First(rows, (d: DocumentRecord) => HasId(d, id))
         case None => None
         case Some(d) => Some(ApplyUpdates(d, u))
  {
    if rows != [] {
      var r := UpdateRows(rows, id, u);
      assert r[1..] == UpdateRows(rows[1..], id, u);
      FirstOfUpdateRows(rows[1..], id, u);
    }
  }

  /** No field of the `set(...)` has a value: every string is falsy and no tags are
      given, so the query builder has nothing to write. */
  predicate NothingToSet(u: DocumentUpdates) {
    !Truthy(u.fileName) && !Truthy(u.fileExtension) && !Truthy(u.contentType)
    && u.tags.None? && !Truthy(u.filePath)
  }

  /** `update`: an update with nothing to set throws before the query runs; otherwise
      the supplied fields are applied to the row with the id, which is returned
      updated, or `None` when no row has the id. */
  method Update(db: Database, documentId: string, updates: DocumentUpdates)
    returns (r: Result<Option<DocumentRecord>>)
    modifies db`documents
    ensures NothingToSet(updates) ==> r == Err(NoValuesToSet) && db.documents == old(db.documents)
    ensures !NothingToSet(updates) ==>
      && db.documents == UpdateRows(old(db.documents), documentId, updates)
      && r == Ok(match old(FindDocumentById(db, documentId))
           case None => None
           case Some(d) => Some(ApplyUpdates(d, updates)))
  {
    if NothingToSet(updates) {
      return Err(NoValuesToSet);
    }
    FirstOfUpdateRows(db.documents, documentId, updates);
    db.documents := UpdateRows(db.documents, documentId, updates);
    r := Ok(FindDocumentById(db, documentId));
  }

  /** `delete`: `None` and no change for a missing id; otherwise the row as it was, after
      removing it. The permissions table is not touched. */
  method Delete(db: Database, documentId: string) returns (r: Option<DocumentRecord>)
    modifies db`documents
    ensures r == old(FindDocumentById(db, documentId))
    ensures r.None? ==> db.documents == old(db.documents)
    ensures r.Some? ==> db.documents == RemoveWhere(old(db.documents),
      (d: DocumentRecord) => HasId(d, documentId))
    ensures forall k :: 0 <= k < |db.documents| ==> db.documents[k].id != documentId
  {
    r := FindDocumentById(db, documentId);
    if r.Some? {
      db.documents := RemoveWhere(db.documents, (d: DocumentRecord) => HasId(d, documentId));
    }
  }

  // ------------------------------------------------------------ tag lists

  /** `tags[tags.indexOf(t)] = n`: only the first occurrence changes. */
  function ReplaceFirst(tags: seq<string>, t: string, n: string): (r: seq<string>)
    requires t in tags
    ensures |r| == |tags|
    ensures var i := IndexOf(tags, t); r[i] == n && forall k :: 0 <= k < i ==> tags[k] != t
    ensures forall k :: 0 <= k < |tags| && k != IndexOf(tags, t) ==> r[k] == tags[k]
  {
    tags[IndexOf(tags, t) := n]
  }

  /** `tags.filter(x => x !== t)`. */
  function RemoveAll(tags: seq<string>, t: string): (r: seq<string>)
    ensures t !in r
    ensures forall x :: x != t ==> multiset(r)[x] == multiset(tags)[x]
    ensures t !in tags ==> r == tags
  {
    if tags == [] then []
    else
      var rest := RemoveAll(tags[1..], t);
      assert tags == [tags[0]] + tags[1..];
      if tags[0] == t then rest else [tags[0]] + rest
  }

  /** `addTag`: appends a tag the document does not have yet. */
  method AddTag(db: Database, documentId: string, tagName: string, now: int)
    returns (r: Result<Option<DocumentRecord>>)
    modifies db`documents
    ensures var f := old(FindDocumentById(db, documentId));
      f.None? ==> r == Err(DocumentNotFound) && db.documents == old(db.documents)
    ensures var f := old(FindDocumentById(db, documentId));
      f.Some? && tagName in f.value.tags ==> r == Err(TagExists) && db.documents == old(db.documents)
    ensures var f := old(FindDocumentById(db, documentId));
      f.Some? && tagName !in f.value.tags ==>
        r == Ok(Some(f.value.(tags := f.value.tags + [tagName])))
        && db.documents == UpdateRows(old(db.documents), documentId, TagsOnly(f.value.tags + [tagName]))
  {
    var found := FindDocumentById(db, documentId);
    if found.None? {
      return Err(DocumentNotFound);
    }
    if tagName in found.value.tags {
      return Err(TagExists);
    }
    var document := new Document(found.value);
    document.UpdateTags(document.tags + [tagName], now);
    var updated := Update(db, documentId, TagsOnly(document.tags));
    r := Ok(updated.value);
  }

  /** `updateTag`: replaces the first occurrence of an existing tag. */
  method UpdateTag(db: Database, documentId: string, oldTagName: string, newTagName: string,
      now: int) returns (r: Result<Option<DocumentRecord>>)
    modifies db`documents
    ensures var f := old(FindDocumentById(db, documentId));
      f.None? ==> r == Err(DocumentNotFound) && db.documents == old(db.documents)
    ensures var f := old(FindDocumentById(db, documentId));
      f.Some? && oldTagName !in f.value.tags
      ==> r == Err(TagNotFound) && db.documents == old(db.documents)
    ensures var f := old(FindDocumentById(db, documentId));
      f.Some? && oldTagName in f.value.tags ==>
        var tags := ReplaceFirst(f.value.tags, oldTagName, newTagName);
        r == Ok(Some(f.value.(tags := tags)))
        && db.documents == UpdateRows(old(db.documents), documentId, TagsOnly(tags))
  {
    var found := FindDocumentById(db, documentId);
    if found.None? {
      return Err(DocumentNotFound);
    }
    var document := new Document(found.value);
    var tags := document.tags;
    var tagIndex := IndexOf(tags, oldTagName);
    if tagIndex == -1 {
      return Err(TagNotFound);
    }
    tags := tags[tagIndex := newTagName];
    document.UpdateTags(tags, now);
    var updated := Update(db, documentId, TagsOnly(tags));
    r := Ok(updated.value);
  }

  /** `deleteTag`: removes every occurrence; an absent tag is no error. */
  method DeleteTag(db: Database, documentId: string, tagName: string, now: int)
    returns (r: Result<Option<DocumentRecord>>)
    modifies db`documents
    ensures var f := old(FindDocumentById(db, documentId));
      f.None? ==> r == Err(DocumentNotFound) && db.documents == old(db.documents)
    ensures var f := old(FindDocumentById(db, documentId));
      f.Some? ==>
        var tags := RemoveAll(f.value.tags, tagName);
        r == Ok(Some(f.value.(tags := tags)))
        && db.documents == UpdateRows(old(db.documents), documentId, TagsOnly(tags))
  {
    var found := FindDocumentById(db, documentId);
    if found.None? {
      return Err(DocumentNotFound);
    }
    var document := new Document(found.value);
    var updatedTags := RemoveAll(document.tags, tagName);
    document.UpdateTags(updatedTags, now);
    var updated := Update(db, documentId, TagsOnly(updatedTags));
    r := Ok(updated.value);
  }

  /** `findPaginatedDocuments(limit, offset)`. */
  function FindPaginatedDocuments(db: Database, limit: nat, offset: nat)
    : (r: seq<DocumentRecord>)
    reads db
    ensures |r| == if offset >= |db.documents| then 0 else Min(limit, |db.documents| - offset)
    ensures |r| <= limit && (r != [] ==> offset + |r| <= |db.documents|)
    ensures forall k :: 0 <= k < |r| ==> r[k] == db.documents[offset + k]
    ensures offset + limit <= |db.documents| ==> |r| == limit
  {
    Page(db.documents, limit, offset)
  }

  /** `countDocuments`: the number of rows. */
  function CountDocuments(db: Database): nat
    reads db
  {
    |db.documents|
  }

  /** The count bounds the pages: a window is empty exactly when it has no room or
      starts at or after the count. */
  lemma CountBoundsPages(db: Database, limit: nat, offset: nat)
    ensures FindPaginatedDocuments(db, limit, offset) == [] <==>
      (limit == 0 || offset >= CountDocuments(db))
  {
  }
}
