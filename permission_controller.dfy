/** `PermissionsController.shareDocument`: checks the body, then shares through the
    service and maps its outcome to a status. */
module PermissionController {
  import opened Wrappers
  import opened Store
  import opened PermissionService

  const FieldsRequired := "Email and permission type are required"
  const InvalidType := "Invalid permission type. Must be one of: Editor, Viewer"
  const Shared := "Document shared successfully"
  const ServerError := "Server error."

  /** The levels the controller lets a caller grant. */
  const ValidPermissionTypes := ["Editor", "Viewer"]

  /** The request body; `None` is an absent field. */
  datatype ShareBody = ShareBody(email: Option<string>, permissionType: Option<string>)

  datatype Reply = Reply(status: int, message: string, permission: Option<PermissionDTO>)

  /** The checks before the service is called: both fields truthy, then a known level.
      `None` lets the request through. */
  function CheckBody(body: ShareBody): (r: Option<Reply>)
    ensures !Truthy(body.email) || !Truthy(body.permissionType) ==>
      r == Some(Reply(400, FieldsRequired, None))
    ensures (Truthy(body.email) && Truthy(body.permissionType)
      && body.permissionType.value !in ValidPermissionTypes) ==> r == Some(Reply(400, InvalidType, None))
    ensures r.None? <==> (Truthy(body.email) && Truthy(body.permissionType)
      && (body.permissionType.value == "Editor" || body.permissionType.value == "Viewer"))
  {
    if !Truthy(body.email) || !Truthy(body.permissionType) then Some(Reply(400, FieldsRequired, None))
    else if body.permissionType.value !in ValidPermissionTypes then Some(Reply(400, InvalidType, None))
    else None
  }

  /** `shareDocument`: a service failure is 500 with its message, a thrown error 500
      "Server error.", a share 200 with the permission. */
  method ShareDocument(db: Database, documentId: string, body: ShareBody, updateRaised: bool,
      insertRaised: bool, newId: string) returns (r: Reply)
    requires FreshPermissionId(db.permissions, newId)
    modifies db`permissions
    ensures CheckBody(body).Some? ==> r == CheckBody(body).value && db.permissions == old(db.permissions)
    ensures CheckBody(body).None? ==>
      var level := body.permissionType.value;
      var found := old(FindUserByEmail(db, body.email.value));
      && (found.None? ==> r == Reply(500, NoSuchUser, None) && db.permissions == old(db.permissions))
      && (found.Some? && updateRaised && insertRaised ==>
            r == Reply(500, ServerError, None) && db.permissions == old(db.permissions))
      && (found.Some? && !updateRaised ==>
            db.permissions == SetLevel(old(db.permissions), documentId, found.value.id, level))
      && (found.Some? && updateRaised && !insertRaised ==>
            db.permissions == old(db.permissions)
              + [PermissionRow(newId, documentId, found.value.id, level)])
      && (found.Some? && !(updateRaised && insertRaised) ==>
            r == Reply(200, Shared, Some(PermissionDTO(documentId, found.value.id, level))))
    ensures KnownLevels(old(db.permissions)) ==> KnownLevels(db.permissions)
  {
    var refused := CheckBody(body);
    if refused.Some? {
      return refused.value;
    }
    var dto := ShareDocumentDTO(documentId, body.email, body.permissionType);
    var result := ShareDocumentWithUser(db, dto, updateRaised, insertRaised, newId);
    match result {
      case Err(_) =>
        r := Reply(500, ServerError, None);
      case Ok(Failure(error)) =>
        r := Reply(500, error, None);
      case Ok(Success(permission)) =>
        r := Reply(200, Shared, Some(permission));
    }
  }
}
