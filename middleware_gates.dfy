/** The decision an Express middleware takes: call `next`, or answer with a status. */
module Gate {
  datatype Decision = Admit | Deny(status: int, message: string)

  const NotAuthenticated := "Not authenticated"
  const ServerError := "Server error."
}

/** `roleMiddleware(requiredRoles)`: reads the permission rows of (document, user) and
    decides on the first one by exact membership; levels are not ordered. A failing
    query is the input `lookupRaised`. */
module RoleMiddleware {
  import opened Wrappers
  import opened Store
  import opened Tables
  import opened Gate

  const NoPermission := "Access denied. No permission for this document."
  const Insufficient := "Access denied. Insufficient permissions."

  /** The first row of the pair, the one `permissionsResult[0]` names. */
  function FirstForPair(rows: seq<PermissionRow>, documentId: string, userId: string)
    : (r: Option<PermissionRow>)
    ensures r.None? <==> forall k :: 0 <= k < |rows| ==> !ForPair(rows[k], documentId, userId)
    ensures r.Some? ==> exists k :: (0 <= k < |rows| && rows[k] == r.value
      && ForPair(rows[k], documentId, userId)
      && forall j :: 0 <= j < k ==> !ForPair(rows[j], documentId, userId))
  {
    First(rows, (row: PermissionRow) => ForPair(row, documentId, userId))
  }

  function RoleGate(rows: seq<PermissionRow>, requiredRoles: seq<string>, documentId: string,
      userId: Option<string>, lookupRaised: bool): (r: Decision)
    ensures !Truthy(userId) ==> r == Deny(401, NotAuthenticated)
    ensures Truthy(userId) && lookupRaised ==> r == Deny(500, ServerError)
    ensures Truthy(userId) && !lookupRaised ==>
      var first := FirstForPair(rows, documentId, userId.value);
      (first.None? <==> (forall k :: 0 <= k < |rows| ==> !ForPair(rows[k], documentId, userId.value)))
      && (first.None? ==> r == Deny(403, NoPermission))
      && (first.Some? ==> (r == Admit <==> first.value.permissionType in requiredRoles))
      && (first.Some? && first.value.permissionType !in requiredRoles ==> r == Deny(403, Insufficient))
  {
    if !Truthy(userId) then Deny(401, NotAuthenticated)
    else if lookupRaised then Deny(500, ServerError)
    else
      var first := FirstForPair(rows, documentId, userId.value);
      if first.None? then Deny(403, NoPermission)
      else if first.value.permissionType in requiredRoles then Admit
      else Deny(403, Insufficient)
  }

  /** Only the first row counts: a later row of the pair with a required level does not
      admit the request. */
  lemma FirstRowDecides(rows: seq<PermissionRow>, requiredRoles: seq<string>,
      documentId: string, userId: string)
    requires |rows| >= 1 && ForPair(rows[0], documentId, userId)
    ensures RoleGate(rows, requiredRoles, documentId, Some(userId), false)
      == RoleGate([rows[0]], requiredRoles, documentId, Some(userId), false)
  {
  }

  /** Levels are not ordered: an Owner row does not pass a gate that asks for Editor. */
  lemma NoLevelHierarchy(documentId: string, userId: string, id: string)
    requires userId != ""
    ensures RoleGate([PermissionRow(id, documentId, userId, "Owner")], ["Editor"], documentId,
      Some(userId), false) == Deny(403, Insufficient)
  {
    assert "Owner" != "Editor";
  }

  /** `adminMiddleware`. */
  function AdminGate(rows: seq<PermissionRow>, documentId: string, userId: Option<string>,
      lookupRaised: bool): (r: Decision)
    ensures r == Admit <==> (Truthy(userId) && !lookupRaised
      && FirstForPair(rows, documentId, userId.value).Some?
      && FirstForPair(rows, documentId, userId.value).value.permissionType == "Admin")
  {
    RoleGate(rows, ["Admin"], documentId, userId, lookupRaised)
  }
}

/** `sharePermissionMiddleware`: only a first row of level Owner or Editor may share. */
module SharePermissionMiddleware {
  import opened Wrappers
  import opened Store
  import opened Tables
  import opened Gate
  import RoleMiddleware

  const OnlyOwnerOrEditor := "Access denied. Only Owner or Editor can share the document."

  function ShareGate(rows: seq<PermissionRow>, documentId: string, userId: Option<string>,
      lookupRaised: bool): (r: Decision)
    ensures !Truthy(userId) ==> r == Deny(401, NotAuthenticated)
    ensures Truthy(userId) && lookupRaised ==> r == Deny(500, ServerError)
    ensures Truthy(userId) && !lookupRaised ==>
      var first := RoleMiddleware.FirstForPair(rows, documentId, userId.value);
      (r == Admit <==> first.Some? && first.value.permissionType in ["Owner", "Editor"])
      && (r != Admit ==> r == Deny(403, OnlyOwnerOrEditor))
  {
    if !Truthy(userId) then Deny(401, NotAuthenticated)
    else if lookupRaised then Deny(500, ServerError)
    else
      var first := RoleMiddleware.FirstForPair(rows, documentId, userId.value);
      if first.None? || first.value.permissionType == "" || first.value.permissionType !in ["Owner", "Editor"]
      then Deny(403, OnlyOwnerOrEditor)
      else Admit
  }

  /** For a signed-in user and a working query this gate is the role gate for
      ["Owner", "Editor"], except that every refusal carries one message. */
  lemma ShareGateIsRoleGate(rows: seq<PermissionRow>, documentId: string, userId: string)
    requires userId != ""
    ensures (ShareGate(rows, documentId, Some(userId), false) == Admit)
      <==> (RoleMiddleware.RoleGate(rows, ["Owner", "Editor"], documentId, Some(userId), false) == Admit)
  {
  }
}
