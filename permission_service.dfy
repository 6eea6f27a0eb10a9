/** `PermissionsService`: sharing a document with another user through the permissions
    table. The update-then-insert choice depends on whether the update statement raises,
    which is an input here: an update that matches no row does not raise. */
module PermissionService {
  import opened Wrappers
  import opened ValueObjects
  import opened Entities
  import opened Store
  import opened Tables

  const EmailRequired := "Email is required."
  const NoSuchUser := "User with this email does not exist."
  const DefaultLevel := "Viewer"
  /** What the database reports when the fallback insert fails. */
  const InsertFailed := "insert into permissions failed"

  datatype ShareDocumentDTO = ShareDocumentDTO(
    documentId: string,
    email: Option<string>,
    permissionType: Option<string>)

  datatype PermissionDTO = PermissionDTO(documentId: string, userId: string, permissionType: string)

  /** The destructuring default: only an omitted level becomes "Viewer". */
  function Level(dto: ShareDocumentDTO): string {
    if dto.permissionType.Some? then dto.permissionType.value else DefaultLevel
  }

  predicate EmailIs(u: UserData, email: string) { u.email.GetValue() == email }

  /** `findUserByEmail`: the first row whose email is exactly `email`. */
  function FindUserByEmail(db: Database, email: string): (r: Option<UserRecord>)
    reads db
    ensures r.None? <==> forall k :: 0 <= k < |db.users| ==> !EmailIs(db.users[k], email)
    ensures r.Some? ==> exists k :: (0 <= k < |db.users| && db.users[k] == r.value
      && EmailIs(r.value, email) && forall j :: 0 <= j < k ==> !EmailIs(db.users[j], email))
  {
    First(db.users, (u: UserRecord) => EmailIs(u, email))
  }

  /** The effect of `updatePermission`: every row of the pair takes the level; no other
      row and no other field changes. */
  function SetLevel(rows: seq<PermissionRow>, documentId: string, userId: string, level: string)
    : (r: seq<PermissionRow>)
    ensures |r| == |rows|
    ensures forall k :: (0 <= k < |rows| && ForPair(rows[k], documentId, userId)
      ==> r[k] == rows[k].(permissionType := level))
    ensures forall k :: 0 <= k < |rows| && !ForPair(rows[k], documentId, userId) ==> r[k] == rows[k]
  {
    seq(|rows|, k requires 0 <= k < |rows| =>
      if ForPair(rows[k], documentId, userId) then rows[k].(permissionType := level) else rows[k])
  }

  /** A pair without rows is not affected by the update: it matches nothing. */
  lemma SetLevelWithoutRows(rows: seq<PermissionRow>, documentId: string, userId: string,
      level: string)
    requires forall k :: 0 <= k < |rows| ==> !ForPair(rows[k], documentId, userId)
    ensures SetLevel(rows, documentId, userId, level) == rows
  {
    assert forall k :: 0 <= k < |rows| ==> SetLevel(rows, documentId, userId, level)[k] == rows[k];
  }

  /** After the update, the first row of the pair (if any) carries the new level. */
  lemma {:induction false} SetLevelFirstRow(rows: seq<PermissionRow>, documentId: string,
      userId: string, level: string)
    ensures var p := (row: PermissionRow) => ForPair(row, documentId, userId);
      var before := First(rows, p);
      var after := First(SetLevel(rows, documentId, userId, level), p);
      (after.Some? <==> before.Some?)
      && (after.Some? ==> after.value == before.value.(permissionType := level))
  {
    if rows != [] {
      assert SetLevel(rows, documentId, userId, level)[1..]
        == SetLevel(rows[1..], documentId, userId, level);
      SetLevelFirstRow(rows[1..], documentId, userId, level);
    }
  }

  method UpdatePermission(db: Database, documentId: string, userId: string, level: string)
    modifies db`permissions
    ensures db.permissions == SetLevel(old(db.permissions), documentId, userId, level)
  {
    db.permissions := SetLevel(db.permissions, documentId, userId, level);
  }

  /** `sharePermission`: one new row under a fresh id. */
  method SharePermission(db: Database, documentId: string, userId: string, level: string,
      id: string)
    requires FreshPermissionId(db.permissions, id)
    modifies db`permissions
    ensures db.permissions == old(db.permissions) + [PermissionRow(id, documentId, userId, level)]
  {
    db.permissions := db.permissions + [PermissionRow(id, documentId, userId, level)];
  }

  /** `shareDocumentWithUser`. `updateRaised` says whether the update throws (the table
      then stays as it was and the insert runs instead); `insertRaised` whether that
      insert throws too, which leaves the call rejected. */
  method ShareDocumentWithUser(db: Database, dto: ShareDocumentDTO, updateRaised: bool,
      insertRaised: bool, newId: string) returns (r: Result<Either<PermissionDTO>>)
    requires FreshPermissionId(db.permissions, newId)
    modifies db`permissions
    ensures !Truthy(dto.email) ==> r == Ok(Failure(EmailRequired)) && db.permissions == old(db.permissions)
    ensures Truthy(dto.email) && old(FindUserByEmail(db, dto.email.value)).None?
      ==> r == Ok(Failure(NoSuchUser)) && db.permissions == old(db.permissions)
    ensures Truthy(dto.email) && old(FindUserByEmail(db, dto.email.value)).Some? ==>
      var u := old(FindUserByEmail(db, dto.email.value)).value;
      (!updateRaised ==> db.permissions == SetLevel(old(db.permissions), dto.documentId, u.id, Level(dto)))
      && (updateRaised && !insertRaised
        ==> db.permissions == old(db.permissions) + [PermissionRow(newId, dto.documentId, u.id, Level(dto))])
      && (updateRaised && insertRaised ==> r == Err(InsertFailed) && db.permissions == old(db.permissions))
      && (!(updateRaised && insertRaised) ==> r == Ok(Success(PermissionDTO(dto.documentId, u.id, Level(dto)))))
  {
    var level := Level(dto);
    if !Truthy(dto.email) {
      return Ok(Failure(EmailRequired));
    }
    var targetUser := FindUserByEmail(db, dto.email.value);
    if targetUser.None? {
      return Ok(Failure(NoSuchUser));
    }
    if !updateRaised {
      UpdatePermission(db, dto.documentId, targetUser.value.id, level);
    } else if insertRaised {
      return Err(InsertFailed);
    } else {
      SharePermission(db, dto.documentId, targetUser.value.id, level, newId);
    }
    r := Ok(Success(PermissionDTO(dto.documentId, targetUser.value.id, level)));
  }
}
