/** `UserService`: login with its own secret and string claims, registration through
    `UserFactory.create`, the field merge of `updateUser`, and `deleteUser`. A thrown
    repository error is an input: `fault` carries its message. */
module UserService {
  import opened Wrappers
  import opened Text
  import opened ValueObjects
  import opened Entities
  import opened Store
  import opened Tables
  import opened Jwt
  import opened UserRepository
  import opened UserFactory
  import opened UserMapper

  const FallbackSecret := "your_jwt_secret"

  /** `process.env.JWT_SECRET || "your_jwt_secret"`. */
  function Secret(env: Option<string>): (secret: string)
    ensures Truthy(env) ==> secret == env.value
    ensures !Truthy(env) ==> secret == FallbackSecret
  {
    OrElse(env, FallbackSecret)
  }

  const InvalidCredentials := "Invalid username or password"
  const LoginSuccessful := "Login successful"
  const UserNotFound := "User not found"
  const UserUpdated := "User updated successfully"
  const UpdateFailed := "Failed to update user: "
  const DeleteFailed := "Failed to delete user: "

  // ------------------------------------------------------------ login

  datatype LoginResponse = LoginResponse(token: string, message: string)

  /** The payload this service signs: plain strings from `getValue()`. */
  function StringClaims(u: UserData): Claims {
    map["id" := Str(u.id), "username" := Str(u.username.GetValue()),
        "role" := Str(u.role.GetValue())]
  }

  /** `login`: the name is lower-cased before `fetchByName`, which lower-cases both sides
      anyway; an unknown name and a wrong password give the same failure. */
  function Login(db: Database, c: Codec, h: Hasher, secret: string, username: string,
      password: string, now: int): (r: Either<LoginResponse>)
    reads db
    ensures r.Failure? ==> r.error == InvalidCredentials
    ensures r.Success? <==> (FetchByName(db, username).Some?
      && Compare(FetchByName(db, username).value.password, password, h))
    ensures r.Success? ==> r.value == LoginResponse(
      Sign(c, StringClaims(FetchByName(db, username).value), secret, now, OneHour),
      LoginSuccessful)
  {
    FetchByNameIgnoresCase(db, username);
    match FetchByName(db, Lower(username))
    case None => Failure(InvalidCredentials)
    case Some(u) =>
      if !Compare(u.password, password, h) then Failure(InvalidCredentials)
      else Success(LoginResponse(Sign(c, StringClaims(u), secret, now, OneHour), LoginSuccessful))
  }

  // ------------------------------------------------------------ registration

  datatype RegisterUserDTO = RegisterUserDTO(username: string, email: string, password: string)

  /** The steps of `registerNewUser` / `registerNewAdmin` before the repository call: the
      password, the username and the email are checked in that order, the role is the
      constant given, and `UserFactory.create` then refuses its empty id. */
  function BuildNewUser(dto: RegisterUserDTO, role: Role, h: Hasher): (r: Result<UserRecord>)
    ensures Utf16Length(dto.password) < 6 ==> r == Err(PasswordTooShort)
    ensures Utf16Length(dto.password) >= 6 && dto.username == "" ==> r == Err(UsernameEmpty)
    ensures (Utf16Length(dto.password) >= 6 && dto.username != ""
      && !MatchesEmailPattern(dto.email)) ==> r == Err(EmailInvalid)
    ensures (Utf16Length(dto.password) >= 6 && dto.username != ""
      && MatchesEmailPattern(dto.email)) ==> r == Err(IdEmpty)
  {
    var password :- CreatePassword(dto.password, h);
    var username :- NewUsername(dto.username);
    var email :- NewEmail(dto.email);
    UserFactory.Create(username.GetValue(), email.GetValue(), password, Some(role.GetValue()))
  }

  /** `registerNewUser`: the role is "User" whatever the request says. The factory throws
      before the `try`, so every call throws and no row is written. */
  function RegisterNewUser(dto: RegisterUserDTO, h: Hasher): (r: Result<Either<UserDTO>>)
    ensures r.Err?
    ensures r.Err? ==> r.message == BuildNewUser(dto, UserRole, h).message
  {
    var built := BuildNewUser(dto, UserRole, h);
    if built.Err? then Err(built.message) else assert false; Err(IdEmpty)
  }

  /** `registerNewAdmin`: the same, with the role "Admin". */
  function RegisterNewAdmin(dto: RegisterUserDTO, h: Hasher): (r: Result<Either<UserDTO>>)
    ensures r.Err?
    ensures r.Err? ==> r.message == BuildNewUser(dto, AdminRole, h).message
  {
    var built := BuildNewUser(dto, AdminRole, h);
    if built.Err? then Err(built.message) else assert false; Err(IdEmpty)
  }

  /** Registration fails with the same message whichever role is asked for. */
  lemma {:induction false} RegistrationRoleIrrelevant(dto: RegisterUserDTO, h: Hasher)
    ensures RegisterNewUser(dto, h) == RegisterNewAdmin(dto, h)
  {
    assert BuildNewUser(dto, UserRole, h).message == BuildNewUser(dto, AdminRole, h).message;
  }

  // ------------------------------------------------------------ update

  datatype UpdateUserDTO = UpdateUserDTO(
    id: string,
    username: Option<string>,
    email: Option<string>,
    password: Option<string>,
    role: Option<string>)

  /** The values built from the truthy fields of the request. */
  datatype UserPatch = UserPatch(
    password: Option<UserPassword>,
    username: Option<Username>,
    email: Option<Email>,
    role: Role)

  /** The value objects `updateUser` builds before any lookup, in source order: a
      truthy password, username and email are checked, and the role is the given one
      or "User". */
  function ParseUpdate(dto: UpdateUserDTO, h: Hasher): (r: Result<UserPatch>)
    ensures Truthy(dto.password) && Utf16Length(dto.password.value) < 6 ==>
      r == Err(PasswordTooShort)
    ensures ((Truthy(dto.password) ==> Utf16Length(dto.password.value) >= 6)
      && Truthy(dto.email) && !MatchesEmailPattern(dto.email.value)) ==> r == Err(EmailInvalid)
    ensures ((Truthy(dto.password) ==> Utf16Length(dto.password.value) >= 6)
      && (Truthy(dto.email) ==> MatchesEmailPattern(dto.email.value))
      && Truthy(dto.role) && dto.role.value !in AllowedRoles) ==> r == Err(RoleInvalid)
    ensures r.Ok? <==> ((Truthy(dto.password) ==> Utf16Length(dto.password.value) >= 6)
      && (Truthy(dto.email) ==> MatchesEmailPattern(dto.email.value))
      && (Truthy(dto.role) ==> dto.role.value in AllowedRoles))
  {
    var password :- if Truthy(dto.password)
      then (var p :- CreatePassword(dto.password.value, h); Ok(Some(p)))
      else Ok(None);
    // A truthy username is non-empty, so `new Username` cannot throw here.
    var username := if Truthy(dto.username)
      then Some(NewUsername(dto.username.value).value)
      else None;
    var email :- if Truthy(dto.email)
      then (var e :- NewEmail(dto.email.value); Ok(Some(e)))
      else Ok(None);
    var role :- NewRole(if Truthy(dto.role) then dto.role.value else "User");
    Ok(UserPatch(password, username, email, role))
  }

  /** The user passed to `createExisting`: falsy username, email and password keep the
      stored values, while a missing role becomes "User" rather than the stored one. */
  function Merge(existing: UserRecord, dto: UpdateUserDTO, h: Hasher): (m: UserRecord)
    requires ParseUpdate(dto, h).Ok?
    ensures m.id == existing.id
    ensures !Truthy(dto.username) ==> m.username == existing.username
    ensures Truthy(dto.username) ==> m.username.GetValue() == dto.username.value
    ensures !Truthy(dto.email) ==> m.email == existing.email
    ensures Truthy(dto.email) ==> m.email.GetValue() == dto.email.value
    ensures !Truthy(dto.password) ==> m.password == existing.password
    ensures Truthy(dto.password) ==> m.password.GetHashed() == h.hash(dto.password.value)
    ensures !Truthy(dto.role) ==> m.role == UserRole
    ensures Truthy(dto.role) ==> m.role.GetValue() == dto.role.value
  {
    var p := ParseUpdate(dto, h).value;
    existing.(
      username := if p.username.Some? then p.username.value else existing.username,
      email := if p.email.Some? then p.email.value else existing.email,
      password := if p.password.Some? then p.password.value else existing.password,
      role := p.role)
  }

  datatype UpdateResponse = UpdateResponse(message: string, user: UserDTO)

  /** `updateUser`. A rejected field throws before anything is read; a missing user is a
      failure; otherwise the merged user overwrites its rows, unless the update throws. */
  method UpdateUser(db: Database, dto: UpdateUserDTO, h: Hasher, fault: Option<string>)
      returns (r: Result<Either<UpdateResponse>>)
    modifies db`users
    ensures ParseUpdate(dto, h).Err? ==>
      r == Err(ParseUpdate(dto, h).message) && db.users == old(db.users)
    ensures ParseUpdate(dto, h).Ok? && old(FetchById(db, dto.id)).None? ==>
      r == Ok(Failure(UserNotFound)) && db.users == old(db.users)
    ensures ParseUpdate(dto, h).Ok? && old(FetchById(db, dto.id)).Some? && fault.Some? ==>
      r == Ok(Failure(UpdateFailed + fault.value)) && db.users == old(db.users)
    ensures ParseUpdate(dto, h).Ok? && old(FetchById(db, dto.id)).Some? && fault.None? ==>
      var m := Merge(old(FetchById(db, dto.id)).value, dto, h);
      && db.users == Overwrite(old(db.users), m)
      && r == Ok(Success(UpdateResponse(UserUpdated, ToDTO(m))))
  {
    var patch := ParseUpdate(dto, h);
    if patch.Err? {
      return Err(patch.message);
    }
    var existing := FetchById(db, dto.id);
    if existing.None? {
      return Ok(Failure(UserNotFound));
    }
    var merged := Merge(existing.value, dto, h);
    EmailCheckMatchesPattern(merged.email.value);
    var built := CreateExisting(dto.id, merged.username.GetValue(), merged.email.GetValue(),
      merged.password, merged.role.GetValue());
    assert built == Ok(merged);
    if fault.Some? {
      return Ok(Failure(UpdateFailed + fault.value));
    }
    var user := new User(built.value);
    var updated := UserRepository.Update(db, user);
    if updated.None? {
      r := Ok(Failure(UserNotFound));
    } else {
      r := Ok(Success(UpdateResponse(UserUpdated, ToDTO(updated.value))));
    }
  }

  // ------------------------------------------------------------ delete

  /** `deleteUser`: "User not found" exactly when no row had the id. */
  method DeleteUser(db: Database, id: string, fault: Option<string>) returns (r: Either<()>)
    modifies db`users
    ensures fault.Some? ==> r == Failure(DeleteFailed + fault.value) && db.users == old(db.users)
    ensures fault.None? ==> db.users == RemoveWhere(old(db.users), (u: UserRecord) => u.id == id)
    ensures fault.None? ==> (r == Failure(UserNotFound) <==>
      forall k :: 0 <= k < |old(db.users)| ==> old(db.users)[k].id != id)
    ensures fault.None? && r != Failure(UserNotFound) ==> r == Success(())
  {
    if fault.Some? {
      return Failure(DeleteFailed + fault.value);
    }
    var deleted := UserRepository.Delete(db, id);
    if !deleted {
      r := Failure(UserNotFound);
    } else {
      r := Success(());
    }
  }
}
