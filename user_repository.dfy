/** `UserRepository` over the users table. A fetched user is given by its field values:
    every fetch builds a fresh entity from the row, so no two callers share one. */
module UserRepository {
  import opened Wrappers
  import opened Text
  import opened ValueObjects
  import opened Entities
  import opened Store
  import opened Tables

  /** `LOWER(username) = lower(name)`. */
  predicate NameMatches(u: UserData, name: string) {
    Lower(u.username.GetValue()) == Lower(name)
  }

  /** `fetchByName`: the first row whose username equals `name` ignoring ASCII case. */
  function FetchByName(db: Database, name: string): (r: Option<UserRecord>)
    reads db
    ensures r.None? <==> forall k :: 0 <= k < |db.users| ==> !NameMatches(db.users[k], name)
    ensures r.Some? ==> exists k :: (0 <= k < |db.users| && db.users[k] == r.value
      && NameMatches(r.value, name) && forall j :: 0 <= j < k ==> !NameMatches(db.users[j], name))
  {
    First(db.users, (u: UserRecord) => NameMatches(u, name))
  }

  /** Lower-casing the argument first finds the same user. */
  lemma FetchByNameIgnoresCase(db: Database, name: string)
    ensures FetchByName(db, Lower(name)) == FetchByName(db, name)
  {
    LowerIdempotent(name);
    FirstCongruent(db.users, (u: UserRecord) => NameMatches(u, Lower(name)),
      (u: UserRecord) => NameMatches(u, name));
  }

  /** `fetchById`: the first row with exactly that id. */
  function FetchById(db: Database, id: string): (r: Option<UserRecord>)
    reads db
    ensures r.None? <==> forall k :: 0 <= k < |db.users| ==> db.users[k].id != id
    ensures r.Some? ==> r.value.id == id && r.value in db.users
  {
    First(db.users, (u: UserRecord) => u.id == id)
  }

  /** The effect of `update ... set(...) where id = u.id`: every row with that id takes
      the username, email, password and role of `u`; all other rows are kept. */
  function Overwrite(rows: seq<UserRecord>, u: UserData): (r: seq<UserRecord>)
    ensures |r| == |rows|
    ensures forall k :: 0 <= k < |rows| && rows[k].id != u.id ==> r[k] == rows[k]
    ensures forall k :: 0 <= k < |rows| && rows[k].id == u.id ==> r[k] == u
  {
    seq(|rows|, k requires 0 <= k < |rows| =>
      if rows[k].id == u.id
      then rows[k].(username := u.username, email := u.email, password := u.password, role := u.role)
      else rows[k])
  }

  /** `create`: inserts a row under the fresh id with the user's values and hash, then
      gives the id to the user object, which keeps it only if it had none. */
  method Create(db: Database, user: User, id: string) returns (r: User)
    requires id != "" && forall k :: 0 <= k < |db.users| ==> db.users[k].id != id
    modifies db`users, user
    ensures r == user
    ensures db.users == old(db.users) + [old(user.Data()).(id := id)]
    ensures old(user.id) == "" ==> user.Data() == old(user.Data()).(id := id)
    ensures old(user.id) != "" ==> user.Data() == old(user.Data())
  {
    var row: UserRecord := UserData(id, user.username, user.email, user.password, user.role);
    db.users := db.users + [row];
    user.InitializeId(id);
    r := user;
  }

  /** `update`: overwrites the rows carrying the user's id and returns the first of them,
      or `None` when there is none. */
  method Update(db: Database, user: User) returns (r: Option<UserRecord>)
    modifies db`users
    ensures db.users == Overwrite(old(db.users), user.Data())
    ensures r.None? <==> forall k :: 0 <= k < |old(db.users)| ==> old(db.users)[k].id != user.id
    ensures r.Some? ==> r.value == user.Data()
  {
    var before := db.users;
    db.users := Overwrite(db.users, user.Data());
    var found := FetchById(db, user.id);
    r := found;
    if found.Some? {
      var k :| 0 <= k < |db.users| && db.users[k] == found.value;
      assert before[k].id == user.id;
    }
  }

  /** `delete`: removes every row with the id; true iff at least one was removed. */
  method Delete(db: Database, id: string) returns (r: bool)
    modifies db`users
    ensures db.users == RemoveWhere(old(db.users), (u: UserRecord) => u.id == id)
    ensures r <==> exists k :: 0 <= k < |old(db.users)| && old(db.users)[k].id == id
  {
    var before := |db.users|;
    db.users := RemoveWhere(db.users, (u: UserRecord) => u.id == id);
    r := before - |db.users| > 0;
  }

  /** `findPaginatedUsers(limit, offset)`. */
  function FindPaginatedUsers(db: Database, limit: nat, offset: nat): (r: seq<UserRecord>)
    reads db
    ensures |r| == if offset >= |db.users| then 0 else Min(limit, |db.users| - offset)
    ensures |r| <= limit && (r != [] ==> offset + |r| <= |db.users|)
    ensures forall k :: 0 <= k < |r| ==> r[k] == db.users[offset + k]
    ensures offset + limit <= |db.users| ==> |r| == limit
  {
    Page(db.users, limit, offset)
  }

  /** `countUsers`: the number of rows. */
  function CountUsers(db: Database): nat
    reads db
  {
    |db.users|
  }

  /** The count bounds the pages: a window is empty exactly when it has no room or
      starts at or after the count. */
  lemma CountBoundsPages(db: Database, limit: nat, offset: nat)
    ensures FindPaginatedUsers(db, limit, offset) == [] <==>
      (limit == 0 || offset >= CountUsers(db))
  {
  }
}
