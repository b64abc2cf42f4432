/** The user-administration service: creating, updating and deleting user rows, with the
    resets that go with a new password or a reactivation and the rule that the system
    keeps at least one active administrator. */
module Users {
  import opened Wrappers
  import opened Scrum
  import opened Accounts

  /** The fields of a creation request. */
  datatype CreateUser = CreateUser(
    email: string,
    username: string,
    password: string,
    firstName: string,
    lastName: string,
    timezone: string,
    isActive: Option<bool>,
    isAdmin: Option<bool>)

  /** The fields of an update request; absent fields are left alone. */
  datatype UpdateUser = UpdateUser(
    email: Option<string>,
    username: Option<string>,
    password: Option<string>,
    firstName: Option<string>,
    lastName: Option<string>,
    timezone: Option<string>,
    isActive: Option<bool>,
    isAdmin: Option<bool>)

  /** The row `create` inserts: normalised e-mail, hashed password, the table defaults. */
  function NewUser(dto: CreateUser, id: Id, hash: string -> string, now: int): (u: User)
    ensures u.id == id && u.email == NormalizeEmail(dto.email) && u.password == hash(dto.password)
    ensures u.isActive == dto.isActive.GetOr(true) && u.isAdmin == dto.isAdmin.GetOr(false)
    ensures u.failedAttempts == 0 && u.lockedUntil.None? && u.tokenVersion == 0
  {
    User(id, NormalizeEmail(dto.email), dto.username, hash(dto.password), dto.firstName, dto.lastName,
      dto.timezone, dto.isActive.GetOr(true), dto.isAdmin.GetOr(false), 0, None, 0, Some(now), None)
  }

  /** The row `update` writes for `current`. A new password is hashed and clears the lock
      counters and bumps `tokenVersion`; reactivating clears the lock counters; a given
      e-mail is normalised. Fields the request leaves out keep their value. */
  function Updated(current: User, dto: UpdateUser, hash: string -> string, now: int): (u: User)
    ensures u.id == current.id
    ensures Given(dto.email) ==> u.email == NormalizeEmail(dto.email.value)
    ensures dto.email.None? ==> u.email == current.email
    ensures Given(dto.password) ==> (u.password == hash(dto.password.value) && u.failedAttempts == 0
      && u.lockedUntil.None? && u.tokenVersion == current.tokenVersion + 1 && u.passwordChangedAt == Some(now))
    ensures !Given(dto.password) ==> u.tokenVersion == current.tokenVersion && u.passwordChangedAt == current.passwordChangedAt
    ensures dto.isActive == Some(true) ==> u.failedAttempts == 0 && u.lockedUntil.None?
    ensures !Given(dto.password) && dto.isActive != Some(true) ==>
      u.failedAttempts == current.failedAttempts && u.lockedUntil == current.lockedUntil
    ensures u.isActive == dto.isActive.GetOr(current.isActive) && u.isAdmin == dto.isAdmin.GetOr(current.isAdmin)
    ensures u.username == dto.username.GetOr(current.username) && u.lastLogin == current.lastLogin
  {
    // `{ ...dto }`: every field the request carries overwrites the row.
    var spread := current.(
      email := dto.email.GetOr(current.email),
      username := dto.username.GetOr(current.username),
      password := dto.password.GetOr(current.password),
      firstName := dto.firstName.GetOr(current.firstName),
      lastName := dto.lastName.GetOr(current.lastName),
      timezone := dto.timezone.GetOr(current.timezone),
      isActive := dto.isActive.GetOr(current.isActive),
      isAdmin := dto.isAdmin.GetOr(current.isAdmin));
    var withEmail := if Given(dto.email) then spread.(email := NormalizeEmail(dto.email.value)) else spread;
    var withPassword :=
      if Given(dto.password) then
        withEmail.(password := hash(dto.password.value), failedAttempts := 0, lockedUntil := None,
                   passwordChangedAt := Some(now), tokenVersion := current.tokenVersion + 1)
      else withEmail;
    if dto.isActive == Some(true) then withPassword.(failedAttempts := 0, lockedUntil := None) else withPassword
  }

  /** The request would leave `id` without admin rights or inactive. */
  predicate DemotesOrDeactivates(dto: UpdateUser) {
    dto.isAdmin == Some(false) || dto.isActive == Some(false)
  }

  /** What `update` does to the table: the new table or the failure. */
  function UpdateTable(users: seq<User>, id: Id, dto: UpdateUser, hash: string -> string, now: int): (r: Result<seq<User>, Failure>)
    ensures FindById(users, id).None? ==> r.Err? && r.error.NotFound?
    ensures r.Ok? ==> FindById(users, id).Some? && |r.value| == |users|
    ensures r.Ok? ==> var i := FindById(users, id).value;
      r.value == users[i := Updated(users[i], dto, hash, now)]
  {
    match FindById(users, id)
    case None => Err(NotFound("user"))
    case Some(i) =>
      var current := users[i];
      var row := Updated(current, dto, hash, now);
      if current.isAdmin && DemotesOrDeactivates(dto) && OtherActiveAdmins(users, id) == 0 then
        Err(Forbidden("the system must keep at least one administrator"))
      else if Clashes(users, row) then Err(Conflict("e-mail or username already registered"))
      else Ok(users[i := row])
  }

  /** What `remove` does to the table. */
  function RemoveFromTable(users: seq<User>, id: Id): (r: Result<seq<User>, Failure>)
    ensures FindById(users, id).None? ==> r.Err? && r.error.NotFound?
    ensures r.Ok? ==> FindById(users, id).Some? && var i := FindById(users, id).value;
      r.value == users[..i] + users[i + 1..]
  {
    match FindById(users, id)
    case None => Err(NotFound("user"))
    case Some(i) =>
      if users[i].isAdmin && OtherActiveAdmins(users, id) == 0 then
        Err(Forbidden("the last administrator cannot be deleted"))
      else Ok(users[..i] + users[i + 1..])
  }

  /** The last-admin guard of `update`: demoting or deactivating an administrator is refused
      exactly when no other active administrator exists. */
  lemma UpdateRefusesLastAdmin(users: seq<User>, id: Id, dto: UpdateUser, hash: string -> string, now: int)
    requires UniqueAccounts(users)
    requires FindById(users, id).Some? && users[FindById(users, id).value].isAdmin && DemotesOrDeactivates(dto)
    ensures UpdateTable(users, id, dto, hash, now).Err? && UpdateTable(users, id, dto, hash, now).error.Forbidden?
      <==> OtherActiveAdmins(users, id) == 0
  {
  }

  /** An update never leaves the system without an active administrator. */
  lemma UpdateKeepsAnAdmin(users: seq<User>, id: Id, dto: UpdateUser, hash: string -> string, now: int)
    requires UniqueAccounts(users) && HasActiveAdmin(users)
    requires UpdateTable(users, id, dto, hash, now).Ok?
    ensures HasActiveAdmin(UpdateTable(users, id, dto, hash, now).value)
  {
    var i := FindById(users, id).value;
    var after := UpdateTable(users, id, dto, hash, now).value;
    var k :| 0 <= k < |users| && users[k].isAdmin && users[k].isActive;
    if k != i {
      assert after[k] == users[k];
    } else if DemotesOrDeactivates(dto) {
      assert OtherActiveAdmins(users, id) != 0;
      var j :| 0 <= j < |users| && users[j].id != id && users[j].isAdmin && users[j].isActive;
      assert after[j] == users[j];
    } else {
      assert after[i].isAdmin && after[i].isActive;
    }
  }

  /** A deletion never leaves the system without an active administrator. */
  lemma RemoveKeepsAnAdmin(users: seq<User>, id: Id)
    requires UniqueAccounts(users) && HasActiveAdmin(users)
    requires RemoveFromTable(users, id).Ok?
    ensures HasActiveAdmin(RemoveFromTable(users, id).value)
  {
    var i := FindById(users, id).value;
    var after := RemoveFromTable(users, id).value;
    var k :| 0 <= k < |users| && users[k].isAdmin && users[k].isActive;
    if k == i {
      var j :| 0 <= j < |users| && users[j].id != id && users[j].isAdmin && users[j].isActive;
      k := j;
    }
    assert k != i;
    if k < i {
      assert after[k] == users[k];
    } else {
      assert after[k - 1] == users[k];
    }
  }

  /** An update keeps e-mails and usernames unique. */
  lemma UpdateKeepsAccountsUnique(users: seq<User>, id: Id, dto: UpdateUser, hash: string -> string, now: int)
    requires UniqueAccounts(users)
    requires UpdateTable(users, id, dto, hash, now).Ok?
    ensures UniqueAccounts(UpdateTable(users, id, dto, hash, now).value)
  {
  }

  /** A deletion keeps ids, e-mails and usernames unique. */
  lemma RemoveKeepsAccountsUnique(users: seq<User>, id: Id)
    requires UniqueAccounts(users)
    requires RemoveFromTable(users, id).Ok?
    ensures UniqueAccounts(RemoveFromTable(users, id).value)
  {
    var i := FindById(users, id).value;
    var rest := RemoveFromTable(users, id).value;
    assert forall a :: 0 <= a < |rest| ==> rest[a] == users[if a < i then a else a + 1];
  }

  /** The user table behind the service. */
  class UsersService {
    var users: seq<User>

    predicate Valid()
      reads this
    {
      UniqueAccounts(users)
    }

    constructor(users0: seq<User>)
      requires UniqueAccounts(users0)
      ensures Valid() && users == users0
    {
      users := users0;
    }

    /** `create`: inserts the new row, or reports a Conflict when its e-mail or username is
        taken. `id` is the id the database assigns. */
    method Create(dto: CreateUser, id: Id, hash: string -> string, now: int) returns (r: Result<SafeUser, Failure>)
      requires Valid() && FindById(users, id).None?
      modifies this
      ensures Valid()
      ensures var row := NewUser(dto, id, hash, now);
        if Clashes(old(users), row) then r.Err? && r.error.Conflict? && users == old(users)
        else r == Ok(Sanitize(row)) && users == old(users) + [row]
    {
      var row := NewUser(dto, id, hash, now);
      if Clashes(users, row) {
        return Err(Conflict("e-mail or username already registered"));
      }
      users := users + [row];
      r := Ok(Sanitize(row));
    }

    /** `findAll`: every row, sanitised, in table order; no password leaves the service. */
    method FindAll() returns (r: seq<SafeUser>)
      ensures |r| == |users| && forall i :: 0 <= i < |users| ==> r[i] == Sanitize(users[i])
    {
      var rows := users;
      r := seq(|rows|, i requires 0 <= i < |rows| => Sanitize(rows[i]));
    }

    /** `findOne`. */
    method FindOne(id: Id) returns (r: Result<SafeUser, Failure>)
      ensures FindById(users, id).None? ==> r.Err? && r.error.NotFound?
      ensures FindById(users, id).Some? ==> r == Ok(Sanitize(users[FindById(users, id).value]))
    {
      match FindById(users, id)
      case None => r := Err(NotFound("user"));
      case Some(i) => r := Ok(Sanitize(users[i]));
    }

    /** `update`. */
    method Update(id: Id, dto: UpdateUser, hash: string -> string, now: int) returns (r: Result<SafeUser, Failure>)
      requires Valid()
      modifies this
      ensures Valid()
      ensures var t := UpdateTable(old(users), id, dto, hash, now);
        (t.Ok? ==> users == t.value && r == Ok(Sanitize(users[FindById(old(users), id).value])))
        && (t.Err? ==> users == old(users) && r == Err(t.error))
    {
      var t := UpdateTable(users, id, dto, hash, now);
      if t.Err? {
        return Err(t.error);
      }
      UpdateKeepsAccountsUnique(users, id, dto, hash, now);
      var i := FindById(users, id).value;
      users := t.value;
      r := Ok(Sanitize(users[i]));
    }

    /** `remove`: returns the deleted row. */
    method Remove(id: Id) returns (r: Result<SafeUser, Failure>)
      requires Valid()
      modifies this
      ensures Valid()
      ensures var t := RemoveFromTable(old(users), id);
        (t.Ok? ==> users == t.value && r == Ok(Sanitize(old(users)[FindById(old(users), id).value])))
        && (t.Err? ==> users == old(users) && r == Err(t.error))
    {
      var t := RemoveFromTable(users, id);
      if t.Err? {
        return Err(t.error);
      }
      RemoveKeepsAccountsUnique(users, id);
      var gone := users[FindById(users, id).value];
      users := t.value;
      r := Ok(Sanitize(gone));
    }
  }
}
