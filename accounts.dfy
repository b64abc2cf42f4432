/** User accounts as the authentication and user services store them: the user row, the
    password-free view handed to clients, e-mail normalisation, the lockout constants and
    the lookups both services perform on the user table. */
module Accounts {
  import opened Wrappers
  import Text
  import opened Scrum

  /** Lockout after this many consecutive failed logins. */
  const MaxFailedAttempts: int := 3
  /** A lock lasts 15 minutes, in milliseconds. */
  const LockDurationMs: int := 15 * 60 * 1000
  /** A reset token lives 30 minutes. */
  const ResetTokenTtlMs: int := 30 * 60 * 1000
  /** Reset requests are counted over the last 5 minutes. */
  const ResetRequestWindowMs: int := 5 * 60 * 1000
  /** At most this many reset requests per window. */
  const ResetRequestLimitCount: int := 3

  /** A row of the user table; times are milliseconds since the epoch. */
  datatype User = User(
    id: Id,
    email: string,
    username: string,
    password: string,
    firstName: string,
    lastName: string,
    timezone: string,
    isActive: bool,
    isAdmin: bool,
    failedAttempts: int,
    lockedUntil: Option<int>,
    tokenVersion: int,
    passwordChangedAt: Option<int>,
    lastLogin: Option<int>)

  /** A user without the password hash: what every endpoint returns. */
  datatype SafeUser = SafeUser(
    id: Id,
    email: string,
    username: string,
    firstName: string,
    lastName: string,
    timezone: string,
    isActive: bool,
    isAdmin: bool,
    failedAttempts: int,
    lockedUntil: Option<int>,
    tokenVersion: int,
    passwordChangedAt: Option<int>,
    lastLogin: Option<int>)

  /** `sanitize`: the row minus its password. */
  function Sanitize(u: User): SafeUser {
    SafeUser(u.id, u.email, u.username, u.firstName, u.lastName, u.timezone, u.isActive, u.isAdmin,
      u.failedAttempts, u.lockedUntil, u.tokenVersion, u.passwordChangedAt, u.lastLogin)
  }

  /** The sanitised view loses the password and nothing else: two rows look the same to a
      client exactly when they differ at most in their password. */
  lemma SanitizeForgetsOnlyPassword(a: User, b: User)
    ensures Sanitize(a) == Sanitize(b) <==> a.(password := b.password) == b
  {
  }

  /** `email.trim().toLowerCase()`. */
  function NormalizeEmail(e: string): (r: string)
    ensures |r| <= |e|
    ensures forall i :: 0 <= i < |r| ==> !('A' <= r[i] <= 'Z')
  {
    Text.ToLower(Text.Trim(e))
  }

  /** Normalising a stored (already normalised) address changes nothing, so a login with
      the address as stored finds the row. */
  lemma NormalizeEmailIdempotent(e: string)
    ensures NormalizeEmail(NormalizeEmail(e)) == NormalizeEmail(e)
  {
    var t := Text.Trim(e);
    var l := Text.ToLower(t);
    assert l == [] || (!Text.IsSpace(l[0]) && !Text.IsSpace(l[|l| - 1]));
    assert Text.LeadingSpaces(l) == 0;
    assert Text.Trim(l) == l;
    Text.ToLowerIdempotent(t);
  }

  /** Ids, e-mails and usernames are unique in the user table (database constraints). */
  predicate UniqueAccounts(users: seq<User>) {
    forall i, j :: 0 <= i < j < |users| ==>
      users[i].id != users[j].id && users[i].email != users[j].email && users[i].username != users[j].username
  }

  /** Another row already holds the e-mail or the username of `u` (a unique-constraint
      violation, reported as Conflict). */
  predicate Clashes(users: seq<User>, u: User) {
    exists j :: 0 <= j < |users| && users[j].id != u.id && (users[j].email == u.email || users[j].username == u.username)
  }

  /** The position of the first row satisfying `p`, the search behind every `findUnique`
      on the user table. */
  function FindWhere(users: seq<User>, p: User -> bool): (r: Option<nat>)
    ensures r.Some? ==> r.value < |users| && p(users[r.value])
    ensures r.Some? ==> forall i :: 0 <= i < r.value ==> !p(users[i])
    ensures r.None? <==> forall i :: 0 <= i < |users| ==> !p(users[i])
  {
    if users == [] then None
    else if p(users[0]) then Some(0)
    else match FindWhere(users[1..], p)
      case None =>
        assert forall i :: 1 <= i < |users| ==> users[i] == users[1..][i - 1];
        None
      case Some(k) =>
        assert forall i :: 1 <= i < k + 1 ==> users[i] == users[1..][i - 1];
        Some(k + 1)
  }

  /** `findUnique({ where: { id } })`: the position of the row with that id. */
  function FindById(users: seq<User>, id: Id): (r: Option<nat>)
    ensures r.Some? ==> r.value < |users| && users[r.value].id == id
    ensures r.None? <==> forall i :: 0 <= i < |users| ==> users[i].id != id
  {
    if users == [] then None
    else if users[0].id == id then Some(0)
    else match FindById(users[1..], id)
      case None => None
      case Some(k) => Some(k + 1)
  }

  /** `findUnique({ where: { email } })`. */
  function FindByEmail(users: seq<User>, email: string): (r: Option<nat>)
    ensures r.Some? ==> r.value < |users| && users[r.value].email == email
    ensures r.None? <==> forall i :: 0 <= i < |users| ==> users[i].email != email
  {
    FindWhere(users, (u: User) => u.email == email)
  }

  /** A JavaScript-truthy optional string: present and not empty. */
  predicate Given(s: Option<string>) {
    s.Some? && s.value != ""
  }

  /** `user.lockedUntil && user.lockedUntil > now`. */
  predicate IsLocked(u: User, now: int) {
    u.lockedUntil.Some? && u.lockedUntil.value > now
  }

  /** Some active administrator exists. */
  predicate HasActiveAdmin(users: seq<User>) {
    exists i :: 0 <= i < |users| && users[i].isAdmin && users[i].isActive
  }

  /** `user.count({ where: { id: { not: id }, isAdmin: true, isActive: true } })`. */
  function OtherActiveAdmins(users: seq<User>, id: Id): (n: nat)
    ensures n == 0 <==> forall i :: 0 <= i < |users| && users[i].id != id ==> !(users[i].isAdmin && users[i].isActive)
    ensures n <= |users|
  {
    if users == [] then 0
    else
      var rest := OtherActiveAdmins(users[1..], id);
      assert forall i :: 1 <= i < |users| ==> users[i] == users[1..][i - 1];
      (if users[0].id != id && users[0].isAdmin && users[0].isActive then 1 else 0) + rest
  }
}
