/** The JWT strategy: the checks run on every authenticated request after the token's
    signature and expiry have been verified by the JWT library. */
module JwtStrategy {
  import opened Wrappers
  import opened Scrum
  import opened Accounts

  /** The claims of a token. `tokenType` and `tokenVersion` are optional in the payload. */
  datatype Claims = Claims(sub: Id, email: string, isAdmin: Option<bool>, tokenType: Option<string>, tokenVersion: Option<int>)

  /** The claims the authentication service signs for a user (`sign`). */
  function Sign(u: User): (c: Claims)
    ensures c.sub == u.id && c.tokenType == Some("access") && c.tokenVersion == Some(u.tokenVersion)
  {
    Claims(u.id, u.email, Some(u.isAdmin), Some("access"), Some(u.tokenVersion))
  }

  /** `payload.type && payload.type !== 'access'`: a type that is present, not empty and not
      `access`. */
  predicate WrongType(c: Claims) {
    c.tokenType.Some? && c.tokenType.value != "" && c.tokenType.value != "access"
  }

  /** `validate`: type, existence, token version (a missing version counts as 0), active,
      lock, in that order; success hands the user row to the request. */
  function Validate(c: Claims, users: seq<User>, now: int): (r: Result<User, Failure>)
    ensures WrongType(c) ==> r.Err? && r.error.Unauthorized?
    ensures !WrongType(c) && FindById(users, c.sub).None? ==> r.Err? && r.error.Unauthorized?
    ensures r.Ok? <==> (!WrongType(c) && FindById(users, c.sub).Some?
      && c.tokenVersion.GetOr(0) == users[FindById(users, c.sub).value].tokenVersion
      && users[FindById(users, c.sub).value].isActive
      && !IsLocked(users[FindById(users, c.sub).value], now))
    ensures r.Ok? ==> r.value == users[FindById(users, c.sub).value]
    ensures (!WrongType(c) && FindById(users, c.sub).Some?
      && c.tokenVersion.GetOr(0) != users[FindById(users, c.sub).value].tokenVersion) ==> r.Err? && r.error.Unauthorized?
    ensures (r.Err? && !WrongType(c) && FindById(users, c.sub).Some?
      && c.tokenVersion.GetOr(0) == users[FindById(users, c.sub).value].tokenVersion) ==> r.error.Forbidden?
  {
    if WrongType(c) then Err(Unauthorized("invalid token"))
    else match FindById(users, c.sub)
      case None => Err(Unauthorized("invalid token"))
      case Some(i) =>
        var u := users[i];
        if c.tokenVersion.GetOr(0) != u.tokenVersion then Err(Unauthorized("invalid token"))
        else if !u.isActive then Err(Forbidden("user is disabled"))
        else if IsLocked(u, now) then Err(Forbidden("account locked"))
        else Ok(u)
  }

  /** A token signed for a user keeps passing while that row's version, activity and lock
      are as they were; it is refused as soon as the row's `tokenVersion` moves on. */
  lemma SignedTokenValidity(u: User, users: seq<User>, now: int)
    requires FindById(users, u.id).Some?
    ensures var v := users[FindById(users, u.id).value];
      Validate(Sign(u), users, now).Ok? <==> v.tokenVersion == u.tokenVersion && v.isActive && !IsLocked(v, now)
  {
  }
}
