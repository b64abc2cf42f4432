/** The authentication service: login with the failed-attempt lockout, and password recovery
    (rate-limited reset requests, single-use reset tokens, and the reset itself, which
    invalidates every access token issued before it). Hashing is a parameter: `hash` and
    `compare` stand for bcrypt, `sha` for SHA-256 in hex. */
module Auth {
  import opened Wrappers
  import opened Scrum
  import opened Accounts
  import Text
  import JwtStrategy
  import Users

  /** A row of the password-reset-token table. */
  datatype ResetToken = ResetToken(
    id: Id,
    userId: Id,
    tokenHash: string,
    expiresAt: int,
    usedAt: Option<int>,
    createdAt: int,
    requestedById: Option<Id>,
    requestedIp: Option<string>,
    requestedUserAgent: Option<string>)

  /** A row of the reset-request log. */
  datatype ResetRequest = ResetRequest(
    emailHash: string,
    userId: Option<Id>,
    requestedIp: Option<string>,
    requestedUserAgent: Option<string>,
    createdAt: int)

  // ---------------------------------------------------------------- login

  /** The row after a wrong password: the count restarts when the previous lock has
      expired, and reaching three attempts locks the account for 15 minutes. */
  function FailedAttempt(u: User, now: int): (v: User)
    ensures v == u.(failedAttempts := v.failedAttempts, lockedUntil := v.lockedUntil)
    ensures u.lockedUntil.Some? && u.lockedUntil.value <= now ==> v.failedAttempts == 1
    ensures !(u.lockedUntil.Some? && u.lockedUntil.value <= now) ==> v.failedAttempts == u.failedAttempts + 1
    ensures v.lockedUntil.Some? <==> v.failedAttempts >= MaxFailedAttempts
    ensures v.lockedUntil.Some? ==> v.lockedUntil.value == now + LockDurationMs
  {
    var previous := if u.lockedUntil.Some? && u.lockedUntil.value <= now then 0 else u.failedAttempts;
    var attempts := previous + 1;
    u.(failedAttempts := attempts,
       lockedUntil := if attempts >= MaxFailedAttempts then Some(now + LockDurationMs) else None)
  }

  /** The row after a successful login. */
  function SuccessfulLogin(u: User, now: int): (v: User)
    ensures v.failedAttempts == 0 && v.lockedUntil.None? && v.lastLogin == Some(now)
    ensures v.(failedAttempts := u.failedAttempts, lockedUntil := u.lockedUntil, lastLogin := u.lastLogin) == u
  {
    u.(failedAttempts := 0, lockedUntil := None, lastLogin := Some(now))
  }

  /** What a login answers, and the row it writes back (None when it writes nothing). */
  datatype LoginOutcome = LoginOutcome(answer: Result<(JwtStrategy.Claims, SafeUser), Failure>, written: Option<User>)

  /** `login`: unknown address, inactive account and active lock are refused before the
      password is compared; a wrong password counts a failed attempt; a right one resets
      the counters and signs an access token. */
  function LoginAttempt(users: seq<User>, email: string, password: string,
                        compare: (string, string) -> bool, now: int): (r: LoginOutcome)
    ensures FindByEmail(users, NormalizeEmail(email)).None? ==>
      r.answer.Err? && r.answer.error.Unauthorized? && r.written.None?
    ensures FindByEmail(users, NormalizeEmail(email)).Some? ==>
      var u := users[FindByEmail(users, NormalizeEmail(email)).value];
      (!u.isActive ==> r.answer.Err? && r.answer.error.Forbidden? && r.written.None?)
      && (u.isActive && IsLocked(u, now) ==> r.answer.Err? && r.answer.error.Forbidden? && r.written.None?)
      && (u.isActive && !IsLocked(u, now) && !compare(password, u.password) ==>
            r.written == Some(FailedAttempt(u, now)) && r.answer.Err?
            && (r.answer.error.Forbidden? <==> FailedAttempt(u, now).failedAttempts >= MaxFailedAttempts)
            && (r.answer.error.Unauthorized? <==> FailedAttempt(u, now).failedAttempts < MaxFailedAttempts))
      && (u.isActive && !IsLocked(u, now) && compare(password, u.password) ==>
            r.written == Some(SuccessfulLogin(u, now))
            && r.answer == Ok((JwtStrategy.Sign(SuccessfulLogin(u, now)), Sanitize(SuccessfulLogin(u, now)))))
  {
    match FindByEmail(users, NormalizeEmail(email))
    case None => LoginOutcome(Err(Unauthorized("invalid credentials")), None)
    case Some(i) =>
      var u := users[i];
      if !u.isActive then LoginOutcome(Err(Forbidden("user disabled")), None)
      else if IsLocked(u, now) then LoginOutcome(Err(Forbidden("account locked")), None)
      else if !compare(password, u.password) then
        var v := FailedAttempt(u, now);
        if v.failedAttempts >= MaxFailedAttempts then LoginOutcome(Err(Forbidden("account locked for 15 minutes")), Some(v))
        else LoginOutcome(Err(Unauthorized("invalid credentials")), Some(v))
      else
        var v := SuccessfulLogin(u, now);
        LoginOutcome(Ok((JwtStrategy.Sign(v), Sanitize(v))), Some(v))
  }

  /** While the account is locked the password is never looked at: every password gives
      the same refusal and nothing is written. */
  lemma LockedIgnoresPassword(users: seq<User>, email: string, p1: string, p2: string,
                              c1: (string, string) -> bool, c2: (string, string) -> bool, now: int)
    requires FindByEmail(users, NormalizeEmail(email)).Some?
    requires IsLocked(users[FindByEmail(users, NormalizeEmail(email)).value], now)
    ensures LoginAttempt(users, email, p1, c1, now) == LoginAttempt(users, email, p2, c2, now)
    ensures LoginAttempt(users, email, p1, c1, now).answer.Err? && LoginAttempt(users, email, p1, c1, now).written.None?
  {
  }

  /** Three wrong passwords in a row on a clean account: the first two only count, the third
      locks the account for 15 minutes from that attempt, and until then it stays locked. */
  lemma {:induction false} ThirdFailureLocks(u: User, t1: int, t2: int, t3: int)
    requires u.failedAttempts == 0 && u.lockedUntil.None?
    ensures var v1 := FailedAttempt(u, t1);
      var v2 := FailedAttempt(v1, t2);
      var v3 := FailedAttempt(v2, t3);
      v1.lockedUntil.None? && v2.lockedUntil.None? && v2.failedAttempts == 2
      && v3.lockedUntil == Some(t3 + LockDurationMs)
      && forall t :: t < t3 + LockDurationMs ==> IsLocked(v3, t)
  {
  }

  /** Once a lock has run out, the next wrong password counts as the first one again. */
  lemma ExpiredLockRestartsCount(u: User, now: int)
    requires u.lockedUntil.Some? && u.lockedUntil.value <= now
    ensures FailedAttempt(u, now).failedAttempts == 1 && FailedAttempt(u, now).lockedUntil.None?
  {
  }

  /** The token handed out at login passes the JWT checks for as long as the row stays as
      the login left it. */
  lemma LoginTokenIsAccepted(users: seq<User>, email: string, password: string,
                             compare: (string, string) -> bool, now: int, later: int)
    requires UniqueAccounts(users)
    requires LoginAttempt(users, email, password, compare, now).answer.Ok?
    ensures var i := FindByEmail(users, NormalizeEmail(email)).value;
      var after := users[i := LoginAttempt(users, email, password, compare, now).written.value];
      JwtStrategy.Validate(LoginAttempt(users, email, password, compare, now).answer.value.0, after, later).Ok?
  {
    var i := FindByEmail(users, NormalizeEmail(email)).value;
    var v := SuccessfulLogin(users[i], now);
    var after := users[i := v];
    assert after[i].id == v.id;
  }

  // ---------------------------------------------------------------- rate limiting

  /** What a request count is keyed on: the e-mail hash, the IP or the user. */
  datatype Key = ByEmail(emailHash: string) | ByIp(ip: string) | ByUser(userId: Id)

  /** The request matches the key and was logged at or after `since`. */
  predicate Hits(r: ResetRequest, key: Key, since: int) {
    r.createdAt >= since
    && match key
       case ByEmail(h) => r.emailHash == h
       case ByIp(ip) => r.requestedIp == Some(ip)
       case ByUser(id) => r.userId == Some(id)
  }

  /** `passwordResetRequest.count({ where: { <key>, createdAt: { gte: since } } })`. */
  function CountRecent(reqs: seq<ResetRequest>, key: Key, since: int): (n: nat)
    ensures n <= |reqs|
    ensures n == 0 <==> forall k :: 0 <= k < |reqs| ==> !Hits(reqs[k], key, since)
  {
    if reqs == [] then 0
    else
      assert forall k :: 1 <= k < |reqs| ==> reqs[k] == reqs[1..][k - 1];
      (if Hits(reqs[0], key, since) then 1 else 0) + CountRecent(reqs[1..], key, since)
  }

  lemma {:induction false} CountRecentAppend(a: seq<ResetRequest>, b: seq<ResetRequest>, key: Key, since: int)
    ensures CountRecent(a + b, key, since) == CountRecent(a, key, since) + CountRecent(b, key, since)
  {
    if a != [] {
      assert (a + b)[1..] == a[1..] + b;
      CountRecentAppend(a[1..], b, key, since);
    } else {
      assert a + b == b;
    }
  }

  /** `isRateLimited`: three requests in the last five minutes for the address, or for the
      IP when one is known, or for the user when one is known. */
  predicate IsRateLimited(reqs: seq<ResetRequest>, emailHash: string, ip: Option<string>, userId: Option<Id>, now: int)
    ensures IsRateLimited(reqs, emailHash, ip, userId, now) ==> |reqs| >= ResetRequestLimitCount
    ensures !Given(ip) && !Given(userId) ==>
      (IsRateLimited(reqs, emailHash, ip, userId, now) <==> CountRecent(reqs, ByEmail(emailHash), now - ResetRequestWindowMs) >= ResetRequestLimitCount)
  {
    var since := now - ResetRequestWindowMs;
    CountRecent(reqs, ByEmail(emailHash), since) >= ResetRequestLimitCount
    || (Given(ip) && CountRecent(reqs, ByIp(ip.value), since) >= ResetRequestLimitCount)
    || (Given(userId) && CountRecent(reqs, ByUser(userId.value), since) >= ResetRequestLimitCount)
  }

  /** Logging more requests never lifts a limit. */
  lemma RateLimitIsMonotone(reqs: seq<ResetRequest>, more: seq<ResetRequest>, emailHash: string,
                            ip: Option<string>, userId: Option<Id>, now: int)
    requires IsRateLimited(reqs, emailHash, ip, userId, now)
    ensures IsRateLimited(reqs + more, emailHash, ip, userId, now)
  {
    var since := now - ResetRequestWindowMs;
    CountRecentAppend(reqs, more, ByEmail(emailHash), since);
    if Given(ip) { CountRecentAppend(reqs, more, ByIp(ip.value), since); }
    if Given(userId) { CountRecentAppend(reqs, more, ByUser(userId.value), since); }
  }

  /** Requests older than the five-minute window never count. */
  lemma StaleRequestsIgnored(stale: seq<ResetRequest>, reqs: seq<ResetRequest>, emailHash: string,
                             ip: Option<string>, userId: Option<Id>, now: int)
    requires forall k :: 0 <= k < |stale| ==> stale[k].createdAt < now - ResetRequestWindowMs
    ensures IsRateLimited(stale + reqs, emailHash, ip, userId, now) == IsRateLimited(reqs, emailHash, ip, userId, now)
  {
    var since := now - ResetRequestWindowMs;
    CountRecentAppend(stale, reqs, ByEmail(emailHash), since);
    if Given(ip) { CountRecentAppend(stale, reqs, ByIp(ip.value), since); }
    if Given(userId) { CountRecentAppend(stale, reqs, ByUser(userId.value), since); }
  }

  /** Three requests for an address within five minutes limit the next one. */
  lemma ThreeRecentRequestsLimit(reqs: seq<ResetRequest>, emailHash: string, ip: Option<string>, userId: Option<Id>, now: int,
                                 a: ResetRequest, b: ResetRequest, c: ResetRequest)
    requires a.emailHash == emailHash && b.emailHash == emailHash && c.emailHash == emailHash
    requires a.createdAt >= now - ResetRequestWindowMs && b.createdAt >= now - ResetRequestWindowMs
      && c.createdAt >= now - ResetRequestWindowMs
    ensures IsRateLimited(reqs + [a, b, c], emailHash, ip, userId, now)
  {
    var since := now - ResetRequestWindowMs;
    var key := ByEmail(emailHash);
    CountRecentAppend(reqs, [a, b, c], key, since);
    assert [a, b, c][1..] == [b, c] && [b, c][1..] == [c] && [c][1..] == [];
    assert CountRecent([c], key, since) == 1;
    assert CountRecent([b, c], key, since) == 2;
    assert CountRecent([a, b, c], key, since) == 3;
  }

  // ---------------------------------------------------------------- reset tokens

  /** The unused tokens of a user created since `since` (`findFirst` finds one of them). */
  predicate HasRecentUnusedToken(tokens: seq<ResetToken>, userId: Id, since: int) {
    exists k :: 0 <= k < |tokens| && tokens[k].userId == userId && tokens[k].createdAt >= since && tokens[k].usedAt.None?
  }

  /** `deleteMany({ where: { userId, usedAt: null } })`, optionally sparing one id. */
  function DropUnused(tokens: seq<ResetToken>, userId: Id, spare: Option<Id>): (r: seq<ResetToken>)
    ensures forall t :: t in r <==> t in tokens && !(t.userId == userId && t.usedAt.None? && Some(t.id) != spare)
    ensures |r| <= |tokens|
  {
    if tokens == [] then []
    else
      var t := tokens[0];
      (if t.userId == userId && t.usedAt.None? && Some(t.id) != spare then [] else [t]) + DropUnused(tokens[1..], userId, spare)
  }

  /** The answer of `issuePasswordResetToken`: refused (null), limited (raises), or issued
      with the new token table. */
  datatype Issue = NotIssued | Limited | Issued(tokens: seq<ResetToken>)

  /** Who asked for a token: the administrator who sent the link (if any), and the
      requester's address and user agent. */
  datatype ResetOrigin = ResetOrigin(requestedById: Option<Id>, ip: Option<string>, userAgent: Option<string>)

  /** The row `issuePasswordResetToken` creates for a user: the hash of the raw token,
      unused, created now and expiring 30 minutes later. `id` is the id the database assigns. */
  function NewResetToken(id: Id, userId: Id, tokenHash: string, origin: ResetOrigin, now: int): (t: ResetToken)
    ensures t.id == id && t.userId == userId && t.tokenHash == tokenHash
    ensures t.usedAt.None? && t.createdAt == now && t.expiresAt == now + ResetTokenTtlMs
    ensures t.requestedById == origin.requestedById && t.requestedIp == origin.ip && t.requestedUserAgent == origin.userAgent
  {
    ResetToken(id, userId, tokenHash, now + ResetTokenTtlMs, None, now, origin.requestedById, origin.ip, origin.userAgent)
  }

  /** `issuePasswordResetToken` on the token table: `tokenId` is the id of the row it creates
      and `tokenHash` the SHA-256 of the new random token. */
  function IssueToken(tokens: seq<ResetToken>, u: User, allowInactive: bool, raiseOnRateLimit: bool,
                      tokenId: Id, tokenHash: string, origin: ResetOrigin, now: int): (r: Issue)
    ensures !u.isActive && !allowInactive ==> r == NotIssued
    ensures r.Limited? ==> raiseOnRateLimit
    ensures r.Issued? <==> (u.isActive || allowInactive) && !HasRecentUnusedToken(tokens, u.id, now - ResetRequestWindowMs)
    ensures r.Issued? ==> r.tokens == DropUnused(tokens, u.id, None) + [NewResetToken(tokenId, u.id, tokenHash, origin, now)]
  {
    if !u.isActive && !allowInactive then NotIssued
    else if HasRecentUnusedToken(tokens, u.id, now - ResetRequestWindowMs) then
      if raiseOnRateLimit then Limited else NotIssued
    else Issued(DropUnused(tokens, u.id, None) + [NewResetToken(tokenId, u.id, tokenHash, origin, now)])
  }

  /** After issuing, the user's only unused token is the new one. */
  lemma IssuedTokenIsTheOnlyUnused(tokens: seq<ResetToken>, u: User, allowInactive: bool, raiseOnRateLimit: bool,
                                   tokenId: Id, tokenHash: string, origin: ResetOrigin, now: int)
    requires IssueToken(tokens, u, allowInactive, raiseOnRateLimit, tokenId, tokenHash, origin, now).Issued?
    ensures var ts := IssueToken(tokens, u, allowInactive, raiseOnRateLimit, tokenId, tokenHash, origin, now).tokens;
      forall t :: t in ts && t.userId == u.id && t.usedAt.None? ==> t == NewResetToken(tokenId, u.id, tokenHash, origin, now)
  {
  }

  /** The raw token the service hands out passes `validatePasswordResetToken` until it
      expires 30 minutes later, and is reported expired afterwards, as long as its hash is
      new to the table and its user is still present and active. */
  lemma {:induction false} IssuedTokenValidUntilExpiry(tokens: seq<ResetToken>, users: seq<User>, u: User, allowInactive: bool,
                                   raiseOnRateLimit: bool, tokenId: Id, rawToken: string, sha: string -> string,
                                   origin: ResetOrigin, now: int, later: int)
    requires IssueToken(tokens, u, allowInactive, raiseOnRateLimit, tokenId, sha(rawToken), origin, now).Issued?
    requires rawToken != ""
    requires forall k :: 0 <= k < |tokens| ==> tokens[k].tokenHash != sha(rawToken)
    requires FindById(users, u.id).Some? && users[FindById(users, u.id).value].isActive
    ensures var ts := IssueToken(tokens, u, allowInactive, raiseOnRateLimit, tokenId, sha(rawToken), origin, now).tokens;
      (later <= now + ResetTokenTtlMs ==> CheckResetToken(ts, users, rawToken, sha, later) == TokenValid)
      && (later > now + ResetTokenTtlMs ==> CheckResetToken(ts, users, rawToken, sha, later) == TokenExpired)
  {
    var d := DropUnused(tokens, u.id, None);
    var row := NewResetToken(tokenId, u.id, sha(rawToken), origin, now);
    var ts := d + [row];
    assert ts[|d|] == row;
    forall i | 0 <= i < |d| ensures ts[i].tokenHash != sha(rawToken) {
      assert ts[i] == d[i] && d[i] in tokens;
    }
    assert ts[FindByHash(ts, sha(rawToken)).value] == row;
  }

  /** Position of the token with this hash (`findUnique({ where: { tokenHash } })`). */
  function FindByHash(tokens: seq<ResetToken>, h: string): (r: Option<nat>)
    ensures r.Some? ==> r.value < |tokens| && tokens[r.value].tokenHash == h
    ensures r.None? <==> forall k :: 0 <= k < |tokens| ==> tokens[k].tokenHash != h
  {
    if tokens == [] then None
    else if tokens[0].tokenHash == h then Some(0)
    else match FindByHash(tokens[1..], h)
      case None => None
      case Some(k) => Some(k + 1)
  }

  /** The answers of `validatePasswordResetToken`. */
  datatype TokenCheck = TokenValid | TokenRequired | TokenInvalid | TokenUsed | TokenExpired

  /** `validatePasswordResetToken`: empty, then unknown token or missing or inactive user,
      then already used, then expired (`expiresAt < now`); otherwise valid. */
  function CheckResetToken(tokens: seq<ResetToken>, users: seq<User>, token: string, sha: string -> string, now: int): (r: TokenCheck)
    ensures token == "" <==> r == TokenRequired
    ensures r == TokenValid <==> (token != "" && FindByHash(tokens, sha(token)).Some?
      && var t := tokens[FindByHash(tokens, sha(token)).value];
         FindById(users, t.userId).Some? && users[FindById(users, t.userId).value].isActive
         && t.usedAt.None? && t.expiresAt >= now)
    ensures r == TokenUsed ==> FindByHash(tokens, sha(token)).Some? && tokens[FindByHash(tokens, sha(token)).value].usedAt.Some?
  {
    if token == "" then TokenRequired
    else match FindByHash(tokens, sha(token))
      case None => TokenInvalid
      case Some(k) =>
        var t := tokens[k];
        match FindById(users, t.userId)
        case None => TokenInvalid
        case Some(i) =>
          if !users[i].isActive then TokenInvalid
          else if t.usedAt.Some? then TokenUsed
          else if t.expiresAt < now then TokenExpired
          else TokenValid
  }

  /** The user row after a reset: new hash, counters cleared, `tokenVersion` bumped. */
  function AfterReset(u: User, hashed: string, now: int): (v: User)
    ensures v.id == u.id && v.email == u.email && v.isActive == u.isActive && v.isAdmin == u.isAdmin
    ensures v.tokenVersion == u.tokenVersion + 1 && v.failedAttempts == 0 && v.lockedUntil.None?
  {
    u.(password := hashed, failedAttempts := 0, lockedUntil := None, passwordChangedAt := Some(now),
       tokenVersion := u.tokenVersion + 1)
  }

  /** `resetPassword` on the two tables: the new user and token tables, or BadRequest for a
      token that is unknown, used, expired or whose user is missing or inactive. */
  function ResetTables(users: seq<User>, tokens: seq<ResetToken>, token: string, newPassword: string,
                       hash: string -> string, sha: string -> string, now: int): (r: Result<(seq<User>, seq<ResetToken>), Failure>)
    ensures r.Err? ==> r.error.BadRequest?
    ensures token != "" ==> (r.Ok? <==> CheckResetToken(tokens, users, token, sha, now) == TokenValid)
    ensures r.Ok? ==> (FindByHash(tokens, sha(token)).Some?
      && FindById(users, tokens[FindByHash(tokens, sha(token)).value].userId).Some?)
    ensures r.Ok? ==> var k := FindByHash(tokens, sha(token)).value;
      var i := FindById(users, tokens[k].userId).value;
      r.value.0 == users[i := AfterReset(users[i], hash(newPassword), now)]
      && r.value.1 == DropUnused(tokens[k := tokens[k].(usedAt := Some(now))], tokens[k].userId, Some(tokens[k].id))
  {
    match FindByHash(tokens, sha(token))
    case None => Err(BadRequest("invalid or expired token"))
    case Some(k) =>
      var t := tokens[k];
      match FindById(users, t.userId)
      case None => Err(BadRequest("invalid or expired token"))
      case Some(i) =>
        if t.usedAt.Some? || !users[i].isActive || t.expiresAt < now then Err(BadRequest("invalid or expired token"))
        else
          var used := tokens[k := t.(usedAt := Some(now))];
          Ok((users[i := AfterReset(users[i], hash(newPassword), now)], DropUnused(used, t.userId, Some(t.id))))
  }

  /** Reset tokens are single-use: once a reset succeeds, the same token validates as used,
      provided token hashes are unique. */
  lemma ResetTokenIsSingleUse(users: seq<User>, tokens: seq<ResetToken>, token: string, newPassword: string,
                              hash: string -> string, sha: string -> string, now: int, later: int)
    requires UniqueAccounts(users) && UniqueTokens(tokens)
    requires token != "" && ResetTables(users, tokens, token, newPassword, hash, sha, now).Ok?
    ensures var (us, ts) := ResetTables(users, tokens, token, newPassword, hash, sha, now).value;
      CheckResetToken(ts, us, token, sha, later) == TokenUsed
  {
    var k := FindByHash(tokens, sha(token)).value;
    var t := tokens[k];
    var i := FindById(users, t.userId).value;
    var (us, ts) := ResetTables(users, tokens, token, newPassword, hash, sha, now).value;
    var usedT := t.(usedAt := Some(now));
    var used := tokens[k := usedT];
    assert used[k] == usedT;
    assert usedT in ts;
    assert us[i].id == t.userId;
    var k2 := FindByHash(ts, sha(token)).value;
    assert ts[k2] == usedT by {
      assert ts[k2] in used;
      var j :| 0 <= j < |used| && used[j] == ts[k2];
      assert used[j].tokenHash == tokens[j].tokenHash;
      assert j == k;
    }
    var i2 := FindById(us, t.userId).value;
    assert us[i2].id == users[i2].id;
  }

  /** A reset logs out every session: access tokens signed before it carry the old
      `tokenVersion`, and the JWT checks refuse them afterwards. */
  lemma ResetInvalidatesEarlierTokens(users: seq<User>, tokens: seq<ResetToken>, token: string, newPassword: string,
                                      hash: string -> string, sha: string -> string, now: int, later: int, before: User)
    requires UniqueAccounts(users)
    requires token != "" && ResetTables(users, tokens, token, newPassword, hash, sha, now).Ok?
    requires before == users[FindById(users, tokens[FindByHash(tokens, sha(token)).value].userId).value]
    ensures JwtStrategy.Validate(JwtStrategy.Sign(before), ResetTables(users, tokens, token, newPassword, hash, sha, now).value.0, later).Err?
  {
    var k := FindByHash(tokens, sha(token)).value;
    var i := FindById(users, tokens[k].userId).value;
    var us := ResetTables(users, tokens, token, newPassword, hash, sha, now).value.0;
    assert us[i].id == before.id;
    var i2 := FindById(us, before.id).value;
    assert us[i2].id == users[i2].id;
  }

  /** Token ids and hashes are unique (database constraints). */
  predicate UniqueTokens(tokens: seq<ResetToken>) {
    forall a, b :: 0 <= a < b < |tokens| ==> tokens[a].id != tokens[b].id && tokens[a].tokenHash != tokens[b].tokenHash
  }

  // ---------------------------------------------------------------- sign-up

  /** The row `register` inserts: the request with activity and administrator rights
      forced to an active non-administrator. */
  function Registered(dto: Users.CreateUser, id: Id, hash: string -> string, now: int): (u: User)
    ensures u.id == id && u.email == NormalizeEmail(dto.email) && u.username == dto.username
    ensures u.password == hash(dto.password) && u.isActive && !u.isAdmin
    ensures u.failedAttempts == 0 && u.lockedUntil.None? && u.tokenVersion == 0 && u.passwordChangedAt == Some(now)
  {
    Users.NewUser(dto.(isActive := Some(true), isAdmin := Some(false)), id, hash, now)
  }

  /** The token `register` hands back is accepted by the JWT strategy against the table the
      registration produced, which keeps accounts unique. */
  lemma RegisteredTokenIsAccepted(users: seq<User>, dto: Users.CreateUser, id: Id, hash: string -> string, now: int, later: int)
    requires UniqueAccounts(users) && FindById(users, id).None?
    requires !Clashes(users, Registered(dto, id, hash, now))
    ensures UniqueAccounts(users + [Registered(dto, id, hash, now)])
    ensures JwtStrategy.Validate(JwtStrategy.Sign(Registered(dto, id, hash, now)), users + [Registered(dto, id, hash, now)], later).Ok?
  {
    var row := Registered(dto, id, hash, now);
    var t := users + [row];
    assert UniqueAccounts(t) by {
      forall i, j | 0 <= i < j < |t|
        ensures t[i].id != t[j].id && t[i].email != t[j].email && t[i].username != t[j].username
      {
        if j == |users| {
          assert t[i] == users[i] && t[j] == row;
        } else {
          assert t[i] == users[i] && t[j] == users[j];
        }
      }
    }
    assert t[|users|] == row;
    var k := FindById(t, id).value;
    assert t[k] == row;
    JwtStrategy.SignedTokenValidity(row, t, later);
  }

  /** The reply of the public reset request: always the same message; the raw token is
      echoed only outside production. */
  datatype ResetReply = ResetReply(message: string, previewToken: Option<string>)

  const GenericResetMessage: string :=
    "Si el correo existe en el sistema, se enviaron las instrucciones para recuperar la contrasena."

  const ResetForUserMessage: string := "Enlace de restablecimiento enviado al correo del usuario."

  /** The tables the service reads and writes. */
  class AuthService {
    var users: seq<User>
    var tokens: seq<ResetToken>
    var requests: seq<ResetRequest>

    predicate Valid()
      reads this
    {
      UniqueAccounts(users) && UniqueTokens(tokens)
    }

    constructor(users0: seq<User>, tokens0: seq<ResetToken>, requests0: seq<ResetRequest>)
      requires UniqueAccounts(users0) && UniqueTokens(tokens0)
      ensures Valid() && users == users0 && tokens == tokens0 && requests == requests0
    {
      users := users0;
      tokens := tokens0;
      requests := requests0;
    }

    /** `register`: a self-signup inserts an active non-administrator and answers the
        sanitised row with an access token; a taken e-mail or username is a Conflict.
        `id` is the id the database assigns. */
    method Register(dto: Users.CreateUser, id: Id, hash: string -> string, now: int)
      returns (r: Result<(JwtStrategy.Claims, SafeUser), Failure>)
      requires Valid() && FindById(users, id).None?
      modifies this
      ensures Valid() && tokens == old(tokens) && requests == old(requests)
      ensures var row := Registered(dto, id, hash, now);
        if Clashes(old(users), row) then r.Err? && r.error.Conflict? && users == old(users)
        else r == Ok((JwtStrategy.Sign(row), Sanitize(row))) && users == old(users) + [row]
    {
      var row := Registered(dto, id, hash, now);
      if Clashes(users, row) {
        return Err(Conflict("e-mail or username already registered"));
      }
      RegisteredTokenIsAccepted(users, dto, id, hash, now, now);
      users := users + [row];
      r := Ok((JwtStrategy.Sign(row), Sanitize(row)));
    }

    /** `adminCreateUser`: inserts the requested row (activity and administrator rights as
        requested, active non-administrator by default); a taken e-mail or username is a
        Conflict. */
    method AdminCreateUser(dto: Users.CreateUser, id: Id, hash: string -> string, now: int) returns (r: Result<SafeUser, Failure>)
      requires Valid() && FindById(users, id).None?
      modifies this
      ensures Valid() && tokens == old(tokens) && requests == old(requests)
      ensures var row := Users.NewUser(dto, id, hash, now);
        if Clashes(old(users), row) then r.Err? && r.error.Conflict? && users == old(users)
        else r == Ok(Sanitize(row)) && users == old(users) + [row]
    {
      var row := Users.NewUser(dto, id, hash, now);
      if Clashes(users, row) {
        return Err(Conflict("e-mail or username already registered"));
      }
      users := users + [row];
      r := Ok(Sanitize(row));
    }

    /** `me`: the caller's own sanitised row. */
    method Me(userId: Id) returns (r: Result<SafeUser, Failure>)
      ensures FindById(users, userId).None? ==> r.Err? && r.error.NotFound?
      ensures FindById(users, userId).Some? ==> r == Ok(Sanitize(users[FindById(users, userId).value]))
    {
      match FindById(users, userId)
      case None => r := Err(NotFound("user"));
      case Some(i) => r := Ok(Sanitize(users[i]));
    }

    /** `login`: writes back the row the attempt produced. */
    method Login(email: string, password: string, compare: (string, string) -> bool, now: int)
      returns (r: Result<(JwtStrategy.Claims, SafeUser), Failure>)
      requires Valid()
      modifies this
      ensures Valid() && tokens == old(tokens) && requests == old(requests)
      ensures var o := LoginAttempt(old(users), email, password, compare, now);
        r == o.answer
        && users == (if o.written.Some? then old(users)[FindByEmail(old(users), NormalizeEmail(email)).value := o.written.value]
                     else old(users))
    {
      var o := LoginAttempt(users, email, password, compare, now);
      if o.written.Some? {
        var i := FindByEmail(users, NormalizeEmail(email)).value;
        assert o.written.value.id == users[i].id && o.written.value.email == users[i].email
          && o.written.value.username == users[i].username;
        users := users[i := o.written.value];
      }
      r := o.answer;
    }

    /** `requestPasswordReset`: whatever happens, the same generic reply. A non-blank address
        is logged; a token is issued only for an active user who is not rate-limited and
        has no recent unused token, and its raw token is echoed outside production.
        `rawToken` is the random token the service draws and `tokenId` the id of its row. */
    method RequestPasswordReset(email: string, ip: Option<string>, userAgent: Option<string>, sha: string -> string,
                                rawToken: string, tokenId: Id, now: int, production: bool)
      returns (reply: ResetReply)
      requires Valid()
      requires forall k :: 0 <= k < |tokens| ==> tokens[k].id != tokenId && tokens[k].tokenHash != sha(rawToken)
      modifies this
      ensures Valid() && users == old(users)
      ensures reply.message == GenericResetMessage
      ensures reply.previewToken.Some? ==> !production && reply.previewToken.value == rawToken
      ensures Text.Trim(email) == [] ==> requests == old(requests) && tokens == old(tokens) && reply.previewToken.None?
      ensures Text.Trim(email) != [] ==>
        var address := NormalizeEmail(email);
        var found := FindByEmail(old(users), address);
        var userId := if found.Some? then Some(old(users)[found.value].id) else None;
        var eligible := found.Some? && old(users)[found.value].isActive
          && !IsRateLimited(old(requests), sha(address), ip, userId, now);
        requests == old(requests) + [ResetRequest(sha(address), userId, ip, userAgent, now)]
        && (!eligible ==> tokens == old(tokens) && reply.previewToken.None?)
        && (eligible ==>
              var issued := IssueToken(old(tokens), old(users)[found.value], false, false, tokenId, sha(rawToken),
                                       ResetOrigin(None, ip, userAgent), now);
              (issued.Issued? ==>
                 tokens == issued.tokens && reply.previewToken == (if production then None else Some(rawToken)))
              && (!issued.Issued? ==> tokens == old(tokens) && reply.previewToken.None?))
    {
      reply := ResetReply(GenericResetMessage, None);
      if Text.Trim(email) == [] {
        return;
      }
      var address := NormalizeEmail(email);
      var emailHash := sha(address);
      var found := FindByEmail(users, address);
      var userId := if found.Some? then Some(users[found.value].id) else None;
      var limited := IsRateLimited(requests, emailHash, ip, userId, now);
      requests := requests + [ResetRequest(emailHash, userId, ip, userAgent, now)];
      if limited || found.None? || !users[found.value].isActive {
        return;
      }
      var u := users[found.value];
      var origin := ResetOrigin(None, ip, userAgent);
      var issued := IssueToken(tokens, u, false, false, tokenId, sha(rawToken), origin, now);
      if issued.Issued? {
        UniqueAfterIssue(tokens, u.id, NewResetToken(tokenId, u.id, sha(rawToken), origin, now));
        tokens := issued.tokens;
        if !production {
          reply := ResetReply(GenericResetMessage, Some(rawToken));
        }
      }
    }

    /** `requestPasswordResetForUser`: an administrator sends a reset link for a user. An
        unknown user is NotFound and an inactive one BadRequest unless `allowInactive`;
        otherwise the request is logged, and a rate limit or a recent unused token is
        TooManyRequests. `rawToken` is the random token the service draws, `tokenId` the id
        of its row and `adminId` the administrator's id. */
    method RequestPasswordResetForUser(userId: Id, adminId: Id, ip: Option<string>, userAgent: Option<string>, allowInactive: bool,
                                       sha: string -> string, rawToken: string, tokenId: Id, now: int, production: bool)
      returns (r: Result<ResetReply, Failure>)
      requires Valid()
      requires forall k :: 0 <= k < |tokens| ==> tokens[k].id != tokenId && tokens[k].tokenHash != sha(rawToken)
      modifies this
      ensures Valid() && users == old(users)
      ensures FindById(old(users), userId).None? ==>
        r.Err? && r.error.NotFound? && requests == old(requests) && tokens == old(tokens)
      ensures FindById(old(users), userId).Some? ==>
        var u := old(users)[FindById(old(users), userId).value];
        var emailHash := sha(NormalizeEmail(u.email));
        (!u.isActive && !allowInactive ==> r.Err? && r.error.BadRequest? && requests == old(requests) && tokens == old(tokens))
        && (u.isActive || allowInactive ==>
              requests == old(requests) + [ResetRequest(emailHash, Some(u.id), ip, userAgent, now)]
              && (IsRateLimited(old(requests), emailHash, ip, Some(u.id), now) ==>
                    r.Err? && r.error.TooManyRequests? && tokens == old(tokens))
              && (!IsRateLimited(old(requests), emailHash, ip, Some(u.id), now) ==>
                    var issued := IssueToken(old(tokens), u, allowInactive, true, tokenId, sha(rawToken),
                                             ResetOrigin(Some(adminId), ip, userAgent), now);
                    (issued.Issued? ==>
                       tokens == issued.tokens && r.Ok? && r.value.message == ResetForUserMessage
                       && r.value.previewToken == (if production then None else Some(rawToken)))
                    && (!issued.Issued? ==> r.Err? && r.error.TooManyRequests? && tokens == old(tokens))))
    {
      var found := FindById(users, userId);
      if found.None? {
        return Err(NotFound("user"));
      }
      var u := users[found.value];
      if !u.isActive && !allowInactive {
        return Err(BadRequest("the user is inactive; reactivate it before sending a link"));
      }
      var emailHash := sha(NormalizeEmail(u.email));
      var limited := IsRateLimited(requests, emailHash, ip, Some(u.id), now);
      requests := requests + [ResetRequest(emailHash, Some(u.id), ip, userAgent, now)];
      if limited {
        return Err(TooManyRequests("a recovery link was sent recently"));
      }
      var origin := ResetOrigin(Some(adminId), ip, userAgent);
      var issued := IssueToken(tokens, u, allowInactive, true, tokenId, sha(rawToken), origin, now);
      if !issued.Issued? {
        return Err(TooManyRequests("a recovery link was sent recently"));
      }
      UniqueAfterIssue(tokens, u.id, NewResetToken(tokenId, u.id, sha(rawToken), origin, now));
      tokens := issued.tokens;
      r := Ok(ResetReply(ResetForUserMessage, if production then None else Some(rawToken)));
    }

    /** `validatePasswordResetToken`. */
    method ValidateResetToken(token: string, sha: string -> string, now: int) returns (r: TokenCheck)
      ensures r == CheckResetToken(tokens, users, token, sha, now)
    {
      r := CheckResetToken(tokens, users, token, sha, now);
    }

    /** `resetPassword`. */
    method ResetPassword(token: string, newPassword: string, hash: string -> string, sha: string -> string, now: int)
      returns (r: Result<string, Failure>)
      requires Valid()
      modifies this
      ensures Valid() && requests == old(requests)
      ensures var t := ResetTables(old(users), old(tokens), token, newPassword, hash, sha, now);
        (t.Ok? ==> r.Ok? && users == t.value.0 && tokens == t.value.1)
        && (t.Err? ==> r == Err(t.error) && users == old(users) && tokens == old(tokens))
    {
      var t := ResetTables(users, tokens, token, newPassword, hash, sha, now);
      if t.Err? {
        return Err(t.error);
      }
      var k := FindByHash(tokens, sha(token)).value;
      var tok := tokens[k];
      UniqueAfterUse(tokens, k, now);
      var i := FindById(users, tok.userId).value;
      assert AfterReset(users[i], hash(newPassword), now).email == users[i].email;
      users := t.value.0;
      tokens := t.value.1;
      r := Ok("password updated");
    }
  }

  /** Dropping rows and appending a row with a new id and hash keeps the table unique. */
  lemma UniqueAfterIssue(tokens: seq<ResetToken>, userId: Id, newRow: ResetToken)
    requires UniqueTokens(tokens)
    requires forall k :: 0 <= k < |tokens| ==> tokens[k].id != newRow.id && tokens[k].tokenHash != newRow.tokenHash
    ensures UniqueTokens(DropUnused(tokens, userId, None) + [newRow])
  {
    DropUnusedKeepsUnique(tokens, userId, None);
    var d := DropUnused(tokens, userId, None);
    forall a | 0 <= a < |d| ensures d[a].id != newRow.id && d[a].tokenHash != newRow.tokenHash {
      assert d[a] in tokens;
    }
  }

  /** Marking a token used and dropping the other unused ones keeps the table unique. */
  lemma UniqueAfterUse(tokens: seq<ResetToken>, k: nat, now: int)
    requires UniqueTokens(tokens) && k < |tokens|
    ensures UniqueTokens(DropUnused(tokens[k := tokens[k].(usedAt := Some(now))], tokens[k].userId, Some(tokens[k].id)))
  {
    var used := tokens[k := tokens[k].(usedAt := Some(now))];
    assert UniqueTokens(used) by {
      forall a, b | 0 <= a < b < |used| ensures used[a].id != used[b].id && used[a].tokenHash != used[b].tokenHash {
        assert used[a].id == tokens[a].id && used[a].tokenHash == tokens[a].tokenHash;
        assert used[b].id == tokens[b].id && used[b].tokenHash == tokens[b].tokenHash;
      }
    }
    DropUnusedKeepsUnique(used, tokens[k].userId, Some(tokens[k].id));
  }

  /** Dropping rows keeps the table unique. */
  lemma {:induction false} DropUnusedKeepsUnique(tokens: seq<ResetToken>, userId: Id, spare: Option<Id>)
    requires UniqueTokens(tokens)
    ensures UniqueTokens(DropUnused(tokens, userId, spare))
  {
    if tokens != [] {
      var rest := tokens[1..];
      assert UniqueTokens(rest) by {
        forall a, b | 0 <= a < b < |rest| ensures rest[a].id != rest[b].id && rest[a].tokenHash != rest[b].tokenHash {
          assert rest[a] == tokens[a + 1] && rest[b] == tokens[b + 1];
        }
      }
      DropUnusedKeepsUnique(rest, userId, spare);
      var d := DropUnused(rest, userId, spare);
      forall a | 0 <= a < |d| ensures d[a].id != tokens[0].id && d[a].tokenHash != tokens[0].tokenHash {
        assert d[a] in rest;
        var j :| 0 <= j < |rest| && rest[j] == d[a];
        assert rest[j] == tokens[j + 1];
      }
    }
  }
}
