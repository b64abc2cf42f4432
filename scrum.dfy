/** The vocabulary the NestJS services share: users and projects, team roles, project
    visibility, the failures a service raises, and the read-access rule most services
    apply before doing anything else. */
module Scrum {
  import opened Wrappers

  /** Database ids (UUID strings). */
  type Id = string

  datatype Role = PRODUCT_OWNER | SCRUM_MASTER | DEVELOPER

  datatype Visibility = PRIVATE | PUBLIC

  /** A row of the project-member table. */
  datatype Member = Member(userId: Id, role: Role, isActive: bool)

  /** The project fields the access rules look at. */
  datatype Project = Project(ownerId: Id, visibility: Visibility, members: seq<Member>)

  /** The exceptions the services throw, by kind; the text says why. */
  datatype Failure =
    | NotFound(what: string)
    | BadRequest(why: string)
    | Forbidden(why: string)
    | Conflict(why: string)
    | Unauthorized(why: string)
    | TooManyRequests(why: string)

  /** The active members of a team, in table order (`members: { where: { isActive: true } }`). */
  function ActiveMembers(members: seq<Member>): (r: seq<Member>)
    ensures forall m :: m in r <==> m in members && m.isActive
    ensures |r| <= |members|
  {
    if members == [] then []
    else
      assert members == [members[0]] + members[1..];
      (if members[0].isActive then [members[0]] else []) + ActiveMembers(members[1..])
  }

  /** Every active membership row is kept as often as the team holds it, and nothing more. */
  lemma {:induction false} ActiveMembersCounts(members: seq<Member>)
    ensures multiset(ActiveMembers(members)) <= multiset(members)
    ensures forall x: Member :: x.isActive ==> multiset(ActiveMembers(members))[x] == multiset(members)[x]
  {
    if members != [] {
      ActiveMembersCounts(members[1..]);
      var head := if members[0].isActive then [members[0]] else [];
      var rest := ActiveMembers(members[1..]);
      assert ActiveMembers(members) == head + rest;
      assert members == [members[0]] + members[1..];
      assert multiset(members) == multiset{members[0]} + multiset(members[1..]);
      assert multiset(ActiveMembers(members)) == multiset(head) + multiset(rest);
    }
  }

  /** `members.find(m => m.userId === userId)`: the first row for that user. */
  function FindMember(members: seq<Member>, userId: Id): (r: Option<Member>)
    ensures r.Some? <==> exists m :: m in members && m.userId == userId
    ensures r.Some? ==> r.value in members && r.value.userId == userId
  {
    if members == [] then None
    else if members[0].userId == userId then Some(members[0])
    else FindMember(members[1..], userId)
  }

  /** The caller is an active member of the team. */
  predicate IsActiveMember(p: Project, userId: Id) {
    exists m :: m in p.members && m.isActive && m.userId == userId
  }

  /** `ensureProjectMember` and its copies: the owner or an active member. */
  predicate IsOwnerOrMember(p: Project, userId: Id) {
    p.ownerId == userId || IsActiveMember(p, userId)
  }

  /** The role of the caller's active membership (`member?.role`), if any. */
  function ActiveRole(p: Project, userId: Id): (r: Option<Role>)
    ensures r.Some? <==> IsActiveMember(p, userId)
    ensures r.Some? ==> Member(userId, r.value, true) in p.members
  {
    var m := FindMember(ActiveMembers(p.members), userId);
    if m.Some? then
      assert m.value in p.members && m.value == Member(userId, m.value.role, true);
      Some(m.value.role)
    else None
  }

  /** What the access check hands back to its caller. */
  datatype Access = Access(isOwner: bool, isMember: bool, role: Option<Role>)

  /** The read-access check (`verifyProjectAccess` and its copies): a private project is
      closed to everyone but its owner and its active members. */
  function CheckAccess(p: Project, userId: Id): (r: Result<Access, Failure>)
    ensures r.Err? <==> p.ownerId != userId && !IsActiveMember(p, userId) && p.visibility == PRIVATE
    ensures r.Err? ==> r.error.Forbidden?
    ensures r.Ok? ==> r.value == Access(p.ownerId == userId, IsActiveMember(p, userId), ActiveRole(p, userId))
  {
    var isOwner := p.ownerId == userId;
    var role := ActiveRole(p, userId);
    if !isOwner && role.None? && p.visibility == PRIVATE then Err(Forbidden("no access to this project"))
    else Ok(Access(isOwner, role.Some?, role))
  }

  /** The owner and the active members always pass the access check, and on a public project
      everyone does. */
  lemma PublicOrInsiderPasses(p: Project, userId: Id)
    requires p.visibility == PUBLIC || p.ownerId == userId || IsActiveMember(p, userId)
    ensures CheckAccess(p, userId).Ok?
  {
  }

  /** The manager rule shared by sprints, repositories, reviews and synchronisation: the
      owner, or an active SCRUM_MASTER or PRODUCT_OWNER. */
  predicate IsManager(p: Project, userId: Id) {
    p.ownerId == userId || ActiveRole(p, userId) == Some(SCRUM_MASTER) || ActiveRole(p, userId) == Some(PRODUCT_OWNER)
  }

  /** `verifyProjectAccess` as the workflow services write it: a missing project is
      NotFound, then the read-access rule applies. */
  function VerifyAccess(projects: map<Id, Project>, projectId: Id, userId: Id): (r: Result<Access, Failure>)
    ensures r.Ok? <==> projectId in projects && CheckAccess(projects[projectId], userId).Ok?
    ensures projectId !in projects ==> r.Err? && r.error.NotFound?
    ensures r.Ok? ==> r.value.role == ActiveRole(projects[projectId], userId)
    ensures r.Ok? ==> r.value.isOwner == (projects[projectId].ownerId == userId)
  {
    if projectId !in projects then Err(NotFound("project"))
    else CheckAccess(projects[projectId], userId)
  }

  /** The rule of task writes and of suggestion status changes: the owner or an active DEVELOPER. */
  predicate IsDeveloperOrOwner(p: Project, userId: Id) {
    p.ownerId == userId || ActiveRole(p, userId) == Some(DEVELOPER)
  }

  /** The rule of sprint start, configuration writes and retrospectives: the owner or an
      active SCRUM_MASTER. */
  predicate IsScrumMasterOrOwner(p: Project, userId: Id) {
    p.ownerId == userId || ActiveRole(p, userId) == Some(SCRUM_MASTER)
  }

  /** Every role rule admits only callers the read-access rule already admits, so a role
      check after the access check never sees an outsider. */
  lemma RoleImpliesAccess(p: Project, userId: Id)
    requires IsManager(p, userId) || IsDeveloperOrOwner(p, userId) || IsScrumMasterOrOwner(p, userId)
    ensures CheckAccess(p, userId).Ok? && IsOwnerOrMember(p, userId)
  {
  }

  /** The outcome of the heuristic and of the trained risk model. */
  datatype RiskLevel = LOW | MEDIUM | HIGH

  /** The enum value as stored and exported. */
  function RiskName(l: RiskLevel): (s: string)
    ensures s in {"LOW", "MEDIUM", "HIGH"}
  {
    match l
    case LOW => "LOW"
    case MEDIUM => "MEDIUM"
    case HIGH => "HIGH"
  }

  /** Distinct levels have distinct names, so the exported column determines the level. */
  lemma RiskNameInjective(a: RiskLevel, b: RiskLevel)
    requires RiskName(a) == RiskName(b)
    ensures a == b
  {
  }
}
