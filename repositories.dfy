/** The GitHub repositories a project links to. Writes are for managers only (the owner, a
    SCRUM_MASTER or a PRODUCT_OWNER); a URL names at most one repository of a project, and a
    project has at most one primary repository. The table is a sequence in creation order. */
module Repositories {
  import opened Wrappers
  import opened Scrum

  /** A row of the repository table. The access token is not modelled. */
  datatype Repository = Repository(
    id: Id,
    projectId: Id,
    name: string,
    url: string,
    mainBranch: string,
    isPrimary: bool,
    syncEnabled: bool,
    lastSyncAt: Option<int>)

  datatype CreateRepositoryDto = CreateRepositoryDto(name: string, url: string, mainBranch: Option<string>, isPrimary: Option<bool>)

  /** The optional fields of an update; an absent field is left as it is. */
  datatype UpdateRepositoryDto = UpdateRepositoryDto(name: Option<string>, url: Option<string>, mainBranch: Option<string>, isPrimary: Option<bool>)

  // ---------------------------------------------------------------------------------
  // Table invariants

  predicate UniqueIds(rows: seq<Repository>) {
    forall i, j :: 0 <= i < j < |rows| ==> rows[i].id != rows[j].id
  }

  /** The database's `(projectId, url)` key. */
  predicate UniqueUrls(rows: seq<Repository>) {
    forall i, j :: 0 <= i < j < |rows| && rows[i].projectId == rows[j].projectId ==> rows[i].url != rows[j].url
  }

  predicate AtMostOnePrimary(rows: seq<Repository>) {
    forall i, j :: 0 <= i < j < |rows| && rows[i].projectId == rows[j].projectId && rows[i].isPrimary ==> !rows[j].isPrimary
  }

  predicate ValidTable(rows: seq<Repository>) {
    UniqueIds(rows) && UniqueUrls(rows) && AtMostOnePrimary(rows)
  }

  predicate HasId(rows: seq<Repository>, id: Id) {
    exists k :: 0 <= k < |rows| && rows[k].id == id
  }

  /** Some repository of the project other than `except` has that URL. */
  predicate UrlTaken(rows: seq<Repository>, projectId: Id, url: string, except: Option<Id>) {
    exists k :: 0 <= k < |rows| && rows[k].projectId == projectId && rows[k].url == url && Some(rows[k].id) != except
  }

  // ---------------------------------------------------------------------------------
  // Reads

  /** `findFirst({ where: { id, projectId } })`. */
  function FindRepository(rows: seq<Repository>, id: Id, projectId: Id): (r: Option<Repository>)
    ensures r.Some? <==> exists k :: 0 <= k < |rows| && rows[k].id == id && rows[k].projectId == projectId
    ensures r.Some? ==> r.value in rows && r.value.id == id && r.value.projectId == projectId
  {
    if rows == [] then None
    else if rows[0].id == id && rows[0].projectId == projectId then Some(rows[0])
    else FindRepository(rows[1..], id, projectId)
  }

  /** The project's repositories whose primary flag is `primary`, in creation order. */
  function WithFlag(rows: seq<Repository>, projectId: Id, primary: bool): (r: seq<Repository>)
    ensures forall x :: x in r <==> x in rows && x.projectId == projectId && x.isPrimary == primary
    ensures |r| <= |rows|
  {
    if rows == [] then []
    else (if rows[0].projectId == projectId && rows[0].isPrimary == primary then [rows[0]] else []) + WithFlag(rows[1..], projectId, primary)
  }

  /** The project's repositories in creation order. */
  function OfProject(rows: seq<Repository>, projectId: Id): (r: seq<Repository>)
    ensures forall x :: x in r <==> x in rows && x.projectId == projectId
  {
    if rows == [] then []
    else (if rows[0].projectId == projectId then [rows[0]] else []) + OfProject(rows[1..], projectId)
  }

  /** `findMany` ordered by `isPrimary desc, createdAt asc`: the primary repositories first,
      each group in creation order. */
  function Listing(rows: seq<Repository>, projectId: Id): (r: seq<Repository>)
    ensures forall x :: x in r <==> x in rows && x.projectId == projectId
  {
    WithFlag(rows, projectId, true) + WithFlag(rows, projectId, false)
  }

  /** The listing holds exactly the project's repositories, each as often as the table does,
      and no secondary repository comes before a primary one. */
  lemma {:induction false} ListingIsOrdered(rows: seq<Repository>, projectId: Id)
    ensures multiset(Listing(rows, projectId)) == multiset(OfProject(rows, projectId))
    ensures forall i, j :: 0 <= i < j < |Listing(rows, projectId)| && Listing(rows, projectId)[j].isPrimary ==> Listing(rows, projectId)[i].isPrimary
  {
    if rows != [] {
      ListingIsOrdered(rows[1..], projectId);
    }
    var r := Listing(rows, projectId);
    var p := WithFlag(rows, projectId, true);
    forall j | |p| <= j < |r| ensures !r[j].isPrimary {
      assert r[j] in WithFlag(rows, projectId, false);
    }
    forall i | 0 <= i < |p| ensures r[i].isPrimary {
      assert r[i] in p;
    }
  }

  /** With at most one primary repository, a listing that has one shows it first. */
  lemma PrimaryListedFirst(rows: seq<Repository>, projectId: Id, k: nat)
    requires k < |rows| && rows[k].projectId == projectId && rows[k].isPrimary
    ensures Listing(rows, projectId) != [] && Listing(rows, projectId)[0].isPrimary
  {
    assert rows[k] in WithFlag(rows, projectId, true);
  }

  // ---------------------------------------------------------------------------------
  // Writes

  /** `updateMany({ where: { projectId, isPrimary: true, id: { not: except } }, data: { isPrimary: false } })`. */
  function UnsetPrimaries(rows: seq<Repository>, projectId: Id, except: Option<Id>): (r: seq<Repository>)
    ensures |r| == |rows|
    ensures forall k :: 0 <= k < |rows| ==>
      r[k] == if rows[k].projectId == projectId && Some(rows[k].id) != except then rows[k].(isPrimary := false) else rows[k]
  {
    seq(|rows|, k requires 0 <= k < |rows| =>
      if rows[k].projectId == projectId && Some(rows[k].id) != except then rows[k].(isPrimary := false) else rows[k])
  }

  /** The row `createRepository` writes: the branch defaults to `main` (an empty name counts
      as absent) and the flag to false. */
  function NewRepository(id: Id, projectId: Id, dto: CreateRepositoryDto): (r: Repository)
    ensures r.id == id && r.projectId == projectId && r.name == dto.name && r.url == dto.url
    ensures dto.mainBranch.None? || dto.mainBranch == Some("") ==> r.mainBranch == "main"
    ensures dto.mainBranch.Some? && dto.mainBranch.value != "" ==> r.mainBranch == dto.mainBranch.value
    ensures r.isPrimary <==> dto.isPrimary == Some(true)
    ensures r.syncEnabled && r.lastSyncAt.None?
  {
    var branch := if dto.mainBranch.Some? && dto.mainBranch.value != "" then dto.mainBranch.value else "main";
    Repository(id, projectId, dto.name, dto.url, branch, dto.isPrimary == Some(true), true, None)
  }

  /** The table after `createRepository`. */
  function Created(rows: seq<Repository>, repo: Repository): seq<Repository> {
    (if repo.isPrimary then UnsetPrimaries(rows, repo.projectId, None) else rows) + [repo]
  }

  /** `data: updateDto`: the given fields replace the stored ones. */
  function Apply(repo: Repository, dto: UpdateRepositoryDto): (r: Repository)
    ensures r.id == repo.id && r.projectId == repo.projectId && r.syncEnabled == repo.syncEnabled && r.lastSyncAt == repo.lastSyncAt
    ensures r.name == dto.name.GetOr(repo.name) && r.url == dto.url.GetOr(repo.url)
    ensures r.mainBranch == dto.mainBranch.GetOr(repo.mainBranch) && r.isPrimary == dto.isPrimary.GetOr(repo.isPrimary)
  {
    repo.(name := dto.name.GetOr(repo.name), url := dto.url.GetOr(repo.url),
          mainBranch := dto.mainBranch.GetOr(repo.mainBranch), isPrimary := dto.isPrimary.GetOr(repo.isPrimary))
  }

  /** `repository.update({ where: { id }, data })` with the row computed from the stored one. */
  function EditRow(rows: seq<Repository>, id: Id, dto: UpdateRepositoryDto): (r: seq<Repository>)
    ensures |r| == |rows|
    ensures forall k :: 0 <= k < |rows| ==> r[k] == if rows[k].id == id then Apply(rows[k], dto) else rows[k]
  {
    seq(|rows|, k requires 0 <= k < |rows| => if rows[k].id == id then Apply(rows[k], dto) else rows[k])
  }

  /** `repository.delete({ where: { id } })`. */
  function DropRepository(rows: seq<Repository>, id: Id): (r: seq<Repository>)
    ensures forall x :: x in r <==> x in rows && x.id != id
    ensures |r| <= |rows|
  {
    if rows == [] then []
    else (if rows[0].id == id then [] else [rows[0]]) + DropRepository(rows[1..], id)
  }

  /** The table after `setPrimaryRepository`: every primary of the project is unset, then the
      chosen one is marked. */
  function PrimarySet(rows: seq<Repository>, projectId: Id, id: Id): seq<Repository> {
    EditRow(UnsetPrimaries(rows, projectId, None), id, UpdateRepositoryDto(None, None, None, Some(true)))
  }

  // ---------------------------------------------------------------------------------
  // Checks

  /** `verifyProjectAccess` followed by the `canEdit` guard every write makes. */
  function EditorCheck(projects: map<Id, Project>, projectId: Id, userId: Id): (r: Option<Failure>)
    ensures r.None? <==> projectId in projects && IsManager(projects[projectId], userId)
    ensures projectId !in projects ==> r.Some? && r.value.NotFound?
    ensures projectId in projects && !IsManager(projects[projectId], userId) ==> r.Some? && r.value.Forbidden?
  {
    var access := VerifyAccess(projects, projectId, userId);
    if access.Err? then Some(access.error)
    else if !IsManager(projects[projectId], userId) then Some(Forbidden("only the scrum master, the product owner or the owner may change repositories"))
    else None
  }

  /** `createRepository`'s checks: an editor, and a URL the project does not use yet. */
  function CreateCheck(projects: map<Id, Project>, rows: seq<Repository>, projectId: Id, dto: CreateRepositoryDto, userId: Id): (r: Option<Failure>)
    ensures r.None? <==> EditorCheck(projects, projectId, userId).None? && !UrlTaken(rows, projectId, dto.url, None)
    ensures EditorCheck(projects, projectId, userId).None? && UrlTaken(rows, projectId, dto.url, None) ==> r.Some? && r.value.BadRequest?
  {
    var editor := EditorCheck(projects, projectId, userId);
    if editor.Some? then editor
    else if UrlTaken(rows, projectId, dto.url, None) then Some(BadRequest("a repository with that url already exists in this project"))
    else None
  }

  /** The checks of update, delete and set-primary: an editor, and the repository in the
      project. The repository found is handed back. */
  function TargetCheck(projects: map<Id, Project>, rows: seq<Repository>, projectId: Id, id: Id, userId: Id): (r: Result<Repository, Failure>)
    ensures r.Ok? <==> EditorCheck(projects, projectId, userId).None? && FindRepository(rows, id, projectId).Some?
    ensures r.Ok? ==> r.value == FindRepository(rows, id, projectId).value
    ensures EditorCheck(projects, projectId, userId).None? && FindRepository(rows, id, projectId).None? ==> r.Err? && r.error.NotFound?
  {
    var editor := EditorCheck(projects, projectId, userId);
    if editor.Some? then Err(editor.value)
    else
      var found := FindRepository(rows, id, projectId);
      if found.None? then Err(NotFound("repository")) else Ok(found.value)
  }

  /** `updateRepository`'s explicit URL check: a non-empty URL that differs from the stored
      one must be free in the project. */
  function UpdateCheck(projects: map<Id, Project>, rows: seq<Repository>, projectId: Id, id: Id, dto: UpdateRepositoryDto, userId: Id): (r: Result<Repository, Failure>)
    ensures r.Ok? <==> (TargetCheck(projects, rows, projectId, id, userId).Ok?
      && !(dto.url.Some? && dto.url.value != "" && dto.url.value != TargetCheck(projects, rows, projectId, id, userId).value.url
           && UrlTaken(rows, projectId, dto.url.value, None)))
    ensures r.Ok? ==> r.value == TargetCheck(projects, rows, projectId, id, userId).value
  {
    var target := TargetCheck(projects, rows, projectId, id, userId);
    if target.Err? then target
    else if dto.url.Some? && dto.url.value != "" && dto.url.value != target.value.url && UrlTaken(rows, projectId, dto.url.value, None) then
      Err(BadRequest("a repository with that url already exists in this project"))
    else target
  }

  /** The write the `(projectId, url)` key rejects: an empty URL skips the explicit check,
      and the database refuses it when another repository of the project already has it. */
  predicate KeyClash(rows: seq<Repository>, repo: Repository, dto: UpdateRepositoryDto) {
    dto.url.Some? && UrlTaken(rows, repo.projectId, dto.url.value, Some(repo.id))
  }

  /** Whether the update first unsets the project's other primaries. */
  predicate Promotes(repo: Repository, dto: UpdateRepositoryDto) {
    dto.isPrimary == Some(true) && !repo.isPrimary
  }

  /** The table before the row itself is written. */
  function BeforeEdit(rows: seq<Repository>, repo: Repository, dto: UpdateRepositoryDto): seq<Repository> {
    if Promotes(repo, dto) then UnsetPrimaries(rows, repo.projectId, Some(repo.id)) else rows
  }

  // ---------------------------------------------------------------------------------
  // What the writes preserve

  /** Clearing primary flags keeps ids, URLs and projects, and leaves no primary repository
      in the project other than the excepted one. */
  lemma UnsetPrimariesKeeps(rows: seq<Repository>, projectId: Id, except: Option<Id>)
    requires ValidTable(rows)
    ensures ValidTable(UnsetPrimaries(rows, projectId, except))
    ensures forall k :: 0 <= k < |rows| ==> UnsetPrimaries(rows, projectId, except)[k].(isPrimary := rows[k].isPrimary) == rows[k]
  {
  }

  /** `createRepository` keeps the invariants; the new repository is primary exactly when
      asked, and then it is the project's only primary repository. */
  lemma CreatedKeeps(rows: seq<Repository>, repo: Repository)
    requires ValidTable(rows) && !HasId(rows, repo.id) && !UrlTaken(rows, repo.projectId, repo.url, None)
    ensures ValidTable(Created(rows, repo))
    ensures repo.isPrimary ==> forall k :: 0 <= k < |Created(rows, repo)| && Created(rows, repo)[k].projectId == repo.projectId ==>
      (Created(rows, repo)[k].isPrimary <==> k == |rows|)
  {
    var base := if repo.isPrimary then UnsetPrimaries(rows, repo.projectId, None) else rows;
    UnsetPrimariesKeeps(rows, repo.projectId, None);
    var r := base + [repo];
    assert forall k :: 0 <= k < |rows| ==> r[k] == base[k] && base[k].id == rows[k].id && base[k].url == rows[k].url && base[k].projectId == rows[k].projectId;
  }

  /** `setPrimaryRepository` keeps the invariants and leaves the chosen repository the only
      primary one of its project; no other row changes except for its flag. */
  lemma PrimarySetKeeps(rows: seq<Repository>, projectId: Id, id: Id)
    requires ValidTable(rows) && FindRepository(rows, id, projectId).Some?
    ensures ValidTable(PrimarySet(rows, projectId, id))
    ensures forall k :: 0 <= k < |rows| && rows[k].projectId == projectId ==>
      (PrimarySet(rows, projectId, id)[k].isPrimary <==> rows[k].id == id)
    ensures forall k :: 0 <= k < |rows| ==> PrimarySet(rows, projectId, id)[k].(isPrimary := rows[k].isPrimary) == rows[k]
  {
    PrimarySetRows(rows, projectId, id);
    var r := PrimarySet(rows, projectId, id);
    assert forall k :: 0 <= k < |rows| ==> r[k].id == rows[k].id && r[k].url == rows[k].url && r[k].projectId == rows[k].projectId;
    forall i, j | 0 <= i < j < |r| && r[i].projectId == r[j].projectId && r[i].isPrimary ensures !r[j].isPrimary {
      if r[i].projectId == projectId {
        assert rows[i].id == id;
      }
    }
  }

  /** Row by row, `setPrimaryRepository` decides the project's flags by the id alone. */
  lemma PrimarySetRows(rows: seq<Repository>, projectId: Id, id: Id)
    requires UniqueIds(rows) && FindRepository(rows, id, projectId).Some?
    ensures |PrimarySet(rows, projectId, id)| == |rows|
    ensures forall k :: 0 <= k < |rows| ==>
      (PrimarySet(rows, projectId, id)[k] == rows[k].(isPrimary := if rows[k].projectId == projectId then rows[k].id == id else rows[k].isPrimary))
  {
    var cleared := UnsetPrimaries(rows, projectId, None);
    var r := PrimarySet(rows, projectId, id);
    var k0 :| 0 <= k0 < |rows| && rows[k0].id == id && rows[k0].projectId == projectId;
    forall k | 0 <= k < |rows|
      ensures r[k] == rows[k].(isPrimary := if rows[k].projectId == projectId then rows[k].id == id else rows[k].isPrimary)
    {
      if rows[k].id == id {
        assert k == k0;
        assert r[k] == Apply(cleared[k], UpdateRepositoryDto(None, None, None, Some(true))) == cleared[k].(isPrimary := true);
      } else {
        assert r[k] == cleared[k];
      }
    }
  }

  /** An accepted update keeps the invariants, and a repository promoted to primary is then
      the project's only primary one. */
  lemma UpdateKeeps(rows: seq<Repository>, repo: Repository, dto: UpdateRepositoryDto)
    requires ValidTable(rows) && repo in rows && !KeyClash(rows, repo, dto)
    requires dto.url.Some? && dto.url.value != "" && dto.url.value != repo.url ==> !UrlTaken(rows, repo.projectId, dto.url.value, None)
    ensures ValidTable(EditRow(BeforeEdit(rows, repo, dto), repo.id, dto))
    ensures dto.isPrimary == Some(true) ==>
      forall k :: 0 <= k < |rows| && rows[k].projectId == repo.projectId ==>
        (EditRow(BeforeEdit(rows, repo, dto), repo.id, dto)[k].isPrimary <==> rows[k].id == repo.id)
  {
    var k0 := EditShape(rows, repo, dto);
    var r := EditRow(BeforeEdit(rows, repo, dto), repo.id, dto);
    ShapedKeys(rows, r, k0, repo, dto);
    ShapedPrimary(rows, r, k0, repo, dto);
  }

  /** After an update, row `k0` is the edited repository and every other row keeps its id,
      project and URL; its flag is cleared when the update promotes another repository of
      its project. */
  predicate Shaped(rows: seq<Repository>, r: seq<Repository>, k0: nat, repo: Repository, dto: UpdateRepositoryDto) {
    k0 < |rows| == |r| && r[k0] == Apply(repo, dto)
    && forall k :: 0 <= k < |rows| && k != k0 ==>
      r[k].id == rows[k].id && r[k].projectId == rows[k].projectId && r[k].url == rows[k].url
      && (r[k].isPrimary <==> rows[k].isPrimary && !(Promotes(repo, dto) && rows[k].projectId == repo.projectId))
  }

  lemma EditShape(rows: seq<Repository>, repo: Repository, dto: UpdateRepositoryDto) returns (k0: nat)
    requires ValidTable(rows) && repo in rows
    ensures k0 < |rows| && rows[k0] == repo
    ensures Shaped(rows, EditRow(BeforeEdit(rows, repo, dto), repo.id, dto), k0, repo, dto)
  {
    var before := BeforeEdit(rows, repo, dto);
    UnsetPrimariesKeeps(rows, repo.projectId, Some(repo.id));
    var r := EditRow(before, repo.id, dto);
    k0 :| 0 <= k0 < |rows| && rows[k0] == repo;
    forall k | 0 <= k < |rows| && k != k0 ensures r[k] == before[k] {
      assert rows[k].id != repo.id;
    }
    assert before[k0] == repo;
  }

  /** The edited table keeps ids unique and URLs unique within a project. */
  lemma ShapedKeys(rows: seq<Repository>, r: seq<Repository>, k0: nat, repo: Repository, dto: UpdateRepositoryDto)
    requires ValidTable(rows) && Shaped(rows, r, k0, repo, dto) && rows[k0] == repo && !KeyClash(rows, repo, dto)
    requires dto.url.Some? && dto.url.value != "" && dto.url.value != repo.url ==> !UrlTaken(rows, repo.projectId, dto.url.value, None)
    ensures UniqueIds(r) && UniqueUrls(r)
  {
    forall i, j | 0 <= i < j < |r| ensures r[i].id != r[j].id && (r[i].projectId == r[j].projectId ==> r[i].url != r[j].url) {
      if i == k0 || j == k0 {
        var o := if i == k0 then j else i;
        assert rows[o].id != repo.id;
      }
    }
  }

  /** The edited table keeps at most one primary repository per project, and a promoted
      repository is its project's only one. */
  lemma ShapedPrimary(rows: seq<Repository>, r: seq<Repository>, k0: nat, repo: Repository, dto: UpdateRepositoryDto)
    requires ValidTable(rows) && Shaped(rows, r, k0, repo, dto) && rows[k0] == repo
    ensures AtMostOnePrimary(r)
    ensures dto.isPrimary == Some(true) ==>
      forall k :: 0 <= k < |rows| && rows[k].projectId == repo.projectId ==> (r[k].isPrimary <==> rows[k].id == repo.id)
  {
    forall k | 0 <= k < |rows| && k != k0 ensures rows[k].id != repo.id {
    }
  }

  /** A row that clashes with nothing after it heads a valid table. */
  lemma ConsValid(h: Repository, rest: seq<Repository>)
    requires ValidTable(rest)
    requires forall x :: x in rest ==> x.id != h.id && (x.projectId == h.projectId ==> x.url != h.url && !(x.isPrimary && h.isPrimary))
    ensures ValidTable([h] + rest)
  {
    var r := [h] + rest;
    forall i, j | 0 <= i < j < |r|
      ensures r[i].id != r[j].id && (r[i].projectId == r[j].projectId ==> r[i].url != r[j].url && !(r[i].isPrimary && r[j].isPrimary))
    {
      if i == 0 {
        assert r[j] in rest;
      } else {
        assert r[i] == rest[i - 1] && r[j] == rest[j - 1];
      }
    }
  }

  /** Deleting a row keeps the invariants. */
  lemma {:induction false} DropKeeps(rows: seq<Repository>, id: Id)
    requires ValidTable(rows)
    ensures ValidTable(DropRepository(rows, id))
  {
    if rows != [] {
      assert ValidTable(rows[1..]);
      DropKeeps(rows[1..], id);
      var rest := DropRepository(rows[1..], id);
      forall x | x in rest ensures x.id != rows[0].id && (x.projectId == rows[0].projectId ==> x.url != rows[0].url && !(x.isPrimary && rows[0].isPrimary)) {
        var j :| 0 <= j < |rows[1..]| && rows[1..][j] == x;
        assert rows[j + 1] == x;
      }
      if rows[0].id != id {
        ConsValid(rows[0], rest);
      }
    }
  }

  // ---------------------------------------------------------------------------------
  // The service

  class RepositoryService {
    const projects: map<Id, Project>
    var repositories: seq<Repository>

    predicate Valid()
      reads this
    {
      ValidTable(repositories)
    }

    constructor(projects0: map<Id, Project>, repositories0: seq<Repository>)
      requires ValidTable(repositories0)
      ensures Valid() && projects == projects0 && repositories == repositories0
    {
      projects := projects0;
      repositories := repositories0;
    }

    /** `createRepository`; `id` is the id the database assigns. */
    method CreateRepository(projectId: Id, dto: CreateRepositoryDto, userId: Id, id: Id) returns (r: Result<Repository, Failure>)
      requires Valid() && !HasId(repositories, id)
      modifies this
      ensures Valid()
      ensures r.Err? <==> CreateCheck(projects, old(repositories), projectId, dto, userId).Some?
      ensures r.Err? ==> r.error == CreateCheck(projects, old(repositories), projectId, dto, userId).value && unchanged(this)
      ensures r.Ok? ==> r.value == NewRepository(id, projectId, dto) && repositories == Created(old(repositories), r.value)
    {
      var check := CreateCheck(projects, repositories, projectId, dto, userId);
      if check.Some? {
        return Err(check.value);
      }
      var repo := NewRepository(id, projectId, dto);
      CreatedKeeps(repositories, repo);
      repositories := Created(repositories, repo);
      r := Ok(repo);
    }

    /** `getProjectRepositories`. */
    method GetProjectRepositories(projectId: Id, userId: Id) returns (r: Result<seq<Repository>, Failure>)
      ensures r.Err? <==> VerifyAccess(projects, projectId, userId).Err?
      ensures r.Ok? ==> multiset(r.value) == multiset(OfProject(repositories, projectId))
      ensures r.Ok? ==> forall i, j :: 0 <= i < j < |r.value| && r.value[j].isPrimary ==> r.value[i].isPrimary
    {
      var access := VerifyAccess(projects, projectId, userId);
      if access.Err? {
        return Err(access.error);
      }
      ListingIsOrdered(repositories, projectId);
      r := Ok(Listing(repositories, projectId));
    }

    /** `getRepositoryById`. */
    method GetRepositoryById(projectId: Id, id: Id, userId: Id) returns (r: Result<Repository, Failure>)
      ensures r.Ok? <==> VerifyAccess(projects, projectId, userId).Ok? && FindRepository(repositories, id, projectId).Some?
      ensures r.Ok? ==> r.value in repositories && r.value.id == id && r.value.projectId == projectId
    {
      var access := VerifyAccess(projects, projectId, userId);
      if access.Err? {
        return Err(access.error);
      }
      var found := FindRepository(repositories, id, projectId);
      if found.None? {
        return Err(NotFound("repository"));
      }
      r := Ok(found.value);
    }

    /** `updateRepository`. The other primaries are unset before the row is written, so a
        write the URL key refuses leaves them unset. */
    method UpdateRepository(projectId: Id, id: Id, dto: UpdateRepositoryDto, userId: Id) returns (r: Result<Repository, Failure>)
      requires Valid()
      modifies this
      ensures Valid()
      ensures r.Ok? <==> (UpdateCheck(projects, old(repositories), projectId, id, dto, userId).Ok?
        && !KeyClash(old(repositories), UpdateCheck(projects, old(repositories), projectId, id, dto, userId).value, dto))
      ensures UpdateCheck(projects, old(repositories), projectId, id, dto, userId).Err? ==> unchanged(this)
      ensures r.Ok? ==>
        var repo := UpdateCheck(projects, old(repositories), projectId, id, dto, userId).value;
        r.value == Apply(repo, dto) && repositories == EditRow(BeforeEdit(old(repositories), repo, dto), id, dto)
    {
      var check := UpdateCheck(projects, repositories, projectId, id, dto, userId);
      if check.Err? {
        return Err(check.error);
      }
      var repo := check.value;
      if KeyClash(repositories, repo, dto) {
        UnsetPrimariesKeeps(repositories, projectId, Some(id));
        repositories := BeforeEdit(repositories, repo, dto);
        return Err(Conflict("unique constraint on (projectId, url)"));
      }
      UpdateKeeps(repositories, repo, dto);
      repositories := EditRow(BeforeEdit(repositories, repo, dto), id, dto);
      r := Ok(Apply(repo, dto));
    }

    /** `deleteRepository`. */
    method DeleteRepository(projectId: Id, id: Id, userId: Id) returns (r: Result<(), Failure>)
      requires Valid()
      modifies this
      ensures Valid()
      ensures r.Err? <==> TargetCheck(projects, old(repositories), projectId, id, userId).Err?
      ensures r.Err? ==> unchanged(this)
      ensures r.Ok? ==> repositories == DropRepository(old(repositories), id)
    {
      var check := TargetCheck(projects, repositories, projectId, id, userId);
      if check.Err? {
        return Err(check.error);
      }
      DropKeeps(repositories, id);
      repositories := DropRepository(repositories, id);
      r := Ok(());
    }

    /** `setPrimaryRepository`. */
    method SetPrimaryRepository(projectId: Id, id: Id, userId: Id) returns (r: Result<Repository, Failure>)
      requires Valid()
      modifies this
      ensures Valid()
      ensures r.Err? <==> TargetCheck(projects, old(repositories), projectId, id, userId).Err?
      ensures r.Err? ==> unchanged(this)
      ensures r.Ok? ==> repositories == PrimarySet(old(repositories), projectId, id)
      ensures r.Ok? ==> r.value.id == id && r.value.isPrimary
      ensures r.Ok? ==> forall x :: x in repositories && x.projectId == projectId && x.isPrimary ==> x.id == id
    {
      var check := TargetCheck(projects, repositories, projectId, id, userId);
      if check.Err? {
        return Err(check.error);
      }
      PrimarySetKeeps(repositories, projectId, id);
      var old0 := repositories;
      repositories := PrimarySet(repositories, projectId, id);
      forall x | x in repositories && x.projectId == projectId && x.isPrimary ensures x.id == id {
        var k :| 0 <= k < |repositories| && repositories[k] == x;
        assert repositories[k].(isPrimary := old0[k].isPrimary) == old0[k];
      }
      r := Ok(check.value.(isPrimary := true));
    }
  }
}
