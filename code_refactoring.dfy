/** Refactoring suggestions of a repository: imported in batches from static-analysis tools
    (a batch never stores the same open finding twice), triaged by the developers, and
    summarised per sprint. Timestamps are integers. */
module CodeRefactoring {
  import opened Wrappers
  import opened Scrum
  import opened Backlog

  datatype Severity = HIGH | MEDIUM | LOW

  datatype RefactoringStatus = PENDING | RESOLVED | IGNORED

  /** A row of the suggestion table. */
  datatype Suggestion = Suggestion(
    id: Id,
    repositoryId: Id,
    filePath: string,
    description: string,
    severity: Severity,
    tool: Option<string>,
    lineNumber: Option<int>,
    category: Option<string>,
    sprintId: Option<Id>,
    status: RefactoringStatus,
    resolvedById: Option<Id>,
    resolvedAt: Option<int>,
    createdAt: int)

  /** One finding of a batch, or the body of `createRefactoringSuggestion`. */
  datatype CreateRefactoringDto = CreateRefactoringDto(
    filePath: string,
    description: string,
    severity: Severity,
    tool: Option<string>,
    lineNumber: Option<int>,
    category: Option<string>,
    sprintId: Option<Id>)

  /** The body of `updateRefactoringSuggestion`. */
  datatype UpdateRefactoringDto = UpdateRefactoringDto(status: Option<RefactoringStatus>)

  /** What an import answers; `duplicates` counts the findings that were already open. */
  datatype ImportReport = ImportReport(imported: nat, total: nat, duplicates: int, suggestions: seq<Suggestion>)

  datatype SeverityCounts = SeverityCounts(high: nat, medium: nat, low: nat)

  /** What `getSprintRefactoringSummary` answers. */
  datatype Summary = Summary(
    sprintId: Id,
    total: nat,
    resolved: nat,
    pending: nat,
    ignored: nat,
    percentageResolved: real,
    bySeverity: SeverityCounts)

  // ---------------------------------------------------------------------------------
  // Table invariants

  predicate UniqueIds(rows: seq<Suggestion>) {
    forall i, j :: 0 <= i < j < |rows| ==> rows[i].id != rows[j].id
  }

  predicate IdUsed(rows: seq<Suggestion>, id: Id) {
    exists k :: 0 <= k < |rows| && rows[k].id == id
  }

  /** A resolved suggestion records who resolved it and when. */
  predicate ResolutionsStamped(rows: seq<Suggestion>) {
    forall k :: 0 <= k < |rows| && rows[k].status == RESOLVED ==> rows[k].resolvedById.Some? && rows[k].resolvedAt.Some?
  }

  predicate ValidTable(rows: seq<Suggestion>) {
    UniqueIds(rows) && ResolutionsStamped(rows)
  }

  /** Ids the database may hand to new rows, one per position of a batch: distinct and unused. */
  predicate FreshIds(rows: seq<Suggestion>, ids: seq<Id>) {
    (forall i, j :: 0 <= i < j < |ids| ==> ids[i] != ids[j]) && forall k :: 0 <= k < |ids| ==> !IdUsed(rows, ids[k])
  }

  function SuggestionById(rows: seq<Suggestion>, id: Id): (r: Option<Suggestion>)
    ensures r.Some? <==> IdUsed(rows, id)
    ensures r.Some? ==> r.value in rows && r.value.id == id
  {
    if rows == [] then None
    else if rows[0].id == id then Some(rows[0])
    else SuggestionById(rows[1..], id)
  }

  // ---------------------------------------------------------------------------------
  // Access

  /** `verifyRepositoryAccess`: a missing repository is NotFound, then the read-access rule of
      the repository's project applies; the caller's team role is handed back.
      `repositories` maps each repository to its project. */
  function RepositoryAccess(projects: map<Id, Project>, repositories: map<Id, Id>, repositoryId: Id, userId: Id): (r: Result<Access, Failure>)
    ensures repositoryId !in repositories ==> r.Err? && r.error.NotFound?
    ensures r.Ok? <==> repositoryId in repositories && VerifyAccess(projects, repositories[repositoryId], userId).Ok?
    ensures r.Ok? ==> r == VerifyAccess(projects, repositories[repositoryId], userId)
  {
    if repositoryId !in repositories then Err(NotFound("repository"))
    else VerifyAccess(projects, repositories[repositoryId], userId)
  }

  /** The checks of a status change, in order: the suggestion exists, its repository may be
      read, and the caller is an active DEVELOPER or the owner. */
  function UpdateCheck(projects: map<Id, Project>, repositories: map<Id, Id>, rows: seq<Suggestion>, suggestionId: Id, userId: Id): (r: Result<Suggestion, Failure>)
    ensures SuggestionById(rows, suggestionId).None? ==> r.Err? && r.error.NotFound?
    ensures r.Ok? <==> (SuggestionById(rows, suggestionId).Some?
      && RepositoryAccess(projects, repositories, SuggestionById(rows, suggestionId).value.repositoryId, userId).Ok?
      && IsDeveloperOrOwner(projects[repositories[SuggestionById(rows, suggestionId).value.repositoryId]], userId))
    ensures r.Ok? ==> r.value == SuggestionById(rows, suggestionId).value
  {
    var s := SuggestionById(rows, suggestionId);
    if s.None? then Err(NotFound("refactoring suggestion"))
    else
      var access := RepositoryAccess(projects, repositories, s.value.repositoryId, userId);
      if access.Err? then Err(access.error)
      else if access.value.role != Some(DEVELOPER) && !access.value.isOwner then
        Err(Forbidden("only developers may change the status of a suggestion"))
      else Ok(s.value)
  }

  /** A member that passes the read-access rule but is not a developer (a Scrum Master or a
      Product Owner who does not own the project) may look at suggestions but not triage them. */
  lemma ManagersOnlyRead(projects: map<Id, Project>, repositories: map<Id, Id>, rows: seq<Suggestion>, suggestionId: Id, userId: Id)
    requires SuggestionById(rows, suggestionId).Some?
    requires SuggestionById(rows, suggestionId).value.repositoryId in repositories
    requires repositories[SuggestionById(rows, suggestionId).value.repositoryId] in projects
    requires projects[repositories[SuggestionById(rows, suggestionId).value.repositoryId]].ownerId != userId
    requires ActiveRole(projects[repositories[SuggestionById(rows, suggestionId).value.repositoryId]], userId) in {Some(SCRUM_MASTER), Some(PRODUCT_OWNER)}
    ensures RepositoryAccess(projects, repositories, SuggestionById(rows, suggestionId).value.repositoryId, userId).Ok?
    ensures UpdateCheck(projects, repositories, rows, suggestionId, userId).Err?
    ensures UpdateCheck(projects, repositories, rows, suggestionId, userId).error.Forbidden?
  {
  }

  // ---------------------------------------------------------------------------------
  // Rows

  /** `create({ data: { repositoryId, ...dto, sprintId } })`: a new suggestion is PENDING. */
  function NewSuggestion(id: Id, repositoryId: Id, dto: CreateRefactoringDto, sprintId: Option<Id>, now: int): (s: Suggestion)
    ensures s.id == id && s.repositoryId == repositoryId && s.sprintId == sprintId
    ensures s.status == PENDING && s.resolvedById.None? && s.resolvedAt.None?
    ensures s.filePath == dto.filePath && s.description == dto.description && s.severity == dto.severity
  {
    Suggestion(id, repositoryId, dto.filePath, dto.description, dto.severity, dto.tool, dto.lineNumber,
      dto.category, sprintId, PENDING, None, None, now)
  }

  /** `sprintId || dto.sprintId`: the batch's sprint, when given and non-empty, overrides each
      finding's; an absent or empty batch sprint falls back to the finding's own. */
  function BatchSprint(batch: Option<Id>, dto: CreateRefactoringDto): (r: Option<Id>)
    ensures batch.Some? && batch.value != "" ==> r == batch
    ensures batch.None? || batch.value == "" ==> r == dto.sprintId
  {
    if batch.Some? && batch.value != "" then batch else dto.sprintId
  }

  /** The status change: a resolution also stamps the resolver and the time; any other
      status (or none) leaves the stamps as they were. */
  function Applied(s: Suggestion, dto: UpdateRefactoringDto, userId: Id, now: int): (r: Suggestion)
    ensures r.(status := s.status, resolvedById := s.resolvedById, resolvedAt := s.resolvedAt) == s
    ensures r.status == dto.status.GetOr(s.status)
    ensures dto.status == Some(RESOLVED) ==> r.resolvedById == Some(userId) && r.resolvedAt == Some(now)
    ensures dto.status != Some(RESOLVED) ==> r.resolvedById == s.resolvedById && r.resolvedAt == s.resolvedAt
  {
    if dto.status == Some(RESOLVED) then s.(status := RESOLVED, resolvedById := Some(userId), resolvedAt := Some(now))
    else s.(status := dto.status.GetOr(s.status))
  }

  function ReplaceSuggestion(rows: seq<Suggestion>, id: Id, dto: UpdateRefactoringDto, userId: Id, now: int): (r: seq<Suggestion>)
    ensures |r| == |rows|
    ensures forall k :: 0 <= k < |rows| ==> r[k] == if rows[k].id == id then Applied(rows[k], dto, userId, now) else rows[k]
  {
    seq(|rows|, k requires 0 <= k < |rows| => if rows[k].id == id then Applied(rows[k], dto, userId, now) else rows[k])
  }

  /** A status change keeps every resolved suggestion stamped, and touches nothing but the
      status and the stamps. */
  lemma AppliedKeeps(s: Suggestion, dto: UpdateRefactoringDto, userId: Id, now: int)
    requires s.status == RESOLVED ==> s.resolvedById.Some? && s.resolvedAt.Some?
    ensures Applied(s, dto, userId, now).status == RESOLVED ==> Applied(s, dto, userId, now).resolvedById.Some? && Applied(s, dto, userId, now).resolvedAt.Some?
    ensures Applied(s, dto, userId, now).status == dto.status.GetOr(s.status)
    ensures Applied(s, dto, userId, now).(status := s.status, resolvedById := s.resolvedById, resolvedAt := s.resolvedAt) == s
  {
  }

  // ---------------------------------------------------------------------------------
  // Import

  /** How the duplicate lookup reads a finding's line. */
  datatype Lookup =
    /** `lineNumber: dto.lineNumber || null`: line 0 is looked up as "no line". */
    | AsWritten
    /** The line as it is stored. */
    | Exact

  function SearchedLine(d: CreateRefactoringDto, lookup: Lookup): (r: Option<int>)
    ensures lookup.Exact? ==> r == d.lineNumber
    ensures lookup.AsWritten? ==> (r.None? <==> d.lineNumber.None? || d.lineNumber == Some(0))
  {
    if lookup.AsWritten? && d.lineNumber == Some(0) then None else d.lineNumber
  }

  /** The row `findFirst` looks for: an open suggestion of the repository for the same file,
      line and description. */
  predicate SameOpenFinding(s: Suggestion, repositoryId: Id, d: CreateRefactoringDto, lookup: Lookup) {
    s.repositoryId == repositoryId && s.filePath == d.filePath && s.lineNumber == SearchedLine(d, lookup)
    && s.description == d.description && s.status == PENDING
  }

  predicate IsOpen(rows: seq<Suggestion>, repositoryId: Id, d: CreateRefactoringDto, lookup: Lookup) {
    exists k :: 0 <= k < |rows| && SameOpenFinding(rows[k], repositoryId, d, lookup)
  }

  /** The rows an import of `dtos` creates, finding by finding: a finding already open in the
      table (or opened by an earlier finding of the batch) is skipped, any other is created
      with the id of its position. */
  function Imported(rows: seq<Suggestion>, repositoryId: Id, dtos: seq<CreateRefactoringDto>, batch: Option<Id>, ids: seq<Id>, now: int, lookup: Lookup): (r: seq<Suggestion>)
    requires |ids| >= |dtos|
    ensures |r| <= |dtos|
    decreases |dtos|
  {
    if dtos == [] then []
    else
      var n := |dtos| - 1;
      var prev := Imported(rows, repositoryId, dtos[..n], batch, ids, now, lookup);
      if IsOpen(rows + prev, repositoryId, dtos[n], lookup) then prev
      else prev + [NewSuggestion(ids[n], repositoryId, dtos[n], BatchSprint(batch, dtos[n]), now)]
  }

  /** `importRefactoringSuggestions`' loop, over the table as it stands before the import;
      it returns the rows it created, in order. */
  method ImportBatch(rows: seq<Suggestion>, repositoryId: Id, dtos: seq<CreateRefactoringDto>, batch: Option<Id>, ids: seq<Id>, now: int)
    returns (created: seq<Suggestion>)
    requires |ids| >= |dtos|
    ensures created == Imported(rows, repositoryId, dtos, batch, ids, now, Exact)
  {
    created := [];
    for k := 0 to |dtos|
      invariant created == Imported(rows, repositoryId, dtos[..k], batch, ids, now, Exact)
    {
      assert dtos[..k + 1][..k] == dtos[..k];
      if !IsOpen(rows + created, repositoryId, dtos[k], Exact) {
        created := created + [NewSuggestion(ids[k], repositoryId, dtos[k], BatchSprint(batch, dtos[k]), now)];
      }
    }
    assert dtos[..|dtos|] == dtos;
  }

  /** Every created row is a new PENDING suggestion of the repository, for a finding of the
      batch at a position with its id, and filed under the batch's sprint when one is given. */
  lemma {:induction false} ImportedRows(rows: seq<Suggestion>, repositoryId: Id, dtos: seq<CreateRefactoringDto>, batch: Option<Id>, ids: seq<Id>, now: int, lookup: Lookup)
    requires |ids| >= |dtos|
    ensures forall s :: s in Imported(rows, repositoryId, dtos, batch, ids, now, lookup) ==>
      exists k :: 0 <= k < |dtos| && s == NewSuggestion(ids[k], repositoryId, dtos[k], BatchSprint(batch, dtos[k]), now)
    decreases |dtos|
  {
    if dtos != [] {
      var n := |dtos| - 1;
      ImportedRows(rows, repositoryId, dtos[..n], batch, ids, now, lookup);
      forall s | s in Imported(rows, repositoryId, dtos[..n], batch, ids, now, lookup)
        ensures exists k :: 0 <= k < |dtos| && s == NewSuggestion(ids[k], repositoryId, dtos[k], BatchSprint(batch, dtos[k]), now)
      {
        var k :| 0 <= k < n && s == NewSuggestion(ids[k], repositoryId, dtos[..n][k], BatchSprint(batch, dtos[..n][k]), now);
        assert dtos[..n][k] == dtos[k];
      }
    }
  }

  /** After an exact import every finding of the batch is open in the table. */
  lemma {:induction false} ImportedCovers(rows: seq<Suggestion>, repositoryId: Id, dtos: seq<CreateRefactoringDto>, batch: Option<Id>, ids: seq<Id>, now: int)
    requires |ids| >= |dtos|
    ensures forall k :: 0 <= k < |dtos| ==> IsOpen(rows + Imported(rows, repositoryId, dtos, batch, ids, now, Exact), repositoryId, dtos[k], Exact)
    decreases |dtos|
  {
    if dtos != [] {
      var n := |dtos| - 1;
      var prev := Imported(rows, repositoryId, dtos[..n], batch, ids, now, Exact);
      var all := rows + Imported(rows, repositoryId, dtos, batch, ids, now, Exact);
      ImportedCovers(rows, repositoryId, dtos[..n], batch, ids, now);
      assert (rows + prev) <= all;
      forall k | 0 <= k < |dtos| ensures IsOpen(all, repositoryId, dtos[k], Exact) {
        if k < n {
          assert dtos[..n][k] == dtos[k];
          OpenInLonger(rows + prev, all, repositoryId, dtos[k]);
        } else if IsOpen(rows + prev, repositoryId, dtos[n], Exact) {
          OpenInLonger(rows + prev, all, repositoryId, dtos[n]);
        } else {
          var row := NewSuggestion(ids[n], repositoryId, dtos[n], BatchSprint(batch, dtos[n]), now);
          assert all[|all| - 1] == row;
          assert SameOpenFinding(row, repositoryId, dtos[n], Exact);
        }
      }
    }
  }

  lemma OpenInLonger(short: seq<Suggestion>, long: seq<Suggestion>, repositoryId: Id, d: CreateRefactoringDto)
    requires short <= long && IsOpen(short, repositoryId, d, Exact)
    ensures IsOpen(long, repositoryId, d, Exact)
  {
    var k :| 0 <= k < |short| && SameOpenFinding(short[k], repositoryId, d, Exact);
    assert long[k] == short[k];
  }

  /** A batch whose every finding is already open creates nothing. */
  lemma {:induction false} NothingNewImportsNothing(rows: seq<Suggestion>, repositoryId: Id, dtos: seq<CreateRefactoringDto>, batch: Option<Id>, ids: seq<Id>, now: int, lookup: Lookup)
    requires |ids| >= |dtos|
    requires forall k :: 0 <= k < |dtos| ==> IsOpen(rows, repositoryId, dtos[k], lookup)
    ensures Imported(rows, repositoryId, dtos, batch, ids, now, lookup) == []
    decreases |dtos|
  {
    if dtos != [] {
      var n := |dtos| - 1;
      forall k | 0 <= k < n ensures IsOpen(rows, repositoryId, dtos[..n][k], lookup) {
        assert dtos[..n][k] == dtos[k];
      }
      NothingNewImportsNothing(rows, repositoryId, dtos[..n], batch, ids, now, lookup);
      assert rows + [] == rows;
    }
  }

  /** Importing the same batch again creates nothing: every finding is counted as a duplicate
      the second time. */
  lemma ReimportIsIdempotent(rows: seq<Suggestion>, repositoryId: Id, dtos: seq<CreateRefactoringDto>, batch: Option<Id>, ids: seq<Id>, ids2: seq<Id>, now: int, now2: int)
    requires |ids| >= |dtos| && |ids2| >= |dtos|
    ensures Imported(rows + Imported(rows, repositoryId, dtos, batch, ids, now, Exact), repositoryId, dtos, batch, ids2, now2, Exact) == []
  {
    ImportedCovers(rows, repositoryId, dtos, batch, ids, now);
    NothingNewImportsNothing(rows + Imported(rows, repositoryId, dtos, batch, ids, now, Exact), repositoryId, dtos, batch, ids2, now2, Exact);
  }

  /** A finding on line 0, as the lookup is written: it is stored with line 0 but looked up
      with no line, so importing it twice stores it twice. */
  lemma LineZeroImportedTwiceAsWritten()
    ensures var d := CreateRefactoringDto("src/app.ts", "long method", Severity.MEDIUM, None, Some(0), None, None);
      var first := Imported([], "repo", [d], None, ["s1"], 0, AsWritten);
      |first| == 1 && |Imported(first, "repo", [d], None, ["s2"], 1, AsWritten)| == 1
  {
    var d := CreateRefactoringDto("src/app.ts", "long method", Severity.MEDIUM, None, Some(0), None, None);
    assert [d][..0] == [];
    var first := Imported([], "repo", [d], None, ["s1"], 0, AsWritten);
    assert !IsOpen([], "repo", d, AsWritten);
    assert first == [NewSuggestion("s1", "repo", d, None, 0)];
    assert !SameOpenFinding(first[0], "repo", d, AsWritten);
    assert !IsOpen(first + [], "repo", d, AsWritten);
  }

  // ---------------------------------------------------------------------------------
  // Sprint views

  predicate PendingIn(s: Suggestion, sprintId: Id) {
    s.sprintId == Some(sprintId) && s.status == PENDING
  }

  /** The open suggestions of a sprint, in table order. */
  function PendingOf(rows: seq<Suggestion>, sprintId: Id): (r: seq<Suggestion>)
    ensures forall s :: s in r <==> s in rows && PendingIn(s, sprintId)
  {
    if rows == [] then []
    else (if PendingIn(rows[0], sprintId) then [rows[0]] else []) + PendingOf(rows[1..], sprintId)
  }

  /** `count({ where: { sprintId, status } })`; `status == None` counts every status. */
  function CountStatus(rows: seq<Suggestion>, sprintId: Id, status: Option<RefactoringStatus>): (r: nat)
    ensures r <= |rows|
  {
    if rows == [] then 0
    else
      (if rows[0].sprintId == Some(sprintId) && (status.None? || rows[0].status == status.value) then 1 else 0)
      + CountStatus(rows[1..], sprintId, status)
  }

  /** `count({ where: { sprintId, severity } })`. */
  function CountSeverity(rows: seq<Suggestion>, sprintId: Id, severity: Severity): (r: nat)
    ensures r <= |rows|
  {
    if rows == [] then 0
    else (if rows[0].sprintId == Some(sprintId) && rows[0].severity == severity then 1 else 0) + CountSeverity(rows[1..], sprintId, severity)
  }

  /** `total > 0 ? resolved / total * 100 : 0`. */
  function Percentage(part: nat, total: nat): (r: real)
    ensures total == 0 ==> r == 0.0
    ensures part <= total ==> 0.0 <= r <= 100.0
    ensures total > 0 ==> (r == 100.0 <==> part == total)
  {
    if total > 0 then (part as real / total as real) * 100.0 else 0.0
  }

  function SummaryOf(rows: seq<Suggestion>, sprintId: Id): Summary {
    var total := CountStatus(rows, sprintId, None);
    var resolved := CountStatus(rows, sprintId, Some(RESOLVED));
    Summary(sprintId, total, resolved, CountStatus(rows, sprintId, Some(PENDING)), CountStatus(rows, sprintId, Some(IGNORED)),
      Percentage(resolved, total),
      SeverityCounts(CountSeverity(rows, sprintId, Severity.HIGH), CountSeverity(rows, sprintId, Severity.MEDIUM), CountSeverity(rows, sprintId, Severity.LOW)))
  }

  /** The counts of a summary partition its total, by status and by severity, and the
      percentage is between 0 and 100. */
  lemma {:induction false} SummaryPartitions(rows: seq<Suggestion>, sprintId: Id)
    ensures SummaryOf(rows, sprintId).resolved + SummaryOf(rows, sprintId).pending + SummaryOf(rows, sprintId).ignored == SummaryOf(rows, sprintId).total
    ensures SummaryOf(rows, sprintId).bySeverity.high + SummaryOf(rows, sprintId).bySeverity.medium + SummaryOf(rows, sprintId).bySeverity.low
      == SummaryOf(rows, sprintId).total
    ensures 0.0 <= SummaryOf(rows, sprintId).percentageResolved <= 100.0
  {
    StatusPartition(rows, sprintId);
    SeverityPartition(rows, sprintId);
  }

  lemma {:induction false} StatusPartition(rows: seq<Suggestion>, sprintId: Id)
    ensures CountStatus(rows, sprintId, Some(RESOLVED)) + CountStatus(rows, sprintId, Some(PENDING)) + CountStatus(rows, sprintId, Some(IGNORED))
      == CountStatus(rows, sprintId, None)
  {
    if rows != [] {
      StatusPartition(rows[1..], sprintId);
    }
  }

  lemma {:induction false} SeverityPartition(rows: seq<Suggestion>, sprintId: Id)
    ensures CountSeverity(rows, sprintId, Severity.HIGH) + CountSeverity(rows, sprintId, Severity.MEDIUM) + CountSeverity(rows, sprintId, Severity.LOW)
      == CountStatus(rows, sprintId, None)
  {
    if rows != [] {
      SeverityPartition(rows[1..], sprintId);
    }
  }

  // ---------------------------------------------------------------------------------
  // The service

  class CodeRefactoringService {
    const projects: map<Id, Project>
    /** Each repository's project. */
    const repositories: map<Id, Id>
    const sprints: seq<Sprint>
    var suggestions: seq<Suggestion>

    predicate Valid()
      reads this
    {
      ValidTable(suggestions)
    }

    constructor(projects0: map<Id, Project>, repositories0: map<Id, Id>, sprints0: seq<Sprint>, suggestions0: seq<Suggestion>)
      requires ValidTable(suggestions0)
      ensures Valid() && projects == projects0 && repositories == repositories0 && sprints == sprints0 && suggestions == suggestions0
    {
      projects := projects0;
      repositories := repositories0;
      sprints := sprints0;
      suggestions := suggestions0;
    }

    /** `importRefactoringSuggestions`: creates the findings not already open and reports
        imported + duplicates = total. */
    method ImportRefactoringSuggestions(repositoryId: Id, dtos: seq<CreateRefactoringDto>, batch: Option<Id>, userId: Id, ids: seq<Id>, now: int)
      returns (r: Result<ImportReport, Failure>)
      requires Valid() && FreshIds(suggestions, ids) && |ids| >= |dtos|
      modifies this
      ensures Valid()
      ensures r.Err? <==> RepositoryAccess(projects, repositories, repositoryId, userId).Err?
      ensures r.Err? ==> r.error == RepositoryAccess(projects, repositories, repositoryId, userId).error && unchanged(this)
      ensures r.Ok? ==> r.value.suggestions == Imported(old(suggestions), repositoryId, dtos, batch, ids, now, Exact)
      ensures r.Ok? ==> suggestions == old(suggestions) + r.value.suggestions
      ensures r.Ok? ==> r.value.imported == |r.value.suggestions| && r.value.total == |dtos|
      ensures r.Ok? ==> r.value.imported + r.value.duplicates == r.value.total && 0 <= r.value.duplicates
      ensures r.Ok? ==> forall k :: 0 <= k < |dtos| ==> IsOpen(suggestions, repositoryId, dtos[k], Exact)
    {
      var access := RepositoryAccess(projects, repositories, repositoryId, userId);
      if access.Err? {
        return Err(access.error);
      }
      var created := ImportBatch(suggestions, repositoryId, dtos, batch, ids, now);
      ImportedRows(suggestions, repositoryId, dtos, batch, ids, now, Exact);
      ImportedCovers(suggestions, repositoryId, dtos, batch, ids, now);
      ImportKeeps(suggestions, created, repositoryId, dtos, batch, ids, now);
      suggestions := suggestions + created;
      r := Ok(ImportReport(|created|, |dtos|, |dtos| - |created|, created));
    }

    /** `createRefactoringSuggestion`: one finding, no duplicate check, with its own sprint. */
    method CreateRefactoringSuggestion(repositoryId: Id, dto: CreateRefactoringDto, userId: Id, id: Id, now: int)
      returns (r: Result<Suggestion, Failure>)
      requires Valid() && !IdUsed(suggestions, id)
      modifies this
      ensures Valid()
      ensures r.Err? <==> RepositoryAccess(projects, repositories, repositoryId, userId).Err?
      ensures r.Err? ==> r.error == RepositoryAccess(projects, repositories, repositoryId, userId).error && unchanged(this)
      ensures r.Ok? ==> r.value == NewSuggestion(id, repositoryId, dto, dto.sprintId, now) && suggestions == old(suggestions) + [r.value]
    {
      var access := RepositoryAccess(projects, repositories, repositoryId, userId);
      if access.Err? {
        return Err(access.error);
      }
      var row := NewSuggestion(id, repositoryId, dto, dto.sprintId, now);
      suggestions := suggestions + [row];
      r := Ok(row);
    }

    /** `getRepositorySuggestions`. */
    method GetRepositorySuggestions(repositoryId: Id, userId: Id) returns (r: Result<seq<Suggestion>, Failure>)
      ensures r.Err? <==> RepositoryAccess(projects, repositories, repositoryId, userId).Err?
      ensures r.Ok? ==> forall s :: s in r.value <==> s in suggestions && s.repositoryId == repositoryId
    {
      var access := RepositoryAccess(projects, repositories, repositoryId, userId);
      if access.Err? {
        return Err(access.error);
      }
      r := Ok(OfRepository(suggestions, repositoryId));
    }

    /** `updateRefactoringSuggestion`. */
    method UpdateRefactoringSuggestion(suggestionId: Id, dto: UpdateRefactoringDto, userId: Id, now: int)
      returns (r: Result<Suggestion, Failure>)
      requires Valid()
      modifies this
      ensures Valid()
      ensures r.Ok? <==> UpdateCheck(projects, repositories, old(suggestions), suggestionId, userId).Ok?
      ensures r.Err? ==> r.error == UpdateCheck(projects, repositories, old(suggestions), suggestionId, userId).error && unchanged(this)
      ensures r.Ok? ==> r.value == Applied(SuggestionById(old(suggestions), suggestionId).value, dto, userId, now)
      ensures r.Ok? ==> suggestions == ReplaceSuggestion(old(suggestions), suggestionId, dto, userId, now)
      ensures r.Ok? && dto.status == Some(RESOLVED) ==> r.value.resolvedById == Some(userId) && r.value.resolvedAt == Some(now)
    {
      var check := UpdateCheck(projects, repositories, suggestions, suggestionId, userId);
      if check.Err? {
        return Err(check.error);
      }
      var rows := ReplaceSuggestion(suggestions, suggestionId, dto, userId, now);
      forall k | 0 <= k < |suggestions| ensures rows[k].id == suggestions[k].id {
        AppliedKeeps(suggestions[k], dto, userId, now);
      }
      forall k | 0 <= k < |rows| && rows[k].status == RESOLVED ensures rows[k].resolvedById.Some? && rows[k].resolvedAt.Some? {
        AppliedKeeps(suggestions[k], dto, userId, now);
      }
      suggestions := rows;
      r := Ok(Applied(check.value, dto, userId, now));
    }

    /** `getSprintPendingSuggestions`. */
    method GetSprintPendingSuggestions(sprintId: Id, userId: Id) returns (r: Result<seq<Suggestion>, Failure>)
      ensures r.Err? <==> SprintAccess(projects, sprints, sprintId, userId).Err?
      ensures r.Err? ==> r.error == SprintAccess(projects, sprints, sprintId, userId).error
      ensures r.Ok? ==> forall s :: s in r.value <==> s in suggestions && s.sprintId == Some(sprintId) && s.status == PENDING
    {
      var access := SprintAccess(projects, sprints, sprintId, userId);
      if access.Err? {
        return Err(access.error);
      }
      r := Ok(PendingOf(suggestions, sprintId));
    }

    /** `getSprintRefactoringSummary`. */
    method GetSprintRefactoringSummary(sprintId: Id, userId: Id) returns (r: Result<Summary, Failure>)
      ensures r.Err? <==> SprintAccess(projects, sprints, sprintId, userId).Err?
      ensures r.Err? ==> r.error == SprintAccess(projects, sprints, sprintId, userId).error
      ensures r.Ok? ==> r.value == SummaryOf(suggestions, sprintId)
      ensures r.Ok? ==> r.value.resolved + r.value.pending + r.value.ignored == r.value.total
      ensures r.Ok? ==> 0.0 <= r.value.percentageResolved <= 100.0
    {
      var access := SprintAccess(projects, sprints, sprintId, userId);
      if access.Err? {
        return Err(access.error);
      }
      SummaryPartitions(suggestions, sprintId);
      r := Ok(SummaryOf(suggestions, sprintId));
    }
  }

  function OfRepository(rows: seq<Suggestion>, repositoryId: Id): (r: seq<Suggestion>)
    ensures forall s :: s in r <==> s in rows && s.repositoryId == repositoryId
  {
    if rows == [] then []
    else (if rows[0].repositoryId == repositoryId then [rows[0]] else []) + OfRepository(rows[1..], repositoryId)
  }

  /** An import keeps the table valid: its rows take fresh ids and are PENDING. */
  lemma ImportKeeps(rows: seq<Suggestion>, created: seq<Suggestion>, repositoryId: Id, dtos: seq<CreateRefactoringDto>, batch: Option<Id>, ids: seq<Id>, now: int)
    requires ValidTable(rows) && FreshIds(rows, ids) && |ids| >= |dtos|
    requires created == Imported(rows, repositoryId, dtos, batch, ids, now, Exact)
    ensures ValidTable(rows + created)
  {
    ImportedIdsAscend(rows, repositoryId, dtos, batch, ids, now);
    ImportedRows(rows, repositoryId, dtos, batch, ids, now, Exact);
    var all := rows + created;
    forall i, j | 0 <= i < j < |all| ensures all[i].id != all[j].id {
      if i < |rows| <= j {
        assert all[j] in created;
        var kj :| 0 <= kj < |dtos| && all[j] == NewSuggestion(ids[kj], repositoryId, dtos[kj], BatchSprint(batch, dtos[kj]), now);
        assert !IdUsed(rows, ids[kj]);
        assert all[i] == rows[i];
      } else if |rows| <= i {
        assert all[i] == created[i - |rows|] && all[j] == created[j - |rows|];
      }
    }
    forall k | 0 <= k < |all| ensures all[k].status == RESOLVED ==> all[k].resolvedById.Some? && all[k].resolvedAt.Some? {
      if k >= |rows| {
        assert all[k] in created;
      }
    }
  }

  /** The created rows take the ids of distinct positions of the batch, so no two share one. */
  lemma {:induction false} ImportedIdsAscend(rows: seq<Suggestion>, repositoryId: Id, dtos: seq<CreateRefactoringDto>, batch: Option<Id>, ids: seq<Id>, now: int)
    requires |ids| >= |dtos| && FreshIds(rows, ids)
    ensures forall i, j :: 0 <= i < j < |Imported(rows, repositoryId, dtos, batch, ids, now, Exact)| ==>
      Imported(rows, repositoryId, dtos, batch, ids, now, Exact)[i].id != Imported(rows, repositoryId, dtos, batch, ids, now, Exact)[j].id
    decreases |dtos|
  {
    if dtos != [] {
      var n := |dtos| - 1;
      var prev := Imported(rows, repositoryId, dtos[..n], batch, ids, now, Exact);
      ImportedIdsAscend(rows, repositoryId, dtos[..n], batch, ids, now);
      ImportedRows(rows, repositoryId, dtos[..n], batch, ids, now, Exact);
      forall i | 0 <= i < |prev| ensures prev[i].id != ids[n] {
        assert prev[i] in prev;
        var k :| 0 <= k < n && prev[i] == NewSuggestion(ids[k], repositoryId, dtos[..n][k], BatchSprint(batch, dtos[..n][k]), now);
        assert prev[i].id == ids[k];
      }
    }
  }
}
