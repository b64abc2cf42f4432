/** The Sprint Retrospective of a sprint and its improvement actions: at most one
    retrospective per sprint, recorded by the Scrum Master (or the owner) once the sprint is
    under way or over, and never without an improvement action. Dates are integer
    timestamps; `now` is the clock. */
module SprintRetrospective {
  import opened Wrappers
  import opened Scrum
  import opened Backlog
  import Collections

  /** A row of the retrospective table. */
  datatype Retrospective = Retrospective(
    id: Id,
    sprintId: Id,
    whatWentWell: string,
    whatToImprove: string,
    whatToStopDoing: string,
    createdById: Id)

  /** The values of the action status the service names; `OtherStatus` stands for any
      further value of the enum. */
  datatype ActionStatus = PENDING | IN_PROGRESS | COMPLETED | OtherStatus(name: string)

  /** A row of the improvement-action table. */
  datatype Action = Action(
    id: Id,
    retrospectiveId: Id,
    description: string,
    responsible: Option<string>,
    dueDate: Option<int>,
    status: ActionStatus,
    completedAt: Option<int>,
    createdAt: int)

  /** One submitted improvement action; an absent or empty due date is None. */
  datatype ActionDto = ActionDto(description: string, responsible: Option<string>, dueDate: Option<int>)

  datatype CreateRetrospectiveDto = CreateRetrospectiveDto(
    whatWentWell: string,
    whatToImprove: string,
    whatToStopDoing: string,
    improvementActions: Option<seq<ActionDto>>)

  /** The body of `updateSprintRetrospective`; an absent field is left as it is. */
  datatype UpdateRetrospectiveDto = UpdateRetrospectiveDto(
    whatWentWell: Option<string>,
    whatToImprove: Option<string>,
    whatToStopDoing: Option<string>,
    improvementActions: Option<seq<ActionDto>>)

  /** The body of `updateImprovementAction`; an absent field is left as it is. */
  datatype UpdateActionDto = UpdateActionDto(
    description: Option<string>,
    responsible: Option<string>,
    dueDate: Option<int>,
    status: Option<ActionStatus>)

  /** What `getSprintRetrospective` answers: the row and its actions. */
  datatype RetrospectiveView = RetrospectiveView(retrospective: Retrospective, actions: seq<Action>)

  // ---------------------------------------------------------------------------------
  // Table invariants

  /** Ids are unique and `sprintId` is a unique key: a sprint has at most one retrospective. */
  predicate ValidRetrospectives(rows: seq<Retrospective>) {
    (forall i, j :: 0 <= i < j < |rows| ==> rows[i].id != rows[j].id)
    && (forall i, j :: 0 <= i < j < |rows| ==> rows[i].sprintId != rows[j].sprintId)
  }

  predicate RetrospectiveIdUsed(rows: seq<Retrospective>, id: Id) {
    exists k :: 0 <= k < |rows| && rows[k].id == id
  }

  predicate ActionIdUsed(rows: seq<Action>, id: Id) {
    exists k :: 0 <= k < |rows| && rows[k].id == id
  }

  /** Action ids are unique and every action belongs to a stored retrospective. */
  predicate ValidActions(retros: seq<Retrospective>, rows: seq<Action>) {
    (forall i, j :: 0 <= i < j < |rows| ==> rows[i].id != rows[j].id)
    && (forall k :: 0 <= k < |rows| ==> RetrospectiveIdUsed(retros, rows[k].retrospectiveId))
  }

  /** Ids the database may hand to new action rows: distinct and not yet used. */
  predicate FreshIds(rows: seq<Action>, ids: seq<Id>) {
    Collections.NoDuplicates(ids) && forall k :: 0 <= k < |ids| ==> !ActionIdUsed(rows, ids[k])
  }

  // ---------------------------------------------------------------------------------
  // Reads

  /** `sprintRetrospective.findUnique({ where: { sprintId } })`. */
  function RetrospectiveOf(rows: seq<Retrospective>, sprintId: Id): (r: Option<Retrospective>)
    ensures r.Some? <==> exists k :: 0 <= k < |rows| && rows[k].sprintId == sprintId
    ensures r.Some? ==> r.value in rows && r.value.sprintId == sprintId
  {
    if rows == [] then None
    else if rows[0].sprintId == sprintId then Some(rows[0])
    else RetrospectiveOf(rows[1..], sprintId)
  }

  /** `findUnique({ where: { id } })` on the retrospective table. */
  function RetrospectiveById(rows: seq<Retrospective>, id: Id): (r: Option<Retrospective>)
    ensures r.Some? <==> RetrospectiveIdUsed(rows, id)
    ensures r.Some? ==> r.value in rows && r.value.id == id
  {
    if rows == [] then None
    else if rows[0].id == id then Some(rows[0])
    else RetrospectiveById(rows[1..], id)
  }

  /** `findUnique({ where: { id } })` on the action table. */
  function ActionById(rows: seq<Action>, id: Id): (r: Option<Action>)
    ensures r.Some? <==> ActionIdUsed(rows, id)
    ensures r.Some? ==> r.value in rows && r.value.id == id
  {
    if rows == [] then None
    else if rows[0].id == id then Some(rows[0])
    else ActionById(rows[1..], id)
  }

  function RetrospectiveKey(a: Action): Id { a.retrospectiveId }

  /** The actions of one retrospective, in creation order. */
  function ActionsOf(rows: seq<Action>, retrospectiveId: Id): (r: seq<Action>)
    ensures forall a :: a in r <==> a in rows && a.retrospectiveId == retrospectiveId
  {
    Collections.Keyed(rows, RetrospectiveKey, retrospectiveId)
  }

  /** Appending rows appends their actions of that retrospective. */
  lemma {:induction false} ActionsOfAppend(a: seq<Action>, b: seq<Action>, retrospectiveId: Id)
    ensures ActionsOf(a + b, retrospectiveId) == ActionsOf(a, retrospectiveId) + ActionsOf(b, retrospectiveId)
  {
    if b == [] {
      assert a + b == a;
    } else {
      var init := b[..|b| - 1];
      var x := b[|b| - 1];
      assert a + b == (a + init) + [x];
      assert b == init + [x];
      ActionsOfAppend(a, init, retrospectiveId);
      Collections.KeyedSnoc(a + init, x, RetrospectiveKey, retrospectiveId);
      Collections.KeyedSnoc(init, x, RetrospectiveKey, retrospectiveId);
    }
  }

  /** A retrospective no row refers to has no actions. */
  lemma NoActionsOf(rows: seq<Action>, retrospectiveId: Id)
    requires forall k :: 0 <= k < |rows| ==> rows[k].retrospectiveId != retrospectiveId
    ensures ActionsOf(rows, retrospectiveId) == []
  {
    Collections.NoneKeyed(rows, RetrospectiveKey, retrospectiveId);
  }

  // ---------------------------------------------------------------------------------
  // Guards

  /** The access check followed by the Scrum Master rule, shared by create and update. */
  function ScrumMasterCheck(projects: map<Id, Project>, sprints: seq<Sprint>, sprintId: Id, userId: Id): (r: Result<Sprint, Failure>)
    ensures r.Ok? <==> (SprintAccess(projects, sprints, sprintId, userId).Ok?
      && IsScrumMasterOrOwner(projects[SprintAccess(projects, sprints, sprintId, userId).value.projectId], userId))
    ensures SprintAccess(projects, sprints, sprintId, userId).Err? ==> r == SprintAccess(projects, sprints, sprintId, userId)
    ensures SprintAccess(projects, sprints, sprintId, userId).Ok? && r.Err? ==> r.error.Forbidden?
    ensures r.Ok? ==> r == SprintAccess(projects, sprints, sprintId, userId)
  {
    var access := SprintAccess(projects, sprints, sprintId, userId);
    if access.Err? then access
    else
      var p := projects[access.value.projectId];
      if ActiveRole(p, userId) != Some(SCRUM_MASTER) && p.ownerId != userId then
        Err(Forbidden("only the Scrum Master may record the retrospective"))
      else access
  }

  /** The submitted actions, with an absent list read as empty. */
  function Submitted(actions: Option<seq<ActionDto>>): seq<ActionDto> {
    if actions.Some? then actions.value else []
  }

  /** The checks of `createSprintRetrospective`, in order: access, Scrum Master rule, sprint
      status, no retrospective for the sprint yet, and at least one improvement action. */
  function CreateCheck(projects: map<Id, Project>, sprints: seq<Sprint>, rows: seq<Retrospective>, sprintId: Id, dto: CreateRetrospectiveDto, userId: Id): (r: Option<Failure>)
    ensures r.None? <==> (ScrumMasterCheck(projects, sprints, sprintId, userId).Ok?
      && ScrumMasterCheck(projects, sprints, sprintId, userId).value.status in {SprintStatus.IN_PROGRESS, SprintStatus.COMPLETED}
      && RetrospectiveOf(rows, sprintId).None?
      && Submitted(dto.improvementActions) != [])
    ensures ScrumMasterCheck(projects, sprints, sprintId, userId).Err? ==> r == Some(ScrumMasterCheck(projects, sprints, sprintId, userId).error)
    ensures ScrumMasterCheck(projects, sprints, sprintId, userId).Ok? && r.Some? ==> r.value.BadRequest?
  {
    var check := ScrumMasterCheck(projects, sprints, sprintId, userId);
    if check.Err? then Some(check.error)
    else if check.value.status != SprintStatus.COMPLETED && check.value.status != SprintStatus.IN_PROGRESS then
      Some(BadRequest("a retrospective needs a sprint in progress or completed"))
    else if RetrospectiveOf(rows, sprintId).Some? then Some(BadRequest("the sprint already has a retrospective"))
    else if Submitted(dto.improvementActions) == [] then Some(BadRequest("at least one improvement action is required"))
    else None
  }

  // ---------------------------------------------------------------------------------
  // Rows

  function NewRetrospective(id: Id, sprintId: Id, dto: CreateRetrospectiveDto, userId: Id): Retrospective {
    Retrospective(id, sprintId, dto.whatWentWell, dto.whatToImprove, dto.whatToStopDoing, userId)
  }

  /** `improvementAction.createMany`: one PENDING row per submitted action, in order. */
  function NewActions(retrospectiveId: Id, dtos: seq<ActionDto>, ids: seq<Id>, now: int): (r: seq<Action>)
    requires |ids| >= |dtos|
    ensures |r| == |dtos|
    ensures forall k :: 0 <= k < |dtos| ==> r[k] == Action(ids[k], retrospectiveId, dtos[k].description,
      dtos[k].responsible, dtos[k].dueDate, PENDING, None, now)
  {
    seq(|dtos|, k requires 0 <= k < |dtos| =>
      Action(ids[k], retrospectiveId, dtos[k].description, dtos[k].responsible, dtos[k].dueDate, PENDING, None, now))
  }

  /** The created actions are exactly the new retrospective's actions. */
  lemma NewActionsOf(retrospectiveId: Id, dtos: seq<ActionDto>, ids: seq<Id>, now: int)
    requires |ids| >= |dtos|
    ensures ActionsOf(NewActions(retrospectiveId, dtos, ids, now), retrospectiveId) == NewActions(retrospectiveId, dtos, ids, now)
  {
    AllKeyed(NewActions(retrospectiveId, dtos, ids, now), retrospectiveId);
  }

  lemma {:induction false} AllKeyed(rows: seq<Action>, retrospectiveId: Id)
    requires forall k :: 0 <= k < |rows| ==> rows[k].retrospectiveId == retrospectiveId
    ensures ActionsOf(rows, retrospectiveId) == rows
  {
    if rows != [] {
      var init := rows[..|rows| - 1];
      AllKeyed(init, retrospectiveId);
      assert rows == init + [rows[|rows| - 1]];
    }
  }

  /** `update({ data: retroData })`: each text field the body carries replaces the stored one. */
  function EditedRetrospective(r: Retrospective, dto: UpdateRetrospectiveDto): Retrospective {
    r.(whatWentWell := dto.whatWentWell.GetOr(r.whatWentWell),
       whatToImprove := dto.whatToImprove.GetOr(r.whatToImprove),
       whatToStopDoing := dto.whatToStopDoing.GetOr(r.whatToStopDoing))
  }

  function ReplaceRetrospective(rows: seq<Retrospective>, id: Id, dto: UpdateRetrospectiveDto): (r: seq<Retrospective>)
    ensures |r| == |rows|
    ensures forall k :: 0 <= k < |rows| ==> r[k] == if rows[k].id == id then EditedRetrospective(rows[k], dto) else rows[k]
  {
    seq(|rows|, k requires 0 <= k < |rows| => if rows[k].id == id then EditedRetrospective(rows[k], dto) else rows[k])
  }

  /** `deleteMany({ where: { retrospectiveId } })`. */
  function DropActions(rows: seq<Action>, retrospectiveId: Id): (r: seq<Action>)
    ensures forall a :: a in r <==> a in rows && a.retrospectiveId != retrospectiveId
    ensures forall k :: 0 <= k < |r| ==> r[k].retrospectiveId != retrospectiveId
    ensures |r| <= |rows|
  {
    if rows == [] then []
    else (if rows[0].retrospectiveId == retrospectiveId then [] else [rows[0]]) + DropActions(rows[1..], retrospectiveId)
  }

  /** Dropping a retrospective's actions leaves the other retrospectives' actions as they were. */
  lemma {:induction false} DropActionsOthers(rows: seq<Action>, retrospectiveId: Id, other: Id)
    requires other != retrospectiveId
    ensures ActionsOf(DropActions(rows, retrospectiveId), other) == ActionsOf(rows, other)
  {
    if rows != [] {
      DropActionsOthers(rows[1..], retrospectiveId, other);
      assert rows == [rows[0]] + rows[1..];
      ActionsOfAppend([rows[0]], rows[1..], other);
      var head := if rows[0].retrospectiveId == retrospectiveId then [] else [rows[0]];
      ActionsOfAppend(head, DropActions(rows[1..], retrospectiveId), other);
      assert ActionsOf([rows[0]], other) == ActionsOf([], other) + (if rows[0].retrospectiveId == other then [rows[0]] else []) by {
        Collections.KeyedSnoc([], rows[0], RetrospectiveKey, other);
        assert [] + [rows[0]] == [rows[0]];
      }
      if rows[0].retrospectiveId != retrospectiveId {
        assert head == [rows[0]];
      } else {
        assert ActionsOf(head, other) == [];
      }
    }
  }

  /** The actions after a replacement: the dropped list followed by the new rows. */
  function Replaced(rows: seq<Action>, retrospectiveId: Id, dtos: seq<ActionDto>, ids: seq<Id>, now: int): seq<Action>
    requires |ids| >= |dtos|
  {
    DropActions(rows, retrospectiveId) + NewActions(retrospectiveId, dtos, ids, now)
  }

  /** After a replacement the retrospective has exactly the new actions, and every other
      retrospective keeps its own. */
  lemma ReplacedActions(rows: seq<Action>, retrospectiveId: Id, dtos: seq<ActionDto>, ids: seq<Id>, now: int, other: Id)
    requires |ids| >= |dtos|
    ensures ActionsOf(Replaced(rows, retrospectiveId, dtos, ids, now), retrospectiveId) == NewActions(retrospectiveId, dtos, ids, now)
    ensures other != retrospectiveId ==> ActionsOf(Replaced(rows, retrospectiveId, dtos, ids, now), other) == ActionsOf(rows, other)
  {
    var kept := DropActions(rows, retrospectiveId);
    var added := NewActions(retrospectiveId, dtos, ids, now);
    ActionsOfAppend(kept, added, retrospectiveId);
    NoActionsOf(kept, retrospectiveId);
    NewActionsOf(retrospectiveId, dtos, ids, now);
    if other != retrospectiveId {
      ActionsOfAppend(kept, added, other);
      DropActionsOthers(rows, retrospectiveId, other);
      NoActionsOf(added, other);
    }
  }

  /** New rows with fresh ids keep the action ids unique. */
  lemma FreshKeepsUnique(rows: seq<Action>, added: seq<Action>, ids: seq<Id>)
    requires (forall i, j :: 0 <= i < j < |rows| ==> rows[i].id != rows[j].id)
    requires FreshIds(rows, ids) && |added| <= |ids| && forall k :: 0 <= k < |added| ==> added[k].id == ids[k]
    ensures forall i, j :: 0 <= i < j < |rows + added| ==> (rows + added)[i].id != (rows + added)[j].id
  {
    var all := rows + added;
    forall i, j | 0 <= i < j < |all| ensures all[i].id != all[j].id {
      if j >= |rows| {
        if i >= |rows| {
          assert all[i].id == ids[i - |rows|] && all[j].id == ids[j - |rows|];
        } else {
          assert all[j].id == ids[j - |rows|];
          assert !ActionIdUsed(rows, ids[j - |rows|]);
        }
      }
    }
  }

  /** `updateImprovementAction`'s row: the carried fields replace the stored ones, and moving
      to COMPLETED stamps `completedAt`. */
  function EditedAction(a: Action, dto: UpdateActionDto, now: int): (r: Action)
    ensures r.id == a.id && r.retrospectiveId == a.retrospectiveId && r.createdAt == a.createdAt
    ensures r.status == dto.status.GetOr(a.status)
    ensures dto.status == Some(ActionStatus.COMPLETED) ==> r.completedAt == Some(now)
    ensures dto.status != Some(ActionStatus.COMPLETED) ==> r.completedAt == a.completedAt
  {
    Action(a.id, a.retrospectiveId, dto.description.GetOr(a.description),
      if dto.responsible.Some? then dto.responsible else a.responsible,
      if dto.dueDate.Some? then dto.dueDate else a.dueDate,
      dto.status.GetOr(a.status),
      if dto.status == Some(ActionStatus.COMPLETED) then Some(now) else a.completedAt,
      a.createdAt)
  }

  function ReplaceAction(rows: seq<Action>, id: Id, dto: UpdateActionDto, now: int): (r: seq<Action>)
    ensures |r| == |rows|
    ensures forall k :: 0 <= k < |rows| ==> r[k] == if rows[k].id == id then EditedAction(rows[k], dto, now) else rows[k]
  {
    seq(|rows|, k requires 0 <= k < |rows| => if rows[k].id == id then EditedAction(rows[k], dto, now) else rows[k])
  }

  // ---------------------------------------------------------------------------------
  // Active actions

  /** `status: { in: ['PENDING', 'IN_PROGRESS'] }`. */
  predicate IsActive(a: Action) {
    a.status == PENDING || a.status == ActionStatus.IN_PROGRESS
  }

  /** The project an action belongs to, through its retrospective's sprint. */
  function ActionProject(retros: seq<Retrospective>, sprints: seq<Sprint>, a: Action): Option<Id> {
    var retro := RetrospectiveById(retros, a.retrospectiveId);
    if retro.None? then None
    else
      var sprint := SprintById(sprints, retro.value.sprintId);
      if sprint.None? then None else Some(sprint.value.projectId)
  }

  /** `orderBy: [{ dueDate: 'asc' }, { createdAt: 'asc' }]`: the earlier due date first, an
      action without a due date after every dated one (the database's default for ascending
      order), and the earlier creation first among equal due dates. */
  predicate ActionLe(a: Action, b: Action) {
    if a.dueDate == b.dueDate then a.createdAt <= b.createdAt
    else b.dueDate.None? || (a.dueDate.Some? && a.dueDate.value <= b.dueDate.value)
  }

  /** Any two actions are ordered one way or the other. */
  lemma ActionLeTotal(a: Action, b: Action)
    ensures ActionLe(a, b) || ActionLe(b, a)
  {
  }

  predicate SortedActions(xs: seq<Action>) {
    forall i, j :: 0 <= i < j < |xs| ==> ActionLe(xs[i], xs[j])
  }

  /** Places `x` before the first action it does not come after. */
  function InsertAction(x: Action, xs: seq<Action>): (r: seq<Action>)
    ensures multiset(r) == multiset(xs) + multiset{x}
  {
    if xs == [] then [x]
    else if ActionLe(x, xs[0]) then [x] + xs
    else
      assert xs == [xs[0]] + xs[1..];
      [xs[0]] + InsertAction(x, xs[1..])
  }

  lemma {:induction false} InsertActionSorted(x: Action, xs: seq<Action>)
    requires SortedActions(xs)
    ensures SortedActions(InsertAction(x, xs))
  {
    if xs != [] && !ActionLe(x, xs[0]) {
      InsertActionSorted(x, xs[1..]);
      HeadPrecedesInserted(x, xs);
      ConsSorted(xs[0], InsertAction(x, xs[1..]));
    }
  }

  /** When `x` goes after the head, the head precedes everything the insertion leaves after it. */
  lemma HeadPrecedesInserted(x: Action, xs: seq<Action>)
    requires SortedActions(xs) && xs != [] && !ActionLe(x, xs[0])
    ensures forall y :: y in InsertAction(x, xs[1..]) ==> ActionLe(xs[0], y)
  {
    var rest := InsertAction(x, xs[1..]);
    ActionLeTotal(x, xs[0]);
    forall y | y in rest ensures ActionLe(xs[0], y) {
      assert y in multiset(rest);
      if y != x {
        assert y in xs[1..];
        var j :| 0 <= j < |xs[1..]| && xs[1..][j] == y;
        assert xs[j + 1] == y;
      }
    }
  }

  lemma ConsSorted(h: Action, rest: seq<Action>)
    requires SortedActions(rest) && forall y :: y in rest ==> ActionLe(h, y)
    ensures SortedActions([h] + rest)
  {
    var r := [h] + rest;
    forall i, j | 0 <= i < j < |r| ensures ActionLe(r[i], r[j]) {
      if i == 0 {
        assert r[j] in rest;
      } else {
        assert r[i] == rest[i - 1] && r[j] == rest[j - 1];
      }
    }
  }

  /** The actions in the listed order. */
  function SortActions(xs: seq<Action>): (r: seq<Action>)
    ensures multiset(r) == multiset(xs) && SortedActions(r)
  {
    if xs == [] then []
    else
      assert xs == [xs[0]] + xs[1..];
      var rest := SortActions(xs[1..]);
      InsertActionSorted(xs[0], rest);
      InsertAction(xs[0], rest)
  }

  /** The project's active actions, in table order. */
  function ActiveOf(retros: seq<Retrospective>, sprints: seq<Sprint>, rows: seq<Action>, projectId: Id): (r: seq<Action>)
    ensures forall a :: a in r <==> a in rows && IsActive(a) && ActionProject(retros, sprints, a) == Some(projectId)
    ensures multiset(r) <= multiset(rows)
  {
    if rows == [] then []
    else
      assert rows == [rows[0]] + rows[1..];
      (if IsActive(rows[0]) && ActionProject(retros, sprints, rows[0]) == Some(projectId) then [rows[0]] else [])
        + ActiveOf(retros, sprints, rows[1..], projectId)
  }

  // ---------------------------------------------------------------------------------
  // The service

  class SprintRetrospectiveService {
    const projects: map<Id, Project>
    const sprints: seq<Sprint>
    var retrospectives: seq<Retrospective>
    var actions: seq<Action>

    predicate Valid()
      reads this
    {
      ValidRetrospectives(retrospectives) && ValidActions(retrospectives, actions)
    }

    constructor(projects0: map<Id, Project>, sprints0: seq<Sprint>, retrospectives0: seq<Retrospective>, actions0: seq<Action>)
      requires ValidRetrospectives(retrospectives0) && ValidActions(retrospectives0, actions0)
      ensures Valid() && projects == projects0 && sprints == sprints0
      ensures retrospectives == retrospectives0 && actions == actions0
    {
      projects := projects0;
      sprints := sprints0;
      retrospectives := retrospectives0;
      actions := actions0;
    }

    /** `getSprintRetrospective`. */
    method GetSprintRetrospective(sprintId: Id, userId: Id) returns (r: Result<RetrospectiveView, Failure>)
      ensures SprintAccess(projects, sprints, sprintId, userId).Err? ==> r == Err(SprintAccess(projects, sprints, sprintId, userId).error)
      ensures r.Ok? <==> SprintAccess(projects, sprints, sprintId, userId).Ok? && RetrospectiveOf(retrospectives, sprintId).Some?
      ensures SprintAccess(projects, sprints, sprintId, userId).Ok? && RetrospectiveOf(retrospectives, sprintId).None? ==> r.Err? && r.error.NotFound?
      ensures r.Ok? ==> var retro := RetrospectiveOf(retrospectives, sprintId).value;
        r.value == RetrospectiveView(retro, ActionsOf(actions, retro.id))
    {
      var access := SprintAccess(projects, sprints, sprintId, userId);
      if access.Err? {
        return Err(access.error);
      }
      var retro := RetrospectiveOf(retrospectives, sprintId);
      if retro.None? {
        return Err(NotFound("sprint retrospective"));
      }
      r := Ok(RetrospectiveView(retro.value, ActionsOf(actions, retro.value.id)));
    }

    /** `createSprintRetrospective`; `id` and `actionIds` are the ids the database assigns.
        The answer carries exactly the submitted actions, in order, all PENDING. */
    method CreateSprintRetrospective(sprintId: Id, dto: CreateRetrospectiveDto, userId: Id, now: int, id: Id, actionIds: seq<Id>)
      returns (r: Result<RetrospectiveView, Failure>)
      requires Valid() && !RetrospectiveIdUsed(retrospectives, id)
      requires FreshIds(actions, actionIds) && |actionIds| >= |Submitted(dto.improvementActions)|
      modifies this
      ensures Valid()
      ensures r.Err? <==> CreateCheck(projects, sprints, old(retrospectives), sprintId, dto, userId).Some?
      ensures r.Err? ==> r.error == CreateCheck(projects, sprints, old(retrospectives), sprintId, dto, userId).value && unchanged(this)
      ensures r.Ok? ==> var row := NewRetrospective(id, sprintId, dto, userId);
        var added := NewActions(id, Submitted(dto.improvementActions), actionIds, now);
        retrospectives == old(retrospectives) + [row] && actions == old(actions) + added
        && r.value == RetrospectiveView(row, added) && added != []
    {
      var check := CreateCheck(projects, sprints, retrospectives, sprintId, dto, userId);
      if check.Some? {
        return Err(check.value);
      }
      var row := NewRetrospective(id, sprintId, dto, userId);
      var added := NewActions(id, Submitted(dto.improvementActions), actionIds, now);
      CreatedKeeps(retrospectives, actions, row, added, actionIds);
      retrospectives := retrospectives + [row];
      actions := actions + added;
      r := Ok(RetrospectiveView(row, added));
    }

    /** `updateSprintRetrospective`: access, Scrum Master rule, then the retrospective must
        exist. A carried action list replaces the stored one, even when it is empty; an
        absent list leaves the actions alone. */
    method UpdateSprintRetrospective(sprintId: Id, dto: UpdateRetrospectiveDto, userId: Id, now: int, actionIds: seq<Id>)
      returns (r: Result<RetrospectiveView, Failure>)
      requires Valid()
      requires FreshIds(actions, actionIds) && |actionIds| >= |Submitted(dto.improvementActions)|
      modifies this
      ensures Valid()
      ensures ScrumMasterCheck(projects, sprints, sprintId, userId).Err? ==>
        r == Err(ScrumMasterCheck(projects, sprints, sprintId, userId).error) && unchanged(this)
      ensures ScrumMasterCheck(projects, sprints, sprintId, userId).Ok? && RetrospectiveOf(old(retrospectives), sprintId).None? ==>
        r.Err? && r.error.NotFound? && unchanged(this)
      ensures r.Ok? <==> ScrumMasterCheck(projects, sprints, sprintId, userId).Ok? && RetrospectiveOf(old(retrospectives), sprintId).Some?
      ensures r.Ok? ==> var retro := RetrospectiveOf(old(retrospectives), sprintId).value;
        retrospectives == ReplaceRetrospective(old(retrospectives), retro.id, dto)
        && r.value.retrospective == EditedRetrospective(retro, dto)
        && r.value.actions == ActionsOf(actions, retro.id)
      ensures r.Ok? && dto.improvementActions.None? ==> actions == old(actions)
      ensures r.Ok? && dto.improvementActions.Some? ==> var retro := RetrospectiveOf(old(retrospectives), sprintId).value;
        actions == Replaced(old(actions), retro.id, dto.improvementActions.value, actionIds, now)
        && r.value.actions == NewActions(retro.id, dto.improvementActions.value, actionIds, now)
    {
      var check := ScrumMasterCheck(projects, sprints, sprintId, userId);
      if check.Err? {
        return Err(check.error);
      }
      var found := RetrospectiveOf(retrospectives, sprintId);
      if found.None? {
        return Err(NotFound("sprint retrospective"));
      }
      var retro := found.value;
      ReplaceRetrospectiveKeeps(retrospectives, actions, retro.id, dto);
      retrospectives := ReplaceRetrospective(retrospectives, retro.id, dto);
      if dto.improvementActions.Some? {
        var dtos := dto.improvementActions.value;
        ReplacedKeeps(retrospectives, actions, retro, dtos, actionIds, now);
        ReplacedActions(actions, retro.id, dtos, actionIds, now, retro.id);
        actions := Replaced(actions, retro.id, dtos, actionIds, now);
      }
      r := Ok(RetrospectiveView(EditedRetrospective(retro, dto), ActionsOf(actions, retro.id)));
    }

    /** `updateImprovementAction`: a missing action is NotFound; then only the read-access
        rule of the action's sprint applies, with no role rule. */
    method UpdateImprovementAction(actionId: Id, dto: UpdateActionDto, userId: Id, now: int) returns (r: Result<Action, Failure>)
      requires Valid()
      modifies this
      ensures Valid()
      ensures ActionById(old(actions), actionId).None? ==> r.Err? && r.error.NotFound? && unchanged(this)
      ensures r.Ok? <==> (ActionById(old(actions), actionId).Some?
        && var retro := RetrospectiveById(retrospectives, ActionById(old(actions), actionId).value.retrospectiveId);
        retro.Some? && SprintAccess(projects, sprints, retro.value.sprintId, userId).Ok?)
      ensures r.Err? ==> unchanged(this)
      ensures r.Ok? ==> r.value == EditedAction(ActionById(old(actions), actionId).value, dto, now)
      ensures r.Ok? ==> actions == ReplaceAction(old(actions), actionId, dto, now) && retrospectives == old(retrospectives)
    {
      var action := ActionById(actions, actionId);
      if action.None? {
        return Err(NotFound("improvement action"));
      }
      var retro := RetrospectiveById(retrospectives, action.value.retrospectiveId);
      if retro.None? {
        return Err(NotFound("sprint retrospective"));
      }
      var access := SprintAccess(projects, sprints, retro.value.sprintId, userId);
      if access.Err? {
        return Err(access.error);
      }
      ReplaceActionKeeps(retrospectives, actions, actionId, dto, now);
      actions := ReplaceAction(actions, actionId, dto, now);
      r := Ok(EditedAction(action.value, dto, now));
    }

    /** `getActiveImprovementActions`: the project's PENDING and IN_PROGRESS actions, by due
        date and then by creation. */
    method GetActiveImprovementActions(projectId: Id, userId: Id) returns (r: Result<seq<Action>, Failure>)
      ensures r.Err? <==> VerifyAccess(projects, projectId, userId).Err?
      ensures r.Err? ==> r.error == VerifyAccess(projects, projectId, userId).error
      ensures r.Ok? ==> SortedActions(r.value)
      ensures r.Ok? ==> multiset(r.value) == multiset(ActiveOf(retrospectives, sprints, actions, projectId))
      ensures r.Ok? ==> forall a :: a in r.value <==>
        a in actions && IsActive(a) && ActionProject(retrospectives, sprints, a) == Some(projectId)
    {
      var access := VerifyAccess(projects, projectId, userId);
      if access.Err? {
        return Err(access.error);
      }
      var active := ActiveOf(retrospectives, sprints, actions, projectId);
      var sorted := SortActions(active);
      forall a ensures a in sorted <==> a in active {
        assert a in sorted <==> a in multiset(sorted);
        assert a in active <==> a in multiset(active);
      }
      r := Ok(sorted);
    }
  }

  // ---------------------------------------------------------------------------------
  // The service keeps its invariants

  lemma CreatedKeeps(retros: seq<Retrospective>, rows: seq<Action>, row: Retrospective, added: seq<Action>, ids: seq<Id>)
    requires ValidRetrospectives(retros) && ValidActions(retros, rows)
    requires !RetrospectiveIdUsed(retros, row.id) && RetrospectiveOf(retros, row.sprintId).None?
    requires FreshIds(rows, ids) && |added| <= |ids|
    requires forall k :: 0 <= k < |added| ==> added[k].id == ids[k] && added[k].retrospectiveId == row.id
    ensures ValidRetrospectives(retros + [row]) && ValidActions(retros + [row], rows + added)
  {
    var all := retros + [row];
    FreshKeepsUnique(rows, added, ids);
    forall k | 0 <= k < |rows + added| ensures RetrospectiveIdUsed(all, (rows + added)[k].retrospectiveId) {
      if k < |rows| {
        assert RetrospectiveIdUsed(retros, rows[k].retrospectiveId);
        var i :| 0 <= i < |retros| && retros[i].id == rows[k].retrospectiveId;
        assert all[i].id == rows[k].retrospectiveId;
      } else {
        assert all[|retros|].id == row.id;
      }
    }
  }

  lemma ReplaceRetrospectiveKeeps(retros: seq<Retrospective>, rows: seq<Action>, id: Id, dto: UpdateRetrospectiveDto)
    requires ValidRetrospectives(retros) && ValidActions(retros, rows)
    ensures ValidRetrospectives(ReplaceRetrospective(retros, id, dto)) && ValidActions(ReplaceRetrospective(retros, id, dto), rows)
  {
    var r := ReplaceRetrospective(retros, id, dto);
    assert forall k :: 0 <= k < |retros| ==> r[k].id == retros[k].id && r[k].sprintId == retros[k].sprintId;
    forall k | 0 <= k < |rows| ensures RetrospectiveIdUsed(r, rows[k].retrospectiveId) {
      assert RetrospectiveIdUsed(retros, rows[k].retrospectiveId);
      var i :| 0 <= i < |retros| && retros[i].id == rows[k].retrospectiveId;
      assert r[i].id == rows[k].retrospectiveId;
    }
  }

  lemma ReplacedKeeps(retros: seq<Retrospective>, rows: seq<Action>, retro: Retrospective, dtos: seq<ActionDto>, ids: seq<Id>, now: int)
    requires ValidActions(retros, rows) && RetrospectiveIdUsed(retros, retro.id)
    requires FreshIds(rows, ids) && |ids| >= |dtos|
    ensures ValidActions(retros, Replaced(rows, retro.id, dtos, ids, now))
  {
    var kept := DropActions(rows, retro.id);
    var added := NewActions(retro.id, dtos, ids, now);
    DropActionsKeeps(retros, rows, retro.id);
    forall k | 0 <= k < |ids| ensures !ActionIdUsed(kept, ids[k]) {
      forall j | 0 <= j < |kept| ensures kept[j].id != ids[k] {
        assert kept[j] in rows;
      }
    }
    FreshKeepsUnique(kept, added, ids);
  }

  lemma {:induction false} DropActionsKeeps(retros: seq<Retrospective>, rows: seq<Action>, retrospectiveId: Id)
    requires ValidActions(retros, rows)
    ensures ValidActions(retros, DropActions(rows, retrospectiveId))
  {
    if rows != [] {
      DropActionsKeeps(retros, rows[1..], retrospectiveId);
      var rest := DropActions(rows[1..], retrospectiveId);
      forall x | x in rest ensures x.id != rows[0].id {
        var j :| 0 <= j < |rows[1..]| && rows[1..][j] == x;
        assert rows[j + 1] == x;
      }
    }
  }

  lemma ReplaceActionKeeps(retros: seq<Retrospective>, rows: seq<Action>, id: Id, dto: UpdateActionDto, now: int)
    requires ValidActions(retros, rows)
    ensures ValidActions(retros, ReplaceAction(rows, id, dto, now))
  {
    var r := ReplaceAction(rows, id, dto, now);
    assert forall k :: 0 <= k < |rows| ==> r[k].id == rows[k].id && r[k].retrospectiveId == rows[k].retrospectiveId;
  }
}
