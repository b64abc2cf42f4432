/** The Kanban board of a sprint: the tasks of its stories grouped into the four board
    columns, the column move of a task with its bookkeeping (completion and start stamps,
    reopen counter, activity log, the assignee's PSP row) and task assignment. */
module Kanban {
  import opened Wrappers
  import opened Scrum
  import opened Backlog
  import Collections
  import Psp
  import Sprints

  // ---------------------------------------------------------------------------------
  // The board
  // ---------------------------------------------------------------------------------

  /** The statuses the board fetches (`status: { in: [...] }`): all but CANCELLED. */
  predicate OnBoard(s: TaskStatus) {
    s == TODO || s == TaskStatus.IN_PROGRESS || s == TaskStatus.TESTING || s == TaskStatus.DONE
  }

  /** The tasks of the stories planned into the sprint, with a board status, in table order. */
  function BoardTasks(tasks: seq<Task>, stories: seq<Story>, sprintId: Id): (r: seq<Task>)
    ensures forall t :: t in r <==> t in tasks && InSprint(stories, t.storyId, sprintId) && OnBoard(t.status)
    ensures |r| <= |tasks|
  {
    if tasks == [] then []
    else
      (if InSprint(stories, tasks[0].storyId, sprintId) && OnBoard(tasks[0].status) then [tasks[0]] else [])
      + BoardTasks(tasks[1..], stories, sprintId)
  }

  /** `tasks.filter(t => t.status === s)`. */
  function WithStatus(tasks: seq<Task>, s: TaskStatus): (r: seq<Task>)
    ensures forall t :: t in r <==> t in tasks && t.status == s
    ensures |r| <= |tasks|
  {
    if tasks == [] then []
    else (if tasks[0].status == s then [tasks[0]] else []) + WithStatus(tasks[1..], s)
  }

  /** The four columns of the board. */
  datatype Columns = Columns(todo: seq<Task>, inProgress: seq<Task>, testing: seq<Task>, done: seq<Task>)

  function Group(tasks: seq<Task>): (c: Columns)
    ensures forall t :: t in c.todo <==> t in tasks && t.status == TODO
    ensures forall t :: t in c.inProgress <==> t in tasks && t.status == TaskStatus.IN_PROGRESS
    ensures forall t :: t in c.testing <==> t in tasks && t.status == TaskStatus.TESTING
    ensures forall t :: t in c.done <==> t in tasks && t.status == TaskStatus.DONE
  {
    Columns(WithStatus(tasks, TODO), WithStatus(tasks, TaskStatus.IN_PROGRESS),
            WithStatus(tasks, TaskStatus.TESTING), WithStatus(tasks, TaskStatus.DONE))
  }

  function ColumnsBag(c: Columns): multiset<Task> {
    multiset(c.todo) + multiset(c.inProgress) + multiset(c.testing) + multiset(c.done)
  }

  /** The columns partition the board tasks: every task with a board status sits in
      exactly the column of its status, as often as it was fetched. */
  lemma {:induction false} GroupPartitions(tasks: seq<Task>)
    requires forall i :: 0 <= i < |tasks| ==> OnBoard(tasks[i].status)
    ensures ColumnsBag(Group(tasks)) == multiset(tasks)
  {
    if tasks != [] {
      var rest := tasks[1..];
      assert forall i :: 0 <= i < |rest| ==> OnBoard(rest[i].status) by {
        forall i | 0 <= i < |rest| ensures OnBoard(rest[i].status) {
          assert rest[i] == tasks[i + 1];
        }
      }
      GroupPartitions(rest);
      GroupCons(tasks);
      BagCons(tasks);
    }
  }

  lemma BagCons(tasks: seq<Task>)
    requires tasks != []
    ensures multiset(tasks) == multiset{tasks[0]} + multiset(tasks[1..])
  {
    assert tasks == [tasks[0]] + tasks[1..];
  }

  /** The first task lands in the column of its status and nowhere else. */
  lemma GroupCons(tasks: seq<Task>)
    requires tasks != [] && OnBoard(tasks[0].status)
    ensures ColumnsBag(Group(tasks)) == multiset{tasks[0]} + ColumnsBag(Group(tasks[1..]))
  {
    var t := tasks[0];
    WithStatusCons(tasks, TODO);
    WithStatusCons(tasks, TaskStatus.IN_PROGRESS);
    WithStatusCons(tasks, TaskStatus.TESTING);
    WithStatusCons(tasks, TaskStatus.DONE);
  }

  /** A column gains the first task exactly when the task has the column's status. */
  lemma WithStatusCons(tasks: seq<Task>, s: TaskStatus)
    requires tasks != []
    ensures multiset(WithStatus(tasks, s)) == (if tasks[0].status == s then multiset{tasks[0]} else multiset{}) + multiset(WithStatus(tasks[1..], s))
  {
  }

  /** No CANCELLED task reaches the board, and every column holds only its own status. */
  lemma BoardColumns(tasks: seq<Task>, stories: seq<Story>, sprintId: Id)
    ensures ColumnsBag(Group(BoardTasks(tasks, stories, sprintId))) == multiset(BoardTasks(tasks, stories, sprintId))
    ensures forall t :: t in ColumnsBag(Group(BoardTasks(tasks, stories, sprintId))) ==> t.status != TaskStatus.CANCELLED
  {
    var board := BoardTasks(tasks, stories, sprintId);
    assert forall i :: 0 <= i < |board| ==> board[i] in board;
    GroupPartitions(board);
  }

  /** `sprint.findFirst({ where: { projectId, status: 'IN_PROGRESS' }, orderBy: { startDate:
      'desc' } })`: the running sprint of the project that started last (the first of those
      in table order on a tie). */
  function ActiveSprint(rows: seq<Sprint>, projectId: Id): (r: Option<Sprint>)
    ensures r.Some? <==> exists s :: s in rows && s.projectId == projectId && s.status == SprintStatus.IN_PROGRESS
    ensures r.Some? ==> r.value in rows && r.value.projectId == projectId && r.value.status == SprintStatus.IN_PROGRESS
    ensures r.Some? ==> forall s :: s in rows && s.projectId == projectId && s.status == SprintStatus.IN_PROGRESS ==>
      s.startDate <= r.value.startDate
  {
    if rows == [] then None
    else
      var rest := ActiveSprint(rows[1..], projectId);
      assert forall s :: s in rows ==> s == rows[0] || s in rows[1..];
      if rows[0].projectId == projectId && rows[0].status == SprintStatus.IN_PROGRESS
         && (rest.None? || rest.value.startDate <= rows[0].startDate)
      then Some(rows[0])
      else rest
  }

  /** Under the sprint table's invariant that a project runs at most one sprint, the board
      shows that sprint. */
  lemma ActiveSprintIsTheRunningOne(rows: seq<Sprint>, k: nat)
    requires Sprints.AtMostOneActive(rows)
    requires k < |rows| && rows[k].status == SprintStatus.IN_PROGRESS
    ensures ActiveSprint(rows, rows[k].projectId) == Some(rows[k])
  {
    var r := ActiveSprint(rows, rows[k].projectId);
    var j :| 0 <= j < |rows| && rows[j] == r.value;
  }

  /** What both board queries return. */
  datatype Board = Board(sprint: Sprint, members: seq<Member>, columns: Columns)

  /** `getKanbanBoard`: the board of the project's running sprint. */
  function GetBoard(projects: map<Id, Project>, sprints: seq<Sprint>, stories: seq<Story>, tasks: seq<Task>, projectId: Id, userId: Id): (r: Result<Board, Failure>)
    ensures r.Ok? <==> VerifyAccess(projects, projectId, userId).Ok? && ActiveSprint(sprints, projectId).Some?
    ensures r.Ok? ==> r.value.sprint.projectId == projectId && r.value.sprint.status == SprintStatus.IN_PROGRESS
    ensures r.Ok? ==> r.value.members == ActiveMembers(projects[projectId].members)
    ensures r.Ok? ==> ColumnsBag(r.value.columns) == multiset(BoardTasks(tasks, stories, r.value.sprint.id))
  {
    var access := VerifyAccess(projects, projectId, userId);
    if access.Err? then Err(access.error)
    else
      var sprint := ActiveSprint(sprints, projectId);
      if sprint.None? then Err(NotFound("no active sprint"))
      else
        BoardColumns(tasks, stories, sprint.value.id);
        Ok(Board(sprint.value, ActiveMembers(projects[projectId].members), Group(BoardTasks(tasks, stories, sprint.value.id))))
  }

  /** `getKanbanBoardBySprint`: the board of a given sprint of the project, whatever its status. */
  function GetBoardBySprint(projects: map<Id, Project>, sprints: seq<Sprint>, stories: seq<Story>, tasks: seq<Task>, projectId: Id, sprintId: Id, userId: Id): (r: Result<Board, Failure>)
    ensures r.Ok? <==> VerifyAccess(projects, projectId, userId).Ok? && Sprints.FindSprint(sprints, sprintId, projectId).Some?
    ensures r.Ok? ==> r.value.sprint.id == sprintId && r.value.sprint.projectId == projectId
    ensures r.Ok? ==> r.value.members == ActiveMembers(projects[projectId].members)
    ensures r.Ok? ==> ColumnsBag(r.value.columns) == multiset(BoardTasks(tasks, stories, sprintId))
  {
    var access := VerifyAccess(projects, projectId, userId);
    if access.Err? then Err(access.error)
    else
      var sprint := Sprints.FindSprint(sprints, sprintId, projectId);
      if sprint.None? then Err(NotFound("sprint"))
      else
        BoardColumns(tasks, stories, sprintId);
        Ok(Board(sprint.value, ActiveMembers(projects[projectId].members), Group(BoardTasks(tasks, stories, sprintId))))
  }

  // ---------------------------------------------------------------------------------
  // Moving a task between columns
  // ---------------------------------------------------------------------------------

  /** The `assignedToId` of the request body: left out (`undefined`, the stored assignee is
      kept), an explicit `null` (the assignee is cleared), or an id (the task is assigned). */
  datatype AssigneeUpdate = KeepAssignee | Unassign | AssignTo(id: Id)

  datatype UpdateTaskStatusDto = UpdateTaskStatusDto(status: TaskStatus, assignedToId: AssigneeUpdate)

  /** The value of `assignedToId` as the guards read it: `null` and a missing field alike
      give nothing. */
  function GivenAssignee(u: AssigneeUpdate): (r: Option<Id>)
    ensures r.Some? <==> u.AssignTo?
    ensures r.Some? ==> r.value == u.id
  {
    if u.AssignTo? then Some(u.id) else None
  }

  /** A truthy id: present and not the empty string. */
  predicate Present(id: Option<Id>) {
    id.Some? && id.value != ""
  }

  /** The enum's name as Prisma stores it. */
  function StatusName(s: TaskStatus): string {
    match s
    case TODO => "TODO"
    case IN_PROGRESS => "IN_PROGRESS"
    case TESTING => "TESTING"
    case DONE => "DONE"
    case CANCELLED => "CANCELLED"
  }

  /** The task with its story, when the story belongs to the project (NotFound otherwise). */
  function TaskInProject(projects: map<Id, Project>, stories: seq<Story>, tasks: seq<Task>, projectId: Id, taskId: Id): (r: Result<(Task, Story), Failure>)
    ensures r.Ok? <==> (FindTask(tasks, taskId).Some? && FindStory(stories, FindTask(tasks, taskId).value.storyId).Some?
      && FindStory(stories, FindTask(tasks, taskId).value.storyId).value.projectId == projectId && projectId in projects)
    ensures r.Err? ==> r.error.NotFound?
    ensures r.Ok? ==> r.value.0 == FindTask(tasks, taskId).value && r.value.1 == FindStory(stories, r.value.0.storyId).value
  {
    var task := FindTask(tasks, taskId);
    if task.None? then Err(NotFound("task"))
    else
      var story := FindStory(stories, task.value.storyId);
      if story.None? || story.value.projectId != projectId || projectId !in projects then Err(NotFound("task"))
      else Ok((task.value, story.value))
  }

  /** Moving into TESTING or DONE needs someone responsible and written acceptance criteria. */
  predicate ReadyForReview(task: Task, story: Story, dto: UpdateTaskStatusDto) {
    (dto.status == TaskStatus.TESTING || dto.status == TaskStatus.DONE) ==>
      (Present(task.assignedToId) || Present(GivenAssignee(dto.assignedToId))) && story.acceptanceCriteria != ""
  }

  /** The checks of `updateTaskStatus`: the task is in the project, the caller is the owner
      or an active member (a public project grants nothing here), and a move into review or
      done is ready for it. */
  function MoveCheck(projects: map<Id, Project>, stories: seq<Story>, tasks: seq<Task>, projectId: Id, taskId: Id, userId: Id, dto: UpdateTaskStatusDto): (r: Result<(Task, Story), Failure>)
    ensures r.Ok? <==> (TaskInProject(projects, stories, tasks, projectId, taskId).Ok?
      && IsOwnerOrMember(projects[projectId], userId)
      && ReadyForReview(TaskInProject(projects, stories, tasks, projectId, taskId).value.0, TaskInProject(projects, stories, tasks, projectId, taskId).value.1, dto))
    ensures r.Ok? ==> r.value == TaskInProject(projects, stories, tasks, projectId, taskId).value
    ensures TaskInProject(projects, stories, tasks, projectId, taskId).Ok? && !IsOwnerOrMember(projects[projectId], userId) ==> r.Err? && r.error.Forbidden?
  {
    var found := TaskInProject(projects, stories, tasks, projectId, taskId);
    if found.Err? then Err(found.error)
    else
      var (task, story) := found.value;
      if !IsOwnerOrMember(projects[projectId], userId) then Err(Forbidden("no access to this project"))
      else if (dto.status == TaskStatus.TESTING || dto.status == TaskStatus.DONE) && !Present(task.assignedToId) && !Present(GivenAssignee(dto.assignedToId)) then
        Err(BadRequest("a responsible person is needed for Testing or Done"))
      else if (dto.status == TaskStatus.TESTING || dto.status == TaskStatus.DONE) && story.acceptanceCriteria == "" then
        Err(BadRequest("the user story needs acceptance criteria for Testing or Done"))
      else Ok(found.value)
  }

  predicate Completes(from: TaskStatus, to: TaskStatus) {
    to == TaskStatus.DONE && from != TaskStatus.DONE
  }

  predicate Reopens(from: TaskStatus, to: TaskStatus) {
    from == TaskStatus.DONE && to != TaskStatus.DONE
  }

  /** The updated task row: the new status, the given assignee, the completion stamp set on
      entering DONE and cleared on leaving it, the start stamp on the first TODO to
      IN_PROGRESS move, and one more reopening on leaving DONE. */
  function Moved(t: Task, dto: UpdateTaskStatusDto, now: int): (r: Task)
    ensures r.id == t.id && r.storyId == t.storyId && r.code == t.code && r.title == t.title
    ensures r.description == t.description && r.effort == t.effort && r.isBug == t.isBug
    ensures r.status == dto.status
    ensures dto.assignedToId.KeepAssignee? ==> r.assignedToId == t.assignedToId
    ensures dto.assignedToId.Unassign? ==> r.assignedToId.None?
    ensures dto.assignedToId.AssignTo? ==> r.assignedToId == Some(dto.assignedToId.id)
    ensures r.reopenCount == t.reopenCount + (if Reopens(t.status, dto.status) then 1 else 0)
    ensures t.startedAt.Some? ==> r.startedAt == t.startedAt
    ensures r.startedAt != t.startedAt <==> t.status == TODO && dto.status == TaskStatus.IN_PROGRESS && t.startedAt.None?
    ensures r.completedAt != t.completedAt ==> Completes(t.status, dto.status) || Reopens(t.status, dto.status)
  {
    var startedNow := dto.status == TaskStatus.IN_PROGRESS && t.status == TODO && t.startedAt.None?;
    t.(status := dto.status,
       assignedToId := match dto.assignedToId
                       case KeepAssignee => t.assignedToId
                       case Unassign => None
                       case AssignTo(id) => Some(id),
       completedAt := if Completes(t.status, dto.status) then Some(now)
                      else if Reopens(t.status, dto.status) then None
                      else t.completedAt,
       startedAt := if startedNow then Some(now) else t.startedAt,
       reopenCount := if Reopens(t.status, dto.status) then t.reopenCount + 1 else t.reopenCount)
  }

  /** A task is DONE exactly when it carries a completion stamp. */
  predicate CompletionConsistent(t: Task) {
    t.status == TaskStatus.DONE <==> t.completedAt.Some?
  }

  /** The stamps never lie in the future and a task never completes before it starts. */
  predicate StampsOrdered(t: Task, now: int) {
    (t.startedAt.Some? ==> t.startedAt.value <= now)
    && (t.completedAt.Some? ==> t.completedAt.value <= now)
    && (t.startedAt.Some? && t.completedAt.Some? ==> t.startedAt.value <= t.completedAt.value)
  }

  /** Every move keeps the completion stamp in step with the DONE status. */
  lemma MovedKeepsCompletion(t: Task, dto: UpdateTaskStatusDto, now: int)
    requires CompletionConsistent(t)
    ensures CompletionConsistent(Moved(t, dto, now))
    ensures Moved(t, dto, now).status == TaskStatus.DONE ==> Moved(t, dto, now).completedAt == (if t.status == TaskStatus.DONE then t.completedAt else Some(now))
  {
  }

  /** With a clock that does not go back, the stamps of a moved task stay in the past and
      a task never completes before it started: a start is stamped only while the task is
      not DONE, hence while it has no completion stamp. */
  lemma MovedKeepsStampsOrdered(t: Task, dto: UpdateTaskStatusDto, before: int, now: int)
    requires CompletionConsistent(t) && StampsOrdered(t, before) && before <= now
    ensures StampsOrdered(Moved(t, dto, now), now)
  {
  }

  /** Moving a task to the column it is in, without an assignee, changes nothing. */
  lemma MovedInPlace(t: Task, now: int)
    ensures Moved(t, UpdateTaskStatusDto(t.status, KeepAssignee), now) == t
  {
  }

  /** Moving out of DONE and back reopens the task once and stamps it anew. */
  lemma ReopenThenComplete(t: Task, back: TaskStatus, now1: int, now2: int)
    requires t.status == TaskStatus.DONE && back != TaskStatus.DONE
    ensures Moved(Moved(t, UpdateTaskStatusDto(back, KeepAssignee), now1), UpdateTaskStatusDto(TaskStatus.DONE, KeepAssignee), now2).reopenCount == t.reopenCount + 1
    ensures Moved(Moved(t, UpdateTaskStatusDto(back, KeepAssignee), now1), UpdateTaskStatusDto(TaskStatus.DONE, KeepAssignee), now2).completedAt == Some(now2)
  {
  }

  /** `assignedToId: null` clears the assignee even on the move that completes the task: the
      guard passes on the stored assignee, the completed task has none, and no PSP row is
      recalculated for it. */
  lemma UnassignedCompletionSkipsPsp(metrics: seq<Psp.PspRow>, t: Task, story: Story, tasks: seq<Task>, stories: seq<Story>, now: int)
    requires Psp.UniqueKeys(metrics)
    requires t.status != TaskStatus.DONE && Present(t.assignedToId) && story.acceptanceCriteria != ""
    ensures ReadyForReview(t, story, UpdateTaskStatusDto(TaskStatus.DONE, Unassign))
    ensures var after := Moved(t, UpdateTaskStatusDto(TaskStatus.DONE, Unassign), now);
      after.status == TaskStatus.DONE && after.assignedToId.None?
      && PspAfter(metrics, t, after, story, tasks, stories, now) == metrics
  {
  }

  /** `task.update({ where: { id } })`: the row with that id is replaced. */
  function ReplaceTask(rows: seq<Task>, t: Task): (r: seq<Task>)
    ensures |r| == |rows|
    ensures forall k :: 0 <= k < |rows| ==> r[k] == if rows[k].id == t.id then t else rows[k]
  {
    seq(|rows|, k requires 0 <= k < |rows| => if rows[k].id == t.id then t else rows[k])
  }

  lemma ReplaceTaskKeepsIds(rows: seq<Task>, t: Task)
    ensures TaskIds(ReplaceTask(rows, t)) == TaskIds(rows)
  {
  }

  /** Completing one task raises its column count by one and reopening lowers it by one:
      the DONE count of the table moves with the task. */
  lemma {:induction false} CountDoneReplace(rows: seq<Task>, t: Task)
    requires Collections.NoDuplicates(TaskIds(rows))
    requires FindTask(rows, t.id).Some?
    ensures Psp.CountDone(ReplaceTask(rows, t)) + (if FindTask(rows, t.id).value.status == TaskStatus.DONE then 1 else 0)
      == Psp.CountDone(rows) + (if t.status == TaskStatus.DONE then 1 else 0)
  {
    var r := ReplaceTask(rows, t);
    assert r[0] == if rows[0].id == t.id then t else rows[0];
    assert r[1..] == ReplaceTask(rows[1..], t);
    if rows[0].id == t.id {
      assert FindTask(rows, t.id).value == rows[0];
      forall k | 0 <= k < |rows[1..]|
        ensures rows[1..][k].id != t.id
      {
        assert TaskIds(rows)[0] != TaskIds(rows)[k + 1];
      }
      assert ReplaceTask(rows[1..], t) == rows[1..];
    } else {
      assert TaskIds(rows[1..]) == TaskIds(rows)[1..];
      CountDoneReplace(rows[1..], t);
    }
  }

  /** The activity-log row. */
  datatype ActivityLog = ActivityLog(taskId: Id, userId: Id, action: string, fromStatus: Option<TaskStatus>, toStatus: Option<TaskStatus>, description: string)

  function MoveLog(taskId: Id, userId: Id, from: TaskStatus, to: TaskStatus): (l: ActivityLog)
    ensures l.taskId == taskId && l.userId == userId && l.action == "moved"
    ensures l.fromStatus == Some(from) && l.toStatus == Some(to)
  {
    ActivityLog(taskId, userId, "moved", Some(from), Some(to), "Moved from " + StatusName(from) + " to " + StatusName(to))
  }

  function AssignLog(taskId: Id, userId: Id, assignee: Option<Id>): (l: ActivityLog)
    ensures l.taskId == taskId && l.userId == userId && l.action == "assigned"
    ensures l.fromStatus.None? && l.toStatus.None?
  {
    ActivityLog(taskId, userId, "assigned", None, None,
      if Present(assignee) then "Assigned to user " + assignee.value else "Unassigned from user")
  }

  /** After a move that completes or reopens a task with an assignee and a sprint, the
      assignee's PSP row of that sprint is recalculated (`recalculatePSPMetrics`). */
  predicate TriggersPsp(before: Task, after: Task, story: Story) {
    (Completes(before.status, after.status) || Reopens(before.status, after.status))
    && Present(after.assignedToId) && story.sprintId.Some?
  }

  /** The PSP table after a move: the assignee's row of the story's sprint is recomputed
      from the updated task table and upserted when the move triggers it. */
  function PspAfter(metrics: seq<Psp.PspRow>, before: Task, after: Task, story: Story, tasks: seq<Task>, stories: seq<Story>, now: int): (r: seq<Psp.PspRow>)
    requires Psp.UniqueKeys(metrics)
    ensures Psp.UniqueKeys(r)
    ensures !TriggersPsp(before, after, story) ==> r == metrics
    ensures TriggersPsp(before, after, story) ==>
      var row := Psp.Measure(story.sprintId.value, after.assignedToId.value, Psp.DeveloperTasks(tasks, stories, story.sprintId.value, after.assignedToId.value), now);
      row in r && forall x :: x in r && Psp.Key(x) == Psp.Key(row) ==> x == row
  {
    if TriggersPsp(before, after, story) then
      var row := Psp.Measure(story.sprintId.value, after.assignedToId.value, Psp.DeveloperTasks(tasks, stories, story.sprintId.value, after.assignedToId.value), now);
      Psp.UpsertSpec(metrics, row);
      Psp.Upsert(metrics, row)
    else metrics
  }

  /** `assignTask`'s checks: the task is in the project, the caller is the owner or an
      active member, and a truthy assignee is the owner or an active member too. */
  function AssignCheck(projects: map<Id, Project>, stories: seq<Story>, tasks: seq<Task>, projectId: Id, taskId: Id, assignee: Option<Id>, userId: Id): (r: Result<Task, Failure>)
    ensures r.Ok? <==> (TaskInProject(projects, stories, tasks, projectId, taskId).Ok?
      && IsOwnerOrMember(projects[projectId], userId)
      && (Present(assignee) ==> IsOwnerOrMember(projects[projectId], assignee.value)))
    ensures r.Ok? ==> r.value == FindTask(tasks, taskId).value
  {
    var found := TaskInProject(projects, stories, tasks, projectId, taskId);
    if found.Err? then Err(found.error)
    else if !IsOwnerOrMember(projects[projectId], userId) then Err(Forbidden("no access to this project"))
    else if Present(assignee) && !IsOwnerOrMember(projects[projectId], assignee.value) then
      Err(BadRequest("the assignee must be a project member"))
    else Ok(found.value.0)
  }

  /** `getTaskActivity`'s log: the task's entries, newest first (rows are appended in time order). */
  function ActivityOf(logs: seq<ActivityLog>, taskId: Id): (r: seq<ActivityLog>)
    ensures forall l :: l in r <==> l in logs && l.taskId == taskId
    ensures |r| <= |logs|
  {
    if logs == [] then []
    else ActivityOf(logs[1..], taskId) + (if logs[0].taskId == taskId then [logs[0]] else [])
  }

  /** The newest entry of the task is listed first. */
  lemma {:induction false} NewestActivityFirst(logs: seq<ActivityLog>, entry: ActivityLog)
    ensures ActivityOf(logs + [entry], entry.taskId) == [entry] + ActivityOf(logs, entry.taskId)
  {
    var xs := logs + [entry];
    if logs == [] {
      assert xs[1..] == [];
    } else {
      assert xs[0] == logs[0];
      assert xs[1..] == logs[1..] + [entry];
      NewestActivityFirst(logs[1..], entry);
      var head := if logs[0].taskId == entry.taskId then [logs[0]] else [];
      assert ActivityOf(xs, entry.taskId) == ([entry] + ActivityOf(logs[1..], entry.taskId)) + head;
      assert ActivityOf(logs, entry.taskId) == ActivityOf(logs[1..], entry.taskId) + head;
    }
  }

  /** `getTaskActivity`: the task's log for whoever may read the project. */
  function TaskActivity(projects: map<Id, Project>, stories: seq<Story>, tasks: seq<Task>, logs: seq<ActivityLog>, projectId: Id, taskId: Id, userId: Id): (r: Result<seq<ActivityLog>, Failure>)
    ensures r.Ok? <==> TaskInProject(projects, stories, tasks, projectId, taskId).Ok? && CheckAccess(projects[projectId], userId).Ok?
    ensures r.Ok? ==> r.value == ActivityOf(logs, taskId)
  {
    var found := TaskInProject(projects, stories, tasks, projectId, taskId);
    if found.Err? then Err(found.error)
    else
      var access := CheckAccess(projects[projectId], userId);
      if access.Err? then Err(access.error) else Ok(ActivityOf(logs, taskId))
  }

  // ---------------------------------------------------------------------------------
  // The service
  // ---------------------------------------------------------------------------------

  class KanbanService {
    var projects: map<Id, Project>
    var sprints: seq<Sprint>
    var stories: seq<Story>
    var tasks: seq<Task>
    var logs: seq<ActivityLog>
    var metrics: seq<Psp.PspRow>

    /** Task ids are unique and there is one PSP row per (sprint, developer). */
    predicate Valid()
      reads this
    {
      Collections.NoDuplicates(TaskIds(tasks)) && Psp.UniqueKeys(metrics)
    }

    constructor(projects0: map<Id, Project>, sprints0: seq<Sprint>, stories0: seq<Story>, tasks0: seq<Task>)
      requires Collections.NoDuplicates(TaskIds(tasks0))
      ensures Valid() && projects == projects0 && sprints == sprints0 && stories == stories0 && tasks == tasks0
      ensures logs == [] && metrics == []
    {
      projects := projects0;
      sprints := sprints0;
      stories := stories0;
      tasks := tasks0;
      logs := [];
      metrics := [];
    }

    /** `updateTaskStatus`: the task row, the activity log and, when the move completes or
        reopens an assigned task of a sprint, the assignee's PSP row, in one step. */
    method UpdateTaskStatus(projectId: Id, taskId: Id, userId: Id, dto: UpdateTaskStatusDto, now: int) returns (r: Result<Task, Failure>)
      requires Valid()
      modifies this
      ensures Valid() && projects == old(projects) && sprints == old(sprints) && stories == old(stories)
      ensures r.Err? <==> MoveCheck(old(projects), old(stories), old(tasks), projectId, taskId, userId, dto).Err?
      ensures r.Err? ==> unchanged(this)
      ensures r.Ok? ==> r.value == Moved(FindTask(old(tasks), taskId).value, dto, now)
      ensures r.Ok? ==> tasks == ReplaceTask(old(tasks), r.value)
      ensures r.Ok? ==> logs == old(logs) + [MoveLog(taskId, userId, FindTask(old(tasks), taskId).value.status, dto.status)]
      ensures r.Ok? ==> metrics == PspAfter(old(metrics), FindTask(old(tasks), taskId).value, r.value, FindStory(stories, r.value.storyId).value, tasks, stories, now)
    {
      var check := MoveCheck(projects, stories, tasks, projectId, taskId, userId, dto);
      if check.Err? {
        return Err(check.error);
      }
      var (task, story) := check.value;
      var updated := Moved(task, dto, now);
      ReplaceTaskKeepsIds(tasks, updated);
      tasks := ReplaceTask(tasks, updated);
      logs := logs + [MoveLog(taskId, userId, task.status, dto.status)];
      metrics := PspAfter(metrics, task, updated, story, tasks, stories, now);
      r := Ok(updated);
    }

    /** `assignTask`: the assignee is replaced (`None` or an empty id unassigns) and the
        assignment is logged. */
    method AssignTask(projectId: Id, taskId: Id, assignee: Option<Id>, userId: Id) returns (r: Result<Task, Failure>)
      requires Valid()
      modifies this
      ensures Valid() && projects == old(projects) && sprints == old(sprints) && stories == old(stories) && metrics == old(metrics)
      ensures r.Err? <==> AssignCheck(old(projects), old(stories), old(tasks), projectId, taskId, assignee, userId).Err?
      ensures r.Err? ==> unchanged(this)
      ensures r.Ok? ==> r.value == FindTask(old(tasks), taskId).value.(assignedToId := assignee)
      ensures r.Ok? ==> tasks == ReplaceTask(old(tasks), r.value)
      ensures r.Ok? ==> logs == old(logs) + [AssignLog(taskId, userId, assignee)]
    {
      var check := AssignCheck(projects, stories, tasks, projectId, taskId, assignee, userId);
      if check.Err? {
        return Err(check.error);
      }
      var updated := check.value.(assignedToId := assignee);
      ReplaceTaskKeepsIds(tasks, updated);
      tasks := ReplaceTask(tasks, updated);
      logs := logs + [AssignLog(taskId, userId, assignee)];
      r := Ok(updated);
    }
  }
}
