/** The sprint service: sprint creation and editing, moving stories in and out of a sprint,
    the sprint backlog's tasks, and starting a sprint. The service owns the project, sprint,
    story and task tables; every write goes through its guards. */
module Sprints {
  import opened Wrappers
  import opened Scrum
  import opened Backlog
  import opened Text
  import Collections

  // ---------------------------------------------------------------------------------
  // Sprint table queries

  /** `sprint.findFirst({ where: { id, projectId } })`. */
  function FindSprint(rows: seq<Sprint>, id: Id, projectId: Id): (r: Option<Sprint>)
    ensures r.Some? <==> exists k :: 0 <= k < |rows| && rows[k].id == id && rows[k].projectId == projectId
    ensures r.Some? ==> r.value in rows && r.value.id == id && r.value.projectId == projectId
  {
    if rows == [] then None
    else if rows[0].id == id && rows[0].projectId == projectId then Some(rows[0])
    else FindSprint(rows[1..], id, projectId)
  }

  function SprintIds(rows: seq<Sprint>): (ids: seq<Id>)
    ensures |ids| == |rows| && forall k :: 0 <= k < |rows| ==> ids[k] == rows[k].id
  {
    seq(|rows|, k requires 0 <= k < |rows| => rows[k].id)
  }

  /** The project already has a sprint with that number (the `projectId_number` key). */
  predicate NumberTaken(rows: seq<Sprint>, projectId: Id, number: int) {
    exists k :: 0 <= k < |rows| && rows[k].projectId == projectId && rows[k].number == number
  }

  /** The unique key `(projectId, number)` of the sprint table. */
  predicate UniqueNumbers(rows: seq<Sprint>) {
    forall i, j :: 0 <= i < j < |rows| && rows[i].projectId == rows[j].projectId ==> rows[i].number != rows[j].number
  }

  /** No project has two sprints under way. */
  predicate AtMostOneActive(rows: seq<Sprint>) {
    forall i, j :: 0 <= i < j < |rows| && rows[i].projectId == rows[j].projectId && rows[i].status == SprintStatus.IN_PROGRESS ==>
      rows[j].status != SprintStatus.IN_PROGRESS
  }

  /** `sprint.count({ where: { projectId, status: 'IN_PROGRESS' } })`. */
  function ActiveCount(rows: seq<Sprint>, projectId: Id): (n: nat)
    ensures n <= |rows|
    ensures n == 0 <==> forall k :: 0 <= k < |rows| && rows[k].projectId == projectId ==> rows[k].status != SprintStatus.IN_PROGRESS
  {
    if rows == [] then 0
    else (if rows[0].projectId == projectId && rows[0].status == SprintStatus.IN_PROGRESS then 1 else 0) + ActiveCount(rows[1..], projectId)
  }

  /** `sprint.update({ where: { id }, data: { status } })`. */
  function SetSprintStatus(rows: seq<Sprint>, id: Id, status: SprintStatus): (r: seq<Sprint>)
    ensures |r| == |rows|
    ensures forall k :: 0 <= k < |rows| && rows[k].id == id ==> r[k] == rows[k].(status := status)
    ensures forall k :: 0 <= k < |rows| && rows[k].id != id ==> r[k] == rows[k]
  {
    seq(|rows|, k requires 0 <= k < |rows| => if rows[k].id == id then rows[k].(status := status) else rows[k])
  }

  // ---------------------------------------------------------------------------------
  // Story and task table updates

  /** `userStory.updateMany({ where: { id: { in: ids } }, data: { sprintId } })`: a null
      `sprintId` takes the stories out of any sprint. */
  function MoveStories(rows: seq<Story>, ids: seq<Id>, sprintId: Option<Id>): (r: seq<Story>)
    ensures |r| == |rows|
    ensures forall k :: 0 <= k < |rows| && rows[k].id in ids ==> r[k] == rows[k].(sprintId := sprintId)
    ensures forall k :: 0 <= k < |rows| && rows[k].id !in ids ==> r[k] == rows[k]
  {
    seq(|rows|, k requires 0 <= k < |rows| => if rows[k].id in ids then rows[k].(sprintId := sprintId) else rows[k])
  }

  /** `task.deleteMany({ where: { storyId: { in: ids } } })`. */
  function DropTasksOf(rows: seq<Task>, ids: seq<Id>): (r: seq<Task>)
    ensures forall t :: t in r <==> t in rows && t.storyId !in ids
    ensures |r| <= |rows|
  {
    if rows == [] then []
    else (if rows[0].storyId in ids then [] else [rows[0]]) + DropTasksOf(rows[1..], ids)
  }

  /** The tasks of a story when a table is split in two: a filter distributes over `+`. */
  lemma {:induction false} StoryTasksAppend(a: seq<Task>, b: seq<Task>, storyId: Id)
    ensures StoryTasks(a + b, storyId) == StoryTasks(a, storyId) + StoryTasks(b, storyId)
  {
    if a == [] {
      assert a + b == b;
    } else {
      assert (a + b)[0] == a[0] && (a + b)[1..] == a[1..] + b;
      StoryTasksAppend(a[1..], b, storyId);
    }
  }

  // ---------------------------------------------------------------------------------
  // Task codes and the tasks created with a story

  /** `T-<storyCode>-<n>`. */
  function TaskCode(storyCode: string, n: nat): (code: string)
    ensures |code| > |storyCode| + 3 && code[..2] == "T-" && code[2 + |storyCode|] == '-'
  {
    "T-" + storyCode + "-" + NatToString(n)
  }

  /** The number at the end of a task code determines it: two tasks of one story whose
      codes were generated from different counts have different codes. */
  lemma TaskCodeInjective(storyCode: string, m: nat, n: nat)
    requires TaskCode(storyCode, m) == TaskCode(storyCode, n)
    ensures m == n
  {
    var prefix := "T-" + storyCode + "-";
    assert TaskCode(storyCode, m)[|prefix|..] == NatToString(m);
    assert TaskCode(storyCode, n)[|prefix|..] == NatToString(n);
    NatToStringInjective(m, n);
  }

  /** `story.description || 'Implementar: ' + iWant`: a null or empty description falls back. */
  function TaskDescription(story: Story): (d: string)
    ensures story.description.Some? && story.description.value != [] ==> d == story.description.value
    ensures story.description.None? || story.description.value == [] ==> d == "Implementar: " + story.iWant
  {
    if story.description.Some? && story.description.value != [] then story.description.value
    else "Implementar: " + story.iWant
  }

  /** The task `addStoriesToSprint` creates for a story that has none. */
  function AutoTask(story: Story, id: Id): (t: Task)
    ensures t.storyId == story.id && t.code == TaskCode(story.code, 1) && t.status == TODO
    ensures t.title == story.title && t.effort == story.estimateHours
    ensures t.description == Some(TaskDescription(story)) && t.assignedToId == None
  {
    Task(id, story.id, TaskCode(story.code, 1), story.title, Some(TaskDescription(story)), story.estimateHours,
         TODO, None, false, 0, None, None)
  }

  /** A story `addStoriesToSprint` gives a task: listed, of the project, and without tasks. */
  predicate NeedsTask(story: Story, tasks: seq<Task>, projectId: Id, ids: seq<Id>) {
    story.id in ids && story.projectId == projectId && StoryTasks(tasks, story.id) == []
  }

  /** The tasks `addStoriesToSprint` creates for one story: one task if it needs one. */
  function OwnTask(story: Story, tasks: seq<Task>, projectId: Id, ids: seq<Id>, id: Id): (r: seq<Task>)
    ensures |r| <= 1 && forall t :: t in r ==> t == AutoTask(story, id)
    ensures r != [] <==> NeedsTask(story, tasks, projectId, ids)
  {
    if NeedsTask(story, tasks, projectId, ids) then [AutoTask(story, id)] else []
  }

  /** Only the story's own task can belong to the story. */
  lemma StoryTasksOfOwn(story: Story, tasks: seq<Task>, projectId: Id, ids: seq<Id>, id: Id, storyId: Id)
    ensures StoryTasks(OwnTask(story, tasks, projectId, ids, id), storyId) ==
      if storyId == story.id then OwnTask(story, tasks, projectId, ids, id) else []
  {
    var own := OwnTask(story, tasks, projectId, ids, id);
    if own != [] {
      assert own == [AutoTask(story, id)] && own[1..] == [];
    }
  }

  /** The tasks `addStoriesToSprint` creates, in table order; the story at position k of the
      table gets the id `newIds[k]`. */
  function AutoTasks(rows: seq<Story>, tasks: seq<Task>, projectId: Id, ids: seq<Id>, newIds: seq<Id>): (r: seq<Task>)
    requires |newIds| >= |rows|
    decreases |rows|
  {
    if rows == [] then []
    else
      var n := |rows| - 1;
      AutoTasks(rows[..n], tasks, projectId, ids, newIds) + OwnTask(rows[n], tasks, projectId, ids, newIds[n])
  }

  /** A story that is not in the table gets no task from `addStoriesToSprint`. */
  lemma {:induction false} AutoTasksAvoid(rows: seq<Story>, tasks: seq<Task>, projectId: Id, ids: seq<Id>, newIds: seq<Id>, id: Id)
    requires |newIds| >= |rows| && forall j :: 0 <= j < |rows| ==> rows[j].id != id
    ensures StoryTasks(AutoTasks(rows, tasks, projectId, ids, newIds), id) == []
    decreases |rows|
  {
    if rows != [] {
      var n := |rows| - 1;
      StoryTasksAppend(AutoTasks(rows[..n], tasks, projectId, ids, newIds), OwnTask(rows[n], tasks, projectId, ids, newIds[n]), id);
      StoryTasksOfOwn(rows[n], tasks, projectId, ids, newIds[n], id);
      AutoTasksAvoid(rows[..n], tasks, projectId, ids, newIds, id);
    }
  }

  /** The last story of the table gets its own task and no other. */
  lemma AutoTasksOfLast(rows: seq<Story>, tasks: seq<Task>, projectId: Id, ids: seq<Id>, newIds: seq<Id>)
    requires |newIds| >= |rows| && Collections.NoDuplicates(StoryIds(rows)) && rows != []
    ensures StoryTasks(AutoTasks(rows, tasks, projectId, ids, newIds), rows[|rows| - 1].id) ==
      OwnTask(rows[|rows| - 1], tasks, projectId, ids, newIds[|rows| - 1])
  {
    var n := |rows| - 1;
    var id := rows[n].id;
    StoryTasksAppend(AutoTasks(rows[..n], tasks, projectId, ids, newIds), OwnTask(rows[n], tasks, projectId, ids, newIds[n]), id);
    StoryTasksOfOwn(rows[n], tasks, projectId, ids, newIds[n], id);
    forall j | 0 <= j < n ensures rows[..n][j].id != id {
      assert StoryIds(rows)[j] != StoryIds(rows)[n];
    }
    AutoTasksAvoid(rows[..n], tasks, projectId, ids, newIds, id);
  }

  /** With unique story ids, each story of the table gets at most one task from
      `addStoriesToSprint`, and gets one exactly when it needs one. */
  lemma {:induction false} AutoTasksOfStory(rows: seq<Story>, tasks: seq<Task>, projectId: Id, ids: seq<Id>, newIds: seq<Id>, k: nat)
    requires |newIds| >= |rows| && Collections.NoDuplicates(StoryIds(rows)) && k < |rows|
    ensures StoryTasks(AutoTasks(rows, tasks, projectId, ids, newIds), rows[k].id) == OwnTask(rows[k], tasks, projectId, ids, newIds[k])
    decreases |rows|
  {
    var n := |rows| - 1;
    if k < n {
      var id := rows[k].id;
      StoryTasksAppend(AutoTasks(rows[..n], tasks, projectId, ids, newIds), OwnTask(rows[n], tasks, projectId, ids, newIds[n]), id);
      StoryTasksOfOwn(rows[n], tasks, projectId, ids, newIds[n], id);
      assert StoryIds(rows[..n]) == StoryIds(rows)[..n];
      AutoTasksOfStory(rows[..n], tasks, projectId, ids, newIds, k);
      assert StoryIds(rows)[k] != StoryIds(rows)[n];
    } else {
      AutoTasksOfLast(rows, tasks, projectId, ids, newIds);
    }
  }

  /** `addStoriesToSprint` on the task table: every listed story of the project that had no
      task now has exactly one, the TODO task `T-<code>-1` carrying the story's estimate;
      every other story keeps the tasks it had. */
  lemma AddedStoryGetsOneTask(rows: seq<Story>, tasks: seq<Task>, projectId: Id, ids: seq<Id>, newIds: seq<Id>, k: nat)
    requires |newIds| >= |rows| && Collections.NoDuplicates(StoryIds(rows)) && k < |rows|
    ensures NeedsTask(rows[k], tasks, projectId, ids) ==>
      var after := StoryTasks(tasks + AutoTasks(rows, tasks, projectId, ids, newIds), rows[k].id);
      |after| == 1 && after[0].code == TaskCode(rows[k].code, 1) && after[0].status == TODO && after[0].effort == rows[k].estimateHours
    ensures !NeedsTask(rows[k], tasks, projectId, ids) ==>
      StoryTasks(tasks + AutoTasks(rows, tasks, projectId, ids, newIds), rows[k].id) == StoryTasks(tasks, rows[k].id)
  {
    StoryTasksAppend(tasks, AutoTasks(rows, tasks, projectId, ids, newIds), rows[k].id);
    AutoTasksOfStory(rows, tasks, projectId, ids, newIds, k);
    var own := OwnTask(rows[k], tasks, projectId, ids, newIds[k]);
    if own != [] {
      assert own[0] in own;
    }
  }

  // ---------------------------------------------------------------------------------
  // Guards

  datatype CreateSprintDto = CreateSprintDto(
    number: int, name: string, goal: string, startDate: int, endDate: int, duration: int,
    capacity: Option<real>, storyIds: seq<Id>)

  datatype UpdateSprintDto = UpdateSprintDto(
    name: Option<string>, goal: Option<string>, startDate: Option<int>, endDate: Option<int>,
    duration: Option<int>, capacity: Option<real>)

  datatype CreateTaskDto = CreateTaskDto(
    storyId: Id, title: string, description: Option<string>, effort: real, assignedToId: Option<Id>)

  datatype UpdateTaskDto = UpdateTaskDto(
    title: Option<string>, description: Option<string>, effort: Option<real>, assignedToId: Option<Id>)

  /** `createSprint`'s checks, in order: access, the SCRUM_MASTER or PRODUCT_OWNER role or
      ownership, a number free in the project, a duration of 1 to 4 weeks. */
  function CreateSprintCheck(projects: map<Id, Project>, sprints: seq<Sprint>, projectId: Id, dto: CreateSprintDto, userId: Id): (r: Option<Failure>)
    ensures r.None? <==> (projectId in projects && IsManager(projects[projectId], userId)
      && !NumberTaken(sprints, projectId, dto.number) && 1 <= dto.duration <= 4)
    ensures projectId in projects && !IsManager(projects[projectId], userId) ==> r.Some? && r.value.Forbidden?
    ensures NumberTaken(sprints, projectId, dto.number) || dto.duration < 1 || dto.duration > 4 ==>
      r.Some? && (r.value.BadRequest? || r.value.Forbidden? || r.value.NotFound?)
  {
    var access := VerifyAccess(projects, projectId, userId);
    if access.Err? then Some(access.error)
    else if access.value.role != Some(SCRUM_MASTER) && access.value.role != Some(PRODUCT_OWNER) && !access.value.isOwner then
      Some(Forbidden("only the Scrum Master or the Product Owner may create sprints"))
    else if NumberTaken(sprints, projectId, dto.number) then Some(BadRequest("a sprint with that number exists"))
    else if dto.duration > 4 || dto.duration < 1 then Some(BadRequest("the duration must be 1 to 4 weeks"))
    else None
  }

  /** The rule the sprint-editing and task-writing operations share: access, a role, the
      sprint in the project, and the sprint still PLANNED. */
  function PlannedSprintCheck(projects: map<Id, Project>, sprints: seq<Sprint>, projectId: Id, sprintId: Id, userId: Id, developerRule: bool): (r: Result<Sprint, Failure>)
    ensures r.Ok? <==> (projectId in projects
      && (if developerRule then IsDeveloperOrOwner(projects[projectId], userId) else IsManager(projects[projectId], userId))
      && FindSprint(sprints, sprintId, projectId).Some? && FindSprint(sprints, sprintId, projectId).value.status == PLANNED)
    ensures r.Ok? ==> r.value == FindSprint(sprints, sprintId, projectId).value
    ensures FindSprint(sprints, sprintId, projectId).Some? && FindSprint(sprints, sprintId, projectId).value.status != PLANNED ==>
      r.Err? && (r.error.BadRequest? || r.error.Forbidden? || r.error.NotFound?)
  {
    var access := VerifyAccess(projects, projectId, userId);
    if access.Err? then Err(access.error)
    else if developerRule && access.value.role != Some(DEVELOPER) && !access.value.isOwner then
      Err(Forbidden("only Developers may write tasks"))
    else if !developerRule && access.value.role != Some(SCRUM_MASTER) && access.value.role != Some(PRODUCT_OWNER) && !access.value.isOwner then
      Err(Forbidden("only the Scrum Master or the Product Owner may edit sprints"))
    else
      var sprint := FindSprint(sprints, sprintId, projectId);
      if sprint.None? then Err(NotFound("sprint"))
      else if sprint.value.status != PLANNED then Err(BadRequest("the sprint is not PLANNED"))
      else Ok(sprint.value)
  }

  /** A truthy assignee must be an active member or the owner (`createTask`, `updateTask`). */
  predicate AssigneeAllowed(p: Project, assignee: Option<Id>) {
    assignee.None? || assignee.value == [] || IsOwnerOrMember(p, assignee.value)
  }

  /** `findFirst({ where: { id: storyId, projectId, sprintId } })`. */
  function FindSprintStory(rows: seq<Story>, storyId: Id, projectId: Id, sprintId: Id): (r: Option<Story>)
    ensures r.Some? <==> exists k :: 0 <= k < |rows| && rows[k].id == storyId && rows[k].projectId == projectId && rows[k].sprintId == Some(sprintId)
    ensures r.Some? ==> r.value in rows && r.value.id == storyId && r.value.projectId == projectId && r.value.sprintId == Some(sprintId)
  {
    if rows == [] then None
    else if rows[0].id == storyId && rows[0].projectId == projectId && rows[0].sprintId == Some(sprintId) then Some(rows[0])
    else FindSprintStory(rows[1..], storyId, projectId, sprintId)
  }

  /** `task.findFirst({ where: { id, story: { sprintId } } })`: the task, when its story is
      in the sprint. */
  function FindSprintTask(tasks: seq<Task>, stories: seq<Story>, taskId: Id, sprintId: Id): (r: Option<Task>)
    ensures r.Some? <==> exists k :: 0 <= k < |tasks| && tasks[k].id == taskId && InSprint(stories, tasks[k].storyId, sprintId)
    ensures r.Some? ==> r.value in tasks && r.value.id == taskId && InSprint(stories, r.value.storyId, sprintId)
  {
    if tasks == [] then None
    else if tasks[0].id == taskId && InSprint(stories, tasks[0].storyId, sprintId) then Some(tasks[0])
    else FindSprintTask(tasks[1..], stories, taskId, sprintId)
  }

  /** `createTask`'s checks after the shared ones: the story must be in the project and in
      the sprint, and a truthy assignee must belong to the team. */
  function CreateTaskCheck(projects: map<Id, Project>, sprints: seq<Sprint>, stories: seq<Story>, projectId: Id, sprintId: Id, dto: CreateTaskDto, userId: Id): (r: Result<Story, Failure>)
    ensures r.Ok? <==> (PlannedSprintCheck(projects, sprints, projectId, sprintId, userId, true).Ok?
      && FindSprintStory(stories, dto.storyId, projectId, sprintId).Some?
      && AssigneeAllowed(projects[projectId], dto.assignedToId))
    ensures r.Ok? ==> r.value == FindSprintStory(stories, dto.storyId, projectId, sprintId).value
  {
    var sprint := PlannedSprintCheck(projects, sprints, projectId, sprintId, userId, true);
    if sprint.Err? then Err(sprint.error)
    else
      var story := FindSprintStory(stories, dto.storyId, projectId, sprintId);
      if story.None? then Err(NotFound("story not found or not in this sprint"))
      else if !AssigneeAllowed(projects[projectId], dto.assignedToId) then Err(BadRequest("the assignee is not a member of the project"))
      else Ok(story.value)
  }

  /** `updateTask`'s checks: the shared ones, the task's story in the sprint, and a truthy
      assignee in the team. */
  function UpdateTaskCheck(projects: map<Id, Project>, sprints: seq<Sprint>, stories: seq<Story>, tasks: seq<Task>, projectId: Id, sprintId: Id, taskId: Id, dto: UpdateTaskDto, userId: Id): (r: Option<Failure>)
    ensures r.None? <==> (PlannedSprintCheck(projects, sprints, projectId, sprintId, userId, true).Ok?
      && FindSprintTask(tasks, stories, taskId, sprintId).Some?
      && AssigneeAllowed(projects[projectId], dto.assignedToId))
  {
    var sprint := PlannedSprintCheck(projects, sprints, projectId, sprintId, userId, true);
    if sprint.Err? then Some(sprint.error)
    else if FindSprintTask(tasks, stories, taskId, sprintId).None? then Some(NotFound("task not found in this sprint"))
    else if !AssigneeAllowed(projects[projectId], dto.assignedToId) then Some(BadRequest("the assignee is not a member of the project"))
    else None
  }

  /** `deleteTask`'s checks: the shared ones and the task's story in the sprint. */
  function DeleteTaskCheck(projects: map<Id, Project>, sprints: seq<Sprint>, stories: seq<Story>, tasks: seq<Task>, projectId: Id, sprintId: Id, taskId: Id, userId: Id): (r: Option<Failure>)
    ensures r.None? <==> (PlannedSprintCheck(projects, sprints, projectId, sprintId, userId, true).Ok?
      && FindSprintTask(tasks, stories, taskId, sprintId).Some?)
  {
    var sprint := PlannedSprintCheck(projects, sprints, projectId, sprintId, userId, true);
    if sprint.Err? then Some(sprint.error)
    else if FindSprintTask(tasks, stories, taskId, sprintId).None? then Some(NotFound("task not found in this sprint"))
    else None
  }

  /** Once a sprint has left PLANNED, it can no longer be edited and its backlog's tasks can
      no longer be created, updated or deleted, whoever asks. */
  lemma OnlyPlannedSprintsChange(projects: map<Id, Project>, sprints: seq<Sprint>, stories: seq<Story>, tasks: seq<Task>,
                                 projectId: Id, sprintId: Id, taskId: Id, userId: Id,
                                 sprintDto: UpdateSprintDto, createDto: CreateTaskDto, updateDto: UpdateTaskDto)
    requires FindSprint(sprints, sprintId, projectId).Some? && FindSprint(sprints, sprintId, projectId).value.status != PLANNED
    ensures PlannedSprintCheck(projects, sprints, projectId, sprintId, userId, false).Err?
    ensures CreateTaskCheck(projects, sprints, stories, projectId, sprintId, createDto, userId).Err?
    ensures UpdateTaskCheck(projects, sprints, stories, tasks, projectId, sprintId, taskId, updateDto, userId).Some?
    ensures DeleteTaskCheck(projects, sprints, stories, tasks, projectId, sprintId, taskId, userId).Some?
  {
  }

  /** The stories of a sprint that have no task (`storiesWithoutTasks`). */
  function Untasked(rows: seq<Story>, tasks: seq<Task>): (r: seq<Story>)
    ensures forall s :: s in r <==> s in rows && StoryTasks(tasks, s.id) == []
  {
    if rows == [] then []
    else (if StoryTasks(tasks, rows[0].id) == [] then [rows[0]] else []) + Untasked(rows[1..], tasks)
  }

  /** `startSprint`'s checks, in order: access, the SCRUM_MASTER role or ownership, the
      sprint in the project, PLANNED, at least one story, every story with a task, and no
      sprint of the project under way. */
  function StartCheck(projects: map<Id, Project>, sprints: seq<Sprint>, stories: seq<Story>, tasks: seq<Task>, projectId: Id, sprintId: Id, userId: Id): (r: Option<Failure>)
    ensures r.None? <==> (projectId in projects && IsScrumMasterOrOwner(projects[projectId], userId)
      && FindSprint(sprints, sprintId, projectId).Some? && FindSprint(sprints, sprintId, projectId).value.status == PLANNED
      && SprintStories(stories, sprintId) != []
      && (forall s :: s in SprintStories(stories, sprintId) ==> StoryTasks(tasks, s.id) != [])
      && (forall k :: 0 <= k < |sprints| && sprints[k].projectId == projectId ==> sprints[k].status != SprintStatus.IN_PROGRESS))
  {
    var access := VerifyAccess(projects, projectId, userId);
    if access.Err? then Some(access.error)
    else if access.value.role != Some(SCRUM_MASTER) && !access.value.isOwner then Some(Forbidden("only the Scrum Master may start sprints"))
    else
      var sprint := FindSprint(sprints, sprintId, projectId);
      if sprint.None? then Some(NotFound("sprint"))
      else if sprint.value.status != PLANNED then Some(BadRequest("only PLANNED sprints can start"))
      else
        var members := SprintStories(stories, sprintId);
        if |members| == 0 then Some(BadRequest("the sprint has no stories"))
        else if |Untasked(members, tasks)| > 0 then
          assert Untasked(members, tasks)[0] in Untasked(members, tasks);
          Some(BadRequest("some stories have no tasks"))
        else if ActiveCount(sprints, projectId) > 0 then Some(BadRequest("another sprint is in progress"))
        else None
  }

  /** `userStory.updateMany({ where: { id: { in: storyIds } }, data: { status: 'IN_PROGRESS' } })`
      over the sprint's stories. */
  function StartStories(rows: seq<Story>, sprintId: Id): (r: seq<Story>)
    ensures |r| == |rows|
    ensures forall k :: 0 <= k < |rows| && rows[k].sprintId == Some(sprintId) ==> r[k] == rows[k].(status := StoryStatus.IN_PROGRESS)
    ensures forall k :: 0 <= k < |rows| && rows[k].sprintId != Some(sprintId) ==> r[k] == rows[k]
  {
    seq(|rows|, k requires 0 <= k < |rows| =>
      if rows[k].sprintId == Some(sprintId) then rows[k].(status := StoryStatus.IN_PROGRESS) else rows[k])
  }

  /** The ids of the sprint's stories. */
  function SprintStoryIds(rows: seq<Story>, sprintId: Id): (ids: set<Id>)
    ensures forall id :: id in ids <==> exists s :: s in rows && s.sprintId == Some(sprintId) && s.id == id
  {
    set s | s in rows && s.sprintId == Some(sprintId) :: s.id
  }

  /** `task.updateMany({ where: { id: { in: taskIds } }, data: { status: 'TODO' } })` over the
      tasks of the sprint's stories. */
  function ResetTasks(rows: seq<Task>, storyIds: set<Id>): (r: seq<Task>)
    ensures |r| == |rows|
    ensures forall k :: 0 <= k < |rows| && rows[k].storyId in storyIds ==> r[k] == rows[k].(status := TODO)
    ensures forall k :: 0 <= k < |rows| && rows[k].storyId !in storyIds ==> r[k] == rows[k]
  {
    seq(|rows|, k requires 0 <= k < |rows| => if rows[k].storyId in storyIds then rows[k].(status := TODO) else rows[k])
  }

  /** Starting a sprint when no other sprint of its project is under way leaves exactly that
      sprint under way in the project, and keeps every other project's sprints as they were. */
  lemma {:induction false} StartKeepsOneActive(rows: seq<Sprint>, id: Id, projectId: Id)
    requires AtMostOneActive(rows) && Collections.NoDuplicates(SprintIds(rows))
    requires FindSprint(rows, id, projectId).Some? && ActiveCount(rows, projectId) == 0
    ensures AtMostOneActive(SetSprintStatus(rows, id, SprintStatus.IN_PROGRESS))
    ensures ActiveCount(SetSprintStatus(rows, id, SprintStatus.IN_PROGRESS), projectId) == 1
  {
    var r := SetSprintStatus(rows, id, SprintStatus.IN_PROGRESS);
    var k :| 0 <= k < |rows| && rows[k].id == id && rows[k].projectId == projectId;
    forall j | 0 <= j < |rows| && j != k ensures r[j] == rows[j] {
      assert SprintIds(rows)[j] != SprintIds(rows)[k];
    }
    ActiveCountSingle(r, projectId, k);
  }

  /** A table whose only sprint under way in a project is at position k counts one. */
  lemma {:induction false} ActiveCountSingle(rows: seq<Sprint>, projectId: Id, k: nat)
    requires k < |rows| && rows[k].projectId == projectId && rows[k].status == SprintStatus.IN_PROGRESS
    requires forall j :: 0 <= j < |rows| && j != k && rows[j].projectId == projectId ==> rows[j].status != SprintStatus.IN_PROGRESS
    ensures ActiveCount(rows, projectId) == 1
    decreases |rows|
  {
    if k == 0 {
      assert ActiveCount(rows[1..], projectId) == 0;
    } else {
      ActiveCountSingle(rows[1..], projectId, k - 1);
    }
  }

  // ---------------------------------------------------------------------------------
  // Rows written by the service

  /** The row `createSprint` inserts: a PLANNED sprint without a recorded velocity. */
  function NewSprint(id: Id, projectId: Id, dto: CreateSprintDto): (s: Sprint)
    ensures s.id == id && s.projectId == projectId && s.number == dto.number && s.status == PLANNED
    ensures s.name == dto.name && s.goal == dto.goal && s.startDate == dto.startDate && s.endDate == dto.endDate
    ensures s.duration == dto.duration && s.capacity == dto.capacity && s.actualVelocity == None
  {
    Sprint(id, projectId, dto.number, dto.name, dto.goal, dto.startDate, dto.endDate, dto.duration, PLANNED, dto.capacity, None)
  }

  /** `updateSprint`'s write: the provided fields replace the stored ones. */
  function EditSprint(s: Sprint, dto: UpdateSprintDto): (e: Sprint)
    ensures e.id == s.id && e.projectId == s.projectId && e.number == s.number && e.status == s.status
    ensures e.actualVelocity == s.actualVelocity
    ensures e.name == dto.name.GetOr(s.name) && e.goal == dto.goal.GetOr(s.goal)
    ensures e.startDate == dto.startDate.GetOr(s.startDate) && e.endDate == dto.endDate.GetOr(s.endDate)
    ensures e.duration == dto.duration.GetOr(s.duration)
    ensures e.capacity == if dto.capacity.Some? then dto.capacity else s.capacity
  {
    s.(name := dto.name.GetOr(s.name), goal := dto.goal.GetOr(s.goal),
       startDate := dto.startDate.GetOr(s.startDate), endDate := dto.endDate.GetOr(s.endDate),
       duration := dto.duration.GetOr(s.duration),
       capacity := if dto.capacity.Some? then dto.capacity else s.capacity)
  }

  function EditSprints(rows: seq<Sprint>, id: Id, dto: UpdateSprintDto): (r: seq<Sprint>)
    ensures |r| == |rows|
    ensures forall k :: 0 <= k < |rows| ==> r[k] == if rows[k].id == id then EditSprint(rows[k], dto) else rows[k]
  {
    seq(|rows|, k requires 0 <= k < |rows| => if rows[k].id == id then EditSprint(rows[k], dto) else rows[k])
  }

  /** The task `createTask` inserts; `count` is the story's current number of tasks. */
  function NewTask(id: Id, story: Story, count: nat, dto: CreateTaskDto): (t: Task)
    ensures t.id == id && t.storyId == story.id && t.code == TaskCode(story.code, count + 1) && t.status == TODO
    ensures t.title == dto.title && t.description == dto.description && t.effort == dto.effort
    ensures t.assignedToId == dto.assignedToId && t.reopenCount == 0 && t.startedAt == None && t.completedAt == None
  {
    Task(id, story.id, TaskCode(story.code, count + 1), dto.title, dto.description, dto.effort, TODO,
         dto.assignedToId, false, 0, None, None)
  }

  /** When a story's tasks carry the codes 1 to n in order, the code `createTask` generates
      for the next task is none of theirs. */
  lemma NextTaskCodeIsFresh(story: Story, tasks: seq<Task>)
    requires forall i :: 0 <= i < |StoryTasks(tasks, story.id)| ==> StoryTasks(tasks, story.id)[i].code == TaskCode(story.code, i + 1)
    ensures forall t :: t in StoryTasks(tasks, story.id) ==> t.code != TaskCode(story.code, |StoryTasks(tasks, story.id)| + 1)
  {
    var mine := StoryTasks(tasks, story.id);
    forall t | t in mine ensures t.code != TaskCode(story.code, |mine| + 1) {
      var i :| 0 <= i < |mine| && mine[i] == t;
      if t.code == TaskCode(story.code, |mine| + 1) {
        TaskCodeInjective(story.code, i + 1, |mine| + 1);
      }
    }
  }

  /** `updateTask`'s write: the provided fields replace the stored ones. */
  function EditTask(t: Task, dto: UpdateTaskDto): (e: Task)
    ensures e.id == t.id && e.storyId == t.storyId && e.code == t.code && e.status == t.status
    ensures e.reopenCount == t.reopenCount && e.startedAt == t.startedAt && e.completedAt == t.completedAt && e.isBug == t.isBug
    ensures e.title == dto.title.GetOr(t.title) && e.effort == dto.effort.GetOr(t.effort)
    ensures e.description == (if dto.description.Some? then dto.description else t.description)
    ensures e.assignedToId == (if dto.assignedToId.Some? then dto.assignedToId else t.assignedToId)
  {
    t.(title := dto.title.GetOr(t.title), effort := dto.effort.GetOr(t.effort),
       description := if dto.description.Some? then dto.description else t.description,
       assignedToId := if dto.assignedToId.Some? then dto.assignedToId else t.assignedToId)
  }

  function EditTasks(rows: seq<Task>, id: Id, dto: UpdateTaskDto): (r: seq<Task>)
    ensures |r| == |rows|
    ensures forall k :: 0 <= k < |rows| ==> r[k] == if rows[k].id == id then EditTask(rows[k], dto) else rows[k]
  {
    seq(|rows|, k requires 0 <= k < |rows| => if rows[k].id == id then EditTask(rows[k], dto) else rows[k])
  }

  /** `task.delete({ where: { id } })`. */
  function DropTask(rows: seq<Task>, id: Id): (r: seq<Task>)
    ensures forall t :: t in r <==> t in rows && t.id != id
    ensures |r| <= |rows|
  {
    if rows == [] then []
    else (if rows[0].id == id then [] else [rows[0]]) + DropTask(rows[1..], id)
  }

  /** `addStoriesToSprint`'s checks: access, the sprint in the project, and every requested
      id a story of the project (the count comparison). No role and no status is required. */
  function AddStoriesCheck(projects: map<Id, Project>, sprints: seq<Sprint>, stories: seq<Story>, projectId: Id, sprintId: Id, ids: seq<Id>, userId: Id): (r: Option<Failure>)
    ensures r.None? <==> (VerifyAccess(projects, projectId, userId).Ok? && FindSprint(sprints, sprintId, projectId).Some?
      && Collections.NoDuplicates(ids)
      && forall id :: id in ids ==> exists k :: 0 <= k < |stories| && stories[k].id == id && stories[k].projectId == projectId)
  {
    FoundAllIff(stories, projectId, ids);
    var access := VerifyAccess(projects, projectId, userId);
    if access.Err? then Some(access.error)
    else if FindSprint(sprints, sprintId, projectId).None? then Some(NotFound("sprint"))
    else if |FoundIds(stories, projectId, ids)| != |ids| then Some(BadRequest("some stories were not found"))
    else None
  }

  /** `removeStoriesFromSprint`'s checks: access and the sprint in the project only. */
  function RemoveStoriesCheck(projects: map<Id, Project>, sprints: seq<Sprint>, projectId: Id, sprintId: Id, userId: Id): (r: Option<Failure>)
    ensures r.None? <==> VerifyAccess(projects, projectId, userId).Ok? && FindSprint(sprints, sprintId, projectId).Some?
  {
    var access := VerifyAccess(projects, projectId, userId);
    if access.Err? then Some(access.error)
    else if FindSprint(sprints, sprintId, projectId).None? then Some(NotFound("sprint"))
    else None
  }

  /** After `removeStoriesFromSprint`, none of the listed stories is in a sprint and none of
      them has a task left; the other stories and their tasks are as they were. */
  lemma RemovedStoriesAreBare(stories: seq<Story>, tasks: seq<Task>, ids: seq<Id>, id: Id)
    ensures id in ids ==> StoryTasks(DropTasksOf(tasks, ids), id) == []
    ensures id !in ids ==> StoryTasks(DropTasksOf(tasks, ids), id) == StoryTasks(tasks, id)
    ensures forall k :: 0 <= k < |stories| && stories[k].id in ids ==> MoveStories(stories, ids, None)[k].sprintId == None
  {
    DropTasksOfStory(tasks, ids, id);
  }

  lemma {:induction false} DropTasksOfStory(tasks: seq<Task>, ids: seq<Id>, id: Id)
    ensures StoryTasks(DropTasksOf(tasks, ids), id) == if id in ids then [] else StoryTasks(tasks, id)
  {
    if tasks != [] {
      DropTasksOfStory(tasks[1..], ids, id);
      var head := if tasks[0].storyId in ids then [] else [tasks[0]];
      StoryTasksAppend(head, DropTasksOf(tasks[1..], ids), id);
    }
  }

  /** Keys the status and field writes never touch. */
  lemma {:induction false} SprintKeysKept(rows: seq<Sprint>, r: seq<Sprint>)
    requires |r| == |rows|
    requires forall k :: 0 <= k < |rows| ==> r[k].id == rows[k].id && r[k].projectId == rows[k].projectId && r[k].number == rows[k].number
    requires UniqueNumbers(rows) && Collections.NoDuplicates(SprintIds(rows))
    ensures UniqueNumbers(r) && Collections.NoDuplicates(SprintIds(r))
  {
    assert SprintIds(r) == SprintIds(rows);
  }

  /** Appending a new PLANNED sprint whose id and number are free keeps the table's keys and
      its at-most-one-active rule. */
  lemma AppendPlannedSprint(rows: seq<Sprint>, s: Sprint)
    requires UniqueNumbers(rows) && Collections.NoDuplicates(SprintIds(rows)) && AtMostOneActive(rows)
    requires s.id !in SprintIds(rows) && !NumberTaken(rows, s.projectId, s.number) && s.status == PLANNED
    ensures UniqueNumbers(rows + [s]) && Collections.NoDuplicates(SprintIds(rows + [s])) && AtMostOneActive(rows + [s])
  {
    assert SprintIds(rows + [s]) == SprintIds(rows) + [s.id];
    Collections.NoDuplicatesSnoc(SprintIds(rows), s.id);
  }

  // ---------------------------------------------------------------------------------
  // Read views

  /** `sprint.findMany({ where: { projectId } })`: the project's sprints, in table order. */
  function ProjectSprints(rows: seq<Sprint>, projectId: Id): (r: seq<Sprint>)
    ensures forall s :: s in r <==> s in rows && s.projectId == projectId
    ensures |r| <= |rows|
  {
    if rows == [] then []
    else (if rows[0].projectId == projectId then [rows[0]] else []) + ProjectSprints(rows[1..], projectId)
  }

  /** The answer of `getSprintById`: the sprint, its stories, their tasks and the effort
      committed in them. */
  datatype SprintDetail = SprintDetail(sprint: Sprint, stories: seq<Story>, tasks: seq<Task>, totalEffort: real)

  // ---------------------------------------------------------------------------------
  // The service

  class SprintService {
    var projects: map<Id, Project>
    var sprints: seq<Sprint>
    var stories: seq<Story>
    var tasks: seq<Task>

    /** Ids are keys, `(projectId, number)` is a key, and no project has two sprints under way. */
    predicate Valid()
      reads this
    {
      Collections.NoDuplicates(StoryIds(stories)) && Collections.NoDuplicates(SprintIds(sprints))
      && UniqueNumbers(sprints) && AtMostOneActive(sprints)
    }

    constructor(projects0: map<Id, Project>, stories0: seq<Story>)
      requires Collections.NoDuplicates(StoryIds(stories0))
      ensures Valid() && projects == projects0 && stories == stories0 && sprints == [] && tasks == []
    {
      projects := projects0;
      stories := stories0;
      sprints := [];
      tasks := [];
    }

    /** `addStoriesToSprint`. `newIds[k]` is the id the database assigns to the task created
        for the story at position k of the table. */
    method AddStories(projectId: Id, sprintId: Id, ids: seq<Id>, userId: Id, newIds: seq<Id>) returns (r: Result<(), Failure>)
      requires Valid() && |newIds| >= |stories|
      modifies this
      ensures Valid() && projects == old(projects) && sprints == old(sprints)
      ensures r.Err? <==> AddStoriesCheck(old(projects), old(sprints), old(stories), projectId, sprintId, ids, userId).Some?
      ensures r.Err? ==> r.error == AddStoriesCheck(old(projects), old(sprints), old(stories), projectId, sprintId, ids, userId).value && unchanged(this)
      ensures r.Ok? ==> stories == MoveStories(old(stories), ids, Some(sprintId))
      ensures r.Ok? ==> tasks == old(tasks) + AutoTasks(old(stories), old(tasks), projectId, ids, newIds)
    {
      var check := AddStoriesCheck(projects, sprints, stories, projectId, sprintId, ids, userId);
      if check.Some? {
        return Err(check.value);
      }
      var created := CreateMissingTasks(stories, tasks, projectId, ids, newIds);
      var moved := MoveStories(stories, ids, Some(sprintId));
      assert StoryIds(moved) == StoryIds(stories);
      stories := moved;
      tasks := tasks + created;
      r := Ok(());
    }

    /** `createSprint`. The sprint row is written before the stories are added, so a
        rejected story list leaves the new sprint in place and still reports the failure. */
    method CreateSprint(projectId: Id, dto: CreateSprintDto, userId: Id, id: Id, newIds: seq<Id>) returns (r: Result<Sprint, Failure>)
      requires Valid() && id !in SprintIds(sprints) && |newIds| >= |stories|
      modifies this
      ensures Valid() && projects == old(projects)
      ensures CreateSprintCheck(old(projects), old(sprints), projectId, dto, userId).Some? ==>
        r == Err(CreateSprintCheck(old(projects), old(sprints), projectId, dto, userId).value) && unchanged(this)
      ensures CreateSprintCheck(old(projects), old(sprints), projectId, dto, userId).None? ==>
        sprints == old(sprints) + [NewSprint(id, projectId, dto)]
      ensures r.Ok? <==> (CreateSprintCheck(old(projects), old(sprints), projectId, dto, userId).None?
        && (dto.storyIds == [] || AddStoriesCheck(old(projects), old(sprints) + [NewSprint(id, projectId, dto)], old(stories), projectId, id, dto.storyIds, userId).None?))
      ensures r.Ok? ==> r.value == NewSprint(id, projectId, dto)
      ensures r.Ok? && dto.storyIds != [] ==> stories == MoveStories(old(stories), dto.storyIds, Some(id))
      ensures r.Ok? && dto.storyIds != [] ==> tasks == old(tasks) + AutoTasks(old(stories), old(tasks), projectId, dto.storyIds, newIds)
      ensures r.Ok? && dto.storyIds == [] ==> stories == old(stories) && tasks == old(tasks)
    {
      var check := CreateSprintCheck(projects, sprints, projectId, dto, userId);
      if check.Some? {
        return Err(check.value);
      }
      var sprint := NewSprint(id, projectId, dto);
      AppendPlannedSprint(sprints, sprint);
      sprints := sprints + [sprint];
      if |dto.storyIds| > 0 {
        var added := AddStories(projectId, id, dto.storyIds, userId, newIds);
        if added.Err? {
          return Err(added.error);
        }
      }
      r := Ok(sprint);
    }

    /** `updateSprint`: the provided fields of a PLANNED sprint are replaced. */
    method UpdateSprint(projectId: Id, sprintId: Id, dto: UpdateSprintDto, userId: Id) returns (r: Result<(), Failure>)
      requires Valid()
      modifies this
      ensures Valid() && projects == old(projects) && stories == old(stories) && tasks == old(tasks)
      ensures r.Err? <==> PlannedSprintCheck(old(projects), old(sprints), projectId, sprintId, userId, false).Err?
      ensures r.Err? ==> unchanged(this)
      ensures r.Ok? ==> sprints == EditSprints(old(sprints), sprintId, dto)
    {
      var check := PlannedSprintCheck(projects, sprints, projectId, sprintId, userId, false);
      if check.Err? {
        return Err(check.error);
      }
      var edited := EditSprints(sprints, sprintId, dto);
      SprintKeysKept(sprints, edited);
      sprints := edited;
      r := Ok(());
    }

    /** `removeStoriesFromSprint`: deletes every task of the listed stories and takes them
        out of their sprint, whatever project or sprint they belong to. */
    method RemoveStories(projectId: Id, sprintId: Id, ids: seq<Id>, userId: Id) returns (r: Result<(), Failure>)
      requires Valid()
      modifies this
      ensures Valid() && projects == old(projects) && sprints == old(sprints)
      ensures r.Err? <==> RemoveStoriesCheck(old(projects), old(sprints), projectId, sprintId, userId).Some?
      ensures r.Err? ==> unchanged(this)
      ensures r.Ok? ==> tasks == DropTasksOf(old(tasks), ids) && stories == MoveStories(old(stories), ids, None)
    {
      var check := RemoveStoriesCheck(projects, sprints, projectId, sprintId, userId);
      if check.Some? {
        return Err(check.value);
      }
      tasks := DropTasksOf(tasks, ids);
      var moved := MoveStories(stories, ids, None);
      assert StoryIds(moved) == StoryIds(stories);
      stories := moved;
      r := Ok(());
    }

    /** `createTask`: a TODO task numbered after the story's current tasks. */
    method CreateTask(projectId: Id, sprintId: Id, dto: CreateTaskDto, userId: Id, id: Id) returns (r: Result<Task, Failure>)
      requires Valid()
      modifies this
      ensures Valid() && projects == old(projects) && sprints == old(sprints) && stories == old(stories)
      ensures r.Err? <==> CreateTaskCheck(old(projects), old(sprints), old(stories), projectId, sprintId, dto, userId).Err?
      ensures r.Err? ==> unchanged(this)
      ensures r.Ok? ==>
        var story := CreateTaskCheck(old(projects), old(sprints), old(stories), projectId, sprintId, dto, userId).value;
        r.value == NewTask(id, story, |StoryTasks(old(tasks), story.id)|, dto) && tasks == old(tasks) + [r.value]
    {
      var check := CreateTaskCheck(projects, sprints, stories, projectId, sprintId, dto, userId);
      if check.Err? {
        return Err(check.error);
      }
      var story := check.value;
      var task := NewTask(id, story, |StoryTasks(tasks, story.id)|, dto);
      tasks := tasks + [task];
      r := Ok(task);
    }

    /** `updateTask`: the provided fields of a task of a PLANNED sprint are replaced. */
    method UpdateTask(projectId: Id, sprintId: Id, taskId: Id, dto: UpdateTaskDto, userId: Id) returns (r: Result<(), Failure>)
      requires Valid()
      modifies this
      ensures Valid() && projects == old(projects) && sprints == old(sprints) && stories == old(stories)
      ensures r.Err? <==> UpdateTaskCheck(old(projects), old(sprints), old(stories), old(tasks), projectId, sprintId, taskId, dto, userId).Some?
      ensures r.Err? ==> unchanged(this)
      ensures r.Ok? ==> tasks == EditTasks(old(tasks), taskId, dto)
    {
      var check := UpdateTaskCheck(projects, sprints, stories, tasks, projectId, sprintId, taskId, dto, userId);
      if check.Some? {
        return Err(check.value);
      }
      tasks := EditTasks(tasks, taskId, dto);
      r := Ok(());
    }

    /** `deleteTask`. */
    method DeleteTask(projectId: Id, sprintId: Id, taskId: Id, userId: Id) returns (r: Result<(), Failure>)
      requires Valid()
      modifies this
      ensures Valid() && projects == old(projects) && sprints == old(sprints) && stories == old(stories)
      ensures r.Err? <==> DeleteTaskCheck(old(projects), old(sprints), old(stories), old(tasks), projectId, sprintId, taskId, userId).Some?
      ensures r.Err? ==> unchanged(this)
      ensures r.Ok? ==> tasks == DropTask(old(tasks), taskId)
    {
      var check := DeleteTaskCheck(projects, sprints, stories, tasks, projectId, sprintId, taskId, userId);
      if check.Some? {
        return Err(check.value);
      }
      tasks := DropTask(tasks, taskId);
      r := Ok(());
    }

    /** `startSprint`: the sprint is under way, its stories are IN_PROGRESS and their tasks
        are back to TODO; it is then the project's only sprint under way. */
    method StartSprint(projectId: Id, sprintId: Id, userId: Id) returns (r: Result<(), Failure>)
      requires Valid()
      modifies this
      ensures Valid() && projects == old(projects)
      ensures r.Err? <==> StartCheck(old(projects), old(sprints), old(stories), old(tasks), projectId, sprintId, userId).Some?
      ensures r.Err? ==> unchanged(this)
      ensures r.Ok? ==> sprints == SetSprintStatus(old(sprints), sprintId, SprintStatus.IN_PROGRESS)
      ensures r.Ok? ==> stories == StartStories(old(stories), sprintId)
      ensures r.Ok? ==> tasks == ResetTasks(old(tasks), SprintStoryIds(old(stories), sprintId))
      ensures r.Ok? ==> ActiveCount(sprints, projectId) == 1
    {
      var check := StartCheck(projects, sprints, stories, tasks, projectId, sprintId, userId);
      if check.Some? {
        return Err(check.value);
      }
      StartKeepsOneActive(sprints, sprintId, projectId);
      var started := SetSprintStatus(sprints, sprintId, SprintStatus.IN_PROGRESS);
      SprintKeysKept(sprints, started);
      tasks := ResetTasks(tasks, SprintStoryIds(stories, sprintId));
      var moved := StartStories(stories, sprintId);
      assert StoryIds(moved) == StoryIds(stories);
      stories := moved;
      sprints := started;
      r := Ok(());
    }

    /** `getProjectSprints`: after the access check, every sprint of the project and no other. */
    method GetProjectSprints(projectId: Id, userId: Id) returns (r: Result<seq<Sprint>, Failure>)
      ensures r.Err? <==> VerifyAccess(projects, projectId, userId).Err?
      ensures r.Err? ==> r.error == VerifyAccess(projects, projectId, userId).error
      ensures r.Ok? ==> forall s :: s in r.value <==> s in sprints && s.projectId == projectId
    {
      var access := VerifyAccess(projects, projectId, userId);
      if access.Err? {
        return Err(access.error);
      }
      r := Ok(ProjectSprints(sprints, projectId));
    }

    /** `getAvailableStories`: after the access check, every story of the project, whatever
        its estimate or sprint. */
    method GetAvailableStories(projectId: Id, userId: Id) returns (r: Result<seq<Story>, Failure>)
      ensures r.Err? <==> VerifyAccess(projects, projectId, userId).Err?
      ensures r.Err? ==> r.error == VerifyAccess(projects, projectId, userId).error
      ensures r.Ok? ==> forall s :: s in r.value <==> s in stories && s.projectId == projectId
    {
      var access := VerifyAccess(projects, projectId, userId);
      if access.Err? {
        return Err(access.error);
      }
      r := Ok(ProjectStories(stories, projectId));
    }

    /** `getSprintById`: the access check, then the sprint of the project with its stories,
        the tasks of those stories and their summed effort. */
    method GetSprintById(projectId: Id, sprintId: Id, userId: Id) returns (r: Result<SprintDetail, Failure>)
      ensures r.Ok? <==> VerifyAccess(projects, projectId, userId).Ok? && FindSprint(sprints, sprintId, projectId).Some?
      ensures VerifyAccess(projects, projectId, userId).Err? ==> r == Err(VerifyAccess(projects, projectId, userId).error)
      ensures r.Err? && VerifyAccess(projects, projectId, userId).Ok? ==> r.error.NotFound?
      ensures r.Ok? ==> r.value.sprint.id == sprintId && r.value.sprint.projectId == projectId && r.value.sprint in sprints
      ensures r.Ok? ==> forall s :: s in r.value.stories <==> s in stories && s.sprintId == Some(sprintId)
      ensures r.Ok? ==> forall t :: t in r.value.tasks <==> t in tasks && exists s :: s in r.value.stories && s.id == t.storyId
      ensures r.Ok? ==> r.value.totalEffort == TotalEffort(r.value.tasks)
    {
      var access := VerifyAccess(projects, projectId, userId);
      if access.Err? {
        return Err(access.error);
      }
      var sprint := FindSprint(sprints, sprintId, projectId);
      if sprint.None? {
        return Err(NotFound("sprint"));
      }
      var own := SprintStories(stories, sprintId);
      var all := AllTasks(own, tasks);
      r := Ok(SprintDetail(sprint.value, own, all, TotalEffort(all)));
    }
  }

  /** The loop of `addStoriesToSprint` over the found stories: each one that still has no
      task (the count is read from the table, including the tasks created earlier in the
      loop) gets its `T-<code>-1` task. */
  method CreateMissingTasks(rows: seq<Story>, tasks: seq<Task>, projectId: Id, ids: seq<Id>, newIds: seq<Id>) returns (created: seq<Task>)
    requires |newIds| >= |rows| && Collections.NoDuplicates(StoryIds(rows))
    ensures created == AutoTasks(rows, tasks, projectId, ids, newIds)
  {
    created := [];
    var k := 0;
    while k < |rows|
      invariant 0 <= k <= |rows|
      invariant created == AutoTasks(rows[..k], tasks, projectId, ids, newIds)
    {
      var story := rows[k];
      AddStep(rows, tasks, projectId, ids, newIds, k);
      if story.id in ids && story.projectId == projectId && |StoryTasks(tasks + created, story.id)| == 0 {
        created := created + [AutoTask(story, newIds[k])];
      }
      k := k + 1;
    }
    assert rows[..k] == rows;
  }

  /** One step of the task-creation loop: the tasks created so far belong to earlier stories
      of the table, so the story at position k still has exactly the tasks it had before. */
  lemma AddStep(rows: seq<Story>, tasks: seq<Task>, projectId: Id, ids: seq<Id>, newIds: seq<Id>, k: nat)
    requires |newIds| >= |rows| && Collections.NoDuplicates(StoryIds(rows)) && k < |rows|
    ensures StoryTasks(tasks + AutoTasks(rows[..k], tasks, projectId, ids, newIds), rows[k].id) == StoryTasks(tasks, rows[k].id)
    ensures AutoTasks(rows[..k + 1], tasks, projectId, ids, newIds) ==
      AutoTasks(rows[..k], tasks, projectId, ids, newIds) + OwnTask(rows[k], tasks, projectId, ids, newIds[k])
  {
    StoryTasksAppend(tasks, AutoTasks(rows[..k], tasks, projectId, ids, newIds), rows[k].id);
    forall j | 0 <= j < k ensures rows[..k][j].id != rows[k].id {
      assert StoryIds(rows)[j] != StoryIds(rows)[k];
    }
    AutoTasksAvoid(rows[..k], tasks, projectId, ids, newIds, rows[k].id);
    assert rows[..k + 1][..k] == rows[..k];
  }
}
