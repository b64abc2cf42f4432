/** The backlog tables the workflow services share: user stories, their tasks and the
    sprints they are planned into, with the status enums of each. Dates are integer
    timestamps in milliseconds; a table is a sequence of rows in insertion order whose
    ids are unique. */
module Backlog {
  import opened Wrappers
  import opened Scrum
  import Collections

  datatype StoryStatus = BACKLOG | SELECTED | IN_PROGRESS | TESTING | DONE | CANCELLED

  datatype TaskStatus = TODO | IN_PROGRESS | TESTING | DONE | CANCELLED

  datatype SprintStatus = PLANNED | IN_PROGRESS | COMPLETED | CANCELLED

  /** A row of the user-story table. `acceptanceCriteria` is the stored newline-joined text. */
  datatype Story = Story(
    id: Id,
    projectId: Id,
    code: string,
    title: string,
    asA: string,
    iWant: string,
    soThat: string,
    acceptanceCriteria: string,
    description: Option<string>,
    priority: int,
    businessValue: int,
    orderRank: int,
    estimateHours: real,
    status: StoryStatus,
    sprintId: Option<Id>)

  /** A row of the task table. */
  datatype Task = Task(
    id: Id,
    storyId: Id,
    code: string,
    title: string,
    description: Option<string>,
    effort: real,
    status: TaskStatus,
    assignedToId: Option<Id>,
    isBug: bool,
    reopenCount: nat,
    startedAt: Option<int>,
    completedAt: Option<int>)

  /** A row of the sprint table. */
  datatype Sprint = Sprint(
    id: Id,
    projectId: Id,
    number: int,
    name: string,
    goal: string,
    startDate: int,
    endDate: int,
    duration: int,
    status: SprintStatus,
    capacity: Option<real>,
    actualVelocity: Option<real>)

  /** The ids of a table's rows. */
  function StoryIds(rows: seq<Story>): (ids: seq<Id>)
    ensures |ids| == |rows| && forall k :: 0 <= k < |rows| ==> ids[k] == rows[k].id
  {
    seq(|rows|, k requires 0 <= k < |rows| => rows[k].id)
  }

  /** Appending a row appends its id. */
  lemma StoryIdsSnoc(rows: seq<Story>, row: Story)
    ensures StoryIds(rows + [row]) == StoryIds(rows) + [row.id]
  {
    assert StoryIds(rows + [row])[..|rows|] == StoryIds(rows);
  }

  function TaskIds(rows: seq<Task>): (ids: seq<Id>)
    ensures |ids| == |rows| && forall k :: 0 <= k < |rows| ==> ids[k] == rows[k].id
  {
    seq(|rows|, k requires 0 <= k < |rows| => rows[k].id)
  }

  /** The story with that id, if the table has one. */
  function FindStory(rows: seq<Story>, id: Id): (r: Option<Story>)
    ensures r.Some? <==> exists k :: 0 <= k < |rows| && rows[k].id == id
    ensures r.Some? ==> r.value in rows && r.value.id == id
  {
    if rows == [] then None
    else if rows[0].id == id then Some(rows[0])
    else FindStory(rows[1..], id)
  }

  /** The task with that id, if the table has one. */
  function FindTask(rows: seq<Task>, id: Id): (r: Option<Task>)
    ensures r.Some? <==> exists k :: 0 <= k < |rows| && rows[k].id == id
    ensures r.Some? ==> r.value in rows && r.value.id == id
  {
    if rows == [] then None
    else if rows[0].id == id then Some(rows[0])
    else FindTask(rows[1..], id)
  }

  /** `sprint.findUnique({ where: { id } })`. */
  function SprintById(rows: seq<Sprint>, id: Id): (r: Option<Sprint>)
    ensures r.Some? <==> exists k :: 0 <= k < |rows| && rows[k].id == id
    ensures r.Some? ==> r.value in rows && r.value.id == id
  {
    if rows == [] then None
    else if rows[0].id == id then Some(rows[0])
    else SprintById(rows[1..], id)
  }

  /** `verifySprintAccess` (each sprint-scoped service has its own copy): a missing sprint
      is NotFound, then the read-access rule of the sprint's project applies. */
  function SprintAccess(projects: map<Id, Project>, sprints: seq<Sprint>, sprintId: Id, userId: Id): (r: Result<Sprint, Failure>)
    ensures SprintById(sprints, sprintId).None? ==> r.Err? && r.error.NotFound?
    ensures r.Ok? <==> (SprintById(sprints, sprintId).Some?
      && VerifyAccess(projects, SprintById(sprints, sprintId).value.projectId, userId).Ok?)
    ensures r.Ok? ==> r.value == SprintById(sprints, sprintId).value && r.value.id == sprintId
  {
    var sprint := SprintById(sprints, sprintId);
    if sprint.None? then Err(NotFound("sprint"))
    else
      var access := VerifyAccess(projects, sprint.value.projectId, userId);
      if access.Err? then Err(access.error) else Ok(sprint.value)
  }

  /** The story with that id is in the sprint (a `story: { sprintId }` filter on a task). */
  predicate InSprint(stories: seq<Story>, storyId: Id, sprintId: Id) {
    var s := FindStory(stories, storyId);
    s.Some? && s.value.sprintId == Some(sprintId)
  }

  /** `findMany({ where: { id: { in: ids }, projectId } })`, by id: the requested ids that are
      stories of the project. With unique ids this set has as many elements as the query
      returns rows. */
  function FoundIds(rows: seq<Story>, projectId: Id, ids: seq<Id>): (found: set<Id>)
    ensures forall id :: id in found <==> id in ids && exists k :: 0 <= k < |rows| && rows[k].id == id && rows[k].projectId == projectId
  {
    set k, id | 0 <= k < |rows| && id == rows[k].id && id in ids && rows[k].projectId == projectId :: id
  }

  /** The check `stories.length !== ids.length` that `reorder` and `addStoriesToSprint` make
      passes exactly when every requested id is a story of the project and no id is
      requested twice. */
  lemma FoundAllIff(rows: seq<Story>, projectId: Id, ids: seq<Id>)
    ensures |FoundIds(rows, projectId, ids)| == |ids| <==>
      Collections.NoDuplicates(ids) && forall id :: id in ids ==> exists k :: 0 <= k < |rows| && rows[k].id == id && rows[k].projectId == projectId
  {
    var found := FoundIds(rows, projectId, ids);
    var all := set id | id in ids;
    Collections.CardOfSeqSet(ids);
    assert found <= all;
    Collections.SubsetCard(found, all);
    if |found| == |ids| {
      assert |found| == |all|;
      forall id | id in ids ensures exists k :: 0 <= k < |rows| && rows[k].id == id && rows[k].projectId == projectId {
        assert id in all;
      }
    }
    if Collections.NoDuplicates(ids) && forall id :: id in ids ==> exists k :: 0 <= k < |rows| && rows[k].id == id && rows[k].projectId == projectId {
      assert found == all;
    }
  }

  /** The rows of a table whose stories belong to a sprint. */
  function SprintStories(rows: seq<Story>, sprintId: Id): (r: seq<Story>)
    ensures forall s :: s in r <==> s in rows && s.sprintId == Some(sprintId)
    ensures |r| <= |rows|
  {
    if rows == [] then []
    else
      assert rows == [rows[0]] + rows[1..];
      (if rows[0].sprintId == Some(sprintId) then [rows[0]] else []) + SprintStories(rows[1..], sprintId)
  }

  /** The tasks of one story, in table order. */
  function StoryTasks(rows: seq<Task>, storyId: Id): (r: seq<Task>)
    ensures forall t :: t in r <==> t in rows && t.storyId == storyId
    ensures |r| <= |rows|
  {
    if rows == [] then []
    else
      assert rows == [rows[0]] + rows[1..];
      (if rows[0].storyId == storyId then [rows[0]] else []) + StoryTasks(rows[1..], storyId)
  }

  /** The tasks of any story in a set, in table order. */
  function TasksOf(rows: seq<Task>, storyIds: set<Id>): (r: seq<Task>)
    ensures forall t :: t in r <==> t in rows && t.storyId in storyIds
    ensures |r| <= |rows|
  {
    if rows == [] then []
    else
      assert rows == [rows[0]] + rows[1..];
      (if rows[0].storyId in storyIds then [rows[0]] else []) + TasksOf(rows[1..], storyIds)
  }

  /** The rows of a table whose stories belong to a project, in table order. */
  function ProjectStories(rows: seq<Story>, projectId: Id): (r: seq<Story>)
    ensures forall s :: s in r <==> s in rows && s.projectId == projectId
    ensures |r| <= |rows|
  {
    if rows == [] then []
    else
      assert rows == [rows[0]] + rows[1..];
      (if rows[0].projectId == projectId then [rows[0]] else []) + ProjectStories(rows[1..], projectId)
  }

  /** Every story of the sprint is listed as often as the table holds it, and nothing more. */
  lemma {:induction false} SprintStoriesCounts(rows: seq<Story>, sprintId: Id)
    ensures multiset(SprintStories(rows, sprintId)) <= multiset(rows)
    ensures forall x: Story :: x.sprintId == Some(sprintId) ==> multiset(SprintStories(rows, sprintId))[x] == multiset(rows)[x]
  {
    if rows != [] {
      SprintStoriesCounts(rows[1..], sprintId);
      var head := if rows[0].sprintId == Some(sprintId) then [rows[0]] else [];
      var rest := SprintStories(rows[1..], sprintId);
      assert SprintStories(rows, sprintId) == head + rest;
      assert rows == [rows[0]] + rows[1..];
      assert multiset(rows) == multiset{rows[0]} + multiset(rows[1..]);
      assert multiset(SprintStories(rows, sprintId)) == multiset(head) + multiset(rest);
    }
  }

  /** Every task of the story is listed as often as the table holds it, and nothing more. */
  lemma {:induction false} StoryTasksCounts(rows: seq<Task>, storyId: Id)
    ensures multiset(StoryTasks(rows, storyId)) <= multiset(rows)
    ensures forall x: Task :: x.storyId == storyId ==> multiset(StoryTasks(rows, storyId))[x] == multiset(rows)[x]
  {
    if rows != [] {
      StoryTasksCounts(rows[1..], storyId);
      var head := if rows[0].storyId == storyId then [rows[0]] else [];
      var rest := StoryTasks(rows[1..], storyId);
      assert StoryTasks(rows, storyId) == head + rest;
      assert rows == [rows[0]] + rows[1..];
      assert multiset(rows) == multiset{rows[0]} + multiset(rows[1..]);
      assert multiset(StoryTasks(rows, storyId)) == multiset(head) + multiset(rest);
    }
  }

  /** Every task of a listed story is listed as often as the table holds it, and nothing more. */
  lemma {:induction false} TasksOfCounts(rows: seq<Task>, storyIds: set<Id>)
    ensures multiset(TasksOf(rows, storyIds)) <= multiset(rows)
    ensures forall x: Task :: x.storyId in storyIds ==> multiset(TasksOf(rows, storyIds))[x] == multiset(rows)[x]
  {
    if rows != [] {
      TasksOfCounts(rows[1..], storyIds);
      var head := if rows[0].storyId in storyIds then [rows[0]] else [];
      var rest := TasksOf(rows[1..], storyIds);
      assert TasksOf(rows, storyIds) == head + rest;
      assert rows == [rows[0]] + rows[1..];
      assert multiset(rows) == multiset{rows[0]} + multiset(rows[1..]);
      assert multiset(TasksOf(rows, storyIds)) == multiset(head) + multiset(rest);
    }
  }

  /** Every story of the project is listed as often as the table holds it, and nothing more. */
  lemma {:induction false} ProjectStoriesCounts(rows: seq<Story>, projectId: Id)
    ensures multiset(ProjectStories(rows, projectId)) <= multiset(rows)
    ensures forall x: Story :: x.projectId == projectId ==> multiset(ProjectStories(rows, projectId))[x] == multiset(rows)[x]
  {
    if rows != [] {
      ProjectStoriesCounts(rows[1..], projectId);
      var head := if rows[0].projectId == projectId then [rows[0]] else [];
      var rest := ProjectStories(rows[1..], projectId);
      assert ProjectStories(rows, projectId) == head + rest;
      assert rows == [rows[0]] + rows[1..];
      assert multiset(rows) == multiset{rows[0]} + multiset(rows[1..]);
      assert multiset(ProjectStories(rows, projectId)) == multiset(head) + multiset(rest);
    }
  }

  /** `stories.flatMap(story => story.tasks)`: the tasks of each story in turn. */
  function AllTasks(stories: seq<Story>, tasks: seq<Task>): (r: seq<Task>)
    ensures forall t :: t in r <==> t in tasks && exists s :: s in stories && s.id == t.storyId
  {
    if stories == [] then []
    else
      var rest := AllTasks(stories[1..], tasks);
      assert forall s :: s in stories <==> s == stories[0] || s in stories[1..];
      StoryTasks(tasks, stories[0].id) + rest
  }

  /** The sum of the tasks' effort (`reduce((sum, t) => sum + t.effort, 0)`). */
  function TotalEffort(tasks: seq<Task>): real {
    if tasks == [] then 0.0 else tasks[0].effort + TotalEffort(tasks[1..])
  }

  /** The effort of two task lists together is the sum of their efforts. */
  lemma {:induction false} TotalEffortAppend(a: seq<Task>, b: seq<Task>)
    ensures TotalEffort(a + b) == TotalEffort(a) + TotalEffort(b)
  {
    if a == [] {
      assert a + b == b;
    } else {
      assert (a + b)[0] == a[0] && (a + b)[1..] == a[1..] + b;
      TotalEffortAppend(a[1..], b);
    }
  }

  /** Tasks whose efforts are all non-negative add up to a non-negative total, and each task's
      effort is at most the total. */
  lemma {:induction false} TotalEffortBounds(tasks: seq<Task>)
    requires forall i :: 0 <= i < |tasks| ==> tasks[i].effort >= 0.0
    ensures TotalEffort(tasks) >= 0.0
    ensures forall i :: 0 <= i < |tasks| ==> tasks[i].effort <= TotalEffort(tasks)
  {
    if tasks != [] {
      TotalEffortBounds(tasks[1..]);
      assert forall i :: 1 <= i < |tasks| ==> tasks[i] == tasks[1..][i - 1];
    }
  }
}
