/** Personal Software Process metrics: per sprint and developer, how many tasks were
    completed and reopened, how many bugs were fixed, the effort delivered and the mean time
    a task took. The aggregates are shared by the metrics service and by the Kanban board,
    which recomputes them whenever a task is completed or reopened. */
module Psp {
  import opened Wrappers
  import opened Scrum
  import opened Backlog

  // ---------------------------------------------------------------------------------
  // Aggregates over one developer's tasks

  /** `task.findMany({ where: { assignedToId: developerId, story: { sprintId } } })`. */
  function DeveloperTasks(tasks: seq<Task>, stories: seq<Story>, sprintId: Id, developerId: Id): (r: seq<Task>)
    ensures forall t :: t in r <==> t in tasks && t.assignedToId == Some(developerId) && InSprint(stories, t.storyId, sprintId)
    ensures |r| <= |tasks|
  {
    if tasks == [] then []
    else
      (if tasks[0].assignedToId == Some(developerId) && InSprint(stories, tasks[0].storyId, sprintId) then [tasks[0]] else [])
      + DeveloperTasks(tasks[1..], stories, sprintId, developerId)
  }

  /** `tasksCompleted`: the number of DONE tasks. */
  function CountDone(tasks: seq<Task>): (n: nat)
    ensures n <= |tasks|
    ensures n == 0 <==> forall t :: t in tasks ==> t.status != TaskStatus.DONE
  {
    if tasks == [] then 0 else (if tasks[0].status == TaskStatus.DONE then 1 else 0) + CountDone(tasks[1..])
  }

  /** `defectsFixed`: the number of DONE bugs; a fixed defect is a completed task. */
  function CountDoneBugs(tasks: seq<Task>): (n: nat)
    ensures n <= CountDone(tasks)
  {
    if tasks == [] then 0 else (if tasks[0].isBug && tasks[0].status == TaskStatus.DONE then 1 else 0) + CountDoneBugs(tasks[1..])
  }

  /** `tasksReopened`: the reopen counters summed. */
  function SumReopened(tasks: seq<Task>): (n: nat)
    ensures (exists t :: t in tasks && t.reopenCount > 0) <==> n > 0
  {
    if tasks == [] then 0 else tasks[0].reopenCount + SumReopened(tasks[1..])
  }

  /** `totalEffortHours`: the effort of the DONE tasks summed. */
  function DoneEffort(tasks: seq<Task>): (e: real)
    ensures (forall t :: t in tasks ==> t.effort >= 0.0) ==> e >= 0.0
    ensures CountDone(tasks) == 0 ==> e == 0.0
  {
    if tasks == [] then 0.0 else (if tasks[0].status == TaskStatus.DONE then tasks[0].effort else 0.0) + DoneEffort(tasks[1..])
  }

  /** A task with both timestamps (`t.completedAt && t.startedAt`). */
  predicate Timed(t: Task) {
    t.completedAt.Some? && t.startedAt.Some?
  }

  /** The time a timed task took, in hours (timestamps are in milliseconds). */
  function Hours(t: Task): real
    requires Timed(t)
  {
    (t.completedAt.value - t.startedAt.value) as real / 3600000.0
  }

  /** The timed tasks, in order. */
  function TimedTasks(tasks: seq<Task>): (r: seq<Task>)
    ensures forall t :: t in r <==> t in tasks && Timed(t)
    ensures |r| <= |tasks|
  {
    if tasks == [] then [] else (if Timed(tasks[0]) then [tasks[0]] else []) + TimedTasks(tasks[1..])
  }

  /** The hours of timed tasks summed. */
  function SumHours(tasks: seq<Task>): real
    requires forall t :: t in tasks ==> Timed(t)
  {
    if tasks == [] then 0.0 else Hours(tasks[0]) + SumHours(tasks[1..])
  }

  /** When every task took between `lo` and `hi` hours, the sum of n tasks lies between
      `n·lo` and `n·hi`. */
  lemma {:induction false} SumHoursBounds(tasks: seq<Task>, lo: real, hi: real)
    requires forall t :: t in tasks ==> Timed(t) && lo <= Hours(t) <= hi
    ensures Times(|tasks|, lo) <= SumHours(tasks) <= Times(|tasks|, hi)
  {
    if tasks != [] {
      assert tasks[0] in tasks;
      SumHoursBounds(tasks[1..], lo, hi);
      assert Times(|tasks|, lo) == Times(|tasks| - 1, lo) + lo;
      assert Times(|tasks|, hi) == Times(|tasks| - 1, hi) + hi;
    }
  }

  /** `n · x`. */
  function Times(n: nat, x: real): real {
    n as real * x
  }

  /** `avgTimePerTask`: null without a timed task, otherwise the mean hours of the timed tasks. */
  function AvgTimePerTask(tasks: seq<Task>): (r: Option<real>)
    ensures r.None? <==> forall t :: t in tasks ==> !Timed(t)
  {
    var timed := TimedTasks(tasks);
    if |timed| > 0 then
      assert timed[0] in timed;
      Some(Mean(SumHours(timed), |timed|))
    else None
  }

  /** The mean lies within any bounds every timed task's duration respects; in particular it
      is never negative when tasks complete after they start. */
  lemma AvgWithinBounds(tasks: seq<Task>, lo: real, hi: real)
    requires forall t :: t in tasks && Timed(t) ==> lo <= Hours(t) <= hi
    ensures AvgTimePerTask(tasks).Some? ==> lo <= AvgTimePerTask(tasks).value <= hi
  {
    if AvgTimePerTask(tasks).Some? {
      TimedWithin(tasks, lo, hi);
      MeanWithin(TimedTasks(tasks), lo, hi);
    }
  }

  lemma MeanWithin(timed: seq<Task>, lo: real, hi: real)
    requires |timed| > 0
    requires forall t :: t in timed ==> Timed(t) && lo <= Hours(t) <= hi
    ensures lo <= Mean(SumHours(timed), |timed|) <= hi
  {
    SumHoursBounds(timed, lo, hi);
    DivBounds(SumHours(timed), |timed|, lo, hi);
  }

  lemma TimedWithin(tasks: seq<Task>, lo: real, hi: real)
    requires forall t :: t in tasks && Timed(t) ==> lo <= Hours(t) <= hi
    ensures forall t :: t in TimedTasks(tasks) ==> Timed(t) && lo <= Hours(t) <= hi
  {
  }

  /** `sum / n`. */
  function Mean(sum: real, n: nat): real
    requires n > 0
  {
    sum / n as real
  }

  /** A sum of n values between `lo` and `hi` has its mean between them. */
  lemma DivBounds(s: real, n: nat, lo: real, hi: real)
    requires n > 0 && Times(n, lo) <= s && s <= Times(n, hi)
    ensures lo <= Mean(s, n) && Mean(s, n) <= hi
  {
    assert Mean(s, n) * n as real == s;
  }

  // ---------------------------------------------------------------------------------
  // The metrics table

  /** A row of the `developerPSPMetrics` table, keyed on `(sprintId, userId)`. */
  datatype PspRow = PspRow(
    sprintId: Id,
    userId: Id,
    tasksCompleted: nat,
    tasksReopened: nat,
    defectsFixed: nat,
    totalEffortHours: real,
    avgTimePerTask: Option<real>,
    calculatedAt: int)

  /** The row computed for one developer from their tasks in the sprint. */
  function Measure(sprintId: Id, developerId: Id, mine: seq<Task>, now: int): (m: PspRow)
    ensures m.sprintId == sprintId && m.userId == developerId && m.calculatedAt == now
    ensures m.defectsFixed <= m.tasksCompleted <= |mine|
    ensures (forall t :: t in mine ==> t.effort >= 0.0) ==> m.totalEffortHours >= 0.0
    ensures m.avgTimePerTask.None? <==> forall t :: t in mine ==> !Timed(t)
  {
    PspRow(sprintId, developerId, CountDone(mine), SumReopened(mine), CountDoneBugs(mine), DoneEffort(mine),
           AvgTimePerTask(mine), now)
  }

  function Key(r: PspRow): (Id, Id) {
    (r.sprintId, r.userId)
  }

  /** The unique key `sprintId_userId`. */
  predicate UniqueKeys(rows: seq<PspRow>) {
    forall i, j :: 0 <= i < j < |rows| ==> Key(rows[i]) != Key(rows[j])
  }

  /** `developerPSPMetrics.upsert` on `(sprintId, userId)`: the row with that key is
      replaced, or the row is appended when there is none. */
  function Upsert(rows: seq<PspRow>, row: PspRow): (r: seq<PspRow>)
    ensures |r| == |rows| + (if exists k :: 0 <= k < |rows| && Key(rows[k]) == Key(row) then 0 else 1)
    ensures forall k :: 0 <= k < |rows| && Key(rows[k]) != Key(row) ==> r[k] == rows[k]
  {
    if exists k :: 0 <= k < |rows| && Key(rows[k]) == Key(row) then
      seq(|rows|, k requires 0 <= k < |rows| => if Key(rows[k]) == Key(row) then row else rows[k])
    else rows + [row]
  }

  /** An upsert keeps the key unique, leaves exactly the new row under its key, and keeps
      every row with another key; repeated calls therefore never add a second row. */
  lemma UpsertSpec(rows: seq<PspRow>, row: PspRow)
    requires UniqueKeys(rows)
    ensures UniqueKeys(Upsert(rows, row))
    ensures row in Upsert(rows, row)
    ensures forall x :: x in Upsert(rows, row) && Key(x) == Key(row) ==> x == row
    ensures forall x :: x in rows && Key(x) != Key(row) ==> x in Upsert(rows, row)
    ensures forall x :: x in Upsert(rows, row) && Key(x) != Key(row) ==> x in rows
    ensures |Upsert(rows, row)| == |rows| || |Upsert(rows, row)| == |rows| + 1
  {
    var r := Upsert(rows, row);
    if exists k :: 0 <= k < |rows| && Key(rows[k]) == Key(row) {
      var k :| 0 <= k < |rows| && Key(rows[k]) == Key(row);
      assert r[k] == row;
      forall x | x in rows && Key(x) != Key(row) ensures x in r {
        var j :| 0 <= j < |rows| && rows[j] == x;
        assert r[j] == x;
      }
    }
  }

  /** A second upsert of the same row changes nothing. */
  lemma UpsertIdempotent(rows: seq<PspRow>, row: PspRow)
    ensures Upsert(Upsert(rows, row), row) == Upsert(rows, row)
  {
    var r := Upsert(rows, row);
    assert r[|r| - 1] == row || exists k :: 0 <= k < |rows| && Key(rows[k]) == Key(row);
    if exists k :: 0 <= k < |rows| && Key(rows[k]) == Key(row) {
      var k :| 0 <= k < |rows| && Key(rows[k]) == Key(row);
      assert Key(r[k]) == Key(row);
    } else {
      assert Key(r[|rows|]) == Key(row);
    }
  }

  /** Upserts one after another. */
  function UpsertAll(rows: seq<PspRow>, news: seq<PspRow>): (r: seq<PspRow>)
    decreases |news|
  {
    if news == [] then rows else UpsertAll(Upsert(rows, news[0]), news[1..])
  }

  lemma {:induction false} UpsertAllKeepsKeys(rows: seq<PspRow>, news: seq<PspRow>)
    requires UniqueKeys(rows)
    ensures UniqueKeys(UpsertAll(rows, news))
    decreases |news|
  {
    if news != [] {
      UpsertSpec(rows, news[0]);
      UpsertAllKeepsKeys(Upsert(rows, news[0]), news[1..]);
    }
  }

  // ---------------------------------------------------------------------------------
  // Recalculation rights

  /** The active DEVELOPER members (`members: { where: { isActive: true, role: 'DEVELOPER' } }`). */
  function Developers(members: seq<Member>): (r: seq<Member>)
    ensures forall m :: m in r <==> m in members && m.isActive && m.role == DEVELOPER
    ensures |r| <= |members|
  {
    if members == [] then []
    else (if members[0].isActive && members[0].role == DEVELOPER then [members[0]] else []) + Developers(members[1..])
  }

  /** `recalculateSprintMetrics`' two checks exactly as they are written: the caller is looked
      up among the DEVELOPER members, then required to be a SCRUM_MASTER. */
  function RecalcCheckAsWritten(p: Project, userId: Id): (r: Option<Failure>)
    ensures r.Some? ==> r.value.Forbidden?
  {
    var isOwner := p.ownerId == userId;
    var member := FindMember(Developers(p.members), userId);
    if !isOwner && member.None? then Some(Forbidden("no access to this project"))
    else if (member.None? || member.value.role != SCRUM_MASTER) && !isOwner then Some(Forbidden("only the Scrum Master may recalculate"))
    else None
  }

  /** As written, only the owner ever passes: a member found among the developers is never a
      Scrum Master. */
  lemma RecalcAsWrittenOnlyOwner(p: Project, userId: Id)
    ensures RecalcCheckAsWritten(p, userId).None? <==> p.ownerId == userId
  {
    var member := FindMember(Developers(p.members), userId);
    if member.Some? {
      assert member.value in Developers(p.members);
    }
  }

  /** The input that shows it: a team whose Scrum Master is an active member, not the owner,
      is refused. */
  lemma ScrumMasterRefusedAsWritten()
    ensures RecalcCheckAsWritten(Project("owner", PRIVATE, [Member("sm", SCRUM_MASTER, true)]), "sm").Some?
    ensures IsScrumMasterOrOwner(Project("owner", PRIVATE, [Member("sm", SCRUM_MASTER, true)]), "sm")
  {
    var p := Project("owner", PRIVATE, [Member("sm", SCRUM_MASTER, true)]);
    RecalcAsWrittenOnlyOwner(p, "sm");
    assert ActiveMembers(p.members) == p.members;
  }

  /** The evidently intended rule: the owner or an active SCRUM_MASTER may recalculate. */
  function RecalcCheck(p: Project, userId: Id): (r: Option<Failure>)
    ensures r.None? <==> IsScrumMasterOrOwner(p, userId)
    ensures r.Some? ==> r.value.Forbidden?
  {
    var isOwner := p.ownerId == userId;
    var role := ActiveRole(p, userId);
    if !isOwner && role.None? then Some(Forbidden("no access to this project"))
    else if role != Some(SCRUM_MASTER) && !isOwner then Some(Forbidden("only the Scrum Master may recalculate"))
    else None
  }

  /** The corrected rule admits every caller the written one admits, and in addition the
      active Scrum Masters. */
  lemma RecalcCheckExtendsAsWritten(p: Project, userId: Id)
    ensures RecalcCheckAsWritten(p, userId).None? ==> RecalcCheck(p, userId).None?
    ensures RecalcCheck(p, userId).None? && p.ownerId != userId ==> ActiveRole(p, userId) == Some(SCRUM_MASTER)
  {
    RecalcAsWrittenOnlyOwner(p, userId);
  }

  // ---------------------------------------------------------------------------------
  // The service

  class PspService {
    var projects: map<Id, Project>
    var sprints: seq<Sprint>
    var stories: seq<Story>
    var tasks: seq<Task>
    var metrics: seq<PspRow>

    predicate Valid()
      reads this
    {
      UniqueKeys(metrics)
    }

    constructor(projects0: map<Id, Project>, sprints0: seq<Sprint>, stories0: seq<Story>, tasks0: seq<Task>)
      ensures Valid() && projects == projects0 && sprints == sprints0 && stories == stories0 && tasks == tasks0 && metrics == []
    {
      projects := projects0;
      sprints := sprints0;
      stories := stories0;
      tasks := tasks0;
      metrics := [];
    }

    /** The sprint and the read-access rule of its project (NotFound for an unknown sprint). */
    function SprintAccess(sprintId: Id, userId: Id): (r: Result<Sprint, Failure>)
      reads this
      ensures r.Ok? <==> SprintById(sprints, sprintId).Some? && VerifyAccess(projects, SprintById(sprints, sprintId).value.projectId, userId).Ok?
      ensures r.Ok? ==> r.value == SprintById(sprints, sprintId).value
    {
      var sprint := SprintById(sprints, sprintId);
      if sprint.None? then Err(NotFound("sprint"))
      else
        var access := VerifyAccess(projects, sprint.value.projectId, userId);
        if access.Err? then Err(access.error) else Ok(sprint.value)
    }

    /** `calculateDeveloperMetrics`: computes the developer's row and upserts it. */
    method CalculateDeveloperMetrics(sprintId: Id, developerId: Id, userId: Id, now: int) returns (r: Result<PspRow, Failure>)
      requires Valid()
      modifies this
      ensures Valid() && projects == old(projects) && sprints == old(sprints) && stories == old(stories) && tasks == old(tasks)
      ensures r.Err? <==> SprintAccess(sprintId, userId).Err?
      ensures r.Err? ==> unchanged(this)
      ensures r.Ok? ==> r.value == Measure(sprintId, developerId, DeveloperTasks(tasks, stories, sprintId, developerId), now)
      ensures r.Ok? ==> metrics == Upsert(old(metrics), r.value)
    {
      var access := SprintAccess(sprintId, userId);
      if access.Err? {
        return Err(access.error);
      }
      var row := Measure(sprintId, developerId, DeveloperTasks(tasks, stories, sprintId, developerId), now);
      UpsertSpec(metrics, row);
      metrics := Upsert(metrics, row);
      r := Ok(row);
    }

    /** `getSprintMetrics`: the rows of the sprint, for readers of its project. */
    method GetSprintMetrics(sprintId: Id, userId: Id) returns (r: Result<seq<PspRow>, Failure>)
      ensures r.Err? <==> SprintAccess(sprintId, userId).Err?
      ensures r.Ok? ==> forall x :: x in r.value <==> x in metrics && x.sprintId == sprintId
    {
      var access := SprintAccess(sprintId, userId);
      if access.Err? {
        return Err(access.error);
      }
      var rows: seq<PspRow> := [];
      var k := 0;
      while k < |metrics|
        invariant 0 <= k <= |metrics|
        invariant forall x :: x in rows <==> x in metrics[..k] && x.sprintId == sprintId
      {
        if metrics[k].sprintId == sprintId {
          rows := rows + [metrics[k]];
        }
        assert metrics[..k + 1] == metrics[..k] + [metrics[k]];
        k := k + 1;
      }
      assert metrics[..k] == metrics;
      r := Ok(rows);
    }

    /** `recalculateSprintMetrics`, with the rights check corrected to admit the Scrum
        Master: one row per active DEVELOPER member, in member order. */
    method RecalculateSprintMetrics(sprintId: Id, userId: Id, now: int) returns (r: Result<seq<PspRow>, Failure>)
      requires Valid()
      modifies this
      ensures Valid() && projects == old(projects) && sprints == old(sprints) && stories == old(stories) && tasks == old(tasks)
      ensures r.Err? ==> unchanged(this)
      ensures SprintById(sprints, sprintId).None? ==> r.Err? && r.error.NotFound?
      ensures r.Ok? <==> (SprintById(sprints, sprintId).Some? && SprintById(sprints, sprintId).value.projectId in projects
        && RecalcCheck(projects[SprintById(sprints, sprintId).value.projectId], userId).None?)
      ensures r.Ok? ==>
        var devs := Developers(projects[SprintById(sprints, sprintId).value.projectId].members);
        r.value == DevRows(tasks, stories, sprintId, devs, now) && metrics == UpsertAll(old(metrics), r.value)
    {
      var sprint := SprintById(sprints, sprintId);
      if sprint.None? {
        return Err(NotFound("sprint"));
      }
      if sprint.value.projectId !in projects {
        return Err(NotFound("project"));
      }
      var p := projects[sprint.value.projectId];
      var check := RecalcCheck(p, userId);
      if check.Some? {
        return Err(check.value);
      }
      var results, metrics1 := RecalculateRows(metrics, tasks, stories, sprintId, Developers(p.members), now);
      metrics := metrics1;
      r := Ok(results);
    }
  }

  /** The loop of `recalculateSprintMetrics`: one computed row per developer, each
      upserted in turn into the table. `calculateDeveloperMetrics` repeats the access
      check on every call, which the rights check already implies (RecalcAllowsAccess),
      so only its computation is repeated here. */
  method RecalculateRows(metrics0: seq<PspRow>, tasks: seq<Task>, stories: seq<Story>, sprintId: Id, devs: seq<Member>, now: int)
    returns (results: seq<PspRow>, metrics1: seq<PspRow>)
    requires UniqueKeys(metrics0)
    ensures UniqueKeys(metrics1)
    ensures results == DevRows(tasks, stories, sprintId, devs, now)
    ensures metrics1 == UpsertAll(metrics0, results)
  {
    results := [];
    metrics1 := metrics0;
    var k := 0;
    while k < |devs|
      invariant 0 <= k <= |devs|
      invariant results == DevRows(tasks, stories, sprintId, devs[..k], now)
      invariant metrics1 == UpsertAll(metrics0, results)
    {
      var row := DevRow(tasks, stories, sprintId, devs[k], now);
      UpsertAllSnoc(metrics0, results, row);
      assert devs[..k + 1][..k] == devs[..k];
      metrics1 := Upsert(metrics1, row);
      results := results + [row];
      k := k + 1;
    }
    assert devs[..k] == devs;
    UpsertAllKeepsKeys(metrics0, results);
  }

  /** The row `calculateDeveloperMetrics` computes for one developer of the sprint. */
  function DevRow(tasks: seq<Task>, stories: seq<Story>, sprintId: Id, dev: Member, now: int): PspRow {
    Measure(sprintId, dev.userId, DeveloperTasks(tasks, stories, sprintId, dev.userId), now)
  }

  /** One computed row per developer, in the order of the developers. */
  function DevRows(tasks: seq<Task>, stories: seq<Story>, sprintId: Id, devs: seq<Member>, now: int): (r: seq<PspRow>)
    ensures |r| == |devs|
    ensures forall i :: 0 <= i < |devs| ==> r[i] == DevRow(tasks, stories, sprintId, devs[i], now)
  {
    if devs == [] then []
    else DevRows(tasks, stories, sprintId, devs[..|devs| - 1], now) + [DevRow(tasks, stories, sprintId, devs[|devs| - 1], now)]
  }

  /** Whoever may recalculate may read the project. */
  lemma RecalcAllowsAccess(p: Project, userId: Id)
    requires RecalcCheck(p, userId).None?
    ensures CheckAccess(p, userId).Ok?
  {
  }

  lemma {:induction false} UpsertAllSnoc(rows: seq<PspRow>, news: seq<PspRow>, row: PspRow)
    ensures UpsertAll(rows, news + [row]) == Upsert(UpsertAll(rows, news), row)
    decreases |news|
  {
    if news == [] {
      assert UpsertAll(Upsert(rows, row), []) == Upsert(rows, row);
      assert news + [row] == [row];
    } else {
      assert (news + [row])[0] == news[0] && (news + [row])[1..] == news[1..] + [row];
      UpsertAllSnoc(Upsert(rows, news[0]), news[1..], row);
    }
  }
}
