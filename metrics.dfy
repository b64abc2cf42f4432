/** The sprint metrics calculator: committed, completed and in-progress effort, story
    and task counts by status, the timeline in days, velocity with its projection, the
    on-track verdict and the ideal burndown line. Times are milliseconds; `now` is a
    parameter. Numbers are exact reals (floating-point rounding is not modelled). */
module SprintMetrics {
  import opened Wrappers
  import opened Scrum
  import opened Backlog
  import Psp

  /** Milliseconds in a day (`1000 * 60 * 60 * 24`). */
  const DayMs: int := 86400000

  // ---------------------------------------------------------------------------------
  // Rounding and percentages
  // ---------------------------------------------------------------------------------

  /** `Math.round(x * 100) / 100`: two decimals, halves rounded up. */
  function Round2(x: real): (r: real)
    ensures (r * 100.0).Floor as real == r * 100.0
  {
    (x * 100.0 + 0.5).Floor as real / 100.0
  }

  /** Rounding moves a value by at most half a cent and keeps whole cents as they are. */
  lemma Round2Close(x: real)
    ensures x - 0.005 < Round2(x) <= x + 0.005
    ensures (x * 100.0).Floor as real == x * 100.0 ==> Round2(x) == x
  {
    var y := x * 100.0 + 0.5;
    assert y - 1.0 < y.Floor as real <= y;
    if (x * 100.0).Floor as real == x * 100.0 {
      var n := (x * 100.0).Floor;
      assert n as real <= y < n as real + 1.0;
      assert y.Floor == n;
    }
  }

  /** Rounding keeps the order of values. */
  lemma Round2Monotone(x: real, y: real)
    requires x <= y
    ensures Round2(x) <= Round2(y)
  {
    var a, b := x * 100.0 + 0.5, y * 100.0 + 0.5;
    assert a.Floor as real <= a <= b < b.Floor as real + 1.0;
    assert a.Floor <= b.Floor;
  }

  /** `whole > 0 ? (part / whole) * 100 : 0`, rounded to two decimals. */
  function Percent(part: real, whole: real): (p: real)
    ensures whole <= 0.0 ==> p == 0.0
    ensures 0.0 <= part <= whole ==> 0.0 <= p <= 100.0
    ensures whole > 0.0 && part == whole ==> p == 100.0
  {
    if whole > 0.0 then
      PercentBounds(part, whole);
      Round2(part / whole * 100.0)
    else 0.0
  }

  lemma PercentBounds(part: real, whole: real)
    requires whole > 0.0
    ensures 0.0 <= part <= whole ==> 0.0 <= Round2(part / whole * 100.0) <= 100.0
    ensures part == whole ==> Round2(part / whole * 100.0) == 100.0
  {
    var q := part / whole * 100.0;
    assert Round2(0.0) == 0.0;
    assert Round2(100.0) == 100.0;
    if part == whole {
      assert part / whole == 1.0;
    }
    if 0.0 <= part <= whole {
      assert part / whole <= 1.0;
      Round2Monotone(0.0, q);
      Round2Monotone(q, 100.0);
    }
  }

  /** More work done over the same whole never lowers the percentage. */
  lemma PercentMonotone(a: real, b: real, whole: real)
    requires a <= b
    ensures Percent(a, whole) <= Percent(b, whole)
  {
    if whole > 0.0 {
      assert a / whole <= b / whole;
      Round2Monotone(a / whole * 100.0, b / whole * 100.0);
    }
  }

  // ---------------------------------------------------------------------------------
  // Effort
  // ---------------------------------------------------------------------------------

  /** `committed`: the stories' estimates summed. */
  function Committed(stories: seq<Story>): real {
    if stories == [] then 0.0 else stories[0].estimateHours + Committed(stories[1..])
  }

  /** The effort of the tasks with one status, summed. */
  function EffortWith(tasks: seq<Task>, s: TaskStatus): real {
    if tasks == [] then 0.0 else (if tasks[0].status == s then tasks[0].effort else 0.0) + EffortWith(tasks[1..], s)
  }

  /** The effort of each story's tasks with one status, story by story (`completed` for DONE,
      `inProgress` for IN_PROGRESS). */
  function StoryEffortWith(stories: seq<Story>, tasks: seq<Task>, s: TaskStatus): real {
    if stories == [] then 0.0 else EffortWith(StoryTasks(tasks, stories[0].id), s) + StoryEffortWith(stories[1..], tasks, s)
  }

  lemma {:induction false} EffortWithAppend(a: seq<Task>, b: seq<Task>, s: TaskStatus)
    ensures EffortWith(a + b, s) == EffortWith(a, s) + EffortWith(b, s)
  {
    if a == [] {
      assert a + b == b;
    } else {
      assert (a + b)[0] == a[0] && (a + b)[1..] == a[1..] + b;
      EffortWithAppend(a[1..], b, s);
    }
  }

  /** Summing story by story is summing over all the sprint's tasks at once. */
  lemma {:induction false} StoryEffortIsFlat(stories: seq<Story>, tasks: seq<Task>, s: TaskStatus)
    ensures StoryEffortWith(stories, tasks, s) == EffortWith(AllTasks(stories, tasks), s)
  {
    if stories != [] {
      StoryEffortIsFlat(stories[1..], tasks, s);
      EffortWithAppend(StoryTasks(tasks, stories[0].id), AllTasks(stories[1..], tasks), s);
    }
  }

  /** The completed effort of the sprint metrics and the PSP `totalEffortHours` sum the
      same thing: the effort of DONE tasks. */
  lemma {:induction false} DoneEffortAgrees(tasks: seq<Task>)
    ensures EffortWith(tasks, TaskStatus.DONE) == Psp.DoneEffort(tasks)
  {
    if tasks != [] {
      DoneEffortAgrees(tasks[1..]);
    }
  }

  datatype Effort = Effort(committed: real, completed: real, remaining: real, inProgress: real, percentage: real)

  /** `calculateEffortMetrics`. `remaining` is not clamped: overrun work makes it negative. */
  function EffortMetrics(stories: seq<Story>, tasks: seq<Task>): (e: Effort)
    ensures e.completed == Psp.DoneEffort(AllTasks(stories, tasks))
    ensures e.inProgress == EffortWith(AllTasks(stories, tasks), TaskStatus.IN_PROGRESS)
    ensures e.completed + e.remaining == e.committed
    ensures e.percentage == Percent(e.completed, e.committed)
    ensures e.committed <= 0.0 ==> e.percentage == 0.0
  {
    StoryEffortIsFlat(stories, tasks, TaskStatus.DONE);
    StoryEffortIsFlat(stories, tasks, TaskStatus.IN_PROGRESS);
    DoneEffortAgrees(AllTasks(stories, tasks));
    var committed := Committed(stories);
    var completed := StoryEffortWith(stories, tasks, TaskStatus.DONE);
    Effort(committed, completed, committed - completed, StoryEffortWith(stories, tasks, TaskStatus.IN_PROGRESS),
           Percent(completed, committed))
  }

  // ---------------------------------------------------------------------------------
  // Counts by status
  // ---------------------------------------------------------------------------------

  function CountStories(stories: seq<Story>, s: StoryStatus): (n: nat)
    ensures n <= |stories|
  {
    if stories == [] then 0 else (if stories[0].status == s then 1 else 0) + CountStories(stories[1..], s)
  }

  function CountTasks(tasks: seq<Task>, s: TaskStatus): (n: nat)
    ensures n <= |tasks|
  {
    if tasks == [] then 0 else (if tasks[0].status == s then 1 else 0) + CountTasks(tasks[1..], s)
  }

  datatype StoryCounts = StoryCounts(total: nat, backlog: nat, selected: nat, inProgress: nat, testing: nat, done: nat, cancelled: nat, percentage: real)

  datatype TaskCounts = TaskCounts(total: nat, todo: nat, inProgress: nat, testing: nat, done: nat, cancelled: nat, percentage: real)

  /** `countStoriesByStatus`: every story is counted under exactly one status. */
  function CountStoriesByStatus(stories: seq<Story>): (c: StoryCounts)
    ensures c.total == |stories|
    ensures c.backlog + c.selected + c.inProgress + c.testing + c.done + c.cancelled == c.total
    ensures c.percentage == Percent(c.done as real, c.total as real)
    ensures 0.0 <= c.percentage <= 100.0
  {
    StoryCountsCover(stories);
    StoryCounts(|stories|, CountStories(stories, BACKLOG), CountStories(stories, SELECTED),
      CountStories(stories, StoryStatus.IN_PROGRESS), CountStories(stories, StoryStatus.TESTING),
      CountStories(stories, StoryStatus.DONE), CountStories(stories, StoryStatus.CANCELLED),
      Percent(CountStories(stories, StoryStatus.DONE) as real, |stories| as real))
  }

  lemma {:induction false} StoryCountsCover(stories: seq<Story>)
    ensures CountStories(stories, BACKLOG) + CountStories(stories, SELECTED) + CountStories(stories, StoryStatus.IN_PROGRESS)
      + CountStories(stories, StoryStatus.TESTING) + CountStories(stories, StoryStatus.DONE) + CountStories(stories, StoryStatus.CANCELLED)
      == |stories|
  {
    if stories != [] {
      StoryCountsCover(stories[1..]);
    }
  }

  /** `countTasksByStatus` over the sprint's tasks: every task is counted under exactly one status. */
  function CountTasksByStatus(stories: seq<Story>, tasks: seq<Task>): (c: TaskCounts)
    ensures c.total == |AllTasks(stories, tasks)|
    ensures c.todo + c.inProgress + c.testing + c.done + c.cancelled == c.total
    ensures c.done == Psp.CountDone(AllTasks(stories, tasks))
    ensures c.percentage == Percent(c.done as real, c.total as real)
    ensures 0.0 <= c.percentage <= 100.0
  {
    var all := AllTasks(stories, tasks);
    TaskCountsCover(all);
    DoneCountAgrees(all);
    TaskCounts(|all|, CountTasks(all, TODO), CountTasks(all, TaskStatus.IN_PROGRESS), CountTasks(all, TaskStatus.TESTING),
      CountTasks(all, TaskStatus.DONE), CountTasks(all, TaskStatus.CANCELLED),
      Percent(CountTasks(all, TaskStatus.DONE) as real, |all| as real))
  }

  lemma {:induction false} TaskCountsCover(tasks: seq<Task>)
    ensures CountTasks(tasks, TODO) + CountTasks(tasks, TaskStatus.IN_PROGRESS) + CountTasks(tasks, TaskStatus.TESTING)
      + CountTasks(tasks, TaskStatus.DONE) + CountTasks(tasks, TaskStatus.CANCELLED) == |tasks|
  {
    if tasks != [] {
      TaskCountsCover(tasks[1..]);
    }
  }

  lemma {:induction false} DoneCountAgrees(tasks: seq<Task>)
    ensures CountTasks(tasks, TaskStatus.DONE) == Psp.CountDone(tasks)
  {
    if tasks != [] {
      DoneCountAgrees(tasks[1..]);
    }
  }

  // ---------------------------------------------------------------------------------
  // Timeline and velocity
  // ---------------------------------------------------------------------------------

  /** `Math.ceil(a / d)` for a positive divisor. */
  function CeilDiv(a: int, d: int): (q: int)
    requires d > 0
    ensures (q - 1) * d < a <= q * d
  {
    -((-a) / d)
  }

  /** Two ceilings add up to the ceiling of the sum or one more. */
  lemma CeilDivAdd(a: int, b: int, d: int)
    requires d > 0
    ensures CeilDiv(a + b, d) <= CeilDiv(a, d) + CeilDiv(b, d) <= CeilDiv(a + b, d) + 1
  {
    var p, q, r := CeilDiv(a, d), CeilDiv(b, d), CeilDiv(a + b, d);
    assert (p + q - 2) * d < a + b <= (p + q) * d;
    assert (r - 1) * d < a + b <= r * d;
    assert (r - 1) * d < (p + q) * d;
    assert (p + q - 2) * d < r * d;
    MulLess(r - 1, p + q, d);
    MulLess(p + q - 2, r, d);
  }

  lemma MulLess(x: int, y: int, d: int)
    requires d > 0 && x * d < y * d
    ensures x < y
  {

  }

  datatype Timeline = Timeline(startDate: int, endDate: int, currentDate: int, daysTotal: int, daysElapsed: nat, daysRemaining: nat, percentageTimeElapsed: real)

  /** `calculateTimelineMetrics`: whole days, partial days counting as one. */
  function TimelineMetrics(startDate: int, endDate: int, now: int): (t: Timeline)
    ensures t.daysTotal == CeilDiv(endDate - startDate, DayMs)
    ensures t.daysElapsed == if now <= startDate then 0 else CeilDiv(now - startDate, DayMs)
    ensures t.daysRemaining == if endDate <= now then 0 else CeilDiv(endDate - now, DayMs)
    ensures t.percentageTimeElapsed == Percent(t.daysElapsed as real, t.daysTotal as real)
  {
    var total := CeilDiv(endDate - startDate, DayMs);
    var elapsed := if CeilDiv(now - startDate, DayMs) > 0 then CeilDiv(now - startDate, DayMs) else 0;
    var remaining := if CeilDiv(endDate - now, DayMs) > 0 then CeilDiv(endDate - now, DayMs) else 0;
    Timeline(startDate, endDate, now, total, elapsed, remaining, Percent(elapsed as real, total as real))
  }

  /** Inside the sprint, the elapsed and the remaining days cover the sprint, counting the
      current day at most twice. */
  lemma DaysCoverSprint(startDate: int, endDate: int, now: int)
    requires startDate <= now <= endDate
    ensures var t := TimelineMetrics(startDate, endDate, now);
      t.daysTotal <= t.daysElapsed + t.daysRemaining <= t.daysTotal + 1
  {
    CeilDivAdd(now - startDate, endDate - now, DayMs);
  }

  datatype Projection = ON_TIME | AT_RISK | DELAYED

  datatype Velocity = Velocity(planned: real, actual: real, needed: real, projection: Projection)

  /** The projection compares the actual pace with the planned pace. */
  function ProjectionOf(planned: real, actual: real): (p: Projection)
    ensures p == DELAYED <==> actual < planned * 0.8
    ensures planned >= 0.0 ==> (p == AT_RISK <==> planned * 0.8 <= actual < planned * 0.9)
    ensures planned >= 0.0 ==> (p == ON_TIME <==> actual >= planned * 0.9)
    ensures planned < 0.0 ==> p != AT_RISK
  {
    if actual < planned * 0.8 then DELAYED
    else if actual < planned * 0.9 then AT_RISK
    else ON_TIME
  }

  /** `x / days`, or 0 with no days. */
  function PerDay(x: real, days: int): (r: real)
    ensures days <= 0 ==> r == 0.0
  {
    if days > 0 then x / days as real else 0.0
  }

  /** `calculateVelocity`: planned, actual and needed effort per day (rounded), and the
      projection computed on the unrounded paces. */
  function VelocityMetrics(e: Effort, t: Timeline): (v: Velocity)
    ensures v.planned == Round2(PerDay(e.committed, t.daysTotal))
    ensures v.actual == Round2(PerDay(e.completed, t.daysElapsed))
    ensures v.needed == Round2(PerDay(e.remaining, t.daysRemaining))
    ensures v.projection == ProjectionOf(PerDay(e.committed, t.daysTotal), PerDay(e.completed, t.daysElapsed))
    ensures t.daysTotal <= 0 ==> v.planned == 0.0
  {
    var planned := PerDay(e.committed, t.daysTotal);
    var actual := PerDay(e.completed, t.daysElapsed);
    assert Round2(0.0) == 0.0;
    Velocity(Round2(planned), Round2(actual), Round2(PerDay(e.remaining, t.daysRemaining)), ProjectionOf(planned, actual))
  }

  /** `isSprintOnTrack`: the effort percentage keeps up with 90% of the elapsed-time percentage. */
  predicate OnTrack(e: Effort, t: Timeline) {
    e.percentage >= t.percentageTimeElapsed * 0.9
  }

  /** Completing more of the same commitment never takes a sprint off track. */
  lemma MoreDoneStaysOnTrack(committed: real, c1: real, c2: real, t: Timeline)
    requires c1 <= c2
    requires t.percentageTimeElapsed * 0.9 <= Percent(c1, committed)
    ensures t.percentageTimeElapsed * 0.9 <= Percent(c2, committed)
  {
    PercentMonotone(c1, c2, committed);
  }

  /** A sprint whose commitment is all done is on track until 111% of its time has elapsed;
      with nothing committed it is on track only while no time has elapsed. */
  lemma OnTrackExtremes(e: Effort, t: Timeline)
    requires e.percentage == Percent(e.completed, e.committed)
    ensures e.committed > 0.0 && e.completed == e.committed ==> (OnTrack(e, t) <==> t.percentageTimeElapsed * 0.9 <= 100.0)
    ensures e.committed <= 0.0 ==> (OnTrack(e, t) <==> t.percentageTimeElapsed <= 0.0)
  {
  }

  datatype Metrics = Metrics(effort: Effort, stories: StoryCounts, tasks: TaskCounts, timeline: Timeline, velocity: Velocity, onTrack: bool)

  /** `calculateSprintMetrics`: the sprint's stories and their tasks measured at `now`;
      an unknown sprint is an error. */
  function CalculateSprintMetrics(sprints: seq<Sprint>, stories: seq<Story>, tasks: seq<Task>, sprintId: Id, now: int): (r: Result<Metrics, Failure>)
    ensures r.Err? <==> SprintById(sprints, sprintId).None?
    ensures r.Ok? ==> r.value.effort == EffortMetrics(SprintStories(stories, sprintId), tasks)
    ensures r.Ok? ==> r.value.stories.total == |SprintStories(stories, sprintId)|
    ensures r.Ok? ==> r.value.tasks.total == |AllTasks(SprintStories(stories, sprintId), tasks)|
    ensures r.Ok? ==> r.value.timeline == TimelineMetrics(SprintById(sprints, sprintId).value.startDate, SprintById(sprints, sprintId).value.endDate, now)
    ensures r.Ok? ==> r.value.onTrack == OnTrack(r.value.effort, r.value.timeline)
  {
    var sprint := SprintById(sprints, sprintId);
    if sprint.None? then Err(NotFound("sprint"))
    else
      var mine := SprintStories(stories, sprintId);
      var effort := EffortMetrics(mine, tasks);
      var timeline := TimelineMetrics(sprint.value.startDate, sprint.value.endDate, now);
      Ok(Metrics(effort, CountStoriesByStatus(mine), CountTasksByStatus(mine, tasks), timeline,
                 VelocityMetrics(effort, timeline), OnTrack(effort, timeline)))
  }

  // ---------------------------------------------------------------------------------
  // The ideal line
  // ---------------------------------------------------------------------------------

  function Max0(x: real): real {
    if x > 0.0 then x else 0.0
  }

  /** The ideal remaining effort on a day: the commitment burnt down linearly, rounded,
      never below 0. A zero-day sprint divides by zero in the source (not modelled). */
  function IdealPoint(committed: real, totalDays: int, day: int): real
    requires totalDays != 0
  {
    Max0(Round2(Burnt(committed, committed / (totalDays as real), day)))
  }

  /** The commitment less `day` daily decrements. */
  function Burnt(committed: real, perDay: real, day: int): real {
    committed - perDay * (day as real)
  }

  /** One ideal point per day `0..totalDays`; none when the sprint ends before it starts. */
  function IdealLine(committed: real, totalDays: int): (line: seq<real>)
    requires totalDays != 0
    ensures |line| == if totalDays < 0 then 0 else totalDays + 1
    ensures forall d :: 0 <= d < |line| ==> line[d] == IdealPoint(committed, totalDays, d)
  {
    seq(if totalDays < 0 then 0 else totalDays + 1, d => IdealPoint(committed, totalDays, d))
  }

  /** `generateIdealLine`: the loop that pushes one point per day. */
  method GenerateIdealLine(committed: real, totalDays: int) returns (line: seq<real>)
    requires totalDays != 0
    ensures line == IdealLine(committed, totalDays)
  {
    var decrementPerDay := committed / (totalDays as real);
    line := [];
    var day := 0;
    while day <= totalDays
      invariant 0 <= day && (totalDays >= 0 ==> day <= totalDays + 1) && (totalDays < 0 ==> day == 0)
      invariant |line| == day
      invariant forall d :: 0 <= d < day ==> line[d] == IdealPoint(committed, totalDays, d)
    {
      var value := committed - decrementPerDay * (day as real);
      assert value == Burnt(committed, decrementPerDay, day);
      line := line + [Max0(Round2(value))];
      day := day + 1;
    }
  }

  /** For a real sprint with a non-negative commitment the ideal line starts at the
      commitment (to the cent), ends at 0, never rises and never goes negative. */
  lemma IdealLineShape(committed: real, totalDays: int)
    requires totalDays > 0 && committed >= 0.0
    ensures var line := IdealLine(committed, totalDays);
      |line| == totalDays + 1 && line[0] == Round2(committed) && line[totalDays] == 0.0
      && (forall d :: 0 <= d < |line| ==> line[d] >= 0.0)
      && (forall d, e :: 0 <= d <= e < |line| ==> line[e] <= line[d])
  {
    var line := IdealLine(committed, totalDays);
    Round2Close(committed);
    Round2Monotone(0.0, committed);
    assert Round2(0.0) == 0.0;
    var step := committed / (totalDays as real);
    assert step * (totalDays as real) == committed;
    assert Burnt(committed, step, totalDays) == 0.0;
    assert Burnt(committed, step, 0) == committed;
    forall d, e | 0 <= d <= e < |line|
      ensures line[e] <= line[d]
    {
      IdealPointDecreases(committed, totalDays, d, e);
    }
  }

  lemma IdealPointDecreases(committed: real, totalDays: int, d: int, e: int)
    requires totalDays > 0 && committed >= 0.0 && d <= e
    ensures IdealPoint(committed, totalDays, e) <= IdealPoint(committed, totalDays, d)
  {
    var step := committed / (totalDays as real);
    assert step >= 0.0;
    assert step * (e as real) - step * (d as real) == step * ((e - d) as real);
    assert step * ((e - d) as real) >= 0.0;
    Round2Monotone(Burnt(committed, step, e), Burnt(committed, step, d));
  }
}
