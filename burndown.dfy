/** The burndown chart of a sprint: daily snapshots of its effort keyed by (sprint, day),
    the chart's dates with the ideal and the actual line, and the daily job that snapshots
    every running sprint. Times are milliseconds; a day starts at a multiple of `DayMs`
    (the server's time zone and daylight-saving shifts are not modelled). */
module Burndown {
  import opened Wrappers
  import opened Scrum
  import opened Backlog
  import opened SprintMetrics

  /** `setHours(0, 0, 0, 0)`: the start of the day holding `t`. */
  function Midnight(t: int): (m: int)
    ensures m <= t < m + DayMs && m % DayMs == 0
  {
    t - t % DayMs
  }

  lemma MidnightOfMidnight(t: int)
    ensures Midnight(Midnight(t)) == Midnight(t)
  {
  }

  /** A row of the burndown-snapshot table. */
  datatype Snapshot = Snapshot(
    id: Id,
    sprintId: Id,
    date: int,
    effortRemaining: real,
    effortCompleted: real,
    effortCommitted: real,
    storiesCompleted: nat,
    storiesTotal: nat,
    tasksCompleted: nat,
    tasksTotal: nat)

  function Key(s: Snapshot): (Id, int) {
    (s.sprintId, s.date)
  }

  /** The unique key `sprintId_date`. */
  predicate UniqueKeys(rows: seq<Snapshot>) {
    forall i, j :: 0 <= i < j < |rows| ==> Key(rows[i]) != Key(rows[j])
  }

  /** Stored dates are midnights. */
  predicate Midnights(rows: seq<Snapshot>) {
    forall i :: 0 <= i < |rows| ==> rows[i].date % DayMs == 0
  }

  /** The sprint has a snapshot for that day. */
  predicate HasSnapshot(rows: seq<Snapshot>, sprintId: Id, day: int) {
    exists s :: s in rows && Key(s) == (sprintId, day)
  }

  /** `burndownSnapshot.findMany({ where: { sprintId } })` (the date ordering is not modelled). */
  function SnapshotsOf(rows: seq<Snapshot>, sprintId: Id): (r: seq<Snapshot>)
    ensures forall s :: s in r <==> s in rows && s.sprintId == sprintId
  {
    if rows == [] then []
    else (if rows[0].sprintId == sprintId then [rows[0]] else []) + SnapshotsOf(rows[1..], sprintId)
  }

  /** Appending a row adds it to the sprint's snapshots exactly when it is the sprint's. */
  lemma {:induction false} SnapshotsOfAppend(rows: seq<Snapshot>, x: Snapshot, sprintId: Id)
    ensures SnapshotsOf(rows + [x], sprintId) == SnapshotsOf(rows, sprintId) + (if x.sprintId == sprintId then [x] else [])
  {
    if rows != [] {
      assert (rows + [x])[1..] == rows[1..] + [x];
      SnapshotsOfAppend(rows[1..], x, sprintId);
    }
  }

  /** `findUnique({ where: { sprintId_date } })`. */
  function FindSnapshot(rows: seq<Snapshot>, sprintId: Id, day: int): (r: Option<Snapshot>)
    ensures r.Some? <==> HasSnapshot(rows, sprintId, day)
    ensures r.Some? ==> r.value in rows && Key(r.value) == (sprintId, day)
  {
    if rows == [] then None
    else if Key(rows[0]) == (sprintId, day) then Some(rows[0])
    else FindSnapshot(rows[1..], sprintId, day)
  }

  /** The figures a snapshot records, taken from the sprint metrics. */
  function Recorded(id: Id, sprintId: Id, day: int, m: Metrics): (s: Snapshot)
    ensures s.effortRemaining + s.effortCompleted == s.effortCommitted
      <== m.effort.completed + m.effort.remaining == m.effort.committed
    ensures s.storiesCompleted <= s.storiesTotal && s.tasksCompleted <= s.tasksTotal
      <== m.stories.done <= m.stories.total && m.tasks.done <= m.tasks.total
  {
    Snapshot(id, sprintId, day, m.effort.remaining, m.effort.completed, m.effort.committed,
             m.stories.done, m.stories.total, m.tasks.done, m.tasks.total)
  }

  /** The update-or-create of `createSnapshot`: the row with the same key keeps its id and
      takes the new figures, otherwise the row is appended. */
  function Put(rows: seq<Snapshot>, row: Snapshot): (r: seq<Snapshot>)
    ensures |r| == |rows| + (if HasSnapshot(rows, row.sprintId, row.date) then 0 else 1)
    ensures forall k :: 0 <= k < |rows| ==> Key(r[k]) == Key(rows[k]) && r[k].id == rows[k].id
    ensures forall k :: 0 <= k < |rows| && Key(rows[k]) != Key(row) ==> r[k] == rows[k]
  {
    if HasSnapshot(rows, row.sprintId, row.date) then
      seq(|rows|, k requires 0 <= k < |rows| => if Key(rows[k]) == Key(row) then row.(id := rows[k].id) else rows[k])
    else rows + [row]
  }

  /** A put keeps the key unique, leaves one row under the key with the new figures, keeps
      every other snapshot, and adds a row only for a new day. */
  lemma PutSpec(rows: seq<Snapshot>, row: Snapshot)
    requires UniqueKeys(rows)
    ensures UniqueKeys(Put(rows, row))
    ensures HasSnapshot(Put(rows, row), row.sprintId, row.date)
    ensures forall x :: x in Put(rows, row) && Key(x) == Key(row) ==> x.(id := row.id) == row
    ensures forall x :: x in rows && Key(x) != Key(row) ==> x in Put(rows, row)
    ensures |Put(rows, row)| == |rows| + (if HasSnapshot(rows, row.sprintId, row.date) then 0 else 1)
    ensures Midnights(rows) && row.date % DayMs == 0 ==> Midnights(Put(rows, row))
  {
    var r := Put(rows, row);
    if HasSnapshot(rows, row.sprintId, row.date) {
      var x :| x in rows && Key(x) == (row.sprintId, row.date);
      var k :| 0 <= k < |rows| && rows[k] == x;
      assert r[k] == row.(id := rows[k].id);
      forall y | y in rows && Key(y) != Key(row)
        ensures y in r
      {
        var j :| 0 <= j < |rows| && rows[j] == y;
        assert r[j] == y;
      }
    } else {
      assert r[|rows|] == row;
      forall y | y in r && Key(y) == Key(row)
        ensures y.(id := row.id) == row
      {
        var j :| 0 <= j < |r| && r[j] == y;
      }
    }
  }

  /** Snapshotting the same day twice adds no second row. */
  lemma PutTwiceOneRow(rows: seq<Snapshot>, a: Snapshot, b: Snapshot)
    requires UniqueKeys(rows) && Key(a) == Key(b)
    ensures |Put(Put(rows, a), b)| == |Put(rows, a)|
  {
    PutSpec(rows, a);
  }

  // ---------------------------------------------------------------------------------
  // The actual line
  // ---------------------------------------------------------------------------------

  /** `snapshots.find(...)` for a day: the first snapshot whose date falls on it. */
  function OnDay(snaps: seq<Snapshot>, day: int): (r: Option<Snapshot>)
    ensures r.Some? <==> exists s :: s in snaps && Midnight(s.date) == day
    ensures r.Some? ==> r.value in snaps && Midnight(r.value.date) == day
  {
    if snaps == [] then None
    else if Midnight(snaps[0].date) == day then Some(snaps[0])
    else OnDay(snaps[1..], day)
  }

  /** The value carried after the first `i + 1` dates: the remaining effort of the latest
      day with a snapshot, or the initial effort before any. */
  function Known(dates: seq<int>, snaps: seq<Snapshot>, initial: real, i: nat): real
    requires i < |dates|
  {
    var s := OnDay(snaps, Midnight(dates[i]));
    if s.Some? then s.value.effortRemaining
    else if i == 0 then initial
    else Known(dates, snaps, initial, i - 1)
  }

  /** Before the first day with a snapshot the line holds the initial effort. */
  lemma {:induction false} KnownBeforeFirstSnapshot(dates: seq<int>, snaps: seq<Snapshot>, initial: real, i: nat)
    requires i < |dates|
    requires forall j :: 0 <= j <= i ==> OnDay(snaps, Midnight(dates[j])).None?
    ensures Known(dates, snaps, initial, i) == initial
  {
    if i > 0 {
      KnownBeforeFirstSnapshot(dates, snaps, initial, i - 1);
    }
  }

  /** After a snapshot day the line carries that snapshot's value until the next one. */
  lemma {:induction false} KnownCarriesForward(dates: seq<int>, snaps: seq<Snapshot>, initial: real, j: nat, i: nat)
    requires j <= i < |dates|
    requires OnDay(snaps, Midnight(dates[j])).Some?
    requires forall m :: j < m <= i ==> OnDay(snaps, Midnight(dates[m])).None?
    ensures Known(dates, snaps, initial, i) == OnDay(snaps, Midnight(dates[j])).value.effortRemaining
  {
    if i > j {
      KnownCarriesForward(dates, snaps, initial, j, i - 1);
    }
  }

  /** The actual line: the carried values, with the last point replaced by the current
      remaining effort. */
  function ActualLine(dates: seq<int>, snaps: seq<Snapshot>, initial: real, current: real): (line: seq<real>)
    ensures |line| == |dates|
    ensures |line| > 0 ==> line[|line| - 1] == current
    ensures forall i :: 0 <= i < |line| - 1 ==> line[i] == Known(dates, snaps, initial, i)
  {
    var carried := seq(|dates|, i requires 0 <= i < |dates| => Known(dates, snaps, initial, i));
    if |carried| > 0 then carried[|carried| - 1 := current] else carried
  }

  /** `generateActualLineWithDates`: the loop that carries the last known value forward,
      then the overwrite of the final point. */
  method GenerateActualLineWithDates(dates: seq<int>, snaps: seq<Snapshot>, initial: real, current: real) returns (line: seq<real>)
    ensures line == ActualLine(dates, snaps, initial, current)
  {
    line := [];
    var lastKnownValue := initial;
    var i := 0;
    while i < |dates|
      invariant 0 <= i <= |dates| && |line| == i
      invariant forall j :: 0 <= j < i ==> line[j] == Known(dates, snaps, initial, j)
      invariant i > 0 ==> lastKnownValue == Known(dates, snaps, initial, i - 1)
      invariant i == 0 ==> lastKnownValue == initial
    {
      var snapshot := OnDay(snaps, Midnight(dates[i]));
      if snapshot.Some? {
        lastKnownValue := snapshot.value.effortRemaining;
      }
      line := line + [lastKnownValue];
      i := i + 1;
    }
    if |line| > 0 {
      line := line[|line| - 1 := current];
    }
  }

  // ---------------------------------------------------------------------------------
  // Chart data
  // ---------------------------------------------------------------------------------

  /** The chart's dates: one per day from the start, `totalDays + 1` of them. */
  function Dates(startDate: int, totalDays: int): (dates: seq<int>)
    ensures |dates| == if totalDays < 0 then 0 else totalDays + 1
    ensures forall i :: 0 <= i < |dates| ==> dates[i] == startDate + i * DayMs
  {
    seq(if totalDays < 0 then 0 else totalDays + 1, i => startDate + i * DayMs)
  }

  /** `daysElapsed` of the chart: the elapsed days clamped to `[0, totalDays]`. */
  function ChartDaysElapsed(startDate: int, totalDays: int, now: int): (d: int)
    ensures d >= 0
    ensures totalDays >= 0 ==> d <= totalDays
  {
    var elapsed := CeilDiv(now - startDate, DayMs);
    var capped := if totalDays < elapsed then totalDays else elapsed;
    if capped > 0 then capped else 0
  }

  /** The ideal line is absent for a sprint that ends the day it starts: the source divides
      by zero days there. */
  datatype Chart = Chart(dates: seq<int>, idealLine: Option<seq<real>>, actualLine: seq<real>, effortCommitted: real, totalDays: int, daysElapsed: int)

  /** `generateChartData`. */
  method GenerateChartData(sprint: Sprint, snaps: seq<Snapshot>, effort: Effort, now: int) returns (c: Chart)
    ensures c.totalDays == CeilDiv(sprint.endDate - sprint.startDate, DayMs)
    ensures c.dates == Dates(sprint.startDate, c.totalDays)
    ensures c.idealLine == if c.totalDays == 0 then None else Some(IdealLine(effort.committed, c.totalDays))
    ensures c.actualLine == ActualLine(c.dates, snaps, effort.committed, effort.remaining)
    ensures c.effortCommitted == effort.committed && c.daysElapsed == ChartDaysElapsed(sprint.startDate, c.totalDays, now)
  {
    var totalDays := CeilDiv(sprint.endDate - sprint.startDate, DayMs);
    var dates: seq<int> := [];
    var i := 0;
    while i <= totalDays
      invariant 0 <= i && (totalDays >= 0 ==> i <= totalDays + 1) && (totalDays < 0 ==> i == 0)
      invariant dates == Dates(sprint.startDate, i - 1)
    {
      dates := dates + [sprint.startDate + i * DayMs];
      i := i + 1;
    }
    var idealLine: Option<seq<real>> := None;
    if totalDays != 0 {
      var line := GenerateIdealLine(effort.committed, totalDays);
      idealLine := Some(line);
    }
    var actualLine := GenerateActualLineWithDates(dates, snaps, effort.committed, effort.remaining);
    c := Chart(dates, idealLine, actualLine, effort.committed, totalDays, ChartDaysElapsed(sprint.startDate, totalDays, now));
  }

  /** The lines of a chart line up with its dates, and the dates are consecutive days. */
  lemma ChartShape(c: Chart, sprint: Sprint, snaps: seq<Snapshot>, effort: Effort)
    requires c.totalDays > 0 && c.dates == Dates(sprint.startDate, c.totalDays)
    requires c.idealLine == Some(IdealLine(effort.committed, c.totalDays))
    requires c.actualLine == ActualLine(c.dates, snaps, effort.committed, effort.remaining)
    ensures |c.dates| == c.totalDays + 1 && |c.idealLine.value| == |c.dates| && |c.actualLine| == |c.dates|
    ensures forall i :: 0 <= i < |c.dates| - 1 ==> c.dates[i + 1] - c.dates[i] == DayMs
    ensures c.dates[0] == sprint.startDate
  {
  }

  // ---------------------------------------------------------------------------------
  // The service
  // ---------------------------------------------------------------------------------

  datatype BurndownChart = BurndownChart(sprint: Sprint, chart: Chart, dailySnapshots: seq<Snapshot>, metrics: Metrics)

  /** The snapshot table after snapshotting a sprint on a day: its figures recorded under
      (sprint, day), or an error for an unknown sprint. */
  function Snapshotted(sprints: seq<Sprint>, stories: seq<Story>, tasks: seq<Task>, rows: seq<Snapshot>, sprintId: Id, day: int, id: Id, now: int): (r: Result<(Snapshot, seq<Snapshot>), Failure>)
    requires UniqueKeys(rows)
    ensures r.Err? <==> SprintById(sprints, sprintId).None?
    ensures r.Err? ==> r.error.NotFound?
    ensures r.Ok? ==> UniqueKeys(r.value.1) && HasSnapshot(r.value.1, sprintId, day) && r.value.1 == Put(rows, r.value.0)
    ensures r.Ok? ==> r.value.0 == Recorded(id, sprintId, day, CalculateSprintMetrics(sprints, stories, tasks, sprintId, now).value)
    ensures r.Ok? ==> forall x :: x in rows && Key(x) != (sprintId, day) ==> x in r.value.1
    ensures r.Ok? && Midnights(rows) && day % DayMs == 0 ==> Midnights(r.value.1)
  {
    if SprintById(sprints, sprintId).None? then Err(NotFound("sprint"))
    else
      var m := CalculateSprintMetrics(sprints, stories, tasks, sprintId, now);
      var row := Recorded(id, sprintId, day, m.value);
      PutSpec(rows, row);
      Ok((row, Put(rows, row)))
  }

  /** The ids of the running sprints, in table order. */
  function RunningSprintIds(sprints: seq<Sprint>): (ids: seq<Id>)
    ensures forall id :: id in ids <==> exists s :: s in sprints && s.id == id && s.status == SprintStatus.IN_PROGRESS
    ensures |ids| <= |sprints|
  {
    if sprints == [] then []
    else
      var rest := RunningSprintIds(sprints[1..]);
      assert forall s :: s in sprints <==> s == sprints[0] || s in sprints[1..];
      (if sprints[0].status == SprintStatus.IN_PROGRESS then [sprints[0].id] else []) + rest
  }

  /** The loop of `createDailySnapshotsForActiveSprints`: a snapshot for today per running
      sprint, counting the ones that succeeded. */
  method SnapshotAll(sprints: seq<Sprint>, stories: seq<Story>, tasks: seq<Task>, rows0: seq<Snapshot>, ids: seq<Id>, newIds: seq<Id>, now: int)
    returns (rows: seq<Snapshot>, count: nat)
    requires UniqueKeys(rows0) && Midnights(rows0) && |newIds| == |ids|
    ensures UniqueKeys(rows) && Midnights(rows)
    ensures count == Found(sprints, ids)
    ensures forall k :: 0 <= k < |ids| && SprintById(sprints, ids[k]).Some? ==> HasSnapshot(rows, ids[k], Midnight(now))
    ensures forall x :: x in rows0 && x.date != Midnight(now) ==> x in rows
  {
    rows := rows0;
    count := 0;
    var day := Midnight(now);
    var k := 0;
    while k < |ids|
      invariant Swept(sprints, rows0, rows, ids, k, count, day)
    {
      SweptStep(sprints, stories, tasks, rows0, rows, ids, newIds, k, count, day, now);
      var step := Snapshotted(sprints, stories, tasks, rows, ids[k], day, newIds[k], now);
      if step.Ok? {
        rows := step.value.1;
        count := count + 1;
      }
      k := k + 1;
    }
    assert ids[..k] == ids;
  }

  /** The state of the snapshot loop after its first `k` ids: the table still has unique
      keys and midnight dates, `count` is the number of those ids that named a sprint, each
      such sprint has today's snapshot, and no row of another day was lost. */
  ghost predicate Swept(sprints: seq<Sprint>, rows0: seq<Snapshot>, rows: seq<Snapshot>, ids: seq<Id>, k: nat, count: nat, day: int) {
    k <= |ids| && UniqueKeys(rows) && Midnights(rows)
    && count == Found(sprints, ids[..k])
    && (forall j :: 0 <= j < k && SprintById(sprints, ids[j]).Some? ==> HasSnapshot(rows, ids[j], day))
    && (forall x :: x in rows0 && x.date != day ==> x in rows)
  }

  /** One round of the snapshot loop keeps `Swept`. */
  lemma SweptStep(sprints: seq<Sprint>, stories: seq<Story>, tasks: seq<Task>, rows0: seq<Snapshot>, rows: seq<Snapshot>, ids: seq<Id>, newIds: seq<Id>, k: nat, count: nat, day: int, now: int)
    requires k < |ids| == |newIds| && day % DayMs == 0
    requires Swept(sprints, rows0, rows, ids, k, count, day)
    ensures var step := Snapshotted(sprints, stories, tasks, rows, ids[k], day, newIds[k], now);
      Swept(sprints, rows0, if step.Ok? then step.value.1 else rows, ids, k + 1, if step.Ok? then count + 1 else count, day)
  {
    var step := Snapshotted(sprints, stories, tasks, rows, ids[k], day, newIds[k], now);
    ghost var next := ids[..k + 1];
    assert next[..|next| - 1] == ids[..k] && next[|next| - 1] == ids[k];
    if step.Ok? {
      KeptSnapshots(rows, step.value.1, ids, k, sprints, day);
    }
  }

  /** A put under one key leaves the snapshots of the other sprints in place. */
  lemma KeptSnapshots(before: seq<Snapshot>, after: seq<Snapshot>, ids: seq<Id>, k: nat, sprints: seq<Sprint>, day: int)
    requires k < |ids|
    requires forall j :: 0 <= j < k && SprintById(sprints, ids[j]).Some? ==> HasSnapshot(before, ids[j], day)
    requires forall x :: x in before && Key(x) != (ids[k], day) ==> x in after
    requires HasSnapshot(after, ids[k], day)
    ensures forall j :: 0 <= j < k + 1 && SprintById(sprints, ids[j]).Some? ==> HasSnapshot(after, ids[j], day)
  {
    forall j | 0 <= j < k && SprintById(sprints, ids[j]).Some?
      ensures HasSnapshot(after, ids[j], day)
    {
      KeptSnapshot(before, after, ids[j], day, ids[k]);
    }
  }

  /** A put under one key leaves the snapshots of other sprints in place. */
  lemma KeptSnapshot(before: seq<Snapshot>, after: seq<Snapshot>, sprintId: Id, day: int, other: Id)
    requires HasSnapshot(before, sprintId, day)
    requires forall x :: x in before && Key(x) != (other, day) ==> x in after
    requires HasSnapshot(after, other, day)
    ensures HasSnapshot(after, sprintId, day)
  {
    if sprintId != other {
      var x :| x in before && Key(x) == (sprintId, day);
      assert x in after;
    }
  }

  /** The number of ids that name a sprint of the table. */
  function Found(sprints: seq<Sprint>, ids: seq<Id>): nat {
    if ids == [] then 0
    else Found(sprints, ids[..|ids| - 1]) + (if SprintById(sprints, ids[|ids| - 1]).Some? then 1 else 0)
  }

  /** When every id names a sprint, every id is counted. */
  lemma {:induction false} FoundAll(sprints: seq<Sprint>, ids: seq<Id>)
    requires forall k :: 0 <= k < |ids| ==> SprintById(sprints, ids[k]).Some?
    ensures Found(sprints, ids) == |ids|
  {
    if ids != [] {
      FoundAll(sprints, ids[..|ids| - 1]);
    }
  }

  class BurndownService {
    var sprints: seq<Sprint>
    var stories: seq<Story>
    var tasks: seq<Task>
    var snapshots: seq<Snapshot>

    /** One snapshot per (sprint, day), dated at midnight. */
    predicate Valid()
      reads this
    {
      UniqueKeys(snapshots) && Midnights(snapshots)
    }

    constructor(sprints0: seq<Sprint>, stories0: seq<Story>, tasks0: seq<Task>)
      ensures Valid() && sprints == sprints0 && stories == stories0 && tasks == tasks0 && snapshots == []
    {
      sprints := sprints0;
      stories := stories0;
      tasks := tasks0;
      snapshots := [];
    }

    /** `createSnapshot`: the sprint's figures recorded for the day of `date` (today when
        absent), updating that day's row when there is one. `id` is the id a new row gets. */
    method CreateSnapshot(sprintId: Id, date: Option<int>, id: Id, now: int) returns (r: Result<Snapshot, Failure>)
      requires Valid()
      modifies this
      ensures Valid() && sprints == old(sprints) && stories == old(stories) && tasks == old(tasks)
      ensures r.Err? <==> SprintById(sprints, sprintId).None?
      ensures r.Err? ==> unchanged(this)
      ensures r.Ok? ==> Key(r.value) == (sprintId, Midnight(date.GetOr(now)))
      ensures r.Ok? ==> snapshots == Put(old(snapshots), r.value)
      ensures r.Ok? ==> r.value == Recorded(id, sprintId, Midnight(date.GetOr(now)), CalculateSprintMetrics(sprints, stories, tasks, sprintId, now).value)
    {
      var step := Snapshotted(sprints, stories, tasks, snapshots, sprintId, Midnight(date.GetOr(now)), id, now);
      if step.Err? {
        return Err(step.error);
      }
      snapshots := step.value.1;
      r := Ok(step.value.0);
    }

    /** `updateSnapshotOnChange`: today's snapshot of the sprint, created or refreshed. */
    method UpdateSnapshotOnChange(sprintId: Id, id: Id, now: int) returns (r: Result<Snapshot, Failure>)
      requires Valid()
      modifies this
      ensures Valid() && sprints == old(sprints) && stories == old(stories) && tasks == old(tasks)
      ensures r.Err? <==> SprintById(sprints, sprintId).None?
      ensures r.Err? ==> unchanged(this)
      ensures r.Ok? ==> HasSnapshot(snapshots, sprintId, Midnight(now))
      ensures r.Ok? ==> snapshots == Put(old(snapshots), r.value)
      ensures r.Ok? ==> r.value == Recorded(id, sprintId, Midnight(now), CalculateSprintMetrics(sprints, stories, tasks, sprintId, now).value)
    {
      MidnightOfMidnight(now);
      r := CreateSnapshot(sprintId, Some(Midnight(now)), id, now);
      if r.Ok? {
        PutSpec(old(snapshots), r.value);
      }
    }

    /** `getBurndownChart`: a running sprint without a snapshot today gets one first; then
        the chart is built from the sprint's snapshots and metrics. */
    method GetBurndownChart(sprintId: Id, id: Id, now: int) returns (r: Result<BurndownChart, Failure>)
      requires Valid()
      modifies this
      ensures Valid() && sprints == old(sprints) && stories == old(stories) && tasks == old(tasks)
      ensures r.Err? <==> SprintById(sprints, sprintId).None?
      ensures r.Err? ==> unchanged(this)
      ensures r.Ok? && r.value.sprint.status == SprintStatus.IN_PROGRESS ==> HasSnapshot(snapshots, sprintId, Midnight(now))
      ensures r.Ok? && r.value.sprint.status != SprintStatus.IN_PROGRESS ==> snapshots == old(snapshots)
      ensures r.Ok? && HasSnapshot(old(snapshots), sprintId, Midnight(now)) ==> |snapshots| == |old(snapshots)|
      ensures r.Ok? ==> r.value.sprint == SprintById(sprints, sprintId).value
      ensures r.Ok? ==> r.value.metrics == CalculateSprintMetrics(sprints, stories, tasks, sprintId, now).value
      ensures r.Ok? ==> r.value.dailySnapshots == SnapshotsOf(snapshots, sprintId)
      ensures r.Ok? ==> var c := r.value.chart; var sp := r.value.sprint;
        c.totalDays == CeilDiv(sp.endDate - sp.startDate, DayMs)
        && c.dates == Dates(sp.startDate, c.totalDays)
        && c.idealLine == (if c.totalDays == 0 then None else Some(IdealLine(r.value.metrics.effort.committed, c.totalDays)))
        && c.effortCommitted == r.value.metrics.effort.committed
        && c.daysElapsed == ChartDaysElapsed(sp.startDate, c.totalDays, now)
      ensures r.Ok? ==> r.value.chart.actualLine == ActualLine(r.value.chart.dates, r.value.dailySnapshots,
        r.value.metrics.effort.committed, r.value.metrics.effort.remaining)
    {
      var sprint := SprintById(sprints, sprintId);
      if sprint.None? {
        return Err(NotFound("sprint"));
      }
      var snaps := SnapshotsOf(snapshots, sprintId);
      if sprint.value.status == SprintStatus.IN_PROGRESS {
        var today := Midnight(now);
        if OnDay(snaps, today).None? {
          MidnightOfMidnight(now);
          forall x | x in snapshots && x.sprintId == sprintId
            ensures x.date != today
          {
            assert x in snaps;
          }
          var created := CreateSnapshot(sprintId, None, id, now);
          PutSpec(old(snapshots), created.value);
          SnapshotsOfAppend(old(snapshots), created.value, sprintId);
          snaps := snaps + [created.value];
        } else {
          var x := OnDay(snaps, today).value;
          assert Midnight(x.date) == today && x in snapshots && x.sprintId == sprintId;
          DayOfStoredSnapshot(snapshots, x);
        }
      }
      var metrics := CalculateSprintMetrics(sprints, stories, tasks, sprintId, now);
      var chart := GenerateChartData(sprint.value, snaps, metrics.value.effort, now);
      r := Ok(BurndownChart(sprint.value, chart, snaps, metrics.value));
    }

    /** `createDailySnapshotsForActiveSprints`: every running sprint gets today's snapshot,
        and the count is the number of running sprints. `newIds` are the ids new rows get. */
    method CreateDailySnapshotsForActiveSprints(newIds: seq<Id>, now: int) returns (count: nat)
      requires Valid() && |newIds| == |RunningSprintIds(sprints)|
      modifies this
      ensures Valid() && sprints == old(sprints) && stories == old(stories) && tasks == old(tasks)
      ensures forall s :: s in sprints && s.status == SprintStatus.IN_PROGRESS ==> HasSnapshot(snapshots, s.id, Midnight(now))
      ensures count == |RunningSprintIds(sprints)|
      ensures forall x :: x in old(snapshots) && x.date != Midnight(now) ==> x in snapshots
    {
      var ids := RunningSprintIds(sprints);
      RunningSprintsExist(sprints);
      var rows, n := SnapshotAll(sprints, stories, tasks, snapshots, ids, newIds, now);
      FoundAll(sprints, ids);
      forall s | s in sprints && s.status == SprintStatus.IN_PROGRESS
        ensures HasSnapshot(rows, s.id, Midnight(now))
      {
        assert s.id in ids;
        var k :| 0 <= k < |ids| && ids[k] == s.id;
      }
      snapshots := rows;
      count := n;
    }
  }

  /** Every running sprint id names a sprint of the table. */
  lemma RunningSprintsExist(sprints: seq<Sprint>)
    ensures forall k :: 0 <= k < |RunningSprintIds(sprints)| ==> SprintById(sprints, RunningSprintIds(sprints)[k]).Some?
  {
    var ids := RunningSprintIds(sprints);
    forall k | 0 <= k < |ids|
      ensures SprintById(sprints, ids[k]).Some?
    {
      assert ids[k] in ids;
      var s :| s in sprints && s.id == ids[k] && s.status == SprintStatus.IN_PROGRESS;
      var j :| 0 <= j < |sprints| && sprints[j] == s;
    }
  }

  /** A stored snapshot whose date falls on a day is that day's snapshot, because stored
      dates are midnights. */
  lemma DayOfStoredSnapshot(rows: seq<Snapshot>, x: Snapshot)
    requires x in rows && Midnights(rows)
    ensures HasSnapshot(rows, x.sprintId, Midnight(x.date))
  {
    var i :| 0 <= i < |rows| && rows[i] == x;
    assert x.date % DayMs == 0;
  }
}
